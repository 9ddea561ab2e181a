/**
 * Splitting a case in the store (cases/teamlead.service.ts, `splitCase`): the parts become
 * cases of their own, the original stays behind as a container, and parts may go straight
 * onto carts.
 */
module SplitRequest {
  import opened Options
  import opened CaseStatus
  import opened Ids
  import opened Database
  import opened StoreInvariant
  import opened BundleMutations
  import opened Placement
  import opened CaseSplit
  import opened Sorting
  import Apportionment
  import Collaboration
  import Moves

  /** The goods and the effort behind a case; effort in hundredths. */
  datatype Receipt = Receipt(totalQuantity: int, effortPoints: int, estimatedMinutes: int, positions: seq<Position>)

  datatype PartWish = PartWish(quantity: int, employee: Option<EmployeeId>)

  datatype SplitResult = SplitResult(children: seq<CaseId>, parts: seq<PartAllocation>, points: seq<int>, minutes: seq<int>)

  function Targets(wishes: seq<PartWish>): seq<int> {
    seq(|wishes|, i requires 0 <= i < |wishes| => wishes[i].quantity)
  }

  // ---------------------------------------------------------------- the parts as cases

  function WithChildren(m: map<CaseId, Case>, children: seq<CaseId>, parent: CaseId): map<CaseId, Case> {
    map x | x in m.Keys + Members(children) :: if x in children then NewCase(Ready, Some(parent)) else m[x]
  }

  method CreateChild(tx: Tables, parent: CaseId) returns (c: CaseId)
    requires Inv(tx.State())
    modifies tx
    ensures c !in old(tx.cases)
    ensures tx.State() == SetCase(old(tx.State()), c, NewCase(Ready, Some(parent)))
    ensures Inv(tx.State()) && Follows(old(tx.State()), tx.State())
  {
    c := FreshId(tx.cases.Keys);
    AddCaseKeepsInv(tx.State(), c, Ready, Some(parent));
    tx.cases := tx.cases[c := NewCase(Ready, Some(parent))];
  }

  lemma OneMoreChild(m: map<CaseId, Case>, children: seq<CaseId>, parent: CaseId, c: CaseId)
    ensures WithChildren(m, children + [c], parent) == WithChildren(m, children, parent)[c := NewCase(Ready, Some(parent))]
    ensures WithChildren(m, [], parent) == m
    ensures WithChildren(m, children, parent).Keys == m.Keys + Members(children)
  {
  }

  method CreateChildren(tx: Tables, n: nat, parent: CaseId) returns (children: seq<CaseId>)
    requires Inv(tx.State())
    modifies tx
    ensures |children| == n && Distinct(children) && forall c :: c in children ==> c !in old(tx.cases)
    ensures tx.State() == old(tx.State()).(cases := WithChildren(old(tx.cases), children, parent))
    ensures Inv(tx.State()) && Follows(old(tx.State()), tx.State())
  {
    ghost var before := tx.State();
    ghost var here := before;
    children := [];
    OneMoreChild(before.cases, [], parent, 0);
    while |children| < n
      invariant |children| <= n && Distinct(children) && forall c :: c in children ==> c !in before.cases
      invariant tx.State() == here && here == before.(cases := WithChildren(before.cases, children, parent))
      invariant Inv(here) && Follows(before, here)
    {
      var c := CreateChild(tx, parent);
      OneMoreChild(before.cases, children, parent, c);
      assert c !in Members(children);
      FollowsTransitive(before, here, tx.State());
      here := tx.State();
      children := children + [c];
    }
  }

  // ---------------------------------------------------------------- the parts on carts

  /** The part is where its wish says: on a cart of the employee, or in the pool. */
  ghost predicate Delivered(d: Store, c: CaseId, wish: PartWish, day: nat) {
    c in d.cases &&
    match wish.employee
    case None => d.cases[c].status == Ready
    case Some(e) =>
      && d.cases[c].status == Assigned && d.cases[c].bundle.Some? && IsOpenFor(d, d.cases[c].bundle.value, e, day)
      && c in d.items && d.items[c].bundle == d.cases[c].bundle.value
  }

  /** The item lies in the last pack of its bundle, in the first one when the bundle was empty. */
  ghost predicate InLastPack(items: map<CaseId, Item>, row: Item) {
    && (forall x :: x in items && items[x].bundle == row.bundle ==> items[x].pack <= row.pack)
    && (row.pack == 0 || exists x :: x in items && items[x].bundle == row.bundle && items[x].pack == row.pack)
  }

  /**
   * What handing out parts leaves alone: other cases, other items, bundles that exist. What
   * it adds: the team lead's items in the last packs, and empty bundles that begin with pack 0.
   */
  ghost predicate OnlyPlaces(d: Store, e: Store, children: seq<CaseId>) {
    && e.cases.Keys == d.cases.Keys
    && (forall x :: x in d.cases && x !in children ==> e.cases[x] == d.cases[x])
    && (forall x :: x in d.items ==> x in e.items && e.items[x] == d.items[x])
    && (forall b :: b in d.bundles ==> b in e.bundles && e.bundles[b] == d.bundles[b])
    && e.participants == d.participants && e.stops == d.stops
    && (forall x :: x in e.items && x !in d.items ==>
          x in children && e.items[x].createdBy == ByTeamlead && InLastPack(d.items, e.items[x]))
    && (forall b :: b in e.bundles && b !in d.bundles ==> e.bundles[b].status == BundleAssigned && e.bundles[b].activePack == 0)
  }

  /** The first `i` parts are where they belong, the others wait in the pool. */
  ghost predicate DeliveredUpTo(d: Store, children: seq<CaseId>, wishes: seq<PartWish>, day: nat, i: nat)
    requires |children| == |wishes|
  {
    && (forall k :: 0 <= k < |children| && k < i ==> Delivered(d, children[k], wishes[k], day))
    && (forall k :: i <= k < |children| ==> children[k] in d.cases && d.cases[children[k]].status == Ready)
  }

  /** The last pack stays the last one while others join it. */
  lemma LastPackStays(before: map<CaseId, Item>, here: map<CaseId, Item>, row: Item)
    requires forall x :: x in before ==> x in here && here[x] == before[x]
    requires forall x :: x in here && x !in before ==> InLastPack(before, here[x])
    requires InLastPack(here, row)
    ensures InLastPack(before, row)
  {
    if row.pack > 0 {
      var x :| x in here && here[x].bundle == row.bundle && here[x].pack == row.pack;
      assert x !in before ==> InLastPack(before, here[x]);
    }
  }

  lemma {:induction false} PlacesCompose(before: Store, here: Store, now: Store, children: seq<CaseId>, c: CaseId)
    requires c in children
    requires OnlyPlaces(before, here, children) && OnlyPlaces(here, now, [c])
    ensures OnlyPlaces(before, now, children)
  {
    forall x | x in now.items && x !in before.items
      ensures x in children && now.items[x].createdBy == ByTeamlead && InLastPack(before.items, now.items[x])
    {
      if x in here.items {
        assert now.items[x] == here.items[x];
      } else {
        LastPackStays(before.items, here.items, now.items[x]);
      }
    }
  }

  lemma {:induction false} DeliveredStays(here: Store, now: Store, k: CaseId, c: CaseId, wish: PartWish, day: nat)
    requires Delivered(here, k, wish, day) && k != c && OnlyPlaces(here, now, [c])
    ensures Delivered(now, k, wish, day)
  {
  }

  lemma {:induction false} OneMoreDelivered(before: Store, here: Store, now: Store, children: seq<CaseId>, wishes: seq<PartWish>, day: nat, i: nat)
    requires |children| == |wishes| && i < |children| && Distinct(children)
    requires DeliveredUpTo(here, children, wishes, day, i)
    requires Delivered(now, children[i], wishes[i], day)
    requires OnlyPlaces(before, here, children) && OnlyPlaces(here, now, [children[i]])
    ensures DeliveredUpTo(now, children, wishes, day, i + 1)
    ensures OnlyPlaces(before, now, children)
  {
    PlacesCompose(before, here, now, children, children[i]);
    forall k | 0 <= k < i ensures Delivered(now, children[k], wishes[k], day) {
      DeliveredStays(here, now, children[k], children[i], wishes[k], day);
    }
    forall k | i < k < |children| ensures children[k] in now.cases && now.cases[children[k]].status == Ready {
      assert children[k] !in [children[i]];
    }
  }

  ghost predicate HandedOut(before: Store, here: Store, children: seq<CaseId>, wishes: seq<PartWish>, day: nat, i: nat)
    requires |children| == |wishes|
  {
    DeliveredUpTo(here, children, wishes, day, i) && OnlyPlaces(before, here, children)
  }

  /** One turn of the hand-out. */
  method DeliverNext(tx: Tables, ghost before: Store, children: seq<CaseId>, wishes: seq<PartWish>, day: nat, i: nat)
    returns (outcome: Outcome)
    requires Inv(tx.State()) && |children| == |wishes| && Distinct(children) && i < |wishes|
    requires HandedOut(before, tx.State(), children, wishes, day, i)
    modifies tx
    ensures outcome == Done <==> WishMayReceive(tx.staff, wishes[i])
    ensures outcome == Done ==> HandedOut(before, tx.State(), children, wishes, day, i + 1)
    ensures Inv(tx.State()) && Follows(old(tx.State()), tx.State())
  {
    ghost var here := tx.State();
    outcome := Done;
    if wishes[i].employee.Some? {
      outcome := AssignChild(tx, children[i], wishes[i].employee.value, day);
    }
    if outcome == Done {
      OneMoreDelivered(before, here, tx.State(), children, wishes, day, i);
    }
  }

  method AssignChildren(tx: Tables, children: seq<CaseId>, wishes: seq<PartWish>, day: nat) returns (outcome: Outcome)
    requires Inv(tx.State()) && |children| == |wishes| && Distinct(children)
    requires DeliveredUpTo(tx.State(), children, wishes, day, 0)
    modifies tx
    ensures outcome == Done <==> AllMayReceive(tx.staff, wishes)
    ensures outcome == Done ==> DeliveredUpTo(tx.State(), children, wishes, day, |wishes|)
    ensures outcome == Done ==> OnlyPlaces(old(tx.State()), tx.State(), children)
    ensures Inv(tx.State()) && Follows(old(tx.State()), tx.State())
  {
    ghost var before := tx.State();
    ghost var here := before;
    var i := 0;
    while i < |wishes|
      invariant 0 <= i <= |wishes| && tx.State() == here
      invariant AllMayReceive(tx.staff, wishes) <==> AllMayReceive(tx.staff, wishes[i..])
      invariant HandedOut(before, here, children, wishes, day, i)
      invariant Inv(here) && Follows(before, here)
    {
      assert wishes[i..][1..] == wishes[i + 1..];
      outcome := DeliverNext(tx, before, children, wishes, day, i);
      FollowsTransitive(before, here, tx.State());
      here := tx.State();
      if outcome != Done {
        return;
      }
      i := i + 1;
    }
    outcome := Done;
  }

  predicate AllMayReceive(staff: map<EmployeeId, bool>, wishes: seq<PartWish>) {
    wishes == [] || (WishMayReceive(staff, wishes[0]) && AllMayReceive(staff, wishes[1..]))
  }

  predicate WishMayReceive(staff: map<EmployeeId, bool>, wish: PartWish) {
    wish.employee.Some? ==> MayReceive(staff, wish.employee.value)
  }

  lemma {:induction false} AllMeansEach(staff: map<EmployeeId, bool>, wishes: seq<PartWish>)
    ensures AllMayReceive(staff, wishes) <==> forall w :: w in wishes ==> WishMayReceive(staff, w)
  {
    if wishes != [] {
      AllMeansEach(staff, wishes[1..]);
      assert wishes == [wishes[0]] + wishes[1..];
    }
  }

  lemma {:induction false} ChildPlaced(d: Store, c: CaseId, b: BundleId, e: EmployeeId, day: nat, pack: nat)
    requires c in d.cases && c !in d.items
    requires var mid := Opened(d, b, e, day); IsOpenFor(mid, b, e, day) && JoinsPack(mid.items, b, None, pack)
    ensures var mid := Opened(d, b, e, day);
      var now := PlaceAll(mid, [c], b, |ItemsOf(mid.items, b)|, pack, ByTeamlead);
      OnlyPlaces(d, now, [c]) && Delivered(now, c, PartWish(0, Some(e)), day)
  {
    var mid := Opened(d, b, e, day);
    Moves.OnePlaced(mid, c, b, |ItemsOf(mid.items, b)|, pack, ByTeamlead);
    JoinsPackMeans(mid.items, b, None, pack);
    var item := Item(b, |ItemsOf(mid.items, b)|, pack, ByTeamlead);
    assert InLastPack(d.items, item);
    var now := mid.(cases := mid.cases[c := OnBundle(mid.cases[c], b)], items := mid.items[c := item]);
    ItemPlaced(d, now, c, item, e, day);
  }

  lemma {:induction false} ItemPlaced(d: Store, now: Store, c: CaseId, item: Item, e: EmployeeId, day: nat)
    requires c in d.cases && c !in d.items && InLastPack(d.items, item) && item.createdBy == ByTeamlead
    requires now.bundles == Opened(d, item.bundle, e, day).bundles && IsOpenFor(Opened(d, item.bundle, e, day), item.bundle, e, day)
    requires now.cases == d.cases[c := OnBundle(d.cases[c], item.bundle)] && now.items == d.items[c := item]
    requires now.stops == d.stops && now.participants == d.participants
    ensures OnlyPlaces(d, now, [c]) && Delivered(now, c, PartWish(0, Some(e)), day)
  {
  }

  method AssignChild(tx: Tables, c: CaseId, e: EmployeeId, day: nat) returns (outcome: Outcome)
    requires Inv(tx.State()) && c in tx.cases && tx.cases[c].status == Ready
    modifies tx
    ensures outcome == Done <==> MayReceive(tx.staff, e)
    ensures outcome == Done ==> Delivered(tx.State(), c, PartWish(0, Some(e)), day)
    ensures outcome != Done ==> tx.State() == old(tx.State())
    ensures OnlyPlaces(old(tx.State()), tx.State(), [c])
    ensures Inv(tx.State()) && Follows(old(tx.State()), tx.State())
  {
    ghost var before := tx.State();
    var b;
    outcome, b := FindOrCreateBundle(tx, e, day);
    if outcome != Done {
      return;
    }
    ghost var mid := tx.State();
    var order := ListItems(tx, b);
    ghost var pack;
    PoolCaseIsFree(before, c);
    outcome, pack := AddCases(tx, b, order, [c], None);
    ChildPlaced(before, c, b, e, day, pack);
    FollowsTransitive(before, mid, tx.State());
  }

  // ---------------------------------------------------------------- the request

  /** The parts are there and the source is a container; the graph allows that from `ready` and `parked` only. */
  function Divided(d: Store, c: CaseId, children: seq<CaseId>): Store
    requires c in d.cases
  {
    d.(cases := WithChildren(d.cases, children, c)[c := WithStatus(d.cases[c], SplitContainer).(bundle := None)])
  }

  method Divide(tx: Tables, n: nat, c: CaseId) returns (children: seq<CaseId>)
    requires Inv(tx.State()) && MaySplit(tx.State(), c)
    modifies tx
    ensures |children| == n && Distinct(children) && forall x :: x in children ==> x !in old(tx.cases)
    ensures tx.State() == Divided(old(tx.State()), c, children)
    ensures Inv(tx.State()) && Follows(old(tx.State()), tx.State())
  {
    ghost var before := tx.State();
    children := CreateChildren(tx, n, c);
    ghost var born := tx.State();
    ContainKeepsInv(born, c);
    tx.cases := tx.cases[c := WithStatus(tx.cases[c], SplitContainer).(bundle := None)];
    var former := Collaboration.Dissolve(tx, c);
    FollowsTransitive(before, born, tx.State());
  }

  lemma ContainKeepsInv(d: Store, c: CaseId)
    requires Inv(d) && c in d.cases && d.cases[c].status in {Ready, Parked}
    ensures var e := SetCase(d, c, WithStatus(d.cases[c], SplitContainer).(bundle := None)); Inv(e) && Follows(d, e)
    ensures Dissolved(d.participants, {c}) == d.participants
  {
    PoolCaseIsFree(d, c);
    assert CaseFits(d, c);
    SetCaseKeepsInv(d, c, WithStatus(d.cases[c], SplitContainer).(bundle := None));
  }

  predicate MaySplit(d: Store, c: CaseId) {
    && c in d.cases && d.cases[c].status in {Ready, Parked}
    && d.cases[c].parent == None && d.cases[c].bundle == None
  }

  /** Who is refused with which answer, before anything is written. */
  method CheckSplit(tx: Tables, c: CaseId, receipt: Receipt, wishes: seq<PartWish>, le: (SkuLine, SkuLine) -> bool)
    returns (outcome: Outcome, parts: seq<PartAllocation>, ghost cut: seq<nat>)
    ensures outcome == NotFound <==> c !in tx.cases
    ensures outcome in {Done, NotFound, Conflict}
    ensures outcome == Done <==>
      && MaySplit(tx.State(), c)
      && SumOf(Targets(wishes)) == receipt.totalQuantity
      && 2 <= |wishes| <= |Lines(receipt.positions, le)|
      && forall t :: t in Targets(wishes) ==> t > 0
    ensures outcome == Done ==>
      && IsCut(Lines(receipt.positions, le), Targets(wishes), cut)
      && FollowsCut(Lines(receipt.positions, le), Targets(wishes), cut, parts)
  {
    parts, cut := [], [];
    if c !in tx.cases {
      return NotFound, [], [];
    }
    var source := tx.cases[c];
    if source.status != Ready && source.status != Parked {
      return Conflict, [], [];
    }
    if source.parent.Some? || source.bundle.Some? {
      return Conflict, [], [];
    }
    if SumOf(Targets(wishes)) != receipt.totalQuantity {
      return Conflict, [], [];
    }
    var allocation := AllocateParts(receipt.positions, Targets(wishes), le);
    if allocation.NotPossible? {
      assert allocation.why.TooFewParts? || allocation.why.BadTarget? || allocation.why.TooFewLines?;
      return Conflict, [], [];
    }
    parts := allocation.parts;
    cut :| IsCut(Lines(receipt.positions, le), Targets(wishes), cut)
        && FollowsCut(Lines(receipt.positions, le), Targets(wishes), cut, parts);
    outcome := Done;
  }

  method SplitCase(tx: Tables, c: CaseId, receipt: Receipt, wishes: seq<PartWish>, day: nat, le: (SkuLine, SkuLine) -> bool)
    returns (outcome: Outcome, result: SplitResult, ghost cut: seq<nat>)
    requires Inv(tx.State())
    modifies tx
    ensures outcome == Done <==>
      && MaySplit(old(tx.State()), c)
      && SumOf(Targets(wishes)) == receipt.totalQuantity
      && 2 <= |wishes| <= |Lines(receipt.positions, le)|
      && (forall t :: t in Targets(wishes) ==> t > 0)
      && (forall w :: w in wishes && w.employee.Some? ==> w.employee.value in tx.staff && tx.staff[w.employee.value])
    ensures outcome != Done ==> tx.State() == old(tx.State())
    ensures outcome == Done ==>
      && IsCut(Lines(receipt.positions, le), Targets(wishes), cut)
      && FollowsCut(Lines(receipt.positions, le), Targets(wishes), cut, result.parts)
      && Apportionment.IsApportioned(receipt.effortPoints, Quantities(result.parts), receipt.totalQuantity, result.points)
      && Apportionment.IsApportioned(receipt.estimatedMinutes, Quantities(result.parts), receipt.totalQuantity, result.minutes)
      && |result.children| == |wishes|
    ensures outcome == Done ==>
      && (forall x :: x in result.children ==> x !in old(tx.cases))
      && Distinct(result.children)
      && OnlyPlaces(Divided(old(tx.State()), c, result.children), tx.State(), result.children)
      && DeliveredUpTo(tx.State(), result.children, wishes, day, |wishes|)
    ensures Inv(tx.State()) && Follows(old(tx.State()), tx.State())
  {
    var before := tx.State();
    var parts;
    result := SplitResult([], [], [], []);
    outcome, parts, cut := CheckSplit(tx, c, receipt, wishes, le);
    if outcome != Done {
      return;
    }
    SplitTotalIsPositive(wishes);
    AllMeansEach(tx.staff, wishes);
    var points := Apportionment.Apportion(receipt.effortPoints, Quantities(parts), receipt.totalQuantity);
    var minutes := Apportionment.Apportion(receipt.estimatedMinutes, Quantities(parts), receipt.totalQuantity);
    var children := Divide(tx, |parts|, c);
    ghost var divided := tx.State();
    ChildrenAreReady(before, c, children);
    outcome := AssignChildren(tx, children, wishes, day);
    if outcome != Done {
      tx.Rollback(before);
      return;
    }
    FollowsTransitive(before, divided, tx.State());
    result := SplitResult(children, parts, points, minutes);
  }

  lemma ChildrenAreReady(d: Store, c: CaseId, children: seq<CaseId>)
    requires c in d.cases && forall x :: x in children ==> x !in d.cases
    ensures forall k :: 0 <= k < |children| ==>
      children[k] in Divided(d, c, children).cases && Divided(d, c, children).cases[children[k]].status == Ready
  {
  }

  /**
   * What a split leaves in the store: the children belong to the source, the source is a
   * container for good, no other case and no item that was there is touched.
   */
  lemma SplitMeans(d: Store, e: Store, c: CaseId, children: seq<CaseId>)
    requires Inv(d) && c in d.cases && forall x :: x in children ==> x !in d.cases
    requires OnlyPlaces(Divided(d, c, children), e, children) && Follows(Divided(d, c, children), e)
    ensures e.cases.Keys == d.cases.Keys + Members(children)
    ensures forall x :: x in children ==> e.cases[x].parent == Some(c)
    ensures e.cases[c].status == SplitContainer && e.cases[c].bundle == None && IsTerminal(e.cases[c].status)
    ensures forall x :: x in d.cases && x != c ==> e.cases[x] == d.cases[x]
    ensures forall x :: x in d.items ==> x in e.items && e.items[x] == d.items[x]
  {
    var mid := Divided(d, c, children);
    forall x | x in children ensures x in mid.cases && mid.cases[x].parent == Some(c) {
      assert x in Members(children);
    }
  }

  /** Positive wishes add up to a positive total, so effort is really apportioned. */
  lemma SplitTotalIsPositive(wishes: seq<PartWish>)
    requires wishes != [] && forall t :: t in Targets(wishes) ==> t > 0
    ensures SumOf(Targets(wishes)) > 0
  {
    forall i | 0 <= i < |wishes| ensures Targets(wishes)[i] > 0 {
      assert Targets(wishes)[i] in Targets(wishes);
    }
    PositiveSum(Targets(wishes));
  }

  lemma {:induction false} PositiveSum(xs: seq<int>)
    requires forall i :: 0 <= i < |xs| ==> xs[i] > 0
    ensures SumOf(xs) >= |xs|
  {
    if xs != [] {
      PositiveSum(xs[..|xs| - 1]);
    }
  }

  /** Where the store fits, exactly the ready and the parked cases can be split that are no part of a split themselves. */
  lemma SplitFromPool(d: Store, c: CaseId)
    requires Inv(d)
    ensures MaySplit(d, c) <==> c in d.cases && d.cases[c].status in {Ready, Parked} && d.cases[c].parent == None
  {
    assert CaseFits(d, c);
  }
}
