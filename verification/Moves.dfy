/**
 * Moving an unstarted case (cases/teamlead.service.ts, `moveCase`): to another pack of its
 * own cart, or onto another employee's cart, there behind a given pack or at the end.
 */
module Moves {
  import opened Options
  import opened CaseStatus
  import opened Ids
  import opened Database
  import opened Sorting
  import opened StoreInvariant
  import opened BundleMutations
  import opened Placement
  import PackWindow
  import Collaboration
  import Teamlead

  // ---------------------------------------------------------------- the place in the order

  /** The members of one pack, in bundle order. */
  function PackMembers(items: map<CaseId, Item>, order: seq<CaseId>, p: nat): seq<CaseId> {
    if order == [] then []
    else
      var n := |order| - 1;
      PackMembers(items, order[..n], p)
        + if order[n] in items && items[order[n]].pack == p then [order[n]] else []
  }

  lemma {:induction false} PackMembersAre(items: map<CaseId, Item>, order: seq<CaseId>, p: nat)
    ensures forall c :: c in PackMembers(items, order, p) <==> c in order && c in items && items[c].pack == p
  {
    if order != [] {
      var n := |order| - 1;
      PackMembersAre(items, order[..n], p);
      assert order == order[..n] + [order[n]];
    }
  }

  /** Place `at` is right behind the last member of pack `p`, or the end when `p` has none. */
  ghost predicate BehindPack(items: map<CaseId, Item>, rest: seq<CaseId>, at: nat, p: nat) {
    && at <= |rest|
    && (forall k :: at <= k < |rest| && rest[k] in items ==> items[rest[k]].pack != p)
    && (if exists x :: x in rest && x in items && items[x].pack == p
        then at > 0 && rest[at - 1] in items && items[rest[at - 1]].pack == p
        else at == |rest|)
  }

  /** `order` is the bundle's order with `c` taken out and put back behind pack `p`. */
  ghost predicate Reseated(items: map<CaseId, Item>, b: BundleId, c: CaseId, p: nat, order: seq<CaseId>) {
    exists at: nat :: at <= |Without(order, {c})|
      && IsListing(WithoutItems(items, {c}), b, Without(order, {c}))
      && BehindPack(items, Without(order, {c}), at, p)
      && order == PackWindow.InsertAt(Without(order, {c}), at, c)
  }

  lemma {:induction false} WithoutNothing(order: seq<CaseId>, c: CaseId)
    requires c !in order
    ensures Without(order, {c}) == order
  {
    if order != [] {
      var n := |order| - 1;
      assert order == order[..n] + [order[n]];
      WithoutNothing(order[..n], c);
    }
  }

  lemma {:induction false} WithoutConcat(a: seq<CaseId>, b: seq<CaseId>, s: set<CaseId>)
    ensures Without(a + b, s) == Without(a, s) + Without(b, s)
  {
    if b == [] {
      assert a + b == a;
    } else {
      var n := |b| - 1;
      WithoutConcat(a, b[..n], s);
      assert (a + b)[..|a| + n] == a + b[..n];
    }
  }

  lemma {:induction false} WithoutOne(front: seq<CaseId>, c: CaseId, s: set<CaseId>)
    ensures Without(front + [c], s) == Without(front, s) + if c in s then [] else [c]
  {
  }

  lemma {:induction false} WithoutMiddle(front: seq<CaseId>, c: CaseId, back: seq<CaseId>, s: set<CaseId>)
    requires c in s && Without(front, s) == front && Without(back, s) == back
    ensures Without(front + [c] + back, s) == front + back
  {
    WithoutConcat(front + [c], back, s);
    WithoutOne(front, c, s);
  }

  lemma {:induction false} InsertThenWithout(rest: seq<CaseId>, at: nat, c: CaseId)
    requires at <= |rest| && c !in rest
    ensures Without(PackWindow.InsertAt(rest, at, c), {c}) == rest
  {
    var front, back := rest[..at], rest[at..];
    assert rest == front + back;
    WithoutNothing(front, c);
    WithoutNothing(back, c);
    WithoutMiddle(front, c, back, {c});
  }

  lemma InsertElements(rest: seq<CaseId>, at: nat, c: CaseId)
    requires at <= |rest| && c !in rest && Distinct(rest)
    ensures Distinct(PackWindow.InsertAt(rest, at, c))
    ensures forall x :: x in PackWindow.InsertAt(rest, at, c) <==> x == c || x in rest
  {
  }

  lemma PositionIsBehindPack(items: map<CaseId, Item>, rest: seq<CaseId>, at: nat, p: nat, members: seq<CaseId>)
    requires at <= |rest| && forall x :: x in rest ==> x in items && (x in members <==> items[x].pack == p)
    requires (exists x :: x in rest && x in members) ==> at > 0 && rest[at - 1] in members
    requires (forall x :: x in rest ==> x !in members) ==> at == |rest|
    requires forall k :: at <= k < |rest| ==> rest[k] !in members
    ensures BehindPack(items, rest, at, p)
  {
  }

  /** `packInsertPosition` among the others, and the case put there. */
  method Reseat(tx: Tables, b: BundleId, c: CaseId, rest: seq<CaseId>, ghost p: nat, members: seq<CaseId>) returns (order: seq<CaseId>)
    requires c in tx.items && IsListing(WithoutItems(tx.items, {c}), b, rest)
    requires forall x :: x in rest ==> (x in members <==> tx.items[x].pack == p)
    ensures Reseated(tx.items, b, c, p, order)
    ensures Distinct(order) && forall x :: x in order <==> x == c || (x in tx.items && tx.items[x].bundle == b)
  {
    var at := PackWindow.PackInsertPosition(rest, members);
    order := PackWindow.InsertAt(rest, at, c);
    assert forall x :: x in rest <==> x in tx.items && x != c && tx.items[x].bundle == b;
    PositionIsBehindPack(tx.items, rest, at, p, members);
    InsertThenWithout(rest, at, c);
    InsertElements(rest, at, c);
  }

  // ---------------------------------------------------------------- within one cart

  function Repacked(d: Store, c: CaseId, p: nat): Store
    requires c in d.items
  {
    d.(items := d.items[c := d.items[c].(pack := p, createdBy := ByTeamlead)])
  }

  ghost predicate MovedWithin(d: Store, e: Store, b: BundleId, c: CaseId, p: nat, order: seq<CaseId>) {
    && c in d.items
    && Reseated(d.items, b, c, p, order)
    && Reordered(Repacked(d, c, p), e, b, order)
  }

  method MoveWithin(tx: Tables, b: BundleId, c: CaseId, current: seq<CaseId>, p: nat) returns (order: seq<CaseId>)
    requires Inv(tx.State()) && Teamlead.LiesIn(tx.State(), b, c) && IsListing(tx.items, b, current)
    requires tx.items[c].pack != p
    modifies tx
    ensures MovedWithin(old(tx.State()), tx.State(), b, c, p, order)
    ensures Inv(tx.State()) && Follows(old(tx.State()), tx.State())
  {
    ghost var before := tx.State();
    var members := PackMembers(tx.items, current, p);
    PackMembersAre(tx.items, current, p);
    var rest := Without(current, {c});
    ListingWithout(tx.items, b, current, {c});
    WithoutElements(current, {c});
    order := Reseat(tx, b, c, rest, p, members);
    tx.items := tx.items[c := tx.items[c].(pack := p, createdBy := ByTeamlead)];
    ghost var repacked := tx.State();
    ResequenceKeepsInv(before, tx.items, tx.stops);
    assert repacked == before.(items := repacked.items, stops := before.stops);
    Resequence(tx, b, order);
    FollowsTransitive(before, repacked, tx.State());
  }

  // ---------------------------------------------------------------- onto another cart

  /** The cart without the case: its item and its collaboration gone, the others close the gap. */
  function TakenOff(d: Store, c: CaseId): Store {
    d.(items := WithoutItems(d.items, {c}), participants := Dissolved(d.participants, {c}))
  }

  method LeaveCart(tx: Tables, b: BundleId, c: CaseId, current: seq<CaseId>) returns (remaining: seq<CaseId>)
    requires StopsFit(tx.State()) && IsListing(tx.items, b, current)
    modifies tx
    ensures IsListing(WithoutItems(old(tx.items), {c}), b, remaining)
    ensures Reordered(TakenOff(old(tx.State()), c), tx.State(), b, remaining)
    ensures StopsFit(tx.State())
  {
    remaining := Without(current, {c});
    ListingWithout(tx.items, b, current, {c});
    tx.items := tx.items - {c};
    assert tx.items == WithoutItems(old(tx.items), {c});
    var former := Collaboration.Dissolve(tx, c);
    Resequence(tx, b, remaining);
  }

  /** On the target cart: at the end, or with a pack given, behind that pack. */
  ghost predicate Joined(left: Store, e: Store, b: BundleId, c: CaseId, target: Option<nat>, pack: nat, order: seq<CaseId>) {
    var placed := PlaceAll(left, [c], b, |ItemsOf(left.items, b)|, pack, ByTeamlead);
    && JoinsPack(left.items, b, target, pack)
    && if target.Some? then Reseated(placed.items, b, c, pack, order) && Reordered(placed, e, b, order)
       else e == placed
  }

  method JoinCart(tx: Tables, b: BundleId, c: CaseId, current: seq<CaseId>, target: Option<nat>) returns (order: seq<CaseId>, ghost pack: nat)
    requires StopsFit(tx.State()) && IsListing(tx.items, b, current) && c in tx.cases && c !in tx.items
    modifies tx
    ensures Joined(old(tx.State()), tx.State(), b, c, target, pack, order)
    ensures StopsFit(tx.State())
  {
    var members := if target.Some? then PackMembers(tx.items, current, target.value) else [];
    if target.Some? {
      PackMembersAre(tx.items, current, target.value);
    }
    ghost var left := tx.State();
    pack := AppendCases(tx, b, current, [c], target);
    OnePlaced(left, c, b, |ItemsOf(left.items, b)|, pack, ByTeamlead);
    order := current + [c];
    if target.Some? {
      assert WithoutItems(tx.items, {c}) == left.items;
      order := Reseat(tx, b, c, current, pack, members);
      Resequence(tx, b, order);
    }
  }

  lemma OnePlaced(d: Store, c: CaseId, b: BundleId, start: nat, pack: nat, createdBy: Author)
    requires c in d.cases
    ensures PlaceAll(d, [c], b, start, pack, createdBy)
            == d.(cases := d.cases[c := OnBundle(d.cases[c], b)], items := d.items[c := Item(b, start, pack, createdBy)])
  {
    assert [c][..0] == [];
    assert PlacedItems(d.items, [], b, start, pack, createdBy) == d.items;
    assert PlacedCases(d.cases, [c], b) == d.cases[c := OnBundle(d.cases[c], b)];
  }

  /** Leaving changes numbers on that cart only. */
  lemma LeavingMeans(d: Store, left: Store, source: BundleId, c: CaseId, remaining: seq<CaseId>)
    requires Reordered(TakenOff(d, c), left, source, remaining)
    ensures left == d.(items := left.items, stops := left.stops, participants := Dissolved(d.participants, {c}))
    ensures left.items.Keys == d.items.Keys - {c}
    ensures forall x :: x in left.items ==> left.items[x] == d.items[x].(sequence := left.items[x].sequence)
    ensures forall x :: x in left.items && d.items[x].bundle != source ==> left.items[x] == d.items[x]
  {
    ResequencedItemsFrame(TakenOff(d, c).items, source, remaining);
  }

  /** Joining adds the case and changes numbers on that cart only. */
  lemma JoiningMeans(left: Store, e: Store, b: BundleId, c: CaseId, target: Option<nat>, pack: nat, order: seq<CaseId>)
    requires c in left.cases && c !in left.items && Joined(left, e, b, c, target, pack, order)
    ensures e.cases == left.cases[c := OnBundle(left.cases[c], b)]
    ensures e.bundles == left.bundles && e.participants == left.participants
    ensures e.items.Keys == left.items.Keys + {c}
    ensures e.items[c] == Item(b, e.items[c].sequence, pack, ByTeamlead)
    ensures forall x :: x in left.items ==> e.items[x] == left.items[x].(sequence := e.items[x].sequence)
    ensures forall x :: x in left.items && left.items[x].bundle != b ==> e.items[x] == left.items[x]
    ensures target.Some? ==> IsGapless(e.items, b, order)
  {
    OnePlaced(left, c, b, |ItemsOf(left.items, b)|, pack, ByTeamlead);
    var placed := PlaceAll(left, [c], b, |ItemsOf(left.items, b)|, pack, ByTeamlead);
    ResequencedItemsFrame(placed.items, b, order);
  }

  /** What a move onto another cart means, row by row. */
  lemma {:induction false} MovedAcrossMeans(d: Store, left: Store, e: Store, source: BundleId, b: BundleId, c: CaseId,
                         target: Option<nat>, pack: nat, remaining: seq<CaseId>, order: seq<CaseId>)
    requires source != b && c in d.cases && c in d.items && d.items[c].bundle == source
    requires Reordered(TakenOff(d, c), left, source, remaining) && Joined(left, e, b, c, target, pack, order)
    ensures e.cases == d.cases[c := OnBundle(d.cases[c], b)]
    ensures e.bundles == d.bundles && e.participants == Dissolved(d.participants, {c})
    ensures e.items.Keys == d.items.Keys
    ensures e.items[c] == Item(b, e.items[c].sequence, pack, ByTeamlead)
    ensures forall x :: x in d.items && x != c ==> e.items[x] == d.items[x].(sequence := e.items[x].sequence)
    ensures forall x :: x in d.items && d.items[x].bundle !in {source, b} ==> e.items[x] == d.items[x]
    ensures IsGapless(e.items, source, remaining)
    ensures target.Some? ==> IsGapless(e.items, b, order)
  {
    LeavingMeans(d, left, source, c, remaining);
    JoiningMeans(left, e, b, c, target, pack, order);
    StillGapless(left.items, e.items, source, remaining);
  }

  lemma StillGapless(items: map<CaseId, Item>, now: map<CaseId, Item>, b: BundleId, order: seq<CaseId>)
    requires IsGapless(items, b, order)
    requires forall x :: x in items && items[x].bundle == b ==> x in now && now[x] == items[x]
    requires forall x :: x in now && now[x].bundle == b ==> x in items && items[x].bundle == b
    ensures IsGapless(now, b, order)
  {
  }

  method MoveAcross(tx: Tables, source: BundleId, c: CaseId, b: BundleId, current: seq<CaseId>, there: seq<CaseId>, target: Option<nat>)
    returns (order: seq<CaseId>, ghost left: Store, ghost remaining: seq<CaseId>, ghost pack: nat)
    requires Inv(tx.State()) && Teamlead.LiesIn(tx.State(), source, c) && source != b
    requires c in tx.cases && tx.cases[c].status == Assigned && b in tx.bundles && IsOpen(tx.bundles[b])
    requires IsListing(tx.items, source, current) && IsListing(tx.items, b, there)
    modifies tx
    ensures IsListing(WithoutItems(old(tx.items), {c}), source, remaining)
    ensures Reordered(TakenOff(old(tx.State()), c), left, source, remaining)
    ensures Joined(left, tx.State(), b, c, target, pack, order)
    ensures Inv(tx.State()) && Follows(old(tx.State()), tx.State())
  {
    ghost var before := tx.State();
    remaining := LeaveCart(tx, source, c, current);
    left := tx.State();
    ResequencedItemsFrame(TakenOff(before, c).items, source, remaining);
    StillListed(before.items, tx.items, b, there);
    order, pack := JoinCart(tx, b, c, there, target);
    MovedAcrossMeans(before, left, tx.State(), source, b, c, target, pack, remaining, order);
    RelinkKeepsInv(before, tx.State(), c, b);
  }

  lemma StillListed(items: map<CaseId, Item>, now: map<CaseId, Item>, b: BundleId, order: seq<CaseId>)
    requires IsListing(items, b, order)
    requires forall x :: x in items && items[x].bundle == b ==> x in now && now[x] == items[x]
    requires forall x :: x in now && now[x].bundle == b ==> x in items && items[x].bundle == b
    ensures IsListing(now, b, order)
  {
  }

  // ---------------------------------------------------------------- the request

  /** The target pack exists, and the case would change its pack or its cart. */
  ghost predicate MayMove(d: Store, source: BundleId, c: CaseId, b: BundleId, target: Option<nat>)
    requires c in d.items
  {
    && (b == source ==> target.Some? && d.items[c].pack != target.value)
    && (target.Some? ==> exists x :: x in ItemsOf(d.items, b) && d.items[x].pack >= target.value)
  }

  ghost predicate MovedAcross(d: Store, e: Store, source: BundleId, b: BundleId, c: CaseId, target: Option<nat>, order: seq<CaseId>) {
    exists left, remaining, pack ::
      && IsListing(WithoutItems(d.items, {c}), source, remaining)
      && Reordered(TakenOff(d, c), left, source, remaining)
      && Joined(left, e, b, c, target, pack, order)
  }

  /** `resolveTargetPack` with the identity check in front of it. */
  method CheckTarget(tx: Tables, source: BundleId, c: CaseId, b: BundleId, there: seq<CaseId>, target: Option<nat>) returns (outcome: Outcome)
    requires c in tx.items && IsListing(tx.items, b, there) && (b == source ==> tx.items[c].bundle == source)
    ensures outcome == Done <==> MayMove(tx.State(), source, c, b, target)
    ensures outcome == BadRequest <==> target.Some? && forall x :: x in ItemsOf(tx.items, b) ==> tx.items[x].pack < target.value
    ensures outcome in {Done, Conflict, BadRequest}
  {
    if b == source && target == None {
      return Conflict;
    }
    if target.Some? {
      var last := LastPack(tx, b, there);
      if target.value >= last + 1 {
        assert forall x :: x in ItemsOf(tx.items, b) ==> tx.items[x].pack < target.value;
        return BadRequest;
      }
      assert exists x :: x in ItemsOf(tx.items, b) && tx.items[x].pack == last;
      if b == source && tx.items[c].pack == target.value {
        return Conflict;
      }
    }
    outcome := Done;
  }

  method MoveCase(tx: Tables, source: BundleId, c: CaseId, e: EmployeeId, day: nat, target: Option<nat>)
    returns (outcome: Outcome, b: BundleId, order: seq<CaseId>)
    requires Inv(tx.State())
    modifies tx
    ensures outcome == Done ==>
      && Teamlead.LiesIn(old(tx.State()), source, c) && c in old(tx.cases) && old(tx.cases[c].status) == Assigned
      && MayReceive(tx.staff, e)
    ensures
      && Teamlead.LiesIn(old(tx.State()), source, c) && c in old(tx.cases) && old(tx.cases[c].status) == Assigned
      && MayReceive(tx.staff, e)
      ==>
        && IsOpenFor(Opened(old(tx.State()), b, e, day), b, e, day)
        && (outcome == Done <==> MayMove(Opened(old(tx.State()), b, e, day), source, c, b, target))
    ensures outcome == NotFound <==>
      || !Teamlead.LiesIn(old(tx.State()), source, c)
      || (c in old(tx.cases) && old(tx.cases[c].status) == Assigned && e !in tx.staff)
    ensures outcome == BadRequest ==>
      && Teamlead.LiesIn(old(tx.State()), source, c) && c in old(tx.cases) && old(tx.cases[c].status) == Assigned
      && var mid := Opened(old(tx.State()), b, e, day);
      target.Some? && forall x :: x in ItemsOf(mid.items, b) ==> mid.items[x].pack < target.value
    ensures outcome == Done && b == source ==> target.Some? && MovedWithin(old(tx.State()), tx.State(), b, c, target.value, order)
    ensures outcome == Done && b != source ==>
      MovedAcross(Opened(old(tx.State()), b, e, day), tx.State(), source, b, c, target, order)
    ensures outcome != Done ==> tx.State() == old(tx.State())
    ensures Inv(tx.State()) && Follows(old(tx.State()), tx.State())
  {
    order, b := [], 0;
    var before := tx.State();
    assert CaseFits(before, c);
    if !Teamlead.LiesIn(before, source, c) {
      return NotFound, 0, [];
    }
    var current := ListItems(tx, source);
    if tx.cases[c].status != Assigned {
      return Conflict, 0, [];
    }
    outcome, b := FindOrCreateBundle(tx, e, day);
    if outcome != Done {
      return;
    }
    ghost var mid := tx.State();
    var there := ListItems(tx, b);
    outcome := CheckTarget(tx, source, c, b, there, target);
    if outcome != Done {
      tx.Rollback(before);
      return;
    }
    if b == source {
      assert mid == before;
      order := MoveWithin(tx, b, c, current, target.value);
    } else {
      ghost var left, remaining, pack;
      order, left, remaining, pack := MoveAcross(tx, source, c, b, current, there, target);
    }
    FollowsTransitive(before, mid, tx.State());
  }

  // ---------------------------------------------------------------- what a move does to the packs

  function PackMap(items: map<CaseId, Item>): map<CaseId, nat> {
    map c | c in items :: items[c].pack
  }

  lemma PacksAfterMove(d: Store, e: Store, b: BundleId, c: CaseId, p: nat, order: seq<CaseId>)
    requires MovedWithin(d, e, b, c, p, order)
    ensures PackMap(e.items) == PackMap(d.items)[c := p]
  {
    ResequencedItemsFrame(Repacked(d, c, p).items, b, order);
  }

  lemma SeatKeepsPacksInOrder(items: map<CaseId, Item>, b: BundleId, c: CaseId, p: nat, rest: seq<CaseId>, at: nat)
    requires IsListing(WithoutItems(items, {c}), b, rest) && BehindPack(items, rest, at, p)
    requires PackWindow.PacksInOrder(rest, PackMap(items))
    ensures forall x :: x in rest ==> x in items
    ensures PackWindow.PacksInOrder(PackWindow.InsertAt(rest, at, c), PackMap(items)[c := p])
      <==> (exists x :: x in rest && items[x].pack == p) || forall x :: x in rest ==> items[x].pack <= p
  {
    var packs := PackMap(items);
    forall k | 0 <= k < |rest| ensures rest[k] in items && packs[rest[k]] == items[rest[k]].pack {
      assert rest[k] in rest;
    }
    assert forall x :: x in rest ==> packs[x] == items[x].pack;
    PackWindow.InsertKeepsPacksInOrder(rest, packs, at, c, p);
  }

  /**
   * A move inside the cart keeps the packs in order exactly when the target pack has another
   * member or is the last one; a case put into a drained pack in the middle stands at the end.
   */
  lemma MoveWithinKeepsPacksInOrder(d: Store, e: Store, b: BundleId, c: CaseId, p: nat, order: seq<CaseId>)
    requires MovedWithin(d, e, b, c, p, order)
    requires PackWindow.PacksInOrder(Without(order, {c}), PackMap(d.items))
    ensures forall x :: x in Without(order, {c}) ==> x in d.items
    ensures PackWindow.PacksInOrder(order, PackMap(e.items))
      <==> (exists x :: x in Without(order, {c}) && d.items[x].pack == p)
           || forall x :: x in Without(order, {c}) ==> d.items[x].pack <= p
  {
    PacksAfterMove(d, e, b, c, p, order);
    var rest := Without(order, {c});
    var at: nat :| at <= |rest| && IsListing(WithoutItems(d.items, {c}), b, rest) && BehindPack(d.items, rest, at, p)
      && order == PackWindow.InsertAt(rest, at, c);
    SeatKeepsPacksInOrder(d.items, b, c, p, rest, at);
  }

  /** A cart with packs 0 and 2; pack 1 is drained. */
  function DrainedCart(): Store {
    var c := Case(Assigned, Some(0), None, None, false, 1, Then(First(Ready), Assigned));
    Store(map[0 := c, 1 := c, 2 := c], map[0 := Bundle(0, 0, BundleAssigned, 0)],
          map[0 := Item(0, 0, 0, BySystem), 1 := Item(0, 1, 0, BySystem), 2 := Item(0, 2, 2, BySystem)], map[], map[])
  }

  /** Moving its first case into the drained pack is accepted, and leaves the packs out of order. */
  lemma DrainedPackBreaksOrder()
    ensures var d := DrainedCart();
      && Inv(d) && Teamlead.LiesIn(d, 0, 0) && MayMove(d, 0, 0, 0, Some(1))
      && IsListing(d.items, 0, [0, 1, 2]) && PackWindow.PacksInOrder([0, 1, 2], PackMap(d.items))
      && forall e, order | MovedWithin(d, e, 0, 0, 1, order) :: !PackWindow.PacksInOrder(order, PackMap(e.items))
  {
    var d := DrainedCart();
    forall c ensures CaseFits(d, c) {
    }
    assert 2 in ItemsOf(d.items, 0);
    forall e, order | MovedWithin(d, e, 0, 0, 1, order) ensures !PackWindow.PacksInOrder(order, PackMap(e.items)) {
      DrainedCartMoved(e, order);
    }
  }

  lemma RestIsListed(d: Store, e: Store, b: BundleId, c: CaseId, p: nat, order: seq<CaseId>)
    requires MovedWithin(d, e, b, c, p, order)
    ensures IsListing(WithoutItems(d.items, {c}), b, Without(order, {c}))
  {
  }

  /** Between two other cases, the second of a higher pack, a case of a pack of its own ends up behind both. */
  lemma MiddlePackBreaksOrder(d: Store, e: Store, b: BundleId, c: CaseId, p: nat, order: seq<CaseId>, x: CaseId, y: CaseId)
    requires MovedWithin(d, e, b, c, p, order) && Without(order, {c}) == [x, y] && x in d.items && y in d.items
    requires d.items[x].pack < p < d.items[y].pack
    ensures !PackWindow.PacksInOrder(order, PackMap(e.items))
  {
    assert PackMap(d.items)[x] < PackMap(d.items)[y];
    MoveWithinKeepsPacksInOrder(d, e, b, c, p, order);
    assert y in [x, y];
  }

  lemma DrainedCartMoved(e: Store, order: seq<CaseId>)
    requires MovedWithin(DrainedCart(), e, 0, 0, 1, order)
    ensures !PackWindow.PacksInOrder(order, PackMap(e.items))
  {
    RestIsListed(DrainedCart(), e, 0, 0, 1, order);
    DrainedCartRest(Without(order, {0}));
    MiddlePackBreaksOrder(DrainedCart(), e, 0, 0, 1, order, 1, 2);
  }

  lemma DrainedCartRest(rest: seq<CaseId>)
    requires IsListing(WithoutItems(DrainedCart().items, {0}), 0, rest)
    ensures rest == [1, 2]
  {
    TwoHaveOneListing(WithoutItems(DrainedCart().items, {0}), 0, rest, 1, 2);
  }

  // ---------------------------------------------------------------- a move inside the cart, row by row

  /**
   * Inside the cart a move changes the moved item's pack and author and the sequence numbers
   * of this cart, which follow the new order; the case row stays as it is.
   */
  lemma MovedWithinMeans(d: Store, e: Store, b: BundleId, c: CaseId, p: nat, order: seq<CaseId>)
    requires MovedWithin(d, e, b, c, p, order) && d.items[c].bundle == b
    ensures e.cases == d.cases && e.bundles == d.bundles && e.participants == d.participants
    ensures e.items.Keys == d.items.Keys
    ensures e.items[c] == Item(b, e.items[c].sequence, p, ByTeamlead)
    ensures forall x :: x in d.items && x != c ==> e.items[x] == d.items[x].(sequence := e.items[x].sequence)
    ensures forall x :: x in d.items && d.items[x].bundle != b ==> e.items[x] == d.items[x]
    ensures IsGapless(e.items, b, order)
  {
    ResequencedItemsFrame(Repacked(d, c, p).items, b, order);
  }
}
