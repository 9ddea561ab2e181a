/**
 * The employee asks for more work (assignment/assignment.service.ts: `assignNextBundle`,
 * `activateNextPack`, `sharedCaseGate`): first the own pack, then a pack planned earlier,
 * only then something new from the pool.
 */
module SelfPull {
  import opened Options
  import opened CaseStatus
  import opened Ids
  import opened Database
  import opened StoreInvariant
  import opened BundleMutations
  import opened Placement
  import opened PriorPlan
  import opened Planning
  import opened PackWindow
  import opened Sorting
  import Collaboration

  datatype Reason = NotAllowed | PackOpen | SharedCaseOpen | NoCapacity | PoolEmpty

  datatype Answer = Refused(why: Reason) | Given(caseCount: nat)

  // ---------------------------------------------------------------- the guards

  const SETTLED_SHARED: set<Status> := {Completed, ZstDone, Cancelled, IssueOpen, SplitContainer}

  /** The rule "help with shared cases first": an active part in a case that is neither settled nor waiting. */
  predicate HasSharedWork(d: Store, e: EmployeeId) {
    exists c :: c in d.participants && c in d.cases && e in d.participants[c] && StoreInvariant.IsActive(d.participants[c][e])
      && d.cases[c].status !in SETTLED_SHARED
  }

  /** The employee is done with their part, and somebody else is still at it. */
  predicate OwnPartDone(d: Store, e: EmployeeId, c: CaseId) {
    e in Collaboration.CrewAt(d.participants, c) && d.participants[c][e].status == TeilErledigt
    && Collaboration.IsCollaborationActive(d, c)
  }

  function PackItemOf(d: Store, e: EmployeeId, c: CaseId): PackItem
    requires c in d.items && c in d.cases
  {
    PackItem(c, d.items[c].pack, d.cases[c].status, OwnPartDone(d, e, c))
  }

  function PackItems(d: Store, e: EmployeeId, order: seq<CaseId>): seq<PackItem>
    requires forall c :: c in order ==> c in d.items && c in d.cases
  {
    seq(|order|, i requires 0 <= i < |order| => PackItemOf(d, e, order[i]))
  }

  /** A case of the active pack that holds the employee: unfinished, not waiting for the team lead, not handed over. */
  predicate Holds(d: Store, b: BundleId, e: EmployeeId, c: CaseId)
    requires b in d.bundles
  {
    c in ItemsOf(d.items, b) && c in d.cases && Blocks(PackItemOf(d, e, c), d.bundles[b].activePack)
  }

  ghost predicate IsHeld(d: Store, b: BundleId, e: EmployeeId)
    requires b in d.bundles
  {
    exists c :: Holds(d, b, e, c)
  }

  /** `p` is the nearest pack behind the active one that has cases. */
  ghost predicate IsNextOf(d: Store, b: BundleId, p: nat)
    requires b in d.bundles
  {
    && p > d.bundles[b].activePack
    && (exists c :: c in ItemsOf(d.items, b) && d.items[c].pack == p)
    && (forall c :: c in ItemsOf(d.items, b) && d.items[c].pack > d.bundles[b].activePack ==> p <= d.items[c].pack)
  }

  ghost predicate HasPlannedPack(d: Store, b: BundleId)
    requires b in d.bundles
  {
    exists c :: c in ItemsOf(d.items, b) && d.items[c].pack > d.bundles[b].activePack
  }

  function Advanced(d: Store, b: BundleId, p: nat): Store
    requires b in d.bundles
  {
    d.(bundles := d.bundles[b := d.bundles[b].(activePack := p)])
  }

  // ---------------------------------------------------------------- reading the cart

  lemma BundleItemsHaveCases(d: Store, b: BundleId, order: seq<CaseId>)
    requires Inv(d) && IsListing(d.items, b, order)
    ensures forall c :: c in order ==> c in d.items && c in d.cases
  {
    forall c | c in order ensures c in d.cases {
      assert CaseFits(d, c);
    }
  }

  lemma {:induction false} BlockersMeanHeld(d: Store, b: BundleId, e: EmployeeId, order: seq<CaseId>)
    requires Inv(d) && b in d.bundles && IsListing(d.items, b, order)
    requires forall c :: c in order ==> c in d.items && c in d.cases
    ensures PackAdvanceBlockers(PackItems(d, e, order), d.bundles[b].activePack) == [] <==> !IsHeld(d, b, e)
  {
    var items, active := PackItems(d, e, order), d.bundles[b].activePack;
    NoBlockersMeansIdle(items, active);
    HeldByListed(d, b, e, order);
    forall x | x in items ensures exists i :: 0 <= i < |order| && x == PackItemOf(d, e, order[i]) {
      var i :| 0 <= i < |items| && items[i] == x;
      assert x == PackItemOf(d, e, order[i]);
    }
    forall i | 0 <= i < |order| ensures PackItemOf(d, e, order[i]) in items {
      assert items[i] in items;
    }
  }

  lemma {:induction false} HeldByListed(d: Store, b: BundleId, e: EmployeeId, order: seq<CaseId>)
    requires b in d.bundles && IsListing(d.items, b, order)
    requires forall c :: c in order ==> c in d.items && c in d.cases
    ensures IsHeld(d, b, e) <==> exists i :: 0 <= i < |order| && Blocks(PackItemOf(d, e, order[i]), d.bundles[b].activePack)
  {
    if IsHeld(d, b, e) {
      var c :| Holds(d, b, e, c);
      assert c in order;
      var i :| 0 <= i < |order| && order[i] == c;
      assert Blocks(PackItemOf(d, e, order[i]), d.bundles[b].activePack);
    }
    forall i | 0 <= i < |order| && Blocks(PackItemOf(d, e, order[i]), d.bundles[b].activePack) ensures IsHeld(d, b, e) {
      assert order[i] in order;
      assert Holds(d, b, e, order[i]);
    }
  }

  lemma {:induction false} PacksOfCart(d: Store, b: BundleId, e: EmployeeId, order: seq<CaseId>)
    requires IsListing(d.items, b, order) && forall c :: c in order ==> c in d.items && c in d.cases
    ensures forall p :: p in Packs(PackItems(d, e, order)) <==> exists c :: c in ItemsOf(d.items, b) && d.items[c].pack == p
  {
    var packs := Packs(PackItems(d, e, order));
    forall p ensures p in packs <==> exists c :: c in ItemsOf(d.items, b) && d.items[c].pack == p {
      if p in packs {
        var i :| 0 <= i < |packs| && packs[i] == p;
        assert order[i] in order && order[i] in ItemsOf(d.items, b);
      }
      if c :| c in ItemsOf(d.items, b) && d.items[c].pack == p {
        assert c in order;
        var i :| 0 <= i < |order| && order[i] == c;
        assert packs[i] == p;
      }
    }
  }

  function CasesInPack(d: Store, b: BundleId, p: int): set<CaseId> {
    set c | c in ItemsOf(d.items, b) && d.items[c].pack == p
  }

  function ListedInPack(d: Store, order: seq<CaseId>, p: int): set<CaseId> {
    set c | c in order && c in d.items && d.items[c].pack == p
  }

  lemma {:induction false} OneMoreListed(d: Store, front: seq<CaseId>, c: CaseId, p: int)
    requires c !in front && c in d.items
    ensures |ListedInPack(d, front + [c], p)| == |ListedInPack(d, front, p)| + if d.items[c].pack == p then 1 else 0
  {
    if d.items[c].pack == p {
      assert ListedInPack(d, front + [c], p) == ListedInPack(d, front, p) + {c};
    } else {
      assert ListedInPack(d, front + [c], p) == ListedInPack(d, front, p);
    }
  }

  lemma OneMoreSelected(items: seq<PackItem>, i: PackItem, p: int)
    ensures |Select(items + [i], OfPack(p))| == |Select(items, OfPack(p))| + if i.pack == p then 1 else 0
  {
    assert (items + [i])[..|items|] == items;
  }

  /** A filtered list of distinct cases is as long as the set of those that pass. */
  lemma {:induction false} CountOfPrefix(d: Store, e: EmployeeId, order: seq<CaseId>, p: int)
    requires Distinct(order) && forall c :: c in order ==> c in d.items && c in d.cases
    ensures |Select(PackItems(d, e, order), OfPack(p))| == |ListedInPack(d, order, p)|
  {
    if order != [] {
      var n := |order| - 1;
      var front, c := order[..n], order[n];
      assert order == front + [c] && c !in front;
      CountOfPrefix(d, e, front, p);
      OneMoreListed(d, front, c, p);
      OneMoreSelected(PackItems(d, e, front), PackItemOf(d, e, c), p);
      assert PackItems(d, e, order) == PackItems(d, e, front) + [PackItemOf(d, e, c)];
    }
  }

  lemma {:induction false} CountOfPack(d: Store, b: BundleId, e: EmployeeId, order: seq<CaseId>, p: int)
    requires IsListing(d.items, b, order) && forall c :: c in order ==> c in d.items && c in d.cases
    ensures |Select(PackItems(d, e, order), OfPack(p))| == |CasesInPack(d, b, p)|
  {
    CountOfPrefix(d, e, order, p);
    assert CasesInPack(d, b, p) == ListedInPack(d, order, p);
  }

  /** The loaded items show the cart's packs, each with its number of cases. */
  ghost predicate ShowCart(d: Store, b: BundleId, items: seq<PackItem>) {
    && (forall p :: p in Packs(items) <==> exists c :: c in ItemsOf(d.items, b) && d.items[c].pack == p)
    && (forall p :: |Select(items, OfPack(p))| == |CasesInPack(d, b, p)|)
  }

  // ---------------------------------------------------------------- the request

  /** What stands in the way of new work on an open cart; nothing is written. */
  method CheckCart(tx: Tables, e: EmployeeId, b: BundleId, helpFirst: bool) returns (refusal: Option<Reason>, items: seq<PackItem>)
    requires Inv(tx.State()) && b in tx.bundles
    ensures refusal == Some(PackOpen) <==> IsHeld(tx.State(), b, e)
    ensures refusal == Some(SharedCaseOpen) <==> !IsHeld(tx.State(), b, e) && helpFirst && HasSharedWork(tx.State(), e)
    ensures refusal in {None, Some(PackOpen), Some(SharedCaseOpen)}
    ensures ShowCart(tx.State(), b, items)
  {
    var order := ListItems(tx, b);
    BundleItemsHaveCases(tx.State(), b, order);
    BlockersMeanHeld(tx.State(), b, e, order);
    PacksOfCart(tx.State(), b, e, order);
    items := PackItems(tx.State(), e, order);
    forall p ensures |Select(items, OfPack(p))| == |CasesInPack(tx.State(), b, p)| {
      CountOfPack(tx.State(), b, e, order, p);
    }
    if PackAdvanceBlockers(items, tx.bundles[b].activePack) != [] {
      return Some(PackOpen), items;
    }
    if helpFirst && HasSharedWork(tx.State(), e) {
      return Some(SharedCaseOpen), items;
    }
    refusal := None;
  }

  /** A pack that was planned earlier is switched on; it is the employee's already, so nothing is taken from the pool. */
  method ActivateNextPack(tx: Tables, b: BundleId, items: seq<PackItem>) returns (caseCount: nat, ghost next: nat)
    requires Inv(tx.State()) && b in tx.bundles && IsOpen(tx.bundles[b])
    requires ShowCart(tx.State(), b, items)
    requires HasPlannedFollowUpPack(Packs(items), tx.bundles[b].activePack)
    modifies tx
    ensures caseCount == |CasesInPack(old(tx.State()), b, next)|
    ensures IsNextOf(old(tx.State()), b, next) && tx.State() == Advanced(old(tx.State()), b, next)
    ensures Inv(tx.State()) && Follows(old(tx.State()), tx.State())
  {
    var nextPack := NextPack(Packs(items), tx.bundles[b].activePack);
    next := nextPack;
    assert forall c :: c in ItemsOf(tx.items, b) ==> tx.items[c].pack in Packs(items);
    SetBundleKeepsInv(tx.State(), b, tx.bundles[b].(activePack := nextPack));
    tx.bundles := tx.bundles[b := tx.bundles[b].(activePack := nextPack)];
    caseCount := |Select(items, OfPack(nextPack))|;
  }

  /** The engine for one employee: a cart of pool cases, or nothing that fits. */
  ghost predicate IsPicker(pick: (Store, EmployeeId) -> Option<PlannedBundle>) {
    forall d, e :: pick(d, e).Some? ==> CartFits(d, pick(d, e).value) && pick(d, e).value.employee == e
  }

  /** A pull on an open cart: the next planned pack, or without one a new pack from the pool that becomes active. */
  ghost predicate PulledOnCart(d: Store, e: Store, b: BundleId, cart: Option<PlannedBundle>, pack: nat)
    requires b in d.bundles
  {
    if HasPlannedPack(d, b) then IsNextOf(d, b, pack) && e == Advanced(d, b, pack)
    else cart.Some? && IsLastPack(d.items, b, pack - 1) && e == Extended(d, b, cart.value, pack, true)
  }

  method FindOpenCart(tx: Tables, e: EmployeeId, day: nat) returns (open: Option<BundleId>)
    ensures open.Some? ==> IsOpenFor(tx.State(), open.value, e, day)
    ensures open == None ==> forall x :: x in tx.bundles ==> !IsOpenFor(tx.State(), x, e, day)
  {
    if exists x :: x in tx.bundles && IsOpenFor(tx.State(), x, e, day) {
      var b :| b in tx.bundles && IsOpenFor(tx.State(), b, e, day);
      return Some(b);
    }
    open := None;
  }

  /** Something new: onto the open cart, or as the first cart of the day. */
  method TakeFromPool(tx: Tables, e: EmployeeId, day: nat, open: Option<BundleId>, cart: PlannedBundle) returns (b: BundleId, ghost pack: nat)
    requires Inv(tx.State()) && CartFits(tx.State(), cart) && cart.employee == e
    requires open.Some? ==> IsOpenFor(tx.State(), open.value, e, day)
    requires open == None ==> forall x :: x in tx.bundles ==> !IsOpenFor(tx.State(), x, e, day)
    modifies tx
    ensures open.Some? ==> b == open.value && IsLastPack(old(tx.items), b, pack - 1)
    ensures open.Some? ==> tx.State() == Extended(old(tx.State()), b, cart, pack, true)
    ensures open == None ==> b !in old(tx.bundles) && tx.State() == Created(old(tx.State()), b, cart, day)
    ensures open == None ==> GivesFirstCart(tx.State(), b, e, cart, day)
    ensures Inv(tx.State()) && Follows(old(tx.State()), tx.State())
  {
    pack := 0;
    if open.Some? {
      b := open.value;
      pack := ExtendBundle(tx, b, cart, true);
    } else {
      b := CreateBundle(tx, cart, day);
      FirstCartIsShown(tx.State(), b, e, cart, day);
    }
  }

  /** The first cart of the day is laid out as planned, and the employee sees every case of it. */
  ghost predicate GivesFirstCart(d: Store, b: BundleId, e: EmployeeId, cart: PlannedBundle, day: nat) {
    && IsFirstCart(d, b, cart, day) && d.stops[b] == cart.stops
    && forall c :: c in cart.caseIds ==> c in d.items && c in d.cases && Sees(d, b, e, c)
  }

  lemma FirstCartIsShown(d: Store, b: BundleId, e: EmployeeId, cart: PlannedBundle, day: nat)
    requires Inv(d) && IsFirstCart(d, b, cart, day) && d.stops[b] == cart.stops
    ensures GivesFirstCart(d, b, e, cart, day)
  {
    forall c | c in cart.caseIds ensures c in d.items && c in d.cases && Sees(d, b, e, c) {
      var i :| 0 <= i < |cart.caseIds| && cart.caseIds[i] == c;
      assert d.items[c] == Item(b, i, 0, BySystem);
      assert CaseFits(d, c);
    }
  }

  /** A later cart of the same plan waits behind the first one until the employee asks for it. */
  lemma LaterCartIsHidden(d: Store, b: BundleId, e: EmployeeId, first: PlannedBundle, later: PlannedBundle, day: nat, c: CaseId)
    requires Inv(d) && IsFirstCart(d, b, first, day) && first.caseIds != [] && Follow(d, first, later) && c in later.caseIds
    ensures c in d.items && c in d.cases && d.items[c].bundle == b && !Sees(d, b, e, c)
  {
    var x := first.caseIds[0];
    assert d.items[x] == Item(b, 0, 0, BySystem);
    assert CaseFits(d, c);
  }

  /** The employee's open cart of the day still holds them. */
  ghost predicate HeldToday(d: Store, e: EmployeeId, day: nat) {
    exists b :: IsOpenFor(d, b, e, day) && IsHeld(d, b, e)
  }

  /** It has a pack that was planned earlier. */
  ghost predicate PlannedToday(d: Store, e: EmployeeId, day: nat) {
    exists b :: IsOpenFor(d, b, e, day) && HasPlannedPack(d, b)
  }

  lemma TodayIsThisCart(d: Store, b: BundleId, e: EmployeeId, day: nat)
    requires Inv(d) && IsOpenFor(d, b, e, day)
    ensures HeldToday(d, e, day) <==> IsHeld(d, b, e)
    ensures PlannedToday(d, e, day) <==> HasPlannedPack(d, b)
  {
    forall x | IsOpenFor(d, x, e, day) ensures x == b {
      OpenBundleIsUnique(d, x, b, e, day);
    }
  }

  /** Nothing in the own cart or in a shared case stands in the way. */
  ghost predicate IsFree(d: Store, e: EmployeeId, day: nat, mayPull: bool, helpFirst: bool) {
    mayPull && !HeldToday(d, e, day) && !(helpFirst && HasSharedWork(d, e))
  }

  /**
   * `mayPull` stands for the skill tier and no unfinished large case, `mayTake` for shift,
   * capacity and time left. A pack planned earlier needs no capacity and comes before the pool.
   */
  method AssignNextBundle(tx: Tables, e: EmployeeId, day: nat, mayPull: bool, helpFirst: bool, mayTake: bool,
                          pick: (Store, EmployeeId) -> Option<PlannedBundle>)
    returns (answer: Answer, b: BundleId, ghost pack: nat)
    requires Inv(tx.State()) && IsPicker(pick)
    modifies tx
    ensures answer == Refused(NotAllowed) <==> !mayPull
    ensures answer == Refused(PackOpen) <==> mayPull && HeldToday(old(tx.State()), e, day)
    ensures answer == Refused(SharedCaseOpen) <==>
      mayPull && !HeldToday(old(tx.State()), e, day) && helpFirst && HasSharedWork(old(tx.State()), e)
    ensures answer == Refused(NoCapacity) <==>
      IsFree(old(tx.State()), e, day, mayPull, helpFirst) && !PlannedToday(old(tx.State()), e, day) && !mayTake
    ensures answer == Refused(PoolEmpty) <==>
      && IsFree(old(tx.State()), e, day, mayPull, helpFirst) && !PlannedToday(old(tx.State()), e, day)
      && mayTake && pick(old(tx.State()), e) == None
    ensures answer.Given? <==>
      && IsFree(old(tx.State()), e, day, mayPull, helpFirst)
      && (PlannedToday(old(tx.State()), e, day) || (mayTake && pick(old(tx.State()), e).Some?))
    ensures answer.Given? && PlannedToday(old(tx.State()), e, day) ==>
      b in old(tx.bundles) && answer.caseCount == |CasesInPack(old(tx.State()), b, pack)|
    ensures answer.Given? && !PlannedToday(old(tx.State()), e, day) ==>
      pick(old(tx.State()), e).Some? && answer.caseCount == |pick(old(tx.State()), e).value.caseIds|
    ensures answer.Given? && b in old(tx.bundles) ==>
      && IsOpenFor(old(tx.State()), b, e, day)
      && PulledOnCart(old(tx.State()), tx.State(), b, pick(old(tx.State()), e), pack)
    ensures answer.Given? && b !in old(tx.bundles) ==>
      && (forall x :: x in old(tx.bundles) ==> !IsOpenFor(old(tx.State()), x, e, day))
      && pick(old(tx.State()), e).Some?
      && tx.State() == Created(old(tx.State()), b, pick(old(tx.State()), e).value, day)
      && GivesFirstCart(tx.State(), b, e, pick(old(tx.State()), e).value, day)
    ensures answer.Refused? ==> tx.State() == old(tx.State())
    ensures Inv(tx.State()) && Follows(old(tx.State()), tx.State())
  {
    b, pack := 0, 0;
    if !mayPull {
      return Refused(NotAllowed), 0, 0;
    }
    var open := FindOpenCart(tx, e, day);
    if open.Some? {
      b := open.value;
      TodayIsThisCart(tx.State(), b, e, day);
      var refusal, items := CheckCart(tx, e, b, helpFirst);
      if refusal.Some? {
        return Refused(refusal.value), 0, 0;
      }
      if HasPlannedFollowUpPack(Packs(items), tx.bundles[b].activePack) {
        var caseCount;
        caseCount, pack := ActivateNextPack(tx, b, items);
        return Given(caseCount), b, pack;
      }
      assert forall c :: c in ItemsOf(tx.items, b) ==> tx.items[c].pack in Packs(items);
    } else if helpFirst && HasSharedWork(tx.State(), e) {
      return Refused(SharedCaseOpen), 0, 0;
    }
    if !mayTake {
      return Refused(NoCapacity), 0, 0;
    }
    var cart := pick(tx.State(), e);
    if cart == None {
      return Refused(PoolEmpty), 0, 0;
    }
    b, pack := TakeFromPool(tx, e, day, open, cart.value);
    answer := Given(|cart.value.caseIds|);
  }

  // ---------------------------------------------------------------- what a pull does to the view

  /** The employee sees a case of the cart. */
  predicate Sees(d: Store, b: BundleId, e: EmployeeId, c: CaseId)
    requires b in d.bundles && c in d.items && c in d.cases
  {
    IsVisible(PackItemOf(d, e, c), d.bundles[b].activePack)
  }

  /**
   * Pulling a planned pack loses no work: unfinished cases that were shown stay shown, the
   * new pack is shown and not empty, and nothing behind it is.
   */
  lemma AdvanceKeepsOpenWork(d: Store, b: BundleId, e: EmployeeId, p: nat, c: CaseId)
    requires b in d.bundles && IsNextOf(d, b, p)
    requires c in ItemsOf(d.items, b) && c in d.cases
    ensures var now := Advanced(d, b, p);
      && (Sees(d, b, e, c) && !IsDone(d.cases[c].status) ==> Sees(now, b, e, c))
      && (d.items[c].pack == p ==> Sees(now, b, e, c))
      && (d.items[c].pack > p ==> !Sees(now, b, e, c))
      && (Sees(now, b, e, c) ==> Sees(d, b, e, c) || d.items[c].pack == p)
  {
  }

  /** What the pulled pack leaves behind can only wait for somebody else. */
  lemma PulledPastNothingOpen(d: Store, b: BundleId, e: EmployeeId, c: CaseId)
    requires b in d.bundles && !IsHeld(d, b, e)
    requires c in ItemsOf(d.items, b) && c in d.cases && d.items[c].pack == d.bundles[b].activePack
    ensures IsDone(d.cases[c].status) || d.cases[c].status == IssueOpen || OwnPartDone(d, e, c)
  {
    assert !Holds(d, b, e, c);
  }

  /** A self-pulled cart on an open bundle: its pack is new, shown, and locked against the next recalculation. */
  lemma ExtensionIsShownAndLocked(d: Store, b: BundleId, e: EmployeeId, cart: PlannedBundle, pack: nat, c: CaseId)
    requires Inv(d) && b in d.bundles && IsOpen(d.bundles[b]) && CartFits(d, cart) && IsLastPack(d.items, b, pack - 1)
    requires c in cart.caseIds && ItemsOf(d.items, b) != {}
    ensures var now := Extended(d, b, cart, pack, true);
      && c in now.items && c in now.cases && now.items[c].pack == pack && Sees(now, b, e, c)
      && InLockedPack(now, c)
      && forall x :: x in ItemsOf(d.items, b) ==> d.items[x].pack < pack
  {
    PoolIsFree(d, cart.caseIds);
    PlacedItemsEffect(d.items, cart.caseIds, b, |ItemsOf(d.items, b)|, pack, BySystem);
    var i :| 0 <= i < |cart.caseIds| && cart.caseIds[i] == c;
  }

  // ---------------------------------------------------------------- the guards on the rows

  /**
   * The own cart holds the employee exactly while it has a case of the active pack that is not
   * done, does not wait for the team lead, and of which they have not handed over their part.
   */
  lemma HeldWhen(d: Store, b: BundleId, e: EmployeeId)
    requires Inv(d) && b in d.bundles
    ensures IsHeld(d, b, e) <==>
      exists c :: c in d.items && d.items[c].bundle == b && d.items[c].pack == d.bundles[b].activePack && HoldsBack(d, e, c)
  {
    if c :| Holds(d, b, e, c) {
      Collaboration.SharedWhen(d, c);
      assert HoldsBack(d, e, c);
    }
    forall c | c in d.items && d.items[c].bundle == b && d.items[c].pack == d.bundles[b].activePack && HoldsBack(d, e, c)
      ensures Holds(d, b, e, c)
    {
      Collaboration.SharedWhen(d, c);
    }
  }

  /** The case is in no settled status, and `e` is not a finished participant of it beside an active helper. */
  ghost predicate HoldsBack(d: Store, e: EmployeeId, c: CaseId) {
    && c in d.cases && d.cases[c].status in {NeedsReview, Blocked, Ready, Parked, Assigned, InProgress, ProblemResolved, SplitContainer}
    && !(c in d.participants && e in d.participants[c] && d.participants[c][e].status == TeilErledigt
         && exists h :: Collaboration.HelpsActively(d, c, h))
  }

  /** Shared work is an accepted part, own or helping, in a case that is assigned, in work, or given back with an instruction. */
  lemma SharedWorkWhen(d: Store, e: EmployeeId)
    requires Inv(d)
    ensures HasSharedWork(d, e) <==>
      exists c :: c in d.participants && e in d.participants[c] && d.participants[c][e].status in {Angenommen, TeilErledigt}
        && c in d.cases && d.cases[c].status in {Assigned, InProgress, ProblemResolved}
  {
    forall c | c in d.participants && c in d.cases ensures OnCart(d.cases[c].status) {
      assert CaseFits(d, c);
    }
  }
}
