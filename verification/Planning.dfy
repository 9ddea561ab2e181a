/**
 * Persisting an engine plan (assignment/assignment.service.ts: `persistBundle`,
 * `extendBundle`, `recalculate`). The engine is an arbitrary function that plans cases of
 * the pool, each once, for employees it was given.
 */
module Planning {
  import opened Options
  import opened CaseStatus
  import opened Ids
  import opened Database
  import opened Sorting
  import opened StoreInvariant
  import opened BundleMutations
  import opened Placement
  import opened PriorPlan

  datatype PlannedBundle = PlannedBundle(employee: EmployeeId, caseIds: seq<CaseId>, stops: seq<Stop>)

  // ---------------------------------------------------------------- the stops of an extension

  function Locations(rows: seq<Stop>): set<nat> {
    set s | s in rows :: s.location
  }

  /** The stops at locations the bundle does not visit yet. */
  function NewStops(stops: seq<Stop>, known: set<nat>): seq<Stop> {
    if stops == [] then []
    else
      var n := |stops| - 1;
      NewStops(stops[..n], known) + if stops[n].location in known then [] else [stops[n]]
  }

  function NextSequence(rows: seq<Stop>): int {
    if rows == [] then 0
    else
      var m := NextSequence(rows[..|rows| - 1]);
      if m < rows[|rows| - 1].sequence + 1 then rows[|rows| - 1].sequence + 1 else m
  }

  function Numbered(stops: seq<Stop>, start: int): seq<Stop> {
    seq(|stops|, i requires 0 <= i < |stops| => stops[i].(sequence := start + i))
  }

  function ExtendedStops(rows: seq<Stop>, stops: seq<Stop>): seq<Stop> {
    rows + Numbered(NewStops(stops, Locations(rows)), NextSequence(rows))
  }

  lemma {:induction false} NextSequenceIsAbove(rows: seq<Stop>)
    ensures NextSequence(rows) >= 0
    ensures forall s :: s in rows ==> s.sequence < NextSequence(rows)
  {
    if rows != [] {
      NextSequenceIsAbove(rows[..|rows| - 1]);
      assert rows == rows[..|rows| - 1] + [rows[|rows| - 1]];
    }
  }

  lemma {:induction false} NewStopsAre(stops: seq<Stop>, known: set<nat>)
    ensures forall s :: s in NewStops(stops, known) <==> s in stops && s.location !in known
  {
    if stops != [] {
      NewStopsAre(stops[..|stops| - 1], known);
      assert stops == stops[..|stops| - 1] + [stops[|stops| - 1]];
    }
  }

  lemma {:induction false} AddedStopIsNew(rows: seq<Stop>, stops: seq<Stop>, i: nat)
    requires |rows| <= i < |ExtendedStops(rows, stops)|
    ensures var s := ExtendedStops(rows, stops)[i];
      && s.sequence == NextSequence(rows) + (i - |rows|)
      && s.location !in Locations(rows) && s.location in Locations(stops)
  {
    var added := NewStops(stops, Locations(rows));
    NewStopsAre(stops, Locations(rows));
    assert added[i - |rows|] in added;
  }

  lemma {:induction false} ExtendedStopsDistinct(rows: seq<Stop>, stops: seq<Stop>)
    requires DistinctSequences(rows)
    ensures DistinctSequences(ExtendedStops(rows, stops))
  {
    var now := ExtendedStops(rows, stops);
    NextSequenceIsAbove(rows);
    forall i | |rows| <= i < |now| ensures now[i].sequence == NextSequence(rows) + (i - |rows|) {
      AddedStopIsNew(rows, stops, i);
    }
    forall i, j | 0 <= i < j < |now| ensures now[i].sequence != now[j].sequence {
      if i < |rows| <= j {
        assert rows[i] in rows;
      }
    }
  }

  /**
   * Extending keeps every existing stop as it is, behind them only stops at locations not
   * visited before, under free numbers; afterwards every location of the cart is visited.
   */
  lemma {:induction false} ExtendedStopsMeans(rows: seq<Stop>, stops: seq<Stop>)
    requires DistinctSequences(rows)
    ensures var now := ExtendedStops(rows, stops);
      && DistinctSequences(now)
      && |rows| <= |now| && now[..|rows|] == rows
      && (forall i :: |rows| <= i < |now| ==> now[i].location !in Locations(rows))
      && Locations(now) == Locations(rows) + Locations(stops)
  {
    var now := ExtendedStops(rows, stops);
    ExtendedStopsDistinct(rows, stops);
    forall i | |rows| <= i < |now| ensures now[i].location !in Locations(rows) && now[i].location in Locations(stops) {
      AddedStopIsNew(rows, stops, i);
    }
    forall l | l in Locations(now) ensures l in Locations(rows) + Locations(stops) {
      var i :| 0 <= i < |now| && now[i].location == l;
    }
    forall l | l in Locations(rows) + Locations(stops) ensures l in Locations(now) {
      LocationIsVisited(rows, stops, l);
    }
  }

  lemma LocationIsVisited(rows: seq<Stop>, stops: seq<Stop>, l: nat)
    requires l in Locations(rows) + Locations(stops)
    ensures l in Locations(ExtendedStops(rows, stops))
  {
    var now := ExtendedStops(rows, stops);
    var added := NewStops(stops, Locations(rows));
    NewStopsAre(stops, Locations(rows));
    if l in Locations(rows) {
      var i :| 0 <= i < |rows| && rows[i].location == l;
      assert now[i] in now;
    } else {
      var s :| s in stops && s.location == l;
      var i :| 0 <= i < |added| && added[i] == s;
      assert now[|rows| + i] == Numbered(added, NextSequence(rows))[i];
      assert now[|rows| + i] in now;
    }
  }

  function StopsOf(d: Store, b: BundleId): seq<Stop> {
    if b in d.stops then d.stops[b] else []
  }

  // ---------------------------------------------------------------- extending and creating

  /** Items of a cart, created one by one behind `start` existing ones. */
  method CreateItems(tx: Tables, b: BundleId, cs: seq<CaseId>, start: nat, pack: nat)
    requires Distinct(cs) && forall c :: c in cs ==> c in tx.cases && c !in tx.items
    modifies tx`items
    ensures tx.items == PlacedItems(old(tx.items), cs, b, start, pack, BySystem)
  {
    ghost var before := tx.State();
    var i := 0;
    while i < |cs|
      invariant 0 <= i <= |cs|
      invariant tx.items == PlacedItems(before.items, cs[..i], b, start, pack, BySystem)
    {
      PlaceStep(before, cs, i, b, start, pack, BySystem);
      tx.items := tx.items[cs[i] := Item(b, start + i, pack, BySystem)];
      i := i + 1;
    }
    assert cs[..i] == cs;
  }

  /** `updateMany … where status = ready`: with all cases in the pool, every one is linked. */
  method LinkReady(tx: Tables, b: BundleId, cs: seq<CaseId>)
    requires AllReady(tx.State(), cs)
    modifies tx`cases
    ensures tx.cases == PlacedCases(old(tx.cases), cs, b)
  {
    tx.cases := map c | c in tx.cases ::
      if c in cs && tx.cases[c].status == Ready then OnBundle(tx.cases[c], b) else tx.cases[c];
  }

  /** A bundle row and the stops are rewritten; cases and items follow. */
  function Extended(d: Store, b: BundleId, cart: PlannedBundle, pack: nat, activate: bool): Store
    requires b in d.bundles
  {
    var row := if activate then d.bundles[b].(activePack := pack) else d.bundles[b];
    var ready := d.(bundles := d.bundles[b := row], stops := d.stops[b := ExtendedStops(StopsOf(d, b), cart.stops)]);
    PlaceAll(ready, cart.caseIds, b, |ItemsOf(d.items, b)|, pack, BySystem)
  }

  ghost predicate CartFits(d: Store, cart: PlannedBundle) {
    Distinct(cart.caseIds) && AllReady(d, cart.caseIds) && DistinctSequences(cart.stops)
  }

  lemma PoolIsFree(d: Store, cs: seq<CaseId>)
    requires Inv(d) && AllReady(d, cs)
    ensures forall c :: c in cs ==> c in d.cases && c !in d.items && c !in d.participants
  {
    forall c | c in cs ensures c !in d.items && c !in d.participants {
      PoolCaseIsFree(d, c);
    }
  }

  /** Where an appended cart starts: behind all items, in a pack behind all packs. */
  method TailOf(tx: Tables, b: BundleId) returns (start: nat, pack: nat)
    ensures start == |ItemsOf(tx.items, b)| && IsLastPack(tx.items, b, pack - 1)
  {
    var order := ListItems(tx, b);
    ListingHasAll(tx.items, b, order);
    var last := LastPack(tx, b, order);
    start, pack := |order|, last + 1;
  }

  /** The appended cart is always a pack of its own, behind all others; a self-pull makes it the active one. */
  method ExtendBundle(tx: Tables, b: BundleId, cart: PlannedBundle, activate: bool) returns (ghost pack: nat)
    requires Inv(tx.State()) && b in tx.bundles && IsOpen(tx.bundles[b]) && CartFits(tx.State(), cart)
    modifies tx
    ensures IsLastPack(old(tx.items), b, pack - 1)
    ensures tx.State() == Extended(old(tx.State()), b, cart, pack, activate)
    ensures Inv(tx.State()) && Follows(old(tx.State()), tx.State())
  {
    ghost var before := tx.State();
    var start, packIndex := TailOf(tx, b);
    pack := packIndex;
    PoolIsFree(before, cart.caseIds);
    ExtendedKeepsInv(before, b, cart, pack, activate);
    CreateItems(tx, b, cart.caseIds, start, packIndex);
    tx.stops := tx.stops[b := ExtendedStops(StopsOf(tx.State(), b), cart.stops)];
    LinkReady(tx, b, cart.caseIds);
    if activate {
      tx.bundles := tx.bundles[b := tx.bundles[b].(activePack := packIndex)];
    }
    assert tx.bundles == Extended(before, b, cart, pack, activate).bundles;
  }

  lemma ExtendedKeepsInv(d: Store, b: BundleId, cart: PlannedBundle, pack: nat, activate: bool)
    requires Inv(d) && b in d.bundles && IsOpen(d.bundles[b]) && CartFits(d, cart)
    ensures Inv(Extended(d, b, cart, pack, activate)) && Follows(d, Extended(d, b, cart, pack, activate))
  {
    var row := if activate then d.bundles[b].(activePack := pack) else d.bundles[b];
    var rowed := d.(bundles := d.bundles[b := row]);
    SetBundleKeepsInv(d, b, row);
    ExtendedStopsMeans(StopsOf(d, b), cart.stops);
    var ready := rowed.(stops := d.stops[b := ExtendedStops(StopsOf(d, b), cart.stops)]);
    ResequenceKeepsInv(rowed, d.items, ready.stops);
    assert ready == rowed.(items := d.items, stops := ready.stops);
    PoolIsFree(d, cart.caseIds);
    PlaceAllKeepsInv(ready, cart.caseIds, b, |ItemsOf(d.items, b)|, pack, BySystem);
    FollowsTransitive(d, rowed, ready);
    FollowsTransitive(d, ready, Extended(d, b, cart, pack, activate));
  }

  function Created(d: Store, b: BundleId, cart: PlannedBundle, day: nat): Store {
    var ready := AddBundle(d, b, cart.employee, day).(stops := d.stops[b := cart.stops]);
    PlaceAll(ready, cart.caseIds, b, 0, 0, BySystem)
  }

  lemma CreatedKeepsInv(d: Store, b: BundleId, cart: PlannedBundle, day: nat)
    requires Inv(d) && b !in d.bundles && CartFits(d, cart)
    requires forall x :: x in d.bundles ==> !IsOpenFor(d, x, cart.employee, day)
    ensures Inv(Created(d, b, cart, day)) && Follows(d, Created(d, b, cart, day))
  {
    var rowed := AddBundle(d, b, cart.employee, day);
    AddBundleKeepsInv(d, b, cart.employee, day);
    var ready := rowed.(stops := d.stops[b := cart.stops]);
    ResequenceKeepsInv(rowed, d.items, ready.stops);
    assert ready == rowed.(items := d.items, stops := ready.stops);
    PoolIsFree(d, cart.caseIds);
    PlaceAllKeepsInv(ready, cart.caseIds, b, 0, 0, BySystem);
    FollowsTransitive(d, rowed, ready);
    FollowsTransitive(d, ready, Created(d, b, cart, day));
  }

  /**
   * The first cart of the day, column by column: its cases are numbered in the planned order
   * and lie in pack 0, which is the active one; the stops are the planned ones. Nothing that
   * was there changes.
   */
  lemma CreatedMeans(d: Store, b: BundleId, cart: PlannedBundle, day: nat)
    requires Inv(d) && b !in d.bundles && CartFits(d, cart)
    ensures var e := Created(d, b, cart, day);
      && e.bundles == d.bundles[b := Bundle(cart.employee, day, BundleAssigned, 0)]
      && e.stops == d.stops[b := cart.stops] && e.participants == d.participants
      && e.cases.Keys == d.cases.Keys
      && (forall c :: c in d.cases && c !in cart.caseIds ==> e.cases[c] == d.cases[c])
      && (forall c :: c in cart.caseIds ==> e.cases[c].status == Assigned && e.cases[c].bundle == Some(b))
      && (forall i :: 0 <= i < |cart.caseIds| ==> cart.caseIds[i] in e.items && e.items[cart.caseIds[i]] == Item(b, i, 0, BySystem))
      && (forall c :: c in d.items ==> c in e.items && e.items[c] == d.items[c])
      && (forall c :: c in e.items && c !in d.items ==> c in cart.caseIds)
  {
    PoolIsFree(d, cart.caseIds);
    PlacedItemsEffect(d.items, cart.caseIds, b, 0, 0, BySystem);
  }

  /**
   * An extension, column by column: the new cases follow all items in a pack of their own,
   * which becomes the active one on a self-pull only; everything that was there stays.
   */
  lemma {:induction false} ExtendedMeans(d: Store, b: BundleId, cart: PlannedBundle, pack: nat, activate: bool, c: CaseId)
    requires Inv(d) && b in d.bundles && CartFits(d, cart) && c in d.cases
    ensures var e := Extended(d, b, cart, pack, activate);
      && e.bundles == d.bundles[b := d.bundles[b].(activePack := if activate then pack else d.bundles[b].activePack)]
      && e.participants == d.participants && e.cases.Keys == d.cases.Keys
      && (c !in cart.caseIds ==> e.cases[c] == d.cases[c] && (c in e.items <==> c in d.items) && (c in d.items ==> e.items[c] == d.items[c]))
      && (c in cart.caseIds ==> c !in d.items && e.cases[c].status == Assigned && e.cases[c].bundle == Some(b))
      && (forall i :: 0 <= i < |cart.caseIds| && cart.caseIds[i] == c ==>
            c in e.items && e.items[c] == Item(b, |ItemsOf(d.items, b)| + i, pack, BySystem))
  {
    PoolIsFree(d, cart.caseIds);
    PlacedItemsEffect(d.items, cart.caseIds, b, |ItemsOf(d.items, b)|, pack, BySystem);
    var row := if activate then d.bundles[b].(activePack := pack) else d.bundles[b];
    var ready := d.(bundles := d.bundles[b := row], stops := d.stops[b := ExtendedStops(StopsOf(d, b), cart.stops)]);
    PlaceAllMeans(ready, cart.caseIds, b, |ItemsOf(d.items, b)|, pack, BySystem, c);
  }

  /** The old stops stay in front, and every location of the cart is visited. */
  lemma ExtendedVisits(d: Store, b: BundleId, cart: PlannedBundle, pack: nat, activate: bool)
    requires Inv(d) && b in d.bundles && CartFits(d, cart)
    ensures var e := Extended(d, b, cart, pack, activate);
      && b in e.stops && (b in d.stops ==> d.stops[b] <= e.stops[b])
      && (set s | s in e.stops[b] :: s.location)
         == (set s | b in d.stops && s in d.stops[b] :: s.location) + (set s | s in cart.stops :: s.location)
      && (forall x :: x in d.stops && x != b ==> x in e.stops && e.stops[x] == d.stops[x])
  {
    ExtendedStopsMeans(StopsOf(d, b), cart.stops);
    var e := Extended(d, b, cart, pack, activate);
    assert Locations(e.stops[b]) == set s | s in e.stops[b] :: s.location;
    assert Locations(StopsOf(d, b)) == set s | b in d.stops && s in d.stops[b] :: s.location;
    assert Locations(cart.stops) == set s | s in cart.stops :: s.location;
  }

  /** The cart's cases lie in the planned order in pack 0, the active one; its stops come first. */
  ghost predicate IsFirstCart(e: Store, b: BundleId, cart: PlannedBundle, day: nat) {
    && b in e.bundles && e.bundles[b] == Bundle(cart.employee, day, BundleAssigned, 0)
    && b in e.stops && cart.stops <= e.stops[b]
    && (forall i :: 0 <= i < |cart.caseIds| ==> cart.caseIds[i] in e.items && e.items[cart.caseIds[i]] == Item(b, i, 0, BySystem))
  }

  lemma CreatedIsFirstCart(d: Store, b: BundleId, cart: PlannedBundle, day: nat)
    requires Inv(d) && b !in d.bundles && CartFits(d, cart)
    ensures IsFirstCart(Created(d, b, cart, day), b, cart, day)
  {
    CreatedMeans(d, b, cart, day);
  }

  method CreateBundle(tx: Tables, cart: PlannedBundle, day: nat) returns (b: BundleId)
    requires Inv(tx.State()) && CartFits(tx.State(), cart)
    requires forall x :: x in tx.bundles ==> !IsOpenFor(tx.State(), x, cart.employee, day)
    modifies tx
    ensures b !in old(tx.bundles) && tx.State() == Created(old(tx.State()), b, cart, day)
    ensures IsFirstCart(tx.State(), b, cart, day) && tx.stops[b] == cart.stops
    ensures Inv(tx.State()) && Follows(old(tx.State()), tx.State())
  {
    ghost var before := tx.State();
    b := FreshId(tx.bundles.Keys);
    CreatedKeepsInv(before, b, cart, day);
    CreatedIsFirstCart(before, b, cart, day);
    PoolIsFree(before, cart.caseIds);
    tx.bundles := tx.bundles[b := Bundle(cart.employee, day, BundleAssigned, 0)];
    CreateItems(tx, b, cart.caseIds, 0, 0);
    tx.stops := tx.stops[b := cart.stops];
    LinkReady(tx, b, cart.caseIds);
  }

  /** An open bundle of the day is extended, never shadowed by a second one; planning never moves the active pack. */
  method PersistBundle(tx: Tables, cart: PlannedBundle, day: nat) returns (b: BundleId, ghost pack: nat)
    requires Inv(tx.State()) && CartFits(tx.State(), cart)
    modifies tx
    ensures if b in old(tx.bundles)
            then IsOpenFor(old(tx.State()), b, cart.employee, day) && tx.State() == Extended(old(tx.State()), b, cart, pack, false)
            else tx.State() == Created(old(tx.State()), b, cart, day)
    ensures b in old(tx.bundles) ==> IsLastPack(old(tx.items), b, pack - 1)
    ensures Inv(tx.State()) && Follows(old(tx.State()), tx.State())
  {
    pack := 0;
    if exists x :: x in tx.bundles && IsOpenFor(tx.State(), x, cart.employee, day) {
      b :| b in tx.bundles && IsOpenFor(tx.State(), b, cart.employee, day);
      pack := ExtendBundle(tx, b, cart, false);
    } else {
      b := CreateBundle(tx, cart, day);
    }
  }

  // ---------------------------------------------------------------- recalculating

  /** The cases of a plan, cart by cart. */
  function CasesOf(plan: seq<PlannedBundle>): seq<CaseId> {
    if plan == [] then [] else CasesOf(plan[..|plan| - 1]) + plan[|plan| - 1].caseIds
  }

  /** What the engine promises: pool cases, each at most once, for employees it was given. */
  ghost predicate IsPlan(d: Store, employees: set<EmployeeId>, plan: seq<PlannedBundle>) {
    && Distinct(CasesOf(plan)) && AllReady(d, CasesOf(plan))
    && forall p :: 0 <= p < |plan| ==> plan[p].employee in employees && DistinctSequences(plan[p].stops)
  }

  /** Who still has an open bundle of the day gets nothing planned. */
  function Busy(d: Store, day: nat): set<EmployeeId> {
    set b | b in BundlesOf(d, day) && IsOpen(d.bundles[b]) :: d.bundles[b].employee
  }

  /** `e` is `d` plus carts for the cases `cs`: everything `d` had is as it was, and nothing joined it. */
  ghost predicate AddsCarts(d: Store, e: Store, cs: seq<CaseId>, employees: set<EmployeeId>, day: nat) {
    && e.cases.Keys == d.cases.Keys && e.participants == d.participants
    && (forall c :: c in d.cases && c !in cs ==> e.cases[c] == d.cases[c])
    && (forall c :: c in d.items ==> c in e.items && e.items[c] == d.items[c])
    && (forall c :: c in e.items && c !in d.items ==> c in cs && e.items[c].bundle !in d.bundles)
    && (forall b :: b in d.bundles ==> b in e.bundles && e.bundles[b] == d.bundles[b])
    && (forall b :: b in d.bundles ==> (b in e.stops <==> b in d.stops) && (b in d.stops ==> e.stops[b] == d.stops[b]))
    && (forall b :: b in e.bundles && b !in d.bundles ==> IsNewCart(e.bundles[b], employees, day))
  }

  predicate IsNewCart(row: Bundle, employees: set<EmployeeId>, day: nat) {
    row.day == day && row.status == BundleAssigned && row.activePack == 0 && row.employee in employees
  }

  /** Every planned case lies on the cart of the employee it was planned for. */
  ghost predicate OnPlannedCart(e: Store, cart: PlannedBundle, day: nat) {
    forall c :: c in cart.caseIds ==>
      c in e.cases && e.cases[c].status == Assigned && e.cases[c].bundle.Some?
      && IsOpenFor(e, e.cases[c].bundle.value, cart.employee, day)
  }

  /** One persisted cart, row by row. */
  ghost predicate IsPersisted(d: Store, e: Store, cart: PlannedBundle, b: BundleId, day: nat) {
    && e.cases == PlacedCases(d.cases, cart.caseIds, b) && e.participants == d.participants
    && (forall c :: c in e.items <==> c in d.items || c in cart.caseIds)
    && (forall c :: c in d.items ==> c !in cart.caseIds && e.items[c] == d.items[c])
    && (forall c :: c in cart.caseIds ==> e.items[c].bundle == b)
    && IsOpenFor(e, b, cart.employee, day)
    && (if b in d.bundles then e.bundles == d.bundles
        else e.bundles == d.bundles[b := Bundle(cart.employee, day, BundleAssigned, 0)])
    && b in e.stops && e.stops == d.stops[b := e.stops[b]]
    && (if b in d.bundles then StopsOf(d, b) <= e.stops[b] && BehindAll(d.items, e.items, b, cart) else IsFirstCart(e, b, cart, day))
  }

  /** The cart's cases lie in a pack behind all that were on the bundle. */
  ghost predicate BehindAll(items: map<CaseId, Item>, now: map<CaseId, Item>, b: BundleId, cart: PlannedBundle) {
    forall c, x | c in items && items[c].bundle == b && x in cart.caseIds && x in now :: items[c].pack < now[x].pack
  }

  lemma ExtendedIsBehind(d: Store, b: BundleId, cart: PlannedBundle, pack: nat)
    requires Inv(d) && b in d.bundles && CartFits(d, cart) && IsLastPack(d.items, b, pack - 1)
    ensures BehindAll(d.items, Extended(d, b, cart, pack, false).items, b, cart)
  {
    PoolIsFree(d, cart.caseIds);
    PlacedItemsEffect(d.items, cart.caseIds, b, |ItemsOf(d.items, b)|, pack, BySystem);
    var now := Extended(d, b, cart, pack, false).items;
    forall c, x | c in d.items && d.items[c].bundle == b && x in cart.caseIds && x in now ensures d.items[c].pack < now[x].pack {
      assert c in ItemsOf(d.items, b);
      var i :| 0 <= i < |cart.caseIds| && cart.caseIds[i] == x;
    }
  }

  lemma PersistedRows(d: Store, e: Store, cart: PlannedBundle, b: BundleId, pack: nat, day: nat)
    requires Inv(d) && CartFits(d, cart)
    requires if b in d.bundles then IsOpenFor(d, b, cart.employee, day) && e == Extended(d, b, cart, pack, false)
             else e == Created(d, b, cart, day)
    requires b in d.bundles ==> IsLastPack(d.items, b, pack - 1)
    ensures IsPersisted(d, e, cart, b, day)
  {
    PoolIsFree(d, cart.caseIds);
    if b in d.bundles {
      PlacedItemsEffect(d.items, cart.caseIds, b, |ItemsOf(d.items, b)|, pack, BySystem);
      assert d.bundles[b := d.bundles[b]] == d.bundles;
      ExtendedIsBehind(d, b, cart, pack);
    } else {
      PlacedItemsEffect(d.items, cart.caseIds, b, 0, 0, BySystem);
      CreatedIsFirstCart(d, b, cart, day);
    }
    forall c | c in cart.caseIds ensures e.items[c].bundle == b {
      var i :| 0 <= i < |cart.caseIds| && cart.caseIds[i] == c;
    }
  }

  /** A cart for somebody without an open bundle of the day cannot land on a bundle that was there. */
  lemma NotOnOldBundle(m: Store, e: Store, e0: EmployeeId, b: BundleId, day: nat)
    requires e0 !in Busy(m, day) && IsOpenFor(e, b, e0, day)
    requires forall x :: x in m.bundles ==> x in e.bundles && e.bundles[x] == m.bundles[x]
    ensures b !in m.bundles
  {
  }

  lemma {:induction false} CartAdded(m: Store, d: Store, e: Store, cs: seq<CaseId>, cart: PlannedBundle, b: BundleId, employees: set<EmployeeId>, day: nat)
    requires AddsCarts(m, d, cs, employees, day) && IsPersisted(d, e, cart, b, day)
    requires cart.employee in employees && b !in m.bundles
    ensures AddsCarts(m, e, cs + cart.caseIds, employees, day)
  {
    forall c | c in m.cases && c !in cs + cart.caseIds ensures e.cases[c] == m.cases[c] {
    }
    forall x | x in e.bundles && x !in m.bundles ensures IsNewCart(e.bundles[x], employees, day) {
    }
  }

  lemma CartIsThere(d: Store, e: Store, cart: PlannedBundle, b: BundleId, day: nat)
    requires AllReady(d, cart.caseIds) && IsPersisted(d, e, cart, b, day)
    ensures OnPlannedCart(e, cart, day)
  {
  }

  /** A later cart does not take an earlier one apart. */
  lemma CartStaysThere(d: Store, e: Store, earlier: PlannedBundle, cart: PlannedBundle, b: BundleId, day: nat)
    requires OnPlannedCart(d, earlier, day) && IsPersisted(d, e, cart, b, day)
    requires AllReady(d, cart.caseIds)
    ensures OnPlannedCart(e, earlier, day)
  {
  }

  // ---------------------------------------------------------------- the carts of a plan

  /** No earlier cart of the plan is for the same employee. */
  ghost predicate IsFirstOf(plan: seq<PlannedBundle>, p: nat)
    requires p < |plan|
  {
    forall q :: 0 <= q < p ==> plan[q].employee != plan[p].employee
  }

  ghost predicate StartsBundle(m: Store, e: Store, cart: PlannedBundle, day: nat) {
    exists b :: b !in m.bundles && IsFirstCart(e, b, cart, day)
  }

  /** The later cart lies on the same bundle, in packs behind the earlier one. */
  ghost predicate Follow(e: Store, earlier: PlannedBundle, later: PlannedBundle) {
    forall c, x | c in earlier.caseIds && x in later.caseIds
      :: c in e.items && x in e.items && e.items[c].bundle == e.items[x].bundle && e.items[c].pack < e.items[x].pack
  }

  /** The employee of every new bundle is one of the first `n` carts'. */
  ghost predicate OwnersPlanned(m: Store, e: Store, plan: seq<PlannedBundle>, n: nat)
    requires n <= |plan|
  {
    forall b :: b in e.bundles && b !in m.bundles ==> exists q :: 0 <= q < n && plan[q].employee == e.bundles[b].employee
  }

  /** The first `n` carts of the plan are laid out: each employee's first one starts a bundle, the others follow it. */
  ghost predicate LaidOut(m: Store, e: Store, plan: seq<PlannedBundle>, n: nat, day: nat)
    requires n <= |plan|
  {
    FirstCartsStart(m, e, plan, n, day) && LaterCartsFollow(e, plan, n)
  }

  ghost predicate FirstCartsStart(m: Store, e: Store, plan: seq<PlannedBundle>, n: nat, day: nat)
    requires n <= |plan|
  {
    forall p :: 0 <= p < n && IsFirstOf(plan, p) ==> StartsBundle(m, e, plan[p], day)
  }

  ghost predicate LaterCartsFollow(e: Store, plan: seq<PlannedBundle>, n: nat)
    requires n <= |plan|
  {
    forall p, q :: 0 <= p < q < n && plan[p].employee == plan[q].employee ==> Follow(e, plan[p], plan[q])
  }

  lemma StartStays(m: Store, d: Store, e: Store, earlier: PlannedBundle, cart: PlannedBundle, b: BundleId, day: nat)
    requires StartsBundle(m, d, earlier, day) && IsPersisted(d, e, cart, b, day)
    ensures StartsBundle(m, e, earlier, day)
  {
    var x :| x !in m.bundles && IsFirstCart(d, x, earlier, day);
    assert IsFirstCart(e, x, earlier, day);
  }

  lemma FollowStays(d: Store, e: Store, earlier: PlannedBundle, later: PlannedBundle, cart: PlannedBundle, b: BundleId, day: nat)
    requires Follow(d, earlier, later) && IsPersisted(d, e, cart, b, day)
    ensures Follow(e, earlier, later)
  {
  }

  lemma NewCartFollows(d: Store, e: Store, earlier: PlannedBundle, cart: PlannedBundle, b: BundleId, day: nat)
    requires Inv(d) && Inv(e) && OnPlannedCart(d, earlier, day) && IsPersisted(d, e, cart, b, day)
    requires earlier.employee == cart.employee
    ensures Follow(e, earlier, cart)
  {
    forall c, x | c in earlier.caseIds && x in cart.caseIds
      ensures c in e.items && x in e.items && e.items[c].bundle == e.items[x].bundle && e.items[c].pack < e.items[x].pack
    {
      var home := d.cases[c].bundle.value;
      assert CaseFits(d, c);
      OpenBundleIsUnique(e, home, b, cart.employee, day);
      assert c in d.items && d.items[c].bundle == b;
    }
  }

  lemma FirstIsNew(m: Store, d: Store, plan: seq<PlannedBundle>, i: nat, b: BundleId, employees: set<EmployeeId>, day: nat)
    requires i < |plan| && IsFirstOf(plan, i) && OwnersPlanned(m, d, plan, i)
    requires plan[i].employee in employees && employees !! Busy(m, day)
    requires forall x :: x in m.bundles ==> x in d.bundles && d.bundles[x] == m.bundles[x]
    requires b in d.bundles
    ensures !IsOpenFor(d, b, plan[i].employee, day)
  {
  }

  lemma {:induction false} EarlierCartStarts(m: Store, d: Store, e: Store, plan: seq<PlannedBundle>, i: nat, p: nat, b: BundleId, day: nat)
    requires p < i < |plan| && IsFirstOf(plan, p) && FirstCartsStart(m, d, plan, i, day)
    requires IsPersisted(d, e, plan[i], b, day)
    ensures StartsBundle(m, e, plan[p], day)
  {
    assert StartsBundle(m, d, plan[p], day);
    StartStays(m, d, e, plan[p], plan[i], b, day);
  }

  lemma {:induction false} NewCartStarts(m: Store, d: Store, e: Store, plan: seq<PlannedBundle>, i: nat, b: BundleId, employees: set<EmployeeId>, day: nat)
    requires i < |plan| && IsFirstOf(plan, i) && OwnersPlanned(m, d, plan, i)
    requires IsPersisted(d, e, plan[i], b, day) && (b in d.bundles ==> IsOpenFor(d, b, plan[i].employee, day))
    requires plan[i].employee in employees && employees !! Busy(m, day)
    requires forall x :: x in m.bundles ==> x in d.bundles && d.bundles[x] == m.bundles[x]
    ensures StartsBundle(m, e, plan[i], day)
  {
    if b in d.bundles {
      FirstIsNew(m, d, plan, i, b, employees, day);
    }
    assert IsFirstCart(e, b, plan[i], day) && b !in m.bundles;
  }

  lemma {:induction false} CartFollows(d: Store, e: Store, plan: seq<PlannedBundle>, i: nat, p: nat, q: nat, b: BundleId, day: nat)
    requires p < q <= i < |plan| && LaterCartsFollow(d, plan, i) && plan[p].employee == plan[q].employee
    requires Inv(d) && Inv(e) && IsPersisted(d, e, plan[i], b, day) && OnPlannedCart(d, plan[p], day)
    ensures Follow(e, plan[p], plan[q])
  {
    if q < i {
      FollowStays(d, e, plan[p], plan[q], plan[i], b, day);
    } else {
      NewCartFollows(d, e, plan[p], plan[i], b, day);
    }
  }

  lemma {:induction false} StartsStep(m: Store, d: Store, e: Store, plan: seq<PlannedBundle>, i: nat, b: BundleId, employees: set<EmployeeId>, day: nat)
    requires i < |plan| && FirstCartsStart(m, d, plan, i, day) && OwnersPlanned(m, d, plan, i)
    requires IsPersisted(d, e, plan[i], b, day) && (b in d.bundles ==> IsOpenFor(d, b, plan[i].employee, day))
    requires plan[i].employee in employees && employees !! Busy(m, day)
    requires forall x :: x in m.bundles ==> x in d.bundles && d.bundles[x] == m.bundles[x]
    ensures FirstCartsStart(m, e, plan, i + 1, day)
  {
    forall p | 0 <= p < i + 1 && IsFirstOf(plan, p) ensures StartsBundle(m, e, plan[p], day) {
      if p < i {
        EarlierCartStarts(m, d, e, plan, i, p, b, day);
      } else {
        NewCartStarts(m, d, e, plan, i, b, employees, day);
      }
    }
  }

  lemma {:induction false} FollowsStep(d: Store, e: Store, plan: seq<PlannedBundle>, i: nat, b: BundleId, day: nat)
    requires i < |plan| && LaterCartsFollow(d, plan, i)
    requires Inv(d) && Inv(e) && IsPersisted(d, e, plan[i], b, day)
    requires forall p :: 0 <= p < i ==> OnPlannedCart(d, plan[p], day)
    ensures LaterCartsFollow(e, plan, i + 1)
  {
    forall p, q | 0 <= p < q < i + 1 && plan[p].employee == plan[q].employee ensures Follow(e, plan[p], plan[q]) {
      CartFollows(d, e, plan, i, p, q, b, day);
    }
  }

  lemma OwnersStep(m: Store, d: Store, e: Store, plan: seq<PlannedBundle>, i: nat, b: BundleId, day: nat)
    requires i < |plan| && OwnersPlanned(m, d, plan, i) && IsPersisted(d, e, plan[i], b, day)
    ensures OwnersPlanned(m, e, plan, i + 1)
  {
    forall x | x in e.bundles && x !in m.bundles ensures exists q :: 0 <= q < i + 1 && plan[q].employee == e.bundles[x].employee {
      if x in d.bundles {
        var q :| 0 <= q < i && plan[q].employee == d.bundles[x].employee;
      } else {
        assert plan[i].employee == e.bundles[x].employee;
      }
    }
  }

  /** The store after the first `n` carts of the plan. */
  ghost predicate PersistedUpTo(m: Store, e: Store, plan: seq<PlannedBundle>, n: nat, employees: set<EmployeeId>, day: nat)
    requires n <= |plan|
  {
    && AddsCarts(m, e, CasesOf(plan[..n]), employees, day)
    && (forall p :: 0 <= p < n ==> OnPlannedCart(e, plan[p], day))
    && LaidOut(m, e, plan, n, day) && OwnersPlanned(m, e, plan, n)
  }

  /** One turn of the loop over the plan's carts. */
  method PersistNext(tx: Tables, ghost before: Store, plan: seq<PlannedBundle>, i: nat, ghost employees: set<EmployeeId>, day: nat)
    requires Inv(tx.State()) && i < |plan| && IsPlan(before, employees, plan) && employees !! Busy(before, day)
    requires PersistedUpTo(before, tx.State(), plan, i, employees, day)
    modifies tx
    ensures PersistedUpTo(before, tx.State(), plan, i + 1, employees, day)
    ensures CasesOf(plan[..i + 1]) == CasesOf(plan[..i]) + plan[i].caseIds
    ensures Inv(tx.State()) && Follows(old(tx.State()), tx.State())
  {
    ghost var here := tx.State();
    PlanRest(before, here, plan, i, employees, day);
    ghost var pack;
    var b;
    b, pack := PersistBundle(tx, plan[i], day);
    PersistedRows(here, tx.State(), plan[i], b, pack, day);
    PlanStep(before, here, tx.State(), plan, i, b, employees, day);
    StartsStep(before, here, tx.State(), plan, i, b, employees, day);
    FollowsStep(here, tx.State(), plan, i, b, day);
    OwnersStep(before, here, tx.State(), plan, i, b, day);
  }

  method PersistAll(tx: Tables, plan: seq<PlannedBundle>, employees: set<EmployeeId>, day: nat) returns (persisted: nat)
    requires Inv(tx.State()) && IsPlan(tx.State(), employees, plan) && employees !! Busy(tx.State(), day)
    modifies tx
    ensures persisted == |CasesOf(plan)|
    ensures AddsCarts(old(tx.State()), tx.State(), CasesOf(plan), employees, day)
    ensures forall p :: 0 <= p < |plan| ==> OnPlannedCart(tx.State(), plan[p], day)
    ensures LaidOut(old(tx.State()), tx.State(), plan, |plan|, day)
    ensures Inv(tx.State()) && Follows(old(tx.State()), tx.State())
  {
    ghost var before := tx.State();
    ghost var here := before;
    persisted := 0;
    var i := 0;
    while i < |plan|
      invariant 0 <= i <= |plan| && tx.State() == here && persisted == |CasesOf(plan[..i])|
      invariant PersistedUpTo(before, here, plan, i, employees, day)
      invariant Inv(here) && Follows(before, here)
    {
      PersistNext(tx, before, plan, i, employees, day);
      FollowsTransitive(before, here, tx.State());
      here := tx.State();
      persisted := persisted + |plan[i].caseIds|;
      i := i + 1;
    }
    assert plan[..i] == plan;
  }

  lemma {:induction false} CasesOfAll(plan: seq<PlannedBundle>, i: nat)
    requires i < |plan| && Distinct(CasesOf(plan))
    ensures CasesOf(plan[..i + 1]) == CasesOf(plan[..i]) + plan[i].caseIds
    ensures Distinct(CasesOf(plan[..i + 1]))
    ensures forall c :: c in plan[i].caseIds ==> c in CasesOf(plan)
    decreases |plan|
  {
    assert plan[..i + 1][..i] == plan[..i];
    if i + 1 < |plan| {
      var front, last := CasesOf(plan[..|plan| - 1]), plan[|plan| - 1].caseIds;
      assert forall j :: 0 <= j < |front| ==> (front + last)[j] == front[j];
      CasesOfAll(plan[..|plan| - 1], i);
      assert plan[..|plan| - 1][..i + 1] == plan[..i + 1] && plan[..|plan| - 1][..i] == plan[..i];
    } else {
      assert plan[..i + 1] == plan;
    }
  }

  /** The next cart still fits: its cases are untouched by the carts before it. */
  lemma PlanRest(m: Store, d: Store, plan: seq<PlannedBundle>, i: nat, employees: set<EmployeeId>, day: nat)
    requires i < |plan| && IsPlan(m, employees, plan) && AddsCarts(m, d, CasesOf(plan[..i]), employees, day)
    ensures CartFits(d, plan[i])
  {
    CasesOfAll(plan, i);
    var head, cs := CasesOf(plan[..i]), plan[i].caseIds;
    forall j, k | 0 <= j < k < |cs| ensures cs[j] != cs[k] {
      assert (head + cs)[|head| + j] == cs[j] && (head + cs)[|head| + k] == cs[k];
    }
    forall c | c in cs ensures c !in head && c in d.cases && d.cases[c].status == Ready {
      var k :| 0 <= k < |cs| && cs[k] == c;
      assert (head + cs)[|head| + k] == c;
      assert forall j :: 0 <= j < |head| ==> (head + cs)[j] == head[j];
      assert c in CasesOf(plan);
    }
  }

  lemma PlanStep(m: Store, d: Store, e: Store, plan: seq<PlannedBundle>, i: nat, b: BundleId, employees: set<EmployeeId>, day: nat)
    requires i < |plan| && IsPlan(m, employees, plan) && employees !! Busy(m, day)
    requires AddsCarts(m, d, CasesOf(plan[..i]), employees, day) && Inv(d) && CartFits(d, plan[i])
    requires forall p :: 0 <= p < i ==> OnPlannedCart(d, plan[p], day)
    requires IsPersisted(d, e, plan[i], b, day)
    ensures CasesOf(plan[..i + 1]) == CasesOf(plan[..i]) + plan[i].caseIds
    ensures AddsCarts(m, e, CasesOf(plan[..i + 1]), employees, day)
    ensures forall p :: 0 <= p <= i ==> OnPlannedCart(e, plan[p], day)
  {
    CasesOfAll(plan, i);
    NotOnOldBundle(m, e, plan[i].employee, b, day);
    CartAdded(m, d, e, CasesOf(plan[..i]), plan[i], b, employees, day);
    CartIsThere(d, e, plan[i], b, day);
    forall p | 0 <= p < i ensures OnPlannedCart(e, plan[p], day) {
      CartStaysThere(d, e, plan[p], plan[i], b, day);
    }
  }

  /** A case of the pool has no item, so clearing leftovers of the pool removes nothing. */
  lemma PoolHasNoLeftovers(d: Store)
    requires Inv(d)
    ensures WithoutItems(d.items, PoolCases(d)) == d.items
  {
    forall c | c in PoolCases(d) ensures c !in d.items {
      PoolCaseIsFree(d, c);
    }
  }

  function PoolCases(d: Store): set<CaseId> {
    set c | c in d.cases && d.cases[c].status == Ready
  }

  /** The engine: for every store and every group of employees it returns a plan for them. */
  ghost predicate IsEngine(assignWork: (Store, set<EmployeeId>) -> seq<PlannedBundle>) {
    forall d, employees :: IsPlan(d, employees, assignWork(d, employees))
  }

  /**
   * Clear, plan, persist, in one transaction. Whatever the engine returns: the new store is
   * the cleared one plus new carts for employees without an open bundle.
   */
  method Recalculate(tx: Tables, day: nat, shifts: set<EmployeeId>, assignWork: (Store, set<EmployeeId>) -> seq<PlannedBundle>)
    returns (planned: nat, plan: seq<PlannedBundle>)
    requires Inv(tx.State()) && IsEngine(assignWork)
    modifies tx
    ensures var cleared := Cleared(old(tx.State()), day);
      && plan == assignWork(cleared, shifts - Busy(cleared, day))
      && planned == |CasesOf(plan)|
      && AllReady(cleared, CasesOf(plan))
      && AddsCarts(cleared, tx.State(), CasesOf(plan), shifts - Busy(cleared, day), day)
      && (forall p :: 0 <= p < |plan| ==> OnPlannedCart(tx.State(), plan[p], day))
      && LaidOut(cleared, tx.State(), plan, |plan|, day)
    ensures Inv(tx.State()) && Follows(old(tx.State()), tx.State())
  {
    ghost var before := tx.State();
    ClearPriorPlan(tx, day);
    ghost var cleared := tx.State();
    PoolHasNoLeftovers(cleared);
    tx.items := WithoutItems(tx.items, PoolCases(tx.State()));
    assert tx.State() == cleared;
    var plannable := shifts - Busy(tx.State(), day);
    plan := assignWork(tx.State(), plannable);
    assert IsPlan(cleared, plannable, plan);
    planned := PersistAll(tx, plan, plannable, day);
    FollowsTransitive(before, cleared, tx.State());
  }

  /**
   * For any engine: a non-cancelled case of the day that is started, placed by the team
   * lead, or in a locked active pack keeps its row and its item, pack index included.
   */
  lemma RecalculationSparesProtected(d: Store, e: Store, cs: seq<CaseId>, employees: set<EmployeeId>, day: nat, c: CaseId)
    requires Inv(d) && IsProtected(d, day, c)
    requires AllReady(Cleared(d, day), cs) && AddsCarts(Cleared(d, day), e, cs, employees, day)
    ensures c in e.cases && e.cases[c] == d.cases[c]
    ensures c in e.items && e.items[c] == d.items[c]
  {
    ProtectedOrReverted(d, day, c);
  }

  /**
   * The same without the notion of a lock: while one case of the active pack is past
   * `assigned` or fetched, or the active pack is not the first, every case of it that is not
   * cancelled comes through a recalculation unchanged.
   */
  lemma RecalculationSparesPackInWork(d: Store, e: Store, cs: seq<CaseId>, employees: set<EmployeeId>, day: nat, x: CaseId, c: CaseId)
    requires Inv(d) && x in d.items && x in d.cases && c in d.items && c in d.cases && d.cases[c].status != Cancelled
    requires d.items[x].bundle == d.items[c].bundle && d.items[c].bundle in d.bundles
    requires d.items[x].pack == d.items[c].pack == d.bundles[d.items[c].bundle].activePack
    requires d.cases[x].status != Assigned || d.cases[x].collected || d.bundles[d.items[c].bundle].activePack > 0
    requires AllReady(Cleared(d, day), cs) && AddsCarts(Cleared(d, day), e, cs, employees, day)
    ensures c in e.cases && e.cases[c] == d.cases[c]
    ensures c in e.items && e.items[c] == d.items[c]
  {
    assert CaseFits(d, c);
    PackInWorkStays(d, day, x, c);
  }

  /** A bundle that survived the clear gets nothing: same row, same items, same stops. */
  lemma RecalculationAddsNothingToSurvivors(d: Store, e: Store, cs: seq<CaseId>, employees: set<EmployeeId>, day: nat, b: BundleId)
    requires Inv(d) && b in Cleared(d, day).bundles
    requires AddsCarts(Cleared(d, day), e, cs, employees, day)
    ensures b in e.bundles && e.bundles[b] == d.bundles[b]
    ensures ItemsOf(e.items, b) == ItemsOf(Cleared(d, day).items, b)
    ensures StopsOf(e, b) == StopsOf(Cleared(d, day), b)
  {
  }

  // ---------------------------------------------------------------- appending after a clear

  function Waiting(): Case {
    Case(Assigned, Some(0), None, None, false, 1, Then(First(Ready), Assigned))
  }

  /** One cart with two planned cases in front of the team lead's, and a case in the pool. */
  function MixedCart(): Store {
    Store(map[0 := Waiting(), 1 := Waiting(), 2 := Waiting(), 3 := NewCase(Ready, None)],
          map[0 := Bundle(0, 0, BundleAssigned, 0)],
          map[0 := Item(0, 0, 0, BySystem), 1 := Item(0, 1, 0, BySystem), 2 := Item(0, 2, 0, ByTeamlead)],
          map[], map[])
  }

  lemma MixedCartFits()
    ensures Inv(MixedCart())
  {
    var d := MixedCart();
    forall c ensures CaseFits(d, c) {
    }
  }

  lemma MixedCartCleared()
    ensures Cleared(MixedCart(), 0).items == map[2 := Item(0, 2, 0, ByTeamlead)]
    ensures 3 in Cleared(MixedCart(), 0).cases && Cleared(MixedCart(), 0).cases[3].status == Ready
  {
    var d := MixedCart();
    assert !IsTouched(d, 0);
    assert RevertedCases(d, 0) == {0, 1};
    var mid := UnlinkAll(d, {0, 1}, false);
    assert mid.cases[2].bundle == Some(0) && IsReferenced(mid, 0);
    assert EmptyBundles(mid, 0) == {};
    DeleteNothing(mid);
    assert mid.items == map[2 := Item(0, 2, 0, ByTeamlead)];
  }

  /**
   * A clear leaves a gap: the one remaining case keeps number 2, the case appended next gets
   * number 1, and every listing of the cart puts it first.
   */
  lemma AppendedAfterClearComesFirst()
    ensures var e := Cleared(MixedCart(), 0);
      && Inv(e) && AllReady(e, [3]) && 0 in e.bundles && IsOpen(e.bundles[0]) && JoinsPack(e.items, 0, None, 0)
      && var now := PlaceAll(e, [3], 0, |ItemsOf(e.items, 0)|, 0, ByTeamlead);
      forall listing | IsListing(now.items, 0, listing) :: listing == [3, 2]
  {
    var e := Cleared(MixedCart(), 0);
    MixedCartFits();
    MixedCartCleared();
    ClearedKeepsInv(MixedCart(), 0);
    assert ItemsOf(e.items, 0) == {2};
    assert CaseFits(e, 2);
    ClearedBundleStays();
    var now := PlacedItems(e.items, [3], 0, 1, 0, ByTeamlead);
    assert [3][..0] == [] && now == e.items[3 := Item(0, 1, 0, ByTeamlead)];
    forall listing | IsListing(now, 0, listing) ensures listing == [3, 2] {
      TwoHaveOneListing(now, 0, listing, 3, 2);
    }
  }

  lemma ClearedBundleStays()
    ensures 0 in Cleared(MixedCart(), 0).bundles && IsOpen(Cleared(MixedCart(), 0).bundles[0])
  {
    MixedCartFits();
    MixedCartCleared();
    ClearedKeepsInv(MixedCart(), 0);
    assert CaseFits(Cleared(MixedCart(), 0), 2);
  }
}
