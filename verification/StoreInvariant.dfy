/**
 * What every run of the disposition store keeps, and the row-level writes the
 * transactions are made of, each with the proof that it keeps it.
 */
module StoreInvariant {
  import opened Options
  import opened CaseStatus
  import opened Ids
  import opened Database
  import opened Sorting

  // ---------------------------------------------------------------- the invariant, case by case

  /** The statuses in which a case lies on somebody's cart. */
  predicate OnCart(s: Status) {
    s in {Assigned, InProgress, IssueOpen, ProblemResolved, Completed, ZstDone}
  }

  predicate IsOpen(b: Bundle) {
    b.status != BundleCompleted && b.status != BundleCancelled
  }

  predicate IsActive(p: Participant) {
    p.status == Angenommen || p.status == TeilErledigt
  }

  /** Foreign keys. */
  ghost predicate Referenced(d: Store, c: CaseId) {
    && (c in d.items ==> c in d.cases && d.items[c].bundle in d.bundles)
    && (c in d.participants ==> c in d.cases)
    && (c in d.cases && d.cases[c].bundle.Some? ==> d.cases[c].bundle.value in d.bundles)
  }

  /** The two records of where a case lies agree; only a cancelled case may leave an item behind. */
  ghost predicate Linked(d: Store, c: CaseId) {
    c in d.cases ==>
      if d.cases[c].status == Cancelled then d.cases[c].bundle == None
      else d.cases[c].bundle == if c in d.items then Some(d.items[c].bundle) else None
  }

  /** A case has a bundle exactly while its status says that it lies on a cart. */
  ghost predicate Placed(d: Store, c: CaseId) {
    c in d.cases ==> (d.cases[c].bundle.Some? <==> OnCart(d.cases[c].status))
  }

  /** A completed bundle links finished cases only. */
  ghost predicate DoneInCompleted(d: Store, c: CaseId) {
    c in d.cases && d.cases[c].bundle.Some? && d.cases[c].bundle.value in d.bundles
    && d.bundles[d.cases[c].bundle.value].status == BundleCompleted
    ==> IsFinished(d.cases[c].status)
  }

  /** One `Inhaber`, the owner, who has always accepted; everybody else is a `Helfer`. */
  ghost predicate CrewOf(crew: Crew, owner: EmployeeId) {
    && owner in crew
    && IsActive(crew[owner])
    && forall e :: e in crew ==> (crew[e].role == Inhaber <==> e == owner)
  }

  /**
   * A shared case lies on a cart, and the cart's employee owns it; so only `Helfer` rows
   * are ever invited, declined or removed.
   */
  ghost predicate Owned(d: Store, c: CaseId) {
    c in d.cases && c in d.participants ==>
      && d.cases[c].bundle.Some?
      && d.cases[c].bundle.value in d.bundles
      && CrewOf(d.participants[c], d.bundles[d.cases[c].bundle.value].employee)
  }

  /** The status history follows the lifecycle graph; the completion time is there exactly when finished. */
  ghost predicate Stamped(c: Case) {
    && IsPath(c.history) && c.history.last == c.status
    && (c.completedAt.Some? <==> IsFinished(c.status))
  }

  ghost predicate CaseFits(d: Store, c: CaseId) {
    && Referenced(d, c) && Linked(d, c) && Placed(d, c) && DoneInCompleted(d, c) && Owned(d, c)
    && (c in d.cases ==> Stamped(d.cases[c]))
  }

  /** An employee has at most one open bundle per day. */
  ghost predicate OneOpenBundle(bundles: map<BundleId, Bundle>) {
    forall a, b | a in bundles && b in bundles && a != b && IsOpen(bundles[a]) && IsOpen(bundles[b])
      :: bundles[a].employee != bundles[b].employee || bundles[a].day != bundles[b].day
  }

  /** The rows of one bundle hold distinct, non-negative sequence numbers. */
  ghost predicate DistinctSequences(rows: seq<Stop>) {
    && (forall i :: 0 <= i < |rows| ==> rows[i].sequence >= 0)
    && (forall i, j :: 0 <= i < j < |rows| ==> rows[i].sequence != rows[j].sequence)
  }

  ghost predicate StopsFit(d: Store) {
    forall b :: b in d.stops ==> b in d.bundles && DistinctSequences(d.stops[b])
  }

  ghost predicate Inv(d: Store) {
    && (forall c :: CaseFits(d, c))
    && OneOpenBundle(d.bundles)
    && StopsFit(d)
  }

  // ---------------------------------------------------------------- what a step may do to a case

  /** Nothing a step does to a case rewrites its past. */
  ghost predicate CaseFollows(a: Case, b: Case) {
    && Extends(a.history, b.history) && a.version <= b.version && a.parent == b.parent
    && (a.completedAt.Some? ==> b.completedAt == a.completedAt)
  }

  ghost predicate Follows(d: Store, e: Store) {
    forall c :: c in d.cases ==> c in e.cases && CaseFollows(d.cases[c], e.cases[c])
  }

  lemma FollowsTransitive(a: Store, b: Store, c: Store)
    requires Follows(a, b) && Follows(b, c)
    ensures Follows(a, c)
  {
    forall x | x in a.cases ensures x in c.cases && CaseFollows(a.cases[x], c.cases[x]) {
      ExtendsTransitive(a.cases[x].history, b.cases[x].history, c.cases[x].history);
    }
  }

  // ---------------------------------------------------------------- row-level writes

  /** A direct write of the status column. */
  function WithStatus(c: Case, s: Status): Case {
    c.(status := s, version := c.version + 1, history := Then(c.history, s))
  }

  /** The workflow service's write: status, version, and the completion time on first completion. */
  function Written(c: Case, s: Status, now: nat): Case {
    var w := WithStatus(c, s);
    if IsFinished(s) && c.completedAt == None then w.(completedAt := Some(now)) else w
  }

  function SetCase(d: Store, c: CaseId, row: Case): Store {
    d.(cases := d.cases[c := row])
  }

  function Unlinked(c: Case, dropCollected: bool): Case {
    WithStatus(c, Ready).(bundle := None, collected := c.collected && !dropCollected)
  }

  /** The participant rows that survive when the cases `s` lose all of theirs. */
  function Dissolved(m: map<CaseId, Crew>, s: set<CaseId>): map<CaseId, Crew> {
    map c | c in m && c !in s :: m[c]
  }

  function UnlinkedCases(m: map<CaseId, Case>, s: set<CaseId>, dropCollected: bool): map<CaseId, Case> {
    map c | c in m :: if c in s then Unlinked(m[c], dropCollected) else m[c]
  }

  function WithoutItems(m: map<CaseId, Item>, s: set<CaseId>): map<CaseId, Item> {
    map c | c in m && c !in s :: m[c]
  }

  /** Cases leave their cart for the pool: item gone, link gone, collaboration gone. */
  function UnlinkAll(d: Store, s: set<CaseId>, dropCollected: bool): Store {
    d.(cases := UnlinkedCases(d.cases, s, dropCollected),
       items := WithoutItems(d.items, s),
       participants := Dissolved(d.participants, s))
  }

  /** The item rows after `cs` joined bundle `b` one by one, behind `start` items. */
  function PlacedItems(m: map<CaseId, Item>, cs: seq<CaseId>, b: BundleId, start: nat, pack: nat, createdBy: Author): map<CaseId, Item> {
    if cs == [] then m
    else
      var n := |cs| - 1;
      PlacedItems(m, cs[..n], b, start, pack, createdBy)[cs[n] := Item(b, start + n, pack, createdBy)]
  }

  function OnBundle(c: Case, b: BundleId): Case {
    WithStatus(c, Assigned).(bundle := Some(b))
  }

  function PlacedCases(m: map<CaseId, Case>, cs: seq<CaseId>, b: BundleId): map<CaseId, Case> {
    map c | c in m :: if c in cs then OnBundle(m[c], b) else m[c]
  }

  /** Cases `cs` are put on the cart of bundle `b`, in the given order. */
  function PlaceAll(d: Store, cs: seq<CaseId>, b: BundleId, start: nat, pack: nat, createdBy: Author): Store {
    d.(cases := PlacedCases(d.cases, cs, b), items := PlacedItems(d.items, cs, b, start, pack, createdBy))
  }

  /** Cancelling unlinks the case but leaves its item row where it is. */
  function CancelCase(d: Store, c: CaseId): Store
    requires c in d.cases
  {
    d.(cases := d.cases[c := WithStatus(d.cases[c], Cancelled).(bundle := None)],
       participants := Dissolved(d.participants, {c}))
  }

  function NewCase(s: Status, parent: Option<CaseId>): Case {
    Case(s, None, parent, None, false, 0, First(s))
  }

  function AddBundle(d: Store, b: BundleId, e: EmployeeId, day: nat): Store {
    d.(bundles := d.bundles[b := Bundle(e, day, BundleAssigned, 0)])
  }

  /** Bundles that no case links to disappear with their items and stops. */
  function DeleteBundles(d: Store, gone: set<BundleId>): Store {
    d.(bundles := map b | b in d.bundles && b !in gone :: d.bundles[b],
       items := map c | c in d.items && d.items[c].bundle !in gone :: d.items[c],
       stops := map b | b in d.stops && b !in gone :: d.stops[b])
  }

  // ---------------------------------------------------------------- the writes, column by column

  /** The workflow's write moves status and version, stamps the first completion, and nothing else. */
  lemma StatusWriteMeans(c: Case, s: Status, now: nat)
    ensures var w := Written(c, s, now);
      && w.status == s && w.version == c.version + 1 && w.bundle == c.bundle && w.parent == c.parent && w.collected == c.collected
      && (s in {Completed, ZstDone} && c.completedAt == None ==> w.completedAt == Some(now))
      && (s !in {Completed, ZstDone} || c.completedAt != None ==> w.completedAt == c.completedAt)
  {
  }

  /** Who leaves a cart is ready again and nobody's; the tick for fetched goods survives unless it is dropped. */
  lemma UnlinkAllMeans(d: Store, s: set<CaseId>, dropCollected: bool, c: CaseId)
    requires c in d.cases
    ensures var e := UnlinkAll(d, s, dropCollected);
      && e.cases.Keys == d.cases.Keys && e.bundles == d.bundles && e.stops == d.stops
      && (c in s ==>
            && e.cases[c].status == Ready && e.cases[c].bundle == None && e.cases[c].version == d.cases[c].version + 1
            && e.cases[c].completedAt == d.cases[c].completedAt
            && (e.cases[c].collected <==> d.cases[c].collected && !dropCollected)
            && c !in e.items && c !in e.participants)
      && (c !in s ==>
            && e.cases[c] == d.cases[c]
            && (c in e.items <==> c in d.items) && (c in d.items ==> e.items[c] == d.items[c])
            && (c in e.participants <==> c in d.participants) && (c in d.participants ==> e.participants[c] == d.participants[c]))
  {
  }

  /** Who is put on a cart is assigned to its bundle, with goods and completion as they were. */
  lemma PlaceAllMeans(d: Store, cs: seq<CaseId>, b: BundleId, start: nat, pack: nat, createdBy: Author, c: CaseId)
    requires Distinct(cs) && c in d.cases
    ensures var e := PlaceAll(d, cs, b, start, pack, createdBy);
      && e.cases.Keys == d.cases.Keys && e.bundles == d.bundles && e.stops == d.stops && e.participants == d.participants
      && (c in cs ==>
            && e.cases[c].status == Assigned && e.cases[c].bundle == Some(b) && e.cases[c].version == d.cases[c].version + 1
            && e.cases[c].collected == d.cases[c].collected && e.cases[c].completedAt == d.cases[c].completedAt
            && c in e.items && e.items[c].bundle == b && e.items[c].pack == pack && e.items[c].createdBy == createdBy)
      && (c !in cs ==>
            && e.cases[c] == d.cases[c]
            && (c in e.items <==> c in d.items) && (c in d.items ==> e.items[c] == d.items[c]))
  {
    PlacedItemsEffect(d.items, cs, b, start, pack, createdBy);
    if c in cs {
      var i :| 0 <= i < |cs| && cs[i] == c;
    }
  }

  /** Who is cancelled is off its cart and alone; the item row stays. */
  lemma CancelMeans(d: Store, c: CaseId)
    requires c in d.cases
    ensures var e := CancelCase(d, c);
      && e.cases[c].status == Cancelled && e.cases[c].bundle == None && e.cases[c].version == d.cases[c].version + 1
      && e.cases[c].completedAt == d.cases[c].completedAt && e.cases[c].collected == d.cases[c].collected
      && c !in e.participants && e.items == d.items && e.bundles == d.bundles && e.stops == d.stops
      && (forall x :: x in d.cases && x != c ==> x in e.cases && e.cases[x] == d.cases[x])
      && (forall x :: x in d.participants && x != c ==> x in e.participants && e.participants[x] == d.participants[x])
  {
  }

  /** A new case is on no cart, untouched and not shared; a new bundle is assigned, empty, and begins with pack 0. */
  lemma NewRowsMean(d: Store, c: CaseId, s: Status, parent: Option<CaseId>, b: BundleId, e: EmployeeId, day: nat)
    ensures var row := NewCase(s, parent);
      && row.status == s && row.parent == parent && row.bundle == None && row.completedAt == None
      && !row.collected && row.version == 0
    ensures var now := AddBundle(d, b, e, day);
      && b in now.bundles && now.bundles[b].employee == e && now.bundles[b].day == day
      && now.bundles[b].status == BundleAssigned && now.bundles[b].activePack == 0
      && (forall x :: x in d.bundles && x != b ==> x in now.bundles && now.bundles[x] == d.bundles[x])
      && now.cases == d.cases && now.items == d.items && now.stops == d.stops && now.participants == d.participants
  {
  }

  // ---------------------------------------------------------------- each write keeps the invariant

  lemma StampedWrite(c: Case, s: Status, now: nat)
    requires Stamped(c)
    requires c.status == s || CanTransition(c.status, s)
    ensures Stamped(Written(c, s, now))
    ensures CaseFollows(c, Written(c, s, now))
  {
  }

  lemma UnlinkAllKeepsInv(d: Store, s: set<CaseId>, dropCollected: bool)
    requires Inv(d)
    requires forall c :: c in s ==> c in d.cases && d.cases[c].status == Assigned
    ensures Inv(UnlinkAll(d, s, dropCollected)) && Follows(d, UnlinkAll(d, s, dropCollected))
  {
    var e := UnlinkAll(d, s, dropCollected);
    forall c ensures CaseFits(e, c) && (c in d.cases ==> CaseFollows(d.cases[c], e.cases[c])) {
      assert CaseFits(d, c);
      if c in s {
        StampedWrite(d.cases[c], Ready, 0);
      }
    }
  }

  lemma {:induction false} PlacedItemsEffect(m: map<CaseId, Item>, cs: seq<CaseId>, b: BundleId, start: nat, pack: nat, createdBy: Author)
    requires Distinct(cs)
    ensures var r := PlacedItems(m, cs, b, start, pack, createdBy);
      && (forall c :: c in r <==> c in m || c in cs)
      && (forall c :: c in m && c !in cs ==> r[c] == m[c])
      && (forall i :: 0 <= i < |cs| ==> r[cs[i]] == Item(b, start + i, pack, createdBy))
  {
    if cs != [] {
      var n := |cs| - 1;
      PlacedItemsEffect(m, cs[..n], b, start, pack, createdBy);
      assert cs == cs[..n] + [cs[n]];
      assert cs[n] !in cs[..n];
    }
  }

  /** Cases may be placed that come from the pool, or from another cart with their collaboration dissolved. */
  ghost predicate MayPlace(d: Store, cs: seq<CaseId>, b: BundleId) {
    && Distinct(cs)
    && b in d.bundles && IsOpen(d.bundles[b])
    && (forall c :: c in cs ==> c in d.cases && (d.cases[c].status == Ready || d.cases[c].status == Assigned))
    && (forall c :: c in cs ==> c !in d.participants)
  }

  lemma PlaceAllKeepsInv(d: Store, cs: seq<CaseId>, b: BundleId, start: nat, pack: nat, createdBy: Author)
    requires Inv(d) && MayPlace(d, cs, b)
    ensures Inv(PlaceAll(d, cs, b, start, pack, createdBy))
    ensures Follows(d, PlaceAll(d, cs, b, start, pack, createdBy))
  {
    PlacedItemsEffect(d.items, cs, b, start, pack, createdBy);
    var e := PlaceAll(d, cs, b, start, pack, createdBy);
    forall c ensures CaseFits(e, c) && (c in d.cases ==> CaseFollows(d.cases[c], e.cases[c])) {
      assert CaseFits(d, c);
      if c in cs {
        var i :| 0 <= i < |cs| && cs[i] == c;
        StampedWrite(d.cases[c], Assigned, 0);
      }
    }
  }

  /** An unstarted case changes carts; its collaboration ends, so nobody but the new owner is concerned. */
  lemma RelinkKeepsInv(d: Store, e: Store, c: CaseId, b: BundleId)
    requires Inv(d) && c in d.cases && d.cases[c].status == Assigned && b in d.bundles && IsOpen(d.bundles[b])
    requires e.cases == d.cases[c := OnBundle(d.cases[c], b)] && e.bundles == d.bundles
    requires e.participants == Dissolved(d.participants, {c})
    requires e.items.Keys == d.items.Keys && c in e.items && e.items[c].bundle == b
    requires forall x :: x in d.items && x != c ==> x in e.items && e.items[x].bundle == d.items[x].bundle
    requires StopsFit(e)
    ensures Inv(e) && Follows(d, e)
  {
    forall x ensures CaseFits(e, x) && (x in d.cases ==> CaseFollows(d.cases[x], e.cases[x])) {
      assert CaseFits(d, x);
      assert x in e.items <==> x in d.items;
    }
  }

  /** A case in the pool has no item and no participants. */
  lemma PoolCaseIsFree(d: Store, c: CaseId)
    requires Inv(d) && c in d.cases && !OnCart(d.cases[c].status) && d.cases[c].status != Cancelled
    ensures c !in d.items && c !in d.participants && d.cases[c].bundle == None
  {
    assert CaseFits(d, c);
  }

  lemma CancelKeepsInv(d: Store, c: CaseId)
    requires Inv(d) && c in d.cases && CanTransition(d.cases[c].status, Cancelled)
    ensures Inv(CancelCase(d, c)) && Follows(d, CancelCase(d, c))
  {
    var e := CancelCase(d, c);
    StampedWrite(d.cases[c], Cancelled, 0) by {
      assert CaseFits(d, c);
    }
    forall x ensures CaseFits(e, x) {
      assert CaseFits(d, x);
    }
  }

  /** A case row may change as long as its link stays and still fits its status. */
  lemma SetCaseKeepsInv(d: Store, c: CaseId, row: Case)
    requires Inv(d) && c in d.cases
    requires row.bundle == d.cases[c].bundle && CaseFollows(d.cases[c], row) && Stamped(row)
    requires OnCart(row.status) <==> OnCart(d.cases[c].status)
    requires d.cases[c].status == Cancelled ==> row.status == Cancelled
    requires IsFinished(d.cases[c].status) ==> IsFinished(row.status)
    ensures Inv(SetCase(d, c, row)) && Follows(d, SetCase(d, c, row))
  {
    var e := SetCase(d, c, row);
    forall x ensures CaseFits(e, x) {
      assert CaseFits(d, x);
    }
    assert OnCart(row.status) ==> row.status != Cancelled;
  }

  /**
   * The workflow service writes only the status. Along an edge of the graph that keeps the
   * invariant exactly when both ends agree on whether the case lies on a cart: `assigned`
   * to `ready` is the one edge to a non-terminal status that does not.
   */
  lemma TransitionKeepsInv(d: Store, c: CaseId, s: Status, now: nat)
    requires Inv(d) && c in d.cases && CanTransition(d.cases[c].status, s)
    ensures var e := SetCase(d, c, Written(d.cases[c], s, now));
      && (Inv(e) <==> (OnCart(d.cases[c].status) <==> OnCart(s)))
      && Follows(d, e)
  {
    assert CaseFits(d, c);
    StampedWrite(d.cases[c], s, now);
    var e := SetCase(d, c, Written(d.cases[c], s, now));
    if OnCart(d.cases[c].status) <==> OnCart(s) {
      SetCaseKeepsInv(d, c, Written(d.cases[c], s, now));
    } else {
      assert !Placed(e, c);
      assert !CaseFits(e, c);
    }
  }

  lemma AddCaseKeepsInv(d: Store, c: CaseId, s: Status, parent: Option<CaseId>)
    requires Inv(d) && c !in d.cases && s in {Ready, Blocked, NeedsReview}
    ensures var e := SetCase(d, c, NewCase(s, parent)); Inv(e) && Follows(d, e)
  {
    var e := SetCase(d, c, NewCase(s, parent));
    forall x ensures CaseFits(e, x) {
      assert CaseFits(d, x);
    }
  }

  lemma AddBundleKeepsInv(d: Store, b: BundleId, e: EmployeeId, day: nat)
    requires Inv(d) && b !in d.bundles
    requires forall x :: x in d.bundles && IsOpen(d.bundles[x]) && d.bundles[x].employee == e ==> d.bundles[x].day != day
    ensures Inv(AddBundle(d, b, e, day)) && Follows(d, AddBundle(d, b, e, day))
  {
    var f := AddBundle(d, b, e, day);
    forall x ensures CaseFits(f, x) {
      assert CaseFits(d, x);
    }
  }

  /** A bundle row is rewritten; it may become completed only when nothing unfinished is linked to it. */
  lemma SetBundleKeepsInv(d: Store, b: BundleId, row: Bundle)
    requires Inv(d) && b in d.bundles
    requires row.employee == d.bundles[b].employee && row.day == d.bundles[b].day
    requires IsOpen(row) ==> IsOpen(d.bundles[b])
    requires row.status == BundleCompleted ==>
      forall c :: c in d.cases && d.cases[c].bundle == Some(b) ==> IsFinished(d.cases[c].status)
    ensures Inv(d.(bundles := d.bundles[b := row])) && Follows(d, d.(bundles := d.bundles[b := row]))
  {
    var e := d.(bundles := d.bundles[b := row]);
    forall x ensures CaseFits(e, x) {
      assert CaseFits(d, x);
    }
  }

  /** Sequence numbers, packs and authors of items, and the order of stops, are no part of the links. */
  lemma ResequenceKeepsInv(d: Store, items: map<CaseId, Item>, stops: map<BundleId, seq<Stop>>)
    requires Inv(d) && items.Keys == d.items.Keys
    requires forall c :: c in items ==> items[c].bundle == d.items[c].bundle
    requires forall b :: b in stops ==> b in d.bundles && DistinctSequences(stops[b])
    ensures Inv(d.(items := items, stops := stops)) && Follows(d, d.(items := items, stops := stops))
  {
    var e := d.(items := items, stops := stops);
    forall x ensures CaseFits(e, x) {
      assert CaseFits(d, x);
      assert x in items <==> x in d.items;
    }
  }

  lemma DeleteBundlesKeepsInv(d: Store, gone: set<BundleId>)
    requires Inv(d)
    requires forall c :: c in d.cases && d.cases[c].bundle.Some? ==> d.cases[c].bundle.value !in gone
    ensures Inv(DeleteBundles(d, gone)) && Follows(d, DeleteBundles(d, gone))
  {
    var e := DeleteBundles(d, gone);
    forall x ensures CaseFits(e, x) {
      assert CaseFits(d, x);
    }
  }

  /** The participants of one case are replaced; the new crew must still belong to the owner. */
  lemma SetCrewKeepsInv(d: Store, c: CaseId, crew: Crew)
    requires Inv(d) && c in d.cases && d.cases[c].bundle.Some? && d.cases[c].bundle.value in d.bundles
    requires CrewOf(crew, d.bundles[d.cases[c].bundle.value].employee)
    ensures var e := d.(participants := d.participants[c := crew]); Inv(e) && Follows(d, e)
  {
    var e := d.(participants := d.participants[c := crew]);
    forall x ensures CaseFits(e, x) {
      assert CaseFits(d, x);
    }
  }

  // ---------------------------------------------------------------- the invariant unfolded

  /** The definition unfolded for one case of the store: no new fact, but the form in which it is used. */
  lemma InvariantSays(d: Store, c: CaseId)
    requires Inv(d) && c in d.cases
    ensures d.cases[c].status != Cancelled ==>
      forall b :: d.cases[c].bundle == Some(b) <==> c in d.items && d.items[c].bundle == b
    ensures d.cases[c].status in {NeedsReview, Blocked, Ready, Parked, SplitContainer, Cancelled} ==>
      d.cases[c].bundle == None && c !in d.participants
    ensures d.cases[c].status in {Assigned, InProgress, IssueOpen, ProblemResolved} ==>
      d.cases[c].bundle.Some? && d.cases[c].bundle.value in d.bundles
      && d.bundles[d.cases[c].bundle.value].status != BundleCompleted
    ensures c in d.participants ==>
      forall e :: e in d.participants[c] && d.participants[c][e].status in {Eingeladen, Abgelehnt, Entfernt} ==>
        d.participants[c][e].role == Helfer
  {
    assert CaseFits(d, c);
  }
}
