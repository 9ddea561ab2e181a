/**
 * The team lead's overrides (cases/teamlead.service.ts): park, cancel, withdraw, assign,
 * move, reorder, pause. Each request is one transaction: done completely or not at all.
 */
module Teamlead {
  import opened Options
  import opened CaseStatus
  import opened Ids
  import opened Database
  import opened StoreInvariant
  import opened BundleMutations
  import opened Placement
  import opened Sorting
  import Collaboration
  import PackWindow
  import Workflow

  // ---------------------------------------------------------------- park, cancel

  /** Parking also dissolves a collaboration; a parkable case never has one, so that changes nothing. */
  method Park(tx: Tables, c: CaseId) returns (outcome: Outcome)
    requires Inv(tx.State())
    modifies tx
    ensures outcome == Done <==> c in old(tx.cases) && old(tx.cases[c].status) == Ready
    ensures outcome == Done ==> tx.State() == SetCase(old(tx.State()), c, WithStatus(old(tx.cases[c]), Parked))
    ensures outcome != Done ==> tx.State() == old(tx.State())
    ensures Inv(tx.State()) && Follows(old(tx.State()), tx.State())
  {
    ghost var before := tx.State();
    outcome := Workflow.Transition(tx, c, Parked, None, 0, Workflow.NoGuard());
    if outcome == Done {
      PoolCaseIsFree(before, c);
      ghost var now := tx.State();
      var former := Collaboration.Dissolve(tx, c);
      assert tx.State() == now;
    }
  }

  /** Cancelling takes the case off its cart from any status the graph allows it in. */
  method Cancel(tx: Tables, c: CaseId) returns (outcome: Outcome)
    requires Inv(tx.State())
    modifies tx
    ensures outcome == NotFound <==> c !in old(tx.cases)
    ensures outcome == Done <==> c in old(tx.cases) && old(tx.cases[c].status) !in TERMINAL_STATUSES + {Completed}
    ensures outcome == Done ==> tx.State() == CancelCase(old(tx.State()), c)
    ensures outcome != Done ==> tx.State() == old(tx.State())
    ensures Inv(tx.State()) && Follows(old(tx.State()), tx.State())
  {
    if c !in tx.cases {
      return NotFound;
    }
    if !CanTransition(tx.cases[c].status, Cancelled) {
      return BadRequest;
    }
    CancelKeepsInv(tx.State(), c);
    tx.cases := tx.cases[c := WithStatus(tx.cases[c], Cancelled).(bundle := None)];
    var former := Collaboration.Dissolve(tx, c);
    outcome := Done;
  }

  /** The last open problem was instructed: the case goes back to its employee, without a version check. */
  method ResolveProblems(tx: Tables, c: CaseId) returns (outcome: Outcome)
    requires Inv(tx.State())
    modifies tx
    ensures outcome == Done <==> c in old(tx.cases) && old(tx.cases[c].status) == IssueOpen
    ensures outcome == Done ==> tx.State() == SetCase(old(tx.State()), c, WithStatus(old(tx.cases[c]), ProblemResolved))
    ensures outcome != Done ==> tx.State() == old(tx.State())
    ensures Inv(tx.State()) && Follows(old(tx.State()), tx.State())
  {
    outcome := Workflow.Transition(tx, c, ProblemResolved, None, 0, Workflow.NoGuard());
  }

  // ---------------------------------------------------------------- withdraw

  predicate LiesIn(d: Store, b: BundleId, c: CaseId) {
    b in d.bundles && c in d.items && d.items[c].bundle == b
  }

  /** The case goes back to the pool; the others keep their order and close the gap. */
  method Withdraw(tx: Tables, b: BundleId, c: CaseId) returns (outcome: Outcome, remaining: seq<CaseId>)
    requires Inv(tx.State())
    modifies tx
    ensures outcome == NotFound <==> !LiesIn(old(tx.State()), b, c)
    ensures outcome == Done <==> LiesIn(old(tx.State()), b, c) && c in old(tx.cases) && old(tx.cases[c].status) == Assigned
    ensures outcome != BadRequest
    ensures outcome != Done ==> tx.State() == old(tx.State())
    ensures outcome == Done ==>
      var left := UnlinkAll(old(tx.State()), {c}, false);
      IsListing(left.items, b, remaining) && Reordered(left, tx.State(), b, remaining)
    ensures Inv(tx.State()) && Follows(old(tx.State()), tx.State())
  {
    remaining := [];
    if !LiesIn(tx.State(), b, c) {
      return NotFound, [];
    }
    ghost var before := tx.State();
    assert CaseFits(before, c);
    var order := ListItems(tx, b);
    if tx.cases[c].status != Assigned {
      return Conflict, [];
    }
    tx.items := tx.items - {c};
    tx.cases := tx.cases[c := Unlinked(tx.cases[c], false)];
    var former := Collaboration.Dissolve(tx, c);
    ghost var left := UnlinkAll(before, {c}, false);
    assert tx.State() == left;
    UnlinkAllKeepsInv(before, {c}, false);
    remaining := Without(order, {c});
    ListingWithout(before.items, b, order, {c});
    Resequence(tx, b, remaining);
    FollowsTransitive(before, left, tx.State());
    outcome := Done;
  }

  // ---------------------------------------------------------------- add, assign

  method AddToBundle(tx: Tables, b: BundleId, c: CaseId) returns (outcome: Outcome, ghost pack: nat)
    requires Inv(tx.State())
    modifies tx
    ensures outcome == NotFound <==> b !in old(tx.bundles)
    ensures outcome == Done <==> b in old(tx.bundles) && IsOpen(old(tx.bundles[b])) && AllReady(old(tx.State()), [c])
    ensures outcome != Done ==> tx.State() == old(tx.State())
    ensures outcome == Done ==>
      && JoinsPack(old(tx.items), b, None, pack)
      && tx.State() == PlaceAll(old(tx.State()), [c], b, |ItemsOf(old(tx.items), b)|, pack, ByTeamlead)
    ensures Inv(tx.State()) && Follows(old(tx.State()), tx.State())
  {
    pack := 0;
    if b !in tx.bundles {
      return NotFound, 0;
    }
    var order := ListItems(tx, b);
    outcome, pack := AddCases(tx, b, order, [c], None);
  }

  /** The pack a manual assignment joins: the last one, or with `newPack` one of its own behind it. */
  ghost predicate AssignedPack(items: map<CaseId, Item>, b: BundleId, newPack: bool, pack: nat) {
    if newPack then IsLastPack(items, b, pack - 1) else JoinsPack(items, b, None, pack)
  }

  lemma AssignedPackMeans(items: map<CaseId, Item>, b: BundleId, newPack: bool, pack: nat)
    requires AssignedPack(items, b, newPack, pack)
    ensures newPack ==> forall c :: c in items && items[c].bundle == b ==> items[c].pack < pack
    ensures newPack && (forall c :: c in items ==> items[c].bundle != b) ==> pack == 0
    ensures !newPack ==> forall c :: c in items && items[c].bundle == b ==> items[c].pack <= pack
    ensures pack == 0 || exists c :: c in items && items[c].bundle == b && items[c].pack == if newPack then pack - 1 else pack
  {
    forall c ensures c in items && items[c].bundle == b <==> c in ItemsOf(items, b) {
    }
  }

  /**
   * Cases for an employee, into today's open bundle or a new one. A bundle created for a
   * batch that then fails is not left behind.
   */
  method AssignToEmployee(tx: Tables, e: EmployeeId, day: nat, cs: seq<CaseId>, newPack: bool)
    returns (outcome: Outcome, b: BundleId, ghost pack: nat)
    requires Inv(tx.State())
    modifies tx
    ensures outcome == NotFound <==> e !in tx.staff
    ensures outcome == Done <==> MayReceive(tx.staff, e) && Distinct(cs) && AllReady(old(tx.State()), cs)
    ensures outcome == BadRequest <==> MayReceive(tx.staff, e) && !Distinct(cs)
    ensures outcome != Done ==> tx.State() == old(tx.State())
    ensures outcome == Done ==>
      var mid := Opened(old(tx.State()), b, e, day);
      && IsOpenFor(mid, b, e, day)
      && AssignedPack(mid.items, b, newPack, pack)
      && tx.State() == PlaceAll(mid, cs, b, |ItemsOf(mid.items, b)|, pack, ByTeamlead)
    ensures Inv(tx.State()) && Follows(old(tx.State()), tx.State())
  {
    pack := 0;
    var before := tx.State();
    outcome, b := FindOrCreateBundle(tx, e, day);
    if outcome != Done {
      return;
    }
    ghost var mid := tx.State();
    var order := ListItems(tx, b);
    var target := None;
    if newPack {
      var last := LastPack(tx, b, order);
      target := Some(last + 1);
    }
    outcome, pack := AddCases(tx, b, order, cs, target);
    if outcome != Done {
      tx.Rollback(before);
      return;
    }
    FollowsTransitive(before, mid, tx.State());
  }

  // ---------------------------------------------------------------- reorder, pause

  /** Equal after sorting. */
  function IsPermutation(current: seq<CaseId>, candidate: seq<CaseId>): bool {
    |current| == |candidate| && SortBy(PackWindow.Upwards(), current) == SortBy(PackWindow.Upwards(), candidate)
  }

  lemma PermutationMeansSameCases(current: seq<CaseId>, candidate: seq<CaseId>)
    ensures IsPermutation(current, candidate) <==> multiset(current) == multiset(candidate)
  {
    var le := PackWindow.Upwards();
    SortByProperties(le, current);
    SortByProperties(le, candidate);
    if multiset(current) == multiset(candidate) {
      var a, b := SortBy(le, current), SortBy(le, candidate);
      assert forall i, j :: 0 <= i < j < |a| ==> le(a[i], a[j]);
      assert forall i, j :: 0 <= i < j < |b| ==> le(b[i], b[j]);
      SortedIsUnique(a, b);
      assert |multiset(current)| == |multiset(candidate)|;
    }
  }

  method Reorder(tx: Tables, b: BundleId, cs: seq<CaseId>) returns (outcome: Outcome)
    requires Inv(tx.State())
    modifies tx
    ensures outcome == NotFound <==> b !in old(tx.bundles)
    ensures outcome == Done <==>
      b in old(tx.bundles) && Distinct(cs) && Members(cs) == ItemsOf(old(tx.items), b)
    ensures outcome != Conflict
    ensures outcome != Done ==> tx.State() == old(tx.State())
    ensures outcome == Done ==> Reordered(old(tx.State()), tx.State(), b, cs)
    ensures Inv(tx.State()) && Follows(old(tx.State()), tx.State())
  {
    if b !in tx.bundles {
      return NotFound;
    }
    var current := ListItems(tx, b);
    PermutationMeansSameCases(current, cs);
    SameCases(current, cs);
    assert Members(current) == ItemsOf(tx.items, b);
    if !IsPermutation(current, cs) {
      return BadRequest;
    }
    forall c ensures c in cs <==> c in tx.items && tx.items[c].bundle == b {
      assert c in Members(cs) <==> c in ItemsOf(tx.items, b);
    }
    Resequence(tx, b, cs);
    outcome := Done;
  }

  /** For a list without repetition, being a permutation is having the same members, without repetition. */
  lemma SameCases(current: seq<CaseId>, cs: seq<CaseId>)
    requires Distinct(current)
    ensures multiset(current) == multiset(cs) <==> Distinct(cs) && Members(cs) == Members(current)
  {
    DistinctMultiset(current);
    DistinctMultiset(cs);
    forall c ensures c in Members(cs) <==> c in multiset(cs) {
    }
    forall c ensures c in Members(current) <==> c in multiset(current) {
    }
    if Distinct(cs) && Members(cs) == Members(current) {
      forall c ensures multiset(current)[c] == multiset(cs)[c] {
        assert c in Members(cs) <==> c in Members(current);
      }
      assert multiset(current) == multiset(cs);
    }
    if multiset(current) == multiset(cs) {
      PermutationDistinct(current, cs);
      assert Members(cs) == Members(current);
    }
  }

  function WithBundleStatus(d: Store, b: BundleId, s: BundleStatus): Store
    requires b in d.bundles
  {
    d.(bundles := d.bundles[b := d.bundles[b].(status := s)])
  }

  /** Pausing and resuming write the status of an open bundle. */
  method SetBundleStatus(tx: Tables, b: BundleId, to: BundleStatus) returns (outcome: Outcome)
    requires Inv(tx.State()) && to in {BundlePaused, BundleAssigned}
    modifies tx
    ensures outcome == NotFound <==> b !in old(tx.bundles)
    ensures outcome == Done <==> b in old(tx.bundles) && IsOpen(old(tx.bundles[b]))
    ensures outcome != BadRequest
    ensures outcome == Done ==> tx.State() == WithBundleStatus(old(tx.State()), b, to)
    ensures outcome != Done ==> tx.State() == old(tx.State())
    ensures Inv(tx.State()) && Follows(old(tx.State()), tx.State())
  {
    if b !in tx.bundles {
      return NotFound;
    }
    if !IsOpen(tx.bundles[b]) {
      return Conflict;
    }
    SetBundleKeepsInv(tx.State(), b, tx.bundles[b].(status := to));
    tx.bundles := tx.bundles[b := tx.bundles[b].(status := to)];
    outcome := Done;
  }

  /** Resuming restores `assigned`, so a pause round-trips exactly when that was the status before. */
  lemma PauseResumeRoundTrip(d: Store, b: BundleId)
    requires b in d.bundles && IsOpen(d.bundles[b])
    ensures WithBundleStatus(WithBundleStatus(d, b, BundlePaused), b, BundleAssigned) == d
            <==> d.bundles[b].status == BundleAssigned
  {
  }
}
