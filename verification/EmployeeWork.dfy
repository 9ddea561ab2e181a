/**
 * The employee's own requests (cases/cases.service.ts): start and finish a case, park the
 * rest of a full cart, tick off fetched goods; and the bundle status that follows.
 */
module EmployeeWork {
  import opened Options
  import opened CaseStatus
  import opened Ids
  import opened Database
  import opened Sorting
  import opened StoreInvariant
  import opened BundleMutations
  import opened Placement
  import Collaboration
  import Workflow

  // ---------------------------------------------------------------- the bundle follows its cases

  /** Work has started: the cart becomes active, unless it is paused or further on. */
  method ActivateBundle(tx: Tables, c: CaseId)
    requires Inv(tx.State())
    modifies tx
    ensures tx.State() == Activated(old(tx.State()), c)
    ensures Inv(tx.State()) && Follows(old(tx.State()), tx.State())
  {
    if c in tx.cases && tx.cases[c].bundle.Some? {
      var b := tx.cases[c].bundle.value;
      if b in tx.bundles && tx.bundles[b].status == BundleAssigned {
        SetBundleKeepsInv(tx.State(), b, tx.bundles[b].(status := BundleActive));
        tx.bundles := tx.bundles[b := tx.bundles[b].(status := BundleActive)];
      }
    }
  }

  function Activated(d: Store, c: CaseId): Store {
    if c in d.cases && d.cases[c].bundle.Some? && d.cases[c].bundle.value in d.bundles
      && d.bundles[d.cases[c].bundle.value].status == BundleAssigned
    then
      var b := d.cases[c].bundle.value;
      d.(bundles := d.bundles[b := d.bundles[b].(status := BundleActive)])
    else d
  }

  /** Nothing linked to the bundle is still to do. */
  predicate AllDone(d: Store, b: BundleId) {
    forall c :: c in d.cases && d.cases[c].bundle == Some(b) ==> d.cases[c].status in {Completed, ZstDone, Cancelled}
  }

  function Closed(d: Store, c: CaseId): Store {
    if c in d.cases && d.cases[c].bundle.Some? && d.cases[c].bundle.value in d.bundles
      && IsOpen(d.bundles[d.cases[c].bundle.value]) && AllDone(d, d.cases[c].bundle.value)
    then
      var b := d.cases[c].bundle.value;
      d.(bundles := d.bundles[b := d.bundles[b].(status := BundleCompleted)])
    else d
  }

  /** The last case of a bundle closes it; a closed bundle is left alone. */
  method CloseBundleIfDone(tx: Tables, c: CaseId)
    requires Inv(tx.State())
    modifies tx
    ensures tx.State() == Closed(old(tx.State()), c)
    ensures Inv(tx.State()) && Follows(old(tx.State()), tx.State())
  {
    if c in tx.cases && tx.cases[c].bundle.Some? {
      var b := tx.cases[c].bundle.value;
      if b in tx.bundles && IsOpen(tx.bundles[b]) {
        var open := set x | x in tx.cases && tx.cases[x].bundle == Some(b) && tx.cases[x].status !in {Completed, ZstDone, Cancelled};
        if open == {} {
          forall x | x in tx.cases && tx.cases[x].bundle == Some(b) ensures tx.cases[x].status in {Completed, ZstDone, Cancelled} {
            assert x !in open;
          }
          DoneAreFinished(tx.State(), b);
          SetBundleKeepsInv(tx.State(), b, tx.bundles[b].(status := BundleCompleted));
          tx.bundles := tx.bundles[b := tx.bundles[b].(status := BundleCompleted)];
        } else {
          var x :| x in open;
          assert !AllDone(tx.State(), b);
        }
      }
    }
  }

  /** A cancelled case links no bundle, so what is done on a bundle is finished. */
  lemma DoneAreFinished(d: Store, b: BundleId)
    requires Inv(d)
    ensures AllDone(d, b) <==> forall c :: c in d.cases && d.cases[c].bundle == Some(b) ==> IsFinished(d.cases[c].status)
  {
    forall c | c in d.cases && d.cases[c].bundle == Some(b) ensures d.cases[c].status != Cancelled {
      assert CaseFits(d, c);
    }
  }

  /** Closing again changes nothing. */
  lemma CloseIsIdempotent(d: Store, c: CaseId)
    ensures Closed(Closed(d, c), c) == Closed(d, c)
  {
  }

  // ---------------------------------------------------------------- start, report, resume, finish

  /** The statuses an employee's request can ask for. */
  const WORK: set<Status> := {InProgress, IssueOpen, Completed}

  function AfterWork(d: Store, c: CaseId, to: Status, now: nat): Store
    requires c in d.cases
  {
    var e := SetCase(d, c, Written(d.cases[c], to, now));
    if to == InProgress then Activated(e, c) else if to == Completed then Closed(e, c) else e
  }

  lemma WorkStaysOnCart(s: Status, to: Status)
    requires CanTransition(s, to) && to in WORK
    ensures OnCart(s) && OnCart(to)
  {
  }

  /** The status change of such a request, for the version it has seen; each of these edges stays on the cart. */
  method ChangeStatus(tx: Tables, me: EmployeeId, c: CaseId, to: Status, seen: nat, now: nat, guard: Store -> bool)
    returns (outcome: Outcome)
    requires Inv(tx.State()) && to in WORK
    modifies tx
    ensures outcome == Done <==>
      && Collaboration.TakesPart(old(tx.State()), me, c)
      && Workflow.MayTransition(old(tx.State()), c, to, Some(seen), now, guard)
    ensures outcome == NotFound <==> c !in old(tx.cases) || !Collaboration.TakesPart(old(tx.State()), me, c)
    ensures outcome == BadRequest <==>
      && c in old(tx.cases) && Collaboration.TakesPart(old(tx.State()), me, c)
      && old(tx.cases[c].version) == seen && !CanTransition(old(tx.cases[c].status), to)
    ensures outcome == Done ==> tx.State() == SetCase(old(tx.State()), c, Written(old(tx.cases[c]), to, now))
    ensures outcome != Done ==> tx.State() == old(tx.State())
    ensures Inv(tx.State()) && Follows(old(tx.State()), tx.State())
  {
    if c !in tx.cases || !Collaboration.TakesPart(tx.State(), me, c) {
      return NotFound;
    }
    if CanTransition(tx.cases[c].status, to) {
      WorkStaysOnCart(tx.cases[c].status, to);
    }
    outcome := Workflow.Transition(tx, c, to, Some(seen), now, guard);
  }

  /** Start, report problems, resume, complete: the bundle follows. A case changed since it was seen is refused. */
  method Work(tx: Tables, me: EmployeeId, c: CaseId, to: Status, seen: nat, now: nat, guard: Store -> bool)
    returns (outcome: Outcome)
    requires Inv(tx.State()) && to in WORK
    modifies tx
    ensures outcome == Done <==>
      && Collaboration.TakesPart(old(tx.State()), me, c)
      && Workflow.MayTransition(old(tx.State()), c, to, Some(seen), now, guard)
    ensures outcome == NotFound <==> c !in old(tx.cases) || !Collaboration.TakesPart(old(tx.State()), me, c)
    ensures outcome == BadRequest <==>
      && c in old(tx.cases) && Collaboration.TakesPart(old(tx.State()), me, c)
      && old(tx.cases[c].version) == seen && !CanTransition(old(tx.cases[c].status), to)
    ensures outcome == Done ==> tx.State() == AfterWork(old(tx.State()), c, to, now)
    ensures outcome != Done ==> tx.State() == old(tx.State())
    ensures Inv(tx.State()) && Follows(old(tx.State()), tx.State())
  {
    ghost var before := tx.State();
    outcome := ChangeStatus(tx, me, c, to, seen, now, guard);
    if outcome != Done {
      return;
    }
    ghost var written := tx.State();
    if to == InProgress {
      ActivateBundle(tx, c);
    } else if to == Completed {
      CloseBundleIfDone(tx, c);
    }
    FollowsTransitive(before, written, tx.State());
  }

  // ---------------------------------------------------------------- fetched goods

  function WithTick(d: Store, c: CaseId, e: EmployeeId, collected: bool): Store
    requires e in Collaboration.CrewAt(d.participants, c)
  {
    d.(participants := d.participants[c := d.participants[c][e := d.participants[c][e].(collected := collected)]])
  }

  method WriteTick(tx: Tables, c: CaseId, e: EmployeeId, collected: bool)
    requires Inv(tx.State()) && e in Collaboration.CrewAt(tx.participants, c)
    modifies tx
    ensures tx.State() == WithTick(old(tx.State()), c, e, collected)
    ensures Inv(tx.State()) && Follows(old(tx.State()), tx.State())
  {
    ghost var before := tx.State();
    assert CaseFits(before, c);
    var crew: Crew := tx.participants[c];
    crew := crew[e := crew[e].(collected := collected)];
    SetCrewKeepsInv(before, c, crew);
    tx.participants := tx.participants[c := crew];
  }

  /** A tick per person: the owner ticks the case, an active helper their own row. */
  method SetCollected(tx: Tables, me: EmployeeId, c: CaseId, collected: bool) returns (outcome: Outcome)
    requires Inv(tx.State())
    modifies tx
    ensures outcome == Done <==> c in old(tx.cases) && Collaboration.TakesPart(old(tx.State()), me, c)
    ensures outcome == Done || outcome == NotFound
    ensures outcome == Done && Collaboration.OwnerOf(old(tx.State()), c) == Some(me) ==>
      tx.State() == SetCase(old(tx.State()), c, old(tx.cases[c]).(collected := collected))
    ensures outcome == Done && Collaboration.OwnerOf(old(tx.State()), c) != Some(me) ==>
      tx.State() == WithTick(old(tx.State()), c, me, collected)
    ensures outcome != Done ==> tx.State() == old(tx.State())
    ensures Inv(tx.State()) && Follows(old(tx.State()), tx.State())
  {
    if c !in tx.cases || !Collaboration.TakesPart(tx.State(), me, c) {
      return NotFound;
    }
    if Collaboration.OwnerOf(tx.State(), c) == Some(me) {
      assert CaseFits(tx.State(), c);
      SetCaseKeepsInv(tx.State(), c, tx.cases[c].(collected := collected));
      tx.cases := tx.cases[c := tx.cases[c].(collected := collected)];
    } else {
      WriteTick(tx, c, me, collected);
    }
    outcome := Done;
  }

  // ---------------------------------------------------------------- parking the rest

  predicate MayPark(d: Store, b: BundleId, c: CaseId) {
    c in ItemsOf(d.items, b) && c in d.cases && d.cases[c].status == Assigned
  }

  method UnlinkOne(tx: Tables, c: CaseId)
    requires c in tx.cases
    modifies tx
    ensures tx.State() == UnlinkAll(old(tx.State()), {c}, true)
  {
    tx.items := tx.items - {c};
    tx.cases := tx.cases[c := Unlinked(tx.cases[c], true)];
    var former := Collaboration.Dissolve(tx, c);
    assert tx.State() == UnlinkAll(old(tx.State()), {c}, true);
  }

  /** The first named case that is not in the bundle, or has been started, decides the answer. */
  method CheckParkable(tx: Tables, b: BundleId, cs: seq<CaseId>) returns (outcome: Outcome)
    requires Inv(tx.State())
    ensures outcome == Done <==> forall c :: c in cs ==> MayPark(tx.State(), b, c)
    ensures outcome in {Done, NotFound, Conflict}
    ensures outcome != Done ==> exists i ::
      && 0 <= i < |cs| && !MayPark(tx.State(), b, cs[i])
      && (forall k :: 0 <= k < i ==> MayPark(tx.State(), b, cs[k]))
      && (outcome == NotFound <==> cs[i] !in ItemsOf(tx.items, b))
  {
    var i := 0;
    while i < |cs|
      invariant 0 <= i <= |cs|
      invariant forall k :: 0 <= k < i ==> MayPark(tx.State(), b, cs[k])
    {
      if !MayPark(tx.State(), b, cs[i]) {
        assert cs[i] in cs;
        return if cs[i] !in ItemsOf(tx.items, b) then NotFound else Conflict;
      }
      i := i + 1;
    }
    outcome := Done;
  }

  /** Each case leaves the cart: item, link, tick and collaboration. A case named twice has no item the second time. */
  method UnlinkEach(tx: Tables, cs: seq<CaseId>) returns (ok: bool)
    requires forall c :: c in cs ==> c in tx.cases && c in tx.items
    modifies tx
    ensures ok <==> Distinct(cs)
    ensures ok ==> tx.State() == UnlinkAll(old(tx.State()), Members(cs), true)
  {
    ghost var before := tx.State();
    ghost var here := before;
    var i := 0;
    UnlinkNobody(before);
    assert Members(cs[..0]) == {};
    while i < |cs|
      invariant 0 <= i <= |cs| && tx.State() == here
      invariant NewUpTo(cs, i)
      invariant here == UnlinkAll(before, Members(cs[..i]), true)
    {
      assert Members(cs[..i + 1]) == Members(cs[..i]) + {cs[i]};
      assert cs[i] in cs;
      if cs[i] !in tx.items {
        ghost var j :| 0 <= j < i && cs[j] == cs[i];
        return false;
      }
      UnlinkOneMore(before, Members(cs[..i]), cs[i]);
      UnlinkOne(tx, cs[i]);
      here := tx.State();
      i := i + 1;
    }
    assert cs[..i] == cs;
    NewUpToMeans(cs, i);
    ok := true;
  }

  /** No case among the first `n` was named before. */
  ghost predicate NewUpTo(cs: seq<CaseId>, n: nat)
    requires n <= |cs|
  {
    n == 0 || (NewUpTo(cs, n - 1) && cs[n - 1] !in Members(cs[..n - 1]))
  }

  lemma {:induction false} NewUpToMeans(cs: seq<CaseId>, n: nat)
    requires n <= |cs| && NewUpTo(cs, n)
    ensures forall j, k :: 0 <= j < k < n ==> cs[j] != cs[k]
  {
    if n > 0 {
      NewUpToMeans(cs, n - 1);
      forall j | 0 <= j < n - 1 ensures cs[j] in Members(cs[..n - 1]) {
      }
    }
  }

  lemma UnlinkNobody(d: Store)
    ensures UnlinkAll(d, {}, true) == d
  {
  }

  lemma UnlinkOneMore(d: Store, s: set<CaseId>, c: CaseId)
    requires c !in s
    ensures UnlinkAll(UnlinkAll(d, s, true), {c}, true) == UnlinkAll(d, s + {c}, true)
  {
  }

  /** `latest` is the employee's open bundle that was updated last, if there is one. */
  method ParkRemaining(tx: Tables, e: EmployeeId, latest: Option<BundleId>, cs: seq<CaseId>)
    returns (outcome: Outcome, remaining: seq<CaseId>)
    requires Inv(tx.State())
    requires latest.Some? ==> latest.value in tx.bundles && IsOpen(tx.bundles[latest.value]) && tx.bundles[latest.value].employee == e
    modifies tx
    ensures outcome == Done <==>
      && cs != [] && latest.Some? && Distinct(cs)
      && forall c :: c in cs ==>
           && c in old(tx.items) && old(tx.items[c].bundle) == latest.value
           && c in old(tx.cases) && old(tx.cases[c].status) == Assigned
    ensures outcome == BadRequest <==>
      && latest.Some? && !Distinct(cs) && forall c :: c in cs ==> MayPark(old(tx.State()), latest.value, c)
    ensures outcome != Done ==> tx.State() == old(tx.State())
    ensures outcome == Done ==>
      var left := UnlinkAll(old(tx.State()), Members(cs), true);
      IsListing(left.items, latest.value, remaining) && Reordered(left, tx.State(), latest.value, remaining)
    ensures Inv(tx.State()) && Follows(old(tx.State()), tx.State())
  {
    remaining := [];
    if cs == [] {
      return Conflict, [];
    }
    if latest == None {
      return NotFound, [];
    }
    var before := tx.State();
    var b := latest.value;
    var order := ListItems(tx, b);
    outcome := CheckParkable(tx, b, cs);
    if outcome != Done {
      return;
    }
    var ok := UnlinkEach(tx, cs);
    if !ok {
      tx.Rollback(before);
      return BadRequest, [];
    }
    ghost var left := tx.State();
    UnlinkAllKeepsInv(before, Members(cs), true);
    remaining := Without(order, Members(cs));
    ListingWithout(before.items, b, order, Members(cs));
    Resequence(tx, b, remaining);
    FollowsTransitive(before, left, tx.State());
    outcome := Done;
  }

  // ---------------------------------------------------------------- what work leaves behind

  /**
   * What an accepted request changes: the case's status, version and completion time, and of
   * its bundle the status alone. Starting activates an assigned bundle; completing completes an
   * open one exactly when nothing linked to it is still to do.
   */
  lemma AfterWorkMeans(d: Store, c: CaseId, to: Status, now: nat)
    requires Inv(d) && c in d.cases && OnCart(d.cases[c].status)
    ensures d.cases[c].bundle.Some? && d.cases[c].bundle.value in d.bundles
    ensures var e, b := AfterWork(d, c, to, now), d.cases[c].bundle.value;
      && e.cases == d.cases[c := Written(d.cases[c], to, now)]
      && e.items == d.items && e.stops == d.stops && e.participants == d.participants
      && b in e.bundles && e.bundles == d.bundles[b := d.bundles[b].(status := e.bundles[b].status)]
      && (to == InProgress ==> e.bundles[b].status == if d.bundles[b].status == BundleAssigned then BundleActive else d.bundles[b].status)
      && (to == Completed ==>
            e.bundles[b].status ==
              if d.bundles[b].status !in {BundleCompleted, BundleCancelled}
                 && (forall x :: x in d.cases && x != c && d.cases[x].bundle == Some(b) ==> d.cases[x].status in {Completed, ZstDone, Cancelled})
              then BundleCompleted else d.bundles[b].status)
      && (to !in {InProgress, Completed} ==> e.bundles[b].status == d.bundles[b].status)
  {
    assert CaseFits(d, c);
    var b, written := d.cases[c].bundle.value, SetCase(d, c, Written(d.cases[c], to, now));
    assert d.bundles[b := d.bundles[b]] == d.bundles;
    if to == Completed {
      LastOneCompletes(d, c, b, now);
    }
  }

  lemma LastOneCompletes(d: Store, c: CaseId, b: BundleId, now: nat)
    requires c in d.cases
    ensures AllDone(SetCase(d, c, Written(d.cases[c], Completed, now)), b) <==>
      forall x :: x in d.cases && x != c && d.cases[x].bundle == Some(b) ==> d.cases[x].status in {Completed, ZstDone, Cancelled}
  {
    var e := SetCase(d, c, Written(d.cases[c], Completed, now));
    forall x | x in d.cases && x != c ensures x in e.cases && e.cases[x] == d.cases[x] {
    }
    if AllDone(e, b) {
      forall x | x in d.cases && x != c && d.cases[x].bundle == Some(b) ensures d.cases[x].status in {Completed, ZstDone, Cancelled} {
        assert x in e.cases;
      }
    }
  }

  /** A helper's tick is their own: their row alone changes, and in it the tick alone. */
  lemma TickMeans(d: Store, c: CaseId, e: EmployeeId, collected: bool)
    requires c in d.participants && e in d.participants[c]
    ensures var now := WithTick(d, c, e, collected);
      && now.cases == d.cases && now.items == d.items && now.bundles == d.bundles && now.stops == d.stops
      && c in now.participants && e in now.participants[c]
      && now.participants[c][e] == Participant(d.participants[c][e].role, d.participants[c][e].status, collected)
      && now.participants[c].Keys == d.participants[c].Keys
      && (forall x :: x in d.participants[c] && x != e ==> now.participants[c][x] == d.participants[c][x])
      && (forall x :: x in d.participants && x != c ==> x in now.participants && now.participants[x] == d.participants[x])
  {
  }
}
