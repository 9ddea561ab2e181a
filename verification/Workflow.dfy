/**
 * The workflow service (workflow/workflow.service.ts): the one checked way to change a
 * status, and the requests that do nothing else.
 */
module Workflow {
  import opened Options
  import opened CaseStatus
  import opened Ids
  import opened Database
  import opened StoreInvariant

  predicate Stale(row: Case, expectedVersion: Option<nat>) {
    expectedVersion.Some? && expectedVersion.value != row.version
  }

  predicate MayTransition(d: Store, c: CaseId, to: Status, expectedVersion: Option<nat>, now: nat, guard: Store -> bool) {
    && c in d.cases && !Stale(d.cases[c], expectedVersion) && CanTransition(d.cases[c].status, to)
    && guard(SetCase(d, c, Written(d.cases[c], to, now)))
  }

  /**
   * One transition: the version is checked before the edge, the guard after the update and
   * inside the same transaction, so a guard that fails undoes the update.
   */
  method Transition(tx: Tables, c: CaseId, to: Status, expectedVersion: Option<nat>, now: nat, guard: Store -> bool)
    returns (outcome: Outcome)
    requires Inv(tx.State())
    modifies tx
    ensures outcome == NotFound <==> c !in old(tx.cases)
    ensures outcome == BadRequest <==>
      && c in old(tx.cases)
      && !Stale(old(tx.cases[c]), expectedVersion)
      && !CanTransition(old(tx.cases[c].status), to)
    ensures outcome == Done <==> MayTransition(old(tx.State()), c, to, expectedVersion, now, guard)
    ensures outcome != Done ==> tx.State() == old(tx.State())
    ensures outcome == Done ==> tx.State() == SetCase(old(tx.State()), c, Written(old(tx.cases[c]), to, now))
    ensures outcome == Done && OnCart(old(tx.cases[c].status)) == OnCart(to) ==> Inv(tx.State())
    ensures outcome != Done ==> Inv(tx.State())
    ensures Follows(old(tx.State()), tx.State())
  {
    if c !in tx.cases {
      return NotFound;
    }
    var before := tx.State();
    var current := tx.cases[c];
    if Stale(current, expectedVersion) {
      return Conflict;
    }
    if !CanTransition(current.status, to) {
      return BadRequest;
    }
    TransitionKeepsInv(before, c, to, now);
    var row := WithStatus(current, to);
    if (to == Completed || to == ZstDone) && current.completedAt == None {
      row := row.(completedAt := Some(now));
    }
    tx.cases := tx.cases[c := row];
    if !guard(tx.State()) {
      tx.Rollback(before);
      return Conflict;
    }
    outcome := Done;
  }

  function NoGuard(): Store -> bool {
    (d: Store) => true
  }

  /**
   * `unpark` and `approve` both ask for `ready` and check nothing else. They keep the
   * invariant except on an assigned case: it becomes `ready` and stays linked to its cart.
   */
  method Release(tx: Tables, c: CaseId) returns (outcome: Outcome)
    requires Inv(tx.State())
    modifies tx
    ensures outcome == Done <==> c in old(tx.cases) && CanTransition(old(tx.cases[c].status), Ready)
    ensures outcome == Done ==> tx.State() == SetCase(old(tx.State()), c, WithStatus(old(tx.cases[c]), Ready))
    ensures outcome != Done ==> tx.State() == old(tx.State())
    ensures Inv(tx.State()) <==> !(c in old(tx.cases) && old(tx.cases[c].status) == Assigned)
    ensures Follows(old(tx.State()), tx.State())
  {
    if c in tx.cases && CanTransition(tx.cases[c].status, Ready) {
      TransitionKeepsInv(tx.State(), c, Ready, 0);
    }
    outcome := Transition(tx, c, Ready, None, 0, NoGuard());
  }

  /** A store in which releasing goes wrong: one case on one cart. */
  lemma ReleaseCanBreakTheLink() returns (d: Store)
    ensures Inv(d) && 0 in d.cases && CanTransition(d.cases[0].status, Ready)
    ensures !Inv(SetCase(d, 0, Written(d.cases[0], Ready, 0)))
  {
    var c := Case(Assigned, Some(0), None, None, false, 1, Then(First(Ready), Assigned));
    d := Store(map[0 := c], map[0 := Bundle(0, 0, BundleAssigned, 0)],
               map[0 := Item(0, 0, 0, BySystem)], map[], map[]);
    forall x ensures CaseFits(d, x) {
    }
    TransitionKeepsInv(d, 0, Ready, 0);
  }

  /**
   * A blocked case whose missing fields are complete enters the pool; otherwise only its
   * fields are written. `unknownLocation`: the request names a storage location that does not exist.
   */
  method CompleteIntake(tx: Tables, c: CaseId, unknownLocation: bool, fieldsComplete: bool) returns (outcome: Outcome)
    requires Inv(tx.State())
    modifies tx
    ensures outcome == NotFound <==> c !in old(tx.cases)
    ensures outcome == Conflict <==> c in old(tx.cases) && old(tx.cases[c].status) != Blocked
    ensures outcome == BadRequest <==> c in old(tx.cases) && old(tx.cases[c].status) == Blocked && unknownLocation
    ensures outcome != Done ==> tx.State() == old(tx.State())
    ensures outcome == Done && fieldsComplete ==>
      tx.State() == SetCase(old(tx.State()), c, WithStatus(old(tx.cases[c]), Ready))
    ensures outcome == Done && !fieldsComplete ==>
      tx.State() == SetCase(old(tx.State()), c, old(tx.cases[c]).(version := old(tx.cases[c].version) + 1))
    ensures Inv(tx.State()) && Follows(old(tx.State()), tx.State())
  {
    if c !in tx.cases {
      return NotFound;
    }
    if tx.cases[c].status != Blocked {
      return Conflict;
    }
    if unknownLocation {
      return BadRequest;
    }
    ghost var before := tx.State();
    assert CaseFits(before, c);
    if fieldsComplete {
      tx.cases := tx.cases[c := WithStatus(tx.cases[c], Ready)];
    } else {
      tx.cases := tx.cases[c := tx.cases[c].(version := tx.cases[c].version + 1)];
    }
    SetCaseKeepsInv(before, c, tx.cases[c]);
    outcome := Done;
  }

  // ---------------------------------------------------------------- receipts from the ERP

  /** The status column is rewritten as the receipt says; link, version and completion time stay. */
  function Overwritten(c: Case, s: Status): Case {
    c.(status := s, history := Then(c.history, s))
  }

  /** The rewrite follows the graph and does not concern a case on a cart, or changes nothing. */
  predicate MayOverwrite(s: Status, to: Status) {
    s == to || (CanTransition(s, to) && !OnCart(s))
  }

  lemma OverwriteKeepsInv(d: Store, c: CaseId, s: Status)
    requires Inv(d) && c in d.cases && s in {Ready, Blocked}
    ensures var e := SetCase(d, c, Overwritten(d.cases[c], s));
      && (Inv(e) <==> d.cases[c].status == s || (CanTransition(d.cases[c].status, s) && !OnCart(d.cases[c].status)))
      && (Inv(e) <==> MayOverwrite(d.cases[c].status, s))
      && e.cases[c] == d.cases[c].(status := s, history := Then(d.cases[c].history, s))
      && Follows(d, e)
  {
    var e := SetCase(d, c, Overwritten(d.cases[c], s));
    assert CaseFits(d, c);
    assert CaseFollows(d.cases[c], Overwritten(d.cases[c], s));
    if MayOverwrite(d.cases[c].status, s) {
      SetCaseKeepsInv(d, c, Overwritten(d.cases[c], s));
    } else if CanTransition(d.cases[c].status, s) {
      assert !Placed(e, c);
      assert !CaseFits(e, c);
    } else {
      assert !IsPath(e.cases[c].history);
      assert !CaseFits(e, c);
    }
  }

  /**
   * A receipt is upserted by its number: unknown, it becomes a fresh case; known, its status
   * is rewritten whatever has become of the case. That is harmless exactly for a case that is
   * not on a cart and may enter the pool, or has that status already.
   */
  method Intake(tx: Tables, known: Option<CaseId>, s: Status) returns (c: CaseId)
    requires Inv(tx.State()) && s in {Ready, Blocked}
    modifies tx
    ensures known.Some? && known.value in old(tx.cases) ==>
      c == known.value && tx.State() == SetCase(old(tx.State()), c, Overwritten(old(tx.cases[c]), s))
    ensures !(known.Some? && known.value in old(tx.cases)) ==>
      c !in old(tx.cases) && tx.State() == SetCase(old(tx.State()), c, NewCase(s, None))
    ensures Inv(tx.State()) <==> c in old(tx.cases) ==> MayOverwrite(old(tx.cases[c].status), s)
    ensures Follows(old(tx.State()), tx.State())
  {
    if known.Some? && known.value in tx.cases {
      c := known.value;
      OverwriteKeepsInv(tx.State(), c, s);
      tx.cases := tx.cases[c := Overwritten(tx.cases[c], s)];
    } else {
      c := FreshId(tx.cases.Keys);
      AddCaseKeepsInv(tx.State(), c, s, None);
      tx.cases := tx.cases[c := NewCase(s, None)];
    }
  }

  // ---------------------------------------------------------------- the closing of the day

  /** The cases after `s` were handed over. */
  function ExportedOf(m: map<CaseId, Case>, s: set<CaseId>, now: nat): map<CaseId, Case> {
    map c | c in m :: if c in s then Written(m[c], ZstDone, now) else m[c]
  }

  lemma ExportedOneMore(m: map<CaseId, Case>, s: set<CaseId>, c: CaseId, now: nat)
    requires c in m && c !in s
    ensures ExportedOf(m, s + {c}, now) == ExportedOf(m, s, now)[c := Written(m[c], ZstDone, now)]
    ensures ExportedOf(m, s, now)[c] == m[c]
  {
  }

  function CompletedCases(m: map<CaseId, Case>): set<CaseId> {
    set c | c in m && m[c].status == Completed
  }

  /** The cases after the handover: everything completed is exported, nothing else changes. */
  function Exported(m: map<CaseId, Case>, now: nat): map<CaseId, Case> {
    ExportedOf(m, CompletedCases(m), now)
  }

  /** One case of the handover; `done` are the cases before it. */
  method ExportOne(tx: Tables, ghost before: Store, ghost done: set<CaseId>, c: CaseId, now: nat)
    requires Inv(tx.State()) && Follows(before, tx.State())
    requires tx.State() == before.(cases := ExportedOf(before.cases, done, now))
    requires c in before.cases && c !in done && before.cases[c].status == Completed
    modifies tx
    ensures tx.State() == before.(cases := ExportedOf(before.cases, done + {c}, now))
    ensures Inv(tx.State()) && Follows(before, tx.State())
  {
    ghost var here := tx.State();
    ExportedOneMore(before.cases, done, c, now);
    var outcome := Transition(tx, c, ZstDone, None, now, NoGuard());
    FollowsTransitive(before, here, tx.State());
  }

  method ExportZst(tx: Tables, now: nat) returns (exportedCount: nat)
    requires Inv(tx.State())
    modifies tx
    ensures tx.State() == old(tx.State()).(cases := Exported(old(tx.cases), now))
    ensures exportedCount == |CompletedCases(old(tx.cases))|
    ensures Inv(tx.State()) && Follows(old(tx.State()), tx.State())
  {
    ghost var before := tx.State();
    var completed := CompletedCases(tx.cases);
    exportedCount := |completed|;
    var rest := completed;
    NothingExported(before.cases, now);
    assert completed - rest == {};
    while rest != {}
      invariant rest <= completed
      invariant Inv(tx.State()) && Follows(before, tx.State())
      invariant tx.State() == before.(cases := ExportedOf(before.cases, completed - rest, now))
    {
      var c :| c in rest;
      ExportOne(tx, before, completed - rest, c, now);
      assert completed - rest + {c} == completed - (rest - {c});
      rest := rest - {c};
    }
    assert completed - rest == completed;
  }

  /** What the handover does to one case: completed becomes exported, one version on, and nothing else changes. */
  lemma ExportMeans(m: map<CaseId, Case>, now: nat, c: CaseId)
    requires c in m
    ensures Exported(m, now).Keys == m.Keys
    ensures m[c].status == Completed ==>
      var row := Exported(m, now)[c];
      && row.status == ZstDone && row.version == m[c].version + 1 && row.bundle == m[c].bundle
      && row.completedAt == (if m[c].completedAt == None then Some(now) else m[c].completedAt)
    ensures m[c].status != Completed ==> Exported(m, now)[c] == m[c]
  {
  }

  lemma NothingExported(m: map<CaseId, Case>, now: nat)
    ensures ExportedOf(m, {}, now) == m
  {
  }

  /** Exporting twice is exporting once: the second handover finds nothing. */
  lemma ExportIsIdempotent(m: map<CaseId, Case>, now: nat, later: nat)
    ensures Exported(Exported(m, now), later) == Exported(m, now)
    ensures CompletedCases(Exported(m, now)) == {}
  {
  }

  // ---------------------------------------------------------------- the version

  /** A transition is allowed exactly for a known case, its current version or none given, along an edge, with a guard that passes. */
  lemma MayTransitionWhen(d: Store, c: CaseId, to: Status, expectedVersion: Option<nat>, now: nat, guard: Store -> bool)
    ensures MayTransition(d, c, to, expectedVersion, now, guard) <==>
      && c in d.cases && (expectedVersion == None || expectedVersion == Some(d.cases[c].version))
      && CanTransition(d.cases[c].status, to)
      && guard(d.(cases := d.cases[c := Written(d.cases[c], to, now)]))
  {
  }

  /**
   * Of two requests that have seen the same version the second is refused, whatever it asks
   * for, because the first has raised the version.
   */
  lemma SecondOfTwoIsRefused(d: Store, c: CaseId, s: Status, first: nat, to: Status, now: nat, guard: Store -> bool)
    requires c in d.cases
    ensures !MayTransition(SetCase(d, c, Written(d.cases[c], s, first)), c, to, Some(d.cases[c].version), now, guard)
    ensures !MayTransition(CancelCase(d, c), c, to, Some(d.cases[c].version), now, guard)
  {
  }
}
