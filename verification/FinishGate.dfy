/**
 * The finish gate of a shared case under concurrency (cases/cases.service.ts:
 * `lockCaseInProgressTx`, `confirmPosition`, `complete`; workflow/workflow.service.ts:
 * `transition` with `guardInTx`), statement by statement, for one case row.
 *
 * A check or uncheck locks the case row FOR SHARE, with the status re-read once the lock is
 * granted. A transition reads status and version, updates the row where the version is
 * still the same, which locks it exclusively, and evaluates its guard then. Locks are held
 * to the end of the transaction; reads see committed rows.
 */
module FinishGate {
  import opened Options
  import opened CaseStatus
  import opened Ids

  type TxId = nat
  type PositionId = nat

  /**
   * What a transition asks for inside its transaction: nothing, or that every position is
   * checked except some. A full completion excepts none, a partial one the problem positions.
   */
  datatype Guard = NoGuard | CheckedExcept(problems: set<PositionId>)

  datatype Phase =
    | WriterWaiting(position: PositionId, checkedBy: Option<EmployeeId>)
    | WriterLocked(position: PositionId, checkedBy: Option<EmployeeId>)
    | WriterWrote(position: PositionId, checkedBy: Option<EmployeeId>)
    | MoverStarted(to: Status, guard: Guard)
    | MoverRead(to: Status, guard: Guard, seen: Status, version: nat)
    | MoverUpdated(to: Status, guard: Guard)
    | MoverPassed(to: Status, guard: Guard)

  /** `gated` remembers that a guarded completion has been committed. */
  datatype Gate = Gate(
    status: Status, version: nat,
    checks: map<PositionId, Option<EmployeeId>>,
    txs: map<TxId, Phase>,
    gated: bool)

  datatype Step =
    | StartWriter(t: TxId, position: PositionId, checkedBy: Option<EmployeeId>)
    | StartMover(t: TxId, to: Status, guard: Guard)
    | LockShare(t: TxId)
    | Write(t: TxId)
    | Read(t: TxId)
    | Update(t: TxId)
    | Evaluate(t: TxId)
    | Commit(t: TxId)
    | Abort(t: TxId)

  predicate HoldsShare(p: Phase) {
    p.WriterLocked? || p.WriterWrote?
  }

  predicate HoldsExclusive(p: Phase) {
    p.MoverUpdated? || p.MoverPassed?
  }

  predicate SomeoneHoldsShare(d: Gate) {
    exists t :: t in d.txs && HoldsShare(d.txs[t])
  }

  predicate SomeoneHoldsExclusive(d: Gate) {
    exists t :: t in d.txs && HoldsExclusive(d.txs[t])
  }

  /** Another transaction has written the same position and not ended yet. */
  predicate PositionIsLocked(d: Gate, t: TxId, position: PositionId) {
    exists x :: x in d.txs && x != t && d.txs[x].WriterWrote? && d.txs[x].position == position
  }

  predicate GuardHolds(d: Gate, g: Guard) {
    g.CheckedExcept? ==> forall p :: p in d.checks && p !in g.problems ==> d.checks[p].Some?
  }

  predicate AllChecked(d: Gate) {
    forall p :: p in d.checks ==> d.checks[p].Some?
  }

  function Ended(d: Gate, t: TxId): Gate {
    d.(txs := map x | x in d.txs && x != t :: d.txs[x])
  }

  function InPhase(d: Gate, t: TxId, p: Phase): Gate {
    d.(txs := d.txs[t := p])
  }

  /** One statement; a transaction that has to wait, or is not where the step asks it to be, stays as it is. */
  function Next(d: Gate, s: Step): Gate {
    match s
    case StartWriter(t, position, checkedBy) =>
      if t !in d.txs && position in d.checks then InPhase(d, t, WriterWaiting(position, checkedBy)) else d
    case StartMover(t, to, guard) =>
      if t !in d.txs then InPhase(d, t, MoverStarted(to, guard)) else d
    case LockShare(t) =>
      if t in d.txs && d.txs[t].WriterWaiting? && !SomeoneHoldsExclusive(d) then
        if d.status == InProgress then InPhase(d, t, WriterLocked(d.txs[t].position, d.txs[t].checkedBy)) else Ended(d, t)
      else d
    case Write(t) =>
      if t in d.txs && d.txs[t].WriterLocked? && !PositionIsLocked(d, t, d.txs[t].position)
      then InPhase(d, t, WriterWrote(d.txs[t].position, d.txs[t].checkedBy)) else d
    case Read(t) =>
      if t in d.txs && d.txs[t].MoverStarted? then
        if CanTransition(d.status, d.txs[t].to)
        then InPhase(d, t, MoverRead(d.txs[t].to, d.txs[t].guard, d.status, d.version)) else Ended(d, t)
      else d
    case Update(t) =>
      if t in d.txs && d.txs[t].MoverRead? && !SomeoneHoldsShare(d) && !SomeoneHoldsExclusive(d) then
        if d.txs[t].version == d.version then InPhase(d, t, MoverUpdated(d.txs[t].to, d.txs[t].guard)) else Ended(d, t)
      else d
    case Evaluate(t) =>
      if t in d.txs && d.txs[t].MoverUpdated? then
        if GuardHolds(d, d.txs[t].guard) then InPhase(d, t, MoverPassed(d.txs[t].to, d.txs[t].guard)) else Ended(d, t)
      else d
    case Commit(t) =>
      if t in d.txs && d.txs[t].WriterWrote? then
        Ended(d, t).(checks := d.checks[d.txs[t].position := d.txs[t].checkedBy])
      else if t in d.txs && d.txs[t].MoverPassed? then
        Ended(d, t).(status := d.txs[t].to, version := d.version + 1,
                     gated := d.gated || (d.txs[t].guard == CheckedExcept({}) && d.txs[t].to == Completed))
      else d
    case Abort(t) => Ended(d, t)
  }

  function Scheduled(d: Gate, steps: seq<Step>): Gate
    decreases |steps|
  {
    if steps == [] then d else Scheduled(Next(d, steps[0]), steps[1..])
  }

  // ---------------------------------------------------------------- the invariant

  /** What holds for a transaction, given the committed row. */
  ghost predicate PhaseFits(d: Gate, t: TxId) {
    t in d.txs ==>
      match d.txs[t]
      case WriterWaiting(p, _) => p in d.checks
      case WriterLocked(p, _) => p in d.checks && d.status == InProgress
      case WriterWrote(p, _) => p in d.checks && d.status == InProgress
      case MoverStarted(_, _) => true
      case MoverRead(to, _, seen, version) =>
        version <= d.version && CanTransition(seen, to) && (version == d.version ==> seen == d.status)
      case MoverUpdated(to, _) => CanTransition(d.status, to)
      case MoverPassed(to, guard) => CanTransition(d.status, to) && GuardHolds(d, guard)
  }

  /** The row lock: one exclusive holder and nobody else, or any number of share holders. */
  ghost predicate LockIsSound(d: Gate) {
    forall t, u :: t in d.txs && u in d.txs && HoldsExclusive(d.txs[t]) && (HoldsShare(d.txs[u]) || HoldsExclusive(d.txs[u])) ==> t == u
  }

  ghost predicate GateInv(d: Gate) {
    && (forall t :: PhaseFits(d, t))
    && LockIsSound(d)
    && (d.gated ==> IsFinished(d.status) && AllChecked(d))
  }

  /** What a step may do to a case that passed the gate: nothing to its checks, and only export it. */
  ghost predicate StaysFinished(d: Gate, e: Gate) {
    d.gated ==> e.gated && e.checks == d.checks && IsFinished(e.status)
  }

  lemma StartKeepsInv(d: Gate, t: TxId, p: Phase)
    requires GateInv(d) && t !in d.txs
    requires (p.WriterWaiting? && p.position in d.checks) || p.MoverStarted?
    ensures GateInv(InPhase(d, t, p))
  {
    forall x ensures PhaseFits(InPhase(d, t, p), x) {
      assert PhaseFits(d, x);
    }
  }

  lemma EndKeepsInv(d: Gate, t: TxId)
    requires GateInv(d)
    ensures GateInv(Ended(d, t))
  {
    forall x ensures PhaseFits(Ended(d, t), x) {
      assert PhaseFits(d, x);
    }
  }

  lemma WriterKeepsInv(d: Gate, t: TxId)
    requires GateInv(d) && t in d.txs
    ensures GateInv(Next(d, LockShare(t))) && GateInv(Next(d, Write(t)))
    ensures Next(d, LockShare(t)).checks == d.checks == Next(d, Write(t)).checks
  {
    EndKeepsInv(d, t);
    assert PhaseFits(d, t);
    var e, f := Next(d, LockShare(t)), Next(d, Write(t));
    forall x ensures PhaseFits(e, x) && PhaseFits(f, x) {
      assert PhaseFits(d, x);
    }
  }

  lemma ReadKeepsInv(d: Gate, t: TxId)
    requires GateInv(d) && t in d.txs
    ensures GateInv(Next(d, Read(t)))
  {
    EndKeepsInv(d, t);
    var e := Next(d, Read(t));
    forall x ensures PhaseFits(e, x) {
      assert PhaseFits(d, x);
    }
  }

  lemma UpdateKeepsInv(d: Gate, t: TxId)
    requires GateInv(d) && t in d.txs
    ensures GateInv(Next(d, Update(t)))
  {
    EndKeepsInv(d, t);
    assert PhaseFits(d, t);
    var e := Next(d, Update(t));
    forall x ensures PhaseFits(e, x) {
      assert PhaseFits(d, x);
    }
  }

  lemma EvaluateKeepsInv(d: Gate, t: TxId)
    requires GateInv(d) && t in d.txs
    ensures GateInv(Next(d, Evaluate(t)))
  {
    EndKeepsInv(d, t);
    assert PhaseFits(d, t);
    var e := Next(d, Evaluate(t));
    forall x ensures PhaseFits(e, x) {
      assert PhaseFits(d, x);
    }
  }

  /** A committed check reaches no case that passed the gate, and no guard that has just passed. */
  lemma WriterCommitKeepsInv(d: Gate, t: TxId)
    requires GateInv(d) && t in d.txs && d.txs[t].WriterWrote?
    ensures GateInv(Next(d, Commit(t))) && !d.gated
  {
    assert PhaseFits(d, t);
    var e := Next(d, Commit(t));
    forall x ensures PhaseFits(e, x) {
      assert PhaseFits(d, x);
      if x in e.txs && d.txs[x].MoverPassed? {
        assert HoldsExclusive(d.txs[x]) && HoldsShare(d.txs[t]);
      }
    }
  }

  lemma MoverCommitKeepsInv(d: Gate, t: TxId)
    requires GateInv(d) && t in d.txs && d.txs[t].MoverPassed?
    ensures GateInv(Next(d, Commit(t))) && StaysFinished(d, Next(d, Commit(t)))
  {
    assert PhaseFits(d, t);
    var e := Next(d, Commit(t));
    forall x ensures PhaseFits(e, x) {
      assert PhaseFits(d, x);
      if x in e.txs {
        assert HoldsExclusive(d.txs[t]) && x != t;
        assert !HoldsShare(d.txs[x]) && !HoldsExclusive(d.txs[x]);
      }
    }
  }

  /**
   * At the commit of a guarded transition every unchecked position is an excepted one, so
   * after a full completion there is none.
   */
  lemma GuardHoldsAtCommit(d: Gate, t: TxId)
    requires GateInv(d) && t in d.txs && d.txs[t].MoverPassed?
    ensures Next(d, Commit(t)).status == d.txs[t].to && Next(d, Commit(t)).checks == d.checks
    ensures d.txs[t].guard.CheckedExcept? ==>
      forall p :: p in d.checks && d.checks[p] == None ==> p in d.txs[t].guard.problems
  {
    assert PhaseFits(d, t);
  }

  lemma StepKeepsInv(d: Gate, s: Step)
    requires GateInv(d)
    ensures GateInv(Next(d, s)) && StaysFinished(d, Next(d, s))
  {
    match s
    case StartWriter(t, position, checkedBy) =>
      if t !in d.txs && position in d.checks { StartKeepsInv(d, t, WriterWaiting(position, checkedBy)); }
    case StartMover(t, to, guard) =>
      if t !in d.txs { StartKeepsInv(d, t, MoverStarted(to, guard)); }
    case LockShare(t) => if t in d.txs { WriterKeepsInv(d, t); }
    case Write(t) => if t in d.txs { WriterKeepsInv(d, t); }
    case Read(t) => if t in d.txs { ReadKeepsInv(d, t); }
    case Update(t) => if t in d.txs { UpdateKeepsInv(d, t); }
    case Evaluate(t) => if t in d.txs { EvaluateKeepsInv(d, t); }
    case Commit(t) =>
      if t in d.txs && d.txs[t].WriterWrote? { WriterCommitKeepsInv(d, t); }
      if t in d.txs && d.txs[t].MoverPassed? { MoverCommitKeepsInv(d, t); }
    case Abort(t) => EndKeepsInv(d, t);
  }

  /**
   * For every interleaving: once a guarded completion is committed, all positions are
   * checked, and from then on no check ever changes.
   */
  lemma {:induction false} FinishGateHolds(d: Gate, steps: seq<Step>)
    requires GateInv(d)
    ensures GateInv(Scheduled(d, steps)) && StaysFinished(d, Scheduled(d, steps))
    ensures Scheduled(d, steps).gated ==>
      && Scheduled(d, steps).status in {Completed, ZstDone}
      && forall p :: p in Scheduled(d, steps).checks ==> Scheduled(d, steps).checks[p] != None
    ensures d.gated ==> Scheduled(d, steps).gated && Scheduled(d, steps).checks == d.checks
    decreases |steps|
  {
    if steps != [] {
      StepKeepsInv(d, steps[0]);
      FinishGateHolds(Next(d, steps[0]), steps[1..]);
    }
  }

  /** A case nobody works on at the moment is a start. */
  lemma QuietCaseFits(status: Status, version: nat, checks: map<PositionId, Option<EmployeeId>>)
    ensures GateInv(Gate(status, version, checks, map[], false))
  {
  }

  // ---------------------------------------------------------------- what the gate lets through

  ghost predicate UncheckedAreIn(checks: map<PositionId, Option<EmployeeId>>, problems: set<PositionId>) {
    forall p :: p in checks && checks[p] == None ==> p in problems
  }

  /** The guard passes exactly when no position outside the excepted ones is unchecked, and otherwise ends the transaction. */
  lemma GuardDecides(d: Gate, t: TxId, to: Status, problems: set<PositionId>)
    requires t in d.txs && d.txs[t] == MoverUpdated(to, CheckedExcept(problems))
    ensures UncheckedAreIn(d.checks, problems) ==>
      Next(d, Evaluate(t)) == d.(txs := d.txs[t := MoverPassed(to, CheckedExcept(problems))])
    ensures !UncheckedAreIn(d.checks, problems) ==>
      Next(d, Evaluate(t)) == d.(txs := d.txs - {t})
  {
  }

  function MoverAlone(t: TxId, to: Status, guard: Guard): seq<Step> {
    [StartMover(t, to, guard), Read(t), Update(t), Evaluate(t), Commit(t)]
  }

  /**
   * A guarded status change of a case nobody else works on: along an edge it goes through
   * exactly when every unchecked position is excepted, and otherwise leaves no trace. The
   * checks never change; a full completion is remembered as gated.
   */
  lemma {:induction false} AloneGuardDecides(d: Gate, t: TxId, to: Status, problems: set<PositionId>)
    requires d.txs == map[]
    ensures var e := Scheduled(d, MoverAlone(t, to, CheckedExcept(problems)));
      && e.checks == d.checks && e.txs == map[]
      && (if CanTransition(d.status, to) && UncheckedAreIn(d.checks, problems)
          then e.status == to && e.version == d.version + 1 && (e.gated <==> d.gated || (to == Completed && problems == {}))
          else e == d)
  {
    var guard := CheckedExcept(problems);
    ScheduleOfFive(d, StartMover(t, to, guard), Read(t), Update(t), Evaluate(t), Commit(t));
    AloneUpToUpdate(d, t, to, guard);
    if CanTransition(d.status, to) {
      var c := d.(txs := map[t := MoverUpdated(to, guard)]);
      GuardDecides(c, t, to, problems);
      assert map[t := MoverUpdated(to, guard)] - {t} == map[];
      if UncheckedAreIn(d.checks, problems) {
        var f := Next(c, Evaluate(t));
        assert f.txs == map[t := MoverPassed(to, guard)];
        assert Ended(f, t).txs == map[];
      }
    }
  }

  lemma {:induction false} AloneUpToUpdate(d: Gate, t: TxId, to: Status, guard: Guard)
    requires d.txs == map[]
    ensures Next(Next(Next(d, StartMover(t, to, guard)), Read(t)), Update(t))
            == if CanTransition(d.status, to) then d.(txs := map[t := MoverUpdated(to, guard)]) else d
  {
    var a := Next(d, StartMover(t, to, guard));
    var b := Next(a, Read(t));
    assert a.txs == map[t := MoverStarted(to, guard)];
    if CanTransition(d.status, to) {
      assert b.txs == map[t := MoverRead(to, guard, d.status, d.version)];
      assert Next(b, Update(t)).txs == map[t := MoverUpdated(to, guard)];
    } else {
      assert b.txs == map[];
    }
  }

  /** A fully checked case in progress can be completed. */
  lemma CheckedCaseCompletes(d: Gate, t: TxId)
    requires d.txs == map[] && d.status == InProgress && forall p :: p in d.checks ==> d.checks[p] != None
    ensures Scheduled(d, MoverAlone(t, Completed, CheckedExcept({})))
            == Gate(Completed, d.version + 1, d.checks, map[], true)
  {
    AloneGuardDecides(d, t, Completed, {});
  }

  /** A check or uncheck of a case in progress that nobody else works on is written, of any other case it is refused. */
  lemma {:induction false} AloneWriterWrites(d: Gate, t: TxId, position: PositionId, checkedBy: Option<EmployeeId>)
    requires d.txs == map[] && position in d.checks
    ensures Scheduled(d, [StartWriter(t, position, checkedBy), LockShare(t), Write(t), Commit(t)])
            == if d.status == InProgress then d.(checks := d.checks[position := checkedBy]) else d
  {
    var a := Next(d, StartWriter(t, position, checkedBy));
    var b := Next(a, LockShare(t));
    var c := Next(b, Write(t));
    ScheduleOfFour(d, StartWriter(t, position, checkedBy), LockShare(t), Write(t), Commit(t));
    assert a.txs == map[t := WriterWaiting(position, checkedBy)];
    if d.status == InProgress {
      assert b.txs == map[t := WriterLocked(position, checkedBy)];
      assert c.txs == map[t := WriterWrote(position, checkedBy)];
      assert Ended(c, t).txs == map[];
    } else {
      assert b.txs == map[];
    }
  }

  /**
   * Who meets the row lock waits: a check while a status change holds the row, a status
   * change while a check holds it. A status change that has read an older version is refused.
   */
  lemma MeetingAtTheRow(d: Gate, t: TxId, u: TxId)
    requires t in d.txs && u in d.txs && t != u
    ensures d.txs[t].WriterWaiting? && (d.txs[u].MoverUpdated? || d.txs[u].MoverPassed?) ==> Next(d, LockShare(t)) == d
    ensures d.txs[t].MoverRead? && (d.txs[u].WriterLocked? || d.txs[u].WriterWrote?) ==> Next(d, Update(t)) == d
    ensures d.txs[t].MoverRead? && (d.txs[u].MoverUpdated? || d.txs[u].MoverPassed?) ==> Next(d, Update(t)) == d
    ensures d.txs[t].WriterLocked? && d.txs[u].WriterWrote? && d.txs[t].position == d.txs[u].position ==> Next(d, Write(t)) == d
    ensures d.txs[t].MoverRead? && d.txs[t].version != d.version
              && (forall x :: x in d.txs ==> d.txs[x].WriterWaiting? || d.txs[x].MoverStarted? || d.txs[x].MoverRead?)
            ==> Next(d, Update(t)) == d.(txs := d.txs - {t})
  {
    assert HoldsExclusive(d.txs[u]) ==> SomeoneHoldsExclusive(d);
    assert HoldsShare(d.txs[u]) ==> SomeoneHoldsShare(d);
  }

  lemma {:induction false} ScheduleOfFour(d: Gate, a: Step, b: Step, c: Step, e: Step)
    ensures Scheduled(d, [a, b, c, e]) == Next(Next(Next(Next(d, a), b), c), e)
  {
    assert [a, b, c, e][1..] == [b, c, e];
    ScheduleOfThree(Next(d, a), b, c, e);
  }

  lemma {:induction false} ScheduleOfFive(d: Gate, a: Step, b: Step, c: Step, e: Step, f: Step)
    ensures Scheduled(d, [a, b, c, e, f]) == Next(Next(Next(Next(Next(d, a), b), c), e), f)
  {
    assert [a, b, c, e, f][1..] == [b, c, e, f];
    ScheduleOfFour(Next(d, a), b, c, e, f);
  }

  // ---------------------------------------------------------------- why the guard runs inside

  const QUIET := Gate(InProgress, 0, map[7 := Some(1)], map[], false)
  const LOOKED: Phase := MoverRead(Completed, NoGuard, InProgress, 0)
  const BOTH := Gate(InProgress, 0, map[7 := Some(1)], map[1 := LOOKED, 2 := WriterWaiting(7, None)], false)
  const OVERTAKEN := Gate(InProgress, 0, map[7 := None], map[1 := LOOKED], false)
  const UNGATED := Gate(Completed, 1, map[7 := None], map[], false)

  lemma {:induction false} TheRequestLooks()
    ensures Scheduled(QUIET, [StartMover(1, Completed, NoGuard), Read(1), StartWriter(2, 7, None)]) == BOTH
  {
  }

  lemma {:induction false} TheWriterOvertakes()
    ensures Scheduled(BOTH, [LockShare(2), Write(2), Commit(2)]) == OVERTAKEN
  {
    ScheduleOfThree(BOTH, LockShare(2), Write(2), Commit(2));
    var locked := Next(BOTH, LockShare(2));
    assert locked.txs == map[1 := LOOKED, 2 := WriterLocked(7, None)];
    var wrote := Next(locked, Write(2));
    assert wrote.txs == map[1 := LOOKED, 2 := WriterWrote(7, None)];
    assert Next(wrote, Commit(2)).txs == map[1 := LOOKED];
    assert Next(wrote, Commit(2)).checks == map[7 := None];
  }

  lemma {:induction false} TheRequestCompletes()
    ensures Scheduled(OVERTAKEN, [Update(1), Evaluate(1), Commit(1)]) == UNGATED
  {
  }

  /**
   * Without the guard inside the transaction the check made before it can be overtaken: all
   * positions are checked when the request looks, one is unchecked and committed before its
   * update, and the case is completed with an unchecked position.
   */
  lemma CheckBeforehandIsOvertaken() returns (steps: seq<Step>)
    ensures GateInv(QUIET) && AllChecked(QUIET) && QUIET.status == InProgress
    ensures Scheduled(QUIET, steps).status == Completed && !AllChecked(Scheduled(QUIET, steps))
  {
    var look := [StartMover(1, Completed, NoGuard), Read(1), StartWriter(2, 7, None)];
    var overtake, complete := [LockShare(2), Write(2), Commit(2)], [Update(1), Evaluate(1), Commit(1)];
    TheRequestLooks();
    TheWriterOvertakes();
    TheRequestCompletes();
    steps := look + (overtake + complete);
    ScheduleUnfolds(QUIET, look, overtake + complete);
    ScheduleUnfolds(BOTH, overtake, complete);
    assert UNGATED.checks[7] == None;
  }

  lemma {:induction false} ScheduleUnfolds(d: Gate, a: seq<Step>, b: seq<Step>)
    ensures Scheduled(d, a + b) == Scheduled(Scheduled(d, a), b)
    decreases |a|
  {
    if a == [] {
      assert a + b == b;
    } else {
      assert (a + b)[1..] == a[1..] + b;
      ScheduleUnfolds(Next(d, a[0]), a[1..], b);
    }
  }

  lemma {:induction false} ScheduleOfThree(d: Gate, a: Step, b: Step, c: Step)
    ensures Scheduled(d, [a, b, c]) == Next(Next(Next(d, a), b), c)
  {
    assert [a, b, c][1..] == [b, c] && [b, c][1..] == [c] && [c][1..] == [];
    assert Scheduled(Next(Next(Next(d, a), b), c), []) == Next(Next(Next(d, a), b), c);
    assert Scheduled(Next(Next(d, a), b), [c]) == Next(Next(Next(d, a), b), c);
  }
}
