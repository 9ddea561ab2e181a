/**
 * The append-only event log under concurrent transactions (events/event-log.service.ts).
 * Every statement is a step of its own; the scheduler may interleave the steps of any
 * number of transactions. An append looks up the idempotency key, waits for the advisory
 * lock (held to the end of the transaction), reads the newest row, inserts.
 */
module EventLog {
  import opened Options
  import opened EventHash
  import opened EventChain

  type TxId = nat

  /** `event` is the event as hashed; the stored payload is `StoredPayload(event.payload)`. */
  datatype Row = Row(seqNo: nat, event: Event, hash: Digest, prevHash: Option<Digest>)

  datatype Phase =
    | Idle
    | Waiting(event: Event)
    | Reading(event: Event)
    | Inserting(event: Event, prev: Option<Digest>)

  /** A running transaction: where its append stands, and the rows only it can see. */
  datatype Tx = Tx(phase: Phase, rows: seq<Row>)

  datatype Log = Log(committed: seq<Row>, txs: map<TxId, Tx>, holder: Option<TxId>, nextSeq: nat)

  // ---------------------------------------------------------------- the invariant

  function Links(rows: seq<Row>): seq<Link> {
    seq(|rows|, i requires 0 <= i < |rows| => Link(rows[i].event, rows[i].hash, rows[i].prevHash))
  }

  function OwnRows(d: Log, t: TxId): seq<Row> {
    if t in d.txs then d.txs[t].rows else []
  }

  /** Committed rows, and behind them those of the transaction that holds the lock. */
  function AllRows(d: Log): seq<Row> {
    d.committed + if d.holder.Some? then OwnRows(d, d.holder.value) else []
  }

  function LastHash(rows: seq<Row>): Option<Digest> {
    if rows == [] then None else Some(rows[|rows| - 1].hash)
  }

  /** Rows and half-done appends exist under the lock only. */
  ghost predicate LockProtects(d: Log) {
    && (d.holder.Some? ==> d.holder.value in d.txs)
    && forall t :: t in d.txs && (d.txs[t].rows != [] || d.txs[t].phase.Reading? || d.txs[t].phase.Inserting?)
         ==> d.holder == Some(t)
  }

  ghost predicate Ascending(rows: seq<Row>, below: nat) {
    && (forall i, j :: 0 <= i < j < |rows| ==> rows[i].seqNo < rows[j].seqNo)
    && (forall i :: 0 <= i < |rows| ==> rows[i].seqNo < below)
  }

  ghost predicate KeysOnce(rows: seq<Row>) {
    forall i, j :: 0 <= i < j < |rows| && rows[i].event.idempotencyKey.Some?
      ==> rows[i].event.idempotencyKey != rows[j].event.idempotencyKey
  }

  ghost predicate PayloadsAreValues(rows: seq<Row>) {
    forall i :: 0 <= i < |rows| ==> IsValue(rows[i].event.payload)
  }

  ghost predicate PhaseFits(d: Log, t: TxId) {
    t in d.txs ==>
      && (d.txs[t].phase.Inserting? ==> d.txs[t].phase.prev == LastHash(AllRows(d)))
      && (!d.txs[t].phase.Idle? ==> IsValue(d.txs[t].phase.event.payload))
  }

  ghost predicate LogInv(sha: Sha, d: Log) {
    && LockProtects(d)
    && (forall t :: PhaseFits(d, t))
    && RowsFit(sha, AllRows(d), d.nextSeq)
  }

  /** One unforked chain, numbered upwards, no key twice. */
  ghost predicate RowsFit(sha: Sha, rows: seq<Row>, below: nat) {
    && IsChain(sha, Links(rows))
    && Ascending(rows, below) && KeysOnce(rows) && PayloadsAreValues(rows)
  }

  predicate HasRowWithKey(rows: seq<Row>, key: Option<string>) {
    key.Some? && exists i :: 0 <= i < |rows| && rows[i].event.idempotencyKey == key
  }

  // ---------------------------------------------------------------- the steps

  datatype Step =
    | Begin(t: TxId)
    | Ask(t: TxId, event: Event)
    | Lock(t: TxId)
    | ReadLast(t: TxId)
    | Insert(t: TxId)
    | Commit(t: TxId)
    | Rollback(t: TxId)

  function WithTx(d: Log, t: TxId, tx: Tx): Log {
    d.(txs := d.txs[t := tx])
  }

  /** The transaction is over; its lock is free, its rows are gone unless they were committed. */
  function Ended(d: Log, t: TxId): Log {
    d.(txs := map x | x in d.txs && x != t :: d.txs[x],
       holder := if d.holder == Some(t) then None else d.holder)
  }

  function Inserted(sha: Sha, d: Log, t: TxId): Row
    requires t in d.txs && d.txs[t].phase.Inserting?
  {
    var phase := d.txs[t].phase;
    Row(d.nextSeq, phase.event, ComputeEventHash(sha, phase.prev, phase.event), phase.prev)
  }

  /** One statement; a step that is not possible now is not taken. */
  function Next(sha: Sha, d: Log, s: Step): Log {
    match s
    case Begin(t) => if t !in d.txs then WithTx(d, t, Tx(Idle, [])) else d
    case Ask(t, event) =>
      if t in d.txs && d.txs[t].phase.Idle? && IsValue(event.payload)
         && !(event.idempotencyKey != Some("") && HasRowWithKey(d.committed + d.txs[t].rows, event.idempotencyKey))
      then WithTx(d, t, d.txs[t].(phase := Waiting(event))) else d
    case Lock(t) =>
      if t in d.txs && d.txs[t].phase.Waiting? && (d.holder == None || d.holder == Some(t))
      then WithTx(d, t, d.txs[t].(phase := Reading(d.txs[t].phase.event))).(holder := Some(t)) else d
    case ReadLast(t) =>
      if t in d.txs && d.txs[t].phase.Reading?
      then WithTx(d, t, d.txs[t].(phase := Inserting(d.txs[t].phase.event, LastHash(d.committed + d.txs[t].rows)))) else d
    case Insert(t) =>
      if t in d.txs && d.txs[t].phase.Inserting? then
        if HasRowWithKey(AllRows(d), d.txs[t].phase.event.idempotencyKey) then Ended(d, t).(nextSeq := d.nextSeq + 1)
        else WithTx(d, t, Tx(Idle, d.txs[t].rows + [Inserted(sha, d, t)])).(nextSeq := d.nextSeq + 1)
      else d
    case Commit(t) =>
      if t in d.txs && d.txs[t].phase.Idle? then Ended(d, t).(committed := d.committed + d.txs[t].rows) else d
    case Rollback(t) => if t in d.txs then Ended(d, t) else d
  }

  function Scheduled(sha: Sha, d: Log, steps: seq<Step>): Log {
    if steps == [] then d else Next(sha, Scheduled(sha, d, steps[..|steps| - 1]), steps[|steps| - 1])
  }

  // ---------------------------------------------------------------- each step keeps the invariant

  lemma LinksOfConcat(a: seq<Row>, r: Row)
    ensures Links(a + [r]) == Links(a) + [Link(r.event, r.hash, r.prevHash)]
    ensures PrevOf(Links(a), |a|) == LastHash(a)
  {
  }

  /** The new row continues the chain, gets the highest number and a key nobody has. */
  lemma RowsGrow(sha: Sha, rows: seq<Row>, r: Row, below: nat)
    requires RowsFit(sha, rows, below)
    requires r.seqNo == below && r.prevHash == LastHash(rows) && r.hash == ComputeEventHash(sha, r.prevHash, r.event)
    requires IsValue(r.event.payload) && !HasRowWithKey(rows, r.event.idempotencyKey)
    ensures RowsFit(sha, rows + [r], below + 1)
  {
    LinksOfConcat(rows, r);
    LongerChain(sha, Links(rows), Link(r.event, r.hash, r.prevHash));
  }

  lemma InsertKeepsInv(sha: Sha, d: Log, t: TxId)
    requires LogInv(sha, d) && t in d.txs && d.txs[t].phase.Inserting?
    requires !HasRowWithKey(AllRows(d), d.txs[t].phase.event.idempotencyKey)
    ensures LogInv(sha, WithTx(d, t, Tx(Idle, d.txs[t].rows + [Inserted(sha, d, t)])).(nextSeq := d.nextSeq + 1))
  {
    var row := Inserted(sha, d, t);
    var e := WithTx(d, t, Tx(Idle, d.txs[t].rows + [row])).(nextSeq := d.nextSeq + 1);
    InsertGrowsRows(sha, d, t);
    forall x ensures PhaseFits(e, x) {
      assert PhaseFits(d, x);
      assert x in e.txs && x != t ==> !e.txs[x].phase.Inserting?;
    }
  }

  lemma InsertGrowsRows(sha: Sha, d: Log, t: TxId)
    requires LogInv(sha, d) && t in d.txs && d.txs[t].phase.Inserting?
    requires !HasRowWithKey(AllRows(d), d.txs[t].phase.event.idempotencyKey)
    ensures var row := Inserted(sha, d, t);
      var e := WithTx(d, t, Tx(Idle, d.txs[t].rows + [row])).(nextSeq := d.nextSeq + 1);
      AllRows(e) == AllRows(d) + [row] && RowsFit(sha, AllRows(e), e.nextSeq)
  {
    assert PhaseFits(d, t) && d.holder == Some(t);
    RowsGrow(sha, AllRows(d), Inserted(sha, d, t), d.nextSeq);
    var e := WithTx(d, t, Tx(Idle, d.txs[t].rows + [Inserted(sha, d, t)])).(nextSeq := d.nextSeq + 1);
    assert AllRows(e) == AllRows(d) + [Inserted(sha, d, t)];
  }

  /** A beginning of the rows is a chain like the whole. */
  lemma {:induction false} FrontOfRows(sha: Sha, rows: seq<Row>, n: nat, below: nat, later: nat)
    requires n <= |rows| && below <= later
    requires RowsFit(sha, rows, below)
    ensures RowsFit(sha, rows[..n], later)
  {
    forall i | 0 <= i < n ensures LinkFits(sha, Links(rows[..n]), i) {
      assert LinkFits(sha, Links(rows), i);
    }
  }

  /** Ending a transaction drops its rows; numbers that were drawn stay used. */
  lemma EndKeepsInv(sha: Sha, d: Log, t: TxId)
    requires LogInv(sha, d) && t in d.txs
    ensures LogInv(sha, Ended(d, t)) && LogInv(sha, Ended(d, t).(nextSeq := d.nextSeq + 1))
  {
    var e := Ended(d, t);
    if d.holder == Some(t) {
      FrontOfRows(sha, AllRows(d), |d.committed|, d.nextSeq, d.nextSeq);
      FrontOfRows(sha, AllRows(d), |d.committed|, d.nextSeq, d.nextSeq + 1);
      assert AllRows(d)[..|d.committed|] == d.committed == AllRows(e);
    } else {
      assert AllRows(e) == AllRows(d);
    }
    var f := e.(nextSeq := d.nextSeq + 1);
    assert AllRows(f) == AllRows(e);
    forall x ensures PhaseFits(e, x) && PhaseFits(f, x) {
      assert PhaseFits(d, x);
    }
  }

  lemma CommitKeepsInv(sha: Sha, d: Log, t: TxId)
    requires LogInv(sha, d) && t in d.txs
    ensures LogInv(sha, Ended(d, t).(committed := d.committed + d.txs[t].rows))
  {
    var e := Ended(d, t).(committed := d.committed + d.txs[t].rows);
    assert AllRows(e) == AllRows(d);
    forall x ensures PhaseFits(e, x) {
      assert PhaseFits(d, x);
    }
  }

  // ---------------------------------------------------------------- the log

  class EventLog {
    const sha: Sha

    var committed: seq<Row>
    var txs: map<TxId, Tx>
    var holder: Option<TxId>
    var nextSeq: nat

    function State(): Log
      reads this
    {
      Log(committed, txs, holder, nextSeq)
    }

    constructor (sha: Sha)
      ensures this.sha == sha && State() == Log([], map[], None, 0)
      ensures LogInv(sha, State())
    {
      this.sha := sha;
      committed, txs, holder, nextSeq := [], map[], None, 0;
    }

    method Begin(t: TxId)
      requires LogInv(sha, State()) && t !in txs
      modifies this
      ensures State() == WithTx(old(State()), t, Tx(Idle, []))
      ensures LogInv(sha, State())
    {
      ghost var before := State();
      txs := txs[t := Tx(Idle, [])];
      assert AllRows(State()) == AllRows(before);
      forall x ensures PhaseFits(State(), x) {
        assert PhaseFits(before, x);
      }
    }

    /** An append begins: a row with the same key, committed or own, is returned instead. An empty key is not looked up. */
    method Ask(t: TxId, event: Event) returns (existing: bool)
      requires LogInv(sha, State()) && t in txs && txs[t].phase.Idle? && IsValue(event.payload)
      modifies this
      ensures existing <==> event.idempotencyKey != Some("") && HasRowWithKey(old(committed) + OwnRows(old(State()), t), event.idempotencyKey)
      ensures State() == if existing then old(State()) else WithTx(old(State()), t, old(txs[t]).(phase := Waiting(event)))
      ensures LogInv(sha, State())
    {
      existing := event.idempotencyKey != Some("") && HasRowWithKey(committed + txs[t].rows, event.idempotencyKey);
      if !existing {
        ghost var before := State();
        txs := txs[t := txs[t].(phase := Waiting(event))];
        assert AllRows(State()) == AllRows(before);
        forall x ensures PhaseFits(State(), x) {
          assert PhaseFits(before, x);
        }
      }
    }

    /** Waits while another transaction holds the lock; it is held to the end of the transaction. */
    method Lock(t: TxId) returns (granted: bool)
      requires LogInv(sha, State()) && t in txs && txs[t].phase.Waiting?
      modifies this
      ensures granted <==> old(holder) == None || old(holder) == Some(t)
      ensures !granted ==> State() == old(State())
      ensures granted ==>
        State() == WithTx(old(State()), t, old(txs[t]).(phase := Reading(old(txs[t].phase.event)))).(holder := Some(t))
      ensures LogInv(sha, State())
    {
      granted := holder == None || holder == Some(t);
      if granted {
        ghost var before := State();
        holder := Some(t);
        txs := txs[t := txs[t].(phase := Reading(txs[t].phase.event))];
        assert before.holder == None ==> before.txs[t].rows == [];
        assert AllRows(State()) == AllRows(before);
        forall x ensures PhaseFits(State(), x) {
          assert PhaseFits(before, x);
        }
      }
    }

    /** The newest row the transaction can see: the last committed one or its own. */
    method ReadLast(t: TxId)
      requires LogInv(sha, State()) && t in txs && txs[t].phase.Reading?
      modifies this
      ensures State() == WithTx(old(State()), t,
        old(txs[t]).(phase := Inserting(old(txs[t].phase.event), LastHash(old(committed) + old(txs[t].rows)))))
      ensures LogInv(sha, State())
    {
      ghost var before := State();
      var visible := committed + txs[t].rows;
      assert visible == AllRows(before);
      txs := txs[t := txs[t].(phase := Inserting(txs[t].phase.event, LastHash(visible)))];
      assert AllRows(State()) == AllRows(before);
      forall x ensures PhaseFits(State(), x) {
        assert PhaseFits(before, x);
      }
    }

    /** A second row with the same key violates the unique constraint and ends the transaction. */
    method Insert(t: TxId) returns (ok: bool)
      requires LogInv(sha, State()) && t in txs && txs[t].phase.Inserting?
      modifies this
      ensures ok <==> !HasRowWithKey(AllRows(old(State())), old(txs[t].phase.event.idempotencyKey))
      ensures ok ==>
        State() == WithTx(old(State()), t, Tx(Idle, old(txs[t].rows) + [Inserted(sha, old(State()), t)])).(nextSeq := old(nextSeq) + 1)
      ensures !ok ==> State() == Ended(old(State()), t).(nextSeq := old(nextSeq) + 1)
      ensures LogInv(sha, State())
    {
      ghost var before := State();
      var phase := txs[t].phase;
      assert PhaseFits(before, t);
      ok := !HasRowWithKey(committed + txs[t].rows, phase.event.idempotencyKey);
      var row := Row(nextSeq, phase.event, ComputeEventHash(sha, phase.prev, phase.event), phase.prev);
      nextSeq := nextSeq + 1;
      if ok {
        txs := txs[t := Tx(Idle, txs[t].rows + [row])];
        InsertKeepsInv(sha, before, t);
      } else {
        EndKeepsInv(sha, before, t);
        txs := map x | x in txs && x != t :: txs[x];
        holder := if holder == Some(t) then None else holder;
      }
    }

    method Commit(t: TxId)
      requires LogInv(sha, State()) && t in txs && txs[t].phase.Idle?
      modifies this
      ensures State() == Ended(old(State()), t).(committed := old(committed) + old(txs[t].rows))
      ensures LogInv(sha, State())
    {
      CommitKeepsInv(sha, State(), t);
      committed := committed + txs[t].rows;
      txs := map x | x in txs && x != t :: txs[x];
      holder := if holder == Some(t) then None else holder;
    }

    method Rollback(t: TxId)
      requires LogInv(sha, State()) && t in txs
      modifies this
      ensures State() == Ended(old(State()), t)
      ensures LogInv(sha, State())
    {
      EndKeepsInv(sha, State(), t);
      txs := map x | x in txs && x != t :: txs[x];
      holder := if holder == Some(t) then None else holder;
    }

    /** The next statement of a schedule. */
    method Take(s: Step)
      requires LogInv(sha, State())
      modifies this
      ensures State() == Next(sha, old(State()), s)
      ensures LogInv(sha, State())
      ensures old(committed) <= committed
    {
      match s
      case Begin(t) => if t !in txs { Begin(t); }
      case Ask(t, event) =>
        if t in txs && txs[t].phase.Idle? && IsValue(event.payload) { var existing := Ask(t, event); }
      case Lock(t) => if t in txs && txs[t].phase.Waiting? { var granted := Lock(t); }
      case ReadLast(t) => if t in txs && txs[t].phase.Reading? { ReadLast(t); }
      case Insert(t) => if t in txs && txs[t].phase.Inserting? { var ok := Insert(t); }
      case Commit(t) => if t in txs && txs[t].phase.Idle? { Commit(t); }
      case Rollback(t) => if t in txs { Rollback(t); }
    }

    /** Any schedule of any number of transactions. */
    method Run(steps: seq<Step>)
      requires LogInv(sha, State())
      modifies this
      ensures State() == Scheduled(sha, old(State()), steps)
      ensures LogInv(sha, State())
      ensures old(committed) <= committed
    {
      var i := 0;
      while i < |steps|
        invariant 0 <= i <= |steps|
        invariant State() == Scheduled(sha, old(State()), steps[..i])
        invariant LogInv(sha, State())
        invariant old(committed) <= committed
      {
        assert steps[..i + 1][..i] == steps[..i];
        Take(steps[i]);
        i := i + 1;
      }
      assert steps[..i] == steps;
    }
  }

  // ---------------------------------------------------------------- what the log guarantees

  /** What every schedule leaves: one unforked chain in the order of numbers, each key once. */
  lemma CommittedIsOneChain(sha: Sha, d: Log)
    requires LogInv(sha, d)
    ensures RowsFit(sha, d.committed, d.nextSeq)
  {
    var rows := AllRows(d);
    FrontOfRows(sha, rows, |d.committed|, d.nextSeq, d.nextSeq);
    assert rows[..|d.committed|] == d.committed;
  }

  /** An append with nobody else at it: look up, lock, read, insert, commit. */
  function AppendAlone(t: TxId, event: Event): seq<Step> {
    [Begin(t), Ask(t, event), Lock(t), ReadLast(t), Insert(t), Commit(t)]
  }

  lemma OneStepMore(sha: Sha, d: Log, steps: seq<Step>, n: nat)
    requires n < |steps|
    ensures Scheduled(sha, d, steps[..n + 1]) == Next(sha, Scheduled(sha, d, steps[..n]), steps[n])
  {
    assert steps[..n + 1][..n] == steps[..n];
  }

  lemma {:induction false} ScheduleOfSix(sha: Sha, d: Log, steps: seq<Step>)
    requires |steps| == 6
    ensures Scheduled(sha, d, steps)
            == Next(sha, Next(sha, Next(sha, Next(sha, Next(sha, Next(sha, d, steps[0]), steps[1]), steps[2]), steps[3]), steps[4]), steps[5])
  {
    assert steps[..0] == [] && steps[..6] == steps;
    OneStepMore(sha, d, steps, 0);
    OneStepMore(sha, d, steps, 1);
    OneStepMore(sha, d, steps, 2);
    OneStepMore(sha, d, steps, 3);
    OneStepMore(sha, d, steps, 4);
    OneStepMore(sha, d, steps, 5);
  }

  /** Up to the insert the log itself does not change. */
  lemma {:induction false} AppendReachesInsert(sha: Sha, d: Log, t: TxId, event: Event)
    requires d.holder == None && t !in d.txs && IsValue(event.payload) && !HasRowWithKey(d.committed, event.idempotencyKey)
    ensures Next(sha, Next(sha, Next(sha, Next(sha, d, Begin(t)), Ask(t, event)), Lock(t)), ReadLast(t))
            == d.(txs := d.txs[t := Tx(Inserting(event, LastHash(d.committed)), [])], holder := Some(t))
  {
    assert d.committed + [] == d.committed;
    var a := Next(sha, d, Begin(t));
    var b := Next(sha, a, Ask(t, event));
    assert b == d.(txs := d.txs[t := Tx(Waiting(event), [])]);
    var c := Next(sha, b, Lock(t));
    assert c == d.(txs := d.txs[t := Tx(Reading(event), [])], holder := Some(t));
  }

  lemma {:induction false} InsertAndCommit(sha: Sha, d: Log, t: TxId, event: Event, prev: Option<Digest>)
    requires d.holder == None && t !in d.txs && !HasRowWithKey(d.committed, event.idempotencyKey)
    ensures var c := d.(txs := d.txs[t := Tx(Inserting(event, prev), [])], holder := Some(t));
      Next(sha, Next(sha, c, Insert(t)), Commit(t))
      == d.(committed := d.committed + [Row(d.nextSeq, event, ComputeEventHash(sha, prev, event), prev)], nextSeq := d.nextSeq + 1)
  {
    var c := d.(txs := d.txs[t := Tx(Inserting(event, prev), [])], holder := Some(t));
    assert AllRows(c) == d.committed;
    var row := Row(d.nextSeq, event, ComputeEventHash(sha, prev, event), prev);
    var e := Next(sha, c, Insert(t));
    assert [] + [row] == [row];
    assert Inserted(sha, c, t) == row;
    assert e.txs == d.txs[t := Tx(Idle, [row])];
    assert Ended(e, t).txs == d.txs;
  }

  /** An append whose key is new adds one row: the next number, linked to the newest row, hashed over both. */
  lemma AppendAddsOneRow(sha: Sha, d: Log, t: TxId, event: Event)
    requires d.holder == None && t !in d.txs && IsValue(event.payload)
    requires event.idempotencyKey.Some? ==> forall r :: r in d.committed ==> r.event.idempotencyKey != event.idempotencyKey
    ensures var prev := if d.committed == [] then None else Some(d.committed[|d.committed| - 1].hash);
      Scheduled(sha, d, AppendAlone(t, event))
      == d.(committed := d.committed + [Row(d.nextSeq, event, ComputeEventHash(sha, prev, event), prev)], nextSeq := d.nextSeq + 1)
  {
    assert !HasRowWithKey(d.committed, event.idempotencyKey);
    ScheduleOfSix(sha, d, AppendAlone(t, event));
    AppendReachesInsert(sha, d, t, event);
    InsertAndCommit(sha, d, t, event, LastHash(d.committed));
  }

  /** An append whose key is taken leaves the log as it is. */
  lemma {:induction false} RepeatedAppendAddsNothing(sha: Sha, d: Log, t: TxId, event: Event, r: Row)
    requires t !in d.txs && d.holder != Some(t) && r in d.committed
    requires event.idempotencyKey.Some? && event.idempotencyKey.value != "" && r.event.idempotencyKey == event.idempotencyKey
    ensures Scheduled(sha, d, AppendAlone(t, event)) == d
  {
    ScheduleOfSix(sha, d, AppendAlone(t, event));
    var a := Next(sha, d, Begin(t));
    assert d.committed + [] == d.committed;
    var i :| 0 <= i < |d.committed| && d.committed[i] == r;
    assert HasRowWithKey(d.committed, event.idempotencyKey);
    assert Next(sha, a, Ask(t, event)) == a && Next(sha, a, Lock(t)) == a && Next(sha, a, ReadLast(t)) == a && Next(sha, a, Insert(t)) == a;
    assert Next(sha, a, Commit(t)).txs == d.txs;
  }

  /** How storage hands a value back: the same content, keys in any order. */
  ghost predicate IsReadBack(readBack: Js -> Js) {
    forall v :: IsValue(v) ==> IsValue(readBack(v)) && Same(readBack(v), v)
  }

  /** The links as the audit reads them: with the stored payload. */
  function StoredLinks(rows: seq<Row>, readBack: Js -> Js): seq<Link> {
    seq(|rows|, i requires 0 <= i < |rows| =>
      Link(rows[i].event.(payload := readBack(StoredPayload(rows[i].event.payload))), rows[i].hash, rows[i].prevHash))
  }

  /** Storage keeps the payload: it was there, and no property in it was `undefined`. */
  ghost predicate IsKept(payload: Js) {
    payload != Undefined && payload != Null && NoUndefinedProperty(payload)
  }

  /** The order of keys that storage chooses does not reach the hash. */
  lemma ReadBackHash(sha: Sha, prev: Option<Digest>, e: Event, readBack: Js -> Js)
    requires IsReadBack(readBack) && IsValue(e.payload)
    ensures ComputeEventHash(sha, prev, e.(payload := readBack(e.payload))) == ComputeEventHash(sha, prev, e)
  {
    ContentTellsEvents(e.(payload := readBack(e.payload)), e);
  }

  lemma StoredLinkFits(sha: Sha, rows: seq<Row>, below: nat, readBack: Js -> Js, i: nat)
    requires IsSha(sha) && IsReadBack(readBack) && RowsFit(sha, rows, below) && i < |rows|
    ensures LinkFits(sha, StoredLinks(rows, readBack), i) <==> IsKept(rows[i].event.payload)
  {
    var event := rows[i].event;
    var prev := PrevOf(Links(rows), i);
    assert LinkFits(sha, Links(rows), i);
    assert PrevOf(StoredLinks(rows, readBack), i) == prev;
    StoredHashFits(sha, prev, event);
    ReadBackHash(sha, prev, event.(payload := StoredPayload(event.payload)), readBack);
  }

  /**
   * The audit: reads the first `limit` rows by number and checks their chain. For rows any
   * schedule has produced it accepts exactly when storage kept every payload, and otherwise
   * names the first row whose payload it did not keep.
   */
  method VerifyIntegrity(log: EventLog, limit: Option<nat>, readBack: Js -> Js) returns (ok: bool, count: nat, brokenAtSeq: Option<nat>)
    requires IsSha(log.sha) && IsReadBack(readBack) && LogInv(log.sha, log.State())
    ensures count == if limit.Some? && limit.value < |log.committed| then limit.value else |log.committed|
    ensures ok <==> forall i :: 0 <= i < count ==> IsKept(log.committed[i].event.payload)
    ensures ok <==> brokenAtSeq == None
    ensures !ok ==> exists i ::
      && 0 <= i < count && brokenAtSeq == Some(log.committed[i].seqNo) && !IsKept(log.committed[i].event.payload)
      && forall j :: 0 <= j < i ==> IsKept(log.committed[j].event.payload)
  {
    count := if limit.Some? && limit.value < |log.committed| then limit.value else |log.committed|;
    var rows := log.committed[..count];
    assert rows == AllRows(log.State())[..count];
    FrontOfRows(log.sha, AllRows(log.State()), count, log.nextSeq, log.nextSeq);
    var broken := VerifyChainLinks(log.sha, StoredLinks(rows, readBack));
    forall i | 0 <= i < count
      ensures LinkFits(log.sha, StoredLinks(rows, readBack), i) <==> IsKept(log.committed[i].event.payload)
    {
      StoredLinkFits(log.sha, rows, log.nextSeq, readBack, i);
    }
    ok := broken == None;
    brokenAtSeq := if broken.Some? then Some(rows[broken.value].seqNo) else None;
  }
}
