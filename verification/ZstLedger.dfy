/**
 * The completion ledger of one case (cases/cases.service.ts: `resolveEffectiveSkuStates`,
 * `persistSkuConfirmations`, `writeZstForCompletion`, `writeZst`): each partial or full
 * completion books what has been counted beyond what is booked already.
 */
module ZstLedger {
  import opened Options
  import opened Ids
  import opened Sorting

  /** `counted` is the quantity in the idempotency key; `quantity` is what was booked. */
  datatype Record = Record(employee: EmployeeId, counted: int, quantity: int)

  // ---------------------------------------------------------------- one booking

  function Booked(records: seq<Record>): int {
    if records == [] then 0 else Booked(records[..|records| - 1]) + records[|records| - 1].quantity
  }

  function BookedBy(records: seq<Record>, e: EmployeeId): int {
    if records == [] then 0
    else
      var last := records[|records| - 1];
      BookedBy(records[..|records| - 1], e) + if last.employee == e then last.quantity else 0
  }

  predicate HasRecord(records: seq<Record>, e: EmployeeId, counted: int) {
    exists r :: r in records && r.employee == e && r.counted == counted
  }

  function Min(a: int, b: int): int {
    if a < b then a else b
  }

  /** What a booking adds: the pair's difference, capped by the case's. */
  function Delta(records: seq<Record>, e: EmployeeId, counted: int, caseTotal: int): int {
    Min(counted - BookedBy(records, e), caseTotal - Booked(records))
  }

  predicate Books(records: seq<Record>, e: EmployeeId, counted: int, caseTotal: int) {
    !HasRecord(records, e, counted) && Delta(records, e, counted, caseTotal) > 0
  }

  function After(records: seq<Record>, e: EmployeeId, counted: int, caseTotal: int): seq<Record> {
    if Books(records, e, counted, caseTotal)
    then records + [Record(e, counted, Delta(records, e, counted, caseTotal))]
    else records
  }

  /** Only positive quantities are ever booked. */
  ghost predicate AllPositive(records: seq<Record>) {
    forall r :: r in records ==> r.quantity > 0
  }

  lemma BookedStep(records: seq<Record>, r: Record)
    ensures Booked(records + [r]) == Booked(records) + r.quantity
    ensures forall e :: BookedBy(records + [r], e) == BookedBy(records, e) + if r.employee == e then r.quantity else 0
  {
  }

  /** A booking never lifts the booked total above the counted total it was given, nor anybody above their own count. */
  lemma BookingIsCapped(records: seq<Record>, e: EmployeeId, counted: int, caseTotal: int)
    requires AllPositive(records)
    ensures var now := After(records, e, counted, caseTotal);
      && AllPositive(now) && Booked(records) <= Booked(now)
      && Booked(now) <= (if Booked(records) > caseTotal then Booked(records) else caseTotal)
      && BookedBy(now, e) <= (if BookedBy(records, e) > counted then BookedBy(records, e) else counted)
      && (forall x :: x != e ==> BookedBy(now, x) == BookedBy(records, x))
  {
  }

  lemma {:induction false} BookedOnlyGrows(records: seq<Record>, later: seq<Record>, e: EmployeeId)
    requires records <= later && AllPositive(later)
    ensures Booked(records) <= Booked(later) && BookedBy(records, e) <= BookedBy(later, e)
    decreases |later|
  {
    if records != later {
      var n := |later| - 1;
      assert later == later[..n] + [later[n]];
      BookedOnlyGrows(records, later[..n], e);
    }
  }

  /** A retry books nothing: not at once, and not after any other bookings in between. */
  lemma RetryBooksNothing(records: seq<Record>, later: seq<Record>, e: EmployeeId, counted: int, caseTotal: int)
    requires After(records, e, counted, caseTotal) <= later && AllPositive(later)
    ensures After(later, e, counted, caseTotal) == later
  {
    if Books(records, e, counted, caseTotal) {
      var r := Record(e, counted, Delta(records, e, counted, caseTotal));
      assert later[|records|] == r;
      assert r in later;
    } else if HasRecord(records, e, counted) {
      var r :| r in records && r.employee == e && r.counted == counted;
      var i :| 0 <= i < |records| && records[i] == r;
      assert later[i] == r;
    } else {
      BookedOnlyGrows(records, later, e);
    }
  }

  // ---------------------------------------------------------------- counting

  /** A size line: what was expected, and what has been counted so far. */
  datatype SkuLine = SkuLine(id: nat, position: nat, expected: int, confirmed: Option<int>)

  datatype Position = Position(id: nat, confirmedBy: Option<EmployeeId>)

  function Persisted(line: SkuLine): int {
    if line.confirmed.Some? then line.confirmed.value else line.expected
  }

  /** The request's value counts where it has one, otherwise the stored one. */
  function Effective(line: SkuLine, body: map<nat, int>): int {
    if line.id in body then body[line.id] else Persisted(line)
  }

  function SumPersisted(lines: seq<SkuLine>): int {
    if lines == [] then 0 else SumPersisted(lines[..|lines| - 1]) + Persisted(lines[|lines| - 1])
  }

  function SumEffective(lines: seq<SkuLine>, body: map<nat, int>): int {
    if lines == [] then 0 else SumEffective(lines[..|lines| - 1], body) + Effective(lines[|lines| - 1], body)
  }

  /** The request's counts are written to the lines they name. */
  function Confirmed(lines: seq<SkuLine>, body: map<nat, int>): seq<SkuLine> {
    seq(|lines|, i requires 0 <= i < |lines| =>
      if lines[i].id in body then lines[i].(confirmed := Some(body[lines[i].id])) else lines[i])
  }

  /** What was counted for the booking is what is stored afterwards, line by line and in sum. */
  lemma {:induction false} ConfirmedIsEffective(lines: seq<SkuLine>, body: map<nat, int>)
    ensures forall i :: 0 <= i < |lines| ==> Persisted(Confirmed(lines, body)[i]) == Effective(lines[i], body)
    ensures SumPersisted(Confirmed(lines, body)) == SumEffective(lines, body)
  {
    if lines != [] {
      var n := |lines| - 1;
      ConfirmedIsEffective(lines[..n], body);
      assert Confirmed(lines, body)[..n] == Confirmed(lines[..n], body);
    }
  }

  function QuantityOf(lines: seq<SkuLine>, position: nat): int {
    if lines == [] then 0
    else
      var last := lines[|lines| - 1];
      QuantityOf(lines[..|lines| - 1], position) + if last.position == position then Persisted(last) else 0
  }

  /** What the positions checked by `e` hold. */
  function CheckedBy(positions: seq<Position>, lines: seq<SkuLine>, e: EmployeeId): int {
    if positions == [] then 0
    else
      var last := positions[|positions| - 1];
      CheckedBy(positions[..|positions| - 1], lines, e) + if last.confirmedBy == Some(e) then QuantityOf(lines, last.id) else 0
  }

  /** What the checked positions hold, and what the unchecked ones hold. */
  function CheckedTotal(positions: seq<Position>, lines: seq<SkuLine>): int {
    if positions == [] then 0
    else
      var last := positions[|positions| - 1];
      CheckedTotal(positions[..|positions| - 1], lines) + if last.confirmedBy.Some? then QuantityOf(lines, last.id) else 0
  }

  function UncheckedTotal(positions: seq<Position>, lines: seq<SkuLine>): int {
    if positions == [] then 0
    else
      var last := positions[|positions| - 1];
      UncheckedTotal(positions[..|positions| - 1], lines) + if last.confirmedBy.None? then QuantityOf(lines, last.id) else 0
  }

  /** Each line belongs to exactly one of the case's positions. */
  ghost predicate Covers(positions: seq<Position>, lines: seq<SkuLine>) {
    && (forall i, j :: 0 <= i < j < |positions| ==> positions[i].id != positions[j].id)
    && (forall l :: l in lines ==> exists p :: p in positions && p.id == l.position)
  }

  ghost predicate NoNegative(lines: seq<SkuLine>) {
    forall l :: l in lines ==> Persisted(l) >= 0
  }

  lemma {:induction false} OneLineMore(positions: seq<Position>, lines: seq<SkuLine>, l: SkuLine)
    requires forall i, j :: 0 <= i < j < |positions| ==> positions[i].id != positions[j].id
    ensures CheckedTotal(positions, lines + [l]) + UncheckedTotal(positions, lines + [l])
            == CheckedTotal(positions, lines) + UncheckedTotal(positions, lines)
               + if exists p :: p in positions && p.id == l.position then Persisted(l) else 0
  {
    assert (lines + [l])[..|lines|] == lines;
    if positions != [] {
      var n := |positions| - 1;
      OneLineMore(positions[..n], lines, l);
      assert positions == positions[..n] + [positions[n]];
      if positions[n].id == l.position {
        assert positions[n] in positions;
        assert forall p :: p in positions[..n] ==> p.id != l.position;
      }
    }
  }

  /** Checked and unchecked positions together hold the whole case. */
  lemma {:induction false} PositionsHoldEverything(positions: seq<Position>, lines: seq<SkuLine>)
    requires Covers(positions, lines)
    ensures CheckedTotal(positions, lines) + UncheckedTotal(positions, lines) == SumPersisted(lines)
  {
    if lines == [] {
      NothingOnPositions(positions);
    } else {
      var n := |lines| - 1;
      assert lines == lines[..n] + [lines[n]];
      assert forall l :: l in lines[..n] ==> l in lines;
      PositionsHoldEverything(positions, lines[..n]);
      OneLineMore(positions, lines[..n], lines[n]);
    }
  }

  lemma {:induction false} NothingOnPositions(positions: seq<Position>)
    ensures CheckedTotal(positions, []) == 0 && UncheckedTotal(positions, []) == 0
  {
    if positions != [] {
      NothingOnPositions(positions[..|positions| - 1]);
    }
  }

  lemma {:induction false} QuantityIsNotNegative(lines: seq<SkuLine>, position: nat)
    requires NoNegative(lines)
    ensures QuantityOf(lines, position) >= 0
  {
    if lines != [] {
      assert lines == lines[..|lines| - 1] + [lines[|lines| - 1]];
      QuantityIsNotNegative(lines[..|lines| - 1], position);
    }
  }

  lemma {:induction false} TotalsAreNotNegative(positions: seq<Position>, lines: seq<SkuLine>, e: EmployeeId)
    requires NoNegative(lines)
    ensures UncheckedTotal(positions, lines) >= 0 && CheckedBy(positions, lines, e) >= 0
  {
    if positions != [] {
      TotalsAreNotNegative(positions[..|positions| - 1], lines, e);
      QuantityIsNotNegative(lines, positions[|positions| - 1].id);
    }
  }

  // ---------------------------------------------------------------- who counted what

  datatype Tally = Tally(employee: EmployeeId, quantity: int)

  function TallyEmployees(tally: seq<Tally>): seq<EmployeeId> {
    seq(|tally|, i requires 0 <= i < |tally| => tally[i].employee)
  }

  function TallyTotal(tally: seq<Tally>): int {
    if tally == [] then 0 else TallyTotal(tally[..|tally| - 1]) + tally[|tally| - 1].quantity
  }

  ghost predicate IsTally(tally: seq<Tally>, positions: seq<Position>, lines: seq<SkuLine>) {
    && Distinct(TallyEmployees(tally))
    && (forall i :: 0 <= i < |tally| ==> tally[i].quantity == CheckedBy(positions, lines, tally[i].employee))
    && (forall p :: p in positions && p.confirmedBy.Some? ==> p.confirmedBy.value in TallyEmployees(tally))
    && TallyTotal(tally) == CheckedTotal(positions, lines)
  }

  /** Who checked nothing so far has a count of nothing. */
  lemma {:induction false} UncheckedCountsNothing(positions: seq<Position>, lines: seq<SkuLine>, e: EmployeeId)
    requires forall p :: p in positions ==> p.confirmedBy != Some(e)
    ensures CheckedBy(positions, lines, e) == 0
  {
    if positions != [] {
      assert positions == positions[..|positions| - 1] + [positions[|positions| - 1]];
      UncheckedCountsNothing(positions[..|positions| - 1], lines, e);
    }
  }

  /** One more checked position is added to its checker's count. */
  function Counted(tally: seq<Tally>, e: EmployeeId, quantity: int): seq<Tally> {
    if tally == [] then [Tally(e, quantity)]
    else if tally[0].employee == e then [Tally(e, tally[0].quantity + quantity)] + tally[1..]
    else [tally[0]] + Counted(tally[1..], e, quantity)
  }

  lemma {:induction false} CountedMeans(tally: seq<Tally>, e: EmployeeId, quantity: int)
    requires Distinct(TallyEmployees(tally))
    ensures var now := Counted(tally, e, quantity);
      && |tally| <= |now| <= |tally| + 1
      && (|now| == |tally| <==> e in TallyEmployees(tally))
      && (forall i :: 0 <= i < |tally| ==>
            now[i] == if tally[i].employee == e then tally[i].(quantity := tally[i].quantity + quantity) else tally[i])
      && (|now| > |tally| ==> now[|tally|] == Tally(e, quantity))
  {
    if tally != [] && tally[0].employee == e {
      assert TallyEmployees(tally)[0] == e;
      forall i | 0 < i < |tally| ensures tally[i].employee != e {
        assert TallyEmployees(tally)[i] == tally[i].employee;
      }
    } else if tally != [] {
      assert TallyEmployees(tally[1..]) == TallyEmployees(tally)[1..];
      CountedMeans(tally[1..], e, quantity);
      assert TallyEmployees(tally) == [tally[0].employee] + TallyEmployees(tally[1..]);
    }
  }

  lemma {:induction false} TallyOneMore(tally: seq<Tally>, t: Tally)
    ensures TallyTotal(tally + [t]) == TallyTotal(tally) + t.quantity
  {
  }

  lemma {:induction false} TallyGrows(tally: seq<Tally>, e: EmployeeId, quantity: int)
    ensures TallyTotal(Counted(tally, e, quantity)) == TallyTotal(tally) + quantity
  {
    if tally == [] {
      TallyOneMore([], Tally(e, quantity));
    } else if tally[0].employee == e {
      TallyFront(Tally(e, tally[0].quantity + quantity), tally[1..]);
      TallyFront(tally[0], tally[1..]);
      assert tally == [tally[0]] + tally[1..];
    } else {
      TallyGrows(tally[1..], e, quantity);
      TallyFront(tally[0], Counted(tally[1..], e, quantity));
      TallyFront(tally[0], tally[1..]);
      assert tally == [tally[0]] + tally[1..];
    }
  }

  lemma {:induction false} TallyFront(t: Tally, rest: seq<Tally>)
    ensures TallyTotal([t] + rest) == t.quantity + TallyTotal(rest)
  {
    if rest != [] {
      var n := |rest| - 1;
      TallyFront(t, rest[..n]);
      assert ([t] + rest)[..n + 1] == [t] + rest[..n];
    }
  }

  /** Counting one more position keeps everybody apart, and everybody who was there. */
  lemma CountedEmployees(tally: seq<Tally>, e: EmployeeId, quantity: int)
    requires Distinct(TallyEmployees(tally))
    ensures var now := Counted(tally, e, quantity);
      && Distinct(TallyEmployees(now))
      && forall x :: x in TallyEmployees(now) <==> x in TallyEmployees(tally) || x == e
  {
    var now := Counted(tally, e, quantity);
    CountedMeans(tally, e, quantity);
    assert TallyEmployees(now)[..|tally|] == TallyEmployees(tally);
    if |now| > |tally| {
      assert TallyEmployees(now) == TallyEmployees(tally) + [e];
    } else {
      assert TallyEmployees(now) == TallyEmployees(tally);
    }
  }

  lemma CountedQuantities(tally: seq<Tally>, front: seq<Position>, lines: seq<SkuLine>, p: Position, i: nat)
    requires IsTally(tally, front, lines) && p.confirmedBy.Some?
    requires i < |Counted(tally, p.confirmedBy.value, QuantityOf(lines, p.id))|
    ensures var now := Counted(tally, p.confirmedBy.value, QuantityOf(lines, p.id));
      now[i].quantity == CheckedBy(front + [p], lines, now[i].employee)
  {
    var e := p.confirmedBy.value;
    CountedMeans(tally, e, QuantityOf(lines, p.id));
    assert (front + [p])[..|front|] == front;
    if i == |tally| {
      UncheckedCountsNothing(front, lines, e);
    }
  }

  lemma TallyStep(tally: seq<Tally>, front: seq<Position>, lines: seq<SkuLine>, p: Position)
    requires IsTally(tally, front, lines)
    ensures var now := if p.confirmedBy.Some? then Counted(tally, p.confirmedBy.value, QuantityOf(lines, p.id)) else tally;
      IsTally(now, front + [p], lines)
  {
    assert (front + [p])[..|front|] == front;
    if p.confirmedBy.Some? {
      var e := p.confirmedBy.value;
      var now := Counted(tally, e, QuantityOf(lines, p.id));
      TallyGrows(tally, e, QuantityOf(lines, p.id));
      CountedEmployees(tally, e, QuantityOf(lines, p.id));
      forall i | 0 <= i < |now| ensures now[i].quantity == CheckedBy(front + [p], lines, now[i].employee) {
        CountedQuantities(tally, front, lines, p, i);
      }
    }
  }

  /** Every checker with the sum over the positions they checked; unchecked positions count for nobody. */
  method CountByEmployee(positions: seq<Position>, lines: seq<SkuLine>) returns (tally: seq<Tally>)
    ensures IsTally(tally, positions, lines)
  {
    tally := [];
    var k := 0;
    while k < |positions|
      invariant 0 <= k <= |positions|
      invariant IsTally(tally, positions[..k], lines)
    {
      assert positions[..k + 1] == positions[..k] + [positions[k]];
      TallyStep(tally, positions[..k], lines, positions[k]);
      if positions[k].confirmedBy.Some? {
        tally := Counted(tally, positions[k].confirmedBy.value, QuantityOf(lines, positions[k].id));
      }
      k := k + 1;
    }
    assert positions[..k] == positions;
  }

  // ---------------------------------------------------------------- booking a tally

  function AfterAll(records: seq<Record>, tally: seq<Tally>, caseTotal: int): seq<Record> {
    if tally == [] then records
    else
      var n := |tally| - 1;
      After(AfterAll(records, tally[..n], caseTotal), tally[n].employee, tally[n].quantity, caseTotal)
  }

  lemma OneTally(records: seq<Record>, t: Tally, caseTotal: int)
    ensures AfterAll(records, [t], caseTotal) == After(records, t.employee, t.quantity, caseTotal)
  {
  }

  lemma {:induction false} AllAreCapped(records: seq<Record>, tally: seq<Tally>, caseTotal: int)
    requires AllPositive(records)
    ensures var now := AfterAll(records, tally, caseTotal);
      && AllPositive(now) && records <= now && Booked(records) <= Booked(now)
      && Booked(now) <= if Booked(records) > caseTotal then Booked(records) else caseTotal
  {
    if tally != [] {
      var n := |tally| - 1;
      AllAreCapped(records, tally[..n], caseTotal);
      BookingIsCapped(AfterAll(records, tally[..n], caseTotal), tally[n].employee, tally[n].quantity, caseTotal);
    }
  }

  /** Repeating a whole completion, now or later, books nothing. */
  lemma {:induction false} RepeatedCompletionBooksNothing(records: seq<Record>, later: seq<Record>, tally: seq<Tally>, caseTotal: int)
    requires AllPositive(later) && AllPositive(records) && AfterAll(records, tally, caseTotal) <= later
    ensures AfterAll(later, tally, caseTotal) == later
  {
    if tally != [] {
      var n := |tally| - 1;
      var before := AfterAll(records, tally[..n], caseTotal);
      assert before <= After(before, tally[n].employee, tally[n].quantity, caseTotal);
      RepeatedCompletionBooksNothing(records, later, tally[..n], caseTotal);
      RetryBooksNothing(before, later, tally[n].employee, tally[n].quantity, caseTotal);
    }
  }

  // ---------------------------------------------------------------- what a completion books

  /** What a tally entry still asks for: nothing once its key is there, else what the employee has not been booked. */
  function Wanted(records: seq<Record>, t: Tally): int {
    if HasRecord(records, t.employee, t.quantity) || t.quantity <= BookedBy(records, t.employee) then 0
    else t.quantity - BookedBy(records, t.employee)
  }

  function TotalWanted(records: seq<Record>, tally: seq<Tally>): int {
    if tally == [] then 0 else TotalWanted(records, tally[..|tally| - 1]) + Wanted(records, tally[|tally| - 1])
  }

  lemma {:induction false} WantedIsNotNegative(records: seq<Record>, tally: seq<Tally>)
    ensures TotalWanted(records, tally) >= 0
  {
    if tally != [] {
      WantedIsNotNegative(records, tally[..|tally| - 1]);
    }
  }

  /** Who is not in the tally is neither booked nor given a key. */
  lemma {:induction false} OthersUntouched(records: seq<Record>, tally: seq<Tally>, caseTotal: int, e: EmployeeId)
    requires e !in TallyEmployees(tally)
    ensures var now := AfterAll(records, tally, caseTotal);
      && BookedBy(now, e) == BookedBy(records, e)
      && forall counted :: HasRecord(now, e, counted) <==> HasRecord(records, e, counted)
  {
    if tally != [] {
      var n := |tally| - 1;
      var t := tally[n];
      assert TallyEmployees(tally)[..n] == TallyEmployees(tally[..n]);
      assert TallyEmployees(tally)[n] == t.employee;
      OthersUntouched(records, tally[..n], caseTotal, e);
      OneBookingLeavesOthers(AfterAll(records, tally[..n], caseTotal), t, caseTotal, e);
    }
  }

  lemma OneBookingLeavesOthers(records: seq<Record>, t: Tally, caseTotal: int, e: EmployeeId)
    requires e != t.employee
    ensures var now := After(records, t.employee, t.quantity, caseTotal);
      && BookedBy(now, e) == BookedBy(records, e)
      && forall counted :: HasRecord(now, e, counted) <==> HasRecord(records, e, counted)
  {
    if Books(records, t.employee, t.quantity, caseTotal) {
      BookedStep(records, Record(t.employee, t.quantity, Delta(records, t.employee, t.quantity, caseTotal)));
    }
  }

  /** What the last entry asks for does not depend on the entries before it. */
  lemma LastWanted(records: seq<Record>, tally: seq<Tally>, caseTotal: int)
    requires tally != [] && Distinct(TallyEmployees(tally))
    ensures var n := |tally| - 1;
      && Distinct(TallyEmployees(tally[..n]))
      && Wanted(AfterAll(records, tally[..n], caseTotal), tally[n]) == Wanted(records, tally[n])
      && BookedBy(AfterAll(records, tally[..n], caseTotal), tally[n].employee) == BookedBy(records, tally[n].employee)
  {
    var n := |tally| - 1;
    assert TallyEmployees(tally)[..n] == TallyEmployees(tally[..n]);
    assert TallyEmployees(tally)[n] == tally[n].employee;
    assert tally[n].employee !in TallyEmployees(tally[..n]);
    OthersUntouched(records, tally[..n], caseTotal, tally[n].employee);
  }

  /** One booking adds what is wanted, as far as the case's total leaves room. */
  lemma BookingAddsWanted(records: seq<Record>, t: Tally, caseTotal: int)
    ensures var now := After(records, t.employee, t.quantity, caseTotal);
      var added := if Booked(records) >= caseTotal then 0 else Min(caseTotal - Booked(records), Wanted(records, t));
      Booked(now) == Booked(records) + added && BookedBy(now, t.employee) == BookedBy(records, t.employee) + added
  {
    if Books(records, t.employee, t.quantity, caseTotal) {
      BookedStep(records, Record(t.employee, t.quantity, Delta(records, t.employee, t.quantity, caseTotal)));
    }
  }

  /**
   * The booked total after any completion, from what was booked before: as much as is wanted,
   * up to the counted total, and never less than before.
   */
  lemma {:induction false} CompletionBooks(records: seq<Record>, tally: seq<Tally>, counted: int)
    requires Distinct(TallyEmployees(tally))
    ensures Booked(AfterAll(records, tally, counted)) ==
      if Booked(records) >= counted then Booked(records) else Min(counted, Booked(records) + TotalWanted(records, tally))
  {
    if tally != [] {
      var n := |tally| - 1;
      LastWanted(records, tally, counted);
      CompletionBooks(records, tally[..n], counted);
      WantedIsNotNegative(records, tally[..n]);
      BookingAddsWanted(AfterAll(records, tally[..n], counted), tally[n], counted);
    }
  }

  /** A completion books the case completely exactly when what is booked and still wanted reaches what was counted. */
  lemma CompletelyBookedWhen(records: seq<Record>, tally: seq<Tally>, counted: int)
    requires Distinct(TallyEmployees(tally))
    ensures Booked(AfterAll(records, tally, counted)) == counted
            <==> Booked(records) <= counted <= Booked(records) + TotalWanted(records, tally)
  {
    CompletionBooks(records, tally, counted);
    WantedIsNotNegative(records, tally);
  }

  /** Where the total does not cut, everybody in the tally gets what they want. */
  lemma {:induction false} RoomForEverybody(records: seq<Record>, tally: seq<Tally>, counted: int, i: nat)
    requires Distinct(TallyEmployees(tally)) && Booked(records) + TotalWanted(records, tally) <= counted && i < |tally|
    ensures BookedBy(AfterAll(records, tally, counted), tally[i].employee)
            == BookedBy(records, tally[i].employee) + Wanted(records, tally[i])
    decreases |tally|
  {
    var n := |tally| - 1;
    if i == n {
      LastWanted(records, tally, counted);
      CompletionBooks(records, tally[..n], counted);
      WantedIsNotNegative(records, tally[..n]);
      BookingAddsWanted(AfterAll(records, tally[..n], counted), tally[n], counted);
    } else {
      var front, t := tally[..n], tally[i];
      assert TallyEmployees(tally)[..n] == TallyEmployees(front);
      assert TallyEmployees(tally)[i] == t.employee && TallyEmployees(tally)[n] == tally[n].employee;
      assert front[i] == t;
      RoomForEverybody(records, front, counted, i);
      OneBookingLeavesOthers(AfterAll(records, front, counted), tally[n], counted, t.employee);
    }
  }

  function BookedToTally(records: seq<Record>, tally: seq<Tally>): int {
    if tally == [] then 0 else BookedToTally(records, tally[..|tally| - 1]) + BookedBy(records, tally[|tally| - 1].employee)
  }

  /** No key of the tally is used up, and nobody in it is booked above their count. */
  ghost predicate IsOpenTally(records: seq<Record>, tally: seq<Tally>) {
    forall t :: t in tally ==> !HasRecord(records, t.employee, t.quantity) && BookedBy(records, t.employee) <= t.quantity
  }

  lemma {:induction false} OpenTallyWantsTheRest(records: seq<Record>, tally: seq<Tally>)
    requires IsOpenTally(records, tally)
    ensures TotalWanted(records, tally) == TallyTotal(tally) - BookedToTally(records, tally)
  {
    if tally != [] {
      var n := |tally| - 1;
      assert tally == tally[..n] + [tally[n]];
      OpenTallyWantsTheRest(records, tally[..n]);
    }
  }

  /**
   * At any later completion too: when the tally holds everything counted, none of its keys is
   * used up and whatever is booked is booked to its employees, the case is booked completely.
   */
  lemma OpenTallyIsBooked(records: seq<Record>, tally: seq<Tally>, counted: int)
    requires AllPositive(records) && Distinct(TallyEmployees(tally)) && IsOpenTally(records, tally)
    requires TallyTotal(tally) == counted && BookedToTally(records, tally) == Booked(records)
    ensures Booked(AfterAll(records, tally, counted)) == counted
  {
    OpenTallyWantsTheRest(records, tally);
    WantedIsNotNegative(records, tally);
    CompletelyBookedWhen(records, tally, counted);
  }

  // ---------------------------------------------------------------- the ledger

  class Ledger {
    var records: seq<Record>

    constructor ()
      ensures records == []
    {
      records := [];
    }

    /** One booking; the key and the two sums are read before the insert. */
    method WriteZst(e: EmployeeId, counted: int, caseTotal: int)
      requires AllPositive(records)
      modifies this
      ensures records == After(old(records), e, counted, caseTotal)
      ensures AllPositive(records)
    {
      BookingIsCapped(records, e, counted, caseTotal);
      if exists r :: r in records && r.employee == e && r.counted == counted {
        return;
      }
      var bookedPair := BookedBy(records, e);
      var bookedCase := Booked(records);
      var delta := Min(counted - bookedPair, caseTotal - bookedCase);
      if delta <= 0 {
        return;
      }
      records := records + [Record(e, counted, delta)];
    }

    /** A shared case books for each checker, any other for the one who completes. */
    method WriteForCompletion(me: EmployeeId, shared: bool, positions: seq<Position>, lines: seq<SkuLine>, counted: int)
      returns (ghost tally: seq<Tally>)
      requires AllPositive(records)
      modifies this
      ensures if shared then IsTally(tally, positions, lines) else tally == [Tally(me, counted)]
      ensures records == AfterAll(old(records), tally, counted)
      ensures AllPositive(records)
      ensures !shared && old(records) == [] ==> records == if counted > 0 then [Record(me, counted, counted)] else []
    {
      AllAreCapped(records, [], counted);
      if !shared {
        tally := [Tally(me, counted)];
        assert tally[..0] == [];
        WriteZst(me, counted, counted);
        return;
      }
      var counts := CountByEmployee(positions, lines);
      tally := counts;
      var k := 0;
      while k < |counts|
        invariant 0 <= k <= |counts| && AllPositive(records)
        invariant records == AfterAll(old(records), counts[..k], counted)
      {
        assert counts[..k + 1][..k] == counts[..k];
        WriteZst(counts[k].employee, counts[k].quantity, counted);
        k := k + 1;
      }
      assert counts[..k] == counts;
    }
  }

  /** What a completion counts; without a single size line the quantity the caller falls back to. */
  function CountedTotal(lines: seq<SkuLine>, body: map<nat, int>, whenNoLines: int): int {
    if lines == [] then whenNoLines else SumEffective(lines, body)
  }

  /**
   * A line of the request that is not in the case is refused. A full completion falls back
   * to the case's total quantity, a partial one to nothing.
   */
  method ResolveCounts(lines: seq<SkuLine>, body: map<nat, int>, whenNoLines: int) returns (counted: Option<int>)
    ensures counted == None <==> exists id :: id in body && forall l :: l in lines ==> l.id != id
    ensures counted.Some? ==> counted.value == CountedTotal(lines, body, whenNoLines)
    ensures body == map[] && lines != [] && (forall l :: l in lines ==> l.confirmed == None) ==>
      counted == Some(SumOf(ExpectedColumn(lines)))
  {
    var known := set l | l in lines :: l.id;
    if exists id :: id in body && id !in known {
      return None;
    }
    if |lines| == 0 {
      return Some(whenNoLines);
    }
    var sum, k := 0, 0;
    while k < |lines|
      invariant 0 <= k <= |lines| && sum == SumEffective(lines[..k], body)
    {
      assert lines[..k + 1][..k] == lines[..k];
      sum := sum + Effective(lines[k], body);
      k := k + 1;
    }
    assert lines[..k] == lines;
    if body == map[] && forall l :: l in lines ==> l.confirmed == None {
      NothingCountedYet(lines, whenNoLines);
    }
    counted := Some(sum);
  }

  // ---------------------------------------------------------------- counting, column by column

  function SumOf(xs: seq<int>): int {
    if xs == [] then 0 else SumOf(xs[..|xs| - 1]) + xs[|xs| - 1]
  }

  function ExpectedColumn(lines: seq<SkuLine>): seq<int> {
    seq(|lines|, i requires 0 <= i < |lines| => lines[i].expected)
  }

  /** `counts` holds per line the request's count, else the stored one, else the expected quantity. */
  ghost predicate AreCounts(counts: seq<int>, lines: seq<SkuLine>, body: map<nat, int>) {
    && |counts| == |lines|
    && forall i :: 0 <= i < |lines| ==>
         && (lines[i].id in body ==> counts[i] == body[lines[i].id])
         && (lines[i].id !in body && lines[i].confirmed.Some? ==> counts[i] == lines[i].confirmed.value)
         && (lines[i].id !in body && lines[i].confirmed.None? ==> counts[i] == lines[i].expected)
  }

  lemma {:induction false} SumLineByLine(counts: seq<int>, lines: seq<SkuLine>, body: map<nat, int>)
    requires AreCounts(counts, lines, body)
    ensures SumEffective(lines, body) == SumOf(counts)
  {
    if lines != [] {
      var n := |lines| - 1;
      SumLineByLine(counts[..n], lines[..n], body);
    }
  }

  /** A completion counts, line by line, the request's value, else the stored count, else the expected quantity. */
  lemma CountedLineByLine(counts: seq<int>, lines: seq<SkuLine>, body: map<nat, int>, whenNoLines: int)
    requires AreCounts(counts, lines, body)
    ensures CountedTotal(lines, body, whenNoLines) == if lines == [] then whenNoLines else SumOf(counts)
  {
    SumLineByLine(counts, lines, body);
  }

  /** Where nothing has been counted, the expected quantities count. */
  lemma NothingCountedYet(lines: seq<SkuLine>, whenNoLines: int)
    requires lines != [] && forall l :: l in lines ==> l.confirmed == None
    ensures CountedTotal(lines, map[], whenNoLines) == SumOf(ExpectedColumn(lines))
  {
    CountedLineByLine(ExpectedColumn(lines), lines, map[], whenNoLines);
  }

  /** What a line counts for `e`: its stored count, else the expected quantity, where `e` checked its position. */
  ghost predicate AreCheckedBy(counts: seq<int>, positions: seq<Position>, lines: seq<SkuLine>, e: EmployeeId) {
    && |counts| == |lines|
    && forall i :: 0 <= i < |lines| ==>
         if exists p :: p in positions && p.id == lines[i].position && p.confirmedBy == Some(e)
         then counts[i] == (if lines[i].confirmed.Some? then lines[i].confirmed.value else lines[i].expected)
         else counts[i] == 0
  }

  lemma {:induction false} OneLineMoreChecked(positions: seq<Position>, lines: seq<SkuLine>, l: SkuLine, e: EmployeeId)
    requires forall i, j :: 0 <= i < j < |positions| ==> positions[i].id != positions[j].id
    ensures CheckedBy(positions, lines + [l], e) == CheckedBy(positions, lines, e)
              + if exists p :: p in positions && p.id == l.position && p.confirmedBy == Some(e) then Persisted(l) else 0
  {
    assert (lines + [l])[..|lines|] == lines;
    if positions != [] {
      var n := |positions| - 1;
      OneLineMoreChecked(positions[..n], lines, l, e);
      assert positions == positions[..n] + [positions[n]];
      if positions[n].id == l.position {
        assert positions[n] in positions;
        assert forall p :: p in positions[..n] ==> p.id != l.position;
      }
    }
  }

  lemma {:induction false} NothingCheckedWithoutLines(positions: seq<Position>, e: EmployeeId)
    ensures CheckedBy(positions, [], e) == 0
  {
    if positions != [] {
      NothingCheckedWithoutLines(positions[..|positions| - 1], e);
    }
  }

  /** What a checker is booked for: exactly the lines of the positions they checked. */
  lemma {:induction false} CheckedLineByLine(counts: seq<int>, positions: seq<Position>, lines: seq<SkuLine>, e: EmployeeId)
    requires Covers(positions, lines) && AreCheckedBy(counts, positions, lines, e)
    ensures CheckedBy(positions, lines, e) == SumOf(counts)
  {
    if lines == [] {
      NothingCheckedWithoutLines(positions, e);
    } else {
      var n := |lines| - 1;
      assert lines == lines[..n] + [lines[n]];
      assert forall l :: l in lines[..n] ==> l in lines;
      CheckedLineByLine(counts[..n], positions, lines[..n], e);
      OneLineMoreChecked(positions, lines[..n], lines[n], e);
    }
  }

  /** The first completion of a case that is not shared books all that was counted for the one who completes. */
  lemma FirstOwnCompletion(lines: seq<SkuLine>, me: EmployeeId, whenNoLines: int)
    requires lines != [] && forall l :: l in lines ==> l.confirmed == None
    ensures var counted := CountedTotal(lines, map[], whenNoLines);
      var expected := SumOf(ExpectedColumn(lines));
      AfterAll([], [Tally(me, counted)], counted) == if expected > 0 then [Record(me, expected, expected)] else []
  {
    NothingCountedYet(lines, whenNoLines);
    var expected := SumOf(ExpectedColumn(lines));
    OneTally([], Tally(me, expected), expected);
  }

  // ---------------------------------------------------------------- what the ledger guarantees

  /**
   * The first completion of a shared case, counts not negative: each checker is booked what
   * the positions they checked hold. The case is booked completely exactly when the unchecked
   * positions hold nothing and there is a size line, or nothing to count without one.
   */
  lemma FirstSharedCompletion(positions: seq<Position>, lines: seq<SkuLine>, tally: seq<Tally>, body: map<nat, int>, whenNoLines: int)
    requires Covers(positions, lines) && IsTally(tally, positions, Confirmed(lines, body))
    requires whenNoLines >= 0 && forall l :: l in lines ==> Effective(l, body) >= 0
    ensures var counted := CountedTotal(lines, body, whenNoLines);
      var now := AfterAll([], tally, counted);
      && (forall e :: BookedBy(now, e) == CheckedBy(positions, Confirmed(lines, body), e))
      && Booked(now) == CheckedTotal(positions, Confirmed(lines, body))
      && (Booked(now) == counted <==>
            UncheckedTotal(positions, Confirmed(lines, body)) == 0 && (lines != [] || whenNoLines == 0))
  {
    var stored, counted := Confirmed(lines, body), CountedTotal(lines, body, whenNoLines);
    ConfirmedIsEffective(lines, body);
    StoredCovers(positions, lines, body);
    PositionsHoldEverything(positions, stored);
    forall i | 0 <= i < |tally| ensures tally[i].quantity >= 0 {
      TotalsAreNotNegative(positions, stored, tally[i].employee);
    }
    TotalsAreNotNegative(positions, stored, 0);
    NothingBookedYet(tally);
    CompletionBooks([], tally, counted);
    var now := AfterAll([], tally, counted);
    forall e ensures BookedBy(now, e) == CheckedBy(positions, stored, e) {
      if e in TallyEmployees(tally) {
        var i :| 0 <= i < |tally| && TallyEmployees(tally)[i] == e;
        RoomForEverybody([], tally, counted, i);
      } else {
        OthersUntouched([], tally, counted, e);
        UncheckedCountsNothing(positions, stored, e);
      }
    }
  }

  /** In an empty ledger every non-negative count is wanted in full. */
  lemma {:induction false} NothingBookedYet(tally: seq<Tally>)
    requires forall i :: 0 <= i < |tally| ==> tally[i].quantity >= 0
    ensures TotalWanted([], tally) == TallyTotal(tally) >= 0
    ensures forall i :: 0 <= i < |tally| ==> Wanted([], tally[i]) == tally[i].quantity
  {
    if tally != [] {
      NothingBookedYet(tally[..|tally| - 1]);
    }
  }

  lemma StoredCovers(positions: seq<Position>, lines: seq<SkuLine>, body: map<nat, int>)
    requires Covers(positions, lines) && forall l :: l in lines ==> Effective(l, body) >= 0
    ensures Covers(positions, Confirmed(lines, body)) && NoNegative(Confirmed(lines, body))
  {
    var stored := Confirmed(lines, body);
    ConfirmedIsEffective(lines, body);
    forall l | l in stored ensures Persisted(l) >= 0 && exists p :: p in positions && p.id == l.position {
      var i :| 0 <= i < |stored| && stored[i] == l;
      assert lines[i] in lines;
    }
  }

  /** Completions one after the other, each with its own tally and total. */
  datatype Completion = Completion(tally: seq<Tally>, counted: int)

  function Ledgered(completions: seq<Completion>): seq<Record> {
    if completions == [] then []
    else
      var n := |completions| - 1;
      AfterAll(Ledgered(completions[..n]), completions[n].tally, completions[n].counted)
  }

  /** The largest counted total so far; nothing is ever booked below zero. */
  function Peak(completions: seq<Completion>): int {
    if completions == [] then 0
    else
      var before, last := Peak(completions[..|completions| - 1]), completions[|completions| - 1].counted;
      if before < last then last else before
  }

  /** Over any sequence of completions a case is never booked above the largest counted total. */
  lemma {:induction false} NeverAbovePeak(completions: seq<Completion>)
    ensures AllPositive(Ledgered(completions)) && 0 <= Booked(Ledgered(completions)) <= Peak(completions)
  {
    if completions != [] {
      var n := |completions| - 1;
      NeverAbovePeak(completions[..n]);
      AllAreCapped(Ledgered(completions[..n]), completions[n].tally, completions[n].counted);
    }
  }

  /** A single worker's booked total is the largest total they ever counted. */
  lemma {:induction false} SingleWorkerBooksPeak(completions: seq<Completion>, e: EmployeeId)
    requires forall i :: 0 <= i < |completions| ==> completions[i].tally == [Tally(e, completions[i].counted)]
    ensures Booked(Ledgered(completions)) == BookedBy(Ledgered(completions), e) == Peak(completions)
    ensures forall r :: r in Ledgered(completions) ==> r.employee == e && r.counted <= Peak(completions)
  {
    if completions != [] {
      var n := |completions| - 1;
      var before, c := Ledgered(completions[..n]), completions[n];
      SingleWorkerBooksPeak(completions[..n], e);
      OneTally(before, c.tally[0], c.counted);
      assert Ledgered(completions) == After(before, e, c.counted, c.counted);
      if Books(before, e, c.counted, c.counted) {
        BookedStep(before, Record(e, c.counted, c.counted - Booked(before)));
      } else if HasRecord(before, e, c.counted) {
        var r :| r in before && r.employee == e && r.counted == c.counted;
      }
    }
  }

  /** Two bookings, the second capped: the first worker has 3, the second only 2 of 5. */
  lemma {:induction false} CappedBookings()
    ensures Ledgered([Completion([Tally(1, 3)], 3), Completion([Tally(2, 5)], 5)]) == [Record(1, 3, 3), Record(2, 5, 2)]
  {
    var x, y := Completion([Tally(1, 3)], 3), Completion([Tally(2, 5)], 5);
    var r := Record(1, 3, 3);
    LedgeredMore([], x);
    LedgeredMore([x], y);
    assert [] + [x] == [x] && [x] + [y] == [x, y];
    OneTally([], Tally(1, 3), 3);
    assert Ledgered([x]) == [r];
    BookedStep([], r);
    assert [] + [r] == [r];
    OneTally([r], Tally(2, 5), 5);
  }

  /** Whose key is there is not booked again, whatever the cap. */
  lemma KeysStopBooking(records: seq<Record>, t: Tally, u: Tally, caseTotal: int)
    requires HasRecord(records, t.employee, t.quantity) && HasRecord(records, u.employee, u.quantity)
    ensures AfterAll(records, [t, u], caseTotal) == records
  {
    assert [t, u][..1] == [t];
    OneTally(records, t, caseTotal);
  }

  lemma {:induction false} TwoAddUp(r: Record, q: Record, t: Tally, u: Tally)
    ensures Booked([r, q]) == r.quantity + q.quantity
    ensures TallyTotal([t, u]) == t.quantity + u.quantity
  {
    BookedStep([r], q);
    BookedStep([], r);
    assert [r] + [q] == [r, q] && [] + [r] == [r];
    TallyOneMore([t], u);
    TallyOneMore([], t);
    assert [t] + [u] == [t, u] && [] + [t] == [t];
  }

  /** What a completion is made from: who completes, who checked which position, and the stored counts. */
  datatype Round = Round(shared: bool, me: EmployeeId, positions: seq<Position>, lines: seq<SkuLine>)

  /** The completion that `WriteForCompletion` books for a round. */
  ghost predicate Arises(c: Completion, r: Round) {
    && Covers(r.positions, r.lines) && c.counted == SumPersisted(r.lines)
    && if r.shared then IsTally(c.tally, r.positions, r.lines) else c.tally == [Tally(r.me, c.counted)]
  }

  /** Two positions with one size line each: `a` pieces on the first, `b` on the second. */
  function TwoPositions(p: Option<EmployeeId>, q: Option<EmployeeId>): seq<Position> {
    [Position(1, p), Position(2, q)]
  }

  function TwoLines(a: int, b: int): seq<SkuLine> {
    [SkuLine(1, 1, 3, Some(a)), SkuLine(2, 2, 5, Some(b))]
  }

  lemma {:induction false} LineAppended(lines: seq<SkuLine>, l: SkuLine, position: nat)
    ensures SumPersisted(lines + [l]) == SumPersisted(lines) + Persisted(l)
    ensures QuantityOf(lines + [l], position) == QuantityOf(lines, position) + if l.position == position then Persisted(l) else 0
  {
    assert (lines + [l])[..|lines|] == lines;
  }

  lemma {:induction false} PositionAppended(positions: seq<Position>, p: Position, lines: seq<SkuLine>, e: EmployeeId)
    ensures CheckedBy(positions + [p], lines, e)
            == CheckedBy(positions, lines, e) + if p.confirmedBy == Some(e) then QuantityOf(lines, p.id) else 0
    ensures CheckedTotal(positions + [p], lines)
            == CheckedTotal(positions, lines) + if p.confirmedBy.Some? then QuantityOf(lines, p.id) else 0
    ensures UncheckedTotal(positions + [p], lines)
            == UncheckedTotal(positions, lines) + if p.confirmedBy.None? then QuantityOf(lines, p.id) else 0
  {
    assert (positions + [p])[..|positions|] == positions;
  }

  lemma {:induction false} TwoLinesHold(a: int, b: int)
    ensures SumPersisted(TwoLines(a, b)) == a + b
    ensures QuantityOf(TwoLines(a, b), 1) == a && QuantityOf(TwoLines(a, b), 2) == b
  {
    var l := TwoLines(a, b);
    LineAppended([], l[0], 1);
    LineAppended([], l[0], 2);
    LineAppended([l[0]], l[1], 1);
    LineAppended([l[0]], l[1], 2);
    assert [] + [l[0]] == [l[0]] && [l[0]] + [l[1]] == l;
  }

  lemma {:induction false} TwoPositionsHold(p: Option<EmployeeId>, q: Option<EmployeeId>, a: int, b: int)
    ensures Covers(TwoPositions(p, q), TwoLines(a, b))
    ensures forall e: EmployeeId :: CheckedBy(TwoPositions(p, q), TwoLines(a, b), e)
                                    == (if p == Some(e) then a else 0) + (if q == Some(e) then b else 0)
    ensures CheckedTotal(TwoPositions(p, q), TwoLines(a, b)) == (if p.Some? then a else 0) + (if q.Some? then b else 0)
    ensures UncheckedTotal(TwoPositions(p, q), TwoLines(a, b)) == (if p.None? then a else 0) + (if q.None? then b else 0)
  {
    TwoLinesHold(a, b);
    var ps, l := TwoPositions(p, q), TwoLines(a, b);
    assert [] + [ps[0]] == [ps[0]] && [ps[0]] + [ps[1]] == ps;
    PositionAppended([], ps[0], l, 0);
    PositionAppended([ps[0]], ps[1], l, 0);
    forall e: EmployeeId ensures CheckedBy(ps, l, e) == (if p == Some(e) then a else 0) + (if q == Some(e) then b else 0) {
      PositionAppended([], ps[0], l, e);
      PositionAppended([ps[0]], ps[1], l, e);
    }
    assert ps[0] in ps && ps[1] in ps;
  }

  /** The three rounds: one worker counts 3, a helper rechecks all 5, then both check their own and 8 are there. */
  function ThreeRounds(): seq<Round> {
    [Round(false, 1, TwoPositions(None, None), TwoLines(3, 0)),
     Round(true, 2, TwoPositions(Some(2), Some(2)), TwoLines(3, 2)),
     Round(true, 2, TwoPositions(Some(1), Some(2)), TwoLines(3, 5))]
  }

  lemma {:induction false} FirstTwoRounds()
    ensures Arises(Completion([Tally(1, 3)], 3), ThreeRounds()[0])
    ensures Arises(Completion([Tally(2, 5)], 5), ThreeRounds()[1])
  {
    TwoLinesHold(3, 0);
    TwoPositionsHold(None, None, 3, 0);
    TwoLinesHold(3, 2);
    TwoPositionsHold(Some(2), Some(2), 3, 2);
    TallyOneMore([], Tally(2, 5));
    assert [] + [Tally(2, 5)] == [Tally(2, 5)];
    assert TallyEmployees([Tally(2, 5)]) == [2];
  }

  lemma {:induction false} LastRound()
    ensures Arises(Completion([Tally(1, 3), Tally(2, 5)], 8), ThreeRounds()[2])
    ensures UncheckedTotal(ThreeRounds()[2].positions, ThreeRounds()[2].lines) == 0
  {
    var t, u := Tally(1, 3), Tally(2, 5);
    TwoLinesHold(3, 5);
    TwoPositionsHold(Some(1), Some(2), 3, 5);
    TwoAddUp(Record(1, 3, 3), Record(2, 5, 2), t, u);
    assert TallyEmployees([t, u]) == [1, 2];
  }

  /**
   * A booking that was capped keeps its key: when the cap is lifted later, the same count is
   * taken for a retry. In the last of the three rounds all eight pieces are counted and
   * checked; five are booked, because both keys are used up and nothing is wanted any more.
   */
  lemma {:induction false} CappedKeyBlocksTheRest() returns (earlier: seq<Completion>, last: Completion)
    ensures |earlier| == 2 && Arises(earlier[0], ThreeRounds()[0]) && Arises(earlier[1], ThreeRounds()[1])
    ensures Arises(last, ThreeRounds()[2]) && last.counted == 8
    ensures UncheckedTotal(ThreeRounds()[2].positions, ThreeRounds()[2].lines) == 0
    ensures Booked(Ledgered(earlier)) == 5 && TotalWanted(Ledgered(earlier), last.tally) == 0
    ensures Booked(Ledgered(earlier + [last])) == 5
  {
    var t, u := Tally(1, 3), Tally(2, 5);
    var r, q := Record(1, 3, 3), Record(2, 5, 2);
    earlier, last := [Completion([t], 3), Completion([u], 5)], Completion([t, u], 8);
    FirstTwoRounds();
    LastRound();
    CappedBookings();
    LedgeredMore(earlier, last);
    assert r in [r, q] && q in [r, q];
    KeysStopBooking([r, q], t, u, 8);
    TwoAddUp(r, q, t, u);
    assert [t, u][..1] == [t] && [t][..0] == [];
    assert Wanted([r, q], t) == 0 && Wanted([r, q], u) == 0;
    assert TotalWanted([r, q], [t]) == 0;
  }

  lemma LedgeredMore(completions: seq<Completion>, c: Completion)
    ensures Ledgered(completions + [c]) == AfterAll(Ledgered(completions), c.tally, c.counted)
    ensures Peak(completions + [c]) >= c.counted
  {
  }
}
