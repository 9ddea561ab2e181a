/**
 * Splitting a case (cases/case-split.ts): which goods go into which part. Size lines stay
 * whole and in shelf order; a part takes lines until its target is reached, or until every
 * line left is needed to keep a later part from being empty.
 */
module CaseSplit {
  import opened Sorting

  datatype SkuLine = SkuLine(id: nat, ean: string, size: string, expectedQuantity: int)
  datatype Position = Position(id: nat, positionNo: int, skuLines: seq<SkuLine>)
  datatype Entry = Entry(position: Position, line: SkuLine)
  datatype AllocatedPosition = AllocatedPosition(source: Position, skuLines: seq<SkuLine>, quantity: int)
  datatype PartAllocation = PartAllocation(targetQuantity: int, quantity: int, positions: seq<AllocatedPosition>)
  datatype Refusal = TooFewParts | BadTarget | TooFewLines
  datatype Allocation = Parts(parts: seq<PartAllocation>) | NotPossible(why: Refusal)

  // ---------------------------------------------------------------- the line list

  function ByPositionNo(): (Position, Position) -> bool {
    (a: Position, b: Position) => a.positionNo <= b.positionNo
  }

  function EntriesOf(p: Position, lines: seq<SkuLine>): seq<Entry> {
    seq(|lines|, i requires 0 <= i < |lines| => Entry(p, lines[i]))
  }

  function Flattened(positions: seq<Position>, le: (SkuLine, SkuLine) -> bool): seq<Entry> {
    if positions == [] then []
    else EntriesOf(positions[0], SortBy(le, positions[0].skuLines)) + Flattened(positions[1..], le)
  }

  /** All size lines in shelf order: by position number, within a position by the line order `le`. */
  function Lines(positions: seq<Position>, le: (SkuLine, SkuLine) -> bool): seq<Entry> {
    Flattened(SortBy(ByPositionNo(), positions), le)
  }

  function Quantity(entries: seq<Entry>): int {
    if entries == [] then 0
    else Quantity(entries[..|entries| - 1]) + entries[|entries| - 1].line.expectedQuantity
  }

  /** A line joins the last allocated position when it comes from the same source position. */
  function AddLine(ps: seq<AllocatedPosition>, e: Entry): seq<AllocatedPosition> {
    var n := |ps| - 1;
    if n >= 0 && ps[n].source.id == e.position.id then
      ps[..n] + [ps[n].(skuLines := ps[n].skuLines + [e.line], quantity := ps[n].quantity + e.line.expectedQuantity)]
    else
      ps + [AllocatedPosition(e.position, [e.line], e.line.expectedQuantity)]
  }

  function Grouped(entries: seq<Entry>): seq<AllocatedPosition> {
    if entries == [] then [] else AddLine(Grouped(entries[..|entries| - 1]), entries[|entries| - 1])
  }

  // ---------------------------------------------------------------- the cuts

  /** Part `p`, filled with the lines `from..to`, is finished: target reached, or every line left needed elsewhere. */
  predicate Full(lines: seq<Entry>, targets: seq<int>, p: nat, from: nat, to: nat)
    requires p < |targets| && from <= to <= |lines|
  {
    Quantity(lines[from..to]) >= targets[p] || |lines| - to <= |targets| - 1 - p
  }

  ghost predicate InRange(lines: seq<Entry>, cut: seq<nat>, p: nat) {
    p + 1 < |cut| && cut[p] < cut[p + 1] <= |lines|
  }

  /** The lines of part `p`: those between its two cuts. */
  ghost function PartLines(lines: seq<Entry>, cut: seq<nat>, p: nat): seq<Entry> {
    if InRange(lines, cut, p) then lines[cut[p]..cut[p + 1]] else []
  }

  /** Part `p` gets at least one line, and no more than it takes to be finished. */
  ghost predicate CutAt(lines: seq<Entry>, targets: seq<int>, cut: seq<nat>, p: nat)
    requires p < |targets|
  {
    && InRange(lines, cut, p)
    && (p < |targets| - 1 ==> Full(lines, targets, p, cut[p], cut[p + 1]))
    && (p < |targets| - 1 ==> forall j :: cut[p] < j < cut[p + 1] ==> !Full(lines, targets, p, cut[p], j))
  }

  ghost predicate IsCut(lines: seq<Entry>, targets: seq<int>, cut: seq<nat>) {
    && |cut| == |targets| + 1 && cut[0] == 0 && cut[|targets|] == |lines|
    && forall p :: 0 <= p < |targets| ==> CutAt(lines, targets, cut, p)
  }

  function PartOf(target: int, lines: seq<Entry>): PartAllocation {
    PartAllocation(target, Quantity(lines), Grouped(lines))
  }

  ghost predicate FollowsCut(lines: seq<Entry>, targets: seq<int>, cut: seq<nat>, parts: seq<PartAllocation>) {
    && |parts| == |targets|
    && forall p :: 0 <= p < |targets| ==> parts[p] == PartOf(targets[p], PartLines(lines, cut, p))
  }

  method AllocateParts(positions: seq<Position>, targets: seq<int>, le: (SkuLine, SkuLine) -> bool)
    returns (allocation: Allocation)
    ensures allocation == NotPossible(TooFewParts) <==> |targets| < 2
    ensures allocation == NotPossible(BadTarget) <==> |targets| >= 2 && exists t :: t in targets && t <= 0
    ensures allocation == NotPossible(TooFewLines) <==>
      |targets| >= 2 && (forall t :: t in targets ==> t > 0) && |Lines(positions, le)| < |targets|
    ensures allocation.Parts? ==> exists cut ::
      IsCut(Lines(positions, le), targets, cut) && FollowsCut(Lines(positions, le), targets, cut, allocation.parts)
    ensures allocation.Parts? ==> InShelfOrder(allocation.parts)
  {
    if |targets| < 2 {
      return NotPossible(TooFewParts);
    }
    if exists t :: t in targets && t <= 0 {
      return NotPossible(BadTarget);
    }
    var lines := Lines(positions, le);
    if |lines| < |targets| {
      return NotPossible(TooFewLines);
    }
    var parts, cut := Fill(lines, targets);
    AllPartsFollowShelf(positions, le, targets, cut, parts);
    allocation := Parts(parts);
  }

  /** The first `index` parts are finished. */
  ghost predicate Finished(lines: seq<Entry>, targets: seq<int>, cut: seq<nat>, parts: seq<PartAllocation>, index: nat)
    requires index <= |targets| == |parts|
  {
    && |cut| == index + 1 && cut[0] == 0
    && (forall p :: 0 <= p < index ==> CutAt(lines, targets, cut, p))
    && (forall p :: 0 <= p < index ==> parts[p] == PartOf(targets[p], PartLines(lines, cut, p)))
  }

  lemma PartFinished(lines: seq<Entry>, targets: seq<int>, cut: seq<nat>, parts: seq<PartAllocation>, index: nat, end: nat)
    requires index < |targets| == |parts| && Finished(lines, targets, cut, parts, index)
    requires cut[index] < end <= |lines| && parts[index] == PartOf(targets[index], lines[cut[index]..end])
    requires index < |targets| - 1 ==> Full(lines, targets, index, cut[index], end)
    requires index < |targets| - 1 ==> forall j :: cut[index] < j < end ==> !Full(lines, targets, index, cut[index], j)
    ensures Finished(lines, targets, cut + [end], parts, index + 1)
  {
    var longer := cut + [end];
    assert CutAt(lines, targets, longer, index);
    forall p | 0 <= p < index
      ensures CutAt(lines, targets, longer, p) && PartLines(lines, longer, p) == PartLines(lines, cut, p)
    {
      assert CutAt(lines, targets, cut, p);
    }
  }

  /** Part `index` has taken the lines `from..i`; there are lines enough for the parts behind it. */
  ghost predicate Filling(lines: seq<Entry>, targets: seq<int>, part: PartAllocation, index: nat, from: nat, i: nat)
    requires index < |targets| && from <= i <= |lines|
  {
    && part == PartOf(targets[index], lines[from..i])
    && (index < |targets| - 1 ==> forall j :: from < j <= i ==> !Full(lines, targets, index, from, j))
    && |lines| - i >= |targets| - index - (if from == i then 0 else 1)
  }

  function TakeLine(part: PartAllocation, e: Entry): PartAllocation {
    part.(positions := AddLine(part.positions, e), quantity := part.quantity + e.line.expectedQuantity)
  }

  lemma OneMoreLine(target: int, entries: seq<Entry>, e: Entry)
    ensures PartOf(target, entries + [e]) == TakeLine(PartOf(target, entries), e)
  {
  }

  /** Whether the next part begins once line `i` is in part `index`. */
  predicate Advances(lines: seq<Entry>, targets: seq<int>, part: PartAllocation, index: nat, i: nat)
    requires index < |targets|
  {
    var partsLeftToFill := |targets| - index - 1;
    var linesLeft := |lines| - i - 1;
    partsLeftToFill > 0 && (part.quantity >= part.targetQuantity || linesLeft <= partsLeftToFill)
  }

  lemma {:induction false} LineAdded(lines: seq<Entry>, targets: seq<int>, part: PartAllocation, index: nat, from: nat, i: nat)
    returns (now: PartAllocation)
    requires index < |targets| && from <= i < |lines| && Filling(lines, targets, part, index, from, i)
    ensures now == TakeLine(part, lines[i]) && now == PartOf(targets[index], lines[from..i + 1])
    ensures if Advances(lines, targets, now, index, i)
            then Full(lines, targets, index, from, i + 1) && |lines| - (i + 1) >= |targets| - (index + 1)
            else Filling(lines, targets, now, index, from, i + 1)
  {
    now := TakeLine(part, lines[i]);
    OneMoreLine(targets[index], lines[from..i], lines[i]);
    assert lines[from..i + 1] == lines[from..i] + [lines[i]];
    if index < |targets| - 1 && from < i {
      assert !Full(lines, targets, index, from, i);
    }
  }

  lemma PartOpened(lines: seq<Entry>, targets: seq<int>, index: nat, i: nat)
    requires index < |targets| && i <= |lines| && |lines| - i >= |targets| - index
    ensures Filling(lines, targets, PartAllocation(targets[index], 0, []), index, i, i)
  {
  }

  /** Where the pass stands before line `i`. */
  ghost predicate AtLine(lines: seq<Entry>, targets: seq<int>, cut: seq<nat>, parts: seq<PartAllocation>, index: nat, i: nat) {
    && i <= |lines| && index < |targets| == |parts|
    && Finished(lines, targets, cut, parts, index) && cut[index] <= i
    && Filling(lines, targets, parts[index], index, cut[index], i)
    && forall p :: index < p < |targets| ==> parts[p] == PartAllocation(targets[p], 0, [])
  }

  lemma FinishedFrame(lines: seq<Entry>, targets: seq<int>, cut: seq<nat>, parts: seq<PartAllocation>, index: nat, part: PartAllocation)
    requires index < |targets| == |parts| && Finished(lines, targets, cut, parts, index)
    ensures Finished(lines, targets, cut, parts[index := part], index)
  {
  }

  lemma {:induction false} PassStays(lines: seq<Entry>, targets: seq<int>, cut: seq<nat>, parts: seq<PartAllocation>, index: nat, i: nat)
    requires AtLine(lines, targets, cut, parts, index, i) && i < |lines|
    requires !Advances(lines, targets, TakeLine(parts[index], lines[i]), index, i)
    ensures AtLine(lines, targets, cut, parts[index := TakeLine(parts[index], lines[i])], index, i + 1)
  {
    var part := LineAdded(lines, targets, parts[index], index, cut[index], i);
    FinishedFrame(lines, targets, cut, parts, index, part);
  }

  lemma {:induction false} PassAdvances(lines: seq<Entry>, targets: seq<int>, cut: seq<nat>, parts: seq<PartAllocation>, index: nat, i: nat)
    requires AtLine(lines, targets, cut, parts, index, i) && i < |lines|
    requires Advances(lines, targets, TakeLine(parts[index], lines[i]), index, i)
    ensures AtLine(lines, targets, cut + [i + 1], parts[index := TakeLine(parts[index], lines[i])], index + 1, i + 1)
  {
    var part := LineAdded(lines, targets, parts[index], index, cut[index], i);
    FinishedFrame(lines, targets, cut, parts, index, part);
    PassMoves(lines, targets, cut, parts[index := part], index, i + 1);
  }

  lemma PassMoves(lines: seq<Entry>, targets: seq<int>, cut: seq<nat>, parts: seq<PartAllocation>, index: nat, end: nat)
    requires index < |targets| - 1 && |targets| == |parts| && end <= |lines|
    requires Finished(lines, targets, cut, parts, index) && cut[index] < end
    requires parts[index] == PartOf(targets[index], lines[cut[index]..end])
    requires Full(lines, targets, index, cut[index], end)
    requires forall j :: cut[index] < j < end ==> !Full(lines, targets, index, cut[index], j)
    requires |lines| - end >= |targets| - (index + 1)
    requires forall p :: index < p < |targets| ==> parts[p] == PartAllocation(targets[p], 0, [])
    ensures AtLine(lines, targets, cut + [end], parts, index + 1, end)
  {
    PartFinished(lines, targets, cut, parts, index, end);
    PartOpened(lines, targets, index + 1, end);
  }

  datatype Pass = Pass(parts: seq<PartAllocation>, index: nat)

  function PassNext(pass: Pass, lines: seq<Entry>, targets: seq<int>, i: nat): Pass
    requires i < |lines| && pass.index < |targets| == |pass.parts|
    ensures PassNext(pass, lines, targets, i).index < |targets| == |PassNext(pass, lines, targets, i).parts|
  {
    var part := TakeLine(pass.parts[pass.index], lines[i]);
    Pass(pass.parts[pass.index := part], if Advances(lines, targets, part, pass.index, i) then pass.index + 1 else pass.index)
  }

  /** The pass before line `i`. */
  ghost function PassAt(lines: seq<Entry>, targets: seq<int>, i: nat): Pass
    requires targets != [] && i <= |lines|
    ensures PassAt(lines, targets, i).index < |targets| == |PassAt(lines, targets, i).parts|
  {
    if i == 0 then Pass(seq(|targets|, p requires 0 <= p < |targets| => PartAllocation(targets[p], 0, [])), 0)
    else PassNext(PassAt(lines, targets, i - 1), lines, targets, i - 1)
  }

  lemma {:induction false} PassStep(lines: seq<Entry>, targets: seq<int>, cut: seq<nat>, before: Pass, i: nat)
    returns (now: Pass, longer: seq<nat>)
    requires i < |lines| && before.index < |targets| == |before.parts|
    requires AtLine(lines, targets, cut, before.parts, before.index, i)
    ensures now == PassNext(before, lines, targets, i) && AtLine(lines, targets, longer, now.parts, now.index, i + 1)
  {
    var index := before.index;
    var part := TakeLine(before.parts[index], lines[i]);
    if Advances(lines, targets, part, index, i) {
      PassAdvances(lines, targets, cut, before.parts, index, i);
      now, longer := Pass(before.parts[index := part], index + 1), cut + [i + 1];
    } else {
      PassStays(lines, targets, cut, before.parts, index, i);
      now, longer := Pass(before.parts[index := part], index), cut;
    }
  }

  lemma {:induction false} PassHasCut(lines: seq<Entry>, targets: seq<int>, i: nat) returns (pass: Pass, cut: seq<nat>)
    requires 2 <= |targets| <= |lines| && i <= |lines|
    ensures pass == PassAt(lines, targets, i) && AtLine(lines, targets, cut, pass.parts, pass.index, i)
  {
    if i == 0 {
      PartOpened(lines, targets, 0, 0);
      pass, cut := PassAt(lines, targets, 0), [0];
    } else {
      var before, shorter := PassHasCut(lines, targets, i - 1);
      pass, cut := PassStep(lines, targets, shorter, before, i - 1);
    }
  }

  lemma PassEnds(lines: seq<Entry>, targets: seq<int>, cut: seq<nat>, parts: seq<PartAllocation>, index: nat)
    requires AtLine(lines, targets, cut, parts, index, |lines|)
    ensures IsCut(lines, targets, cut + [|lines|]) && FollowsCut(lines, targets, cut + [|lines|], parts)
  {
    PartFinished(lines, targets, cut, parts, index, |lines|);
  }

  /** The greedy pass over the lines. */
  method Fill(lines: seq<Entry>, targets: seq<int>) returns (parts: seq<PartAllocation>, ghost cut: seq<nat>)
    requires 2 <= |targets| <= |lines|
    ensures IsCut(lines, targets, cut) && FollowsCut(lines, targets, cut, parts)
  {
    parts := seq(|targets|, p requires 0 <= p < |targets| => PartAllocation(targets[p], 0, []));
    var index, i := 0, 0;
    while i < |lines|
      invariant i <= |lines|
      invariant Pass(parts, index) == PassAt(lines, targets, i)
    {
      var part := TakeLine(parts[index], lines[i]);
      parts := parts[index := part];
      if Advances(lines, targets, part, index, i) {
        index := index + 1;
      }
      i := i + 1;
    }
    ghost var pass;
    pass, cut := PassHasCut(lines, targets, i);
    PassEnds(lines, targets, cut, parts, index);
    cut := cut + [i];
  }

  // ---------------------------------------------------------------- what the allocation guarantees

  /** The greedy rule leaves no choice. */
  lemma {:induction false} CutIsDetermined(lines: seq<Entry>, targets: seq<int>, cut: seq<nat>, other: seq<nat>, p: nat)
    requires targets != [] && IsCut(lines, targets, cut) && IsCut(lines, targets, other) && p <= |targets|
    ensures cut[p] == other[p]
  {
    if 0 < p < |targets| {
      var q := p - 1;
      CutIsDetermined(lines, targets, cut, other, q);
      assert CutAt(lines, targets, cut, q) && CutAt(lines, targets, other, q);
      var f, g := Full(lines, targets, q, cut[q], cut[p]), Full(lines, targets, q, cut[q], other[p]);
    }
  }

  /** The lines of a part, read back: which source position each came from. */
  function Tagged(entries: seq<Entry>): seq<(nat, SkuLine)> {
    if entries == [] then []
    else Tagged(entries[..|entries| - 1]) + [(entries[|entries| - 1].position.id, entries[|entries| - 1].line)]
  }

  function TaggedLines(id: nat, lines: seq<SkuLine>): seq<(nat, SkuLine)> {
    seq(|lines|, i requires 0 <= i < |lines| => (id, lines[i]))
  }

  function ReadBack(ps: seq<AllocatedPosition>): seq<(nat, SkuLine)> {
    if ps == [] then []
    else ReadBack(ps[..|ps| - 1]) + TaggedLines(ps[|ps| - 1].source.id, ps[|ps| - 1].skuLines)
  }

  function ReadBackAll(parts: seq<PartAllocation>): seq<(nat, SkuLine)> {
    if parts == [] then [] else ReadBackAll(parts[..|parts| - 1]) + ReadBack(parts[|parts| - 1].positions)
  }

  /** What one source position contributes to one part. */
  ghost predicate IsSummed(p: AllocatedPosition) {
    p.skuLines != [] && p.quantity == Quantity(EntriesOf(p.source, p.skuLines))
  }

  function Total(ps: seq<AllocatedPosition>): int {
    if ps == [] then 0 else Total(ps[..|ps| - 1]) + ps[|ps| - 1].quantity
  }

  lemma JoinedReadsBack(p: AllocatedPosition, e: Entry)
    requires IsSummed(p)
    ensures var q := p.(skuLines := p.skuLines + [e.line], quantity := p.quantity + e.line.expectedQuantity);
      && IsSummed(q)
      && TaggedLines(p.source.id, q.skuLines) == TaggedLines(p.source.id, p.skuLines) + [(p.source.id, e.line)]
  {
    var lines := p.skuLines + [e.line];
    assert EntriesOf(p.source, lines)[..|p.skuLines|] == EntriesOf(p.source, p.skuLines);
  }

  lemma StartedReadsBack(e: Entry)
    ensures IsSummed(AllocatedPosition(e.position, [e.line], e.line.expectedQuantity))
    ensures TaggedLines(e.position.id, [e.line]) == [(e.position.id, e.line)]
  {
  }

  lemma {:induction false} ReadBackOneMore(ps: seq<AllocatedPosition>, p: AllocatedPosition)
    ensures ReadBack(ps + [p]) == ReadBack(ps) + TaggedLines(p.source.id, p.skuLines)
    ensures Total(ps + [p]) == Total(ps) + p.quantity
  {
  }

  lemma {:induction false} AddLineReadsBack(ps: seq<AllocatedPosition>, e: Entry)
    requires forall i :: 0 <= i < |ps| ==> IsSummed(ps[i])
    ensures ReadBack(AddLine(ps, e)) == ReadBack(ps) + [(e.position.id, e.line)]
    ensures Total(AddLine(ps, e)) == Total(ps) + e.line.expectedQuantity
    ensures forall i :: 0 <= i < |AddLine(ps, e)| ==> IsSummed(AddLine(ps, e)[i])
  {
    var n := |ps| - 1;
    if n >= 0 && ps[n].source.id == e.position.id {
      var q := ps[n].(skuLines := ps[n].skuLines + [e.line], quantity := ps[n].quantity + e.line.expectedQuantity);
      JoinedReadsBack(ps[n], e);
      ReadBackOneMore(ps[..n], ps[n]);
      ReadBackOneMore(ps[..n], q);
      assert ps == ps[..n] + [ps[n]];
    } else {
      StartedReadsBack(e);
      ReadBackOneMore(ps, AllocatedPosition(e.position, [e.line], e.line.expectedQuantity));
    }
  }

  /** Grouping by position loses nothing, keeps the order, and books each position's own sum. */
  lemma {:induction false} GroupedReadsBack(entries: seq<Entry>)
    ensures ReadBack(Grouped(entries)) == Tagged(entries)
    ensures Total(Grouped(entries)) == Quantity(entries)
    ensures forall i :: 0 <= i < |Grouped(entries)| ==> IsSummed(Grouped(entries)[i])
  {
    if entries != [] {
      GroupedReadsBack(entries[..|entries| - 1]);
      AddLineReadsBack(Grouped(entries[..|entries| - 1]), entries[|entries| - 1]);
    }
  }

  lemma {:induction false} TaggedConcat(a: seq<Entry>, b: seq<Entry>)
    ensures Tagged(a + b) == Tagged(a) + Tagged(b)
    ensures Quantity(a + b) == Quantity(a) + Quantity(b)
  {
    if b == [] {
      assert a + b == a;
    } else {
      TaggedConcat(a, b[..|b| - 1]);
      assert (a + b)[..|a + b| - 1] == a + b[..|b| - 1];
    }
  }

  /** The lines up to a cut are those up to the one before and the part between. */
  lemma PrefixGrows(lines: seq<Entry>, targets: seq<int>, cut: seq<nat>, p: nat)
    requires IsCut(lines, targets, cut) && p < |targets|
    ensures cut[p] < cut[p + 1] <= |lines|
    ensures Tagged(lines[..cut[p + 1]]) == Tagged(lines[..cut[p]]) + Tagged(PartLines(lines, cut, p))
    ensures Quantity(lines[..cut[p + 1]]) == Quantity(lines[..cut[p]]) + Quantity(PartLines(lines, cut, p))
  {
    assert CutAt(lines, targets, cut, p);
    TaggedConcat(lines[..cut[p]], lines[cut[p]..cut[p + 1]]);
    assert lines[..cut[p + 1]] == lines[..cut[p]] + lines[cut[p]..cut[p + 1]];
  }

  lemma {:induction false} ReadBackPrefix(lines: seq<Entry>, targets: seq<int>, cut: seq<nat>, parts: seq<PartAllocation>, p: nat)
    requires IsCut(lines, targets, cut) && FollowsCut(lines, targets, cut, parts) && p <= |targets|
    ensures cut[p] <= |lines| && ReadBackAll(parts[..p]) == Tagged(lines[..cut[p]])
  {
    if p > 0 {
      ReadBackPrefix(lines, targets, cut, parts, p - 1);
      assert parts[..p][..p - 1] == parts[..p - 1];
      PrefixGrows(lines, targets, cut, p - 1);
      GroupedReadsBack(PartLines(lines, cut, p - 1));
    }
  }

  /**
   * The parts, read one after the other, are exactly the line list: nothing lost, nothing
   * doubled, no line torn, the order kept, no part empty, every quantity the sum of its lines.
   */
  lemma PartsArePartition(lines: seq<Entry>, targets: seq<int>, cut: seq<nat>, parts: seq<PartAllocation>)
    requires IsCut(lines, targets, cut) && FollowsCut(lines, targets, cut, parts)
    ensures ReadBackAll(parts) == Tagged(lines)
    ensures forall p :: 0 <= p < |parts| ==>
      && parts[p].positions != []
      && parts[p].quantity == Total(parts[p].positions)
      && (forall i :: 0 <= i < |parts[p].positions| ==> IsSummed(parts[p].positions[i]))
  {
    ReadBackPrefix(lines, targets, cut, parts, |targets|);
    assert parts[..|targets|] == parts && lines[..cut[|targets|]] == lines;
    forall p | 0 <= p < |parts| ensures
      && parts[p].positions != [] && parts[p].quantity == Total(parts[p].positions)
      && forall i :: 0 <= i < |parts[p].positions| ==> IsSummed(parts[p].positions[i])
    {
      assert CutAt(lines, targets, cut, p);
      GroupedReadsBack(PartLines(lines, cut, p));
    }
  }

  /** Every part but the last is below its target without its own last line. */
  lemma BelowTargetBeforeLastLine(lines: seq<Entry>, targets: seq<int>, cut: seq<nat>, parts: seq<PartAllocation>, p: nat)
    requires IsCut(lines, targets, cut) && FollowsCut(lines, targets, cut, parts)
    requires p < |targets| - 1 && targets[p] > 0
    ensures 0 < cut[p + 1] <= |lines|
    ensures parts[p].quantity - lines[cut[p + 1] - 1].line.expectedQuantity < parts[p].targetQuantity
  {
    assert CutAt(lines, targets, cut, p);
    var j := cut[p + 1] - 1;
    assert PartLines(lines, cut, p)[..j - cut[p]] == lines[cut[p]..j];
    if j > cut[p] {
      assert !Full(lines, targets, p, cut[p], j);
    } else {
      assert Quantity(lines[cut[p]..j]) == 0;
    }
  }

  lemma {:induction false} CutsAreApart(lines: seq<Entry>, targets: seq<int>, cut: seq<nat>, p: nat, q: nat)
    requires IsCut(lines, targets, cut) && p <= q <= |targets|
    ensures cut[q] - cut[p] >= q - p
    decreases q - p
  {
    if p < q {
      CutsAreApart(lines, targets, cut, p, q - 1);
      assert CutAt(lines, targets, cut, q - 1);
    }
  }

  /** A part that misses its target was cut short for the later ones: each of them has exactly one line. */
  lemma ShortPartLeavesSingles(lines: seq<Entry>, targets: seq<int>, cut: seq<nat>, parts: seq<PartAllocation>, p: nat, q: nat)
    requires IsCut(lines, targets, cut) && FollowsCut(lines, targets, cut, parts)
    requires p < |targets| - 1 && parts[p].quantity < parts[p].targetQuantity && p < q < |targets|
    ensures |PartLines(lines, cut, q)| == 1
  {
    CutsAreApart(lines, targets, cut, p + 1, q);
    CutsAreApart(lines, targets, cut, q + 1, |targets|);
    assert CutAt(lines, targets, cut, p);
    assert CutAt(lines, targets, cut, q);
  }

  function SumOf(xs: seq<int>): int {
    if xs == [] then 0 else SumOf(xs[..|xs| - 1]) + xs[|xs| - 1]
  }

  function Quantities(parts: seq<PartAllocation>): seq<int> {
    seq(|parts|, p requires 0 <= p < |parts| => parts[p].quantity)
  }

  lemma {:induction false} SumOneMore(xs: seq<int>, p: nat)
    requires 0 < p <= |xs|
    ensures SumOf(xs[..p]) == SumOf(xs[..p - 1]) + xs[p - 1]
  {
    assert xs[..p][..p - 1] == xs[..p - 1];
  }

  lemma {:induction false} QuantitiesUpTo(lines: seq<Entry>, targets: seq<int>, cut: seq<nat>, parts: seq<PartAllocation>, p: nat)
    requires IsCut(lines, targets, cut) && FollowsCut(lines, targets, cut, parts) && p <= |targets|
    ensures cut[p] <= |lines| && SumOf(Quantities(parts)[..p]) == Quantity(lines[..cut[p]])
  {
    if p > 0 {
      QuantitiesUpTo(lines, targets, cut, parts, p - 1);
      PrefixGrows(lines, targets, cut, p - 1);
      SumOneMore(Quantities(parts), p);
    }
  }

  /** The parts' quantities add up to the quantity of the whole case. */
  lemma QuantitiesAddUp(lines: seq<Entry>, targets: seq<int>, cut: seq<nat>, parts: seq<PartAllocation>)
    requires IsCut(lines, targets, cut) && FollowsCut(lines, targets, cut, parts)
    ensures SumOf(Quantities(parts)) == Quantity(lines)
  {
    QuantitiesUpTo(lines, targets, cut, parts, |targets|);
    assert Quantities(parts)[..|targets|] == Quantities(parts) && lines[..cut[|targets|]] == lines;
  }

  lemma {:induction false} SumIsMonotone(a: seq<int>, b: seq<int>)
    requires |a| == |b| && forall i :: 0 <= i < |a| ==> a[i] <= b[i]
    ensures SumOf(a) <= SumOf(b)
  {
    if a != [] {
      SumIsMonotone(a[..|a| - 1], b[..|a| - 1]);
    }
  }

  /** When every other part reaches its target, the last one does not exceed its own. */
  lemma LastPartWithinTarget(lines: seq<Entry>, targets: seq<int>, cut: seq<nat>, parts: seq<PartAllocation>)
    requires targets != [] && IsCut(lines, targets, cut) && FollowsCut(lines, targets, cut, parts)
    requires SumOf(targets) == Quantity(lines)
    requires forall p :: 0 <= p < |targets| - 1 ==> parts[p].quantity >= parts[p].targetQuantity
    ensures parts[|targets| - 1].quantity <= parts[|targets| - 1].targetQuantity
  {
    var k := |targets| - 1;
    QuantitiesAddUp(lines, targets, cut, parts);
    forall i | 0 <= i < k ensures targets[..k][i] <= Quantities(parts)[..k][i] {
      assert parts[i].quantity >= parts[i].targetQuantity;
    }
    SumIsMonotone(targets[..k], Quantities(parts)[..k]);
  }

  // ---------------------------------------------------------------- no goods are lost

  /** All size lines of the case, whatever their order. */
  function Goods(positions: seq<Position>): multiset<(nat, SkuLine)> {
    if positions == [] then multiset{}
    else multiset(TaggedLines(positions[0].id, positions[0].skuLines)) + Goods(positions[1..])
  }

  lemma {:induction false} InsertKeepsGoods(le: (Position, Position) -> bool, p: Position, ps: seq<Position>)
    ensures Goods(InsertBy(le, p, ps)) == multiset(TaggedLines(p.id, p.skuLines)) + Goods(ps)
  {
    if ps != [] {
      if le(p, ps[0]) {
        assert ([p] + ps)[1..] == ps;
      } else {
        InsertKeepsGoods(le, p, ps[1..]);
        assert ([ps[0]] + InsertBy(le, p, ps[1..]))[1..] == InsertBy(le, p, ps[1..]);
      }
    } else {
      assert [p][1..] == ps;
    }
  }

  lemma {:induction false} SortKeepsGoods(le: (Position, Position) -> bool, ps: seq<Position>)
    ensures Goods(SortBy(le, ps)) == Goods(ps)
  {
    if ps != [] {
      SortKeepsGoods(le, ps[1..]);
      InsertKeepsGoods(le, ps[0], SortBy(le, ps[1..]));
    }
  }

  lemma {:induction false} TaggedFront(id: nat, x: SkuLine, ls: seq<SkuLine>)
    ensures multiset(TaggedLines(id, [x] + ls)) == multiset{(id, x)} + multiset(TaggedLines(id, ls))
  {
    assert TaggedLines(id, [x] + ls) == [(id, x)] + TaggedLines(id, ls);
  }

  lemma {:induction false} InsertKeepsLines(le: (SkuLine, SkuLine) -> bool, id: nat, x: SkuLine, ls: seq<SkuLine>)
    ensures multiset(TaggedLines(id, InsertBy(le, x, ls))) == multiset{(id, x)} + multiset(TaggedLines(id, ls))
  {
    if ls == [] || le(x, ls[0]) {
      TaggedFront(id, x, ls);
      assert InsertBy(le, x, ls) == [x] + ls;
    } else {
      InsertKeepsLines(le, id, x, ls[1..]);
      TaggedFront(id, ls[0], InsertBy(le, x, ls[1..]));
      TaggedFront(id, ls[0], ls[1..]);
      assert ls == [ls[0]] + ls[1..];
    }
  }

  lemma {:induction false} SortKeepsLines(le: (SkuLine, SkuLine) -> bool, id: nat, ls: seq<SkuLine>)
    ensures multiset(TaggedLines(id, SortBy(le, ls))) == multiset(TaggedLines(id, ls))
  {
    if ls != [] {
      SortKeepsLines(le, id, ls[1..]);
      InsertKeepsLines(le, id, ls[0], SortBy(le, ls[1..]));
      TaggedFront(id, ls[0], ls[1..]);
      assert ls == [ls[0]] + ls[1..];
    }
  }

  lemma {:induction false} EntriesAreTagged(p: Position, ls: seq<SkuLine>)
    ensures Tagged(EntriesOf(p, ls)) == TaggedLines(p.id, ls)
  {
    if ls != [] {
      var n := |ls| - 1;
      EntriesAreTagged(p, ls[..n]);
      assert EntriesOf(p, ls)[..n] == EntriesOf(p, ls[..n]);
      assert TaggedLines(p.id, ls) == TaggedLines(p.id, ls[..n]) + [(p.id, ls[n])];
    }
  }

  lemma {:induction false} FlattenedGoods(positions: seq<Position>, le: (SkuLine, SkuLine) -> bool)
    ensures multiset(Tagged(Flattened(positions, le))) == Goods(positions)
  {
    if positions != [] {
      var p := positions[0];
      FlattenedGoods(positions[1..], le);
      TaggedConcat(EntriesOf(p, SortBy(le, p.skuLines)), Flattened(positions[1..], le));
      EntriesAreTagged(p, SortBy(le, p.skuLines));
      SortKeepsLines(le, p.id, p.skuLines);
    }
  }

  /** The parts together hold every size line of the case exactly once, and nothing else. */
  lemma NoGoodsAreLost(positions: seq<Position>, le: (SkuLine, SkuLine) -> bool, targets: seq<int>, cut: seq<nat>, parts: seq<PartAllocation>)
    requires IsCut(Lines(positions, le), targets, cut) && FollowsCut(Lines(positions, le), targets, cut, parts)
    ensures multiset(ReadBackAll(parts)) == Goods(positions)
  {
    PartsArePartition(Lines(positions, le), targets, cut, parts);
    FlattenedGoods(SortBy(ByPositionNo(), positions), le);
    SortKeepsGoods(ByPositionNo(), positions);
  }

  // ---------------------------------------------------------------- positions stay together

  ghost predicate DistinctIds(positions: seq<Position>) {
    forall i, j :: 0 <= i < j < |positions| ==> positions[i].id != positions[j].id
  }

  /** The lines of one source position follow each other. */
  ghost predicate Contiguous(entries: seq<Entry>) {
    forall i, j, k :: 0 <= i < j < k < |entries| && entries[i].position.id == entries[k].position.id
      ==> entries[j].position.id == entries[i].position.id
  }

  lemma {:induction false} FlattenedSources(positions: seq<Position>, le: (SkuLine, SkuLine) -> bool)
    ensures forall i :: 0 <= i < |Flattened(positions, le)| ==> Flattened(positions, le)[i].position in positions
  {
    if positions != [] {
      FlattenedSources(positions[1..], le);
    }
  }

  lemma {:induction false} FlattenedIsContiguous(positions: seq<Position>, le: (SkuLine, SkuLine) -> bool)
    requires DistinctIds(positions)
    ensures Contiguous(Flattened(positions, le))
  {
    if positions != [] {
      var first := EntriesOf(positions[0], SortBy(le, positions[0].skuLines));
      var rest := Flattened(positions[1..], le);
      FlattenedIsContiguous(positions[1..], le);
      FlattenedSources(positions[1..], le);
      forall k | 0 <= k < |rest| ensures rest[k].position.id != positions[0].id {
        var p :| 0 < p < |positions| && positions[p] == rest[k].position;
      }
      var all := Flattened(positions, le);
      assert forall k :: |first| <= k < |all| ==> all[k] == rest[k - |first|];
      forall i, j, k | 0 <= i < j < k < |all| && all[i].position.id == all[k].position.id
        ensures all[j].position.id == all[i].position.id
      {
        if i >= |first| {
          assert rest[i - |first|].position.id == rest[k - |first|].position.id;
        }
      }
    }
  }

  ghost predicate DistinctSources(ps: seq<AllocatedPosition>) {
    forall i, j :: 0 <= i < j < |ps| ==> ps[i].source.id != ps[j].source.id
  }

  /** The allocated position comes from one of the entries. */
  ghost predicate ComesFrom(p: AllocatedPosition, entries: seq<Entry>) {
    exists k :: 0 <= k < |entries| && entries[k].position.id == p.source.id
  }

  lemma ComesFromLonger(p: AllocatedPosition, entries: seq<Entry>)
    requires entries != [] && ComesFrom(p, entries[..|entries| - 1])
    ensures ComesFrom(p, entries)
    ensures Contiguous(entries) && p.source.id == entries[|entries| - 1].position.id ==>
      entries[|entries| - 2].position.id == p.source.id
  {
  }

  /** Positions appear once each, the last one is the last entry's, and all come from entries. */
  ghost predicate GroupsFit(ps: seq<AllocatedPosition>, entries: seq<Entry>) {
    && DistinctSources(ps)
    && (ps == [] <==> entries == [])
    && (entries != [] ==> ps != [] && ps[|ps| - 1].source.id == entries[|entries| - 1].position.id)
    && (forall i :: 0 <= i < |ps| ==> ComesFrom(ps[i], entries))
  }

  lemma {:induction false} AddLineSources(ps: seq<AllocatedPosition>, e: Entry)
    requires DistinctSources(ps)
    requires forall i :: 0 <= i < |ps| && ps[i].source.id == e.position.id ==> ps[|ps| - 1].source.id == e.position.id
    ensures var r := AddLine(ps, e);
      && DistinctSources(r) && |r| > 0 && r[|r| - 1].source.id == e.position.id
      && |ps| <= |r| <= |ps| + 1
      && (forall i :: 0 <= i < |ps| ==> r[i].source.id == ps[i].source.id)
  {
  }

  lemma {:induction false} GroupsFitStep(ps: seq<AllocatedPosition>, front: seq<Entry>, e: Entry)
    requires GroupsFit(ps, front) && Contiguous(front + [e])
    ensures GroupsFit(AddLine(ps, e), front + [e])
  {
    var entries := front + [e];
    assert entries[..|front|] == front;
    forall i | 0 <= i < |ps| ensures ComesFrom(ps[i], entries)
      && (ps[i].source.id == e.position.id ==> front != [] && front[|front| - 1].position.id == ps[i].source.id)
    {
      ComesFromLonger(ps[i], entries);
    }
    AddLineSources(ps, e);
    var r := AddLine(ps, e);
    forall i | 0 <= i < |r| ensures ComesFrom(r[i], entries) {
      if i < |ps| {
        assert ComesFrom(ps[i], entries);
      } else {
        assert entries[|front|].position.id == r[i].source.id;
      }
    }
  }

  lemma {:induction false} GroupedSources(entries: seq<Entry>) returns (ps: seq<AllocatedPosition>)
    requires Contiguous(entries)
    ensures ps == Grouped(entries) && GroupsFit(ps, entries)
  {
    ps := [];
    if entries != [] {
      var n := |entries| - 1;
      var before := GroupedSources(entries[..n]);
      assert entries == entries[..n] + [entries[n]];
      GroupsFitStep(before, entries[..n], entries[n]);
      ps := AddLine(before, entries[n]);
    }
  }

  /** A source position appears at most once in a part. */
  lemma PositionOncePerPart(positions: seq<Position>, le: (SkuLine, SkuLine) -> bool, targets: seq<int>, cut: seq<nat>, parts: seq<PartAllocation>, p: nat)
    requires DistinctIds(positions) && p < |targets|
    requires IsCut(Lines(positions, le), targets, cut) && FollowsCut(Lines(positions, le), targets, cut, parts)
    ensures DistinctSources(parts[p].positions)
  {
    var sorted := SortBy(ByPositionNo(), positions);
    SortByProperties(ByPositionNo(), positions);
    SortKeepsIdsDistinct(positions);
    FlattenedIsContiguous(sorted, le);
    var lines := Lines(positions, le);
    assert CutAt(lines, targets, cut, p);
    var part := PartLines(lines, cut, p);
    forall i, j, k | 0 <= i < j < k < |part| && part[i].position.id == part[k].position.id
      ensures part[j].position.id == part[i].position.id
    {
      assert lines[cut[p] + i].position.id == lines[cut[p] + k].position.id;
      assert lines[cut[p] + j].position.id == lines[cut[p] + i].position.id;
    }
    var ps := GroupedSources(part);
  }

  lemma SortKeepsIdsDistinct(positions: seq<Position>)
    requires DistinctIds(positions)
    ensures DistinctIds(SortBy(ByPositionNo(), positions))
  {
    var sorted := SortBy(ByPositionNo(), positions);
    SortByProperties(ByPositionNo(), positions);
    PermutationDistinct(positions, sorted);
    forall i, j | 0 <= i < j < |sorted| ensures sorted[i].id != sorted[j].id {
      assert sorted[i] in multiset(sorted) && sorted[j] in multiset(sorted);
      assert sorted[i] in multiset(positions) && sorted[j] in multiset(positions);
    }
  }

  // ---------------------------------------------------------------- shelf order

  /** Every source of the rest stands behind the first position. */
  lemma RestOfFlattened(positions: seq<Position>, le: (SkuLine, SkuLine) -> bool, k: nat) returns (p: nat)
    requires positions != [] && k < |Flattened(positions[1..], le)|
    ensures 0 < p < |positions| && positions[p] == Flattened(positions[1..], le)[k].position
  {
    FlattenedSources(positions[1..], le);
    p :| 0 <= p < |positions| - 1 && positions[1..][p] == Flattened(positions[1..], le)[k].position;
    p := p + 1;
  }

  lemma {:induction false} FlattenedIsSorted(positions: seq<Position>, le: (SkuLine, SkuLine) -> bool, i: nat, j: nat)
    requires forall p, q :: 0 <= p < q < |positions| ==> positions[p].positionNo <= positions[q].positionNo
    requires i < j < |Flattened(positions, le)|
    ensures Flattened(positions, le)[i].position.positionNo <= Flattened(positions, le)[j].position.positionNo
  {
    var n := |positions[0].skuLines|;
    SortKeepsLength(le, positions[0].skuLines);
    if n <= i {
      FlattenedIsSorted(positions[1..], le, i - n, j - n);
    } else if n <= j {
      var p := RestOfFlattened(positions, le, j - n);
    }
  }

  lemma {:induction false} FlattenedKeepsLineOrder(positions: seq<Position>, le: (SkuLine, SkuLine) -> bool, i: nat, j: nat)
    requires DistinctIds(positions) && TotalPreorder(le)
    requires i < j < |Flattened(positions, le)|
    requires Flattened(positions, le)[i].position.id == Flattened(positions, le)[j].position.id
    ensures le(Flattened(positions, le)[i].line, Flattened(positions, le)[j].line)
  {
    var n := |positions[0].skuLines|;
    SortKeepsLength(le, positions[0].skuLines);
    if n <= i {
      FlattenedKeepsLineOrder(positions[1..], le, i - n, j - n);
    } else if n <= j {
      var p := RestOfFlattened(positions, le, j - n);
    } else {
      SortByProperties(le, positions[0].skuLines);
    }
  }

  lemma {:induction false} SortKeepsLength<T>(le: (T, T) -> bool, xs: seq<T>)
    ensures |SortBy(le, xs)| == |xs|
  {
    if xs != [] {
      SortKeepsLength(le, xs[1..]);
      InsertKeepsLength(le, xs[0], SortBy(le, xs[1..]));
    }
  }

  lemma {:induction false} InsertKeepsLength<T>(le: (T, T) -> bool, x: T, xs: seq<T>)
    ensures |InsertBy(le, x, xs)| == |xs| + 1
  {
    if xs != [] && !le(x, xs[0]) {
      InsertKeepsLength(le, x, xs[1..]);
    }
  }

  /** The line list ascends by position number; the lines of one position ascend in the line order. */
  lemma LinesAreSorted(positions: seq<Position>, le: (SkuLine, SkuLine) -> bool, i: nat, j: nat)
    requires i < j < |Lines(positions, le)|
    ensures var e, f := Lines(positions, le)[i], Lines(positions, le)[j];
      && e.position.positionNo <= f.position.positionNo
      && (DistinctIds(positions) && TotalPreorder(le) && e.position.id == f.position.id ==> le(e.line, f.line))
  {
    var sorted := SortBy(ByPositionNo(), positions);
    SortByProperties(ByPositionNo(), positions);
    forall p, q | 0 <= p < q < |sorted| ensures sorted[p].positionNo <= sorted[q].positionNo {
      assert ByPositionNo()(sorted[p], sorted[q]);
    }
    FlattenedIsSorted(sorted, le, i, j);
    var e, f := Lines(positions, le)[i], Lines(positions, le)[j];
    if DistinctIds(positions) && TotalPreorder(le) && e.position.id == f.position.id {
      SortKeepsIdsDistinct(positions);
      FlattenedKeepsLineOrder(sorted, le, i, j);
    }
  }

  lemma AddLineSource(ps: seq<AllocatedPosition>, e: Entry, i: nat)
    requires i < |AddLine(ps, e)|
    ensures AddLine(ps, e)[i].source == if i < |ps| then ps[i].source else e.position
  {
  }

  ghost predicate IsSourceOf(entries: seq<Entry>, k: int, p: Position) {
    0 <= k < |entries| && entries[k].position == p
  }

  lemma {:induction false} GroupedFromEntries(entries: seq<Entry>, i: nat)
    requires i < |Grouped(entries)|
    ensures exists k :: IsSourceOf(entries, k, Grouped(entries)[i].source)
  {
    var n := |entries| - 1;
    var before := Grouped(entries[..n]);
    AddLineSource(before, entries[n], i);
    if i < |before| {
      GroupedFromEntries(entries[..n], i);
      var k :| IsSourceOf(entries[..n], k, before[i].source);
      assert IsSourceOf(entries, k, before[i].source);
    } else {
      assert IsSourceOf(entries, n, Grouped(entries)[i].source);
    }
  }

  /** Nothing in a later part stands in front of anything in an earlier one. */
  ghost predicate InShelfOrder(parts: seq<PartAllocation>) {
    forall p, q, i, j | 0 <= p < q < |parts| && 0 <= i < |parts[p].positions| && 0 <= j < |parts[q].positions|
      :: parts[p].positions[i].source.positionNo <= parts[q].positions[j].source.positionNo
  }

  lemma {:induction false} SourceBetweenCuts(lines: seq<Entry>, targets: seq<int>, cut: seq<nat>, parts: seq<PartAllocation>, p: nat, i: nat)
    returns (k: nat)
    requires IsCut(lines, targets, cut) && FollowsCut(lines, targets, cut, parts)
    requires p < |parts| && i < |parts[p].positions|
    ensures cut[p] <= k < cut[p + 1] <= |lines| && lines[k].position == parts[p].positions[i].source
  {
    assert CutAt(lines, targets, cut, p);
    GroupedFromEntries(PartLines(lines, cut, p), i);
    var j :| IsSourceOf(PartLines(lines, cut, p), j, parts[p].positions[i].source);
    k := cut[p] + j;
  }

  lemma CutsAscend(lines: seq<Entry>, targets: seq<int>, cut: seq<nat>, p: nat, q: nat)
    requires IsCut(lines, targets, cut) && p <= q <= |targets|
    ensures cut[p] <= cut[q]
  {
    CutsAreApart(lines, targets, cut, p, q);
  }

  lemma {:induction false} LaterPartLaterLine(lines: seq<Entry>, targets: seq<int>, cut: seq<nat>, parts: seq<PartAllocation>, p: nat, q: nat, i: nat, j: nat)
    returns (k: nat, m: nat)
    requires IsCut(lines, targets, cut) && FollowsCut(lines, targets, cut, parts)
    requires p < q < |parts| && i < |parts[p].positions| && j < |parts[q].positions|
    ensures k < m < |lines|
    ensures lines[k].position == parts[p].positions[i].source && lines[m].position == parts[q].positions[j].source
  {
    k := SourceBetweenCuts(lines, targets, cut, parts, p, i);
    m := SourceBetweenCuts(lines, targets, cut, parts, q, j);
    CutsAscend(lines, targets, cut, p + 1, q);
  }

  /** The parts take the shelf in turn: a later part has no position number below one of an earlier part. */
  lemma {:induction false} PartsFollowShelf(positions: seq<Position>, le: (SkuLine, SkuLine) -> bool, targets: seq<int>, cut: seq<nat>,
                         parts: seq<PartAllocation>, p: nat, q: nat, i: nat, j: nat)
    requires IsCut(Lines(positions, le), targets, cut) && FollowsCut(Lines(positions, le), targets, cut, parts)
    requires p < q < |parts| && i < |parts[p].positions| && j < |parts[q].positions|
    ensures parts[p].positions[i].source.positionNo <= parts[q].positions[j].source.positionNo
  {
    var lines := Lines(positions, le);
    var k, m := LaterPartLaterLine(lines, targets, cut, parts, p, q, i, j);
    LinesAreSorted(positions, le, k, m);
  }

  lemma AllPartsFollowShelf(positions: seq<Position>, le: (SkuLine, SkuLine) -> bool, targets: seq<int>, cut: seq<nat>, parts: seq<PartAllocation>)
    requires IsCut(Lines(positions, le), targets, cut) && FollowsCut(Lines(positions, le), targets, cut, parts)
    ensures InShelfOrder(parts)
  {
    forall p, q, i, j | 0 <= p < q < |parts| && 0 <= i < |parts[p].positions| && 0 <= j < |parts[q].positions|
      ensures parts[p].positions[i].source.positionNo <= parts[q].positions[j].source.positionNo
    {
      PartsFollowShelf(positions, le, targets, cut, parts, p, q, i, j);
    }
  }
}
