/**
 * The writes every override of a bundle ends with (cases/bundle-mutations.ts): item
 * sequences are renumbered and route stops follow the new case order. Route stops are
 * unique per (bundle, sequence), so the renumbering goes through negative numbers.
 */
module BundleMutations {
  import opened CaseStatus
  import opened Ids
  import opened Database
  import opened StoreInvariant
  import opened Sorting

  // ---------------------------------------------------------------- items

  /** The cases of a bundle, by ascending sequence; cases with equal numbers come in any order. */
  ghost predicate IsListing(items: map<CaseId, Item>, b: BundleId, order: seq<CaseId>) {
    && Distinct(order)
    && (forall c :: c in order <==> c in items && items[c].bundle == b)
    && (forall i, j :: 0 <= i < j < |order| ==> items[order[i]].sequence <= items[order[j]].sequence)
  }

  /** The items of a bundle are numbered 0, 1, 2, … in the given order. */
  ghost predicate IsGapless(items: map<CaseId, Item>, b: BundleId, order: seq<CaseId>) {
    && Distinct(order)
    && (forall c :: c in order <==> c in items && items[c].bundle == b)
    && (forall i :: 0 <= i < |order| ==> items[order[i]].sequence == i)
  }

  lemma {:induction false} EarliestItem(items: map<CaseId, Item>, rest: set<CaseId>) returns (c: CaseId)
    requires rest != {} && rest <= items.Keys
    ensures c in rest && forall x :: x in rest ==> items[c].sequence <= items[x].sequence
    decreases |rest|
  {
    c :| c in rest;
    if rest != {c} {
      var d := EarliestItem(items, rest - {c});
      if items[d].sequence < items[c].sequence {
        c := d;
      }
    }
  }

  /** Load a bundle's items, ordered by sequence. */
  method ListItems(tx: Tables, b: BundleId) returns (order: seq<CaseId>)
    ensures IsListing(tx.items, b, order)
  {
    var rest := set c | c in tx.items && tx.items[c].bundle == b;
    order := [];
    while rest != {}
      invariant Distinct(order)
      invariant rest <= tx.items.Keys
      invariant forall c :: c in order ==> c !in rest && c in tx.items
      invariant forall c :: c in order || c in rest <==> c in tx.items && tx.items[c].bundle == b
      invariant forall i, j :: 0 <= i < j < |order| ==> tx.items[order[i]].sequence <= tx.items[order[j]].sequence
      invariant forall c, x :: c in order && x in rest ==> tx.items[c].sequence <= tx.items[x].sequence
    {
      ghost var least := EarliestItem(tx.items, rest);
      var c :| c in rest && forall x :: x in rest ==> tx.items[c].sequence <= tx.items[x].sequence;
      order, rest := order + [c], rest - {c};
    }
  }

  /** The item rows after the renumbering; an id that is not in the bundle matches no row. */
  function ResequencedItems(items: map<CaseId, Item>, b: BundleId, order: seq<CaseId>): map<CaseId, Item> {
    if order == [] then items
    else
      var n := |order| - 1;
      var m := ResequencedItems(items, b, order[..n]);
      var c := order[n];
      if c in m && m[c].bundle == b then m[c := m[c].(sequence := n)] else m
  }

  method ResequenceItems(tx: Tables, b: BundleId, order: seq<CaseId>)
    modifies tx`items
    ensures tx.items == ResequencedItems(old(tx.items), b, order)
  {
    var i := 0;
    while i < |order|
      invariant 0 <= i <= |order|
      invariant tx.items == ResequencedItems(old(tx.items), b, order[..i])
    {
      assert order[..i + 1][..i] == order[..i];
      var c := order[i];
      if c in tx.items && tx.items[c].bundle == b {
        tx.items := tx.items[c := tx.items[c].(sequence := i)];
      }
      i := i + 1;
    }
    assert order[..i] == order;
  }

  /** Renumbering touches sequence numbers of this bundle only. */
  lemma {:induction false} ResequencedItemsFrame(items: map<CaseId, Item>, b: BundleId, order: seq<CaseId>)
    ensures var r := ResequencedItems(items, b, order);
      && r.Keys == items.Keys
      && (forall c :: c in items ==> r[c] == items[c].(sequence := r[c].sequence))
      && (forall c :: c in items && (items[c].bundle != b || c !in order) ==> r[c] == items[c])
  {
    if order != [] {
      ResequencedItemsFrame(items, b, order[..|order| - 1]);
      assert order == order[..|order| - 1] + [order[|order| - 1]];
    }
  }

  lemma {:induction false} ResequencedItemsNumbers(items: map<CaseId, Item>, b: BundleId, order: seq<CaseId>)
    requires Distinct(order)
    requires forall c :: c in order ==> c in items && items[c].bundle == b
    ensures var r := ResequencedItems(items, b, order);
      forall i :: 0 <= i < |order| ==> order[i] in r && r[order[i]].sequence == i
  {
    if order != [] {
      var n := |order| - 1;
      ResequencedItemsNumbers(items, b, order[..n]);
      ResequencedItemsFrame(items, b, order[..n]);
      assert order[n] !in order[..n];
    }
  }

  /** Renumbering all cases of a bundle in some order leaves them gapless in that order. */
  lemma ResequencedIsGapless(items: map<CaseId, Item>, b: BundleId, order: seq<CaseId>)
    requires Distinct(order)
    requires forall c :: c in order <==> c in items && items[c].bundle == b
    ensures IsGapless(ResequencedItems(items, b, order), b, order)
  {
    ResequencedItemsFrame(items, b, order);
    ResequencedItemsNumbers(items, b, order);
  }

  /** A gapless bundle can be listed in one order only. */
  lemma {:induction false} GaplessHasOneListing(items: map<CaseId, Item>, b: BundleId, order: seq<CaseId>, other: seq<CaseId>)
    requires IsGapless(items, b, order) && IsListing(items, b, other)
    ensures other == order
  {
    assert |order| == |other| by {
      SameLength(order, other);
    }
    forall i | 0 <= i < |other| ensures items[other[i]].sequence == i {
      NumbersAreIndices(items, order, other, i);
    }
    forall i | 0 <= i < |other| ensures other[i] == order[i] {
      assert other[i] in order;
    }
  }

  /** Two cases with different numbers can be listed in one order only. */
  lemma TwoHaveOneListing(items: map<CaseId, Item>, b: BundleId, order: seq<CaseId>, x: CaseId, y: CaseId)
    requires IsListing(items, b, order) && x in items && y in items && items[x].sequence < items[y].sequence
    requires forall c :: c in items && items[c].bundle == b <==> c in {x, y}
    ensures order == [x, y]
  {
    assert x in order && y in order;
    SizeOfMembers(order);
    assert Members(order) == {x, y};
    assert |order| == 2;
    assert order[0] in order && order[1] in order;
  }

  function Members(order: seq<CaseId>): set<CaseId> {
    set c | c in order
  }

  lemma {:induction false} SizeOfMembers(order: seq<CaseId>)
    requires Distinct(order)
    ensures |Members(order)| == |order|
  {
    if order != [] {
      var n := |order| - 1;
      SizeOfMembers(order[..n]);
      assert order[n] !in order[..n];
      assert Members(order) == Members(order[..n]) + {order[n]};
    }
  }

  lemma SameLength(order: seq<CaseId>, other: seq<CaseId>)
    requires Distinct(order) && Distinct(other) && forall c :: c in order <==> c in other
    ensures |order| == |other|
  {
    SizeOfMembers(order);
    SizeOfMembers(other);
    assert Members(order) == Members(other);
  }

  /** A listing with distinct numbers 0..n-1 reads them in turn. */
  lemma {:induction false} NumbersAreIndices(items: map<CaseId, Item>, order: seq<CaseId>, other: seq<CaseId>, i: nat)
    requires Distinct(order) && Distinct(other) && |order| == |other| && i < |other|
    requires forall c :: c in order <==> c in other
    requires forall c :: c in order ==> c in items
    requires forall k :: 0 <= k < |order| ==> items[order[k]].sequence == k
    requires forall j, k :: 0 <= j < k < |other| ==> items[other[j]].sequence <= items[other[k]].sequence
    ensures items[other[i]].sequence == i
    decreases i
  {
    forall j | 0 <= j < i ensures other[j] == order[j] {
      NumbersAreIndices(items, order, other, j);
      assert other[j] in order;
    }
    assert order[i] in other;
    var k :| 0 <= k < |other| && other[k] == order[i];
    assert k >= i;
    assert other[i] in order;
    var m :| 0 <= m < |order| && order[m] == other[i];
    assert m >= i;
  }

  // ---------------------------------------------------------------- route stops

  /** The place of a case in the order; where the order repeats a case, the last place counts. */
  function RankOf(order: seq<CaseId>, c: CaseId): int {
    if order == [] then -1
    else if order[|order| - 1] == c then |order| - 1
    else RankOf(order[..|order| - 1], c)
  }

  /** The earliest place of any case a stop serves; `|order|`, behind every place, when it serves none. */
  function Primary(orders: seq<CaseId>, order: seq<CaseId>): int {
    if orders == [] then |order|
    else
      var rest := Primary(orders[1..], order);
      var r := RankOf(order, orders[0]);
      if 0 <= r < rest then r else rest
  }

  lemma {:induction false} RankOfProperty(order: seq<CaseId>, c: CaseId)
    ensures if c in order then 0 <= RankOf(order, c) < |order| && order[RankOf(order, c)] == c else RankOf(order, c) == -1
  {
    if order != [] {
      var n := |order| - 1;
      RankOfProperty(order[..n], c);
      assert order == order[..n] + [order[n]];
    }
  }

  /** `Primary` is the first index of the order whose case the stop serves. */
  lemma {:induction false} PrimaryIsFirstServed(orders: seq<CaseId>, order: seq<CaseId>)
    requires Distinct(order)
    ensures 0 <= Primary(orders, order) <= |order|
    ensures forall i :: 0 <= i < Primary(orders, order) ==> order[i] !in orders
    ensures Primary(orders, order) < |order| ==> order[Primary(orders, order)] in orders
  {
    if orders != [] {
      PrimaryIsFirstServed(orders[1..], order);
      RankOfProperty(order, orders[0]);
      var p := Primary(orders, order);
      forall i | 0 <= i < p ensures order[i] !in orders {
        assert orders == [orders[0]] + orders[1..];
      }
    }
  }

  /** Stop `r` comes before stop `q`: it serves an earlier case, or the same and was earlier before. */
  ghost predicate Before(rows: seq<Stop>, order: seq<CaseId>, r: nat, q: nat)
    requires r < |rows| && q < |rows|
  {
    var pr, pq := Primary(rows[r].orders, order), Primary(rows[q].orders, order);
    pr < pq || (pr == pq && rows[r].sequence < rows[q].sequence)
  }

  /** The stops are numbered 0..n-1 by their earliest case; the rest of each row is as before. */
  ghost predicate StopsFollow(rows: seq<Stop>, now: seq<Stop>, order: seq<CaseId>) {
    && |now| == |rows|
    && (forall r :: 0 <= r < |rows| ==> now[r] == rows[r].(sequence := now[r].sequence))
    && (forall r :: 0 <= r < |rows| ==> 0 <= now[r].sequence < |rows|)
    && DistinctSequences(now)
    && (forall r, q :: 0 <= r < |rows| && 0 <= q < |rows| && r != q ==>
          (now[r].sequence < now[q].sequence <==> Before(rows, order, r, q)))
  }

  datatype Loaded = Loaded(row: nat, sequence: int)
  datatype Ranked = Ranked(row: nat, primary: int, place: nat)

  function BySequence(): (Loaded, Loaded) -> bool {
    (a: Loaded, b: Loaded) => a.sequence <= b.sequence
  }

  function ByRank(): (Ranked, Ranked) -> bool {
    (a: Ranked, b: Ranked) => a.primary < b.primary || (a.primary == b.primary && a.place <= b.place)
  }

  /** `findMany … orderBy sequence`: each row once, by ascending sequence. */
  function LoadStops(rows: seq<Stop>): seq<Loaded> {
    SortBy(BySequence(), seq(|rows|, r requires 0 <= r < |rows| => Loaded(r, rows[r].sequence)))
  }

  function RankAll(rows: seq<Stop>, loaded: seq<Loaded>, order: seq<CaseId>): seq<Ranked>
    requires forall i :: 0 <= i < |loaded| ==> loaded[i].row < |rows|
  {
    seq(|loaded|, i requires 0 <= i < |loaded| => Ranked(loaded[i].row, Primary(rows[loaded[i].row].orders, order), i))
  }

  /** Every row is listed once. */
  ghost predicate CoversRows(ids: seq<nat>, n: nat) {
    && |ids| == n && Distinct(ids)
    && (forall i :: 0 <= i < |ids| ==> ids[i] < n)
    && (forall r :: 0 <= r < n ==> r in ids)
  }

  function LoadedRows(l: seq<Loaded>): seq<nat> {
    seq(|l|, i requires 0 <= i < |l| => l[i].row)
  }

  function RankedRows(l: seq<Ranked>): seq<nat> {
    seq(|l|, i requires 0 <= i < |l| => l[i].row)
  }

  lemma LoadStopsProperties(rows: seq<Stop>)
    ensures var l := LoadStops(rows);
      && CoversRows(LoadedRows(l), |rows|)
      && (forall i :: 0 <= i < |l| ==> l[i].row < |rows| && l[i].sequence == rows[l[i].row].sequence)
      && SortedBy(BySequence(), l)
  {
    var raw := seq(|rows|, r requires 0 <= r < |rows| => Loaded(r, rows[r].sequence));
    var l := LoadStops(rows);
    SortByProperties(BySequence(), raw);
    PermutationDistinct(raw, l);
    forall i | 0 <= i < |l| ensures l[i].row < |rows| && l[i].sequence == rows[l[i].row].sequence {
      assert l[i] in multiset(l);
      assert l[i] in multiset(raw);
    }
    forall r | 0 <= r < |rows| ensures r in LoadedRows(l) {
      assert raw[r] in multiset(raw);
      assert raw[r] in multiset(l);
      var i :| 0 <= i < |l| && l[i] == raw[r];
      assert LoadedRows(l)[i] == r;
    }
  }

  lemma RankAllSorted(rows: seq<Stop>, loaded: seq<Loaded>, order: seq<CaseId>) returns (ranked: seq<Ranked>)
    requires forall i :: 0 <= i < |loaded| ==> loaded[i].row < |rows|
    ensures ranked == SortBy(ByRank(), RankAll(rows, loaded, order))
    ensures SortedBy(ByRank(), ranked) && |ranked| == |loaded|
    ensures forall i :: 0 <= i < |ranked| ==> ranked[i].place < |loaded| && ranked[i] == RankAll(rows, loaded, order)[ranked[i].place]
    ensures forall i, j :: 0 <= i < j < |ranked| ==> ranked[i].place != ranked[j].place
    ensures forall p :: 0 <= p < |loaded| ==> RankAll(rows, loaded, order)[p] in ranked
  {
    var raw := RankAll(rows, loaded, order);
    ranked := SortBy(ByRank(), raw);
    SortByProperties(ByRank(), raw);
    PermutationDistinct(raw, ranked);
    forall i | 0 <= i < |ranked| ensures ranked[i].place < |loaded| && ranked[i] == raw[ranked[i].place] {
      assert ranked[i] in multiset(ranked);
      assert ranked[i] in multiset(raw);
    }
    forall p | 0 <= p < |loaded| ensures raw[p] in ranked {
      assert raw[p] in multiset(raw);
      assert raw[p] in multiset(ranked);
    }
  }

  /** The stops in their new order: by earliest case, then by old sequence. */
  method RankStops(rows: seq<Stop>, order: seq<CaseId>) returns (ids: seq<nat>)
    requires DistinctSequences(rows)
    ensures CoversRows(ids, |rows|)
    ensures forall i, j :: 0 <= i < j < |ids| ==> Before(rows, order, ids[i], ids[j])
  {
    var loaded := LoadStops(rows);
    LoadStopsProperties(rows);
    var ranked := SortBy(ByRank(), RankAll(rows, loaded, order));
    ids := RankedRows(ranked);
    ghost var facts := RankAllSorted(rows, loaded, order);
    RankedCovers(rows, loaded, order, ranked);
  }

  lemma RankedCovers(rows: seq<Stop>, loaded: seq<Loaded>, order: seq<CaseId>, ranked: seq<Ranked>)
    requires DistinctSequences(rows) && CoversRows(LoadedRows(loaded), |rows|) && SortedBy(BySequence(), loaded)
    requires forall i :: 0 <= i < |loaded| ==> loaded[i].row < |rows| && loaded[i].sequence == rows[loaded[i].row].sequence
    requires SortedBy(ByRank(), ranked) && |ranked| == |loaded|
    requires forall i :: 0 <= i < |ranked| ==> ranked[i].place < |loaded| && ranked[i] == RankAll(rows, loaded, order)[ranked[i].place]
    requires forall i, j :: 0 <= i < j < |ranked| ==> ranked[i].place != ranked[j].place
    requires forall p :: 0 <= p < |loaded| ==> RankAll(rows, loaded, order)[p] in ranked
    ensures var ids := RankedRows(ranked);
      && CoversRows(ids, |rows|)
      && forall i, j :: 0 <= i < j < |ids| ==> Before(rows, order, ids[i], ids[j])
  {
    var ids := RankedRows(ranked);
    forall i, j | 0 <= i < j < |ids| ensures ids[i] != ids[j] && Before(rows, order, ids[i], ids[j]) {
      RankedInOrder(rows, loaded, order, ranked[i], ranked[j]);
    }
    forall r | 0 <= r < |rows| ensures r in ids {
      assert r in LoadedRows(loaded);
      var p :| 0 <= p < |loaded| && LoadedRows(loaded)[p] == r;
      var i :| 0 <= i < |ranked| && ranked[i] == RankAll(rows, loaded, order)[p];
      assert ids[i] == r;
    }
  }

  lemma RankedInOrder(rows: seq<Stop>, loaded: seq<Loaded>, order: seq<CaseId>, a: Ranked, b: Ranked)
    requires DistinctSequences(rows) && CoversRows(LoadedRows(loaded), |rows|) && SortedBy(BySequence(), loaded)
    requires forall i :: 0 <= i < |loaded| ==> loaded[i].row < |rows| && loaded[i].sequence == rows[loaded[i].row].sequence
    requires a.place < |loaded| && b.place < |loaded| && a.place != b.place
    requires a == RankAll(rows, loaded, order)[a.place] && b == RankAll(rows, loaded, order)[b.place]
    requires ByRank()(a, b)
    ensures a.row != b.row && Before(rows, order, a.row, b.row)
  {
    assert LoadedRows(loaded)[a.place] == a.row && LoadedRows(loaded)[b.place] == b.row;
    if a.primary == b.primary {
      assert BySequence()(loaded[a.place], loaded[b.place]);
    }
  }

  /** One row update; the unique index on (bundle, sequence) must not be hit. */
  method UpdateStopSequence(tx: Tables, b: BundleId, row: nat, sequence: int)
    requires b in tx.stops && row < |tx.stops[b]|
    requires forall r :: 0 <= r < |tx.stops[b]| && r != row ==> tx.stops[b][r].sequence != sequence
    modifies tx`stops
    ensures tx.stops == old(tx.stops)[b := old(tx.stops[b])[row := old(tx.stops[b][row]).(sequence := sequence)]]
  {
    var rows := tx.stops[b];
    tx.stops := tx.stops[b := rows[row := rows[row].(sequence := sequence)]];
  }

  /** No two rows share a number; unlike `DistinctSequences` the numbers may be negative. */
  ghost predicate NoCollision(rows: seq<Stop>) {
    forall i, j :: 0 <= i < j < |rows| ==> rows[i].sequence != rows[j].sequence
  }

  /** What both loops leave alone: other bundles, and everything but the numbers. */
  ghost predicate OnlyRenumbered(stops: map<BundleId, seq<Stop>>, now: map<BundleId, seq<Stop>>, b: BundleId) {
    && b in stops && b in now && now == stops[b := now[b]] && |now[b]| == |stops[b]|
  }

  /** First loop: every stop moves to a negative number of its own. */
  method ParkStops(tx: Tables, b: BundleId, ids: seq<nat>)
    requires b in tx.stops && DistinctSequences(tx.stops[b]) && CoversRows(ids, |tx.stops[b]|)
    modifies tx`stops
    ensures OnlyRenumbered(old(tx.stops), tx.stops, b) && NoCollision(tx.stops[b])
    ensures forall k :: 0 <= k < |ids| ==> tx.stops[b][ids[k]] == old(tx.stops[b])[ids[k]].(sequence := -(k + 1))
  {
    ghost var rows := tx.stops[b];
    var i := 0;
    while i < |ids|
      invariant 0 <= i <= |ids| && OnlyRenumbered(old(tx.stops), tx.stops, b)
      invariant forall k :: 0 <= k < i ==> tx.stops[b][ids[k]] == rows[ids[k]].(sequence := -(k + 1))
      invariant forall k :: i <= k < |ids| ==> tx.stops[b][ids[k]] == rows[ids[k]]
      invariant NoCollision(tx.stops[b])
    {
      FreshSlot(rows, tx.stops[b], ids, i);
      UpdateStopSequence(tx, b, ids[i], -(i + 1));
      i := i + 1;
    }
  }

  /** Second loop: from there to the final numbers. */
  method SettleStops(tx: Tables, b: BundleId, ids: seq<nat>)
    requires b in tx.stops && NoCollision(tx.stops[b]) && CoversRows(ids, |tx.stops[b]|)
    requires forall k :: 0 <= k < |ids| ==> tx.stops[b][ids[k]].sequence == -(k + 1)
    modifies tx`stops
    ensures OnlyRenumbered(old(tx.stops), tx.stops, b)
    ensures forall k :: 0 <= k < |ids| ==> tx.stops[b][ids[k]] == old(tx.stops[b])[ids[k]].(sequence := k)
  {
    ghost var rows := tx.stops[b];
    var i := 0;
    while i < |ids|
      invariant 0 <= i <= |ids| && OnlyRenumbered(old(tx.stops), tx.stops, b)
      invariant forall k :: 0 <= k < i ==> tx.stops[b][ids[k]] == rows[ids[k]].(sequence := k)
      invariant forall k :: i <= k < |ids| ==> tx.stops[b][ids[k]] == rows[ids[k]]
      invariant NoCollision(tx.stops[b])
    {
      FinalSlot(rows, tx.stops[b], ids, i);
      UpdateStopSequence(tx, b, ids[i], i);
      i := i + 1;
    }
  }

  /**
   * Route stops follow the case order. Both loops pass only through states without a
   * collision, so no single update can fail on the unique index.
   */
  method ResequenceRouteStops(tx: Tables, b: BundleId, order: seq<CaseId>)
    requires b in tx.stops ==> DistinctSequences(tx.stops[b])
    modifies tx`stops
    ensures b !in old(tx.stops) ==> tx.stops == old(tx.stops)
    ensures b in old(tx.stops) ==>
      && b in tx.stops
      && tx.stops == old(tx.stops)[b := tx.stops[b]]
      && StopsFollow(old(tx.stops[b]), tx.stops[b], order)
  {
    if b !in tx.stops {
      return;
    }
    var rows := tx.stops[b];
    if |rows| == 0 {
      assert tx.stops == tx.stops[b := tx.stops[b]];
      return;
    }
    var ids := RankStops(rows, order);
    ParkStops(tx, b, ids);
    SettleStops(tx, b, ids);
    FinalOrder(rows, tx.stops[b], ids, order);
  }

  lemma FreshSlot(rows: seq<Stop>, now: seq<Stop>, ids: seq<nat>, i: nat)
    requires CoversRows(ids, |rows|) && |now| == |rows| && i < |ids| && DistinctSequences(rows)
    requires forall k :: 0 <= k < i ==> now[ids[k]] == rows[ids[k]].(sequence := -(k + 1))
    requires forall k :: i <= k < |ids| ==> now[ids[k]] == rows[ids[k]]
    ensures forall r :: 0 <= r < |now| && r != ids[i] ==> now[r].sequence != -(i + 1)
  {
    forall r | 0 <= r < |now| && r != ids[i] ensures now[r].sequence != -(i + 1) {
      assert r in ids;
      var k :| 0 <= k < |ids| && ids[k] == r;
    }
  }

  lemma FinalSlot(rows: seq<Stop>, now: seq<Stop>, ids: seq<nat>, i: nat)
    requires CoversRows(ids, |rows|) && |now| == |rows| && i < |ids|
    requires forall k :: 0 <= k < i ==> now[ids[k]] == rows[ids[k]].(sequence := k)
    requires forall k :: i <= k < |ids| ==> now[ids[k]].sequence == -(k + 1)
    ensures forall r :: 0 <= r < |now| && r != ids[i] ==> now[r].sequence != i
  {
    forall r | 0 <= r < |now| && r != ids[i] ensures now[r].sequence != i {
      assert r in ids;
      var k :| 0 <= k < |ids| && ids[k] == r;
    }
  }

  lemma FinalOrder(rows: seq<Stop>, now: seq<Stop>, ids: seq<nat>, order: seq<CaseId>)
    requires CoversRows(ids, |rows|) && |now| == |rows|
    requires forall k :: 0 <= k < |ids| ==> now[ids[k]] == rows[ids[k]].(sequence := k)
    requires forall i, j :: 0 <= i < j < |ids| ==> Before(rows, order, ids[i], ids[j])
    ensures StopsFollow(rows, now, order)
  {
    forall r | 0 <= r < |rows|
      ensures now[r] == rows[r].(sequence := now[r].sequence) && 0 <= now[r].sequence < |rows| && ids[now[r].sequence] == r
    {
      assert r in ids;
      var k :| 0 <= k < |ids| && ids[k] == r;
    }
    forall r, q | 0 <= r < |rows| && 0 <= q < |rows| && r != q
      ensures now[r].sequence != now[q].sequence
      ensures now[r].sequence < now[q].sequence <==> Before(rows, order, r, q)
    {
      var k, m := now[r].sequence, now[q].sequence;
      if k < m {
        assert Before(rows, order, ids[k], ids[m]);
      } else if m < k {
        assert Before(rows, order, ids[m], ids[k]);
      }
    }
  }

  /** The pair of rewrites that ends every override: the bundle's items and stops follow `order`. */
  ghost predicate Reordered(d: Store, e: Store, b: BundleId, order: seq<CaseId>) {
    && e == d.(items := ResequencedItems(d.items, b, order), stops := e.stops)
    && IsGapless(e.items, b, order)
    && StopsReordered(d.stops, e.stops, b, order)
  }

  ghost predicate StopsReordered(stops: map<BundleId, seq<Stop>>, now: map<BundleId, seq<Stop>>, b: BundleId, order: seq<CaseId>) {
    && now.Keys == stops.Keys
    && (forall x :: x in stops && x != b ==> now[x] == stops[x])
    && (b in stops ==> StopsFollow(stops[b], now[b], order))
  }

  method Resequence(tx: Tables, b: BundleId, order: seq<CaseId>)
    requires StopsFit(tx.State()) && Distinct(order)
    requires forall c :: c in order <==> c in tx.items && tx.items[c].bundle == b
    modifies tx
    ensures Reordered(old(tx.State()), tx.State(), b, order)
    ensures StopsFit(tx.State())
    ensures old(Inv(tx.State())) ==> Inv(tx.State()) && Follows(old(tx.State()), tx.State())
  {
    ghost var before := tx.State();
    ResequenceItems(tx, b, order);
    ResequencedIsGapless(before.items, b, order);
    ResequenceRouteStops(tx, b, order);
    ReorderedKeepsInv(before, tx.State(), b, order);
  }

  lemma ReorderedKeepsInv(d: Store, e: Store, b: BundleId, order: seq<CaseId>)
    requires Reordered(d, e, b, order) && StopsFit(d)
    ensures StopsFit(e)
    ensures Inv(d) ==> Inv(e) && Follows(d, e)
  {
    ResequencedItemsFrame(d.items, b, order);
    forall x | x in e.stops ensures x in e.bundles && DistinctSequences(e.stops[x]) {
      assert x in d.stops;
    }
    if Inv(d) {
      ResequenceKeepsInv(d, e.items, e.stops);
    }
  }

  /** The order with some cases taken out. */
  function Without(order: seq<CaseId>, s: set<CaseId>): seq<CaseId> {
    if order == [] then []
    else
      var n := |order| - 1;
      Without(order[..n], s) + if order[n] in s then [] else [order[n]]
  }

  lemma {:induction false} WithoutElements(order: seq<CaseId>, s: set<CaseId>)
    ensures forall c :: c in Without(order, s) <==> c in order && c !in s
  {
    if order != [] {
      WithoutElements(order[..|order| - 1], s);
      assert order == order[..|order| - 1] + [order[|order| - 1]];
    }
  }

  ghost predicate Ascending(items: map<CaseId, Item>, order: seq<CaseId>) {
    forall i, j :: 0 <= i < j < |order| && order[i] in items && order[j] in items
      ==> items[order[i]].sequence <= items[order[j]].sequence
  }

  lemma {:induction false} WithoutKeepsOrder(items: map<CaseId, Item>, order: seq<CaseId>, s: set<CaseId>)
    requires Distinct(order) && Ascending(items, order)
    ensures Distinct(Without(order, s)) && Ascending(items, Without(order, s))
  {
    if order != [] {
      var n := |order| - 1;
      var front := Without(order[..n], s);
      WithoutKeepsOrder(items, order[..n], s);
      WithoutElements(order[..n], s);
      forall i | 0 <= i < |front|
        ensures front[i] != order[n]
        ensures front[i] in items && order[n] in items ==> items[front[i]].sequence <= items[order[n]].sequence
      {
        assert front[i] in order[..n];
        var k :| 0 <= k < n && order[k] == front[i];
      }
    }
  }

  /** What is left of a bundle when cases leave it, in the old order. */
  lemma ListingWithout(items: map<CaseId, Item>, b: BundleId, order: seq<CaseId>, s: set<CaseId>)
    requires IsListing(items, b, order)
    ensures IsListing(WithoutItems(items, s), b, Without(order, s))
  {
    WithoutElements(order, s);
    WithoutKeepsOrder(items, order, s);
    var rest := Without(order, s);
    forall i | 0 <= i < |rest| ensures rest[i] in WithoutItems(items, s) {
      assert rest[i] in rest;
    }
  }

  // ---------------------------------------------------------------- what the order of stops means

  /** Stops that serve no listed case stand behind all others, in their old order. */
  lemma UnservedStopsAtTail(rows: seq<Stop>, now: seq<Stop>, order: seq<CaseId>, r: nat, q: nat)
    requires StopsFollow(rows, now, order) && Distinct(order)
    requires r < |rows| && q < |rows| && r != q
    requires forall c :: c in order ==> c !in rows[q].orders
    ensures (exists c :: c in order && c in rows[r].orders) ==> now[r].sequence < now[q].sequence
    ensures (forall c :: c in order ==> c !in rows[r].orders) ==>
      (now[r].sequence < now[q].sequence <==> rows[r].sequence < rows[q].sequence)
  {
    PrimaryIsFirstServed(rows[r].orders, order);
    PrimaryIsFirstServed(rows[q].orders, order);
  }

  ghost function NumberedBelow(now: seq<Stop>, n: nat): set<nat> {
    set q: nat | q < |now| && now[q].sequence < n
  }

  lemma {:induction false} InjectiveBound(now: seq<Stop>, rows: set<nat>, lo: int, hi: int)
    requires NoCollision(now) && lo <= hi
    requires forall q :: q in rows ==> q < |now| && lo <= now[q].sequence < hi
    ensures |rows| <= hi - lo
    decreases hi - lo
  {
    if lo == hi {
      assert rows == {};
    } else if q :| q in rows && now[q].sequence == lo {
      InjectiveBound(now, rows - {q}, lo + 1, hi);
    } else {
      InjectiveBound(now, rows, lo + 1, hi);
    }
  }

  ghost function UpTo(n: nat): (s: set<nat>)
    ensures |s| == n && forall q: nat :: q in s <==> q < n
  {
    if n == 0 then {} else UpTo(n - 1) + {n - 1}
  }

  /** Where numbers 0..n-1 are all taken, a stop's number counts the stops before it. */
  lemma SequenceCounts(now: seq<Stop>, r: nat)
    requires DistinctSequences(now) && r < |now| && forall q :: 0 <= q < |now| ==> now[q].sequence < |now|
    ensures |NumberedBelow(now, now[r].sequence)| == now[r].sequence
  {
    var s := now[r].sequence;
    var low, all := NumberedBelow(now, s), UpTo(|now|);
    InjectiveBound(now, low, 0, s);
    InjectiveBound(now, all - low, s, |now|);
    assert |all - low| == |all| - |low| by {
      assert all == low + (all - low);
    }
  }

  /** The case order and the old numbers determine the new numbers completely. */
  lemma StopsFollowIsDetermined(rows: seq<Stop>, now: seq<Stop>, other: seq<Stop>, order: seq<CaseId>)
    requires StopsFollow(rows, now, order) && StopsFollow(rows, other, order)
    ensures now == other
  {
    forall r | 0 <= r < |rows| ensures now[r] == other[r] {
      SequenceCounts(now, r);
      SequenceCounts(other, r);
      assert NumberedBelow(now, now[r].sequence) == NumberedBelow(other, other[r].sequence);
    }
  }
}
