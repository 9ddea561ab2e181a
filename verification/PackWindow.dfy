/**
 * The pack rules of a bundle (cases/pack-window.ts): what the employee sees, what holds
 * them back from the next pack, and how pack indices with gaps are numbered for display.
 */
module PackWindow {
  import opened CaseStatus
  import opened Ids
  import opened Sorting

  datatype PackItem = PackItem(caseId: CaseId, pack: nat, status: Status, ownPartDone: bool)

  /** Done for the employee; unlike the lifecycle's terminal statuses this includes `completed`. */
  predicate IsDone(s: Status) {
    s == Completed || s == ZstDone || s == Cancelled
  }

  predicate Blocks(i: PackItem, active: nat) {
    i.pack == active && !IsDone(i.status) && i.status != IssueOpen && !i.ownPartDone
  }

  predicate IsActive(i: PackItem, active: nat) {
    i.pack == active
  }

  predicate IsCarriedOver(i: PackItem, active: nat) {
    i.pack < active && !IsDone(i.status)
  }

  predicate IsFinishedEarlier(i: PackItem, active: nat) {
    i.pack < active && IsDone(i.status)
  }

  predicate IsFuture(i: PackItem, active: nat) {
    i.pack > active
  }

  predicate IsVisible(i: PackItem, active: nat) {
    IsActive(i, active) || IsCarriedOver(i, active)
  }

  /** The ids of the items that satisfy `keep`, in bundle order. */
  function Select(items: seq<PackItem>, keep: PackItem -> bool): seq<CaseId> {
    if items == [] then []
    else
      var l := items[|items| - 1];
      Select(items[..|items| - 1], keep) + if keep(l) then [l.caseId] else []
  }

  /** Membership in one pack, as a filter. */
  function OfPack(p: int): PackItem -> bool {
    (i: PackItem) => i.pack == p
  }

  function PackAdvanceBlockers(items: seq<PackItem>, active: nat): seq<CaseId> {
    Select(items, (i: PackItem) => Blocks(i, active))
  }

  function LastPackIndex(packs: seq<nat>): int {
    if packs == [] then -1
    else
      var m := LastPackIndex(packs[..|packs| - 1]);
      if m < packs[|packs| - 1] then packs[|packs| - 1] else m
  }

  lemma {:induction false} LastPackIndexIsMaximum(packs: seq<nat>)
    ensures forall i :: 0 <= i < |packs| ==> packs[i] <= LastPackIndex(packs)
    ensures packs == [] <==> LastPackIndex(packs) == -1
    ensures packs != [] ==> exists i :: 0 <= i < |packs| && packs[i] == LastPackIndex(packs)
  {
    if packs != [] {
      var n := |packs| - 1;
      LastPackIndexIsMaximum(packs[..n]);
      if LastPackIndex(packs) == packs[n] {
        assert packs[n] == LastPackIndex(packs);
      } else {
        var i :| 0 <= i < n && packs[..n][i] == LastPackIndex(packs[..n]);
        assert packs[i] == LastPackIndex(packs);
      }
    }
  }

  function Elements(packs: seq<nat>): set<nat> {
    set p | p in packs
  }

  function Below(packs: seq<nat>, pack: nat): set<nat> {
    set p | p in packs && p < pack
  }

  function PackCount(packs: seq<nat>): nat {
    |Elements(packs)|
  }

  function IndexOf(xs: seq<nat>, x: nat): int {
    if xs == [] then -1
    else if xs[0] == x then 0
    else
      var i := IndexOf(xs[1..], x);
      if i < 0 then -1 else i + 1
  }

  function Upwards(): (nat, nat) -> bool {
    (a, b) => a <= b
  }

  /** The 1-based display position of a pack among the packs that exist; a drained pack counts itself. */
  function PackOrdinal(packs: seq<nat>, pack: nat): int {
    IndexOf(SortBy(Upwards(), Dedup(packs + [pack])), pack) + 1
  }

  lemma {:induction false} IndexOfDistinct(xs: seq<nat>, i: nat)
    requires Distinct(xs) && i < |xs|
    ensures IndexOf(xs, xs[i]) == i
  {
    if i > 0 {
      assert xs[0] != xs[i];
      IndexOfDistinct(xs[1..], i - 1);
    }
  }

  lemma {:induction false} SetOfDistinct(xs: seq<nat>)
    requires Distinct(xs)
    ensures |Elements(xs)| == |xs|
  {
    if xs != [] {
      var front, l := xs[..|xs| - 1], xs[|xs| - 1];
      SetOfDistinct(front);
      assert l !in front;
      assert Elements(xs) == Elements(front) + {l};
    }
  }

  /** The packs that exist, in ascending order. */
  lemma SortedPacks(packs: seq<nat>) returns (s: seq<nat>)
    ensures s == SortBy(Upwards(), Dedup(packs))
    ensures SortedBy(Upwards(), s) && Distinct(s) && Elements(s) == Elements(packs)
  {
    var d := Dedup(packs);
    DedupProperties(packs);
    s := SortBy(Upwards(), d);
    SortByProperties(Upwards(), d);
    PermutationDistinct(d, s);
    forall p ensures p in s <==> p in packs {
      assert p in s <==> p in multiset(s);
      assert p in d <==> p in multiset(d);
    }
  }

  lemma SortedRank(s: seq<nat>, i: nat)
    requires SortedBy(Upwards(), s) && Distinct(s) && i < |s|
    ensures |Below(s, s[i])| == i
  {
    forall p ensures p in s[..i] <==> p in s && p < s[i] {
      if p in s[..i] {
        var k :| 0 <= k < i && s[k] == p;
        assert Upwards()(s[k], s[i]);
      }
      if p in s && p < s[i] {
        var k :| 0 <= k < |s| && s[k] == p;
        if i < k { assert Upwards()(s[i], s[k]); }
      }
    }
    assert Elements(s[..i]) == Below(s, s[i]);
    SetOfDistinct(s[..i]);
  }

  /** The display position is one more than the number of existing packs in front. */
  lemma OrdinalCounts(packs: seq<nat>, pack: nat)
    ensures PackOrdinal(packs, pack) == 1 + |Below(packs, pack)|
  {
    var all := packs + [pack];
    var s := SortedPacks(all);
    assert pack in Elements(all);
    var i :| 0 <= i < |s| && s[i] == pack;
    IndexOfDistinct(s, i);
    SortedRank(s, i);
    forall p ensures p in Below(s, pack) <==> p in Below(packs, pack) {
      assert p in Elements(s) <==> p in Elements(all);
    }
    assert Below(s, pack) == Below(packs, pack);
  }

  /** Existing packs are numbered upwards, inside `1..PackCount`, and apart. */
  lemma OrdinalIsIncreasing(packs: seq<nat>, p: nat, q: nat)
    requires p in packs && q in packs
    ensures 1 <= PackOrdinal(packs, p) <= PackCount(packs)
    ensures PackOrdinal(packs, p) < PackOrdinal(packs, q) <==> p < q
  {
    OrdinalCounts(packs, p);
    OrdinalCounts(packs, q);
    Smaller(Below(packs, p), Elements(packs), p);
    if p < q {
      Smaller(Below(packs, p), Below(packs, q), p);
    } else {
      SubsetSize(Below(packs, q), Below(packs, p));
    }
  }

  lemma SubsetSize(a: set<nat>, b: set<nat>)
    requires a <= b
    ensures |a| <= |b|
  {
    assert b == a + (b - a);
  }

  lemma Smaller(a: set<nat>, b: set<nat>, x: nat)
    requires a <= b && x in b && x !in a
    ensures |a| < |b|
  {
    SubsetSize(a, b - {x});
  }

  /** Every display position up to the count is taken by a pack that exists. */
  lemma OrdinalIsOnto(packs: seq<nat>, n: nat) returns (pack: nat)
    requires 1 <= n <= PackCount(packs)
    ensures pack in packs && PackOrdinal(packs, pack) == n
  {
    var s := SortedPacks(packs);
    SetOfDistinct(s);
    pack := s[n - 1];
    assert pack in Elements(s);
    OrdinalCounts(packs, pack);
    SortedRank(s, n - 1);
    forall p ensures p in Below(s, pack) <==> p in Below(packs, pack) {
      assert p in Elements(s) <==> p in Elements(packs);
    }
    assert Below(s, pack) == Below(packs, pack);
  }

  predicate HasPlannedFollowUpPack(packs: seq<nat>, active: nat) {
    exists p :: p in packs && p > active
  }

  /** The employee app's window: the active pack, and unfinished work of earlier packs. */
  method ComputeWindow(items: seq<PackItem>, active: nat)
    returns (activeCaseIds: seq<CaseId>, carriedOverCaseIds: seq<CaseId>)
    ensures activeCaseIds == Select(items, (i: PackItem) => IsActive(i, active))
    ensures carriedOverCaseIds == Select(items, (i: PackItem) => IsCarriedOver(i, active))
  {
    activeCaseIds, carriedOverCaseIds := [], [];
    var n := 0;
    while n < |items|
      invariant 0 <= n <= |items|
      invariant activeCaseIds == Select(items[..n], (i: PackItem) => IsActive(i, active))
      invariant carriedOverCaseIds == Select(items[..n], (i: PackItem) => IsCarriedOver(i, active))
    {
      var item := items[n];
      assert items[..n + 1][..n] == items[..n];
      if item.pack == active {
        activeCaseIds := activeCaseIds + [item.caseId];
      } else if item.pack < active && !IsDone(item.status) {
        carriedOverCaseIds := carriedOverCaseIds + [item.caseId];
      }
      n := n + 1;
    }
    assert items[..n] == items;
  }

  /** Shown, done in an earlier pack, or still to come: every case of the bundle is in exactly one class. */
  lemma {:induction false} WindowPartitionsBundle(items: seq<PackItem>, active: nat)
    ensures multiset(Select(items, (i: PackItem) => IsActive(i, active)))
            + multiset(Select(items, (i: PackItem) => IsCarriedOver(i, active)))
            + multiset(Select(items, (i: PackItem) => IsFinishedEarlier(i, active)))
            + multiset(Select(items, (i: PackItem) => IsFuture(i, active)))
            == multiset(Select(items, (i: PackItem) => true))
  {
    if items != [] {
      WindowPartitionsBundle(items[..|items| - 1], active);
    }
  }

  /** The smallest pack index behind the active pack: what `activateNextPack` switches to. */
  ghost predicate IsNextPack(packs: seq<nat>, active: nat, next: nat) {
    && next > active && next in packs
    && forall p :: p in packs && p > active ==> next <= p
  }

  method NextPack(packs: seq<nat>, active: nat) returns (next: nat)
    requires HasPlannedFollowUpPack(packs, active)
    ensures IsNextPack(packs, active, next)
  {
    var first :| first in packs && first > active;
    next := first;
    var n := 0;
    while n < |packs|
      invariant 0 <= n <= |packs|
      invariant next > active && next in packs
      invariant forall k :: 0 <= k < n && packs[k] > active ==> next <= packs[k]
    {
      if active < packs[n] < next {
        next := packs[n];
      }
      n := n + 1;
    }
  }

  function Packs(items: seq<PackItem>): seq<nat> {
    seq(|items|, i requires 0 <= i < |items| => items[i].pack)
  }

  /** Advancing loses no work: what was visible and open stays visible, the new pack is shown, the rest stays hidden. */
  lemma AdvanceLosesNoWork(items: seq<PackItem>, active: nat, next: nat, i: PackItem)
    requires IsNextPack(Packs(items), active, next) && i in items
    ensures IsVisible(i, active) && !IsDone(i.status) ==> IsVisible(i, next)
    ensures IsVisible(i, next) <==> i.pack == next || (i.pack <= active && !IsDone(i.status))
    ensures IsVisible(i, next) ==> i.pack == next || IsVisible(i, active)
    ensures exists j :: j in items && j.pack == next
  {
    var k :| 0 <= k < |items| && items[k] == i;
    assert Packs(items)[k] == i.pack;
    assert i.pack in Packs(items);
    var m :| 0 <= m < |items| && Packs(items)[m] == next;
    assert items[m] in items && items[m].pack == next;
  }

  /** No blocker left: every case of the active pack is done, waits for the team lead, or is done for this employee. */
  lemma {:induction false} NoBlockersMeansIdle(items: seq<PackItem>, active: nat)
    ensures PackAdvanceBlockers(items, active) == []
            <==> forall i :: i in items && i.pack == active ==> IsDone(i.status) || i.status == IssueOpen || i.ownPartDone
  {
    if items != [] {
      var front, l := items[..|items| - 1], items[|items| - 1];
      assert items == front + [l];
      NoBlockersMeansIdle(front, active);
    }
  }

  /** Where a case joins its pack: behind the pack's last member, or at the end when the pack is empty. */
  method PackInsertPosition(ordered: seq<CaseId>, members: seq<CaseId>) returns (at: nat)
    ensures at <= |ordered|
    ensures (exists c :: c in ordered && c in members) ==> at > 0 && ordered[at - 1] in members
    ensures (forall c :: c in ordered ==> c !in members) ==> at == |ordered|
    ensures forall k :: at <= k < |ordered| ==> ordered[k] !in members
  {
    var last := -1;
    var n := 0;
    while n < |ordered|
      invariant 0 <= n <= |ordered|
      invariant -1 <= last < n
      invariant last >= 0 ==> ordered[last] in members
      invariant forall k :: last < k < n ==> ordered[k] !in members
    {
      if ordered[n] in members {
        last := n;
      }
      n := n + 1;
    }
    at := if last < 0 then |ordered| else last + 1;
  }

  /** A bundle order in which packs follow each other. */
  ghost predicate PacksInOrder(order: seq<CaseId>, pack: map<CaseId, nat>) {
    forall i, j :: 0 <= i < j < |order| && order[i] in pack && order[j] in pack ==> pack[order[i]] <= pack[order[j]]
  }

  function InsertAt(order: seq<CaseId>, at: nat, c: CaseId): seq<CaseId>
    requires at <= |order|
  {
    order[..at] + [c] + order[at..]
  }

  /**
   * Joining a pack that has members, or one behind all others, keeps the packs in order.
   * A drained pack in the middle is the exception: its case goes to the very end.
   */
  lemma InsertKeepsPacksInOrder(order: seq<CaseId>, pack: map<CaseId, nat>, at: nat, c: CaseId, p: nat)
    requires PacksInOrder(order, pack) && c !in order && forall x :: x in order ==> x in pack
    requires at <= |order|
    requires forall k :: at <= k < |order| ==> pack[order[k]] != p
    requires (exists x :: x in order && pack[x] == p) ==> at > 0 && pack[order[at - 1]] == p
    requires (forall x :: x in order ==> pack[x] != p) ==> at == |order|
    ensures PacksInOrder(InsertAt(order, at, c), pack[c := p])
            <==> (exists x :: x in order && pack[x] == p) || forall x :: x in order ==> pack[x] <= p
  {
    var r, q := InsertAt(order, at, c), pack[c := p];
    assert forall k :: 0 <= k < at ==> r[k] == order[k];
    assert r[at] == c;
    assert forall k :: at < k < |r| ==> r[k] == order[k - 1];
    if exists x :: x in order && pack[x] == p {
      forall i, j | 0 <= i < j < |r| ensures q[r[i]] <= q[r[j]] {
        if j == at {
          assert pack[order[i]] <= pack[order[at - 1]];
        } else if i == at {
          assert pack[order[at - 1]] <= pack[order[j - 1]];
        }
      }
    } else if PacksInOrder(r, q) {
      forall x | x in order ensures pack[x] <= p {
        var k :| 0 <= k < |order| && order[k] == x;
        assert r[k] == x && q[r[k]] <= q[r[at]];
      }
    }
  }

  // ---------------------------------------------------------------- the rules on statuses

  /** Shown is the active pack, and of earlier packs what is not completed, exported or cancelled. */
  lemma VisibleWhen(i: PackItem, active: nat)
    ensures IsVisible(i, active) <==> i.pack == active || (i.pack < active && i.status !in {Completed, ZstDone, Cancelled})
  {
  }

  /** Held back is the employee by a case of the active pack that is neither done, nor waiting for the team lead, nor handed over. */
  lemma BlocksWhen(i: PackItem, active: nat)
    ensures Blocks(i, active) <==> i.pack == active && i.status !in {Completed, ZstDone, Cancelled, IssueOpen} && !i.ownPartDone
  {
  }
}
