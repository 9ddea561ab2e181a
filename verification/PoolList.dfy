/**
 * The group-adjacent pool list (cases/teamlead-read.service.ts, `listPool`): rows come
 * sorted; members of one family or delivery are pulled together where the first of them
 * stands, and the result is cut into pages.
 */
module PoolList {
  import opened Options
  import opened Ids
  import opened Sorting
  import BundleMutations
  import PackWindow

  type GroupId = nat

  datatype PoolRow = PoolRow(id: CaseId, parent: Option<CaseId>, isContainer: bool)

  datatype Anchor = Single(id: CaseId) | Group(groupId: GroupId)

  /** A split family goes by its container and beats the detected delivery. */
  function GroupOf(row: PoolRow, deliveries: map<CaseId, GroupId>): Option<GroupId> {
    if row.parent.Some? then row.parent
    else if row.isContainer then Some(row.id)
    else if row.id in deliveries then Some(deliveries[row.id])
    else None
  }

  function Groups(rows: seq<PoolRow>, deliveries: map<CaseId, GroupId>): seq<Option<GroupId>> {
    seq(|rows|, k requires 0 <= k < |rows| => GroupOf(rows[k], deliveries))
  }

  // ---------------------------------------------------------------- the order that is meant

  /** The first place where group `g` occurs; the length when it does not. */
  function FirstOf(groups: seq<Option<GroupId>>, g: GroupId): nat {
    if groups == [] then 0 else if groups[0] == Some(g) then 0 else 1 + FirstOf(groups[1..], g)
  }

  /** Where a row is anchored: at the first member of its group, or at itself. */
  function AnchorOf(groups: seq<Option<GroupId>>, k: nat): nat
    requires k < |groups|
  {
    if groups[k].Some? then FirstOf(groups, groups[k].value) else k
  }

  /** Row `i` stands before row `j`: anchored earlier, or in the same block and sorted earlier. */
  ghost predicate Precedes(groups: seq<Option<GroupId>>, i: nat, j: nat) {
    && i < |groups| && j < |groups|
    && (AnchorOf(groups, i) < AnchorOf(groups, j) || (AnchorOf(groups, i) == AnchorOf(groups, j) && i < j))
  }

  /** `places` is every row once, in the order of anchors, inside a block in the sorted order. */
  ghost predicate IsGroupAdjacent(groups: seq<Option<GroupId>>, places: seq<nat>) {
    && (forall k: nat :: k in places <==> k < |groups|)
    && (forall i, j :: 0 <= i < j < |places| ==> Precedes(groups, places[i], places[j]))
  }

  lemma {:induction false} FirstOfMeans(groups: seq<Option<GroupId>>, g: GroupId)
    ensures FirstOf(groups, g) <= |groups|
    ensures forall k :: 0 <= k < FirstOf(groups, g) ==> groups[k] != Some(g)
    ensures FirstOf(groups, g) < |groups| ==> groups[FirstOf(groups, g)] == Some(g)
  {
    if groups != [] && groups[0] != Some(g) {
      FirstOfMeans(groups[1..], g);
    }
  }

  // ---------------------------------------------------------------- the list

  function IdsAt(rows: seq<PoolRow>, places: seq<nat>): seq<CaseId>
    requires forall i :: 0 <= i < |places| ==> places[i] < |rows|
  {
    seq(|places|, i requires 0 <= i < |places| => rows[places[i]].id)
  }

  function Concat(blocks: seq<seq<nat>>): seq<nat> {
    if blocks == [] then [] else Concat(blocks[..|blocks| - 1]) + blocks[|blocks| - 1]
  }

  /** Block by block: sorted inside, anchored at its first row, blocks in the order of first rows. */
  ghost predicate BlockFits(groups: seq<Option<GroupId>>, block: seq<nat>, n: nat) {
    && n <= |groups| && block != []
    && (forall i, j :: 0 <= i < j < |block| ==> block[i] < block[j])
    && (forall i :: 0 <= i < |block| ==> block[i] < n && AnchorOf(groups, block[i]) == block[0])
  }

  ghost predicate InSomeBlock(blocks: seq<seq<nat>>, k: nat) {
    exists b :: 0 <= b < |blocks| && k in blocks[b]
  }

  /** The blocks after `n` rows. */
  ghost predicate BlocksFit(groups: seq<Option<GroupId>>, blocks: seq<seq<nat>>, n: nat) {
    && (forall b :: 0 <= b < |blocks| ==> BlockFits(groups, blocks[b], n))
    && (forall b, c :: 0 <= b < c < |blocks| ==> blocks[b] != [] && blocks[c] != [] && blocks[b][0] < blocks[c][0])
    && (forall k :: 0 <= k < n ==> InSomeBlock(blocks, k))
  }

  /** An anchor stands for its block. */
  ghost predicate AnchorFits(rows: seq<PoolRow>, groups: seq<Option<GroupId>>, a: Anchor, block: seq<nat>, members: map<GroupId, seq<CaseId>>) {
    && |groups| == |rows| && block != []
    && (forall i :: 0 <= i < |block| ==> block[i] < |rows|)
    && match a
       case Single(id) => block == [block[0]] && id == rows[block[0]].id && groups[block[0]] == None
       case Group(g) => g in members && members[g] == IdsAt(rows, block) && forall i :: 0 <= i < |block| ==> groups[block[i]] == Some(g)
  }

  ghost predicate AnchorsFit(rows: seq<PoolRow>, groups: seq<Option<GroupId>>, anchors: seq<Anchor>, blocks: seq<seq<nat>>, members: map<GroupId, seq<CaseId>>) {
    && |anchors| == |blocks|
    && (forall b :: 0 <= b < |anchors| ==> AnchorFits(rows, groups, anchors[b], blocks[b], members))
    && (forall g :: g in members ==> exists b :: 0 <= b < |anchors| && anchors[b] == Group(g))
    && (forall b, c :: 0 <= b < c < |anchors| && anchors[b].Group? ==> anchors[b] != anchors[c])
  }

  function Resolve(anchors: seq<Anchor>, members: map<GroupId, seq<CaseId>>): seq<CaseId> {
    if anchors == [] then []
    else
      var last := anchors[|anchors| - 1];
      Resolve(anchors[..|anchors| - 1], members)
        + match last
          case Single(id) => [id]
          case Group(g) => if g in members then members[g] else []
  }

  datatype Sighted = Sighted(members: map<GroupId, seq<CaseId>>, anchors: seq<Anchor>)

  /** One row more: a row of its own, a member of a known group, or the first of its group. */
  ghost function Sight(s: Sighted, id: CaseId, group: Option<GroupId>): Sighted {
    if group == None then s.(anchors := s.anchors + [Single(id)])
    else if group.value in s.members then s.(members := s.members[group.value := s.members[group.value] + [id]])
    else Sighted(s.members[group.value := [id]], s.anchors + [Group(group.value)])
  }

  ghost function SightedAt(rows: seq<PoolRow>, groups: seq<Option<GroupId>>, n: nat): Sighted
    requires n <= |rows| == |groups|
  {
    if n == 0 then Sighted(map[], []) else Sight(SightedAt(rows, groups, n - 1), rows[n - 1].id, groups[n - 1])
  }

  /** The ids stand in the group-adjacent order of their rows. */
  ghost predicate StandsInOrder(rows: seq<PoolRow>, deliveries: map<CaseId, GroupId>, ids: seq<CaseId>, places: seq<nat>) {
    && IsGroupAdjacent(Groups(rows, deliveries), places)
    && (forall i :: 0 <= i < |places| ==> places[i] < |rows|)
    && ids == IdsAt(rows, places)
  }

  method OrderPool(rows: seq<PoolRow>, deliveries: map<CaseId, GroupId>) returns (orderedIds: seq<CaseId>)
    ensures exists places :: StandsInOrder(rows, deliveries, orderedIds, places)
  {
    ghost var groups := Groups(rows, deliveries);
    var memberIdsByGroup: map<GroupId, seq<CaseId>> := map[];
    var anchorSeq: seq<Anchor> := [];
    var n := 0;
    while n < |rows|
      invariant 0 <= n <= |rows|
      invariant Sighted(memberIdsByGroup, anchorSeq) == SightedAt(rows, groups, n)
    {
      var id, groupId := rows[n].id, GroupOf(rows[n], deliveries);
      if groupId == None {
        anchorSeq := anchorSeq + [Single(id)];
      } else if groupId.value in memberIdsByGroup {
        memberIdsByGroup := memberIdsByGroup[groupId.value := memberIdsByGroup[groupId.value] + [id]];
      } else {
        memberIdsByGroup := memberIdsByGroup[groupId.value := [id]];
        anchorSeq := anchorSeq + [Group(groupId.value)];
      }
      n := n + 1;
    }
    orderedIds := Resolve(anchorSeq, memberIdsByGroup);
    ghost var s, blocks := SightedHasBlocks(rows, groups, n);
    ghost var places := Concat(blocks);
    BlocksInOrder(groups, blocks, n);
    forall i | 0 <= i < |places| ensures places[i] < |rows| {
      assert places[i] in places;
    }
    ResolveIsConcat(rows, groups, anchorSeq, blocks, memberIdsByGroup);
    assert StandsInOrder(rows, deliveries, orderedIds, places);
  }

  ghost predicate HasBlocks(rows: seq<PoolRow>, groups: seq<Option<GroupId>>, s: Sighted, blocks: seq<seq<nat>>, n: nat) {
    BlocksFit(groups, blocks, n) && AnchorsFit(rows, groups, s.anchors, blocks, s.members)
  }

  lemma {:induction false} SightedHasBlocks(rows: seq<PoolRow>, groups: seq<Option<GroupId>>, n: nat)
    returns (s: Sighted, blocks: seq<seq<nat>>)
    requires n <= |rows| == |groups|
    ensures s == SightedAt(rows, groups, n) && HasBlocks(rows, groups, s, blocks, n)
  {
    if n == 0 {
      s, blocks := Sighted(map[], []), [];
    } else {
      var t, before := SightedHasBlocks(rows, groups, n - 1);
      s := Sight(t, rows[n - 1].id, groups[n - 1]);
      blocks := SightHasBlocks(rows, groups, t, before, n - 1);
    }
  }

  lemma SightHasBlocks(rows: seq<PoolRow>, groups: seq<Option<GroupId>>, s: Sighted, blocks: seq<seq<nat>>, n: nat) returns (now: seq<seq<nat>>)
    requires n < |rows| == |groups| && HasBlocks(rows, groups, s, blocks, n)
    ensures HasBlocks(rows, groups, Sight(s, rows[n].id, groups[n]), now, n + 1)
  {
    if groups[n].Some? && groups[n].value in s.members {
      var b := JoinBlock(rows, groups, s.anchors, blocks, s.members, n);
      now := blocks[b := blocks[b] + [n]];
    } else {
      NewBlock(rows, groups, s.anchors, blocks, s.members, n);
      now := blocks + [[n]];
    }
  }

  // ---------------------------------------------------------------- one row more

  /** A row without a block of its own yet opens one behind all others. */
  lemma {:induction false} NewBlock(rows: seq<PoolRow>, groups: seq<Option<GroupId>>, anchors: seq<Anchor>, blocks: seq<seq<nat>>, members: map<GroupId, seq<CaseId>>, n: nat)
    requires n < |rows| == |groups| && BlocksFit(groups, blocks, n) && AnchorsFit(rows, groups, anchors, blocks, members)
    requires groups[n].Some? ==> groups[n].value !in members
    ensures BlocksFit(groups, blocks + [[n]], n + 1)
    ensures groups[n] == None ==> AnchorsFit(rows, groups, anchors + [Single(rows[n].id)], blocks + [[n]], members)
    ensures groups[n].Some? ==>
      AnchorsFit(rows, groups, anchors + [Group(groups[n].value)], blocks + [[n]], members[groups[n].value := [rows[n].id]])
  {
    AnchoredAtItself(rows, groups, anchors, blocks, members, n);
    BlockOpened(groups, blocks, n);
    if groups[n] == None {
      NewSingle(rows, groups, anchors, blocks, members, n);
    } else {
      NewGroup(rows, groups, anchors, blocks, members, n);
    }
  }

  lemma {:induction false} BlockOpened(groups: seq<Option<GroupId>>, blocks: seq<seq<nat>>, n: nat)
    requires n < |groups| && BlocksFit(groups, blocks, n) && AnchorOf(groups, n) == n
    ensures BlocksFit(groups, blocks + [[n]], n + 1)
  {
    var now := blocks + [[n]];
    forall b | 0 <= b < |now| ensures BlockFits(groups, now[b], n + 1) {
      assert b < |blocks| ==> BlockFits(groups, blocks[b], n);
    }
    forall k: nat | k < n + 1 ensures InSomeBlock(now, k) {
      if k < n {
        assert InSomeBlock(blocks, k);
        var b :| 0 <= b < |blocks| && k in blocks[b];
        assert k in now[b];
      } else {
        assert k in now[|blocks|];
      }
    }
  }

  lemma AnchoredAtItself(rows: seq<PoolRow>, groups: seq<Option<GroupId>>, anchors: seq<Anchor>, blocks: seq<seq<nat>>, members: map<GroupId, seq<CaseId>>, n: nat)
    requires n < |rows| == |groups| && BlocksFit(groups, blocks, n) && AnchorsFit(rows, groups, anchors, blocks, members)
    requires groups[n].Some? ==> groups[n].value !in members
    ensures AnchorOf(groups, n) == n
  {
    if groups[n].Some? {
      var g := groups[n].value;
      FirstOfMeans(groups, g);
      forall k | 0 <= k < n ensures groups[k] != Some(g) {
        assert InSomeBlock(blocks, k);
        var b :| 0 <= b < |blocks| && k in blocks[b];
        assert AnchorFits(rows, groups, anchors[b], blocks[b], members);
        var i :| 0 <= i < |blocks[b]| && blocks[b][i] == k;
      }
    }
  }

  lemma NewSingle(rows: seq<PoolRow>, groups: seq<Option<GroupId>>, anchors: seq<Anchor>, blocks: seq<seq<nat>>, members: map<GroupId, seq<CaseId>>, n: nat)
    requires n < |rows| == |groups| && groups[n] == None && AnchorsFit(rows, groups, anchors, blocks, members)
    ensures AnchorsFit(rows, groups, anchors + [Single(rows[n].id)], blocks + [[n]], members)
  {
    var now := anchors + [Single(rows[n].id)];
    forall g | g in members ensures exists b :: 0 <= b < |now| && now[b] == Group(g) {
      var b :| 0 <= b < |anchors| && anchors[b] == Group(g);
      assert now[b] == Group(g);
    }
  }

  lemma NewGroup(rows: seq<PoolRow>, groups: seq<Option<GroupId>>, anchors: seq<Anchor>, blocks: seq<seq<nat>>, members: map<GroupId, seq<CaseId>>, n: nat)
    requires n < |rows| == |groups| && groups[n].Some? && groups[n].value !in members && AnchorsFit(rows, groups, anchors, blocks, members)
    ensures AnchorsFit(rows, groups, anchors + [Group(groups[n].value)], blocks + [[n]], members[groups[n].value := [rows[n].id]])
  {
    var now, g0 := anchors + [Group(groups[n].value)], groups[n].value;
    var grown := members[g0 := [rows[n].id]];
    assert IdsAt(rows, [n]) == [rows[n].id];
    forall b | 0 <= b < |now| ensures AnchorFits(rows, groups, now[b], (blocks + [[n]])[b], grown) {
      if b < |anchors| {
        assert AnchorFits(rows, groups, anchors[b], blocks[b], members);
      }
    }
    forall g | g in grown ensures exists b :: 0 <= b < |now| && now[b] == Group(g) {
      if g == g0 {
        assert now[|anchors|] == Group(g);
      } else {
        var b :| 0 <= b < |anchors| && anchors[b] == Group(g);
        assert now[b] == Group(g);
      }
    }
    forall b | 0 <= b < |anchors| ensures anchors[b] != Group(g0) {
      assert AnchorFits(rows, groups, anchors[b], blocks[b], members);
    }
  }

  /** A row of a known group joins that group's block at its end. */
  lemma JoinBlock(rows: seq<PoolRow>, groups: seq<Option<GroupId>>, anchors: seq<Anchor>, blocks: seq<seq<nat>>, members: map<GroupId, seq<CaseId>>, n: nat)
    returns (b: nat)
    requires n < |rows| == |groups| && BlocksFit(groups, blocks, n) && AnchorsFit(rows, groups, anchors, blocks, members)
    requires groups[n].Some? && groups[n].value in members
    ensures b < |blocks| && BlocksFit(groups, blocks[b := blocks[b] + [n]], n + 1)
    ensures AnchorsFit(rows, groups, anchors, blocks[b := blocks[b] + [n]],
                       members[groups[n].value := members[groups[n].value] + [rows[n].id]])
  {
    var g := groups[n].value;
    b :| 0 <= b < |anchors| && anchors[b] == Group(g);
    assert AnchorFits(rows, groups, anchors[b], blocks[b], members);
    BlockJoined(groups, blocks, n, b);
    JoinedAnchors(rows, groups, anchors, blocks, members, n, b);
  }

  lemma BlockJoined(groups: seq<Option<GroupId>>, blocks: seq<seq<nat>>, n: nat, b: nat)
    requires n < |groups| && b < |blocks| && BlocksFit(groups, blocks, n)
    requires groups[n].Some? && blocks[b] != [] && blocks[b][0] < |groups| && groups[blocks[b][0]] == groups[n]
    ensures BlocksFit(groups, blocks[b := blocks[b] + [n]], n + 1)
  {
    assert BlockFits(groups, blocks[b], n);
    var block := blocks[b] + [n];
    var now := blocks[b := block];
    assert AnchorOf(groups, block[0]) == block[0];
    assert BlockFits(groups, block, n + 1);
    forall k: nat | k < n + 1 ensures InSomeBlock(now, k) {
      if k < n {
        assert InSomeBlock(blocks, k);
        var c :| 0 <= c < |blocks| && k in blocks[c];
        assert k in now[c];
      } else {
        assert k in now[b];
      }
    }
    forall c | 0 <= c < |now| ensures BlockFits(groups, now[c], n + 1) {
      assert BlockFits(groups, blocks[c], n);
    }
  }

  lemma JoinedAnchors(rows: seq<PoolRow>, groups: seq<Option<GroupId>>, anchors: seq<Anchor>, blocks: seq<seq<nat>>, members: map<GroupId, seq<CaseId>>, n: nat, b: nat)
    requires n < |rows| == |groups| && AnchorsFit(rows, groups, anchors, blocks, members)
    requires groups[n].Some? && groups[n].value in members && b < |anchors| && anchors[b] == Group(groups[n].value)
    ensures AnchorsFit(rows, groups, anchors, blocks[b := blocks[b] + [n]],
                       members[groups[n].value := members[groups[n].value] + [rows[n].id]])
  {
  }

  // ---------------------------------------------------------------- the blocks in a row

  lemma {:induction false} ConcatElements(blocks: seq<seq<nat>>)
    ensures forall k: nat :: k in Concat(blocks) <==> InSomeBlock(blocks, k)
  {
    if blocks != [] {
      var n := |blocks| - 1;
      ConcatElements(blocks[..n]);
      forall k: nat ensures k in Concat(blocks) <==> InSomeBlock(blocks, k) {
        if InSomeBlock(blocks[..n], k) {
          var b :| 0 <= b < n && k in blocks[..n][b];
          assert k in blocks[b];
        }
        if InSomeBlock(blocks, k) && k !in blocks[n] {
          var b :| 0 <= b < |blocks| && k in blocks[b];
          assert k in blocks[..n][b];
        }
      }
    }
  }

  lemma {:induction false} BlocksInOrder(groups: seq<Option<GroupId>>, blocks: seq<seq<nat>>, n: nat)
    requires n == |groups| && BlocksFit(groups, blocks, n)
    ensures IsGroupAdjacent(groups, Concat(blocks))
  {
    ConcatElements(blocks);
    ConcatAscends(groups, blocks, n);
    forall k: nat ensures k in Concat(blocks) <==> k < n {
      if InSomeBlock(blocks, k) {
        var b :| 0 <= b < |blocks| && k in blocks[b];
        assert BlockFits(groups, blocks[b], n);
      }
    }
  }

  lemma {:induction false} ConcatAscends(groups: seq<Option<GroupId>>, blocks: seq<seq<nat>>, n: nat)
    requires forall b :: 0 <= b < |blocks| ==> BlockFits(groups, blocks[b], n)
    requires forall b, c :: 0 <= b < c < |blocks| ==> blocks[b] != [] && blocks[c] != [] && blocks[b][0] < blocks[c][0]
    ensures forall i, j :: 0 <= i < j < |Concat(blocks)| ==> Precedes(groups, Concat(blocks)[i], Concat(blocks)[j])
  {
    if blocks != [] {
      var m := |blocks| - 1;
      var front, last := Concat(blocks[..m]), blocks[m];
      ConcatAscends(groups, blocks[..m], n);
      ConcatElements(blocks[..m]);
      assert BlockFits(groups, last, n);
      forall i, j | 0 <= i < j < |Concat(blocks)| ensures Precedes(groups, Concat(blocks)[i], Concat(blocks)[j]) {
        if j >= |front| {
          assert Concat(blocks)[j] == last[j - |front|];
          if i < |front| {
            assert front[i] in front;
            var b :| 0 <= b < m && front[i] in blocks[..m][b];
            assert BlockFits(groups, blocks[b], n);
          } else {
            assert Concat(blocks)[i] == last[i - |front|];
          }
        }
      }
    }
  }

  lemma {:induction false} ResolveIsConcat(rows: seq<PoolRow>, groups: seq<Option<GroupId>>, anchors: seq<Anchor>, blocks: seq<seq<nat>>, members: map<GroupId, seq<CaseId>>)
    requires |anchors| == |blocks| && forall b :: 0 <= b < |anchors| ==> AnchorFits(rows, groups, anchors[b], blocks[b], members)
    ensures forall i :: 0 <= i < |Concat(blocks)| ==> Concat(blocks)[i] < |rows|
    ensures Resolve(anchors, members) == IdsAt(rows, Concat(blocks))
  {
    if blocks != [] {
      var m := |blocks| - 1;
      ResolveIsConcat(rows, groups, anchors[..m], blocks[..m], members);
      assert AnchorFits(rows, groups, anchors[m], blocks[m], members);
      assert Concat(blocks) == Concat(blocks[..m]) + blocks[m];
      assert anchors[m].Single? ==> IdsAt(rows, blocks[m]) == [anchors[m].id];
    }
  }

  // ---------------------------------------------------------------- what group-adjacent means

  /** Nothing is lost or doubled. */
  lemma ListIsPermutation(groups: seq<Option<GroupId>>, places: seq<nat>)
    requires IsGroupAdjacent(groups, places)
    ensures Distinct(places) && |places| == |groups|
  {
    forall i, j | 0 <= i < j < |places| ensures places[i] != places[j] {
      assert Precedes(groups, places[i], places[j]);
    }
    DistinctCount(places, |groups|);
  }

  lemma {:induction false} DistinctCount(places: seq<nat>, n: nat)
    requires Distinct(places) && forall k: nat :: k in places <==> k < n
    ensures |places| == n
  {
    PackWindow.SetOfDistinct(places);
    var numbers := BundleMutations.UpTo(n);
    assert PackWindow.Elements(places) == numbers;
  }

  lemma {:induction false} AnchorMeans(groups: seq<Option<GroupId>>, k: nat)
    requires k < |groups|
    ensures AnchorOf(groups, k) <= k && groups[AnchorOf(groups, k)] == groups[k]
    ensures forall m :: 0 <= m < |groups| && groups[m].Some? && groups[m] == groups[k] ==> AnchorOf(groups, m) == AnchorOf(groups, k)
  {
    if groups[k].Some? {
      FirstOfMeans(groups, groups[k].value);
    }
  }

  /** A family or delivery is one contiguous block. */
  lemma GroupsAreContiguous(groups: seq<Option<GroupId>>, places: seq<nat>, i: nat, j: nat, k: nat)
    requires IsGroupAdjacent(groups, places) && i < j < k < |places|
    requires places[i] < |groups| && places[j] < |groups| && places[k] < |groups|
    requires groups[places[i]].Some? && groups[places[i]] == groups[places[k]]
    ensures groups[places[j]] == groups[places[i]]
  {
    assert Precedes(groups, places[i], places[j]) && Precedes(groups, places[j], places[k]);
    AnchorMeans(groups, places[i]);
    AnchorMeans(groups, places[j]);
  }

  /** Members keep their sorted order, and their block stands where the first of them stood among the blocks. */
  lemma BlocksStandByFirstMember(groups: seq<Option<GroupId>>, places: seq<nat>, i: nat, j: nat)
    requires IsGroupAdjacent(groups, places) && i < j < |places|
    ensures places[i] < |groups| && places[j] < |groups|
    ensures groups[places[i]].Some? && groups[places[i]] == groups[places[j]] ==> places[i] < places[j]
    ensures AnchorOf(groups, places[i]) <= AnchorOf(groups, places[j])
    ensures groups[places[i]] == None && groups[places[j]] == None ==> places[i] < places[j]
  {
  }

  /** The list is determined: there is one group-adjacent order. */
  lemma {:induction false} OrderIsDetermined(groups: seq<Option<GroupId>>, a: seq<nat>, b: seq<nat>)
    requires (forall k :: k in a <==> k in b)
    requires forall i, j :: 0 <= i < j < |a| ==> Precedes(groups, a[i], a[j])
    requires forall i, j :: 0 <= i < j < |b| ==> Precedes(groups, b[i], b[j])
    ensures a == b
  {
    assert a != [] ==> a[0] in b;
    assert b != [] ==> b[0] in a;
    if a != [] {
      var i :| 0 <= i < |b| && b[i] == a[0];
      var j :| 0 <= j < |a| && a[j] == b[0];
      HeadIsFirst(groups, b, i);
      HeadIsFirst(groups, a, j);
      assert a[0] == b[0];
      forall k ensures k in a[1..] <==> k in b[1..] {
        NotInTail(groups, a, k);
        NotInTail(groups, b, k);
      }
      assert a == [a[0]] + a[1..] && b == [b[0]] + b[1..];
      OrderIsDetermined(groups, a[1..], b[1..]);
    }
  }

  lemma HeadIsFirst(groups: seq<Option<GroupId>>, a: seq<nat>, i: nat)
    requires i < |a| && forall i, j :: 0 <= i < j < |a| ==> Precedes(groups, a[i], a[j])
    ensures a[0] == a[i] || Precedes(groups, a[0], a[i])
  {
  }

  lemma NotInTail(groups: seq<Option<GroupId>>, a: seq<nat>, k: nat)
    requires a != [] && forall i, j :: 0 <= i < j < |a| ==> Precedes(groups, a[i], a[j])
    ensures k in a[1..] <==> k in a && k != a[0]
  {
  }

  // ---------------------------------------------------------------- pages

  function Clamp(n: nat, max: nat): nat {
    if n < max then n else max
  }

  /** `slice((page - 1) * limit, page * limit)` for pages from 1. */
  function Page(ids: seq<CaseId>, page: nat, limit: nat): seq<CaseId>
    requires page >= 1
  {
    ids[Clamp((page - 1) * limit, |ids|)..Clamp(page * limit, |ids|)]
  }

  function PagesUpTo(ids: seq<CaseId>, page: nat, limit: nat): seq<CaseId> {
    if page == 0 then [] else PagesUpTo(ids, page - 1, limit) + Page(ids, page, limit)
  }

  /** The pages one after the other are the list: no gap, no repeat, and nothing behind the last one. */
  lemma {:induction false} PagesConcatenate(ids: seq<CaseId>, page: nat, limit: nat)
    ensures PagesUpTo(ids, page, limit) == ids[..Clamp(page * limit, |ids|)]
    ensures page * limit >= |ids| ==> PagesUpTo(ids, page, limit) == ids
  {
    if page > 0 {
      PagesConcatenate(ids, page - 1, limit);
      assert page * limit == (page - 1) * limit + limit;
    }
  }

  // ---------------------------------------------------------------- families and deliveries

  /** Container and parts of one split go by the container's id, whatever delivery was detected for them. */
  lemma FamilyBeatsDelivery(row: PoolRow, deliveries: map<CaseId, GroupId>)
    ensures row.parent.Some? ==> GroupOf(row, deliveries) == row.parent
    ensures row.parent == None && row.isContainer ==> GroupOf(row, deliveries) == Some(row.id)
    ensures row.parent == None && !row.isContainer && row.id in deliveries ==> GroupOf(row, deliveries) == Some(deliveries[row.id])
    ensures row.parent == None && !row.isContainer && row.id !in deliveries ==> GroupOf(row, deliveries) == None
  {
  }

  /** So in the list nothing stands between a container and its parts, or between two parts, but their family. */
  lemma FamilyIsContiguous(rows: seq<PoolRow>, deliveries: map<CaseId, GroupId>, places: seq<nat>, i: nat, j: nat, k: nat, parent: CaseId)
    requires IsGroupAdjacent(Groups(rows, deliveries), places) && i < j < k < |places|
    requires places[i] < |rows| && places[j] < |rows| && places[k] < |rows|
    requires rows[places[i]].parent == Some(parent) || (rows[places[i]].parent == None && rows[places[i]].isContainer && rows[places[i]].id == parent)
    requires rows[places[k]].parent == Some(parent) || (rows[places[k]].parent == None && rows[places[k]].isContainer && rows[places[k]].id == parent)
    ensures var row := rows[places[j]];
      || row.parent == Some(parent) || (row.parent == None && row.isContainer && row.id == parent)
      || (row.parent == None && !row.isContainer && row.id in deliveries && deliveries[row.id] == parent)
  {
    GroupsAreContiguous(Groups(rows, deliveries), places, i, j, k);
    FamilyBeatsDelivery(rows[places[j]], deliveries);
  }
}
