/**
 * How a case gets onto a cart by hand (cases/teamlead.service.ts): find or create the
 * employee's bundle of the day, check the cases, append them behind what is there.
 */
module Placement {
  import opened Options
  import opened CaseStatus
  import opened Ids
  import opened Database
  import opened StoreInvariant
  import opened BundleMutations
  import opened Sorting
  import PackWindow

  // ---------------------------------------------------------------- the bundle of the day

  predicate IsOpenFor(d: Store, b: BundleId, e: EmployeeId, day: nat) {
    b in d.bundles && IsOpen(d.bundles[b]) && d.bundles[b].employee == e && d.bundles[b].day == day
  }

  /** The store once `b` is there: unchanged if it was, otherwise with a new empty bundle. */
  function Opened(d: Store, b: BundleId, e: EmployeeId, day: nat): Store {
    if b in d.bundles then d else AddBundle(d, b, e, day)
  }

  predicate MayReceive(staff: map<EmployeeId, bool>, e: EmployeeId) {
    e in staff && staff[e]
  }

  method FindOrCreateBundle(tx: Tables, e: EmployeeId, day: nat) returns (outcome: Outcome, b: BundleId)
    requires Inv(tx.State())
    modifies tx
    ensures outcome == NotFound <==> e !in tx.staff
    ensures outcome == Done <==> MayReceive(tx.staff, e)
    ensures outcome == Done <==> e in tx.staff && tx.staff[e]
    ensures outcome != BadRequest
    ensures outcome != Done ==> tx.State() == old(tx.State())
    ensures outcome == Done ==> tx.State() == Opened(old(tx.State()), b, e, day) && IsOpenFor(tx.State(), b, e, day)
    ensures outcome == Done ==> (b in old(tx.bundles) <==> exists x :: IsOpenFor(old(tx.State()), x, e, day))
    ensures Inv(tx.State()) && Follows(old(tx.State()), tx.State())
  {
    b := 0;
    if e !in tx.staff {
      return NotFound, 0;
    }
    if !tx.staff[e] {
      return Conflict, 0;
    }
    var before := tx.State();
    if exists x :: x in tx.bundles && IsOpenFor(before, x, e, day) {
      b :| b in tx.bundles && IsOpenFor(before, b, e, day);
    } else {
      b := FreshId(tx.bundles.Keys);
      assert forall x :: x in before.bundles ==> !IsOpenFor(before, x, e, day);
      AddBundleKeepsInv(before, b, e, day);
      tx.bundles := tx.bundles[b := Bundle(e, day, BundleAssigned, 0)];
    }
    outcome := Done;
  }

  /** The invariant unfolded: an employee's open bundle of a day is unique, so "the earliest one" is the only one. */
  lemma OpenBundleIsUnique(d: Store, a: BundleId, b: BundleId, e: EmployeeId, day: nat)
    requires Inv(d) && IsOpenFor(d, a, e, day) && IsOpenFor(d, b, e, day)
    ensures a == b
  {
  }

  // ---------------------------------------------------------------- what lies in a bundle

  function ItemsOf(items: map<CaseId, Item>, b: BundleId): set<CaseId> {
    set c | c in items && items[c].bundle == b
  }

  lemma ListingHasAll(items: map<CaseId, Item>, b: BundleId, order: seq<CaseId>)
    requires IsListing(items, b, order)
    ensures |order| == |ItemsOf(items, b)|
  {
    SizeOfMembers(order);
    assert Members(order) == ItemsOf(items, b);
  }

  function PacksOf(items: map<CaseId, Item>, order: seq<CaseId>): seq<nat>
    requires forall c :: c in order ==> c in items
  {
    seq(|order|, i requires 0 <= i < |order| => items[order[i]].pack)
  }

  /** `p` is the highest pack of the bundle; -1 when it is empty. */
  ghost predicate IsLastPack(items: map<CaseId, Item>, b: BundleId, p: int) {
    && (forall c :: c in ItemsOf(items, b) ==> items[c].pack <= p)
    && (if ItemsOf(items, b) == {} then p == -1 else exists c :: c in ItemsOf(items, b) && items[c].pack == p)
  }

  /** `lastPackIndex(bundle.items)`, whatever order the items were loaded in. */
  method LastPack(tx: Tables, b: BundleId, order: seq<CaseId>) returns (p: int)
    requires IsListing(tx.items, b, order)
    ensures IsLastPack(tx.items, b, p) && p >= -1
  {
    var packs := PacksOf(tx.items, order);
    PackWindow.LastPackIndexIsMaximum(packs);
    p := PackWindow.LastPackIndex(packs);
    forall c | c in ItemsOf(tx.items, b) ensures tx.items[c].pack <= p {
      var i :| 0 <= i < |order| && order[i] == c;
      assert packs[i] == tx.items[c].pack && packs[i] in packs;
    }
    if order != [] {
      var i :| 0 <= i < |packs| && packs[i] == p;
      assert order[i] in ItemsOf(tx.items, b);
    }
  }

  /** The pack a case joins: the asked one, else the last one, else the first of an empty bundle. */
  ghost predicate JoinsPack(items: map<CaseId, Item>, b: BundleId, target: Option<nat>, pack: nat) {
    if target.Some? then pack == target.value
    else IsLastPack(items, b, pack) || (pack == 0 && IsLastPack(items, b, -1))
  }

  // ---------------------------------------------------------------- appending

  method TargetPack(tx: Tables, b: BundleId, order: seq<CaseId>, target: Option<nat>) returns (pack: nat)
    requires IsListing(tx.items, b, order)
    ensures JoinsPack(tx.items, b, target, pack)
  {
    if target.Some? {
      return target.value;
    }
    var last := LastPack(tx, b, order);
    pack := if last < 0 then 0 else last;
  }

  /** Appending one case more. */
  lemma PlaceStep(d: Store, cs: seq<CaseId>, i: nat, b: BundleId, start: nat, pack: nat, createdBy: Author)
    requires Distinct(cs) && i < |cs| && cs[i] in d.cases && cs[i] !in d.items
    ensures cs[i] !in PlacedItems(d.items, cs[..i], b, start, pack, createdBy)
    ensures PlacedItems(d.items, cs[..i + 1], b, start, pack, createdBy)
            == PlacedItems(d.items, cs[..i], b, start, pack, createdBy)[cs[i] := Item(b, start + i, pack, createdBy)]
    ensures PlacedCases(d.cases, cs[..i + 1], b)
            == PlacedCases(d.cases, cs[..i], b)[cs[i] := OnBundle(PlacedCases(d.cases, cs[..i], b)[cs[i]], b)]
  {
    assert cs[..i + 1][..i] == cs[..i] && cs[i] !in cs[..i];
    assert cs[..i + 1] == cs[..i] + [cs[i]];
    PlacedItemsEffect(d.items, cs[..i], b, start, pack, createdBy);
  }

  /** Items behind the existing ones, cases linked and `assigned`; every insert hits a free key. */
  method AppendCases(tx: Tables, b: BundleId, order: seq<CaseId>, cs: seq<CaseId>, target: Option<nat>) returns (ghost pack: nat)
    requires IsListing(tx.items, b, order) && Distinct(cs)
    requires forall c :: c in cs ==> c in tx.cases && c !in tx.items
    modifies tx`cases, tx`items
    ensures JoinsPack(old(tx.items), b, target, pack)
    ensures tx.State() == PlaceAll(old(tx.State()), cs, b, |ItemsOf(old(tx.items), b)|, pack, ByTeamlead)
  {
    ListingHasAll(tx.items, b, order);
    var packIndex := TargetPack(tx, b, order, target);
    pack := packIndex;
    var nextSeq := |order|;
    var i := 0;
    ghost var before := tx.State();
    while i < |cs|
      invariant 0 <= i <= |cs| && nextSeq == |order| + i
      invariant tx.items == PlacedItems(before.items, cs[..i], b, |order|, packIndex, ByTeamlead)
      invariant tx.cases == PlacedCases(before.cases, cs[..i], b)
    {
      var c := cs[i];
      PlaceStep(before, cs, i, b, |order|, packIndex, ByTeamlead);
      tx.items := tx.items[c := Item(b, nextSeq, packIndex, ByTeamlead)];
      tx.cases := tx.cases[c := OnBundle(tx.cases[c], b)];
      nextSeq, i := nextSeq + 1, i + 1;
    }
    assert cs[..i] == cs;
  }

  predicate AllReady(d: Store, cs: seq<CaseId>) {
    forall c :: c in cs ==> c in d.cases && d.cases[c].status == Ready
  }

  /** All or nothing: every case is checked before the first write. */
  method AddCases(tx: Tables, b: BundleId, order: seq<CaseId>, cs: seq<CaseId>, target: Option<nat>)
    returns (outcome: Outcome, ghost pack: nat)
    requires Inv(tx.State()) && b in tx.bundles && IsListing(tx.items, b, order)
    modifies tx
    ensures outcome == BadRequest <==> IsOpen(old(tx.bundles[b])) && !Distinct(cs)
    ensures outcome != NotFound
    ensures outcome == Done <==> IsOpen(old(tx.bundles[b])) && Distinct(cs) && AllReady(old(tx.State()), cs)
    ensures outcome != Done ==> tx.State() == old(tx.State())
    ensures outcome == Done ==>
      && JoinsPack(old(tx.items), b, target, pack)
      && tx.State() == PlaceAll(old(tx.State()), cs, b, |ItemsOf(old(tx.items), b)|, pack, ByTeamlead)
    ensures Inv(tx.State()) && Follows(old(tx.State()), tx.State())
  {
    pack := 0;
    if !IsOpen(tx.bundles[b]) {
      return Conflict, 0;
    }
    DedupProperties(cs);
    if |Dedup(cs)| != |cs| {
      return BadRequest, 0;
    }
    ghost var before := tx.State();
    if !AllReady(tx.State(), cs) {
      return Conflict, 0;
    }
    forall c | c in cs ensures c !in tx.items && c !in tx.participants {
      PoolCaseIsFree(before, c);
    }
    pack := AppendCases(tx, b, order, cs, target);
    PlaceAllKeepsInv(before, cs, b, |ItemsOf(before.items, b)|, pack, ByTeamlead);
    outcome := Done;
  }

  // ---------------------------------------------------------------- where the appended case stands

  /**
   * The new number is the number of items, so the appended case comes last exactly when no
   * item has that number or a higher one. Where an earlier step left gaps it may come first.
   */
  lemma AppendedIsLast(items: map<CaseId, Item>, b: BundleId, c: CaseId, pack: nat)
    requires c !in items
    ensures var n := |ItemsOf(items, b)|;
      var now := PlacedItems(items, [c], b, n, pack, ByTeamlead);
      (forall x :: x in ItemsOf(items, b) ==> items[x].sequence < n)
      <==> (forall listing | IsListing(now, b, listing) :: EndsWith(listing, c))
  {
    var n := |ItemsOf(items, b)|;
    var now := items[c := Item(b, n, pack, ByTeamlead)];
    assert [c][..0] == [] && PlacedItems(items, [], b, n, pack, ByTeamlead) == items;
    assert PlacedItems(items, [c], b, n, pack, ByTeamlead) == now;
    if x :| x in ItemsOf(items, b) && items[x].sequence >= n {
      var listing := ListingWithLateItem(now, b, c, x);
    } else {
      forall listing | IsListing(now, b, listing) ensures EndsWith(listing, c) {
        HighestIsLast(now, b, c, listing);
      }
    }
  }

  ghost predicate EndsWith(order: seq<CaseId>, c: CaseId) {
    |order| > 0 && order[|order| - 1] == c
  }

  lemma HighestIsLast(items: map<CaseId, Item>, b: BundleId, c: CaseId, listing: seq<CaseId>)
    requires c in items && items[c].bundle == b && IsListing(items, b, listing)
    requires forall x :: x in items && items[x].bundle == b && x != c ==> items[x].sequence < items[c].sequence
    ensures EndsWith(listing, c)
  {
  }

  lemma ListingWithLateItem(items: map<CaseId, Item>, b: BundleId, c: CaseId, x: CaseId) returns (listing: seq<CaseId>)
    requires c in ItemsOf(items, b) && x in ItemsOf(items, b) && x != c && items[x].sequence >= items[c].sequence
    ensures IsListing(items, b, listing) && !EndsWith(listing, c)
  {
    var late := LateItems(items, b, items[c].sequence);
    var front := SomeListing(items, ItemsOf(items, b) - late);
    var back := SomeListing(items, late - {c});
    ListingOfThree(items, b, c, items[c].sequence, front, back);
    listing := front + [c] + back;
    assert x in back;
    assert listing[|listing| - 1] == back[|back| - 1] && back[|back| - 1] in back;
  }

  ghost function LateItems(items: map<CaseId, Item>, b: BundleId, n: nat): set<CaseId> {
    set c | c in ItemsOf(items, b) && items[c].sequence >= n
  }

  ghost predicate Lists(items: map<CaseId, Item>, s: set<CaseId>, order: seq<CaseId>) {
    && Distinct(order)
    && (forall c :: c in order <==> c in s)
    && (forall i, j :: 0 <= i < j < |order| && order[i] in items && order[j] in items
          ==> items[order[i]].sequence <= items[order[j]].sequence)
  }

  lemma {:induction false} SomeListing(items: map<CaseId, Item>, s: set<CaseId>) returns (order: seq<CaseId>)
    requires s <= items.Keys
    ensures Lists(items, s, order)
    decreases |s|
  {
    order := [];
    if s != {} {
      var c := EarliestItem(items, s);
      var rest := SomeListing(items, s - {c});
      order := [c] + rest;
    }
  }

  lemma ListingOfThree(items: map<CaseId, Item>, b: BundleId, c: CaseId, n: nat, front: seq<CaseId>, back: seq<CaseId>)
    requires c in ItemsOf(items, b) && items[c].sequence == n
    requires Lists(items, ItemsOf(items, b) - LateItems(items, b, n), front)
    requires Lists(items, LateItems(items, b, n) - {c}, back)
    ensures IsListing(items, b, front + [c] + back)
  {
    var order := front + [c] + back;
    forall x ensures x in order <==> x in items && items[x].bundle == b {
      assert x in order <==> x in front || x == c || x in back;
      assert x in ItemsOf(items, b) <==> x in items && items[x].bundle == b;
    }
    forall i, j | 0 <= i < j < |order| ensures order[i] != order[j] && items[order[i]].sequence <= items[order[j]].sequence {
      assert order[i] in front || order[i] == c || order[i] in back;
      if i < |front| {
        assert order[i] == front[i] && order[i] in front;
        if j > |front| { assert order[j] == back[j - |front| - 1] && order[j] in back; }
      } else {
        assert order[j] == back[j - |front| - 1] && order[j] in back;
        if i > |front| { assert order[i] == back[i - |front| - 1] && order[i] in back; }
      }
    }
  }

  /** Appending to a gapless bundle keeps it gapless, the new cases behind the old ones. */
  lemma {:induction false} AppendKeepsGapless(items: map<CaseId, Item>, b: BundleId, order: seq<CaseId>, cs: seq<CaseId>, pack: nat, createdBy: Author)
    requires IsGapless(items, b, order) && Distinct(cs) && forall c :: c in cs ==> c !in items
    ensures IsGapless(PlacedItems(items, cs, b, |order|, pack, createdBy), b, order + cs)
  {
    PlacedItemsEffect(items, cs, b, |order|, pack, createdBy);
    var all := order + cs;
    var now := PlacedItems(items, cs, b, |order|, pack, createdBy);
    forall i | 0 <= i < |all| ensures all[i] in now && now[all[i]].sequence == i {
      if i < |order| {
        assert all[i] in order;
      } else {
        assert all[i] == cs[i - |order|];
      }
    }
    forall i, j | 0 <= i < j < |all| ensures all[i] != all[j] {
      assert now[all[i]].sequence == i;
    }
    forall c ensures c in all <==> c in now && now[c].bundle == b {
      if c in cs {
        var i :| 0 <= i < |cs| && cs[i] == c;
      }
    }
  }

  // ---------------------------------------------------------------- open bundles and packs, in columns

  /** Open is every bundle but a completed or a cancelled one; a paused one still takes cases. */
  lemma OpenForWhen(d: Store, b: BundleId, e: EmployeeId, day: nat)
    ensures IsOpenFor(d, b, e, day) <==>
      && b in d.bundles && d.bundles[b].employee == e && d.bundles[b].day == day
      && d.bundles[b].status in {BundleCreated, BundleAssigned, BundleAccepted, BundleActive, BundlePaused}
  {
  }

  /** Without a wish a case joins the highest pack of the bundle, and pack 0 of an empty one. */
  lemma JoinsPackMeans(items: map<CaseId, Item>, b: BundleId, target: Option<nat>, pack: nat)
    requires JoinsPack(items, b, target, pack)
    ensures target.Some? ==> pack == target.value
    ensures target == None ==>
      && (forall c :: c in items && items[c].bundle == b ==> items[c].pack <= pack)
      && (if exists c :: c in items && items[c].bundle == b
          then exists c :: c in items && items[c].bundle == b && items[c].pack == pack
          else pack == 0)
  {
    forall c ensures c in items && items[c].bundle == b <==> c in ItemsOf(items, b) {
    }
  }
}
