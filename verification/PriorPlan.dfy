/**
 * Clearing the day's earlier plan before a recalculation (assignment/assignment.service.ts,
 * `clearPriorPlanForDate`): what the engine placed and nobody has touched goes back to the
 * pool; the team lead's placements and the pack in work stay.
 */
module PriorPlan {
  import opened Options
  import opened CaseStatus
  import opened Ids
  import opened Database
  import opened StoreInvariant
  import Collaboration

  // ---------------------------------------------------------------- what is cleared

  function BundlesOf(d: Store, day: nat): set<BundleId> {
    set b | b in d.bundles && d.bundles[b].day == day
  }

  /** A member of the active pack is past `assigned`, or its goods are already fetched. */
  predicate IsTouched(d: Store, b: BundleId)
    requires b in d.bundles
  {
    exists c :: c in d.items && IsTouchedCase(d, b, c)
  }

  predicate IsTouchedCase(d: Store, b: BundleId, c: CaseId)
    requires b in d.bundles
  {
    && c in d.items && d.items[c].bundle == b && d.items[c].pack == d.bundles[b].activePack
    && c in d.cases && (d.cases[c].status != Assigned || d.cases[c].collected)
  }

  /** The active pack is untouchable once it is touched, or when the employee pulled it. */
  predicate IsLocked(d: Store, b: BundleId)
    requires b in d.bundles
  {
    d.bundles[b].activePack > 0 || IsTouched(d, b)
  }

  predicate InLockedPack(d: Store, c: CaseId) {
    c in d.items && d.items[c].bundle in d.bundles && IsLocked(d, d.items[c].bundle)
    && d.items[c].pack == d.bundles[d.items[c].bundle].activePack
  }

  predicate IsReverted(d: Store, day: nat, c: CaseId) {
    && c in d.items && c in d.cases
    && d.items[c].bundle in BundlesOf(d, day)
    && d.items[c].createdBy == BySystem && d.cases[c].status == Assigned
    && !InLockedPack(d, c)
  }

  function RevertedCases(d: Store, day: nat): set<CaseId> {
    set c | c in d.items && IsReverted(d, day, c)
  }

  predicate IsReferenced(d: Store, b: BundleId) {
    exists c :: c in d.cases && d.cases[c].bundle == Some(b)
  }

  function EmptyBundles(d: Store, day: nat): set<BundleId> {
    set b | b in BundlesOf(d, day) && !IsReferenced(d, b)
  }

  function Cleared(d: Store, day: nat): Store {
    var reverted := UnlinkAll(d, RevertedCases(d, day), false);
    DeleteBundles(reverted, EmptyBundles(reverted, day))
  }

  // ---------------------------------------------------------------- the transaction

  /** Per bundle the index of the untouchable pack, or nothing. */
  method LockedPacks(tx: Tables, bundleIds: set<BundleId>) returns (locked: map<BundleId, Option<nat>>)
    requires bundleIds <= tx.bundles.Keys
    ensures locked.Keys == bundleIds
    ensures forall b :: b in bundleIds ==>
      locked[b] == if IsLocked(tx.State(), b) then Some(tx.bundles[b].activePack) else None
  {
    locked := map[];
    var rest := bundleIds;
    while rest != {}
      invariant rest <= bundleIds && locked.Keys == bundleIds - rest
      invariant forall b :: b in locked ==>
        locked[b] == if IsLocked(tx.State(), b) then Some(tx.bundles[b].activePack) else None
    {
      var b :| b in rest;
      var touched := IsTouched(tx.State(), b);
      locked := locked[b := if tx.bundles[b].activePack > 0 || touched then Some(tx.bundles[b].activePack) else None];
      rest := rest - {b};
    }
  }

  /** Dissolves the collaborations of several cases, one by one. */
  method DissolveAll(tx: Tables, cs: set<CaseId>)
    modifies tx`participants
    ensures tx.participants == Dissolved(old(tx.participants), cs)
  {
    var rest := cs;
    assert tx.participants == Dissolved(tx.participants, {});
    while rest != {}
      invariant rest <= cs
      invariant tx.participants == Dissolved(old(tx.participants), cs - rest)
    {
      var c :| c in rest;
      var former := Collaboration.Dissolve(tx, c);
      rest := rest - {c};
    }
    assert cs - rest == cs;
  }

  /** Items, links and collaborations of the reverted cases. */
  method RevertCases(tx: Tables, day: nat)
    modifies tx
    ensures tx.State() == UnlinkAll(old(tx.State()), RevertedCases(old(tx.State()), day), false)
  {
    ghost var before := tx.State();
    var bundleIds := BundlesOf(tx.State(), day);
    var locked := LockedPacks(tx, bundleIds);
    var revertable := set c | c in tx.items && tx.items[c].bundle in bundleIds && tx.items[c].createdBy == BySystem
      && c in tx.cases && tx.cases[c].status == Assigned;
    var reverted := set c | c in revertable && Some(tx.items[c].pack) != locked[tx.items[c].bundle];
    assert reverted == RevertedCases(before, day);
    if reverted != {} {
      tx.items := WithoutItems(tx.items, reverted);
      tx.cases := UnlinkedCases(tx.cases, reverted, false);
      DissolveAll(tx, reverted);
    } else {
      UnlinkNothing(before);
    }
  }

  method ClearPriorPlan(tx: Tables, day: nat)
    requires Inv(tx.State())
    modifies tx
    ensures tx.State() == Cleared(old(tx.State()), day)
    ensures Inv(tx.State()) && Follows(old(tx.State()), tx.State())
  {
    ghost var before := tx.State();
    ClearedKeepsInv(before, day);
    if BundlesOf(tx.State(), day) == {} {
      NothingToClear(before, day);
      return;
    }
    RevertCases(tx, day);
    var deletable := EmptyBundles(tx.State(), day);
    if deletable == {} {
      DeleteNothing(tx.State());
      return;
    }
    var after := DeleteBundles(tx.State(), deletable);
    tx.items, tx.stops, tx.bundles := after.items, after.stops, after.bundles;
  }

  lemma UnlinkNothing(d: Store)
    ensures UnlinkAll(d, {}, false) == d
  {
  }

  lemma DeleteNothing(d: Store)
    ensures DeleteBundles(d, {}) == d
  {
  }

  lemma NothingToClear(d: Store, day: nat)
    requires BundlesOf(d, day) == {}
    ensures Cleared(d, day) == d
  {
  }

  lemma ClearedKeepsInv(d: Store, day: nat)
    requires Inv(d)
    ensures Inv(Cleared(d, day)) && Follows(d, Cleared(d, day))
  {
    var mid := UnlinkAll(d, RevertedCases(d, day), false);
    UnlinkAllKeepsInv(d, RevertedCases(d, day), false);
    DeleteBundlesKeepsInv(mid, EmptyBundles(mid, day));
    FollowsTransitive(d, mid, Cleared(d, day));
  }

  // ---------------------------------------------------------------- what clearing means

  /** Exactly the reverted cases change; of the others' items only those of emptied bundles go. */
  lemma ClearReturnsExactly(d: Store, day: nat, c: CaseId)
    requires c in d.cases
    ensures Cleared(d, day).cases[c] == if IsReverted(d, day, c) then Unlinked(d.cases[c], false) else d.cases[c]
    ensures IsReverted(d, day, c) ==> c !in Cleared(d, day).items && c !in Cleared(d, day).participants
    ensures Inv(d) && !IsReverted(d, day, c) && d.cases[c].bundle.Some? ==>
      c in d.items && c in Cleared(d, day).items && Cleared(d, day).items[c] == d.items[c]
  {
    assert c in RevertedCases(d, day) <==> IsReverted(d, day, c);
    if Inv(d) && !IsReverted(d, day, c) && d.cases[c].bundle.Some? {
      assert CaseFits(d, c);
      var mid := UnlinkAll(d, RevertedCases(d, day), false);
      assert mid.cases[c].bundle == Some(d.items[c].bundle);
      assert IsReferenced(mid, d.items[c].bundle);
    }
  }

  /** The active pack stays locked: whatever locked it is never cleared away. */
  lemma LockSurvives(d: Store, day: nat, b: BundleId)
    requires b in d.bundles && b in Cleared(d, day).bundles
    ensures IsLocked(Cleared(d, day), b) <==> IsLocked(d, b)
  {
    var e := Cleared(d, day);
    assert e.bundles[b] == d.bundles[b];
    if c :| c in d.items && IsTouchedCase(d, b, c) {
      assert InLockedPack(d, c) && !IsReverted(d, day, c);
      assert IsTouchedCase(e, b, c);
    }
    if c :| c in e.items && IsTouchedCase(e, b, c) {
      assert IsTouchedCase(d, b, c);
    }
  }

  /** Clearing twice is clearing once. */
  lemma ClearIsIdempotent(d: Store, day: nat)
    ensures Cleared(Cleared(d, day), day) == Cleared(d, day)
  {
    var e := Cleared(d, day);
    forall c | c in e.items ensures !IsReverted(e, day, c) {
      assert e.items[c] == d.items[c] && !IsReverted(d, day, c);
      if d.items[c].bundle in e.bundles && d.items[c].bundle in d.bundles {
        LockSurvives(d, day, d.items[c].bundle);
      }
    }
    assert RevertedCases(e, day) == {};
    UnlinkNothing(e);
    forall b | b in BundlesOf(e, day) ensures IsReferenced(e, b) {
      EveryBundleIsUsed(d, day, b);
    }
    assert EmptyBundles(e, day) == {};
    DeleteNothing(e);
  }

  /** A bundle of the day survives only with a case. */
  lemma EveryBundleIsUsed(d: Store, day: nat, b: BundleId)
    requires b in BundlesOf(Cleared(d, day), day)
    ensures IsReferenced(Cleared(d, day), b)
  {
  }

  /** Nothing points to a deleted bundle. */
  lemma NothingDangles(d: Store, day: nat)
    requires Inv(d)
    ensures var e := Cleared(d, day);
      && (forall c :: c in e.items ==> e.items[c].bundle in e.bundles)
      && (forall b :: b in e.stops ==> b in e.bundles)
      && (forall c :: c in e.cases && e.cases[c].bundle.Some? ==> e.cases[c].bundle.value in e.bundles)
  {
    var e := Cleared(d, day);
    ClearedKeepsInv(d, day);
    forall c | c in e.items ensures e.items[c].bundle in e.bundles {
      assert CaseFits(e, c);
    }
    forall c | c in e.cases && e.cases[c].bundle.Some? ensures e.cases[c].bundle.value in e.bundles {
      assert CaseFits(e, c);
    }
  }

  /** Which cases of the day a recalculation must leave where they are. */
  predicate IsProtected(d: Store, day: nat, c: CaseId) {
    && c in d.items && c in d.cases && d.items[c].bundle in BundlesOf(d, day)
    && d.cases[c].status != Cancelled
    && (IsStarted(d.cases[c].status) || d.items[c].createdBy == ByTeamlead || InLockedPack(d, c))
  }

  /** The day's cases on carts are protected or go back to the pool, never both. */
  lemma ProtectedOrReverted(d: Store, day: nat, c: CaseId)
    requires Inv(d) && c in d.items && c in d.cases && d.items[c].bundle in BundlesOf(d, day) && d.cases[c].status != Cancelled
    ensures IsProtected(d, day, c) <==> !IsReverted(d, day, c)
    ensures OnCart(d.cases[c].status)
    ensures IsProtected(d, day, c) ==> Cleared(d, day).cases[c] == d.cases[c]
    ensures IsProtected(d, day, c) ==> c in Cleared(d, day).items && Cleared(d, day).items[c] == d.items[c]
  {
    assert CaseFits(d, c);
    ClearReturnsExactly(d, day, c);
  }

  // ---------------------------------------------------------------- which packs are kept, in columns

  /** A case of the active pack of `b`: past `assigned`, or with fetched goods. */
  lemma {:induction false} LockedByCase(d: Store, b: BundleId, x: CaseId)
    requires b in d.bundles && x in d.items && x in d.cases && d.items[x].bundle == b
    requires d.items[x].pack == d.bundles[b].activePack && (d.cases[x].status != Assigned || d.cases[x].collected)
    ensures IsLocked(d, b)
  {
    assert IsTouchedCase(d, b, x);
  }

  /**
   * One case of the active pack that is past `assigned` or fetched keeps the whole pack, and
   * so does an active pack behind the first: no case of it loses its row or its item.
   */
  lemma PackInWorkStays(d: Store, day: nat, x: CaseId, c: CaseId)
    requires Inv(d) && x in d.items && x in d.cases && c in d.items && c in d.cases && d.items[x].bundle == d.items[c].bundle
    ensures var b := d.items[c].bundle;
      && b in d.bundles
      && (d.items[x].pack == d.items[c].pack == d.bundles[b].activePack && d.cases[c].status != Cancelled
          && (d.cases[x].status != Assigned || d.cases[x].collected || d.bundles[b].activePack > 0)
          ==> && Cleared(d, day).cases[c] == d.cases[c]
              && c in Cleared(d, day).items && Cleared(d, day).items[c] == d.items[c])
  {
    assert CaseFits(d, c) && CaseFits(d, x);
    var b := d.items[c].bundle;
    if d.items[x].pack == d.items[c].pack == d.bundles[b].activePack && d.cases[c].status != Cancelled
      && (d.cases[x].status != Assigned || d.cases[x].collected || d.bundles[b].activePack > 0)
    {
      if d.bundles[b].activePack == 0 {
        LockedByCase(d, b, x);
      }
      assert !IsReverted(d, day, c);
      ClearReturnsExactly(d, day, c);
    }
  }

  /** A first pack in which everything is still assigned and nothing fetched goes back to the pool, as far as the engine placed it. */
  lemma UntouchedPackReturns(d: Store, day: nat, c: CaseId)
    requires Inv(d) && c in d.items && c in d.cases && d.items[c].bundle in d.bundles
    requires var b := d.items[c].bundle;
      && d.bundles[b].day == day && d.bundles[b].activePack == 0 && d.items[c].pack == 0 && d.items[c].createdBy == BySystem
      && forall x :: x in d.items && x in d.cases && d.items[x].bundle == b && d.items[x].pack == 0 ==>
           d.cases[x].status == Assigned && !d.cases[x].collected
    ensures Cleared(d, day).cases[c] == d.cases[c].(status := Ready, bundle := None, version := d.cases[c].version + 1,
                                                   history := Then(d.cases[c].history, Ready))
    ensures c !in Cleared(d, day).items && c !in Cleared(d, day).participants
  {
    assert !IsTouched(d, d.items[c].bundle);
    ClearReturnsExactly(d, day, c);
  }

  /**
   * The whole rule: a case on a cart is returned exactly when the cart is of the day, the
   * engine placed the case, it is still assigned, and its pack is not the active one or is an
   * untouched first pack. A case that is not returned keeps row, item and participants.
   */
  lemma ReturnedWhen(d: Store, day: nat, c: CaseId)
    requires Inv(d) && c in d.items && c in d.cases && d.cases[c].status != Cancelled
    ensures d.items[c].bundle in d.bundles
    ensures var e, row, active := Cleared(d, day), d.bundles[d.items[c].bundle], d.bundles[d.items[c].bundle].activePack;
      && (e.cases[c].status == Ready <==>
            && row.day == day && d.items[c].createdBy == BySystem && d.cases[c].status == Assigned
            && (d.items[c].pack != active
                || (active == 0 && forall x :: x in d.items && x in d.cases && d.items[x].bundle == d.items[c].bundle && d.items[x].pack == 0 ==>
                      d.cases[x].status == Assigned && !d.cases[x].collected)))
      && (e.cases[c].status != Ready ==>
            && e.cases[c] == d.cases[c] && c in e.items && e.items[c] == d.items[c]
            && (c in d.participants <==> c in e.participants) && (c in d.participants ==> e.participants[c] == d.participants[c]))
  {
    assert CaseFits(d, c);
    ClearReturnsExactly(d, day, c);
    var b := d.items[c].bundle;
    forall x | x in d.items && x in d.cases && d.items[x].bundle == b && d.items[x].pack == d.bundles[b].activePack
               && (d.cases[x].status != Assigned || d.cases[x].collected)
      ensures IsLocked(d, b)
    {
      LockedByCase(d, b, x);
    }
    if IsTouched(d, b) {
      var x :| x in d.items && IsTouchedCase(d, b, x);
    }
  }

  /** A bundle is deleted exactly when it is of the day and no case is linked to it any more; its stops go with it. */
  lemma DeletedWhen(d: Store, day: nat, b: BundleId)
    requires b in d.bundles
    ensures var e := Cleared(d, day);
      && (b in e.bundles <==> d.bundles[b].day != day || exists c :: c in e.cases && e.cases[c].bundle == Some(b))
      && (b in e.bundles ==> e.bundles[b] == d.bundles[b])
      && (b in e.stops <==> b in d.stops && b in e.bundles)
      && (b in e.stops ==> e.stops[b] == d.stops[b])
  {
  }
}
