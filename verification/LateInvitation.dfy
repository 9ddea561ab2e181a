/**
 * An invitation reads the cart's owner and the participants before its transaction
 * (collaboration/collaboration.service.ts, `invite`). What a move in between does to it.
 */
module LateInvitation {
  import opened Options
  import opened CaseStatus
  import opened Ids
  import opened Database
  import opened StoreInvariant
  import opened BundleMutations
  import opened Collaboration
  import opened Moves
  import opened Sorting

  /** The ticket that reading the store makes. */
  ghost predicate IsReadFrom(d: Store, c: CaseId, t: Ticket) {
    IsTicket(t) && OwnerOf(d, c) == Some(t.owner) && t.known == CrewAt(d.participants, c).Keys
  }

  /**
   * The case is moved to another employee's cart between reading and writing, which dissolves
   * the collaboration. The late invitation then keeps the ownership exactly when it writes
   * nothing: the case was shared already, and everybody asked had a row.
   */
  lemma MovedInBetween(d: Store, left: Store, e: Store, source: BundleId, b: BundleId, c: CaseId, target: Option<nat>,
                       pack: nat, remaining: seq<CaseId>, order: seq<CaseId>, t: Ticket)
    requires Inv(d) && Inv(e) && source != b && c in d.cases && c in d.items && d.items[c].bundle == source
    requires Reordered(TakenOff(d, c), left, source, remaining) && Joined(left, e, b, c, target, pack, order)
    requires IsReadFrom(d, c, t) && OwnerOf(e, c) != Some(t.owner)
    ensures IsStillGood(e, c, t) <==> CrewAt(d.participants, c) != map[] && forall x :: x in t.asked ==> x in t.known
    ensures IsStillGood(e, c, t) ==> AfterTicket(e, c, t) == e
  {
    MovedAcrossMeans(d, left, e, source, b, c, target, pack, remaining, order);
    assert c !in e.participants;
    OwnerHasRow(d, c, t);
    NobodyLeft(e, c, t);
  }

  /** Whoever owns a shared case has a row. */
  lemma OwnerHasRow(d: Store, c: CaseId, t: Ticket)
    requires Inv(d) && IsReadFrom(d, c, t)
    ensures t.owner in t.known <==> CrewAt(d.participants, c) != map[]
  {
    assert CaseFits(d, c);
  }

  /** Without participants and under another owner, a ticket is harmless exactly when it writes nothing. */
  lemma NobodyLeft(e: Store, c: CaseId, t: Ticket)
    requires c !in e.participants && OwnerOf(e, c) != Some(t.owner)
    ensures IsStillGood(e, c, t) <==> t.owner in t.known && forall x :: x in t.asked ==> x in t.known
    ensures IsStillGood(e, c, t) ==> AfterTicket(e, c, t) == e
  {
    if IsStillGood(e, c, t) {
      assert Employees(t.asked) - t.known == {};
      assert InvitedLate(WithTicketOwner(map[], t), t.known, Employees(t.asked)) == map[];
    }
  }

  /** Before and after the team lead moved the one case of an employee to a colleague. */
  function BeforeMove(): Store {
    Store(map[0 := OnBundle(NewCase(Ready, None), 0)],
          map[0 := Bundle(10, 0, BundleAssigned, 0), 1 := Bundle(11, 0, BundleAssigned, 0)],
          map[0 := Item(0, 0, 0, BySystem)], map[], map[])
  }

  function AfterMove(): Store {
    Store(map[0 := OnBundle(OnBundle(NewCase(Ready, None), 0), 1)],
          map[0 := Bundle(10, 0, BundleAssigned, 0), 1 := Bundle(11, 0, BundleAssigned, 0)],
          map[0 := Item(1, 0, 0, ByTeamlead)], map[], map[])
  }

  /** The old owner's first invitation, written after the move, makes them owner of a case on the colleague's cart. */
  lemma OldOwnerComesBack(helper: EmployeeId)
    requires helper != 10
    ensures var t := Ticket(10, {}, [helper]);
      && Inv(BeforeMove()) && IsReadFrom(BeforeMove(), 0, t) && Inv(AfterMove())
      && OwnerOf(AfterMove(), 0) == Some(11)
      && 0 in AfterTicket(AfterMove(), 0, t).participants
      && 10 in AfterTicket(AfterMove(), 0, t).participants[0]
      && AfterTicket(AfterMove(), 0, t).participants[0][10].role == Inhaber
      && !Inv(AfterTicket(AfterMove(), 0, t))
  {
    var t := Ticket(10, {}, [helper]);
    forall c ensures CaseFits(BeforeMove(), c) && CaseFits(AfterMove(), c) {
    }
    BadTicketBreaksOwnership(AfterMove(), 0, t);
  }
}
