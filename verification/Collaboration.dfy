/**
 * Sharing a case (collaboration/participants.ts, collaboration/collaboration.service.ts,
 * and the team lead's removal of a helper): who takes part, and in which state.
 */
module Collaboration {
  import opened Options
  import opened CaseStatus
  import opened Ids
  import opened Database
  import opened StoreInvariant
  import opened Sorting

  function CrewAt(m: map<CaseId, Crew>, c: CaseId): Crew {
    if c in m then m[c] else map[]
  }

  function Employees(l: seq<EmployeeId>): set<EmployeeId> {
    set e | e in l
  }

  /** The case leaves its owner's cart: every row goes, whatever its state. */
  method Dissolve(tx: Tables, c: CaseId) returns (former: set<EmployeeId>)
    modifies tx`participants
    ensures tx.participants == Dissolved(old(tx.participants), {c})
    ensures former == CrewAt(old(tx.participants), c).Keys
  {
    former := CrewAt(tx.participants, c).Keys;
    tx.participants := tx.participants - {c};
  }

  /** A case is shared as soon as one helper is active; the owner's row alone does not share it. */
  predicate IsCollaborationActive(d: Store, c: CaseId) {
    exists e :: e in CrewAt(d.participants, c).Keys
      && d.participants[c][e].role == Helfer && IsActive(d.participants[c][e])
  }

  // ---------------------------------------------------------------- inviting

  const INVITABLE: set<Status> := {Assigned, InProgress, ProblemResolved}
  const ACCEPTABLE: set<Status> := INVITABLE + {IssueOpen}

  function OwnerOf(d: Store, c: CaseId): Option<EmployeeId> {
    if c in d.cases && d.cases[c].bundle.Some? && d.cases[c].bundle.value in d.bundles
    then Some(d.bundles[d.cases[c].bundle.value].employee)
    else None
  }

  /** The owner and every active participant may work on the case and invite; to anybody else it is not there. */
  predicate TakesPart(d: Store, me: EmployeeId, c: CaseId) {
    OwnerOf(d, c) == Some(me) || (me in CrewAt(d.participants, c) && IsActive(d.participants[c][me]))
  }

  /** Whether an invitation reaches `e`: new to the case, or had declined or been removed. */
  predicate IsReached(crew: Crew, e: EmployeeId) {
    e !in crew || crew[e].status in {Abgelehnt, Entfernt}
  }

  function AfterInvitation(crew: Crew, e: EmployeeId): Participant {
    if e !in crew then Participant(Helfer, Eingeladen, false)
    else if IsReached(crew, e) then crew[e].(status := Eingeladen)
    else crew[e]
  }

  function WithOwner(crew: Crew, owner: EmployeeId): Crew {
    if owner in crew then crew else crew[owner := Participant(Inhaber, Angenommen, false)]
  }

  function Invited(crew: Crew, targets: set<EmployeeId>): Crew {
    map e | e in crew.Keys + targets :: if e in targets then AfterInvitation(crew, e) else crew[e]
  }

  /** The invited colleagues: the owner and the inviter themselves are not. */
  function Targets(employees: seq<EmployeeId>, me: EmployeeId, owner: EmployeeId): set<EmployeeId> {
    Employees(employees) - {me, owner}
  }

  /** What an invitation has read before its transaction: the cart's owner, who has a row, and whom to invite. */
  datatype Ticket = Ticket(owner: EmployeeId, known: set<EmployeeId>, asked: seq<EmployeeId>)

  /** A ticket as reading makes it: everybody once, the owner not among them. */
  ghost predicate IsTicket(t: Ticket) {
    Distinct(t.asked) && t.owner !in t.asked
  }

  /** The owner's row is inserted unless it was seen, or is there by now. */
  function WithTicketOwner(crew: Crew, t: Ticket): Crew {
    if t.owner in t.known then crew else WithOwner(crew, t.owner)
  }

  /** Who had no row is inserted, who had one is only revived: a row that is gone by now stays gone. */
  function InvitedLate(crew: Crew, known: set<EmployeeId>, targets: set<EmployeeId>): Crew {
    map e | e in crew.Keys + (targets - known) :: if e in targets then AfterInvitation(crew, e) else crew[e]
  }

  lemma InvitedStep(crew: Crew, known: set<EmployeeId>, s: set<EmployeeId>, e: EmployeeId)
    requires e !in s
    ensures InvitedLate(crew, known, s + {e}) ==
      if e in crew || e !in known then InvitedLate(crew, known, s)[e := AfterInvitation(crew, e)] else InvitedLate(crew, known, s)
    ensures e in crew ==> InvitedLate(crew, known, s)[e] == crew[e]
    ensures e !in crew ==> e !in InvitedLate(crew, known, s)
  {
  }

  /**
   * A ticket written late, column by column: an owner who had no row gets one unless it is
   * there by now; who had none then is inserted or, there by now, revived; who had one and
   * lost it stays without.
   */
  lemma TicketMeans(crew: Crew, t: Ticket, e: EmployeeId)
    requires IsTicket(t)
    ensures var rows := InvitedLate(WithTicketOwner(crew, t), t.known, Employees(t.asked));
      && (t.owner in rows <==> t.owner in crew || t.owner !in t.known)
      && (t.owner in rows ==> rows[t.owner] == if t.owner in crew then crew[t.owner] else Participant(Inhaber, Angenommen, false))
      && (e != t.owner && e in crew ==>
            e in rows && rows[e] == if e in t.asked && crew[e].status in {Abgelehnt, Entfernt} then crew[e].(status := Eingeladen) else crew[e])
      && (e != t.owner && e !in crew && e in t.asked && e !in t.known ==> e in rows && rows[e] == Participant(Helfer, Eingeladen, false))
      && (e != t.owner && e !in crew && (e !in t.asked || e in t.known) ==> e !in rows)
  {
  }

  /** When the rows are still those that were read, nobody falls between the two. */
  lemma NothingChangedMeanwhile(crew: Crew, owner: EmployeeId, targets: set<EmployeeId>)
    ensures InvitedLate(WithOwner(crew, owner), crew.Keys, targets) == Invited(WithOwner(crew, owner), targets)
  {
  }

  /** Whether the ticket's invitation still reaches `e`: inserted, or revived. */
  predicate ReachedBy(crew: Crew, t: Ticket, e: EmployeeId) {
    IsReached(crew, e) && (e in crew || e !in t.known)
  }

  /** The write for one colleague: inserted, revived, or nothing to do. */
  method InviteOne(before: Crew, known: set<EmployeeId>, e: EmployeeId, ghost base: Crew, ghost done: set<EmployeeId>)
    returns (rows: Crew, reached: bool)
    requires before == InvitedLate(base, known, done) && e !in done
    ensures rows == InvitedLate(base, known, done + {e})
    ensures reached <==> IsReached(base, e) && (e in base || e !in known)
  {
    InvitedStep(base, known, done, e);
    rows, reached := before, false;
    if e in before {
      if before[e].status in {Abgelehnt, Entfernt} {
        rows, reached := before[e := before[e].(status := Eingeladen)], true;
      }
    } else if e !in known {
      rows, reached := before[e := Participant(Helfer, Eingeladen, false)], true;
    }
  }

  /** The row writes of one invitation: the owner's row on the first one, then colleague by colleague. */
  method InviteRows(crew: Crew, t: Ticket) returns (rows: Crew, invited: seq<EmployeeId>)
    requires IsTicket(t)
    ensures rows == InvitedLate(WithTicketOwner(crew, t), t.known, Employees(t.asked))
    ensures Distinct(invited)
    ensures forall e :: e in invited <==> e in t.asked && ReachedBy(crew, t, e)
  {
    ghost var base := WithTicketOwner(crew, t);
    rows, invited := WithTicketOwner(crew, t), [];
    var i := 0;
    while i < |t.asked|
      invariant 0 <= i <= |t.asked|
      invariant rows == InvitedLate(base, t.known, Employees(t.asked[..i]))
      invariant invited == ReachedOf(crew, t, t.asked[..i])
    {
      var e, reached := t.asked[i], false;
      ghost var done := Employees(t.asked[..i]);
      AskedOneMore(crew, t, i);
      rows, reached := InviteOne(rows, t.known, e, base, done);
      if reached {
        invited := invited + [e];
      }
      i := i + 1;
    }
    assert t.asked[..i] == t.asked;
    ReachedOfMeans(crew, t, t.asked);
  }

  lemma {:induction false} AskedOneMore(crew: Crew, t: Ticket, i: nat)
    requires IsTicket(t) && i < |t.asked|
    ensures Employees(t.asked[..i + 1]) == Employees(t.asked[..i]) + {t.asked[i]} && t.asked[i] !in Employees(t.asked[..i])
    ensures ReachedOf(crew, t, t.asked[..i + 1])
            == ReachedOf(crew, t, t.asked[..i]) + if ReachedBy(crew, t, t.asked[i]) then [t.asked[i]] else []
  {
    assert t.asked[..i + 1][..i] == t.asked[..i];
  }

  function ReachedOf(crew: Crew, t: Ticket, asked: seq<EmployeeId>): seq<EmployeeId> {
    if asked == [] then []
    else
      var n := |asked| - 1;
      ReachedOf(crew, t, asked[..n]) + if ReachedBy(crew, t, asked[n]) then [asked[n]] else []
  }

  lemma {:induction false} ReachedOfMeans(crew: Crew, t: Ticket, asked: seq<EmployeeId>)
    ensures forall e :: e in ReachedOf(crew, t, asked) <==> e in asked && ReachedBy(crew, t, e)
    ensures Distinct(asked) ==> Distinct(ReachedOf(crew, t, asked))
  {
    if asked != [] {
      var n := |asked| - 1;
      ReachedOfMeans(crew, t, asked[..n]);
      assert asked == asked[..n] + [asked[n]];
    }
  }

  /** `[...new Set(employeeNos)].filter(…)`. */
  method Asked(employees: seq<EmployeeId>, me: EmployeeId, owner: EmployeeId) returns (asked: seq<EmployeeId>)
    ensures Distinct(asked) && owner !in asked
    ensures Employees(asked) == Targets(employees, me, owner)
  {
    var unique := Dedup(employees);
    DedupProperties(employees);
    asked := [];
    var i := 0;
    while i < |unique|
      invariant 0 <= i <= |unique|
      invariant Distinct(asked)
      invariant forall e :: e in asked <==> e in unique[..i] && e != me && e != owner
    {
      assert unique[..i + 1] == unique[..i] + [unique[i]];
      assert unique[i] !in unique[..i];
      if unique[i] != me && unique[i] != owner {
        asked := asked + [unique[i]];
      }
      i := i + 1;
    }
    assert unique[..i] == unique;
  }

  predicate MayBeInvited(staff: map<EmployeeId, bool>, targets: set<EmployeeId>) {
    forall e :: e in targets ==> e in staff && staff[e]
  }

  /** Everything an invitation reads and checks before its transaction. */
  method ReadInvitation(tx: Tables, me: EmployeeId, c: CaseId, employees: seq<EmployeeId>)
    returns (outcome: Outcome, ticket: Ticket)
    requires Inv(tx.State())
    ensures outcome == NotFound <==> c !in tx.cases || !TakesPart(tx.State(), me, c)
    ensures outcome == Conflict <==>
      c in tx.cases && TakesPart(tx.State(), me, c) && tx.cases[c].status !in INVITABLE
    ensures outcome in {Done, BadRequest} ==>
      && OwnerOf(tx.State(), c).Some?
      && var targets := Targets(employees, me, OwnerOf(tx.State(), c).value);
      outcome == Done <==> targets != {} && MayBeInvited(tx.staff, targets)
    ensures outcome == Done ==>
      && IsTicket(ticket) && OwnerOf(tx.State(), c) == Some(ticket.owner)
      && ticket.known == CrewAt(tx.participants, c).Keys
      && Employees(ticket.asked) == Targets(employees, me, ticket.owner)
  {
    ticket := Ticket(0, {}, []);
    if c !in tx.cases || !TakesPart(tx.State(), me, c) {
      return NotFound, ticket;
    }
    if tx.cases[c].status !in INVITABLE {
      return Conflict, ticket;
    }
    assert CaseFits(tx.State(), c);
    var owner := OwnerOf(tx.State(), c).value;
    var asked := Asked(employees, me, owner);
    if asked == [] {
      return BadRequest, ticket;
    }
    assert asked[0] in Employees(asked);
    if !MayBeInvited(tx.staff, Employees(asked)) {
      return BadRequest, ticket;
    }
    ticket := Ticket(owner, CrewAt(tx.participants, c).Keys, asked);
    outcome := Done;
  }

  /** The rows of the case after the ticket is written; nothing is written where no row results. */
  function AfterTicket(d: Store, c: CaseId, t: Ticket): Store {
    var rows := InvitedLate(WithTicketOwner(CrewAt(d.participants, c), t), t.known, Employees(t.asked));
    if rows == map[] then d else d.(participants := d.participants[c := rows])
  }

  /**
   * A late ticket is harmless: where it inserts the owner's row, that employee still owns the
   * cart; where it only inserts helpers, the case is still shared.
   */
  predicate IsStillGood(d: Store, c: CaseId, t: Ticket) {
    var crew := CrewAt(d.participants, c);
    if t.owner !in t.known && t.owner !in crew then OwnerOf(d, c) == Some(t.owner)
    else (forall e :: e in t.asked ==> e in t.known || e in crew) || crew != map[]
  }

  lemma GoodTicketFits(d: Store, c: CaseId, t: Ticket)
    requires Inv(d) && c in d.cases && IsTicket(t) && IsStillGood(d, c, t)
    ensures Inv(AfterTicket(d, c, t))
  {
    assert CaseFits(d, c);
    var rows := InvitedLate(WithTicketOwner(CrewAt(d.participants, c), t), t.known, Employees(t.asked));
    if rows != map[] {
      assert CrewAt(d.participants, c) != map[] || t.owner !in t.known;
      SetCrewKeepsInv(d, c, rows);
    }
  }

  lemma BadTicketBreaksOwnership(d: Store, c: CaseId, t: Ticket)
    requires Inv(d) && c in d.cases && IsTicket(t) && !IsStillGood(d, c, t)
    ensures !Inv(AfterTicket(d, c, t))
  {
    var e := AfterTicket(d, c, t);
    var crew := CrewAt(d.participants, c);
    var rows := InvitedLate(WithTicketOwner(crew, t), t.known, Employees(t.asked));
    if t.owner !in t.known && t.owner !in crew {
      assert rows[t.owner] == Participant(Inhaber, Angenommen, false);
    } else {
      var x :| x in t.asked && x !in t.known && x !in crew;
      assert rows[x].role == Helfer;
      assert forall y :: y in rows ==> rows[y].role == Helfer;
    }
    assert e.participants[c] == rows;
    assert !Owned(e, c);
    assert !CaseFits(e, c);
  }

  /** The transaction of an invitation, on whatever store it meets. */
  method WriteInvitation(tx: Tables, c: CaseId, t: Ticket) returns (invited: seq<EmployeeId>)
    requires Inv(tx.State()) && c in tx.cases && IsTicket(t)
    modifies tx
    ensures tx.State() == AfterTicket(old(tx.State()), c, t)
    ensures Distinct(invited)
    ensures forall e :: e in invited <==> e in t.asked && ReachedBy(CrewAt(old(tx.participants), c), t, e)
    ensures Inv(tx.State()) <==> IsStillGood(old(tx.State()), c, t)
    ensures Follows(old(tx.State()), tx.State())
  {
    ghost var before := tx.State();
    var rows;
    rows, invited := InviteRows(CrewAt(tx.participants, c), t);
    if |rows| > 0 {
      tx.participants := tx.participants[c := rows];
    }
    assert tx.State() == AfterTicket(before, c, t);
    if IsStillGood(before, c, t) {
      GoodTicketFits(before, c, t);
    } else {
      BadTicketBreaksOwnership(before, c, t);
    }
  }

  /** Read and write with nothing in between. */
  method Invite(tx: Tables, me: EmployeeId, c: CaseId, employees: seq<EmployeeId>)
    returns (outcome: Outcome, invited: seq<EmployeeId>)
    requires Inv(tx.State())
    modifies tx
    ensures outcome == NotFound <==> c !in old(tx.cases) || !TakesPart(old(tx.State()), me, c)
    ensures outcome == Conflict <==>
      c in old(tx.cases) && TakesPart(old(tx.State()), me, c) && old(tx.cases[c].status) !in INVITABLE
    ensures outcome != Done ==> tx.State() == old(tx.State())
    ensures outcome in {Done, BadRequest} ==>
      && OwnerOf(old(tx.State()), c).Some?
      && var targets := Targets(employees, me, OwnerOf(old(tx.State()), c).value);
      outcome == Done <==> targets != {} && forall e :: e in targets ==> e in tx.staff && tx.staff[e]
    ensures outcome == Done ==>
      var crew, owner := CrewAt(old(tx.participants), c), OwnerOf(old(tx.State()), c).value;
      && tx.State() == old(tx.State()).(participants :=
           old(tx.participants)[c := Invited(WithOwner(crew, owner), Targets(employees, me, owner))])
      && Distinct(invited)
      && (forall e :: e in invited <==> e in Targets(employees, me, owner) && IsReached(crew, e))
    ensures Inv(tx.State()) && Follows(old(tx.State()), tx.State())
  {
    ghost var before := tx.State();
    var ticket;
    outcome, ticket := ReadInvitation(tx, me, c, employees);
    invited := [];
    if outcome == Done {
      FreshTicket(before, c, ticket);
      invited := WriteInvitation(tx, c, ticket);
      assert forall e :: e in ticket.asked <==> e in Employees(ticket.asked);
    }
  }

  lemma FreshTicket(d: Store, c: CaseId, t: Ticket)
    requires Inv(d) && c in d.cases && IsTicket(t) && OwnerOf(d, c) == Some(t.owner)
    requires t.known == CrewAt(d.participants, c).Keys && t.asked != []
    ensures IsStillGood(d, c, t)
    ensures AfterTicket(d, c, t) == d.(participants :=
      d.participants[c := Invited(WithOwner(CrewAt(d.participants, c), t.owner), Employees(t.asked))])
  {
    var crew := CrewAt(d.participants, c);
    assert CaseFits(d, c);
    NothingChangedMeanwhile(crew, t.owner, Employees(t.asked));
    assert WithTicketOwner(crew, t) == WithOwner(crew, t.owner);
    assert t.owner in WithOwner(crew, t.owner);
    assert t.owner in Invited(WithOwner(crew, t.owner), Employees(t.asked));
  }

  // ---------------------------------------------------------------- answering

  function WithRow(d: Store, c: CaseId, e: EmployeeId, status: ParticipantStatus): Store
    requires e in CrewAt(d.participants, c)
  {
    d.(participants := d.participants[c := d.participants[c][e := d.participants[c][e].(status := status)]])
  }

  /** One row changes its status; the owner's row stays active, so the crew stays the owner's. */
  lemma RowKeepsInv(d: Store, c: CaseId, e: EmployeeId, status: ParticipantStatus)
    requires Inv(d) && e in CrewAt(d.participants, c)
    requires d.participants[c][e].role == Helfer || status == TeilErledigt
    ensures Inv(WithRow(d, c, e, status)) && Follows(d, WithRow(d, c, e, status))
  {
    assert CaseFits(d, c);
    SetCrewKeepsInv(d, c, WithRow(d, c, e, status).participants[c]);
  }

  method WriteStatus(tx: Tables, c: CaseId, e: EmployeeId, status: ParticipantStatus)
    requires e in CrewAt(tx.participants, c)
    modifies tx`participants
    ensures tx.State() == WithRow(old(tx.State()), c, e, status)
  {
    var crew: Crew := tx.participants[c];
    crew := crew[e := crew[e].(status := status)];
    tx.participants := tx.participants[c := crew];
  }

  /** Only the invited one answers, only once, and accepting needs a case that is still being worked on. */
  method Respond(tx: Tables, me: EmployeeId, c: CaseId, e: EmployeeId, accept: bool) returns (outcome: Outcome)
    requires Inv(tx.State())
    modifies tx
    ensures outcome == NotFound <==> e !in CrewAt(old(tx.participants), c) || e != me
    ensures outcome == Done <==>
      && e in CrewAt(old(tx.participants), c) && c in old(tx.cases) && e == me && old(tx.participants[c][e].status) == Eingeladen
      && (accept ==> old(tx.cases[c].bundle.Some?) && old(tx.cases[c].status) in ACCEPTABLE)
    ensures outcome != BadRequest
    ensures outcome == Done ==>
      && old(tx.participants[c][e].role) == Helfer
      && tx.State() == WithRow(old(tx.State()), c, e, if accept then Angenommen else Abgelehnt)
    ensures outcome != Done ==> tx.State() == old(tx.State())
    ensures Inv(tx.State()) && Follows(old(tx.State()), tx.State())
  {
    assert CaseFits(tx.State(), c);
    if e !in CrewAt(tx.participants, c) || e != me {
      return NotFound;
    }
    var row := tx.participants[c][e];
    if row.status != Eingeladen {
      return Conflict;
    }
    if accept && (tx.cases[c].bundle == None || tx.cases[c].status !in ACCEPTABLE) {
      return Conflict;
    }
    var status := if accept then Angenommen else Abgelehnt;
    RowKeepsInv(tx.State(), c, e, status);
    WriteStatus(tx, c, e, status);
    outcome := Done;
  }

  /** An active participant is done with their part; the case itself does not change. */
  method PartDone(tx: Tables, me: EmployeeId, c: CaseId) returns (outcome: Outcome)
    requires Inv(tx.State())
    modifies tx
    ensures outcome == NotFound <==> !(me in CrewAt(old(tx.participants), c) && IsActive(old(tx.participants[c][me])))
    ensures outcome == Done <==>
      && me in CrewAt(old(tx.participants), c) && c in old(tx.cases) && old(tx.participants[c][me].status) == Angenommen
      && !IsFinished(old(tx.cases[c].status))
    ensures outcome != BadRequest
    ensures outcome == Done ==> tx.State() == WithRow(old(tx.State()), c, me, TeilErledigt)
    ensures outcome != Done ==> tx.State() == old(tx.State())
    ensures Inv(tx.State()) && Follows(old(tx.State()), tx.State())
  {
    assert CaseFits(tx.State(), c);
    if !(me in CrewAt(tx.participants, c) && IsActive(tx.participants[c][me])) {
      return NotFound;
    }
    var row := tx.participants[c][me];
    if row.status == TeilErledigt {
      return Conflict;
    }
    if tx.cases[c].status in {Completed, ZstDone, Cancelled} {
      return Conflict;
    }
    RowKeepsInv(tx.State(), c, me, TeilErledigt);
    WriteStatus(tx, c, me, TeilErledigt);
    outcome := Done;
  }

  /** The team lead removes a helper; the owner cannot be removed. */
  method RemoveParticipant(tx: Tables, c: CaseId, e: EmployeeId) returns (outcome: Outcome)
    requires Inv(tx.State())
    modifies tx
    ensures outcome == NotFound <==> e !in CrewAt(old(tx.participants), c)
    ensures outcome == Done <==>
      && e in CrewAt(old(tx.participants), c)
      && OwnerOf(old(tx.State()), c) != Some(e)
      && old(tx.participants[c][e].status) != Entfernt
    ensures outcome != BadRequest
    ensures outcome == Done ==> tx.State() == WithRow(old(tx.State()), c, e, Entfernt)
    ensures outcome != Done ==> tx.State() == old(tx.State())
    ensures Inv(tx.State()) && Follows(old(tx.State()), tx.State())
  {
    assert CaseFits(tx.State(), c);
    if e !in CrewAt(tx.participants, c) {
      return NotFound;
    }
    var row := tx.participants[c][e];
    if row.role == Inhaber || row.status == Entfernt {
      return Conflict;
    }
    RowKeepsInv(tx.State(), c, e, Entfernt);
    WriteStatus(tx, c, e, Entfernt);
    outcome := Done;
  }

  // ---------------------------------------------------------------- laws of inviting

  /** Nobody's own answer is undone: an invitation only ever reaches people outside, and repeating it reaches nobody. */
  lemma InvitingAgainReachesNobody(crew: Crew, owner: EmployeeId, targets: set<EmployeeId>)
    requires owner !in targets
    ensures var rows := Invited(WithOwner(crew, owner), targets);
      && Invited(WithOwner(rows, owner), targets) == rows
      && (forall e :: e in targets ==> !IsReached(rows, e))
      && (forall e :: e in crew && !IsReached(crew, e) ==> rows[e] == crew[e])
      && (forall e :: e in crew && e !in targets ==> rows[e] == crew[e])
  {
  }

  /** Removing a helper, inviting them again and accepting leads back to where it began. */
  lemma RemoveInviteAccept(d: Store, c: CaseId, e: EmployeeId, owner: EmployeeId)
    requires e in CrewAt(d.participants, c) && owner in d.participants[c] && e != owner
    requires d.participants[c][e].role == Helfer && d.participants[c][e].status == Angenommen
    ensures var removed := WithRow(d, c, e, Entfernt);
      var again := removed.(participants :=
        removed.participants[c := Invited(WithOwner(removed.participants[c], owner), {e})]);
      WithRow(again, c, e, Angenommen) == d
  {
    var removed := WithRow(d, c, e, Entfernt);
    var rows := Invited(WithOwner(removed.participants[c], owner), {e});
    assert rows == removed.participants[c][e := d.participants[c][e].(status := Eingeladen)];
    assert rows[e := rows[e].(status := Angenommen)] == d.participants[c];
    assert d.participants[c := d.participants[c]] == d.participants;
  }

  // ---------------------------------------------------------------- progress per participant

  /** How many positions `e` has checked. */
  function CheckedBy(positions: seq<Option<EmployeeId>>, e: EmployeeId): nat {
    if positions == [] then 0
    else CheckedBy(positions[..|positions| - 1], e) + if positions[|positions| - 1] == Some(e) then 1 else 0
  }

  function Checked(positions: seq<Option<EmployeeId>>): nat {
    if positions == [] then 0
    else Checked(positions[..|positions| - 1]) + if positions[|positions| - 1].Some? then 1 else 0
  }

  function Counts(participants: seq<EmployeeId>, positions: seq<Option<EmployeeId>>): seq<nat> {
    seq(|participants|, i requires 0 <= i < |participants| => CheckedBy(positions, participants[i]))
  }

  function Sum(xs: seq<nat>): nat {
    if xs == [] then 0 else Sum(xs[..|xs| - 1]) + xs[|xs| - 1]
  }

  datatype Progress = Progress(positionCount: nat, confirmedPositionCount: nat, byParticipant: seq<nat>)

  method ToCollaborationDto(participants: seq<EmployeeId>, positions: seq<Option<EmployeeId>>)
    returns (progress: Option<Progress>)
    ensures participants == [] <==> progress == None
    ensures progress.Some? ==>
      && progress.value.positionCount == |positions|
      && progress.value.confirmedPositionCount == Checked(positions)
      && progress.value.byParticipant == Counts(participants, positions)
  {
    if participants == [] {
      return None;
    }
    var confirmedByEmployee: map<EmployeeId, nat> := map[];
    var confirmed := 0;
    var i := 0;
    while i < |positions|
      invariant 0 <= i <= |positions|
      invariant confirmed == Checked(positions[..i])
      invariant forall e :: (if e in confirmedByEmployee then confirmedByEmployee[e] else 0) == CheckedBy(positions[..i], e)
    {
      assert positions[..i + 1][..i] == positions[..i];
      if positions[i].Some? {
        var e := positions[i].value;
        confirmed := confirmed + 1;
        confirmedByEmployee := confirmedByEmployee[e := (if e in confirmedByEmployee then confirmedByEmployee[e] else 0) + 1];
      }
      i := i + 1;
    }
    assert positions[..i] == positions;
    progress := Some(Progress(|positions|, confirmed,
      seq(|participants|, k requires 0 <= k < |participants| =>
        if participants[k] in confirmedByEmployee then confirmedByEmployee[participants[k]] else 0)));
  }

  lemma {:induction false} CountsStep(participants: seq<EmployeeId>, positions: seq<Option<EmployeeId>>)
    requires Distinct(participants) && positions != []
    ensures var last := positions[|positions| - 1];
      Sum(Counts(participants, positions)) == Sum(Counts(participants, positions[..|positions| - 1]))
        + if last.Some? && last.value in participants then 1 else 0
  {
    if participants != [] {
      var n := |participants| - 1;
      CountsStep(participants[..n], positions);
      assert participants == participants[..n] + [participants[n]];
      assert Counts(participants, positions)[..n] == Counts(participants[..n], positions);
      assert Counts(participants, positions[..|positions| - 1])[..n] == Counts(participants[..n], positions[..|positions| - 1]);
    }
  }

  lemma {:induction false} NobodyChecksNothing(participants: seq<EmployeeId>)
    ensures Sum(Counts(participants, [])) == 0
  {
    if participants != [] {
      var n := |participants| - 1;
      NobodyChecksNothing(participants[..n]);
      assert Counts(participants, [])[..n] == Counts(participants[..n], []);
    }
  }

  /** The participants' counts add up to at most the total, and to all of it when only participants checked. */
  lemma {:induction false} CountsAddUp(participants: seq<EmployeeId>, positions: seq<Option<EmployeeId>>)
    requires Distinct(participants)
    ensures Sum(Counts(participants, positions)) <= Checked(positions) <= |positions|
    ensures Sum(Counts(participants, positions)) == Checked(positions)
            <==> forall p :: p in positions && p.Some? ==> p.value in participants
  {
    if positions == [] {
      NobodyChecksNothing(participants);
    } else {
      var front, l := positions[..|positions| - 1], positions[|positions| - 1];
      assert positions == front + [l];
      CountsAddUp(participants, front);
      CountsStep(participants, positions);
    }
  }

  // ---------------------------------------------------------------- who may work on a case

  /**
   * The cart's employee may always work on the case, and everybody with an accepted or a
   * finished part; whoever is invited, has declined or was removed may not.
   */
  lemma TakesPartWhen(d: Store, me: EmployeeId, c: CaseId)
    ensures TakesPart(d, me, c) <==>
      || (c in d.cases && d.cases[c].bundle.Some? && d.cases[c].bundle.value in d.bundles
          && d.bundles[d.cases[c].bundle.value].employee == me)
      || (c in d.participants && me in d.participants[c] && d.participants[c][me].status in {Angenommen, TeilErledigt})
  {
  }

  /** A helper who has accepted, done with their part or not. */
  ghost predicate HelpsActively(d: Store, c: CaseId, e: EmployeeId) {
    && c in d.participants && e in d.participants[c]
    && d.participants[c][e].role == Helfer && d.participants[c][e].status in {Angenommen, TeilErledigt}
  }

  /** Shared is exactly a case with such a helper. */
  lemma SharedWhen(d: Store, c: CaseId)
    ensures IsCollaborationActive(d, c) <==> exists e :: HelpsActively(d, c, e)
  {
    if IsCollaborationActive(d, c) {
      var e :| e in CrewAt(d.participants, c).Keys && d.participants[c][e].role == Helfer && IsActive(d.participants[c][e]);
      assert HelpsActively(d, c, e);
    }
    if e :| HelpsActively(d, c, e) {
      assert e in CrewAt(d.participants, c).Keys;
    }
  }

  /** A helper's answer decides about their access: in by accepting and by finishing their part, out otherwise. */
  lemma AnswerDecides(d: Store, c: CaseId, e: EmployeeId, status: ParticipantStatus)
    requires Inv(d) && c in d.participants && e in d.participants[c] && d.participants[c][e].role == Helfer
    ensures var now := WithRow(d, c, e, status);
      && (TakesPart(now, e, c) <==> status in {Angenommen, TeilErledigt})
      && (forall x :: x != e ==> (TakesPart(now, x, c) <==> TakesPart(d, x, c)))
      && now.cases == d.cases && now.bundles == d.bundles && now.items == d.items && now.stops == d.stops
      && now.participants[c][e] == d.participants[c][e].(status := status)
  {
    assert CaseFits(d, c);
  }

  /** A case may be shared while it is on a cart and unfinished; only an open problem stops new invitations, not answers. */
  lemma SharedWhileOnCart(s: Status)
    ensures s in ACCEPTABLE <==> OnCart(s) && s != Completed && s != ZstDone
    ensures s in INVITABLE <==> s in ACCEPTABLE && s != IssueOpen
  {
  }

  /**
   * What an invitation writes: the owner's accepted row, a fresh row for whoever had none, and
   * `eingeladen` again for whoever had declined or was removed. Every other row stays.
   */
  lemma InvitedMeans(crew: Crew, owner: EmployeeId, me: EmployeeId, employees: seq<EmployeeId>, e: EmployeeId)
    ensures var rows := Invited(WithOwner(crew, owner), Targets(employees, me, owner));
      && (owner !in crew ==> owner in rows && rows[owner] == Participant(Inhaber, Angenommen, false))
      && (e in employees && e != me && e != owner && e !in crew ==> e in rows && rows[e] == Participant(Helfer, Eingeladen, false))
      && (e in employees && e != me && e != owner && e in crew && crew[e].status in {Abgelehnt, Entfernt} ==>
            e in rows && rows[e] == Participant(crew[e].role, Eingeladen, crew[e].collected))
      && (e in crew && (e !in employees || e == me || e == owner || crew[e].status in {Eingeladen, Angenommen, TeilErledigt}) ==>
            e in rows && rows[e] == crew[e])
      && (e in rows && e !in crew ==> e == owner || (e in employees && e != me))
  {
  }
}
