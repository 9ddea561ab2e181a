/**
 * One case for several employees (cases/teamlead.service.ts, `createCollaboration`): the
 * first one owns it, everybody takes part from the start.
 */
module SharedAssignment {
  import opened Options
  import opened CaseStatus
  import opened Ids
  import opened Database
  import opened StoreInvariant
  import opened BundleMutations
  import opened Placement
  import opened Sorting
  import Collaboration
  import Moves

  /** Everybody has accepted; the first one is the owner. */
  function Team(members: set<EmployeeId>, owner: EmployeeId): Crew {
    map e | e in members :: Participant(if e == owner then Inhaber else Helfer, Angenommen, false)
  }

  /** A parked case is released first. */
  function Released(d: Store, c: CaseId): Store
    requires c in d.cases
  {
    if d.cases[c].status == Parked then SetCase(d, c, WithStatus(d.cases[c], Ready)) else d
  }

  predicate MayShare(d: Store, c: CaseId) {
    c in d.cases && d.cases[c].status in {Ready, Parked} && d.cases[c].bundle == None
  }

  predicate AllReceive(staff: map<EmployeeId, bool>, members: set<EmployeeId>) {
    forall e :: e in members ==> MayReceive(staff, e)
  }

  method CreateCollaboration(tx: Tables, c: CaseId, employees: seq<EmployeeId>, day: nat)
    returns (outcome: Outcome, b: BundleId, ghost pack: nat)
    requires Inv(tx.State())
    modifies tx
    ensures outcome == BadRequest <==> |Dedup(employees)| < 2
    ensures outcome == Done <==>
      |Dedup(employees)| >= 2 && MayShare(old(tx.State()), c) && AllReceive(tx.staff, Collaboration.Employees(employees))
    ensures |Dedup(employees)| >= 2 && c !in old(tx.cases) ==> outcome == NotFound
    ensures |Dedup(employees)| >= 2 && c in old(tx.cases) && !MayShare(old(tx.State()), c) ==> outcome == Conflict
    ensures outcome != Done ==> tx.State() == old(tx.State())
    ensures outcome == Done ==>
      && employees != []
      && var mid := Opened(Released(old(tx.State()), c), b, employees[0], day);
      && IsOpenFor(mid, b, employees[0], day)
      && JoinsPack(mid.items, b, None, pack)
      && var placed := PlaceAll(mid, [c], b, |ItemsOf(mid.items, b)|, pack, ByTeamlead);
      tx.State() == placed.(participants := mid.participants[c := Team(Collaboration.Employees(employees), employees[0])])
    ensures Inv(tx.State()) && Follows(old(tx.State()), tx.State())
  {
    b, pack := 0, 0;
    var unique := Dedup(employees);
    DedupKeepsFirst(employees);
    DedupProperties(employees);
    assert Collaboration.Employees(unique) == Collaboration.Employees(employees);
    if |unique| < 2 {
      return BadRequest, 0, 0;
    }
    if c !in tx.cases {
      return NotFound, 0, 0;
    }
    var before := tx.State();
    if !MayShare(before, c) {
      return Conflict, 0, 0;
    }
    outcome := CheckTeam(tx, unique);
    if outcome != Done {
      return;
    }
    Release(tx, c);
    ghost var released := tx.State();
    assert employees[0] in Collaboration.Employees(employees);
    b, pack := PlaceOne(tx, c, employees[0], day);
    FollowsTransitive(before, released, tx.State());
    ghost var placed := tx.State();
    var team := Team(Collaboration.Employees(unique), unique[0]);
    SetCrewKeepsInv(placed, c, team);
    tx.participants := tx.participants[c := team];
    FollowsTransitive(before, placed, tx.State());
    outcome := Done;
  }

  /** The first employee who is unknown or inactive decides the answer. */
  method CheckTeam(tx: Tables, employees: seq<EmployeeId>) returns (outcome: Outcome)
    ensures outcome == Done <==> AllReceive(tx.staff, Collaboration.Employees(employees))
    ensures outcome == Done <==> forall e :: e in employees ==> e in tx.staff && tx.staff[e]
    ensures outcome in {Done, NotFound, Conflict}
    ensures outcome != Done ==> exists i ::
      && 0 <= i < |employees| && !MayReceive(tx.staff, employees[i])
      && (forall k :: 0 <= k < i ==> MayReceive(tx.staff, employees[k]))
      && (outcome == NotFound <==> employees[i] !in tx.staff)
  {
    var i := 0;
    while i < |employees|
      invariant 0 <= i <= |employees|
      invariant forall k :: 0 <= k < i ==> MayReceive(tx.staff, employees[k])
    {
      if !MayReceive(tx.staff, employees[i]) {
        assert employees[i] in Collaboration.Employees(employees);
        return if employees[i] !in tx.staff then NotFound else Conflict;
      }
      i := i + 1;
    }
    outcome := Done;
  }

  method Release(tx: Tables, c: CaseId)
    requires Inv(tx.State()) && MayShare(tx.State(), c)
    modifies tx
    ensures tx.State() == Released(old(tx.State()), c)
    ensures Inv(tx.State()) && Follows(old(tx.State()), tx.State())
  {
    if tx.cases[c].status == Parked {
      assert CaseFits(tx.State(), c);
      SetCaseKeepsInv(tx.State(), c, WithStatus(tx.cases[c], Ready));
      tx.cases := tx.cases[c := WithStatus(tx.cases[c], Ready)];
    }
  }

  /** The ordinary assignment of one ready case; it cannot fail for an active employee. */
  method PlaceOne(tx: Tables, c: CaseId, e: EmployeeId, day: nat) returns (b: BundleId, ghost pack: nat)
    requires Inv(tx.State()) && c in tx.cases && tx.cases[c].status == Ready && MayReceive(tx.staff, e)
    modifies tx
    ensures var mid := Opened(old(tx.State()), b, e, day);
      && IsOpenFor(mid, b, e, day)
      && JoinsPack(mid.items, b, None, pack)
      && tx.State() == PlaceAll(mid, [c], b, |ItemsOf(mid.items, b)|, pack, ByTeamlead)
    ensures c in tx.cases && tx.cases[c].bundle == Some(b) && IsOpenFor(tx.State(), b, e, day)
    ensures Inv(tx.State()) && Follows(old(tx.State()), tx.State())
  {
    ghost var before := tx.State();
    var outcome;
    outcome, b := FindOrCreateBundle(tx, e, day);
    ghost var mid := tx.State();
    var order := ListItems(tx, b);
    outcome, pack := AddCases(tx, b, order, [c], None);
    Moves.OnePlaced(mid, c, b, |ItemsOf(mid.items, b)|, pack, ByTeamlead);
    FollowsTransitive(before, mid, tx.State());
  }

  lemma {:induction false} DedupKeepsFirst(xs: seq<EmployeeId>)
    ensures xs != [] ==> Dedup(xs) != [] && Dedup(xs)[0] == xs[0]
  {
    if |xs| > 1 {
      DedupKeepsFirst(xs[..|xs| - 1]);
    }
  }

  /** The team's rows: the owner first, nobody still to answer, and the case counts as shared at once. */
  lemma TeamIsActive(d: Store, c: CaseId, members: set<EmployeeId>, owner: EmployeeId)
    requires owner in members && |members| >= 2
    ensures Team(members, owner).Keys == members
    ensures forall e :: e in members ==> Team(members, owner)[e].status == Angenommen && !Team(members, owner)[e].collected
    ensures CrewOf(Team(members, owner), owner)
    ensures Collaboration.IsCollaborationActive(d.(participants := d.participants[c := Team(members, owner)]), c)
  {
    var crew := Team(members, owner);
    assert |members - {owner}| == |members| - 1;
    var e :| e in members - {owner};
    var shared := d.(participants := d.participants[c := crew]);
    assert e in Collaboration.CrewAt(shared.participants, c) && shared.participants[c][e] == Participant(Helfer, Angenommen, false);
  }

  /** Where the store fits, exactly the ready and the parked cases can be shared; a parked one becomes ready, which changes nothing else. */
  lemma SharedFromPool(d: Store, c: CaseId)
    requires Inv(d)
    ensures MayShare(d, c) <==> c in d.cases && d.cases[c].status in {Ready, Parked}
    ensures MayShare(d, c) ==>
      var e := Released(d, c);
      && e.cases.Keys == d.cases.Keys && e.cases[c].status == Ready && e.cases[c].collected == d.cases[c].collected
      && (d.cases[c].status == Ready ==> e == d)
      && (forall x :: x in d.cases && x != c ==> e.cases[x] == d.cases[x])
      && e.items == d.items && e.bundles == d.bundles && e.stops == d.stops && e.participants == d.participants
  {
    assert CaseFits(d, c);
  }
}
