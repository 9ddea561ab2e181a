/**
 * Whole runs: any sequence of requests of the team lead, the employees and the planning,
 * for any engine, any clock and any line order. Requests are transactions, one at a time.
 */
module Runs {
  import opened Options
  import opened CaseStatus
  import opened Ids
  import opened Database
  import opened StoreInvariant
  import opened Placement
  import opened Planning
  import opened Sorting
  import BundleMutations
  import PriorPlan
  import Collaboration
  import CaseSplit
  import EmployeeWork
  import Moves
  import SelfPull
  import SharedAssignment
  import SplitRequest
  import Teamlead
  import Workflow

  datatype PlanningRequest =
    | Arrive(known: Option<CaseId>, status: Status)
    | CompleteIntake(c: CaseId, unknownLocation: bool, fieldsComplete: bool)
    | Recalculate(day: nat, shifts: set<EmployeeId>)
    | Export

  datatype CaseRequest =
    | Release(c: CaseId)
    | Park(c: CaseId)
    | Cancel(c: CaseId)
    | Resolve(c: CaseId)
    | Split(c: CaseId, receipt: SplitRequest.Receipt, wishes: seq<SplitRequest.PartWish>, day: nat)
    | Share(c: CaseId, employees: seq<EmployeeId>, day: nat)
    | Remove(c: CaseId, helper: EmployeeId)

  datatype BundleRequest =
    | Withdraw(b: BundleId, c: CaseId)
    | Add(b: BundleId, c: CaseId)
    | Assign(e: EmployeeId, day: nat, cs: seq<CaseId>, newPack: bool)
    | Move(b: BundleId, c: CaseId, e: EmployeeId, day: nat, target: Option<nat>)
    | Reorder(b: BundleId, cs: seq<CaseId>)
    | SetStatus(b: BundleId, to: BundleStatus)

  datatype EmployeeRequest =
    | Pull(day: nat, mayPull: bool, helpFirst: bool, mayTake: bool)
    | Work(c: CaseId, to: Status, seen: nat)
    | ParkRest(latest: Option<BundleId>, cs: seq<CaseId>)
    | Collect(c: CaseId, collected: bool)
    | Invite(c: CaseId, employees: seq<EmployeeId>)
    | Respond(c: CaseId, accept: bool)
    | PartDone(c: CaseId)

  datatype Request =
    | ForPlanning(planning: PlanningRequest)
    | ForCase(onCase: CaseRequest)
    | ForBundle(onBundle: BundleRequest)
    | ForEmployee(me: EmployeeId, own: EmployeeRequest)

  /** What the requests do not say: the engine, the goods' line order, and what a finish gate answers. */
  datatype World = World(
    assignWork: (Store, set<EmployeeId>) -> seq<PlannedBundle>,
    pick: (Store, EmployeeId) -> Option<PlannedBundle>,
    lineOrder: (CaseSplit.SkuLine, CaseSplit.SkuLine) -> bool,
    guard: Store -> bool)

  ghost predicate Works(w: World) {
    IsEngine(w.assignWork) && SelfPull.IsPicker(w.pick)
  }

  /** Requests as the applications can send them: a status that exists for it, the caller's own open bundle. */
  predicate IsSent(d: Store, r: Request) {
    match r
    case ForPlanning(Arrive(_, s)) => s in {Ready, Blocked}
    case ForBundle(SetStatus(_, to)) => to in {BundlePaused, BundleAssigned}
    case ForEmployee(_, Work(_, to, _)) => to in EmployeeWork.WORK
    case ForEmployee(me, ParkRest(latest, _)) =>
      latest.Some? ==> latest.value in d.bundles && IsOpen(d.bundles[latest.value]) && d.bundles[latest.value].employee == me
    case _ => true
  }

  /** The two requests that can break the invariant, and when: see `Workflow.Release` and `Workflow.Intake`. */
  predicate Breaks(d: Store, r: Request) {
    match r
    case ForCase(Release(c)) => c in d.cases && d.cases[c].status == Assigned
    case ForPlanning(Arrive(known, s)) =>
      known.Some? && known.value in d.cases && !Workflow.MayOverwrite(d.cases[known.value].status, s)
    case _ => false
  }

  // ---------------------------------------------------------------- what each request does

  ghost predicate PlanningServed(d: Store, e: Store, r: PlanningRequest, w: World, now: nat) {
    match r
    case Arrive(known, s) =>
      if known.Some? && known.value in d.cases
      then e == SetCase(d, known.value, Workflow.Overwritten(d.cases[known.value], s))
      else exists c :: c !in d.cases && e == SetCase(d, c, NewCase(s, None))
    case CompleteIntake(c, unknownLocation, fieldsComplete) =>
      if c in d.cases && d.cases[c].status == Blocked && !unknownLocation
      then e == SetCase(d, c, if fieldsComplete then WithStatus(d.cases[c], Ready) else d.cases[c].(version := d.cases[c].version + 1))
      else e == d
    case Recalculate(day, shifts) => Recalculated(d, e, day, shifts, w)
    case Export => e == d.(cases := Workflow.Exported(d.cases, now))
  }

  /** The cleared store plus the engine's carts, laid out as planned. */
  ghost predicate Recalculated(d: Store, e: Store, day: nat, shifts: set<EmployeeId>, w: World) {
    var cleared := PriorPlan.Cleared(d, day);
    var free := shifts - Busy(cleared, day);
    var plan := w.assignWork(cleared, free);
    && AddsCarts(cleared, e, CasesOf(plan), free, day)
    && (forall p :: 0 <= p < |plan| ==> OnPlannedCart(e, plan[p], day))
    && LaidOut(cleared, e, plan, |plan|, day)
  }

  ghost predicate CaseServed(staff: map<EmployeeId, bool>, d: Store, e: Store, r: CaseRequest, w: World) {
    match r
    case Release(c) =>
      if c in d.cases && CanTransition(d.cases[c].status, Ready) then e == SetCase(d, c, WithStatus(d.cases[c], Ready)) else e == d
    case Park(c) =>
      if c in d.cases && d.cases[c].status == Ready then e == SetCase(d, c, WithStatus(d.cases[c], Parked)) else e == d
    case Cancel(c) =>
      if c in d.cases && d.cases[c].status !in TERMINAL_STATUSES + {Completed} then e == CancelCase(d, c) else e == d
    case Resolve(c) =>
      if c in d.cases && d.cases[c].status == IssueOpen then e == SetCase(d, c, WithStatus(d.cases[c], ProblemResolved)) else e == d
    case Split(c, receipt, wishes, day) =>
      if MayBeSplit(staff, d, c, receipt, wishes, w)
      then exists children :: SplitInto(d, e, c, children, wishes, day)
      else e == d
    case Share(c, employees, day) =>
      if |Dedup(employees)| >= 2 && SharedAssignment.MayShare(d, c) && SharedAssignment.AllReceive(staff, Collaboration.Employees(employees))
      then exists b, pack :: SharedAmong(d, e, c, employees, day, b, pack)
      else e == d
    case Remove(c, helper) =>
      if helper in Collaboration.CrewAt(d.participants, c) && Collaboration.OwnerOf(d, c) != Some(helper)
         && d.participants[c][helper].status != Entfernt
      then e == Collaboration.WithRow(d, c, helper, Entfernt)
      else e == d
  }

  ghost predicate MayBeSplit(staff: map<EmployeeId, bool>, d: Store, c: CaseId, receipt: SplitRequest.Receipt, wishes: seq<SplitRequest.PartWish>, w: World) {
    && SplitRequest.MaySplit(d, c)
    && CaseSplit.SumOf(SplitRequest.Targets(wishes)) == receipt.totalQuantity
    && 2 <= |wishes| <= |CaseSplit.Lines(receipt.positions, w.lineOrder)|
    && (forall t :: t in SplitRequest.Targets(wishes) ==> t > 0)
    && (forall wish :: wish in wishes ==> SplitRequest.WishMayReceive(staff, wish))
  }

  ghost predicate SplitInto(d: Store, e: Store, c: CaseId, children: seq<CaseId>, wishes: seq<SplitRequest.PartWish>, day: nat)
    requires c in d.cases
  {
    && |children| == |wishes| && Distinct(children) && (forall x :: x in children ==> x !in d.cases)
    && SplitRequest.OnlyPlaces(SplitRequest.Divided(d, c, children), e, children)
    && SplitRequest.DeliveredUpTo(e, children, wishes, day, |wishes|)
  }

  ghost predicate SharedAmong(d: Store, e: Store, c: CaseId, employees: seq<EmployeeId>, day: nat, b: BundleId, pack: nat)
    requires c in d.cases
  {
    && employees != []
    && var mid := Opened(SharedAssignment.Released(d, c), b, employees[0], day);
    && IsOpenFor(mid, b, employees[0], day) && JoinsPack(mid.items, b, None, pack)
    && var placed := PlaceAll(mid, [c], b, |ItemsOf(mid.items, b)|, pack, ByTeamlead);
    e == placed.(participants := mid.participants[c := SharedAssignment.Team(Collaboration.Employees(employees), employees[0])])
  }

  ghost predicate BundleServed(staff: map<EmployeeId, bool>, d: Store, e: Store, r: BundleRequest) {
    match r
    case Withdraw(b, c) =>
      if Teamlead.LiesIn(d, b, c) && c in d.cases && d.cases[c].status == Assigned
      then exists rest :: WithdrawnFrom(d, e, b, {c}, false, rest)
      else e == d
    case Add(b, c) =>
      if b in d.bundles && IsOpen(d.bundles[b]) && AllReady(d, [c])
      then exists pack :: JoinsPack(d.items, b, None, pack) && e == PlaceAll(d, [c], b, |ItemsOf(d.items, b)|, pack, ByTeamlead)
      else e == d
    case Assign(me, day, cs, newPack) =>
      if MayReceive(staff, me) && Distinct(cs) && AllReady(d, cs)
      then exists b, pack :: AssignedTo(d, e, me, day, cs, newPack, b, pack)
      else e == d
    case Move(source, c, me, day, target) =>
      if Teamlead.LiesIn(d, source, c) && c in d.cases && d.cases[c].status == Assigned && MayReceive(staff, me)
      then exists b :: MovedTo(d, e, source, c, me, day, target, b)
      else e == d
    case Reorder(b, cs) =>
      if b in d.bundles && Distinct(cs) && BundleMutations.Members(cs) == ItemsOf(d.items, b)
      then BundleMutations.Reordered(d, e, b, cs)
      else e == d
    case SetStatus(b, to) =>
      if b in d.bundles && IsOpen(d.bundles[b]) then e == Teamlead.WithBundleStatus(d, b, to) else e == d
  }

  /** The cases `s` are back in the pool, and the rest of the bundle closed the gaps in its old order. */
  ghost predicate WithdrawnFrom(d: Store, e: Store, b: BundleId, s: set<CaseId>, dropCollected: bool, rest: seq<CaseId>) {
    var left := UnlinkAll(d, s, dropCollected);
    BundleMutations.IsListing(left.items, b, rest) && BundleMutations.Reordered(left, e, b, rest)
  }

  ghost predicate AssignedTo(d: Store, e: Store, me: EmployeeId, day: nat, cs: seq<CaseId>, newPack: bool, b: BundleId, pack: nat) {
    var mid := Opened(d, b, me, day);
    && IsOpenFor(mid, b, me, day) && Teamlead.AssignedPack(mid.items, b, newPack, pack)
    && e == PlaceAll(mid, cs, b, |ItemsOf(mid.items, b)|, pack, ByTeamlead)
  }

  ghost predicate MovedTo(d: Store, e: Store, source: BundleId, c: CaseId, me: EmployeeId, day: nat, target: Option<nat>, b: BundleId)
    requires c in d.items
  {
    var mid := Opened(d, b, me, day);
    && IsOpenFor(mid, b, me, day)
    && if !Moves.MayMove(mid, source, c, b, target) then e == d
       else if b == source then target.Some? && exists order :: Moves.MovedWithin(d, e, b, c, target.value, order)
       else exists order :: Moves.MovedAcross(mid, e, source, b, c, target, order)
  }

  ghost predicate EmployeeServed(staff: map<EmployeeId, bool>, d: Store, e: Store, me: EmployeeId, r: EmployeeRequest, w: World, now: nat) {
    match r
    case Pull(day, mayPull, helpFirst, mayTake) =>
      if SelfPull.IsFree(d, me, day, mayPull, helpFirst)
         && (SelfPull.PlannedToday(d, me, day) || (mayTake && w.pick(d, me).Some?))
      then exists b, pack :: Pulled(d, e, me, day, w, b, pack)
      else e == d
    case Work(c, to, seen) =>
      if Collaboration.TakesPart(d, me, c) && Workflow.MayTransition(d, c, to, Some(seen), now, w.guard)
      then e == EmployeeWork.AfterWork(d, c, to, now)
      else e == d
    case ParkRest(latest, cs) =>
      if cs != [] && latest.Some? && Distinct(cs) && forall c :: c in cs ==> EmployeeWork.MayPark(d, latest.value, c)
      then exists rest :: WithdrawnFrom(d, e, latest.value, BundleMutations.Members(cs), true, rest)
      else e == d
    case Collect(c, collected) =>
      if c !in d.cases || !Collaboration.TakesPart(d, me, c) then e == d
      else if Collaboration.OwnerOf(d, c) == Some(me) then e == SetCase(d, c, d.cases[c].(collected := collected))
      else me in Collaboration.CrewAt(d.participants, c) && e == EmployeeWork.WithTick(d, c, me, collected)
    case Invite(c, employees) =>
      if MayInvite(staff, d, me, c, employees) then InvitedTo(d, e, me, c, employees) else e == d
    case Respond(c, accept) =>
      if me in Collaboration.CrewAt(d.participants, c) && c in d.cases && d.participants[c][me].status == Eingeladen
         && (accept ==> d.cases[c].bundle.Some? && d.cases[c].status in Collaboration.ACCEPTABLE)
      then e == Collaboration.WithRow(d, c, me, if accept then Angenommen else Abgelehnt)
      else e == d
    case PartDone(c) =>
      if me in Collaboration.CrewAt(d.participants, c) && c in d.cases && d.participants[c][me].status == Angenommen
         && !IsFinished(d.cases[c].status)
      then e == Collaboration.WithRow(d, c, me, TeilErledigt)
      else e == d
  }

  ghost predicate Pulled(d: Store, e: Store, me: EmployeeId, day: nat, w: World, b: BundleId, pack: nat) {
    if b in d.bundles then IsOpenFor(d, b, me, day) && SelfPull.PulledOnCart(d, e, b, w.pick(d, me), pack)
    else
      && (forall x :: x in d.bundles ==> !IsOpenFor(d, x, me, day))
      && w.pick(d, me).Some? && e == Created(d, b, w.pick(d, me).value, day)
  }

  ghost predicate MayInvite(staff: map<EmployeeId, bool>, d: Store, me: EmployeeId, c: CaseId, employees: seq<EmployeeId>) {
    && c in d.cases && Collaboration.TakesPart(d, me, c) && d.cases[c].status in Collaboration.INVITABLE
    && Collaboration.OwnerOf(d, c).Some?
    && var targets := Collaboration.Targets(employees, me, Collaboration.OwnerOf(d, c).value);
    targets != {} && Collaboration.MayBeInvited(staff, targets)
  }

  ghost predicate InvitedTo(d: Store, e: Store, me: EmployeeId, c: CaseId, employees: seq<EmployeeId>)
    requires Collaboration.OwnerOf(d, c).Some?
  {
    var crew, owner := Collaboration.CrewAt(d.participants, c), Collaboration.OwnerOf(d, c).value;
    e == d.(participants :=
      d.participants[c := Collaboration.Invited(Collaboration.WithOwner(crew, owner), Collaboration.Targets(employees, me, owner))])
  }

  /** What is left behind when request `r` has been served. */
  ghost predicate Served(staff: map<EmployeeId, bool>, d: Store, e: Store, r: Request, w: World, now: nat) {
    match r
    case ForPlanning(p) => PlanningServed(d, e, p, w, now)
    case ForCase(c) => CaseServed(staff, d, e, c, w)
    case ForBundle(b) => BundleServed(staff, d, e, b)
    case ForEmployee(me, own) => EmployeeServed(staff, d, e, me, own, w, now)
  }

  // ---------------------------------------------------------------- one request

  method ServePlanning(tx: Tables, r: PlanningRequest, w: World, now: nat)
    requires Inv(tx.State()) && Works(w) && IsSent(tx.State(), ForPlanning(r))
    modifies tx
    ensures PlanningServed(old(tx.State()), tx.State(), r, w, now)
    ensures Inv(tx.State()) <==> !Breaks(old(tx.State()), ForPlanning(r))
    ensures Follows(old(tx.State()), tx.State())
  {
    match r
    case Arrive(known, s) => var c := Workflow.Intake(tx, known, s);
    case CompleteIntake(c, unknownLocation, fieldsComplete) =>
      var o := Workflow.CompleteIntake(tx, c, unknownLocation, fieldsComplete);
    case Recalculate(day, shifts) => var n, plan := Planning.Recalculate(tx, day, shifts, w.assignWork);
    case Export => var n := Workflow.ExportZst(tx, now);
  }

  method ServeSplit(tx: Tables, c: CaseId, receipt: SplitRequest.Receipt, wishes: seq<SplitRequest.PartWish>, day: nat, w: World)
    requires Inv(tx.State())
    modifies tx
    ensures CaseServed(tx.staff, old(tx.State()), tx.State(), Split(c, receipt, wishes, day), w)
    ensures Inv(tx.State()) && Follows(old(tx.State()), tx.State())
  {
    ghost var before, cut := tx.State(), [];
    var o, result;
    o, result, cut := SplitRequest.SplitCase(tx, c, receipt, wishes, day, w.lineOrder);
    if o == Done {
      assert SplitInto(before, tx.State(), c, result.children, wishes, day);
    }
  }

  method ServeShare(tx: Tables, c: CaseId, employees: seq<EmployeeId>, day: nat, w: World)
    requires Inv(tx.State())
    modifies tx
    ensures CaseServed(tx.staff, old(tx.State()), tx.State(), Share(c, employees, day), w)
    ensures Inv(tx.State()) && Follows(old(tx.State()), tx.State())
  {
    ghost var before, pack := tx.State(), 0;
    var o, b;
    o, b, pack := SharedAssignment.CreateCollaboration(tx, c, employees, day);
    if o == Done {
      assert SharedAmong(before, tx.State(), c, employees, day, b, pack);
    }
  }

  method ServeCase(tx: Tables, r: CaseRequest, w: World)
    requires Inv(tx.State())
    modifies tx
    ensures CaseServed(tx.staff, old(tx.State()), tx.State(), r, w)
    ensures Inv(tx.State()) <==> !Breaks(old(tx.State()), ForCase(r))
    ensures Follows(old(tx.State()), tx.State())
  {
    match r
    case Release(c) => var o := Workflow.Release(tx, c);
    case Park(c) => var o := Teamlead.Park(tx, c);
    case Cancel(c) => var o := Teamlead.Cancel(tx, c);
    case Resolve(c) => var o := Teamlead.ResolveProblems(tx, c);
    case Split(c, receipt, wishes, day) => ServeSplit(tx, c, receipt, wishes, day, w);
    case Share(c, employees, day) => ServeShare(tx, c, employees, day, w);
    case Remove(c, helper) => var o := Collaboration.RemoveParticipant(tx, c, helper);
  }

  method ServeAssign(tx: Tables, me: EmployeeId, day: nat, cs: seq<CaseId>, newPack: bool)
    requires Inv(tx.State())
    modifies tx
    ensures BundleServed(tx.staff, old(tx.State()), tx.State(), Assign(me, day, cs, newPack))
    ensures Inv(tx.State()) && Follows(old(tx.State()), tx.State())
  {
    ghost var before, pack := tx.State(), 0;
    var o, b;
    o, b, pack := Teamlead.AssignToEmployee(tx, me, day, cs, newPack);
    if o == Done {
      assert AssignedTo(before, tx.State(), me, day, cs, newPack, b, pack);
    }
  }

  method ServeMove(tx: Tables, source: BundleId, c: CaseId, me: EmployeeId, day: nat, target: Option<nat>)
    requires Inv(tx.State())
    modifies tx
    ensures BundleServed(tx.staff, old(tx.State()), tx.State(), Move(source, c, me, day, target))
    ensures Inv(tx.State()) && Follows(old(tx.State()), tx.State())
  {
    ghost var before := tx.State();
    var o, b, order := Moves.MoveCase(tx, source, c, me, day, target);
    if Teamlead.LiesIn(before, source, c) && c in before.cases && before.cases[c].status == Assigned && MayReceive(tx.staff, me) {
      assert MovedTo(before, tx.State(), source, c, me, day, target, b);
    }
  }

  method ServeBundle(tx: Tables, r: BundleRequest)
    requires Inv(tx.State()) && IsSent(tx.State(), ForBundle(r))
    modifies tx
    ensures BundleServed(tx.staff, old(tx.State()), tx.State(), r)
    ensures Inv(tx.State()) && Follows(old(tx.State()), tx.State())
  {
    ghost var before := tx.State();
    match r
    case Withdraw(b, c) =>
      var o, remaining := Teamlead.Withdraw(tx, b, c);
      assert o == Done ==> WithdrawnFrom(before, tx.State(), b, {c}, false, remaining);
    case Add(b, c) =>
      ghost var pack;
      var o;
      o, pack := Teamlead.AddToBundle(tx, b, c);
    case Assign(e, day, cs, newPack) => ServeAssign(tx, e, day, cs, newPack);
    case Move(source, c, e, day, target) => ServeMove(tx, source, c, e, day, target);
    case Reorder(b, cs) => var o := Teamlead.Reorder(tx, b, cs);
    case SetStatus(b, to) => var o := Teamlead.SetBundleStatus(tx, b, to);
  }

  method ServePull(tx: Tables, me: EmployeeId, day: nat, mayPull: bool, helpFirst: bool, mayTake: bool, w: World, now: nat)
    requires Inv(tx.State()) && Works(w)
    modifies tx
    ensures EmployeeServed(tx.staff, old(tx.State()), tx.State(), me, Pull(day, mayPull, helpFirst, mayTake), w, now)
    ensures Inv(tx.State()) && Follows(old(tx.State()), tx.State())
  {
    ghost var before, pack := tx.State(), 0;
    var answer, b;
    answer, b, pack := SelfPull.AssignNextBundle(tx, me, day, mayPull, helpFirst, mayTake, w.pick);
    if answer.Given? {
      assert Pulled(before, tx.State(), me, day, w, b, pack);
    }
  }

  method ServeParkRest(tx: Tables, me: EmployeeId, latest: Option<BundleId>, cs: seq<CaseId>, w: World, now: nat)
    requires Inv(tx.State()) && IsSent(tx.State(), ForEmployee(me, ParkRest(latest, cs)))
    modifies tx
    ensures EmployeeServed(tx.staff, old(tx.State()), tx.State(), me, ParkRest(latest, cs), w, now)
    ensures Inv(tx.State()) && Follows(old(tx.State()), tx.State())
  {
    ghost var before := tx.State();
    var o, remaining := EmployeeWork.ParkRemaining(tx, me, latest, cs);
    if o == Done {
      assert WithdrawnFrom(before, tx.State(), latest.value, BundleMutations.Members(cs), true, remaining);
    }
  }

  method ServeEmployee(tx: Tables, me: EmployeeId, r: EmployeeRequest, w: World, now: nat)
    requires Inv(tx.State()) && Works(w) && IsSent(tx.State(), ForEmployee(me, r))
    modifies tx
    ensures EmployeeServed(tx.staff, old(tx.State()), tx.State(), me, r, w, now)
    ensures Inv(tx.State()) && Follows(old(tx.State()), tx.State())
  {
    match r
    case Pull(day, mayPull, helpFirst, mayTake) => ServePull(tx, me, day, mayPull, helpFirst, mayTake, w, now);
    case Work(c, to, seen) => var o := EmployeeWork.Work(tx, me, c, to, seen, now, w.guard);
    case ParkRest(latest, cs) => ServeParkRest(tx, me, latest, cs, w, now);
    case Collect(c, collected) => var o := EmployeeWork.SetCollected(tx, me, c, collected);
    case Invite(c, employees) => var o, invited := Collaboration.Invite(tx, me, c, employees);
    case Respond(c, accept) => var o := Collaboration.Respond(tx, me, c, me, accept);
    case PartDone(c) => var o := Collaboration.PartDone(tx, me, c);
  }

  /** Exactly the two named requests break the invariant; no case's past is ever rewritten. */
  method Serve(tx: Tables, r: Request, w: World, now: nat)
    requires Inv(tx.State()) && Works(w) && IsSent(tx.State(), r)
    modifies tx
    ensures Served(tx.staff, old(tx.State()), tx.State(), r, w, now)
    ensures Inv(tx.State()) <==> !Breaks(old(tx.State()), r)
    ensures Follows(old(tx.State()), tx.State())
  {
    match r
    case ForPlanning(p) => ServePlanning(tx, p, w, now);
    case ForCase(c) => ServeCase(tx, c, w);
    case ForBundle(b) => ServeBundle(tx, b);
    case ForEmployee(me, own) => ServeEmployee(tx, me, own, w, now);
  }

  // ---------------------------------------------------------------- all requests

  /** One step of a run: the request is served, or it cannot be sent and nothing happens. */
  ghost predicate Stepped(staff: map<EmployeeId, bool>, d: Store, e: Store, r: Request, w: World, now: nat) {
    if IsSent(d, r) then Served(staff, d, e, r, w, now) else e == d
  }

  /** The stores between the requests: each fits, and leads to the next one by its own request. */
  ghost predicate IsTrace(staff: map<EmployeeId, bool>, trace: seq<Store>, requests: seq<Request>, w: World, clock: seq<nat>) {
    && |clock| == |requests| && 0 < |trace| <= |requests| + 1
    && forall i :: 0 <= i < |trace| - 1 ==>
         Inv(trace[i]) && Follows(trace[i], trace[i + 1]) && Stepped(staff, trace[i], trace[i + 1], requests[i], w, clock[i])
  }

  lemma {:induction false} TraceGrows(staff: map<EmployeeId, bool>, trace: seq<Store>, e: Store, requests: seq<Request>, w: World, clock: seq<nat>)
    requires IsTrace(staff, trace, requests, w, clock) && |trace| <= |requests|
    requires Inv(trace[|trace| - 1]) && Follows(trace[|trace| - 1], e) && Stepped(staff, trace[|trace| - 1], e, requests[|trace| - 1], w, clock[|trace| - 1])
    ensures IsTrace(staff, trace + [e], requests, w, clock)
  {
    var longer := trace + [e];
    forall i | 0 <= i < |longer| - 1
      ensures Inv(longer[i]) && Follows(longer[i], longer[i + 1]) && Stepped(staff, longer[i], longer[i + 1], requests[i], w, clock[i])
    {
      assert longer[i] == trace[i];
      assert longer[i + 1] == if i < |trace| - 1 then trace[i + 1] else e;
    }
  }

  method Step(tx: Tables, r: Request, w: World, now: nat) returns (kept: bool)
    requires Inv(tx.State()) && Works(w)
    modifies tx
    ensures Stepped(tx.staff, old(tx.State()), tx.State(), r, w, now)
    ensures kept <==> Inv(tx.State())
    ensures !kept ==> IsSent(old(tx.State()), r) && Breaks(old(tx.State()), r)
    ensures Follows(old(tx.State()), tx.State())
  {
    kept := true;
    if IsSent(tx.State(), r) {
      kept := !Breaks(tx.State(), r);
      Serve(tx, r, w, now);
    }
  }

  /**
   * Any requests in any order, up to the first that breaks the invariant; `kept` says whether
   * there was none, and `trace` holds the store in front of each request and the last one.
   */
  method Run(tx: Tables, requests: seq<Request>, w: World, clock: seq<nat>) returns (kept: bool, served: nat, ghost trace: seq<Store>)
    requires Inv(tx.State()) && Works(w) && |clock| == |requests|
    modifies tx
    ensures served <= |requests| && |trace| == served + 1
    ensures trace[0] == old(tx.State()) && trace[served] == tx.State()
    ensures IsTrace(tx.staff, trace, requests, w, clock)
    ensures kept <==> Inv(tx.State())
    ensures kept ==> served == |requests|
    ensures !kept ==> served > 0 && Breaks(trace[served - 1], requests[served - 1])
    ensures Follows(old(tx.State()), tx.State())
  {
    ghost var before := tx.State();
    ghost var here := before;
    trace, kept, served := [before], true, 0;
    while served < |requests|
      invariant 0 <= served <= |requests| && kept
      invariant |trace| == served + 1 && trace[0] == before && trace[served] == here == tx.State()
      invariant IsTrace(tx.staff, trace, requests, w, clock)
      invariant Inv(here) && Follows(before, here)
    {
      kept := Step(tx, requests[served], w, clock[served]);
      FollowsTransitive(before, here, tx.State());
      TraceGrows(tx.staff, trace, tx.State(), requests, w, clock);
      here := tx.State();
      trace, served := trace + [here], served + 1;
      if !kept {
        return;
      }
    }
  }

  /** The empty database is a start. */
  method RunFromScratch(staff: map<EmployeeId, bool>, requests: seq<Request>, w: World, clock: seq<nat>)
    returns (tx: Tables, kept: bool, served: nat, ghost trace: seq<Store>)
    requires Works(w) && |clock| == |requests|
    ensures tx.staff == staff && served <= |requests| && |trace| == served + 1
    ensures trace[0] == Store(map[], map[], map[], map[], map[]) && trace[served] == tx.State()
    ensures IsTrace(staff, trace, requests, w, clock)
    ensures kept <==> Inv(tx.State())
    ensures kept ==> served == |requests|
    ensures !kept ==> served > 0 && Breaks(trace[served - 1], requests[served - 1])
  {
    tx := new Tables(staff);
    EmptyStoreFits();
    kept, served, trace := Run(tx, requests, w, clock);
  }

  lemma EmptyStoreFits()
    ensures Inv(Store(map[], map[], map[], map[], map[]))
  {
  }

  /**
   * What a run can never do to a case: leave a terminal status, go back behind started or
   * finished work, change a completion time, or have one without being finished.
   */
  lemma RunRespectsLifecycle(d: Store, e: Store, c: CaseId)
    requires Inv(d) && Inv(e) && Follows(d, e) && c in d.cases
    ensures c in e.cases && IsPath(e.cases[c].history) && e.cases[c].history.last == e.cases[c].status
    ensures IsTerminal(d.cases[c].status) ==> e.cases[c].status == d.cases[c].status
    ensures IsFinished(d.cases[c].status) ==> IsFinished(e.cases[c].status)
    ensures IsStarted(d.cases[c].status) ==> IsStarted(e.cases[c].status) || e.cases[c].status == Cancelled
    ensures d.cases[c].completedAt.Some? ==> e.cases[c].completedAt == d.cases[c].completedAt
    ensures e.cases[c].completedAt.Some? <==> IsFinished(e.cases[c].status)
  {
    assert CaseFits(d, c) && CaseFits(e, c);
    PathNeverReturns(d.cases[c].history, e.cases[c].history);
  }

  lemma {:induction false} TraceFollows(staff: map<EmployeeId, bool>, trace: seq<Store>, requests: seq<Request>, w: World, clock: seq<nat>, i: nat, j: nat)
    requires IsTrace(staff, trace, requests, w, clock) && i <= j < |trace|
    ensures Follows(trace[i], trace[j])
    decreases j - i
  {
    if i < j {
      TraceFollows(staff, trace, requests, w, clock, i, j - 1);
      FollowsTransitive(trace[i], trace[j - 1], trace[j]);
    }
  }

  /** So between any two stores of a run that both fit. */
  lemma TraceRespectsLifecycle(staff: map<EmployeeId, bool>, trace: seq<Store>, requests: seq<Request>, w: World, clock: seq<nat>, i: nat, j: nat, c: CaseId)
    requires IsTrace(staff, trace, requests, w, clock) && i <= j < |trace| && Inv(trace[i]) && Inv(trace[j]) && c in trace[i].cases
    ensures c in trace[j].cases
    ensures IsTerminal(trace[i].cases[c].status) ==> trace[j].cases[c].status == trace[i].cases[c].status
    ensures IsFinished(trace[i].cases[c].status) ==> IsFinished(trace[j].cases[c].status)
    ensures IsStarted(trace[i].cases[c].status) ==> IsStarted(trace[j].cases[c].status) || trace[j].cases[c].status == Cancelled
    ensures trace[i].cases[c].completedAt.Some? ==> trace[j].cases[c].completedAt == trace[i].cases[c].completedAt
  {
    TraceFollows(staff, trace, requests, w, clock, i, j);
    RunRespectsLifecycle(trace[i], trace[j], c);
  }
}
