/**
 * The relational rows the services share, reduced to the columns that decide something:
 * cases, bundles, bundle items, route stops and case participants. `Store` is one value
 * of the whole database; class `Tables` is the database the transactions write to.
 *
 * Items are keyed by their case and participants by case and employee: those are the two
 * unique constraints of the schema. An insert that would violate one fails in the
 * original, so every insert below is proved to hit a free key.
 */
module Database {
  import opened Options
  import opened CaseStatus
  import opened Ids

  datatype Author = BySystem | ByTeamlead

  datatype BundleStatus =
    | BundleCreated | BundleAssigned | BundleAccepted | BundleActive
    | BundlePaused | BundleCompleted | BundleCancelled

  datatype Role = Inhaber | Helfer

  datatype ParticipantStatus = Eingeladen | Angenommen | Abgelehnt | TeilErledigt | Entfernt

  /** `history` records every value written to the status column; the source keeps only the last. */
  datatype Case = Case(
    status: Status,
    bundle: Option<BundleId>,
    parent: Option<CaseId>,
    completedAt: Option<nat>,
    collected: bool,
    version: nat,
    history: History)

  datatype Bundle = Bundle(employee: EmployeeId, day: nat, status: BundleStatus, activePack: nat)

  datatype Item = Item(bundle: BundleId, sequence: nat, pack: nat, createdBy: Author)

  datatype Stop = Stop(location: nat, sequence: int, orders: seq<CaseId>)

  /** `collected` is the participant's own tick for fetched goods. */
  datatype Participant = Participant(role: Role, status: ParticipantStatus, collected: bool)

  /** The participant rows of one case. */
  type Crew = map<EmployeeId, Participant>

  datatype Store = Store(
    cases: map<CaseId, Case>,
    bundles: map<BundleId, Bundle>,
    items: map<CaseId, Item>,
    stops: map<BundleId, seq<Stop>>,
    participants: map<CaseId, Crew>)

  /** What a request answers: done, or one of the service's refusals. */
  datatype Outcome = Done | NotFound | Conflict | BadRequest

  /** The next row id: one no row has. */
  method FreshId(used: set<nat>) returns (id: nat)
    ensures id !in used
  {
    id := 0;
    var rest := used;
    while rest != {}
      invariant forall x :: x in used && x !in rest ==> x < id
    {
      var x :| x in rest;
      rest := rest - {x};
      id := if x < id then id else x + 1;
    }
  }

  class Tables {
    /** The employees that exist, and whether each is active; no transaction below changes it. */
    const staff: map<EmployeeId, bool>

    var cases: map<CaseId, Case>
    var bundles: map<BundleId, Bundle>
    var items: map<CaseId, Item>
    var stops: map<BundleId, seq<Stop>>
    var participants: map<CaseId, Crew>

    function State(): Store
      reads this
    {
      Store(cases, bundles, items, stops, participants)
    }

    constructor (staff: map<EmployeeId, bool>)
      ensures State() == Store(map[], map[], map[], map[], map[])
      ensures this.staff == staff
    {
      this.staff := staff;
      cases, bundles, items, stops, participants := map[], map[], map[], map[], map[];
    }

    /** A transaction that throws leaves the rows as it found them. */
    method Rollback(before: Store)
      modifies this
      ensures State() == before
    {
      cases, bundles, items := before.cases, before.bundles, before.items;
      stops, participants := before.stops, before.participants;
    }
  }
}
