/**
 * The lifecycle graph of a case (workflow/case-status.ts) and the check the workflow
 * service makes before it follows an edge (workflow/case-state-machine.ts).
 */
module CaseStatus {
  datatype Status =
    | NeedsReview | Blocked | Ready | Parked | Assigned | InProgress | IssueOpen
    | ProblemResolved | Completed | ZstDone | Cancelled | SplitContainer

  function Transitions(from: Status): set<Status> {
    match from
    case NeedsReview => {Ready, Cancelled}
    case Blocked => {Ready, Cancelled}
    case Ready => {Assigned, Parked, Cancelled, SplitContainer}
    case Parked => {Ready, Cancelled, SplitContainer}
    case Assigned => {InProgress, Ready, Cancelled}
    case InProgress => {IssueOpen, Completed, Cancelled}
    case IssueOpen => {ProblemResolved, Cancelled}
    case ProblemResolved => {InProgress, IssueOpen, Cancelled}
    case Completed => {ZstDone}
    case ZstDone => {}
    case Cancelled => {}
    case SplitContainer => {}
  }

  predicate CanTransition(from: Status, to: Status) {
    to in Transitions(from)
  }

  const TERMINAL_STATUSES: set<Status> := {ZstDone, Cancelled, SplitContainer}

  predicate IsTerminal(s: Status) {
    s in TERMINAL_STATUSES
  }

  /** The statuses that carry a completion time. */
  predicate IsFinished(s: Status) {
    s == Completed || s == ZstDone
  }

  /** Work on the case has begun; what is left is to finish or to cancel it. */
  predicate IsStarted(s: Status) {
    s in {InProgress, IssueOpen, ProblemResolved, Completed, ZstDone}
  }

  /** Every value ever written to a status column, newest last. */
  datatype History = First(last: Status) | Then(before: History, last: Status)

  /** The history follows the graph; a value may be rewritten. */
  predicate IsPath(h: History) {
    match h
    case First(_) => true
    case Then(before, s) => IsPath(before) && (before.last == s || CanTransition(before.last, s))
  }

  /** `later` continues `h`: nothing of the past is rewritten. */
  predicate Extends(h: History, later: History) {
    h == later || (later.Then? && Extends(h, later.before))
  }

  lemma {:induction false} ExtendsTransitive(a: History, b: History, c: History)
    requires Extends(a, b) && Extends(b, c)
    ensures Extends(a, c)
  {
    if b != c {
      ExtendsTransitive(a, b, c.before);
    }
  }

  /** A set of statuses that no edge leaves. */
  ghost predicate Closed(s: set<Status>) {
    forall a, b :: a in s && CanTransition(a, b) ==> b in s
  }

  /** A path that enters a closed set stays in it. */
  lemma {:induction false} PathStays(h: History, later: History, s: set<Status>)
    requires IsPath(later) && Extends(h, later) && Closed(s) && h.last in s
    ensures later.last in s
  {
    if h != later {
      PathStays(h, later.before, s);
    }
  }

  /** Terminal statuses are never left, a completed case can only be exported, and started work never returns to the pool. */
  lemma {:induction false} PathNeverReturns(h: History, later: History)
    requires IsPath(later) && Extends(h, later)
    ensures IsTerminal(h.last) ==> later.last == h.last
    ensures IsFinished(h.last) ==> IsFinished(later.last)
    ensures IsStarted(h.last) ==> IsStarted(later.last) || later.last == Cancelled
  {
    if IsTerminal(h.last) {
      PathStays(h, later, {h.last});
    }
    if IsFinished(h.last) {
      PathStays(h, later, {Completed, ZstDone});
    }
    if IsStarted(h.last) {
      PathStays(h, later, {InProgress, IssueOpen, ProblemResolved, Completed, ZstDone, Cancelled});
    }
  }

  /** The three listed terminal statuses are exactly the ones without an outgoing edge. */
  lemma TerminalIsSink(s: Status)
    ensures IsTerminal(s) <==> forall t :: !CanTransition(s, t)
  {
    if !IsTerminal(s) {
      assert CanTransition(s, if s == Completed then ZstDone else if s == IssueOpen then ProblemResolved
                              else if s == InProgress then IssueOpen else if s == Assigned || s == ProblemResolved then InProgress
                              else if s == Ready then Parked else Ready);
    }
  }

  /** The graph read backwards: from where each status can be entered. No edge leads back to intake. */
  lemma EnteredFrom(s: Status, to: Status)
    ensures CanTransition(s, to) <==>
      match to
      case NeedsReview => false
      case Blocked => false
      case Ready => s in {NeedsReview, Blocked, Parked, Assigned}
      case Parked => s == Ready
      case Assigned => s == Ready
      case InProgress => s in {Assigned, ProblemResolved}
      case IssueOpen => s in {InProgress, ProblemResolved}
      case ProblemResolved => s == IssueOpen
      case Completed => s == InProgress
      case ZstDone => s == Completed
      case Cancelled => s !in {Completed, ZstDone, Cancelled, SplitContainer}
      case SplitContainer => s in {Ready, Parked}
  {
  }
}
