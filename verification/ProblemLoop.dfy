/**
 * Problems of one case (cases/cases.service.ts: `partialComplete`, `reopenIssue`,
 * `complete`, `withoutReportedProblems`; cases/teamlead.service.ts: `sendInstruction`;
 * modules/issue/derive-problems.ts). Each handler is one step.
 */
module ProblemLoop {
  import opened Options
  import opened CaseStatus

  datatype Kind = Manual | OverDelivery | UnderDelivery | PriceDeviation
  datatype IssueStatus = Open | InstructionSent
  datatype Message = Meldung | Instruktion | Rueckmeldung

  /** `line` is the size line; a problem of a whole position has none. */
  datatype Issue = Issue(kind: Kind, line: Option<nat>, status: IssueStatus, messages: seq<Message>)

  // ---------------------------------------------------------------- deviations

  /** What the employee counted and saw on one size line. */
  datatype SkuState = SkuState(line: nat, expected: int, confirmed: int, vkLabelPrice: Option<int>, correctedVkPrice: Option<int>)

  datatype Deviation = Deviation(kind: Kind, line: nat)

  predicate PriceDiffers(s: SkuState) {
    s.correctedVkPrice.Some? && s.correctedVkPrice != s.vkLabelPrice
  }

  /** Over- and under-delivery and price deviation are problems by themselves. */
  method DeriveImplicitProblems(skus: seq<SkuState>) returns (problems: seq<Deviation>)
    requires LinesApart(skus)
    ensures forall p :: p in problems <==> IsDerived(skus, p)
    ensures forall i, j :: 0 <= i < j < |problems| ==> problems[i] != problems[j]
  {
    problems := [];
    var k := 0;
    while k < |skus|
      invariant 0 <= k <= |skus|
      invariant forall p :: p in problems <==> IsDerived(skus[..k], p)
      invariant forall i, j :: 0 <= i < j < |problems| ==> problems[i] != problems[j]
    {
      var sku := skus[k];
      assert skus[..k + 1] == skus[..k] + [sku];
      forall p | p in problems ensures p.line != sku.line {
        assert IsDerived(skus[..k], p);
      }
      var found := [];
      var delta := sku.confirmed - sku.expected;
      if delta != 0 {
        found := [Deviation(if delta > 0 then OverDelivery else UnderDelivery, sku.line)];
      }
      if PriceDiffers(sku) {
        found := found + [Deviation(PriceDeviation, sku.line)];
      }
      assert forall p :: p in found <==> p.line == sku.line && Deviates(sku, p.kind);
      problems := problems + found;
      k := k + 1;
    }
    assert skus[..k] == skus;
  }

  predicate Deviates(s: SkuState, kind: Kind) {
    match kind
    case OverDelivery => s.confirmed > s.expected
    case UnderDelivery => s.confirmed < s.expected
    case PriceDeviation => PriceDiffers(s)
    case Manual => false
  }

  ghost predicate IsDerived(skus: seq<SkuState>, p: Deviation) {
    exists s :: s in skus && s.line == p.line && Deviates(s, p.kind)
  }

  // ---------------------------------------------------------------- histories

  /** The k-th entry of a history: a report, then instruction and reply in turn. */
  function EntryAt(k: nat): Message {
    if k == 0 then Meldung else if k % 2 == 1 then Instruktion else Rueckmeldung
  }

  /** meldung (instruktion rueckmeldung)* with an optional final instruktion; open until the last word is an instruction. */
  ghost predicate IssueFits(i: Issue) {
    && |i.messages| > 0
    && (forall k :: 0 <= k < |i.messages| ==> i.messages[k] == EntryAt(k))
    && (i.status == Open <==> i.messages[|i.messages| - 1] != Instruktion)
  }

  predicate IsReported(issues: seq<Issue>, p: Deviation) {
    exists i :: i in issues && i.kind == p.kind && i.line == Some(p.line)
  }

  /** A derived problem of a line is reported at most once. */
  ghost predicate ReportedOnce(issues: seq<Issue>) {
    forall i, j :: 0 <= i < j < |issues| && issues[i].kind != Manual
      ==> issues[i].kind != issues[j].kind || issues[i].line != issues[j].line
  }

  predicate HasOpen(issues: seq<Issue>) {
    exists i :: i in issues && i.status == Open
  }

  ghost predicate LoopInv(status: Status, issues: seq<Issue>) {
    && (status != Cancelled ==> (status == IssueOpen <==> HasOpen(issues)))
    && (forall i :: 0 <= i < |issues| ==> IssueFits(issues[i]))
    && ReportedOnce(issues)
  }

  function NewIssue(kind: Kind, line: Option<nat>): Issue {
    Issue(kind, line, Open, [Meldung])
  }

  function ManualIssues(lines: seq<Option<nat>>): seq<Issue> {
    seq(|lines|, k requires 0 <= k < |lines| => NewIssue(Manual, lines[k]))
  }

  function DerivedIssues(problems: seq<Deviation>): seq<Issue> {
    seq(|problems|, k requires 0 <= k < |problems| => NewIssue(problems[k].kind, Some(problems[k].line)))
  }

  /** The deviations nobody has reported yet, in their order. */
  function Unreported(problems: seq<Deviation>, issues: seq<Issue>): seq<Deviation> {
    if problems == [] then []
    else
      var n := |problems| - 1;
      Unreported(problems[..n], issues) + if IsReported(issues, problems[n]) then [] else [problems[n]]
  }

  lemma {:induction false} UnreportedAre(problems: seq<Deviation>, issues: seq<Issue>)
    ensures forall p :: p in Unreported(problems, issues) <==> p in problems && !IsReported(issues, p)
    ensures (forall i, j :: 0 <= i < j < |problems| ==> problems[i] != problems[j]) ==>
      forall i, j :: 0 <= i < j < |Unreported(problems, issues)| ==> Unreported(problems, issues)[i] != Unreported(problems, issues)[j]
  {
    if problems != [] {
      var n := |problems| - 1;
      UnreportedAre(problems[..n], issues);
      assert problems == problems[..n] + [problems[n]];
    }
  }

  /** Nothing is unreported exactly when every derived deviation has an issue. */
  lemma {:induction false} NothingUnreported(skus: seq<SkuState>, all: seq<Deviation>, issues: seq<Issue>)
    requires forall p :: p in all <==> IsDerived(skus, p)
    ensures Unreported(all, issues) == [] <==> forall p :: IsDerived(skus, p) ==> IsReported(issues, p)
  {
    var rest := Unreported(all, issues);
    UnreportedAre(all, issues);
    if rest != [] {
      assert rest[0] in rest;
    }
    forall p | rest == [] && IsDerived(skus, p) ensures IsReported(issues, p) {
      assert p in all && p !in rest;
    }
  }

  lemma AllAnsweredOrOpen(issues: seq<Issue>)
    ensures HasOpen(issues) <==> !forall i :: i in issues ==> i.status == InstructionSent
  {
    if HasOpen(issues) {
      var i :| i in issues && i.status == Open;
    }
  }

  datatype Answer = Done | NotFound | Conflict | BadRequest

  datatype Action =
    | Change(to: Status)
    | Partial(manual: seq<Option<nat>>, skus: seq<SkuState>)
    | Full(skus: seq<SkuState>)
    | Instruct(issue: nat)
    | Reply(issue: nat)

  class CaseProblems {
    var status: Status
    var issues: seq<Issue>

    constructor (status: Status)
      requires status in {NeedsReview, Blocked, Ready}
      ensures this.status == status && issues == [] && LoopInv(this.status, issues)
    {
      this.status, issues := status, [];
    }

    /** Every other handler changes the status along the graph and knows nothing of problems. */
    method ChangeStatus(to: Status) returns (answer: Answer)
      requires LoopInv(status, issues) && to !in {IssueOpen, ProblemResolved, Completed}
      modifies this
      ensures answer == Done <==> CanTransition(old(status), to)
      ensures issues == old(issues) && status == if answer == Done then to else old(status)
      ensures LoopInv(status, issues)
    {
      if !CanTransition(status, to) {
        return BadRequest;
      }
      status := to;
      answer := Done;
    }

    /** New problems open the loop; a deviation that was ever reported is not reported again. */
    method PartialComplete(manual: seq<Option<nat>>, skus: seq<SkuState>) returns (answer: Answer)
      requires LoopInv(status, issues)
      requires LinesApart(skus)
      modifies this
      ensures answer == Done <==>
        && CanTransition(old(status), IssueOpen)
        && (manual != [] || exists p :: IsDerived(skus, p) && !IsReported(old(issues), p))
      ensures answer != Done ==> status == old(status) && issues == old(issues)
      ensures answer == Done ==> status == IssueOpen && Reports(old(issues), issues, manual, skus)
      ensures answer == Done ==> forall p :: IsDerived(skus, p) ==> IsReported(issues, p)
      ensures LoopInv(status, issues)
    {
      var all := DeriveImplicitProblems(skus);
      var implicit := Unreported(all, issues);
      UnreportedAre(all, issues);
      if implicit == [] && manual == [] {
        assert forall p :: IsDerived(skus, p) ==> p in all && p !in implicit;
        return BadRequest;
      }
      if implicit != [] {
        assert implicit[0] in implicit;
      }
      if !CanTransition(status, IssueOpen) {
        return BadRequest;
      }
      ReportKeepsInv(status, issues, manual, implicit);
      ReportedAfter(issues, manual, implicit, all);
      NewIssuesAreReports(issues, manual, implicit, skus);
      issues := issues + ManualIssues(manual) + DerivedIssues(implicit);
      status := IssueOpen;
      answer := Done;
    }

    /** Completing needs every deviation reported and no issue open. */
    method Complete(skus: seq<SkuState>) returns (answer: Answer)
      requires LoopInv(status, issues)
      requires LinesApart(skus)
      modifies this
      ensures answer == Done <==>
        && old(status) == InProgress && (forall i :: i in old(issues) ==> i.status == InstructionSent)
        && forall p :: IsDerived(skus, p) ==> IsReported(old(issues), p)
      ensures issues == old(issues) && status == if answer == Done then Completed else old(status)
      ensures LoopInv(status, issues)
    {
      var all := DeriveImplicitProblems(skus);
      var implicit := Unreported(all, issues);
      NothingUnreported(skus, all, issues);
      if implicit != [] {
        return BadRequest;
      }
      AllAnsweredOrOpen(issues);
      if HasOpen(issues) {
        return BadRequest;
      }
      if !CanTransition(status, Completed) {
        return BadRequest;
      }
      status := Completed;
      answer := Done;
    }

    /** Exactly one open issue is answered; the case is resolved when it was the last one. */
    method SendInstruction(k: nat) returns (answer: Answer)
      requires LoopInv(status, issues)
      modifies this
      ensures answer == NotFound <==> k >= |old(issues)|
      ensures answer == Done <==> k < |old(issues)| && old(issues)[k].status == Open
      ensures answer == Done ==> issues == Extended(old(issues), k, Instruktion, InstructionSent)
      ensures answer == Done ==>
        status == if old(status) == IssueOpen && (forall i :: i in issues ==> i.status == InstructionSent)
                  then ProblemResolved else old(status)
      ensures answer != Done ==> status == old(status) && issues == old(issues)
      ensures LoopInv(status, issues)
    {
      if k >= |issues| {
        return NotFound;
      }
      if issues[k].status != Open {
        return Conflict;
      }
      InstructionKeepsInv(status, issues, k);
      issues := issues[k := issues[k].(messages := issues[k].messages + [Instruktion], status := InstructionSent)];
      if !HasOpen(issues) && status == IssueOpen {
        status := ProblemResolved;
      }
      answer := Done;
    }

    /** The employee answers an instruction: the issue is open again, and so is the case's problem. */
    method ReopenIssue(k: nat) returns (answer: Answer)
      requires LoopInv(status, issues)
      modifies this
      ensures answer == NotFound <==> k >= |old(issues)|
      ensures answer == Done <==>
        && k < |old(issues)| && old(issues)[k].status == InstructionSent
        && old(status) in {IssueOpen, ProblemResolved, InProgress}
      ensures answer == Done ==> issues == Extended(old(issues), k, Rueckmeldung, Open) && status == IssueOpen
      ensures answer != Done ==> status == old(status) && issues == old(issues)
      ensures LoopInv(status, issues)
    {
      if k >= |issues| {
        return NotFound;
      }
      if issues[k].status != InstructionSent {
        return Conflict;
      }
      if status !in {IssueOpen, ProblemResolved, InProgress} {
        return Conflict;
      }
      ReplyKeepsInv(status, issues, k);
      issues := issues[k := issues[k].(messages := issues[k].messages + [Rueckmeldung], status := Open)];
      if status != IssueOpen {
        assert CanTransition(status, IssueOpen);
        status := IssueOpen;
      }
      answer := Done;
    }

    /** One action of a run; a list of counts that names a line twice is not sent. */
    method Handle(action: Action)
      requires LoopInv(status, issues)
      modifies this
      ensures Handled(Loop(old(status), old(issues)), Loop(status, issues), action)
      ensures LoopInv(status, issues)
    {
      var answer;
      match action
      case Change(to) =>
        if to !in {IssueOpen, ProblemResolved, Completed} { answer := ChangeStatus(to); }
      case Partial(manual, skus) =>
        if LinesApart(skus) { answer := PartialComplete(manual, skus); }
      case Full(skus) =>
        if LinesApart(skus) { answer := Complete(skus); }
      case Instruct(k) => answer := SendInstruction(k);
      case Reply(k) => answer := ReopenIssue(k);
    }

    /** Any actions in any order; `trace` holds what each of them found and left. */
    method Run(actions: seq<Action>) returns (ghost trace: seq<Loop>)
      requires LoopInv(status, issues)
      modifies this
      ensures |trace| == |actions| + 1
      ensures trace[0] == Loop(old(status), old(issues)) && trace[|actions|] == Loop(status, issues)
      ensures forall n :: 0 <= n < |actions| ==> Handled(trace[n], trace[n + 1], actions[n])
      ensures forall n :: 0 <= n <= |actions| ==> LoopInv(trace[n].status, trace[n].issues)
    {
      var n := 0;
      trace := [Loop(status, issues)];
      while n < |actions|
        invariant 0 <= n <= |actions| && |trace| == n + 1
        invariant trace[0] == Loop(old(status), old(issues)) && trace[n] == Loop(status, issues)
        invariant forall k :: 0 <= k < n ==> Handled(trace[k], trace[k + 1], actions[k])
        invariant forall k :: 0 <= k <= n ==> LoopInv(trace[k].status, trace[k].issues)
      {
        Handle(actions[n]);
        ghost var longer := trace + [Loop(status, issues)];
        forall k | 0 <= k < n + 1 ensures Handled(longer[k], longer[k + 1], actions[k]) {
          assert longer[k] == trace[k];
        }
        trace, n := longer, n + 1;
      }
    }
  }

  datatype Loop = Loop(status: Status, issues: seq<Issue>)

  /** What an action makes of the case and its issues; refused, it changes nothing. */
  ghost predicate Handled(a: Loop, b: Loop, action: Action) {
    match action
    case Change(to) =>
      b == if to !in {IssueOpen, ProblemResolved, Completed} && CanTransition(a.status, to) then Loop(to, a.issues) else a
    case Partial(manual, skus) =>
      if LinesApart(skus) && CanTransition(a.status, IssueOpen)
         && (manual != [] || exists p :: IsDerived(skus, p) && !IsReported(a.issues, p))
      then b.status == IssueOpen && Reports(a.issues, b.issues, manual, skus) && forall p :: IsDerived(skus, p) ==> IsReported(b.issues, p)
      else b == a
    case Full(skus) =>
      b == if LinesApart(skus) && a.status == InProgress && !HasOpen(a.issues) && (forall p :: IsDerived(skus, p) ==> IsReported(a.issues, p))
           then Loop(Completed, a.issues) else a
    case Instruct(k) =>
      if k < |a.issues| && a.issues[k].status == Open
      then
        && b.issues == Extended(a.issues, k, Instruktion, InstructionSent)
        && b.status == if a.status == IssueOpen && !HasOpen(b.issues) then ProblemResolved else a.status
      else b == a
    case Reply(k) =>
      b == if k < |a.issues| && a.issues[k].status == InstructionSent && a.status in {IssueOpen, ProblemResolved, InProgress}
           then Loop(IssueOpen, Extended(a.issues, k, Rueckmeldung, Open)) else a
  }

  predicate LinesApart(skus: seq<SkuState>) {
    forall i, j :: 0 <= i < j < |skus| ==> skus[i].line != skus[j].line
  }

  /** The manual problems in their order, behind them one fresh report for each deviation that had none. */
  ghost predicate Reports(before: seq<Issue>, now: seq<Issue>, manual: seq<Option<nat>>, skus: seq<SkuState>) {
    && before <= now && |before| + |manual| <= |now|
    && (forall k :: 0 <= k < |manual| ==> now[|before| + k] == Issue(Manual, manual[k], Open, [Meldung]))
    && (forall k :: |before| + |manual| <= k < |now| ==> IsNewReport(before, now[k], skus))
  }

  /** An open issue with its first message, for a deviation of one size line that had no issue of that kind. */
  ghost predicate IsNewReport(before: seq<Issue>, i: Issue, skus: seq<SkuState>) {
    && i == Issue(i.kind, i.line, Open, [Meldung]) && i.line.Some?
    && (exists s :: s in skus && s.line == i.line.value && Deviates(s, i.kind))
    && (forall x :: x in before ==> x.kind != i.kind || x.line != i.line)
  }

  lemma NewIssuesAreReports(issues: seq<Issue>, manual: seq<Option<nat>>, implicit: seq<Deviation>, skus: seq<SkuState>)
    requires forall p :: p in implicit ==> IsDerived(skus, p) && !IsReported(issues, p)
    ensures Reports(issues, issues + ManualIssues(manual) + DerivedIssues(implicit), manual, skus)
  {
    var now := issues + ManualIssues(manual) + DerivedIssues(implicit);
    forall k | |issues| + |manual| <= k < |now| ensures IsNewReport(issues, now[k], skus) {
      var p := implicit[k - |issues| - |manual|];
      assert p in implicit && now[k] == NewIssue(p.kind, Some(p.line));
    }
  }

  /** A line deviates by more or fewer pieces than expected, or by a corrected price that is not the label's. */
  lemma DeviatesWhen(s: SkuState, kind: Kind)
    ensures Deviates(s, kind) <==>
      || (kind == OverDelivery && s.confirmed > s.expected)
      || (kind == UnderDelivery && s.confirmed < s.expected)
      || (kind == PriceDeviation && s.correctedVkPrice != None && s.correctedVkPrice != s.vkLabelPrice)
  {
  }

  /**
   * The invariant without its notions: an issue is a report followed by instruction and
   * reply in turn; the case waits in `issue_open` exactly while some issue's last word is the
   * employee's; no deviation of a line is reported twice.
   */
  lemma LoopInvSays(status: Status, issues: seq<Issue>, k: nat, m: nat)
    requires LoopInv(status, issues) && k < |issues| && m < |issues[k].messages|
    ensures issues[k].messages[m] ==
      if m == 0 then Meldung else if issues[k].messages[m - 1] == Instruktion then Rueckmeldung else Instruktion
    ensures issues[k].status == Open <==> issues[k].messages[|issues[k].messages| - 1] in {Meldung, Rueckmeldung}
    ensures status != Cancelled ==> (status == IssueOpen <==> exists i :: 0 <= i < |issues| && issues[i].status == Open)
    ensures forall j :: 0 <= j < |issues| && j != k && issues[k].kind != Manual && issues[j].kind == issues[k].kind ==>
      issues[j].line != issues[k].line
  {
    assert issues[k].messages[m] == EntryAt(m);
    if m > 0 {
      assert issues[k].messages[m - 1] == EntryAt(m - 1);
    }
    assert HasOpen(issues) <==> exists i :: 0 <= i < |issues| && issues[i].status == Open;
  }

  /** Where every derived deviation is reported, each deviating line has an issue of its kind. */
  lemma EveryDeviationHasIssue(skus: seq<SkuState>, issues: seq<Issue>, s: SkuState)
    requires s in skus && forall p :: IsDerived(skus, p) ==> IsReported(issues, p)
    ensures s.confirmed > s.expected ==> exists i :: i in issues && i.kind == OverDelivery && i.line == Some(s.line)
    ensures s.confirmed < s.expected ==> exists i :: i in issues && i.kind == UnderDelivery && i.line == Some(s.line)
    ensures s.correctedVkPrice != None && s.correctedVkPrice != s.vkLabelPrice ==>
      exists i :: i in issues && i.kind == PriceDeviation && i.line == Some(s.line)
  {
    forall kind | Deviates(s, kind) ensures IsReported(issues, Deviation(kind, s.line)) {
      assert IsDerived(skus, Deviation(kind, s.line));
    }
    assert s.confirmed > s.expected ==> Deviates(s, OverDelivery);
    assert s.confirmed < s.expected ==> Deviates(s, UnderDelivery);
    assert s.correctedVkPrice != None && s.correctedVkPrice != s.vkLabelPrice ==> Deviates(s, PriceDeviation);
  }

  // ---------------------------------------------------------------- each step keeps the invariant

  function Extended(issues: seq<Issue>, k: nat, message: Message, status: IssueStatus): seq<Issue>
    requires k < |issues|
  {
    issues[k := issues[k].(messages := issues[k].messages + [message], status := status)]
  }

  lemma NewIssuesAre(issues: seq<Issue>, manual: seq<Option<nat>>, implicit: seq<Deviation>, k: nat)
    requires |issues| <= k < |issues| + |manual| + |implicit|
    ensures var now := issues + ManualIssues(manual) + DerivedIssues(implicit);
      && now[k] == NewIssue(now[k].kind, now[k].line)
      && (k < |issues| + |manual| ==> now[k].kind == Manual)
      && (k >= |issues| + |manual| ==> now[k].line.Some? && Deviation(now[k].kind, now[k].line.value) in implicit)
  {
  }

  lemma ReportedAfter(issues: seq<Issue>, manual: seq<Option<nat>>, implicit: seq<Deviation>, all: seq<Deviation>)
    requires forall p :: p in implicit <==> p in all && !IsReported(issues, p)
    ensures forall p :: p in all ==> IsReported(issues + ManualIssues(manual) + DerivedIssues(implicit), p)
  {
    var now := issues + ManualIssues(manual) + DerivedIssues(implicit);
    forall p | p in all ensures IsReported(now, p) {
      if p in implicit {
        var m :| 0 <= m < |implicit| && implicit[m] == p;
        assert now[|issues| + |manual| + m] == NewIssue(p.kind, Some(p.line));
        assert NewIssue(p.kind, Some(p.line)) in now;
      } else {
        var i :| i in issues && i.kind == p.kind && i.line == Some(p.line);
        assert i in now;
      }
    }
  }

  lemma ReportKeepsInv(status: Status, issues: seq<Issue>, manual: seq<Option<nat>>, implicit: seq<Deviation>)
    requires LoopInv(status, issues) && (implicit != [] || manual != [])
    requires forall p :: p in implicit ==> !IsReported(issues, p)
    requires forall i, j :: 0 <= i < j < |implicit| ==> implicit[i] != implicit[j]
    ensures LoopInv(IssueOpen, issues + ManualIssues(manual) + DerivedIssues(implicit))
  {
    var now := issues + ManualIssues(manual) + DerivedIssues(implicit);
    forall k | 0 <= k < |now| ensures IssueFits(now[k]) {
      if k >= |issues| {
        NewIssuesAre(issues, manual, implicit, k);
      }
    }
    NewIssuesAre(issues, manual, implicit, |issues|);
    assert now[|issues|] in now;
    forall i, j | 0 <= i < j < |now| && now[i].kind != Manual ensures now[i].kind != now[j].kind || now[i].line != now[j].line {
      if j >= |issues| + |manual| {
        NewIssuesAre(issues, manual, implicit, j);
        if i < |issues| {
          assert now[i] in issues;
        } else {
          NewIssuesAre(issues, manual, implicit, i);
          assert now[i] == NewIssue(implicit[i - |issues| - |manual|].kind, Some(implicit[i - |issues| - |manual|].line));
          assert now[j] == NewIssue(implicit[j - |issues| - |manual|].kind, Some(implicit[j - |issues| - |manual|].line));
        }
      } else if j >= |issues| {
        NewIssuesAre(issues, manual, implicit, j);
      }
    }
  }

  lemma ExtendedFits(i: Issue, message: Message, status: IssueStatus)
    requires IssueFits(i)
    requires message == EntryAt(|i.messages|) && (status == Open <==> message != Instruktion)
    ensures IssueFits(i.(messages := i.messages + [message], status := status))
  {
  }

  /** Whose turn it is can be read off the status. */
  lemma TurnOf(i: Issue)
    requires IssueFits(i)
    ensures EntryAt(|i.messages|) == if i.status == Open then Instruktion else Rueckmeldung
  {
  }

  lemma InstructionKeepsInv(status: Status, issues: seq<Issue>, k: nat)
    requires LoopInv(status, issues) && k < |issues| && issues[k].status == Open
    ensures var now := Extended(issues, k, Instruktion, InstructionSent);
      LoopInv(if !HasOpen(now) && status == IssueOpen then ProblemResolved else status, now)
  {
  }

  lemma ReplyKeepsInv(status: Status, issues: seq<Issue>, k: nat)
    requires LoopInv(status, issues) && k < |issues| && issues[k].status == InstructionSent
    ensures LoopInv(IssueOpen, Extended(issues, k, Rueckmeldung, Open))
  {
    TurnOf(issues[k]);
    ExtendedFits(issues[k], Rueckmeldung, Open);
    assert Extended(issues, k, Rueckmeldung, Open)[k] in Extended(issues, k, Rueckmeldung, Open);
  }
}
