/** The structured result of a subagent run: built from its events, verified by the parent. */
module SubagentResult {
  import opened Picking
  import opened Results
  import opened Text

  datatype Event =
    | FindingRecorded(id: string, details: string, severity: string, evidence: string)
    | GoalEvaluated(satisfied: bool, reason: string, turnCount: nat, tokensSpent: nat)
    | ToolCall(name: string, path: Option<string>)
    | OtherEvent

  datatype Status = Completed | Partial | Failed | Cancelled

  datatype Finding = Finding(summary: string, severity: Option<string>, evidenceRefs: seq<string>)

  datatype EvidenceRef = EvidenceRef(kind: string, reference: string, note: Option<string>)

  datatype Validation = Validation(name: string, passed: bool, detail: Option<string>)

  datatype Usage = Usage(tokensUsed: nat, toolCalls: nat, turns: nat, wallClockMs: nat)

  datatype TaskResult = TaskResult(
    taskId: string, status: Status, summary: string, findings: seq<Finding>, evidence: seq<EvidenceRef>,
    changedFiles: seq<string>, validations: seq<Validation>, remainingWork: seq<string>, usage: Usage,
    checkpoint: Option<string>)

  datatype Stop = Finished | Stopped(message: string) | RunFailed(error: string) | RunCancelled

  const PLACEHOLDER := "No final answer produced by subagent."

  // ---------- Texts of work items and defects ----------

  const CANCELLED_TEXT := "run cancelled before completion"
  const NO_SUMMARY := "summary is empty or the no-answer placeholder"
  const OPEN_WORK := "claims completed but remaining_work is non-empty"
  const NO_EVIDENCE := "findings reported without any evidence reference"

  function GoalText(reason: string): string { "goal not satisfied: " + reason }
  function StoppedText(message: string): string { "run stopped before completion: " + message }
  function FailedText(error: string): string { "run failed: " + error }
  function FailedAnswer(error: string): string { "subagent run failed: " + error }
  function FailedValidation(name: string): string { "claims completed but validation '" + name + "' failed" }
  function UnknownEvidence(reference: string): string { "finding references unknown evidence '" + reference + "'" }
  function Note(defect: string): string { "verification: " + defect }

  // ---------- What the lists of a result are ----------

  function FindingsOf(events: seq<Event>): seq<Finding> {
    if events == [] then [] else
    var n := |events| - 1;
    FindingsOf(events[..n])
    + match events[n]
      case FindingRecorded(id, details, severity, _) => [Finding(details, Some(severity), [id])]
      case _ => []
  }

  function EvidenceOf(events: seq<Event>): seq<EvidenceRef> {
    if events == [] then [] else
    var n := |events| - 1;
    EvidenceOf(events[..n])
    + match events[n]
      case FindingRecorded(id, _, _, note) => [EvidenceRef("finding", id, Some(note))]
      case _ => []
  }

  function ValidationsOf(events: seq<Event>): seq<Validation> {
    if events == [] then [] else
    var n := |events| - 1;
    ValidationsOf(events[..n])
    + match events[n]
      case GoalEvaluated(satisfied, reason, _, _) => [Validation("goal_evaluated", satisfied, Some(reason))]
      case _ => []
  }

  function OpenGoals(events: seq<Event>): seq<string> {
    if events == [] then [] else
    var n := |events| - 1;
    OpenGoals(events[..n])
    + if events[n].GoalEvaluated? && !events[n].satisfied then [GoalText(events[n].reason)] else []
  }

  predicate IsWrite(ev: Event) {
    ev.ToolCall? && (ev.name == "write_file" || ev.name == "edit_file") && ev.path.Some?
  }

  /** The distinct paths written so far, in the order of their first use. */
  function FilesOf(events: seq<Event>): seq<string> {
    if events == [] then [] else
    var n := |events| - 1;
    var before := FilesOf(events[..n]);
    if IsWrite(events[n]) && events[n].path.value !in before then before + [events[n].path.value] else before
  }

  function Max(a: nat, b: nat): nat {
    if a < b then b else a
  }

  function UsageOf(events: seq<Event>, wallClockMs: nat): Usage {
    if events == [] then Usage(0, 0, 0, wallClockMs) else
    var n := |events| - 1;
    var u := UsageOf(events[..n], wallClockMs);
    match events[n]
    case GoalEvaluated(_, _, turns, tokens) =>
      u.(turns := Max(u.turns, turns), tokensUsed := Max(u.tokensUsed, tokens))
    case ToolCall(_, _) => u.(toolCalls := u.toolCalls + 1)
    case _ => u
  }

  predicate AllPassed(validations: seq<Validation>) {
    forall i :: 0 <= i < |validations| ==> validations[i].passed
  }

  function StatusOf(stop: Stop, validations: seq<Validation>): Status {
    match stop
    case Finished => if AllPassed(validations) then Completed else Partial
    case Stopped(_) => Partial
    case RunFailed(_) => Failed
    case RunCancelled => Cancelled
  }

  function SummaryOf(stop: Stop, answer: Option<string>): string {
    if answer.Some? then answer.value else
    match stop
    case Finished => PLACEHOLDER
    case Stopped(message) => message
    case RunFailed(error) => FailedAnswer(error)
    case RunCancelled => "subagent run cancelled"
  }

  function StopWork(stop: Stop): seq<string> {
    match stop
    case Finished => []
    case Stopped(message) => [StoppedText(message)]
    case RunFailed(error) => [FailedText(error)]
    case RunCancelled => [CANCELLED_TEXT]
  }

  function Built(
    taskId: string, events: seq<Event>, answer: Option<string>, stop: Stop, wallClockMs: nat,
    checkpoint: Option<string>)
    : TaskResult
  {
    TaskResult(
      taskId, StatusOf(stop, ValidationsOf(events)), SummaryOf(stop, answer), FindingsOf(events),
      EvidenceOf(events), FilesOf(events), ValidationsOf(events), OpenGoals(events) + StopWork(stop),
      UsageOf(events, wallClockMs), checkpoint)
  }

  // ---------- What a result reports, by the events ----------

  predicate IsFinding(ev: Event) {
    ev.FindingRecorded?
  }

  predicate IsEvaluation(ev: Event) {
    ev.GoalEvaluated?
  }

  predicate IsOpenGoal(ev: Event) {
    ev.GoalEvaluated? && !ev.satisfied
  }

  predicate IsToolCall(ev: Event) {
    ev.ToolCall?
  }

  /** The `k`-th finding and the `k`-th piece of evidence are those of the event at `at[k]`. */
  ghost predicate FindingsAt(events: seq<Event>, at: seq<nat>, findings: seq<Finding>, evidence: seq<EvidenceRef>) {
    && |findings| == |evidence| == |at|
    && forall k :: 0 <= k < |at| ==>
         && at[k] < |events| && events[at[k]].FindingRecorded?
         && findings[k] == Finding(events[at[k]].details, Some(events[at[k]].severity), [events[at[k]].id])
         && evidence[k] == EvidenceRef("finding", events[at[k]].id, Some(events[at[k]].evidence))
  }

  /** The `k`-th validation is the evaluation at `at[k]`. */
  ghost predicate ValidationsAt(events: seq<Event>, at: seq<nat>, validations: seq<Validation>) {
    && |validations| == |at|
    && forall k :: 0 <= k < |at| ==>
         && at[k] < |events| && events[at[k]].GoalEvaluated?
         && validations[k] == Validation("goal_evaluated", events[at[k]].satisfied, Some(events[at[k]].reason))
  }

  /** The `k`-th item of work is the goal at `at[k]`. */
  ghost predicate GoalsAt(events: seq<Event>, at: seq<nat>, work: seq<string>) {
    && |work| == |at|
    && forall k :: 0 <= k < |at| ==>
         && at[k] < |events| && events[at[k]].GoalEvaluated?
         && work[k] == "goal not satisfied: " + events[at[k]].reason
  }

  ghost predicate ReportsFindings(events: seq<Event>, findings: seq<Finding>, evidence: seq<EvidenceRef>) {
    exists at :: Picks(events, IsFinding, at) && FindingsAt(events, at, findings, evidence)
  }

  ghost predicate ReportsValidations(events: seq<Event>, validations: seq<Validation>) {
    exists at :: Picks(events, IsEvaluation, at) && ValidationsAt(events, at, validations)
  }

  ghost predicate ReportsGoals(events: seq<Event>, work: seq<string>) {
    exists at :: Picks(events, IsOpenGoal, at) && GoalsAt(events, at, work)
  }

  /** Tool calls are counted; turns and tokens are the least bounds of what the evaluations say. */
  ghost predicate ReportsUsage(events: seq<Event>, u: Usage) {
    && (exists at :: Picks(events, IsToolCall, at) && |at| == u.toolCalls)
    && (forall i :: 0 <= i < |events| && events[i].GoalEvaluated? ==>
          events[i].turnCount <= u.turns && events[i].tokensSpent <= u.tokensUsed)
    && (u.turns == 0 || exists i :: 0 <= i < |events| && events[i].GoalEvaluated? && events[i].turnCount == u.turns)
    && (u.tokensUsed == 0
        || exists i :: 0 <= i < |events| && events[i].GoalEvaluated? && events[i].tokensSpent == u.tokensUsed)
  }

  lemma OneMoreFinding(
    events: seq<Event>, ev: Event, at: seq<nat>, findings: seq<Finding>, evidence: seq<EvidenceRef>)
    requires FindingsAt(events, at, findings, evidence)
    ensures FindingsAt(events + [ev], at, findings, evidence)
    ensures ev.FindingRecorded? ==>
              FindingsAt(events + [ev], at + [|events|], findings + [Finding(ev.details, Some(ev.severity), [ev.id])],
                         evidence + [EvidenceRef("finding", ev.id, Some(ev.evidence))])
  {
  }

  lemma {:induction false} FindingsAreReported(events: seq<Event>) returns (at: seq<nat>)
    ensures Picks(events, IsFinding, at) && FindingsAt(events, at, FindingsOf(events), EvidenceOf(events))
  {
    hide FindingsAt, Picks;
    if events == [] {
      at := [];
      PickNone(IsFinding);
      NothingAt();
    } else {
      var n := |events| - 1;
      var front := FindingsAreReported(events[..n]);
      var ev := events[n];
      at := if IsFinding(ev) then front + [n] else front;
      assert events == events[..n] + [ev];
      PickOneMore(events[..n], ev, IsFinding, front);
      OneMoreFinding(events[..n], ev, front, FindingsOf(events[..n]), EvidenceOf(events[..n]));
      if !IsFinding(ev) {
        assert FindingsOf(events) == FindingsOf(events[..n]) && EvidenceOf(events) == EvidenceOf(events[..n]);
      }
    }
  }

  lemma NothingAt()
    ensures FindingsAt([], [], [], []) && ValidationsAt([], [], []) && GoalsAt([], [], [])
  {
  }

  lemma OneMoreEvaluation(events: seq<Event>, ev: Event, at: seq<nat>, validations: seq<Validation>)
    requires ValidationsAt(events, at, validations)
    ensures ValidationsAt(events + [ev], at, validations)
    ensures ev.GoalEvaluated? ==>
              ValidationsAt(events + [ev], at + [|events|],
                            validations + [Validation("goal_evaluated", ev.satisfied, Some(ev.reason))])
  {
  }

  lemma {:induction false} ValidationsAreReported(events: seq<Event>) returns (at: seq<nat>)
    ensures Picks(events, IsEvaluation, at) && ValidationsAt(events, at, ValidationsOf(events))
  {
    hide ValidationsAt, Picks;
    if events == [] {
      at := [];
      PickNone(IsEvaluation);
      NothingAt();
    } else {
      var n := |events| - 1;
      var front := ValidationsAreReported(events[..n]);
      var ev := events[n];
      at := if IsEvaluation(ev) then front + [n] else front;
      assert events == events[..n] + [ev];
      PickOneMore(events[..n], ev, IsEvaluation, front);
      OneMoreEvaluation(events[..n], ev, front, ValidationsOf(events[..n]));
      if !IsEvaluation(ev) {
        assert ValidationsOf(events) == ValidationsOf(events[..n]);
      }
    }
  }

  lemma OneMoreGoal(events: seq<Event>, ev: Event, at: seq<nat>, work: seq<string>)
    requires GoalsAt(events, at, work)
    ensures GoalsAt(events + [ev], at, work)
    ensures ev.GoalEvaluated? ==> GoalsAt(events + [ev], at + [|events|], work + [GoalText(ev.reason)])
  {
  }

  lemma {:induction false} GoalsAreReported(events: seq<Event>) returns (at: seq<nat>)
    ensures Picks(events, IsOpenGoal, at) && GoalsAt(events, at, OpenGoals(events))
  {
    hide GoalsAt, Picks, GoalText;
    if events == [] {
      at := [];
      PickNone(IsOpenGoal);
      NothingAt();
    } else {
      var n := |events| - 1;
      var front := GoalsAreReported(events[..n]);
      var ev := events[n];
      at := if IsOpenGoal(ev) then front + [n] else front;
      assert events == events[..n] + [ev];
      PickOneMore(events[..n], ev, IsOpenGoal, front);
      OneMoreGoal(events[..n], ev, front, OpenGoals(events[..n]));
      if !IsOpenGoal(ev) {
        assert OpenGoals(events) == OpenGoals(events[..n]);
      }
    }
  }

  lemma {:induction false} ToolCallsAreCounted(events: seq<Event>, wallClockMs: nat) returns (at: seq<nat>)
    ensures Picks(events, IsToolCall, at) && |at| == UsageOf(events, wallClockMs).toolCalls
  {
    hide Picks;
    if events == [] {
      at := [];
      PickNone(IsToolCall);
    } else {
      var n := |events| - 1;
      var front := ToolCallsAreCounted(events[..n], wallClockMs);
      var ev := events[n];
      at := if IsToolCall(ev) then front + [n] else front;
      assert events == events[..n] + [ev];
      PickOneMore(events[..n], ev, IsToolCall, front);
    }
  }

  lemma {:induction false} UsageIsBound(events: seq<Event>, wallClockMs: nat)
    ensures var u := UsageOf(events, wallClockMs);
            && u.wallClockMs == wallClockMs
            && (forall i :: 0 <= i < |events| && events[i].GoalEvaluated? ==>
                  events[i].turnCount <= u.turns && events[i].tokensSpent <= u.tokensUsed)
            && (u.turns == 0
                || exists i :: 0 <= i < |events| && events[i].GoalEvaluated? && events[i].turnCount == u.turns)
            && (u.tokensUsed == 0
                || exists i :: 0 <= i < |events| && events[i].GoalEvaluated? && events[i].tokensSpent == u.tokensUsed)
  {
    if events != [] {
      var n := |events| - 1;
      UsageIsBound(events[..n], wallClockMs);
      assert forall i :: 0 <= i < n ==> events[..n][i] == events[i];
    }
  }

  /** Every validation passed exactly when every evaluated goal was satisfied. */
  lemma {:induction false} PassedMeansSatisfied(events: seq<Event>)
    ensures AllPassed(ValidationsOf(events)) <==> forall i :: 0 <= i < |events| ==> !IsOpenGoal(events[i])
  {
    if events != [] {
      var n := |events| - 1;
      var before, all := ValidationsOf(events[..n]), ValidationsOf(events);
      PassedMeansSatisfied(events[..n]);
      assert forall i :: 0 <= i < n ==> events[..n][i] == events[i];
      if events[n].GoalEvaluated? {
        assert all[..|before|] == before;
        assert AllPassed(all) <==> AllPassed(before) && all[|before|].passed;
      } else {
        assert all == before;
      }
    }
  }

  /** How the stop reason decides status and summary, and what it adds to the remaining work. */
  method Conclude(stop: Stop, answer: Option<string>, validations: seq<Validation>)
    returns (status: Status, summary: string, work: seq<string>)
    ensures status == StatusOf(stop, validations) && summary == SummaryOf(stop, answer) && work == StopWork(stop)
    ensures status == Completed <==> stop.Finished? && forall i :: 0 <= i < |validations| ==> validations[i].passed
    ensures status == Failed <==> stop.RunFailed?
    ensures status == Cancelled <==> stop.RunCancelled?
    ensures answer.Some? ==> summary == answer.value
    ensures answer.None? ==>
              && (stop.Finished? ==> summary == PLACEHOLDER)
              && (stop.Stopped? ==> summary == stop.message)
              && (stop.RunFailed? ==> summary == "subagent run failed: " + stop.error)
              && (stop.RunCancelled? ==> summary == "subagent run cancelled")
    ensures stop.Finished? ==> work == []
    ensures stop.Stopped? ==> work == ["run stopped before completion: " + stop.message]
    ensures stop.RunFailed? ==> work == ["run failed: " + stop.error]
    ensures stop.RunCancelled? ==> work == ["run cancelled before completion"]
  {
    work := [];
    match stop {
      case Finished =>
        summary := if answer.Some? then answer.value else PLACEHOLDER;
        status := if exists i :: 0 <= i < |validations| && !validations[i].passed then Partial else Completed;
      case Stopped(message) =>
        work := [StoppedText(message)];
        status, summary := Partial, if answer.Some? then answer.value else message;
      case RunFailed(error) =>
        work := [FailedText(error)];
        status, summary := Failed, if answer.Some? then answer.value else FailedAnswer(error);
      case RunCancelled =>
        work := [CANCELLED_TEXT];
        status, summary := Cancelled, if answer.Some? then answer.value else "subagent run cancelled";
    }
  }

  lemma Faithful(events: seq<Event>, wallClockMs: nat)
    ensures ReportsFindings(events, FindingsOf(events), EvidenceOf(events))
    ensures ReportsValidations(events, ValidationsOf(events)) && ReportsGoals(events, OpenGoals(events))
    ensures ReportsUsage(events, UsageOf(events, wallClockMs))
    ensures UsageOf(events, wallClockMs).wallClockMs == wallClockMs
  {
    hide Picks, FindingsAt, ValidationsAt, GoalsAt, UsageOf;
    var findings := FindingsAreReported(events);
    var evaluations := ValidationsAreReported(events);
    var goals := GoalsAreReported(events);
    var calls := ToolCallsAreCounted(events, wallClockMs);
    UsageIsBound(events, wallClockMs);
  }

  /** Failed and Cancelled for such runs, Completed for a run that finished with every evaluated goal
      satisfied, and Partial for all others. */
  ghost predicate ReportsStatus(events: seq<Event>, stop: Stop, status: Status) {
    && (status == Failed <==> stop.RunFailed?)
    && (status == Cancelled <==> stop.RunCancelled?)
    && (status == Completed <==> stop.Finished? && forall i :: 0 <= i < |events| ==> !IsOpenGoal(events[i]))
  }

  /** The given answer, or a text for how the run ended. */
  ghost predicate ReportsEnd(stop: Stop, answer: Option<string>, summary: string) {
    if answer.Some? then summary == answer.value else
    && (stop.Finished? ==> summary == PLACEHOLDER)
    && (stop.Stopped? ==> summary == stop.message)
    && (stop.RunFailed? ==> summary == "subagent run failed: " + stop.error)
    && (stop.RunCancelled? ==> summary == "subagent run cancelled")
  }

  /** Status, summary and lists of a result are what the stop, the answer and the events say. */
  ghost predicate Reports(
    r: TaskResult, taskId: string, events: seq<Event>, answer: Option<string>, stop: Stop, wallClockMs: nat,
    checkpoint: Option<string>)
  {
    && r.taskId == taskId && r.checkpoint == checkpoint && r.usage.wallClockMs == wallClockMs
    && ReportsStatus(events, stop, r.status)
    && ReportsEnd(stop, answer, r.summary)
    && ReportsFindings(events, r.findings, r.evidence)
    && ReportsValidations(events, r.validations)
    && ReportsUsage(events, r.usage)
    && ReportsWork(events, stop, r.remainingWork)
  }

  /** The open goals, and behind them a text for a run that did not finish. */
  ghost predicate ReportsWork(events: seq<Event>, stop: Stop, work: seq<string>) {
    if stop.Finished? then ReportsGoals(events, work) else
    var n := |work| - 1;
    && n >= 0 && ReportsGoals(events, work[..n])
    && (stop.Stopped? ==> work[n] == "run stopped before completion: " + stop.message)
    && (stop.RunFailed? ==> work[n] == "run failed: " + stop.error)
    && (stop.RunCancelled? ==> work[n] == "run cancelled before completion")
  }

  lemma WorkIsReported(events: seq<Event>, stop: Stop)
    requires ReportsGoals(events, OpenGoals(events))
    ensures ReportsWork(events, stop, OpenGoals(events) + StopWork(stop))
  {
    hide ReportsGoals, OpenGoals;
    var goals := OpenGoals(events);
    assert goals + [] == goals;
    assert !stop.Finished? ==> (goals + StopWork(stop))[..|goals|] == goals;
  }

  lemma EndIsReported(events: seq<Event>, stop: Stop, answer: Option<string>)
    ensures ReportsStatus(events, stop, StatusOf(stop, ValidationsOf(events)))
    ensures ReportsEnd(stop, answer, SummaryOf(stop, answer))
  {
    PassedMeansSatisfied(events);
    hide AllPassed, ValidationsOf, IsOpenGoal, PLACEHOLDER;
  }

  lemma BuiltReports(
    taskId: string, events: seq<Event>, answer: Option<string>, stop: Stop, wallClockMs: nat,
    checkpoint: Option<string>)
    ensures Reports(Built(taskId, events, answer, stop, wallClockMs, checkpoint),
                    taskId, events, answer, stop, wallClockMs, checkpoint)
  {
    Faithful(events, wallClockMs);
    WorkIsReported(events, stop);
    EndIsReported(events, stop, answer);
    hide ReportsStatus, ReportsEnd, ReportsFindings, ReportsValidations, ReportsGoals, ReportsUsage, ReportsWork,
      StatusOf, SummaryOf, FindingsOf, EvidenceOf, FilesOf, ValidationsOf, OpenGoals, UsageOf, StopWork, AllPassed;
  }

  method BuildAgentTaskResult(
    taskId: string, events: seq<Event>, answer: Option<string>, stop: Stop, wallClockMs: nat,
    checkpoint: Option<string>)
    returns (r: TaskResult)
    ensures r == Built(taskId, events, answer, stop, wallClockMs, checkpoint)
    ensures Reports(r, taskId, events, answer, stop, wallClockMs, checkpoint)
  {
    hide Reports;
    var findings: seq<Finding>, evidence: seq<EvidenceRef>, changedFiles: seq<string> := [], [], [];
    var validations: seq<Validation>, remainingWork: seq<string> := [], [];
    var toolCalls: nat, tokensUsed: nat, turns: nat := 0, 0, 0;
    for i := 0 to |events|
      invariant findings == FindingsOf(events[..i]) && evidence == EvidenceOf(events[..i])
      invariant changedFiles == FilesOf(events[..i])
      invariant validations == ValidationsOf(events[..i]) && remainingWork == OpenGoals(events[..i])
      invariant Usage(tokensUsed, toolCalls, turns, wallClockMs) == UsageOf(events[..i], wallClockMs)
    {
      assert events[..i + 1][..i] == events[..i];
      match events[i] {
        case FindingRecorded(id, details, severity, note) =>
          findings := findings + [Finding(details, Some(severity), [id])];
          evidence := evidence + [EvidenceRef("finding", id, Some(note))];
        case GoalEvaluated(satisfied, reason, turnCount, tokensSpent) =>
          validations := validations + [Validation("goal_evaluated", satisfied, Some(reason))];
          if !satisfied {
            remainingWork := remainingWork + [GoalText(reason)];
          }
          turns := Max(turns, turnCount);
          tokensUsed := Max(tokensUsed, tokensSpent);
        case ToolCall(name, path) =>
          toolCalls := toolCalls + 1;
          if name == "write_file" || name == "edit_file" {
            if path.Some? && path.value !in changedFiles {
              changedFiles := changedFiles + [path.value];
            }
          }
        case OtherEvent =>
      }
    }
    assert events[..|events|] == events;
    BuiltReports(taskId, events, answer, stop, wallClockMs, checkpoint);
    var status, summary, work := Conclude(stop, answer, validations);
    remainingWork := remainingWork + work;
    return TaskResult(taskId, status, summary, findings, evidence, changedFiles, validations, remainingWork,
                      Usage(tokensUsed, toolCalls, turns, wallClockMs), checkpoint);
  }

  // ---------- The parent's verdict ----------

  predicate NoAnswer(summary: string) {
    Trim(summary) == "" || Trim(summary) == PLACEHOLDER
  }

  function FailedValidations(validations: seq<Validation>): seq<string> {
    if validations == [] then [] else
    var n := |validations| - 1;
    FailedValidations(validations[..n])
    + if validations[n].passed then [] else [FailedValidation(validations[n].name)]
  }

  function References(evidence: seq<EvidenceRef>): set<string> {
    set e | e in evidence :: e.reference
  }

  function DanglingRefs(refs: seq<string>, known: set<string>): seq<string> {
    if refs == [] then [] else
    var n := |refs| - 1;
    DanglingRefs(refs[..n], known)
    + if refs[n] in known then [] else [UnknownEvidence(refs[n])]
  }

  function Dangling(findings: seq<Finding>, known: set<string>): seq<string> {
    if findings == [] then [] else
    var n := |findings| - 1;
    Dangling(findings[..n], known) + DanglingRefs(findings[n].evidenceRefs, known)
  }

  function When(condition: bool, defect: string): seq<string> {
    if condition then [defect] else []
  }

  function StatusName(status: Status): string {
    match status
    case Completed => "Completed"
    case Partial => "Partial"
    case Failed => "Failed"
    case Cancelled => "Cancelled"
  }

  function Unresumable(status: Status): string {
    "status " + StatusName(status) + " without remaining_work — the parent cannot resume or delegate the rest"
  }

  function CompletionDefects(r: TaskResult): seq<string> {
    FailedValidations(r.validations)
    + When(r.remainingWork != [], OPEN_WORK)
    + When(r.findings != [] && r.evidence == [], NO_EVIDENCE)
  }

  function Defects(r: TaskResult): seq<string> {
    When(NoAnswer(r.summary), NO_SUMMARY)
    + (if r.status == Completed then CompletionDefects(r) else [])
    + When((r.status == Partial || r.status == Failed) && r.remainingWork == [], Unresumable(r.status))
    + Dangling(r.findings, References(r.evidence))
  }

  method CheckCompletion(r: TaskResult) returns (defects: seq<string>)
    ensures defects == CompletionDefects(r)
  {
    hide OPEN_WORK, NO_EVIDENCE, FailedValidation;
    defects := [];
    for i := 0 to |r.validations|
      invariant defects == FailedValidations(r.validations[..i])
    {
      assert r.validations[..i + 1][..i] == r.validations[..i];
      if !r.validations[i].passed {
        defects := defects + [FailedValidation(r.validations[i].name)];
      }
    }
    assert r.validations[..|r.validations|] == r.validations;
    if r.remainingWork != [] {
      defects := defects + [OPEN_WORK];
    }
    if r.findings != [] && r.evidence == [] {
      defects := defects + [NO_EVIDENCE];
    }
  }

  method CheckReferences(r: TaskResult) returns (defects: seq<string>)
    ensures defects == Dangling(r.findings, References(r.evidence))
  {
    hide UnknownEvidence, References;
    defects := [];
    var known := References(r.evidence);
    for i := 0 to |r.findings|
      invariant defects == Dangling(r.findings[..i], known)
    {
      assert r.findings[..i + 1][..i] == r.findings[..i];
      ghost var before := defects;
      var refs := r.findings[i].evidenceRefs;
      for j := 0 to |refs|
        invariant defects == before + DanglingRefs(refs[..j], known)
      {
        assert refs[..j + 1][..j] == refs[..j];
        if refs[j] !in known {
          defects := defects + [UnknownEvidence(refs[j])];
        }
      }
      assert refs[..|refs|] == refs;
    }
    assert r.findings[..|r.findings|] == r.findings;
  }

  method VerifyAgentTaskResult(r: TaskResult) returns (defects: seq<string>)
    ensures defects == Defects(r)
  {
    hide Trim, NO_SUMMARY, Unresumable, CompletionDefects, Dangling, PLACEHOLDER;
    defects := [];
    if Trim(r.summary) == "" || Trim(r.summary) == PLACEHOLDER {
      defects := defects + [NO_SUMMARY];
    }
    if r.status == Completed {
      var more := CheckCompletion(r);
      defects := defects + more;
    }
    if (r.status == Partial || r.status == Failed) && r.remainingWork == [] {
      defects := defects + [Unresumable(r.status)];
    }
    var dangling := CheckReferences(r);
    defects := defects + dangling;
  }

  function Prefixed(defects: seq<string>): seq<string> {
    seq(|defects|, i requires 0 <= i < |defects| => Note(defects[i]))
  }

  function Wrapped(r: TaskResult): TaskResult {
    if Defects(r) != [] && r.status == Completed
    then r.(status := Partial, remainingWork := r.remainingWork + Prefixed(Defects(r)))
    else r
  }

  /** What the parent consumes: the result, corrected, and the defects that were found in it. */
  method WrapForParent(result: TaskResult) returns (r: TaskResult, defects: seq<string>)
    ensures r == Wrapped(result) && defects == Defects(result)
    ensures defects == [] || result.status != Completed ==> r == result
    ensures defects != [] && result.status == Completed ==>
              var n := |result.remainingWork|;
              && r == result.(status := Partial, remainingWork := r.remainingWork)
              && |r.remainingWork| == n + |defects| && r.remainingWork[..n] == result.remainingWork
              && forall k :: 0 <= k < |defects| ==> r.remainingWork[n + k] == "verification: " + defects[k]
  {
    r := result;
    defects := VerifyAgentTaskResult(r);
    if defects != [] && r.status == Completed {
      r := r.(status := Partial);
      r := r.(remainingWork := r.remainingWork + Prefixed(defects));
    }
  }

  // ---------- What the verifier objects to ----------

  predicate HasFailed(v: Validation) {
    !v.passed
  }

  /** The objection to a failed validation. */
  function FailureText(v: Validation): string {
    "claims completed but validation '" + v.name + "' failed"
  }

  /** The objection to a reference that no piece of evidence has. */
  function ReferenceText(reference: string): string {
    "finding references unknown evidence '" + reference + "'"
  }

  /** All references of all findings, in order. */
  function Cited(findings: seq<Finding>): seq<string> {
    if findings == [] then [] else
    var n := |findings| - 1;
    Cited(findings[..n]) + findings[n].evidenceRefs
  }

  function Outside(known: set<string>): string -> bool {
    (reference: string) => reference !in known
  }

  predicate ObjectsToSummary(r: TaskResult, defects: seq<string>) {
    defects == if Trim(r.summary) == "" || Trim(r.summary) == PLACEHOLDER
               then ["summary is empty or the no-answer placeholder"] else []
  }

  /** The failed validations in order, then open work, then findings without any evidence. */
  ghost predicate ObjectsToCompletion(r: TaskResult, defects: seq<string>) {
    exists at ::
      && Picks(r.validations, HasFailed, at)
      && |defects| >= |at| && Maps(r.validations, at, FailureText, defects[..|at|])
      && defects[|at|..] ==
         (if r.remainingWork != [] then ["claims completed but remaining_work is non-empty"] else [])
         + (if r.findings != [] && r.evidence == [] then ["findings reported without any evidence reference"] else [])
  }

  predicate ObjectsToStop(r: TaskResult, defects: seq<string>) {
    defects == if (r.status == Partial || r.status == Failed) && r.remainingWork == []
               then ["status " + (if r.status == Partial then "Partial" else "Failed")
                     + " without remaining_work — the parent cannot resume or delegate the rest"]
               else []
  }

  /** The references that no piece of evidence has, in order. */
  ghost predicate ObjectsToReferences(r: TaskResult, defects: seq<string>) {
    exists at ::
      && Picks(Cited(r.findings), Outside(References(r.evidence)), at)
      && Maps(Cited(r.findings), at, ReferenceText, defects)
  }

  lemma {:induction false} FailuresAt(validations: seq<Validation>) returns (at: seq<nat>)
    ensures Picks(validations, HasFailed, at) && Maps(validations, at, FailureText, FailedValidations(validations))
  {
    hide Picks, Maps;
    if validations == [] {
      at := [];
      PickNone(HasFailed);
      MapNone(FailureText);
    } else {
      var n := |validations| - 1;
      var front := FailuresAt(validations[..n]);
      PickOneMore(validations[..n], validations[n], HasFailed, front);
      MapOneMore(validations[..n], validations[n], front, FailureText, FailedValidations(validations[..n]));
      assert validations == validations[..n] + [validations[n]];
      assert FailureText(validations[n]) == FailedValidation(validations[n].name);
      at := if HasFailed(validations[n]) then front + [n] else front;
      hide FailureText, FailedValidation;
      assert validations[n].passed ==> FailedValidations(validations) == FailedValidations(validations[..n]);
    }
  }

  lemma CompletionObjects(r: TaskResult)
    ensures ObjectsToCompletion(r, CompletionDefects(r))
  {
    var at := FailuresAt(r.validations);
    var failures := FailedValidations(r.validations);
    hide FailedValidations, Picks, OPEN_WORK, NO_EVIDENCE;
    var more := When(r.remainingWork != [], OPEN_WORK) + When(r.findings != [] && r.evidence == [], NO_EVIDENCE);
    assert CompletionDefects(r) == failures + more;
    assert |failures| == |at| && (failures + more)[|at|..] == more && (failures + more)[..|at|] == failures;
    hide Maps, CompletionDefects;
    CompletionTexts(r);
  }

  lemma CompletionTexts(r: TaskResult)
    ensures When(r.remainingWork != [], OPEN_WORK) + When(r.findings != [] && r.evidence == [], NO_EVIDENCE) ==
            (if r.remainingWork != [] then ["claims completed but remaining_work is non-empty"] else [])
            + (if r.findings != [] && r.evidence == [] then ["findings reported without any evidence reference"]
               else [])
  {
  }

  lemma {:induction false} DanglingRefsAt(refs: seq<string>, known: set<string>) returns (at: seq<nat>)
    ensures Picks(refs, Outside(known), at) && Maps(refs, at, ReferenceText, DanglingRefs(refs, known))
  {
    hide Picks, Maps;
    if refs == [] {
      at := [];
      PickNone(Outside(known));
      MapNone(ReferenceText);
    } else {
      var n := |refs| - 1;
      var front := DanglingRefsAt(refs[..n], known);
      PickOneMore(refs[..n], refs[n], Outside(known), front);
      MapOneMore(refs[..n], refs[n], front, ReferenceText, DanglingRefs(refs[..n], known));
      assert refs == refs[..n] + [refs[n]];
      assert ReferenceText(refs[n]) == UnknownEvidence(refs[n]);
      at := if refs[n] !in known then front + [n] else front;
      hide ReferenceText, UnknownEvidence;
      assert refs[n] in known ==> DanglingRefs(refs, known) == DanglingRefs(refs[..n], known);
    }
  }

  lemma {:induction false} DanglingRefsConcat(a: seq<string>, b: seq<string>, known: set<string>)
    ensures DanglingRefs(a + b, known) == DanglingRefs(a, known) + DanglingRefs(b, known)
    decreases |b|
  {
    hide UnknownEvidence;
    if b == [] {
      assert a + b == a;
    } else {
      var n := |b| - 1;
      assert (a + b)[..|a| + n] == a + b[..n];
      DanglingRefsConcat(a, b[..n], known);
    }
  }

  lemma {:induction false} DanglingIsOfCited(findings: seq<Finding>, known: set<string>)
    ensures Dangling(findings, known) == DanglingRefs(Cited(findings), known)
  {
    hide UnknownEvidence;
    if findings != [] {
      var n := |findings| - 1;
      DanglingIsOfCited(findings[..n], known);
      DanglingRefsConcat(Cited(findings[..n]), findings[n].evidenceRefs, known);
      hide DanglingRefs;
    }
  }

  lemma ReferencesObject(r: TaskResult)
    ensures ObjectsToReferences(r, Dangling(r.findings, References(r.evidence)))
  {
    DanglingIsOfCited(r.findings, References(r.evidence));
    var at := DanglingRefsAt(Cited(r.findings), References(r.evidence));
    hide Picks, Maps, References, Cited, DanglingRefs, Dangling, Outside;
  }

  lemma SummaryObjects(r: TaskResult)
    ensures ObjectsToSummary(r, When(NoAnswer(r.summary), NO_SUMMARY))
  {
    hide Trim, PLACEHOLDER;
  }

  lemma StopObjects(r: TaskResult)
    ensures ObjectsToStop(
              r, When((r.status == Partial || r.status == Failed) && r.remainingWork == [], Unresumable(r.status)))
  {
  }

  /** The verifier's objections, kind by kind in this order; the second kind only to results that claim
      completion. */
  lemma DefectsInOrder(r: TaskResult)
    returns (summary: seq<string>, completion: seq<string>, stop: seq<string>, references: seq<string>)
    ensures Defects(r) == summary + completion + stop + references
    ensures ObjectsToSummary(r, summary) && ObjectsToStop(r, stop) && ObjectsToReferences(r, references)
    ensures if r.status == Completed then ObjectsToCompletion(r, completion) else completion == []
  {
    SummaryObjects(r);
    CompletionObjects(r);
    StopObjects(r);
    ReferencesObject(r);
    hide ObjectsToSummary, ObjectsToCompletion, ObjectsToStop, ObjectsToReferences, NO_SUMMARY, Unresumable, When,
      NoAnswer, CompletionDefects, Dangling, References;
    summary := When(NoAnswer(r.summary), NO_SUMMARY);
    completion := if r.status == Completed then CompletionDefects(r) else [];
    stop := When((r.status == Partial || r.status == Failed) && r.remainingWork == [], Unresumable(r.status));
    references := Dangling(r.findings, References(r.evidence));
  }

  // ---------- Building and verifying agree ----------

  lemma {:induction false} PassedHasNoFailures(validations: seq<Validation>)
    ensures AllPassed(validations) <==> FailedValidations(validations) == []
  {
    if validations != [] {
      var n := |validations| - 1;
      PassedHasNoFailures(validations[..n]);
      assert validations == validations[..n] + [validations[n]];
    }
  }

  lemma {:induction false} GoalsMatchValidations(events: seq<Event>)
    ensures AllPassed(ValidationsOf(events)) <==> OpenGoals(events) == []
  {
    if events != [] {
      var n := |events| - 1;
      GoalsMatchValidations(events[..n]);
      if events[n].GoalEvaluated? {
        var v := ValidationsOf(events);
        assert v[..|v| - 1] == ValidationsOf(events[..n]);
        assert AllPassed(v) <==> AllPassed(v[..|v| - 1]) && v[|v| - 1].passed;
      } else {
        assert ValidationsOf(events) == ValidationsOf(events[..n]);
      }
    }
  }

  /** Each finding refers to its own event id, and the evidence list has exactly those ids. */
  lemma {:induction false} FindingsHaveEvidence(events: seq<Event>, known: set<string>)
    requires References(EvidenceOf(events)) <= known
    ensures Dangling(FindingsOf(events), known) == []
    ensures |FindingsOf(events)| == |EvidenceOf(events)|
  {
    hide UnknownEvidence;
    if events != [] {
      var n := |events| - 1;
      var before, all := EvidenceOf(events[..n]), EvidenceOf(events);
      assert forall e :: e in before ==> e in all;
      FindingsHaveEvidence(events[..n], known);
      var f := FindingsOf(events);
      if events[n].FindingRecorded? {
        assert f[..|f| - 1] == FindingsOf(events[..n]);
        assert all[|all| - 1] in all && events[n].id in known;
        NoDanglingRef(events[n].id, known);
      } else {
        assert f == FindingsOf(events[..n]) && all == before;
      }
    }
  }

  lemma NoDanglingRef(reference: string, known: set<string>)
    requires reference in known
    ensures DanglingRefs([reference], known) == []
  {
    assert [reference][..0] == [];
  }

  /** A built result that claims completion has only passed validations and no open work. */
  lemma BuiltCompletion(
    taskId: string, events: seq<Event>, answer: Option<string>, stop: Stop, wallClockMs: nat,
    checkpoint: Option<string>)
    requires Built(taskId, events, answer, stop, wallClockMs, checkpoint).status == Completed
    ensures CompletionDefects(Built(taskId, events, answer, stop, wallClockMs, checkpoint)) == []
  {
    var r := Built(taskId, events, answer, stop, wallClockMs, checkpoint);
    hide FindingsOf, EvidenceOf, ValidationsOf, OpenGoals, SummaryOf, FilesOf, UsageOf;
    PassedHasNoFailures(r.validations);
    GoalsMatchValidations(events);
    FindingsHaveEvidence(events, References(r.evidence));
    hide FailedValidations, AllPassed, Dangling, References, OPEN_WORK, NO_EVIDENCE;
    assert r.remainingWork == OpenGoals(events);
  }

  /** A built result that does not claim completion says what remains, unless it was cancelled. */
  lemma BuiltCanResume(
    taskId: string, events: seq<Event>, answer: Option<string>, stop: Stop, wallClockMs: nat,
    checkpoint: Option<string>)
    ensures var r := Built(taskId, events, answer, stop, wallClockMs, checkpoint);
            r.status == Partial || r.status == Failed ==> r.remainingWork != []
  {
    hide FindingsOf, EvidenceOf, ValidationsOf, OpenGoals, SummaryOf, FilesOf, UsageOf, AllPassed, StoppedText,
      FailedText, CANCELLED_TEXT;
    GoalsMatchValidations(events);
    var r := Built(taskId, events, answer, stop, wallClockMs, checkpoint);
    if !stop.Finished? {
      assert r.remainingWork[|OpenGoals(events)|] == StopWork(stop)[0];
    }
  }

  lemma OnlySummaryDefect(r: TaskResult)
    requires r.status == Completed ==> CompletionDefects(r) == []
    requires r.status == Partial || r.status == Failed ==> r.remainingWork != []
    requires Dangling(r.findings, References(r.evidence)) == []
    ensures Defects(r) == When(NoAnswer(r.summary), NO_SUMMARY)
  {
    hide NoAnswer, CompletionDefects, Dangling, References, NO_SUMMARY, Unresumable;
  }

  /** The verifier finds fault with a built result exactly when the summary it got is empty or the
      placeholder; and then that is the only defect. */
  lemma BuiltResultsVerify(
    taskId: string, events: seq<Event>, answer: Option<string>, stop: Stop, wallClockMs: nat,
    checkpoint: Option<string>)
    ensures Defects(Built(taskId, events, answer, stop, wallClockMs, checkpoint)) ==
            When(NoAnswer(SummaryOf(stop, answer)), NO_SUMMARY)
  {
    var r := Built(taskId, events, answer, stop, wallClockMs, checkpoint);
    assert r.summary == SummaryOf(stop, answer);
    assert r.findings == FindingsOf(events) && r.evidence == EvidenceOf(events);
    hide Built, NoAnswer, CompletionDefects, Dangling, References, SummaryOf, NO_SUMMARY, Defects, When;
    FindingsHaveEvidence(events, References(r.evidence));
    if r.status == Completed {
      BuiltCompletion(taskId, events, answer, stop, wallClockMs, checkpoint);
    }
    BuiltCanResume(taskId, events, answer, stop, wallClockMs, checkpoint);
    OnlySummaryDefect(r);
  }

  /** A result that reaches the parent as Completed has no defect; wrapping only ever turns a
      Completed result into a Partial one, and wrapping again changes nothing. */
  lemma WrappingSettles(r: TaskResult)
    ensures Wrapped(r).status == Completed <==> r.status == Completed && Defects(r) == []
    ensures Wrapped(r).status == Completed ==> Defects(Wrapped(r)) == []
    ensures r.status != Completed ==> Wrapped(r) == r
    ensures Wrapped(Wrapped(r)) == Wrapped(r)
    ensures r.remainingWork <= Wrapped(r).remainingWork
  {
    hide Defects;
  }

  // ---------- Changed files ----------

  /** A path is listed exactly when some write or edit tool was called with it. */
  lemma {:induction false} FilesAreWritten(events: seq<Event>, path: string)
    ensures path in FilesOf(events) <==>
            exists i :: 0 <= i < |events| && events[i].ToolCall? && events[i].path == Some(path)
              && (events[i].name == "write_file" || events[i].name == "edit_file")
  {
    if events != [] {
      var n := |events| - 1;
      FilesAreWritten(events[..n], path);
      assert forall i :: 0 <= i < n ==> events[..n][i] == events[i];
    }
  }

  /** The first event that writes `path`, or the length. */
  function FirstUse(events: seq<Event>, path: string): nat {
    if events == [] then 0 else
    if IsWrite(events[0]) && events[0].path.value == path then 0 else 1 + FirstUse(events[1..], path)
  }

  lemma {:induction false} FirstUseOfPrefix(events: seq<Event>, path: string, n: nat)
    requires n <= |events|
    ensures FirstUse(events, path) <= |events|
    ensures FirstUse(events[..n], path) < n <==> FirstUse(events, path) < n
    ensures FirstUse(events[..n], path) < n ==> FirstUse(events[..n], path) == FirstUse(events, path)
  {
    if events != [] && n > 0 {
      assert events[..n][1..] == events[1..][..n - 1];
      FirstUseOfPrefix(events[1..], path, n - 1);
    } else if events != [] {
      FirstUseOfPrefix(events[1..], path, 0);
    }
  }

  predicate InFirstUseOrder(events: seq<Event>, files: seq<string>) {
    forall j, k :: 0 <= j < k < |files| ==> FirstUse(events, files[j]) < FirstUse(events, files[k])
  }

  /** The changed files are exactly the written paths, ordered by first use, so each appears once. */
  lemma {:induction false} FilesInFirstUseOrder(events: seq<Event>)
    ensures forall path :: path in FilesOf(events) <==> FirstUse(events, path) < |events|
    ensures InFirstUseOrder(events, FilesOf(events))
  {
    if events != [] {
      var n := |events| - 1;
      var before, files := FilesOf(events[..n]), FilesOf(events);
      FilesInFirstUseOrder(events[..n]);
      forall path ensures path in files <==> FirstUse(events, path) < |events| {
        OneMoreWrite(events, path);
      }
      forall j, k | 0 <= j < k < |files| ensures FirstUse(events, files[j]) < FirstUse(events, files[k]) {
        OneMoreWrite(events, files[j]);
        OneMoreWrite(events, files[k]);
        assert files[j] == before[j] && before[j] in before;
        if k < |before| {
          assert files[k] == before[k] && before[k] in before;
          assert InFirstUseOrder(events[..n], before);
        } else {
          assert files == before + [events[n].path.value] && files[k] == events[n].path.value;
        }
      }
    }
  }

  lemma OneMoreWrite(events: seq<Event>, path: string)
    requires events != []
    ensures var n := |events| - 1;
            && (FirstUse(events[..n], path) < n ==> FirstUse(events, path) == FirstUse(events[..n], path))
            && (FirstUse(events[..n], path) >= n ==>
                  if IsWrite(events[n]) && events[n].path.value == path then FirstUse(events, path) == n
                  else FirstUse(events, path) == |events|)
  {
    FirstUseOfPrefix(events, path, |events| - 1);
    FirstUseOfPrefix(events[..|events| - 1], path, |events| - 1);
    FirstUseAtLast(events, path);
  }

  lemma {:induction false} FirstUseAtLast(events: seq<Event>, path: string)
    requires events != []
    ensures FirstUse(events, path) == |events| - 1 <==>
            && FirstUse(events[..|events| - 1], path) == |events| - 1
            && IsWrite(events[|events| - 1]) && events[|events| - 1].path.value == path
  {
    if |events| == 1 {
      assert events[1..] == [];
    } else {
      assert events[..|events| - 1][1..] == events[1..][..|events| - 2];
      FirstUseAtLast(events[1..], path);
    }
  }
}
