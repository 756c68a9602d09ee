/** The projection as a reading of its log: every stored value is the one that the last effective event
    about it carries, and there is nothing in the tables that no event brought. */
module LedgerLog {
  import opened Results
  import opened LedgerTypes
  import opened LedgerSpec
  import opened LedgerReplay
  import opened LedgerInvariants
  import opened LedgerConcurrency
  import opened LedgerEffects

  /** The separately written parts of what is stored under one id. */
  datatype Part =
    | TheClaim | HypothesisStage | ThePrediction | ThePlan | ExperimentStage | TheTask | TheAttempt | Observations
    | TheEvidence | TheLink | TheResolution | TheContradiction | TheCommit

  datatype Value =
    | ClaimIs(claim: Hypothesis) | HypothesisIs(standing: HypothesisStatus, since: int)
    | PredictionIs(prediction: Prediction) | PlanIs(plan: Experiment) | ExperimentIs(stage: ExperimentStatus, at: int)
    | TaskIs(task: Option<string>) | AttemptIs(attempt: Attempt) | ObservationsAre(evidenceIds: seq<string>)
    | EvidenceIs(evidence: Evidence) | LinkIs(link: EvidenceLink) | ResolutionIs(resolution: Resolution)
    | ContradictionIs(contradiction: Contradiction) | CommitIs(commit: DeliberationCommit)

  /** A hypothesis without its life cycle. */
  function Claim(h: Hypothesis): Value {
    ClaimIs(h.(status := Open, revision := 1, updatedAt := 0))
  }

  /** An experiment without its life cycle. */
  function Plan(x: Experiment): Value {
    PlanIs(x.(status := Planned, taskId := None, attempt := 0, evidenceIds := [], revision := 1, updatedAt := 0))
  }

  function OfHypothesis(hypotheses: map<string, Hypothesis>, part: Part, id: string): Option<Value> {
    if id !in hypotheses then None
    else if part == TheClaim then Some(Claim(hypotheses[id]))
    else if part == HypothesisStage then Some(HypothesisIs(hypotheses[id].status, hypotheses[id].updatedAt))
    else None
  }

  function OfExperiment(experiments: map<string, Experiment>, part: Part, id: string): Option<Value> {
    if id !in experiments then None
    else if part == ThePlan then Some(Plan(experiments[id]))
    else if part == ExperimentStage then Some(ExperimentIs(experiments[id].status, experiments[id].updatedAt))
    else if part == TheTask then Some(TaskIs(experiments[id].taskId))
    else if part == TheAttempt then Some(AttemptIs(experiments[id].attempt))
    else if part == Observations then Some(ObservationsAre(experiments[id].evidenceIds))
    else None
  }

  predicate HypothesisPart(part: Part) {
    part == TheClaim || part == HypothesisStage
  }

  predicate ExperimentPart(part: Part) {
    part == ThePlan || part == ExperimentStage || part == TheTask || part == TheAttempt || part == Observations
  }

  function OfRecord(s: Snapshot, part: Part, id: string): Option<Value> {
    if part == ThePrediction && id in s.predictions then Some(PredictionIs(s.predictions[id]))
    else if part == TheEvidence && id in s.evidence then Some(EvidenceIs(s.evidence[id]))
    else if part == TheLink && id in s.links then Some(LinkIs(s.links[id]))
    else if part == TheResolution && id in s.resolutions then Some(ResolutionIs(s.resolutions[id]))
    else if part == TheContradiction && id in s.contradictions then Some(ContradictionIs(s.contradictions[id]))
    else if part == TheCommit && id in s.commits then Some(CommitIs(s.commits[id]))
    else None
  }

  /** What the projection holds of a part. */
  function Lookup(s: Snapshot, part: Part, id: string): Option<Value> {
    if HypothesisPart(part) then OfHypothesis(s.hypotheses, part, id)
    else if ExperimentPart(part) then OfExperiment(s.experiments, part, id)
    else OfRecord(s, part, id)
  }

  /** What an event says about a part of what is stored under `id`. */
  function Says(ev: LedgerEvent, part: Part, id: string): Option<Value> {
    match ev
    case HypothesisProposed(h) =>
      if h.id != id then None
      else if part == TheClaim then Some(Claim(h))
      else if part == HypothesisStage then Some(HypothesisIs(Open, h.updatedAt))
      else None
    case HypothesisResolved(_, r) =>
      if part == TheResolution && r.id == id then Some(ResolutionIs(r))
      else if part == HypothesisStage && r.hypothesisId == id
      then Some(HypothesisIs(
                  match r.status
                  case AsConfirmed => Confirmed
                  case AsRejected => HypothesisStatus.Rejected
                  case AsInconclusive => Inconclusive
                  case AsSuperseded => Superseded, r.createdAt))
      else None
    case HypothesisReopened(h, _, at) =>
      if part == HypothesisStage && h == id then Some(HypothesisIs(Open, at)) else None
    case HypothesisSuperseded(h, _, _, at) =>
      if part == HypothesisStage && h == id then Some(HypothesisIs(Superseded, at)) else None
    case PredictionDeclared(p) => if part == ThePrediction && p.id == id then Some(PredictionIs(p)) else None
    case ExperimentPlanned(x) =>
      if x.id != id then None
      else if part == ThePlan then Some(Plan(x))
      else if part == ExperimentStage then Some(ExperimentIs(Planned, x.updatedAt))
      else if part == TheTask then Some(TaskIs(x.taskId))
      else if part == TheAttempt then Some(AttemptIs(x.attempt))
      else if part == Observations then Some(ObservationsAre(x.evidenceIds))
      else None
    case ExperimentQueued(x, _, task, at) =>
      if x != id then None
      else if part == ExperimentStage then Some(ExperimentIs(Queued, at))
      else if part == TheTask then Some(TaskIs(Some(task)))
      else None
    case ExperimentStarted(x, _, attempt, at) =>
      if x != id then None
      else if part == ExperimentStage then Some(ExperimentIs(Running, at))
      else if part == TheAttempt then Some(AttemptIs(attempt))
      else None
    case ExperimentObserved(x, _, ids, at) =>
      if x != id then None
      else if part == ExperimentStage then Some(ExperimentIs(Observed, at))
      else if part == Observations then Some(ObservationsAre(ids))
      else None
    case ExperimentBlocked(x, _, at) =>
      if part == ExperimentStage && x == id then Some(ExperimentIs(Blocked, at)) else None
    case ExperimentFailed(x, _, at) =>
      if part == ExperimentStage && x == id then Some(ExperimentIs(ExperimentStatus.Failed, at)) else None
    case ExperimentCancelled(x, _, at) =>
      if part == ExperimentStage && x == id then Some(ExperimentIs(Cancelled, at)) else None
    case ExperimentExpired(x, _, at) =>
      if part == ExperimentStage && x == id then Some(ExperimentIs(Expired, at)) else None
    case EvidenceRecorded(e) => if part == TheEvidence && e.id == id then Some(EvidenceIs(e)) else None
    case EvidenceLinked(l) => if part == TheLink && l.id == id then Some(LinkIs(l)) else None
    case ContradictionDetected(c) =>
      if part == TheContradiction && c.id == id then Some(ContradictionIs(c)) else None
    case DeliberationCommitted(c) => if part == TheCommit && c.id == id then Some(CommitIs(c)) else None
    case _ => None
  }

  /** The part has what the event says about it, and what it had before if the event says nothing. */
  ghost predicate Follows(s: Snapshot, t: Snapshot, ev: LedgerEvent, part: Part, id: string) {
    Lookup(t, part, id) == if Says(ev, part, id).Some? then Says(ev, part, id) else Lookup(s, part, id)
  }

  lemma AdmittedStages(s: Snapshot, ev: LedgerEvent)
    requires Admits(s, ev)
    ensures ev.HypothesisProposed? ==> ev.hypothesis.status == Open
    ensures ev.ExperimentPlanned? ==> ev.experiment.status == Planned
    ensures UpdatesHypothesis(ev) ==>
              (if ev.HypothesisResolved? then ev.resolution.hypothesisId else ev.hypothesisId) in s.hypotheses
    ensures MovesExperiment(ev) ==> ev.experimentId in s.experiments
  {
    hide LinksOwned, EvidenceKnown, AllowedMove, AcceptablePrediction, AcceptableEvidence, AcceptableLink,
      AcceptableCommit;
  }

  lemma HypothesisFollows(s: Snapshot, ev: LedgerEvent, part: Part, id: string)
    requires ev.HypothesisProposed? ==> ev.hypothesis.status == Open
    requires UpdatesHypothesis(ev) ==>
               (if ev.HypothesisResolved? then ev.resolution.hypothesisId else ev.hypothesisId) in s.hypotheses
    requires HypothesisPart(part)
    ensures OfHypothesis(HypothesesAfter(s, ev), part, id) ==
            if Says(ev, part, id).Some? then Says(ev, part, id) else OfHypothesis(s.hypotheses, part, id)
  {
    hide Plan;
  }

  lemma SamePlan(x: Experiment, y: Experiment, ev: LedgerEvent)
    requires MovesExperiment(ev) && MovedBy(x, y, ev)
    ensures Plan(y) == Plan(x)
  {
  }

  lemma MoveFollows(s: Snapshot, ev: LedgerEvent, part: Part, id: string)
    requires MovesExperiment(ev) && ev.experimentId in s.experiments && ExperimentPart(part)
    ensures OfExperiment(ExperimentTable(s, ev), part, id) ==
            if Says(ev, part, id).Some? then Says(ev, part, id) else OfExperiment(s.experiments, part, id)
  {
    TableIsMoved(s, ev);
    SamePlan(s.experiments[ev.experimentId], ExperimentTable(s, ev)[ev.experimentId], ev);
    hide ExperimentTable, Claim, Plan;
  }

  lemma ExperimentFollows(s: Snapshot, ev: LedgerEvent, part: Part, id: string)
    requires !MovesExperiment(ev) && ExperimentPart(part)
    requires ev.ExperimentPlanned? ==> ev.experiment.status == Planned
    ensures OfExperiment(ExperimentTable(s, ev), part, id) ==
            if Says(ev, part, id).Some? then Says(ev, part, id) else OfExperiment(s.experiments, part, id)
  {
    hide Moved, Claim, Plan;
  }

  /** The parts that are recorded during a deliberation, rather than before it. */
  predicate Late(part: Part) {
    part == TheResolution || part == TheContradiction || part == TheCommit
  }

  lemma EarlyFollows(s: Snapshot, ev: LedgerEvent, part: Part, id: string)
    requires !HypothesisPart(part) && !ExperimentPart(part) && !Late(part)
    ensures OfRecord(Written(s, ev), part, id) ==
            if Says(ev, part, id).Some? then Says(ev, part, id) else OfRecord(s, part, id)
  {
    WrittenRecords(s, ev);
    hide Written, Claim, Plan;
  }

  lemma LateFollows(s: Snapshot, ev: LedgerEvent, part: Part, id: string)
    requires Late(part)
    ensures OfRecord(Written(s, ev), part, id) ==
            if Says(ev, part, id).Some? then Says(ev, part, id) else OfRecord(s, part, id)
  {
    WrittenRecords(s, ev);
    hide Written, Claim, Plan;
  }

  lemma StepTables(s: Snapshot, env: CaseLedgerEvent, part: Part, id: string)
    requires Effective(s, env)
    ensures Admits(s, env.event)
    ensures var t := Step(s, env).value;
            && t.hypotheses == HypothesesAfter(s, env.event) && t.experiments == ExperimentTable(s, env.event)
            && OfRecord(t, part, id) == OfRecord(Written(s, env.event), part, id)
  {
    RecordedFields(s, env);
    hide Step, Effective, Admits, HypothesesAfter, ExperimentTable;
  }

  lemma StepFollows(s: Snapshot, env: CaseLedgerEvent, part: Part, id: string)
    requires Effective(s, env)
    ensures Follows(s, Step(s, env).value, env.event, part, id)
  {
    StepTables(s, env, part, id);
    AdmittedStages(s, env.event);
    hide Effective, Step, Says, Admits, OfHypothesis, OfExperiment, OfRecord, HypothesesAfter, ExperimentTable, Written;
    if HypothesisPart(part) {
      HypothesisFollows(s, env.event, part, id);
    } else if ExperimentPart(part) && MovesExperiment(env.event) {
      MoveFollows(s, env.event, part, id);
    } else if ExperimentPart(part) {
      ExperimentFollows(s, env.event, part, id);
    } else if Late(part) {
      LateFollows(s, env.event, part, id);
    } else {
      EarlyFollows(s, env.event, part, id);
    }
  }

  // ---------- Whole runs ----------

  /** The last event of an accepted stream is applied if it is a first delivery, and skipped if not. */
  lemma LastEvent(caseId: string, events: seq<CaseLedgerEvent>)
    requires Reduce(caseId, events).Ok? && events != []
    ensures var n := |events| - 1;
            && Reduce(caseId, events[..n]).Ok?
            && (FirstDelivery(events, n) ==>
                  && Effective(Before(caseId, events, n), events[n])
                  && Step(Before(caseId, events, n), events[n]) == Reduce(caseId, events))
            && (!FirstDelivery(events, n) ==> Reduce(caseId, events) == Reduce(caseId, events[..n]))
  {
    hide Step, Fold;
    var n := |events| - 1;
    RunSplits(caseId, events, n);
    assert events[..n + 1] == events;
    ReduceOneMore(caseId, events, n);
    if FirstDelivery(events, n) {
      FirstDeliveryIsEffective(caseId, events, n);
    } else {
      var k :| 0 <= k < n && events[k].eventId == events[n].eventId;
      FoldCovers(EmptySnapshot(caseId), events[..n]);
      assert Covered(Before(caseId, events, n), events[..n][k]);
      RepetitionIsSkipped(Before(caseId, events, n), events[n]);
    }
  }

  /** The last thing that first deliveries say about a part. */
  function LastSaid(events: seq<CaseLedgerEvent>, part: Part, id: string): Option<Value> {
    if events == [] then None else
    var n := |events| - 1;
    if FirstDelivery(events, n) && Says(events[n].event, part, id).Some? then Says(events[n].event, part, id)
    else LastSaid(events[..n], part, id)
  }

  lemma {:induction false} LookupIsLastSaid(caseId: string, events: seq<CaseLedgerEvent>, part: Part, id: string)
    requires Reduce(caseId, events).Ok?
    ensures Lookup(Reduce(caseId, events).value, part, id) == LastSaid(events, part, id)
  {
    hide Says, Step, FirstDelivery, Effective;
    if events == [] {
      assert Reduce(caseId, events).value == EmptySnapshot(caseId);
    } else {
      hide Lookup, Fold;
      var n := |events| - 1;
      LastEvent(caseId, events);
      LookupIsLastSaid(caseId, events[..n], part, id);
      if FirstDelivery(events, n) {
        StepFollows(Before(caseId, events, n), events[n], part, id);
      }
    }
  }

  /** Event `i` is the last first delivery that says anything about the part. */
  predicate LastWord(events: seq<CaseLedgerEvent>, i: nat, part: Part, id: string)
    requires i < |events|
  {
    && FirstDelivery(events, i) && Says(events[i].event, part, id).Some?
    && forall j :: i < j < |events| && FirstDelivery(events, j) ==> Says(events[j].event, part, id).None?
  }

  lemma FirstInPrefix(events: seq<CaseLedgerEvent>, i: nat, n: nat)
    requires i < n <= |events|
    ensures FirstDelivery(events[..n], i) <==> FirstDelivery(events, i)
  {
  }

  lemma {:induction false} LastWordIsLastSaid(events: seq<CaseLedgerEvent>, i: nat, part: Part, id: string)
    requires i < |events| && LastWord(events, i, part, id)
    ensures LastSaid(events, part, id) == Says(events[i].event, part, id)
  {
    hide Says, FirstDelivery;
    var n := |events| - 1;
    if i < n {
      forall j | 0 <= j < n ensures FirstDelivery(events[..n], j) <==> FirstDelivery(events, j) {
        FirstInPrefix(events, j, n);
      }
      LastWordIsLastSaid(events[..n], i, part, id);
    }
  }

  lemma {:induction false} LastWordExists(events: seq<CaseLedgerEvent>, part: Part, id: string) returns (i: nat)
    requires LastSaid(events, part, id).Some?
    ensures i < |events| && LastWord(events, i, part, id)
  {
    hide Says, FirstDelivery;
    var n := |events| - 1;
    if FirstDelivery(events, n) && Says(events[n].event, part, id).Some? {
      i := n;
    } else {
      i := LastWordExists(events[..n], part, id);
      forall j | 0 <= j < n ensures FirstDelivery(events[..n], j) <==> FirstDelivery(events, j) {
        FirstInPrefix(events, j, n);
      }
    }
  }

  /** Of every part of every entity the projection holds what the last first delivery about it says. */
  lemma ProjectionIsLastWord(caseId: string, events: seq<CaseLedgerEvent>, i: nat, part: Part, id: string)
    requires Reduce(caseId, events).Ok? && i < |events| && LastWord(events, i, part, id)
    ensures Lookup(Reduce(caseId, events).value, part, id) == Says(events[i].event, part, id)
  {
    hide Lookup, Says, Reduce, LastWord, LastSaid;
    LookupIsLastSaid(caseId, events, part, id);
    LastWordIsLastSaid(events, i, part, id);
  }

  /** The projection holds nothing that no first delivery said. */
  lemma NothingIsInvented(caseId: string, events: seq<CaseLedgerEvent>, part: Part, id: string)
    requires Reduce(caseId, events).Ok?
    ensures Lookup(Reduce(caseId, events).value, part, id).Some? <==>
            exists i :: 0 <= i < |events| && LastWord(events, i, part, id)
  {
    hide Lookup, Says, Reduce, LastWord, LastSaid;
    LookupIsLastSaid(caseId, events, part, id);
    if LastSaid(events, part, id).Some? {
      var i := LastWordExists(events, part, id);
    }
    if i :| 0 <= i < |events| && LastWord(events, i, part, id) {
      LastWordIsLastSaid(events, i, part, id);
      SaysSomething(events, i, part, id);
    }
  }

  lemma SaysSomething(events: seq<CaseLedgerEvent>, i: nat, part: Part, id: string)
    requires i < |events| && LastWord(events, i, part, id)
    ensures Says(events[i].event, part, id).Some?
  {
  }

  // ---------- What is said once ----------

  /** Everything but life cycles and links. */
  predicate WriteOnce(part: Part) {
    part == TheClaim || part == ThePlan || part == ThePrediction || part == TheEvidence || part == TheResolution
    || part == TheContradiction || part == TheCommit
  }

  /** What the event brings is not stored yet. */
  predicate BringsNew(s: Snapshot, ev: LedgerEvent) {
    && (ev.HypothesisProposed? ==> ev.hypothesis.id !in s.hypotheses)
    && (ev.ExperimentPlanned? ==> ev.experiment.id !in s.experiments)
    && (ev.PredictionDeclared? ==> ev.prediction.id !in s.predictions)
    && (ev.EvidenceRecorded? ==> ev.evidence.id !in s.evidence)
    && (ev.HypothesisResolved? ==> ev.resolution.id !in s.resolutions)
    && (ev.ContradictionDetected? ==> ev.contradiction.id !in s.contradictions)
    && (ev.DeliberationCommitted? ==> ev.commit.id !in s.commits)
  }

  lemma AdmittedIsNew(s: Snapshot, ev: LedgerEvent)
    requires Admits(s, ev)
    ensures BringsNew(s, ev)
  {
    hide LinksOwned, EvidenceKnown, AllowedMove, AcceptableLink;
  }

  lemma OnlyNewIsSaid(s: Snapshot, ev: LedgerEvent, part: Part, id: string)
    requires BringsNew(s, ev) && WriteOnce(part) && Says(ev, part, id).Some?
    ensures Lookup(s, part, id).None?
  {
    hide Claim, Plan;
  }

  lemma {:induction false} SaidStays(events: seq<CaseLedgerEvent>, n: nat, part: Part, id: string)
    requires n <= |events| && LastSaid(events[..n], part, id).Some?
    ensures LastSaid(events, part, id).Some?
  {
    hide Says, FirstDelivery;
    if n == |events| {
      assert events[..n] == events;
    } else {
      var m := |events| - 1;
      assert events[..m][..n] == events[..n];
      SaidStays(events[..m], n, part, id);
    }
  }

  /** Claims, plans, predictions, evidence, resolutions, contradictions and commits: of all first
      deliveries, at most one brings the one with a given id. */
  lemma SaidOnce(caseId: string, events: seq<CaseLedgerEvent>, i: nat, j: nat, part: Part, id: string)
    requires Reduce(caseId, events).Ok? && i < j < |events| && WriteOnce(part)
    requires FirstDelivery(events, i) && FirstDelivery(events, j)
    ensures Says(events[i].event, part, id).None? || Says(events[j].event, part, id).None?
  {
    hide Reduce, Says, Lookup, FirstDelivery, LastSaid, Step, Admits, Effective, BringsNew;
    if Says(events[i].event, part, id).Some? && Says(events[j].event, part, id).Some? {
      FirstDeliveryIsEffective(caseId, events, j);
      EffectiveStep(Before(caseId, events, j), events[j]);
      SaidBy(events, i, part, id);
      assert events[..j][..i + 1] == events[..i + 1];
      SaidStays(events[..j], i + 1, part, id);
      LookupIsLastSaid(caseId, events[..j], part, id);
      AdmittedIsNew(Before(caseId, events, j), events[j].event);
      OnlyNewIsSaid(Before(caseId, events, j), events[j].event, part, id);
    }
  }

  lemma SaidBy(events: seq<CaseLedgerEvent>, i: nat, part: Part, id: string)
    requires i < |events| && FirstDelivery(events, i) && Says(events[i].event, part, id).Some?
    ensures LastSaid(events[..i + 1], part, id).Some?
  {
    hide Says, FirstDelivery;
    FirstInPrefix(events, i, i + 1);
  }

  // ---------- Observations ----------

  predicate Reports(ev: LedgerEvent, id: string) {
    ev.ExperimentObserved? && ev.experimentId == id
  }

  lemma ObservedMeans(ev: LedgerEvent, id: string, at: int)
    requires Says(ev, ExperimentStage, id) == Some(ExperimentIs(Observed, at))
    ensures ev.ExperimentObserved? && ev.experimentId == id && ev.occurredAt == at
  {
  }

  /** An experiment that ends up Observed carries the evidence list and the time of an ExperimentObserved
      event that was delivered, and no other first delivery reported an observation of it. */
  lemma ObservedAsReported(caseId: string, events: seq<CaseLedgerEvent>, id: string)
    requires Reduce(caseId, events).Ok? && id in Reduce(caseId, events).value.experiments
    requires Reduce(caseId, events).value.experiments[id].status == Observed
    ensures exists i ::
              && 0 <= i < |events| && FirstDelivery(events, i) && Reports(events[i].event, id)
              && Reduce(caseId, events).value.experiments[id].evidenceIds == events[i].event.evidenceIds
              && Reduce(caseId, events).value.experiments[id].updatedAt == events[i].event.occurredAt
              && forall j :: 0 <= j < |events| && FirstDelivery(events, j) && Reports(events[j].event, id) ==> j == i
  {
    hide Reduce, FirstDelivery;
    var x := Reduce(caseId, events).value.experiments[id];
    LookupIsLastSaid(caseId, events, ExperimentStage, id);
    var i := LastWordExists(events, ExperimentStage, id);
    ProjectionIsLastWord(caseId, events, i, ExperimentStage, id);
    ObservedMeans(events[i].event, id, x.updatedAt);
    assert LastWord(events, i, Observations, id);
    ProjectionIsLastWord(caseId, events, i, Observations, id);
    forall j | 0 <= j < |events| && FirstDelivery(events, j) && Reports(events[j].event, id) ensures j == i {
      if j < i {
        ObservedOnce(caseId, events, j, i);
      }
    }
  }

  lemma ObservedOnce(caseId: string, events: seq<CaseLedgerEvent>, i: nat, j: nat)
    requires Reduce(caseId, events).Ok? && i < j < |events| && FirstDelivery(events, i) && FirstDelivery(events, j)
    requires events[i].event.ExperimentObserved? && events[j].event.ExperimentObserved?
    ensures events[i].event.experimentId != events[j].event.experimentId
  {
    hide Reduce, FirstDelivery;
    FirstDeliveryIsEffective(caseId, events, i);
    FirstDeliveryIsEffective(caseId, events, j);
    RunAdvances(caseId, events, i + 1, j);
    ExperimentIsMoved(Before(caseId, events, i), events[i]);
    EffectiveStep(Before(caseId, events, j), events[j]);
    hide Step, Before, EvidenceKnown, HypothesesAdvance, Budget;
  }
}
