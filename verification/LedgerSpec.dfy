/** What one event does to a projection, as a function of values. `LedgerStore` is the
    in-place reducer proved against it. */
module LedgerSpec {
  import opened Results
  import opened LedgerTypes
  import opened Text

  // ---------- Checks shared by all events ----------

  function Invalid(env: CaseLedgerEvent): Verdict {
    Denied(InvalidEvent(env.eventId))
  }

  function RequireRevision(env: CaseLedgerEvent, aggregateId: string, expected: nat): Verdict {
    if env.aggregateId != aggregateId || env.aggregateRevision != expected
    then Denied(RevisionConflict(aggregateId, expected, env.aggregateRevision))
    else Accepted
  }

  function RequireKind(env: CaseLedgerEvent, expected: AggregateKind): Verdict {
    if env.kind != expected then Invalid(env) else Accepted
  }

  function Require(env: CaseLedgerEvent, condition: bool): Verdict {
    if condition then Accepted else Invalid(env)
  }

  function RequireCurrent(id: string, current: nat, expected: nat): Verdict {
    if current != expected then Denied(RevisionConflict(id, current, expected)) else Accepted
  }

  // ---------- New entities ----------

  predicate KnownRef(s: Snapshot, premise: LedgerRef) {
    match premise
    case EvidenceRef(id) => id in s.evidence
    case ResolutionRef(id) => id in s.resolutions
    case UserAssertion(_) => true
  }

  predicate AcceptableHypothesis(s: Snapshot, h: Hypothesis) {
    && h.caseId == s.caseId
    && h.revision == 1 && h.status == Open
    && Trim(h.claim) != "" && |h.claim| <= 1000
    && h.id !in s.hypotheses
    && forall i :: 0 <= i < |h.premiseRefs| ==> KnownRef(s, h.premiseRefs[i])
  }

  predicate AcceptablePrediction(s: Snapshot, p: Prediction) {
    && p.caseId == s.caseId && p.revision == 1
    && Trim(p.falsifier) != ""
    && p.hypothesisId in s.hypotheses
    && p.id !in s.predictions
  }

  predicate PredictionWithin(s: Snapshot, hypothesisIds: seq<string>, predictionId: string) {
    predictionId in s.predictions && s.predictions[predictionId].hypothesisId in hypothesisIds
  }

  predicate AcceptableExperiment(s: Snapshot, x: Experiment) {
    && x.caseId == s.caseId && x.revision == 1 && x.status == Planned
    && Trim(x.idempotencyKey) != ""
    && (forall i :: 0 <= i < |x.hypothesisIds| ==> x.hypothesisIds[i] in s.hypotheses)
    && (forall i :: 0 <= i < |x.predictionIds| ==> PredictionWithin(s, x.hypothesisIds, x.predictionIds[i]))
    && (forall y :: y in s.experiments && s.experiments[y].idempotencyKey == x.idempotencyKey
                    ==> s.experiments[y].id == x.id)
    && x.id !in s.experiments
  }

  predicate AcceptableEvidence(s: Snapshot, e: Evidence) {
    && e.caseId == s.caseId
    && e.toolCallId == e.boundCallId
    && (match e.experimentId
        case Some(x) =>
          && x in s.experiments
          && forall i :: 0 <= i < |e.predictionIds| ==> e.predictionIds[i] in s.experiments[x].predictionIds
        case None => e.predictionIds == [])
    && e.id !in s.evidence
  }

  predicate SameMeaning(a: EvidenceLink, b: EvidenceLink) {
    && a.evidenceId == b.evidenceId && a.hypothesisId == b.hypothesisId
    && a.predictionId == b.predictionId && a.relation == b.relation
  }

  /** Nothing here asks that `l.id` is new. */
  predicate AcceptableLink(s: Snapshot, l: EvidenceLink) {
    && l.caseId == s.caseId
    && l.evidenceId in s.evidence
    && l.hypothesisId in s.hypotheses
    && (l.predictionId.Some? ==>
          && l.predictionId.value in s.predictions
          && s.predictions[l.predictionId.value].hypothesisId == l.hypothesisId
          && l.predictionId.value in s.evidence[l.evidenceId].predictionIds)
    && (forall k :: k in s.links ==> !SameMeaning(s.links[k], l))
    && |l.rationale| <= 800
  }

  predicate AcceptableCommit(s: Snapshot, c: DeliberationCommit) {
    && c.caseId == s.caseId
    && c.ledgerVersion == s.version
    && (forall i :: 0 <= i < |c.consideredHypothesisIds| ==> c.consideredHypothesisIds[i] in s.hypotheses)
    && (forall i :: 0 <= i < |c.boundExperimentIds| ==> c.boundExperimentIds[i] in s.experiments)
    && c.id !in s.commits
  }

  function NewEntityVerdict(env: CaseLedgerEvent, kind: AggregateKind, id: string, acceptable: bool): Verdict {
    RequireKind(env, kind).Then(RequireRevision(env, id, 1)).Then(Require(env, acceptable))
  }

  // ---------- Experiment transitions ----------

  datatype Transition = Transition(
    expectedRevision: nat, status: ExperimentStatus, occurredAt: int,
    taskId: Option<string>, attempt: Option<Attempt>, evidenceIds: Option<seq<string>>)

  /** Planned comes before Queued, Queued before Running; everything else is final. Every move
      goes strictly onward, except Running to Running, and only a Running experiment is Observed. */
  predicate AllowedMove(source: ExperimentStatus, target: ExperimentStatus) {
    match source
    case Planned => target != Planned && target != Observed
    case Queued => target != Planned && target != Queued && target != Observed
    case Running => target != Planned && target != Queued
    case _ => false
  }

  function TransitionOf(ev: LedgerEvent): Option<(string, Transition)> {
    match ev
    case ExperimentQueued(x, r, task, at) => Some((x, Transition(r, Queued, at, Some(task), None, None)))
    case ExperimentStarted(x, r, attempt, at) => Some((x, Transition(r, Running, at, None, Some(attempt), None)))
    case ExperimentObserved(x, r, ids, at) => Some((x, Transition(r, Observed, at, None, None, Some(ids))))
    case ExperimentBlocked(x, r, at) => Some((x, Transition(r, Blocked, at, None, None, None)))
    case ExperimentFailed(x, r, at) => Some((x, Transition(r, Failed, at, None, None, None)))
    case ExperimentCancelled(x, r, at) => Some((x, Transition(r, Cancelled, at, None, None, None)))
    case ExperimentExpired(x, r, at) => Some((x, Transition(r, Expired, at, None, None, None)))
    case _ => None
  }

  /** Every check that precedes the first write. */
  function TransitionGate(s: Snapshot, env: CaseLedgerEvent, id: string, t: Transition): Verdict {
    RequireKind(env, ExperimentKind).Then(
      if id !in s.experiments then Invalid(env) else
      var x := s.experiments[id];
      RequireCurrent(id, x.revision, t.expectedRevision)
      .Then(RequireRevision(env, id, t.expectedRevision + 1))
      .Then(Require(env, AllowedMove(x.status, t.status)))
      .Then(Require(env, t.attempt.Some? ==> t.attempt.value > x.attempt)))
  }

  predicate AllRecorded(evidence: map<string, Evidence>, ids: seq<string>) {
    forall i :: 0 <= i < |ids| ==> ids[i] in evidence
  }

  predicate EvidenceKnown(s: Snapshot, t: Transition) {
    t.evidenceIds.Some? ==> AllRecorded(s.evidence, t.evidenceIds.value)
  }

  function TransitionVerdict(s: Snapshot, env: CaseLedgerEvent, id: string, t: Transition): Verdict {
    TransitionGate(s, env, id, t).Then(Require(env, EvidenceKnown(s, t)))
  }

  /** The task and attempt writes, which precede the last check. */
  function Assigned(x: Experiment, t: Transition): Experiment {
    x.(taskId := if t.taskId.Some? then t.taskId else x.taskId,
       attempt := if t.attempt.Some? then t.attempt.value else x.attempt)
  }

  function Moved(x: Experiment, t: Transition): Experiment {
    Assigned(x, t).(
      evidenceIds := if t.evidenceIds.Some? then t.evidenceIds.value else x.evidenceIds,
      status := t.status, revision := x.revision + 1, updatedAt := t.occurredAt)
  }

  /** What a call leaves in the experiment table, also when it is refused. */
  function ExperimentsAfter(s: Snapshot, env: CaseLedgerEvent, id: string, t: Transition): map<string, Experiment> {
    if TransitionGate(s, env, id, t).Denied? || id !in s.experiments then s.experiments
    else if !EvidenceKnown(s, t) then s.experiments[id := Assigned(s.experiments[id], t)]
    else s.experiments[id := Moved(s.experiments[id], t)]
  }

  lemma TransitionOutcome(s: Snapshot, env: CaseLedgerEvent, id: string, t: Transition)
    ensures TransitionGate(s, env, id, t).Denied? ==>
              TransitionVerdict(s, env, id, t) == TransitionGate(s, env, id, t)
              && ExperimentsAfter(s, env, id, t) == s.experiments
    ensures TransitionGate(s, env, id, t).Accepted? ==>
              && id in s.experiments && TransitionVerdict(s, env, id, t) == Require(env, EvidenceKnown(s, t))
              && (EvidenceKnown(s, t) ==>
                    ExperimentsAfter(s, env, id, t) == s.experiments[id := Moved(s.experiments[id], t)])
              && (!EvidenceKnown(s, t) ==>
                    ExperimentsAfter(s, env, id, t) == s.experiments[id := Assigned(s.experiments[id], t)])
  {
    hide EvidenceKnown, Moved, Assigned;
  }

  // ---------- Events about an existing hypothesis ----------

  predicate LinksOwned(s: Snapshot, linkIds: seq<string>, hypothesisId: string) {
    forall i :: 0 <= i < |linkIds| ==> linkIds[i] in s.links && s.links[linkIds[i]].hypothesisId == hypothesisId
  }

  function StatusOf(r: ResolvedStatus): HypothesisStatus {
    match r
    case AsConfirmed => Confirmed
    case AsRejected => Rejected
    case AsInconclusive => Inconclusive
    case AsSuperseded => Superseded
  }

  /** A note on hypothesis `id`, which must name its current revision. */
  function NoteVerdict(s: Snapshot, env: CaseLedgerEvent, before: bool, id: string, acceptable: bool): Verdict {
    RequireKind(env, HypothesisKind).Then(Require(env, before && id in s.hypotheses)).Then(
      if id !in s.hypotheses then Invalid(env)
      else RequireRevision(env, id, s.hypotheses[id].revision).Then(Require(env, acceptable)))
  }

  /** A guarded change of hypothesis `id` read at revision `expected`, announcing `target`. */
  function UpdateVerdict(
    s: Snapshot, env: CaseLedgerEvent, before: bool, id: string, expected: nat, target: nat, acceptable: bool)
    : Verdict
  {
    RequireKind(env, HypothesisKind).Then(Require(env, before && id in s.hypotheses)).Then(
      if id !in s.hypotheses then Invalid(env)
      else RequireCurrent(id, s.hypotheses[id].revision, expected)
           .Then(RequireRevision(env, id, target)).Then(Require(env, acceptable)))
  }

  predicate HasStatus(s: Snapshot, id: string, status: HypothesisStatus) {
    id in s.hypotheses && s.hypotheses[id].status == status
  }

  // ---------- The reducer ----------

  /** The checks that depend on the payload. */
  function PayloadVerdict(s: Snapshot, env: CaseLedgerEvent): Verdict {
    match env.event
    case HypothesisProposed(h) => NewEntityVerdict(env, HypothesisKind, h.id, AcceptableHypothesis(s, h))
    case PredictionDeclared(p) => NewEntityVerdict(env, PredictionKind, p.id, AcceptablePrediction(s, p))
    case ExperimentPlanned(x) => NewEntityVerdict(env, ExperimentKind, x.id, AcceptableExperiment(s, x))
    case EvidenceRecorded(e) => NewEntityVerdict(env, EvidenceKind, e.id, AcceptableEvidence(s, e))
    case EvidenceLinked(l) => NewEntityVerdict(env, EvidenceLinkKind, l.id, AcceptableLink(s, l))
    case DeliberationCommitted(c) => NewEntityVerdict(env, DeliberationKind, c.id, AcceptableCommit(s, c))
    case EvidenceLinkRejected(h) => NoteVerdict(s, env, true, h, true)
    case ResolutionRejected(h) => NoteVerdict(s, env, true, h, true)
    case ContradictionDetected(c) =>
      NoteVerdict(s, env, c.caseId == s.caseId, c.hypothesisId,
                  LinksOwned(s, c.evidenceLinkIds, c.hypothesisId) && c.id !in s.contradictions)
    case ResolutionRequested(h, r, ids) =>
      UpdateVerdict(s, env, true, h, r, r, LinksOwned(s, ids, h))
    case HypothesisResolved(r, res) =>
      UpdateVerdict(s, env, res.caseId == s.caseId, res.hypothesisId, r, r + 1,
                    && HasStatus(s, res.hypothesisId, Open)
                    && LinksOwned(s, res.evidenceLinkIds + res.unresolvedContradictionIds, res.hypothesisId)
                    && res.id !in s.resolutions)
    case HypothesisReopened(h, r, _) =>
      UpdateVerdict(s, env, true, h, r, r + 1, HasStatus(s, h, Inconclusive))
    case HypothesisSuperseded(h, r, newer, _) =>
      UpdateVerdict(s, env, h != newer && newer in s.hypotheses, h, r, r + 1, !HasStatus(s, h, Superseded))
    case _ =>
      var t := TransitionOf(env.event).value;
      TransitionVerdict(s, env, t.0, t.1)
  }

  /** An event id that was already applied. */
  predicate Replayed(s: Snapshot, env: CaseLedgerEvent) {
    env.eventId in s.appliedEventIds
  }

  function Judge(s: Snapshot, env: CaseLedgerEvent): Verdict {
    if env.caseId != s.caseId then Denied(CrossCase(env.eventId, s.caseId, env.caseId))
    else if Replayed(s, env) then Require(env, env.seqNo <= s.projectedSeq)
    else if env.seqNo != s.projectedSeq + 1 then Denied(SequenceGap(env.eventId, s.projectedSeq + 1, env.seqNo))
    else if env.schemaVersion != SCHEMA_VERSION
    then Denied(UnsupportedSchema(env.eventId, SCHEMA_VERSION, env.schemaVersion))
    else PayloadVerdict(s, env)
  }

  function SetStatus(s: Snapshot, id: string, status: HypothesisStatus, at: int): map<string, Hypothesis> {
    if id !in s.hypotheses then s.hypotheses else
    var h := s.hypotheses[id];
    s.hypotheses[id := h.(status := status, revision := h.revision + 1, updatedAt := at)]
  }

  function HypothesesAfter(s: Snapshot, ev: LedgerEvent): map<string, Hypothesis> {
    match ev
    case HypothesisProposed(h) => s.hypotheses[h.id := h]
    case HypothesisResolved(_, res) => SetStatus(s, res.hypothesisId, StatusOf(res.status), res.createdAt)
    case HypothesisReopened(h, _, at) => SetStatus(s, h, Open, at)
    case HypothesisSuperseded(h, _, _, at) => SetStatus(s, h, Superseded, at)
    case _ => s.hypotheses
  }

  function ExperimentTable(s: Snapshot, ev: LedgerEvent): map<string, Experiment> {
    if ev.ExperimentPlanned? then s.experiments[ev.experiment.id := ev.experiment] else
    match TransitionOf(ev)
    case Some((id, t)) =>
      if id in s.experiments then s.experiments[id := Moved(s.experiments[id], t)] else s.experiments
    case None => s.experiments
  }

  /** The tables after an accepted, not yet applied event. */
  function Written(s: Snapshot, ev: LedgerEvent): Snapshot {
    Snapshot(
      s.caseId, s.version, s.projectedSeq,
      HypothesesAfter(s, ev),
      if ev.PredictionDeclared? then s.predictions[ev.prediction.id := ev.prediction] else s.predictions,
      ExperimentTable(s, ev),
      if ev.EvidenceRecorded? then s.evidence[ev.evidence.id := ev.evidence] else s.evidence,
      if ev.EvidenceLinked? then s.links[ev.link.id := ev.link] else s.links,
      if ev.HypothesisResolved? then s.resolutions[ev.resolution.id := ev.resolution] else s.resolutions,
      if ev.ContradictionDetected? then s.contradictions[ev.contradiction.id := ev.contradiction]
      else s.contradictions,
      if ev.DeliberationCommitted? then s.commits[ev.commit.id := ev.commit] else s.commits,
      s.appliedEventIds)
  }

  lemma WrittenBookkeeping(s: Snapshot, ev: LedgerEvent)
    ensures var t := Written(s, ev);
            && t.caseId == s.caseId && t.version == s.version && t.projectedSeq == s.projectedSeq
            && t.appliedEventIds == s.appliedEventIds
  {
  }

  /** The event brings an entity that is filed under a new id (or, for a link, under any). */
  predicate NewEntity(ev: LedgerEvent) {
    ev.HypothesisProposed? || ev.PredictionDeclared? || ev.ExperimentPlanned? || ev.EvidenceRecorded?
    || ev.EvidenceLinked? || ev.DeliberationCommitted? || ev.ContradictionDetected?
  }

  predicate UpdatesHypothesis(ev: LedgerEvent) {
    ev.HypothesisResolved? || ev.HypothesisReopened? || ev.HypothesisSuperseded?
  }

  /** The other kinds of event are only noted. */
  lemma NotesWriteNothing(s: Snapshot, ev: LedgerEvent)
    requires !NewEntity(ev) && !UpdatesHypothesis(ev) && TransitionOf(ev).None?
    ensures Written(s, ev) == s
  {
  }

  function Recorded(s: Snapshot, env: CaseLedgerEvent): Snapshot {
    Written(s, env.event).(
      projectedSeq := env.seqNo, version := env.seqNo, appliedEventIds := s.appliedEventIds + {env.eventId})
  }

  function Step(s: Snapshot, env: CaseLedgerEvent): Result<Snapshot, LedgerError> {
    match Judge(s, env)
    case Denied(e) => Err(e)
    case Accepted => Ok(if Replayed(s, env) then s else Recorded(s, env))
  }

  /** Applies a stream of events, stopping at the first one that is refused. */
  function Fold(s: Snapshot, events: seq<CaseLedgerEvent>): Result<Snapshot, LedgerError>
    decreases |events|
  {
    if events == [] then Ok(s) else
    match Step(s, events[0])
    case Err(e) => Err(e)
    case Ok(t) => Fold(t, events[1..])
  }

  function Reduce(caseId: string, events: seq<CaseLedgerEvent>): Result<Snapshot, LedgerError> {
    Fold(EmptySnapshot(caseId), events)
  }

  /** The transitions that events make never supply evidence together with a task or an attempt, so a
      refusal leaves the table as it was. */
  lemma TransitionsAreAtomic(s: Snapshot, env: CaseLedgerEvent)
    requires TransitionOf(env.event).Some?
    ensures var (id, t) := TransitionOf(env.event).value;
            && PayloadVerdict(s, env) == TransitionVerdict(s, env, id, t)
            && s.(experiments := ExperimentsAfter(s, env, id, t)) ==
               if TransitionVerdict(s, env, id, t).Accepted? then Written(s, env.event) else s
  {
    var (id, t) := TransitionOf(env.event).value;
    assert id in s.experiments ==> s.experiments[id := s.experiments[id]] == s.experiments;
    hide AllowedMove, EvidenceKnown;
  }

  // ---------- Acceptance, without the order of the checks ----------

  predicate AtRevision(s: Snapshot, id: string, revision: nat) {
    id in s.hypotheses && s.hypotheses[id].revision == revision
  }

  predicate MayMove(s: Snapshot, id: string, t: Transition) {
    && id in s.experiments
    && s.experiments[id].revision == t.expectedRevision
    && AllowedMove(s.experiments[id].status, t.status)
    && (t.attempt.Some? ==> t.attempt.value > s.experiments[id].attempt)
    && EvidenceKnown(s, t)
  }

  /** The state admits the event's payload. */
  predicate Admits(s: Snapshot, ev: LedgerEvent) {
    match ev
    case HypothesisProposed(h) => AcceptableHypothesis(s, h)
    case PredictionDeclared(p) => AcceptablePrediction(s, p)
    case ExperimentPlanned(x) => AcceptableExperiment(s, x)
    case EvidenceRecorded(e) => AcceptableEvidence(s, e)
    case EvidenceLinked(l) => AcceptableLink(s, l)
    case DeliberationCommitted(c) => AcceptableCommit(s, c)
    case EvidenceLinkRejected(h) => h in s.hypotheses
    case ResolutionRejected(h) => h in s.hypotheses
    case ContradictionDetected(c) =>
      && c.caseId == s.caseId && c.hypothesisId in s.hypotheses
      && LinksOwned(s, c.evidenceLinkIds, c.hypothesisId) && c.id !in s.contradictions
    case ResolutionRequested(h, r, ids) => AtRevision(s, h, r) && LinksOwned(s, ids, h)
    case HypothesisResolved(r, res) =>
      && res.caseId == s.caseId
      && AtRevision(s, res.hypothesisId, r) && HasStatus(s, res.hypothesisId, Open)
      && LinksOwned(s, res.evidenceLinkIds + res.unresolvedContradictionIds, res.hypothesisId)
      && res.id !in s.resolutions
    case HypothesisReopened(h, r, _) => AtRevision(s, h, r) && HasStatus(s, h, Inconclusive)
    case HypothesisSuperseded(h, r, newer, _) =>
      h != newer && newer in s.hypotheses && AtRevision(s, h, r) && !HasStatus(s, h, Superseded)
    case _ =>
      var t := TransitionOf(ev).value;
      MayMove(s, t.0, t.1)
  }

  /** The aggregate and the revision that an envelope around `ev` has to announce. */
  function Address(s: Snapshot, ev: LedgerEvent): (AggregateKind, string, nat) {
    match ev
    case HypothesisProposed(h) => (HypothesisKind, h.id, 1)
    case PredictionDeclared(p) => (PredictionKind, p.id, 1)
    case ExperimentPlanned(x) => (ExperimentKind, x.id, 1)
    case EvidenceRecorded(e) => (EvidenceKind, e.id, 1)
    case EvidenceLinked(l) => (EvidenceLinkKind, l.id, 1)
    case DeliberationCommitted(c) => (DeliberationKind, c.id, 1)
    case EvidenceLinkRejected(h) => (HypothesisKind, h, CurrentRevision(s, h))
    case ResolutionRejected(h) => (HypothesisKind, h, CurrentRevision(s, h))
    case ContradictionDetected(c) => (HypothesisKind, c.hypothesisId, CurrentRevision(s, c.hypothesisId))
    case ResolutionRequested(h, r, _) => (HypothesisKind, h, r)
    case HypothesisResolved(r, res) => (HypothesisKind, res.hypothesisId, r + 1)
    case HypothesisReopened(h, r, _) => (HypothesisKind, h, r + 1)
    case HypothesisSuperseded(h, r, _, _) => (HypothesisKind, h, r + 1)
    case _ =>
      var t := TransitionOf(ev).value;
      (ExperimentKind, t.0, t.1.expectedRevision + 1)
  }

  function CurrentRevision(s: Snapshot, id: string): nat {
    if id in s.hypotheses then s.hypotheses[id].revision else 0
  }

  predicate Addressed(s: Snapshot, env: CaseLedgerEvent) {
    Address(s, env.event) == (env.kind, env.aggregateId, env.aggregateRevision)
  }

  lemma NewEntityIsAdmitted(s: Snapshot, env: CaseLedgerEvent)
    requires NewEntity(env.event)
    ensures PayloadVerdict(s, env).Accepted? <==> Admits(s, env.event) && Addressed(s, env)
  {
    hide AcceptableHypothesis, AcceptablePrediction, AcceptableExperiment, AcceptableEvidence, AcceptableLink,
      AcceptableCommit, LinksOwned, TransitionOf;
  }

  lemma TransitionIsAdmitted(s: Snapshot, env: CaseLedgerEvent)
    requires TransitionOf(env.event).Some?
    ensures PayloadVerdict(s, env).Accepted? <==> Admits(s, env.event) && Addressed(s, env)
  {
    hide EvidenceKnown, AllowedMove;
  }

  lemma ChangeIsAdmitted(s: Snapshot, env: CaseLedgerEvent)
    requires !NewEntity(env.event) && TransitionOf(env.event).None?
    ensures PayloadVerdict(s, env).Accepted? <==> Admits(s, env.event) && Addressed(s, env)
  {
    hide LinksOwned;
  }

  /** The ordered checks accept exactly the admissible payloads in correctly addressed envelopes. */
  lemma AcceptanceIsAdmission(s: Snapshot, env: CaseLedgerEvent)
    ensures PayloadVerdict(s, env).Accepted? <==>
            Admits(s, env.event) && Address(s, env.event) == (env.kind, env.aggregateId, env.aggregateRevision)
  {
    hide PayloadVerdict, Admits, NewEntity, TransitionOf;
    if NewEntity(env.event) {
      NewEntityIsAdmitted(s, env);
    } else if TransitionOf(env.event).Some? {
      TransitionIsAdmitted(s, env);
    } else {
      ChangeIsAdmitted(s, env);
    }
  }
}
