/** Entities, events and projection of the Hypothesis Ledger, version 2.

    Only the fields that the reducer reads or rewrites are spelled out. Whatever it
    merely copies from the event into the projection travels in `details`. */
module LedgerTypes {
  import opened Results

  const SCHEMA_VERSION: nat := 2
  const MAX_ATTEMPT: nat := 0xFFFF_FFFF

  type Attempt = n: nat | n <= MAX_ATTEMPT

  datatype LedgerRef =
    | EvidenceRef(evidenceId: string)
    | ResolutionRef(resolutionId: string)
    | UserAssertion(text: string)

  datatype HypothesisStatus = Open | Confirmed | Rejected | Inconclusive | Superseded

  datatype Hypothesis = Hypothesis(
    id: string, caseId: string, claim: string, premiseRefs: seq<LedgerRef>, details: string,
    status: HypothesisStatus, revision: nat, updatedAt: int)

  datatype Prediction = Prediction(
    id: string, caseId: string, hypothesisId: string, falsifier: string, revision: nat, details: string)

  datatype ExperimentStatus = Planned | Queued | Running | Observed | Blocked | Failed | Cancelled | Expired

  datatype Experiment = Experiment(
    id: string, caseId: string, hypothesisIds: seq<string>, predictionIds: seq<string>,
    idempotencyKey: string, details: string,
    status: ExperimentStatus, taskId: Option<string>, attempt: Attempt, evidenceIds: seq<string>,
    revision: nat, updatedAt: int)

  datatype Evidence = Evidence(
    id: string, caseId: string, experimentId: Option<string>, predictionIds: seq<string>,
    boundCallId: Option<string>, toolCallId: Option<string>, details: string)

  datatype EvidenceRelation = Supports | Contradicts | Neutral

  datatype EvidenceLink = EvidenceLink(
    id: string, caseId: string, evidenceId: string, hypothesisId: string, predictionId: Option<string>,
    relation: EvidenceRelation, rationale: string, details: string)

  datatype ResolvedStatus = AsConfirmed | AsRejected | AsInconclusive | AsSuperseded

  datatype Resolution = Resolution(
    id: string, caseId: string, hypothesisId: string, status: ResolvedStatus,
    evidenceLinkIds: seq<string>, unresolvedContradictionIds: seq<string>, createdAt: int, details: string)

  datatype Contradiction = Contradiction(
    id: string, caseId: string, hypothesisId: string, evidenceLinkIds: seq<string>, details: string)

  datatype DeliberationCommit = DeliberationCommit(
    id: string, caseId: string, ledgerVersion: nat, consideredHypothesisIds: seq<string>,
    boundExperimentIds: seq<string>, details: string)

  datatype AggregateKind =
    | HypothesisKind | PredictionKind | ExperimentKind | EvidenceKind
    | EvidenceLinkKind | ResolutionKind | DeliberationKind

  datatype LedgerEvent =
    | HypothesisProposed(hypothesis: Hypothesis)
    | PredictionDeclared(prediction: Prediction)
    | ExperimentPlanned(experiment: Experiment)
    | ExperimentQueued(experimentId: string, expectedRevision: nat, taskId: string, occurredAt: int)
    | ExperimentStarted(experimentId: string, expectedRevision: nat, attempt: Attempt, occurredAt: int)
    | ExperimentObserved(experimentId: string, expectedRevision: nat, evidenceIds: seq<string>, occurredAt: int)
    | ExperimentBlocked(experimentId: string, expectedRevision: nat, occurredAt: int)
    | ExperimentFailed(experimentId: string, expectedRevision: nat, occurredAt: int)
    | ExperimentCancelled(experimentId: string, expectedRevision: nat, occurredAt: int)
    | ExperimentExpired(experimentId: string, expectedRevision: nat, occurredAt: int)
    | EvidenceRecorded(evidence: Evidence)
    | EvidenceLinked(link: EvidenceLink)
    | EvidenceLinkRejected(hypothesisId: string)
    | ContradictionDetected(contradiction: Contradiction)
    | ResolutionRequested(hypothesisId: string, expectedRevision: nat, evidenceLinkIds: seq<string>)
    | HypothesisResolved(expectedRevision: nat, resolution: Resolution)
    | ResolutionRejected(hypothesisId: string)
    | HypothesisReopened(hypothesisId: string, expectedRevision: nat, occurredAt: int)
    | HypothesisSuperseded(hypothesisId: string, expectedRevision: nat, supersededBy: string, occurredAt: int)
    | DeliberationCommitted(commit: DeliberationCommit)

  /** The stored envelope. `schemaVersion` is the number every payload carries. */
  datatype CaseLedgerEvent = CaseLedgerEvent(
    caseId: string, seqNo: nat, eventId: string, kind: AggregateKind, aggregateId: string,
    aggregateRevision: nat, schemaVersion: nat, event: LedgerEvent)

  /** The value of one case's projection. */
  datatype Snapshot = Snapshot(
    caseId: string, version: nat, projectedSeq: nat,
    hypotheses: map<string, Hypothesis>,
    predictions: map<string, Prediction>,
    experiments: map<string, Experiment>,
    evidence: map<string, Evidence>,
    links: map<string, EvidenceLink>,
    resolutions: map<string, Resolution>,
    contradictions: map<string, Contradiction>,
    commits: map<string, DeliberationCommit>,
    appliedEventIds: set<string>)

  function EmptySnapshot(caseId: string): Snapshot {
    Snapshot(caseId, 0, 0, map[], map[], map[], map[], map[], map[], map[], map[], {})
  }

  datatype LedgerError =
    | CrossCase(eventId: string, expectedCase: string, actualCase: string)
    | SequenceGap(eventId: string, expected: nat, actual: nat)
    | UnsupportedSchema(eventId: string, expected: nat, actual: nat)
    | InvalidEvent(eventId: string)
    | RevisionConflict(aggregateId: string, expected: nat, actual: nat)

  /** The outcome of a check: accepted, or rejected with the error to report. */
  datatype Verdict = Accepted | Denied(error: LedgerError) {
    /** The first rejection of the two, in order. */
    function Then(next: Verdict): Verdict {
      if Accepted? then next else this
    }
  }
}
