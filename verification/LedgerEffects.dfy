/** What every accepted event leaves in the projection, field by field. The laws are stated on the
    states before and after a step, in the terms of the events alone. */
module LedgerEffects {
  import opened Results
  import opened LedgerTypes
  import opened LedgerSpec
  import opened LedgerReplay
  import opened LedgerInvariants

  /** The same tables, with one more event counted. */
  function Counted(s: Snapshot, eventId: string): Snapshot {
    Snapshot(s.caseId, s.projectedSeq + 1, s.projectedSeq + 1, s.hypotheses, s.predictions, s.experiments,
             s.evidence, s.links, s.resolutions, s.contradictions, s.commits, s.appliedEventIds + {eventId})
  }

  /** The event moves an experiment. */
  predicate MovesExperiment(ev: LedgerEvent) {
    ev.ExperimentQueued? || ev.ExperimentStarted? || ev.ExperimentObserved? || ev.ExperimentBlocked?
    || ev.ExperimentFailed? || ev.ExperimentCancelled? || ev.ExperimentExpired?
  }

  /** The event is recorded, and changes no table. */
  predicate OnlyNotes(ev: LedgerEvent) {
    ev.EvidenceLinkRejected? || ev.ResolutionRejected? || ev.ResolutionRequested?
  }

  lemma RecordedFields(s: Snapshot, env: CaseLedgerEvent)
    requires Effective(s, env)
    ensures Admits(s, env.event)
    ensures var t, w := Step(s, env).value, Written(s, env.event);
            && t == Counted(s, env.eventId).(
                 hypotheses := w.hypotheses, predictions := w.predictions, experiments := w.experiments,
                 evidence := w.evidence, links := w.links, resolutions := w.resolutions,
                 contradictions := w.contradictions, commits := w.commits)
  {
    EffectiveStep(s, env);
    WrittenBookkeeping(s, env.event);
    hide Step, Admits, Written;
  }

  lemma WrittenRecords(s: Snapshot, ev: LedgerEvent)
    ensures var t := Written(s, ev);
            && t.predictions == (if ev.PredictionDeclared? then s.predictions[ev.prediction.id := ev.prediction]
                                 else s.predictions)
            && t.evidence == (if ev.EvidenceRecorded? then s.evidence[ev.evidence.id := ev.evidence] else s.evidence)
            && t.links == (if ev.EvidenceLinked? then s.links[ev.link.id := ev.link] else s.links)
            && t.resolutions == (if ev.HypothesisResolved? then s.resolutions[ev.resolution.id := ev.resolution]
                                 else s.resolutions)
            && t.contradictions == (if ev.ContradictionDetected?
                                    then s.contradictions[ev.contradiction.id := ev.contradiction]
                                    else s.contradictions)
            && t.commits == (if ev.DeliberationCommitted? then s.commits[ev.commit.id := ev.commit] else s.commits)
  {
  }

  lemma WrittenLives(s: Snapshot, ev: LedgerEvent)
    requires NewEntity(ev) || OnlyNotes(ev)
    ensures var t := Written(s, ev);
            && t.hypotheses == (if ev.HypothesisProposed? then s.hypotheses[ev.hypothesis.id := ev.hypothesis]
                                else s.hypotheses)
            && t.experiments == (if ev.ExperimentPlanned? then s.experiments[ev.experiment.id := ev.experiment]
                                 else s.experiments)
  {
    hide Moved, SetStatus;
  }

  /** Each event that brings an entity files its payload, unchanged, under the payload's id, and
      changes nothing else. */
  lemma NewEntityIsStored(s: Snapshot, env: CaseLedgerEvent)
    requires Effective(s, env)
    ensures var t, u := Step(s, env).value, Counted(s, env.eventId);
            var ev := env.event;
            && (ev.HypothesisProposed? ==> t == u.(hypotheses := s.hypotheses[ev.hypothesis.id := ev.hypothesis]))
            && (ev.PredictionDeclared? ==> t == u.(predictions := s.predictions[ev.prediction.id := ev.prediction]))
            && (ev.ExperimentPlanned? ==> t == u.(experiments := s.experiments[ev.experiment.id := ev.experiment]))
            && (ev.EvidenceRecorded? ==> t == u.(evidence := s.evidence[ev.evidence.id := ev.evidence]))
            && (ev.EvidenceLinked? ==> t == u.(links := s.links[ev.link.id := ev.link]))
            && (ev.ContradictionDetected? ==>
                  t == u.(contradictions := s.contradictions[ev.contradiction.id := ev.contradiction]))
            && (ev.DeliberationCommitted? ==> t == u.(commits := s.commits[ev.commit.id := ev.commit]))
            && (OnlyNotes(ev) ==> t == u)
  {
    RecordedFields(s, env);
    WrittenRecords(s, env.event);
    hide Step, Admits, Written, Effective;
    if NewEntity(env.event) || OnlyNotes(env.event) {
      WrittenLives(s, env.event);
    }
  }

  predicate MovedBy(x: Experiment, y: Experiment, ev: LedgerEvent)
    requires MovesExperiment(ev)
  {
    && y.id == x.id && y.caseId == x.caseId && y.details == x.details
    && y.hypothesisIds == x.hypothesisIds && y.predictionIds == x.predictionIds
    && y.idempotencyKey == x.idempotencyKey
    && y.revision == x.revision + 1
    && y.updatedAt == ev.occurredAt
    && y.taskId == (if ev.ExperimentQueued? then Some(ev.taskId) else x.taskId)
    && y.attempt == (if ev.ExperimentStarted? then ev.attempt else x.attempt)
    && y.evidenceIds == (if ev.ExperimentObserved? then ev.evidenceIds else x.evidenceIds)
    && y.status == match ev
      case ExperimentQueued(_, _, _, _) => Queued
      case ExperimentStarted(_, _, _, _) => Running
      case ExperimentObserved(_, _, _, _) => Observed
      case ExperimentBlocked(_, _, _) => Blocked
      case ExperimentFailed(_, _, _) => ExperimentStatus.Failed
      case ExperimentCancelled(_, _, _) => Cancelled
      case ExperimentExpired(_, _, _) => Expired
  }

  lemma TableIsMoved(s: Snapshot, ev: LedgerEvent)
    requires MovesExperiment(ev) && ev.experimentId in s.experiments
    ensures var id, m := ev.experimentId, ExperimentTable(s, ev);
            id in m && MovedBy(s.experiments[id], m[id], ev) && m == s.experiments[id := m[id]]
  {
  }

  lemma MovedIsStored(s: Snapshot, ev: LedgerEvent)
    requires Admits(s, ev) && MovesExperiment(ev)
    ensures ev.experimentId in s.experiments
    ensures Written(s, ev).experiments == ExperimentTable(s, ev)
    ensures Written(s, ev).hypotheses == s.hypotheses
  {
    hide EvidenceKnown, AllowedMove, Moved;
  }

  /** Each of the seven experiment events rewrites one stored experiment: its status and time are the
      event's, its revision goes up by one; a queued one gets the event's task, a started one the event's
      attempt, an observed one the event's evidence list; everything else stays as it was. */
  lemma ExperimentIsMoved(s: Snapshot, env: CaseLedgerEvent)
    requires Effective(s, env) && MovesExperiment(env.event)
    ensures var t, ev := Step(s, env).value, env.event;
            && ev.experimentId in s.experiments && ev.experimentId in t.experiments
            && var x, y := s.experiments[ev.experimentId], t.experiments[ev.experimentId];
            && t == Counted(s, env.eventId).(experiments := s.experiments[ev.experimentId := y])
            && y.id == x.id && y.caseId == x.caseId && y.details == x.details
            && y.hypothesisIds == x.hypothesisIds && y.predictionIds == x.predictionIds
            && y.idempotencyKey == x.idempotencyKey
            && y.revision == x.revision + 1
            && y.updatedAt == ev.occurredAt
            && y.taskId == (if ev.ExperimentQueued? then Some(ev.taskId) else x.taskId)
            && y.attempt == (if ev.ExperimentStarted? then ev.attempt else x.attempt)
            && y.evidenceIds == (if ev.ExperimentObserved? then ev.evidenceIds else x.evidenceIds)
            && (ev.ExperimentQueued? <==> y.status == Queued)
            && (ev.ExperimentStarted? <==> y.status == Running)
            && (ev.ExperimentObserved? <==> y.status == Observed)
            && (ev.ExperimentBlocked? <==> y.status == Blocked)
            && (ev.ExperimentFailed? <==> y.status == ExperimentStatus.Failed)
            && (ev.ExperimentCancelled? <==> y.status == Cancelled)
            && (ev.ExperimentExpired? <==> y.status == Expired)
  {
    RecordedFields(s, env);
    WrittenRecords(s, env.event);
    MovedIsStored(s, env.event);
    TableIsMoved(s, env.event);
    hide Step, Admits, Effective, Written, ExperimentTable;
  }

  /** A resolution, a reopening and a supersession each rewrite three fields of one hypothesis: its
      revision goes up by one, its time is the event's, its status the one that the event decides.
      Only a resolution is also stored. */
  lemma HypothesisIsChanged(s: Snapshot, env: CaseLedgerEvent)
    requires Effective(s, env) && UpdatesHypothesis(env.event)
    ensures var t, ev, u := Step(s, env).value, env.event, Counted(s, env.eventId);
            var id := if ev.HypothesisResolved? then ev.resolution.hypothesisId else ev.hypothesisId;
            && id in s.hypotheses && id in t.hypotheses
            && var h, g := s.hypotheses[id], t.hypotheses[id];
            && t == u.(hypotheses := s.hypotheses[id := g], resolutions := t.resolutions)
            && t.resolutions == (if ev.HypothesisResolved? then s.resolutions[ev.resolution.id := ev.resolution]
                                 else s.resolutions)
            && g.id == h.id && g.caseId == h.caseId && g.claim == h.claim
            && g.premiseRefs == h.premiseRefs && g.details == h.details
            && g.revision == h.revision + 1
            && g.updatedAt == (if ev.HypothesisResolved? then ev.resolution.createdAt else ev.occurredAt)
            && (ev.HypothesisReopened? ==> g.status == Open)
            && (ev.HypothesisSuperseded? ==> g.status == Superseded)
            && (ev.HypothesisResolved? ==>
                  && (ev.resolution.status == AsConfirmed <==> g.status == Confirmed)
                  && (ev.resolution.status == AsRejected <==> g.status == HypothesisStatus.Rejected)
                  && (ev.resolution.status == AsInconclusive <==> g.status == Inconclusive)
                  && (ev.resolution.status == AsSuperseded <==> g.status == Superseded))
  {
    RecordedFields(s, env);
    hide Step, LinksOwned, Moved;
  }

  /** A repetition changes nothing. */
  lemma RepetitionIsSkipped(s: Snapshot, env: CaseLedgerEvent)
    requires Step(s, env).Ok? && env.eventId in s.appliedEventIds
    ensures Step(s, env).value == s
  {
    StepBookkeeping(s, env);
  }
}
