/** Which events are accepted, and what a refused one is answered with: for each kind of event the
    conditions of the source, spelled out on the state and the envelope. */
module LedgerAcceptance {
  import opened Results
  import opened Text
  import opened LedgerTypes
  import opened LedgerSpec
  import opened LedgerReplay
  import opened LedgerEffects

  /** A new event, of this case, next in the sequence, with the one supported schema. */
  predicate InTurn(s: Snapshot, env: CaseLedgerEvent) {
    && env.caseId == s.caseId && env.eventId !in s.appliedEventIds
    && env.seqNo == s.projectedSeq + 1 && env.schemaVersion == 2
  }

  /** The envelope announces this revision of this aggregate. */
  predicate Announces(env: CaseLedgerEvent, kind: AggregateKind, id: string, revision: nat) {
    env.kind == kind && env.aggregateId == id && env.aggregateRevision == revision
  }

  lemma AcceptedExactlyWhen(s: Snapshot, env: CaseLedgerEvent)
    requires env.eventId !in s.appliedEventIds
    ensures Step(s, env).Ok? <==> InTurn(s, env) && Admits(s, env.event) && Addressed(s, env)
  {
    AcceptanceIsAdmission(s, env);
    hide PayloadVerdict, Recorded, Admits, Address;
  }

  // ---------- New entities ----------

  /** A hypothesis is accepted exactly when it is new, open, at revision 1, with a claim of at most 1000
      characters that are not all whitespace, and rests on stored evidence and resolutions. */
  lemma ProposalAccepted(s: Snapshot, env: CaseLedgerEvent, h: Hypothesis)
    requires env.event == HypothesisProposed(h) && env.eventId !in s.appliedEventIds
    ensures Step(s, env).Ok? <==>
            && InTurn(s, env) && Announces(env, HypothesisKind, h.id, 1)
            && h.caseId == s.caseId && h.revision == 1 && h.status == Open
            && (exists i :: 0 <= i < |h.claim| && !IsWhitespace(h.claim[i])) && |h.claim| <= 1000
            && h.id !in s.hypotheses
            && (forall i :: 0 <= i < |h.premiseRefs| ==>
                  && (h.premiseRefs[i].EvidenceRef? ==> h.premiseRefs[i].evidenceId in s.evidence)
                  && (h.premiseRefs[i].ResolutionRef? ==> h.premiseRefs[i].resolutionId in s.resolutions))
  {
    AcceptedExactlyWhen(s, env);
    var _, _ := TrimMeaning(h.claim);
    hide Step, IsWhitespace, Trim;
    forall i | 0 <= i < |h.premiseRefs|
      ensures KnownRef(s, h.premiseRefs[i]) <==>
              && (h.premiseRefs[i].EvidenceRef? ==> h.premiseRefs[i].evidenceId in s.evidence)
              && (h.premiseRefs[i].ResolutionRef? ==> h.premiseRefs[i].resolutionId in s.resolutions)
    {
    }
    hide KnownRef;
  }

  /** A prediction is accepted exactly when it is new, at revision 1, has a falsifier that is not all
      whitespace, and is about a stored hypothesis. */
  lemma PredictionAccepted(s: Snapshot, env: CaseLedgerEvent, p: Prediction)
    requires env.event == PredictionDeclared(p) && env.eventId !in s.appliedEventIds
    ensures Step(s, env).Ok? <==>
            && InTurn(s, env) && Announces(env, PredictionKind, p.id, 1)
            && p.caseId == s.caseId && p.revision == 1
            && (exists i :: 0 <= i < |p.falsifier| && !IsWhitespace(p.falsifier[i]))
            && p.hypothesisId in s.hypotheses && p.id !in s.predictions
  {
    AcceptedExactlyWhen(s, env);
    var _, _ := TrimMeaning(p.falsifier);
    hide Step, IsWhitespace, Trim;
  }

  /** A plan is accepted exactly when it is new, Planned, at revision 1, has an idempotency key that is not
      all whitespace and that no stored experiment under another id has, tests stored hypotheses, and
      only stored predictions of those. */
  lemma PlanAccepted(s: Snapshot, env: CaseLedgerEvent, x: Experiment)
    requires env.event == ExperimentPlanned(x) && env.eventId !in s.appliedEventIds
    ensures Step(s, env).Ok? <==>
            && InTurn(s, env) && Announces(env, ExperimentKind, x.id, 1)
            && x.caseId == s.caseId && x.revision == 1 && x.status == Planned
            && (exists i :: 0 <= i < |x.idempotencyKey| && !IsWhitespace(x.idempotencyKey[i]))
            && (forall i :: 0 <= i < |x.hypothesisIds| ==> x.hypothesisIds[i] in s.hypotheses)
            && (forall i :: 0 <= i < |x.predictionIds| ==>
                  && x.predictionIds[i] in s.predictions
                  && s.predictions[x.predictionIds[i]].hypothesisId in x.hypothesisIds)
            && (forall y :: y in s.experiments && s.experiments[y].idempotencyKey == x.idempotencyKey ==>
                  s.experiments[y].id == x.id)
            && x.id !in s.experiments
  {
    AcceptedExactlyWhen(s, env);
    var _, _ := TrimMeaning(x.idempotencyKey);
    hide Step, IsWhitespace, Trim;
  }

  /** Evidence is accepted exactly when it is new, its two call ids agree, and it covers predictions of
      the stored experiment it names, or none if it names none. */
  lemma EvidenceAccepted(s: Snapshot, env: CaseLedgerEvent, e: Evidence)
    requires env.event == EvidenceRecorded(e) && env.eventId !in s.appliedEventIds
    ensures Step(s, env).Ok? <==>
            && InTurn(s, env) && Announces(env, EvidenceKind, e.id, 1)
            && e.caseId == s.caseId && e.toolCallId == e.boundCallId && e.id !in s.evidence
            && (e.experimentId.None? ==> e.predictionIds == [])
            && (e.experimentId.Some? ==>
                  && e.experimentId.value in s.experiments
                  && forall i :: 0 <= i < |e.predictionIds| ==>
                       e.predictionIds[i] in s.experiments[e.experimentId.value].predictionIds)
  {
    AcceptedExactlyWhen(s, env);
    hide Step;
  }

  /** A link is accepted exactly when it joins stored evidence to a stored hypothesis, by a prediction of
      that hypothesis which the evidence covers if it names one, no stored link says the same, and its
      rationale has at most 800 characters. Its id may be in use. */
  lemma LinkAccepted(s: Snapshot, env: CaseLedgerEvent, l: EvidenceLink)
    requires env.event == EvidenceLinked(l) && env.eventId !in s.appliedEventIds
    ensures Step(s, env).Ok? <==>
            && InTurn(s, env) && Announces(env, EvidenceLinkKind, l.id, 1)
            && l.caseId == s.caseId && l.evidenceId in s.evidence && l.hypothesisId in s.hypotheses
            && (l.predictionId.Some? ==>
                  && l.predictionId.value in s.predictions
                  && s.predictions[l.predictionId.value].hypothesisId == l.hypothesisId
                  && l.predictionId.value in s.evidence[l.evidenceId].predictionIds)
            && (forall k :: k in s.links ==>
                  || s.links[k].evidenceId != l.evidenceId || s.links[k].hypothesisId != l.hypothesisId
                  || s.links[k].predictionId != l.predictionId || s.links[k].relation != l.relation)
            && |l.rationale| <= 800
  {
    AcceptedExactlyWhen(s, env);
    hide Step;
  }

  /** A commit is accepted exactly when it is new, was made against the current version, and considers
      stored hypotheses and binds stored experiments. */
  lemma CommitAccepted(s: Snapshot, env: CaseLedgerEvent, c: DeliberationCommit)
    requires env.event == DeliberationCommitted(c) && env.eventId !in s.appliedEventIds
    ensures Step(s, env).Ok? <==>
            && InTurn(s, env) && Announces(env, DeliberationKind, c.id, 1)
            && c.caseId == s.caseId && c.ledgerVersion == s.version && c.id !in s.commits
            && (forall i :: 0 <= i < |c.consideredHypothesisIds| ==> c.consideredHypothesisIds[i] in s.hypotheses)
            && (forall i :: 0 <= i < |c.boundExperimentIds| ==> c.boundExperimentIds[i] in s.experiments)
  {
    AcceptedExactlyWhen(s, env);
    hide Step;
  }

  // ---------- About a stored hypothesis ----------

  /** The hypothesis is stored at the revision. */
  predicate Stands(s: Snapshot, id: string, revision: nat) {
    id in s.hypotheses && s.hypotheses[id].revision == revision
  }

  /** Every cited link is stored and is about the hypothesis. */
  predicate CitesOwn(s: Snapshot, linkIds: seq<string>, id: string) {
    forall i :: 0 <= i < |linkIds| ==> linkIds[i] in s.links && s.links[linkIds[i]].hypothesisId == id
  }

  lemma CitesConcat(s: Snapshot, a: seq<string>, b: seq<string>, id: string)
    ensures CitesOwn(s, a + b, id) <==> CitesOwn(s, a, id) && CitesOwn(s, b, id)
  {
    if CitesOwn(s, a + b, id) {
      forall i | 0 <= i < |a| ensures a[i] in s.links && s.links[a[i]].hypothesisId == id {
        assert (a + b)[i] == a[i];
      }
      forall i | 0 <= i < |b| ensures b[i] in s.links && s.links[b[i]].hypothesisId == id {
        assert (a + b)[|a| + i] == b[i];
      }
    }
  }

  /** The notes about a hypothesis are accepted exactly when they name its current revision and, for a
      contradiction, are new and cite only links about it. */
  lemma NoteAccepted(s: Snapshot, env: CaseLedgerEvent, id: string)
    requires env.eventId !in s.appliedEventIds
    requires || env.event == EvidenceLinkRejected(id) || env.event == ResolutionRejected(id)
             || (env.event.ContradictionDetected? && env.event.contradiction.hypothesisId == id)
    ensures Step(s, env).Ok? <==>
            && InTurn(s, env) && id in s.hypotheses
            && Announces(env, HypothesisKind, id, s.hypotheses[id].revision)
            && (env.event.ContradictionDetected? ==>
                  && env.event.contradiction.caseId == s.caseId
                  && CitesOwn(s, env.event.contradiction.evidenceLinkIds, id)
                  && env.event.contradiction.id !in s.contradictions)
  {
    AcceptedExactlyWhen(s, env);
    hide Step;
  }

  /** A request for a resolution is accepted exactly when it names the current revision twice, and cites
      only links about the hypothesis. */
  lemma RequestAccepted(s: Snapshot, env: CaseLedgerEvent, id: string, r: nat, linkIds: seq<string>)
    requires env.event == ResolutionRequested(id, r, linkIds) && env.eventId !in s.appliedEventIds
    ensures Step(s, env).Ok? <==>
            InTurn(s, env) && Stands(s, id, r) && Announces(env, HypothesisKind, id, r) && CitesOwn(s, linkIds, id)
  {
    AcceptedExactlyWhen(s, env);
    hide Step;
  }

  /** A resolution is accepted exactly when it is new, read the current revision of an Open hypothesis,
      announces the next, and all links it cites, as evidence or as open contradictions, are about it. */
  lemma ResolutionAccepted(s: Snapshot, env: CaseLedgerEvent, r: nat, res: Resolution)
    requires env.event == HypothesisResolved(r, res) && env.eventId !in s.appliedEventIds
    ensures Step(s, env).Ok? <==>
            && InTurn(s, env) && res.caseId == s.caseId && Stands(s, res.hypothesisId, r)
            && Announces(env, HypothesisKind, res.hypothesisId, r + 1)
            && s.hypotheses[res.hypothesisId].status == Open
            && CitesOwn(s, res.evidenceLinkIds, res.hypothesisId)
            && CitesOwn(s, res.unresolvedContradictionIds, res.hypothesisId)
            && res.id !in s.resolutions
  {
    AcceptedExactlyWhen(s, env);
    CitesConcat(s, res.evidenceLinkIds, res.unresolvedContradictionIds, res.hypothesisId);
    assert LinksOwned(s, res.evidenceLinkIds + res.unresolvedContradictionIds, res.hypothesisId) <==>
           CitesOwn(s, res.evidenceLinkIds + res.unresolvedContradictionIds, res.hypothesisId);
    hide Step, CitesOwn, LinksOwned;
  }

  /** A reopening is accepted exactly for an Inconclusive hypothesis at the revision it read; a supersession
      for one that is not superseded, by another, stored one. */
  lemma RevisalAccepted(s: Snapshot, env: CaseLedgerEvent, id: string, r: nat)
    requires env.eventId !in s.appliedEventIds && (env.event.HypothesisReopened? || env.event.HypothesisSuperseded?)
    requires env.event.hypothesisId == id && env.event.expectedRevision == r
    ensures Step(s, env).Ok? <==>
            && InTurn(s, env) && Stands(s, id, r) && Announces(env, HypothesisKind, id, r + 1)
            && (env.event.HypothesisReopened? ==> s.hypotheses[id].status == Inconclusive)
            && (env.event.HypothesisSuperseded? ==>
                  && s.hypotheses[id].status != Superseded
                  && env.event.supersededBy != id && env.event.supersededBy in s.hypotheses)
  {
    AcceptedExactlyWhen(s, env);
    hide Step;
  }

  // ---------- About a stored experiment ----------

  /** An experiment is queued exactly when Planned; started, blocked, failed, cancelled or expired when
      Planned, Queued or Running; observed when Running. A start needs a higher attempt than the stored
      one, an observation only stored evidence; and each reads the current revision. */
  lemma MoveAccepted(s: Snapshot, env: CaseLedgerEvent)
    requires MovesExperiment(env.event) && env.eventId !in s.appliedEventIds
    ensures var ev := env.event;
            var id, r := ev.experimentId, ev.expectedRevision;
            Step(s, env).Ok? <==>
            && InTurn(s, env) && id in s.experiments && s.experiments[id].revision == r
            && Announces(env, ExperimentKind, id, r + 1)
            && var x := s.experiments[id];
            && (ev.ExperimentQueued? ==> x.status == Planned)
            && (ev.ExperimentObserved? ==>
                  && x.status == Running
                  && forall i :: 0 <= i < |ev.evidenceIds| ==> ev.evidenceIds[i] in s.evidence)
            && (ev.ExperimentStarted? ==> ev.attempt > x.attempt)
            && (x.status == Planned || x.status == Queued || x.status == Running)
  {
    AcceptedExactlyWhen(s, env);
    hide Step;
  }

  // ---------- What a refusal says ----------

  /** An event that is not in turn is refused, unless it is a repetition, and the first thing wrong with
      its envelope is reported: the case, a known id with a number to come, the number, the schema. */
  lemma EnvelopeRefused(s: Snapshot, env: CaseLedgerEvent)
    requires !InTurn(s, env)
    ensures Step(s, env).Ok? <==> env.caseId == s.caseId && env.eventId in s.appliedEventIds
                                  && env.seqNo <= s.projectedSeq
    ensures Step(s, env).Err? ==>
              Step(s, env).error ==
              if env.caseId != s.caseId then CrossCase(env.eventId, s.caseId, env.caseId)
              else if env.eventId in s.appliedEventIds then InvalidEvent(env.eventId)
              else if env.seqNo != s.projectedSeq + 1
              then SequenceGap(env.eventId, s.projectedSeq + 1, env.seqNo)
              else UnsupportedSchema(env.eventId, 2, env.schemaVersion)
  {
    hide PayloadVerdict, Recorded;
  }

  /** The refusal of an event in turn whose payload needs the aggregate at a revision: the wrong kind comes
      first, then `early` reasons, then a stored revision other than the one that was read, then
      another id or revision than the envelope has to announce, and then everything else. */
  predicate Refusal(
    env: CaseLedgerEvent, e: LedgerError, kind: AggregateKind, early: bool, id: string, stored: nat, read: nat,
    announced: nat)
  {
    e == if env.kind != kind || early then InvalidEvent(env.eventId)
         else if stored != read then RevisionConflict(id, stored, read)
         else if env.aggregateId != id || env.aggregateRevision != announced
         then RevisionConflict(id, announced, env.aggregateRevision)
         else InvalidEvent(env.eventId)
  }

  /** New entities are announced under their own id at revision 1. */
  lemma NewEntityRefused(s: Snapshot, env: CaseLedgerEvent)
    requires InTurn(s, env) && Step(s, env).Err?
    ensures var ev, e := env.event, Step(s, env).error;
            && (ev.HypothesisProposed? ==> Refusal(env, e, HypothesisKind, false, ev.hypothesis.id, 1, 1, 1))
            && (ev.PredictionDeclared? ==> Refusal(env, e, PredictionKind, false, ev.prediction.id, 1, 1, 1))
            && (ev.ExperimentPlanned? ==> Refusal(env, e, ExperimentKind, false, ev.experiment.id, 1, 1, 1))
            && (ev.EvidenceRecorded? ==> Refusal(env, e, EvidenceKind, false, ev.evidence.id, 1, 1, 1))
            && (ev.EvidenceLinked? ==> Refusal(env, e, EvidenceLinkKind, false, ev.link.id, 1, 1, 1))
            && (ev.DeliberationCommitted? ==> Refusal(env, e, DeliberationKind, false, ev.commit.id, 1, 1, 1))
  {
    hide Recorded, AcceptableHypothesis, AcceptablePrediction, AcceptableExperiment, AcceptableEvidence,
      AcceptableLink, AcceptableCommit, TransitionOf, NoteVerdict, UpdateVerdict;
  }

  /** Notes are announced under the current revision of their hypothesis. */
  lemma NoteRefused(s: Snapshot, env: CaseLedgerEvent, id: string)
    requires InTurn(s, env) && Step(s, env).Err?
    requires || env.event == EvidenceLinkRejected(id) || env.event == ResolutionRejected(id)
             || (env.event.ContradictionDetected? && env.event.contradiction.hypothesisId == id)
    ensures var unknown := || id !in s.hypotheses
                           || (env.event.ContradictionDetected? && env.event.contradiction.caseId != s.caseId);
            var current := if id in s.hypotheses then s.hypotheses[id].revision else 0;
            Refusal(env, Step(s, env).error, HypothesisKind, unknown, id, current, current, current)
  {
    hide Recorded, LinksOwned, TransitionOf, NewEntityVerdict, UpdateVerdict;
  }

  /** A request is announced under the revision it read, a change under the one that follows. */
  lemma ChangeRefused(s: Snapshot, env: CaseLedgerEvent, id: string, r: nat)
    requires InTurn(s, env) && Step(s, env).Err?
    requires env.event.ResolutionRequested? || UpdatesHypothesis(env.event)
    requires env.event.expectedRevision == r
    requires id == if env.event.HypothesisResolved? then env.event.resolution.hypothesisId else env.event.hypothesisId
    ensures var ev := env.event;
            var unknown :=
              || id !in s.hypotheses
              || (ev.HypothesisResolved? && ev.resolution.caseId != s.caseId)
              || (ev.HypothesisSuperseded? && (ev.supersededBy == id || ev.supersededBy !in s.hypotheses));
            var current := if id in s.hypotheses then s.hypotheses[id].revision else 0;
            Refusal(env, Step(s, env).error, HypothesisKind, unknown, id, current, r,
                    if ev.ResolutionRequested? then r else r + 1)
  {
    hide Recorded, LinksOwned, TransitionOf, NewEntityVerdict, NoteVerdict;
  }

  /** A move is announced under the revision that follows the one it read. */
  lemma MoveRefused(s: Snapshot, env: CaseLedgerEvent)
    requires InTurn(s, env) && Step(s, env).Err? && MovesExperiment(env.event)
    ensures var id, r := env.event.experimentId, env.event.expectedRevision;
            var current := if id in s.experiments then s.experiments[id].revision else 0;
            Refusal(env, Step(s, env).error, ExperimentKind, id !in s.experiments, id, current, r, r + 1)
  {
    hide Recorded, EvidenceKnown, AllowedMove, NewEntityVerdict, NoteVerdict, UpdateVerdict;
  }

  // ---------- Whole streams ----------

  /** Everything before event `i` is accepted, and it is refused with `e`. */
  predicate RefusedAt(caseId: string, events: seq<CaseLedgerEvent>, i: nat, e: LedgerError)
    requires i < |events|
  {
    Reduce(caseId, events[..i]).Ok? && Step(Reduce(caseId, events[..i]).value, events[i]) == Err(e)
  }

  lemma {:induction false} RefusalExists(caseId: string, events: seq<CaseLedgerEvent>) returns (i: nat)
    requires Reduce(caseId, events).Err?
    ensures i < |events| && RefusedAt(caseId, events, i, Reduce(caseId, events).error)
  {
    hide Step, Fold;
    if events == [] {
      assert Fold(EmptySnapshot(caseId), events).Ok? by { FoldOverCovered(EmptySnapshot(caseId), events); }
    } else {
      var n := |events| - 1;
      assert events[..n + 1] == events && events == events[..n] + [events[n]];
      FoldConcat(EmptySnapshot(caseId), events[..n], [events[n]]);
      if Reduce(caseId, events[..n]).Ok? {
        ReduceOneMore(caseId, events, n);
        i := n;
      } else {
        i := RefusalExists(caseId, events[..n]);
        assert events[..n][..i] == events[..i];
      }
    }
  }

  /** The reducer answers with the refusal of the first event that is refused. */
  lemma FirstRefusalDecides(caseId: string, events: seq<CaseLedgerEvent>, e: LedgerError)
    ensures Reduce(caseId, events) == Err(e) <==> exists i :: 0 <= i < |events| && RefusedAt(caseId, events, i, e)
  {
    hide Step, Fold;
    if Reduce(caseId, events) == Err(e) {
      var i := RefusalExists(caseId, events);
    }
    forall i | 0 <= i < |events| && RefusedAt(caseId, events, i, e) ensures Reduce(caseId, events) == Err(e) {
      ReduceOneMore(caseId, events, i);
    }
  }
}
