/** The reducer as the program runs it: one projection, updated in place by checks, loops and
    writes in the program's order. Every method is proved against `LedgerSpec`; in particular
    `ApplyLedgerEvent` leaves the projection untouched whenever it reports an error. */
module LedgerStore {
  import opened Results
  import opened LedgerTypes
  import opened LedgerReplay
  import opened LedgerSpec
  import opened Text

  /** The arguments with which each kind of event asks for a transition. */
  method TransitionFor(ev: LedgerEvent) returns (id: string, t: Transition)
    requires TransitionOf(ev).Some?
    ensures TransitionOf(ev) == Some((id, t))
  {
    match ev {
      case ExperimentQueued(x, rev, task, at) =>
        return x, Transition(rev, Queued, at, Some(task), None, None);
      case ExperimentStarted(x, rev, attempt, at) =>
        return x, Transition(rev, Running, at, None, Some(attempt), None);
      case ExperimentObserved(x, rev, ids, at) =>
        return x, Transition(rev, Observed, at, None, None, Some(ids));
      case ExperimentBlocked(x, rev, at) =>
        return x, Transition(rev, Blocked, at, None, None, None);
      case ExperimentFailed(x, rev, at) =>
        return x, Transition(rev, Failed, at, None, None, None);
      case ExperimentCancelled(x, rev, at) =>
        return x, Transition(rev, Cancelled, at, None, None, None);
      case ExperimentExpired(x, rev, at) =>
        return x, Transition(rev, Expired, at, None, None, None);
    }
  }

  /** The fields that a transition sets have the values it gives, and the others are as before. */
  predicate RewrittenBy(x: Experiment, y: Experiment, t: Transition) {
    && y.id == x.id && y.caseId == x.caseId && y.hypothesisIds == x.hypothesisIds
    && y.predictionIds == x.predictionIds && y.idempotencyKey == x.idempotencyKey && y.details == x.details
    && y.status == t.status && y.revision == x.revision + 1 && y.updatedAt == t.occurredAt
    && y.taskId == (if t.taskId.Some? then t.taskId else x.taskId)
    && y.attempt == (if t.attempt.Some? then t.attempt.value else x.attempt)
    && y.evidenceIds == (if t.evidenceIds.Some? then t.evidenceIds.value else x.evidenceIds)
  }

  lemma MovedRewrites(x: Experiment, t: Transition)
    ensures RewrittenBy(x, Moved(x, t), t)
  {
  }

  lemma SameEntry<V>(m: map<string, V>, id: string)
    requires id in m
    ensures m[id := m[id]] == m
  {
  }

  lemma Overwrite<V>(m: map<string, V>, id: string, a: V, b: V)
    ensures m[id := a][id := b] == m[id := b]
  {
  }

  /** Three writes to one entry leave what one write of the last value leaves. */
  lemma LastWriteStays(m: map<string, Hypothesis>, id: string, a: Hypothesis, b: Hypothesis, c: Hypothesis)
    ensures m[id := a][id := b][id := c] == m[id := c]
  {
  }

  class Ledger {
    var caseId: string
    var version: nat
    var projectedSeq: nat
    var hypotheses: map<string, Hypothesis>
    var predictions: map<string, Prediction>
    var experiments: map<string, Experiment>
    var evidence: map<string, Evidence>
    var links: map<string, EvidenceLink>
    var resolutions: map<string, Resolution>
    var contradictions: map<string, Contradiction>
    var commits: map<string, DeliberationCommit>
    var appliedEventIds: set<string>

    ghost function View(): Snapshot
      reads this
    {
      Snapshot(caseId, version, projectedSeq, hypotheses, predictions, experiments, evidence, links,
               resolutions, contradictions, commits, appliedEventIds)
    }

    constructor (caseId: string)
      ensures View() == EmptySnapshot(caseId)
    {
      this.caseId, version, projectedSeq := caseId, 0, 0;
      hypotheses, predictions, experiments, evidence := map[], map[], map[], map[];
      links, resolutions, contradictions, commits := map[], map[], map[], map[];
      appliedEventIds := {};
    }

    /** The checks on an experiment that come before any write. */
    method CheckTransition(env: CaseLedgerEvent, id: string, t: Transition) returns (r: Verdict)
      ensures r == TransitionGate(View(), env, id, t)
    {
      r := RequireKind(env, ExperimentKind);
      if r.Denied? { return; }
      if id !in experiments { return Invalid(env); }
      var x := experiments[id];
      if x.revision != t.expectedRevision {
        return Denied(RevisionConflict(id, x.revision, t.expectedRevision));
      }
      r := RequireRevision(env, id, t.expectedRevision + 1);
      if r.Denied? { return; }
      var allowed :=
        || (x.status == Planned && t.status in {Queued, Running, Blocked, Failed, Cancelled, Expired})
        || (x.status == Queued && t.status in {Running, Blocked, Failed, Cancelled, Expired})
        || (x.status == Running && t.status in {Running, Observed, Blocked, Failed, Cancelled, Expired});
      if !allowed { return Invalid(env); }
      if t.attempt.Some? && t.attempt.value <= x.attempt { return Invalid(env); }
      return Accepted;
    }

    method CheckEvidence(env: CaseLedgerEvent, ids: seq<string>) returns (r: Verdict)
      ensures r == Require(env, AllRecorded(evidence, ids))
    {
      for i := 0 to |ids|
        invariant forall j :: 0 <= j < i ==> ids[j] in evidence
      {
        if ids[i] !in evidence { return Invalid(env); }
      }
      return Accepted;
    }

    /** Moves one experiment. A refusal over unknown evidence comes after the task and attempt
        have been written, so the table is then `ExperimentsAfter`, not the old one. */
    method TransitionExperiment(env: CaseLedgerEvent, id: string, t: Transition) returns (r: Verdict)
      modifies `experiments
      ensures r == TransitionVerdict(old(View()), env, id, t)
      ensures experiments == ExperimentsAfter(old(View()), env, id, t)
      ensures r.Accepted? ==> id in old(experiments) && id in experiments && RewrittenBy(
                old(experiments)[id], experiments[id], t)
      ensures r.Accepted? ==> experiments == old(experiments)[id := experiments[id]]
    {
      TransitionOutcome(View(), env, id, t);
      hide TransitionGate, TransitionVerdict, ExperimentsAfter, AllRecorded;
      r := CheckTransition(env, id, t);
      if r.Denied? { return; }
      ghost var m := experiments;
      ghost var x := m[id];
      ghost var y := x;
      SameEntry(m, id);
      if t.taskId.Some? {
        experiments := experiments[id := experiments[id].(taskId := t.taskId)];
        Overwrite(m, id, y, y.(taskId := t.taskId));
        y := y.(taskId := t.taskId);
      }
      assert experiments == m[id := y];
      if t.attempt.Some? {
        experiments := experiments[id := experiments[id].(attempt := t.attempt.value)];
        Overwrite(m, id, y, y.(attempt := t.attempt.value));
        y := y.(attempt := t.attempt.value);
      }
      assert experiments == m[id := y] && y == Assigned(x, t);
      if t.evidenceIds.Some? {
        r := CheckEvidence(env, t.evidenceIds.value);
        if r.Denied? { return; }
        experiments := experiments[id := experiments[id].(evidenceIds := t.evidenceIds.value)];
        Overwrite(m, id, y, y.(evidenceIds := t.evidenceIds.value));
        y := y.(evidenceIds := t.evidenceIds.value);
      }
      assert experiments == m[id := y];
      ghost var z := y.(status := t.status, revision := y.revision + 1, updatedAt := t.occurredAt);
      assert z == Moved(x, t);
      MovedRewrites(x, t);
      hide Moved, Assigned, RewrittenBy;
      Overwrite(m, id, y, z);
      experiments := experiments[id := experiments[id].(
        status := t.status, revision := experiments[id].revision + 1, updatedAt := t.occurredAt)];
    }

    method ProposeHypothesis(env: CaseLedgerEvent, h: Hypothesis) returns (r: Verdict)
      modifies `hypotheses
      ensures r == NewEntityVerdict(env, HypothesisKind, h.id, AcceptableHypothesis(old(View()), h))
      ensures View() == if r.Accepted? then Written(old(View()), HypothesisProposed(h)) else old(View())
    {
      r := RequireKind(env, HypothesisKind);
      if r.Denied? { return; }
      r := RequireRevision(env, h.id, 1);
      if r.Denied? { return; }
      if h.caseId != caseId { return Invalid(env); }
      if h.revision != 1 || h.status != Open { return Invalid(env); }
      if Trim(h.claim) == "" || |h.claim| > 1000 { return Invalid(env); }
      if h.id in hypotheses { return Invalid(env); }
      for i := 0 to |h.premiseRefs|
        invariant forall j :: 0 <= j < i ==> KnownRef(View(), h.premiseRefs[j])
      {
        match h.premiseRefs[i] {
          case EvidenceRef(id) => if id !in evidence { return Invalid(env); }
          case ResolutionRef(id) => if id !in resolutions { return Invalid(env); }
          case UserAssertion(_) =>
        }
      }
      hypotheses := hypotheses[h.id := h];
      return Accepted;
    }

    method DeclarePrediction(env: CaseLedgerEvent, p: Prediction) returns (r: Verdict)
      modifies `predictions
      ensures r == NewEntityVerdict(env, PredictionKind, p.id, AcceptablePrediction(old(View()), p))
      ensures View() == if r.Accepted? then Written(old(View()), PredictionDeclared(p)) else old(View())
    {
      r := RequireKind(env, PredictionKind);
      if r.Denied? { return; }
      r := RequireRevision(env, p.id, 1);
      if r.Denied? { return; }
      if p.caseId != caseId || p.revision != 1 { return Invalid(env); }
      if Trim(p.falsifier) == "" { return Invalid(env); }
      if p.hypothesisId !in hypotheses { return Invalid(env); }
      if p.id in predictions { return Invalid(env); }
      predictions := predictions[p.id := p];
      return Accepted;
    }

    method PlanExperiment(env: CaseLedgerEvent, x: Experiment) returns (r: Verdict)
      modifies `experiments
      ensures r == NewEntityVerdict(env, ExperimentKind, x.id, AcceptableExperiment(old(View()), x))
      ensures View() == if r.Accepted? then Written(old(View()), ExperimentPlanned(x)) else old(View())
    {
      r := RequireKind(env, ExperimentKind);
      if r.Denied? { return; }
      r := RequireRevision(env, x.id, 1);
      if r.Denied? { return; }
      if x.caseId != caseId || x.revision != 1 || x.status != Planned { return Invalid(env); }
      if Trim(x.idempotencyKey) == "" { return Invalid(env); }
      for i := 0 to |x.hypothesisIds|
        invariant forall j :: 0 <= j < i ==> x.hypothesisIds[j] in hypotheses
      {
        if x.hypothesisIds[i] !in hypotheses { return Invalid(env); }
      }
      for i := 0 to |x.predictionIds|
        invariant forall j :: 0 <= j < i ==> PredictionWithin(View(), x.hypothesisIds, x.predictionIds[j])
      {
        if x.predictionIds[i] !in predictions { return Invalid(env); }
        if predictions[x.predictionIds[i]].hypothesisId !in x.hypothesisIds { return Invalid(env); }
      }
      if exists y :: y in experiments && experiments[y].idempotencyKey == x.idempotencyKey
                     && experiments[y].id != x.id {
        return Invalid(env);
      }
      if x.id in experiments { return Invalid(env); }
      experiments := experiments[x.id := x];
      return Accepted;
    }

    method RecordEvidence(env: CaseLedgerEvent, e: Evidence) returns (r: Verdict)
      modifies `evidence
      ensures r == NewEntityVerdict(env, EvidenceKind, e.id, AcceptableEvidence(old(View()), e))
      ensures View() == if r.Accepted? then Written(old(View()), EvidenceRecorded(e)) else old(View())
    {
      r := RequireKind(env, EvidenceKind);
      if r.Denied? { return; }
      r := RequireRevision(env, e.id, 1);
      if r.Denied? { return; }
      if e.caseId != caseId { return Invalid(env); }
      if e.toolCallId != e.boundCallId { return Invalid(env); }
      if e.experimentId.Some? {
        if e.experimentId.value !in experiments { return Invalid(env); }
        var x := experiments[e.experimentId.value];
        for i := 0 to |e.predictionIds|
          invariant forall j :: 0 <= j < i ==> e.predictionIds[j] in x.predictionIds
        {
          if e.predictionIds[i] !in x.predictionIds { return Invalid(env); }
        }
      } else if e.predictionIds != [] {
        return Invalid(env);
      }
      if e.id in evidence { return Invalid(env); }
      evidence := evidence[e.id := e];
      return Accepted;
    }

    method LinkEvidence(env: CaseLedgerEvent, l: EvidenceLink) returns (r: Verdict)
      modifies `links
      ensures r == NewEntityVerdict(env, EvidenceLinkKind, l.id, AcceptableLink(old(View()), l))
      ensures View() == if r.Accepted? then Written(old(View()), EvidenceLinked(l)) else old(View())
    {
      r := RequireKind(env, EvidenceLinkKind);
      if r.Denied? { return; }
      r := RequireRevision(env, l.id, 1);
      if r.Denied? { return; }
      if l.caseId != caseId { return Invalid(env); }
      if l.evidenceId !in evidence { return Invalid(env); }
      if l.hypothesisId !in hypotheses { return Invalid(env); }
      if l.predictionId.Some? {
        var p := l.predictionId.value;
        if p !in predictions { return Invalid(env); }
        if predictions[p].hypothesisId != l.hypothesisId { return Invalid(env); }
        if p !in evidence[l.evidenceId].predictionIds { return Invalid(env); }
      }
      if exists k :: k in links && SameMeaning(links[k], l) { return Invalid(env); }
      if |l.rationale| > 800 { return Invalid(env); }
      links := links[l.id := l];
      return Accepted;
    }

    /** The walk over cited links that three kinds of event share. */
    method CheckLinks(env: CaseLedgerEvent, ids: seq<string>, hypothesisId: string) returns (r: Verdict)
      ensures r == Require(env, LinksOwned(View(), ids, hypothesisId))
    {
      for i := 0 to |ids|
        invariant LinksOwned(View(), ids[..i], hypothesisId)
      {
        if ids[i] !in links || links[ids[i]].hypothesisId != hypothesisId {
          assert !LinksOwned(View(), ids, hypothesisId);
          return Invalid(env);
        }
        assert ids[..i + 1] == ids[..i] + [ids[i]];
      }
      assert ids[..|ids|] == ids;
      return Accepted;
    }

    method NoteHypothesis(env: CaseLedgerEvent, id: string) returns (r: Verdict)
      ensures r == NoteVerdict(View(), env, true, id, true)
    {
      r := RequireKind(env, HypothesisKind);
      if r.Denied? { return; }
      if id !in hypotheses { return Invalid(env); }
      r := RequireRevision(env, id, hypotheses[id].revision);
    }

    method DetectContradiction(env: CaseLedgerEvent, c: Contradiction) returns (r: Verdict)
      modifies `contradictions
      ensures r == NoteVerdict(old(View()), env, c.caseId == old(caseId), c.hypothesisId,
                               LinksOwned(old(View()), c.evidenceLinkIds, c.hypothesisId)
                               && c.id !in old(contradictions))
      ensures View() == if r.Accepted? then Written(old(View()), ContradictionDetected(c)) else old(View())
    {
      r := RequireKind(env, HypothesisKind);
      if r.Denied? { return; }
      if c.caseId != caseId { return Invalid(env); }
      if c.hypothesisId !in hypotheses { return Invalid(env); }
      r := RequireRevision(env, c.hypothesisId, hypotheses[c.hypothesisId].revision);
      if r.Denied? { return; }
      r := CheckLinks(env, c.evidenceLinkIds, c.hypothesisId);
      if r.Denied? { return; }
      if c.id in contradictions { return Invalid(env); }
      contradictions := contradictions[c.id := c];
      return Accepted;
    }

    method RequestResolution(env: CaseLedgerEvent, id: string, expected: nat, linkIds: seq<string>)
      returns (r: Verdict)
      ensures r == UpdateVerdict(View(), env, true, id, expected, expected, LinksOwned(View(), linkIds, id))
    {
      r := RequireKind(env, HypothesisKind);
      if r.Denied? { return; }
      if id !in hypotheses { return Invalid(env); }
      if hypotheses[id].revision != expected {
        return Denied(RevisionConflict(id, hypotheses[id].revision, expected));
      }
      r := RequireRevision(env, id, expected);
      if r.Denied? { return; }
      r := CheckLinks(env, linkIds, id);
    }

    /** Whether the state takes the resolution; the checks in the program's order. */
    ghost function ResolutionVerdict(env: CaseLedgerEvent, expected: nat, res: Resolution): Verdict
      reads this
    {
      UpdateVerdict(View(), env, res.caseId == caseId, res.hypothesisId, expected, expected + 1,
                    && HasStatus(View(), res.hypothesisId, Open)
                    && LinksOwned(View(), res.evidenceLinkIds + res.unresolvedContradictionIds, res.hypothesisId)
                    && res.id !in resolutions)
    }

    method CheckResolution(env: CaseLedgerEvent, expected: nat, res: Resolution) returns (r: Verdict)
      ensures r == ResolutionVerdict(env, expected, res)
      ensures r.Accepted? ==> res.hypothesisId in hypotheses
    {
      hide LinksOwned;
      var id := res.hypothesisId;
      r := RequireKind(env, HypothesisKind);
      if r.Denied? { return; }
      if res.caseId != caseId { return Invalid(env); }
      if id !in hypotheses { return Invalid(env); }
      if hypotheses[id].revision != expected {
        return Denied(RevisionConflict(id, hypotheses[id].revision, expected));
      }
      r := RequireRevision(env, id, expected + 1);
      if r.Denied? { return; }
      if hypotheses[id].status != Open { return Invalid(env); }
      r := CheckLinks(env, res.evidenceLinkIds + res.unresolvedContradictionIds, id);
      if r.Denied? { return; }
      if res.id in resolutions { return Invalid(env); }
      return Accepted;
    }

    method ResolveHypothesis(env: CaseLedgerEvent, expected: nat, res: Resolution) returns (r: Verdict)
      modifies `hypotheses, `resolutions
      ensures r == old(ResolutionVerdict(env, expected, res))
      ensures View() == if r.Accepted? then Written(old(View()), HypothesisResolved(expected, res))
                        else old(View())
    {
      hide ResolutionVerdict;
      r := CheckResolution(env, expected, res);
      if r.Denied? { return; }
      var id := res.hypothesisId;
      var status := match res.status
        case AsConfirmed => Confirmed
        case AsRejected => HypothesisStatus.Rejected
        case AsInconclusive => Inconclusive
        case AsSuperseded => Superseded;
      ChangeStatus(id, status, res.createdAt);
      resolutions := resolutions[res.id := res];
    }

    /** The three writes that a change of status consists of. */
    method ChangeStatus(id: string, status: HypothesisStatus, at: int)
      requires id in hypotheses
      modifies `hypotheses
      ensures hypotheses == SetStatus(old(View()), id, status, at)
    {
      ghost var h := hypotheses[id];
      ghost var g := h.(status := status, revision := h.revision + 1);
      LastWriteStays(hypotheses, id, h.(status := status), g, g.(updatedAt := at));
      hypotheses := hypotheses[id := hypotheses[id].(status := status)];
      hypotheses := hypotheses[id := hypotheses[id].(revision := hypotheses[id].revision + 1)];
      hypotheses := hypotheses[id := hypotheses[id].(updatedAt := at)];
    }

    method ReopenHypothesis(env: CaseLedgerEvent, id: string, expected: nat, at: int) returns (r: Verdict)
      modifies `hypotheses
      ensures r == UpdateVerdict(old(View()), env, true, id, expected, expected + 1,
                                 HasStatus(old(View()), id, Inconclusive))
      ensures View() == if r.Accepted? then Written(old(View()), HypothesisReopened(id, expected, at))
                        else old(View())
    {
      r := RequireKind(env, HypothesisKind);
      if r.Denied? { return; }
      if id !in hypotheses { return Invalid(env); }
      if hypotheses[id].revision != expected {
        return Denied(RevisionConflict(id, hypotheses[id].revision, expected));
      }
      r := RequireRevision(env, id, expected + 1);
      if r.Denied? { return; }
      if hypotheses[id].status != Inconclusive { return Invalid(env); }
      ChangeStatus(id, Open, at);
      return Accepted;
    }

    method SupersedeHypothesis(env: CaseLedgerEvent, id: string, expected: nat, newer: string, at: int)
      returns (r: Verdict)
      modifies `hypotheses
      ensures r == UpdateVerdict(old(View()), env, id != newer && newer in old(hypotheses), id, expected, expected + 1,
                                 !HasStatus(old(View()), id, Superseded))
      ensures View() == if r.Accepted? then Written(old(View()), HypothesisSuperseded(id, expected, newer, at))
                        else old(View())
    {
      r := RequireKind(env, HypothesisKind);
      if r.Denied? { return; }
      if id == newer || newer !in hypotheses { return Invalid(env); }
      if id !in hypotheses { return Invalid(env); }
      if hypotheses[id].revision != expected {
        return Denied(RevisionConflict(id, hypotheses[id].revision, expected));
      }
      r := RequireRevision(env, id, expected + 1);
      if r.Denied? { return; }
      if hypotheses[id].status == Superseded { return Invalid(env); }
      ChangeStatus(id, Superseded, at);
      return Accepted;
    }

    method CommitDeliberation(env: CaseLedgerEvent, c: DeliberationCommit) returns (r: Verdict)
      modifies `commits
      ensures r == NewEntityVerdict(env, DeliberationKind, c.id, AcceptableCommit(old(View()), c))
      ensures View() == if r.Accepted? then Written(old(View()), DeliberationCommitted(c)) else old(View())
    {
      r := RequireKind(env, DeliberationKind);
      if r.Denied? { return; }
      r := RequireRevision(env, c.id, 1);
      if r.Denied? { return; }
      if c.caseId != caseId { return Invalid(env); }
      if c.ledgerVersion != version { return Invalid(env); }
      for i := 0 to |c.consideredHypothesisIds|
        invariant forall j :: 0 <= j < i ==> c.consideredHypothesisIds[j] in hypotheses
      {
        if c.consideredHypothesisIds[i] !in hypotheses { return Invalid(env); }
      }
      for i := 0 to |c.boundExperimentIds|
        invariant forall j :: 0 <= j < i ==> c.boundExperimentIds[j] in experiments
      {
        if c.boundExperimentIds[i] !in experiments { return Invalid(env); }
      }
      if c.id in commits { return Invalid(env); }
      commits := commits[c.id := c];
      return Accepted;
    }

    /** Events that bring a new entity. */
    method ApplyNewEntity(env: CaseLedgerEvent) returns (r: Verdict)
      requires NewEntity(env.event)
      modifies this
      ensures r == PayloadVerdict(old(View()), env)
      ensures View() == if r.Accepted? then Written(old(View()), env.event) else old(View())
    {
      hide Written, NewEntityVerdict, NoteVerdict;
      match env.event {
        case HypothesisProposed(h) => r := ProposeHypothesis(env, h);
        case PredictionDeclared(p) => r := DeclarePrediction(env, p);
        case ExperimentPlanned(x) => r := PlanExperiment(env, x);
        case EvidenceRecorded(e) => r := RecordEvidence(env, e);
        case EvidenceLinked(l) => r := LinkEvidence(env, l);
        case ContradictionDetected(c) => r := DetectContradiction(env, c);
        case DeliberationCommitted(c) => r := CommitDeliberation(env, c);
      }
    }

    /** Events about a hypothesis that exists. */
    method ApplyToHypothesis(env: CaseLedgerEvent) returns (r: Verdict)
      requires !NewEntity(env.event) && TransitionOf(env.event).None?
      modifies this
      ensures r == PayloadVerdict(old(View()), env)
      ensures View() == if r.Accepted? then Written(old(View()), env.event) else old(View())
    {
      if !UpdatesHypothesis(env.event) {
        NotesWriteNothing(View(), env.event);
      }
      hide Written, NoteVerdict, UpdateVerdict;
      match env.event {
        case EvidenceLinkRejected(h) => r := NoteHypothesis(env, h);
        case ResolutionRejected(h) => r := NoteHypothesis(env, h);
        case ResolutionRequested(h, rev, ids) => r := RequestResolution(env, h, rev, ids);
        case HypothesisResolved(rev, res) => r := ResolveHypothesis(env, rev, res);
        case HypothesisReopened(h, rev, at) => r := ReopenHypothesis(env, h, rev, at);
        case HypothesisSuperseded(h, rev, newer, at) => r := SupersedeHypothesis(env, h, rev, newer, at);
      }
    }

    /** The match over event kinds. */
    method ApplyPayload(env: CaseLedgerEvent) returns (r: Verdict)
      modifies this
      ensures r == PayloadVerdict(old(View()), env)
      ensures View() == if r.Accepted? then Written(old(View()), env.event) else old(View())
    {
      hide PayloadVerdict, Written, TransitionOf;
      if NewEntity(env.event) {
        r := ApplyNewEntity(env);
      } else if TransitionOf(env.event).Some? {
        r := ApplyTransition(env);
      } else {
        r := ApplyToHypothesis(env);
      }
    }

    /** The seven experiment events. None of them supplies evidence together with a task or an
        attempt, so here a refusal writes nothing. */
    method ApplyTransition(env: CaseLedgerEvent) returns (r: Verdict)
      requires TransitionOf(env.event).Some?
      modifies `experiments
      ensures r == PayloadVerdict(old(View()), env)
      ensures View() == if r.Accepted? then Written(old(View()), env.event) else old(View())
    {
      TransitionsAreAtomic(View(), env);
      hide ExperimentsAfter, TransitionVerdict, PayloadVerdict, Written;
      var id, t := TransitionFor(env.event);
      r := TransitionExperiment(env, id, t);
    }

    /** Applies one event, or reports why not and changes nothing. */
    method ApplyLedgerEvent(env: CaseLedgerEvent) returns (r: Verdict)
      modifies this
      ensures r == Judge(old(View()), env)
      ensures r.Accepted? ==> Step(old(View()), env) == Ok(View())
      ensures r.Denied? ==> Step(old(View()), env) == Err(r.error) && View() == old(View())
    {
      WrittenBookkeeping(View(), env.event);
      hide PayloadVerdict, Written;
      if env.caseId != caseId { return Denied(CrossCase(env.eventId, caseId, env.caseId)); }
      if env.eventId in appliedEventIds {
        if env.seqNo <= projectedSeq { return Accepted; }
        return Invalid(env);
      }
      if env.seqNo != projectedSeq + 1 { return Denied(SequenceGap(env.eventId, projectedSeq + 1, env.seqNo)); }
      if env.schemaVersion != SCHEMA_VERSION {
        return Denied(UnsupportedSchema(env.eventId, SCHEMA_VERSION, env.schemaVersion));
      }
      r := ApplyPayload(env);
      if r.Denied? { return; }
      projectedSeq := env.seqNo;
      version := env.seqNo;
      appliedEventIds := appliedEventIds + {env.eventId};
    }
  }

  /** Projects a whole stream, or reports the first error in it. */
  method ReduceLedgerEvents(caseId: string, events: seq<CaseLedgerEvent>)
    returns (r: Result<Snapshot, LedgerError>)
    ensures r == Reduce(caseId, events)
  {
    var ledger := new Ledger(caseId);
    assert Reduce(caseId, events[..0]) == Ok(EmptySnapshot(caseId));
    hide Reduce, Step, Judge;
    for i := 0 to |events|
      invariant fresh(ledger)
      invariant Reduce(caseId, events[..i]) == Ok(ledger.View())
    {
      ReduceOneMore(caseId, events, i);
      var verdict := ledger.ApplyLedgerEvent(events[i]);
      if verdict.Denied? { return Err(verdict.error); }
    }
    assert events[..|events|] == events;
    return Ok(Snapshot(ledger.caseId, ledger.version, ledger.projectedSeq, ledger.hypotheses, ledger.predictions,
                       ledger.experiments, ledger.evidence, ledger.links, ledger.resolutions,
                       ledger.contradictions, ledger.commits, ledger.appliedEventIds));
  }
}
