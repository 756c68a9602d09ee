/** What holds of every projection that any stream of events can produce. */
module LedgerInvariants {
  import opened Results
  import opened LedgerTypes
  import opened LedgerSpec
  import opened LedgerReplay
  import opened Text

  // ---------- The tables, each by itself ----------

  ghost predicate HypothesesFiled(caseId: string, m: map<string, Hypothesis>) {
    forall k :: k in m ==> m[k].id == k && m[k].caseId == caseId
  }

  ghost predicate PredictionsFiled(caseId: string, m: map<string, Prediction>) {
    forall k :: k in m ==> m[k].id == k && m[k].caseId == caseId
  }

  ghost predicate ExperimentsFiled(caseId: string, m: map<string, Experiment>) {
    forall k :: k in m ==> m[k].id == k && m[k].caseId == caseId
  }

  ghost predicate EvidenceFiled(caseId: string, m: map<string, Evidence>) {
    forall k :: k in m ==> m[k].id == k && m[k].caseId == caseId
  }

  ghost predicate LinksFiled(caseId: string, m: map<string, EvidenceLink>) {
    forall k :: k in m ==> m[k].id == k && m[k].caseId == caseId
  }

  ghost predicate ResolutionsFiled(caseId: string, m: map<string, Resolution>) {
    forall k :: k in m ==> m[k].id == k && m[k].caseId == caseId
  }

  ghost predicate ContradictionsFiled(caseId: string, m: map<string, Contradiction>) {
    forall k :: k in m ==> m[k].id == k && m[k].caseId == caseId
  }

  ghost predicate CommitsFiled(caseId: string, m: map<string, DeliberationCommit>) {
    forall k :: k in m ==> m[k].id == k && m[k].caseId == caseId
  }

  /** Every entity is stored under its own id and carries the projection's case. */
  ghost predicate Filed(s: Snapshot) {
    && HypothesesFiled(s.caseId, s.hypotheses) && PredictionsFiled(s.caseId, s.predictions)
    && ExperimentsFiled(s.caseId, s.experiments) && EvidenceFiled(s.caseId, s.evidence)
    && LinksFiled(s.caseId, s.links) && ResolutionsFiled(s.caseId, s.resolutions)
    && ContradictionsFiled(s.caseId, s.contradictions) && CommitsFiled(s.caseId, s.commits)
  }

  ghost predicate OneMeaningPerLink(m: map<string, EvidenceLink>) {
    forall k, l :: k in m && l in m && SameMeaning(m[k], m[l]) ==> k == l
  }

  ghost predicate OneExperimentPerKey(m: map<string, Experiment>) {
    forall k, l :: k in m && l in m && m[k].idempotencyKey == m[l].idempotencyKey ==> k == l
  }

  /** At most one commit won for each version that was read, and none read the present one. */
  ghost predicate OneCommitPerVersion(version: nat, m: map<string, DeliberationCommit>) {
    && (forall k :: k in m ==> m[k].ledgerVersion < version)
    && (forall k, l :: k in m && l in m && m[k].ledgerVersion == m[l].ledgerVersion ==> k == l)
  }

  // ---------- References between the tables ----------

  ghost predicate AllIn(ids: seq<string>, known: set<string>) {
    forall i :: 0 <= i < |ids| ==> ids[i] in known
  }

  ghost predicate PremisesKnown(m: map<string, Hypothesis>, evidence: set<string>, resolutions: set<string>) {
    forall k :: k in m ==> forall i :: 0 <= i < |m[k].premiseRefs| ==>
      match m[k].premiseRefs[i]
      case EvidenceRef(id) => id in evidence
      case ResolutionRef(id) => id in resolutions
      case UserAssertion(_) => true
  }

  ghost predicate PredictionsGrounded(m: map<string, Prediction>, hypotheses: set<string>) {
    forall k :: k in m ==> m[k].hypothesisId in hypotheses
  }

  ghost predicate PredictionsWithin(
    ids: seq<string>, hypothesisIds: seq<string>, predictions: map<string, Prediction>)
  {
    forall i :: 0 <= i < |ids| ==> ids[i] in predictions && predictions[ids[i]].hypothesisId in hypothesisIds
  }

  ghost predicate ExperimentsGrounded(
    m: map<string, Experiment>, hypotheses: set<string>, predictions: map<string, Prediction>)
  {
    forall k :: k in m ==>
      && AllIn(m[k].hypothesisIds, hypotheses)
      && PredictionsWithin(m[k].predictionIds, m[k].hypothesisIds, predictions)
  }

  /** What an Observed experiment was observed by exists. */
  ghost predicate ObservationsKnown(m: map<string, Experiment>, evidence: set<string>) {
    forall k :: k in m && m[k].status == Observed ==> AllIn(m[k].evidenceIds, evidence)
  }

  ghost predicate EvidenceBound(m: map<string, Evidence>, experiments: map<string, Experiment>) {
    forall k :: k in m ==>
      match m[k].experimentId
      case Some(x) =>
        x in experiments && forall i :: 0 <= i < |m[k].predictionIds| ==>
          m[k].predictionIds[i] in experiments[x].predictionIds
      case None => m[k].predictionIds == []
  }

  ghost predicate LinksGrounded(
    m: map<string, EvidenceLink>, hypotheses: set<string>, predictions: map<string, Prediction>,
    evidence: map<string, Evidence>)
  {
    forall k :: k in m ==>
      && m[k].evidenceId in evidence && m[k].hypothesisId in hypotheses
      && (m[k].predictionId.Some? ==>
            && m[k].predictionId.value in predictions
            && predictions[m[k].predictionId.value].hypothesisId == m[k].hypothesisId
            && m[k].predictionId.value in evidence[m[k].evidenceId].predictionIds)
  }

  function Cited(r: Resolution): seq<string> {
    r.evidenceLinkIds + r.unresolvedContradictionIds
  }

  ghost predicate ResolutionsGrounded(m: map<string, Resolution>, hypotheses: set<string>, links: set<string>) {
    forall k :: k in m ==> m[k].hypothesisId in hypotheses && AllIn(Cited(m[k]), links)
  }

  ghost predicate ContradictionsGrounded(m: map<string, Contradiction>, hypotheses: set<string>, links: set<string>) {
    forall k :: k in m ==> m[k].hypothesisId in hypotheses && AllIn(m[k].evidenceLinkIds, links)
  }

  ghost predicate CommitsGrounded(
    m: map<string, DeliberationCommit>, hypotheses: set<string>, experiments: set<string>)
  {
    forall k :: k in m ==>
      AllIn(m[k].consideredHypothesisIds, hypotheses) && AllIn(m[k].boundExperimentIds, experiments)
  }

  /** No stored entity refers to anything that is not stored. */
  ghost predicate Closed(s: Snapshot) {
    && PremisesKnown(s.hypotheses, s.evidence.Keys, s.resolutions.Keys)
    && PredictionsGrounded(s.predictions, s.hypotheses.Keys)
    && ExperimentsGrounded(s.experiments, s.hypotheses.Keys, s.predictions)
    && ObservationsKnown(s.experiments, s.evidence.Keys)
    && EvidenceBound(s.evidence, s.experiments)
    && LinksGrounded(s.links, s.hypotheses.Keys, s.predictions, s.evidence)
    && ResolutionsGrounded(s.resolutions, s.hypotheses.Keys, s.links.Keys)
    && ContradictionsGrounded(s.contradictions, s.hypotheses.Keys, s.links.Keys)
    && CommitsGrounded(s.commits, s.hypotheses.Keys, s.experiments.Keys)
  }

  ghost predicate TablesSound(s: Snapshot) {
    Filed(s) && Closed(s) && OneMeaningPerLink(s.links) && OneExperimentPerKey(s.experiments)
  }

  ghost predicate Sound(s: Snapshot) {
    && s.version == s.projectedSeq == |s.appliedEventIds|
    && OneCommitPerVersion(s.version, s.commits)
    && TablesSound(s)
  }

  // ---------- Growth: what a step may change ----------

  ghost predicate Extends<V(!new)>(m: map<string, V>, n: map<string, V>) {
    forall k :: k in m ==> k in n && n[k] == m[k]
  }

  /** The same claims; status, revision and update time are free. */
  ghost predicate SameClaims(m: map<string, Hypothesis>, n: map<string, Hypothesis>) {
    forall k :: k in m ==>
      && k in n
      && n[k] == m[k].(status := n[k].status, revision := n[k].revision, updatedAt := n[k].updatedAt)
  }

  /** The same plans; the fields a transition writes are free. */
  ghost predicate SamePlans(m: map<string, Experiment>, n: map<string, Experiment>) {
    forall k :: k in m ==>
      && k in n
      && n[k] == m[k].(status := n[k].status, taskId := n[k].taskId, attempt := n[k].attempt,
                       evidenceIds := n[k].evidenceIds, revision := n[k].revision, updatedAt := n[k].updatedAt)
  }

  /** From `s` to `t` nothing disappears and, links apart, only life-cycle fields change. */
  ghost predicate Grows(s: Snapshot, t: Snapshot) {
    && t.caseId == s.caseId
    && SameClaims(s.hypotheses, t.hypotheses)
    && Extends(s.predictions, t.predictions)
    && SamePlans(s.experiments, t.experiments)
    && Extends(s.evidence, t.evidence)
    && s.links.Keys <= t.links.Keys
    && Extends(s.resolutions, t.resolutions)
    && Extends(s.contradictions, t.contradictions)
    && Extends(s.commits, t.commits)
  }

  lemma GrowsReflexive(s: Snapshot)
    ensures Grows(s, s)
  {
  }

  lemma GrowsTransitive(s: Snapshot, t: Snapshot, u: Snapshot)
    requires Grows(s, t) && Grows(t, u)
    ensures Grows(s, u)
  {
  }

  // ---------- Each kind of write keeps the tables sound ----------

  /** References stay good when there are more hypotheses. */
  lemma MoreHypotheses(s: Snapshot, more: set<string>)
    requires Closed(s) && s.hypotheses.Keys <= more
    ensures PredictionsGrounded(s.predictions, more) && ExperimentsGrounded(s.experiments, more, s.predictions)
    ensures LinksGrounded(s.links, more, s.predictions, s.evidence)
    ensures ResolutionsGrounded(s.resolutions, more, s.links.Keys)
    ensures ContradictionsGrounded(s.contradictions, more, s.links.Keys)
    ensures CommitsGrounded(s.commits, more, s.experiments.Keys)
  {
    hide PremisesKnown, ObservationsKnown, EvidenceBound, PredictionsWithin;
  }

  lemma NewClaimGrounded(s: Snapshot, h: Hypothesis)
    requires HypothesesFiled(s.caseId, s.hypotheses) && AcceptableHypothesis(s, h)
    requires PremisesKnown(s.hypotheses, s.evidence.Keys, s.resolutions.Keys)
    ensures HypothesesFiled(s.caseId, s.hypotheses[h.id := h])
    ensures PremisesKnown(s.hypotheses[h.id := h], s.evidence.Keys, s.resolutions.Keys)
  {
    assert forall i :: 0 <= i < |h.premiseRefs| ==> KnownRef(s, h.premiseRefs[i]);
  }

  lemma ChangedStatusGrounded(s: Snapshot, id: string, status: HypothesisStatus, at: int)
    requires id in s.hypotheses && HypothesesFiled(s.caseId, s.hypotheses)
    requires PremisesKnown(s.hypotheses, s.evidence.Keys, s.resolutions.Keys)
    ensures var m := SetStatus(s, id, status, at);
            && m.Keys == s.hypotheses.Keys && HypothesesFiled(s.caseId, m) && SameClaims(s.hypotheses, m)
            && PremisesKnown(m, s.evidence.Keys, s.resolutions.Keys)
  {
  }

  lemma PutLinkGrounded(s: Snapshot, l: EvidenceLink)
    requires LinksFiled(s.caseId, s.links) && OneMeaningPerLink(s.links) && AcceptableLink(s, l)
    requires LinksGrounded(s.links, s.hypotheses.Keys, s.predictions, s.evidence)
    ensures var m := s.links[l.id := l];
            && LinksFiled(s.caseId, m) && OneMeaningPerLink(m)
            && LinksGrounded(m, s.hypotheses.Keys, s.predictions, s.evidence)
  {
  }

  /** Citations stay good when there are more links. */
  lemma MoreLinks(s: Snapshot, more: set<string>)
    requires ResolutionsGrounded(s.resolutions, s.hypotheses.Keys, s.links.Keys) && s.links.Keys <= more
    requires ContradictionsGrounded(s.contradictions, s.hypotheses.Keys, s.links.Keys)
    ensures ResolutionsGrounded(s.resolutions, s.hypotheses.Keys, more)
    ensures ContradictionsGrounded(s.contradictions, s.hypotheses.Keys, more)
  {
  }

  lemma NewPlanGrounded(s: Snapshot, x: Experiment)
    requires ExperimentsGrounded(s.experiments, s.hypotheses.Keys, s.predictions)
    requires ObservationsKnown(s.experiments, s.evidence.Keys) && OneExperimentPerKey(s.experiments)
    requires ExperimentsFiled(s.caseId, s.experiments) && AcceptableExperiment(s, x)
    ensures var m := s.experiments[x.id := x];
            && ExperimentsFiled(s.caseId, m) && OneExperimentPerKey(m)
            && ExperimentsGrounded(m, s.hypotheses.Keys, s.predictions) && ObservationsKnown(m, s.evidence.Keys)
  {
    assert PredictionsWithin(x.predictionIds, x.hypothesisIds, s.predictions);
    hide PredictionsWithin;
  }

  lemma NewPlanKeepsReferences(s: Snapshot, x: Experiment)
    requires EvidenceBound(s.evidence, s.experiments) && x.id !in s.experiments
    requires CommitsGrounded(s.commits, s.hypotheses.Keys, s.experiments.Keys)
    ensures var m := s.experiments[x.id := x];
            EvidenceBound(s.evidence, m) && CommitsGrounded(s.commits, s.hypotheses.Keys, m.Keys)
  {
  }

  lemma AddHypothesis(s: Snapshot, h: Hypothesis)
    requires TablesSound(s) && AcceptableHypothesis(s, h)
    ensures var t := s.(hypotheses := s.hypotheses[h.id := h]); TablesSound(t) && Grows(s, t)
  {
    var more := s.hypotheses[h.id := h];
    NewClaimGrounded(s, h);
    MoreHypotheses(s, more.Keys);
    hide HypothesesFiled, PredictionsFiled, ExperimentsFiled, EvidenceFiled, LinksFiled, ResolutionsFiled,
      ContradictionsFiled, CommitsFiled, PremisesKnown, PredictionsGrounded, ExperimentsGrounded, ObservationsKnown,
      EvidenceBound, LinksGrounded, ResolutionsGrounded, ContradictionsGrounded, CommitsGrounded, OneMeaningPerLink,
      OneExperimentPerKey;
  }

  lemma AddPrediction(s: Snapshot, p: Prediction)
    requires TablesSound(s) && AcceptablePrediction(s, p)
    ensures var t := s.(predictions := s.predictions[p.id := p]); TablesSound(t) && Grows(s, t)
  {
    hide HypothesesFiled, ExperimentsFiled, EvidenceFiled, LinksFiled, ResolutionsFiled, ContradictionsFiled,
      CommitsFiled, PremisesKnown, ObservationsKnown, EvidenceBound, ResolutionsGrounded,
      ContradictionsGrounded, CommitsGrounded, OneMeaningPerLink, OneExperimentPerKey;
  }

  lemma AddExperiment(s: Snapshot, x: Experiment)
    requires TablesSound(s) && AcceptableExperiment(s, x)
    ensures var t := s.(experiments := s.experiments[x.id := x]); TablesSound(t) && Grows(s, t)
  {
    NewPlanGrounded(s, x);
    NewPlanKeepsReferences(s, x);
    hide HypothesesFiled, PredictionsFiled, ExperimentsFiled, EvidenceFiled, LinksFiled, ResolutionsFiled,
      ContradictionsFiled, CommitsFiled, PremisesKnown, PredictionsGrounded, ExperimentsGrounded, ObservationsKnown,
      EvidenceBound, LinksGrounded, ResolutionsGrounded, ContradictionsGrounded, CommitsGrounded, OneMeaningPerLink,
      OneExperimentPerKey;
  }

  lemma AddEvidence(s: Snapshot, e: Evidence)
    requires TablesSound(s) && AcceptableEvidence(s, e)
    ensures var t := s.(evidence := s.evidence[e.id := e]); TablesSound(t) && Grows(s, t)
  {
    hide HypothesesFiled, PredictionsFiled, ExperimentsFiled, LinksFiled, ResolutionsFiled,
      ContradictionsFiled, CommitsFiled, PredictionsGrounded, ExperimentsGrounded, ResolutionsGrounded,
      ContradictionsGrounded, CommitsGrounded, OneMeaningPerLink, OneExperimentPerKey;
  }

  lemma PutLink(s: Snapshot, l: EvidenceLink)
    requires TablesSound(s) && AcceptableLink(s, l)
    ensures var t := s.(links := s.links[l.id := l]); TablesSound(t) && Grows(s, t)
  {
    PutLinkGrounded(s, l);
    MoreLinks(s, s.links[l.id := l].Keys);
    hide HypothesesFiled, PredictionsFiled, ExperimentsFiled, EvidenceFiled, LinksFiled, ResolutionsFiled,
      ContradictionsFiled, CommitsFiled, PremisesKnown, PredictionsGrounded, ExperimentsGrounded, ObservationsKnown,
      EvidenceBound, LinksGrounded, ResolutionsGrounded, ContradictionsGrounded, CommitsGrounded, OneMeaningPerLink,
      OneExperimentPerKey, AcceptableLink;
  }

  lemma AddCommit(s: Snapshot, c: DeliberationCommit)
    requires TablesSound(s) && AcceptableCommit(s, c)
    ensures var t := s.(commits := s.commits[c.id := c]); TablesSound(t) && Grows(s, t)
  {
  }

  lemma AddContradiction(s: Snapshot, c: Contradiction)
    requires TablesSound(s) && c.caseId == s.caseId && c.id !in s.contradictions
    requires c.hypothesisId in s.hypotheses && LinksOwned(s, c.evidenceLinkIds, c.hypothesisId)
    ensures var t := s.(contradictions := s.contradictions[c.id := c]); TablesSound(t) && Grows(s, t)
  {
  }

  lemma ChangeStatus(s: Snapshot, id: string, status: HypothesisStatus, at: int)
    requires TablesSound(s) && id in s.hypotheses
    ensures var t := s.(hypotheses := SetStatus(s, id, status, at)); TablesSound(t) && Grows(s, t)
  {
    ChangedStatusGrounded(s, id, status, at);
    hide HypothesesFiled, PredictionsFiled, ExperimentsFiled, EvidenceFiled, LinksFiled, ResolutionsFiled,
      ContradictionsFiled, CommitsFiled, PremisesKnown, PredictionsGrounded, ExperimentsGrounded, ObservationsKnown,
      EvidenceBound, LinksGrounded, ResolutionsGrounded, ContradictionsGrounded, CommitsGrounded, OneMeaningPerLink,
      OneExperimentPerKey, SetStatus, SameClaims;
  }

  lemma AddResolution(s: Snapshot, r: Resolution)
    requires TablesSound(s) && r.caseId == s.caseId && r.id !in s.resolutions && r.hypothesisId in s.hypotheses
    requires LinksOwned(s, r.evidenceLinkIds + r.unresolvedContradictionIds, r.hypothesisId)
    ensures var t := s.(resolutions := s.resolutions[r.id := r]); TablesSound(t) && Grows(s, t)
  {
    hide HypothesesFiled, PredictionsFiled, ExperimentsFiled, EvidenceFiled, LinksFiled, ContradictionsFiled,
      CommitsFiled, PredictionsGrounded, ExperimentsGrounded, ObservationsKnown, EvidenceBound, LinksGrounded,
      ContradictionsGrounded, CommitsGrounded, OneMeaningPerLink, OneExperimentPerKey;
  }

  lemma MoveExperiment(s: Snapshot, id: string, m: Transition)
    requires TablesSound(s) && id in s.experiments && EvidenceKnown(s, m)
    requires m.status == Observed ==> m.evidenceIds.Some?
    requires m.evidenceIds.Some? ==> m.status == Observed
    ensures var t := s.(experiments := s.experiments[id := Moved(s.experiments[id], m)]); TablesSound(t) && Grows(s, t)
  {
    hide HypothesesFiled, PredictionsFiled, EvidenceFiled, LinksFiled, ResolutionsFiled, ContradictionsFiled,
      CommitsFiled, PremisesKnown, PredictionsGrounded, LinksGrounded, ResolutionsGrounded,
      ContradictionsGrounded, OneMeaningPerLink;
  }

  // ---------- Every step, every run ----------

  lemma NewEntityKeepsTables(s: Snapshot, ev: LedgerEvent)
    requires TablesSound(s) && Admits(s, ev) && NewEntity(ev)
    ensures TablesSound(Written(s, ev)) && Grows(s, Written(s, ev))
  {
    hide TablesSound, Grows, AcceptableHypothesis, AcceptablePrediction, AcceptableExperiment,
      AcceptableEvidence, AcceptableLink, AcceptableCommit, LinksOwned;
    match ev
    case HypothesisProposed(h) => AddHypothesis(s, h);
    case PredictionDeclared(p) => AddPrediction(s, p);
    case ExperimentPlanned(x) => AddExperiment(s, x);
    case EvidenceRecorded(e) => AddEvidence(s, e);
    case EvidenceLinked(l) => PutLink(s, l);
    case DeliberationCommitted(c) => AddCommit(s, c);
    case ContradictionDetected(c) => AddContradiction(s, c);
  }

  lemma UpdateKeepsTables(s: Snapshot, ev: LedgerEvent)
    requires TablesSound(s) && Admits(s, ev)
    requires ev.HypothesisResolved? || ev.HypothesisReopened? || ev.HypothesisSuperseded? || TransitionOf(ev).Some?
    ensures TablesSound(Written(s, ev)) && Grows(s, Written(s, ev))
  {
    hide TablesSound, Grows, LinksOwned, EvidenceKnown, SetStatus, Moved;
    if TransitionOf(ev).Some? {
      var (id, m) := TransitionOf(ev).value;
      MoveExperiment(s, id, m);
    } else if ev.HypothesisReopened? {
      ChangeStatus(s, ev.hypothesisId, Open, ev.occurredAt);
    } else if ev.HypothesisSuperseded? {
      ChangeStatus(s, ev.hypothesisId, Superseded, ev.occurredAt);
    } else {
      var r := ev.resolution;
      var t := s.(resolutions := s.resolutions[r.id := r]);
      AddResolution(s, r);
      ChangeStatus(t, r.hypothesisId, StatusOf(r.status), r.createdAt);
      SameStatusChange(s, t, r);
      GrowsTransitive(s, t, Written(s, ev));
    }
  }

  lemma SameStatusChange(s: Snapshot, t: Snapshot, r: Resolution)
    requires t.hypotheses == s.hypotheses
    ensures SetStatus(t, r.hypothesisId, StatusOf(r.status), r.createdAt)
         == SetStatus(s, r.hypothesisId, StatusOf(r.status), r.createdAt)
  {
  }

  lemma WrittenKeepsTables(s: Snapshot, ev: LedgerEvent)
    requires TablesSound(s) && Admits(s, ev)
    ensures TablesSound(Written(s, ev)) && Grows(s, Written(s, ev))
  {
    if NewEntity(ev) {
      NewEntityKeepsTables(s, ev);
    } else if ev.EvidenceLinkRejected? || ev.ResolutionRejected? || ev.ResolutionRequested? {
      GrowsReflexive(s);
      assert Written(s, ev) == s;
      hide TablesSound, Grows, Written;
    } else {
      UpdateKeepsTables(s, ev);
      hide TablesSound, Grows, Written, Admits;
    }
  }

  /** An accepted event that is not a repetition is recorded. */
  ghost predicate Effective(s: Snapshot, env: CaseLedgerEvent) {
    Step(s, env).Ok? && !Replayed(s, env)
  }

  lemma EffectiveStep(s: Snapshot, env: CaseLedgerEvent)
    requires Effective(s, env)
    ensures Admits(s, env.event) && Step(s, env) == Ok(Recorded(s, env))
    ensures env.caseId == s.caseId && env.seqNo == s.projectedSeq + 1
  {
    AcceptanceIsAdmission(s, env);
    hide PayloadVerdict, Admits, Recorded;
  }

  lemma RecordedIsSound(s: Snapshot, env: CaseLedgerEvent)
    requires s.version == s.projectedSeq == |s.appliedEventIds| && env.eventId !in s.appliedEventIds
    requires env.seqNo == s.projectedSeq + 1
    requires TablesSound(Written(s, env.event)) && Grows(s, Written(s, env.event))
    requires OneCommitPerVersion(s.version + 1, Written(s, env.event).commits)
    ensures Sound(Recorded(s, env)) && Grows(s, Recorded(s, env))
  {
    hide Written, OneCommitPerVersion, HypothesesFiled, PredictionsFiled, ExperimentsFiled, EvidenceFiled, LinksFiled,
      ResolutionsFiled, ContradictionsFiled, CommitsFiled, PremisesKnown, PredictionsGrounded, ExperimentsGrounded,
      ObservationsKnown, EvidenceBound, LinksGrounded, ResolutionsGrounded, ContradictionsGrounded, CommitsGrounded,
      OneMeaningPerLink, OneExperimentPerKey, SameClaims, SamePlans, Extends;
  }

  lemma StepKeepsSound(s: Snapshot, env: CaseLedgerEvent)
    requires Sound(s) && Step(s, env).Ok?
    ensures Sound(Step(s, env).value) && Grows(s, Step(s, env).value)
  {
    hide TablesSound, Grows, Admits, Written, Step, OneCommitPerVersion, Recorded;
    if Replayed(s, env) {
      StepBookkeeping(s, env);
      GrowsReflexive(s);
    } else {
      EffectiveStep(s, env);
      WrittenKeepsTables(s, env.event);
      WrittenKeepsVersions(s, env.event);
      RecordedIsSound(s, env);
      hide Sound;
    }
  }

  lemma WrittenKeepsVersions(s: Snapshot, ev: LedgerEvent)
    requires OneCommitPerVersion(s.version, s.commits) && Admits(s, ev)
    ensures OneCommitPerVersion(s.version + 1, Written(s, ev).commits)
  {
    hide AcceptableHypothesis, AcceptablePrediction, AcceptableExperiment,
      AcceptableEvidence, AcceptableLink, LinksOwned, EvidenceKnown, SetStatus;
  }

  lemma {:induction false} FoldKeepsSound(s: Snapshot, events: seq<CaseLedgerEvent>)
    requires Sound(s) && Fold(s, events).Ok?
    ensures Sound(Fold(s, events).value) && Grows(s, Fold(s, events).value)
    decreases |events|
  {
    hide Step, Sound, Grows;
    GrowsReflexive(s);
    if events != [] {
      var t := Step(s, events[0]).value;
      StepKeepsSound(s, events[0]);
      FoldKeepsSound(t, events[1..]);
      GrowsTransitive(s, t, Fold(s, events).value);
    }
  }

  lemma EmptyIsSound(caseId: string)
    ensures Sound(EmptySnapshot(caseId))
  {
  }

  /** Every projection the reducer can produce is sound. */
  lemma ReachableIsSound(caseId: string, events: seq<CaseLedgerEvent>)
    requires Reduce(caseId, events).Ok?
    ensures Sound(Reduce(caseId, events).value) && Reduce(caseId, events).value.caseId == caseId
  {
    EmptyIsSound(caseId);
    hide Sound, Fold;
    FoldKeepsSound(EmptySnapshot(caseId), events);
  }

  // ---------- What soundness says ----------

  /** A link that names a prediction rests on evidence of an experiment which tests that very
      prediction of that very hypothesis. */
  lemma EvidenceChain(caseId: string, events: seq<CaseLedgerEvent>, k: string)
    requires Reduce(caseId, events).Ok?
    requires k in Reduce(caseId, events).value.links && Reduce(caseId, events).value.links[k].predictionId.Some?
    ensures var s := Reduce(caseId, events).value;
            var link := s.links[k];
            var p := link.predictionId.value;
            && p in s.predictions && s.predictions[p].hypothesisId == link.hypothesisId
            && link.evidenceId in s.evidence && s.evidence[link.evidenceId].experimentId.Some?
            && var x := s.evidence[link.evidenceId].experimentId.value;
            && x in s.experiments && p in s.experiments[x].predictionIds
            && link.hypothesisId in s.experiments[x].hypothesisIds
            && link.hypothesisId in s.hypotheses
  {
    ReachableIsSound(caseId, events);
    hide Reduce;
    var s := Reduce(caseId, events).value;
    var e := s.links[k].evidenceId;
    assert s.evidence[e].predictionIds != [];
    var x := s.experiments[s.evidence[e].experimentId.value];
    var i :| 0 <= i < |x.predictionIds| && x.predictionIds[i] == s.links[k].predictionId.value;
    assert PredictionsWithin(x.predictionIds, x.hypothesisIds, s.predictions);
  }

  /** Whatever a resolution cites is a link of the case, to evidence of the case. */
  lemma ResolutionsStayInCase(caseId: string, events: seq<CaseLedgerEvent>, r: string, l: string)
    requires Reduce(caseId, events).Ok? && r in Reduce(caseId, events).value.resolutions
    requires l in Cited(Reduce(caseId, events).value.resolutions[r])
    ensures var s := Reduce(caseId, events).value;
            && l in s.links && s.links[l].caseId == caseId
            && s.links[l].evidenceId in s.evidence && s.evidence[s.links[l].evidenceId].caseId == caseId
  {
    ReachableIsSound(caseId, events);
    hide Reduce;
    var s := Reduce(caseId, events).value;
    var i :| 0 <= i < |Cited(s.resolutions[r])| && Cited(s.resolutions[r])[i] == l;
    assert AllIn(Cited(s.resolutions[r]), s.links.Keys);
  }

  /** From any point of an accepted stream on, evidence, resolutions, predictions, contradictions and
      commits are never changed or lost, nor are claims and plans but for their life cycle. */
  lemma RecordsAreKept(caseId: string, events: seq<CaseLedgerEvent>, n: nat)
    requires Reduce(caseId, events).Ok? && n <= |events|
    ensures Reduce(caseId, events[..n]).Ok?
    ensures Grows(Reduce(caseId, events[..n]).value, Reduce(caseId, events).value)
  {
    assert events == events[..n] + events[n..];
    FoldConcat(EmptySnapshot(caseId), events[..n], events[n..]);
    ReachableIsSound(caseId, events[..n]);
    hide Sound, Grows;
    FoldKeepsSound(Reduce(caseId, events[..n]).value, events[n..]);
  }

  /** Observed experiments cite stored evidence; everything stored belongs to the case. */
  lemma ObservedEvidenceExists(caseId: string, events: seq<CaseLedgerEvent>, k: string, i: nat)
    requires Reduce(caseId, events).Ok? && k in Reduce(caseId, events).value.experiments
    requires i < |Reduce(caseId, events).value.experiments[k].evidenceIds|
    ensures var s := Reduce(caseId, events).value;
            var x := s.experiments[k];
            && x.caseId == caseId
            && (x.status == Observed ==>
                  x.evidenceIds[i] in s.evidence && s.evidence[x.evidenceIds[i]].caseId == caseId)
  {
    ReachableIsSound(caseId, events);
  }

  /** Every experiment lists only stored evidence, whatever its status. */
  ghost predicate ListedEvidenceKnown(m: map<string, Experiment>, evidence: set<string>) {
    forall k :: k in m ==> AllIn(m[k].evidenceIds, evidence)
  }

  /** A step keeps all listed evidence stored exactly when it does not plan an experiment that lists
      something unknown: only the plan goes unchecked. */
  lemma ListedEvidenceIsKeptExactlyWhen(s: Snapshot, env: CaseLedgerEvent)
    requires Effective(s, env) && ListedEvidenceKnown(s.experiments, s.evidence.Keys)
    ensures var t := Step(s, env).value;
            ListedEvidenceKnown(t.experiments, t.evidence.Keys) <==>
            (env.event.ExperimentPlanned? ==> AllIn(env.event.experiment.evidenceIds, s.evidence.Keys))
  {
    EffectiveStep(s, env);
    hide Step;
    WrittenListsEvidence(s, env.event);
    var w, t := Written(s, env.event), Step(s, env).value;
    assert t.experiments == w.experiments && t.evidence == w.evidence;
    hide Written, Admits, ListedEvidenceKnown;
  }

  lemma WrittenListsEvidence(s: Snapshot, ev: LedgerEvent)
    requires Admits(s, ev) && ListedEvidenceKnown(s.experiments, s.evidence.Keys)
    ensures var t := Written(s, ev);
            ListedEvidenceKnown(t.experiments, t.evidence.Keys) <==>
            (ev.ExperimentPlanned? ==> AllIn(ev.experiment.evidenceIds, s.evidence.Keys))
  {
    var known := s.evidence.Keys;
    if ev.ExperimentPlanned? {
      PlannedLists(s.experiments, ev.experiment, known);
    } else if TransitionOf(ev).Some? {
      MovedLists(s, ev);
      hide Admits, ListedEvidenceKnown, ExperimentTable, TransitionOf;
    } else {
      hide Admits, TransitionOf, HypothesesAfter;
      MoreKnown(s.experiments, known, Written(s, ev).evidence.Keys);
    }
  }

  lemma PlannedLists(m: map<string, Experiment>, x: Experiment, known: set<string>)
    requires ListedEvidenceKnown(m, known) && x.id !in m
    ensures ListedEvidenceKnown(m[x.id := x], known) <==> AllIn(x.evidenceIds, known)
  {
    var n := m[x.id := x];
    assert n[x.id] == x;
  }

  lemma MovedLists(s: Snapshot, ev: LedgerEvent)
    requires TransitionOf(ev).Some? && Admits(s, ev) && ListedEvidenceKnown(s.experiments, s.evidence.Keys)
    ensures ListedEvidenceKnown(ExperimentTable(s, ev), s.evidence.Keys)
  {
    hide AllowedMove;
    var (id, m) := TransitionOf(ev).value;
    assert EvidenceKnown(s, m);
    assert AllIn(Moved(s.experiments[id], m).evidenceIds, s.evidence.Keys);
  }

  lemma MoreKnown(m: map<string, Experiment>, known: set<string>, more: set<string>)
    requires ListedEvidenceKnown(m, known) && known <= more
    ensures ListedEvidenceKnown(m, more)
  {
  }

  /** The first event of a case may plan an experiment that lists evidence nobody recorded. */
  lemma PlanMayListUnknownEvidence()
    ensures var x := Experiment("x", "c", [], [], "k", "", Planned, None, 9, ["e"], 1, 0);
            var env := CaseLedgerEvent("c", 1, "1", ExperimentKind, "x", 1, 2, ExperimentPlanned(x));
            && Step(EmptySnapshot("c"), env).Ok?
            && Step(EmptySnapshot("c"), env).value.experiments["x"].evidenceIds == ["e"]
            && "e" !in Step(EmptySnapshot("c"), env).value.evidence
  {
    assert Trim("k") == "k";
  }

  /** No two links say the same thing, no two experiments share an idempotency key, and at most one
      deliberation was committed on each version of the ledger. */
  lemma NothingTwice(caseId: string, events: seq<CaseLedgerEvent>, a: string, b: string)
    requires Reduce(caseId, events).Ok? && a != b
    ensures var s := Reduce(caseId, events).value;
            && (a in s.links && b in s.links ==> !SameMeaning(s.links[a], s.links[b]))
            && (a in s.experiments && b in s.experiments ==>
                  s.experiments[a].idempotencyKey != s.experiments[b].idempotencyKey)
            && (a in s.commits && b in s.commits ==>
                  s.commits[a].ledgerVersion != s.commits[b].ledgerVersion)
            && (a in s.commits ==> s.commits[a].ledgerVersion < s.version)
  {
    ReachableIsSound(caseId, events);
  }

  /** The version is the sequence number and counts the distinct events. */
  lemma VersionCountsEvents(caseId: string, events: seq<CaseLedgerEvent>)
    requires Reduce(caseId, events).Ok?
    ensures var s := Reduce(caseId, events).value;
            && s.version == s.projectedSeq == |s.appliedEventIds| <= |events|
            && s.appliedEventIds == EventIds(events)
  {
    ReachableIsSound(caseId, events);
    AppliedIds(EmptySnapshot(caseId), events);
    DistinctIds(events);
  }

  function EventIds(events: seq<CaseLedgerEvent>): set<string> {
    set env | env in events :: env.eventId
  }

  lemma EventIdsCons(events: seq<CaseLedgerEvent>)
    requires events != []
    ensures EventIds(events) == {events[0].eventId} + EventIds(events[1..])
  {
    assert events == [events[0]] + events[1..];
  }

  lemma {:induction false} AppliedIds(s: Snapshot, events: seq<CaseLedgerEvent>)
    requires Fold(s, events).Ok?
    ensures Fold(s, events).value.appliedEventIds == s.appliedEventIds + EventIds(events)
    decreases |events|
  {
    hide Step;
    if events != [] {
      StepBookkeeping(s, events[0]);
      AppliedIds(Step(s, events[0]).value, events[1..]);
      EventIdsCons(events);
    }
  }

  lemma {:induction false} DistinctIds(events: seq<CaseLedgerEvent>)
    ensures |EventIds(events)| <= |events|
    decreases |events|
  {
    if events != [] {
      DistinctIds(events[1..]);
      EventIdsCons(events);
    }
  }
}
