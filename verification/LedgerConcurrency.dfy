/** Optimistic concurrency, fencing and termination over whole runs. */
module LedgerConcurrency {
  import opened Results
  import opened LedgerTypes
  import opened LedgerSpec
  import opened LedgerReplay
  import opened LedgerInvariants

  // ---------- How one aggregate may change ----------

  predicate Terminal(status: ExperimentStatus) {
    status != Planned && status != Queued && status != Running
  }

  /** An upper bound on the transitions an experiment has left. */
  function Budget(x: Experiment): nat {
    match x.status
    case Planned => MAX_ATTEMPT - x.attempt + 2
    case Queued => MAX_ATTEMPT - x.attempt + 1
    case Running => MAX_ATTEMPT - x.attempt + 1
    case _ => 0
  }

  function StageRank(status: ExperimentStatus): nat {
    match status
    case Planned => 3
    case Queued => 2
    case Running => 1
    case _ => 0
  }

  predicate Launched(status: ExperimentStatus) {
    status == Running || status == Observed
  }

  ghost predicate HypothesisAdvances(h: Hypothesis, g: Hypothesis) {
    && h.revision <= g.revision
    && (h.revision == g.revision || h.status == Superseded ==> g == h)
  }

  ghost predicate ExperimentAdvances(x: Experiment, y: Experiment) {
    && x.revision <= y.revision && x.attempt <= y.attempt
    && (x.revision == y.revision || Terminal(x.status) ==> y == x)
    && y.revision + Budget(y) <= x.revision + Budget(x)
    && (Launched(y.status) && !Launched(x.status) ==> x.attempt < y.attempt)
  }

  ghost predicate HypothesesAdvance(m: map<string, Hypothesis>, n: map<string, Hypothesis>) {
    forall k :: k in m ==> k in n && HypothesisAdvances(m[k], n[k])
  }

  ghost predicate ExperimentsAdvance(m: map<string, Experiment>, n: map<string, Experiment>) {
    forall k :: k in m ==> k in n && ExperimentAdvances(m[k], n[k])
  }

  ghost predicate Advances(s: Snapshot, t: Snapshot) {
    HypothesesAdvance(s.hypotheses, t.hypotheses) && ExperimentsAdvance(s.experiments, t.experiments)
  }

  /** Each accepted transition lowers the stage, or keeps it and raises the attempt; either way it
      uses up at least one unit of the budget. */
  lemma MoveSpendsBudget(s: Snapshot, id: string, m: Transition)
    requires MayMove(s, id, m)
    requires m.status == Running ==> m.attempt.Some?
    ensures var x := s.experiments[id];
            var y := Moved(x, m);
            || StageRank(y.status) < StageRank(x.status)
            || (StageRank(y.status) == StageRank(x.status) && MAX_ATTEMPT - y.attempt < MAX_ATTEMPT - x.attempt)
    ensures Budget(Moved(s.experiments[id], m)) < Budget(s.experiments[id])
    ensures ExperimentAdvances(s.experiments[id], Moved(s.experiments[id], m))
  {
  }

  lemma HypothesesAfterAdvance(s: Snapshot, ev: LedgerEvent)
    requires Admits(s, ev)
    ensures HypothesesAdvance(s.hypotheses, HypothesesAfter(s, ev))
  {
    hide AcceptablePrediction, AcceptableExperiment, AcceptableEvidence, AcceptableLink, AcceptableCommit,
      LinksOwned, MayMove, TransitionOf;
  }

  lemma ExperimentTableAdvances(s: Snapshot, ev: LedgerEvent)
    requires Admits(s, ev)
    ensures ExperimentsAdvance(s.experiments, ExperimentTable(s, ev))
  {
    hide AcceptableHypothesis, AcceptablePrediction, AcceptableEvidence, AcceptableLink, AcceptableCommit,
      LinksOwned, MayMove, Moved, ExperimentAdvances, Budget;
    forall x: Experiment ensures ExperimentAdvances(x, x) { AdvanceReflexive(x); }
    if TransitionOf(ev).Some? {
      var (id, m) := TransitionOf(ev).value;
      MoveSpendsBudget(s, id, m);
    }
  }

  lemma WrittenAdvances(s: Snapshot, ev: LedgerEvent)
    requires Admits(s, ev)
    ensures Advances(s, Written(s, ev))
  {
    HypothesesAfterAdvance(s, ev);
    ExperimentTableAdvances(s, ev);
    hide Admits, HypothesesAfter, ExperimentTable, HypothesesAdvance, ExperimentsAdvance;
  }

  lemma AdvanceReflexive(x: Experiment)
    ensures ExperimentAdvances(x, x)
  {
  }

  lemma StepAdvances(s: Snapshot, env: CaseLedgerEvent)
    requires Step(s, env).Ok?
    ensures Advances(s, Step(s, env).value)
  {
    if Replayed(s, env) {
      StepBookkeeping(s, env);
    } else {
      EffectiveStep(s, env);
      hide Step, Admits, Written;
      WrittenAdvances(s, env.event);
    }
  }

  lemma {:induction false} FoldAdvances(s: Snapshot, events: seq<CaseLedgerEvent>)
    requires Fold(s, events).Ok?
    ensures Advances(s, Fold(s, events).value)
    decreases |events|
  {
    hide Step;
    if events != [] {
      StepAdvances(s, events[0]);
      FoldAdvances(Step(s, events[0]).value, events[1..]);
    }
  }

  // ---------- Positions in a run ----------

  /** No earlier event of the stream has the id of event `i`. */
  predicate FirstDelivery(events: seq<CaseLedgerEvent>, i: nat)
    requires i < |events|
  {
    forall k :: 0 <= k < i ==> events[k].eventId != events[i].eventId
  }

  /** The projection before event `i` of an accepted stream. */
  ghost function Before(caseId: string, events: seq<CaseLedgerEvent>, i: nat): Snapshot
    requires i <= |events| && Reduce(caseId, events[..i]).Ok?
  {
    Reduce(caseId, events[..i]).value
  }

  lemma RunSplits(caseId: string, events: seq<CaseLedgerEvent>, i: nat)
    requires i <= |events| && Reduce(caseId, events).Ok?
    ensures Reduce(caseId, events[..i]).Ok?
    ensures Fold(Before(caseId, events, i), events[i..]) == Reduce(caseId, events)
  {
    assert events == events[..i] + events[i..];
    FoldConcat(EmptySnapshot(caseId), events[..i], events[i..]);
  }

  lemma FirstDeliveryIsEffective(caseId: string, events: seq<CaseLedgerEvent>, i: nat)
    requires i < |events| && Reduce(caseId, events).Ok? && FirstDelivery(events, i)
    ensures Reduce(caseId, events[..i]).Ok? && Reduce(caseId, events[..i + 1]).Ok?
    ensures Effective(Before(caseId, events, i), events[i])
    ensures Step(Before(caseId, events, i), events[i]) == Ok(Before(caseId, events, i + 1))
  {
    hide Step, Fold;
    RunSplits(caseId, events, i);
    RunSplits(caseId, events, i + 1);
    assert events[..i + 1] == events[..i] + [events[i]];
    FoldConcat(EmptySnapshot(caseId), events[..i], [events[i]]);
    OneEvent(Before(caseId, events, i), events[i]);
    AppliedIds(EmptySnapshot(caseId), events[..i]);
  }

  lemma RunAdvances(caseId: string, events: seq<CaseLedgerEvent>, i: nat, j: nat)
    requires i <= j <= |events| && Reduce(caseId, events).Ok?
    ensures Reduce(caseId, events[..i]).Ok? && Reduce(caseId, events[..j]).Ok?
    ensures Advances(Before(caseId, events, i), Before(caseId, events, j))
  {
    RunSplits(caseId, events, j);
    assert events[..j][..i] == events[..i];
    RunSplits(caseId, events[..j], i);
    FoldAdvances(Before(caseId, events, i), events[..j][i..]);
  }

  // ---------- One winner per revision ----------

  /** The aggregate whose revision the event raises, and the revision it was based on. */
  function Claims(ev: LedgerEvent): Option<(AggregateKind, string, nat)> {
    match ev
    case HypothesisResolved(r, res) => Some((HypothesisKind, res.hypothesisId, r))
    case HypothesisReopened(h, r, _) => Some((HypothesisKind, h, r))
    case HypothesisSuperseded(h, r, _, _) => Some((HypothesisKind, h, r))
    case _ =>
      match TransitionOf(ev)
      case Some(t) => Some((ExperimentKind, t.0, t.1.expectedRevision))
      case None => None
  }

  function RevisionOf(s: Snapshot, kind: AggregateKind, id: string): nat {
    if kind == HypothesisKind && id in s.hypotheses then s.hypotheses[id].revision
    else if kind == ExperimentKind && id in s.experiments then s.experiments[id].revision
    else 0
  }

  lemma ClaimIsSpent(s: Snapshot, ev: LedgerEvent)
    requires Admits(s, ev) && Claims(ev).Some?
    ensures var (kind, id, r) := Claims(ev).value;
            RevisionOf(s, kind, id) == r && RevisionOf(Written(s, ev), kind, id) == r + 1
  {
    hide AcceptableHypothesis, AcceptablePrediction, AcceptableExperiment, AcceptableEvidence, AcceptableLink,
      AcceptableCommit, LinksOwned, EvidenceKnown;
  }

  /** Of all events based on one revision of one hypothesis or experiment, at most one is ever
      accepted, whatever comes between and however often events are delivered again. */
  lemma OneWinnerPerRevision(caseId: string, events: seq<CaseLedgerEvent>, i: nat, j: nat)
    requires Reduce(caseId, events).Ok? && i < j < |events|
    requires FirstDelivery(events, i) && FirstDelivery(events, j)
    ensures Claims(events[i].event) == Claims(events[j].event) ==> Claims(events[i].event).None?
  {
    hide Reduce;
    FirstDeliveryIsEffective(caseId, events, i);
    FirstDeliveryIsEffective(caseId, events, j);
    RunAdvances(caseId, events, i + 1, j);
    var s, t, u := Before(caseId, events, i), Before(caseId, events, i + 1), Before(caseId, events, j);
    if Claims(events[i].event) == Claims(events[j].event) && Claims(events[i].event).Some? {
      EffectiveStep(s, events[i]);
      EffectiveStep(u, events[j]);
      hide Step, Written, Admits, HypothesisAdvances, Before, TransitionOf;
      ClaimIsSpent(s, events[i].event);
      ClaimIsSpent(u, events[j].event);
      var (kind, id, r) := Claims(events[i].event).value;
      assert RevisionOf(t, kind, id) <= RevisionOf(u, kind, id) by { RevisionsRise(t, u, kind, id); }
    }
  }

  lemma RevisionsRise(s: Snapshot, t: Snapshot, kind: AggregateKind, id: string)
    requires Advances(s, t)
    ensures RevisionOf(s, kind, id) <= RevisionOf(t, kind, id)
  {
  }

  // ---------- Fencing and termination ----------

  /** Two starts of one experiment carry strictly increasing attempts, and each exceeds the plan's. */
  lemma AttemptsIncrease(caseId: string, events: seq<CaseLedgerEvent>, i: nat, j: nat)
    requires Reduce(caseId, events).Ok? && i < j < |events|
    requires FirstDelivery(events, i) && FirstDelivery(events, j)
    requires events[j].event.ExperimentStarted?
    requires || (events[i].event.ExperimentStarted? && events[i].event.experimentId == events[j].event.experimentId)
             || (events[i].event.ExperimentPlanned? && events[i].event.experiment.id == events[j].event.experimentId)
    ensures (if events[i].event.ExperimentStarted? then events[i].event.attempt else events[i].event.experiment.attempt)
            < events[j].event.attempt
  {
    hide Reduce;
    FirstDeliveryIsEffective(caseId, events, i);
    FirstDeliveryIsEffective(caseId, events, j);
    RunAdvances(caseId, events, i + 1, j);
    EffectiveStep(Before(caseId, events, i), events[i]);
    EffectiveStep(Before(caseId, events, j), events[j]);
    hide Step, Before, Budget, AcceptableExperiment;
  }

  /** How many of the events move experiment `id` when the stream is applied to `s`. */
  ghost function Moves(s: Snapshot, events: seq<CaseLedgerEvent>, id: string): nat
    requires Fold(s, events).Ok?
    decreases |events|
  {
    if events == [] then 0 else
    var rest := Moves(Step(s, events[0]).value, events[1..], id);
    if Effective(s, events[0]) && IsMoveOf(events[0].event, id) then 1 + rest else rest
  }

  predicate IsMoveOf(ev: LedgerEvent, id: string) {
    TransitionOf(ev).Some? && TransitionOf(ev).value.0 == id
  }

  lemma OnlyStartsSetAttempts(ev: LedgerEvent)
    requires TransitionOf(ev).Some?
    ensures var (id, m) := TransitionOf(ev).value;
            m.attempt.Some? ==> ev.ExperimentStarted? && ev.experimentId == id && m.attempt == Some(ev.attempt)
  {
  }

  lemma TableCountsMove(s: Snapshot, ev: LedgerEvent, id: string)
    requires id in s.experiments && (ev.ExperimentPlanned? ==> ev.experiment.id !in s.experiments)
    ensures var m := ExperimentTable(s, ev);
            && id in m
            && m[id].revision == s.experiments[id].revision + (if IsMoveOf(ev, id) then 1 else 0)
            && (m[id].attempt == s.experiments[id].attempt
                || (ev.ExperimentStarted? && ev.experimentId == id && ev.attempt == m[id].attempt))
  {
    if TransitionOf(ev).Some? {
      OnlyStartsSetAttempts(ev);
    }
    hide TransitionOf;
  }

  lemma WrittenCountsMove(s: Snapshot, ev: LedgerEvent, id: string)
    requires Admits(s, ev) && id in s.experiments
    ensures var t := Written(s, ev);
            && id in t.experiments
            && t.experiments[id].revision == s.experiments[id].revision + (if IsMoveOf(ev, id) then 1 else 0)
            && (t.experiments[id].attempt == s.experiments[id].attempt
                || (ev.ExperimentStarted? && ev.experimentId == id && ev.attempt == t.experiments[id].attempt))
  {
    assert ev.ExperimentPlanned? ==> ev.experiment.id !in s.experiments;
    hide Admits;
    TableCountsMove(s, ev, id);
    assert Written(s, ev).experiments == ExperimentTable(s, ev);
    hide Written, ExperimentTable, IsMoveOf;
  }

  lemma StepCountsMove(s: Snapshot, env: CaseLedgerEvent, id: string)
    requires Step(s, env).Ok? && id in s.experiments
    ensures var t := Step(s, env).value;
            && id in t.experiments
            && t.experiments[id].revision ==
               s.experiments[id].revision + (if Effective(s, env) && IsMoveOf(env.event, id) then 1 else 0)
            && (t.experiments[id].attempt == s.experiments[id].attempt
                || (env.event.ExperimentStarted? && env.event.experimentId == id
                    && env.event.attempt == t.experiments[id].attempt))
  {
    if Replayed(s, env) {
      StepBookkeeping(s, env);
    } else {
      EffectiveStep(s, env);
      hide Step, Admits, Written;
      WrittenCountsMove(s, env.event, id);
    }
  }

  lemma {:induction false} RevisionCountsMoves(s: Snapshot, events: seq<CaseLedgerEvent>, id: string)
    requires Fold(s, events).Ok? && id in s.experiments
    ensures var t := Fold(s, events).value;
            && id in t.experiments
            && t.experiments[id].revision == s.experiments[id].revision + Moves(s, events, id)
            && (t.experiments[id].attempt == s.experiments[id].attempt
                || exists i :: 0 <= i < |events| && events[i].event.ExperimentStarted?
                     && events[i].event.experimentId == id && events[i].event.attempt == t.experiments[id].attempt)
    decreases |events|
  {
    hide Step;
    if events != [] {
      StepCountsMove(s, events[0], id);
      RevisionCountsMoves(Step(s, events[0]).value, events[1..], id);
      assert forall i :: 1 <= i < |events| ==> events[i] == events[1..][i - 1];
    }
  }

  /** An experiment planned with attempt `a` moves at most `MAX_ATTEMPT - a + 2` times, whatever
      happens; once it is terminal it never changes again; and if it is ever Observed, it was
      started with a higher attempt on the way. */
  lemma ExperimentsTerminate(s: Snapshot, events: seq<CaseLedgerEvent>, id: string)
    requires Fold(s, events).Ok? && id in s.experiments
    ensures var x := s.experiments[id];
            && id in Fold(s, events).value.experiments
            && var y := Fold(s, events).value.experiments[id];
            && Moves(s, events, id) <= Budget(x)
            && (x.status == Planned ==> Moves(s, events, id) <= MAX_ATTEMPT - x.attempt + 2)
            && (Terminal(x.status) ==> y == x)
            && (x.status == Planned && y.status == Observed ==>
                  exists i :: 0 <= i < |events| && events[i].event.ExperimentStarted?
                    && events[i].event.experimentId == id && events[i].event.attempt > x.attempt)
  {
    FoldAdvances(s, events);
    hide Fold, Step;
    RevisionCountsMoves(s, events, id);
  }

  /** An experiment that was not started yet can be started exactly when its attempt is not the last
      one already; a plan may set any attempt. */
  lemma StartableExactlyWhen(s: Snapshot, id: string, eventId: string, at: int)
    requires id in s.experiments && s.experiments[id].status in {Planned, Queued}
    requires eventId !in s.appliedEventIds
    ensures var r := s.experiments[id].revision;
            var env := CaseLedgerEvent(s.caseId, s.projectedSeq + 1, eventId, ExperimentKind, id, r + 1,
                                       SCHEMA_VERSION, ExperimentStarted(id, r, MAX_ATTEMPT, at));
            Step(s, env).Ok? <==> s.experiments[id].attempt < MAX_ATTEMPT
  {
    var r := s.experiments[id].revision;
    var ev := ExperimentStarted(id, r, MAX_ATTEMPT, at);
    var env := CaseLedgerEvent(s.caseId, s.projectedSeq + 1, eventId, ExperimentKind, id, r + 1, SCHEMA_VERSION, ev);
    AcceptanceIsAdmission(s, env);
    assert Admits(s, ev) <==> s.experiments[id].attempt < MAX_ATTEMPT;
    hide PayloadVerdict, Recorded, Admits;
  }

  /** With the last attempt planned, it is never started nor observed. */
  lemma SpentAttemptsNeverLaunch(s: Snapshot, events: seq<CaseLedgerEvent>, id: string)
    requires Fold(s, events).Ok? && id in s.experiments
    requires !Launched(s.experiments[id].status) && s.experiments[id].attempt == MAX_ATTEMPT
    ensures id in Fold(s, events).value.experiments && !Launched(Fold(s, events).value.experiments[id].status)
  {
    FoldAdvances(s, events);
    hide Fold;
  }

  /** A superseded hypothesis is never touched again. */
  lemma SupersededIsFinal(s: Snapshot, events: seq<CaseLedgerEvent>, id: string)
    requires Fold(s, events).Ok? && HasStatus(s, id, Superseded)
    ensures id in Fold(s, events).value.hypotheses && Fold(s, events).value.hypotheses[id] == s.hypotheses[id]
  {
    FoldAdvances(s, events);
  }

  /** Whatever `TransitionExperiment` refuses, it has changed the table exactly when it was handed
      unknown evidence together with a task or an attempt that differs from the stored one; and then
      the stored experiment has that task and that attempt, and is otherwise as it was. */
  lemma RefusalLeaksExactlyWhen(s: Snapshot, env: CaseLedgerEvent, id: string, t: Transition)
    requires TransitionVerdict(s, env, id, t).Denied?
    ensures ExperimentsAfter(s, env, id, t) != s.experiments <==>
            && TransitionGate(s, env, id, t).Accepted? && !EvidenceKnown(s, t)
            && ((t.taskId.Some? && t.taskId != s.experiments[id].taskId) || t.attempt.Some?)
    ensures ExperimentsAfter(s, env, id, t) != s.experiments ==>
              && id in s.experiments
              && var x := s.experiments[id];
              ExperimentsAfter(s, env, id, t) == s.experiments[id := x.(
                taskId := if t.taskId.Some? then t.taskId else x.taskId,
                attempt := if t.attempt.Some? then t.attempt.value else x.attempt)]
  {
    if TransitionGate(s, env, id, t).Accepted? {
      var x := s.experiments[id];
      assert ExperimentsAfter(s, env, id, t)[id] == Assigned(x, t);
      if Assigned(x, t) == x {
        assert s.experiments[id := x] == s.experiments;
      }
    }
  }

  /** A running experiment, and a refused transition that raises its attempt all the same. */
  lemma RefusalCanLeak()
    ensures var x := Experiment("x", "c", [], [], "k", "", Running, None, 0, [], 1, 0);
            var s := EmptySnapshot("c").(experiments := map["x" := x]);
            var t := Transition(1, Observed, 0, None, Some(7), Some(["e"]));
            var env := CaseLedgerEvent("c", 1, "1", ExperimentKind, "x", 2, 2, ExperimentObserved("x", 1, ["e"], 0));
            && TransitionVerdict(s, env, "x", t) == Invalid(env)
            && ExperimentsAfter(s, env, "x", t)["x"].attempt == 7
  {
    var t := Transition(1, Observed, 0, None, Some(7), Some(["e"]));
    assert !EvidenceKnown(EmptySnapshot("c"), t) by { assert t.evidenceIds.value[0] == "e"; }
  }

  /** The reducer never builds such a transition. */
  lemma ReducerNeverLeaks(s: Snapshot, env: CaseLedgerEvent)
    requires TransitionOf(env.event).Some? && PayloadVerdict(s, env).Denied?
    ensures var (id, t) := TransitionOf(env.event).value;
            ExperimentsAfter(s, env, id, t) == s.experiments
  {
    var (id, t) := TransitionOf(env.event).value;
    RefusalLeaksExactlyWhen(s, env, id, t);
  }

  // ---------- Revisions stay below the version ----------

  /** No revision exceeds the number of events; while that fits into 64 bits, so do all revisions. */
  ghost predicate RevisionsBounded(
    hypotheses: map<string, Hypothesis>, experiments: map<string, Experiment>, version: nat)
  {
    && (forall k :: k in hypotheses ==> 1 <= hypotheses[k].revision <= version)
    && (forall k :: k in experiments ==> 1 <= experiments[k].revision <= version)
  }

  lemma HypothesisRevisions(s: Snapshot, ev: LedgerEvent)
    requires Admits(s, ev) && RevisionsBounded(s.hypotheses, s.experiments, s.version)
    ensures RevisionsBounded(HypothesesAfter(s, ev), s.experiments, s.version + 1)
  {
    hide AcceptablePrediction, AcceptableExperiment, AcceptableEvidence, AcceptableLink, AcceptableCommit,
      LinksOwned, MayMove, TransitionOf;
  }

  lemma LaterVersion(s: Snapshot)
    requires RevisionsBounded(s.hypotheses, s.experiments, s.version)
    ensures RevisionsBounded(s.hypotheses, s.experiments, s.version + 1)
  {
  }

  lemma MovedRevision(s: Snapshot, id: string, m: Transition)
    requires id in s.experiments && RevisionsBounded(s.hypotheses, s.experiments, s.version)
    ensures RevisionsBounded(s.hypotheses, s.experiments[id := Moved(s.experiments[id], m)], s.version + 1)
  {
  }

  lemma PlannedRevision(s: Snapshot, x: Experiment)
    requires x.revision == 1 && RevisionsBounded(s.hypotheses, s.experiments, s.version)
    ensures RevisionsBounded(s.hypotheses, s.experiments[x.id := x], s.version + 1)
  {
  }

  lemma ExperimentRevisions(s: Snapshot, ev: LedgerEvent)
    requires Admits(s, ev) && RevisionsBounded(s.hypotheses, s.experiments, s.version)
    ensures RevisionsBounded(s.hypotheses, ExperimentTable(s, ev), s.version + 1)
  {
    assert ev.ExperimentPlanned? ==> ev.experiment.revision == 1;
    hide Admits, TransitionOf, Moved, RevisionsBounded;
    LaterVersion(s);
    if ev.ExperimentPlanned? {
      PlannedRevision(s, ev.experiment);
    } else if TransitionOf(ev).Some? {
      var (id, m) := TransitionOf(ev).value;
      if id in s.experiments {
        MovedRevision(s, id, m);
      }
    }
  }

  lemma StepBoundsRevisions(s: Snapshot, env: CaseLedgerEvent)
    requires Sound(s) && Step(s, env).Ok? && RevisionsBounded(s.hypotheses, s.experiments, s.version)
    ensures var t := Step(s, env).value; RevisionsBounded(t.hypotheses, t.experiments, t.version)
  {
    if Replayed(s, env) {
      StepBookkeeping(s, env);
    } else {
      EffectiveStep(s, env);
      assert s.version == s.projectedSeq by { hide TablesSound, OneCommitPerVersion; }
      hide Step, Admits, Sound, HypothesesAfter, ExperimentTable;
      HypothesisRevisions(s, env.event);
      ExperimentRevisions(s, env.event);
    }
  }

  lemma {:induction false} FoldBoundsRevisions(s: Snapshot, events: seq<CaseLedgerEvent>)
    requires Sound(s) && Fold(s, events).Ok? && RevisionsBounded(s.hypotheses, s.experiments, s.version)
    ensures var t := Fold(s, events).value; RevisionsBounded(t.hypotheses, t.experiments, t.version)
    decreases |events|
  {
    hide Step, Sound, RevisionsBounded;
    if events != [] {
      StepBoundsRevisions(s, events[0]);
      StepKeepsSound(s, events[0]);
      FoldBoundsRevisions(Step(s, events[0]).value, events[1..]);
    }
  }

  /** In every reachable projection all revisions lie between one and the version, and the version does
      not exceed the length of the stream. */
  lemma RevisionsStayBelowVersion(caseId: string, events: seq<CaseLedgerEvent>)
    requires Reduce(caseId, events).Ok?
    ensures var s := Reduce(caseId, events).value;
            RevisionsBounded(s.hypotheses, s.experiments, s.version) && s.version <= |events|
  {
    EmptyIsSound(caseId);
    VersionCountsEvents(caseId, events);
    FoldBoundsRevisions(EmptySnapshot(caseId), events);
    hide Fold, RevisionsBounded;
  }
}
