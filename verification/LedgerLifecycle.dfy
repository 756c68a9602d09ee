/** The life of a hypothesis, reconstructed from its revision and its resolutions. */
module LedgerLifecycle {
  import opened LedgerTypes
  import opened LedgerSpec
  import opened LedgerReplay
  import opened LedgerInvariants

  function ResolutionsOf(m: map<string, Resolution>, h: string): set<string> {
    set r | r in m && m[r].hypothesisId == h
  }

  function Decisive(m: map<string, Resolution>, h: string): set<string> {
    set r | r in ResolutionsOf(m, h) && m[r].status != AsInconclusive
  }

  /** The revision of a hypothesis with status `status` that was resolved `n` times. */
  predicate RevisionFits(status: HypothesisStatus, n: nat, revision: nat) {
    match status
    case Open => revision == 2 * n + 1
    case Superseded => 2 * n <= revision <= 2 * n + 2
    case _ => revision == 2 * n && n >= 1
  }

  /** The resolutions that are not Inconclusive, given the present status. */
  ghost predicate DecisiveFits(m: map<string, Resolution>, h: string, status: HypothesisStatus) {
    match status
    case Open => Decisive(m, h) == {}
    case Inconclusive => Decisive(m, h) == {}
    case Confirmed => exists r :: r in m && Decisive(m, h) == {r} && m[r].status == AsConfirmed
    case Rejected => exists r :: r in m && Decisive(m, h) == {r} && m[r].status == AsRejected
    case Superseded => |Decisive(m, h)| <= 1
  }

  ghost predicate Lives(hs: map<string, Hypothesis>, m: map<string, Resolution>) {
    forall h :: h in hs ==>
      && RevisionFits(hs[h].status, |ResolutionsOf(m, h)|, hs[h].revision)
      && DecisiveFits(m, h, hs[h].status)
  }

  lemma NewHypothesisLives(s: Snapshot, h: Hypothesis)
    requires Lives(s.hypotheses, s.resolutions) && AcceptableHypothesis(s, h)
    requires ResolutionsGrounded(s.resolutions, s.hypotheses.Keys, s.links.Keys)
    ensures Lives(s.hypotheses[h.id := h], s.resolutions)
  {
    assert ResolutionsOf(s.resolutions, h.id) == {};
    assert Decisive(s.resolutions, h.id) == {};
  }

  lemma ChangedHypothesisLives(s: Snapshot, id: string, status: HypothesisStatus, at: int)
    requires Lives(s.hypotheses, s.resolutions) && id in s.hypotheses
    requires || (status == Open && s.hypotheses[id].status == Inconclusive)
             || (status == Superseded && s.hypotheses[id].status != Superseded)
    ensures Lives(SetStatus(s, id, status, at), s.resolutions)
  {
    var m := s.resolutions;
    assert RevisionFits(s.hypotheses[id].status, |ResolutionsOf(m, id)|, s.hypotheses[id].revision);
    assert DecisiveFits(m, id, s.hypotheses[id].status);
  }

  lemma ResolutionCounts(m: map<string, Resolution>, r: Resolution, h: string)
    requires r.id !in m
    ensures var n := m[r.id := r];
            && ResolutionsOf(n, h) == ResolutionsOf(m, h) + (if r.hypothesisId == h then {r.id} else {})
            && Decisive(n, h) ==
               Decisive(m, h) + (if r.hypothesisId == h && r.status != AsInconclusive then {r.id} else {})
            && r.id !in ResolutionsOf(m, h)
  {
  }

  lemma ResolvedHypothesisLives(s: Snapshot, r: Resolution)
    requires Lives(s.hypotheses, s.resolutions) && r.id !in s.resolutions && HasStatus(s, r.hypothesisId, Open)
    ensures Lives(SetStatus(s, r.hypothesisId, StatusOf(r.status), r.createdAt), s.resolutions[r.id := r])
  {
    var m, n := s.resolutions, s.resolutions[r.id := r];
    var hs := SetStatus(s, r.hypothesisId, StatusOf(r.status), r.createdAt);
    forall h | h in hs
      ensures RevisionFits(hs[h].status, |ResolutionsOf(n, h)|, hs[h].revision)
      ensures DecisiveFits(n, h, hs[h].status)
    {
      assert RevisionFits(s.hypotheses[h].status, |ResolutionsOf(m, h)|, s.hypotheses[h].revision);
      assert DecisiveFits(m, h, s.hypotheses[h].status);
      hide RevisionFits, DecisiveFits, ResolutionsOf;
      if h == r.hypothesisId {
        ResolvedFits(m, r, s.hypotheses[h].revision);
      } else {
        OthersFit(m, r, h, s.hypotheses[h].status);
      }
    }
  }

  lemma ResolvedFits(m: map<string, Resolution>, r: Resolution, revision: nat)
    requires r.id !in m && RevisionFits(Open, |ResolutionsOf(m, r.hypothesisId)|, revision)
    requires DecisiveFits(m, r.hypothesisId, Open)
    ensures var n := m[r.id := r];
            && RevisionFits(StatusOf(r.status), |ResolutionsOf(n, r.hypothesisId)|, revision + 1)
            && DecisiveFits(n, r.hypothesisId, StatusOf(r.status))
  {
    var n, h := m[r.id := r], r.hypothesisId;
    ResolutionCounts(m, r, h);
    hide ResolutionsOf, Decisive;
    assert r.status != AsInconclusive ==> Decisive(n, h) == {r.id};
    assert n[r.id] == r;
  }

  lemma OthersFit(m: map<string, Resolution>, r: Resolution, h: string, status: HypothesisStatus)
    requires r.id !in m && h != r.hypothesisId && DecisiveFits(m, h, status)
    ensures var n := m[r.id := r];
            ResolutionsOf(n, h) == ResolutionsOf(m, h) && DecisiveFits(n, h, status)
  {
    var n := m[r.id := r];
    ResolutionCounts(m, r, h);
    hide ResolutionsOf, Decisive;
    assert Decisive(n, h) == Decisive(m, h);
    assert forall k :: k in m ==> n[k] == m[k];
  }

  lemma WrittenKeepsLives(s: Snapshot, ev: LedgerEvent)
    requires ResolutionsGrounded(s.resolutions, s.hypotheses.Keys, s.links.Keys)
    requires Lives(s.hypotheses, s.resolutions) && Admits(s, ev)
    ensures Lives(Written(s, ev).hypotheses, Written(s, ev).resolutions)
  {
    hide Lives, ResolutionsGrounded, SetStatus, AcceptableHypothesis, AcceptablePrediction, AcceptableExperiment,
      AcceptableEvidence, AcceptableLink, AcceptableCommit, LinksOwned, MayMove;
    match ev
    case HypothesisProposed(h) => NewHypothesisLives(s, h);
    case HypothesisResolved(_, r) => ResolvedHypothesisLives(s, r);
    case HypothesisReopened(h, _, at) => ChangedHypothesisLives(s, h, Open, at);
    case HypothesisSuperseded(h, _, _, at) => ChangedHypothesisLives(s, h, Superseded, at);
    case _ =>
  }

  lemma StepKeepsLives(s: Snapshot, env: CaseLedgerEvent)
    requires Sound(s) && Lives(s.hypotheses, s.resolutions) && Step(s, env).Ok?
    ensures Lives(Step(s, env).value.hypotheses, Step(s, env).value.resolutions)
  {
    hide Lives;
    if Replayed(s, env) {
      StepBookkeeping(s, env);
    } else {
      EffectiveStep(s, env);
      assert ResolutionsGrounded(s.resolutions, s.hypotheses.Keys, s.links.Keys);
      hide Sound, Step, Admits, Written;
      WrittenKeepsLives(s, env.event);
    }
  }

  lemma {:induction false} FoldKeepsLives(s: Snapshot, events: seq<CaseLedgerEvent>)
    requires Sound(s) && Lives(s.hypotheses, s.resolutions) && Fold(s, events).Ok?
    ensures Lives(Fold(s, events).value.hypotheses, Fold(s, events).value.resolutions)
    decreases |events|
  {
    hide Step, Sound, Lives;
    if events != [] {
      StepKeepsSound(s, events[0]);
      StepKeepsLives(s, events[0]);
      FoldKeepsLives(Step(s, events[0]).value, events[1..]);
    }
  }

  lemma ReachableLives(caseId: string, events: seq<CaseLedgerEvent>)
    requires Reduce(caseId, events).Ok?
    ensures var s := Reduce(caseId, events).value;
            && Lives(s.hypotheses, s.resolutions)
            && ResolutionsGrounded(s.resolutions, s.hypotheses.Keys, s.links.Keys)
  {
    ReachableIsSound(caseId, events);
    assert Sound(EmptySnapshot(caseId)) by { ReachableIsSound(caseId, []); }
    FoldKeepsLives(EmptySnapshot(caseId), events);
    hide Fold, Lives;
  }

  lemma LivesAt(hs: map<string, Hypothesis>, m: map<string, Resolution>, h: string)
    requires Lives(hs, m) && h in hs
    ensures RevisionFits(hs[h].status, |ResolutionsOf(m, h)|, hs[h].revision) && DecisiveFits(m, h, hs[h].status)
  {
    hide RevisionFits, DecisiveFits;
  }

  /** What `AtMostOneDecision` and `SettledByResolution` say, of one hypothesis. */
  lemma OneDecision(m: map<string, Resolution>, h: string, status: HypothesisStatus, q: string, r: string)
    requires DecisiveFits(m, h, status) && q in m && r in m && m[q].hypothesisId == h
    ensures q != r && m[r].hypothesisId == h ==> m[q].status == AsInconclusive || m[r].status == AsInconclusive
    ensures m[q].status != AsInconclusive ==> status == Superseded || status == StatusOf(m[q].status)
  {
    if q != r && {q, r} <= Decisive(m, h) {
      SubsetSize({q, r}, Decisive(m, h));
    }
    if m[q].status != AsInconclusive {
      assert q in Decisive(m, h);
    }
  }

  lemma DecisionExists(m: map<string, Resolution>, h: string, status: HypothesisStatus, revision: nat)
    requires RevisionFits(status, |ResolutionsOf(m, h)|, revision) && DecisiveFits(m, h, status)
    requires status in {Confirmed, Rejected, Inconclusive}
    ensures exists r :: r in m && m[r].hypothesisId == h && StatusOf(m[r].status) == status
  {
    var r: string;
    if status == Inconclusive {
      r :| r in ResolutionsOf(m, h);
      assert r !in Decisive(m, h);
    } else {
      r :| r in m && Decisive(m, h) == {r};
      assert r in Decisive(m, h);
    }
    assert m[r].hypothesisId == h;
  }

  /** In every reachable projection, a hypothesis resolved n times is at revision 2n+1 when Open, at
      2n when Confirmed, Rejected or Inconclusive, and between 2n and 2n+2 when Superseded. */
  lemma RevisionCountsResolutions(caseId: string, events: seq<CaseLedgerEvent>, h: string)
    requires Reduce(caseId, events).Ok? && h in Reduce(caseId, events).value.hypotheses
    ensures var s := Reduce(caseId, events).value;
            var n := |ResolutionsOf(s.resolutions, h)|;
            var revision := s.hypotheses[h].revision;
            match s.hypotheses[h].status
            case Open => revision == 2 * n + 1
            case Superseded => 2 * n <= revision <= 2 * n + 2
            case _ => revision == 2 * n && n >= 1
  {
    ReachableLives(caseId, events);
    hide Reduce;
  }

  /** At most one resolution of a hypothesis is not Inconclusive, and it is the one that a settled
      status reports. In particular none is both confirmed and rejected. */
  lemma AtMostOneDecision(caseId: string, events: seq<CaseLedgerEvent>, q: string, r: string)
    requires Reduce(caseId, events).Ok?
    requires q in Reduce(caseId, events).value.resolutions && r in Reduce(caseId, events).value.resolutions
    ensures var m := Reduce(caseId, events).value.resolutions;
            && (q != r && m[q].hypothesisId == m[r].hypothesisId ==>
                  m[q].status == AsInconclusive || m[r].status == AsInconclusive)
            && m[q].hypothesisId in Reduce(caseId, events).value.hypotheses
            && var status := Reduce(caseId, events).value.hypotheses[m[q].hypothesisId].status;
            && (m[q].status != AsInconclusive ==> status == Superseded || status == StatusOf(m[q].status))
  {
    ReachableLives(caseId, events);
    hide Reduce, Lives, DecisiveFits, RevisionFits;
    var s := Reduce(caseId, events).value;
    var h := s.resolutions[q].hypothesisId;
    LivesAt(s.hypotheses, s.resolutions, h);
    OneDecision(s.resolutions, h, s.hypotheses[h].status, q, r);
  }

  /** A Confirmed, Rejected or Inconclusive hypothesis has a resolution that says so. */
  lemma SettledByResolution(caseId: string, events: seq<CaseLedgerEvent>, h: string)
    requires Reduce(caseId, events).Ok? && h in Reduce(caseId, events).value.hypotheses
    requires Reduce(caseId, events).value.hypotheses[h].status in {Confirmed, Rejected, Inconclusive}
    ensures var s := Reduce(caseId, events).value;
            exists r :: r in s.resolutions && s.resolutions[r].hypothesisId == h
              && StatusOf(s.resolutions[r].status) == s.hypotheses[h].status
  {
    ReachableLives(caseId, events);
    hide Reduce, Lives, DecisiveFits, RevisionFits, ResolutionsOf;
    var s := Reduce(caseId, events).value;
    LivesAt(s.hypotheses, s.resolutions, h);
    DecisionExists(s.resolutions, h, s.hypotheses[h].status, s.hypotheses[h].revision);
  }

  lemma SupersedeWrites(s: Snapshot, ev: LedgerEvent)
    requires ev.HypothesisSuperseded? && ev.hypothesisId in s.hypotheses
    ensures HasStatus(Written(s, ev), ev.hypothesisId, Superseded)
  {
    hide ExperimentTable;
  }

  /** Given another hypothesis to take its place, a hypothesis may be superseded exactly when it is not
      superseded yet; in particular when it is Inconclusive. */
  lemma SupersedableExactlyWhen(s: Snapshot, id: string, newer: string, eventId: string, at: int)
    requires id in s.hypotheses && newer in s.hypotheses && id != newer && eventId !in s.appliedEventIds
    ensures var r := s.hypotheses[id].revision;
            var env := CaseLedgerEvent(s.caseId, s.projectedSeq + 1, eventId, HypothesisKind, id, r + 1,
                                       SCHEMA_VERSION, HypothesisSuperseded(id, r, newer, at));
            && (Step(s, env).Ok? <==> s.hypotheses[id].status != Superseded)
            && (Step(s, env).Ok? ==> HasStatus(Step(s, env).value, id, Superseded))
  {
    var r := s.hypotheses[id].revision;
    var ev := HypothesisSuperseded(id, r, newer, at);
    var env := CaseLedgerEvent(s.caseId, s.projectedSeq + 1, eventId, HypothesisKind, id, r + 1, SCHEMA_VERSION, ev);
    AcceptanceIsAdmission(s, env);
    hide PayloadVerdict;
    assert Admits(s, ev) <==> s.hypotheses[id].status != Superseded;
    assert Address(s, ev) == (HypothesisKind, id, r + 1);
    hide Admits, Address;
    SupersedeWrites(s, ev);
    hide Written;
  }

  lemma {:induction false} SubsetSize(a: set<string>, b: set<string>)
    requires a <= b
    ensures |a| <= |b|
  {
    if a != {} {
      var x :| x in a;
      SubsetSize(a - {x}, b - {x});
    }
  }
}
