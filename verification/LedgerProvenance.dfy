/** What a claim rests on: the reference graph is acyclic, and what link ids have to do with it. */
module LedgerProvenance {
  import opened Results
  import opened LedgerTypes
  import opened LedgerSpec
  import opened LedgerReplay
  import opened LedgerInvariants

  /** Hypotheses, predictions, experiments, evidence, resolutions and links. */
  datatype Node = H(id: string) | P(id: string) | X(id: string) | E(id: string) | R(id: string) | L(id: string)

  /** `u` directly rests on `v`. With `links`, evidence links are nodes too, between the
      resolutions that cite them and the evidence, hypothesis and prediction they name. */
  predicate RestsOn(s: Snapshot, u: Node, v: Node, links: bool) {
    match u
    case H(h) =>
      h in s.hypotheses
      && ((v.E? && EvidenceRef(v.id) in s.hypotheses[h].premiseRefs)
          || (v.R? && ResolutionRef(v.id) in s.hypotheses[h].premiseRefs))
    case P(p) => p in s.predictions && v == H(s.predictions[p].hypothesisId)
    case X(x) =>
      x in s.experiments
      && ((v.H? && v.id in s.experiments[x].hypothesisIds) || (v.P? && v.id in s.experiments[x].predictionIds))
    case E(e) =>
      e in s.evidence
      && ((v.X? && s.evidence[e].experimentId == Some(v.id)) || (v.P? && v.id in s.evidence[e].predictionIds))
    case R(r) =>
      r in s.resolutions
      && (v == H(s.resolutions[r].hypothesisId) || (links && v.L? && v.id in Cited(s.resolutions[r])))
    case L(l) =>
      links && l in s.links
      && (v == E(s.links[l].evidenceId) || v == H(s.links[l].hypothesisId)
          || (v.P? && s.links[l].predictionId == Some(v.id)))
  }

  /** A chain of at least two nodes, each resting on the next. */
  predicate Chain(s: Snapshot, path: seq<Node>, links: bool) {
    && |path| >= 2
    && forall i :: 0 <= i < |path| - 1 ==> RestsOn(s, path[i], path[i + 1], links)
  }

  ghost predicate Circle(s: Snapshot, path: seq<Node>, links: bool) {
    Chain(s, path, links) && path[0] == path[|path| - 1]
  }

  /** Nothing rests on itself. */
  ghost predicate Acyclic(s: Snapshot, links: bool) {
    forall path :: !Circle(s, path, links)
  }

  ghost predicate IsChainFrom(s: Snapshot, path: seq<Node>, a: Node, b: Node) {
    Chain(s, path, true) && path[0] == a && path[|path| - 1] == b
  }

  /** `a` rests on `b`, through any number of nodes, links among them. */
  ghost predicate Leads(s: Snapshot, a: Node, b: Node) {
    exists path :: IsChainFrom(s, path, a, b)
  }

  // ---------- What a step adds ----------

  predicate Stored(s: Snapshot, n: Node, links: bool) {
    match n
    case H(k) => k in s.hypotheses.Keys
    case P(k) => k in s.predictions.Keys
    case X(k) => k in s.experiments.Keys
    case E(k) => k in s.evidence.Keys
    case R(k) => k in s.resolutions.Keys
    case L(k) => links && k in s.links.Keys
  }

  /** The node an event brings, if any. */
  function Born(ev: LedgerEvent, links: bool): Option<Node> {
    match ev
    case HypothesisProposed(h) => Some(H(h.id))
    case PredictionDeclared(p) => Some(P(p.id))
    case ExperimentPlanned(x) => Some(X(x.id))
    case EvidenceRecorded(e) => Some(E(e.id))
    case HypothesisResolved(_, r) => Some(R(r.id))
    case EvidenceLinked(l) => if links then Some(L(l.id)) else None
    case _ => None
  }

  /** The event does not put a link under an id that is already in use. */
  predicate FreshLink(s: Snapshot, ev: LedgerEvent) {
    ev.EvidenceLinked? ==> ev.link.id !in s.links
  }

  /** No key is lost, and only a birth adds one. */
  lemma WrittenKeys(s: Snapshot, ev: LedgerEvent)
    ensures var t := Written(s, ev);
            && t.hypotheses.Keys == s.hypotheses.Keys + (if ev.HypothesisProposed? then {ev.hypothesis.id} else {})
            && t.predictions.Keys == s.predictions.Keys + (if ev.PredictionDeclared? then {ev.prediction.id} else {})
            && t.experiments.Keys == s.experiments.Keys + (if ev.ExperimentPlanned? then {ev.experiment.id} else {})
            && t.evidence.Keys == s.evidence.Keys + (if ev.EvidenceRecorded? then {ev.evidence.id} else {})
            && t.resolutions.Keys == s.resolutions.Keys + (if ev.HypothesisResolved? then {ev.resolution.id} else {})
            && t.links.Keys == s.links.Keys + (if ev.EvidenceLinked? then {ev.link.id} else {})
  {
    HypothesisKeys(s, ev);
    ExperimentKeys(s, ev);
    hide HypothesesAfter, ExperimentTable;
  }

  lemma HypothesisKeys(s: Snapshot, ev: LedgerEvent)
    ensures HypothesesAfter(s, ev).Keys ==
            s.hypotheses.Keys + (if ev.HypothesisProposed? then {ev.hypothesis.id} else {})
  {
  }

  lemma ExperimentKeys(s: Snapshot, ev: LedgerEvent)
    ensures ExperimentTable(s, ev).Keys ==
            s.experiments.Keys + (if ev.ExperimentPlanned? then {ev.experiment.id} else {})
  {
    hide Moved;
  }

  lemma StoredAfter(s: Snapshot, ev: LedgerEvent, n: Node, links: bool)
    ensures Stored(Written(s, ev), n, links) <==> Stored(s, n, links) || Born(ev, links) == Some(n)
  {
    WrittenKeys(s, ev);
    hide Written, Admits;
    match n
    case H(k) =>
    case P(k) =>
    case X(k) =>
    case E(k) =>
    case R(k) =>
    case L(k) =>
  }

  lemma WrittenStores(s: Snapshot, ev: LedgerEvent, links: bool)
    ensures forall n :: Stored(Written(s, ev), n, links) <==> Stored(s, n, links) || Born(ev, links) == Some(n)
  {
    hide *;
    forall n ensures Stored(Written(s, ev), n, links) <==> Stored(s, n, links) || Born(ev, links) == Some(n) {
      StoredAfter(s, ev, n, links);
    }
  }

  lemma WrittenPutsLinks(s: Snapshot, ev: LedgerEvent)
    ensures Written(s, ev).links == if ev.EvidenceLinked? then s.links[ev.link.id := ev.link] else s.links
  {
    hide HypothesesAfter, ExperimentTable;
  }

  lemma StepPutsLinks(s: Snapshot, env: CaseLedgerEvent)
    requires Step(s, env).Ok?
    ensures Step(s, env).value.links ==
            if Effective(s, env) && env.event.EvidenceLinked? then s.links[env.event.link.id := env.event.link]
            else s.links
  {
    if Replayed(s, env) {
      StepBookkeeping(s, env);
    } else {
      EffectiveStep(s, env);
      WrittenPutsLinks(s, env.event);
      hide Step, Admits, Written;
    }
  }

  // ---------- Steps that are not about links ----------

  /** Outside `changed`, nodes rest on the same nodes in both states. */
  ghost predicate SameEdges(s: Snapshot, t: Snapshot, links: bool, changed: Option<Node>) {
    forall u, v :: Some(u) != changed ==> (RestsOn(s, u, v, links) <==> RestsOn(t, u, v, links))
  }

  lemma ChainMoves(s: Snapshot, t: Snapshot, links: bool, changed: Option<Node>, path: seq<Node>)
    requires SameEdges(s, t, links, changed) || SameEdges(t, s, links, changed)
    requires Chain(s, path, links) && forall i :: 0 <= i < |path| - 1 ==> Some(path[i]) != changed
    ensures Chain(t, path, links)
  {
    hide RestsOn;
    forall i | 0 <= i < |path| - 1 ensures RestsOn(t, path[i], path[i + 1], links) {
      assert RestsOn(s, path[i], path[i + 1], links);
    }
  }

  lemma NothingRestsOnItself(s: Snapshot, u: Node, links: bool)
    ensures !RestsOn(s, u, u, links)
  {
  }

  lemma RestingIsStored(s: Snapshot, u: Node, v: Node, links: bool)
    requires RestsOn(s, u, v, links)
    ensures Stored(s, u, links)
  {
  }

  lemma ClaimRestsOnStored(s: Snapshot, h: string, v: Node)
    requires PremisesKnown(s.hypotheses, s.evidence.Keys, s.resolutions.Keys) && RestsOn(s, H(h), v, false)
    ensures Stored(s, v, false)
  {
    var refs := s.hypotheses[h].premiseRefs;
    if v.E? {
      var i :| 0 <= i < |refs| && refs[i] == EvidenceRef(v.id);
    } else {
      var i :| 0 <= i < |refs| && refs[i] == ResolutionRef(v.id);
    }
  }

  lemma PlanRestsOnStored(s: Snapshot, x: string, v: Node)
    requires ExperimentsGrounded(s.experiments, s.hypotheses.Keys, s.predictions) && RestsOn(s, X(x), v, false)
    ensures Stored(s, v, false)
  {
    var plan := s.experiments[x];
    assert AllIn(plan.hypothesisIds, s.hypotheses.Keys);
    assert PredictionsWithin(plan.predictionIds, plan.hypothesisIds, s.predictions);
  }

  /** Nothing rests on what is not stored. */
  lemma RestedOnIsStored(s: Snapshot, u: Node, v: Node, links: bool)
    requires Closed(s) && RestsOn(s, u, v, links)
    ensures Stored(s, v, links)
  {
    hide PremisesKnown, ExperimentsGrounded, EvidenceBound, ObservationsKnown, ContradictionsGrounded, CommitsGrounded;
    match u
    case H(h) => ClaimRestsOnStored(s, h, v);
    case P(p) =>
    case X(x) => PlanRestsOnStored(s, x, v);
    case E(e) => EvidenceRestsOnStored(s, e, v);
    case R(r) => assert AllIn(Cited(s.resolutions[r]), s.links.Keys);
    case L(l) =>
      if v.P? {
        EvidenceRestsOnStored(s, s.links[l].evidenceId, v);
      }
  }

  lemma EvidenceRestsOnStored(s: Snapshot, e: string, v: Node)
    requires EvidenceBound(s.evidence, s.experiments)
    requires ExperimentsGrounded(s.experiments, s.hypotheses.Keys, s.predictions)
    requires RestsOn(s, E(e), v, false)
    ensures Stored(s, v, false)
  {
    var item := s.evidence[e];
    if v.P? {
      var i :| 0 <= i < |item.predictionIds| && item.predictionIds[i] == v.id;
      var plan := s.experiments[item.experimentId.value];
      assert v.id in plan.predictionIds;
      var j :| 0 <= j < |plan.predictionIds| && plan.predictionIds[j] == v.id;
      assert PredictionsWithin(plan.predictionIds, plan.hypothesisIds, s.predictions);
    }
  }

  /** What grows keeps what stored nodes rest on, links apart. */
  lemma GrowthKeepsEdges(s: Snapshot, t: Snapshot, u: Node, v: Node, links: bool)
    requires Grows(s, t) && (links ==> t.links == s.links)
    requires Stored(s, u, links)
    ensures RestsOn(s, u, v, links) <==> RestsOn(t, u, v, links)
  {
    match u
    case H(_) =>
    case P(_) =>
    case X(_) =>
    case E(_) =>
    case R(_) =>
    case L(_) =>
  }

  /** The event changes nothing that the graph with these nodes shows of links. */
  predicate LeavesLinks(ev: LedgerEvent, links: bool) {
    !(links && ev.EvidenceLinked?)
  }

  /** A step that puts no link only adds one node, which nothing rests on. */
  lemma StepAddsOneNode(s: Snapshot, env: CaseLedgerEvent, links: bool)
    requires Sound(s) && Effective(s, env) && LeavesLinks(env.event, links)
    ensures SameEdges(s, Step(s, env).value, links, Born(env.event, links))
    ensures Born(env.event, links).Some? ==> !Stored(s, Born(env.event, links).value, links)
  {
    var t, born := Step(s, env).value, Born(env.event, links);
    StepKeepsSound(s, env);
    EffectiveStep(s, env);
    BornIsNew(s, env.event, links);
    StepPutsLinks(s, env);
    StepStores(s, env, links);
    hide Step, Sound, Grows, Admits, Stored, Born, RestsOn, Effective;
    forall u, v | Some(u) != born ensures RestsOn(s, u, v, links) <==> RestsOn(t, u, v, links) {
      if Stored(s, u, links) {
        GrowthKeepsEdges(s, t, u, v, links);
      } else {
        if RestsOn(s, u, v, links) { RestingIsStored(s, u, v, links); }
        if RestsOn(t, u, v, links) { RestingIsStored(t, u, v, links); }
      }
    }
  }

  lemma BornIsNew(s: Snapshot, ev: LedgerEvent, links: bool)
    requires Admits(s, ev) && LeavesLinks(ev, links)
    ensures Born(ev, links).Some? ==> !Stored(s, Born(ev, links).value, links)
  {
    hide LinksOwned, AllowedMove, EvidenceKnown, AcceptableLink, AcceptableCommit;
  }

  lemma StepStores(s: Snapshot, env: CaseLedgerEvent, links: bool)
    requires Effective(s, env)
    ensures forall n :: Stored(Step(s, env).value, n, links) <==>
                        Stored(s, n, links) || Born(env.event, links) == Some(n)
  {
    EffectiveStep(s, env);
    WrittenStores(s, env.event, links);
    hide Step, Admits, Written, Born;
    assert forall n :: Stored(Recorded(s, env), n, links) == Stored(Written(s, env.event), n, links);
  }

  /** A node that nothing rested on and that rests on nothing new cannot be on a circle. */
  lemma CircleAvoidsNewNode(s: Snapshot, t: Snapshot, links: bool, born: Node, path: seq<Node>, i: nat)
    requires Closed(s) && SameEdges(s, t, links, Some(born)) && !Stored(s, born, links)
    requires Circle(t, path, links) && i < |path|
    ensures path[i] != born
  {
    var k := if i > 0 then i - 1 else |path| - 2;
    assert RestsOn(t, path[k], path[k + 1], links);
    NothingRestsOnItself(t, born, links);
    hide RestsOn, Closed;
    if path[i] == born {
      assert path[k + 1] == born;
      RestedOnIsStored(s, path[k], born, links);
    }
  }

  /** Every step that does not put a link keeps the graph acyclic, and removes no circle either. */
  lemma OrdinaryStepKeepsAcyclic(s: Snapshot, env: CaseLedgerEvent, links: bool)
    requires Sound(s) && Step(s, env).Ok? && (Effective(s, env) ==> LeavesLinks(env.event, links))
    ensures Acyclic(Step(s, env).value, links) <==> Acyclic(s, links)
  {
    var t := Step(s, env).value;
    if Replayed(s, env) {
      StepBookkeeping(s, env);
    } else {
      var born := Born(env.event, links);
      StepAddsOneNode(s, env, links);
      SoundIsClosed(s);
      hide Step, Sound, Closed, SameEdges, Stored, Born, RestsOn;
      forall path ensures Circle(s, path, links) <==> Circle(t, path, links) {
        if Circle(s, path, links) {
          forall i | 0 <= i < |path| - 1 ensures Some(path[i]) != born {
            RestingIsStored(s, path[i], path[i + 1], links);
          }
          ChainMoves(s, t, links, born, path);
        }
        if Circle(t, path, links) {
          forall i | 0 <= i < |path| - 1 ensures Some(path[i]) != born {
            if born.Some? { CircleAvoidsNewNode(s, t, links, born.value, path, i); }
          }
          ChainMoves(t, s, links, born, path);
        }
      }
    }
  }

  lemma SoundIsClosed(s: Snapshot)
    requires Sound(s)
    ensures Closed(s)
  {
    hide Closed;
  }

  // ---------- Steps that put a link ----------

  /** No argument that the link relies on relies on the link. */
  ghost predicate ClosesNoCircle(s: Snapshot, l: EvidenceLink) {
    && !Leads(s, E(l.evidenceId), L(l.id))
    && !Leads(s, H(l.hypothesisId), L(l.id))
    && (l.predictionId.Some? ==> !Leads(s, P(l.predictionId.value), L(l.id)))
  }

  /** What a link rests on. */
  predicate Names(l: EvidenceLink, v: Node) {
    v == E(l.evidenceId) || v == H(l.hypothesisId) || (v.P? && l.predictionId == Some(v.id))
  }

  /** `t` is `s` with `l` put under its id. */
  ghost predicate PutsLink(s: Snapshot, t: Snapshot, l: EvidenceLink) {
    && SameEdges(s, t, true, Some(L(l.id)))
    && forall v :: RestsOn(t, L(l.id), v, true) <==> Names(l, v)
  }

  lemma StepPutsOneLink(s: Snapshot, env: CaseLedgerEvent)
    requires Effective(s, env) && env.event.EvidenceLinked?
    ensures PutsLink(s, Step(s, env).value, env.event.link)
  {
    EffectiveStep(s, env);
    WrittenPutsOneLink(s, env.event);
    var w, t := Written(s, env.event), Step(s, env).value;
    hide Step, Admits, Written;
    assert forall u, v :: RestsOn(t, u, v, true) == RestsOn(w, u, v, true);
    hide RestsOn;
  }

  lemma WrittenPutsOneLink(s: Snapshot, ev: LedgerEvent)
    requires ev.EvidenceLinked?
    ensures PutsLink(s, Written(s, ev), ev.link)
  {
    var w := Written(s, ev);
    assert w.hypotheses == s.hypotheses && w.predictions == s.predictions && w.experiments == s.experiments;
    assert w.evidence == s.evidence && w.resolutions == s.resolutions;
    assert w.links == s.links[ev.link.id := ev.link];
    hide Written;
  }

  lemma SubChain(s: Snapshot, path: seq<Node>, links: bool, a: nat, b: nat)
    requires Chain(s, path, links) && a + 2 <= b <= |path|
    ensures Chain(s, path[a..b], links)
  {
    hide RestsOn;
    forall i | 0 <= i < b - a - 1 ensures RestsOn(s, path[a..b][i], path[a..b][i + 1], links) {
      assert RestsOn(s, path[a + i], path[a + i + 1], links);
    }
  }

  lemma JoinChains(s: Snapshot, p: seq<Node>, q: seq<Node>, links: bool)
    requires Chain(s, p, links) && Chain(s, q, links) && p[|p| - 1] == q[0]
    ensures Chain(s, p + q[1..], links)
  {
    hide RestsOn;
    var all := p + q[1..];
    forall i | 0 <= i < |all| - 1 ensures RestsOn(s, all[i], all[i + 1], links) {
      if i < |p| - 1 {
        assert RestsOn(s, p[i], p[i + 1], links);
      } else {
        assert RestsOn(s, q[i - |p| + 1], q[i - |p| + 2], links);
      }
    }
  }

  lemma {:induction false} FirstVisit(path: seq<Node>, n: Node, from: nat) returns (i: nat)
    requires from < |path| && exists k :: from <= k < |path| && path[k] == n
    ensures from <= i < |path| && path[i] == n && forall k :: from <= k < i ==> path[k] != n
    decreases |path| - from
  {
    if path[from] == n {
      i := from;
    } else {
      i := FirstVisit(path, n, from + 1);
    }
  }

  /** If something the new link names leads to it, the link closes a circle. */
  lemma LeadClosesCircle(s: Snapshot, t: Snapshot, l: EvidenceLink, v: Node)
    requires PutsLink(s, t, l) && Names(l, v) && Leads(s, v, L(l.id))
    ensures !Acyclic(t, true)
  {
    var path :| IsChainFrom(s, path, v, L(l.id));
    var i := FirstVisit(path, L(l.id), 0);
    assert i > 0;
    var cut := path[..i + 1];
    SubChain(s, path, true, 0, i + 1);
    assert path[0..i + 1] == cut;
    ChainMoves(s, t, true, Some(L(l.id)), cut);
    assert RestsOn(t, L(l.id), v, true);
    hide RestsOn;
    assert Chain(t, [L(l.id), v], true);
    JoinChains(t, [L(l.id), v], cut, true);
    assert Circle(t, [L(l.id), v] + cut[1..], true);
  }

  /** A circle may be walked from any of its nodes. */
  lemma TurnCircle(s: Snapshot, path: seq<Node>, n: Node) returns (around: seq<Node>)
    requires Circle(s, path, true) && n in path
    ensures Circle(s, around, true) && around[0] == n
  {
    hide RestsOn;
    var i := FirstVisit(path, n, 0);
    around := path;
    if i > 0 {
      var front, back := path[0..i + 1], path[i..|path|];
      SubChain(s, path, true, 0, i + 1);
      SubChain(s, path, true, i, |path|);
      JoinChains(s, back, front, true);
      around := back + front[1..];
    }
  }

  /** On a circle through the new link, what comes behind the link leads to it, and is named by it. */
  lemma CircleGivesLead(s: Snapshot, t: Snapshot, l: EvidenceLink, path: seq<Node>) returns (v: Node)
    requires PutsLink(s, t, l) && Circle(t, path, true) && L(l.id) in path
    ensures Names(l, v) && Leads(s, v, L(l.id))
  {
    var n := L(l.id);
    var around := TurnCircle(t, path, n);
    v := around[1];
    assert RestsOn(t, around[0], around[1], true);
    hide RestsOn;
    NothingRestsOnItself(t, n, true);
    assert around[|around| - 1] == n;
    var k := FirstVisit(around, n, 1);
    var lead := around[1..k + 1];
    SubChain(t, around, true, 1, k + 1);
    ChainMoves(t, s, true, Some(n), lead);
    assert IsChainFrom(s, lead, v, n);
  }

  /** Every circle of the state passes through link `id`; so there is none if it is acyclic. */
  ghost predicate CirclesPass(s: Snapshot, id: string) {
    forall path :: Circle(s, path, true) ==> L(id) in path
  }

  /** After a link event the graph is acyclic exactly when before it every circle passed through that
      link's id, and nothing the link names led to it. */
  lemma LinkStepIsAcyclicExactlyWhen(s: Snapshot, env: CaseLedgerEvent)
    requires Effective(s, env) && env.event.EvidenceLinked?
    ensures var l := env.event.link;
            Acyclic(Step(s, env).value, true) <==> CirclesPass(s, l.id) && ClosesNoCircle(s, l)
  {
    StepPutsOneLink(s, env);
    hide Step, Effective, RestsOn;
    var t, l := Step(s, env).value, env.event.link;
    if !ClosesNoCircle(s, l) {
      var v := if Leads(s, E(l.evidenceId), L(l.id)) then E(l.evidenceId)
               else if Leads(s, H(l.hypothesisId), L(l.id)) then H(l.hypothesisId)
               else P(l.predictionId.value);
      LeadClosesCircle(s, t, l, v);
    }
    if path :| Circle(s, path, true) && L(l.id) !in path {
      ChainMoves(s, t, true, Some(L(l.id)), path);
      assert Circle(t, path, true);
    }
    if path :| Circle(t, path, true) {
      if L(l.id) in path {
        var _ := CircleGivesLead(s, t, l, path);
      } else {
        ChainMoves(t, s, true, Some(L(l.id)), path);
        assert Circle(s, path, true);
      }
    }
  }

  // ---------- Every run ----------

  lemma EmptyIsAcyclic(caseId: string, links: bool)
    ensures Sound(EmptySnapshot(caseId)) && Acyclic(EmptySnapshot(caseId), links)
  {
    var s := EmptySnapshot(caseId);
    EmptyIsSound(caseId);
    hide Sound;
    forall path ensures !Circle(s, path, links) {
      if Circle(s, path, links) {
        RestingIsStored(s, path[0], path[1], links);
      }
    }
  }

  lemma {:induction false} FoldKeepsAcyclic(s: Snapshot, events: seq<CaseLedgerEvent>)
    requires Sound(s) && Acyclic(s, false) && Fold(s, events).Ok?
    ensures Acyclic(Fold(s, events).value, false)
    decreases |events|
  {
    hide Step, Sound, Acyclic;
    if events != [] {
      OrdinaryStepKeepsAcyclic(s, events[0], false);
      StepKeepsSound(s, events[0]);
      FoldKeepsAcyclic(Step(s, events[0]).value, events[1..]);
    }
  }

  /** Nothing rests on itself, through however many hypotheses, predictions, experiments, pieces of
      evidence and resolutions. */
  lemma ProvenanceIsAcyclic(caseId: string, events: seq<CaseLedgerEvent>, path: seq<Node>)
    requires Reduce(caseId, events).Ok? && Chain(Reduce(caseId, events).value, path, false)
    ensures path[0] != path[|path| - 1]
  {
    EmptyIsAcyclic(caseId, false);
    FoldKeepsAcyclic(EmptySnapshot(caseId), events);
    assert !Circle(Reduce(caseId, events).value, path, false);
  }

  /** Every link event that takes effect along the run passes the guard. */
  ghost predicate Guarded(s: Snapshot, events: seq<CaseLedgerEvent>)
    requires Fold(s, events).Ok?
    decreases |events|
  {
    events == [] ||
    (&& (Effective(s, events[0]) && events[0].event.EvidenceLinked? ==> ClosesNoCircle(s, events[0].event.link))
     && Guarded(Step(s, events[0]).value, events[1..]))
  }

  ghost predicate AcyclicWithLinks(s: Snapshot) {
    Acyclic(s, true)
  }

  lemma {:induction false} FoldStaysAcyclicExactlyWhen(s: Snapshot, events: seq<CaseLedgerEvent>)
    requires Sound(s) && AcyclicWithLinks(s) && Fold(s, events).Ok?
    ensures Always(AcyclicWithLinks, s, events) <==> Guarded(s, events)
    decreases |events|
  {
    hide Step, Sound, Acyclic, Effective, ClosesNoCircle, CirclesPass, Always;
    AlwaysUnfolds(AcyclicWithLinks, s, events);
    if events != [] {
      var env := events[0];
      var t := Step(s, env).value;
      StepKeepsSound(s, env);
      if Effective(s, env) && env.event.EvidenceLinked? {
        LinkStepIsAcyclicExactlyWhen(s, env);
        NoCirclesToPass(s, env.event.link.id);
      } else {
        OrdinaryStepKeepsAcyclic(s, env, true);
      }
      if AcyclicWithLinks(t) {
        FoldStaysAcyclicExactlyWhen(t, events[1..]);
      } else {
        AlwaysUnfolds(AcyclicWithLinks, t, events[1..]);
      }
    }
  }

  lemma NoCirclesToPass(s: Snapshot, id: string)
    requires Acyclic(s, true)
    ensures CirclesPass(s, id)
  {
  }

  /** Along an accepted stream nothing ever comes to rest on itself, links included, exactly when every
      link event finds that nothing its link names leads to it. */
  lemma RunStaysAcyclicExactlyWhen(caseId: string, events: seq<CaseLedgerEvent>)
    requires Reduce(caseId, events).Ok?
    ensures Always(AcyclicWithLinks, EmptySnapshot(caseId), events) <==> Guarded(EmptySnapshot(caseId), events)
  {
    EmptyIsAcyclic(caseId, true);
    FoldStaysAcyclicExactlyWhen(EmptySnapshot(caseId), events);
  }

  // ---------- With fresh link ids, links may be part of the argument ----------

  /** Every link event that takes effect along the run brings a new link id. */
  ghost predicate FreshLinks(s: Snapshot, events: seq<CaseLedgerEvent>)
    requires Fold(s, events).Ok?
    decreases |events|
  {
    events == [] ||
    (&& (Effective(s, events[0]) ==> FreshLink(s, events[0].event))
     && FreshLinks(Step(s, events[0]).value, events[1..]))
  }

  /** Different link events carry different link ids. */
  predicate DistinctLinkIds(events: seq<CaseLedgerEvent>) {
    forall i, j | 0 <= i < |events| && 0 <= j < |events|
      && events[i].event.EvidenceLinked? && events[j].event.EvidenceLinked?
      && events[i].event.link.id == events[j].event.link.id :: events[i].eventId == events[j].eventId
  }

  lemma {:induction false} DistinctIdsAreFresh(s: Snapshot, events: seq<CaseLedgerEvent>)
    requires Fold(s, events).Ok? && DistinctLinkIds(events)
    requires forall i :: 0 <= i < |events| && events[i].event.EvidenceLinked? && events[i].event.link.id in s.links
               ==> events[i].eventId in s.appliedEventIds
    ensures FreshLinks(s, events)
    decreases |events|
  {
    if events != [] {
      var t := Step(s, events[0]).value;
      StepBookkeeping(s, events[0]);
      StepPutsLinks(s, events[0]);
      hide Step;
      forall i | 0 <= i < |events[1..]| && events[1..][i].event.EvidenceLinked?
        && events[1..][i].event.link.id in t.links
        ensures events[1..][i].eventId in t.appliedEventIds
      {
        assert events[1..][i] == events[i + 1];
      }
      assert DistinctLinkIds(events[1..]);
      DistinctIdsAreFresh(t, events[1..]);
    }
  }

  /** A new link id passes the guard: nothing leads to what is not stored. */
  lemma FreshLinkPassesGuard(s: Snapshot, l: EvidenceLink)
    requires Closed(s) && l.id !in s.links
    ensures ClosesNoCircle(s, l)
  {
    forall v ensures !Leads(s, v, L(l.id)) {
      if path :| IsChainFrom(s, path, v, L(l.id)) {
        assert RestsOn(s, path[|path| - 2], path[|path| - 1], true);
        RestedOnIsStored(s, path[|path| - 2], L(l.id), true);
      }
    }
  }

  lemma {:induction false} FreshLinksAreGuarded(s: Snapshot, events: seq<CaseLedgerEvent>)
    requires Sound(s) && Fold(s, events).Ok? && FreshLinks(s, events)
    ensures Guarded(s, events)
    decreases |events|
  {
    hide Step, Sound, Closed, ClosesNoCircle;
    if events != [] {
      var env := events[0];
      SoundIsClosed(s);
      if Effective(s, env) && env.event.EvidenceLinked? {
        FreshLinkPassesGuard(s, env.event.link);
      }
      StepKeepsSound(s, env);
      FreshLinksAreGuarded(Step(s, env).value, events[1..]);
    }
  }

  /** In particular, with distinct link ids the argument may also pass through the cited links to
      their evidence, and still never returns to its start. */
  lemma CitedProvenanceIsAcyclic(caseId: string, events: seq<CaseLedgerEvent>, path: seq<Node>)
    requires Reduce(caseId, events).Ok? && DistinctLinkIds(events)
    requires Chain(Reduce(caseId, events).value, path, true)
    ensures path[0] != path[|path| - 1]
  {
    var s := EmptySnapshot(caseId);
    EmptyIsAcyclic(caseId, true);
    DistinctIdsAreFresh(s, events);
    FreshLinksAreGuarded(s, events);
    RunStaysAcyclicExactlyWhen(caseId, events);
    hide Fold, Guarded, FreshLinks, Sound;
    AlwaysAtTheEnd(AcyclicWithLinks, s, events);
    assert !Circle(Reduce(caseId, events).value, path, true);
  }
}
