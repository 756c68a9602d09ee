/** A short accepted stream that reuses a link id. It breaks the guards of
    `RunStaysAcyclicExactlyWhen` and `RunStaysOwnedExactlyWhen`: afterwards a claim rests on itself, and a
    resolution cites a link of another hypothesis. */
module LedgerWitness {
  import opened Results
  import opened LedgerTypes
  import opened LedgerSpec
  import opened LedgerReplay
  import opened LedgerInvariants
  import opened LedgerOwnership
  import opened LedgerProvenance

  const CASE := "c"
  const FIRST := Hypothesis("h1", CASE, "x", [], "", Open, 1, 0)
  const SEEN := Evidence("e1", CASE, None, [], None, None, "")
  const LINK := EvidenceLink("l", CASE, "e1", "h1", None, Supports, "", "")
  const VERDICT := Resolution("r", CASE, "h1", AsConfirmed, ["l"], [], 0, "")
  const SECOND := Hypothesis("h2", CASE, "x", [ResolutionRef("r")], "", Open, 1, 0)
  const TRIAL := Experiment("t", CASE, ["h2"], [], "k", "", Planned, None, 0, [], 1, 0)
  const LATER := Evidence("e2", CASE, Some("t"), [], None, None, "")
  const RELINK := EvidenceLink("l", CASE, "e2", "h2", None, Supports, "", "")

  function Wrap(n: nat, id: string, kind: AggregateKind, aggregate: string, revision: nat, ev: LedgerEvent)
    : CaseLedgerEvent
  {
    CaseLedgerEvent(CASE, n, id, kind, aggregate, revision, SCHEMA_VERSION, ev)
  }

  const STREAM: seq<CaseLedgerEvent> := [
    Wrap(1, "1", HypothesisKind, "h1", 1, HypothesisProposed(FIRST)),
    Wrap(2, "2", EvidenceKind, "e1", 1, EvidenceRecorded(SEEN)),
    Wrap(3, "3", EvidenceLinkKind, "l", 1, EvidenceLinked(LINK)),
    Wrap(4, "4", HypothesisKind, "h1", 2, HypothesisResolved(1, VERDICT)),
    Wrap(5, "5", HypothesisKind, "h2", 1, HypothesisProposed(SECOND)),
    Wrap(6, "6", ExperimentKind, "t", 1, ExperimentPlanned(TRIAL)),
    Wrap(7, "7", EvidenceKind, "e2", 1, EvidenceRecorded(LATER)),
    Wrap(8, "8", EvidenceLinkKind, "l", 1, EvidenceLinked(RELINK))]

  const SETTLED := FIRST.(status := Confirmed, revision := 2)

  /** The projection after `n` events, which have the ids `ids`. */
  function After(
    n: nat, ids: set<string>, hypotheses: map<string, Hypothesis>, experiments: map<string, Experiment>,
    evidence: map<string, Evidence>, links: map<string, EvidenceLink>, resolutions: map<string, Resolution>)
    : Snapshot
  {
    Snapshot(CASE, n, n, hypotheses, map[], experiments, evidence, links, resolutions, map[], map[], ids)
  }

  const PROPOSED := map["h1" := FIRST]
  const RESOLVED := map["h1" := SETTLED]
  const RESTED := map["h1" := SETTLED, "h2" := SECOND]
  const ONE_ITEM := map["e1" := SEEN]
  const TWO_ITEMS := map["e1" := SEEN, "e2" := LATER]
  const LINKED := map["l" := LINK]
  const RELINKED := map["l" := RELINK]
  const JUDGED := map["r" := VERDICT]
  const TRIED := map["t" := TRIAL]

  function S1(): Snapshot {
    After(1, {"1"}, PROPOSED, map[], map[], map[], map[])
  }

  function S2(): Snapshot {
    After(2, {"1", "2"}, PROPOSED, map[], ONE_ITEM, map[], map[])
  }

  function S3(): Snapshot {
    After(3, {"1", "2", "3"}, PROPOSED, map[], ONE_ITEM, LINKED, map[])
  }

  function S4(): Snapshot {
    After(4, {"1", "2", "3", "4"}, RESOLVED, map[], ONE_ITEM, LINKED, JUDGED)
  }

  function S5(): Snapshot {
    After(5, {"1", "2", "3", "4", "5"}, RESTED, map[], ONE_ITEM, LINKED, JUDGED)
  }

  function S6(): Snapshot {
    After(6, {"1", "2", "3", "4", "5", "6"}, RESTED, TRIED, ONE_ITEM, LINKED, JUDGED)
  }

  function S7(): Snapshot {
    After(7, {"1", "2", "3", "4", "5", "6", "7"}, RESTED, TRIED, TWO_ITEMS, LINKED, JUDGED)
  }

  function S8(): Snapshot {
    After(8, {"1", "2", "3", "4", "5", "6", "7", "8"}, RESTED, TRIED, TWO_ITEMS, RELINKED, JUDGED)
  }

  lemma Advance(s: Snapshot, env: CaseLedgerEvent, t: Snapshot)
    requires env.caseId == s.caseId && env.eventId !in s.appliedEventIds
    requires env.seqNo == s.projectedSeq + 1 && env.schemaVersion == SCHEMA_VERSION
    requires Admits(s, env.event) && Address(s, env.event) == (env.kind, env.aggregateId, env.aggregateRevision)
    requires t.caseId == s.caseId && t.version == t.projectedSeq == env.seqNo
    requires t.appliedEventIds == s.appliedEventIds + {env.eventId}
    requires t.hypotheses == Written(s, env.event).hypotheses
    requires t.predictions == Written(s, env.event).predictions
    requires t.experiments == Written(s, env.event).experiments
    requires t.evidence == Written(s, env.event).evidence
    requires t.links == Written(s, env.event).links
    requires t.resolutions == Written(s, env.event).resolutions
    requires t.contradictions == Written(s, env.event).contradictions
    requires t.commits == Written(s, env.event).commits
    ensures Step(s, env) == Ok(t)
  {
    AcceptanceIsAdmission(s, env);
    WrittenBookkeeping(s, env.event);
    hide PayloadVerdict, Admits, Written;
    assert Recorded(s, env) == t;
  }

  lemma Step1()
    ensures Step(EmptySnapshot(CASE), STREAM[0]) == Ok(S1())
  {
    Short();
    Advance(EmptySnapshot(CASE), STREAM[0], S1());
  }

  lemma Step2()
    ensures Step(S1(), STREAM[1]) == Ok(S2())
  {
    Advance(S1(), STREAM[1], S2());
  }

  lemma Step3()
    ensures Step(S2(), STREAM[2]) == Ok(S3())
  {
    Advance(S2(), STREAM[2], S3());
  }

  lemma Step4()
    ensures Step(S3(), STREAM[3]) == Ok(S4())
  {
    Advance(S3(), STREAM[3], S4());
  }

  lemma Step5()
    ensures Step(S4(), STREAM[4]) == Ok(S5())
  {
    Short();
    Advance(S4(), STREAM[4], S5());
  }

  lemma Step6()
    ensures Step(S5(), STREAM[5]) == Ok(S6())
  {
    Short();
    Advance(S5(), STREAM[5], S6());
  }

  lemma Step7()
    ensures Step(S6(), STREAM[6]) == Ok(S7())
  {
    Advance(S6(), STREAM[6], S7());
  }

  lemma Step8()
    ensures Step(S7(), STREAM[7]) == Ok(S8())
  {
    Advance(S7(), STREAM[7], S8());
  }

  lemma Short()
    ensures Text.Trim("x") == "x" && Text.Trim("k") == "k"
  {
  }

  lemma Extend(n: nat, s: Snapshot, t: Snapshot)
    requires n < |STREAM| && Reduce(CASE, STREAM[..n]) == Ok(s) && Step(s, STREAM[n]) == Ok(t)
    ensures Reduce(CASE, STREAM[..n + 1]) == Ok(t)
  {
    hide Step, Fold;
    assert STREAM[..n + 1] == STREAM[..n] + [STREAM[n]];
    FoldConcat(EmptySnapshot(CASE), STREAM[..n], [STREAM[n]]);
    OneEvent(s, STREAM[n]);
  }

  lemma StreamIsAccepted()
    ensures Reduce(CASE, STREAM) == Ok(S8())
  {
    hide Step;
    assert Reduce(CASE, STREAM[..0]) == Ok(EmptySnapshot(CASE));
    Step1();
    Extend(0, EmptySnapshot(CASE), S1());
    Step2();
    Extend(1, S1(), S2());
    Step3();
    Extend(2, S2(), S3());
    Step4();
    Extend(3, S3(), S4());
    Step5();
    Extend(4, S4(), S5());
    Step6();
    Extend(5, S5(), S6());
    Step7();
    Extend(6, S6(), S7());
    Step8();
    Extend(7, S7(), S8());
    assert STREAM[..8] == STREAM;
  }

  const CIRCLE: seq<Node> := [H("h2"), R("r"), L("l"), E("e2"), X("t"), H("h2")]

  lemma FinalTables()
    ensures var s := S8();
            && s.hypotheses == map["h1" := SETTLED, "h2" := SECOND] && s.resolutions == map["r" := VERDICT]
            && s.links == map["l" := RELINK] && s.evidence == map["e1" := SEEN, "e2" := LATER]
            && s.experiments == map["t" := TRIAL]
  {
  }

  lemma CircleIsAChain()
    ensures Chain(S8(), CIRCLE, true)
  {
    FinalTables();
    hide S8;
    var s := S8();
    assert RestsOn(s, H("h2"), R("r"), true) by { assert SECOND.premiseRefs[0] == ResolutionRef("r"); }
    assert RestsOn(s, R("r"), L("l"), true) by { assert Cited(VERDICT)[0] == "l"; }
    assert RestsOn(s, L("l"), E("e2"), true);
    assert RestsOn(s, E("e2"), X("t"), true);
    assert RestsOn(s, X("t"), H("h2"), true) by { assert TRIAL.hypothesisIds[0] == "h2"; }
    hide RestsOn;
  }

  lemma CitationIsLost()
    ensures !Owned(S8())
  {
    FinalTables();
    hide S8;
    var r := S8().resolutions["r"];
    assert r == VERDICT && Cited(r) == ["l"] && Cited(r)[0] == "l";
    assert !LinksOwned(S8(), Cited(r), r.hypothesisId);
  }

  /** The stream is accepted; then `h2` rests on the resolution of `h1`, which cites the link, which
      now names evidence from an experiment on `h2`; and the cited link is no longer one of `h1`. */
  lemma ReusedLinkIdClosesACircle()
    ensures Reduce(CASE, STREAM).Ok?
    ensures Chain(Reduce(CASE, STREAM).value, CIRCLE, true) && CIRCLE[0] == CIRCLE[|CIRCLE| - 1]
    ensures !Owned(Reduce(CASE, STREAM).value)
  {
    StreamIsAccepted();
    CircleIsAChain();
    CitationIsLost();
    hide Reduce, Chain, Owned;
  }
}
