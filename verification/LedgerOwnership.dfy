/** What overwriting a link does to the stored links, and to the records that cite them. */
module LedgerOwnership {
  import opened LedgerTypes
  import opened LedgerSpec
  import opened LedgerReplay
  import opened LedgerInvariants
  import opened LedgerProvenance

  /** An accepted link event keeps all stored links as they are exactly when its link id is new:
      an event that repeats a stored link is refused, so writing over one always changes it. */
  lemma LinksSurviveExactlyWhenFresh(s: Snapshot, env: CaseLedgerEvent)
    requires Effective(s, env) && env.event.EvidenceLinked?
    ensures Extends(s.links, Step(s, env).value.links) <==> FreshLink(s, env.event)
  {
    EffectiveStep(s, env);
    StepPutsLinks(s, env);
    hide Step;
  }

  // ---------- Ownership of cited links ----------

  /** Every link a resolution or contradiction cites belongs to the record's hypothesis. */
  ghost predicate Owned(s: Snapshot) {
    && (forall r :: r in s.resolutions ==> LinksOwned(s, Cited(s.resolutions[r]), s.resolutions[r].hypothesisId))
    && (forall c :: c in s.contradictions ==>
          LinksOwned(s, s.contradictions[c].evidenceLinkIds, s.contradictions[c].hypothesisId))
  }

  /** Whoever cites link `l` cites it for hypothesis `h`. */
  ghost predicate CitedOnlyFor(s: Snapshot, l: string, h: string) {
    && (forall r :: r in s.resolutions && l in Cited(s.resolutions[r]) ==> s.resolutions[r].hypothesisId == h)
    && (forall c :: c in s.contradictions && l in s.contradictions[c].evidenceLinkIds ==>
          s.contradictions[c].hypothesisId == h)
  }

  lemma PutLinkOwnership(s: Snapshot, l: EvidenceLink, t: Snapshot)
    requires Owned(s)
    requires t.links == s.links[l.id := l] && t.resolutions == s.resolutions && t.contradictions == s.contradictions
    ensures Owned(t) <==> CitedOnlyFor(s, l.id, l.hypothesisId)
  {
    if CitedOnlyFor(s, l.id, l.hypothesisId) {
      forall r | r in t.resolutions
        ensures LinksOwned(t, Cited(t.resolutions[r]), t.resolutions[r].hypothesisId)
      {
        assert LinksOwned(s, Cited(s.resolutions[r]), s.resolutions[r].hypothesisId);
      }
      forall c | c in t.contradictions
        ensures LinksOwned(t, t.contradictions[c].evidenceLinkIds, t.contradictions[c].hypothesisId)
      {
        assert LinksOwned(s, s.contradictions[c].evidenceLinkIds, s.contradictions[c].hypothesisId);
      }
    }
    if Owned(t) {
      forall r | r in s.resolutions && l.id in Cited(s.resolutions[r])
        ensures s.resolutions[r].hypothesisId == l.hypothesisId
      {
        var i :| 0 <= i < |Cited(s.resolutions[r])| && Cited(s.resolutions[r])[i] == l.id;
        assert LinksOwned(t, Cited(t.resolutions[r]), t.resolutions[r].hypothesisId);
      }
      forall c | c in s.contradictions && l.id in s.contradictions[c].evidenceLinkIds
        ensures s.contradictions[c].hypothesisId == l.hypothesisId
      {
        var i :| 0 <= i < |s.contradictions[c].evidenceLinkIds| && s.contradictions[c].evidenceLinkIds[i] == l.id;
        assert LinksOwned(t, t.contradictions[c].evidenceLinkIds, t.contradictions[c].hypothesisId);
      }
    }
  }

  lemma WrittenOwnership(s: Snapshot, ev: LedgerEvent)
    requires Owned(s) && Admits(s, ev)
    ensures Owned(Written(s, ev)) <==> (ev.EvidenceLinked? ==> CitedOnlyFor(s, ev.link.id, ev.link.hypothesisId))
  {
    hide AcceptableHypothesis, AcceptablePrediction, AcceptableExperiment, AcceptableEvidence, AcceptableLink,
      AcceptableCommit, MayMove, CitedOnlyFor, Owned, LinksOwned, HypothesesAfter, ExperimentTable, TransitionOf;
    match ev
    case EvidenceLinked(l) => PutLinkOwnership(s, l, Written(s, ev));
    case ContradictionDetected(c) => OwnedWithContradiction(s, c, Written(s, ev));
    case HypothesisResolved(_, r) => OwnedWithResolution(s, r, Written(s, ev));
    case _ => SameCitations(s, Written(s, ev));
  }

  lemma SameCitations(s: Snapshot, t: Snapshot)
    requires t.links == s.links && t.resolutions == s.resolutions && t.contradictions == s.contradictions
    ensures Owned(t) <==> Owned(s)
  {
    assert forall ids, h :: LinksOwned(t, ids, h) <==> LinksOwned(s, ids, h);
    hide LinksOwned;
  }

  lemma OwnedWithContradiction(s: Snapshot, c: Contradiction, t: Snapshot)
    requires Owned(s) && LinksOwned(s, c.evidenceLinkIds, c.hypothesisId)
    requires t.links == s.links && t.resolutions == s.resolutions
    requires t.contradictions == s.contradictions[c.id := c]
    ensures Owned(t)
  {
    assert forall ids, h :: LinksOwned(t, ids, h) <==> LinksOwned(s, ids, h);
    hide LinksOwned;
  }

  lemma OwnedWithResolution(s: Snapshot, r: Resolution, t: Snapshot)
    requires Owned(s) && LinksOwned(s, Cited(r), r.hypothesisId)
    requires t.links == s.links && t.contradictions == s.contradictions
    requires t.resolutions == s.resolutions[r.id := r]
    ensures Owned(t)
  {
    assert forall ids, h :: LinksOwned(t, ids, h) <==> LinksOwned(s, ids, h);
    hide LinksOwned;
  }

  /** A step keeps the citations owned exactly when it does not hand a cited link to another
      hypothesis; only a link event can. */
  lemma OwnershipIsKeptExactlyWhen(s: Snapshot, env: CaseLedgerEvent)
    requires Owned(s) && Step(s, env).Ok?
    ensures Owned(Step(s, env).value) <==>
            (Effective(s, env) && env.event.EvidenceLinked? ==>
               CitedOnlyFor(s, env.event.link.id, env.event.link.hypothesisId))
  {
    if Replayed(s, env) {
      StepBookkeeping(s, env);
    } else {
      EffectiveStep(s, env);
      WrittenOwnership(s, env.event);
      var w, t := Written(s, env.event), Step(s, env).value;
      hide Step, Admits, Written, CitedOnlyFor;
      assert forall ids, h :: LinksOwned(t, ids, h) <==> LinksOwned(w, ids, h);
    }
  }

  /** Every link event that takes effect along the run leaves cited links to their hypothesis. */
  ghost predicate RespectsCitations(s: Snapshot, events: seq<CaseLedgerEvent>)
    requires Fold(s, events).Ok?
    decreases |events|
  {
    events == [] ||
    (&& (Effective(s, events[0]) && events[0].event.EvidenceLinked? ==>
           CitedOnlyFor(s, events[0].event.link.id, events[0].event.link.hypothesisId))
     && RespectsCitations(Step(s, events[0]).value, events[1..]))
  }

  lemma {:induction false} FoldStaysOwnedExactlyWhen(s: Snapshot, events: seq<CaseLedgerEvent>)
    requires Owned(s) && Fold(s, events).Ok?
    ensures Always(Owned, s, events) <==> RespectsCitations(s, events)
    decreases |events|
  {
    hide Step, Owned, Effective, CitedOnlyFor, Always;
    AlwaysUnfolds(Owned, s, events);
    if events != [] {
      var t := Step(s, events[0]).value;
      OwnershipIsKeptExactlyWhen(s, events[0]);
      if Owned(t) {
        FoldStaysOwnedExactlyWhen(t, events[1..]);
      } else {
        AlwaysUnfolds(Owned, t, events[1..]);
      }
    }
  }

  /** Along an accepted stream every cited link belongs at all times to the hypothesis of the records
      that cite it, exactly when no link event hands a cited link to another hypothesis. */
  lemma RunStaysOwnedExactlyWhen(caseId: string, events: seq<CaseLedgerEvent>)
    requires Reduce(caseId, events).Ok?
    ensures Always(Owned, EmptySnapshot(caseId), events) <==> RespectsCitations(EmptySnapshot(caseId), events)
  {
    FoldStaysOwnedExactlyWhen(EmptySnapshot(caseId), events);
  }

  lemma {:induction false} FreshLinksRespectCitations(s: Snapshot, events: seq<CaseLedgerEvent>)
    requires Sound(s) && Fold(s, events).Ok? && FreshLinks(s, events)
    ensures RespectsCitations(s, events)
    decreases |events|
  {
    hide Step, Sound, CitedOnlyFor;
    if events != [] {
      var env := events[0];
      if Effective(s, env) && env.event.EvidenceLinked? {
        FreshLinkIsNotCited(s, env.event.link);
      }
      StepKeepsSound(s, env);
      FreshLinksRespectCitations(Step(s, env).value, events[1..]);
    }
  }

  lemma FreshLinkIsNotCited(s: Snapshot, l: EvidenceLink)
    requires Sound(s) && l.id !in s.links
    ensures CitedOnlyFor(s, l.id, l.hypothesisId)
  {
    assert ResolutionsGrounded(s.resolutions, s.hypotheses.Keys, s.links.Keys);
    assert ContradictionsGrounded(s.contradictions, s.hypotheses.Keys, s.links.Keys);
  }

  /** In particular, if different link events carry different link ids, a cited link belongs to the
      citing record's hypothesis for ever. */
  lemma CitationsStayOwned(caseId: string, events: seq<CaseLedgerEvent>)
    requires Reduce(caseId, events).Ok? && DistinctLinkIds(events)
    ensures Owned(Reduce(caseId, events).value)
  {
    var s := EmptySnapshot(caseId);
    EmptyIsSound(caseId);
    DistinctIdsAreFresh(s, events);
    FreshLinksRespectCitations(s, events);
    RunStaysOwnedExactlyWhen(caseId, events);
    hide Fold, Sound, Owned;
    AlwaysAtTheEnd(Owned, s, events);
  }
}
