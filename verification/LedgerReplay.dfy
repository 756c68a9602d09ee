/** Replaying a stream: prefixes, repetitions and the projection's bookkeeping. */
module LedgerReplay {
  import opened Results
  import opened LedgerTypes
  import opened LedgerSpec

  /** A stream may be cut anywhere and applied in two parts. */
  lemma {:induction false} FoldConcat(s: Snapshot, a: seq<CaseLedgerEvent>, b: seq<CaseLedgerEvent>)
    ensures Fold(s, a + b) == match Fold(s, a) case Err(e) => Err(e) case Ok(t) => Fold(t, b)
    decreases |a|
  {
    hide Step;
    if a == [] {
      assert a + b == b;
    } else {
      assert (a + b)[1..] == a[1..] + b;
      if Step(s, a[0]).Ok? {
        FoldConcat(Step(s, a[0]).value, a[1..], b);
      }
    }
  }

  lemma OneEvent(s: Snapshot, env: CaseLedgerEvent)
    ensures Fold(s, [env]) == Step(s, env)
  {
    hide Step;
    assert [env][1..] == [];
  }

  /** One more event of a stream that was accepted so far. */
  lemma ReduceOneMore(caseId: string, events: seq<CaseLedgerEvent>, i: nat)
    requires i < |events| && Reduce(caseId, events[..i]).Ok?
    ensures Reduce(caseId, events[..i + 1]) == Step(Reduce(caseId, events[..i]).value, events[i])
    ensures Step(Reduce(caseId, events[..i]).value, events[i]).Err? ==>
              Reduce(caseId, events) == Step(Reduce(caseId, events[..i]).value, events[i])
  {
    hide Step;
    var s := Reduce(caseId, events[..i]).value;
    assert events[..i + 1] == events[..i] + [events[i]];
    FoldConcat(EmptySnapshot(caseId), events[..i], [events[i]]);
    OneEvent(s, events[i]);
    assert events == events[..i + 1] + events[i + 1..];
    FoldConcat(EmptySnapshot(caseId), events[..i + 1], events[i + 1..]);
  }

  // ---------- What holds all along a run ----------

  ghost predicate HoldsAfter(p: Snapshot -> bool, s: Snapshot, events: seq<CaseLedgerEvent>) {
    Fold(s, events).Ok? && p(Fold(s, events).value)
  }

  /** `p` holds at the start, and after every prefix of the stream. */
  ghost predicate Always(p: Snapshot -> bool, s: Snapshot, events: seq<CaseLedgerEvent>) {
    forall n :: 0 <= n <= |events| ==> HoldsAfter(p, s, events[..n])
  }

  lemma AlwaysUnfolds(p: Snapshot -> bool, s: Snapshot, events: seq<CaseLedgerEvent>)
    requires Fold(s, events).Ok?
    ensures Always(p, s, events) <==> p(s) && (events == [] || Always(p, Step(s, events[0]).value, events[1..]))
  {
    hide Step;
    assert events[..0] == [];
    assert HoldsAfter(p, s, events[..0]) <==> p(s);
    if events != [] {
      var t, rest := Step(s, events[0]).value, events[1..];
      forall n: nat | n <= |rest| ensures HoldsAfter(p, s, events[..n + 1]) <==> HoldsAfter(p, t, rest[..n]) {
        assert events[..n + 1][1..] == rest[..n] && events[..n + 1][0] == events[0];
      }
      hide HoldsAfter;
      if Always(p, s, events) {
        assert HoldsAfter(p, s, events[..0]);
        forall n | 0 <= n <= |rest| ensures HoldsAfter(p, t, rest[..n]) {
          assert HoldsAfter(p, s, events[..n + 1]);
        }
      }
      if p(s) && Always(p, t, rest) {
        forall n | 0 <= n <= |events| ensures HoldsAfter(p, s, events[..n]) {
          if n > 0 {
            assert HoldsAfter(p, t, rest[..n - 1]);
          }
        }
      }
    }
  }

  lemma AlwaysAtTheEnd(p: Snapshot -> bool, s: Snapshot, events: seq<CaseLedgerEvent>)
    requires Always(p, s, events)
    ensures HoldsAfter(p, s, events)
  {
    assert events[..|events|] == events;
    assert HoldsAfter(p, s, events[..|events|]);
  }

  // ---------- Repetitions ----------

  /** The event would be taken for a repetition and skipped. */
  predicate Covered(s: Snapshot, env: CaseLedgerEvent) {
    env.caseId == s.caseId && env.eventId in s.appliedEventIds && env.seqNo <= s.projectedSeq
  }

  /** What one accepted event does to the bookkeeping fields. */
  lemma StepBookkeeping(s: Snapshot, env: CaseLedgerEvent)
    requires Step(s, env).Ok?
    ensures var t := Step(s, env).value;
            && t.caseId == s.caseId
            && t.appliedEventIds == s.appliedEventIds + {env.eventId}
            && t.projectedSeq == s.projectedSeq + (if env.eventId in s.appliedEventIds then 0 else 1)
            && Covered(t, env)
            && (env.eventId in s.appliedEventIds ==> t == s)
  {
    WrittenBookkeeping(s, env.event);
    hide PayloadVerdict, Written;
  }

  /** Events applied so far stay covered, and are all covered at the end. */
  lemma {:induction false} FoldCovers(s: Snapshot, events: seq<CaseLedgerEvent>)
    requires Fold(s, events).Ok?
    ensures var t := Fold(s, events).value;
            && t.caseId == s.caseId && s.appliedEventIds <= t.appliedEventIds && s.projectedSeq <= t.projectedSeq
            && forall i :: 0 <= i < |events| ==> Covered(t, events[i])
    decreases |events|
  {
    hide Step;
    if events != [] {
      StepBookkeeping(s, events[0]);
      FoldCovers(Step(s, events[0]).value, events[1..]);
      assert forall i :: 1 <= i < |events| ==> events[i] == events[1..][i - 1];
    }
  }

  lemma {:induction false} FoldOverCovered(s: Snapshot, events: seq<CaseLedgerEvent>)
    requires forall i :: 0 <= i < |events| ==> Covered(s, events[i])
    ensures Fold(s, events) == Ok(s)
    decreases |events|
  {
    if events != [] {
      assert Covered(s, events[0]);
      assert Step(s, events[0]) == Ok(s) by { hide PayloadVerdict, Recorded; }
      FoldOverCovered(s, events[1..]);
    }
  }

  /** The events of `b` were applied; delivering them again, with what follows, changes nothing. */
  lemma RedeliveredPart(
    s: Snapshot, a: seq<CaseLedgerEvent>, b: seq<CaseLedgerEvent>, c: seq<CaseLedgerEvent>)
    requires Fold(s, a + b + c).Ok?
    ensures Fold(s, a + b).Ok?
    ensures Fold(Fold(s, a + b).value, b + c) == Fold(s, a + b + c)
  {
    FoldConcat(s, a + b, c);
    var t := Fold(s, a + b).value;
    FoldCovers(s, a + b);
    forall i | 0 <= i < |b| ensures Covered(t, b[i]) {
      assert (a + b)[|a| + i] == b[i];
    }
    hide Fold, Covered;
    FoldOverCovered(t, b);
    FoldConcat(t, b, c);
  }

  /** At-least-once delivery is exactly-once delivery: restarting an accepted stream from any
      earlier point, on the projection reached at any later one, ends in the same projection. */
  lemma RedeliveryIsIdempotent(s: Snapshot, events: seq<CaseLedgerEvent>, k: nat, n: nat)
    requires k <= n <= |events| && Fold(s, events).Ok?
    ensures Fold(s, events[..n]).Ok?
    ensures Fold(Fold(s, events[..n]).value, events[k..]) == Fold(s, events)
  {
    hide Fold;
    var a, b, c := events[..k], events[k..n], events[n..];
    assert events == a + b + c && events[..n] == a + b && events[k..] == b + c;
    RedeliveredPart(s, a, b, c);
  }

  /** The stream without the events whose id was seen before. */
  function FirstDeliveries(seen: set<string>, events: seq<CaseLedgerEvent>): seq<CaseLedgerEvent>
    decreases |events|
  {
    if events == [] then []
    else if events[0].eventId in seen then FirstDeliveries(seen, events[1..])
    else [events[0]] + FirstDeliveries(seen + {events[0].eventId}, events[1..])
  }

  /** Every repetition in the stream is of this case and carries an already projected number. */
  predicate HarmlessRepeats(caseId: string, projected: nat, seen: set<string>, events: seq<CaseLedgerEvent>)
    decreases |events|
  {
    events == [] ||
    if events[0].eventId in seen
    then events[0].caseId == caseId && events[0].seqNo <= projected
         && HarmlessRepeats(caseId, projected, seen, events[1..])
    else HarmlessRepeats(caseId, projected + 1, seen + {events[0].eventId}, events[1..])
  }

  /** A repetition is accepted exactly when it is covered, and then changes nothing. */
  lemma RepetitionStep(s: Snapshot, env: CaseLedgerEvent)
    requires env.eventId in s.appliedEventIds
    ensures Step(s, env).Ok? <==> Covered(s, env)
    ensures Step(s, env).Ok? ==> Step(s, env) == Ok(s)
  {
    hide PayloadVerdict, Recorded;
  }

  lemma FoldCons(s: Snapshot, env: CaseLedgerEvent, rest: seq<CaseLedgerEvent>)
    ensures Step(s, env).Err? ==> Fold(s, [env] + rest) == Step(s, env)
    ensures Step(s, env).Ok? ==> Fold(s, [env] + rest) == Fold(Step(s, env).value, rest)
  {
    hide Step;
    assert ([env] + rest)[1..] == rest;
  }

  /** A stream is accepted exactly when its first deliveries are and its repetitions are harmless,
      and then both end in the same projection. */
  lemma {:induction false} RepeatsAreIgnored(s: Snapshot, events: seq<CaseLedgerEvent>)
    ensures var once := FirstDeliveries(s.appliedEventIds, events);
            && (Fold(s, events).Ok? <==>
                  Fold(s, once).Ok? && HarmlessRepeats(s.caseId, s.projectedSeq, s.appliedEventIds, events))
            && (Fold(s, events).Ok? ==> Fold(s, once) == Fold(s, events))
    decreases |events|
  {
    hide Step;
    if events != [] {
      var env, rest := events[0], events[1..];
      if env.eventId in s.appliedEventIds {
        RepetitionStep(s, env);
        RepeatsAreIgnored(s, rest);
      } else {
        FoldCons(s, env, FirstDeliveries(s.appliedEventIds + {env.eventId}, rest));
        if Step(s, env).Ok? {
          StepBookkeeping(s, env);
          RepeatsAreIgnored(Step(s, env).value, rest);
        }
      }
    }
  }

  /** A link event that says what a stored link says is accepted exactly when it is a repetition of an
      applied event: saying a relation again, in an event of its own, is an error and not ignored. */
  lemma RepeatedMeaningIsRefused(s: Snapshot, env: CaseLedgerEvent, k: string)
    requires env.event.EvidenceLinked? && k in s.links && SameMeaning(s.links[k], env.event.link)
    ensures Step(s, env).Ok? <==> Covered(s, env)
    ensures Step(s, env).Ok? ==> Step(s, env) == Ok(s)
  {
    assert !AcceptableLink(s, env.event.link);
    hide AcceptableLink, Recorded;
  }
}
