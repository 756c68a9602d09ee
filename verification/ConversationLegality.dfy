/** When a rebuilt conversation is legal: every tool call has exactly one result, and has it later. */
module ConversationLegality {
  import opened Results
  import opened Conversation

  // ---------- Legality, by positions ----------

  predicate Calls(m: Message, c: string) {
    exists i :: 0 <= i < |CallsOf(m)| && CallsOf(m)[i].id == c
  }

  predicate Answers(m: Message, c: string) {
    m.role == Tool && m.toolCallId == Some(c)
  }

  /** Message `t` is the one result for `c`. */
  ghost predicate OnlyAnswer(ms: seq<Message>, c: string, t: nat) {
    && t < |ms| && Answers(ms[t], c)
    && forall u :: 0 <= u < |ms| && Answers(ms[u], c) ==> u == t
  }

  ghost predicate LegalFor(ms: seq<Message>, c: string) {
    forall p :: 0 <= p < |ms| && Calls(ms[p], c) ==> exists t :: p < t && OnlyAnswer(ms, c, t)
  }

  /** Every call in the list has exactly one tool message with its id, at a later position. */
  ghost predicate Legal(ms: seq<Message>) {
    forall c :: LegalFor(ms, c)
  }

  // ---------- The trace of one call id through a message list ----------

  datatype Mark = Asked | Replied

  function CallMarks(calls: seq<ToolCall>, c: string): seq<Mark> {
    if calls == [] then [] else
    CallMarks(calls[..|calls| - 1], c) + if calls[|calls| - 1].id == c then [Asked] else []
  }

  function Marks(m: Message, c: string): seq<Mark> {
    if Answers(m, c) then [Replied] else CallMarks(CallsOf(m), c)
  }

  function Trace(ms: seq<Message>, c: string): seq<Mark> {
    if ms == [] then [] else Trace(ms[..|ms| - 1], c) + Marks(ms[|ms| - 1], c)
  }

  /** No question, or some questions and then the only reply. */
  predicate LegalTrace(t: seq<Mark>) {
    Asked in t ==> |t| >= 2 && t[|t| - 1] == Replied && Replied !in t[..|t| - 1]
  }

  lemma {:induction false} TraceConcat(a: seq<Message>, b: seq<Message>, c: string)
    ensures Trace(a + b, c) == Trace(a, c) + Trace(b, c)
    decreases |b|
  {
    hide Marks;
    if b == [] {
      assert a + b == a;
    } else {
      assert (a + b)[..|a + b| - 1] == a + b[..|b| - 1];
      TraceConcat(a, b[..|b| - 1], c);
    }
  }

  lemma TraceOfOne(m: Message, c: string)
    ensures Trace([m], c) == Marks(m, c)
  {
    assert [m][..0] == [];
  }

  lemma {:induction false} MarksOfCalls(calls: seq<ToolCall>, c: string)
    ensures Replied !in CallMarks(calls, c)
    ensures Asked in CallMarks(calls, c) <==> exists i :: 0 <= i < |calls| && calls[i].id == c
  {
    if calls != [] {
      MarksOfCalls(calls[..|calls| - 1], c);
      assert calls == calls[..|calls| - 1] + [calls[|calls| - 1]];
    }
  }

  lemma MarksMeaning(m: Message, c: string)
    ensures Asked in Marks(m, c) <==> Calls(m, c)
    ensures Replied in Marks(m, c) <==> Answers(m, c)
    ensures Answers(m, c) ==> Marks(m, c) == [Replied]
  {
    MarksOfCalls(CallsOf(m), c);
  }

  predicate SomeCalls(ms: seq<Message>, c: string) {
    exists p :: 0 <= p < |ms| && Calls(ms[p], c)
  }

  predicate SomeAnswers(ms: seq<Message>, c: string) {
    exists t :: 0 <= t < |ms| && Answers(ms[t], c)
  }

  lemma SomeOfAppended(ms: seq<Message>, m: Message, c: string)
    ensures SomeCalls(ms + [m], c) <==> SomeCalls(ms, c) || Calls(m, c)
    ensures SomeAnswers(ms + [m], c) <==> SomeAnswers(ms, c) || Answers(m, c)
  {
    hide Calls, Answers;
    var all := ms + [m];
    assert all[|ms|] == m;
    assert forall i :: 0 <= i < |ms| ==> all[i] == ms[i];
  }

  predicate HasMark(ms: seq<Message>, c: string, mark: Mark) {
    mark in Trace(ms, c)
  }

  lemma InEither(t: seq<Mark>, u: seq<Mark>, m: Mark)
    ensures m in t + u <==> m in t || m in u
  {
  }

  lemma MarkOfAppended(ms: seq<Message>, m: Message, c: string, mark: Mark)
    ensures HasMark(ms + [m], c, mark) <==> HasMark(ms, c, mark) || mark in Marks(m, c)
  {
    AppendTrace(ms, m, c);
    hide Marks;
    InEither(Trace(ms, c), Marks(m, c), mark);
  }

  lemma NoMarks(c: string, mark: Mark)
    ensures !HasMark([], c, mark)
  {
  }

  lemma {:induction false} TraceHasMarks(ms: seq<Message>, c: string)
    ensures HasMark(ms, c, Asked) <==> SomeCalls(ms, c)
    ensures HasMark(ms, c, Replied) <==> SomeAnswers(ms, c)
  {
    hide HasMark, Marks, Calls, Answers;
    if ms == [] {
      NoMarks(c, Asked);
      NoMarks(c, Replied);
    } else {
      var rest, m := ms[..|ms| - 1], ms[|ms| - 1];
      hide SomeCalls, SomeAnswers;
      TraceHasMarks(rest, c);
      MarksMeaning(m, c);
      SomeOfAppended(rest, m, c);
      MarkOfAppended(rest, m, c, Asked);
      MarkOfAppended(rest, m, c, Replied);
      assert ms == rest + [m];
    }
  }

  lemma TraceMeaning(ms: seq<Message>, c: string)
    ensures Asked in Trace(ms, c) <==> SomeCalls(ms, c)
    ensures Replied in Trace(ms, c) <==> SomeAnswers(ms, c)
  {
    TraceHasMarks(ms, c);
    hide Trace, SomeCalls, SomeAnswers;
  }

  lemma TraceOfThree(front: seq<Message>, m: Message, tail: seq<Message>, c: string)
    ensures Trace(front + [m] + tail, c) == Trace(front, c) + Marks(m, c) + Trace(tail, c)
  {
    TraceConcat(front + [m], tail, c);
    AppendTrace(front, m, c);
    hide Trace, Marks;
  }

  lemma TraceAround(front: seq<Message>, m: Message, tail: seq<Message>, c: string)
    requires Answers(m, c)
    ensures Trace(front + [m] + tail, c) == Trace(front, c) + [Replied] + Trace(tail, c)
  {
    MarksMeaning(m, c);
    TraceOfThree(front, m, tail, c);
    hide Trace, Marks, Answers;
  }

  lemma LegalShape(a: seq<Mark>, b: seq<Mark>)
    requires Asked in a + [Replied] + b
    ensures LegalTrace(a + [Replied] + b) <==> Replied !in a && Asked !in b && Replied !in b
  {
    var all := a + [Replied] + b;
    assert all[|a|] == Replied;
    if LegalTrace(all) {
      var front := all[..|all| - 1];
      assert b == [] && front == a;
    }
    if Asked !in b && Replied !in b {
      assert |b| == 0;
      assert all[..|all| - 1] == a;
    }
  }

  lemma CallersDoNotAnswer(m: Message, c: string)
    ensures !(Calls(m, c) && Answers(m, c))
  {
  }

  /** With a result in the middle, legality forbids results around it and calls behind it. */
  lemma LegalByParts(ms: seq<Message>, front: seq<Message>, m: Message, tail: seq<Message>, c: string)
    requires ms == front + [m] + tail && Answers(m, c) && SomeCalls(ms, c)
    ensures LegalFor(ms, c) <==> !SomeAnswers(front, c) && !SomeAnswers(tail, c) && !SomeCalls(tail, c)
  {
    CallersDoNotAnswer(m, c);
    hide Calls, Answers;
    var t := |front|;
    assert ms[t] == m;
    assert forall u :: 0 <= u < t ==> front[u] == ms[u];
    assert forall u :: t < u < |ms| ==> tail[u - t - 1] == ms[u];
    assert forall u :: 0 <= u < |tail| ==> tail[u] == ms[t + 1 + u];
    var p :| 0 <= p < |ms| && Calls(ms[p], c);
    if LegalFor(ms, c) {
      var q :| p < q && OnlyAnswer(ms, c, q);
      assert q == t;
    } else if !SomeAnswers(front, c) && !SomeAnswers(tail, c) {
      assert OnlyAnswer(ms, c, t);
    }
  }

  lemma LegalWithAnswer(ms: seq<Message>, front: seq<Message>, m: Message, tail: seq<Message>, c: string)
    requires ms == front + [m] + tail && Answers(m, c) && SomeCalls(ms, c)
    ensures LegalFor(ms, c) <==> LegalTrace(Trace(ms, c))
  {
    LegalByParts(ms, front, m, tail, c);
    hide LegalFor, SomeCalls, SomeAnswers, LegalTrace;
    TraceMeaning(ms, c);
    TraceAround(front, m, tail, c);
    hide Answers;
    TraceMeaning(front, c);
    TraceMeaning(tail, c);
    LegalShape(Trace(front, c), Trace(tail, c));
  }

  /** Legality by positions is legality of the trace. */
  lemma LegalIsLegalTrace(ms: seq<Message>, c: string)
    ensures LegalFor(ms, c) <==> LegalTrace(Trace(ms, c))
  {
    if SomeCalls(ms, c) && SomeAnswers(ms, c) {
      var t :| 0 <= t < |ms| && Answers(ms[t], c);
      assert ms == ms[..t] + [ms[t]] + ms[t + 1..];
      LegalWithAnswer(ms, ms[..t], ms[t], ms[t + 1..], c);
    } else {
      TraceMeaning(ms, c);
      hide Trace, Calls, Answers;
    }
  }

  // ---------- What the repair does to a trace ----------

  lemma {:induction false} SynthesizedTrace(calls: seq<ToolCall>, answered: set<string>, c: string)
    ensures c in answered ==> Trace(Synthesized(calls, answered), c) == []
    ensures c !in answered ==>
              Trace(Synthesized(calls, answered), c) == seq(|CallMarks(calls, c)|, _ => Replied)
  {
    if calls != [] {
      var rest, call := calls[..|calls| - 1], calls[|calls| - 1];
      SynthesizedTrace(rest, answered, c);
      if call.id !in answered {
        var m := ToolResult(call.id, call.name, MISSING);
        TraceConcat(Synthesized(rest, answered), [m], c);
        TraceOfOne(m, c);
        hide MISSING;
        assert Marks(m, c) == if call.id == c then [Replied] else [];
      }
    }
  }

  lemma {:induction false} AnsweredMeaning(ms: seq<Message>, c: string)
    ensures c in Answered(ms) <==> exists t :: 0 <= t < |ms| && Answers(ms[t], c)
  {
    if c in Answered(ms) {
      var m :| m in ms && m.role == Tool && m.toolCallId == Some(c);
      var t :| 0 <= t < |ms| && ms[t] == m;
      assert Answers(ms[t], c);
    }
    if t :| 0 <= t < |ms| && Answers(ms[t], c) {
      assert ms[t] in ms;
    }
  }

  lemma CompletedTrace(m: Message, rest: seq<Message>, answered: set<string>, c: string)
    ensures Trace(Completed([m] + rest, answered), c) ==
            Marks(m, c) + Trace(MissingAfter(m, answered), c) + Trace(Completed(rest, answered), c)
    ensures Trace([m] + rest, c) == Marks(m, c) + Trace(rest, c)
  {
    hide Marks, MissingAfter, Trace;
    var ms, missing := [m] + rest, MissingAfter(m, answered);
    assert ms[0] == m && ms[1..] == rest;
    TraceConcat([m] + missing, Completed(rest, answered), c);
    TraceConcat([m], missing, c);
    TraceConcat([m], rest, c);
    TraceOfOne(m, c);
  }

  lemma MissingTrace(m: Message, answered: set<string>, c: string)
    ensures c in answered ==> Trace(MissingAfter(m, answered), c) == []
    ensures c !in answered ==> Trace(MissingAfter(m, answered), c) == seq(|CallMarks(CallsOf(m), c)|, _ => Replied)
  {
    SynthesizedTrace(CallsOf(m), answered, c);
    hide Trace, Synthesized;
  }

  /** An answered id keeps its trace. */
  lemma {:induction false} AnsweredKeepsTrace(ms: seq<Message>, answered: set<string>, c: string)
    requires c in answered
    ensures Trace(Completed(ms, answered), c) == Trace(ms, c)
  {
    hide Marks, MissingAfter;
    if ms != [] {
      assert ms == [ms[0]] + ms[1..];
      AnsweredKeepsTrace(ms[1..], answered, c);
      CompletedTrace(ms[0], ms[1..], answered, c);
      MissingTrace(ms[0], answered, c);
      hide Trace, Completed;
    }
  }

  /** An id without a result gets one reply per call, and the calls stay. */
  lemma {:induction false} UnansweredGetsReplies(ms: seq<Message>, answered: set<string>, c: string)
    requires c !in answered && Replied !in Trace(ms, c)
    ensures var t := Trace(Completed(ms, answered), c);
            && multiset(t)[Replied] == |Trace(ms, c)| && multiset(t)[Asked] == |Trace(ms, c)|
            && (Trace(ms, c) == [Asked] ==> t == [Asked, Replied])
  {
    hide MissingAfter, CallMarks;
    if ms != [] {
      var m, rest := ms[0], ms[1..];
      assert ms == [m] + rest;
      CompletedTrace(m, rest, answered, c);
      MissingTrace(m, answered, c);
      MarksMeaning(m, c);
      hide Trace, Completed, Answers;
      assert Marks(m, c) == CallMarks(CallsOf(m), c);
      hide Marks;
      UnansweredGetsReplies(rest, answered, c);
      var replies, tail := Trace(MissingAfter(m, answered), c), Trace(Completed(rest, answered), c);
      JoinReplies(Marks(m, c), replies, Trace(rest, c), tail);
    }
  }

  lemma JoinReplies(marks: seq<Mark>, replies: seq<Mark>, rest: seq<Mark>, tail: seq<Mark>)
    requires Replied !in marks && replies == seq(|marks|, _ => Replied)
    requires multiset(tail)[Replied] == |rest| && multiset(tail)[Asked] == |rest|
    requires rest == [Asked] ==> tail == [Asked, Replied]
    ensures var t := marks + replies + tail;
            && multiset(t)[Replied] == |marks + rest| && multiset(t)[Asked] == |marks + rest|
            && (marks + rest == [Asked] ==> t == [Asked, Replied])
  {
    OnlyAsked(marks);
    OnlyReplied(replies);
    assert multiset(marks + replies + tail) == multiset(marks) + multiset(replies) + multiset(tail);
    if marks + rest == [Asked] {
      if marks == [] {
        assert rest == [Asked];
        assert marks + replies + tail == tail;
      } else {
        assert rest == [] && marks == [Asked] && replies == [Replied];
        EmptyCounts(tail);
      }
    }
  }

  lemma EmptyCounts(t: seq<Mark>)
    ensures t == [] || multiset(t)[Asked] > 0 || multiset(t)[Replied] > 0
  {
    if t != [] {
      assert t[0] in multiset(t);
      assert t[0] == Asked || t[0] == Replied;
    }
  }

  lemma {:induction false} OnlyAsked(t: seq<Mark>)
    requires Replied !in t
    ensures multiset(t)[Asked] == |t| && multiset(t)[Replied] == 0
    ensures |t| == 1 ==> t == [Asked]
  {
    if t != [] {
      var n := |t| - 1;
      assert t == t[..n] + [t[n]] && t[n] in t;
      assert t[n] == Asked;
      OnlyAsked(t[..n]);
    }
  }

  lemma {:induction false} OnlyReplied(t: seq<Mark>)
    requires forall i :: 0 <= i < |t| ==> t[i] == Replied
    ensures multiset(t)[Replied] == |t| && multiset(t)[Asked] == 0
  {
    if t != [] {
      var n := |t| - 1;
      assert t == t[..n] + [t[n]];
      OnlyReplied(t[..n]);
    }
  }

  /** The repair makes `c` legal exactly when its trace was legal or a single open question. */
  lemma RepairVerdict(ms: seq<Message>, c: string)
    ensures LegalFor(Repaired(ms), c) <==> LegalTrace(Trace(ms, c)) || Trace(ms, c) == [Asked]
  {
    hide Completed;
    var t, u := Trace(ms, c), Trace(Repaired(ms), c);
    LegalIsLegalTrace(Repaired(ms), c);
    AnsweredMeaning(ms, c);
    TraceMeaning(ms, c);
    if c in Answered(ms) {
      AnsweredKeepsTrace(ms, Answered(ms), c);
    } else {
      UnansweredGetsReplies(ms, Answered(ms), c);
      hide Trace, Answers, Calls, Answered, LegalFor;
      RepliesVerdict(t, u);
    }
  }

  lemma RepliesVerdict(t: seq<Mark>, u: seq<Mark>)
    requires Replied !in t && multiset(u)[Replied] == |t| && multiset(u)[Asked] == |t|
    requires t == [Asked] ==> u == [Asked, Replied]
    ensures LegalTrace(u) <==> LegalTrace(t) || t == [Asked]
  {
    if t == [] {
      EmptyCounts(u);
    } else if |t| == 1 {
      OnlyAsked(t);
    } else {
      OneReplyOnly(u);
      assert t[0] in t && t[0] == Asked;
      assert t[|t| - 1] in t;
    }
  }

  lemma OneReplyOnly(u: seq<Mark>)
    requires multiset(u)[Replied] >= 2 && multiset(u)[Asked] >= 1
    ensures !LegalTrace(u)
  {
    assert Asked in u;
    if |u| >= 1 && Replied !in u[..|u| - 1] {
      assert u == u[..|u| - 1] + [u[|u| - 1]];
      OnlyAsked(u[..|u| - 1]);
    }
  }

  // ---------- The log ----------

  /** What the events say about one native call id. */
  datatype Phase = Unseen | PendingOnce | PendingAgain | Settled | Spoiled

  function OutcomeOf(ev: Event): Option<string> {
    match ev
    case ToolReturned(_, _, id) => id
    case ToolBlocked(_, _, _, id) => id
    case _ => None
  }

  function CallOf(ev: Event): Option<string> {
    if ev.ToolCalled? then ev.callId else None
  }

  function NextPhase(phase: Phase, called: bool, answered: bool): Phase {
    if called then
      match phase
      case Unseen => PendingOnce
      case PendingOnce => PendingAgain
      case PendingAgain => PendingAgain
      case _ => Spoiled
    else if answered && (phase == PendingOnce || phase == PendingAgain) then Settled
    else phase
  }

  function PhaseAfter(events: seq<Event>, c: string, n: nat): Phase
    requires n <= |events|
  {
    if n == 0 then Unseen else
    var ev := events[n - 1];
    NextPhase(PhaseAfter(events, c, n - 1), CallOf(ev) == Some(c), OutcomeOf(ev) == Some(c))
  }

  /** No id is called again after it was answered, and none that was called twice stays open. */
  ghost predicate CleanLog(events: seq<Event>) {
    forall c :: PhaseAfter(events, c, |events|) != PendingAgain && PhaseAfter(events, c, |events|) != Spoiled
  }

  predicate LooksOrphaned(id: string) {
    ORPHAN <= id
  }

  lemma OrphanIdsLookIt(n: nat)
    ensures LooksOrphaned(OrphanId(n))
  {
    hide Decimal;
  }

  /** Drawn ids are new: different from each other and from every id in the log; and neither drawn
      nor logged call ids look like the ids that are made up for orphaned outcomes. */
  ghost predicate FreshIds(events: seq<Event>, generated: seq<string>) {
    && |generated| == |events|
    && Distinct(generated)
    && (forall i, j :: 0 <= i < |generated| && 0 <= j < |events| ==>
          CallOf(events[j]) != Some(generated[i]) && OutcomeOf(events[j]) != Some(generated[i]))
    && (forall i :: 0 <= i < |generated| ==> !LooksOrphaned(generated[i]))
    && (forall j :: 0 <= j < |events| && CallOf(events[j]).Some? ==> !LooksOrphaned(CallOf(events[j]).value))
  }

  /** No tool traffic yet, as in a session that holds only its system prompt. */
  predicate Plain(ms: seq<Message>) {
    forall i :: 0 <= i < |ms| ==> ms[i].role != Tool && CallsOf(ms[i]) == []
  }

  // ---------- One event and one id ----------

  lemma AttachTrace(ms: seq<Message>, call: ToolCall, c: string)
    ensures Trace(Attach(ms, call), c) == Trace(ms, c) + if call.id == c then [Asked] else []
  {
    if ms != [] && ms[|ms| - 1].role == Assistant {
      var last, joined := ms[|ms| - 1], Attach(ms, call)[|ms| - 1];
      assert Attach(ms, call)[..|ms| - 1] == ms[..|ms| - 1];
      assert CallsOf(joined)[..|CallsOf(last)|] == CallsOf(last);
      assert Marks(joined, c) == Marks(last, c) + if call.id == c then [Asked] else [];
    } else {
      var m := AssistantWithToolCalls([call]);
      AppendTrace(ms, m, c);
      assert CallsOf(m) == [call] && [call][..0] == [];
      assert CallMarks([call], c) == if call.id == c then [Asked] else [];
    }
  }

  lemma AppendTrace(ms: seq<Message>, m: Message, c: string)
    ensures Trace(ms + [m], c) == Trace(ms, c) + Marks(m, c)
  {
    assert (ms + [m])[..|ms|] == ms;
  }

  /** The id that an event asks with, and the id that it replies to. */
  function AskedId(ev: Event, generated: string): Option<string> {
    if !ev.ToolCalled? then None else if ev.callId.Some? then ev.callId else Some(generated)
  }

  predicate IsOutcome(ev: Event) {
    ev.ToolReturned? || ev.ToolBlocked?
  }

  function RepliedId(d: Desk, ev: Event): Option<string> {
    if !IsOutcome(ev) then None else
    var id := Take(d.waiting, OutcomeOf(ev), ev.name).0;
    if id.Some? then id else Some(OrphanId(|d.messages|))
  }

  function WaitingAfter(d: Desk, ev: Event, generated: string): Waiting {
    if ev.ToolCalled? then Enqueue(d.waiting, AskedId(ev, generated).value, ev.name, ev.callId.None?)
    else if IsOutcome(ev) then Take(d.waiting, OutcomeOf(ev), ev.name).1
    else d.waiting
  }

  lemma HandleWaiting(d: Desk, ev: Event, generated: string)
    ensures Handle(d, ev, generated).waiting == WaitingAfter(d, ev, generated)
  {
    hide Take, OrphanId, Attach, Enqueue, BlockedText;
  }

  lemma HandleTrace(d: Desk, ev: Event, generated: string, c: string)
    ensures var e := Handle(d, ev, generated);
            Trace(e.messages, c) ==
            Trace(d.messages, c)
            + (if AskedId(ev, generated) == Some(c) then [Asked] else [])
            + (if RepliedId(d, ev) == Some(c) then [Replied] else [])
  {
    hide Take, OrphanId, Trace, BlockedText;
    match ev
    case UserMessage(text) => AppendTrace(d.messages, TextMessage(User, text), c);
    case Thinking(text) => AppendTrace(d.messages, TextMessage(Assistant, text), c);
    case ToolCalled(name, arguments, _) =>
      AttachTrace(d.messages, ToolCall(AskedId(ev, generated).value, name, arguments), c);
    case ToolReturned(name, content, _) =>
      AppendTrace(d.messages, ToolResult(RepliedId(d, ev).value, name, content), c);
    case ToolBlocked(name, guardName, reason, _) =>
      AppendTrace(d.messages, ToolResult(RepliedId(d, ev).value, name, BlockedText(guardName, reason)), c);
    case SessionModeSet(_) =>
    case OtherEvent =>
  }

  // ---------- Native ids ----------

  predicate InLegacy(w: Waiting, c: string) {
    exists k :: 0 <= k < |w.legacy| && w.legacy[k].1 == c
  }

  ghost predicate SpoiledTrace(t: seq<Mark>) {
    exists i, j :: 0 <= i < j < |t| && t[i] == Replied && t[j] == Asked
  }

  /** The trace and the open calls that go with each phase. */
  ghost predicate PhaseFits(phase: Phase, t: seq<Mark>, open: bool) {
    match phase
    case Unseen => t == [] && !open
    case PendingOnce => t == [Asked] && open
    case PendingAgain => |t| >= 2 && Replied !in t && open
    case Settled => Asked in t && LegalTrace(t) && !open
    case Spoiled => SpoiledTrace(t)
  }

  ghost predicate NativeFits(phase: Phase, d: Desk, c: string) {
    PhaseFits(phase, Trace(d.messages, c), c in d.waiting.byId)
  }

  lemma SpoiledStays(t: seq<Mark>, u: seq<Mark>)
    requires SpoiledTrace(t)
    ensures SpoiledTrace(t + u) && !LegalTrace(t) && t != [Asked]
  {
    var i, j :| 0 <= i < j < |t| && t[i] == Replied && t[j] == Asked;
    assert (t + u)[i] == Replied && (t + u)[j] == Asked;
    assert t[j] in t;
    assert t[..|t| - 1][i] == Replied;
  }

  lemma AskedPhase(phase: Phase, t: seq<Mark>, open: bool)
    requires PhaseFits(phase, t, open)
    ensures PhaseFits(NextPhase(phase, true, false), t + [Asked], true)
  {
    var u := t + [Asked];
    if phase == Spoiled {
      SpoiledStays(t, [Asked]);
    } else if phase == Settled {
      assert u[|t| - 1] == Replied && u[|t|] == Asked;
    }
  }

  lemma RepliedPhase(phase: Phase, t: seq<Mark>)
    requires PhaseFits(phase, t, true)
    ensures PhaseFits(NextPhase(phase, false, true), t + [Replied], false)
  {
    var u := t + [Replied];
    assert u[..|u| - 1] == t;
    if phase == Spoiled {
      SpoiledStays(t, [Replied]);
    } else {
      assert u[0] == t[0] && t[0] in t && u[0] in u;
      assert t[0] == Asked;
    }
  }

  /** What one event does to a native id, which is neither drawn nor in the old queue. */
  lemma NativeEvent(d: Desk, ev: Event, generated: string, c: string)
    requires c != generated && !InLegacy(d.waiting, c) && !LooksOrphaned(c)
    ensures AskedId(ev, generated) == Some(c) <==> CallOf(ev) == Some(c)
    ensures RepliedId(d, ev) == Some(c) <==> OutcomeOf(ev) == Some(c) && c in d.waiting.byId
    ensures c in WaitingAfter(d, ev, generated).byId <==>
            CallOf(ev) == Some(c) || (c in d.waiting.byId && OutcomeOf(ev) != Some(c))
  {
    OrphanIdsLookIt(|d.messages|);
    hide OrphanId, LooksOrphaned;
  }

  lemma NativeStep(d: Desk, ev: Event, generated: string, phase: Phase, c: string)
    requires NativeFits(phase, d, c) && c != generated && !InLegacy(d.waiting, c) && !LooksOrphaned(c)
    ensures var next := NextPhase(phase, CallOf(ev) == Some(c), OutcomeOf(ev) == Some(c));
            NativeFits(next, Handle(d, ev, generated), c)
  {
    HandleTrace(d, ev, generated, c);
    HandleWaiting(d, ev, generated);
    NativeEvent(d, ev, generated, c);
    var t, open := Trace(d.messages, c), c in d.waiting.byId;
    assert CallOf(ev).None? || OutcomeOf(ev).None?;
    hide Trace, Handle, WaitingAfter, AskedId, RepliedId, CallOf, OutcomeOf, InLegacy, LooksOrphaned, PhaseFits;
    if CallOf(ev) == Some(c) {
      AskedPhase(phase, t, open);
      assert t + [Asked] + [] == t + [Asked];
    } else if OutcomeOf(ev) == Some(c) && open {
      RepliedPhase(phase, t);
      assert t + [] + [Replied] == t + [Replied];
    } else {
      assert t + [] + [] == t;
      UntouchedPhase(phase, t, open, OutcomeOf(ev) == Some(c));
    }
  }

  lemma UntouchedPhase(phase: Phase, t: seq<Mark>, open: bool, answered: bool)
    requires PhaseFits(phase, t, open) && !(answered && open)
    ensures PhaseFits(NextPhase(phase, false, answered), t, open)
  {
  }

  // ---------- Drawn ids ----------

  /** A drawn id is unused, or asked and waiting in the old queue, or asked and answered. */
  ghost predicate DrawnState(t: seq<Mark>, open: bool, queued: bool, drawn: bool) {
    || (t == [] && !open && !queued)
    || (drawn && t == [Asked] && open && queued)
    || (drawn && t == [Asked, Replied] && !open && !queued)
  }

  ghost predicate DrawnFits(d: Desk, g: string, drawn: bool) {
    DrawnState(Trace(d.messages, g), g in d.waiting.byId, InLegacy(d.waiting, g), drawn)
  }

  ghost predicate DistinctQueue(w: Waiting) {
    forall k, l :: 0 <= k < l < |w.legacy| ==> w.legacy[k].1 != w.legacy[l].1
  }

  predicate Distinct(ids: seq<string>) {
    forall i, j :: 0 <= i < j < |ids| ==> ids[i] != ids[j]
  }

  /** The old queue holds distinct ids, all among the first `n` drawn. */
  ghost predicate QueueFits(w: Waiting, generated: seq<string>, n: nat)
    requires n <= |generated|
  {
    DistinctQueue(w) && forall k :: 0 <= k < |w.legacy| ==> w.legacy[k].1 in generated[..n]
  }

  lemma PoppedQueue(w: Waiting, name: string)
    requires DistinctQueue(w)
    ensures var v := Take(w, None, name).1;
            DistinctQueue(v) && forall k :: 0 <= k < |v.legacy| ==> v.legacy[k] in w.legacy
  {
    var i := FirstOf(w.legacy, name);
    if i < |w.legacy| {
      var l := Take(w, None, name).1.legacy;
      assert l == w.legacy[..i] + w.legacy[i + 1..];
      hide Take, FirstOf;
      forall j, k | 0 <= j < k < |l| ensures l[j].1 != l[k].1 {
        assert l[j] == w.legacy[if j < i then j else j + 1];
        assert l[k] == w.legacy[if k < i then k else k + 1];
      }
    }
  }

  lemma QueueStep(d: Desk, ev: Event, generated: seq<string>, n: nat)
    requires n < |generated| && QueueFits(d.waiting, generated, n) && Distinct(generated)
    ensures QueueFits(WaitingAfter(d, ev, generated[n]), generated, n + 1)
  {
    var w, v := d.waiting, WaitingAfter(d, ev, generated[n]);
    assert generated[..n + 1] == generated[..n] + [generated[n]];
    if IsOutcome(ev) && OutcomeOf(ev).None? {
      PoppedQueue(w, ev.name);
      hide Take, DistinctQueue;
    } else if ev.ToolCalled? && ev.callId.None? {
      assert v.legacy == w.legacy + [(ev.name, generated[n])];
      assert generated[n] !in generated[..n];
    } else {
      assert v.legacy == w.legacy;
    }
  }

  lemma Without(l: seq<(string, string)>, i: nat, g: string)
    requires i < |l| && forall j, k :: 0 <= j < k < |l| ==> l[j].1 != l[k].1
    ensures var rest := l[..i] + l[i + 1..];
            (exists k :: 0 <= k < |rest| && rest[k].1 == g) <==>
            (l[i].1 != g && exists k :: 0 <= k < |l| && l[k].1 == g)
  {
    var rest := l[..i] + l[i + 1..];
    assert forall k :: 0 <= k < |rest| ==> rest[k] == l[if k < i then k else k + 1];
    if l[i].1 != g {
      if k :| 0 <= k < |l| && l[k].1 == g {
        assert rest[if k < i then k else k - 1].1 == g;
      }
    }
  }

  /** Popping the queue removes exactly the id it returns. */
  lemma PopRemoves(w: Waiting, name: string, g: string)
    requires DistinctQueue(w)
    ensures var (id, v) := Take(w, None, name);
            && (id == Some(g) ==> InLegacy(w, g) && !InLegacy(v, g) && g !in v.byId)
            && (id != Some(g) ==> (InLegacy(v, g) <==> InLegacy(w, g)) && (g in v.byId <==> g in w.byId))
  {
    var i := FirstOf(w.legacy, name);
    hide FirstOf;
    if i < |w.legacy| {
      Without(w.legacy, i, g);
    }
  }

  /** What one event does to a drawn id `g`. */
  lemma DrawnEvent(d: Desk, ev: Event, generated: string, g: string)
    requires DistinctQueue(d.waiting)
    requires CallOf(ev) != Some(g) && OutcomeOf(ev) != Some(g) && !LooksOrphaned(g)
    ensures var v := WaitingAfter(d, ev, generated);
            var asked, replied := AskedId(ev, generated) == Some(g), RepliedId(d, ev) == Some(g);
            && (asked ==> !replied && g == generated && g in v.byId && InLegacy(v, g))
            && (replied ==> InLegacy(d.waiting, g) && g !in v.byId && !InLegacy(v, g))
            && (!asked && !replied ==>
                  (g in v.byId <==> g in d.waiting.byId) && (InLegacy(v, g) <==> InLegacy(d.waiting, g)))
  {
    var w, v := d.waiting, WaitingAfter(d, ev, generated);
    OrphanIdsLookIt(|d.messages|);
    hide OrphanId, LooksOrphaned;
    if IsOutcome(ev) {
      if OutcomeOf(ev).None? {
        PopRemoves(w, ev.name, g);
        hide Take, InLegacy;
      } else {
        assert v.legacy == w.legacy;
      }
    } else if ev.ToolCalled? {
      if AskedId(ev, generated) == Some(g) {
        assert v.legacy == w.legacy + [(ev.name, g)];
        assert v.legacy[|w.legacy|].1 == g;
      } else {
        EnqueueKeeps(w, AskedId(ev, generated).value, ev.name, ev.callId.None?, g);
        hide InLegacy;
      }
    }
  }

  /** The marks of a drawn id go on as they should when it is asked with, answered, or neither. */
  lemma DrawnMarks(t: seq<Mark>, open: bool, queued: bool, drawn: bool, asked: bool, replied: bool)
    requires DrawnState(t, open, queued, drawn) && !(asked && replied)
    requires (asked ==> !drawn) && (replied ==> queued)
    ensures asked ==> DrawnState(t + [Asked], true, true, true)
    ensures replied ==> DrawnState(t + [Replied], false, false, drawn)
  {
  }

  lemma DrawnStep(d: Desk, ev: Event, generated: string, g: string, drawn: bool)
    requires DrawnFits(d, g, drawn) && (g == generated ==> !drawn) && DistinctQueue(d.waiting)
    requires CallOf(ev) != Some(g) && OutcomeOf(ev) != Some(g) && !LooksOrphaned(g)
    ensures DrawnFits(Handle(d, ev, generated), g, drawn || g == generated)
  {
    HandleTrace(d, ev, generated, g);
    HandleWaiting(d, ev, generated);
    DrawnEvent(d, ev, generated, g);
    var t, open, queued := Trace(d.messages, g), g in d.waiting.byId, InLegacy(d.waiting, g);
    var asked, replied := AskedId(ev, generated) == Some(g), RepliedId(d, ev) == Some(g);
    hide Trace, Handle, WaitingAfter, AskedId, RepliedId, InLegacy, CallOf, OutcomeOf, LooksOrphaned, DistinctQueue;
    if asked {
      DrawnMarks(t, open, queued, drawn, true, false);
      assert t + [Asked] + [] == t + [Asked];
    } else if replied {
      DrawnMarks(t, open, queued, drawn, false, true);
      DrawnLater(t + [Replied], false, false, drawn);
      assert t + [] + [Replied] == t + [Replied];
    } else {
      DrawnLater(t, open, queued, drawn);
      assert t + [] + [] == t;
    }
    hide DrawnState;
  }

  lemma DrawnLater(t: seq<Mark>, open: bool, queued: bool, drawn: bool)
    requires DrawnState(t, open, queued, drawn)
    ensures DrawnState(t, open, queued, true)
  {
  }

  lemma EnqueueKeeps(w: Waiting, id: string, name: string, unnamed: bool, g: string)
    requires id != g
    ensures InLegacy(Enqueue(w, id, name, unnamed), g) <==> InLegacy(w, g)
  {
    var v := Enqueue(w, id, name, unnamed);
    if unnamed {
      assert forall k :: 0 <= k < |w.legacy| ==> v.legacy[k] == w.legacy[k];
    }
  }

  // ---------- The whole log ----------

  lemma {:induction false} PlainTrace(ms: seq<Message>, c: string)
    requires Plain(ms)
    ensures Trace(ms, c) == []
  {
    if ms != [] {
      PlainTrace(ms[..|ms| - 1], c);
    }
  }

  lemma FreshAt(events: seq<Event>, generated: seq<string>, m: nat, i: nat)
    requires FreshIds(events, generated) && m < |events| && i < |events|
    ensures |generated| == |events|
    ensures CallOf(events[m]) != Some(generated[i]) && OutcomeOf(events[m]) != Some(generated[i])
    ensures !LooksOrphaned(generated[i]) && (generated[m] == generated[i] <==> m == i)
  {
    if m < i {
      assert generated[m] != generated[i];
    }
  }

  lemma FreshLengths(events: seq<Event>, generated: seq<string>)
    requires FreshIds(events, generated)
    ensures |generated| == |events| && Distinct(generated)
  {
    hide Distinct;
  }

  /** Nothing asks with an id that looks orphaned. */
  lemma FreshAsk(events: seq<Event>, generated: seq<string>, m: nat, c: string)
    requires FreshIds(events, generated) && m < |events| && LooksOrphaned(c)
    ensures |generated| == |events|
    ensures CallOf(events[m]) != Some(c) && AskedId(events[m], generated[m]) != Some(c)
  {
    hide LooksOrphaned, Distinct;
  }

  lemma {:induction false} QueueRun(start: Desk, events: seq<Event>, generated: seq<string>, n: nat)
    requires n <= |events| == |generated| && Distinct(generated) && start.waiting == Waiting(map[], [])
    ensures QueueFits(After(start, events, generated, n).waiting, generated, n)
  {
    if n > 0 {
      var d := After(start, events, generated, n - 1);
      QueueRun(start, events, generated, n - 1);
      HandleWaiting(d, events[n - 1], generated[n - 1]);
      hide Handle, QueueFits, Distinct, WaitingAfter;
      QueueStep(d, events[n - 1], generated, n - 1);
    }
  }

  lemma StartFits(start: Desk, c: string)
    requires Plain(start.messages) && start.waiting == Waiting(map[], [])
    ensures DrawnFits(start, c, false) && NativeFits(Unseen, start, c)
  {
    PlainTrace(start.messages, c);
    hide Trace;
  }

  lemma {:induction false} DrawnRun(
    start: Desk, events: seq<Event>, generated: seq<string>, n: nat, i: nat)
    requires n <= |events| && i < |events| == |generated| && FreshIds(events, generated)
    requires Plain(start.messages) && start.waiting == Waiting(map[], [])
    ensures DrawnFits(After(start, events, generated, n), generated[i], i < n)
  {
    hide Handle, DrawnFits, FreshIds, LooksOrphaned, CallOf, OutcomeOf, Plain, Distinct;
    FreshLengths(events, generated);
    if n == 0 {
      StartFits(start, generated[i]);
    } else {
      var d := After(start, events, generated, n - 1);
      var ev, g := events[n - 1], generated[i];
      DrawnRun(start, events, generated, n - 1, i);
      FreshAt(events, generated, n - 1, i);
      QueueRun(start, events, generated, n - 1);
      hide DistinctQueue;
      DrawnStep(d, ev, generated[n - 1], g, i < n - 1);
    }
  }

  /** An id that was never drawn is not in the old queue. */
  lemma NotQueued(w: Waiting, generated: seq<string>, n: nat, c: string)
    requires n <= |generated| && QueueFits(w, generated, n) && c !in generated
    ensures !InLegacy(w, c)
  {
    assert forall s :: s in generated[..n] ==> s in generated;
  }

  lemma {:induction false} NativeRun(
    start: Desk, events: seq<Event>, generated: seq<string>, n: nat, c: string)
    requires n <= |events| == |generated| && FreshIds(events, generated)
    requires c !in generated && !LooksOrphaned(c)
    requires Plain(start.messages) && start.waiting == Waiting(map[], [])
    ensures NativeFits(PhaseAfter(events, c, n), After(start, events, generated, n), c)
  {
    hide Handle, NativeFits, NextPhase, FreshIds, LooksOrphaned, Plain, QueueFits, InLegacy, Distinct, CallOf,
      OutcomeOf;
    FreshLengths(events, generated);
    if n == 0 {
      StartFits(start, c);
    } else {
      var d := After(start, events, generated, n - 1);
      NativeRun(start, events, generated, n - 1, c);
      QueueRun(start, events, generated, n - 1);
      NotQueued(d.waiting, generated, n - 1, c);
      assert generated[n - 1] in generated;
      NativeStep(d, events[n - 1], generated[n - 1], PhaseAfter(events, c, n - 1), c);
    }
  }

  /** Ids that look orphaned are never asked with. */
  lemma {:induction false} NeverAsked(start: Desk, events: seq<Event>, generated: seq<string>, n: nat, c: string)
    requires n <= |events| == |generated| && FreshIds(events, generated)
    requires LooksOrphaned(c) && Plain(start.messages)
    ensures Asked !in Trace(After(start, events, generated, n).messages, c)
    ensures PhaseAfter(events, c, n) == Unseen
  {
    hide FreshIds, LooksOrphaned, Plain, Trace, Handle, CallOf, OutcomeOf, AskedId, RepliedId;
    if n == 0 {
      PlainTrace(start.messages, c);
    } else {
      NeverAsked(start, events, generated, n - 1, c);
      FreshAsk(events, generated, n - 1, c);
      HandleTrace(After(start, events, generated, n - 1), events[n - 1], generated[n - 1], c);
    }
  }

  /** The final trace of any id, and whether the repair can make it legal. */
  lemma FinalTrace(messages: seq<Message>, mode: string, events: seq<Event>, generated: seq<string>, c: string)
    requires |events| == |generated| && Plain(messages) && FreshIds(events, generated)
    ensures var t := Trace(After(Desk(messages, Waiting(map[], []), mode), events, generated, |events|).messages, c);
            var phase := PhaseAfter(events, c, |events|);
            (LegalTrace(t) || t == [Asked]) <==> phase != PendingAgain && phase != Spoiled
  {
    hide After, FreshIds, Trace, Plain, LooksOrphaned, CallOf, PhaseAfter;
    var start := Desk(messages, Waiting(map[], []), mode);
    var t := Trace(After(start, events, generated, |events|).messages, c);
    if LooksOrphaned(c) {
      NeverAsked(start, events, generated, |events|, c);
    } else if c in generated {
      var i :| 0 <= i < |generated| && generated[i] == c;
      DrawnRun(start, events, generated, |events|, i);
      forall j | 0 <= j < |events| ensures CallOf(events[j]) != Some(c) {
        FreshAt(events, generated, j, i);
      }
      NeverLogged(events, c, |events|);
      DrawnVerdict(t);
    } else {
      NativeRun(start, events, generated, |events|, c);
      PhaseVerdict(PhaseAfter(events, c, |events|), t, c in After(start, events, generated, |events|).waiting.byId);
    }
  }

  lemma DrawnVerdict(t: seq<Mark>)
    ensures t == [] || t == [Asked, Replied] ==> LegalTrace(t)
  {
  }

  lemma PhaseVerdict(phase: Phase, t: seq<Mark>, open: bool)
    requires PhaseFits(phase, t, open)
    ensures LegalTrace(t) || t == [Asked] <==> phase != PendingAgain && phase != Spoiled
  {
    if phase == Spoiled {
      SpoiledStays(t, []);
    } else if phase == PendingAgain {
      assert t[0] in t && t[|t| - 1] in t;
      assert t[0] == Asked;
    }
  }

  lemma {:induction false} NeverLogged(events: seq<Event>, c: string, n: nat)
    requires n <= |events| && forall j :: 0 <= j < |events| ==> CallOf(events[j]) != Some(c)
    ensures PhaseAfter(events, c, n) == Unseen
  {
    if n > 0 {
      NeverLogged(events, c, n - 1);
    }
  }

  /** The rebuilt conversation is legal exactly when the log is clean. */
  lemma RebuiltIsLegalExactlyWhenClean(
    messages: seq<Message>, mode: string, events: seq<Event>, generated: seq<string>)
    requires Plain(messages) && FreshIds(events, generated)
    ensures Legal(Rebuilt(messages, mode, events, generated)) <==> CleanLog(events)
  {
    var ms := After(Desk(messages, Waiting(map[], []), mode), events, generated, |events|).messages;
    forall c
      ensures LegalFor(Repaired(ms), c) <==>
              PhaseAfter(events, c, |events|) != PendingAgain && PhaseAfter(events, c, |events|) != Spoiled
    {
      FinalTrace(messages, mode, events, generated, c);
      RepairVerdict(ms, c);
    }
    hide After, LegalFor, Repaired, PhaseAfter, FreshIds;
  }

  /** No two logged calls share an id. */
  predicate DistinctCalls(events: seq<Event>) {
    forall i, j :: 0 <= i < j < |events| && CallOf(events[i]).Some? ==> CallOf(events[i]) != CallOf(events[j])
  }

  lemma {:induction false} DistinctCallsPhase(events: seq<Event>, c: string, n: nat)
    requires n <= |events| && DistinctCalls(events)
    ensures PhaseAfter(events, c, n) != PendingAgain && PhaseAfter(events, c, n) != Spoiled
    ensures PhaseAfter(events, c, n) != Unseen ==> exists i :: 0 <= i < n && CallOf(events[i]) == Some(c)
  {
    if n > 0 {
      DistinctCallsPhase(events, c, n - 1);
    }
  }

  /** In particular a log whose calls all have different ids is always rebuilt legally. */
  lemma DistinctCallsRebuildLegally(
    messages: seq<Message>, mode: string, events: seq<Event>, generated: seq<string>)
    requires Plain(messages) && FreshIds(events, generated) && DistinctCalls(events)
    ensures Legal(Rebuilt(messages, mode, events, generated))
  {
    forall c
      ensures PhaseAfter(events, c, |events|) != PendingAgain && PhaseAfter(events, c, |events|) != Spoiled
    {
      DistinctCallsPhase(events, c, |events|);
    }
    RebuiltIsLegalExactlyWhenClean(messages, mode, events, generated);
  }

  const TWICE: seq<Event> := [ToolCalled("t", "", Some("a")), ToolCalled("t", "", Some("a"))]

  /** A log that calls one id twice and answers neither: the repair adds two results for it. */
  lemma RepeatedCallStaysIllegal()
    ensures !Legal(Rebuilt([], "", TWICE, ["g", "h"]))
  {
    assert FreshIds(TWICE, ["g", "h"]);
    assert PhaseAfter(TWICE, "a", 0) == Unseen;
    assert PhaseAfter(TWICE, "a", 1) == PendingOnce;
    assert PhaseAfter(TWICE, "a", 2) == PendingAgain;
    RebuiltIsLegalExactlyWhenClean([], "", TWICE, ["g", "h"]);
    hide Legal, Rebuilt, PhaseAfter;
  }

  // ---------- The repair alone ----------

  /** The message, unless it is a tool message whose id is not in `answered`. */
  function Kept(m: Message, answered: set<string>): seq<Message> {
    if m.role == Tool && m.toolCallId.Some? && m.toolCallId.value !in answered then [] else [m]
  }

  /** The list without the tool messages whose id is not in `answered`. */
  function WithoutSynthesized(ms: seq<Message>, answered: set<string>): seq<Message> {
    if ms == [] then [] else Kept(ms[0], answered) + WithoutSynthesized(ms[1..], answered)
  }

  lemma WithoutCons(m: Message, rest: seq<Message>, answered: set<string>)
    ensures WithoutSynthesized([m] + rest, answered) == Kept(m, answered) + WithoutSynthesized(rest, answered)
  {
    hide Kept;
    assert ([m] + rest)[1..] == rest;
  }

  lemma {:induction false} WithoutConcat(a: seq<Message>, b: seq<Message>, answered: set<string>)
    ensures WithoutSynthesized(a + b, answered) == WithoutSynthesized(a, answered) + WithoutSynthesized(b, answered)
  {
    hide Kept;
    if a == [] {
      assert a + b == b;
    } else {
      var m, rest := a[0], a[1..];
      assert a == [m] + rest && a + b == [m] + (rest + b);
      WithoutCons(m, rest, answered);
      WithoutCons(m, rest + b, answered);
      WithoutConcat(rest, b, answered);
    }
  }

  lemma {:induction false} SynthesizedVanish(calls: seq<ToolCall>, answered: set<string>)
    ensures WithoutSynthesized(Synthesized(calls, answered), answered) == []
  {
    if calls != [] {
      var rest, call := calls[..|calls| - 1], calls[|calls| - 1];
      SynthesizedVanish(rest, answered);
      if call.id !in answered {
        var m := ToolResult(call.id, call.name, MISSING);
        WithoutConcat(Synthesized(rest, answered), [m], answered);
        hide MISSING;
        assert [m][1..] == [];
      }
    }
  }

  lemma {:induction false} CompletedWithout(ms: seq<Message>, answered: set<string>)
    requires forall i :: 0 <= i < |ms| && ms[i].role == Tool && ms[i].toolCallId.Some? ==>
               ms[i].toolCallId.value in answered
    ensures WithoutSynthesized(Completed(ms, answered), answered) == ms
  {
    if ms != [] {
      var m, tail := ms[0], ms[1..];
      SynthesizedVanish(CallsOf(m), answered);
      assert Kept(m, answered) == [m];
      CompletedWithout(tail, answered);
      CompletedConsWithout(m, tail, answered);
      hide Kept, Completed, WithoutSynthesized, Synthesized;
      assert ms == [m] + tail;
    }
  }

  lemma CompletedConsWithout(m: Message, tail: seq<Message>, answered: set<string>)
    requires WithoutSynthesized(MissingAfter(m, answered), answered) == []
    ensures WithoutSynthesized(Completed([m] + tail, answered), answered) ==
            Kept(m, answered) + WithoutSynthesized(Completed(tail, answered), answered)
  {
    hide Kept, MissingAfter;
    var missing := MissingAfter(m, answered);
    assert ([m] + tail)[0] == m && ([m] + tail)[1..] == tail;
    WithoutConcat([m] + missing, Completed(tail, answered), answered);
    WithoutCons(m, missing, answered);
  }

  /** Deleting what the repair put in gives back the list it was given. */
  lemma RepairOnlyInserts(ms: seq<Message>)
    ensures WithoutSynthesized(Repaired(ms), Answered(ms)) == ms
  {
    hide Completed, WithoutSynthesized;
    CompletedWithout(ms, Answered(ms));
  }

  /** After a repair every call is answered, so a second one changes nothing. */
  lemma RepairIsIdempotent(ms: seq<Message>)
    ensures Repaired(Repaired(ms)) == Repaired(ms)
  {
    var once := Repaired(ms);
    forall i | 0 <= i < |once| ensures MissingAfter(once[i], Answered(once)) == [] {
      AllAnswered(ms, i);
    }
    CompletedSkips(once, Answered(once), |once|);
    hide MissingAfter;
  }

  lemma AllAnswered(ms: seq<Message>, i: nat)
    requires i < |Repaired(ms)|
    ensures MissingAfter(Repaired(ms)[i], Answered(Repaired(ms))) == []
  {
    hide MISSING;
    var once := Repaired(ms);
    var calls := CallsOf(once[i]);
    forall k | 0 <= k < |calls| ensures calls[k].id in Answered(once) {
      var c := calls[k].id;
      assert Calls(once[i], c);
      hide Repaired, Answered, Calls;
      AnsweredMeaning(once, c);
      TraceMeaning(once, c);
      RepairedAnswers(ms, c);
    }
    NothingMissing(calls, Answered(once));
  }

  /** Whatever is asked in a repaired list is answered in it. */
  lemma RepairedAnswers(ms: seq<Message>, c: string)
    ensures Asked in Trace(Repaired(ms), c) ==> Replied in Trace(Repaired(ms), c)
  {
    hide Completed;
    AnsweredMeaning(ms, c);
    TraceMeaning(ms, c);
    if c in Answered(ms) {
      AnsweredKeepsTrace(ms, Answered(ms), c);
    } else {
      UnansweredGetsReplies(ms, Answered(ms), c);
      var u := Trace(Repaired(ms), c);
      hide Trace, Answered;
      if Asked in u {
        assert multiset(u)[Asked] > 0;
        assert Replied in multiset(u);
      }
    }
  }

  lemma {:induction false} NothingMissing(calls: seq<ToolCall>, answered: set<string>)
    requires forall k :: 0 <= k < |calls| ==> calls[k].id in answered
    ensures Synthesized(calls, answered) == []
  {
    if calls != [] {
      NothingMissing(calls[..|calls| - 1], answered);
    }
  }
}
