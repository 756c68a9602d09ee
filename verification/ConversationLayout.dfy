/** How a rebuilt conversation is laid out: what kind of messages a replay adds, which ids its tool results
    carry, and where the repair puts which results. */
module ConversationLayout {
  import opened Results
  import opened Picking
  import opened Conversation
  import opened ConversationLegality

  // ---------- What the repair puts where ----------

  /** The `k`-th message is the missing result of call `at[k]`. */
  ghost predicate ResultsFor(calls: seq<ToolCall>, at: seq<nat>, results: seq<Message>) {
    && |results| == |at|
    && forall k :: 0 <= k < |at| ==>
         && at[k] < |calls|
         && results[k] == Message(Tool, Some(MISSING), None, Some(calls[at[k]].id), Some(calls[at[k]].name))
  }

  lemma OneMoreResult(calls: seq<ToolCall>, call: ToolCall, at: seq<nat>, results: seq<Message>)
    requires ResultsFor(calls, at, results)
    ensures ResultsFor(calls + [call], at, results)
    ensures ResultsFor(calls + [call], at + [|calls|], results + [ToolResult(call.id, call.name, MISSING)])
  {
    hide MISSING;
  }

  /** The results put in for the calls of one message: one for each unanswered call, in call order, with the
      call's id and name. */
  lemma {:induction false} SynthesizedMeaning(calls: seq<ToolCall>, answered: set<string>, open: ToolCall -> bool)
    returns (at: seq<nat>)
    requires forall call :: open(call) <==> call.id !in answered
    ensures Picks(calls, open, at) && ResultsFor(calls, at, Synthesized(calls, answered))
  {
    hide MISSING, ResultsFor, Picks;
    if calls == [] {
      at := [];
      PickNone(open);
      NoResults();
    } else {
      var n := |calls| - 1;
      var front := SynthesizedMeaning(calls[..n], answered, open);
      at := if open(calls[n]) then front + [n] else front;
      PickOneMore(calls[..n], calls[n], open, front);
      OneMoreResult(calls[..n], calls[n], front, Synthesized(calls[..n], answered));
      assert calls == calls[..n] + [calls[n]];
    }
  }

  lemma NoResults()
    ensures ResultsFor([], [], [])
  {
  }

  /** Where message `i` ends up. */
  function Place(ms: seq<Message>, answered: set<string>, i: nat): nat
    requires i <= |ms|
  {
    if i == 0 then 0 else Place(ms, answered, i - 1) + 1 + |MissingAfter(ms[i - 1], answered)|
  }

  lemma {:induction false} PlaceInTail(ms: seq<Message>, answered: set<string>, i: nat)
    requires 0 < i <= |ms|
    ensures Place(ms, answered, i) == 1 + |MissingAfter(ms[0], answered)| + Place(ms[1..], answered, i - 1)
  {
    hide MissingAfter;
    if i > 1 {
      PlaceInTail(ms, answered, i - 1);
      assert ms[1..][i - 2] == ms[i - 1];
    } else {
      assert Place(ms, answered, 0) == 0 && Place(ms[1..], answered, 0) == 0;
    }
  }

  lemma SliceBehind(front: seq<Message>, tail: seq<Message>, p: nat, q: nat)
    requires p < q <= |tail|
    ensures (front + tail)[|front| + p] == tail[p]
    ensures (front + tail)[|front| + p + 1..|front| + q] == tail[p + 1..q]
  {
  }

  /** Message `i` is at its place in `all`, the results it misses are behind it, and then comes the next. */
  ghost predicate LaidOut(ms: seq<Message>, answered: set<string>, all: seq<Message>, i: nat)
    requires i < |ms|
  {
    var p, q := Place(ms, answered, i), Place(ms, answered, i + 1);
    && p < q <= |all|
    && all[p] == ms[i] && all[p + 1..q] == MissingAfter(ms[i], answered)
    && (i + 1 == |ms| ==> |all| == q)
  }

  lemma FirstLaidOut(ms: seq<Message>, answered: set<string>, tail: seq<Message>)
    requires ms != [] && (|ms| == 1 ==> tail == [])
    ensures LaidOut(ms, answered, [ms[0]] + MissingAfter(ms[0], answered) + tail, 0)
  {
    var missing := MissingAfter(ms[0], answered);
    hide MissingAfter;
    assert Place(ms, answered, 0) == 0 && Place(ms, answered, 1) == 1 + |missing|;
    var all := [ms[0]] + missing + tail;
    assert all[1..1 + |missing|] == missing;
  }

  lemma NextLaidOut(ms: seq<Message>, answered: set<string>, tail: seq<Message>, i: nat)
    requires 0 < i < |ms| && LaidOut(ms[1..], answered, tail, i - 1)
    ensures LaidOut(ms, answered, [ms[0]] + MissingAfter(ms[0], answered) + tail, i)
  {
    var front := [ms[0]] + MissingAfter(ms[0], answered);
    hide MissingAfter;
    PlaceInTail(ms, answered, i);
    PlaceInTail(ms, answered, i + 1);
    var p, q := Place(ms[1..], answered, i - 1), Place(ms[1..], answered, i);
    assert Place(ms, answered, i) == |front| + p && Place(ms, answered, i + 1) == |front| + q;
    assert ms[1..][i - 1] == ms[i];
    hide Place;
    SliceBehind(front, tail, p, q);
    var all := front + tail;
    assert all[|front| + p + 1..|front| + q] == MissingAfter(ms[i], answered);
  }

  lemma {:induction false} CompletedLayout(ms: seq<Message>, answered: set<string>, i: nat)
    requires i < |ms|
    ensures LaidOut(ms, answered, Completed(ms, answered), i)
  {
    hide MissingAfter, LaidOut;
    var tail := Completed(ms[1..], answered);
    if i == 0 {
      FirstLaidOut(ms, answered, tail);
    } else {
      CompletedLayout(ms[1..], answered, i - 1);
      NextLaidOut(ms, answered, tail, i);
    }
  }

  /** Which calls no tool message of the list answers. */
  function Unanswered(ms: seq<Message>): ToolCall -> bool {
    (call: ToolCall) => !SomeAnswers(ms, call.id)
  }

  /** Every message of the list keeps its order; directly behind it come the results for those of its calls
      that no tool message of the list answers, in call order, and then the next message. */
  lemma RepairedLayout(ms: seq<Message>, i: nat) returns (at: seq<nat>)
    requires i < |ms|
    ensures Picks(CallsOf(ms[i]), Unanswered(ms), at)
    ensures var all, p, q := Repaired(ms), Place(ms, Answered(ms), i), Place(ms, Answered(ms), i + 1);
            && p < q <= |all|
            && all[p] == ms[i]
            && ResultsFor(CallsOf(ms[i]), at, all[p + 1..q])
            && (i + 1 == |ms| ==> q == |all|)
  {
    hide ResultsFor, Place, Completed, Picks;
    forall c ensures c in Answered(ms) <==> SomeAnswers(ms, c) {
      AnsweredMeaning(ms, c);
    }
    hide Answered, SomeAnswers;
    at := SynthesizedMeaning(CallsOf(ms[i]), Answered(ms), Unanswered(ms));
    CompletedLayout(ms, Answered(ms), i);
  }

  // ---------- What a replay adds ----------

  /** The id names a call that was made before message `i`. */
  ghost predicate CalledBefore(ms: seq<Message>, i: nat, id: string)
    requires i <= |ms|
  {
    exists p :: 0 <= p < i && Calls(ms[p], id)
  }

  /** Message `i` has one of the three forms that a replay adds: a user's text; an assistant's text or calls,
      but calls without a text only where no assistant message could take them; a tool's result, for an
      earlier call or for the made-up id that carries its position. */
  ghost predicate Regular(ms: seq<Message>, i: nat)
    requires i < |ms|
  {
    var m := ms[i];
    match m.role
    case System => false
    case User => m.content.Some? && m.toolCalls == None && m.toolCallId == None && m.name == None
    case Assistant =>
      && m.toolCallId == None && m.name == None
      && (m.content.None? ==> CallsOf(m) != [] && (i == 0 || ms[i - 1].role != Assistant))
    case Tool =>
      && m.content.Some? && m.toolCalls == None && m.name.Some? && m.toolCallId.Some?
      && (m.toolCallId.value == "replayed-orphan-" + Decimal(i) || CalledBefore(ms, i, m.toolCallId.value))
  }

  /** The same messages, but for more calls in assistant messages, and perhaps more messages behind. */
  ghost predicate Outgrows(ms: seq<Message>, more: seq<Message>) {
    && |ms| <= |more|
    && (forall i :: 0 <= i < |ms| ==>
          && more[i] == ms[i].(toolCalls := more[i].toolCalls)
          && CallsOf(ms[i]) <= CallsOf(more[i])
          && (ms[i].role != Assistant ==> more[i] == ms[i]))
  }

  lemma OutgrowsAgain(a: seq<Message>, b: seq<Message>, c: seq<Message>)
    requires Outgrows(a, b) && Outgrows(b, c)
    ensures Outgrows(a, c)
  {
  }

  lemma StaysCalled(ms: seq<Message>, more: seq<Message>, i: nat, id: string)
    requires Outgrows(ms, more) && i <= |ms| && CalledBefore(ms, i, id)
    ensures CalledBefore(more, i, id)
  {
    var p :| 0 <= p < i && Calls(ms[p], id);
    var k :| 0 <= k < |CallsOf(ms[p])| && CallsOf(ms[p])[k].id == id;
    assert CallsOf(more[p])[k] == CallsOf(ms[p])[k];
    assert Calls(more[p], id);
  }

  lemma StaysRegular(ms: seq<Message>, more: seq<Message>, i: nat)
    requires Outgrows(ms, more) && i < |ms| && Regular(ms, i)
    ensures Regular(more, i)
  {
    if ms[i].role == Tool && CalledBefore(ms, i, ms[i].toolCallId.value) {
      StaysCalled(ms, more, i, ms[i].toolCallId.value);
    }
    hide CalledBefore, Decimal;
  }

  /** Whatever waits for an outcome was called. */
  ghost predicate WaitsForCalls(d: Desk) {
    && (forall id :: id in d.waiting.byId ==> CalledBefore(d.messages, |d.messages|, id))
    && (forall k :: 0 <= k < |d.waiting.legacy| ==>
          CalledBefore(d.messages, |d.messages|, d.waiting.legacy[k].1))
  }

  lemma CalledByLast(ms: seq<Message>, call: ToolCall)
    ensures var more := Attach(ms, call);
            CalledBefore(more, |more|, call.id) && Outgrows(ms, more)
  {
    var more := Attach(ms, call);
    var calls := CallsOf(more[|more| - 1]);
    assert calls[|calls| - 1] == call;
    assert Calls(more[|more| - 1], call.id);
  }

  lemma CalledLater(ms: seq<Message>, i: nat, id: string)
    requires i <= |ms| && CalledBefore(ms, i, id)
    ensures CalledBefore(ms, |ms|, id)
  {
  }

  lemma AttachedIsRegular(ms: seq<Message>, call: ToolCall)
    ensures var more := Attach(ms, call);
            |more| > |ms| ==> |more| == |ms| + 1 && Regular(more, |ms|)
  {
  }

  lemma WaitingStays(d: Desk, e: Desk)
    requires WaitsForCalls(d) && Outgrows(d.messages, e.messages)
    requires forall id :: id in e.waiting.byId ==> id in d.waiting.byId
    requires forall k :: 0 <= k < |e.waiting.legacy| ==> e.waiting.legacy[k] in d.waiting.legacy
    ensures WaitsForCalls(e)
  {
    hide Outgrows;
    forall id | CalledBefore(d.messages, |d.messages|, id) ensures CalledBefore(e.messages, |e.messages|, id) {
      assert |d.messages| <= |e.messages| by { LongerWhenOutgrown(d.messages, e.messages); }
      StaysCalled(d.messages, e.messages, |d.messages|, id);
      CalledLater(e.messages, |d.messages|, id);
    }
    hide CalledBefore;
  }

  lemma LongerWhenOutgrown(ms: seq<Message>, more: seq<Message>)
    requires Outgrows(ms, more)
    ensures |ms| <= |more|
  {
  }

  lemma EnqueuedWaits(d: Desk, id: string, name: string, unnamed: bool)
    requires WaitsForCalls(d) && CalledBefore(d.messages, |d.messages|, id)
    ensures WaitsForCalls(Desk(d.messages, Enqueue(d.waiting, id, name, unnamed), d.mode))
  {
    hide CalledBefore;
  }

  lemma CallStep(d: Desk, name: string, arguments: string, callId: Option<string>, generated: string)
    requires WaitsForCalls(d)
    ensures var e := Handle(d, ToolCalled(name, arguments, callId), generated);
            && WaitsForCalls(e) && Outgrows(d.messages, e.messages)
            && |e.messages| <= |d.messages| + 1
            && (|e.messages| > |d.messages| ==> Regular(e.messages, |d.messages|))
  {
    var id := if callId.Some? then callId.value else generated;
    var more := Attach(d.messages, ToolCall(id, name, arguments));
    assert |more| <= |d.messages| + 1;
    CalledByLast(d.messages, ToolCall(id, name, arguments));
    AttachedIsRegular(d.messages, ToolCall(id, name, arguments));
    hide Attach, Regular, CalledBefore, Outgrows, WaitsForCalls, Enqueue;
    WaitingStays(d, Desk(more, d.waiting, d.mode));
    EnqueuedWaits(Desk(more, d.waiting, d.mode), id, name, callId.None?);
  }

  lemma TakenWasCalled(d: Desk, callId: Option<string>, name: string)
    requires WaitsForCalls(d)
    ensures var (id, rest) := Take(d.waiting, callId, name);
            && (id.Some? ==> CalledBefore(d.messages, |d.messages|, id.value))
            && (forall id :: id in rest.byId ==> id in d.waiting.byId)
            && (forall k :: 0 <= k < |rest.legacy| ==> rest.legacy[k] in d.waiting.legacy)
  {
    hide CalledBefore;
  }

  lemma AppendOutgrows(ms: seq<Message>, m: Message)
    ensures Outgrows(ms, ms + [m])
  {
  }

  lemma AnswerStep(d: Desk, callId: Option<string>, name: string, content: string)
    requires WaitsForCalls(d)
    ensures var e := Answer(d, callId, name, content);
            && WaitsForCalls(e) && Outgrows(d.messages, e.messages)
            && |e.messages| == |d.messages| + 1 && Regular(e.messages, |d.messages|)
  {
    var e := Answer(d, callId, name, content);
    var m := e.messages[|d.messages|];
    TakenWasCalled(d, callId, name);
    AppendOutgrows(d.messages, m);
    assert e.messages == d.messages + [m];
    WaitingStays(d, e);
    var (id, rest) := Take(d.waiting, callId, name);
    if id.Some? {
      StaysCalled(d.messages, e.messages, |d.messages|, id.value);
    }
    hide CalledBefore, Take, WaitsForCalls, Outgrows, Decimal;
  }

  lemma HandleStep(d: Desk, ev: Event, generated: string)
    requires WaitsForCalls(d)
    ensures var e := Handle(d, ev, generated);
            && WaitsForCalls(e) && Outgrows(d.messages, e.messages)
            && |e.messages| <= |d.messages| + 1
            && (|e.messages| > |d.messages| ==> Regular(e.messages, |d.messages|))
  {
    var e := Handle(d, ev, generated);
    match ev
    case UserMessage(text) =>
      AppendOutgrows(d.messages, TextMessage(User, text));
      WaitingStays(d, e);
    case Thinking(text) =>
      AppendOutgrows(d.messages, TextMessage(Assistant, text));
      WaitingStays(d, e);
    case ToolCalled(name, arguments, callId) => CallStep(d, name, arguments, callId, generated);
    case ToolReturned(name, content, callId) => AnswerStep(d, callId, name, content);
    case ToolBlocked(name, guardName, reason, callId) => AnswerStep(d, callId, name, BlockedText(guardName, reason));
    case _ =>
  }

  lemma {:induction false} RunIsRegular(start: Desk, events: seq<Event>, generated: seq<string>, n: nat)
    requires n <= |events| == |generated| && start.waiting == Waiting(map[], [])
    ensures var d := After(start, events, generated, n);
            && WaitsForCalls(d) && Outgrows(start.messages, d.messages)
            && forall i :: |start.messages| <= i < |d.messages| ==> Regular(d.messages, i)
  {
    hide Handle, Outgrows, Regular, CalledBefore;
    if n == 0 {
      assert Outgrows(start.messages, start.messages) by { AppendNothing(start.messages); }
    } else {
      var d, e := After(start, events, generated, n - 1), After(start, events, generated, n);
      RunIsRegular(start, events, generated, n - 1);
      hide WaitsForCalls;
      HandleStep(d, events[n - 1], generated[n - 1]);
      OutgrowsAgain(start.messages, d.messages, e.messages);
      LongerWhenOutgrown(d.messages, e.messages);
      forall i | |start.messages| <= i < |e.messages| ensures Regular(e.messages, i) {
        if i < |d.messages| {
          StaysRegular(d.messages, e.messages, i);
        }
      }
    }
  }

  lemma AppendNothing(ms: seq<Message>)
    ensures Outgrows(ms, ms)
  {
  }

  // ---------- Made-up ids ----------

  predicate IsDigit(c: char) {
    '0' <= c <= '9'
  }

  predicate AreDigits(s: string) {
    forall i :: 0 <= i < |s| ==> IsDigit(s[i])
  }

  /** The number that a string of digits stands for. */
  function NumberIn(s: string): nat
    requires AreDigits(s)
  {
    if s == "" then 0 else 10 * NumberIn(s[..|s| - 1]) + (s[|s| - 1] as int - '0' as int)
  }

  lemma DigitMeaning(n: nat)
    requires n < 10
    ensures IsDigit("0123456789"[n]) && "0123456789"[n] as int - '0' as int == n
    ensures "0123456789"[n] == '0' <==> n == 0
  {
  }

  /** A made-up id ends in the usual decimal notation of a number, so no two of them are alike. */
  lemma {:induction false} DecimalIsRead(n: nat)
    ensures AreDigits(Decimal(n)) && NumberIn(Decimal(n)) == n
    ensures Decimal(n) != "" && (Decimal(n)[0] == '0' <==> n == 0)
  {
    DigitMeaning(n % 10);
    var s := Decimal(n);
    if n < 10 {
      assert s[..0] == "" && NumberIn(s[..0]) == 0;
    } else {
      DecimalIsRead(n / 10);
      assert s[..|s| - 1] == Decimal(n / 10);
    }
  }
}
