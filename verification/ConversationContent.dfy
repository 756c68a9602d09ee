/** What a rebuilt conversation says: the starting messages, and then the log's texts, calls and outcomes
    in the log's order, with nothing added but the results that were missing. */
module ConversationContent {
  import opened Results
  import opened Conversation
  import opened ConversationLegality
  import opened ConversationLayout

  // ---------- What is said, leaving out how it is grouped into messages ----------

  datatype Item = Said(role: Role, text: string, name: Option<string>) | Asks(call: ToolCall)

  function Questions(calls: seq<ToolCall>): seq<Item> {
    seq(|calls|, i requires 0 <= i < |calls| => Asks(calls[i]))
  }

  /** The text of a message, and then the calls it makes. */
  function ItemsOf(m: Message): seq<Item> {
    (if m.content.Some? then [Said(m.role, m.content.value, m.name)] else [])
    + if m.role == Assistant && m.toolCalls.Some? then Questions(m.toolCalls.value) else []
  }

  function Transcript(ms: seq<Message>): seq<Item> {
    if ms == [] then [] else Transcript(ms[..|ms| - 1]) + ItemsOf(ms[|ms| - 1])
  }

  /** What one event of the log contributes. */
  function Logged(ev: Event, generated: string): seq<Item> {
    match ev
    case UserMessage(text) => [Said(User, text, None)]
    case Thinking(text) => [Said(Assistant, text, None)]
    case ToolCalled(name, arguments, callId) =>
      [Asks(ToolCall(if callId.Some? then callId.value else generated, name, arguments))]
    case ToolReturned(name, content, _) => [Said(Tool, content, Some(name))]
    case ToolBlocked(name, guardName, reason, _) =>
      [Said(Tool, "[Tool blocked by " + guardName + "] " + reason, Some(name))]
    case SessionModeSet(_) => []
    case OtherEvent => []
  }

  function LogItems(events: seq<Event>, generated: seq<string>): seq<Item>
    requires |events| == |generated|
  {
    if events == [] then [] else
    var n := |events| - 1;
    LogItems(events[..n], generated[..n]) + Logged(events[n], generated[n])
  }

  lemma TranscriptAppends(ms: seq<Message>, m: Message)
    ensures Transcript(ms + [m]) == Transcript(ms) + ItemsOf(m)
  {
    hide ItemsOf;
    assert (ms + [m])[..|ms|] == ms;
  }

  lemma AskedLast(m: Message, call: ToolCall)
    requires m.role == Assistant
    ensures ItemsOf(m.(toolCalls := Some(CallsOf(m) + [call]))) == ItemsOf(m) + [Asks(call)]
  {
    assert Questions(CallsOf(m) + [call]) == Questions(CallsOf(m)) + [Asks(call)];
    assert Questions(CallsOf(m)) == if m.toolCalls.Some? then Questions(m.toolCalls.value) else [];
  }

  lemma AttachSays(ms: seq<Message>, call: ToolCall)
    ensures Transcript(Attach(ms, call)) == Transcript(ms) + [Asks(call)]
  {
    if ms != [] && ms[|ms| - 1].role == Assistant {
      var front, m := ms[..|ms| - 1], ms[|ms| - 1];
      var joined := m.(toolCalls := Some(CallsOf(m) + [call]));
      AskedLast(m, call);
      TranscriptAppends(front, joined);
      hide ItemsOf, Transcript;
      assert Attach(ms, call) == front + [joined] && ms == front + [m];
      TranscriptAppends(front, m);
      assert (Transcript(front) + ItemsOf(m)) + [Asks(call)] == Transcript(front) + (ItemsOf(m) + [Asks(call)]);
    } else {
      var m := AssistantWithToolCalls([call]);
      assert ItemsOf(m) == [Asks(call)];
      hide ItemsOf, Transcript;
      TranscriptAppends(ms, m);
    }
  }

  lemma HandleSays(d: Desk, ev: Event, generated: string)
    ensures Transcript(Handle(d, ev, generated).messages) == Transcript(d.messages) + Logged(ev, generated)
  {
    var ms := d.messages;
    hide Transcript, Take, Attach, OrphanId;
    match ev
    case UserMessage(text) => TranscriptAppends(ms, TextMessage(User, text));
    case Thinking(text) => TranscriptAppends(ms, TextMessage(Assistant, text));
    case ToolCalled(name, arguments, callId) =>
      AttachSays(ms, ToolCall(if callId.Some? then callId.value else generated, name, arguments));
    case ToolReturned(name, content, callId) =>
      TranscriptAppends(ms, Answer(d, callId, name, content).messages[|ms|]);
    case ToolBlocked(name, guardName, reason, callId) =>
      TranscriptAppends(ms, Answer(d, callId, name, BlockedText(guardName, reason)).messages[|ms|]);
    case _ =>
  }

  lemma {:induction false} RunSays(d: Desk, events: seq<Event>, generated: seq<string>, n: nat)
    requires n <= |events| == |generated|
    ensures Transcript(After(d, events, generated, n).messages) ==
            Transcript(d.messages) + LogItems(events[..n], generated[..n])
  {
    hide Transcript, Handle, Logged;
    if n > 0 {
      RunSays(d, events, generated, n - 1);
      HandleSays(After(d, events, generated, n - 1), events[n - 1], generated[n - 1]);
      assert events[..n][..n - 1] == events[..n - 1] && generated[..n][..n - 1] == generated[..n - 1];
    }
  }

  // ---------- The rebuilt list ----------

  /** The rebuilt conversation is a repaired list that says what the session said at first and then what the
      log says, item by item: the session's messages, at most with more calls, and behind them only texts,
      calls and results. Taking out the results that the repair put in gives that list back. */
  lemma RebuiltTellsTheLog(messages: seq<Message>, mode: string, events: seq<Event>, generated: seq<string>)
    returns (kept: seq<Message>)
    requires |events| == |generated|
    ensures Rebuilt(messages, mode, events, generated) == Repaired(kept)
    ensures WithoutSynthesized(Rebuilt(messages, mode, events, generated), Answered(kept)) == kept
    ensures Transcript(kept) == Transcript(messages) + LogItems(events, generated)
    ensures Outgrows(messages, kept)
    ensures forall i :: |messages| <= i < |kept| ==> Regular(kept, i)
  {
    hide Transcript, After, LogItems, Outgrows, Regular, WaitsForCalls;
    var start := Desk(messages, Waiting(map[], []), mode);
    kept := After(start, events, generated, |events|).messages;
    RepairOnlyInserts(kept);
    RunSays(start, events, generated, |events|);
    RunIsRegular(start, events, generated, |events|);
    assert events[..|events|] == events && generated[..|events|] == generated;
  }

  predicate FromTool(item: Item) {
    item.Said? && item.role == Tool
  }

  function Filter(items: seq<Item>, p: Item -> bool): seq<Item> {
    if items == [] then [] else
    var n := |items| - 1;
    Filter(items[..n], p) + if p(items[n]) then [items[n]] else []
  }

  lemma {:induction false} FilterConcat(a: seq<Item>, b: seq<Item>, p: Item -> bool)
    ensures Filter(a + b, p) == Filter(a, p) + Filter(b, p)
    decreases |b|
  {
    if b == [] {
      assert a + b == a;
    } else {
      var n := |b| - 1;
      assert (a + b)[..|a| + n] == a + b[..n];
      FilterConcat(a, b[..n], p);
    }
  }

  lemma {:induction false} TranscriptConcat(a: seq<Message>, b: seq<Message>)
    ensures Transcript(a + b) == Transcript(a) + Transcript(b)
    decreases |b|
  {
    hide ItemsOf;
    if b == [] {
      assert a + b == a;
    } else {
      assert (a + b)[..|a + b| - 1] == a + b[..|b| - 1];
      TranscriptConcat(a, b[..|b| - 1]);
    }
  }

  lemma {:induction false} SynthesizedIsFromTools(calls: seq<ToolCall>, answered: set<string>, p: Item -> bool)
    requires forall item :: FromTool(item) ==> !p(item)
    ensures Filter(Transcript(Synthesized(calls, answered)), p) == []
  {
    if calls != [] {
      var rest, call := calls[..|calls| - 1], calls[|calls| - 1];
      SynthesizedIsFromTools(rest, answered, p);
      if call.id !in answered {
        var m := ToolResult(call.id, call.name, MISSING);
        hide MISSING;
        TranscriptAppends(Synthesized(rest, answered), m);
        var item := Said(Tool, MISSING, Some(call.name));
        assert ItemsOf(m) == [item] && FromTool(item);
        FilterConcat(Transcript(Synthesized(rest, answered)), [item], p);
        assert [item][..0] == [];
      }
    }
  }

  lemma {:induction false} CompletedSays(ms: seq<Message>, answered: set<string>, p: Item -> bool)
    requires forall item :: FromTool(item) ==> !p(item)
    ensures Filter(Transcript(Completed(ms, answered)), p) == Filter(Transcript(ms), p)
  {
    hide Transcript, Filter, Synthesized;
    if ms != [] {
      var m, tail := ms[0], ms[1..];
      var missing := MissingAfter(m, answered);
      CompletedSays(tail, answered, p);
      SynthesizedIsFromTools(CallsOf(m), answered, p);
      assert ms == [m] + tail;
      hide Completed, MissingAfter;
      CompletedCons(m, tail, answered);
      TranscriptConcat([m] + missing, Completed(tail, answered));
      TranscriptConcat([m], missing);
      TranscriptConcat([m], tail);
      FilterConcat(Transcript([m]) + Transcript(missing), Transcript(Completed(tail, answered)), p);
      FilterConcat(Transcript([m]), Transcript(missing), p);
      FilterConcat(Transcript([m]), Transcript(tail), p);
    }
  }

  /** Whatever one looks for, except the results of tools, is in the rebuilt conversation exactly as the
      session had it at first and the log has it, in that order: user texts, assistant texts, calls. */
  lemma RebuiltKeepsTheDialogue(
    messages: seq<Message>, mode: string, events: seq<Event>, generated: seq<string>, p: Item -> bool)
    requires |events| == |generated|
    requires forall item :: FromTool(item) ==> !p(item)
    ensures Filter(Transcript(Rebuilt(messages, mode, events, generated)), p) ==
            Filter(Transcript(messages), p) + Filter(LogItems(events, generated), p)
  {
    hide Transcript, Filter, LogItems, Rebuilt, FromTool, Outgrows, Regular;
    var kept := RebuiltTellsTheLog(messages, mode, events, generated);
    CompletedSays(kept, Answered(kept), p);
    FilterConcat(Transcript(messages), LogItems(events, generated), p);
  }

  // ---------- Texts and calls, one kind at a time ----------

  function TextsBy(role: Role, items: seq<Item>): seq<string> {
    if items == [] then [] else
    var n := |items| - 1;
    TextsBy(role, items[..n])
    + if items[n].Said? && items[n].role == role then [items[n].text] else []
  }

  function CallsIn(items: seq<Item>): seq<ToolCall> {
    if items == [] then [] else
    var n := |items| - 1;
    CallsIn(items[..n]) + if items[n].Asks? then [items[n].call] else []
  }

  /** The user's texts or the assistant's, as logged. */
  function LoggedTexts(role: Role, events: seq<Event>): seq<string> {
    if events == [] then [] else
    var n := |events| - 1;
    LoggedTexts(role, events[..n])
    + match events[n]
      case UserMessage(text) => if role == User then [text] else []
      case Thinking(text) => if role == Assistant then [text] else []
      case _ => []
  }

  function LoggedCalls(events: seq<Event>, generated: seq<string>): seq<ToolCall>
    requires |events| == |generated|
  {
    if events == [] then [] else
    var n := |events| - 1;
    LoggedCalls(events[..n], generated[..n])
    + match events[n]
      case ToolCalled(name, arguments, Some(id)) => [ToolCall(id, name, arguments)]
      case ToolCalled(name, arguments, None) => [ToolCall(generated[n], name, arguments)]
      case _ => []
  }

  lemma {:induction false} TextsConcat(role: Role, a: seq<Item>, b: seq<Item>)
    ensures TextsBy(role, a + b) == TextsBy(role, a) + TextsBy(role, b)
    ensures CallsIn(a + b) == CallsIn(a) + CallsIn(b)
    decreases |b|
  {
    if b == [] {
      assert a + b == a;
    } else {
      var n := |b| - 1;
      assert (a + b)[..|a| + n] == a + b[..n];
      TextsConcat(role, a, b[..n]);
    }
  }

  lemma {:induction false} TextsAreFiltered(role: Role, items: seq<Item>, p: Item -> bool)
    requires forall item :: FromTool(item) <==> !p(item)
    requires role != Tool
    ensures TextsBy(role, Filter(items, p)) == TextsBy(role, items)
    ensures CallsIn(Filter(items, p)) == CallsIn(items)
  {
    if items != [] {
      var n := |items| - 1;
      TextsAreFiltered(role, items[..n], p);
      assert FromTool(items[n]) <==> !p(items[n]);
      var front := Filter(items[..n], p);
      if p(items[n]) {
        assert (front + [items[n]])[..|front|] == front;
      } else {
        assert Filter(items, p) == front;
      }
    }
  }

  lemma {:induction false} LogIsRead(role: Role, events: seq<Event>, generated: seq<string>)
    requires |events| == |generated| && role != Tool
    ensures TextsBy(role, LogItems(events, generated)) == LoggedTexts(role, events)
    ensures CallsIn(LogItems(events, generated)) == LoggedCalls(events, generated)
  {
    if events != [] {
      var n := |events| - 1;
      LogIsRead(role, events[..n], generated[..n]);
      OneIsRead(role, events[n], generated[n]);
      TextsConcat(role, LogItems(events[..n], generated[..n]), Logged(events[n], generated[n]));
      hide Logged, TextsBy, CallsIn;
    }
  }

  lemma OneIsRead(role: Role, ev: Event, generated: string)
    requires role != Tool
    ensures TextsBy(role, Logged(ev, generated)) ==
            match ev
            case UserMessage(text) => if role == User then [text] else []
            case Thinking(text) => if role == Assistant then [text] else []
            case _ => []
    ensures CallsIn(Logged(ev, generated)) ==
            match ev
            case ToolCalled(name, arguments, Some(id)) => [ToolCall(id, name, arguments)]
            case ToolCalled(name, arguments, None) => [ToolCall(generated, name, arguments)]
            case _ => []
  {
    var items := Logged(ev, generated);
    if items != [] {
      assert items == [items[0]] && items[..0] == [];
    }
  }

  /** What the user said, what the assistant said, and the calls it made, with their ids, names and
      arguments: those of the session first, and then those of the log, each in its order. */
  lemma RebuiltKeepsTextsAndCalls(
    messages: seq<Message>, mode: string, events: seq<Event>, generated: seq<string>, role: Role)
    requires |events| == |generated| && role != Tool
    ensures var said := Transcript(Rebuilt(messages, mode, events, generated));
            && TextsBy(role, said) == TextsBy(role, Transcript(messages)) + LoggedTexts(role, events)
            && CallsIn(said) == CallsIn(Transcript(messages)) + LoggedCalls(events, generated)
  {
    hide Transcript, Rebuilt, LogItems, LoggedTexts, LoggedCalls;
    var p := (item: Item) => !FromTool(item);
    var before, log := Transcript(messages), LogItems(events, generated);
    RebuiltKeepsTheDialogue(messages, mode, events, generated, p);
    TextsAreFiltered(role, Transcript(Rebuilt(messages, mode, events, generated)), p);
    TextsAreFiltered(role, before, p);
    TextsAreFiltered(role, log, p);
    TextsConcat(role, Filter(before, p), Filter(log, p));
    LogIsRead(role, events, generated);
  }

  // ---------- The mode ----------

  lemma HandleMode(d: Desk, ev: Event, generated: string)
    ensures Handle(d, ev, generated).mode == if ev.SessionModeSet? then ev.mode else d.mode
  {
    hide Attach, Enqueue, Take, OrphanId;
  }

  /** The mode is the one that the log set last. */
  lemma {:induction false} LastModeCounts(start: Desk, events: seq<Event>, generated: seq<string>, i: nat, n: nat)
    requires i < n <= |events| == |generated| && SetsModeLast(events, i, n)
    ensures After(start, events, generated, n).mode == events[i].mode
  {
    hide Handle;
    HandleMode(After(start, events, generated, n - 1), events[n - 1], generated[n - 1]);
    if i < n - 1 {
      LastModeCounts(start, events, generated, i, n - 1);
    }
  }

  /** If the log set none, the mode is the one at the start. */
  lemma {:induction false} ModeIsKept(start: Desk, events: seq<Event>, generated: seq<string>, n: nat)
    requires n <= |events| == |generated| && forall i :: 0 <= i < n ==> !events[i].SessionModeSet?
    ensures After(start, events, generated, n).mode == start.mode
  {
    hide Handle;
    if n > 0 {
      HandleMode(After(start, events, generated, n - 1), events[n - 1], generated[n - 1]);
      ModeIsKept(start, events, generated, n - 1);
    }
  }
}
