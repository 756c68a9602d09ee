/** Rebuilding a model conversation from a session's event log: calls are matched with their
    outcomes, and calls left without one get a synthesized result. */
module Conversation {
  import opened Results

  datatype Role = System | User | Assistant | Tool

  datatype ToolCall = ToolCall(id: string, name: string, arguments: string)

  datatype Message = Message(
    role: Role, content: Option<string>, toolCalls: Option<seq<ToolCall>>, toolCallId: Option<string>,
    name: Option<string>)

  datatype Event =
    | UserMessage(content: string)
    | Thinking(content: string)
    | ToolCalled(name: string, arguments: string, callId: Option<string>)
    | ToolReturned(name: string, content: string, callId: Option<string>)
    | ToolBlocked(name: string, guardName: string, reason: string, callId: Option<string>)
    | SessionModeSet(mode: string)
    | OtherEvent

  function TextMessage(role: Role, content: string): Message {
    Message(role, Some(content), None, None, None)
  }

  function AssistantWithToolCalls(calls: seq<ToolCall>): Message {
    Message(Assistant, None, Some(calls), None, None)
  }

  function ToolResult(callId: string, name: string, content: string): Message {
    Message(Tool, Some(content), None, Some(callId), Some(name))
  }

  const ORPHAN := "replayed-orphan-"
  const MISSING :=
    "[Tool result missing from the session event log — the session was interrupted before a result was recorded.]"

  function Decimal(n: nat): string {
    if n < 10 then ["0123456789"[n]] else Decimal(n / 10) + ["0123456789"[n % 10]]
  }

  function OrphanId(messageCount: nat): string {
    ORPHAN + Decimal(messageCount)
  }

  function BlockedText(guardName: string, reason: string): string {
    "[Tool blocked by " + guardName + "] " + reason
  }

  // ---------- The replay of one event, on values ----------

  /** The calls that wait for an outcome: by id, and those of the old format in call order. */
  datatype Waiting = Waiting(byId: map<string, string>, legacy: seq<(string, string)>)

  datatype Desk = Desk(messages: seq<Message>, waiting: Waiting, mode: string)

  function CallsOf(m: Message): seq<ToolCall> {
    if m.role == Assistant && m.toolCalls.Some? then m.toolCalls.value else []
  }

  /** A call joins the assistant message that ends the list, or starts one. */
  function Attach(ms: seq<Message>, call: ToolCall): seq<Message> {
    if ms != [] && ms[|ms| - 1].role == Assistant
    then ms[..|ms| - 1] + [ms[|ms| - 1].(toolCalls := Some(CallsOf(ms[|ms| - 1]) + [call]))]
    else ms + [AssistantWithToolCalls([call])]
  }

  /** The place of the oldest pending call of tool `name`, or the length. */
  function FirstOf(legacy: seq<(string, string)>, name: string): (i: nat)
    ensures i <= |legacy| && (i < |legacy| ==> legacy[i].0 == name)
    ensures forall j :: 0 <= j < i ==> legacy[j].0 != name
  {
    if legacy == [] || legacy[0].0 == name then 0 else 1 + FirstOf(legacy[1..], name)
  }

  /** The call an outcome answers, if any, and the calls that go on waiting. */
  function Take(w: Waiting, callId: Option<string>, name: string): (Option<string>, Waiting) {
    match callId
    case Some(id) =>
      if id in w.byId then (Some(id), w.(byId := w.byId - {id})) else (None, w)
    case None =>
      var i := FirstOf(w.legacy, name);
      if i == |w.legacy| then (None, w)
      else (Some(w.legacy[i].1), Waiting(w.byId - {w.legacy[i].1}, w.legacy[..i] + w.legacy[i + 1..]))
  }

  function Answer(d: Desk, callId: Option<string>, name: string, content: string): Desk {
    var (id, rest) := Take(d.waiting, callId, name);
    var answered := if id.Some? then id.value else OrphanId(|d.messages|);
    Desk(d.messages + [ToolResult(answered, name, content)], rest, d.mode)
  }

  function Enqueue(w: Waiting, id: string, name: string, unnamed: bool): Waiting {
    Waiting(w.byId[id := name], if unnamed then w.legacy + [(name, id)] else w.legacy)
  }

  /** `generated` is the id drawn for a call that was logged without one. */
  function Handle(d: Desk, ev: Event, generated: string): Desk {
    match ev
    case UserMessage(text) => d.(messages := d.messages + [TextMessage(User, text)])
    case Thinking(text) => d.(messages := d.messages + [TextMessage(Assistant, text)])
    case ToolCalled(name, arguments, callId) =>
      var id := if callId.Some? then callId.value else generated;
      Desk(Attach(d.messages, ToolCall(id, name, arguments)), Enqueue(d.waiting, id, name, callId.None?), d.mode)
    case ToolReturned(name, content, callId) => Answer(d, callId, name, content)
    case ToolBlocked(name, guardName, reason, callId) => Answer(d, callId, name, BlockedText(guardName, reason))
    case SessionModeSet(mode) => d.(mode := mode)
    case OtherEvent => d
  }

  /** The desk after the first `n` events. */
  function After(d: Desk, events: seq<Event>, generated: seq<string>, n: nat): Desk
    requires n <= |events| == |generated|
  {
    if n == 0 then d else Handle(After(d, events, generated, n - 1), events[n - 1], generated[n - 1])
  }

  // ---------- The repair of dangling calls, on values ----------

  function Answered(ms: seq<Message>): set<string> {
    set m | m in ms && m.role == Tool && m.toolCallId.Some? :: m.toolCallId.value
  }

  function Synthesized(calls: seq<ToolCall>, answered: set<string>): seq<Message> {
    if calls == [] then [] else
    var rest := Synthesized(calls[..|calls| - 1], answered);
    var call := calls[|calls| - 1];
    if call.id in answered then rest else rest + [ToolResult(call.id, call.name, MISSING)]
  }

  function MissingAfter(m: Message, answered: set<string>): seq<Message> {
    Synthesized(CallsOf(m), answered)
  }

  /** Each message, followed by the results its calls still miss. */
  function Completed(ms: seq<Message>, answered: set<string>): seq<Message> {
    if ms == [] then [] else [ms[0]] + MissingAfter(ms[0], answered) + Completed(ms[1..], answered)
  }

  function Repaired(ms: seq<Message>): seq<Message> {
    Completed(ms, Answered(ms))
  }

  function Rebuilt(messages: seq<Message>, mode: string, events: seq<Event>, generated: seq<string>): seq<Message>
    requires |events| == |generated|
  {
    Repaired(After(Desk(messages, Waiting(map[], []), mode), events, generated, |events|).messages)
  }

  // ---------- The program's own form ----------

  class Session {
    var messages: seq<Message>
    var mode: string

    constructor (messages: seq<Message>, mode: string)
      ensures this.messages == messages && this.mode == mode
    {
      this.messages, this.mode := messages, mode;
    }
  }

  /** The memory that is fed with every event of the log; here, the events it was fed with. */
  class MindPalace {
    var ingested: seq<Event>

    constructor ()
      ensures ingested == []
    {
      ingested := [];
    }

    method Ingest(ev: Event)
      modifies this
      ensures ingested == old(ingested) + [ev]
    {
      ingested := ingested + [ev];
    }
  }

  /** The calls that still wait for an outcome. */
  class Pending {
    var byId: map<string, string>
    var legacy: seq<(string, string)>

    function View(): Waiting
      reads this
    {
      Waiting(byId, legacy)
    }

    constructor ()
      ensures byId == map[] && legacy == []
    {
      byId, legacy := map[], [];
    }

    /** Finds and removes the call that an outcome answers. */
    method ResolvePendingCall(callId: Option<string>, name: string) returns (r: Option<string>)
      modifies this
      ensures Take(old(View()), callId, name) == (r, View())
    {
      if callId.Some? {
        if callId.value !in byId { return None; }
        byId := byId - {callId.value};
        return callId;
      }
      var position := 0;
      while position < |legacy| && legacy[position].0 != name
        invariant position <= |legacy|
        invariant forall j :: 0 <= j < position ==> legacy[j].0 != name
      {
        position := position + 1;
      }
      assert position == FirstOf(legacy, name);
      if position == |legacy| { return None; }
      var id := legacy[position].1;
      legacy := legacy[..position] + legacy[position + 1..];
      byId := byId - {id};
      return Some(id);
    }
  }

  /** One event of the log. */
  method ReplayEvent(session: Session, pending: Pending, ev: Event, generated: string)
    modifies session, pending
    ensures Desk(session.messages, pending.View(), session.mode) ==
            Handle(old(Desk(session.messages, pending.View(), session.mode)), ev, generated)
    ensures session.mode == if ev.SessionModeSet? then ev.mode else old(session.mode)
    ensures ev.UserMessage? ==>
              session.messages == old(session.messages) + [Message(User, Some(ev.content), None, None, None)]
    ensures ev.Thinking? ==>
              session.messages == old(session.messages) + [Message(Assistant, Some(ev.content), None, None, None)]
    ensures ev.ToolCalled? ==>
              var ms := session.messages;
              && ms != [] && ms[|ms| - 1].role == Assistant
              && var calls := CallsOf(ms[|ms| - 1]);
              && calls != []
              && calls[|calls| - 1] == ToolCall(if ev.callId.Some? then ev.callId.value else generated,
                                                ev.name, ev.arguments)
    ensures ev.ToolReturned? || ev.ToolBlocked? ==>
              var ms, n := session.messages, |old(session.messages)|;
              && |ms| == n + 1 && ms[..n] == old(session.messages)
              && ms[n].role == Tool && ms[n].toolCalls == None && ms[n].name == Some(ev.name)
              && ms[n].content == Some(if ev.ToolReturned? then ev.content
                                       else "[Tool blocked by " + ev.guardName + "] " + ev.reason)
    ensures ev.SessionModeSet? || ev.OtherEvent? ==> session.messages == old(session.messages)
  {
    hide OrphanId, FirstOf, Attach;
    match ev {
      case UserMessage(text) =>
        session.messages := session.messages + [TextMessage(User, text)];
      case Thinking(text) =>
        session.messages := session.messages + [TextMessage(Assistant, text)];
      case ToolCalled(name, arguments, callId) =>
        var id := if callId.Some? then callId.value else generated;
        var call := ToolCall(id, name, arguments);
        pending.byId := pending.byId[id := name];
        if callId.None? {
          pending.legacy := pending.legacy + [(name, id)];
        }
        AttachToLast(session, call);
      case ToolReturned(name, content, callId) =>
        var answered := pending.ResolvePendingCall(callId, name);
        var id := if answered.Some? then answered.value else OrphanId(|session.messages|);
        session.messages := session.messages + [ToolResult(id, name, content)];
      case ToolBlocked(name, guardName, reason, callId) =>
        var answered := pending.ResolvePendingCall(callId, name);
        var id := if answered.Some? then answered.value else OrphanId(|session.messages|);
        session.messages := session.messages + [ToolResult(id, name, BlockedText(guardName, reason))];
      case SessionModeSet(mode) =>
        session.mode := mode;
      case OtherEvent =>
    }
  }

  /** Of the first `n` events, event `i` is the last to set a mode. */
  predicate SetsModeLast(events: seq<Event>, i: nat, n: nat)
    requires i < n <= |events|
  {
    events[i].SessionModeSet? && forall j :: i < j < n ==> !events[j].SessionModeSet?
  }

  /** Rebuilds the conversation in place: the event loop, then the repair. */
  method ReplayEventsIntoRuntime(
    session: Session, palace: MindPalace, events: seq<Event>, generated: seq<string>)
    requires |events| == |generated|
    modifies session, palace
    ensures palace.ingested == old(palace.ingested) + events
    ensures session.messages == Rebuilt(old(session.messages), old(session.mode), events, generated)
    ensures var start := Desk(old(session.messages), Waiting(map[], []), old(session.mode));
            session.mode == After(start, events, generated, |events|).mode
    ensures (forall i :: 0 <= i < |events| ==> !events[i].SessionModeSet?) ==> session.mode == old(session.mode)
    ensures forall i :: 0 <= i < |events| && SetsModeLast(events, i, |events|) ==> session.mode == events[i].mode
  {
    hide Handle, Repaired;
    var pending := new Pending();
    ghost var start := Desk(session.messages, Waiting(map[], []), session.mode);
    for i := 0 to |events|
      invariant fresh(pending)
      invariant Desk(session.messages, pending.View(), session.mode) == After(start, events, generated, i)
      invariant palace.ingested == old(palace.ingested) + events[..i]
      invariant (forall k :: 0 <= k < i ==> !events[k].SessionModeSet?) ==> session.mode == old(session.mode)
      invariant forall k :: 0 <= k < i && SetsModeLast(events, k, i) ==> session.mode == events[k].mode
    {
      palace.Ingest(events[i]);
      assert events[..i + 1] == events[..i] + [events[i]];
      ReplayEvent(session, pending, events[i], generated[i]);
    }
    assert events[..|events|] == events;
    CloseDanglingCalls(session);
  }

  method AttachToLast(session: Session, call: ToolCall)
    modifies session`messages
    ensures session.messages == Attach(old(session.messages), call)
    ensures var was, n := old(session.messages), |old(session.messages)|;
            if n > 0 && was[n - 1].role == Assistant
            then
              && |session.messages| == n && session.messages[..n - 1] == was[..n - 1]
              && var calls := if was[n - 1].toolCalls.Some? then was[n - 1].toolCalls.value else [];
              session.messages[n - 1] == was[n - 1].(toolCalls := Some(calls + [call]))
            else session.messages == was + [Message(Assistant, None, Some([call]), None, None)]
  {
    var n := |session.messages|;
    if n > 0 && session.messages[n - 1].role == Assistant {
      var last := session.messages[n - 1];
      if last.toolCalls.Some? {
        last := last.(toolCalls := Some(last.toolCalls.value + [call]));
      } else {
        assert CallsOf(last) + [call] == [call];
        last := last.(toolCalls := Some([call]));
      }
      session.messages := session.messages[..n - 1] + [last];
    } else {
      session.messages := session.messages + [AssistantWithToolCalls([call])];
    }
  }

  lemma {:induction false} CompletedSkips(ms: seq<Message>, answered: set<string>, n: nat)
    requires n <= |ms|
    requires forall i :: 0 <= i < n ==> MissingAfter(ms[i], answered) == []
    ensures Completed(ms, answered) == ms[..n] + Completed(ms[n..], answered)
  {
    hide MissingAfter;
    if n > 0 {
      CompletedSkips(ms[1..], answered, n - 1);
      assert ms[1..][n - 1..] == ms[n..];
      assert ms[..n] == [ms[0]] + ms[1..][..n - 1];
    }
  }

  /** Where results are missing among the first `n` messages: the position behind the call, and the
      results to put there. */
  function Inserts(ms: seq<Message>, answered: set<string>, n: nat): seq<(nat, seq<Message>)>
    requires n <= |ms|
  {
    if n == 0 then [] else
    var missing := MissingAfter(ms[n - 1], answered);
    Inserts(ms, answered, n - 1) + if missing == [] then [] else [(n, missing)]
  }

  lemma {:induction false} LastInsert(ms: seq<Message>, answered: set<string>, n: nat) returns (at: nat)
    requires n <= |ms| && Inserts(ms, answered, n) != []
    ensures 0 < at <= n && MissingAfter(ms[at - 1], answered) != []
    ensures Inserts(ms, answered, n) == Inserts(ms, answered, at - 1) + [(at, MissingAfter(ms[at - 1], answered))]
    ensures forall i :: at <= i < n ==> MissingAfter(ms[i], answered) == []
  {
    hide MissingAfter;
    if MissingAfter(ms[n - 1], answered) != [] {
      at := n;
    } else {
      assert Inserts(ms, answered, n) == Inserts(ms, answered, n - 1);
      at := LastInsert(ms, answered, n - 1);
    }
  }

  lemma {:induction false} NoInserts(ms: seq<Message>, answered: set<string>, n: nat)
    requires n <= |ms| && Inserts(ms, answered, n) == []
    ensures forall i :: 0 <= i < n ==> MissingAfter(ms[i], answered) == []
  {
    hide MissingAfter;
    if n > 0 {
      NoInserts(ms, answered, n - 1);
    }
  }

  /** Scans for assistant messages with calls that nothing answers. */
  method FindDanglingCalls(ms: seq<Message>, answered: set<string>) returns (inserts: seq<(nat, seq<Message>)>)
    ensures inserts == Inserts(ms, answered, |ms|)
  {
    hide MissingAfter;
    inserts := [];
    for index := 0 to |ms|
      invariant inserts == Inserts(ms, answered, index)
    {
      var missing := MissingAfter(ms[index], answered);
      if missing != [] {
        inserts := inserts + [(index + 1, missing)];
      }
    }
  }

  /** Splices the missing results in, last position first, so that earlier positions stay valid. */
  method CloseDanglingCalls(session: Session)
    modifies session`messages
    ensures session.messages == Repaired(old(session.messages))
  {
    hide MissingAfter, Answered, Inserts, Completed;
    var ms := session.messages;
    var answered := Answered(ms);
    var inserts := FindDanglingCalls(ms, answered);
    NothingBehind(ms, answered);
    ghost var edge: nat := |ms|;
    var n: nat := |inserts|;
    while n > 0
      invariant n <= |inserts| && edge <= |ms|
      invariant inserts[..n] == Inserts(ms, answered, edge)
      invariant session.messages == ms[..edge] + Completed(ms[edge..], answered)
    {
      n := n - 1;
      var (at, synthesized) := inserts[n];
      var position := if at <= |session.messages| then at else |session.messages|;
      SpliceExtends(ms, answered, edge, inserts[..n + 1], session.messages);
      session.messages := session.messages[..position] + synthesized + session.messages[position..];
      edge := at - 1;
      assert inserts[..n + 1][..n] == inserts[..n];
    }
    NoInserts(ms, answered, edge);
    CompletedSkips(ms, answered, edge);
  }

  lemma NothingBehind(ms: seq<Message>, answered: set<string>)
    ensures ms == ms[..|ms|] + Completed(ms[|ms|..], answered)
  {
  }

  lemma CompletedCons(m: Message, tail: seq<Message>, answered: set<string>)
    ensures Completed([m] + tail, answered) == [m] + MissingAfter(m, answered) + Completed(tail, answered)
  {
    hide MissingAfter;
    assert ([m] + tail)[0] == m && ([m] + tail)[1..] == tail;
  }

  /** Splicing behind a message `m` whose followers are completed. */
  lemma SplicedBehind(
    front: seq<Message>, m: Message, middle: seq<Message>, behind: seq<Message>, now: seq<Message>,
    answered: set<string>)
    requires now == front + [m] + middle + Completed(behind, answered)
    requires forall i :: 0 <= i < |middle| ==> MissingAfter(middle[i], answered) == []
    ensures var at := |front| + 1;
            && at <= |now|
            && now[..at] + MissingAfter(m, answered) + now[at..] ==
               front + Completed([m] + (middle + behind), answered)
  {
    hide MissingAfter;
    var missing, rest := MissingAfter(m, answered), Completed(behind, answered);
    CompletedCons(m, middle + behind, answered);
    CompletedSkips(middle + behind, answered, |middle|);
    assert (middle + behind)[..|middle|] == middle && (middle + behind)[|middle|..] == behind;
    hide Completed;
    SplitBehind(front, m, middle, rest, missing);
  }

  lemma SplitBehind(
    front: seq<Message>, m: Message, middle: seq<Message>, rest: seq<Message>, missing: seq<Message>)
    ensures var now := front + [m] + middle + rest;
            && now[..|front| + 1] == front + [m] && now[|front| + 1..] == middle + rest
            && now[..|front| + 1] + missing + now[|front| + 1..] == front + ([m] + missing + (middle + rest))
  {
    var now := front + [m] + middle + rest;
    assert now[..|front| + 1] == front + [m];
    assert now[|front| + 1..] == middle + rest;
  }

  /** One splice extends the completed part of the list down to the message before it. */
  lemma SpliceExtends(
    ms: seq<Message>, answered: set<string>, edge: nat, inserts: seq<(nat, seq<Message>)>, now: seq<Message>)
    requires edge <= |ms| && inserts != [] && inserts == Inserts(ms, answered, edge)
    requires now == ms[..edge] + Completed(ms[edge..], answered)
    ensures var (at, synthesized) := inserts[|inserts| - 1];
            && 0 < at <= edge && at <= |now|
            && inserts[..|inserts| - 1] == Inserts(ms, answered, at - 1)
            && now[..at] + synthesized + now[at..] == ms[..at - 1] + Completed(ms[at - 1..], answered)
  {
    hide MissingAfter, Inserts, Completed;
    var at := LastInsert(ms, answered, edge);
    assert inserts[|inserts| - 1] == (at, MissingAfter(ms[at - 1], answered));
    var front, m, middle, behind := ms[..at - 1], ms[at - 1], ms[at..edge], ms[edge..];
    assert ms[..edge] == front + [m] + middle;
    assert ms[at - 1..] == [m] + (middle + behind);
    SplicedBehind(front, m, middle, behind, now, answered);
  }
}
