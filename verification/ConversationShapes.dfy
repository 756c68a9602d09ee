/** When a rebuilt conversation is legal, for every session and every log: also when the session holds
    tool messages already, and when logged or drawn ids collide with anything. */
module ConversationShapes {
  import opened Results
  import opened Conversation
  import opened ConversationLegality

  /** All that matters of the marks of one id: how calls and results for it alternated so far. */
  datatype Shape = NoMarks | RepliesOnly | OpenOnce | OpenAgain | Closed | Muddled

  function NextShape(shape: Shape, mark: Mark): Shape {
    match mark
    case Asked =>
      (match shape
       case NoMarks => OpenOnce
       case OpenOnce => OpenAgain
       case OpenAgain => OpenAgain
       case _ => Muddled)
    case Replied =>
      (match shape
       case NoMarks => RepliesOnly
       case RepliesOnly => RepliesOnly
       case OpenOnce => Closed
       case OpenAgain => Closed
       case _ => Muddled)
  }

  function ShapeOf(t: seq<Mark>): Shape {
    if t == [] then NoMarks else NextShape(ShapeOf(t[..|t| - 1]), t[|t| - 1])
  }

  ghost predicate Describes(shape: Shape, t: seq<Mark>) {
    match shape
    case NoMarks => t == []
    case RepliesOnly => t != [] && Asked !in t
    case OpenOnce => t == [Asked]
    case OpenAgain => |t| >= 2 && Replied !in t
    case Closed => Asked in t && LegalTrace(t)
    case Muddled => Asked in t && Replied in t && !LegalTrace(t)
  }

  lemma Appended(t: seq<Mark>, m: Mark)
    ensures var u := t + [m];
            && |u| == |t| + 1 && u[|t|] == m && u[..|t|] == t
            && forall n :: n in u <==> n in t || n == m
  {
  }

  lemma AskedDescribes(shape: Shape, t: seq<Mark>)
    requires Describes(shape, t)
    ensures Describes(NextShape(shape, Asked), t + [Asked])
  {
    Appended(t, Asked);
    match shape
    case NoMarks =>
    case RepliesOnly => assert t[0] in t && t[0] == Replied;
    case OpenOnce =>
    case OpenAgain =>
    case Closed =>
    case Muddled =>
  }

  lemma RepliedDescribes(shape: Shape, t: seq<Mark>)
    requires Describes(shape, t)
    ensures Describes(NextShape(shape, Replied), t + [Replied])
  {
    Appended(t, Replied);
    match shape
    case NoMarks =>
    case RepliesOnly =>
    case OpenOnce =>
    case OpenAgain => assert t[0] in t && t[0] == Asked;
    case Closed => assert t[|t| - 1] in t;
    case Muddled =>
  }

  lemma {:induction false} ShapeDescribes(t: seq<Mark>)
    ensures Describes(ShapeOf(t), t)
  {
    if t != [] {
      var front := t[..|t| - 1];
      ShapeDescribes(front);
      assert t == front + [t[|t| - 1]];
      hide Describes;
      match t[|t| - 1]
      case Asked => AskedDescribes(ShapeOf(front), front);
      case Replied => RepliedDescribes(ShapeOf(front), front);
    }
  }

  /** The repair can finish such a trace legally. */
  predicate Repairable(shape: Shape) {
    shape != OpenAgain && shape != Muddled
  }

  lemma RepairableMeaning(t: seq<Mark>)
    ensures Repairable(ShapeOf(t)) <==> LegalTrace(t) || t == [Asked]
  {
    ShapeDescribes(t);
    hide ShapeOf;
    if ShapeOf(t) == OpenAgain {
      assert t[0] in t && t[|t| - 1] in t;
      assert t[0] == Asked;
    }
  }

  lemma ShapeOfAppended(t: seq<Mark>, m: Mark)
    ensures ShapeOf(t + [m]) == NextShape(ShapeOf(t), m)
  {
    assert (t + [m])[..|t|] == t;
  }

  // ---------- One id along a log ----------

  /** The shape of id `c` after `n` events: an event asks with an id, or answers one, which is that of
      the call it is matched with, or, if there is none, the made-up one. */
  function ShapeAfter(start: Desk, events: seq<Event>, generated: seq<string>, c: string, n: nat): Shape
    requires n <= |events| == |generated|
  {
    if n == 0 then ShapeOf(Trace(start.messages, c)) else
    var shape := ShapeAfter(start, events, generated, c, n - 1);
    var ev := events[n - 1];
    if AskedId(ev, generated[n - 1]) == Some(c) then NextShape(shape, Asked)
    else if RepliedId(After(start, events, generated, n - 1), ev) == Some(c) then NextShape(shape, Replied)
    else shape
  }

  /** At the end of the log, the repair can settle id `c`. */
  predicate Settles(start: Desk, events: seq<Event>, generated: seq<string>, c: string)
    requires |events| == |generated|
  {
    Repairable(ShapeAfter(start, events, generated, c, |events|))
  }

  lemma {:induction false} ShapeRun(start: Desk, events: seq<Event>, generated: seq<string>, c: string, n: nat)
    requires n <= |events| == |generated|
    ensures ShapeAfter(start, events, generated, c, n) ==
            ShapeOf(Trace(After(start, events, generated, n).messages, c))
  {
    hide Trace, Handle, AskedId, RepliedId, NextShape;
    if n > 0 {
      var d, ev := After(start, events, generated, n - 1), events[n - 1];
      var t := Trace(d.messages, c);
      ShapeRun(start, events, generated, c, n - 1);
      HandleTrace(d, ev, generated[n - 1], c);
      AskOrReply(d, ev, generated[n - 1]);
      ShapeOfAppended(t, Asked);
      ShapeOfAppended(t, Replied);
      assert t + [] + [] == t && t + [Asked] + [] == t + [Asked] && t + [] + [Replied] == t + [Replied];
    }
  }

  lemma AskOrReply(d: Desk, ev: Event, generated: string)
    ensures AskedId(ev, generated).None? || RepliedId(d, ev).None?
  {
    hide Take, OrphanId;
  }

  lemma IdIsLegalExactlyWhen(start: Desk, events: seq<Event>, generated: seq<string>, c: string)
    requires |events| == |generated|
    ensures LegalFor(Repaired(After(start, events, generated, |events|).messages), c) <==>
            Settles(start, events, generated, c)
  {
    var ms := After(start, events, generated, |events|).messages;
    ShapeRun(start, events, generated, c, |events|);
    RepairableMeaning(Trace(ms, c));
    RepairVerdict(ms, c);
    hide After, Trace, LegalFor, Repaired, ShapeAfter, ShapeOf, LegalTrace, Repairable;
  }

  /** For every session and every log: the rebuilt conversation is legal exactly when no id was called
      again after it had a result, got two results, or was called twice and left open. */
  lemma RebuiltIsLegalExactlyWhen(messages: seq<Message>, mode: string, events: seq<Event>, generated: seq<string>)
    requires |events| == |generated|
    ensures var start := Desk(messages, Waiting(map[], []), mode);
            Legal(Rebuilt(messages, mode, events, generated)) <==>
            forall c :: Settles(start, events, generated, c)
  {
    hide After, LegalFor, Repaired, Settles;
    var start := Desk(messages, Waiting(map[], []), mode);
    var ms := After(start, events, generated, |events|).messages;
    assert Rebuilt(messages, mode, events, generated) == Repaired(ms);
    forall c ensures LegalFor(Repaired(ms), c) <==> Settles(start, events, generated, c) {
      IdIsLegalExactlyWhen(start, events, generated, c);
    }
    hide Rebuilt;
  }

  /** An outcome that answers nothing, and then a call that is logged with the id made up for it. */
  function Collision(): seq<Event> {
    [ToolReturned("t", "", None), ToolCalled("t", "", Some(OrphanId(0)))]
  }

  /** Made-up ids are not reserved: the log's one call gets a result before it and one behind it. */
  lemma CollisionIsIllegal()
    ensures DistinctCalls(Collision()) && !Legal(Rebuilt([], "", Collision(), ["g", "h"]))
  {
    hide OrphanId;
    var start, events, generated := Desk([], Waiting(map[], []), ""), Collision(), ["g", "h"];
    var c := OrphanId(0);
    assert RepliedId(start, events[0]) == Some(c);
    assert ShapeAfter(start, events, generated, c, 0) == NoMarks;
    assert After(start, events, generated, 0) == start;
    assert ShapeAfter(start, events, generated, c, 1) == RepliesOnly;
    assert ShapeAfter(start, events, generated, c, 2) == Muddled;
    RebuiltIsLegalExactlyWhen([], "", events, generated);
    assert !Settles(start, events, generated, c);
    hide Legal, Rebuilt, Settles;
  }
}
