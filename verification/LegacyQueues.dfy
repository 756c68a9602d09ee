/** The one deque of unnamed calls, searched by tool name, behaves as one queue per tool. */
module LegacyQueues {
  import opened Results
  import opened Conversation

  function IdIf(entry: (string, string), name: string): seq<string> {
    if entry.0 == name then [entry.1] else []
  }

  /** The waiting calls of one tool, oldest first. */
  function QueueOf(legacy: seq<(string, string)>, name: string): seq<string> {
    if legacy == [] then [] else IdIf(legacy[0], name) + QueueOf(legacy[1..], name)
  }

  lemma QueueCons(entry: (string, string), rest: seq<(string, string)>, name: string)
    ensures QueueOf([entry] + rest, name) == IdIf(entry, name) + QueueOf(rest, name)
  {
    hide IdIf;
    assert ([entry] + rest)[1..] == rest;
  }

  lemma {:induction false} QueueConcat(a: seq<(string, string)>, b: seq<(string, string)>, name: string)
    ensures QueueOf(a + b, name) == QueueOf(a, name) + QueueOf(b, name)
  {
    hide IdIf;
    if a == [] {
      assert a + b == b;
    } else {
      var entry, rest := a[0], a[1..];
      assert a == [entry] + rest && a + b == [entry] + (rest + b);
      QueueCons(entry, rest, name);
      QueueCons(entry, rest + b, name);
      QueueConcat(rest, b, name);
    }
  }

  lemma QueueOfOne(entry: (string, string), name: string)
    ensures QueueOf([entry], name) == if entry.0 == name then [entry.1] else []
  {
    assert [entry][1..] == [];
  }

  lemma {:induction false} NoneOf(legacy: seq<(string, string)>, name: string)
    requires forall j :: 0 <= j < |legacy| ==> legacy[j].0 != name
    ensures QueueOf(legacy, name) == []
  {
    if legacy != [] {
      NoneOf(legacy[1..], name);
    }
  }

  /** An unnamed outcome answers the head of its tool's queue, leaves the other queues alone, and
      takes nothing when that queue is empty. */
  lemma TakePopsItsQueue(w: Waiting, name: string, other: string)
    ensures var (id, v) := Take(w, None, name);
            var queue := QueueOf(w.legacy, name);
            && (queue == [] ==> id == None && v == w)
            && (queue != [] ==> id == Some(queue[0]) && QueueOf(v.legacy, name) == queue[1..]
                                && v.byId == w.byId - {queue[0]})
            && (other != name ==> QueueOf(v.legacy, other) == QueueOf(w.legacy, other))
  {
    var i, l := FirstOf(w.legacy, name), w.legacy;
    NoneOf(l[..i], name);
    if i == |l| {
      assert l[..i] == l;
    } else {
      QueueAround(l, i, name);
      QueueAround(l, i, other);
    }
  }

  lemma QueueAround(l: seq<(string, string)>, i: nat, name: string)
    requires i < |l|
    ensures QueueOf(l, name) ==
            QueueOf(l[..i], name) + (if l[i].0 == name then [l[i].1] else []) + QueueOf(l[i + 1..], name)
    ensures QueueOf(l[..i] + l[i + 1..], name) == QueueOf(l[..i], name) + QueueOf(l[i + 1..], name)
  {
    assert l == l[..i] + ([l[i]] + l[i + 1..]);
    QueueConcat(l[..i], [l[i]] + l[i + 1..], name);
    QueueConcat([l[i]], l[i + 1..], name);
    QueueOfOne(l[i], name);
    QueueConcat(l[..i], l[i + 1..], name);
  }

  lemma EnqueueAppends(w: Waiting, id: string, name: string, other: string)
    ensures QueueOf(Enqueue(w, id, name, true).legacy, other) ==
            QueueOf(w.legacy, other) + if other == name then [id] else []
  {
    QueueConcat(w.legacy, [(name, id)], other);
    QueueOfOne((name, id), other);
  }

  // ---------- Whole runs ----------

  /** A call and an outcome carry an id, or, in the old format, a call gets a drawn one and an outcome
      has none. */
  datatype Op =
    | Called(name: string, id: string, unnamed: bool)
    | Outcome(name: string, callId: Option<string>)

  /** The ids that the outcomes of a run answer, with the one deque. */
  function DequeRun(w: Waiting, ops: seq<Op>): seq<Option<string>>
    decreases |ops|
  {
    if ops == [] then [] else
    match ops[0]
    case Called(name, id, unnamed) => DequeRun(Enqueue(w, id, name, unnamed), ops[1..])
    case Outcome(name, callId) =>
      [Take(w, callId, name).0] + DequeRun(Take(w, callId, name).1, ops[1..])
  }

  function QueueAt(queues: map<string, seq<string>>, name: string): seq<string> {
    if name in queues then queues[name] else []
  }

  /** The same, with an independent queue for each tool and a set of the calls that are open by id. */
  function QueuesRun(queues: map<string, seq<string>>, open: set<string>, ops: seq<Op>): seq<Option<string>>
    decreases |ops|
  {
    if ops == [] then [] else
    match ops[0]
    case Called(name, id, unnamed) =>
      var next := if unnamed then queues[name := QueueAt(queues, name) + [id]] else queues;
      QueuesRun(next, open + {id}, ops[1..])
    case Outcome(name, Some(id)) =>
      [if id in open then Some(id) else None] + QueuesRun(queues, open - {id}, ops[1..])
    case Outcome(name, None) =>
      var queue := QueueAt(queues, name);
      if queue == [] then [None] + QueuesRun(queues, open, ops[1..])
      else [Some(queue[0])] + QueuesRun(queues[name := queue[1..]], open - {queue[0]}, ops[1..])
  }

  /** The deque and the map of a program state, against queues and open calls. */
  ghost predicate Matches(w: Waiting, queues: map<string, seq<string>>, open: set<string>) {
    && w.byId.Keys == open
    && forall name :: QueueAt(queues, name) == QueueOf(w.legacy, name)
  }

  lemma CallMatches(w: Waiting, queues: map<string, seq<string>>, open: set<string>, op: Op)
    requires op.Called? && Matches(w, queues, open)
    ensures var next := if op.unnamed then queues[op.name := QueueAt(queues, op.name) + [op.id]] else queues;
            Matches(Enqueue(w, op.id, op.name, op.unnamed), next, open + {op.id})
  {
    hide QueueOf;
    if op.unnamed {
      var next := queues[op.name := QueueAt(queues, op.name) + [op.id]];
      forall other ensures QueueAt(next, other) == QueueOf(Enqueue(w, op.id, op.name, true).legacy, other) {
        EnqueueAppends(w, op.id, op.name, other);
      }
    }
  }

  lemma UnnamedOutcomeMatches(w: Waiting, queues: map<string, seq<string>>, open: set<string>, name: string)
    requires Matches(w, queues, open)
    ensures var queue := QueueAt(queues, name);
            var (id, v) := Take(w, None, name);
            if queue == [] then id == None && Matches(v, queues, open)
            else id == Some(queue[0]) && Matches(v, queues[name := queue[1..]], open - {queue[0]})
  {
    hide QueueOf, Take;
    var queue := QueueAt(queues, name);
    TakePopsItsQueue(w, name, name);
    if queue != [] {
      var next, v := queues[name := queue[1..]], Take(w, None, name).1;
      forall other ensures QueueAt(next, other) == QueueOf(v.legacy, other) {
        TakePopsItsQueue(w, name, other);
      }
    }
  }

  /** On every run, of calls and outcomes with and without ids, both give the same answers. */
  lemma {:induction false} DequeRefinesQueues(
    w: Waiting, queues: map<string, seq<string>>, open: set<string>, ops: seq<Op>)
    requires Matches(w, queues, open)
    ensures DequeRun(w, ops) == QueuesRun(queues, open, ops)
    decreases |ops|
  {
    if ops != [] {
      match ops[0]
      case Called(name, id, unnamed) =>
        var next := if unnamed then queues[name := QueueAt(queues, name) + [id]] else queues;
        CallMatches(w, queues, open, ops[0]);
        hide Matches, Enqueue;
        DequeRefinesQueues(Enqueue(w, id, name, unnamed), next, open + {id}, ops[1..]);
      case Outcome(name, Some(id)) =>
        hide QueueOf;
        assert Matches(Take(w, Some(id), name).1, queues, open - {id});
        DequeRefinesQueues(Take(w, Some(id), name).1, queues, open - {id}, ops[1..]);
      case Outcome(name, None) =>
        var queue := QueueAt(queues, name);
        UnnamedOutcomeMatches(w, queues, open, name);
        hide Matches, Take;
        if queue == [] {
          DequeRefinesQueues(Take(w, None, name).1, queues, open, ops[1..]);
        } else {
          DequeRefinesQueues(Take(w, None, name).1, queues[name := queue[1..]], open - {queue[0]}, ops[1..]);
        }
    }
  }
}
