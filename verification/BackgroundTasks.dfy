/** The registry of background tasks: every completion is delivered once, under any interleaving. */
module BackgroundTasks {
  import opened Results

  datatype Status = Running | Completed(outcome: Result<string, string>)

  datatype TaskState = TaskState(description: string, status: Status, startedAt: int, delivered: bool)

  datatype FinishedTask = FinishedTask(id: string, description: string, outcome: Result<string, string>)

  type Registry = map<string, TaskState>

  // ---------- One operation, on values ----------

  /** Finished and not delivered yet. */
  function Due(m: Registry): set<string> {
    set id | id in m && m[id].status.Completed? && !m[id].delivered
  }

  function RunningIds(m: Registry): set<string> {
    set id | id in m && m[id].status.Running?
  }

  function CompletedIds(m: Registry): set<string> {
    set id | id in m && m[id].status.Completed?
  }

  function MarkDelivered(m: Registry, ids: set<string>): Registry {
    map id | id in m :: if id in ids then m[id].(delivered := true) else m[id]
  }

  function Finish(m: Registry, id: string, outcome: Result<string, string>): Registry {
    if id in m then m[id := m[id].(status := Completed(outcome))] else m
  }

  /** The tasks of a drain: each of the ids once, as the registry had it. */
  ghost predicate Drained(m: Registry, ids: set<string>, finished: seq<FinishedTask>) {
    && (forall k :: 0 <= k < |finished| ==>
          && finished[k].id in ids && finished[k].id in m
          && m[finished[k].id].status == Completed(finished[k].outcome)
          && m[finished[k].id].description == finished[k].description)
    && (forall id :: id in ids ==> exists k :: 0 <= k < |finished| && finished[k].id == id)
    && (forall j, k :: 0 <= j < k < |finished| ==> finished[j].id != finished[k].id)
  }

  class Tasks {
    var inner: Registry

    constructor ()
      ensures inner == map[]
    {
      inner := map[];
    }

    /** `id` is the identifier drawn for the task. */
    method Register(id: string, description: string, now: int) returns (r: string)
      modifies this
      ensures inner == old(inner)[id := TaskState(description, Running, now, false)] && r == id
    {
      inner := inner[id := TaskState(description, Running, now, false)];
      return id;
    }

    /** Unknown ids are ignored. */
    method Complete(id: string, outcome: Result<string, string>)
      modifies this
      ensures inner == Finish(old(inner), id, outcome)
      ensures id !in old(inner) ==> inner == old(inner)
      ensures id in old(inner) ==>
                var t := old(inner)[id];
                inner == old(inner)[id := TaskState(t.description, Completed(outcome), t.startedAt, t.delivered)]
    {
      if id in inner {
        inner := inner[id := inner[id].(status := Completed(outcome))];
      }
    }

    /** Visits the tasks in the registry's own, unspecified order. */
    method TakeFinishedUndelivered() returns (finished: seq<FinishedTask>)
      modifies this
      ensures Drained(old(inner), Due(old(inner)), finished)
      ensures inner == MarkDelivered(old(inner), Due(old(inner)))
      ensures inner.Keys == old(inner).Keys
      ensures forall id :: id in inner ==>
                var t := old(inner)[id];
                inner[id] == TaskState(t.description, t.status, t.startedAt, t.delivered || t.status.Completed?)
    {
      finished := [];
      var left := inner.Keys;
      ghost var seen: set<string> := {};
      while left != {}
        invariant seen + left == old(inner).Keys && seen !! left
        invariant inner == MarkDelivered(old(inner), Due(old(inner)) * seen)
        invariant Drained(old(inner), Due(old(inner)) * seen, finished)
        decreases left
      {
        var id :| id in left;
        left := left - {id};
        ghost var was := Due(old(inner)) * seen;
        seen := seen + {id};
        if !inner[id].delivered && inner[id].status.Completed? {
          var task := FinishedTask(id, inner[id].description, inner[id].status.outcome);
          inner := inner[id := inner[id].(delivered := true)];
          DrainOneMore(old(inner), was, finished, task);
          finished := finished + [task];
          assert Due(old(inner)) * seen == was + {id};
        } else {
          assert Due(old(inner)) * seen == was;
        }
      }
      assert Due(old(inner)) * seen == Due(old(inner));
    }

    method RunningCount() returns (n: nat)
      ensures n == |RunningIds(inner)|
    {
      n := 0;
      var left := inner.Keys;
      ghost var seen: set<string> := {};
      while left != {}
        invariant seen + left == inner.Keys && seen !! left
        invariant n == |RunningIds(inner) * seen|
        decreases left
      {
        var id :| id in left;
        left := left - {id};
        CountOneMore(inner, seen, id);
        seen := seen + {id};
        if inner[id].status.Running? {
          n := n + 1;
        }
      }
      assert RunningIds(inner) * seen == RunningIds(inner);
    }
  }

  lemma CountOneMore(m: Registry, seen: set<string>, id: string)
    requires id in m && id !in seen
    ensures |RunningIds(m) * (seen + {id})| == |RunningIds(m) * seen| + if m[id].status.Running? then 1 else 0
  {
    var running := RunningIds(m);
    assert running * (seen + {id}) == running * seen + if m[id].status.Running? then {id} else {};
  }

  lemma DrainOneMore(m: Registry, ids: set<string>, finished: seq<FinishedTask>, task: FinishedTask)
    requires Drained(m, ids, finished) && task.id !in ids && task.id in m
    requires m[task.id].status == Completed(task.outcome) && m[task.id].description == task.description
    ensures Drained(m, ids + {task.id}, finished + [task])
  {
    var more := finished + [task];
    forall id | id in ids + {task.id} ensures exists k :: 0 <= k < |more| && more[k].id == id {
      if id in ids {
        var k :| 0 <= k < |finished| && finished[k].id == id;
        assert more[k] == finished[k];
      } else {
        assert more[|finished|] == task;
      }
    }
  }

  // ---------- Any interleaving ----------

  /** The registry is only ever touched under its lock, so a concurrent run is a list of these. */
  datatype Op =
    | Register(id: string, description: string, now: int)
    | Complete(id: string, outcome: Result<string, string>)
    | Drain

  function Apply(m: Registry, op: Op): Registry {
    match op
    case Register(id, description, now) => m[id := TaskState(description, Running, now, false)]
    case Complete(id, outcome) => Finish(m, id, outcome)
    case Drain => MarkDelivered(m, Due(m))
  }

  /** The registry after the first `n` operations of a run. */
  function After(ops: seq<Op>, n: nat): Registry
    requires n <= |ops|
  {
    if n == 0 then map[] else Apply(After(ops, n - 1), ops[n - 1])
  }

  /** The ids that operation `n` delivers. */
  function DeliveredBy(ops: seq<Op>, n: nat): set<string>
    requires n < |ops|
  {
    if ops[n].Drain? then Due(After(ops, n)) else {}
  }

  /** Every registration draws a new id. */
  predicate FreshIds(ops: seq<Op>) {
    forall i, j :: 0 <= i < j < |ops| && ops[i].Register? && ops[j].Register? ==> ops[i].id != ops[j].id
  }

  predicate RegisteredBy(ops: seq<Op>, n: nat, id: string)
    requires n <= |ops|
  {
    exists i :: 0 <= i < n && ops[i].Register? && ops[i].id == id
  }

  lemma {:induction false} KnownIsRegistered(ops: seq<Op>, n: nat, id: string)
    requires n <= |ops|
    ensures id in After(ops, n) <==> RegisteredBy(ops, n, id)
  {
    if n > 0 {
      KnownIsRegistered(ops, n - 1, id);
      var op := ops[n - 1];
      assert RegisteredBy(ops, n, id) <==> RegisteredBy(ops, n - 1, id) || (op.Register? && op.id == id);
    }
  }

  /** With new ids, operations only ever advance a task: it stays, a completed task stays completed,
      and a delivered one stays delivered. */
  lemma {:induction false} TasksAdvance(ops: seq<Op>, i: nat, n: nat, id: string)
    requires i <= n <= |ops| && FreshIds(ops) && id in After(ops, i)
    ensures id in After(ops, n)
    ensures After(ops, i)[id].status.Completed? ==> After(ops, n)[id].status.Completed?
    ensures After(ops, i)[id].delivered ==> After(ops, n)[id].delivered
    decreases n - i
  {
    if i < n {
      TasksAdvance(ops, i, n - 1, id);
      KnownIsRegistered(ops, n - 1, id);
      AfterOne(ops, n - 1);
      var m, op := After(ops, n - 1), ops[n - 1];
      assert op.Register? ==> op.id != id;
      hide FreshIds, RegisteredBy;
      OpAdvances(m, op, id);
    }
  }

  lemma OpAdvances(m: Registry, op: Op, id: string)
    requires id in m && !(op.Register? && op.id == id)
    ensures id in Apply(m, op)
    ensures m[id].status.Completed? ==> Apply(m, op)[id].status.Completed?
    ensures m[id].delivered ==> Apply(m, op)[id].delivered
  {
  }

  lemma AfterOne(ops: seq<Op>, n: nat)
    requires n < |ops|
    ensures After(ops, n + 1) == Apply(After(ops, n), ops[n])
  {
  }

  /** Delivered implies completed. */
  lemma {:induction false} DeliveredIsCompleted(ops: seq<Op>, n: nat, id: string)
    requires n <= |ops| && id in After(ops, n) && After(ops, n)[id].delivered
    ensures After(ops, n)[id].status.Completed?
  {
    if id in After(ops, n - 1) && After(ops, n - 1)[id].delivered {
      DeliveredIsCompleted(ops, n - 1, id);
    }
  }

  /** No two drains deliver the same task. */
  lemma DeliveredAtMostOnce(ops: seq<Op>, i: nat, j: nat, id: string)
    requires FreshIds(ops) && i < j < |ops| && id in DeliveredBy(ops, i)
    ensures id !in DeliveredBy(ops, j)
  {
    AfterOne(ops, i);
    TasksAdvance(ops, i + 1, j, id);
  }

  /** Whatever was completed when a drain starts has been delivered, once, when it ends. */
  lemma CompletedIsDelivered(ops: seq<Op>, n: nat, id: string)
    requires FreshIds(ops) && n < |ops| && ops[n].Drain?
    requires id in After(ops, n) && After(ops, n)[id].status.Completed?
    ensures After(ops, n + 1)[id].delivered
    ensures exists i :: 0 <= i <= n && id in DeliveredBy(ops, i)
  {
    AfterOne(ops, n);
    if After(ops, n)[id].delivered {
      WhoDelivered(ops, n, id);
    } else {
      assert id in DeliveredBy(ops, n);
    }
  }

  lemma {:induction false} WhoDelivered(ops: seq<Op>, n: nat, id: string)
    requires n <= |ops| && id in After(ops, n) && After(ops, n)[id].delivered
    ensures exists i :: 0 <= i < n && id in DeliveredBy(ops, i)
  {
    AfterOne(ops, n - 1);
    if id in After(ops, n - 1) && After(ops, n - 1)[id].delivered {
      WhoDelivered(ops, n - 1, id);
    } else {
      assert id in DeliveredBy(ops, n - 1);
    }
  }

  /** Only completed tasks are delivered, and running and completed tasks are all there are. */
  lemma RunningAndCompleted(ops: seq<Op>, n: nat)
    requires n <= |ops|
    ensures |RunningIds(After(ops, n))| + |CompletedIds(After(ops, n))| == |After(ops, n)|
  {
    var m := After(ops, n);
    assert RunningIds(m) !! CompletedIds(m);
    assert RunningIds(m) + CompletedIds(m) == m.Keys;
  }

  function Registrations(ops: seq<Op>, n: nat): nat
    requires n <= |ops|
  {
    if n == 0 then 0 else Registrations(ops, n - 1) + if ops[n - 1].Register? then 1 else 0
  }

  function Known(ops: seq<Op>, n: nat): nat
    requires n <= |ops|
  {
    |After(ops, n)|
  }

  lemma NoKeys(ops: seq<Op>)
    ensures Known(ops, 0) == 0
  {
  }

  lemma OneMoreKey(ops: seq<Op>, n: nat)
    requires n < |ops| && FreshIds(ops)
    ensures Known(ops, n + 1) == Known(ops, n) + if ops[n].Register? then 1 else 0
  {
    var m, op := After(ops, n), ops[n];
    AfterOne(ops, n);
    if op.Register? {
      KnownIsRegistered(ops, n, op.id);
    }
    hide After;
    assert Apply(m, op).Keys == m.Keys + if op.Register? then {op.id} else {};
    assert |Apply(m, op)| == |Apply(m, op).Keys| && |m| == |m.Keys|;
  }

  lemma {:induction false} KeysAreRegistrations(ops: seq<Op>, n: nat)
    requires n <= |ops| && FreshIds(ops)
    ensures Known(ops, n) == Registrations(ops, n)
  {
    hide FreshIds, Known;
    if n == 0 {
      NoKeys(ops);
    } else {
      KeysAreRegistrations(ops, n - 1);
      OneMoreKey(ops, n - 1);
    }
  }

  /** With new ids, running plus completed equals the number of registrations. */
  lemma RegistrationsAreKept(ops: seq<Op>, n: nat)
    requires n <= |ops| && FreshIds(ops)
    ensures |RunningIds(After(ops, n))| + |CompletedIds(After(ops, n))| == Registrations(ops, n)
  {
    KeysAreRegistrations(ops, n);
    RunningAndCompleted(ops, n);
  }

  // ---------- What is recorded and delivered ----------

  predicate RegistersAt(ops: seq<Op>, r: nat, n: nat, id: string) {
    r < n <= |ops| && ops[r].Register? && ops[r].id == id
  }

  /** Of the first `n` operations, number `i` is the last to complete task `id`, which was registered before. */
  ghost predicate LastCompletion(ops: seq<Op>, n: nat, id: string, i: nat) {
    && i < n <= |ops| && ops[i].Complete? && ops[i].id == id
    && (forall j :: i < j < n ==> !(ops[j].Complete? && ops[j].id == id))
    && exists r: nat :: RegistersAt(ops, r, i, id)
  }

  /** A task keeps the description and the time of its registration. */
  lemma {:induction false} AsRegistered(ops: seq<Op>, n: nat, id: string, r: nat)
    requires FreshIds(ops) && RegistersAt(ops, r, n, id)
    ensures id in After(ops, n)
    ensures After(ops, n)[id].description == ops[r].description && After(ops, n)[id].startedAt == ops[r].now
  {
    AfterOne(ops, n - 1);
    if r < n - 1 {
      AsRegistered(ops, n - 1, id, r);
      assert ops[n - 1].Register? ==> ops[n - 1].id != ops[r].id;
    }
    hide FreshIds, After;
  }

  /** A registration is not a completion, so a task starts Running, and stays so until it is completed. */
  lemma {:induction false} StaysRunning(ops: seq<Op>, n: nat, id: string, r: nat)
    requires FreshIds(ops) && RegistersAt(ops, r, n, id)
    requires forall j :: r < j < n ==> !(ops[j].Complete? && ops[j].id == id)
    ensures id in After(ops, n) && After(ops, n)[id].status == Running
  {
    AfterOne(ops, n - 1);
    if r < n - 1 {
      StaysRunning(ops, n - 1, id, r);
      assert ops[n - 1].Register? ==> ops[n - 1].id != ops[r].id;
    }
    hide FreshIds, After;
  }

  lemma {:induction false} LastCompletionCounts(ops: seq<Op>, n: nat, id: string, i: nat)
    requires FreshIds(ops) && LastCompletion(ops, n, id, i)
    ensures id in After(ops, n) && After(ops, n)[id].status == Completed(ops[i].outcome)
  {
    AfterOne(ops, n - 1);
    var r: nat :| RegistersAt(ops, r, i, id);
    if i < n - 1 {
      LastCompletionCounts(ops, n - 1, id, i);
      assert ops[n - 1].Register? ==> ops[n - 1].id != ops[r].id;
    } else {
      AsRegistered(ops, i, id, r);
    }
    hide FreshIds, After;
  }

  lemma {:induction false} FindCompletion(ops: seq<Op>, n: nat, id: string, r: nat) returns (i: nat)
    requires RegistersAt(ops, r, n, id)
    ensures LastCompletion(ops, n, id, i) || forall j :: r < j < n ==> !(ops[j].Complete? && ops[j].id == id)
  {
    if r == n - 1 {
      i := 0;
    } else if ops[n - 1].Complete? && ops[n - 1].id == id {
      i := n - 1;
      assert RegistersAt(ops, r, i, id);
    } else {
      i := FindCompletion(ops, n - 1, id, r);
    }
  }

  /** A task is Completed with an outcome exactly when the last completion after its registration carries
      it, and Running exactly when there was none. */
  lemma StatusIsLastCompletion(ops: seq<Op>, n: nat, id: string, o: Result<string, string>)
    requires n <= |ops| && FreshIds(ops) && id in After(ops, n)
    ensures After(ops, n)[id].status == Completed(o) <==>
            exists i: nat :: LastCompletion(ops, n, id, i) && ops[i].outcome == o
    ensures After(ops, n)[id].status == Running <==> forall i: nat :: !LastCompletion(ops, n, id, i)
  {
    KnownIsRegistered(ops, n, id);
    var r: nat :| r < n && ops[r].Register? && ops[r].id == id;
    assert RegistersAt(ops, r, n, id);
    var found := FindCompletion(ops, n, id, r);
    if !LastCompletion(ops, n, id, found) {
      StaysRunning(ops, n, id, r);
    }
    hide After, FreshIds, LastCompletion;
    forall i: nat | LastCompletion(ops, n, id, i) ensures After(ops, n)[id].status == Completed(ops[i].outcome) {
      LastCompletionCounts(ops, n, id, i);
    }
  }

  /** Every task that a drain delivers carries the outcome of its last completion and the description of
      its registration. */
  lemma DeliveredAsCompleted(ops: seq<Op>, n: nat, finished: seq<FinishedTask>, k: nat)
    requires n < |ops| && FreshIds(ops) && Drained(After(ops, n), DeliveredBy(ops, n), finished) && k < |finished|
    ensures exists i: nat, r: nat ::
              && LastCompletion(ops, n, finished[k].id, i) && ops[i].outcome == finished[k].outcome
              && RegistersAt(ops, r, i, finished[k].id) && ops[r].description == finished[k].description
  {
    var id := finished[k].id;
    hide After, FreshIds, DeliveredBy;
    StatusIsLastCompletion(ops, n, id, finished[k].outcome);
    var i: nat :| LastCompletion(ops, n, id, i) && ops[i].outcome == finished[k].outcome;
    var r: nat :| RegistersAt(ops, r, i, id);
    AsRegistered(ops, n, id, r);
  }
}
