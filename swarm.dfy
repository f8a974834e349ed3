/**
  The multi-swarm orchestration engine: workers grouped into named swarms, a registry
  from worker names to swarm names, dispatch of tasks to workers, an in-memory message
  bus and a shared context.

  A worker's `execute` is an oracle from a task to an outcome. `asyncio.gather` is
  modelled as running the dispatches one after another in list order, which is the
  order in which it returns their results. Message ids, timestamps and the execution
  record's timestamp are left out.
*/
module MultiSwarm {
  import opened Wrappers
  import opened Dicts

  /** A task or result dictionary; every value is modelled as a string. */
  type Fields = Dict<string, string>

  /** What one call of a worker's `execute` does: return a result dictionary or raise. */
  datatype Outcome = Returned(result: Fields) | Raised(message: string)

  /** The worker's `status` attribute: "idle", "busy" or "error". */
  datatype Status = Idle | Busy | Error

  /** `{"status": "error", "summary": summary}`. */
  function ErrorResult(summary: string): Fields {
    [("status", "error"), ("summary", summary)]
  }

  /** `{"status": "success", "summary": summary}`. */
  function SuccessResult(summary: string): Fields {
    [("status", "success"), ("summary", summary)]
  }

  /** What `Swarm.dispatch` hands back for an outcome: the result, or the exception as an error result. */
  function Settle(o: Outcome): Fields {
    match o
    case Returned(r) => r
    case Raised(m) => ErrorResult(m)
  }

  /** The status a worker is left in once `execute` has finished. */
  function StatusAfter(o: Outcome): Status {
    if o.Returned? then Idle else Error
  }

  /** `task.get("intent", "unknown")`, the task type written to the execution log. */
  function TaskType(task: Fields): string {
    Get(task, "intent").GetOr("unknown")
  }

  /** `task.get("worker_name")` when it is truthy. */
  function WorkerNameOf(task: Fields): Option<string> {
    match Get(task, "worker_name")
    case Some(n) => if n != "" then Some(n) else None
    case None => None
  }

  class Worker {
    const name: string
    const capabilities: seq<string>
    /** The worker's `execute`. */
    const execute: Fields -> Outcome
    var status: Status
    var runId: Option<string>
    /** Every status the worker has been put in, oldest first. */
    ghost var statusLog: seq<Status>

    constructor (name: string, capabilities: seq<string>, execute: Fields -> Outcome)
      ensures this.name == name && this.capabilities == capabilities && this.execute == execute
      ensures status == Idle && runId == None && statusLog == [Idle]
    {
      this.name := name;
      this.capabilities := capabilities;
      this.execute := execute;
      status := Idle;
      runId := None;
      statusLog := [Idle];
    }

    /**
      `can_handle`: the task type is one of the worker's capabilities, so a worker
      without capabilities handles nothing.
    */
    predicate CanHandle(taskType: string): (ok: bool)
      ensures capabilities == [] ==> !ok
    {
      taskType in capabilities
    }
  }

  /** A worker handles a task type exactly when some position of its capabilities holds that type. */
  lemma CanHandleIndex(w: Worker, taskType: string)
    ensures w.CanHandle(taskType) <==> exists i :: 0 <= i < |w.capabilities| && w.capabilities[i] == taskType
  {
    if w.CanHandle(taskType) {
      var i :| 0 <= i < |w.capabilities| && w.capabilities[i] == taskType;
    }
  }

  /** What a dispatch does to the worker it runs: a fresh run id, busy, then idle or error. */
  twostate predicate Ran(w: Worker, new task: Fields, new runId: string)
    reads w
  {
    && w.runId == Some(runId)
    && w.status == StatusAfter(w.execute(task))
    && w.statusLog == old(w.statusLog) + [Busy, StatusAfter(w.execute(task))]
  }

  /** The status log entries of running `execute` on `ts` one after another: busy, then idle or error, per task. */
  function History(execute: Fields -> Outcome, ts: seq<Fields>): (h: seq<Status>)
    ensures |h| == 2 * |ts|
    ensures forall i :: 0 <= i < |ts| ==> h[2 * i] == Busy && h[2 * i + 1] == StatusAfter(execute(ts[i]))
    decreases |ts|
  {
    if ts == [] then []
    else
      var front := ts[..|ts| - 1];
      var h := History(execute, front) + [Busy, StatusAfter(execute(ts[|ts| - 1]))];
      assert forall i :: 0 <= i < |front| ==> front[i] == ts[i];
      h
  }

  /** The tasks, in task order, that go to `w` when the i-th task goes to `targets[i]`. */
  function TasksOn(w: Worker, targets: seq<Option<Worker>>, tasks: seq<Fields>): (r: seq<Fields>)
    requires |targets| == |tasks|
    ensures |r| <= |tasks|
    ensures r == [] <==> forall i :: 0 <= i < |targets| ==> targets[i] != Some(w)
    decreases |tasks|
  {
    if tasks == [] then []
    else
      var n := |tasks| - 1;
      assert forall i :: 0 <= i < n ==> targets[..n][i] == targets[i];
      TasksOn(w, targets[..n], tasks[..n]) + (if targets[n] == Some(w) then [tasks[n]] else [])
  }

  /** The index of the last task that goes to `w`. */
  function LastOn(w: Worker, targets: seq<Option<Worker>>): (r: Option<nat>)
    ensures r.Some? ==> r.value < |targets| && targets[r.value] == Some(w)
    ensures r.Some? ==> forall i :: r.value < i < |targets| ==> targets[i] != Some(w)
    ensures r.None? <==> forall i :: 0 <= i < |targets| ==> targets[i] != Some(w)
    decreases |targets|
  {
    if targets == [] then None
    else
      var n := |targets| - 1;
      assert forall i :: 0 <= i < n ==> targets[..n][i] == targets[i];
      if targets[n] == Some(w) then Some(n) else LastOn(w, targets[..n])
  }

  /**
    A worker that started with status log `log0`, status `status0` and run id `runId0`
    has log `log`, status `status` and run id `runId` once `tasks` have been dispatched one
    after another, the k-th under run id `runIds(k)` and to worker `targets[k]`: two status
    log entries per task it ran, and the status and run id of the last one; a worker that
    ran no task is as it was.
  */
  predicate Reached(w: Worker, log: seq<Status>, status: Status, runId: Option<string>,
                    log0: seq<Status>, status0: Status, runId0: Option<string>,
                    targets: seq<Option<Worker>>, tasks: seq<Fields>, runIds: nat -> string)
    requires |targets| == |tasks|
  {
    && log == log0 + History(w.execute, TasksOn(w, targets, tasks))
    && match LastOn(w, targets)
       case None => status == status0 && runId == runId0
       case Some(k) => status == StatusAfter(w.execute(tasks[k])) && runId == Some(runIds(k))
  }

  /** `Reached` for the worker's current status log, status and run id. */
  ghost predicate ReachedNow(w: Worker, log0: seq<Status>, status0: Status, runId0: Option<string>,
                       targets: seq<Option<Worker>>, tasks: seq<Fields>, runIds: nat -> string)
    requires |targets| == |tasks|
    reads w
  {
    Reached(w, w.statusLog, w.status, w.runId, log0, status0, runId0, targets, tasks, runIds)
  }

  /** What dispatching `tasks` to `targets` has done to `w` since the previous state. */
  twostate predicate RanAll(w: Worker, targets: seq<Option<Worker>>, tasks: seq<Fields>, runIds: nat -> string)
    requires |targets| == |tasks|
    reads w
  {
    ReachedNow(w, old(w.statusLog), old(w.status), old(w.runId), targets, tasks, runIds)
  }

  /**
    What dispatching `task` under `runId` to `target` did to `w`, which had the status log
    `log`, the status `status` and the run id `rid` before: it ran the task if it is the
    target, and is as it was otherwise.
  */
  ghost predicate SteppedFrom(w: Worker, log: seq<Status>, status: Status, rid: Option<string>,
                              target: Option<Worker>, task: Fields, runId: string)
    reads w
  {
    if target == Some(w) then
      && w.runId == Some(runId)
      && w.status == StatusAfter(w.execute(task))
      && w.statusLog == log + [Busy, StatusAfter(w.execute(task))]
    else w.statusLog == log && w.status == status && w.runId == rid
  }

  /** `SteppedFrom` the state `w` was in before. */
  twostate predicate Stepped(w: Worker, new target: Option<Worker>, new task: Fields, new runId: string)
    reads w
  {
    SteppedFrom(w, old(w.statusLog), old(w.status), old(w.runId), target, task, runId)
  }

  /** One more task adds itself to the tasks of its worker and becomes that worker's last. */
  lemma OnStep(w: Worker, targets: seq<Option<Worker>>, tasks: seq<Fields>, k: nat)
    requires |targets| == |tasks| && k < |tasks|
    ensures TasksOn(w, targets[..k + 1], tasks[..k + 1])
         == TasksOn(w, targets[..k], tasks[..k]) + (if targets[k] == Some(w) then [tasks[k]] else [])
    ensures LastOn(w, targets[..k + 1]) == if targets[k] == Some(w) then Some(k) else LastOn(w, targets[..k])
  {
    assert targets[..k + 1][..k] == targets[..k] && tasks[..k + 1][..k] == tasks[..k];
  }

  /** Running one more task adds its busy and final status to the history. */
  lemma HistorySnoc(execute: Fields -> Outcome, ts: seq<Fields>, t: Fields)
    ensures History(execute, ts + [t]) == History(execute, ts) + [Busy, StatusAfter(execute(t))]
  {
    assert (ts + [t])[..|ts|] == ts;
  }

  /**
    Dispatching the k-th task keeps `Reached` for every worker: the task's worker ran it,
    and any other worker was left alone.
  */
  lemma ReachedStep(w: Worker, mid: seq<Status>, midStatus: Status, midRunId: Option<string>,
                    log: seq<Status>, status: Status, runId: Option<string>,
                    log0: seq<Status>, status0: Status, runId0: Option<string>,
                    targets: seq<Option<Worker>>, tasks: seq<Fields>, runIds: nat -> string, k: nat)
    requires |targets| == |tasks| && k < |tasks|
    requires Reached(w, mid, midStatus, midRunId, log0, status0, runId0, targets[..k], tasks[..k], runIds)
    requires targets[k] == Some(w) ==>
      log == mid + [Busy, StatusAfter(w.execute(tasks[k]))] && status == StatusAfter(w.execute(tasks[k])) && runId == Some(runIds(k))
    requires targets[k] != Some(w) ==> log == mid && status == midStatus && runId == midRunId
    ensures Reached(w, log, status, runId, log0, status0, runId0, targets[..k + 1], tasks[..k + 1], runIds)
  {
    OnStep(w, targets, tasks, k);
    var before := TasksOn(w, targets[..k], tasks[..k]);
    if targets[k] == Some(w) {
      var done := StatusAfter(w.execute(tasks[k]));
      HistorySnoc(w.execute, before, tasks[k]);
      assert TasksOn(w, targets[..k + 1], tasks[..k + 1]) == before + [tasks[k]];
      AppendAssoc(log0, History(w.execute, before), [Busy, done]);
      assert LastOn(w, targets[..k + 1]) == Some(k) && tasks[..k + 1][k] == tasks[k];
    } else {
      assert before + [] == before;
      match LastOn(w, targets[..k])
      case None =>
      case Some(j) => assert tasks[..k + 1][j] == tasks[..k][j];
    }
  }

  /** A swarm's worker table, keyed by worker name in insertion order. */
  type Table = Dict<string, Worker>

  /** Every swarm's worker table, keyed by swarm name in insertion order. */
  type Roster = Dict<string, Table>

  /** The first worker of `ws` that can handle `taskType`. */
  function FirstCapable(ws: seq<Worker>, taskType: string): (r: Option<Worker>)
    ensures r.Some? ==> r.value in ws && r.value.CanHandle(taskType)
    ensures r.None? <==> forall w :: w in ws ==> !w.CanHandle(taskType)
  {
    if ws == [] then None
    else if ws[0].CanHandle(taskType) then Some(ws[0])
    else FirstCapable(ws[1..], taskType)
  }

  /** The worker found is the capable one no other capable worker precedes. */
  lemma {:induction false} FirstCapableIsFirst(ws: seq<Worker>, taskType: string, i: nat)
    requires i < |ws| && ws[i].CanHandle(taskType)
    requires forall j :: 0 <= j < i ==> !ws[j].CanHandle(taskType)
    ensures FirstCapable(ws, taskType) == Some(ws[i])
  {
    if i > 0 {
      assert ws[1..][i - 1] == ws[i];
      FirstCapableIsFirst(ws[1..], taskType, i - 1);
    }
  }

  /** Searching a concatenation searches the first part, then the second. */
  lemma {:induction false} FirstCapableAppend(a: seq<Worker>, b: seq<Worker>, taskType: string)
    ensures FirstCapable(a + b, taskType) == if FirstCapable(a, taskType).Some? then FirstCapable(a, taskType) else FirstCapable(b, taskType)
  {
    if a != [] {
      assert (a + b)[1..] == a[1..] + b;
      FirstCapableAppend(a[1..], b, taskType);
    } else {
      assert a + b == b;
    }
  }

  /** The result `Swarm.dispatch` gives for `workerName` in a swarm called `swarmName` with workers `table`. */
  function InSwarm(swarmName: string, table: Table, workerName: string, task: Fields): Fields {
    match Get(table, workerName)
    case None => ErrorResult("Worker '" + workerName + "' not found in swarm '" + swarmName + "'")
    case Some(w) => Settle(w.execute(task))
  }

  /** What `Swarm.dispatch` contributes for one task of `Swarm.dispatch_parallel`. */
  function SwarmStep(swarmName: string, table: Table, task: Fields): seq<Fields> {
    match WorkerNameOf(task)
    case Some(n) => if n in Keys(table) then [InSwarm(swarmName, table, n, task)] else []
    case None => []
  }

  /** The worker `Swarm.dispatch_parallel` runs a task on: the member its `worker_name` names, if any. */
  function SwarmTarget(table: Table, task: Fields): Option<Worker> {
    match WorkerNameOf(task)
    case Some(n) => Get(table, n)
    case None => None
  }

  /** The worker each task of `Swarm.dispatch_parallel` runs on, in task order. */
  function SwarmTargets(table: Table, tasks: seq<Fields>): (ts: seq<Option<Worker>>)
    ensures |ts| == |tasks| && forall i :: 0 <= i < |tasks| ==> ts[i] == SwarmTarget(table, tasks[i])
  {
    seq(|tasks|, i requires 0 <= i < |tasks| => SwarmTarget(table, tasks[i]))
  }

  /** The results of `Swarm.dispatch_parallel`, in task order. */
  function SwarmParallel(swarmName: string, table: Table, tasks: seq<Fields>): seq<Fields>
    decreases |tasks|
  {
    if tasks == [] then []
    else SwarmParallel(swarmName, table, tasks[..|tasks| - 1]) + SwarmStep(swarmName, table, tasks[|tasks| - 1])
  }

  /** Tasks are handled independently and their results keep the task order. */
  lemma {:induction false} SwarmParallelAppend(swarmName: string, table: Table, a: seq<Fields>, b: seq<Fields>)
    ensures SwarmParallel(swarmName, table, a + b) == SwarmParallel(swarmName, table, a) + SwarmParallel(swarmName, table, b)
    decreases |b|
  {
    if b == [] {
      assert a + b == a;
    } else {
      var b' := b[..|b| - 1];
      assert (a + b)[..|a + b| - 1] == a + b' && (a + b)[|a + b| - 1] == b[|b| - 1];
      SwarmParallelAppend(swarmName, table, a, b');
      AppendAssoc(SwarmParallel(swarmName, table, a), SwarmParallel(swarmName, table, b'), SwarmStep(swarmName, table, b[|b| - 1]));
    }
  }

  /** A single task yields the worker's settled outcome when its `worker_name` names a member, and nothing otherwise. */
  lemma SwarmParallelSingle(swarmName: string, table: Table, task: Fields)
    ensures SwarmParallel(swarmName, table, [task]) ==
      match WorkerNameOf(task)
      case Some(n) => (match Get(table, n) case Some(w) => [Settle(w.execute(task))] case None => [])
      case None => []
  {
    assert |[task][..0]| == 0;
  }

  class Swarm {
    const name: string
    const description: string
    var workers: Table

    /** Worker names are unique and each worker is filed under its own name. */
    ghost predicate Valid()
      reads this
    {
      UniqueKeys(workers) && forall i :: 0 <= i < |workers| ==> workers[i].1.name == workers[i].0
    }

    constructor (name: string, description: string)
      ensures Valid() && this.name == name && this.description == description && workers == []
    {
      this.name := name;
      this.description := description;
      workers := [];
    }

    /** `add_worker`: files the worker under its name, replacing a worker of the same name. */
    method AddWorker(w: Worker)
      requires Valid()
      modifies this
      ensures Valid() && workers == Put(old(workers), w.name, w)
    {
      PutKeepsUnique(workers, w.name, w);
      PutEntries(workers, w.name, w);
      workers := Put(workers, w.name, w);
    }

    /** `get_worker`: the worker filed under `n`, which carries that name. */
    function GetWorker(n: string): (r: Option<Worker>)
      reads this
      requires Valid()
      ensures r.Some? <==> n in Keys(workers)
      ensures r.Some? ==> r.value.name == n && r.value in Values(workers)
    {
      var r := Get(workers, n);
      assert r.Some? ==> (n, r.value) in workers;
      r
    }

    /** `list_workers`. */
    function ListWorkers(): (r: seq<string>)
      reads this
      ensures |r| == |workers| && forall i :: 0 <= i < |workers| ==> r[i] == workers[i].0
    {
      Keys(workers)
    }

    /** `find_capable_worker`: the first worker, in insertion order, that can handle `taskType`. */
    method FindCapableWorker(taskType: string) returns (r: Option<Worker>)
      ensures r == FirstCapable(Values(workers), taskType)
    {
      ghost var ws := Values(workers);
      var i := 0;
      while i < |workers|
        invariant 0 <= i <= |workers|
        invariant FirstCapable(ws, taskType) == FirstCapable(ws[i..], taskType)
      {
        assert ws[i..][0] == workers[i].1 && ws[i..][1..] == ws[i + 1..];
        if workers[i].1.CanHandle(taskType) {
          return Some(workers[i].1);
        }
        i := i + 1;
      }
      return None;
    }

    /** The worker `Dispatch(n, …)` runs, if any. */
    function Target(n: string): set<Worker>
      reads this
    {
      match Get(workers, n)
      case Some(w) => {w}
      case None => {}
    }

    /** Every worker of the swarm. */
    function WorkerSet(): set<Worker>
      reads this
    {
      set i | 0 <= i < |workers| :: workers[i].1
    }

    /** `dispatch`: runs the named worker on the task; an exception becomes an error result. */
    method Dispatch(workerName: string, task: Fields, runId: string, ghost others: set<Worker>) returns (r: Fields)
      modifies Target(workerName)
      ensures r == InSwarm(name, workers, workerName, task)
      ensures match Get(workers, workerName)
        case Some(w) => Ran(w, task, runId)
        case None => true
      ensures forall w :: w in others ==> Stepped(w, Get(workers, workerName), task, runId)
    {
      var found := Get(workers, workerName);
      if found.None? {
        return ErrorResult("Worker '" + workerName + "' not found in swarm '" + name + "'");
      }
      var w := found.value;
      w.runId := Some(runId);
      w.status := Busy;
      w.statusLog := w.statusLog + [Busy];
      match w.execute(task)
      case Returned(result) =>
        w.status := Idle;
        w.statusLog := w.statusLog + [Idle];
        r := result;
      case Raised(m) =>
        w.status := Error;
        w.statusLog := w.statusLog + [Error];
        r := ErrorResult(m);
    }

    /** The worker `DispatchStep(task, …)` runs, if any. */
    function StepTarget(task: Fields): set<Worker>
      reads this
      ensures StepTarget(task) <= WorkerSet()
    {
      match SwarmTarget(workers, task)
      case Some(w) =>
        assert Get(workers, WorkerNameOf(task).value) == Some(w);
        assert (WorkerNameOf(task).value, w) in workers;
        {w}
      case None => {}
    }

    /** One task of `dispatch_parallel`: dispatched when its `worker_name` is a member, skipped otherwise. */
    method DispatchStep(task: Fields, runId: string) returns (rs: seq<Fields>)
      modifies StepTarget(task)
      ensures rs == SwarmStep(name, workers, task)
      ensures forall w :: w in WorkerSet() ==> Stepped(w, SwarmTarget(workers, task), task, runId)
    {
      rs := [];
      var n := WorkerNameOf(task);
      if n.Some? && n.value in Keys(workers) {
        var r := Dispatch(n.value, task, runId, WorkerSet());
        rs := [r];
      }
    }

    /** `dispatch_parallel`: dispatches every task whose `worker_name` is a member; the k-th task gets run id `runIds(k)`. */
    method DispatchParallel(tasks: seq<Fields>, runIds: nat -> string) returns (results: seq<Fields>)
      modifies WorkerSet()
      ensures results == SwarmParallel(name, workers, tasks)
      ensures forall w :: w in WorkerSet() ==> RanAll(w, SwarmTargets(workers, tasks), tasks, runIds)
    {
      ghost var targets := SwarmTargets(workers, tasks);
      ghost var ws := WorkerSet();
      results := [];
      var k := 0;
      while k < |tasks|
        invariant 0 <= k <= |tasks|
        invariant results == SwarmParallel(name, workers, tasks[..k])
        invariant forall w :: w in ws ==> ReachedNow(w, old(w.statusLog), old(w.status), old(w.runId), targets[..k], tasks[..k], runIds)
      {
        assert tasks[..k + 1][..k] == tasks[..k];
        label Before:
        var rs := DispatchStep(tasks[k], runIds(k));
        results := results + rs;
        assert targets[k] == SwarmTarget(workers, tasks[k]);
        forall v | v in ws
          ensures ReachedNow(v, old(v.statusLog), old(v.status), old(v.runId), targets[..k + 1], tasks[..k + 1], runIds)
        {
          assert Stepped@Before(v, targets[k], tasks[k], runIds(k));
          ReachedStep(v, old@Before(v.statusLog), old@Before(v.status), old@Before(v.runId), v.statusLog, v.status, v.runId,
                      old(v.statusLog), old(v.status), old(v.runId), targets, tasks, runIds, k);
        }
        k := k + 1;
      }
      assert tasks[..k] == tasks;
      assert targets[..k] == targets;
      forall w | w in WorkerSet() ensures RanAll(w, SwarmTargets(workers, tasks), tasks, runIds) {
        assert ReachedNow(w, old(w.statusLog), old(w.status), old(w.runId), targets[..k], tasks[..k], runIds);
      }
    }
  }

  /** Where `SwarmManager.dispatch` sends a worker name. */
  datatype Route = Unregistered | SwarmMissing(swarm: string) | Routed(swarm: string, table: Table)

  function RouteOf(registry: Dict<string, string>, roster: Roster, workerName: string): Route {
    match Get(registry, workerName)
    case None => Unregistered
    case Some(sn) =>
      if sn == "" then Unregistered
      else match Get(roster, sn)
        case None => SwarmMissing(sn)
        case Some(t) => Routed(sn, t)
  }

  /** `SwarmManager.get_worker` on a snapshot: the worker filed under the name in its registered swarm. */
  function LookupWorker(registry: Dict<string, string>, roster: Roster, name: string): Option<Worker> {
    match RouteOf(registry, roster, name)
    case Routed(_, t) => Get(t, name)
    case _ => None
  }

  /** One line of the execution log. */
  datatype ExecutionRecord = ExecutionRecord(worker: string, swarm: string, taskType: string)

  /** The result of `SwarmManager.dispatch` on a snapshot. */
  function DispatchResult(registry: Dict<string, string>, roster: Roster, workerName: string, task: Fields): Fields {
    match RouteOf(registry, roster, workerName)
    case Unregistered => ErrorResult("Worker '" + workerName + "' not registered")
    case SwarmMissing(sn) => ErrorResult("Swarm '" + sn + "' not found")
    case Routed(sn, t) => InSwarm(sn, t, workerName, task)
  }

  /** What `SwarmManager.dispatch` appends to the execution log. */
  function DispatchLog(registry: Dict<string, string>, roster: Roster, workerName: string, task: Fields): seq<ExecutionRecord> {
    match RouteOf(registry, roster, workerName)
    case Routed(sn, _) => [ExecutionRecord(workerName, sn, TaskType(task))]
    case _ => []
  }

  /**
    Dispatching through the manager runs exactly the worker `get_worker` finds and logs
    the call once; when `get_worker` finds nothing the result is an error.
  */
  lemma DispatchAgreesWithLookup(registry: Dict<string, string>, roster: Roster, workerName: string, task: Fields)
    ensures match LookupWorker(registry, roster, workerName)
      case Some(w) => DispatchResult(registry, roster, workerName, task) == Settle(w.execute(task))
                      && DispatchLog(registry, roster, workerName, task) == [ExecutionRecord(workerName, RouteOf(registry, roster, workerName).swarm, TaskType(task))]
      case None => Get(DispatchResult(registry, roster, workerName, task), "status") == Some("error")
                   && |DispatchLog(registry, roster, workerName, task)| <= 1
  {
  }

  /** What `SwarmManager.dispatch` contributes for one task of `dispatch_parallel`: a result when the task names a worker. */
  function ParallelStep(registry: Dict<string, string>, roster: Roster, task: Fields): seq<Fields> {
    match WorkerNameOf(task)
    case Some(n) => [DispatchResult(registry, roster, n, task)]
    case None => []
  }

  /** What `SwarmManager.dispatch` logs for one task of `dispatch_parallel`. */
  function ParallelStepLog(registry: Dict<string, string>, roster: Roster, task: Fields): seq<ExecutionRecord> {
    match WorkerNameOf(task)
    case Some(n) => DispatchLog(registry, roster, n, task)
    case None => []
  }

  /** The worker `SwarmManager.dispatch_parallel` runs a task on: the one `get_worker` finds for its `worker_name`, if any. */
  function ParallelTarget(registry: Dict<string, string>, roster: Roster, task: Fields): Option<Worker> {
    match WorkerNameOf(task)
    case Some(n) => LookupWorker(registry, roster, n)
    case None => None
  }

  /** The worker each task of `SwarmManager.dispatch_parallel` runs on, in task order. */
  function ParallelTargets(registry: Dict<string, string>, roster: Roster, tasks: seq<Fields>): (ts: seq<Option<Worker>>)
    ensures |ts| == |tasks| && forall i :: 0 <= i < |tasks| ==> ts[i] == ParallelTarget(registry, roster, tasks[i])
  {
    seq(|tasks|, i requires 0 <= i < |tasks| => ParallelTarget(registry, roster, tasks[i]))
  }

  /** The results of `SwarmManager.dispatch_parallel`: one per task with a truthy `worker_name`, in task order. */
  function ParallelResults(registry: Dict<string, string>, roster: Roster, tasks: seq<Fields>): seq<Fields>
    decreases |tasks|
  {
    if tasks == [] then []
    else ParallelResults(registry, roster, tasks[..|tasks| - 1]) + ParallelStep(registry, roster, tasks[|tasks| - 1])
  }

  /** What `SwarmManager.dispatch_parallel` appends to the execution log. */
  function ParallelLog(registry: Dict<string, string>, roster: Roster, tasks: seq<Fields>): seq<ExecutionRecord>
    decreases |tasks|
  {
    if tasks == [] then []
    else ParallelLog(registry, roster, tasks[..|tasks| - 1]) + ParallelStepLog(registry, roster, tasks[|tasks| - 1])
  }

  /** Parallel dispatch of a concatenation yields the results of each part, in order. */
  lemma {:induction false} ParallelResultsAppend(registry: Dict<string, string>, roster: Roster, a: seq<Fields>, b: seq<Fields>)
    ensures ParallelResults(registry, roster, a + b) == ParallelResults(registry, roster, a) + ParallelResults(registry, roster, b)
    decreases |b|
  {
    if b == [] {
      assert a + b == a;
    } else {
      var b' := b[..|b| - 1];
      assert (a + b)[..|a + b| - 1] == a + b' && (a + b)[|a + b| - 1] == b[|b| - 1];
      ParallelResultsAppend(registry, roster, a, b');
      AppendAssoc(ParallelResults(registry, roster, a), ParallelResults(registry, roster, b'), ParallelStep(registry, roster, b[|b| - 1]));
    }
  }

  /** Parallel dispatch of a concatenation logs what each part logs, in order. */
  lemma {:induction false} ParallelLogAppend(registry: Dict<string, string>, roster: Roster, a: seq<Fields>, b: seq<Fields>)
    ensures ParallelLog(registry, roster, a + b) == ParallelLog(registry, roster, a) + ParallelLog(registry, roster, b)
    decreases |b|
  {
    if b == [] {
      assert a + b == a;
    } else {
      var b' := b[..|b| - 1];
      assert (a + b)[..|a + b| - 1] == a + b' && (a + b)[|a + b| - 1] == b[|b| - 1];
      ParallelLogAppend(registry, roster, a, b');
      AppendAssoc(ParallelLog(registry, roster, a), ParallelLog(registry, roster, b'), ParallelStepLog(registry, roster, b[|b| - 1]));
    }
  }

  /** Dispatching one more task of the list adds that task's step to the results and the log. */
  lemma ParallelPrefix(registry: Dict<string, string>, roster: Roster, tasks: seq<Fields>, k: nat)
    requires k < |tasks|
    ensures ParallelResults(registry, roster, tasks[..k + 1])
         == ParallelResults(registry, roster, tasks[..k]) + ParallelStep(registry, roster, tasks[k])
    ensures ParallelLog(registry, roster, tasks[..k + 1])
         == ParallelLog(registry, roster, tasks[..k]) + ParallelStepLog(registry, roster, tasks[k])
  {
    assert tasks[..k + 1][..k] == tasks[..k] && tasks[..k + 1][k] == tasks[k];
  }

  /** `{**task, "worker_name": name}` for every name, in order. */
  function FanOutTasks(task: Fields, names: seq<string>): (ts: seq<Fields>)
    ensures |ts| == |names|
    ensures forall i :: 0 <= i < |names| ==> ts[i] == Put(task, "worker_name", names[i])
  {
    seq(|names|, i requires 0 <= i < |names| => Put(task, "worker_name", names[i]))
  }

  /** Each fanned-out copy names its worker and keeps every other field of the task. */
  lemma FanOutKeepsFields(task: Fields, names: seq<string>, i: nat, key: string)
    requires i < |names|
    ensures Get(FanOutTasks(task, names)[i], "worker_name") == Some(names[i])
    ensures key != "worker_name" ==> Get(FanOutTasks(task, names)[i], key) == Get(task, key)
  {
    GetPut(task, "worker_name", names[i], key);
    GetPut(task, "worker_name", names[i], "worker_name");
  }

  /** When every task names a worker, parallel dispatch gives one result per task, in task order. */
  lemma {:induction false} ParallelAllNamed(registry: Dict<string, string>, roster: Roster, tasks: seq<Fields>)
    requires forall i :: 0 <= i < |tasks| ==> WorkerNameOf(tasks[i]).Some?
    ensures |ParallelResults(registry, roster, tasks)| == |tasks|
    ensures forall i :: 0 <= i < |tasks| ==>
      ParallelResults(registry, roster, tasks)[i] == DispatchResult(registry, roster, WorkerNameOf(tasks[i]).value, tasks[i])
    decreases |tasks|
  {
    if tasks != [] {
      var n := |tasks|;
      var front := tasks[..n - 1];
      ParallelAllNamed(registry, roster, front);
      var last := DispatchResult(registry, roster, WorkerNameOf(tasks[n - 1]).value, tasks[n - 1]);
      assert ParallelStep(registry, roster, tasks[n - 1]) == [last];
      var rs := ParallelResults(registry, roster, tasks);
      var fr := ParallelResults(registry, roster, front);
      assert rs == fr + [last];
      forall i | 0 <= i < n
        ensures rs[i] == DispatchResult(registry, roster, WorkerNameOf(tasks[i]).value, tasks[i])
      {
        if i < n - 1 {
          assert rs[i] == fr[i] && front[i] == tasks[i];
        } else {
          assert rs[i] == last;
        }
      }
    }
  }

  /** Fanning a task out to non-empty names dispatches one copy to each name, in order. */
  lemma FanOutReachesEach(registry: Dict<string, string>, roster: Roster, task: Fields, names: seq<string>)
    requires forall i :: 0 <= i < |names| ==> names[i] != ""
    ensures |ParallelResults(registry, roster, FanOutTasks(task, names))| == |names|
    ensures forall i :: 0 <= i < |names| ==>
      ParallelResults(registry, roster, FanOutTasks(task, names))[i] == DispatchResult(registry, roster, names[i], FanOutTasks(task, names)[i])
  {
    var ts := FanOutTasks(task, names);
    forall i | 0 <= i < |names| ensures WorkerNameOf(ts[i]) == Some(names[i]) {
      FanOutKeepsFields(task, names, i, "worker_name");
    }
    ParallelAllNamed(registry, roster, ts);
  }

  lemma AppendAssoc<T>(a: seq<T>, b: seq<T>, c: seq<T>)
    ensures (a + b) + c == a + (b + c)
  {
  }

  /** The inter-agent message types. */
  datatype MessageType = Task | Result | Query | Broadcast | Heartbeat

  /** A message on the bus; its id and timestamp are left out. */
  datatype Message = Message(sender: string, recipient: string, content: string, kind: MessageType, metadata: Fields)

  /** The messages of `bus` addressed to `recipient`, in bus order. */
  function AddressedTo(bus: seq<Message>, recipient: string): (ms: seq<Message>)
    ensures forall m :: m in ms <==> m in bus && m.recipient == recipient
    ensures |ms| <= |bus|
    decreases |bus|
  {
    if bus == [] then []
    else
      var last := bus[|bus| - 1];
      assert bus == bus[..|bus| - 1] + [last];
      AddressedTo(bus[..|bus| - 1], recipient) + (if last.recipient == recipient then [last] else [])
  }

  /** Reading a recipient's messages is compatible with appending to the bus: old messages first, new ones after. */
  lemma {:induction false} AddressedToAppend(a: seq<Message>, b: seq<Message>, recipient: string)
    ensures AddressedTo(a + b, recipient) == AddressedTo(a, recipient) + AddressedTo(b, recipient)
    decreases |b|
  {
    if b == [] {
      assert a + b == a;
    } else {
      var b' := b[..|b| - 1];
      assert (a + b)[..|a + b| - 1] == a + b' && (a + b)[|a + b| - 1] == b[|b| - 1];
      AddressedToAppend(a, b', recipient);
      AppendAssoc(AddressedTo(a, recipient), AddressedTo(b', recipient), if b[|b| - 1].recipient == recipient then [b[|b| - 1]] else []);
    }
  }

  /** The broadcast messages for `names`, one per name and in order. */
  function BroadcastMessages(sender: string, content: string, metadata: Fields, names: seq<string>): (ms: seq<Message>)
    ensures |ms| == |names|
    ensures forall i :: 0 <= i < |names| ==> ms[i] == Message(sender, names[i], content, MessageType.Broadcast, metadata)
  {
    seq(|names|, i requires 0 <= i < |names| => Message(sender, names[i], content, MessageType.Broadcast, metadata))
  }

  lemma BroadcastMessagesAppend(sender: string, content: string, metadata: Fields, a: seq<string>, b: seq<string>)
    ensures BroadcastMessages(sender, content, metadata, a + b)
         == BroadcastMessages(sender, content, metadata, a) + BroadcastMessages(sender, content, metadata, b)
  {
  }

  /** Every worker name of every swarm, swarm by swarm in insertion order. */
  function AllWorkerNames(roster: Roster): seq<string>
    decreases |roster|
  {
    if roster == [] then [] else AllWorkerNames(roster[..|roster| - 1]) + Keys(roster[|roster| - 1].1)
  }

  /** Every worker of every swarm, swarm by swarm in insertion order. */
  function AllWorkers(roster: Roster): seq<Worker>
    decreases |roster|
  {
    if roster == [] then [] else AllWorkers(roster[..|roster| - 1]) + Values(roster[|roster| - 1].1)
  }

  lemma {:induction false} AllWorkersAppend(a: Roster, b: Roster)
    ensures AllWorkers(a + b) == AllWorkers(a) + AllWorkers(b)
    decreases |b|
  {
    if b == [] {
      assert a + b == a;
    } else {
      var b' := b[..|b| - 1];
      assert (a + b)[..|a + b| - 1] == a + b' && (a + b)[|a + b| - 1] == b[|b| - 1];
      AllWorkersAppend(a, b');
      AppendAssoc(AllWorkers(a), AllWorkers(b'), Values(b[|b| - 1].1));
    }
  }

  /** Searching the workers of `roster[i..]` searches swarm `i` first, then the rest. */
  lemma FirstCapableStep(roster: Roster, i: nat, taskType: string)
    requires i < |roster|
    ensures FirstCapable(AllWorkers(roster[i..]), taskType)
            == if FirstCapable(Values(roster[i].1), taskType).Some? then FirstCapable(Values(roster[i].1), taskType)
               else FirstCapable(AllWorkers(roster[i + 1..]), taskType)
  {
    assert roster[i..] == [roster[i]] + roster[i + 1..];
    AllWorkersAppend([roster[i]], roster[i + 1..]);
    var none: Roster := [];
    assert [roster[i]][..0] == none;
    assert AllWorkers([roster[i]]) == Values(roster[i].1);
    FirstCapableAppend(Values(roster[i].1), AllWorkers(roster[i + 1..]), taskType);
  }

  lemma {:induction false} AllWorkerNamesAppend(a: Roster, b: Roster)
    ensures AllWorkerNames(a + b) == AllWorkerNames(a) + AllWorkerNames(b)
    decreases |b|
  {
    if b == [] {
      assert a + b == a;
    } else {
      var b' := b[..|b| - 1];
      assert (a + b)[..|a + b| - 1] == a + b' && (a + b)[|a + b| - 1] == b[|b| - 1];
      AllWorkerNamesAppend(a, b');
      AppendAssoc(AllWorkerNames(a), AllWorkerNames(b'), Keys(b[|b| - 1].1));
    }
  }

  /** The names of one more swarm come after the names of the swarms before it. */
  lemma AllWorkerNamesPrefix(roster: Roster, i: nat)
    requires i < |roster|
    ensures AllWorkerNames(roster[..i + 1]) == AllWorkerNames(roster[..i]) + Keys(roster[i].1)
  {
    assert roster[..i + 1][..i] == roster[..i] && roster[..i + 1][i] == roster[i];
  }

  /** Broadcasting to one more name appends that name's message to the bus. */
  lemma BroadcastStep(sender: string, content: string, metadata: Fields, bus: seq<Message>, sent: seq<string>, names: seq<string>, j: nat)
    requires j < |names|
    ensures bus + BroadcastMessages(sender, content, metadata, sent + names[..j + 1])
         == (bus + BroadcastMessages(sender, content, metadata, sent + names[..j])) + [Message(sender, names[j], content, MessageType.Broadcast, metadata)]
  {
    assert sent + names[..j + 1] == (sent + names[..j]) + [names[j]];
    BroadcastMessagesAppend(sender, content, metadata, sent + names[..j], [names[j]]);
  }

  /** How often `x` occurs in `s`. */
  function Count(s: seq<string>, x: string): nat
    decreases |s|
  {
    if s == [] then 0 else Count(s[..|s| - 1], x) + (if s[|s| - 1] == x then 1 else 0)
  }

  /** A broadcast leaves each worker name exactly as many messages as the name occurs among the swarms. */
  lemma {:induction false} BroadcastCount(sender: string, content: string, metadata: Fields, names: seq<string>, n: string)
    ensures |AddressedTo(BroadcastMessages(sender, content, metadata, names), n)| == Count(names, n)
    decreases |names|
  {
    if names != [] {
      var k := |names|;
      var ms := BroadcastMessages(sender, content, metadata, names);
      assert ms == BroadcastMessages(sender, content, metadata, names[..k - 1]) + [ms[k - 1]];
      AddressedToAppend(BroadcastMessages(sender, content, metadata, names[..k - 1]), [ms[k - 1]], n);
      assert |[ms[k - 1]][..0]| == 0;
      BroadcastCount(sender, content, metadata, names[..k - 1], n);
    }
  }

  /**
    Registering a worker puts it in its swarm's table and points the registry there, so
    `get_worker` finds that very worker afterwards.
  */
  lemma RegisterThenLookup(registry: Dict<string, string>, roster: Roster, w: Worker, swarmName: string)
    requires swarmName != ""
    ensures LookupWorker(Put(registry, w.name, swarmName),
                         Put(roster, swarmName, Put(Get(roster, swarmName).GetOr([]), w.name, w)), w.name) == Some(w)
  {
    var table := Put(Get(roster, swarmName).GetOr([]), w.name, w);
    GetPut(registry, w.name, swarmName, w.name);
    GetPut(roster, swarmName, table, swarmName);
    GetPut(Get(roster, swarmName).GetOr([]), w.name, w, w.name);
  }

  /**
    Registering a worker under a second swarm moves the registry entry but leaves the
    worker in the first swarm's table too, so a broadcast reaches it twice.
  */
  lemma {:induction false} ReRegisterKeepsStaleEntry(w: Worker, first: string, second: string, sender: string, content: string, metadata: Fields)
    requires first != "" && second != "" && first != second
    ensures var registry := Put(Put([], w.name, first), w.name, second);
            var roster := Put(Put([], first, Put([], w.name, w)), second, Put(Get(Put([], first, Put([], w.name, w)), second).GetOr([]), w.name, w));
            && RouteOf(registry, roster, w.name) == Routed(second, [(w.name, w)])
            && Get(roster, first) == Some([(w.name, w)])
            && |AddressedTo(BroadcastMessages(sender, content, metadata, AllWorkerNames(roster)), w.name)| == 2
  {
    var roster := Put(Put([], first, Put([], w.name, w)), second, Put(Get(Put([], first, Put([], w.name, w)), second).GetOr([]), w.name, w));
    assert roster == [(first, [(w.name, w)]), (second, [(w.name, w)])];
    assert Put(Put([], w.name, first), w.name, second) == [(w.name, second)];
    DuplicateBroadcast(roster, w, sender, content, metadata);
  }

  /** A worker filed in two swarms is named twice among all workers and gets a broadcast twice. */
  lemma {:induction false} DuplicateBroadcast(roster: Roster, w: Worker, sender: string, content: string, metadata: Fields)
    requires |roster| == 2 && roster[0].1 == [(w.name, w)] && roster[1].1 == [(w.name, w)]
    ensures |AddressedTo(BroadcastMessages(sender, content, metadata, AllWorkerNames(roster)), w.name)| == 2
  {
    var names := AllWorkerNames(roster);
    assert names == [w.name, w.name] by {
      var none: Roster := [];
      assert roster[..1][..0] == none;
      assert Keys(roster[0].1) == [w.name] && Keys(roster[1].1) == [w.name];
      assert AllWorkerNames(roster[..1]) == AllWorkerNames(none) + [w.name];
      assert names == AllWorkerNames(roster[..1]) + [w.name];
    }
    BroadcastCount(sender, content, metadata, names, w.name);
    assert Count(names, w.name) == 2 by {
      assert names[..1] == [w.name] && names[..1][..0] == [];
    }
  }

  /** Filing a worker in a swarm's table, found at position `k` or appended there, is `Put` on the roster. */
  lemma FileInRoster(t0: Roster, t1: Roster, k: nat, sn: string, table: Table, w: Worker)
    requires UniqueKeys(t0)
    requires || (k < |t0| && t1 == t0 && t0[k].0 == sn && table == t0[k].1)
             || (k == |t0| && sn !in Keys(t0) && t1 == t0 + [(sn, [])] && table == [])
    ensures t1[k := (sn, Put(table, w.name, w))] == Put(t0, sn, Put(Get(t0, sn).GetOr([]), w.name, w))
  {
    if k < |t0| {
      GetAt(t0, k);
      PutAt(t0, sn, Put(table, w.name, w), k);
    }
  }

  /** The worker tables of the swarms in `ss`, as values. */
  function TablesOf(ss: Dict<string, Swarm>): (t: Roster)
    reads set i | 0 <= i < |ss| :: ss[i].1
    ensures |t| == |ss|
    ensures forall i :: 0 <= i < |ss| ==> t[i] == (ss[i].0, ss[i].1.workers)
  {
    if ss == [] then [] else [(ss[0].0, ss[0].1.workers)] + TablesOf(ss[1..])
  }

  /** Every worker filed in a roster. */
  function RosterWorkers(t: Roster): set<Worker>
  {
    set i, j | 0 <= i < |t| && 0 <= j < |t[i].1| :: t[i].1[j].1
  }

  /** One swarm's entry of `status()` and `list_swarms()`. */
  datatype SwarmReport = SwarmReport(workers: seq<string>, workerCount: nat)

  /** `status()`. */
  datatype StatusReport = StatusReport(swarms: Dict<string, SwarmReport>, totalWorkers: nat, messageQueueSize: nat, executions: nat)

  class SwarmManager {
    var swarms: Dict<string, Swarm>
    var workerRegistry: Dict<string, string>
    var messageBus: seq<Message>
    var sharedContext: Dict<string, string>
    var executionLog: seq<ExecutionRecord>

    function SwarmSet(): set<Swarm>
      reads this`swarms
    {
      set i | 0 <= i < |swarms| :: swarms[i].1
    }

    /**
      Swarm and worker names are unique keys, each swarm is filed under its own name and
      is a valid swarm, and no swarm object is filed twice.
    */
    ghost predicate Valid()
      reads this`swarms, this`workerRegistry, SwarmSet()
    {
      && UniqueKeys(swarms)
      && UniqueKeys(workerRegistry)
      && (forall i :: 0 <= i < |swarms| ==> swarms[i].1.name == swarms[i].0 && swarms[i].1.Valid())
      && (forall i, j :: 0 <= i < j < |swarms| ==> swarms[i].1 != swarms[j].1)
    }

    /** The worker tables of all swarms, as values. */
    function Tables(): (t: Roster)
      reads this`swarms, SwarmSet()
      ensures |t| == |swarms|
      ensures forall i :: 0 <= i < |swarms| ==> t[i] == (swarms[i].0, swarms[i].1.workers)
    {
      TablesOf(swarms)
    }

    /** Every worker of every swarm. */
    function WorkerSet(): set<Worker>
      reads this`swarms, SwarmSet()
    {
      RosterWorkers(Tables())
    }

    /** The tables and the invariant depend on the swarm list, the registry and the swarms' own fields alone. */
    twostate lemma Framed()
      requires unchanged(this`swarms) && unchanged(old(SwarmSet()))
      ensures Tables() == old(Tables())
      ensures old(Valid()) && UniqueKeys(workerRegistry) ==> Valid()
    {
    }

    constructor ()
      ensures Valid()
      ensures swarms == [] && workerRegistry == [] && messageBus == [] && sharedContext == [] && executionLog == []
    {
      swarms := [];
      workerRegistry := [];
      messageBus := [];
      sharedContext := [];
      executionLog := [];
    }

    /** Looking a swarm name up in the tables finds the table of the swarm filed under it. */
    lemma TablesLookup(sn: string)
      requires Valid()
      ensures Get(Tables(), sn) == match Get(swarms, sn) case Some(s) => Some(s.workers) case None => None
    {
      var t := Tables();
      assert Keys(t) == Keys(swarms);
      match Get(swarms, sn)
      case Some(s) =>
        var i := GetIndex(swarms, sn);
        GetAt(t, i);
      case None =>
    }

    /** `create_swarm`: a new empty swarm filed under `name`, replacing any swarm already there. */
    method CreateSwarm(name: string, description: string) returns (s: Swarm)
      requires Valid()
      modifies this`swarms
      ensures Valid() && fresh(s)
      ensures s.name == name && s.description == description && s.workers == []
      ensures swarms == Put(old(swarms), name, s)
    {
      s := new Swarm(name, description);
      PutKeepsUnique(swarms, name, s);
      PutEntries(swarms, name, s);
      swarms := Put(swarms, name, s);
    }

    /** `get_swarm`. */
    function GetSwarm(name: string): (r: Option<Swarm>)
      reads this`swarms, this`workerRegistry, SwarmSet()
      requires Valid()
      ensures r.Some? <==> name in Keys(swarms)
      ensures r.Some? ==> r.value.name == name
    {
      var r := Get(swarms, name);
      assert r.Some? ==> (name, r.value) in swarms;
      r
    }

    /** `list_swarms`: every swarm's worker names, swarm by swarm. */
    function ListSwarms(): (r: Dict<string, seq<string>>)
      reads this`swarms, SwarmSet()
      ensures Keys(r) == Keys(swarms)
      ensures forall i :: 0 <= i < |swarms| ==> r[i].1 == Keys(swarms[i].1.workers)
    {
      var t := Tables();
      var r := seq(|t|, i requires 0 <= i < |t| => (t[i].0, Keys(t[i].1)));
      assert Keys(r) == Keys(swarms);
      r
    }

    /** Creating a swarm appends its empty table and leaves the other swarms alone. */
    twostate lemma TablesAfterCreate(sn: string, new created: Swarm)
      requires swarms == old(swarms) + [(sn, created)] && unchanged(old(SwarmSet()))
      ensures Tables() == old(Tables()) + [(sn, created.workers)]
    {
    }

    /** Changing one swarm's workers changes that swarm's table alone and keeps the invariant. */
    twostate lemma TablesAfterAdd(k: nat)
      requires old(Valid()) && unchanged(this`swarms, this`workerRegistry) && k < |swarms|
      requires unchanged(old(SwarmSet()) - {swarms[k].1})
      requires swarms[k].1.Valid()
      ensures Tables() == old(Tables())[k := (swarms[k].0, swarms[k].1.workers)]
      ensures Valid()
    {
      forall i | 0 <= i < |swarms| && i != k
        ensures swarms[i].1.workers == old(swarms[i].1.workers) && (old(swarms[i].1.Valid()) ==> swarms[i].1.Valid())
      {
        assert swarms[i].1 in old(SwarmSet()) - {swarms[k].1};
      }
    }

    /** The swarm filed under `swarmName`, created with the auto-created description when missing. */
    method SwarmFor(swarmName: string) returns (s: Swarm, ghost k: nat)
      requires Valid()
      modifies this`swarms
      ensures Valid() && k < |swarms| && swarms[k] == (swarmName, s)
      ensures swarmName in Keys(old(swarms)) ==> swarms == old(swarms) && Tables() == old(Tables())
      ensures swarmName !in Keys(old(swarms)) ==>
        && swarms == old(swarms) + [(swarmName, s)] && fresh(s)
        && s.description == "Auto-created swarm for " + swarmName
        && Tables() == old(Tables()) + [(swarmName, [])]
    {
      if swarmName !in Keys(swarms) {
        s := CreateSwarm(swarmName, "Auto-created swarm for " + swarmName);
        assert swarms == old(swarms) + [(swarmName, s)];
        TablesAfterCreate(swarmName, s);
        k := |old(swarms)|;
      } else {
        assert Get(swarms, swarmName).Some?;
        s := Get(swarms, swarmName).value;
        k := GetIndex(swarms, swarmName);
      }
    }

    /** The swarm half of `register_worker`: create the swarm when missing, then file the worker in it. */
    method AddToSwarm(w: Worker, swarmName: string)
      requires Valid()
      modifies this`swarms, SwarmSet()
      ensures Valid()
      ensures Tables() == Put(old(Tables()), swarmName, Put(Get(old(Tables()), swarmName).GetOr([]), w.name, w))
      ensures swarmName !in Keys(old(swarms)) ==>
        Get(swarms, swarmName).Some? && fresh(Get(swarms, swarmName).value)
        && Get(swarms, swarmName).value.description == "Auto-created swarm for " + swarmName
      ensures swarmName in Keys(old(swarms)) ==> swarms == old(swarms)
    {
      ghost var t0 := Tables();
      assert Keys(t0) == Keys(swarms);
      assert UniqueKeys(t0);
      var s, k := SwarmFor(swarmName);
      ghost var t1 := Tables();
      ghost var filed := swarms;
      ghost var before := s.workers;
      label Adding:
      s.AddWorker(w);
      TablesAfterAdd@Adding(k);
      FileInRoster(t0, t1, k, swarmName, before, w);
      assert swarms == filed;
      GetAt(swarms, k);
    }

    /**
      `register_worker`: creates the swarm when missing, files the worker in it and points
      the registry at it. A registry entry for the same name in another swarm's table stays.
    */
    method RegisterWorker(w: Worker, swarmName: string)
      requires Valid()
      modifies this`swarms, this`workerRegistry, SwarmSet()
      ensures Valid()
      ensures workerRegistry == Put(old(workerRegistry), w.name, swarmName)
      ensures Tables() == Put(old(Tables()), swarmName, Put(Get(old(Tables()), swarmName).GetOr([]), w.name, w))
      ensures swarmName !in Keys(old(swarms)) ==>
        Get(swarms, swarmName).Some? && fresh(Get(swarms, swarmName).value)
        && Get(swarms, swarmName).value.description == "Auto-created swarm for " + swarmName
      ensures swarmName in Keys(old(swarms)) ==> swarms == old(swarms)
    {
      AddToSwarm(w, swarmName);
      label Registering:
      PutKeepsUnique(workerRegistry, w.name, swarmName);
      workerRegistry := Put(workerRegistry, w.name, swarmName);
      Framed@Registering();
      assert swarms == old@Registering(swarms) && Tables() == old@Registering(Tables());
    }

    /** `get_worker`: the worker the registry points at, looked up in the swarm it names. */
    function GetWorker(name: string): (r: Option<Worker>)
      reads this`swarms, this`workerRegistry, SwarmSet()
      requires Valid()
      ensures r == LookupWorker(workerRegistry, Tables(), name)
    {
      var sn := Get(workerRegistry, name);
      if sn.Some? && sn.value != "" && sn.value in Keys(swarms) then
        TablesLookup(sn.value);
        Get(swarms, sn.value).value.GetWorker(name)
      else
        TablesLookup(if sn.Some? then sn.value else "");
        None
    }

    /** `find_worker_for_task`: the first capable worker, swarm by swarm in insertion order. */
    method FindWorkerForTask(taskType: string) returns (r: Option<Worker>)
      ensures r == FirstCapable(AllWorkers(Tables()), taskType)
    {
      ghost var t := Tables();
      var i := 0;
      while i < |swarms|
        invariant 0 <= i <= |swarms|
        invariant FirstCapable(AllWorkers(t), taskType) == FirstCapable(AllWorkers(t[i..]), taskType)
      {
        FirstCapableStep(t, i, taskType);
        var w := swarms[i].1.FindCapableWorker(taskType);
        assert Values(t[i].1) == Values(swarms[i].1.workers);
        if w.Some? {
          assert w == FirstCapable(AllWorkers(t), taskType);
          assert Tables() == t;
          return w;
        }
        i := i + 1;
      }
      assert t[i..] == [];
      assert Tables() == t;
      return None;
    }

    /** The worker `Dispatch(n, …)` runs, if any. */
    function TargetOf(n: string): set<Worker>
      reads this`swarms, this`workerRegistry, SwarmSet()
    {
      match LookupWorker(workerRegistry, Tables(), n)
      case Some(w) => {w}
      case None => {}
    }

    /** The worker `get_worker` finds belongs to one of the swarms. */
    lemma TargetWithin(n: string)
      requires Valid()
      ensures TargetOf(n) <= WorkerSet()
    {
      var t := Tables();
      match LookupWorker(workerRegistry, t, n)
      case Some(w) =>
        var sn := Get(workerRegistry, n).value;
        var i := GetIndex(t, sn);
        var j := GetIndex(t[i].1, n);
        assert t[i].1[j].1 == w;
      case None =>
    }

    /** The routed half of `dispatch`: log the call, then hand it to swarm `s`, filed under `sn`. */
    method DispatchRouted(workerName: string, task: Fields, runId: string, sn: string, s: Swarm, ghost others: set<Worker>)
      returns (r: Fields)
      requires s.name == sn
      modifies this`executionLog, s.Target(workerName)
      ensures s.workers == old(s.workers)
      ensures r == InSwarm(sn, s.workers, workerName, task)
      ensures executionLog == old(executionLog) + [ExecutionRecord(workerName, sn, TaskType(task))]
      ensures match Get(s.workers, workerName)
        case Some(w) => Ran(w, task, runId)
        case None => true
      ensures forall w :: w in others ==> Stepped(w, Get(s.workers, workerName), task, runId)
    {
      executionLog := executionLog + [ExecutionRecord(workerName, sn, TaskType(task))];
      r := s.Dispatch(workerName, task, runId, others);
    }

    /** `DispatchRouted` on the swarm filed under `sn`: the tables and the invariant survive it. */
    method DispatchFiled(workerName: string, task: Fields, runId: string, sn: string, s: Swarm, ghost others: set<Worker>)
      returns (r: Fields)
      requires Valid() && Get(swarms, sn) == Some(s)
      modifies this`executionLog, s.Target(workerName)
      ensures Valid() && Tables() == old(Tables())
      ensures r == InSwarm(sn, s.workers, workerName, task)
      ensures executionLog == old(executionLog) + [ExecutionRecord(workerName, sn, TaskType(task))]
      ensures match Get(s.workers, workerName)
        case Some(w) => Ran(w, task, runId)
        case None => true
      ensures forall w :: w in others ==> Stepped(w, Get(s.workers, workerName), task, runId)
    {
      ghost var k := GetIndex(swarms, sn);
      assert s.name == sn;
      r := DispatchRouted(workerName, task, runId, sn, s, others);
      Framed();
    }

    /**
      `dispatch`: an unregistered name or a missing swarm is an error and logs nothing;
      otherwise the call is logged and handed to the swarm.
    */
    method Dispatch(workerName: string, task: Fields, runId: string, ghost others: set<Worker>) returns (r: Fields)
      requires Valid()
      modifies this`executionLog, TargetOf(workerName)
      ensures Valid() && Tables() == old(Tables()) && WorkerSet() == old(WorkerSet())
      ensures r == DispatchResult(workerRegistry, Tables(), workerName, task)
      ensures executionLog == old(executionLog) + DispatchLog(workerRegistry, Tables(), workerName, task)
      ensures match LookupWorker(workerRegistry, Tables(), workerName)
        case Some(w) => Ran(w, task, runId)
        case None => true
      ensures forall w :: w in others ==> Stepped(w, LookupWorker(workerRegistry, Tables(), workerName), task, runId)
    {
      var sn := Get(workerRegistry, workerName);
      if sn.None? || sn.value == "" {
        assert LookupWorker(workerRegistry, Tables(), workerName) == None;
        return ErrorResult("Worker '" + workerName + "' not registered");
      }
      TablesLookup(sn.value);
      var swarm := Get(swarms, sn.value);
      if swarm.None? {
        assert LookupWorker(workerRegistry, Tables(), workerName) == None;
        return ErrorResult("Swarm '" + sn.value + "' not found");
      }
      assert RouteOf(workerRegistry, Tables(), workerName) == Routed(sn.value, swarm.value.workers);
      assert LookupWorker(workerRegistry, Tables(), workerName) == Get(swarm.value.workers, workerName);
      r := DispatchFiled(workerName, task, runId, sn.value, swarm.value, others);
    }

    /** One task of `dispatch_parallel`: dispatched when it names a worker, skipped otherwise. */
    method DispatchStep(task: Fields, runId: string) returns (rs: seq<Fields>)
      requires Valid()
      modifies this`executionLog, WorkerSet()
      ensures Valid() && Tables() == old(Tables())
      ensures rs == ParallelStep(workerRegistry, Tables(), task)
      ensures executionLog == old(executionLog) + ParallelStepLog(workerRegistry, Tables(), task)
      ensures WorkerSet() == old(WorkerSet())
      ensures forall w :: w in WorkerSet() ==> Stepped(w, ParallelTarget(workerRegistry, Tables(), task), task, runId)
    {
      var n := WorkerNameOf(task);
      rs := [];
      if n.Some? {
        TargetWithin(n.value);
        var r := Dispatch(n.value, task, runId, WorkerSet());
        rs := [r];
      }
    }

    /**
      `dispatch_parallel`: dispatches every task with a truthy `worker_name`, in order; the
      k-th task gets run id `runIds(k)`.
    */
    method DispatchParallel(tasks: seq<Fields>, runIds: nat -> string) returns (results: seq<Fields>)
      requires Valid()
      modifies this`executionLog, WorkerSet()
      ensures results == ParallelResults(workerRegistry, Tables(), tasks)
      ensures executionLog == old(executionLog) + ParallelLog(workerRegistry, Tables(), tasks)
      ensures Valid() && Tables() == old(Tables())
      ensures forall w :: w in WorkerSet() ==> RanAll(w, ParallelTargets(workerRegistry, Tables(), tasks), tasks, runIds)
    {
      ghost var t := Tables();
      ghost var ws := WorkerSet();
      ghost var targets := ParallelTargets(workerRegistry, t, tasks);
      results := [];
      var k := 0;
      while k < |tasks|
        invariant 0 <= k <= |tasks|
        invariant Valid() && Tables() == t && WorkerSet() == ws
        invariant results == ParallelResults(workerRegistry, t, tasks[..k])
        invariant executionLog == old(executionLog) + ParallelLog(workerRegistry, t, tasks[..k])
        invariant forall w :: w in ws ==> ReachedNow(w, old(w.statusLog), old(w.status), old(w.runId), targets[..k], tasks[..k], runIds)
      {
        ParallelPrefix(workerRegistry, t, tasks, k);
        label Before:
        var rs := DispatchStep(tasks[k], runIds(k));
        AppendAssoc(old(executionLog), ParallelLog(workerRegistry, t, tasks[..k]), ParallelStepLog(workerRegistry, t, tasks[k]));
        results := results + rs;
        assert targets[k] == ParallelTarget(workerRegistry, t, tasks[k]);
        forall v | v in ws
          ensures ReachedNow(v, old(v.statusLog), old(v.status), old(v.runId), targets[..k + 1], tasks[..k + 1], runIds)
        {
          assert Stepped@Before(v, targets[k], tasks[k], runIds(k));
          ReachedStep(v, old@Before(v.statusLog), old@Before(v.status), old@Before(v.runId), v.statusLog, v.status, v.runId,
                      old(v.statusLog), old(v.status), old(v.runId), targets, tasks, runIds, k);
        }
        k := k + 1;
      }
      assert tasks[..k] == tasks;
      assert targets[..k] == targets;
      forall w | w in WorkerSet() ensures RanAll(w, ParallelTargets(workerRegistry, Tables(), tasks), tasks, runIds) {
        assert ReachedNow(w, old(w.statusLog), old(w.status), old(w.runId), targets[..k], tasks[..k], runIds);
      }
    }

    /** `fan_out`: the same task, once per worker name, dispatched in parallel. */
    method FanOut(task: Fields, workerNames: seq<string>, runIds: nat -> string) returns (results: seq<Fields>)
      requires Valid()
      modifies this`executionLog, WorkerSet()
      ensures results == ParallelResults(workerRegistry, Tables(), FanOutTasks(task, workerNames))
      ensures executionLog == old(executionLog) + ParallelLog(workerRegistry, Tables(), FanOutTasks(task, workerNames))
      ensures Valid() && Tables() == old(Tables())
      ensures forall w :: w in WorkerSet() ==>
        RanAll(w, ParallelTargets(workerRegistry, Tables(), FanOutTasks(task, workerNames)), FanOutTasks(task, workerNames), runIds)
    {
      results := DispatchParallel(FanOutTasks(task, workerNames), runIds);
    }

    /** `send_message`. */
    method SendMessage(m: Message)
      modifies this`messageBus
      ensures messageBus == old(messageBus) + [m]
      ensures GetMessages(m.recipient) == old(GetMessages(m.recipient)) + [m]
      ensures forall n :: n != m.recipient ==> GetMessages(n) == old(GetMessages(n))
    {
      messageBus := messageBus + [m];
      AddressedToAppend(old(messageBus), [m], m.recipient);
      forall n | n != m.recipient ensures GetMessages(n) == old(GetMessages(n)) {
        AddressedToAppend(old(messageBus), [m], n);
        assert [m][..0] == [];
      }
    }

    /** `get_messages`. */
    function GetMessages(recipient: string): (r: seq<Message>)
      reads this`messageBus
      ensures forall m :: m in r <==> m in messageBus && m.recipient == recipient
    {
      AddressedTo(messageBus, recipient)
    }

    /** One broadcast message per name in `names`, in order. */
    method SendToEach(sender: string, content: string, metadata: Fields, names: seq<string>)
      modifies this`messageBus
      ensures messageBus == old(messageBus) + BroadcastMessages(sender, content, metadata, names)
    {
      var j := 0;
      while j < |names|
        invariant 0 <= j <= |names|
        invariant messageBus == old(messageBus) + BroadcastMessages(sender, content, metadata, names[..j])
      {
        BroadcastStep(sender, content, metadata, old(messageBus), [], names, j);
        assert [] + names[..j] == names[..j] && [] + names[..j + 1] == names[..j + 1];
        messageBus := messageBus + [Message(sender, names[j], content, MessageType.Broadcast, metadata)];
        j := j + 1;
      }
      assert names[..j] == names;
    }

    /** `broadcast`: one message per worker name of every swarm, swarm by swarm. */
    method Broadcast(sender: string, content: string, metadata: Fields)
      modifies this`messageBus
      ensures messageBus == old(messageBus) + BroadcastMessages(sender, content, metadata, AllWorkerNames(Tables()))
    {
      var t := Tables();
      var i := 0;
      while i < |t|
        invariant 0 <= i <= |t|
        invariant messageBus == old(messageBus) + BroadcastMessages(sender, content, metadata, AllWorkerNames(t[..i]))
      {
        ghost var before := messageBus;
        SendToEach(sender, content, metadata, Keys(t[i].1));
        AllWorkerNamesPrefix(t, i);
        BroadcastMessagesAppend(sender, content, metadata, AllWorkerNames(t[..i]), Keys(t[i].1));
        AppendAssoc(old(messageBus), BroadcastMessages(sender, content, metadata, AllWorkerNames(t[..i])),
          BroadcastMessages(sender, content, metadata, Keys(t[i].1)));
        i := i + 1;
      }
      assert t[..i] == t;
    }

    /** `set_context`. */
    method SetContext(key: string, value: string)
      modifies this`sharedContext
      ensures sharedContext == Put(old(sharedContext), key, value)
      ensures forall q :: GetContext(q) == if q == key then Some(value) else old(GetContext(q))
    {
      sharedContext := Put(sharedContext, key, value);
      forall q ensures GetContext(q) == if q == key then Some(value) else old(GetContext(q)) {
        GetPut(old(sharedContext), key, value, q);
      }
    }

    /** `get_context`: `None` for a key never set. */
    function GetContext(key: string): (r: Option<string>)
      reads this`sharedContext
      ensures r.None? <==> key !in Keys(sharedContext)
      ensures r.Some? ==> (key, r.value) in sharedContext
    {
      Get(sharedContext, key)
    }

    /**
      `status()`: every swarm with its worker names and their number, the number of
      distinct registered worker names, the bus length and the number of logged dispatches.
    */
    function Status(): (r: StatusReport)
      reads this, SwarmSet()
      requires Valid()
      ensures Keys(r.swarms) == Keys(swarms)
      ensures forall i :: 0 <= i < |r.swarms| ==>
        r.swarms[i].1.workers == Keys(Tables()[i].1) && r.swarms[i].1.workerCount == |r.swarms[i].1.workers|
      ensures r.totalWorkers == |KeySet(workerRegistry)|
      ensures r.messageQueueSize == |messageBus| && r.executions == |executionLog|
    {
      UniqueKeysCount(workerRegistry);
      var t := Tables();
      var report := seq(|t|, i requires 0 <= i < |t| => (t[i].0, SwarmReport(Keys(t[i].1), |t[i].1|)));
      assert Keys(report) == Keys(swarms);
      StatusReport(report, |workerRegistry|, |messageBus|, |executionLog|)
    }
  }
}
