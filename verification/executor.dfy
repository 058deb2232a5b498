/**
 * The workflow executor of `EnhancedOrchestrator` (enhanced_orchestrator.py).
 *
 * `execute_workflow` plans the workflow's tasks into dependency levels and
 * runs the levels in plan order.  Inside a level every task is prepared in
 * turn: when it names a resource a lease is taken (and its answer ignored),
 * the payload is transformed, and the lease is released again whether or not
 * the transform raised; the connector call is only created there.  The calls
 * of the level run together afterwards, at the gather, and a call that raises
 * is stored as a value among the results.  Any other exception (a planning
 * cycle, an unknown task, a missing field, an unregistered schema) aborts the
 * workflow: the failure-cascade hook is told the workflow id and the message,
 * and the exception propagates.
 *
 * The model follows the evident intent where the code is broken: a plan level
 * holds task ids, which are looked up among the workflow's tasks (the last
 * task with an id wins, as in a dict built from the list); `_resource_lock` is
 * the scoped acquire/release its body describes; the undefined
 * `_handle_failure_cascade` is an event in the trace.  Python iterates a set
 * in an order of its own: the order within each level is a parameter.
 */
module Executor {
  import opened Wrappers
  import opened Values
  import P = Planner
  import T = Transform
  import L = Leases
  import C = Connector

  /** A task of a workflow; optional keys of the task dict are `Option`s. */
  datatype WorkflowTask = WorkflowTask(
    id: string,
    agentId: string,
    data: Record,
    sourceAgent: Option<string>,
    targetAgent: Option<string>,
    resourceId: Option<string>,
    dependencies: seq<string>)

  datatype Workflow = Workflow(id: string, tasks: seq<WorkflowTask>)

  /** The orchestrator's components, reduced to the state the executor touches. */
  datatype Engine = Engine(
    optimizer: P.Optimizer,
    transformer: T.Transformer,
    connector: C.Connector,
    leases: L.LeaseStore)

  /** The exceptions that escape the `try` of `execute_workflow`. */
  datatype EngineError =
    | PlanFailed(planError: P.PlanError)
    | UnknownTask(taskId: string)
    | MissingField(taskId: string, field: string)
    | TransformFailed(transformError: T.TransformError)

  /** `str(e)` as handed to the failure-cascade hook. */
  function ErrorMessage(e: EngineError): string {
    match e
    case PlanFailed(pe) => P.ErrorMessage(pe)
    case UnknownTask(id) => "'" + id + "'"
    case MissingField(_, field) => "'" + field + "'"
    case TransformFailed(te) => T.ErrorMessage(te)
  }

  datatype Event =
    | LockAcquired(resource: string, granted: bool)
    | Transformed(taskId: string)
    | LockReleased(resource: string)
    | Called(taskId: string, agentId: string, attempts: nat)
    | CascadeHandled(workflowId: string, message: string)

  /** One entry of the result list: a response, or the exception the call raised. */
  type CallResult = Result<Record, C.CallError>

  /** A connector call created inside the lock and awaited at the gather. */
  datatype Pending = Pending(taskId: string, agentId: string, payload: Record)

  datatype Prepared = Prepared(leases: L.LeaseStore, pending: Result<Pending, EngineError>, trace: seq<Event>)

  datatype LevelPrep = LevelPrep(leases: L.LeaseStore, pending: Result<seq<Pending>, EngineError>, trace: seq<Event>)

  datatype Gathered = Gathered(results: seq<CallResult>, trace: seq<Event>)

  datatype Run = Run(leases: L.LeaseStore, results: Result<seq<CallResult>, EngineError>, trace: seq<Event>)

  datatype Outcome = Outcome(engine: Engine, results: Result<seq<CallResult>, EngineError>, trace: seq<Event>)

  /* ---------------------------------------------------------------- trace views */

  /** The lock operations of a trace, in order. */
  function LockOps(trace: seq<Event>): (ops: seq<Event>)
    ensures forall i :: 0 <= i < |ops| ==> ops[i].LockAcquired? || ops[i].LockReleased?
  {
    if |trace| == 0 then []
    else (if trace[0].LockAcquired? || trace[0].LockReleased? then [trace[0]] else []) + LockOps(trace[1..])
  }

  /** Lock operations come in pairs: an acquire, then the release of the same resource. */
  predicate Bracketed(ops: seq<Event>) {
    |ops| == 0 || (|ops| >= 2 && ops[0].LockAcquired? && ops[1] == LockReleased(ops[0].resource) && Bracketed(ops[2..]))
  }

  predicate NoCalls(trace: seq<Event>) {
    forall i :: 0 <= i < |trace| ==> !trace[i].Called?
  }

  predicate OnlyCalls(trace: seq<Event>) {
    forall i :: 0 <= i < |trace| ==> trace[i].Called?
  }

  predicate NoCascade(trace: seq<Event>) {
    forall i :: 0 <= i < |trace| ==> !trace[i].CascadeHandled?
  }

  lemma {:induction false} LockOpsAppend(a: seq<Event>, b: seq<Event>)
    ensures LockOps(a + b) == LockOps(a) + LockOps(b)
    decreases |a|
  {
    if |a| == 0 {
      assert a + b == b;
    } else {
      assert (a + b)[1..] == a[1..] + b;
      LockOpsAppend(a[1..], b);
    }
  }

  lemma {:induction false} BracketedAppend(a: seq<Event>, b: seq<Event>)
    requires Bracketed(a) && Bracketed(b)
    ensures Bracketed(a + b)
    decreases |a|
  {
    if |a| == 0 {
      assert a + b == b;
    } else {
      assert (a + b)[2..] == a[2..] + b;
      BracketedAppend(a[2..], b);
    }
  }

  /* ---------------------------------------------------------------- one task */

  /** No task after index `i` has the id of task `i`. */
  predicate IsLast(tasks: seq<WorkflowTask>, i: nat)
    requires i < |tasks|
  {
    forall j :: i < j < |tasks| ==> tasks[j].id != tasks[i].id
  }

  /** The task the workflow lists under `id`; a later entry shadows an earlier one. */
  function Lookup(tasks: seq<WorkflowTask>, id: string): (r: Option<WorkflowTask>)
    ensures r.None? <==> forall i :: 0 <= i < |tasks| ==> tasks[i].id != id
    ensures r.Some? ==> r.value.id == id
    ensures r.Some? ==> exists i :: 0 <= i < |tasks| && tasks[i] == r.value && IsLast(tasks, i)
  {
    if |tasks| == 0 then None
    else if tasks[|tasks| - 1].id == id then Some(tasks[|tasks| - 1])
    else Lookup(tasks[..|tasks| - 1], id)
  }

  /** `task.get('resource_id')` when it is truthy: `None` and the empty string take no lock. */
  function ResourceOf(t: WorkflowTask): (r: Option<string>)
    ensures r.Some? <==> t.resourceId.Some? && t.resourceId.value != ""
    ensures r.Some? ==> r.value == t.resourceId.value
  {
    if t.resourceId.Some? && t.resourceId.value != "" then t.resourceId else None
  }

  /** The `transform_data` call of a task, including the dict lookups of its arguments. */
  function TransformTask(tr: T.Transformer, t: WorkflowTask): (r: Result<Record, EngineError>)
    ensures t.sourceAgent.None? ==> r == Failure(MissingField(t.id, "source_agent"))
    ensures t.sourceAgent.Some? && t.targetAgent.None? ==> r == Failure(MissingField(t.id, "target_agent"))
    ensures t.sourceAgent.Some? && t.targetAgent.Some? ==>
      var tr' := T.TransformData(tr, t.data, t.sourceAgent.value, t.targetAgent.value);
      (r.Success? <==> tr'.Success?) &&
      (tr'.Success? ==> r.value == tr'.value) &&
      (tr'.Failure? ==> r == Failure(TransformFailed(tr'.error)))
  {
    if t.sourceAgent.None? then Failure(MissingField(t.id, "source_agent"))
    else if t.targetAgent.None? then Failure(MissingField(t.id, "target_agent"))
    else
      match T.TransformData(tr, t.data, t.sourceAgent.value, t.targetAgent.value)
      case Success(payload) => Success(payload)
      case Failure(e) => Failure(TransformFailed(e))
  }

  /** The task can be transformed: both agents named and registered. */
  predicate Transformable(tr: T.Transformer, t: WorkflowTask) {
    && t.sourceAgent.Some? && t.targetAgent.Some?
    && t.sourceAgent.value in tr.schemaRegistry && t.targetAgent.value in tr.schemaRegistry
  }

  /** The body of the inner loop for one task: the lock scope around the transform (lines 33-47). */
  function Prepare(tr: T.Transformer, leases: L.LeaseStore, t: WorkflowTask, now: L.Time): (r: Prepared)
    ensures r.pending.Success? <==> Transformable(tr, t)
    ensures r.pending.Success? ==> r.pending.value == Pending(t.id, t.agentId, T.ApplyRules(tr.rules, t.data))
    ensures ResourceOf(t).None? ==> LockOps(r.trace) == [] && r.leases == leases
    ensures ResourceOf(t).Some? ==>
      var res := ResourceOf(t).value;
      && LockOps(r.trace) == [LockAcquired(res, !L.Live(leases, res, now)), LockReleased(res)]
      && r.leases == L.Release(leases, res)
    ensures NoCalls(r.trace) && NoCascade(r.trace)
  {
    var payload := TransformTask(tr, t);
    var pending := if payload.Success? then Success(Pending(t.id, t.agentId, payload.value)) else Failure(payload.error);
    var transformed := if payload.Success? then [Transformed(t.id)] else [];
    assert LockOps(transformed) == [];
    match ResourceOf(t)
    case None => Prepared(leases, pending, transformed)
    case Some(res) =>
      var acquired := L.Acquire(leases, res, now);
      var trace := [LockAcquired(res, acquired.granted)] + transformed + [LockReleased(res)];
      LockOpsAppend([LockAcquired(res, acquired.granted)] + transformed, [LockReleased(res)]);
      LockOpsAppend([LockAcquired(res, acquired.granted)], transformed);
      Prepared(L.Release(acquired.store, res), pending, trace)
  }

  /* ---------------------------------------------------------------- one level */

  /** What preparing task `id` of the workflow needs: the task exists and can be transformed. */
  predicate Preparable(tr: T.Transformer, tasks: seq<WorkflowTask>, id: string) {
    Lookup(tasks, id).Some? && Transformable(tr, Lookup(tasks, id).value)
  }

  /** Every id of `ids` is preparable. */
  predicate ListedPreparable(tr: T.Transformer, tasks: seq<WorkflowTask>, ids: seq<string>) {
    forall i :: 0 <= i < |ids| ==> Preparable(tr, tasks, ids[i])
  }

  /** Every id of `nodes` is preparable. */
  predicate NodesPreparable(tr: T.Transformer, tasks: seq<WorkflowTask>, nodes: set<string>) {
    forall n :: n in nodes ==> Preparable(tr, tasks, n)
  }

  /** The call a preparable task creates: its agent and its transformed data. */
  function PendingOf(tr: T.Transformer, tasks: seq<WorkflowTask>, id: string): Pending
    requires Lookup(tasks, id).Some?
  {
    var t := Lookup(tasks, id).value;
    Pending(id, t.agentId, T.ApplyRules(tr.rules, t.data))
  }

  /** The inner loop of lines 29-47 over one level, in iteration order `ids`; stops at the first exception. */
  function PrepareLevel(tr: T.Transformer, leases: L.LeaseStore, tasks: seq<WorkflowTask>, ids: seq<string>, now: L.Time): (r: LevelPrep)
    ensures r.leases.Keys <= leases.Keys
    ensures r.pending.Success? ==> |r.pending.value| == |ids|
    decreases |ids|
  {
    if |ids| == 0 then LevelPrep(leases, Success([]), [])
    else
      match Lookup(tasks, ids[0])
      case None => LevelPrep(leases, Failure(UnknownTask(ids[0])), [])
      case Some(t) =>
        var p := Prepare(tr, leases, t, now);
        if p.pending.Failure? then LevelPrep(p.leases, Failure(p.pending.error), p.trace)
        else
          var rest := PrepareLevel(tr, p.leases, tasks, ids[1..], now);
          var pending := if rest.pending.Success? then Success([p.pending.value] + rest.pending.value) else rest.pending;
          LevelPrep(rest.leases, pending, p.trace + rest.trace)
  }

  /** A level is prepared exactly when all its tasks are preparable, and then yields their calls in order. */
  lemma {:induction false} PrepareLevelSucceeds(tr: T.Transformer, leases: L.LeaseStore, tasks: seq<WorkflowTask>, ids: seq<string>, now: L.Time)
    ensures var r := PrepareLevel(tr, leases, tasks, ids, now);
      r.pending.Success? <==> forall k :: 0 <= k < |ids| ==> Preparable(tr, tasks, ids[k])
    ensures var r := PrepareLevel(tr, leases, tasks, ids, now);
      r.pending.Success? ==> (|r.pending.value| == |ids| &&
        forall k :: 0 <= k < |ids| ==> r.pending.value[k] == PendingOf(tr, tasks, ids[k]))
    decreases |ids|
  {
    if |ids| > 0 {
      match Lookup(tasks, ids[0])
      case None =>
      case Some(t) =>
        var p := Prepare(tr, leases, t, now);
        if p.pending.Success? {
          PrepareLevelSucceeds(tr, p.leases, tasks, ids[1..], now);
          assert forall k :: 1 <= k < |ids| ==> ids[k] == ids[1..][k - 1];
        }
    }
  }

  /** Preparing a level takes and releases locks in pairs, and neither calls a worker nor raises the cascade. */
  lemma {:induction false} PrepareLevelTrace(tr: T.Transformer, leases: L.LeaseStore, tasks: seq<WorkflowTask>, ids: seq<string>, now: L.Time)
    ensures var r := PrepareLevel(tr, leases, tasks, ids, now);
      Bracketed(LockOps(r.trace)) && NoCalls(r.trace) && NoCascade(r.trace)
    decreases |ids|
  {
    if |ids| > 0 {
      match Lookup(tasks, ids[0])
      case None =>
      case Some(t) =>
        var p := Prepare(tr, leases, t, now);
        if p.pending.Success? {
          PrepareLevelTrace(tr, p.leases, tasks, ids[1..], now);
          PreparationJoin(p.trace, PrepareLevel(tr, p.leases, tasks, ids[1..], now).trace);
        }
    }
  }

  /** Two preparation traces in a row form one. */
  lemma PreparationJoin(a: seq<Event>, b: seq<Event>)
    requires Bracketed(LockOps(a)) && NoCalls(a) && NoCascade(a)
    requires Bracketed(LockOps(b)) && NoCalls(b) && NoCascade(b)
    ensures Bracketed(LockOps(a + b)) && NoCalls(a + b) && NoCascade(a + b)
  {
    LockOpsAppend(a, b);
    BracketedAppend(LockOps(a), LockOps(b));
    NoCascadeAppend(a, b);
  }

  /** `asyncio.gather(..., return_exceptions=True)`: the calls run and their outcomes are kept in position. */
  function Gather(conn: C.Connector, worker: C.Worker, ps: seq<Pending>): (r: Gathered)
    ensures |r.results| == |ps| == |r.trace|
    ensures OnlyCalls(r.trace) && NoCascade(r.trace)
    ensures forall k :: 0 <= k < |ps| ==> r.results[k] == C.ExecuteWithRetry(conn, ps[k].agentId, ps[k].payload, worker).result
    ensures forall k :: 0 <= k < |ps| ==>
      r.trace[k] == Called(ps[k].taskId, ps[k].agentId, C.ExecuteWithRetry(conn, ps[k].agentId, ps[k].payload, worker).attempts)
    decreases |ps|
  {
    if |ps| == 0 then Gathered([], [])
    else
      var report := C.ExecuteWithRetry(conn, ps[0].agentId, ps[0].payload, worker);
      var rest := Gather(conn, worker, ps[1..]);
      Gathered([report.result] + rest.results, [Called(ps[0].taskId, ps[0].agentId, report.attempts)] + rest.trace)
  }

  /* ---------------------------------------------------------------- all levels */

  /** The ids of all levels, in execution order. */
  function Flatten(order: seq<seq<string>>): seq<string> {
    if |order| == 0 then [] else order[0] + Flatten(order[1..])
  }

  /** The outer loop of lines 28-54: prepare a level, gather its calls, extend the results. */
  function RunLevels(tr: T.Transformer, conn: C.Connector, leases: L.LeaseStore, tasks: seq<WorkflowTask>,
                     order: seq<seq<string>>, now: L.Time, worker: C.Worker): (r: Run)
    ensures r.leases.Keys <= leases.Keys
    ensures r.results.Success? ==> |r.results.value| == |Flatten(order)|
    decreases |order|
  {
    if |order| == 0 then Run(leases, Success([]), [])
    else
      var lp := PrepareLevel(tr, leases, tasks, order[0], now);
      if lp.pending.Failure? then Run(lp.leases, Failure(lp.pending.error), lp.trace)
      else
        var g := Gather(conn, worker, lp.pending.value);
        var rest := RunLevels(tr, conn, lp.leases, tasks, order[1..], now, worker);
        var results := if rest.results.Success? then Success(g.results + rest.results.value) else rest.results;
        Run(rest.leases, results, lp.trace + g.trace + rest.trace)
  }

  /** The result a task's call produces when it is dispatched on its own. */
  function Dispatch(tr: T.Transformer, conn: C.Connector, tasks: seq<WorkflowTask>, worker: C.Worker, id: string): CallResult
    requires Lookup(tasks, id).Some?
  {
    var p := PendingOf(tr, tasks, id);
    C.ExecuteWithRetry(conn, p.agentId, p.payload, worker).result
  }

  /** The workflow runs to the end exactly when every planned task is preparable; call failures never stop it. */
  lemma {:induction false} RunLevelsSucceeds(tr: T.Transformer, conn: C.Connector, leases: L.LeaseStore, tasks: seq<WorkflowTask>,
                                             order: seq<seq<string>>, now: L.Time, worker: C.Worker)
    ensures RunLevels(tr, conn, leases, tasks, order, now, worker).results.Success? <==>
      ListedPreparable(tr, tasks, Flatten(order))
    decreases |order|
  {
    if |order| > 0 {
      var lp := PrepareLevel(tr, leases, tasks, order[0], now);
      PrepareLevelSucceeds(tr, leases, tasks, order[0], now);
      assert Flatten(order) == order[0] + Flatten(order[1..]);
      if lp.pending.Success? {
        RunLevelsSucceeds(tr, conn, lp.leases, tasks, order[1..], now, worker);
        var rest := Flatten(order[1..]);
        assert forall j :: 0 <= j < |rest| ==> rest[j] == Flatten(order)[j + |order[0]|];
      } else {
        assert RunLevels(tr, conn, leases, tasks, order, now, worker).results.Failure?;
        var k :| 0 <= k < |order[0]| && !Preparable(tr, tasks, order[0][k]);
        assert Flatten(order)[k] == order[0][k];
      }
    }
  }

  /** One result per planned task, in plan order: result `i` is what the `i`-th task's call produced. */
  lemma {:induction false} RunLevelsResults(tr: T.Transformer, conn: C.Connector, leases: L.LeaseStore, tasks: seq<WorkflowTask>,
                                            order: seq<seq<string>>, now: L.Time, worker: C.Worker)
    requires RunLevels(tr, conn, leases, tasks, order, now, worker).results.Success?
    ensures var r := RunLevels(tr, conn, leases, tasks, order, now, worker).results.value;
      && |r| == |Flatten(order)|
      && forall i :: 0 <= i < |r| ==>
           Lookup(tasks, Flatten(order)[i]).Some? && r[i] == Dispatch(tr, conn, tasks, worker, Flatten(order)[i])
    decreases |order|
  {
    if |order| > 0 {
      var lp := PrepareLevel(tr, leases, tasks, order[0], now);
      PrepareLevelSucceeds(tr, leases, tasks, order[0], now);
      var g := Gather(conn, worker, lp.pending.value);
      var rest := RunLevels(tr, conn, lp.leases, tasks, order[1..], now, worker);
      RunLevelsResults(tr, conn, lp.leases, tasks, order[1..], now, worker);
      forall k | 0 <= k < |order[0]|
        ensures Lookup(tasks, order[0][k]).Some? && g.results[k] == Dispatch(tr, conn, tasks, worker, order[0][k])
      {
      }
      JoinResults(tr, conn, tasks, worker, g.results, rest.results.value, order[0], Flatten(order[1..]));
    }
  }

  /** Pointwise agreement with `Dispatch` survives concatenation. */
  lemma JoinResults(tr: T.Transformer, conn: C.Connector, tasks: seq<WorkflowTask>, worker: C.Worker,
                    r1: seq<CallResult>, r2: seq<CallResult>, ids1: seq<string>, ids2: seq<string>)
    requires |r1| == |ids1| && |r2| == |ids2|
    requires forall k :: 0 <= k < |r1| ==> Lookup(tasks, ids1[k]).Some? && r1[k] == Dispatch(tr, conn, tasks, worker, ids1[k])
    requires forall k :: 0 <= k < |r2| ==> Lookup(tasks, ids2[k]).Some? && r2[k] == Dispatch(tr, conn, tasks, worker, ids2[k])
    ensures forall i :: 0 <= i < |r1 + r2| ==>
      Lookup(tasks, (ids1 + ids2)[i]).Some? && (r1 + r2)[i] == Dispatch(tr, conn, tasks, worker, (ids1 + ids2)[i])
  {
    forall i | 0 <= i < |r1 + r2|
      ensures Lookup(tasks, (ids1 + ids2)[i]).Some? && (r1 + r2)[i] == Dispatch(tr, conn, tasks, worker, (ids1 + ids2)[i])
    {
      if i >= |r1| {
        var j := i - |r1|;
        assert (ids1 + ids2)[i] == ids2[j] && (r1 + r2)[i] == r2[j];
      }
    }
  }

  /** Whatever happens, every lock taken is released before the next one is taken. */
  lemma {:induction false} RunLevelsBracketed(tr: T.Transformer, conn: C.Connector, leases: L.LeaseStore, tasks: seq<WorkflowTask>,
                                              order: seq<seq<string>>, now: L.Time, worker: C.Worker)
    ensures Bracketed(LockOps(RunLevels(tr, conn, leases, tasks, order, now, worker).trace))
    decreases |order|
  {
    if |order| > 0 {
      var lp := PrepareLevel(tr, leases, tasks, order[0], now);
      PrepareLevelTrace(tr, leases, tasks, order[0], now);
      if lp.pending.Success? {
        var g := Gather(conn, worker, lp.pending.value);
        var rest := RunLevels(tr, conn, lp.leases, tasks, order[1..], now, worker);
        RunLevelsBracketed(tr, conn, lp.leases, tasks, order[1..], now, worker);
        LevelTraceBracketed(lp.trace, g.trace, rest.trace);
      }
    }
  }

  /** The cascade hook is never called from inside the level loop. */
  lemma {:induction false} RunLevelsNoCascade(tr: T.Transformer, conn: C.Connector, leases: L.LeaseStore, tasks: seq<WorkflowTask>,
                                              order: seq<seq<string>>, now: L.Time, worker: C.Worker)
    ensures NoCascade(RunLevels(tr, conn, leases, tasks, order, now, worker).trace)
    decreases |order|
  {
    if |order| > 0 {
      var lp := PrepareLevel(tr, leases, tasks, order[0], now);
      PrepareLevelTrace(tr, leases, tasks, order[0], now);
      if lp.pending.Success? {
        var g := Gather(conn, worker, lp.pending.value);
        var rest := RunLevels(tr, conn, lp.leases, tasks, order[1..], now, worker);
        RunLevelsNoCascade(tr, conn, lp.leases, tasks, order[1..], now, worker);
        NoCascadeAppend(lp.trace, g.trace);
        NoCascadeAppend(lp.trace + g.trace, rest.trace);
      }
    }
  }

  /** A level's preparation, its calls, then the later levels: the lock pairs stay paired. */
  lemma LevelTraceBracketed(a: seq<Event>, b: seq<Event>, c: seq<Event>)
    requires Bracketed(LockOps(a)) && OnlyCalls(b) && Bracketed(LockOps(c))
    ensures Bracketed(LockOps(a + b + c))
  {
    LockOpsAppend(a, b);
    LockOpsAppend(a + b, c);
    LockOpsNoneWithoutLocks(b);
    assert LockOps(a + b + c) == LockOps(a) + LockOps(c);
    BracketedAppend(LockOps(a), LockOps(c));
  }

  /** The cascade event is no lock operation. */
  lemma AppendCascade(trace: seq<Event>, ev: Event)
    requires ev.CascadeHandled?
    ensures LockOps(trace + [ev]) == LockOps(trace)
  {
    LockOpsAppend(trace, [ev]);
    assert LockOps([ev]) == [] + LockOps([ev][1..]);
    assert [ev][1..] == [];
  }

  lemma NoCascadeAppend(a: seq<Event>, b: seq<Event>)
    requires NoCascade(a) && NoCascade(b)
    ensures NoCascade(a + b)
  {
    forall i | 0 <= i < |a + b|
      ensures !(a + b)[i].CascadeHandled?
    {
      if i >= |a| {
        assert (a + b)[i] == b[i - |a|];
      }
    }
  }

  /** A trace of calls only holds no lock operation. */
  lemma {:induction false} LockOpsNoneWithoutLocks(trace: seq<Event>)
    requires OnlyCalls(trace)
    ensures LockOps(trace) == []
    decreases |trace|
  {
    if |trace| > 0 {
      LockOpsNoneWithoutLocks(trace[1..]);
    }
  }

  /* ---------------------------------------------------------------- the workflow */

  /** The planner's view of the workflow's tasks. */
  function PlanTasks(tasks: seq<WorkflowTask>): (r: seq<P.PlanTask>)
    ensures |r| == |tasks| && forall i :: 0 <= i < |tasks| ==> r[i] == P.PlanTask(tasks[i].id, tasks[i].dependencies)
  {
    seq(|tasks|, i requires 0 <= i < |tasks| => P.PlanTask(tasks[i].id, tasks[i].dependencies))
  }

  /** `xs` lists every element of `s` exactly once: one iteration order of the set. */
  predicate Enumerates(xs: seq<string>, s: set<string>) {
    && (forall i, j :: 0 <= i < j < |xs| ==> xs[i] != xs[j])
    && (forall x :: x in xs ==> x in s)
    && (forall x :: x in s ==> x in xs)
  }

  /** `order` iterates the levels of `levels`, one by one. */
  predicate Linearizes(order: seq<seq<string>>, levels: seq<set<string>>) {
    |order| == |levels| && forall k :: 0 <= k < |order| ==> Enumerates(order[k], levels[k])
  }

  /** The plan `execute_workflow` computes, with the optimizer it leaves behind. */
  function Plan(e: Engine, wf: Workflow): P.PlanOutcome {
    P.OptimizeExecution(e.optimizer, PlanTasks(wf.tasks))
  }

  /**
   * `execute_workflow` (lines 20-61), with `order` the iteration order of the
   * plan's level sets and `now` the clock reading of every lease operation.
   */
  function ExecuteWorkflow(e: Engine, wf: Workflow, now: L.Time, worker: C.Worker, order: seq<seq<string>>): (r: Outcome)
    requires Plan(e, wf).levels.Success? ==> Linearizes(order, Plan(e, wf).levels.value)
    ensures r.engine.optimizer == Plan(e, wf).optimizer
    ensures r.engine.transformer == e.transformer && r.engine.connector == e.connector
    ensures Plan(e, wf).levels.Failure? ==>
      r.results == Failure(PlanFailed(P.CircularDependency)) &&
      r.trace == [CascadeHandled(wf.id, "Circular dependency detected")]
    ensures r.results.Failure? ==>
      |r.trace| > 0 && r.trace[|r.trace| - 1] == CascadeHandled(wf.id, ErrorMessage(r.results.error)) &&
      NoCascade(r.trace[..|r.trace| - 1])
    ensures r.results.Success? ==> NoCascade(r.trace)
    ensures Bracketed(LockOps(r.trace))
  {
    var plan := Plan(e, wf);
    var planned := e.(optimizer := plan.optimizer);
    if plan.levels.Failure? then
      var error := PlanFailed(plan.levels.error);
      assert plan.levels.error.CircularDependency?;
      AppendCascade([], CascadeHandled(wf.id, ErrorMessage(error)));
      Outcome(planned, Failure(error), [CascadeHandled(wf.id, ErrorMessage(error))])
    else
      var run := RunLevels(e.transformer, e.connector, e.leases, wf.tasks, order, now, worker);
      RunLevelsBracketed(e.transformer, e.connector, e.leases, wf.tasks, order, now, worker);
      RunLevelsNoCascade(e.transformer, e.connector, e.leases, wf.tasks, order, now, worker);
      var finished := planned.(leases := run.leases);
      if run.results.Success? then Outcome(finished, run.results, run.trace)
      else
        var trace := run.trace + [CascadeHandled(wf.id, ErrorMessage(run.results.error))];
        assert trace[..|trace| - 1] == run.trace;
        AppendCascade(run.trace, CascadeHandled(wf.id, ErrorMessage(run.results.error)));
        Outcome(finished, run.results, trace)
  }

  /* ---------------------------------------------------------------- iterating the plan */

  lemma LinearizesTail(order: seq<seq<string>>, levels: seq<set<string>>)
    requires Linearizes(order, levels) && |order| > 0
    ensures Linearizes(order[1..], levels[1..])
  {
    assert forall k :: 0 <= k < |order| - 1 ==> order[1..][k] == order[k + 1] && levels[1..][k] == levels[k + 1];
  }

  /** Iterating every level visits exactly the planned nodes. */
  lemma {:induction false} FlattenMembers(order: seq<seq<string>>, levels: seq<set<string>>)
    requires Linearizes(order, levels)
    ensures forall x :: x in Flatten(order) <==> x in P.UnionOf(levels)
    decreases |order|
  {
    if |order| > 0 {
      LinearizesTail(order, levels);
      FlattenMembers(order[1..], levels[1..]);
      assert Enumerates(order[0], levels[0]);
    }
  }

  /** Iterating disjoint levels visits no node twice. */
  lemma {:induction false} FlattenDistinct(order: seq<seq<string>>, levels: seq<set<string>>)
    requires Linearizes(order, levels) && P.Disjoint(levels)
    ensures forall i, j :: 0 <= i < j < |Flatten(order)| ==> Flatten(order)[i] != Flatten(order)[j]
    decreases |order|
  {
    if |order| > 0 {
      var F, head, tail := Flatten(order), order[0], Flatten(order[1..]);
      assert F == head + tail;
      LinearizesTail(order, levels);
      assert P.Disjoint(levels[1..]) by {
        assert forall k :: 0 <= k < |levels| - 1 ==> levels[1..][k] == levels[k + 1];
      }
      FlattenDistinct(order[1..], levels[1..]);
      FlattenMembers(order[1..], levels[1..]);
      assert Enumerates(head, levels[0]);
      forall i, j | 0 <= i < j < |F|
        ensures F[i] != F[j]
      {
        if i < |head| <= j {
          var x := tail[j - |head|];
          assert F[j] == x && x in tail;
          P.InUnion(levels[1..], x);
          var k :| 0 <= k < |levels[1..]| && x in levels[1..][k];
          assert x in levels[k + 1] && F[i] in levels[0];
        } else if |head| <= i {
          assert F[i] == tail[i - |head|] && F[j] == tail[j - |head|];
        }
      }
    }
  }

  /** A node visited after the first level belongs to a later level, not to the first. */
  lemma LaterLevelNode(order: seq<seq<string>>, levels: seq<set<string>>, x: string)
    requires Linearizes(order, levels) && P.Disjoint(levels) && |order| > 0
    requires x in Flatten(order[1..])
    ensures x !in levels[0]
  {
    LinearizesTail(order, levels);
    FlattenMembers(order[1..], levels[1..]);
    P.InUnion(levels[1..], x);
    var k :| 0 <= k < |levels[1..]| && x in levels[1..][k];
    assert x in levels[k + 1] && levels[0] !! levels[k + 1];
  }

  /** A node of an earlier level is visited before a node of a later level. */
  lemma {:induction false} FlattenLevelOrder(order: seq<seq<string>>, levels: seq<set<string>>, i: nat, j: nat, a: nat, b: nat)
    requires Linearizes(order, levels) && P.Disjoint(levels)
    requires i < |Flatten(order)| && j < |Flatten(order)| && a < b < |levels|
    requires Flatten(order)[i] in levels[a] && Flatten(order)[j] in levels[b]
    ensures i < j
    decreases |order|
  {
    var F, head, tail := Flatten(order), order[0], Flatten(order[1..]);
    assert F == head + tail;
    assert Enumerates(head, levels[0]);
    if |head| <= i {
      LinearizesTail(order, levels);
      FlattenMembers(order[1..], levels[1..]);
      assert F[i] == tail[i - |head|] && F[j] == tail[j - |head|];
      if a == 0 {
        LaterLevelNode(order, levels, F[i]);
      } else {
        assert P.Disjoint(levels[1..]) by {
          assert forall k :: 0 <= k < |levels| - 1 ==> levels[1..][k] == levels[k + 1];
        }
        assert tail[i - |head|] in levels[1..][a - 1] && tail[j - |head|] in levels[1..][b - 1];
        FlattenLevelOrder(order[1..], levels[1..], i - |head|, j - |head|, a - 1, b - 1);
      }
    }
  }

  /* ---------------------------------------------------------------- what a run promises */

  /** Once planned, the workflow's results are those of the level loop. */
  lemma ExecuteRunsLevels(e: Engine, wf: Workflow, now: L.Time, worker: C.Worker, order: seq<seq<string>>)
    requires Plan(e, wf).levels.Success? && Linearizes(order, Plan(e, wf).levels.value)
    ensures ExecuteWorkflow(e, wf, now, worker, order).results ==
      RunLevels(e.transformer, e.connector, e.leases, wf.tasks, order, now, worker).results
  {
  }

  /** When the iteration visits exactly `nodes`, the level loop completes exactly when each of them is a preparable task. */
  lemma RunLevelsSucceedsOn(tr: T.Transformer, conn: C.Connector, leases: L.LeaseStore, tasks: seq<WorkflowTask>,
                            order: seq<seq<string>>, now: L.Time, worker: C.Worker, nodes: set<string>)
    requires forall n :: n in Flatten(order) <==> n in nodes
    ensures RunLevels(tr, conn, leases, tasks, order, now, worker).results.Success? <==>
      NodesPreparable(tr, tasks, nodes)
  {
    RunLevelsSucceeds(tr, conn, leases, tasks, order, now, worker);
    AllPreparable(tr, tasks, Flatten(order), nodes);
  }

  /** Iterating the plan visits exactly the nodes of the accumulated graph. */
  lemma PlanVisitsEveryNode(e: Engine, wf: Workflow, order: seq<seq<string>>)
    requires Plan(e, wf).levels.Success? && Linearizes(order, Plan(e, wf).levels.value)
    ensures forall n :: n in Flatten(order) <==> n in Plan(e, wf).optimizer.graph.nodes
  {
    P.PlanIsLayering(e.optimizer, PlanTasks(wf.tasks));
    FlattenMembers(order, Plan(e, wf).levels.value);
  }

  lemma AllPreparable(tr: T.Transformer, tasks: seq<WorkflowTask>, ids: seq<string>, nodes: set<string>)
    requires forall n :: n in ids <==> n in nodes
    ensures ListedPreparable(tr, tasks, ids) <==> NodesPreparable(tr, tasks, nodes)
  {
    if ListedPreparable(tr, tasks, ids) {
      forall n | n in nodes
        ensures Preparable(tr, tasks, n)
      {
        var i :| 0 <= i < |ids| && ids[i] == n;
      }
    }
  }

  /** The workflow completes exactly when planning succeeds and every planned node is a preparable task. */
  lemma WorkflowSucceedsIff(e: Engine, wf: Workflow, now: L.Time, worker: C.Worker, order: seq<seq<string>>)
    requires Plan(e, wf).levels.Success? ==> Linearizes(order, Plan(e, wf).levels.value)
    ensures ExecuteWorkflow(e, wf, now, worker, order).results.Success? <==>
      Plan(e, wf).levels.Success? &&
      forall n :: n in Plan(e, wf).optimizer.graph.nodes ==> Preparable(e.transformer, wf.tasks, n)
  {
    var plan := Plan(e, wf);
    if plan.levels.Success? {
      ExecuteRunsLevels(e, wf, now, worker, order);
      PlanVisitsEveryNode(e, wf, order);
      RunLevelsSucceedsOn(e.transformer, e.connector, e.leases, wf.tasks, order, now, worker, plan.optimizer.graph.nodes);
    }
  }

  /**
   * A completed run returns one result per planned node: the iteration visits
   * every node of the accumulated graph exactly once, and result `i` is what
   * the call of the `i`-th visited task produced.
   */
  lemma WorkflowResults(e: Engine, wf: Workflow, now: L.Time, worker: C.Worker, order: seq<seq<string>>)
    requires Plan(e, wf).levels.Success? ==> Linearizes(order, Plan(e, wf).levels.value)
    requires ExecuteWorkflow(e, wf, now, worker, order).results.Success?
    ensures var F := Flatten(order);
      && (forall x :: x in F <==> x in Plan(e, wf).optimizer.graph.nodes)
      && (forall i, j :: 0 <= i < j < |F| ==> F[i] != F[j])
    ensures var F := Flatten(order);
      var r := ExecuteWorkflow(e, wf, now, worker, order).results.value;
      |r| == |F| &&
      forall i :: 0 <= i < |r| ==>
        Lookup(wf.tasks, F[i]).Some? && r[i] == Dispatch(e.transformer, e.connector, wf.tasks, worker, F[i])
  {
    var plan := Plan(e, wf);
    P.PlanIsLayering(e.optimizer, PlanTasks(wf.tasks));
    FlattenMembers(order, plan.levels.value);
    FlattenDistinct(order, plan.levels.value);
    RunLevelsResults(e.transformer, e.connector, e.leases, wf.tasks, order, now, worker);
  }

  /** Results respect the dependencies: a dependency's result comes before its dependent's. */
  lemma WorkflowRespectsDependencies(e: Engine, wf: Workflow, now: L.Time, worker: C.Worker, order: seq<seq<string>>, i: nat, j: nat)
    requires Plan(e, wf).levels.Success? && Linearizes(order, Plan(e, wf).levels.value)
    requires i < |Flatten(order)| && j < |Flatten(order)|
    requires (Flatten(order)[i], Flatten(order)[j]) in Plan(e, wf).optimizer.graph.edges
    ensures i < j
  {
    var plan := Plan(e, wf);
    var levels := plan.levels.value;
    var F := Flatten(order);
    P.PlanIsLayering(e.optimizer, PlanTasks(wf.tasks));
    FlattenMembers(order, levels);
    P.InUnion(levels, F[i]);
    P.InUnion(levels, F[j]);
    var a :| 0 <= a < |levels| && F[i] in levels[a];
    var b :| 0 <= b < |levels| && F[j] in levels[b];
    assert a < b;
    FlattenLevelOrder(order, levels, i, j, a, b);
  }

  /* ---------------------------------------------------------------- failures */

  /** The level loop only raises task errors: unknown ids, missing fields, unregistered schemas. */
  lemma {:induction false} RunLevelsRaisesTaskErrors(tr: T.Transformer, conn: C.Connector, leases: L.LeaseStore, tasks: seq<WorkflowTask>,
                                                     order: seq<seq<string>>, now: L.Time, worker: C.Worker)
    ensures var r := RunLevels(tr, conn, leases, tasks, order, now, worker);
      r.results.Failure? ==> !r.results.error.PlanFailed?
    decreases |order|
  {
    if |order| > 0 {
      var lp := PrepareLevel(tr, leases, tasks, order[0], now);
      PrepareLevelRaisesTaskErrors(tr, leases, tasks, order[0], now);
      if lp.pending.Success? {
        RunLevelsRaisesTaskErrors(tr, conn, lp.leases, tasks, order[1..], now, worker);
      }
    }
  }

  lemma {:induction false} PrepareLevelRaisesTaskErrors(tr: T.Transformer, leases: L.LeaseStore, tasks: seq<WorkflowTask>, ids: seq<string>, now: L.Time)
    ensures var r := PrepareLevel(tr, leases, tasks, ids, now);
      r.pending.Failure? ==> !r.pending.error.PlanFailed?
    decreases |ids|
  {
    if |ids| > 0 {
      match Lookup(tasks, ids[0])
      case None =>
      case Some(t) =>
        var p := Prepare(tr, leases, t, now);
        if p.pending.Success? {
          PrepareLevelRaisesTaskErrors(tr, p.leases, tasks, ids[1..], now);
        }
    }
  }

  /**
   * With a well-formed starting graph, a dependency cycle in the accumulated
   * graph is exactly what makes the workflow fail with the planner's error;
   * the cascade hook then gets its message and no lease or call happens.
   */
  lemma CycleAbortsWorkflow(e: Engine, wf: Workflow, now: L.Time, worker: C.Worker, order: seq<seq<string>>)
    requires P.WellFormed(e.optimizer.graph)
    requires Plan(e, wf).levels.Success? ==> Linearizes(order, Plan(e, wf).levels.value)
    ensures (exists c :: P.IsCycle(Plan(e, wf).optimizer.graph, c)) <==>
      ExecuteWorkflow(e, wf, now, worker, order).results == Failure(PlanFailed(P.CircularDependency))
    ensures (exists c :: P.IsCycle(Plan(e, wf).optimizer.graph, c)) ==>
      ExecuteWorkflow(e, wf, now, worker, order).trace == [CascadeHandled(wf.id, "Circular dependency detected")]
  {
    P.PlanFailsIffCycle(e.optimizer, PlanTasks(wf.tasks));
    if Plan(e, wf).levels.Success? {
      ExecuteRunsLevels(e, wf, now, worker, order);
      RunLevelsRaisesTaskErrors(e.transformer, e.connector, e.leases, wf.tasks, order, now, worker);
    }
  }

  /* ---------------------------------------------------------------- what does not matter */

  /** The lease store and the clock never change what a level yields: the acquire's answer is ignored. */
  lemma {:induction false} PrepareLevelIgnoresLeases(tr: T.Transformer, l1: L.LeaseStore, l2: L.LeaseStore, tasks: seq<WorkflowTask>,
                                                     ids: seq<string>, now1: L.Time, now2: L.Time)
    ensures PrepareLevel(tr, l1, tasks, ids, now1).pending == PrepareLevel(tr, l2, tasks, ids, now2).pending
    decreases |ids|
  {
    if |ids| > 0 {
      match Lookup(tasks, ids[0])
      case None =>
      case Some(t) =>
        var p1 := Prepare(tr, l1, t, now1);
        var p2 := Prepare(tr, l2, t, now2);
        assert p1.pending == p2.pending;
        if p1.pending.Success? {
          PrepareLevelIgnoresLeases(tr, p1.leases, p2.leases, tasks, ids[1..], now1, now2);
        }
    }
  }

  lemma {:induction false} RunLevelsIgnoresLeases(tr: T.Transformer, conn: C.Connector, l1: L.LeaseStore, l2: L.LeaseStore,
                                                  tasks: seq<WorkflowTask>, order: seq<seq<string>>, now1: L.Time, now2: L.Time, worker: C.Worker)
    ensures RunLevels(tr, conn, l1, tasks, order, now1, worker).results == RunLevels(tr, conn, l2, tasks, order, now2, worker).results
    decreases |order|
  {
    if |order| > 0 {
      var lp1 := PrepareLevel(tr, l1, tasks, order[0], now1);
      var lp2 := PrepareLevel(tr, l2, tasks, order[0], now2);
      PrepareLevelIgnoresLeases(tr, l1, l2, tasks, order[0], now1, now2);
      if lp1.pending.Success? {
        RunLevelsIgnoresLeases(tr, conn, lp1.leases, lp2.leases, tasks, order[1..], now1, now2, worker);
      }
    }
  }

  /** Leases held by anyone, at any time, change nothing in the workflow's results. */
  lemma WorkflowIgnoresLeases(e: Engine, wf: Workflow, leases: L.LeaseStore, now1: L.Time, now2: L.Time, worker: C.Worker,
                              order: seq<seq<string>>)
    requires Plan(e, wf).levels.Success? ==> Linearizes(order, Plan(e, wf).levels.value)
    ensures ExecuteWorkflow(e, wf, now1, worker, order).results ==
      ExecuteWorkflow(e.(leases := leases), wf, now2, worker, order).results
  {
    if Plan(e, wf).levels.Success? {
      ExecuteRunsLevels(e, wf, now1, worker, order);
      ExecuteRunsLevels(e.(leases := leases), wf, now2, worker, order);
      RunLevelsIgnoresLeases(e.transformer, e.connector, e.leases, leases, wf.tasks, order, now1, now2, worker);
    }
  }

  /** Failed calls are results, not exceptions: what the worker does never decides whether the workflow completes. */
  lemma CallFailuresDoNotAbort(e: Engine, wf: Workflow, now: L.Time, w1: C.Worker, w2: C.Worker, order: seq<seq<string>>)
    requires Plan(e, wf).levels.Success? ==> Linearizes(order, Plan(e, wf).levels.value)
    ensures ExecuteWorkflow(e, wf, now, w1, order).results.Success? <==> ExecuteWorkflow(e, wf, now, w2, order).results.Success?
    ensures ExecuteWorkflow(e, wf, now, w1, order).results.Success? ==>
      |ExecuteWorkflow(e, wf, now, w1, order).results.value| == |ExecuteWorkflow(e, wf, now, w2, order).results.value|
  {
    WorkflowSucceedsIff(e, wf, now, w1, order);
    WorkflowSucceedsIff(e, wf, now, w2, order);
    if ExecuteWorkflow(e, wf, now, w1, order).results.Success? {
      WorkflowResults(e, wf, now, w1, order);
      WorkflowResults(e, wf, now, w2, order);
    }
  }

  /* ---------------------------------------------------------------- which leases are taken */

  /** The resources of the acquire events of a trace, in order. */
  function Acquires(trace: seq<Event>): seq<string> {
    if |trace| == 0 then []
    else (if trace[0].LockAcquired? then [trace[0].resource] else []) + Acquires(trace[1..])
  }

  /** The resources named by the tasks `ids`, in order; tasks without one contribute nothing. */
  function ResourcesOf(tasks: seq<WorkflowTask>, ids: seq<string>): seq<string> {
    if |ids| == 0 then []
    else
      var own := match Lookup(tasks, ids[0])
        case Some(t) => (if ResourceOf(t).Some? then [ResourceOf(t).value] else [])
        case None => [];
      own + ResourcesOf(tasks, ids[1..])
  }

  lemma {:induction false} AcquiresAppend(a: seq<Event>, b: seq<Event>)
    ensures Acquires(a + b) == Acquires(a) + Acquires(b)
    decreases |a|
  {
    if |a| == 0 {
      assert a + b == b;
    } else {
      assert (a + b)[1..] == a[1..] + b;
      AcquiresAppend(a[1..], b);
    }
  }

  lemma {:induction false} ResourcesOfAppend(tasks: seq<WorkflowTask>, a: seq<string>, b: seq<string>)
    ensures ResourcesOf(tasks, a + b) == ResourcesOf(tasks, a) + ResourcesOf(tasks, b)
    decreases |a|
  {
    if |a| == 0 {
      assert a + b == b;
    } else {
      assert (a + b)[1..] == a[1..] + b;
      ResourcesOfAppend(tasks, a[1..], b);
    }
  }

  lemma {:induction false} AcquiresNoneInCalls(trace: seq<Event>)
    requires OnlyCalls(trace)
    ensures Acquires(trace) == []
    decreases |trace|
  {
    if |trace| > 0 {
      AcquiresNoneInCalls(trace[1..]);
    }
  }

  /** One task takes the lease of its resource, and only that one. */
  lemma PrepareAcquires(tr: T.Transformer, leases: L.LeaseStore, t: WorkflowTask, now: L.Time)
    ensures Acquires(Prepare(tr, leases, t, now).trace) == if ResourceOf(t).Some? then [ResourceOf(t).value] else []
  {
    var payload := TransformTask(tr, t);
    var transformed := if payload.Success? then [Transformed(t.id)] else [];
    assert Acquires(transformed) == [];
    match ResourceOf(t)
    case None =>
    case Some(res) =>
      var acquired := L.Acquire(leases, res, now);
      var head := [LockAcquired(res, acquired.granted)];
      AcquiresAppend(head + transformed, [LockReleased(res)]);
      AcquiresAppend(head, transformed);
      assert Acquires([LockReleased(res)]) == [];
  }

  lemma {:induction false} PrepareLevelAcquires(tr: T.Transformer, leases: L.LeaseStore, tasks: seq<WorkflowTask>, ids: seq<string>, now: L.Time)
    requires PrepareLevel(tr, leases, tasks, ids, now).pending.Success?
    ensures Acquires(PrepareLevel(tr, leases, tasks, ids, now).trace) == ResourcesOf(tasks, ids)
    decreases |ids|
  {
    if |ids| > 0 {
      var t := Lookup(tasks, ids[0]).value;
      var p := Prepare(tr, leases, t, now);
      var rest := PrepareLevel(tr, p.leases, tasks, ids[1..], now);
      PrepareAcquires(tr, leases, t, now);
      PrepareLevelAcquires(tr, p.leases, tasks, ids[1..], now);
      AcquiresAppend(p.trace, rest.trace);
    }
  }

  lemma {:induction false} RunLevelsAcquires(tr: T.Transformer, conn: C.Connector, leases: L.LeaseStore, tasks: seq<WorkflowTask>,
                                             order: seq<seq<string>>, now: L.Time, worker: C.Worker)
    requires RunLevels(tr, conn, leases, tasks, order, now, worker).results.Success?
    ensures Acquires(RunLevels(tr, conn, leases, tasks, order, now, worker).trace) == ResourcesOf(tasks, Flatten(order))
    decreases |order|
  {
    if |order| > 0 {
      var lp := PrepareLevel(tr, leases, tasks, order[0], now);
      var g := Gather(conn, worker, lp.pending.value);
      var rest := RunLevels(tr, conn, lp.leases, tasks, order[1..], now, worker);
      PrepareLevelAcquires(tr, leases, tasks, order[0], now);
      RunLevelsAcquires(tr, conn, lp.leases, tasks, order[1..], now, worker);
      LevelAcquiresJoin(tasks, lp.trace, g.trace, rest.trace, order[0], Flatten(order[1..]));
    }
  }

  /** A level's preparation, its calls, then the later levels: the acquires line up with the visited tasks. */
  lemma LevelAcquiresJoin(tasks: seq<WorkflowTask>, a: seq<Event>, b: seq<Event>, c: seq<Event>, ids: seq<string>, later: seq<string>)
    requires Acquires(a) == ResourcesOf(tasks, ids) && OnlyCalls(b) && Acquires(c) == ResourcesOf(tasks, later)
    ensures Acquires(a + b + c) == ResourcesOf(tasks, ids + later)
  {
    AcquiresAppend(a, b);
    AcquiresAppend(a + b, c);
    AcquiresNoneInCalls(b);
    ResourcesOfAppend(tasks, ids, later);
  }

  /**
   * A completed run takes one lease per visited task that names a resource,
   * in visiting order, and each is released before the next is taken.
   */
  lemma WorkflowLeases(e: Engine, wf: Workflow, now: L.Time, worker: C.Worker, order: seq<seq<string>>)
    requires Plan(e, wf).levels.Success? ==> Linearizes(order, Plan(e, wf).levels.value)
    requires ExecuteWorkflow(e, wf, now, worker, order).results.Success?
    ensures Acquires(ExecuteWorkflow(e, wf, now, worker, order).trace) == ResourcesOf(wf.tasks, Flatten(order))
    ensures Bracketed(LockOps(ExecuteWorkflow(e, wf, now, worker, order).trace))
  {
    RunLevelsAcquires(e.transformer, e.connector, e.leases, wf.tasks, order, now, worker);
  }

  /* ---------------------------------------------------------------- inside one level */

  /**
   * Within a level, every lease is taken and released before any call runs:
   * the level's trace opens with its preparation (paired lock operations and
   * transforms, no call), followed by one call per task in iteration order.
   */
  lemma LevelCallsAfterReleases(tr: T.Transformer, conn: C.Connector, leases: L.LeaseStore, tasks: seq<WorkflowTask>,
                                order: seq<seq<string>>, now: L.Time, worker: C.Worker)
    requires |order| > 0 && PrepareLevel(tr, leases, tasks, order[0], now).pending.Success?
    ensures var trace := RunLevels(tr, conn, leases, tasks, order, now, worker).trace;
      var n := |PrepareLevel(tr, leases, tasks, order[0], now).trace|;
      && n + |order[0]| <= |trace|
      && NoCalls(trace[..n]) && Bracketed(LockOps(trace[..n]))
      && forall k :: 0 <= k < |order[0]| ==> trace[n + k].Called? && trace[n + k].taskId == order[0][k]
  {
    var lp := PrepareLevel(tr, leases, tasks, order[0], now);
    PrepareLevelTrace(tr, leases, tasks, order[0], now);
    PrepareLevelSucceeds(tr, leases, tasks, order[0], now);
    var g := Gather(conn, worker, lp.pending.value);
    var rest := RunLevels(tr, conn, lp.leases, tasks, order[1..], now, worker);
    assert forall k :: 0 <= k < |order[0]| ==> g.trace[k].Called? && g.trace[k].taskId == order[0][k];
    PreparationThenCalls(lp.trace, g.trace, rest.trace, order[0]);
  }

  lemma PreparationThenCalls(a: seq<Event>, b: seq<Event>, c: seq<Event>, ids: seq<string>)
    requires NoCalls(a) && Bracketed(LockOps(a)) && |b| == |ids|
    requires forall k :: 0 <= k < |ids| ==> b[k].Called? && b[k].taskId == ids[k]
    ensures var trace := a + b + c;
      && |a| + |ids| <= |trace|
      && NoCalls(trace[..|a|]) && Bracketed(LockOps(trace[..|a|]))
      && forall k :: 0 <= k < |ids| ==> trace[|a| + k].Called? && trace[|a| + k].taskId == ids[k]
  {
    var trace := a + b + c;
    assert trace[..|a|] == a;
    forall k | 0 <= k < |ids|
      ensures trace[|a| + k] == b[k]
    {
    }
  }

  /* ---------------------------------------------------------------- choosing an iteration order */

  /** Some iteration order of a set: every element once. */
  method Enumerate(s: set<string>) returns (xs: seq<string>)
    ensures Enumerates(xs, s)
  {
    xs := [];
    var rest := s;
    while rest != {}
      invariant rest <= s
      invariant forall i, j :: 0 <= i < j < |xs| ==> xs[i] != xs[j]
      invariant forall x :: x in xs ==> x in s && x !in rest
      invariant forall x :: x in s ==> x in xs || x in rest
      decreases rest
    {
      var x :| x in rest;
      xs := xs + [x];
      rest := rest - {x};
    }
  }

  /**
   * `execute_workflow` with the iteration order left to the set: plan, pick an
   * order for every level, and run.  The order chosen is returned with the outcome.
   */
  method Execute(e: Engine, wf: Workflow, now: L.Time, worker: C.Worker) returns (r: Outcome, order: seq<seq<string>>)
    ensures Plan(e, wf).levels.Success? ==> Linearizes(order, Plan(e, wf).levels.value)
    ensures r == ExecuteWorkflow(e, wf, now, worker, order)
  {
    var plan := Plan(e, wf);
    order := [];
    if plan.levels.Success? {
      var levels := plan.levels.value;
      var k := 0;
      while k < |levels|
        invariant 0 <= k <= |levels|
        invariant |order| == k && forall i :: 0 <= i < k ==> Enumerates(order[i], levels[i])
      {
        var xs := Enumerate(levels[k]);
        order := order + [xs];
        k := k + 1;
      }
    }
    r := ExecuteWorkflow(e, wf, now, worker, order);
  }

  /* ---------------------------------------------------------------- the code as written */

  /** The exception the `except` clause ends with: its call to the undefined cascade hook fails. */
  const MissingHookError := "AttributeError: 'EnhancedOrchestrator' object has no attribute '_handle_failure_cascade'"

  /**
   * `execute_workflow` exactly as written.  `_resource_lock` lacks its
   * context-manager decorator, so the first `async with` raises a `TypeError`
   * before any lease, transform or call; and every exception that reaches the
   * `except` clause is replaced by the `AttributeError` of the undefined
   * cascade hook.  Only a plan without levels gets through the loop.
   */
  function ExecuteWorkflowAsWritten(e: Engine, wf: Workflow): (r: Result<seq<CallResult>, string>)
    ensures r.Success? <==> Plan(e, wf).levels == Success([])
    ensures r.Success? ==> r.value == []
    ensures r.Failure? ==> r.error == MissingHookError
  {
    var plan := Plan(e, wf);
    if plan.levels.Failure? then Failure(MissingHookError)
    else if plan.levels.value == [] then Success([])
    else Failure(MissingHookError)
  }

  /** As written, a workflow with any task at all fails, whatever the tasks, schemas and workers. */
  lemma AsWrittenFailsWithAnyTask(e: Engine, wf: Workflow)
    requires |wf.tasks| > 0
    ensures ExecuteWorkflowAsWritten(e, wf) == Failure(MissingHookError)
  {
    var plan := Plan(e, wf);
    if plan.levels.Success? {
      P.PlanIsLayering(e.optimizer, PlanTasks(wf.tasks));
      assert PlanTasks(wf.tasks)[0].id in plan.optimizer.graph.nodes;
      assert plan.levels.value != [];
    }
  }
}
