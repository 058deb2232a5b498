# PrsymAgentic workflow engine — a Dafny model

This project models the workflow engine of PrsymAgentic, a multi-agent orchestrator, and proves properties of that model. The engine's parts:

- **Planner** (`PerformanceOptimizer.optimize_execution`). It adds every task and its dependencies to a dependency graph. The graph lives in the optimizer and persists across calls. The planner then peels the graph into levels, Kahn-style: each level is the set of remaining nodes none of whose predecessors remains. When no remaining node qualifies, it fails with "Circular dependency detected".
- **Priority queue** (`QueueManager`). This is one Redis sorted set per agent: ZADD on enqueue, ZPOPMAX on dequeue.
- **Transformer** (`DataTransformer`). It looks up the registered schemas of the source and target agents. Then it maps every payload field through the rule registered under the field's name, or copies the field.
- **Leases** (`DataConsistencyManager`). A lease is taken with SET NX and a 30-second expiry, and released with DELETE.
- **Connector** (`AgentConnector.execute_with_retry`). Its backoff decorator allows at most three tries in total: the first attempt and up to two retries. Each attempt does three things:
  - looks up the agent's config;
  - compares the cached API version with the configured one, and calls a do-nothing hook when they differ;
  - calls the outside worker.
- **Executor** (`EnhancedOrchestrator.execute_workflow`). It plans the workflow, then runs the levels in order. For each task of a level, in turn, it:
  - takes the task's lease, if any;
  - transforms the payload and creates the connector call, both inside the lease's scope;
  - releases the lease when the scope ends.

  Creating the call does not run it. The calls of a level run together at the gather, after all of the level's leases are released, and their outcomes, exceptions included, are kept in position. Any other exception aborts the workflow through the failure-cascade hook.
- **Collaboration** (`CollaborationManager`). It creates task groups and assigns a group round-robin over the idle agents.

The outside world is modelled as parameters:

- The worker behind the connector is a function of agent, payload and attempt number.
- The clock is a parameter `now`, and the uuid of a new task group is a parameter `freshId`.
- Python's iteration order of a set is a parameter `order`. `Executor.Execute` picks one order.

The modules are `Wrappers` and `Values` (shared types), `Planner`, `PriorityQueue`, `Transform`, `Leases`, `Connector`, `Executor` and `Collaboration`.

## Model

| member | source | states |
|---|---|---|
| Planner.AddTask | optimization.py:20-22 | The task's id and every dependency become nodes, and each dependency gets an edge to the task; nothing else is added, and well-formedness is kept |
| Planner.AddTasks | optimization.py:19-22 | After the loop, the nodes are the old ones plus every task id and dependency, and the edges are the old ones plus one edge from each dependency to its task |
| Planner.Ready | optimization.py:30-34 | The available set is drawn from the remaining nodes, and no available node has a predecessor among them |
| Planner.ReadyHoldsEverySource | optimization.py:30-34 | Conversely, every remaining node without a remaining predecessor is available |
| Planner.Levels | optimization.py:28-40 | The loop fails only while nodes remain, and it yields no level exactly when nothing remains |
| Planner.LevelCount | optimization.py:28-40 | Each round removes at least one node, so there are never more levels than nodes |
| Planner.OptimizeExecution | optimization.py:13-42 | The optimizer keeps the accumulated graph (old graph plus the new tasks), so a later call sees it |
| Planner.LevelsAreLayering | optimization.py:26-42 | Successful peeling partitions the remaining nodes into non-empty, disjoint levels; each edge goes from an earlier level to a later one; every node of a later level has a predecessor in the level just before it |
| Planner.PlanIsLayering | optimization.py:13-42 | A successful plan is a layering of the whole accumulated graph, and it is the only one: any other layering equals it |
| Planner.LevelsFailIffCycle | optimization.py:28-37 | Peeling a set of nodes fails exactly when the graph has a cycle inside that set |
| Planner.PlanFailsIffCycle | optimization.py:36-37 | On a well-formed graph, planning raises "Circular dependency detected" exactly when the accumulated graph has a cycle |
| Planner.CycleBlocksPlan | optimization.py:30-37 | No node of a cycle is ever available, so a cycle inside the remaining nodes makes planning fail |
| Planner.SourcesInFirstLevel | optimization.py:30-34 | A remaining node with no remaining predecessor is in the first level |
| Planner.PlanSchedulesEveryDependency | optimization.py:19-42 | Each declared dependency of a task, even one that is not itself a task, is planned in a strictly earlier level than the task |
| Planner.GraphPersistsAcrossCalls | optimization.py:10-26 | Because the graph is never cleared, a node added by an earlier call is planned again by every later successful call |
| Planner.IndependentTaskInFirstLevel | optimization.py:19-34 | On a fresh optimizer, a task without dependencies (under every entry with its id) is in level 0 |
| PriorityQueue.Enqueue | optimization.py:49-55 | The task is in its agent's queue with its priority (default 0); other members and other agents' queues are unchanged |
| PriorityQueue.PopMax | optimization.py:59 | Returns nothing exactly when the sorted set is empty; otherwise a member of highest score |
| PriorityQueue.Dequeue | optimization.py:57-62 | Returns None exactly when the agent's queue is empty; otherwise a highest-priority task, which is removed, while all else stays |
| PriorityQueue.EnqueueOntoEmpty | optimization.py:49-62 | After enqueueing onto an empty queue, that task is the only possible next dequeue |
| PriorityQueue.EnqueueAboveAll | optimization.py:49-62 | A task of strictly higher priority than every queued task is the only possible next dequeue |
| PriorityQueue.ReenqueueAddsNoMember | optimization.py:52-55 | Re-enqueueing a queued task adds no member: the set of members stays the same |
| Transform.ApplyRules | transformation_engine.py:32-45 | The output has exactly the input's fields |
| Transform.TransformData | transformation_engine.py:13-30 | Fails exactly when the source or the target agent has no schema, naming the source first; otherwise keeps the field set, applying the field's rule where one exists and copying otherwise |
| Transform.NoRulesIsIdentity | transformation_engine.py:40-44 | With no rules registered, the transform returns its input |
| Transform.SchemasDoNotAffectOutput | transformation_engine.py:20-30 | The schemas are only looked up: any registered schemas give the same output |
| Transform.UnusedRulesIrrelevant | transformation_engine.py:40-44 | Rules for fields the payload lacks change nothing |
| Transform.RestrictCommutes | transformation_engine.py:40-44 | The transform is field-wise: transforming a selection of fields equals selecting from the transformed payload |
| Transform.IdempotentRules | transformation_engine.py:40-44 | When every rule is idempotent, the whole transform is idempotent |
| Leases.Acquire | transformation_engine.py:52-59 | Granted exactly when no live lease exists; a grant sets the expiry to now + 30 s; a refusal leaves the store unchanged |
| Leases.Release | transformation_engine.py:61-63 | Removes the resource's lease whoever holds it, and leaves every other lease as it was |
| Leases.GrantedLeaseLifetime | transformation_engine.py:50-59 | A granted lease is live for exactly the 30 seconds after the acquire |
| Leases.SecondAcquireRefused | transformation_engine.py:52-59 | While a granted lease is live, a second acquire is refused |
| Leases.AcquireAfterExpiry | transformation_engine.py:52-59 | An expired lease does not block a new acquire |
| Leases.ReleaseIdempotent | transformation_engine.py:61-63 | Releasing twice is the same as releasing once |
| Leases.ReleaseUnheldIsNoOp | transformation_engine.py:61-63 | Releasing a resource without a lease changes nothing |
| Leases.AcquireAfterRelease | transformation_engine.py:52-63 | After a release, acquiring the resource succeeds at any time |
| Leases.OtherResourcesUnaffected | transformation_engine.py:52-63 | Acquire and release of one resource never change whether another resource's lease is live |
| Connector.RegisterAgent | agent_connector.py:24-27 | Stores the config and caches its API version for that agent; other agents' configs and cache entries are unchanged |
| Connector.HandleVersionMismatch | agent_connector.py:43-46 | The hook records one mismatch and calls no worker; it changes nothing else |
| Connector.AttemptOnce | agent_connector.py:32-41 | An unknown agent raises the config KeyError before anything else. Otherwise the worker is called exactly once, last, and its answer is the attempt's outcome. The hook runs once exactly when the cached version differs from the configured one |
| Connector.Retry | agent_connector.py:29-41 | Attempts run in order until one returns or three have run: the result is that of the last attempt, all earlier attempts failed, and a failure uses the whole budget |
| Connector.ExecuteWithRetry | agent_connector.py:29-41 | Success returns the first attempt that returned. Failure happens only after all three attempts raised, and the third error propagates |
| Connector.WorkerCalledOncePerAttempt | agent_connector.py:32-41 | A registered agent's worker is called exactly once per attempt made; an unknown agent's worker is never called |
| Connector.AlwaysFailingWorker | agent_connector.py:29-41 | A worker that always raises is called exactly three times, and its third error surfaces |
| Connector.FirstAttemptSucceeds | agent_connector.py:29-41 | A worker that returns on the first attempt is called once, and its response is the result |
| Connector.UnknownAgentRetried | agent_connector.py:29-32 | An unregistered agent's KeyError is retried: three attempts, no worker call, and the KeyError propagates |
| Connector.RetryBudgetIgnoresConfig | agent_connector.py:12-29 | The configured `retry_attempts` has no effect on the outcome, the attempt count or the trace |
| Connector.MismatchHookHasNoEffect | agent_connector.py:35-46 | A version mismatch changes neither the result nor the attempt count |
| Connector.HookCalledPerMismatchedAttempt | agent_connector.py:35-37 | The hook runs on every attempt while the cache disagrees with the config, and never when they agree |
| Connector.RegisteredAgentHasNoMismatch | agent_connector.py:24-37 | Right after registration the cached version matches, so the hook is not called |
| Executor.Lookup | enhanced_orchestrator.py:24-31 | A planned id names a task of the workflow exactly when some task has that id; the last such task is used |
| Executor.ResourceOf | enhanced_orchestrator.py:65-66 | A lock is taken only for a truthy `resource_id`: absent or empty takes none |
| Executor.TransformTask | enhanced_orchestrator.py:35-39 | A missing `source_agent` or `target_agent` raises first, naming the field; otherwise the result is the transform of the task's data |
| Executor.Prepare | enhanced_orchestrator.py:31-47 | The call is created exactly when the task can be transformed. A task with a resource takes its lease and releases it again, even when the transform raises, and the store ends released. A task without one touches no lease |
| Executor.PrepareLevel | enhanced_orchestrator.py:29-47 | A level leaves no new lease behind, and a prepared level yields one call per id |
| Executor.PrepareLevelSucceeds | enhanced_orchestrator.py:31-47 | A level is prepared exactly when every task in it is preparable, and then it yields one call per task, in iteration order |
| Executor.PrepareLevelTrace | enhanced_orchestrator.py:31-47 | Preparing a level takes and releases leases in pairs, and calls no worker |
| Executor.Gather | enhanced_orchestrator.py:50-53 | One outcome per call, in position; a call that raised is stored as its error, not propagated |
| Executor.RunLevels | enhanced_orchestrator.py:28-54 | The loop leaves no new lease behind, and a completed loop yields one result per visited id |
| Executor.RunLevelsSucceeds | enhanced_orchestrator.py:28-54 | The level loop completes exactly when every planned id is a preparable task; worker failures never stop it |
| Executor.RunLevelsResults | enhanced_orchestrator.py:28-54 | Result `i` is the outcome of dispatching the `i`-th planned task on its own |
| Executor.RunLevelsBracketed | enhanced_orchestrator.py:31-47 | Each lease taken is released before the next one is taken, whether the loop completes or raises |
| Executor.ExecuteWorkflow | enhanced_orchestrator.py:20-61 | A planning failure raises "Circular dependency detected" after only the cascade hook. Any failure ends with one cascade event carrying the workflow id and the message. Success calls no cascade. Leases are always paired. The optimizer keeps the grown graph |
| Executor.WorkflowSucceedsIff | enhanced_orchestrator.py:20-56 | The workflow completes exactly when planning succeeds and every planned node is a preparable task |
| Executor.WorkflowResults | enhanced_orchestrator.py:27-56 | The result list has one entry per planned node. Each node is visited once, and entry `i` is the outcome of the `i`-th visited task's call |
| Executor.WorkflowRespectsDependencies | enhanced_orchestrator.py:25-54 | A dependency's result comes before its dependent's result |
| Executor.CycleAbortsWorkflow | enhanced_orchestrator.py:25-61 | On a well-formed graph, the workflow fails with the planning error exactly when the accumulated graph has a cycle; then nothing but the cascade happens |
| Executor.RunLevelsRaisesTaskErrors | enhanced_orchestrator.py:28-47 | The level loop raises only an unknown id, a missing field or an unregistered schema |
| Executor.WorkflowIgnoresLeases | enhanced_orchestrator.py:33-68 | The acquire's answer is ignored: the lease store and the clock never change the results |
| Executor.CallFailuresDoNotAbort | enhanced_orchestrator.py:50-54 | Whether the workflow completes does not depend on what the worker does, and the number of results does not either |
| Executor.WorkflowLeases | enhanced_orchestrator.py:33-71 | A completed workflow leases exactly the resources of the visited tasks, in visiting order, each released before the next |
| Executor.LevelCallsAfterReleases | enhanced_orchestrator.py:28-53 | Within a level, all lease work comes first and is paired, with no call among it; then comes one call per task, in iteration order |
| Executor.Execute | enhanced_orchestrator.py:20-61 | Chooses an iteration order of every planned level and runs the workflow with it |
| Executor.ExecuteWorkflowAsWritten | enhanced_orchestrator.py:20-72 | As written, a run returns only when the plan has no level, and then returns an empty list; every other run ends in the AttributeError of the missing cascade hook |
| Executor.AsWrittenFailsWithAnyTask | enhanced_orchestrator.py:33-72 | As written, a workflow with any task fails with the AttributeError of the missing cascade hook |
| Collaboration.CreateTaskGroup | collaboration.py:13-18 | The new group is stored under the fresh id, and other groups are unchanged |
| Collaboration.AvailableAgents | collaboration.py:20-25 | An id is available exactly when some agent with that id is idle; the list is never longer than the agent table |
| Collaboration.AvailableAgentsAppend | collaboration.py:20-25 | The filter keeps registration order |
| Collaboration.AvailableAgentsDistinct | collaboration.py:20-25 | Distinct agent ids give distinct candidates |
| Collaboration.AssignTasks | collaboration.py:27-46 | An unknown group or no idle agent raises the matching error. Otherwise only idle agents appear: agent number `j` appears exactly when `j` is below the task count, and holds the ids of the tasks whose index is `j` modulo the number of agents, in order |
| Collaboration.TaskPlacement | collaboration.py:40-44 | Task `i` is at place `i / n` of agent number `i mod n` |
| Collaboration.PlacementUnique | collaboration.py:40-44 | Place `m` of agent `j` holds the task at index `i = m * n + j`, and that index is placed at exactly `(i mod n, i / n)`: with TaskPlacement, places and task indices correspond one to one, so no task is assigned twice or dropped |
| Collaboration.ColumnLength | collaboration.py:40-44 | Agent `j` of `n` receives `⌊len/n⌋` tasks, plus one when `j < len mod n` |
| Collaboration.ColumnsBalanced | collaboration.py:40-44 | The task counts of any two agents differ by at most one |

## Left out

- The rate limiter and `_execute_task` of the connector are not defined in the source. The worker is a parameter of the model, and one attempt is one worker call.
- The backoff waits are not modelled: no exponential delay or jitter, only a `Backoff` event between attempts.
- The gather's real concurrency is not modelled. Calls of a level run in list order and are independent of each other, so their outcomes do not depend on interleaving.
- Python's set iteration order is a parameter `order`. `Executor.Execute` picks one order; every theorem holds for every order.
- The clock is a parameter, and one reading `now` is used for all lease operations of a run. Lease expiry during a run is not modelled.
- The uuid of `create_task_group` is the parameter `freshId`. The logger call is left out.
- Redis's bytes-versus-str typing is not modelled. In the code, `cache.get` returns bytes, so the version comparison always mismatches. The model compares the stored strings.
- ZPOPMAX's choice among equal scores is left open: `PriorityQueue.PopMax` returns some member of highest score.
- Transformation rules are modelled as total pure functions. A rule that raises or awaits other I/O is not modelled.
- The task keys `data` and `agent_id` are modelled as always present. Only `source_agent` and `target_agent` are optional in the model, and their absence raises.
- Planner.OptimizeExecution: a dependency is a plain task id. The code also receives dependencies written as dicts (`{'task_id': …, 'required_fragments': …}`). On those, `add_edge` raises `TypeError: unhashable type: 'dict'`, and the workflow's exception handler then fails on the missing cascade hook. The model cannot express such a dependency, so its only planning error is the circular dependency.
- PriorityQueue.Enqueue: a queue member is the task value itself. In the code, a member is the string `json.dumps(task)`, so two dicts with the same entries in a different key order are two members. The model treats them as one task.
- Collaboration.TaskData keeps only `task_id`: assignment reads no other field, so `task_type`, `parameters` and `priority` are not modelled.
- The priority queue, the agent registry and the performance metrics are not used by the executor, and they are not modelled in it.
- The orchestrator's agent table is modelled as a sequence of entries with distinct ids, standing for a dict in insertion order.
- `Executor.ExecuteWorkflow` models the evident intent, not the code as written (see Findings):
  - a plan level holds ids, which are looked up among the workflow's tasks;
  - `_resource_lock` acts as the scoped acquire/release its body describes;
  - the undefined cascade hook is an event.
- The documentation describes behaviour that the code does not implement. The model follows the code:
  - A failure does not cancel unstarted tasks and does not return partial results. The exception propagates.
  - A failed call is a result, and later levels still run.
  - The retry budget is the decorator's 3, not the configured `retry_attempts`.
  - A lease never blocks or waits: the acquire's answer is ignored, and the task runs either way.
  - A planning cycle raises a plain `ValueError`.
  - The queue has no FIFO tie-break among equal priorities.
  - A dependency's `required_fragments` never filter the producer's output before the transform: the code never reads them.
  - `Leases.Acquire` returns a flag. redis-py returns None, not False, when SET NX is refused, and the model does not distinguish these.
- `Connector.ExecuteWithRetry` does not model the `backoff` library's giveup handlers or its logging.

## Findings

| source | as written | input that shows it | evidently intended | confidence | as-written member | corrected member |
|---|---|---|---|---|---|---|
| enhanced_orchestrator.py:33-72 | `_resource_lock` is an async generator without the `asynccontextmanager` decorator, so `async with` on it raises `TypeError`. The `except` clause then calls the undefined `_handle_failure_cascade` and raises `AttributeError`. Plan levels also hold ids, not task dicts. | Any workflow with one task, e.g. `{'id': 'w', 'tasks': [{'id': 't', ...}]}`: it fails before any lease, transform or call | Each task is locked, transformed and dispatched; calls are gathered; only a planning or task error aborts, through the cascade hook | high, not executed | Executor.AsWrittenFailsWithAnyTask | Executor.WorkflowSucceedsIff |
