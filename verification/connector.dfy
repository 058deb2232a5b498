/**
 * The retrying worker connector of `AgentConnector` (agent_connector.py).
 *
 * `execute_with_retry` is decorated with `backoff.on_exception(expo,
 * Exception, max_tries=3)`: its body is run at most three times, the first
 * run that returns ends the call, and when all three raise the last
 * exception propagates.  Each run looks the agent's config up (raising for an
 * unknown agent), compares the cached API version with the configured one,
 * calls the version-mismatch hook, which does nothing, and calls the worker.
 * The worker is an outside service: its answer to each attempt is a
 * parameter of the model, and the backoff waits appear only as events.
 */
module Connector {
  import opened Wrappers
  import opened Values

  datatype AgentConfig = AgentConfig(
    apiVersion: string,
    rateLimit: int,
    retryAttempts: int,
    timeout: int,
    dependencies: seq<string>,
    dataSchema: map<string, string>)

  /** The registered configs, and the cache keys `agent_version:<agent>` as agent to version. */
  datatype Connector = Connector(configs: map<string, AgentConfig>, versionCache: map<string, string>)

  /** `max_tries` of the backoff decorator (agent_connector.py:29). */
  const MaxTries: nat := 3

  /** What the worker does on one attempt: return a response or raise. */
  datatype Attempt = Returns(response: Record) | Raises(message: string)

  /** The outside worker: its behaviour for agent, payload and attempt number (1-based). */
  type Worker = (string, Record, nat) -> Attempt

  datatype CallError =
    | UnknownAgent(agent: string)   // the `KeyError` of the config lookup
    | WorkerFailed(message: string) // whatever the worker raised

  datatype ConnEvent =
    | VersionMismatch(agent: string, seen: Option<string>)
    | WorkerCall(agent: string, payload: Record, attempt: nat)
    | Backoff(attempt: nat)

  /** One run of the decorated body. */
  datatype Try = Try(result: Result<Record, CallError>, trace: seq<ConnEvent>)

  /** A whole `execute_with_retry` call. */
  datatype CallReport = CallReport(result: Result<Record, CallError>, attempts: nat, trace: seq<ConnEvent>)

  /** `register_agent`: store the config and publish its API version in the cache. */
  function RegisterAgent(c: Connector, agent: string, config: AgentConfig): (r: Connector)
    ensures agent in r.configs && r.configs[agent] == config
    ensures agent in r.versionCache && r.versionCache[agent] == config.apiVersion
    ensures forall a :: a != agent ==> (a in r.configs <==> a in c.configs) && (a in r.versionCache <==> a in c.versionCache)
    ensures forall a :: a != agent && a in c.configs ==> r.configs[a] == c.configs[a]
    ensures forall a :: a != agent && a in c.versionCache ==> r.versionCache[a] == c.versionCache[a]
  {
    Connector(c.configs[agent := config], c.versionCache[agent := config.apiVersion])
  }

  /** `cache.get(agent_version:<agent>)`: None when the key is absent. */
  function CachedVersion(c: Connector, agent: string): Option<string> {
    if agent in c.versionCache then Some(c.versionCache[agent]) else None
  }

  /** `_handle_version_mismatch`: a hook whose body is `pass`; it is only observable in the trace. */
  function HandleVersionMismatch(agent: string, seen: Option<string>): (r: seq<ConnEvent>)
    ensures Mismatches(r) == 1 && WorkerCalls(r) == 0
  {
    var r := [VersionMismatch(agent, seen)];
    assert r[1..] == [];
    r
  }

  /** One run of the body of `execute_with_retry` (agent_connector.py:32-41). */
  function AttemptOnce(c: Connector, agent: string, payload: Record, worker: Worker, k: nat): (r: Try)
    ensures agent !in c.configs ==> r.result == Failure(UnknownAgent(agent)) && r.trace == []
    ensures agent in c.configs ==> (r.result.Success? <==> worker(agent, payload, k).Returns?)
    ensures agent in c.configs && r.result.Success? ==> r.result.value == worker(agent, payload, k).response
    ensures agent in c.configs && r.result.Failure? ==> r.result.error == WorkerFailed(worker(agent, payload, k).message)
    ensures agent in c.configs ==> |r.trace| > 0 && r.trace[|r.trace| - 1] == WorkerCall(agent, payload, k)
    ensures agent in c.configs ==> WorkerCalls(r.trace) == 1
    ensures agent in c.configs ==>
      Mismatches(r.trace) == (if CachedVersion(c, agent) == Some(c.configs[agent].apiVersion) then 0 else 1)
  {
    if agent !in c.configs then Try(Failure(UnknownAgent(agent)), [])
    else
      var config := c.configs[agent];
      var seen := CachedVersion(c, agent);
      var hook := if seen != Some(config.apiVersion) then HandleVersionMismatch(agent, seen) else [];
      var call := [WorkerCall(agent, payload, k)];
      assert call[1..] == [];
      CountsAppend(hook, call);
      match worker(agent, payload, k)
      case Returns(response) => Try(Success(response), hook + call)
      case Raises(message) => Try(Failure(WorkerFailed(message)), hook + call)
  }

  /** Attempts `k..MaxTries` of the decorated call. */
  function Retry(c: Connector, agent: string, payload: Record, worker: Worker, k: nat): (r: CallReport)
    requires 1 <= k <= MaxTries
    ensures k <= r.attempts <= MaxTries
    ensures r.result == AttemptOnce(c, agent, payload, worker, r.attempts).result
    ensures forall j :: k <= j < r.attempts ==> AttemptOnce(c, agent, payload, worker, j).result.Failure?
    ensures r.result.Failure? ==> r.attempts == MaxTries
    decreases MaxTries - k
  {
    var t := AttemptOnce(c, agent, payload, worker, k);
    if t.result.Success? || k == MaxTries then CallReport(t.result, k, t.trace)
    else
      var rest := Retry(c, agent, payload, worker, k + 1);
      CallReport(rest.result, rest.attempts, t.trace + [Backoff(k)] + rest.trace)
  }

  /** `execute_with_retry`: the first attempt that returns wins; otherwise the third error propagates. */
  function ExecuteWithRetry(c: Connector, agent: string, payload: Record, worker: Worker): (r: CallReport)
    ensures 1 <= r.attempts <= MaxTries
    ensures r.result.Success? ==>
      && r.result == AttemptOnce(c, agent, payload, worker, r.attempts).result
      && forall j :: 1 <= j < r.attempts ==> AttemptOnce(c, agent, payload, worker, j).result.Failure?
    ensures r.result.Failure? ==>
      && r.attempts == MaxTries
      && r.result == AttemptOnce(c, agent, payload, worker, MaxTries).result
      && forall j :: 1 <= j <= MaxTries ==> AttemptOnce(c, agent, payload, worker, j).result.Failure?
  {
    Retry(c, agent, payload, worker, 1)
  }

  /* ---------------------------------------------------------------- trace views */

  function WorkerCalls(trace: seq<ConnEvent>): nat {
    if |trace| == 0 then 0 else (if trace[0].WorkerCall? then 1 else 0) + WorkerCalls(trace[1..])
  }

  function Mismatches(trace: seq<ConnEvent>): nat {
    if |trace| == 0 then 0 else (if trace[0].VersionMismatch? then 1 else 0) + Mismatches(trace[1..])
  }

  lemma {:induction false} CountsAppend(a: seq<ConnEvent>, b: seq<ConnEvent>)
    ensures WorkerCalls(a + b) == WorkerCalls(a) + WorkerCalls(b)
    ensures Mismatches(a + b) == Mismatches(a) + Mismatches(b)
    decreases |a|
  {
    if |a| == 0 {
      assert a + b == b;
    } else {
      assert (a + b)[1..] == a[1..] + b;
      CountsAppend(a[1..], b);
    }
  }

  /* ---------------------------------------------------------------- properties */

  /** For a registered agent the worker is called once per attempt; for an unknown agent never. */
  lemma {:induction false} WorkerCalledOncePerAttempt(c: Connector, agent: string, payload: Record, worker: Worker, k: nat)
    requires 1 <= k <= MaxTries
    ensures var r := Retry(c, agent, payload, worker, k);
      WorkerCalls(r.trace) == if agent in c.configs then r.attempts - k + 1 else 0
    decreases MaxTries - k
  {
    var t := AttemptOnce(c, agent, payload, worker, k);
    if agent in c.configs {
      var seen := CachedVersion(c, agent);
      var hook := if seen != Some(c.configs[agent].apiVersion) then HandleVersionMismatch(agent, seen) else [];
      CountsAppend(hook, [WorkerCall(agent, payload, k)]);
      assert WorkerCalls([WorkerCall(agent, payload, k)]) == 1;
      assert WorkerCalls(hook) == 0;
    }
    if !(t.result.Success? || k == MaxTries) {
      WorkerCalledOncePerAttempt(c, agent, payload, worker, k + 1);
      var rest := Retry(c, agent, payload, worker, k + 1);
      CountsAppend(t.trace, [Backoff(k)]);
      CountsAppend(t.trace + [Backoff(k)], rest.trace);
      assert WorkerCalls([Backoff(k)]) == 0;
    }
  }

  /** A worker that always raises is called exactly three times, and its third error surfaces. */
  lemma AlwaysFailingWorker(c: Connector, agent: string, payload: Record, worker: Worker)
    requires agent in c.configs
    requires forall j :: 1 <= j <= MaxTries ==> worker(agent, payload, j).Raises?
    ensures var r := ExecuteWithRetry(c, agent, payload, worker);
      && r.attempts == MaxTries
      && WorkerCalls(r.trace) == MaxTries
      && r.result == Failure(WorkerFailed(worker(agent, payload, MaxTries).message))
  {
    WorkerCalledOncePerAttempt(c, agent, payload, worker, 1);
  }

  /** A worker that returns on the first attempt is called once. */
  lemma FirstAttemptSucceeds(c: Connector, agent: string, payload: Record, worker: Worker)
    requires agent in c.configs && worker(agent, payload, 1).Returns?
    ensures var r := ExecuteWithRetry(c, agent, payload, worker);
      && r.attempts == 1
      && WorkerCalls(r.trace) == 1
      && r.result == Success(worker(agent, payload, 1).response)
  {
    WorkerCalledOncePerAttempt(c, agent, payload, worker, 1);
  }

  /** An unregistered agent fails inside the retried body: three attempts, no worker call. */
  lemma UnknownAgentRetried(c: Connector, agent: string, payload: Record, worker: Worker)
    requires agent !in c.configs
    ensures var r := ExecuteWithRetry(c, agent, payload, worker);
      && r.attempts == MaxTries
      && WorkerCalls(r.trace) == 0
      && r.result == Failure(UnknownAgent(agent))
  {
    WorkerCalledOncePerAttempt(c, agent, payload, worker, 1);
  }

  /** The budget is the decorator's constant: the configured `retry_attempts` changes nothing. */
  lemma {:induction false} RetryBudgetIgnoresConfig(c: Connector, agent: string, payload: Record, worker: Worker,
                                                    budget: int, k: nat)
    requires agent in c.configs && 1 <= k <= MaxTries
    ensures var c' := c.(configs := c.configs[agent := c.configs[agent].(retryAttempts := budget)]);
      Retry(c', agent, payload, worker, k) == Retry(c, agent, payload, worker, k)
    decreases MaxTries - k
  {
    var c' := c.(configs := c.configs[agent := c.configs[agent].(retryAttempts := budget)]);
    assert AttemptOnce(c', agent, payload, worker, k) == AttemptOnce(c, agent, payload, worker, k);
    if k < MaxTries {
      RetryBudgetIgnoresConfig(c, agent, payload, worker, budget, k + 1);
    }
  }

  /** The mismatch hook does nothing: outcome and attempt count are those of a matching cache. */
  lemma {:induction false} MismatchHookHasNoEffect(c: Connector, agent: string, payload: Record, worker: Worker, k: nat)
    requires agent in c.configs && 1 <= k <= MaxTries
    ensures var synced := c.(versionCache := c.versionCache[agent := c.configs[agent].apiVersion]);
      && Retry(c, agent, payload, worker, k).result == Retry(synced, agent, payload, worker, k).result
      && Retry(c, agent, payload, worker, k).attempts == Retry(synced, agent, payload, worker, k).attempts
    decreases MaxTries - k
  {
    var synced := c.(versionCache := c.versionCache[agent := c.configs[agent].apiVersion]);
    assert AttemptOnce(c, agent, payload, worker, k).result == AttemptOnce(synced, agent, payload, worker, k).result;
    if k < MaxTries {
      MismatchHookHasNoEffect(c, agent, payload, worker, k + 1);
    }
  }

  /** The hook runs on every attempt whose cached version differs from the config, and only then. */
  lemma {:induction false} HookCalledPerMismatchedAttempt(c: Connector, agent: string, payload: Record, worker: Worker, k: nat)
    requires agent in c.configs && 1 <= k <= MaxTries
    ensures var r := Retry(c, agent, payload, worker, k);
      Mismatches(r.trace) == if CachedVersion(c, agent) == Some(c.configs[agent].apiVersion) then 0 else r.attempts - k + 1
    decreases MaxTries - k
  {
    var t := AttemptOnce(c, agent, payload, worker, k);
    var seen := CachedVersion(c, agent);
    var hook := if seen != Some(c.configs[agent].apiVersion) then HandleVersionMismatch(agent, seen) else [];
    CountsAppend(hook, [WorkerCall(agent, payload, k)]);
    assert Mismatches([WorkerCall(agent, payload, k)]) == 0;
    if !(t.result.Success? || k == MaxTries) {
      HookCalledPerMismatchedAttempt(c, agent, payload, worker, k + 1);
      var rest := Retry(c, agent, payload, worker, k + 1);
      CountsAppend(t.trace, [Backoff(k)]);
      CountsAppend(t.trace + [Backoff(k)], rest.trace);
      assert Mismatches([Backoff(k)]) == 0;
    }
  }

  /** Right after registration the cached version matches, so the hook is never called. */
  lemma RegisteredAgentHasNoMismatch(c: Connector, agent: string, config: AgentConfig, payload: Record, worker: Worker)
    ensures Mismatches(ExecuteWithRetry(RegisterAgent(c, agent, config), agent, payload, worker).trace) == 0
  {
    HookCalledPerMismatchedAttempt(RegisterAgent(c, agent, config), agent, payload, worker, 1);
  }
}
