/**
 * The per-agent priority queue of `QueueManager` (optimization.py).
 *
 * Each agent owns the Redis sorted set `queue:<agent>`: a member is a
 * serialised task, its score the task's priority.  ZADD of a member that is
 * already present only updates its score, and ZPOPMAX removes and returns a
 * member of highest score; a sorted set that becomes empty disappears, which
 * reads the same as an agent that never had one.
 */
module PriorityQueue {
  import opened Wrappers
  import opened Values

  /** A task as it is serialised into the queue; two equal values are the same member. */
  datatype QueuedTask = QueuedTask(id: string, payload: Record, priority: Option<int>)

  /** One agent's sorted set: member to score. */
  type SortedSet = map<QueuedTask, int>

  /** All queues, keyed by agent id. */
  type Queues = map<string, SortedSet>

  /** The score of a task that carries no priority (optimization.py:51). */
  const DefaultPriority := 0

  function PriorityOf(t: QueuedTask): int {
    t.priority.GetOr(DefaultPriority)
  }

  /** The sorted set of an agent; an absent key is an empty set. */
  function QueueOf(qs: Queues, agent: string): SortedSet {
    if agent in qs then qs[agent] else map[]
  }

  /** `t` is a member of highest score in `q`. */
  ghost predicate IsMax(q: SortedSet, t: QueuedTask) {
    t in q && forall u :: u in q ==> q[u] <= q[t]
  }

  /** `enqueue_task`: ZADD of the task under its priority into the agent's queue. */
  function Enqueue(qs: Queues, agent: string, t: QueuedTask): (r: Queues)
    ensures t in QueueOf(r, agent) && QueueOf(r, agent)[t] == PriorityOf(t)
    ensures forall u :: u != t ==>
      (u in QueueOf(r, agent) <==> u in QueueOf(qs, agent)) &&
      (u in QueueOf(qs, agent) ==> QueueOf(r, agent)[u] == QueueOf(qs, agent)[u])
    ensures forall a :: a != agent ==> QueueOf(r, a) == QueueOf(qs, a)
  {
    qs[agent := QueueOf(qs, agent)[t := PriorityOf(t)]]
  }

  /** ZPOPMAX's choice: some member of highest score, none when the set is empty. */
  method PopMax(q: SortedSet) returns (best: Option<QueuedTask>)
    ensures best.None? <==> q == map[]
    ensures best.Some? ==> IsMax(q, best.value)
  {
    best := None;
    var unseen := q.Keys;
    while unseen != {}
      invariant unseen <= q.Keys
      invariant best.None? ==> unseen == q.Keys
      invariant best.Some? ==> best.value in q && forall u :: u in q.Keys - unseen ==> q[u] <= q[best.value]
      decreases unseen
    {
      var t :| t in unseen;
      if best.None? || q[t] > q[best.value] {
        best := Some(t);
      }
      unseen := unseen - {t};
    }
    if best.None? {
      assert q.Keys == {};
    }
  }

  /** `dequeue_task`: remove and return a highest-priority task of the agent, None if there is none. */
  method Dequeue(qs: Queues, agent: string) returns (r: Option<QueuedTask>, qs': Queues)
    ensures r.None? <==> QueueOf(qs, agent) == map[]
    ensures r.None? ==> qs' == qs
    ensures r.Some? ==> IsMax(QueueOf(qs, agent), r.value)
    ensures r.Some? ==> QueueOf(qs', agent) == QueueOf(qs, agent) - {r.value}
    ensures forall a :: a != agent ==> QueueOf(qs', a) == QueueOf(qs, a)
  {
    var q := QueueOf(qs, agent);
    r := PopMax(q);
    if r.None? {
      qs' := qs;
    } else {
      var rest := q - {r.value};
      qs' := if rest == map[] then qs - {agent} else qs[agent := rest];
    }
  }

  /** Enqueueing onto an empty queue makes that task the only candidate for the next dequeue. */
  lemma EnqueueOntoEmpty(qs: Queues, agent: string, t: QueuedTask)
    requires QueueOf(qs, agent) == map[]
    ensures forall u :: IsMax(QueueOf(Enqueue(qs, agent, t), agent), u) <==> u == t
  {
    var q := QueueOf(Enqueue(qs, agent, t), agent);
    assert q == map[t := PriorityOf(t)];
  }

  /** A task of strictly higher priority than every queued one is the only candidate for the next dequeue. */
  lemma EnqueueAboveAll(qs: Queues, agent: string, t: QueuedTask)
    requires forall u :: u in QueueOf(qs, agent) && u != t ==> QueueOf(qs, agent)[u] < PriorityOf(t)
    ensures forall u :: IsMax(QueueOf(Enqueue(qs, agent, t), agent), u) <==> u == t
  {
  }

  /** Enqueueing a task that is already queued adds no member: the queue does not grow. */
  lemma ReenqueueAddsNoMember(qs: Queues, agent: string, t: QueuedTask)
    requires t in QueueOf(qs, agent)
    ensures QueueOf(Enqueue(qs, agent, t), agent).Keys == QueueOf(qs, agent).Keys
  {
  }
}
