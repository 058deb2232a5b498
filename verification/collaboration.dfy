/**
 * Round-robin task assignment of `CollaborationManager` (collaboration.py).
 *
 * Task groups are stored under fresh ids.  Assigning a group takes the idle
 * agents in registration order and gives the task at index `i` to agent
 * number `i mod n`; each agent's list keeps the group's order, and agents
 * that receive nothing do not appear in the result.
 */
module Collaboration {
  import opened Wrappers

  /** `TaskData` of interfaces.py, reduced to the one field assignment reads. */
  datatype TaskData = TaskData(taskId: string)

  /** An entry of the orchestrator's agent table; the table is a dict in registration order. */
  datatype AgentEntry = AgentEntry(id: string, status: string)

  const IdleStatus := "idle"

  type Groups = map<string, seq<TaskData>>

  /** The two `ValueError`s of `assign_tasks`. */
  datatype CollabError = GroupNotFound(groupId: string) | NoAgentsAvailable

  datatype Created = Created(groups: Groups, groupId: string)

  /** Agent ids are dict keys, so they are distinct. */
  predicate DistinctIds(agents: seq<AgentEntry>) {
    forall i, j :: 0 <= i < j < |agents| ==> agents[i].id != agents[j].id
  }

  predicate Distinct(xs: seq<string>) {
    forall i, j :: 0 <= i < j < |xs| ==> xs[i] != xs[j]
  }

  function TaskIds(tasks: seq<TaskData>): (ids: seq<string>)
    ensures |ids| == |tasks| && forall i :: 0 <= i < |tasks| ==> ids[i] == tasks[i].taskId
  {
    seq(|tasks|, i requires 0 <= i < |tasks| => tasks[i].taskId)
  }

  /** `create_task_group`: store the tasks under a fresh id (the uuid is a parameter). */
  function CreateTaskGroup(groups: Groups, tasks: seq<TaskData>, freshId: string): (r: Created)
    ensures r.groupId == freshId
    ensures r.groupId in r.groups && r.groups[r.groupId] == tasks
    ensures forall g :: g != r.groupId ==> (g in r.groups <==> g in groups)
    ensures forall g :: g != r.groupId && g in groups ==> r.groups[g] == groups[g]
  {
    Created(groups[freshId := tasks], freshId)
  }

  /** `get_available_agents`: the ids of the idle agents, in registration order. */
  function AvailableAgents(agents: seq<AgentEntry>): (r: seq<string>)
    ensures forall x :: x in r <==> exists i :: 0 <= i < |agents| && agents[i].id == x && agents[i].status == IdleStatus
    ensures |r| <= |agents|
  {
    if |agents| == 0 then []
    else
      var rest := AvailableAgents(agents[1..]);
      assert forall i :: 1 <= i < |agents| ==> agents[i] == agents[1..][i - 1];
      (if agents[0].status == IdleStatus then [agents[0].id] else []) + rest
  }

  /** Filtering respects order: the idle agents of a concatenation are those of each part, in turn. */
  lemma {:induction false} AvailableAgentsAppend(a: seq<AgentEntry>, b: seq<AgentEntry>)
    ensures AvailableAgents(a + b) == AvailableAgents(a) + AvailableAgents(b)
    decreases |a|
  {
    if |a| == 0 {
      assert a + b == b;
    } else {
      assert (a + b)[0] == a[0] && (a + b)[1..] == a[1..] + b;
      AvailableAgentsAppend(a[1..], b);
      var head := if a[0].status == IdleStatus then [a[0].id] else [];
      assert AvailableAgents(a + b) == head + AvailableAgents(a[1..] + b);
    }
  }

  /** Distinct agent ids give a list of distinct candidates. */
  lemma {:induction false} AvailableAgentsDistinct(agents: seq<AgentEntry>)
    requires DistinctIds(agents)
    ensures Distinct(AvailableAgents(agents))
    decreases |agents|
  {
    if |agents| > 0 {
      var tail := agents[1..];
      assert DistinctIds(tail) by {
        assert forall i :: 0 <= i < |tail| ==> tail[i] == agents[i + 1];
      }
      AvailableAgentsDistinct(tail);
      var rest := AvailableAgents(tail);
      forall x | x in rest
        ensures x != agents[0].id
      {
        var i :| 0 <= i < |tail| && tail[i].id == x && tail[i].status == IdleStatus;
        assert tail[i] == agents[i + 1];
      }
      var r := AvailableAgents(agents);
      if agents[0].status == IdleStatus {
        assert r == [agents[0].id] + rest;
        forall i, j | 0 <= i < j < |r|
          ensures r[i] != r[j]
        {
          assert r[j] == rest[j - 1] && rest[j - 1] in rest;
          if i > 0 {
            assert r[i] == rest[i - 1];
          }
        }
      } else {
        assert r == rest;
      }
    }
  }

  /** The tasks of `ids` whose index is `j` modulo `n`, in order: what agent number `j` receives. */
  function Column(ids: seq<string>, n: nat, j: nat): seq<string>
    requires n > 0
  {
    if |ids| == 0 then []
    else Column(ids[..|ids| - 1], n, j) + (if (|ids| - 1) % n == j then [ids[|ids| - 1]] else [])
  }

  /** `assign_tasks`: round-robin over the idle agents, or one of its two errors. */
  method AssignTasks(groups: Groups, agents: seq<AgentEntry>, groupId: string)
    returns (r: Result<map<string, seq<string>>, CollabError>)
    requires DistinctIds(agents)
    ensures groupId !in groups ==> r == Failure(GroupNotFound(groupId))
    ensures groupId in groups && AvailableAgents(agents) == [] ==> r == Failure(NoAgentsAvailable)
    ensures r.Failure? <==> groupId !in groups || AvailableAgents(agents) == []
    ensures r.Success? ==>
      var avail := AvailableAgents(agents);
      var ids := TaskIds(groups[groupId]);
      && (forall a :: a in r.value ==> a in avail)
      && (forall j :: 0 <= j < |avail| ==> (avail[j] in r.value <==> j < |ids|))
      && (forall j :: 0 <= j < |avail| && avail[j] in r.value ==> r.value[avail[j]] == Column(ids, |avail|, j))
  {
    if groupId !in groups {
      return Failure(GroupNotFound(groupId));
    }
    var avail := AvailableAgents(agents);
    if |avail| == 0 {
      return Failure(NoAgentsAvailable);
    }
    AvailableAgentsDistinct(agents);
    var tasks := groups[groupId];
    ghost var ids := TaskIds(tasks);
    var n := |avail|;
    var assignments: map<string, seq<string>> := map[];
    var i := 0;
    while i < |tasks|
      invariant 0 <= i <= |tasks|
      invariant AssignedUpTo(avail, ids, i, assignments)
    {
      var agent := avail[i % n];
      ghost var before := assignments;
      var list := if agent in assignments then assignments[agent] else [];
      assignments := assignments[agent := list + [tasks[i].taskId]];
      AssignStep(avail, ids, i, before, assignments);
      i := i + 1;
    }
    AssignedAll(avail, ids, assignments);
    return Success(assignments);
  }

  /** Agent number `j` holds exactly the column of the first `i` tasks, and only agents below `i` hold anything. */
  ghost predicate AssignedUpTo(avail: seq<string>, ids: seq<string>, i: nat, assignments: map<string, seq<string>>)
    requires |avail| > 0 && i <= |ids|
  {
    && (forall a :: a in assignments ==> a in avail)
    && (forall j :: 0 <= j < |avail| ==> (avail[j] in assignments <==> j < i))
    && (forall j :: 0 <= j < |avail| && avail[j] in assignments ==> assignments[avail[j]] == Column(ids[..i], |avail|, j))
  }

  /** One round-robin step: appending task `i` to agent `i mod n` keeps every agent's list equal to its column. */
  lemma AssignStep(avail: seq<string>, ids: seq<string>, i: nat, before: map<string, seq<string>>, after: map<string, seq<string>>)
    requires |avail| > 0 && Distinct(avail) && i < |ids|
    requires AssignedUpTo(avail, ids, i, before)
    requires var agent := avail[i % |avail|];
      after == before[agent := (if agent in before then before[agent] else []) + [ids[i]]]
    ensures AssignedUpTo(avail, ids, i + 1, after)
  {
    var n := |avail|;
    var agent := avail[i % n];
    forall j | 0 <= j < n
      ensures (avail[j] in after <==> j < i + 1)
      ensures avail[j] in after ==> after[avail[j]] == Column(ids[..i + 1], n, j)
    {
      ColumnSnoc(ids, n, j, i);
      if j == i % n {
        if agent !in before {
          if i < n {
            DivModUnique(i, n, 0, i);
          }
          ColumnEmpty(ids[..i], n, j);
        }
      } else {
        assert avail[j] != agent;
        if j == i {
          DivModUnique(i, n, 0, i);
        }
      }
    }
  }

  /** Once every task is handed out, each agent's list is its column of the whole group. */
  lemma AssignedAll(avail: seq<string>, ids: seq<string>, assignments: map<string, seq<string>>)
    requires |avail| > 0 && AssignedUpTo(avail, ids, |ids|, assignments)
    ensures forall a :: a in assignments ==> a in avail
    ensures forall j :: 0 <= j < |avail| ==> (avail[j] in assignments <==> j < |ids|)
    ensures forall j :: 0 <= j < |avail| && avail[j] in assignments ==> assignments[avail[j]] == Column(ids, |avail|, j)
  {
    assert ids[..|ids|] == ids;
  }

  /* ---------------------------------------------------------------- the shape of the columns */

  lemma DivIdentity(a: int, n: int)
    requires n > 0
    ensures a == (a / n) * n + a % n && 0 <= a % n < n
  {
  }

  lemma MulMonotone(a: int, b: int, n: int)
    requires a <= b && n >= 0
    ensures a * n <= b * n
  {
    assert b * n - a * n == (b - a) * n;
  }

  /** Euclidean division by `n` is characterised by its quotient and remainder. */
  lemma DivModUnique(a: int, n: int, q: int, r: int)
    requires n > 0 && 0 <= r < n && a == q * n + r
    ensures a / n == q && a % n == r
  {
    var q', r' := a / n, a % n;
    assert a == q' * n + r' && 0 <= r' < n;
    if q' < q {
      MulMonotone(q' + 1, q, n);
    } else if q < q' {
      MulMonotone(q + 1, q', n);
    }
  }

  /** The successor step of Euclidean division by `n`. */
  lemma DivModNext(a: nat, n: nat)
    requires n > 0
    ensures a % n == n - 1 ==> (a + 1) / n == a / n + 1 && (a + 1) % n == 0
    ensures a % n < n - 1 ==> (a + 1) / n == a / n && (a + 1) % n == a % n + 1
  {
    var q, r := a / n, a % n;
    assert a == q * n + r;
    if r == n - 1 {
      assert a + 1 == (q + 1) * n + 0;
      DivModUnique(a + 1, n, q + 1, 0);
    } else {
      DivModUnique(a + 1, n, q, r + 1);
    }
  }

  /** No index below `j` is congruent to `j`, so agent number `j` gets nothing from a shorter list. */
  lemma {:induction false} ColumnEmpty(ids: seq<string>, n: nat, j: nat)
    requires n > 0 && |ids| <= j
    ensures Column(ids, n, j) == []
    decreases |ids|
  {
    if |ids| > 0 {
      var l := |ids| - 1;
      ColumnEmpty(ids[..l], n, j);
      if l < n {
        DivModUnique(l, n, 0, l);
      } else {
        DivModUnique(l, n, l / n, l % n);
      }
    }
  }

  /** Appending index `i` extends only the column of agent number `i mod n`. */
  lemma ColumnSnoc(ids: seq<string>, n: nat, j: nat, i: nat)
    requires n > 0 && i < |ids|
    ensures Column(ids[..i + 1], n, j) == Column(ids[..i], n, j) + (if i % n == j then [ids[i]] else [])
  {
    assert ids[..i + 1][..i] == ids[..i];
  }

  /** Agent number `j` receives `len / n` tasks, plus one if `j` is below the remainder. */
  lemma {:induction false} ColumnLength(ids: seq<string>, n: nat, j: nat)
    requires 0 <= j < n
    ensures |Column(ids, n, j)| == |ids| / n + (if j < |ids| % n then 1 else 0)
    decreases |ids|
  {
    if |ids| > 0 {
      var l := |ids| - 1;
      ColumnLength(ids[..l], n, j);
      DivModNext(l, n);
    }
  }

  /** The `m`-th task of agent number `j` is the task at index `m * n + j`. */
  lemma {:induction false} ColumnElement(ids: seq<string>, n: nat, j: nat, m: nat)
    requires 0 <= j < n && m < |Column(ids, n, j)|
    ensures m * n + j < |ids| && Column(ids, n, j)[m] == ids[m * n + j]
    decreases |ids|
  {
    var l := |ids| - 1;
    var prefix := Column(ids[..l], n, j);
    if m < |prefix| {
      ColumnElement(ids[..l], n, j, m);
    } else {
      ColumnLength(ids[..l], n, j);
      assert l % n == j && m == l / n;
      DivIdentity(l, n);
    }
  }

  /** An index below `len` has a quotient below the column length of its remainder. */
  lemma IndexBound(i: nat, len: nat, n: nat)
    requires n > 0 && i < len
    ensures i / n < len / n + (if i % n < len % n then 1 else 0)
  {
    var q1, r1, q, r := i / n, i % n, len / n, len % n;
    DivIdentity(i, n);
    DivIdentity(len, n);
    if q1 > q {
      MulMonotone(q + 1, q1, n);
    }
  }

  /** The task at index `i` is the `(i / n)`-th task of agent number `i mod n`. */
  lemma TaskPlacement(ids: seq<string>, n: nat, i: nat)
    requires n > 0 && i < |ids|
    ensures i / n < |Column(ids, n, i % n)| && Column(ids, n, i % n)[i / n] == ids[i]
  {
    DivIdentity(i, n);
    PlacementAt(ids, n, i % n, i / n, i);
  }

  /** The same placement stated without division: index `m * n + j` is place `m` of agent `j`. */
  lemma PlacementAt(ids: seq<string>, n: nat, j: nat, m: nat, i: nat)
    requires j < n && i == m * n + j && i < |ids|
    ensures m < |Column(ids, n, j)| && Column(ids, n, j)[m] == ids[i]
  {
    assert m < |Column(ids, n, j)| by {
      DivModUnique(i, n, m, j);
      ColumnLength(ids, n, j);
      IndexBound(i, |ids|, n);
    }
    ColumnElement(ids, n, j, m);
  }

  /** Round-robin is balanced: any two agents' task counts differ by at most one. */
  lemma ColumnsBalanced(ids: seq<string>, n: nat, j1: nat, j2: nat)
    requires j1 < n && j2 < n
    ensures -1 <= |Column(ids, n, j1)| - |Column(ids, n, j2)| <= 1
  {
    ColumnLength(ids, n, j1);
    ColumnLength(ids, n, j2);
  }

  /**
   * Every place of every agent holds exactly one task index, and that index is
   * placed there and nowhere else: with `TaskPlacement`, the places of the
   * columns and the indices of the group correspond one to one.
   */
  lemma PlacementUnique(ids: seq<string>, n: nat, j: nat, m: nat)
    requires j < n && m < |Column(ids, n, j)|
    ensures var i := m * n + j;
      && i < |ids| && Column(ids, n, j)[m] == ids[i]
      && i % n == j && i / n == m
  {
    ColumnElement(ids, n, j, m);
    DivModUnique(m * n + j, n, m, j);
  }
}
