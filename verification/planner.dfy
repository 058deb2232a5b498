/**
 * The dependency level planner of `PerformanceOptimizer` (optimization.py).
 *
 * Tasks are added to a dependency graph that lives in the optimizer and is
 * never cleared; the graph is then peeled Kahn-style: every remaining node
 * none of whose predecessors remains forms the next level.  When no remaining
 * node qualifies the planner fails with "Circular dependency detected".
 */
module Planner {
  import opened Wrappers

  type NodeId = string

  /** A directed graph; the edge `(d, t)` says that `t` depends on `d`. */
  datatype Graph = Graph(nodes: set<NodeId>, edges: set<(NodeId, NodeId)>)

  /** What the planner needs of a task: its id and its declared dependencies. */
  datatype PlanTask = PlanTask(id: NodeId, dependencies: seq<NodeId>)

  datatype PlanError = CircularDependency

  /** The optimizer's only planning state: the accumulated dependency graph. */
  datatype Optimizer = Optimizer(graph: Graph)

  datatype PlanOutcome = PlanOutcome(optimizer: Optimizer, levels: Result<seq<set<NodeId>>, PlanError>)

  const EmptyGraph := Graph({}, {})

  function ErrorMessage(e: PlanError): string {
    "Circular dependency detected"
  }

  /** Every edge joins two nodes of the graph (networkx adds both ends of an edge). */
  ghost predicate WellFormed(g: Graph) {
    forall e :: e in g.edges ==> e.0 in g.nodes && e.1 in g.nodes
  }

  /* ---------------------------------------------------------------- graph building */

  /** `add_node(task.id)` followed by `add_edge(dep, task.id)` for every dependency. */
  function AddTask(g: Graph, t: PlanTask): (r: Graph)
    ensures forall n :: n in r.nodes <==> n in g.nodes || n == t.id || n in t.dependencies
    ensures forall d, x :: (d, x) in r.edges <==> (d, x) in g.edges || (x == t.id && d in t.dependencies)
    ensures WellFormed(g) ==> WellFormed(r)
  {
    Graph(g.nodes + {t.id} + (set d | d in t.dependencies),
          g.edges + (set d | d in t.dependencies :: (d, t.id)))
  }

  /** The loop of optimization.py:19-22: every task of the list is added in turn. */
  function AddTasks(g: Graph, ts: seq<PlanTask>): (r: Graph)
    ensures forall n :: n in r.nodes <==>
      n in g.nodes || exists i :: 0 <= i < |ts| && (n == ts[i].id || n in ts[i].dependencies)
    ensures forall d, x :: (d, x) in r.edges <==>
      (d, x) in g.edges || exists i :: 0 <= i < |ts| && x == ts[i].id && d in ts[i].dependencies
    ensures WellFormed(g) ==> WellFormed(r)
    decreases |ts|
  {
    if |ts| == 0 then g
    else
      var r := AddTasks(AddTask(g, ts[0]), ts[1..]);
      assert forall i :: 1 <= i < |ts| ==> ts[i] == ts[1..][i - 1];
      r
  }

  /* ---------------------------------------------------------------- peeling */

  predicate HasPredIn(g: Graph, remaining: set<NodeId>, n: NodeId) {
    exists p :: p in remaining && (p, n) in g.edges
  }

  /** The nodes of `remaining` none of whose predecessors is still remaining. */
  function Ready(g: Graph, remaining: set<NodeId>): (r: set<NodeId>)
    ensures r <= remaining
    ensures forall n, p :: n in r && p in remaining ==> (p, n) !in g.edges
  {
    set n | n in remaining && !HasPredIn(g, remaining, n)
  }

  /** Conversely, every remaining node without a remaining predecessor is ready. */
  lemma ReadyHoldsEverySource(g: Graph, remaining: set<NodeId>, n: NodeId)
    requires n in remaining && forall p :: p in remaining ==> (p, n) !in g.edges
    ensures n in Ready(g, remaining)
  {
  }

  /** The `while remaining_nodes` loop of optimization.py:28-40. */
  function Levels(g: Graph, remaining: set<NodeId>): (r: Result<seq<set<NodeId>>, PlanError>)
    ensures r.Failure? ==> remaining != {}
    ensures r.Success? ==> (r.value == [] <==> remaining == {})
    decreases remaining
  {
    if remaining == {} then Success([])
    else
      var available := Ready(g, remaining);
      if available == {} then Failure(CircularDependency)
      else
        match Levels(g, remaining - available)
        case Success(rest) => Success([available] + rest)
        case Failure(e) => Failure(e)
  }

  /** `optimize_execution`: grow the persistent graph, then plan all of its nodes. */
  function OptimizeExecution(opt: Optimizer, tasks: seq<PlanTask>): (r: PlanOutcome)
    ensures r.optimizer.graph == AddTasks(opt.graph, tasks)
    ensures WellFormed(opt.graph) ==> WellFormed(r.optimizer.graph)
  {
    var g := AddTasks(opt.graph, tasks);
    PlanOutcome(Optimizer(g), Levels(g, g.nodes))
  }

  /* ---------------------------------------------------------------- what a plan is */

  /** Every level is a non-empty set of `nodes`. */
  ghost predicate NonEmptyWithin(nodes: set<NodeId>, levels: seq<set<NodeId>>) {
    forall k :: 0 <= k < |levels| ==> levels[k] != {} && levels[k] <= nodes
  }

  ghost predicate Disjoint(levels: seq<set<NodeId>>) {
    forall i, j :: 0 <= i < j < |levels| ==> levels[i] !! levels[j]
  }

  /** All nodes of all levels. */
  ghost function UnionOf(levels: seq<set<NodeId>>): set<NodeId> {
    if |levels| == 0 then {} else levels[0] + UnionOf(levels[1..])
  }

  lemma {:induction false} InUnion(levels: seq<set<NodeId>>, n: NodeId)
    ensures n in UnionOf(levels) <==> exists k :: 0 <= k < |levels| && n in levels[k]
  {
    if |levels| > 0 {
      InUnion(levels[1..], n);
      if n in UnionOf(levels[1..]) {
        var k :| 0 <= k < |levels[1..]| && n in levels[1..][k];
        assert n in levels[k + 1];
      }
      if exists k :: 0 <= k < |levels| && n in levels[k] {
        var k :| 0 <= k < |levels| && n in levels[k];
        if k > 0 {
          assert n in levels[1..][k - 1];
        }
      }
    }
  }

  /** Every node of `nodes` is in some level, and the levels hold nothing else. */
  ghost predicate Covers(nodes: set<NodeId>, levels: seq<set<NodeId>>) {
    UnionOf(levels) == nodes
  }

  /** Non-empty levels inside `nodes`, pairwise disjoint, jointly covering `nodes`. */
  ghost predicate Partition(nodes: set<NodeId>, levels: seq<set<NodeId>>) {
    NonEmptyWithin(nodes, levels) && Disjoint(levels) && Covers(nodes, levels)
  }

  /** Every dependency sits in a strictly earlier level than its dependent. */
  ghost predicate Ordered(g: Graph, levels: seq<set<NodeId>>) {
    forall i, j, d, t ::
      0 <= i < |levels| && 0 <= j < |levels| && d in levels[i] && t in levels[j] && (d, t) in g.edges
      ==> i < j
  }

  /** Every node of `later` depends on some node of `earlier`. */
  ghost predicate DependsOn(g: Graph, earlier: set<NodeId>, later: set<NodeId>) {
    forall n :: n in later ==> exists p :: p in earlier && (p, n) in g.edges
  }

  /** Nothing is scheduled later than necessary: every level after the first depends on its predecessor. */
  ghost predicate Tight(g: Graph, levels: seq<set<NodeId>>) {
    |levels| <= 1 || (DependsOn(g, levels[0], levels[1]) && Tight(g, levels[1..]))
  }

  /** `Tight`, read at one index: a node of level k > 0 depends on a node of level k-1. */
  lemma {:induction false} TightAt(g: Graph, levels: seq<set<NodeId>>, k: nat)
    requires Tight(g, levels) && 0 < k < |levels|
    ensures DependsOn(g, levels[k - 1], levels[k])
    decreases k
  {
    if k > 1 {
      TightAt(g, levels[1..], k - 1);
    }
  }

  ghost predicate IsLayering(g: Graph, nodes: set<NodeId>, levels: seq<set<NodeId>>) {
    Partition(nodes, levels) && Ordered(g, levels) && Tight(g, levels)
  }

  /** A closed walk along dependency edges. */
  ghost predicate IsCycle(g: Graph, c: seq<NodeId>) {
    && |c| >= 2
    && c[0] == c[|c| - 1]
    && forall i :: 0 <= i < |c| - 1 ==> (c[i], c[i + 1]) in g.edges
  }

  ghost predicate Within(c: seq<NodeId>, s: set<NodeId>) {
    forall i :: 0 <= i < |c| ==> c[i] in s
  }

  ghost predicate HasCycleWithin(g: Graph, s: set<NodeId>) {
    exists c :: IsCycle(g, c) && Within(c, s)
  }

  /* ---------------------------------------------------------------- soundness */

  /** One peeling step: the plan of `remaining` is its ready set followed by the plan of the rest. */
  lemma {:induction false} LevelsStep(g: Graph, remaining: set<NodeId>)
    requires Levels(g, remaining).Success? && remaining != {}
    ensures Ready(g, remaining) != {} && Ready(g, remaining) <= remaining
    ensures Levels(g, remaining - Ready(g, remaining)).Success?
    ensures Levels(g, remaining).value == [Ready(g, remaining)] + Levels(g, remaining - Ready(g, remaining)).value
  {
  }

  /** A successful peel yields non-empty levels drawn from `remaining`. */
  lemma {:induction false} LevelsNonEmptyWithin(g: Graph, remaining: set<NodeId>)
    requires Levels(g, remaining).Success?
    ensures NonEmptyWithin(remaining, Levels(g, remaining).value)
    decreases remaining
  {
    if remaining != {} {
      LevelsStep(g, remaining);
      var A := Ready(g, remaining);
      LevelsNonEmptyWithin(g, remaining - A);
    }
  }

  /** Every round of the loop removes at least one node: there are never more levels than nodes. */
  lemma {:induction false} LevelCount(g: Graph, remaining: set<NodeId>)
    requires Levels(g, remaining).Success?
    ensures |Levels(g, remaining).value| <= |remaining|
    decreases remaining
  {
    if remaining != {} {
      LevelsStep(g, remaining);
      var A := Ready(g, remaining);
      LevelCount(g, remaining - A);
      assert |remaining - A| + |A| == |remaining| by {
        assert remaining == (remaining - A) + A;
      }
    }
  }

  /** A successful peel yields pairwise disjoint levels. */
  lemma {:induction false} LevelsDisjoint(g: Graph, remaining: set<NodeId>)
    requires Levels(g, remaining).Success?
    ensures Disjoint(Levels(g, remaining).value)
    decreases remaining
  {
    if remaining != {} {
      LevelsStep(g, remaining);
      var A := Ready(g, remaining);
      var rest := Levels(g, remaining - A).value;
      LevelsNonEmptyWithin(g, remaining - A);
      LevelsDisjoint(g, remaining - A);
      var L := [A] + rest;
      forall i, j | 0 <= i < j < |L|
        ensures L[i] !! L[j]
      {
        assert L[j] == rest[j - 1] && L[j] <= remaining - A;
        if i > 0 {
          assert L[i] == rest[i - 1];
        }
      }
    }
  }

  /** A successful peel places every node of `remaining`, and nothing else, in its levels. */
  lemma {:induction false} LevelsCover(g: Graph, remaining: set<NodeId>)
    requires Levels(g, remaining).Success?
    ensures Covers(remaining, Levels(g, remaining).value)
    decreases remaining
  {
    if remaining != {} {
      LevelsStep(g, remaining);
      var A := Ready(g, remaining);
      var rest := Levels(g, remaining - A).value;
      LevelsCover(g, remaining - A);
      assert ([A] + rest)[1..] == rest;
    }
  }

  lemma LevelsPartition(g: Graph, remaining: set<NodeId>)
    requires Levels(g, remaining).Success?
    ensures Partition(remaining, Levels(g, remaining).value)
  {
    LevelsNonEmptyWithin(g, remaining);
    LevelsDisjoint(g, remaining);
    LevelsCover(g, remaining);
  }

  /** In a successful peel every dependency lands in a strictly earlier level. */
  lemma {:induction false} LevelsOrdered(g: Graph, remaining: set<NodeId>)
    requires Levels(g, remaining).Success?
    ensures Ordered(g, Levels(g, remaining).value)
    decreases remaining
  {
    if remaining != {} {
      LevelsStep(g, remaining);
      var A := Ready(g, remaining);
      var rest := Levels(g, remaining - A).value;
      LevelsNonEmptyWithin(g, remaining - A);
      LevelsOrdered(g, remaining - A);
      var L := [A] + rest;
      forall i, j, d, t | 0 <= i < |L| && 0 <= j < |L| && d in L[i] && t in L[j] && (d, t) in g.edges
        ensures i < j
      {
        if j > 0 && i > 0 {
          assert d in rest[i - 1] && t in rest[j - 1];
        }
      }
    }
  }

  /** In a successful peel every node of a later level depends on the level just before it. */
  lemma {:induction false} LevelsTight(g: Graph, remaining: set<NodeId>)
    requires Levels(g, remaining).Success?
    ensures Tight(g, Levels(g, remaining).value)
    decreases remaining
  {
    if remaining != {} {
      LevelsStep(g, remaining);
      var A := Ready(g, remaining);
      var rest := Levels(g, remaining - A).value;
      LevelsTight(g, remaining - A);
      var L := [A] + rest;
      assert L[1..] == rest;
      if |rest| > 0 {
        LevelsStep(g, remaining - A);
        forall n | n in rest[0]
          ensures exists p :: p in A && (p, n) in g.edges
        {
          assert n in Ready(g, remaining - A);
          assert n !in A && n in remaining;
          var p :| p in remaining && (p, n) in g.edges;
          assert !HasPredIn(g, remaining - A, n);
          assert p in A;
        }
        assert DependsOn(g, L[0], L[1]);
      }
    }
  }

  /** A successful peel of `remaining` is a layering of `remaining`. */
  lemma LevelsAreLayering(g: Graph, remaining: set<NodeId>)
    requires Levels(g, remaining).Success?
    ensures IsLayering(g, remaining, Levels(g, remaining).value)
  {
    LevelsPartition(g, remaining);
    LevelsOrdered(g, remaining);
    LevelsTight(g, remaining);
  }

  /** A node without any remaining predecessor is planned in the very first level. */
  lemma SourcesInFirstLevel(g: Graph, remaining: set<NodeId>, n: NodeId)
    requires Levels(g, remaining).Success?
    requires n in remaining && forall p :: p in remaining ==> (p, n) !in g.edges
    ensures |Levels(g, remaining).value| > 0 && n in Levels(g, remaining).value[0]
  {
    assert n in Ready(g, remaining);
  }

  /* ---------------------------------------------------------------- cycles */

  /** A cycle inside `remaining` is never peeled: planning fails. */
  lemma {:induction false} CycleBlocksPlan(g: Graph, remaining: set<NodeId>, c: seq<NodeId>)
    requires IsCycle(g, c) && Within(c, remaining)
    ensures Levels(g, remaining).Failure?
    decreases remaining
  {
    assert c[0] in remaining;
    var A := Ready(g, remaining);
    forall i | 0 <= i < |c|
      ensures c[i] !in A
    {
      var p := if i == 0 then c[|c| - 2] else c[i - 1];
      assert (p, c[i]) in g.edges;
      assert HasPredIn(g, remaining, c[i]);
    }
    if A != {} {
      CycleBlocksPlan(g, remaining - A, c);
    }
  }

  /** Every node of `s` has a predecessor in `s`. */
  ghost predicate Stuck(g: Graph, s: set<NodeId>) {
    forall n :: n in s ==> HasPredIn(g, s, n)
  }

  /** A walk of `k` edges inside a stuck set, ending at `n`, built backwards. */
  ghost function BackWalk(g: Graph, s: set<NodeId>, n: NodeId, k: nat): (w: seq<NodeId>)
    requires n in s && Stuck(g, s)
    ensures |w| == k + 1 && w[k] == n && Within(w, s)
    ensures forall i :: 0 <= i < k ==> (w[i], w[i + 1]) in g.edges
    decreases k
  {
    if k == 0 then [n]
    else
      assert HasPredIn(g, s, n);
      var p :| p in s && (p, n) in g.edges;
      BackWalk(g, s, p, k - 1) + [n]
  }

  /** A sequence longer than the set it draws from repeats an element. */
  lemma {:induction false} Pigeonhole<T>(w: seq<T>, s: set<T>)
    requires forall i :: 0 <= i < |w| ==> w[i] in s
    requires |w| > |s|
    ensures exists i, j :: 0 <= i < j < |w| && w[i] == w[j]
    decreases |w|
  {
    if w[0] in w[1..] {
      var j :| 0 <= j < |w[1..]| && w[1..][j] == w[0];
      assert w[0] == w[j + 1];
    } else {
      var s' := s - {w[0]};
      forall i | 0 <= i < |w[1..]|
        ensures w[1..][i] in s'
      {
        assert w[1..][i] == w[i + 1] && w[i + 1] != w[0];
      }
      Pigeonhole(w[1..], s');
      var i, j :| 0 <= i < j < |w[1..]| && w[1..][i] == w[1..][j];
      assert w[i + 1] == w[j + 1];
    }
  }

  lemma StuckHasCycle(g: Graph, s: set<NodeId>)
    requires s != {} && Stuck(g, s)
    ensures HasCycleWithin(g, s)
  {
    var n :| n in s;
    var w := BackWalk(g, s, n, |s|);
    Pigeonhole(w, s);
    var i, j :| 0 <= i < j < |w| && w[i] == w[j];
    var c := w[i..j + 1];
    assert forall m :: 0 <= m < |c| ==> c[m] == w[i + m];
    assert IsCycle(g, c) && Within(c, s);
  }

  /** Planning `remaining` fails exactly when the graph has a cycle inside `remaining`. */
  lemma {:induction false} LevelsFailIffCycle(g: Graph, remaining: set<NodeId>)
    ensures Levels(g, remaining).Failure? <==> HasCycleWithin(g, remaining)
    decreases remaining
  {
    if HasCycleWithin(g, remaining) {
      var c :| IsCycle(g, c) && Within(c, remaining);
      CycleBlocksPlan(g, remaining, c);
    }
    if Levels(g, remaining).Failure? {
      var A := Ready(g, remaining);
      if A == {} {
        forall n | n in remaining
          ensures HasPredIn(g, remaining, n)
        {
          assert n !in A;
        }
        StuckHasCycle(g, remaining);
      } else {
        LevelsFailIffCycle(g, remaining - A);
        var c :| IsCycle(g, c) && Within(c, remaining - A);
        assert Within(c, remaining);
      }
    }
  }

  /* ---------------------------------------------------------------- uniqueness */

  /** A predecessor, in the level just before, of a node of a tight layering. */
  ghost function Predecessor(g: Graph, levels: seq<set<NodeId>>, n: NodeId, k: nat): (p: NodeId)
    requires Tight(g, levels) && 0 < k < |levels| && n in levels[k]
    ensures p in levels[k - 1] && (p, n) in g.edges
  {
    TightAt(g, levels, k);
    var p :| p in levels[k - 1] && (p, n) in g.edges; p
  }

  /** The index of a covered node. */
  ghost function IndexIn(nodes: set<NodeId>, levels: seq<set<NodeId>>, n: NodeId): (k: nat)
    requires Covers(nodes, levels) && n in nodes
    ensures k < |levels| && n in levels[k]
  {
    InUnion(levels, n);
    var k :| 0 <= k < |levels| && n in levels[k]; k
  }

  /** Against any ordered covering, a node at index `k` of a tight layering sits at index `>= k`. */
  lemma {:induction false} DepthLowerBound(g: Graph, nodes: set<NodeId>, tight: seq<set<NodeId>>,
                                           other: seq<set<NodeId>>, n: NodeId, k: nat, k': nat)
    requires NonEmptyWithin(nodes, tight) && Tight(g, tight)
    requires Covers(nodes, other) && Ordered(g, other)
    requires k < |tight| && n in tight[k] && k' < |other| && n in other[k']
    ensures k <= k'
    decreases k
  {
    if k > 0 {
      var p := Predecessor(g, tight, n, k);
      assert p in nodes;
      var k'' := IndexIn(nodes, other, p);
      DepthLowerBound(g, nodes, tight, other, p, k - 1, k'');
    }
  }

  /** Two layerings of the same graph put a node at the same index. */
  lemma SameLevel(g: Graph, nodes: set<NodeId>, l1: seq<set<NodeId>>, l2: seq<set<NodeId>>, n: NodeId, k: nat)
    requires NonEmptyWithin(nodes, l1) && Tight(g, l1) && Covers(nodes, l1) && Ordered(g, l1)
    requires NonEmptyWithin(nodes, l2) && Tight(g, l2) && Covers(nodes, l2) && Ordered(g, l2)
    requires k < |l1| && n in l1[k]
    ensures k < |l2| && n in l2[k]
  {
    assert n in nodes;
    var k' := IndexIn(nodes, l2, n);
    assert k <= k' by {
      DepthLowerBound(g, nodes, l1, l2, n, k, k');
    }
    assert k' <= k by {
      DepthLowerBound(g, nodes, l2, l1, n, k', k);
    }
  }

  /** A graph has at most one layering: the planner's output is fully determined by it. */
  lemma LayeringUnique(g: Graph, nodes: set<NodeId>, l1: seq<set<NodeId>>, l2: seq<set<NodeId>>)
    requires IsLayering(g, nodes, l1) && IsLayering(g, nodes, l2)
    ensures l1 == l2
  {
    if |l1| > |l2| {
      var n :| n in l1[|l2|];
      SameLevel(g, nodes, l1, l2, n, |l2|);
    } else if |l2| > |l1| {
      var n :| n in l2[|l1|];
      SameLevel(g, nodes, l2, l1, n, |l1|);
    }
    forall k | 0 <= k < |l1|
      ensures l1[k] == l2[k]
    {
      forall n | n in l1[k]
        ensures n in l2[k]
      {
        SameLevel(g, nodes, l1, l2, n, k);
      }
      forall n | n in l2[k]
        ensures n in l1[k]
      {
        SameLevel(g, nodes, l2, l1, n, k);
      }
    }
  }

  /* ---------------------------------------------------------------- the planner's promises */

  /** A successful plan is the unique layering of the whole accumulated graph. */
  lemma PlanIsLayering(opt: Optimizer, tasks: seq<PlanTask>)
    requires OptimizeExecution(opt, tasks).levels.Success?
    ensures var r := OptimizeExecution(opt, tasks);
      IsLayering(r.optimizer.graph, r.optimizer.graph.nodes, r.levels.value)
    ensures var r := OptimizeExecution(opt, tasks);
      forall other :: IsLayering(r.optimizer.graph, r.optimizer.graph.nodes, other) ==> other == r.levels.value
  {
    var r := OptimizeExecution(opt, tasks);
    var g := r.optimizer.graph;
    LevelsAreLayering(g, g.nodes);
    forall other | IsLayering(g, g.nodes, other)
      ensures other == r.levels.value
    {
      LayeringUnique(g, g.nodes, r.levels.value, other);
    }
  }

  /** Planning fails (and returns no levels) exactly when the accumulated graph has a cycle. */
  lemma PlanFailsIffCycle(opt: Optimizer, tasks: seq<PlanTask>)
    requires WellFormed(opt.graph)
    ensures var r := OptimizeExecution(opt, tasks);
      r.levels.Failure? <==> exists c :: IsCycle(r.optimizer.graph, c)
  {
    var g := AddTasks(opt.graph, tasks);
    LevelsFailIffCycle(g, g.nodes);
    forall c | IsCycle(g, c)
      ensures Within(c, g.nodes)
    {
      forall i | 0 <= i < |c|
        ensures c[i] in g.nodes
      {
        if i < |c| - 1 {
          assert (c[i], c[i + 1]) in g.edges;
        } else {
          assert (c[i - 1], c[i]) in g.edges;
        }
      }
    }
  }

  /** The level of a task and of each of its dependencies, and dangling dependencies are kept. */
  lemma PlanSchedulesEveryDependency(opt: Optimizer, tasks: seq<PlanTask>, i: nat, d: NodeId)
    requires OptimizeExecution(opt, tasks).levels.Success?
    requires i < |tasks| && d in tasks[i].dependencies
    ensures var L := OptimizeExecution(opt, tasks).levels.value;
      exists a, b :: 0 <= a < b < |L| && d in L[a] && tasks[i].id in L[b]
  {
    var g := AddTasks(opt.graph, tasks);
    var L := OptimizeExecution(opt, tasks).levels.value;
    LevelsAreLayering(g, g.nodes);
    assert d in g.nodes && tasks[i].id in g.nodes && (d, tasks[i].id) in g.edges;
    InUnion(L, d);
    InUnion(L, tasks[i].id);
    var a :| 0 <= a < |L| && d in L[a];
    var b :| 0 <= b < |L| && tasks[i].id in L[b];
    assert a < b;
  }

  /** The graph is never cleared: a later call plans every node of an earlier call again. */
  lemma GraphPersistsAcrossCalls(opt: Optimizer, first: seq<PlanTask>, second: seq<PlanTask>, n: NodeId)
    requires n in OptimizeExecution(opt, first).optimizer.graph.nodes
    requires OptimizeExecution(OptimizeExecution(opt, first).optimizer, second).levels.Success?
    ensures var L := OptimizeExecution(OptimizeExecution(opt, first).optimizer, second).levels.value;
      exists k :: 0 <= k < |L| && n in L[k]
  {
    var g := AddTasks(AddTasks(opt.graph, first), second);
    LevelsAreLayering(g, g.nodes);
    InUnion(Levels(g, g.nodes).value, n);
  }

  /** A task that depends on nothing, on a fresh optimizer, is planned in level 0. */
  lemma IndependentTaskInFirstLevel(tasks: seq<PlanTask>, i: nat)
    requires OptimizeExecution(Optimizer(EmptyGraph), tasks).levels.Success?
    requires i < |tasks|
    requires forall j :: 0 <= j < |tasks| && tasks[j].id == tasks[i].id ==> tasks[j].dependencies == []
    ensures var L := OptimizeExecution(Optimizer(EmptyGraph), tasks).levels.value;
      |L| > 0 && tasks[i].id in L[0]
  {
    var g := AddTasks(EmptyGraph, tasks);
    assert forall p :: p in g.nodes ==> (p, tasks[i].id) !in g.edges;
    SourcesInFirstLevel(g, g.nodes, tasks[i].id);
  }
}
