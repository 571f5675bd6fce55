/** `QueryExecutor::partition`: groups the operators of a query plan into stages, sorts each
    stage, and sorts the stages.  Every operator lands in exactly one stage, and if neither the
    stages nor the operators within one depend on each other in a cycle, every operator comes
    after all that must run before it. */
module Stages {
  import opened OperatorGraph
  import opened StageOrder
  import opened StageGrowth
  import opened LevelledGraphs
  import opened StageSort
  import opened Types

  // ---------------------------------------------------------------- grouping

  /** Stage `k` lists exactly the operators assigned to it, once each. */
  ghost predicate Assigned(g: Graph, stage: seq<int>, stages: seq<seq<nat>>)
    requires |stage| == |g.ops|
  {
    forall k :: 0 <= k < |stages| ==> Listed(|g.ops|, stage, k, AllTrue(|g.ops|), stages[k])
  }

  ghost function AllTrue(n: nat): (s: seq<bool>)
    ensures |s| == n
  {
    seq(n, _ => true)
  }

  /** The state between two stages. */
  ghost predicate Grouping(g: Graph, rank: seq<nat>, visited: seq<bool>, entered: seq<bool>, pushed: seq<bool>, stage: seq<int>, stages: seq<seq<nat>>) {
    && |visited| == |entered| == |pushed| == |stage| == |g.ops|
    && (forall x: nat :: x < |g.ops| ==> stage[x] < |stages| && (visited[x] <==> stage[x] >= 0))
    && (forall x: nat :: x < |g.ops| && stage[x] < 0 ==> !entered[x] && !pushed[x])
    && (forall x: nat :: x < |g.ops| && stage[x] >= 0 ==> !TrivialCycle(g, x))
    && Assigned(g, stage, stages)
    && (forall k :: 0 <= k < |stages| && Ranked(g, stage, k, rank) ==> Topological(g, stage, k, stages[k]))
  }

  /** Looks for an operator that has not been assigned to a stage. */
  method FindUnvisited(visited: seq<bool>) returns (i: nat)
    ensures i <= |visited| && (i < |visited| ==> !visited[i])
    ensures forall x :: 0 <= x < i ==> visited[x]
  {
    i := 0;
    while i < |visited| && visited[i]
      invariant i <= |visited| && forall x :: 0 <= x < i ==> visited[x]
    {
      i := i + 1;
    }
  }

  /** Adding a stage leaves the earlier ones as they are. */
  lemma EarlierStages(g: Graph, rank: seq<nat>, stage: seq<int>, stage': seq<int>, k: int, cur: nat, order: seq<nat>)
    requires |stage| == |stage'| == |g.ops| && 0 <= k < cur
    requires forall x: nat :: x < |g.ops| ==> stage[x] < cur && (stage'[x] == stage[x] || (stage[x] < 0 && stage'[x] == cur))
    requires Listed(|g.ops|, stage, k, AllTrue(|g.ops|), order)
    ensures Listed(|g.ops|, stage', k, AllTrue(|g.ops|), order)
    ensures Ranked(g, stage', k, rank) ==> Ranked(g, stage, k, rank)
    ensures Ranked(g, stage', k, rank) && Topological(g, stage, k, order) ==> Topological(g, stage', k, order)
  {
    assert forall x: nat :: x < |g.ops| ==> (stage'[x] == k <==> stage[x] == k);
    forall x: nat, y: nat | y < |g.ops| ensures MustPrecede(g, stage', k, x, y) <==> MustPrecede(g, stage, k, x, y) {
    }
  }

  /** Groups the operators into stages and sorts each stage.  The source panics on an operator
      that is its own producer. */
  method GroupOperators(g: Graph, disabled: seq<bool>, ghost rank: seq<nat>, ghost level: seq<nat>) returns (ok: bool, stages: seq<seq<nat>>, stage: seq<int>)
    requires Wired(g) && |disabled| == |g.ops|
    ensures ok <==> forall x: nat :: x < |g.ops| ==> !TrivialCycle(g, x)
    ensures ok ==> |stage| == |g.ops| && (forall x :: 0 <= x < |stage| ==> 0 <= stage[x] < |stages|) && Assigned(g, stage, stages)
    ensures ok ==> forall k :: 0 <= k < |stages| && Ranked(g, stage, k, rank) ==> Topological(g, stage, k, stages[k])
    ensures ok && Levelled(g, disabled, rank, level) ==> OneLevelEach(g, stage, level)
  {
    var visited, entered, pushed := seq(|g.ops|, _ => false), seq(|g.ops|, _ => false), seq(|g.ops|, _ => false);
    stage := seq(|g.ops|, _ => -1);
    stages := [];
    while true
      invariant Grouping(g, rank, visited, entered, pushed, stage, stages)
      invariant Levelled(g, disabled, rank, level) ==> OneLevelEach(g, stage, level)
      decreases Unset(visited)
    {
      var first := FindUnvisited(visited);
      if first == |visited| {
        break;
      }
      var s := GrowStage(g, disabled, visited, stage, |stages|, first);
      var fine, order, entered', pushed' := SortStage(g, s.stage, |stages|, s.ops, entered, pushed, rank);
      if !fine {
        return false, stages, stage;
      }
      StageAdded(g, rank, visited, entered, pushed, stage, stages, s, order, entered', pushed');
      if Levelled(g, disabled, rank, level) { LevelAdded(g, disabled, rank, level, stage, |stages|, first, s); }
      visited, entered, pushed, stage, stages := s.visited, entered', pushed', s.stage, stages + [order];
    }
    ok := true;
  }

  /** The operators of a stage have one level, and operators of one level that exchange data are in the
      same stage. */
  ghost predicate OneLevelEach(g: Graph, stage: seq<int>, level: seq<nat>)
    requires Wired(g)
  {
    && |stage| == |level| == |g.ops| && Complete(g, stage, level)
    && forall x: nat, y: nat :: x < |g.ops| && y < |g.ops| && stage[x] == stage[y] && stage[x] >= 0 ==> level[x] == level[y]
  }

  lemma LevelAdded(g: Graph, disabled: seq<bool>, rank: seq<nat>, level: seq<nat>, stage0: seq<int>, cur: nat, first: nat, s: Growth)
    requires Wired(g) && Levelled(g, disabled, rank, level) && OneLevelEach(g, stage0, level) && first < |g.ops|
    requires Growing(g, stage0, cur, s) && s.toVisit == [] && Grown(g, disabled, first, s) && forall x: nat :: x < first ==> stage0[x] >= 0
    ensures OneLevelEach(g, s.stage, level)
  {
    var l := level[first];
    StageLevel(g, disabled, rank, level, stage0, first, s.ops, |s.ops|);
    assert s.ops[..|s.ops|] == s.ops;
    StageComplete(g, disabled, rank, level, stage0, cur, first, s, l);
    forall x: nat | x < |g.ops| && s.stage[x] == cur ensures level[x] == l {
      assert x in s.ops;
      var i :| 0 <= i < |s.ops| && s.ops[i] == x;
    }
  }

  lemma StageAdded(g: Graph, rank: seq<nat>, visited: seq<bool>, entered: seq<bool>, pushed: seq<bool>, stage: seq<int>, stages: seq<seq<nat>>,
                   s: Growth, order: seq<nat>, entered': seq<bool>, pushed': seq<bool>)
    requires Wired(g) && Grouping(g, rank, visited, entered, pushed, stage, stages)
    requires Growing(g, stage, |stages|, s) && s.toVisit == []
    requires |entered'| == |pushed'| == |g.ops|
    requires forall x: nat :: x < |g.ops| && s.stage[x] != |stages| ==> entered'[x] == entered[x] && pushed'[x] == pushed[x]
    requires forall x: nat :: x < |g.ops| && s.stage[x] == |stages| ==> !TrivialCycle(g, x)
    requires Listed(|g.ops|, s.stage, |stages|, AllTrue(|g.ops|), order)
    requires Ranked(g, s.stage, |stages|, rank) ==> Topological(g, s.stage, |stages|, order)
    ensures Grouping(g, rank, s.visited, entered', pushed', s.stage, stages + [order])
  {
    var all := stages + [order];
    forall k | 0 <= k < |all|
      ensures Listed(|g.ops|, s.stage, k, AllTrue(|g.ops|), all[k])
      ensures Ranked(g, s.stage, k, rank) ==> Topological(g, s.stage, k, all[k])
    {
      if k < |stages| {
        EarlierStages(g, rank, stage, s.stage, k, |stages|, stages[k]);
      }
    }
  }

  // ---------------------------------------------------------------- stage dependencies

  /** Every operator has a stage. */
  ghost predicate Staged(g: Graph, stage: seq<int>, n: nat) {
    |stage| == |g.ops| && forall x :: 0 <= x < |stage| ==> 0 <= stage[x] < n
  }

  /** The first `k` inputs of operator `y` make its stage `i` depend on stage `j`. */
  ghost predicate InputNeeds(g: Graph, stage: seq<int>, i: nat, y: nat, k: nat, j: nat)
    requires |stage| == |g.ops| && y < |g.ops| && k <= |g.ops[y].inputs|
  {
    j != i && exists x: nat, m :: x < |g.ops| && stage[x] == j && 0 <= m < k && Link(g, y, g.ops[y].inputs[m], x)
  }

  method OperatorDependencies(g: Graph, stage: seq<int>, n: nat, i: nat, y: nat) returns (deps: set<nat>)
    requires Wired(g) && Staged(g, stage, n) && y < |g.ops| && stage[y] == i
    ensures forall j: nat :: j in deps <==> InputNeeds(g, stage, i, y, |g.ops[y].inputs|, j)
  {
    deps := {};
    var inputs := g.ops[y].inputs;
    for k := 0 to |inputs|
      invariant forall j: nat :: j in deps <==> InputNeeds(g, stage, i, y, k, j)
    {
      assert Below(|g.consumers|, inputs);
      var b := inputs[k];
      var producers := set x | x in g.producers[b] && stage[x] != i :: stage[x] as nat;
      var consumers := if b in g.ops[y].mutates then set x | x in g.consumers[b] && stage[x] != i :: stage[x] as nat else {};
      ghost var deps0 := deps;
      deps := deps + producers + consumers;
      forall j: nat ensures j in deps <==> InputNeeds(g, stage, i, y, k + 1, j) {
        InputStep(g, stage, n, i, y, k, j);
        assert j in producers + consumers <==> j != i && exists x: nat :: x < |g.ops| && stage[x] == j && Link(g, y, b, x);
      }
    }
  }

  lemma InputStep(g: Graph, stage: seq<int>, n: nat, i: nat, y: nat, k: nat, j: nat)
    requires Wired(g) && Staged(g, stage, n) && y < |g.ops| && k < |g.ops[y].inputs|
    ensures InputNeeds(g, stage, i, y, k + 1, j) <==>
            InputNeeds(g, stage, i, y, k, j) || (j != i && exists x: nat :: x < |g.ops| && stage[x] == j && Link(g, y, g.ops[y].inputs[k], x))
  {
  }

  /** Stage `i` depends on stage `j`: one of the first `m` operators of its list needs one of the
      other stage. */
  ghost predicate DependsBy(g: Graph, stage: seq<int>, i: nat, list: seq<nat>, m: nat, j: nat)
    requires |stage| == |g.ops| && m <= |list|
  {
    j != i && exists l, x: nat :: 0 <= l < m && x < |g.ops| && stage[x] == j && Needs(g, list[l], x)
  }

  method StageDependencies(g: Graph, stage: seq<int>, stages: seq<seq<nat>>) returns (deps: seq<set<nat>>)
    requires Wired(g) && Staged(g, stage, |stages|) && Assigned(g, stage, stages)
    ensures |deps| == |stages|
    ensures forall i: nat, j: nat :: i < |deps| ==> (j in deps[i] <==> DependsBy(g, stage, i, stages[i], |stages[i]|, j))
  {
    deps := [];
    for i := 0 to |stages|
      invariant |deps| == i
      invariant forall k: nat, j: nat :: k < i ==> (j in deps[k] <==> DependsBy(g, stage, k, stages[k], |stages[k]|, j))
    {
      var own: set<nat> := {};
      for m := 0 to |stages[i]|
        invariant forall j: nat :: j in own <==> DependsBy(g, stage, i, stages[i], m, j)
      {
        assert Listed(|g.ops|, stage, i, AllTrue(|g.ops|), stages[i]);
        assert stages[i][m] in stages[i];
        var more := OperatorDependencies(g, stage, |stages|, i, stages[i][m]);
        own := own + more;
      }
      deps := deps + [own];
    }
  }

  // ---------------------------------------------------------------- the plan

  /** The stages in the order in which they run. */
  function Arranged(stages: seq<seq<nat>>, order: seq<nat>): (r: seq<seq<nat>>)
    requires Below(|stages|, order)
    ensures |r| == |order| && forall k :: 0 <= k < |order| ==> r[k] == stages[order[k]]
  {
    seq(|order|, k requires 0 <= k < |order| => stages[order[k]])
  }

  /** Operator `x` runs at position `i` of stage `k` of the plan. */
  ghost predicate RunsAt(plan: seq<seq<nat>>, x: nat, k: nat, i: nat) {
    k < |plan| && i < |plan[k]| && plan[k][i] == x
  }

  ghost predicate Runs(plan: seq<seq<nat>>, x: nat) {
    exists k: nat, i: nat :: RunsAt(plan, x, k, i)
  }

  /** The plan runs every operator exactly once. */
  ghost predicate RunsOnce(plan: seq<seq<nat>>, n: nat) {
    && (forall k :: 0 <= k < |plan| ==> Below(n, plan[k]))
    && (forall x: nat :: x < n ==> Runs(plan, x))
    && (forall x: nat, k: nat, i: nat, k': nat, i': nat :: RunsAt(plan, x, k, i) && RunsAt(plan, x, k', i') ==> k == k' && i == i')
  }

  /** Operator `x` runs before operator `y`. */
  ghost predicate RunsBefore(plan: seq<seq<nat>>, x: nat, y: nat) {
    exists k: nat, i: nat, k': nat, i': nat :: RunsAt(plan, x, k, i) && RunsAt(plan, y, k', i') && (k < k' || (k == k' && i < i'))
  }

  /** The stage of an operator in the plan, and its place there. */
  lemma Locate(g: Graph, stage: seq<int>, stages: seq<seq<nat>>, order: seq<nat>, x: nat) returns (k: nat, i: nat)
    requires Staged(g, stage, |stages|) && Assigned(g, stage, stages) && x < |g.ops|
    requires Below(|stages|, order) && forall s: nat :: s < |stages| ==> s in order
    ensures RunsAt(Arranged(stages, order), x, k, i) && order[k] == stage[x]
  {
    assert Listed(|g.ops|, stage, stage[x], AllTrue(|g.ops|), stages[stage[x]]);
    var own: nat := stage[x];
    assert own in order;
    k :| k < |order| && order[k] == stage[x];
    i :| i < |stages[stage[x]]| && stages[stage[x]][i] == x;
  }

  lemma OnlyPlace(g: Graph, stage: seq<int>, stages: seq<seq<nat>>, order: seq<nat>, x: nat, k: nat, i: nat, k': nat, i': nat)
    requires Staged(g, stage, |stages|) && Assigned(g, stage, stages)
    requires Below(|stages|, order) && forall i, j :: 0 <= i < j < |order| ==> order[i] != order[j]
    requires RunsAt(Arranged(stages, order), x, k, i) && RunsAt(Arranged(stages, order), x, k', i')
    ensures k == k' && i == i'
  {
    var a, b := order[k], order[k'];
    assert Listed(|g.ops|, stage, a, AllTrue(|g.ops|), stages[a]) && Listed(|g.ops|, stage, b, AllTrue(|g.ops|), stages[b]);
    assert x in stages[a] && x in stages[b];
  }

  lemma PlanOnce(g: Graph, stage: seq<int>, stages: seq<seq<nat>>, order: seq<nat>)
    requires Staged(g, stage, |stages|) && Assigned(g, stage, stages)
    requires Below(|stages|, order) && forall i, j :: 0 <= i < j < |order| ==> order[i] != order[j]
    requires forall s: nat :: s < |stages| ==> s in order
    ensures RunsOnce(Arranged(stages, order), |g.ops|)
  {
    var plan := Arranged(stages, order);
    forall k | 0 <= k < |plan| ensures Below(|g.ops|, plan[k]) {
      assert Listed(|g.ops|, stage, order[k], AllTrue(|g.ops|), stages[order[k]]);
    }
    forall x: nat | x < |g.ops| ensures Runs(plan, x) {
      var k, i := Locate(g, stage, stages, order, x);
    }
    forall x: nat, k: nat, i: nat, k': nat, i': nat | RunsAt(plan, x, k, i) && RunsAt(plan, x, k', i') ensures k == k' && i == i' {
      OnlyPlace(g, stage, stages, order, x, k, i, k', i');
    }
  }

  /** Operators in one stage depend on each other without cycles. */
  ghost predicate AcyclicWithin(g: Graph, stage: seq<int>, rank: seq<nat>) {
    |stage| == |rank| == |g.ops| && forall x: nat, y: nat :: Needs(g, y, x) && stage[x] == stage[y] ==> rank[x] < rank[y]
  }

  /** Stages depend on each other without cycles. */
  ghost predicate AcyclicBetween(g: Graph, stage: seq<int>, n: nat, rank: seq<nat>) {
    |rank| == n && Staged(g, stage, n) &&
    forall x: nat, y: nat :: Needs(g, y, x) && stage[x] != stage[y] ==> rank[stage[x]] < rank[stage[y]]
  }

  lemma WithinRanked(g: Graph, stage: seq<int>, rank: seq<nat>, k: int)
    requires AcyclicWithin(g, stage, rank)
    ensures Ranked(g, stage, k, rank)
  {
    forall x: nat, y: nat | y < |g.ops| && stage[y] == k && MustPrecede(g, stage, k, x, y) ensures rank[x] < rank[y] {
      assert Needs(g, y, x);
    }
  }

  /** The stage dependencies are those of the operators. */
  ghost predicate Dependencies(g: Graph, stage: seq<int>, stages: seq<seq<nat>>, deps: seq<set<nat>>)
    requires |stage| == |g.ops|
  {
    |deps| == |stages| &&
    forall i: nat, j: nat :: i < |deps| ==> (j in deps[i] <==> DependsBy(g, stage, i, stages[i], |stages[i]|, j))
  }

  lemma DependenciesClosed(g: Graph, stage: seq<int>, stages: seq<seq<nat>>, deps: seq<set<nat>>)
    requires Staged(g, stage, |stages|) && Dependencies(g, stage, stages, deps)
    ensures Closed(deps)
  {
  }

  lemma BetweenRanked(g: Graph, stage: seq<int>, stages: seq<seq<nat>>, deps: seq<set<nat>>, rank: seq<nat>)
    requires AcyclicBetween(g, stage, |stages|, rank) && Assigned(g, stage, stages) && Dependencies(g, stage, stages, deps)
    ensures RankedStages(deps, rank)
  {
    DependenciesClosed(g, stage, stages, deps);
    forall i: nat, d | i < |deps| && d in deps[i] ensures rank[d] < rank[i] {
      var list := stages[i];
      var l, x: nat :| 0 <= l < |list| && x < |g.ops| && stage[x] == d && Needs(g, list[l], x);
      assert Listed(|g.ops|, stage, i, AllTrue(|g.ops|), list);
      assert list[l] in list;
    }
  }

  /** Without cycles, what an operator needs runs before it. */
  lemma NeededBefore(g: Graph, stage: seq<int>, stages: seq<seq<nat>>, deps: seq<set<nat>>, order: seq<nat>, x: nat, y: nat)
    requires Staged(g, stage, |stages|) && Assigned(g, stage, stages) && Dependencies(g, stage, stages, deps)
    requires Below(|stages|, order) && (forall s: nat :: s < |stages| ==> s in order) && StagesInOrder(deps, order)
    requires forall k :: 0 <= k < |stages| ==> Topological(g, stage, k, stages[k])
    requires Needs(g, y, x)
    ensures RunsBefore(Arranged(stages, order), x, y)
  {
    var plan := Arranged(stages, order);
    var k, i := Locate(g, stage, stages, order, y);
    var list := stages[order[k]];
    if stage[x] == stage[y] {
      assert Topological(g, stage, order[k], list);
      assert MustPrecede(g, stage, order[k], x, list[i]);
      var j :| 0 <= j < i && list[j] == x;
      assert RunsAt(plan, x, k, j);
    } else {
      assert stage[x] in deps[order[k]] by {
        assert DependsBy(g, stage, order[k], list, |list|, stage[x]);
      }
      assert Emitted(order, k, stage[x]);
      var k' :| 0 <= k' < k && order[k'] == stage[x];
      assert Listed(|g.ops|, stage, stage[x], AllTrue(|g.ops|), stages[stage[x]]);
      var j :| 0 <= j < |stages[stage[x]]| && stages[stage[x]][j] == x;
      assert RunsAt(plan, x, k', j);
    }
  }

  // ---------------------------------------------------------------- the whole planner

  /** Operator `x` must run before operator `y`: it writes an input of `y`, or reads one that `y`
      mutates. */
  ghost predicate Requires(ops: seq<Op>, y: nat, x: nat) {
    Needs(Graph(ops, [], []), y, x)
  }

  ghost predicate WritesOwnInput(op: Op) {
    exists i :: 0 <= i < |op.inputs| && op.inputs[i] in op.outputs
  }

  /** Both operators are in one stage of the plan. */
  ghost predicate Together(plan: seq<seq<nat>>, x: nat, y: nat) {
    exists k :: 0 <= k < |plan| && x in plan[k] && y in plan[k]
  }

  /** Neither the operators within a stage nor the stages depend on each other in a cycle: `rank`
      orders the operators of a stage, `level` the stages. */
  ghost predicate Acyclic(ops: seq<Op>, plan: seq<seq<nat>>, rank: seq<nat>, level: seq<nat>) {
    && |rank| == |level| == |ops|
    && (forall x: nat, y: nat :: x < |ops| && y < |ops| && Together(plan, x, y) ==> level[x] == level[y])
    && (forall x: nat, y: nat :: Requires(ops, y, x) ==> if Together(plan, x, y) then rank[x] < rank[y] else level[x] < level[y])
  }

  lemma TogetherInStage(g: Graph, stage: seq<int>, stages: seq<seq<nat>>, order: seq<nat>, x: nat, y: nat)
    requires Staged(g, stage, |stages|) && Assigned(g, stage, stages) && x < |g.ops| && y < |g.ops|
    requires Below(|stages|, order) && forall s: nat :: s < |stages| ==> s in order
    ensures Together(Arranged(stages, order), x, y) <==> stage[x] == stage[y]
  {
    var plan := Arranged(stages, order);
    if k :| 0 <= k < |plan| && x in plan[k] && y in plan[k] {
      assert Listed(|g.ops|, stage, order[k], AllTrue(|g.ops|), stages[order[k]]);
    }
    if stage[x] == stage[y] {
      assert Listed(|g.ops|, stage, stage[x], AllTrue(|g.ops|), stages[stage[x]]);
      var own: nat := stage[x];
      assert own in order;
      var k :| 0 <= k < |order| && order[k] == own;
      assert x in plan[k] && y in plan[k];
    }
  }

  /** The level of the operators of each stage. */
  ghost function StageLevels(stages: seq<seq<nat>>, level: seq<nat>): (r: seq<nat>)
    ensures |r| == |stages|
    ensures forall k :: 0 <= k < |stages| && stages[k] != [] && stages[k][0] < |level| ==> r[k] == level[stages[k][0]]
  {
    seq(|stages|, k requires 0 <= k < |stages| => if stages[k] != [] && stages[k][0] < |level| then level[stages[k][0]] else 0)
  }

  lemma LevelsRank(g: Graph, stage: seq<int>, stages: seq<seq<nat>>, order: seq<nat>, rank: seq<nat>, level: seq<nat>)
    requires Staged(g, stage, |stages|) && Assigned(g, stage, stages)
    requires Below(|stages|, order) && forall s: nat :: s < |stages| ==> s in order
    requires Acyclic(g.ops, Arranged(stages, order), rank, level)
    ensures AcyclicWithin(g, stage, rank) && AcyclicBetween(g, stage, |stages|, StageLevels(stages, level))
  {
    forall x: nat | x < |g.ops| ensures StageLevels(stages, level)[stage[x]] == level[x] {
      assert Listed(|g.ops|, stage, stage[x], AllTrue(|g.ops|), stages[stage[x]]);
      var first := stages[stage[x]][0];
      assert first in stages[stage[x]];
      TogetherInStage(g, stage, stages, order, first, x);
    }
    forall x: nat, y: nat | Needs(g, y, x)
      ensures if stage[x] == stage[y] then rank[x] < rank[y]
              else StageLevels(stages, level)[stage[x]] < StageLevels(stages, level)[stage[y]]
    {
      assert Requires(g.ops, y, x);
      TogetherInStage(g, stage, stages, order, x, y);
    }
  }

  /** If operators have levels, the stages do not depend on each other in a cycle. */
  lemma LevelledAcyclic(g: Graph, disabled: seq<bool>, stage: seq<int>, stages: seq<seq<nat>>, order: seq<nat>, rank: seq<nat>, level: seq<nat>)
    requires Wired(g) && Staged(g, stage, |stages|) && Assigned(g, stage, stages) && Levelled(g, disabled, rank, level) && OneLevelEach(g, stage, level)
    requires Below(|stages|, order) && forall s: nat :: s < |stages| ==> s in order
    ensures Acyclic(g.ops, Arranged(stages, order), rank, level)
  {
    var plan := Arranged(stages, order);
    forall x: nat, y: nat | x < |g.ops| && y < |g.ops| && Together(plan, x, y) ensures level[x] == level[y] {
      TogetherInStage(g, stage, stages, order, x, y);
    }
    forall x: nat, y: nat | Requires(g.ops, y, x) ensures if Together(plan, x, y) then rank[x] < rank[y] else level[x] < level[y] {
      assert Needs(g, y, x);
      TogetherInStage(g, stage, stages, order, x, y);
      if level[x] == level[y] { ReachesTogether(g, disabled, rank, level, stage, x, y); }
    }
  }

  /** `partition`.  `None` is the panic on an operator that writes one of its own inputs. */
  method Partition(ops: seq<Op>, count: nat, disabled: seq<bool>, ghost rank: seq<nat>, ghost level: seq<nat>)
    returns (plan: Option<seq<seq<nat>>>, ghost g: Graph)
    requires forall i :: 0 <= i < |ops| ==> Below(count, ops[i].inputs) && Below(count, ops[i].outputs)
    requires |disabled| == |ops|
    ensures plan.Some? <==> forall x :: 0 <= x < |ops| ==> !WritesOwnInput(ops[x])
    ensures plan.Some? ==> RunsOnce(plan.value, |ops|)
    ensures plan.Some? && Acyclic(ops, plan.value, rank, level) ==>
              forall x: nat, y: nat :: Requires(ops, y, x) ==> RunsBefore(plan.value, x, y)
    ensures g.ops == ops && Wired(g) && (plan.Some? && Levelled(g, disabled, rank, level) ==> Acyclic(ops, plan.value, rank, level))
  {
    var graph := Wire(ops, count);
    g := graph;
    var ok, stages, stage := GroupOperators(graph, disabled, rank, level);
    assert forall x: nat :: x < |ops| ==> (TrivialCycle(g, x) <==> WritesOwnInput(ops[x]));
    if !ok {
      return None, g;
    }
    var deps := StageDependencies(graph, stage, stages);
    DependenciesClosed(g, stage, stages, deps);
    var order := SortStages(deps, StageLevels(stages, level));
    plan := Some(Arranged(stages, order));
    PlanOnce(g, stage, stages, order);
    if Levelled(g, disabled, rank, level) { LevelledAcyclic(g, disabled, stage, stages, order, rank, level); }
    if Acyclic(ops, plan.value, rank, level) {
      LevelsRank(g, stage, stages, order, rank, level);
      PlanInOrder(g, stage, stages, deps, order, rank, StageLevels(stages, level));
    }
  }

  lemma PlanInOrder(g: Graph, stage: seq<int>, stages: seq<seq<nat>>, deps: seq<set<nat>>, order: seq<nat>, rank: seq<nat>, stageRank: seq<nat>)
    requires Staged(g, stage, |stages|) && Assigned(g, stage, stages) && Dependencies(g, stage, stages, deps)
    requires Below(|stages|, order) && (forall s: nat :: s < |stages| ==> s in order)
    requires RankedStages(deps, stageRank) ==> StagesInOrder(deps, order)
    requires forall k :: 0 <= k < |stages| && Ranked(g, stage, k, rank) ==> Topological(g, stage, k, stages[k])
    requires AcyclicWithin(g, stage, rank) && AcyclicBetween(g, stage, |stages|, stageRank)
    ensures forall x: nat, y: nat :: Requires(g.ops, y, x) ==> RunsBefore(Arranged(stages, order), x, y)
  {
    BetweenRanked(g, stage, stages, deps, stageRank);
    forall k | 0 <= k < |stages| ensures Topological(g, stage, k, stages[k]) {
      WithinRanked(g, stage, rank, k);
    }
    forall x: nat, y: nat | Requires(g.ops, y, x) ensures RunsBefore(Arranged(stages, order), x, y) {
      assert Needs(g, y, x);
      NeededBefore(g, stage, stages, deps, order, x, y);
    }
  }
}
