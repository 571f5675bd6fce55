/** Two plans.  In the first the test for cycles keeps an operator out of a stage that it would close a
    cycle with.  In the second two stages depend on each other, as the test looks at one stage only. */
module StageExamples {
  import opened OperatorGraph
  import opened StageOrder
  import opened StageGrowth
  import opened LevelledGraphs
  import opened Stages

  /** `p` writes a buffer that `c` reads. */
  ghost predicate Feeds(g: Graph, p: nat, c: nat) {
    p < |g.ops| && c < |g.ops| && exists b :: b in g.ops[p].outputs && b in g.ops[c].inputs
  }

  lemma FeedsParent(g: Graph, p: nat, c: nat)
    requires Wired(g) && p < |g.ops| && c < |g.ops|
    ensures Feeds(g, p, c) <==> p in Parents(g, c)
    ensures Feeds(g, p, c) <==> c in Children(g, p)
  {
    ParentsChildren(g, c, p);
  }

  lemma FeedsNeeded(g: Graph, p: nat, c: nat)
    requires (forall i :: 0 <= i < |g.ops| ==> g.ops[i].mutates == {})
    ensures Needs(g, c, p) <==> Feeds(g, p, c)
  {
    if Feeds(g, p, c) {
      var b :| b in g.ops[p].outputs && b in g.ops[c].inputs;
      var k :| 0 <= k < |g.ops[c].inputs| && g.ops[c].inputs[k] == b;
      assert Link(g, c, g.ops[c].inputs[k], p);
    }
  }

  // ---------------------------------------------------------------- a levelled plan

  /** Operator 0 feeds 1, which must wait for all of it, and 2, which need not; 1 streams to 2. */
  ghost predicate Skipping(g: Graph, disabled: seq<bool>) {
    && Wired(g) && |g.ops| == |disabled| == 3 && (forall i :: 0 <= i < |g.ops| ==> g.ops[i].mutates == {})
    && (forall p: nat, c: nat :: Feeds(g, p, c) <==> SkippingEdge(p, c))
    && (forall p: nat, c: nat :: Streams(g, disabled, p, c) <==> SkippingEdge(p, c) && c == 2)
  }

  predicate SkippingEdge(p: nat, c: nat) {
    (p == 0 && c == 1) || (p == 0 && c == 2) || (p == 1 && c == 2)
  }

  lemma SkippingNeeds(g: Graph, disabled: seq<bool>, p: nat, c: nat)
    requires Skipping(g, disabled)
    ensures Needs(g, c, p) <==> SkippingEdge(p, c)
    ensures p < 3 && c < 3 ==> (p in Parents(g, c) <==> SkippingEdge(p, c))
    ensures SkippingEdge(p, c) ==> Reaches(g, false, p, c)
  {
    FeedsNeeded(g, p, c);
    if p < 3 && c < 3 { FeedsParent(g, p, c); }
    if SkippingEdge(p, c) { EdgeReaches(g, false, p, c); }
  }

  lemma SkippingBarred(g: Graph, disabled: seq<bool>)
    requires Skipping(g, disabled)
    ensures Barred(g, [0, 1, 1], 0, 2)
  {
    SkippingNeeds(g, disabled, 0, 1);
    SkippingNeeds(g, disabled, 1, 2);
    var level: seq<nat> := [0, 1, 1];
    assert 1 in Parents(g, 2) && Reaches(g, false, 0, 1) && level[1] > level[0];
    assert Early(level, 0, 1);
  }

  /** Its operators have levels, though data can be streamed from the lower to the higher one. */
  lemma SkippingLevelled(g: Graph, disabled: seq<bool>)
    requires Skipping(g, disabled)
    ensures Levelled(g, disabled, [0, 1, 2], [0, 1, 1])
  {
    var rank: seq<nat>, level: seq<nat> := [0, 1, 2], [0, 1, 1];
    forall x: nat, y: nat | Needs(g, y, x)
      ensures rank[x] < rank[y] && level[x] <= level[y] && (level[x] == level[y] ==> Reaches(g, false, x, y))
    {
      SkippingNeeds(g, disabled, x, y);
    }
    forall x: nat, y: nat | y < |g.ops| && x in Parents(g, y) && level[x] == level[y] ensures Streams(g, disabled, x, y) {
      SkippingNeeds(g, disabled, x, y);
    }
    forall p: nat, y: nat | Streams(g, disabled, p, y) && level[p] < level[y] ensures Barred(g, level, p, y) {
      assert SkippingEdge(p, y);
      SkippingBarred(g, disabled);
    }
  }

  /** The operators of such a plan. */
  function SkippingOps(): seq<Op> {
    [Op([], [0, 1], {}, {0}, {}), Op([1], [2], {}, {2}, {}), Op([0, 2], [3], {0, 2}, {}, {})]
  }

  lemma SkippingFeeds(g: Graph, disabled: seq<bool>, p: nat, c: nat)
    requires g.ops == SkippingOps() && disabled == [false, false, false] && p < 3 && c < 3
    ensures Feeds(g, p, c) <==> SkippingEdge(p, c)
    ensures Streams(g, disabled, p, c) <==> SkippingEdge(p, c) && c == 2
  {
    var ops := SkippingOps();
    assert ops[0].outputs == [0, 1] && ops[1].outputs == [2] && ops[2].outputs == [3];
    assert ops[0].inputs == [] && ops[1].inputs == [1] && ops[2].inputs == [0, 2];
    if p == 0 && c == 1 { assert 1 in g.ops[p].outputs && 1 in g.ops[c].inputs; }
    if p == 0 && c == 2 { assert 0 in g.ops[p].outputs && 0 in g.ops[c].inputs && CanStream(g, disabled, 0, p, c); }
    if p == 1 && c == 2 { assert 2 in g.ops[p].outputs && 2 in g.ops[c].inputs && CanStream(g, disabled, 2, p, c); }
  }

  lemma SkippingIs(g: Graph, disabled: seq<bool>)
    requires Wired(g) && g.ops == SkippingOps() && disabled == [false, false, false]
    ensures Skipping(g, disabled)
  {
    forall p: nat, c: nat ensures Feeds(g, p, c) <==> SkippingEdge(p, c) { if p < 3 && c < 3 { SkippingFeeds(g, disabled, p, c); } }
    forall p: nat, c: nat ensures Streams(g, disabled, p, c) <==> SkippingEdge(p, c) && c == 2 {
      if p < 3 && c < 3 { SkippingFeeds(g, disabled, p, c); }
    }
  }

  /** Without an assumption about the plan, its operators run after all that they need, and 2 is kept out
      of the stage of 0. */
  method PlanSkipping() returns (plan: seq<seq<nat>>)
    ensures RunsOnce(plan, 3) && RunsBefore(plan, 0, 1) && RunsBefore(plan, 0, 2) && RunsBefore(plan, 1, 2)
    ensures !Together(plan, 0, 2) && !Together(plan, 0, 1)
  {
    var ops, disabled := SkippingOps(), [false, false, false];
    var r, g := Partition(ops, 4, disabled, [0, 1, 2], [0, 1, 1]);
    SkippingIs(g, disabled);
    SkippingLevelled(g, disabled);
    assert r.Some?;
    plan := r.value;
    forall p: nat, c: nat | SkippingEdge(p, c) ensures RunsBefore(plan, p, c) {
      SkippingNeeds(g, disabled, p, c);
      assert Requires(ops, c, p);
    }
    assert SkippingEdge(0, 1) && SkippingEdge(0, 2) && SkippingEdge(1, 2);
  }

  // ---------------------------------------------------------------- crossed streams

  /** Operators 0 and 1 both feed 2 and 3; 0 streams to 2 only, and 1 to 3 only. */
  ghost predicate Crossed(g: Graph, disabled: seq<bool>) {
    && Wired(g) && |g.ops| == |disabled| == 4 && (forall i :: 0 <= i < |g.ops| ==> g.ops[i].mutates == {})
    && (forall p: nat, c: nat :: Feeds(g, p, c) <==> p < 2 && 2 <= c < 4)
    && (forall p: nat, c: nat :: Streams(g, disabled, p, c) <==> p < 2 && c == p + 2)
  }

  /** Nothing reaches the first operators but themselves. */
  lemma CrossedReaches(g: Graph, disabled: seq<bool>, ops: seq<nat>, y: nat)
    requires Crossed(g, disabled) && ReachedFrom(g, false, ops, y) && y < 2
    ensures y in ops
  {
    var k :| 0 <= k < |ops| && Reaches(g, false, ops[k], y);
    var path :| Path(g, false, path) && path[0] == ops[k] && path[|path| - 1] == y;
    if |path| > 1 {
      var w := path[|path| - 2];
      assert y in Edges(g, false, w);
      FeedsParent(g, w, y);
    }
  }

  lemma CrossedClear(g: Graph, disabled: seq<bool>, ops: seq<nat>, c: nat)
    requires Crossed(g, disabled) && 2 <= c < 4
    ensures Clear(g, false, ops, c)
  {
    var list := Edges(g, true, c);
    forall y | y in list && ReachedFrom(g, false, ops, y) ensures y in ops {
      var k :| 0 <= k < |list| && list[k] == y;
      FeedsParent(g, y, c);
      CrossedReaches(g, disabled, ops, y);
    }
  }

  /** A stage does not get beyond the pair it starts with. */
  lemma {:induction false} CrossedPair(g: Graph, disabled: seq<bool>, first: nat, ops: seq<nat>, n: nat)
    requires Crossed(g, disabled) && first < 2 && Explained(g, disabled, first, ops) && n <= |ops|
    ensures forall i: nat :: i < n ==> ops[i] == first || ops[i] == first + 2
  {
    if n > 0 {
      var j: nat := n - 1;
      CrossedPair(g, disabled, first, ops, j);
      if ops[j] != first {
        assert TakenIn(g, disabled, ops, j, ops[j]);
        var m: nat, up :| m <= j && m <= |ops| && Adjoins(g, disabled, up, ops[..m], ops[j]) && Clear(g, up, ops[..m], ops[j]);
        var k :| 0 <= k < m && Neighbour(g, disabled, up, ops[j], ops[..m][k]);
        assert ops[..m][k] == ops[k];
      }
    }
  }

  /** And it gets to both. */
  lemma CrossedStage(g: Graph, disabled: seq<bool>, stage0: seq<int>, cur: nat, first: nat, s: Growth)
    requires Crossed(g, disabled) && first < 2 && Growing(g, stage0, cur, s) && s.toVisit == [] && first in s.ops && Grown(g, disabled, first, s)
    requires stage0[first + 2] < 0
    ensures forall x: nat :: x < 4 ==> (s.stage[x] == cur <==> x == first || x == first + 2)
  {
    CrossedPair(g, disabled, first, s.ops, |s.ops|);
    var c := first + 2;
    CrossedClear(g, disabled, s.ops, c);
    if c !in s.ops {
      var k :| 0 <= k < |s.ops| && s.ops[k] == first;
      assert Neighbour(g, disabled, false, c, s.ops[k]);
    }
  }

  /** The operators of such a plan. */
  function CrossedOps(): seq<Op> {
    [Op([], [0, 1], {}, {0}, {}), Op([], [2, 3], {}, {3}, {}), Op([0, 2], [4], {0}, {}, {}), Op([1, 3], [5], {3}, {}, {})]
  }

  lemma CrossedFeeds(g: Graph, disabled: seq<bool>, p: nat, c: nat)
    requires g.ops == CrossedOps() && disabled == [false, false, false, false] && p < 4 && c < 4
    ensures Feeds(g, p, c) <==> p < 2 && 2 <= c < 4
    ensures Streams(g, disabled, p, c) <==> p < 2 && c == p + 2
  {
    var ops := CrossedOps();
    assert ops[0].outputs == [0, 1] && ops[1].outputs == [2, 3] && ops[2].outputs == [4] && ops[3].outputs == [5];
    assert ops[0].inputs == [] && ops[1].inputs == [] && ops[2].inputs == [0, 2] && ops[3].inputs == [1, 3];
    if p == 0 && c == 2 { assert 0 in g.ops[p].outputs && 0 in g.ops[c].inputs && CanStream(g, disabled, 0, p, c); }
    if p == 0 && c == 3 { assert 1 in g.ops[p].outputs && 1 in g.ops[c].inputs; }
    if p == 1 && c == 2 { assert 2 in g.ops[p].outputs && 2 in g.ops[c].inputs; }
    if p == 1 && c == 3 { assert 3 in g.ops[p].outputs && 3 in g.ops[c].inputs && CanStream(g, disabled, 3, p, c); }
  }

  lemma CrossedIs(g: Graph, disabled: seq<bool>)
    requires Wired(g) && g.ops == CrossedOps() && disabled == [false, false, false, false]
    ensures Crossed(g, disabled)
  {
    forall p: nat, c: nat ensures Feeds(g, p, c) <==> p < 2 && 2 <= c < 4 { if p < 4 && c < 4 { CrossedFeeds(g, disabled, p, c); } }
    forall p: nat, c: nat ensures Streams(g, disabled, p, c) <==> p < 2 && c == p + 2 { if p < 4 && c < 4 { CrossedFeeds(g, disabled, p, c); } }
  }

  /** Each of the first two operators makes up a stage with the one it streams to. */
  method GrowCrossed(g: Graph, disabled: seq<bool>) returns (stage: seq<int>)
    requires Crossed(g, disabled)
    ensures stage == [0, 1, 0, 1]
  {
    var none, unvisited := [-1, -1, -1, -1], [false, false, false, false];
    var s := GrowStage(g, disabled, unvisited, none, 0, 0);
    CrossedStage(g, disabled, none, 0, 0, s);
    var visited, stage0 := s.visited, s.stage;
    assert stage0 == [0, -1, 0, -1] && !visited[1];
    var t := GrowStage(g, disabled, visited, stage0, 1, 1);
    CrossedStage(g, disabled, stage0, 1, 1, t);
    stage := t.stage;
  }

  /** The plan has no cycle among its operators, and yet its two stages depend on each other. */
  method CrossedStreams() returns (g: Graph, stage: seq<int>)
    ensures Wired(g) && g.ops == CrossedOps() && stage == [0, 1, 0, 1]
    ensures forall x: nat, y: nat :: Needs(g, y, x) ==> x < y
    ensures forall rank: seq<nat> :: !AcyclicBetween(g, stage, 2, rank)
  {
    var ops := CrossedOps();
    g := Wire(ops, 6);
    var disabled := [false, false, false, false];
    CrossedIs(g, disabled);
    stage := GrowCrossed(g, disabled);
    CrossedCycle(g, disabled, stage);
  }

  lemma CrossedCycle(g: Graph, disabled: seq<bool>, stage: seq<int>)
    requires Crossed(g, disabled) && |stage| == 4 && stage[0] == stage[2] == 0 && stage[1] == stage[3] == 1
    ensures forall x: nat, y: nat :: Needs(g, y, x) ==> x < y
    ensures forall rank: seq<nat> :: !AcyclicBetween(g, stage, 2, rank)
  {
    forall x: nat, y: nat ensures Needs(g, y, x) <==> Feeds(g, x, y) { FeedsNeeded(g, x, y); }
    assert Needs(g, 2, 1) && Needs(g, 3, 0);
  }
}
