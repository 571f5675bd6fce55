/** Plans for which the stages cannot depend on each other in a cycle.  Operators have levels that never
    fall along the data, data are streamed within a level, and where data could be streamed to a higher
    level as well, the test for cycles keeps the two levels apart. */
module LevelledGraphs {
  import opened OperatorGraph
  import opened StageOrder
  import opened StageGrowth

  /** Operator `p`, which can stream to `y` on a higher level, is not taken into a stage with it: `y` reads
      from an operator above the level of `p` that depends on `p`; and `p` has its stage before any
      operator of the level of `y` is looked at, or is read by an operator below that level that `y`
      depends on. */
  ghost predicate Barred(g: Graph, level: seq<nat>, p: nat, y: nat)
    requires Wired(g) && |level| == |g.ops| && p < |g.ops| && y < |g.ops|
  {
    && (exists q :: q in Parents(g, y) && Reaches(g, false, p, q) && level[q] > level[p])
    && (Early(level, p, level[y]) || exists c :: c in Children(g, p) && Reaches(g, true, y, c) && level[c] < level[y])
  }

  ghost predicate Early(level: seq<nat>, p: nat, l: nat) {
    forall z: nat :: z < |level| && level[z] == l ==> p < z
  }

  /** `rank` shows that operators do not depend on each other in a cycle, and `level` is as above. */
  ghost predicate Levelled(g: Graph, disabled: seq<bool>, rank: seq<nat>, level: seq<nat>)
    requires Wired(g)
  {
    && |rank| == |level| == |disabled| == |g.ops|
    && (forall x: nat, y: nat :: Needs(g, y, x) ==> rank[x] < rank[y] && level[x] <= level[y] && (level[x] == level[y] ==> Reaches(g, false, x, y)))
    && (forall x: nat, y: nat :: y < |g.ops| && x in Parents(g, y) && level[x] == level[y] ==> Streams(g, disabled, x, y))
    && (forall p: nat, y: nat :: Streams(g, disabled, p, y) && level[p] < level[y] ==> Barred(g, level, p, y))
  }

  lemma ParentNeeded(g: Graph, x: nat, y: nat)
    requires Wired(g) && x < |g.ops| && y < |g.ops| && x in Parents(g, y)
    ensures Needs(g, y, x)
  {
    ParentsChildren(g, y, x);
    var b :| b in g.ops[y].inputs && b in g.ops[x].outputs;
    var k :| 0 <= k < |g.ops[y].inputs| && g.ops[y].inputs[k] == b;
    assert Link(g, y, g.ops[y].inputs[k], x);
  }

  lemma StreamsParent(g: Graph, disabled: seq<bool>, p: nat, c: nat)
    requires Wired(g) && Streams(g, disabled, p, c)
    ensures p in Parents(g, c)
  {
    ParentsChildren(g, c, p);
  }

  /** What holds of an edge, in either direction. */
  lemma EdgeLevels(g: Graph, disabled: seq<bool>, rank: seq<nat>, level: seq<nat>, up: bool, a: nat, b: nat)
    requires Wired(g) && Levelled(g, disabled, rank, level) && a < |g.ops| && b in Edges(g, up, a)
    ensures b < |g.ops| && a in Edges(g, !up, b)
    ensures if up then rank[b] < rank[a] && level[b] <= level[a] else rank[a] < rank[b] && level[a] <= level[b]
    ensures level[a] == level[b] ==> Neighbour(g, disabled, up, b, a)
  {
    var k :| 0 <= k < |Edges(g, up, a)| && Edges(g, up, a)[k] == b;
    if up {
      ParentsChildren(g, a, b);
      ParentNeeded(g, b, a);
    } else {
      ParentsChildren(g, b, a);
      ParentNeeded(g, a, b);
    }
  }

  /** Levels do not fall, or rise, along a path. */
  lemma {:induction false} PathLevels(g: Graph, disabled: seq<bool>, rank: seq<nat>, level: seq<nat>, up: bool, path: seq<nat>, k: nat)
    requires Wired(g) && Levelled(g, disabled, rank, level) && Path(g, up, path) && k < |path|
    ensures if up then level[path[k]] <= level[path[0]] else level[path[0]] <= level[path[k]]
  {
    if k > 0 {
      PathLevels(g, disabled, rank, level, up, path, k - 1);
      EdgeLevels(g, disabled, rank, level, up, path[k - 1], path[k]);
    }
  }

  lemma ReachedLevels(g: Graph, disabled: seq<bool>, rank: seq<nat>, level: seq<nat>, up: bool, ops: seq<nat>, l: nat, y: nat)
    requires Wired(g) && Levelled(g, disabled, rank, level) && ReachedFrom(g, up, ops, y) && AllAt(level, ops, l)
    ensures y < |g.ops| && if up then level[y] <= l else l <= level[y]
  {
    var k :| 0 <= k < |ops| && Reaches(g, up, ops[k], y);
    var path :| Path(g, up, path) && path[0] == ops[k] && path[|path| - 1] == y;
    PathLevels(g, disabled, rank, level, up, path, |path| - 1);
  }

  // ---------------------------------------------------------------- a stage has one level

  ghost predicate AllAt(level: seq<nat>, ops: seq<nat>, l: nat) {
    forall i: nat :: i < |ops| ==> ops[i] < |level| && level[ops[i]] == l
  }

  lemma AllAtSnoc(level: seq<nat>, ops: seq<nat>, i: nat, l: nat)
    requires i < |ops| && AllAt(level, ops[..i], l) && ops[i] < |level| && level[ops[i]] == l
    ensures AllAt(level, ops[..i + 1], l)
  {
    var front, more := ops[..i], ops[..i + 1];
    forall j: nat | j < |more| ensures more[j] < |level| && level[more[j]] == l {
      if j < i { assert more[j] == front[j]; }
    }
  }

  /** What the test admits beside the stage is in it. */
  lemma ClearLevel(g: Graph, level: seq<nat>, up: bool, before: seq<nat>, l: nat, x: nat, k: nat, y: nat)
    requires Wired(g) && x < |g.ops| && AllAt(level, before, l) && Clear(g, up, before, x) && k < |before|
    requires y in Edges(g, !up, x) && Reaches(g, up, before[k], y)
    ensures y < |level| && level[y] == l
  {
    assert ReachedFrom(g, up, before, y);
    assert y in before;
  }

  lemma ProducerLevel(g: Graph, disabled: seq<bool>, rank: seq<nat>, level: seq<nat>, before: seq<nat>, l: nat, x: nat, k: nat)
    requires Wired(g) && Levelled(g, disabled, rank, level) && x < |g.ops| && AllAt(level, before, l) && k < |before|
    requires Streams(g, disabled, x, before[k]) && Clear(g, true, before, x) && !Early(level, x, l)
    ensures level[x] == l
  {
    var u := before[k];
    StreamsParent(g, disabled, x, u);
    EdgeLevels(g, disabled, rank, level, true, u, x);
    if level[x] < l {
      assert Barred(g, level, x, u);
      var c :| c in Children(g, x) && Reaches(g, true, u, c) && level[c] < level[u];
      ClearLevel(g, level, true, before, l, x, k, c);
    }
  }

  lemma ConsumerLevel(g: Graph, disabled: seq<bool>, rank: seq<nat>, level: seq<nat>, before: seq<nat>, l: nat, x: nat, k: nat)
    requires Wired(g) && Levelled(g, disabled, rank, level) && x < |g.ops| && AllAt(level, before, l) && k < |before|
    requires Streams(g, disabled, before[k], x) && Clear(g, false, before, x)
    ensures level[x] == l
  {
    var u := before[k];
    StreamsParent(g, disabled, u, x);
    EdgeLevels(g, disabled, rank, level, true, x, u);
    if level[x] > l {
      assert Barred(g, level, u, x);
      var q :| q in Parents(g, x) && Reaches(g, false, u, q) && level[q] > level[u];
      ClearLevel(g, level, false, before, l, x, k, q);
    }
  }

  lemma TakenLevel(g: Graph, disabled: seq<bool>, rank: seq<nat>, level: seq<nat>, up: bool, before: seq<nat>, l: nat, x: nat)
    requires Wired(g) && Levelled(g, disabled, rank, level) && x < |g.ops| && AllAt(level, before, l)
    requires Adjoins(g, disabled, up, before, x) && Clear(g, up, before, x) && !Early(level, x, l)
    ensures level[x] == l
  {
    var k :| 0 <= k < |before| && Neighbour(g, disabled, up, x, before[k]);
    if up {
      ProducerLevel(g, disabled, rank, level, before, l, x, k);
    } else {
      ConsumerLevel(g, disabled, rank, level, before, l, x, k);
    }
  }

  /** All operators of a stage have the level of the first one. */
  lemma {:induction false} StageLevel(g: Graph, disabled: seq<bool>, rank: seq<nat>, level: seq<nat>, stage0: seq<int>, first: nat, ops: seq<nat>, n: nat)
    requires Wired(g) && Levelled(g, disabled, rank, level) && |stage0| == |g.ops| && first < |g.ops| && n <= |ops|
    requires Explained(g, disabled, first, ops) && Fresh(stage0, ops) && forall x: nat :: x < first ==> stage0[x] >= 0
    ensures AllAt(level, ops[..n], level[first])
  {
    if n > 0 {
      var i: nat := n - 1;
      StageLevel(g, disabled, rank, level, stage0, first, ops, i);
      NextLevel(g, disabled, rank, level, stage0, first, ops, i);
      AllAtSnoc(level, ops, i, level[first]);
    }
  }

  lemma NextLevel(g: Graph, disabled: seq<bool>, rank: seq<nat>, level: seq<nat>, stage0: seq<int>, first: nat, ops: seq<nat>, i: nat)
    requires Wired(g) && Levelled(g, disabled, rank, level) && |stage0| == |g.ops| && first < |g.ops| && i < |ops|
    requires Explained(g, disabled, first, ops) && Fresh(stage0, ops) && forall x: nat :: x < first ==> stage0[x] >= 0
    requires AllAt(level, ops[..i], level[first])
    ensures ops[i] < |level| && level[ops[i]] == level[first]
  {
    var x := ops[i];
    if x != first {
      assert TakenIn(g, disabled, ops, i, x);
      var m: nat, up :| m <= i && m <= |ops| && Adjoins(g, disabled, up, ops[..m], x) && Clear(g, up, ops[..m], x);
      assert AllAt(level, ops[..m], level[first]) by { assert forall j: nat :: j < m ==> ops[..m][j] == ops[..i][j]; }
      assert !Early(level, x, level[first]) by { assert stage0[x] < 0; }
      TakenLevel(g, disabled, rank, level, up, ops[..m], level[first], x);
    }
  }

  // ---------------------------------------------------------------- and all of its neighbours of that level

  /** Operators of one level that exchange data are in the same stage. */
  ghost predicate Complete(g: Graph, stage: seq<int>, level: seq<nat>)
    requires Wired(g) && |stage| == |level| == |g.ops|
  {
    forall x: nat, y: nat :: y < |g.ops| && x in Parents(g, y) && level[x] == level[y] && (stage[x] >= 0 || stage[y] >= 0) ==> stage[x] == stage[y]
  }

  /** Neighbours of one level both belong to earlier stages, or neither does. */
  lemma NotEarlier(g: Graph, stage: seq<int>, level: seq<nat>, up: bool, a: nat, b: nat)
    requires Wired(g) && |stage| == |level| == |g.ops| && Complete(g, stage, level) && a < |g.ops| && b in Edges(g, up, a)
    requires b < |g.ops| && a in Edges(g, !up, b) && level[a] == level[b] && stage[b] < 0
    ensures stage[a] < 0
  {
  }

  /** The stage is finished, and of one level. */
  ghost predicate AtLevel(g: Graph, disabled: seq<bool>, rank: seq<nat>, level: seq<nat>, stage0: seq<int>, cur: nat, first: nat, s: Growth, l: nat) {
    && Wired(g) && Levelled(g, disabled, rank, level) && Growing(g, stage0, cur, s) && s.toVisit == [] && Grown(g, disabled, first, s)
    && Complete(g, stage0, level) && AllAt(level, s.ops, l)
  }

  ghost function Measure(rank: seq<nat>, top: nat, up: bool, z: nat): nat
    requires z < |rank|
  {
    if up then (if rank[z] <= top then top - rank[z] else 0) else rank[z]
  }

  /** The operator before `z` on a path from the stage. */
  lemma OnTheWay(g: Graph, disabled: seq<bool>, rank: seq<nat>, level: seq<nat>, ops: seq<nat>, l: nat, top: nat, up: bool, z: nat) returns (w: nat)
    requires Wired(g) && Levelled(g, disabled, rank, level) && AllAt(level, ops, l) && forall x: nat :: x < |rank| ==> rank[x] <= top
    requires z < |g.ops| && level[z] == l && ReachedFrom(g, up, ops, z) && z !in ops
    ensures w < |g.ops| && z in Edges(g, up, w) && w in Edges(g, !up, z) && level[w] == l && ReachedFrom(g, up, ops, w)
    ensures Measure(rank, top, up, w) < Measure(rank, top, up, z) && Neighbour(g, disabled, up, z, w)
  {
    var k :| 0 <= k < |ops| && Reaches(g, up, ops[k], z);
    var path :| Path(g, up, path) && path[0] == ops[k] && path[|path| - 1] == z;
    assert ops[k] in ops && |path| > 1;
    var n := |path| - 1;
    w := path[n - 1];
    var front := path[..n];
    assert Path(g, up, front) && front[0] == ops[k] && front[|front| - 1] == w;
    assert Reaches(g, up, ops[k], w);
    ReachedLevels(g, disabled, rank, level, up, ops, l, w);
    assert z in Edges(g, up, path[n - 1]);
    EdgeLevels(g, disabled, rank, level, up, w, z);
  }

  /** A neighbour of the stage that belongs to no stage has another one in its way. */
  lemma Obstacle(g: Graph, disabled: seq<bool>, rank: seq<nat>, level: seq<nat>, stage0: seq<int>, cur: nat, first: nat, s: Growth, l: nat,
                 top: nat, up: bool, w: nat, z: nat) returns (y: nat)
    requires AtLevel(g, disabled, rank, level, stage0, cur, first, s, l) && forall x: nat :: x < |rank| ==> rank[x] <= top
    requires z < |g.ops| && level[z] == l && stage0[z] < 0 && z !in s.ops && w in s.ops && Neighbour(g, disabled, up, z, w)
    ensures y < |g.ops| && y in Edges(g, !up, z) && z in Edges(g, up, y) && level[y] == l && ReachedFrom(g, up, s.ops, y) && y !in s.ops
    ensures Measure(rank, top, up, y) < Measure(rank, top, up, z)
  {
    var k :| 0 <= k < |s.ops| && s.ops[k] == w;
    assert s.stage[z] == stage0[z] && !s.visited[z];
    assert !Clear(g, up, s.ops, z);
    y :| y in Edges(g, !up, z) && ReachedFrom(g, up, s.ops, y) && y !in s.ops;
    ReachedLevels(g, disabled, rank, level, up, s.ops, l, y);
    EdgeLevels(g, disabled, rank, level, !up, z, y);
  }

  /** An operator of that level that a stage transitively reads from, or writes to, is in it. */
  lemma {:induction false} ReachedIsIn(g: Graph, disabled: seq<bool>, rank: seq<nat>, level: seq<nat>, stage0: seq<int>, cur: nat, first: nat, s: Growth, l: nat,
                                       top: nat, up: bool, z: nat)
    requires AtLevel(g, disabled, rank, level, stage0, cur, first, s, l) && forall x: nat :: x < |rank| ==> rank[x] <= top
    requires z < |g.ops| && level[z] == l && ReachedFrom(g, up, s.ops, z) && stage0[z] < 0
    ensures z in s.ops
    decreases Measure(rank, top, up, z)
  {
    if z !in s.ops {
      var w := OnTheWay(g, disabled, rank, level, s.ops, l, top, up, z);
      NotEarlier(g, stage0, level, up, w, z);
      ReachedIsIn(g, disabled, rank, level, stage0, cur, first, s, l, top, up, w);
      var y := Obstacle(g, disabled, rank, level, stage0, cur, first, s, l, top, up, w, z);
      NotEarlier(g, stage0, level, up, y, z);
      ReachedIsIn(g, disabled, rank, level, stage0, cur, first, s, l, top, up, y);
    }
  }

  ghost function Top(rank: seq<nat>): (t: nat)
    ensures forall x: nat :: x < |rank| ==> rank[x] <= t
  {
    if rank == [] then 0
    else
      var t := Top(rank[..|rank| - 1]);
      assert forall x: nat :: x < |rank| - 1 ==> rank[x] == rank[..|rank| - 1][x];
      if t < rank[|rank| - 1] then rank[|rank| - 1] else t
  }

  lemma EdgeReaches(g: Graph, up: bool, a: nat, b: nat)
    requires Wired(g) && a < |g.ops| && b < |g.ops| && b in Edges(g, up, a)
    ensures Reaches(g, up, a, b)
  {
    var path := [a, b];
    assert Path(g, up, path);
  }

  /** A neighbour of that level is in the stage. */
  lemma NeighbourIsIn(g: Graph, disabled: seq<bool>, rank: seq<nat>, level: seq<nat>, stage0: seq<int>, cur: nat, first: nat, s: Growth, l: nat, up: bool, a: nat, b: nat)
    requires AtLevel(g, disabled, rank, level, stage0, cur, first, s, l)
    requires a < |g.ops| && a in s.ops && b in Edges(g, up, a) && b < |g.ops| && level[b] == l && stage0[b] < 0
    ensures b in s.ops
  {
    var k :| 0 <= k < |s.ops| && s.ops[k] == a;
    EdgeReaches(g, up, a, b);
    ReachedIsIn(g, disabled, rank, level, stage0, cur, first, s, l, Top(rank), up, b);
  }

  lemma StageComplete(g: Graph, disabled: seq<bool>, rank: seq<nat>, level: seq<nat>, stage0: seq<int>, cur: nat, first: nat, s: Growth, l: nat)
    requires AtLevel(g, disabled, rank, level, stage0, cur, first, s, l)
    ensures Complete(g, s.stage, level)
  {
    forall x: nat, y: nat | y < |g.ops| && x in Parents(g, y) && level[x] == level[y] && (s.stage[x] >= 0 || s.stage[y] >= 0)
      ensures s.stage[x] == s.stage[y]
    {
      EdgeLevels(g, disabled, rank, level, true, y, x);
      if stage0[x] < 0 && stage0[y] < 0 {
        if x in s.ops { NeighbourIsIn(g, disabled, rank, level, stage0, cur, first, s, l, false, x, y); }
        if y in s.ops { NeighbourIsIn(g, disabled, rank, level, stage0, cur, first, s, l, true, y, x); }
      }
    }
  }

  // ---------------------------------------------------------------- along a path

  /** If neighbours of one level are in one stage, so are operators of one level of which one reaches the
      other. */
  lemma {:induction false} PathTogether(g: Graph, disabled: seq<bool>, rank: seq<nat>, level: seq<nat>, stage: seq<int>, path: seq<nat>, k: nat)
    requires Wired(g) && Levelled(g, disabled, rank, level) && |stage| == |g.ops| && Complete(g, stage, level)
    requires Path(g, false, path) && k < |path| && level[path[0]] == level[path[k]] && stage[path[0]] >= 0
    ensures stage[path[0]] == stage[path[k]]
  {
    if k > 0 {
      var j: nat := k - 1;
      PathLevels(g, disabled, rank, level, false, path, j);
      EdgeLevels(g, disabled, rank, level, false, path[j], path[k]);
      PathTogether(g, disabled, rank, level, stage, path, j);
    }
  }

  lemma ReachesTogether(g: Graph, disabled: seq<bool>, rank: seq<nat>, level: seq<nat>, stage: seq<int>, x: nat, y: nat)
    requires Wired(g) && Levelled(g, disabled, rank, level) && |stage| == |g.ops| && Complete(g, stage, level)
    requires x < |g.ops| && y < |g.ops| && Reaches(g, false, x, y) && level[x] == level[y] && stage[x] >= 0
    ensures stage[x] == stage[y]
  {
    var path :| Path(g, false, path) && path[0] == x && path[|path| - 1] == y;
    PathTogether(g, disabled, rank, level, stage, path, |path| - 1);
  }
}
