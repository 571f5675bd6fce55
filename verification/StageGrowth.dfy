/** How operators are grouped into stages: a stage grows along edges that can be streamed.  An
    operator that would close a cycle is put off and looked at again when the stage has grown. */
module StageGrowth {
  import opened OperatorGraph
  import opened StageOrder
  import opened Seqs

  /** The state of a growing stage.  `inputs` and `outputs` mark what the stage transitively reads
      from and writes to. */
  datatype Growth = Growth(visited: seq<bool>, stage: seq<int>, toVisit: seq<nat>, ops: seq<nat>,
                           inputs: seq<bool>, outputs: seq<bool>, producersLater: seq<nat>, consumersLater: seq<nat>)

  // ---------------------------------------------------------------- transitive inputs and outputs

  /** The edges along which to mark. */
  function Edges(g: Graph, up: bool, i: nat): (r: seq<nat>)
    requires Wired(g) && i < |g.ops|
    ensures Below(|g.ops|, r)
  {
    if up then Parents(g, i) else Children(g, i)
  }

  ghost predicate Path(g: Graph, up: bool, path: seq<nat>)
    requires Wired(g)
  {
    path != [] && Below(|g.ops|, path) && forall k :: 0 < k < |path| ==> path[k] in Edges(g, up, path[k - 1])
  }

  ghost predicate Reaches(g: Graph, up: bool, i: nat, j: nat)
    requires Wired(g)
  {
    exists path :: Path(g, up, path) && path[0] == i && path[|path| - 1] == j
  }

  /** Marked operators have only marked neighbours, or neighbours that are still to be looked at. */
  ghost predicate ClosedBut(g: Graph, up: bool, marked: seq<bool>, todo: seq<nat>)
    requires Wired(g) && |marked| == |g.ops|
  {
    forall i: nat, j: nat :: i < |g.ops| && marked[i] && j in Edges(g, up, i) ==> marked[j] || j in todo
  }

  ghost predicate Marking(g: Graph, up: bool, start: nat, marked0: seq<bool>, marked: seq<bool>, todo: seq<nat>)
    requires Wired(g) && start < |g.ops|
  {
    && |marked0| == |marked| == |g.ops| && Below(|g.ops|, todo) && ClosedBut(g, up, marked, todo)
    && (marked[start] || start in todo)
    && (forall j: nat :: j < |g.ops| && marked0[j] ==> marked[j])
    && (forall j: nat :: j < |g.ops| && marked[j] ==> marked0[j] || Reaches(g, up, start, j))
    && (forall k :: 0 <= k < |todo| ==> Reaches(g, up, start, todo[k]))
  }

  lemma CloseOne(g: Graph, up: bool, marked: seq<bool>, todo: seq<nat>, op: nat)
    requires Wired(g) && |marked| == |g.ops| && op < |g.ops| && ClosedBut(g, up, marked, todo + [op])
    ensures marked[op] ==> ClosedBut(g, up, marked, todo)
    ensures ClosedBut(g, up, marked[op := true], todo + Edges(g, up, op))
  {
    forall i: nat, j: nat | i < |g.ops| && marked[op := true][i] && j in Edges(g, up, i)
      ensures marked[op := true][j] || j in todo + Edges(g, up, op)
    {
      assert i != op ==> marked[j] || j in todo + [op];
    }
  }

  lemma MarkOne(g: Graph, up: bool, start: nat, marked0: seq<bool>, marked: seq<bool>, todo: seq<nat>, op: nat)
    requires Wired(g) && start < |g.ops| && op < |g.ops| && Marking(g, up, start, marked0, marked, todo + [op])
    ensures marked[op] ==> Marking(g, up, start, marked0, marked, todo)
    ensures Marking(g, up, start, marked0, marked[op := true], todo + Edges(g, up, op))
  {
    var all := todo + [op];
    CloseOne(g, up, marked, todo, op);
    assert all[|todo|] == op;
    assert forall k :: 0 <= k < |todo| ==> all[k] == todo[k];
    ReachesNext(g, up, start, op);
    var next, edges := todo + Edges(g, up, op), Edges(g, up, op);
    forall k | 0 <= k < |next| ensures next[k] < |g.ops| && Reaches(g, up, start, next[k]) {
      if k >= |todo| { assert next[k] == edges[k - |todo|] && edges[k - |todo|] in edges; }
    }
  }

  /** Marks everything reachable from `start`, on top of what was marked before. */
  method Mark(g: Graph, up: bool, marked0: seq<bool>, start: nat) returns (marked: seq<bool>)
    requires Wired(g) && |marked0| == |g.ops| && start < |g.ops| && ClosedBut(g, up, marked0, [])
    ensures |marked| == |g.ops| && ClosedBut(g, up, marked, [])
    ensures forall j: nat :: j < |g.ops| ==> (marked[j] <==> marked0[j] || Reaches(g, up, start, j))
  {
    marked := marked0;
    var todo := [start];
    assert Path(g, up, [start]);
    while todo != []
      invariant Marking(g, up, start, marked0, marked, todo)
      decreases Unset(marked), |todo|
    {
      var op := todo[|todo| - 1];
      assert todo == todo[..|todo| - 1] + [op];
      todo := todo[..|todo| - 1];
      MarkOne(g, up, start, marked0, marked, todo, op);
      if !marked[op] {
        UnsetUpdate(marked, op);
        marked := marked[op := true];
        todo := todo + Edges(g, up, op);
      }
    }
    Marked(g, up, start, marked);
  }

  lemma Marked(g: Graph, up: bool, start: nat, marked: seq<bool>)
    requires Wired(g) && |marked| == |g.ops| && start < |g.ops| && ClosedBut(g, up, marked, []) && marked[start]
    ensures forall j: nat :: j < |g.ops| && Reaches(g, up, start, j) ==> marked[j]
  {
    forall j: nat | j < |g.ops| && Reaches(g, up, start, j) ensures marked[j] {
      var path :| Path(g, up, path) && path[0] == start && path[|path| - 1] == j;
      ClosedPath(g, up, marked, path, |path| - 1);
    }
  }

  lemma ReachesNext(g: Graph, up: bool, i: nat, j: nat)
    requires Wired(g) && j < |g.ops| && Reaches(g, up, i, j)
    ensures forall k :: k in Edges(g, up, j) ==> Reaches(g, up, i, k)
  {
    var path :| Path(g, up, path) && path[0] == i && path[|path| - 1] == j;
    forall k | k in Edges(g, up, j) ensures Reaches(g, up, i, k) {
      assert Path(g, up, path + [k]);
    }
  }

  lemma {:induction false} ClosedPath(g: Graph, up: bool, marked: seq<bool>, path: seq<nat>, k: nat)
    requires Wired(g) && |marked| == |g.ops| && ClosedBut(g, up, marked, []) && Path(g, up, path) && marked[path[0]] && k < |path|
    ensures marked[path[k]]
  {
    if k > 0 {
      ClosedPath(g, up, marked, path, k - 1);
    }
  }

  // ---------------------------------------------------------------- the growing stage

  /** What holds while stage `cur` grows; `stage0` assigns the operators of earlier stages. */
  ghost predicate Growing(g: Graph, stage0: seq<int>, cur: nat, s: Growth)
    requires Wired(g)
  {
    && |stage0| == |s.visited| == |s.stage| == |s.inputs| == |s.outputs| == |g.ops|
    && ClosedBut(g, true, s.inputs, []) && ClosedBut(g, false, s.outputs, [])
    && Fresh(stage0, s.toVisit) && Fresh(stage0, s.ops) && Fresh(stage0, s.producersLater) && Fresh(stage0, s.consumersLater)
    && (forall x: nat :: x < |g.ops| ==> stage0[x] < cur && (s.stage[x] == stage0[x] || (stage0[x] < 0 && s.stage[x] == cur)))
    && (forall x: nat :: x < |g.ops| ==> (s.stage[x] == cur <==> x in s.ops))
    && (forall x: nat :: x < |g.ops| ==> (s.visited[x] <==> s.stage[x] >= 0 || x in s.toVisit))
  }

  /** Operators that belong to no earlier stage. */
  ghost predicate Fresh(stage0: seq<int>, list: seq<nat>) {
    forall i :: 0 <= i < |list| ==> list[i] < |stage0| && stage0[list[i]] < 0
  }

  /** Some operator of the list is marked but in another stage. */
  predicate Conflicts(marked: seq<bool>, stage: seq<int>, cur: int, list: seq<nat>)
    requires |marked| == |stage| && Below(|stage|, list)
  {
    exists k :: 0 <= k < |list| && marked[list[k]] && stage[list[k]] != cur
  }

  function Later(s: Growth, up: bool): seq<nat> {
    if up then s.producersLater else s.consumersLater
  }

  function SetLater(s: Growth, up: bool, list: seq<nat>): Growth {
    if up then s.(producersLater := list) else s.(consumersLater := list)
  }

  /** Takes operator `x` into the stage, or puts it off if that would introduce a cycle: one of
      its consumers is a transitive input, or one of its producers a transitive output. */
  function Consider(g: Graph, cur: nat, s: Growth, up: bool, x: nat): Growth
    requires Wired(g) && |s.visited| == |s.stage| == |s.inputs| == |s.outputs| == |g.ops| && x < |g.ops|
  {
    if Conflicts(if up then s.inputs else s.outputs, s.stage, cur, Edges(g, !up, x)) then SetLater(s, up, Later(s, up) + [x])
    else s.(visited := s.visited[x := true], toVisit := s.toVisit + [x])
  }

  // ---------------------------------------------------------------- why operators are in a stage

  /** Data can be streamed from `p` to `c`. */
  ghost predicate Streams(g: Graph, disabled: seq<bool>, p: nat, c: nat) {
    |disabled| == |g.ops| && p < |g.ops| && c < |g.ops| &&
    exists b :: b in g.ops[p].outputs && b in g.ops[c].inputs && CanStream(g, disabled, b, p, c)
  }

  /** `x` is a producer (`up`) or a consumer of `op` with which data can be streamed. */
  ghost predicate Neighbour(g: Graph, disabled: seq<bool>, up: bool, x: nat, op: nat) {
    if up then Streams(g, disabled, x, op) else Streams(g, disabled, op, x)
  }

  /** One of the operators has `y` as a transitive input (`up`) or output. */
  ghost predicate ReachedFrom(g: Graph, up: bool, ops: seq<nat>, y: nat)
    requires Wired(g)
  {
    exists k :: 0 <= k < |ops| && Reaches(g, up, ops[k], y)
  }

  /** With the given operators in the stage, taking in the producer (`up`) or consumer `x` introduces no
      cycle: no consumer of the producer outside of the stage is a transitive input of it, and no
      producer of the consumer a transitive output. */
  ghost predicate Clear(g: Graph, up: bool, ops: seq<nat>, x: nat)
    requires Wired(g) && x < |g.ops|
  {
    forall y :: y in Edges(g, !up, x) && ReachedFrom(g, up, ops, y) ==> y in ops
  }

  ghost predicate Adjoins(g: Graph, disabled: seq<bool>, up: bool, ops: seq<nat>, x: nat) {
    exists k :: 0 <= k < |ops| && Neighbour(g, disabled, up, x, ops[k])
  }

  /** `x` has been taken in when the first operators of the list, `n` at most, were in the stage. */
  ghost predicate TakenIn(g: Graph, disabled: seq<bool>, ops: seq<nat>, n: nat, x: nat)
    requires Wired(g)
  {
    x < |g.ops| && exists m: nat, up :: m <= n && m <= |ops| && Adjoins(g, disabled, up, ops[..m], x) && Clear(g, up, ops[..m], x)
  }

  /** Every operator is the first one or has been taken in for a reason, when the operators before it
      were in the stage. */
  ghost predicate Explained(g: Graph, disabled: seq<bool>, first: nat, ops: seq<nat>)
    requires Wired(g)
  {
    forall i: nat :: i < |ops| ==> ops[i] == first || TakenIn(g, disabled, ops, i, ops[i])
  }

  /** The same of those about to be visited; those put off are neighbours; and the marks are exact. */
  ghost predicate Careful(g: Graph, disabled: seq<bool>, first: nat, s: Growth)
    requires Wired(g)
  {
    && |s.inputs| == |s.outputs| == |g.ops| && Explained(g, disabled, first, s.ops)
    && (forall i :: 0 <= i < |s.toVisit| ==> s.toVisit[i] == first || TakenIn(g, disabled, s.ops, |s.ops|, s.toVisit[i]))
    && (forall up, x :: x in Later(s, up) ==> Adjoins(g, disabled, up, s.ops, x))
    && (forall j: nat :: j < |g.ops| ==> (s.inputs[j] <==> ReachedFrom(g, true, s.ops, j)))
    && (forall j: nat :: j < |g.ops| ==> (s.outputs[j] <==> ReachedFrom(g, false, s.ops, j)))
  }

  /** The test for a cycle is exact. */
  lemma ConflictIff(g: Graph, disabled: seq<bool>, stage0: seq<int>, cur: nat, first: nat, s: Growth, up: bool, x: nat)
    requires Wired(g) && Growing(g, stage0, cur, s) && Careful(g, disabled, first, s) && x < |g.ops|
    ensures Conflicts(if up then s.inputs else s.outputs, s.stage, cur, Edges(g, !up, x)) <==> !Clear(g, up, s.ops, x)
  {
    var marked, list := if up then s.inputs else s.outputs, Edges(g, !up, x);
    forall y: nat | y in list ensures marked[y] <==> ReachedFrom(g, up, s.ops, y) {
    }
    if !Clear(g, up, s.ops, x) {
      var y: nat :| y in list && ReachedFrom(g, up, s.ops, y) && y !in s.ops;
      var k :| 0 <= k < |list| && list[k] == y;
      assert marked[list[k]] && s.stage[list[k]] != cur;
    }
    if k :| 0 <= k < |list| && marked[list[k]] && s.stage[list[k]] != cur {
      assert list[k] in list;
    }
  }

  /** The stage is the same, and nothing that was visited or put off is lost. */
  ghost predicate Extends(s: Growth, t: Growth) {
    && t.ops == s.ops && t.inputs == s.inputs && t.outputs == s.outputs && t.stage == s.stage && StillVisited(s, t)
    && forall up, x: nat :: Noted(s, up, x) ==> Noted(t, up, x)
  }

  /** The operator has been visited or put off. */
  ghost predicate Noted(s: Growth, up: bool, x: nat) {
    x in Later(s, up) || (x < |s.visited| && s.visited[x])
  }

  lemma NotedStays(s: Growth, t: Growth, up: bool, x: nat)
    requires Extends(s, t) && Noted(s, up, x)
    ensures Noted(t, up, x)
  {
  }

  lemma ExtendsOn(s: Growth, t: Growth, u: Growth)
    requires Extends(s, t) && Extends(t, u)
    ensures Extends(s, u)
  {
  }

  lemma ConsiderCareful(g: Graph, disabled: seq<bool>, stage0: seq<int>, cur: nat, first: nat, s: Growth, up: bool, x: nat)
    requires Wired(g) && Growing(g, stage0, cur, s) && Careful(g, disabled, first, s) && x < |g.ops| && Adjoins(g, disabled, up, s.ops, x)
    ensures var t := Consider(g, cur, s, up, x); Careful(g, disabled, first, t) && Extends(s, t) && Noted(t, up, x)
  {
    ConflictIff(g, disabled, stage0, cur, first, s, up, x);
    ConsiderExtends(g, cur, s, up, x);
    if Clear(g, up, s.ops, x) {
      assert s.ops[..|s.ops|] == s.ops;
      assert TakenIn(g, disabled, s.ops, |s.ops|, x);
      VisitCareful(g, disabled, first, s, s.visited[x := true], x);
    } else {
      PutOffCareful(g, disabled, first, s, up, x);
    }
  }

  lemma ConsiderExtends(g: Graph, cur: nat, s: Growth, up: bool, x: nat)
    requires Wired(g) && |s.visited| == |s.stage| == |s.inputs| == |s.outputs| == |g.ops| && x < |g.ops|
    ensures var t := Consider(g, cur, s, up, x); Extends(s, t) && Noted(t, up, x)
  {
    var t := Consider(g, cur, s, up, x);
    forall v, y: nat | Noted(s, v, y) ensures Noted(t, v, y) {
    }
  }

  lemma VisitCareful(g: Graph, disabled: seq<bool>, first: nat, s: Growth, visited: seq<bool>, x: nat)
    requires Wired(g) && Careful(g, disabled, first, s) && TakenIn(g, disabled, s.ops, |s.ops|, x)
    ensures Careful(g, disabled, first, s.(visited := visited, toVisit := s.toVisit + [x]))
  {
    var t := s.(visited := visited, toVisit := s.toVisit + [x]);
    forall up, y | y in Later(t, up) ensures Adjoins(g, disabled, up, t.ops, y) { assert y in Later(s, up); }
  }

  lemma PutOffCareful(g: Graph, disabled: seq<bool>, first: nat, s: Growth, up: bool, x: nat)
    requires Wired(g) && Careful(g, disabled, first, s) && Adjoins(g, disabled, up, s.ops, x)
    ensures Careful(g, disabled, first, SetLater(s, up, Later(s, up) + [x]))
  {
    var t := SetLater(s, up, Later(s, up) + [x]);
    forall v, y | y in Later(t, v) ensures Adjoins(g, disabled, v, t.ops, y) { assert y in Later(s, v) || (v == up && y == x); }
  }

  lemma ConsiderKeeps(g: Graph, stage0: seq<int>, cur: nat, s: Growth, up: bool, x: nat)
    requires Wired(g) && Growing(g, stage0, cur, s) && x < |g.ops| && stage0[x] < 0
    ensures Growing(g, stage0, cur, Consider(g, cur, s, up, x))
  {
  }

  // ---------------------------------------------------------------- progress

  /** How many entries of the list have been visited. */
  ghost function Pending(visited: seq<bool>, list: seq<nat>): nat {
    if list == [] then 0 else (if list[0] < |visited| && visited[list[0]] then 1 else 0) + Pending(visited, list[1..])
  }

  lemma {:induction false} PendingSnoc(visited: seq<bool>, list: seq<nat>, x: nat)
    ensures Pending(visited, list + [x]) == Pending(visited, list) + if x < |visited| && visited[x] then 1 else 0
  {
    if list == [] {
      assert list + [x] == [x] && [x][1..] == [];
    } else {
      assert (list + [x])[1..] == list[1..] + [x];
      PendingSnoc(visited, list[1..], x);
    }
  }

  ghost predicate StillVisited(s: Growth, t: Growth) {
    |t.visited| == |s.visited| && forall x :: 0 <= x < |s.visited| && s.visited[x] ==> t.visited[x]
  }

  /** More operators have been visited, or nothing has changed but operators put off that have
      not been visited. */
  ghost predicate Expanded(s: Growth, t: Growth) {
    || (Unset(t.visited) < Unset(s.visited) && StillVisited(s, t))
    || (&& t.visited == s.visited && t.toVisit == s.toVisit
        && Pending(t.visited, t.producersLater) == Pending(s.visited, s.producersLater)
        && Pending(t.visited, t.consumersLater) == Pending(s.visited, s.consumersLater))
  }

  lemma ConsiderExpands(g: Graph, stage0: seq<int>, cur: nat, s: Growth, up: bool, x: nat)
    requires Wired(g) && Growing(g, stage0, cur, s) && x < |g.ops| && !s.visited[x]
    ensures Expanded(s, Consider(g, cur, s, up, x))
  {
    UnsetUpdate(s.visited, x);
    PendingSnoc(s.visited, Later(s, up), x);
  }

  /** Can data be streamed from `p` to `c` through buffer `b`? */
  predicate CanStream(g: Graph, disabled: seq<bool>, b: nat, p: nat, c: nat)
    requires |disabled| == |g.ops| && p < |g.ops| && c < |g.ops|
  {
    b in g.ops[c].streamsIn && b in g.ops[p].streamsOut && !disabled[p]
  }

  /** The producers (`up`) or consumers of buffer `b` with which `op` can stream. */
  ghost predicate OnBuffer(g: Graph, disabled: seq<bool>, up: bool, op: nat, b: nat, x: nat) {
    && |disabled| == |g.ops| && op < |g.ops| && x < |g.ops|
    && (if up then b in g.ops[x].outputs && b in g.ops[op].inputs else b in g.ops[x].inputs && b in g.ops[op].outputs)
    && CanStream(g, disabled, b, if up then x else op, if up then op else x)
  }

  lemma OnBufferAdjoins(g: Graph, disabled: seq<bool>, up: bool, ops: seq<nat>, op: nat, b: nat, x: nat)
    requires op in ops && OnBuffer(g, disabled, up, op, b, x)
    ensures Adjoins(g, disabled, up, ops, x)
  {
    var k :| 0 <= k < |ops| && ops[k] == op;
    assert Neighbour(g, disabled, up, x, ops[k]);
  }

  /** Considers the producers (`up`) or consumers of one buffer of the operator `op`. */
  method ExpandBuffer(g: Graph, disabled: seq<bool>, ghost stage0: seq<int>, cur: nat, ghost first: nat, s: Growth, up: bool, op: nat, b: nat)
    returns (t: Growth)
    requires Wired(g) && |disabled| == |g.ops| && op < |g.ops| && b < |g.consumers| && Growing(g, stage0, cur, s)
    requires Careful(g, disabled, first, s) && op in s.ops && b in (if up then g.ops[op].inputs else g.ops[op].outputs)
    ensures Growing(g, stage0, cur, t) && Expanded(s, t) && Careful(g, disabled, first, t) && Extends(s, t)
    ensures forall x: nat :: OnBuffer(g, disabled, up, op, b, x) ==> Noted(t, up, x)
  {
    t := s;
    var list := if up then g.producers[b] else g.consumers[b];
    for k := 0 to |list|
      invariant Growing(g, stage0, cur, t) && Expanded(s, t) && Careful(g, disabled, first, t) && Extends(s, t)
      invariant NotedAll(g, disabled, t, up, op, b, list, k)
    {
      var x := list[k];
      assert x in list;
      if !t.visited[x] && CanStream(g, disabled, b, if up then x else op, if up then op else x) {
        OnBufferAdjoins(g, disabled, up, t.ops, op, b, x);
        ConsiderStep(g, disabled, stage0, cur, first, s, t, up, x);
        NotedNext(g, disabled, t, Consider(g, cur, t, up, x), up, op, b, list, k);
        t := Consider(g, cur, t, up, x);
      } else {
        NotedNext(g, disabled, t, t, up, op, b, list, k);
      }
    }
    NotedOnBuffer(g, disabled, t, up, op, b, list);
  }

  /** The first `k` operators of the list that can stream have been visited or put off. */
  ghost predicate NotedAll(g: Graph, disabled: seq<bool>, t: Growth, up: bool, op: nat, b: nat, list: seq<nat>, k: nat) {
    forall j :: 0 <= j < k && j < |list| && OnBuffer(g, disabled, up, op, b, list[j]) ==> Noted(t, up, list[j])
  }

  lemma NotedNext(g: Graph, disabled: seq<bool>, t: Growth, u: Growth, up: bool, op: nat, b: nat, list: seq<nat>, k: nat)
    requires NotedAll(g, disabled, t, up, op, b, list, k) && Extends(t, u) && k < |list|
    requires OnBuffer(g, disabled, up, op, b, list[k]) ==> Noted(u, up, list[k])
    ensures NotedAll(g, disabled, u, up, op, b, list, k + 1)
  {
    forall j | 0 <= j < k + 1 && OnBuffer(g, disabled, up, op, b, list[j]) ensures Noted(u, up, list[j]) {
      if j < k { NotedStays(t, u, up, list[j]); }
    }
  }

  lemma NotedOnBuffer(g: Graph, disabled: seq<bool>, t: Growth, up: bool, op: nat, b: nat, list: seq<nat>)
    requires Wired(g) && b < |g.consumers| && list == (if up then g.producers[b] else g.consumers[b])
    requires NotedAll(g, disabled, t, up, op, b, list, |list|)
    ensures forall x: nat :: OnBuffer(g, disabled, up, op, b, x) ==> Noted(t, up, x)
  {
    forall x: nat | OnBuffer(g, disabled, up, op, b, x) ensures Noted(t, up, x) {
      assert x in list;
      var j :| 0 <= j < |list| && list[j] == x;
    }
  }

  lemma ConsiderStep(g: Graph, disabled: seq<bool>, stage0: seq<int>, cur: nat, first: nat, s: Growth, t: Growth, up: bool, x: nat)
    requires Wired(g) && Growing(g, stage0, cur, t) && Careful(g, disabled, first, t) && Expanded(s, t) && Extends(s, t)
    requires x < |g.ops| && !t.visited[x] && Adjoins(g, disabled, up, t.ops, x)
    ensures var u := Consider(g, cur, t, up, x);
            && Growing(g, stage0, cur, u) && Careful(g, disabled, first, u) && Expanded(s, u) && Extends(s, u) && Extends(t, u) && Noted(u, up, x)
  {
    var u := Consider(g, cur, t, up, x);
    ConsiderKeeps(g, stage0, cur, t, up, x);
    ConsiderExpands(g, stage0, cur, t, up, x);
    ConsiderCareful(g, disabled, stage0, cur, first, t, up, x);
    ExtendsOn(s, t, u);
    ExpandedOn(s, t, u);
  }

  lemma ExpandedOn(s: Growth, t: Growth, u: Growth)
    requires Expanded(s, t) && Expanded(t, u)
    ensures Expanded(s, u)
  {
  }

  /** Considers the producers (`up`) or consumers of the operator `op`. */
  method Expand(g: Graph, disabled: seq<bool>, ghost stage0: seq<int>, cur: nat, ghost first: nat, s: Growth, up: bool, op: nat) returns (t: Growth)
    requires Wired(g) && |disabled| == |g.ops| && op < |g.ops| && Growing(g, stage0, cur, s) && Careful(g, disabled, first, s) && op in s.ops
    ensures Growing(g, stage0, cur, t) && Expanded(s, t) && Careful(g, disabled, first, t) && Extends(s, t)
    ensures forall x: nat :: Neighbour(g, disabled, up, x, op) ==> Noted(t, up, x)
  {
    t := s;
    var buffers := if up then g.ops[op].inputs else g.ops[op].outputs;
    for k := 0 to |buffers|
      invariant Growing(g, stage0, cur, t) && Expanded(s, t) && Careful(g, disabled, first, t) && Extends(s, t)
      invariant BuffersNoted(g, disabled, t, up, op, buffers, k)
    {
      assert Below(|g.consumers|, buffers);
      ghost var t0 := t;
      t := ExpandBuffer(g, disabled, stage0, cur, first, t, up, op, buffers[k]);
      ExpandedOn(s, t0, t);
      ExtendsOn(s, t0, t);
      BuffersNext(g, disabled, t0, t, up, op, buffers, k);
    }
    BuffersAll(g, disabled, t, up, op, buffers);
  }

  /** The neighbours by the first `k` buffers have been visited or put off. */
  ghost predicate BuffersNoted(g: Graph, disabled: seq<bool>, t: Growth, up: bool, op: nat, buffers: seq<nat>, k: nat) {
    forall j, x: nat :: 0 <= j < k && j < |buffers| && OnBuffer(g, disabled, up, op, buffers[j], x) ==> Noted(t, up, x)
  }

  lemma BuffersNext(g: Graph, disabled: seq<bool>, t: Growth, u: Growth, up: bool, op: nat, buffers: seq<nat>, k: nat)
    requires BuffersNoted(g, disabled, t, up, op, buffers, k) && Extends(t, u) && k < |buffers|
    requires forall x: nat :: OnBuffer(g, disabled, up, op, buffers[k], x) ==> Noted(u, up, x)
    ensures BuffersNoted(g, disabled, u, up, op, buffers, k + 1)
  {
    forall j, x: nat | 0 <= j < k + 1 && OnBuffer(g, disabled, up, op, buffers[j], x) ensures Noted(u, up, x) {
      if j < k { NotedStays(t, u, up, x); }
    }
  }

  lemma BuffersAll(g: Graph, disabled: seq<bool>, t: Growth, up: bool, op: nat, buffers: seq<nat>)
    requires op < |g.ops| && buffers == (if up then g.ops[op].inputs else g.ops[op].outputs)
    requires BuffersNoted(g, disabled, t, up, op, buffers, |buffers|)
    ensures forall x: nat :: Neighbour(g, disabled, up, x, op) ==> Noted(t, up, x)
  {
    forall x: nat | Neighbour(g, disabled, up, x, op) ensures Noted(t, up, x) {
      var b := StreamedBuffer(g, disabled, up, op, x);
      var j :| 0 <= j < |buffers| && buffers[j] == b;
    }
  }

  lemma StreamedBuffer(g: Graph, disabled: seq<bool>, up: bool, op: nat, x: nat) returns (b: nat)
    requires Neighbour(g, disabled, up, x, op)
    ensures OnBuffer(g, disabled, up, op, b, x)
  {
    b :| if up then b in g.ops[x].outputs && b in g.ops[op].inputs && CanStream(g, disabled, b, x, op)
         else b in g.ops[op].outputs && b in g.ops[x].inputs && CanStream(g, disabled, b, op, x);
  }

  ghost function Waiting(s: Growth): nat {
    Pending(s.visited, s.producersLater) + Pending(s.visited, s.consumersLater)
  }

  /** The first `k` operators of `list` have been looked at again: more operators have been
      visited, or else nothing has been taken into the stage, or entries of operators visited
      before have been used up. */
  ghost predicate LookedAt(s: Growth, t: Growth, up: bool, list: seq<nat>, k: nat)
    requires k <= |list|
  {
    || (Unset(t.visited) < Unset(s.visited) && StillVisited(s, t))
    || (&& t.visited == s.visited && Later(t, !up) == Later(s, !up)
        && (|| (t.toVisit == s.toVisit && Pending(s.visited, Later(t, up)) == Pending(s.visited, list[..k]))
            || (|t.toVisit| > |s.toVisit| && Pending(s.visited, Later(t, up)) < Pending(s.visited, list[..k]))))
  }

  lemma LookAtOne(g: Graph, cur: nat, s: Growth, t: Growth, up: bool, list: seq<nat>, k: nat)
    requires Wired(g) && |t.visited| == |t.stage| == |t.inputs| == |t.outputs| == |g.ops|
    requires k < |list| && list[k] < |g.ops| && LookedAt(s, t, up, list, k)
    ensures LookedAt(s, Consider(g, cur, t, up, list[k]), up, list, k + 1)
  {
    var x := list[k];
    PrefixSnoc(list, k);
    PendingSnoc(s.visited, list[..k], x);
    PendingSnoc(t.visited, Later(t, up), x);
    VisitOne(t.visited, x);
  }

  lemma VisitOne(visited: seq<bool>, x: nat)
    requires x < |visited|
    ensures if visited[x] then visited[x := true] == visited else Unset(visited[x := true]) < Unset(visited)
  {
    if !visited[x] { UnsetUpdate(visited, x); }
  }

  /** Every operator put off would introduce a cycle. */
  ghost predicate Blocked(g: Graph, s: Growth, up: bool)
    requires Wired(g)
  {
    forall x :: x in Later(s, up) ==> x < |g.ops| && !Clear(g, up, s.ops, x)
  }

  /** Looks again at the operators put off. */
  method Revisit(g: Graph, ghost disabled: seq<bool>, ghost stage0: seq<int>, cur: nat, ghost first: nat, s: Growth, up: bool) returns (t: Growth)
    requires Wired(g) && Growing(g, stage0, cur, s) && Careful(g, disabled, first, s)
    ensures Growing(g, stage0, cur, t) && LookedAt(s, t, up, Later(s, up), |Later(s, up)|)
    ensures Careful(g, disabled, first, t) && Extends(s, t) && Blocked(g, t, up) && Later(t, !up) == Later(s, !up)
  {
    var list := Later(s, up);
    ghost var s0 := SetLater(s, up, []);
    t := SetLater(s, up, []);
    for k := 0 to |list|
      invariant Growing(g, stage0, cur, t) && LookedAt(s, t, up, list, k)
      invariant Careful(g, disabled, first, t) && Again(g, s0, t, up, list, k)
    {
      LookAtOne(g, cur, s, t, up, list, k);
      ConsiderKeeps(g, stage0, cur, t, up, list[k]);
      assert list[k] in list && t.ops == s.ops;
      ConsiderCareful(g, disabled, stage0, cur, first, t, up, list[k]);
      ConflictIff(g, disabled, stage0, cur, first, t, up, list[k]);
      BlockedNext(g, cur, t, up, list[k]);
      AgainNext(g, s0, t, Consider(g, cur, t, up, list[k]), up, list, k);
      t := Consider(g, cur, t, up, list[k]);
    }
    RevisitExtends(s, t, up);
  }

  /** The first `k` operators have been visited, or put off again for good reason. */
  ghost predicate Again(g: Graph, s: Growth, t: Growth, up: bool, list: seq<nat>, k: nat)
    requires Wired(g)
  {
    && Extends(s, t) && Blocked(g, t, up) && Later(t, !up) == Later(s, !up)
    && forall j :: 0 <= j < k && j < |list| ==> Noted(t, up, list[j])
  }

  lemma BlockedNext(g: Graph, cur: nat, t: Growth, up: bool, x: nat)
    requires Wired(g) && |t.visited| == |t.stage| == |t.inputs| == |t.outputs| == |g.ops| && x < |g.ops| && Blocked(g, t, up)
    requires Conflicts(if up then t.inputs else t.outputs, t.stage, cur, Edges(g, !up, x)) ==> !Clear(g, up, t.ops, x)
    ensures Blocked(g, Consider(g, cur, t, up, x), up)
  {
    var u := Consider(g, cur, t, up, x);
    forall y | y in Later(u, up) ensures y < |g.ops| && !Clear(g, up, u.ops, y) {
      assert u.ops == t.ops && (y in Later(t, up) || y == x);
    }
  }

  lemma AgainNext(g: Graph, s: Growth, t: Growth, u: Growth, up: bool, list: seq<nat>, k: nat)
    requires Wired(g) && k < |list| && Again(g, s, t, up, list, k)
    requires Extends(t, u) && Blocked(g, u, up) && Later(u, !up) == Later(t, !up) && Noted(u, up, list[k])
    ensures Again(g, s, u, up, list, k + 1)
  {
    ExtendsOn(s, t, u);
    forall j | 0 <= j < k + 1 ensures Noted(u, up, list[j]) {
      if j < k { NotedStays(t, u, up, list[j]); }
    }
  }

  lemma RevisitExtends(s: Growth, t: Growth, up: bool)
    requires Extends(SetLater(s, up, []), t) && Later(t, !up) == Later(s, !up)
    requires forall j :: 0 <= j < |Later(s, up)| ==> Noted(t, up, Later(s, up)[j])
    ensures Extends(s, t)
  {
    forall v, x: nat | Noted(s, v, x) ensures Noted(t, v, x) {
      if v == up && x in Later(s, up) {
        var j :| 0 <= j < |Later(s, up)| && Later(s, up)[j] == x;
        assert Noted(t, up, Later(s, up)[j]);
      } else {
        assert Noted(SetLater(s, up, []), v, x);
      }
    }
  }

  /** Moves the last operator to visit into the stage, and marks what it transitively reads from
      and writes to. */
  method Enter(g: Graph, ghost stage0: seq<int>, cur: nat, s: Growth) returns (t: Growth)
    requires Wired(g) && Growing(g, stage0, cur, s) && s.toVisit != []
    ensures Growing(g, stage0, cur, t)
    ensures var current := s.toVisit[|s.toVisit| - 1];
            && t == s.(toVisit := s.toVisit[..|s.toVisit| - 1], stage := s.stage[current := cur], ops := s.ops + [current],
                       inputs := t.inputs, outputs := t.outputs)
            && (forall j: nat :: j < |g.ops| ==> (t.inputs[j] <==> s.inputs[j] || Reaches(g, true, current, j)))
            && (forall j: nat :: j < |g.ops| ==> (t.outputs[j] <==> s.outputs[j] || Reaches(g, false, current, j)))
  {
    var current := s.toVisit[|s.toVisit| - 1];
    var rest := s.toVisit[..|s.toVisit| - 1];
    assert s.toVisit == rest + [current];
    var inputs := Mark(g, true, s.inputs, current);
    var outputs := Mark(g, false, s.outputs, current);
    t := s.(toVisit := rest, stage := s.stage[current := cur], ops := s.ops + [current], inputs := inputs, outputs := outputs);
  }

  /** What explained operators while the list was shorter still does. */
  lemma TakenMore(g: Graph, disabled: seq<bool>, ops: seq<nat>, y: nat, n: nat, n': nat, x: nat)
    requires Wired(g) && n <= |ops| && n <= n' && TakenIn(g, disabled, ops, n, x)
    ensures TakenIn(g, disabled, ops + [y], n', x)
  {
    var m: nat, up :| m <= n && m <= |ops| && Adjoins(g, disabled, up, ops[..m], x) && Clear(g, up, ops[..m], x);
    assert (ops + [y])[..m] == ops[..m];
  }

  lemma AdjoinsMore(g: Graph, disabled: seq<bool>, up: bool, ops: seq<nat>, y: nat, x: nat)
    requires Adjoins(g, disabled, up, ops, x)
    ensures Adjoins(g, disabled, up, ops + [y], x)
  {
    var k :| 0 <= k < |ops| && Neighbour(g, disabled, up, x, ops[k]);
    assert (ops + [y])[k] == ops[k];
  }

  lemma ReachedMore(g: Graph, up: bool, ops: seq<nat>, y: nat, x: nat)
    requires Wired(g)
    ensures ReachedFrom(g, up, ops + [y], x) <==> ReachedFrom(g, up, ops, x) || Reaches(g, up, y, x)
  {
    var all := ops + [y];
    assert all[|ops|] == y;
    if k :| 0 <= k < |ops| && Reaches(g, up, ops[k], x) { assert all[k] == ops[k]; }
  }

  lemma EnterExplained(g: Graph, disabled: seq<bool>, first: nat, s: Growth, t: Growth, current: nat)
    requires Wired(g) && Careful(g, disabled, first, s) && s.toVisit != [] && current == s.toVisit[|s.toVisit| - 1]
    requires t.ops == s.ops + [current] && t.toVisit == s.toVisit[..|s.toVisit| - 1]
    ensures Explained(g, disabled, first, t.ops)
    ensures forall i :: 0 <= i < |t.toVisit| ==> t.toVisit[i] == first || TakenIn(g, disabled, t.ops, |t.ops|, t.toVisit[i])
  {
    var n := |s.ops|;
    forall i: nat | i < |t.ops| ensures t.ops[i] == first || TakenIn(g, disabled, t.ops, i, t.ops[i]) {
      if t.ops[i] != first {
        assert i < n ==> t.ops[i] == s.ops[i];
        TakenMore(g, disabled, s.ops, current, i, i, t.ops[i]);
      }
    }
    forall i | 0 <= i < |t.toVisit| ensures t.toVisit[i] == first || TakenIn(g, disabled, t.ops, |t.ops|, t.toVisit[i]) {
      if t.toVisit[i] != first {
        assert t.toVisit[i] == s.toVisit[i];
        TakenMore(g, disabled, s.ops, current, n, n + 1, t.toVisit[i]);
      }
    }
  }

  lemma EnterCareful(g: Graph, disabled: seq<bool>, first: nat, s: Growth, t: Growth, current: nat)
    requires Wired(g) && Careful(g, disabled, first, s) && s.toVisit != [] && current == s.toVisit[|s.toVisit| - 1]
    requires t == s.(toVisit := s.toVisit[..|s.toVisit| - 1], stage := t.stage, ops := s.ops + [current], inputs := t.inputs, outputs := t.outputs)
    requires |t.inputs| == |t.outputs| == |g.ops|
    requires forall j: nat :: j < |g.ops| ==> (t.inputs[j] <==> s.inputs[j] || Reaches(g, true, current, j))
    requires forall j: nat :: j < |g.ops| ==> (t.outputs[j] <==> s.outputs[j] || Reaches(g, false, current, j))
    ensures Careful(g, disabled, first, t)
  {
    EnterExplained(g, disabled, first, s, t, current);
    forall up, x | x in Later(t, up) ensures Adjoins(g, disabled, up, t.ops, x) {
      assert x in Later(s, up);
      AdjoinsMore(g, disabled, up, s.ops, current, x);
    }
    forall j: nat | j < |g.ops| ensures t.inputs[j] <==> ReachedFrom(g, true, t.ops, j) { ReachedMore(g, true, s.ops, current, j); }
    forall j: nat | j < |g.ops| ensures t.outputs[j] <==> ReachedFrom(g, false, t.ops, j) { ReachedMore(g, false, s.ops, current, j); }
  }

  /** All operators with which the first `n` of the stage can stream have been visited or put off. */
  ghost predicate Seen(g: Graph, disabled: seq<bool>, s: Growth, n: nat) {
    n <= |s.ops| && forall up, k, x: nat :: 0 <= k < n && Neighbour(g, disabled, up, x, s.ops[k]) ==> Noted(s, up, x)
  }

  lemma SeenStays(g: Graph, disabled: seq<bool>, s: Growth, t: Growth, n: nat)
    requires Seen(g, disabled, s, n) && Extends(s, t)
    ensures Seen(g, disabled, t, n)
  {
    forall up, k, x: nat | 0 <= k < n && Neighbour(g, disabled, up, x, t.ops[k]) ensures Noted(t, up, x) {
      assert Neighbour(g, disabled, up, x, s.ops[k]);
      NotedStays(s, t, up, x);
    }
  }

  lemma SeenMore(g: Graph, disabled: seq<bool>, s: Growth, n: nat)
    requires Seen(g, disabled, s, n) && n < |s.ops|
    requires forall up, x: nat :: Neighbour(g, disabled, up, x, s.ops[n]) ==> Noted(s, up, x)
    ensures Seen(g, disabled, s, n + 1)
  {
  }

  /** One round of growing makes progress: more operators visited, or entries of visited operators
      used up, or fewer left to visit. */
  ghost predicate Progress(s: Growth, t: Growth) {
    && StillVisited(s, t)
    && (|| Unset(t.visited) < Unset(s.visited)
        || (t.visited == s.visited && Waiting(t) < Waiting(s))
        || (t.visited == s.visited && Waiting(t) == Waiting(s) && |t.toVisit| < |s.toVisit|))
  }

  lemma RevisitBoth(s: Growth, t: Growth, u: Growth)
    requires LookedAt(s, t, true, Later(s, true), |Later(s, true)|)
    requires LookedAt(t, u, false, Later(t, false), |Later(t, false)|)
    ensures StillVisited(s, u)
    ensures || Unset(u.visited) < Unset(s.visited)
            || (u.visited == s.visited && Waiting(u) < Waiting(s))
            || (u.visited == s.visited && Waiting(u) == Waiting(s) && u.toVisit == s.toVisit)
  {
    var a, b := Later(s, true), Later(t, false);
    assert a[..|a|] == a && b[..|b|] == b;
  }

  /** Nothing is left to be done: all operators put off would introduce a cycle. */
  ghost predicate Finished(g: Graph, s: Growth)
    requires Wired(g)
  {
    s.toVisit == [] ==> Blocked(g, s, true) && Blocked(g, s, false)
  }

  /** Enters the last operator to visit, and considers its neighbours. */
  method EnterAndExpand(g: Graph, disabled: seq<bool>, ghost stage0: seq<int>, cur: nat, ghost first: nat, s: Growth) returns (t: Growth)
    requires Wired(g) && |disabled| == |g.ops| && Growing(g, stage0, cur, s) && s.toVisit != []
    requires Careful(g, disabled, first, s) && Seen(g, disabled, s, |s.ops|)
    ensures Growing(g, stage0, cur, t) && Careful(g, disabled, first, t) && Seen(g, disabled, t, |t.ops|)
    ensures StillVisited(s, t)
    ensures || Unset(t.visited) < Unset(s.visited)
            || (t.visited == s.visited && Waiting(t) == Waiting(s) && |t.toVisit| < |s.toVisit|)
  {
    var current := s.toVisit[|s.toVisit| - 1];
    ghost var n := |s.ops|;
    t := Enter(g, stage0, cur, s);
    EnterCareful(g, disabled, first, s, t, current);
    SeenEntered(g, disabled, s, t);
    assert t.ops[n] == current;
    ghost var t0 := t;
    t := Expand(g, disabled, stage0, cur, first, t, true, current);
    SeenStays(g, disabled, t0, t, n);
    ghost var t1 := t;
    t := Expand(g, disabled, stage0, cur, first, t, false, current);
    SeenStays(g, disabled, t1, t, n);
    SeenBoth(g, disabled, t1, t, n);
  }

  lemma SeenEntered(g: Graph, disabled: seq<bool>, s: Growth, t: Growth)
    requires Seen(g, disabled, s, |s.ops|) && |t.ops| == |s.ops| + 1 && t.ops[..|s.ops|] == s.ops
    requires t.visited == s.visited && t.producersLater == s.producersLater && t.consumersLater == s.consumersLater
    ensures Seen(g, disabled, t, |s.ops|)
  {
    forall up, k, x: nat | 0 <= k < |s.ops| && Neighbour(g, disabled, up, x, t.ops[k]) ensures Noted(t, up, x) {
      assert t.ops[k] == s.ops[k];
      assert Noted(s, up, x);
    }
  }

  lemma SeenBoth(g: Graph, disabled: seq<bool>, s: Growth, t: Growth, n: nat)
    requires Extends(s, t) && Seen(g, disabled, t, n) && |t.ops| == n + 1
    requires forall x: nat :: Neighbour(g, disabled, true, x, t.ops[n]) ==> Noted(s, true, x)
    requires forall x: nat :: Neighbour(g, disabled, false, x, t.ops[n]) ==> Noted(t, false, x)
    ensures Seen(g, disabled, t, |t.ops|)
  {
    forall up, x: nat | Neighbour(g, disabled, up, x, t.ops[n]) ensures Noted(t, up, x) {
      if up { assert Noted(s, true, x); }
    }
    SeenMore(g, disabled, t, n);
  }

  /** One round of the loop that grows a stage. */
  method GrowOnce(g: Graph, disabled: seq<bool>, ghost stage0: seq<int>, cur: nat, ghost first: nat, s: Growth) returns (t: Growth)
    requires Wired(g) && |disabled| == |g.ops| && Growing(g, stage0, cur, s) && s.toVisit != []
    requires Careful(g, disabled, first, s) && Seen(g, disabled, s, |s.ops|)
    ensures Growing(g, stage0, cur, t) && Progress(s, t)
    ensures Careful(g, disabled, first, t) && Seen(g, disabled, t, |t.ops|) && Finished(g, t)
  {
    t := EnterAndExpand(g, disabled, stage0, cur, first, s);
    if t.toVisit == [] {
      ghost var t0 := t;
      t := Revisit(g, disabled, stage0, cur, first, t, true);
      ghost var t1 := t;
      t := Revisit(g, disabled, stage0, cur, first, t, false);
      RevisitBoth(t0, t1, t);
      SeenStays(g, disabled, t0, t1, |t1.ops|);
      SeenStays(g, disabled, t1, t, |t.ops|);
      assert Later(t, true) == Later(t1, true);
    }
  }

  /** Why the operators of a finished stage are in it, and why no other is: each but the first was taken
      in as the neighbour of operators in the stage that introduces no cycle with these, and every
      neighbour that belongs to no stage would introduce one. */
  ghost predicate Grown(g: Graph, disabled: seq<bool>, first: nat, s: Growth)
    requires Wired(g)
  {
    && Explained(g, disabled, first, s.ops)
    && forall up, k, x: nat :: 0 <= k < |s.ops| && Neighbour(g, disabled, up, x, s.ops[k]) && x < |s.visited| && !s.visited[x] ==>
         !Clear(g, up, s.ops, x)
  }

  lemma GrownAtEnd(g: Graph, disabled: seq<bool>, first: nat, s: Growth)
    requires Wired(g) && Careful(g, disabled, first, s) && Seen(g, disabled, s, |s.ops|) && Finished(g, s) && s.toVisit == []
    ensures Grown(g, disabled, first, s)
  {
    forall up, k, x: nat | 0 <= k < |s.ops| && Neighbour(g, disabled, up, x, s.ops[k]) && x < |s.visited| && !s.visited[x]
      ensures !Clear(g, up, s.ops, x)
    {
      assert Noted(s, up, x);
      assert Blocked(g, s, up);
    }
  }

  /** Grows the stage that starts with the operator `first`. */
  method GrowStage(g: Graph, disabled: seq<bool>, visited: seq<bool>, stage: seq<int>, cur: nat, first: nat) returns (s: Growth)
    requires Wired(g) && |disabled| == |visited| == |stage| == |g.ops| && first < |g.ops| && !visited[first]
    requires forall x: nat :: x < |g.ops| ==> stage[x] < cur && (visited[x] <==> stage[x] >= 0)
    ensures Growing(g, stage, cur, s) && s.toVisit == [] && first in s.ops && Grown(g, disabled, first, s)
    ensures Unset(s.visited) < Unset(visited)
  {
    var none := seq(|g.ops|, _ => false);
    UnsetUpdate(visited, first);
    s := Growth(visited[first := true], stage, [first], [], none, none, [], []);
    while s.toVisit != []
      invariant Growing(g, stage, cur, s) && Unset(s.visited) < Unset(visited) && s.visited[first]
      invariant Careful(g, disabled, first, s) && Seen(g, disabled, s, |s.ops|) && Finished(g, s)
      decreases Unset(s.visited), Waiting(s), |s.toVisit|
    {
      s := GrowOnce(g, disabled, stage, cur, first, s);
    }
    GrownAtEnd(g, disabled, first, s);
  }
}
