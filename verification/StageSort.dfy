/** The order of the stages: a recursive depth-first search over the stage dependencies. */
module StageSort {
  import opened OperatorGraph
  import opened StageOrder

  /** The state of the search. */
  datatype Walk = Walk(visited: seq<bool>, committed: seq<bool>, order: seq<nat>)

  ghost predicate Walking(n: nat, s: Walk) {
    && |s.visited| == |s.committed| == n && Below(n, s.order)
    && (forall i, j :: 0 <= i < j < |s.order| ==> s.order[i] != s.order[j])
    && (forall x: nat :: x < n ==> (s.committed[x] <==> x in s.order))
    && (forall x: nat :: x < n && s.committed[x] ==> s.visited[x])
  }

  ghost predicate InProgress(s: Walk, x: nat) {
    x < |s.visited| == |s.committed| && s.visited[x] && !s.committed[x]
  }

  /** Every dependency names a stage. */
  ghost predicate Closed(deps: seq<set<nat>>) {
    forall i, d :: 0 <= i < |deps| && d in deps[i] ==> d < |deps|
  }

  /** `rank` witnesses that the stages depend on each other without cycles. */
  ghost predicate RankedStages(deps: seq<set<nat>>, rank: seq<nat>) {
    && |rank| == |deps| && Closed(deps)
    && forall i, d :: 0 <= i < |deps| && d in deps[i] ==> rank[d] < rank[i]
  }

  /** Every stage in the order comes after the stages it depends on. */
  ghost predicate StagesInOrder(deps: seq<set<nat>>, order: seq<nat>)
    requires Below(|deps|, order)
  {
    forall k, d: nat :: 0 <= k < |order| && d in deps[order[k]] ==> Emitted(order, k, d)
  }

  /** The search has gone on: nothing is undone, and the same stages are in progress. */
  ghost predicate Onward(s: Walk, t: Walk) {
    && |s.visited| == |t.visited| == |s.committed| == |t.committed|
    && (forall x: nat :: x < |s.visited| && s.visited[x] ==> t.visited[x])
    && (forall x: nat :: x < |s.visited| && s.committed[x] ==> t.committed[x])
    && (forall x: nat :: InProgress(t, x) <==> InProgress(s, x))
  }

  /** All stages in progress come later than stage `i`. */
  ghost predicate PathAbove(rank: seq<nat>, s: Walk, i: nat)
    requires |s.visited| == |rank| && i < |rank|
  {
    forall x: nat :: InProgress(s, x) ==> rank[x] > rank[i]
  }

  lemma {:induction false} UnsetMonotone(s: seq<bool>, t: seq<bool>)
    requires |s| == |t| && forall x :: 0 <= x < |s| && s[x] ==> t[x]
    ensures Unset(t) <= Unset(s)
  {
    if s != [] {
      UnsetMonotone(s[1..], t[1..]);
    }
  }

  /** `visit`.  With a cycle it returns without committing a stage in progress. */
  method Visit(deps: seq<set<nat>>, ghost rank: seq<nat>, i: nat, s: Walk) returns (t: Walk)
    requires Closed(deps) && i < |deps| && Walking(|deps|, s)
    ensures Walking(|deps|, t) && Onward(s, t)
    ensures t.committed[i] || InProgress(s, i)
    ensures RankedStages(deps, rank) && PathAbove(rank, s, i) && StagesInOrder(deps, s.order) ==>
              t.committed[i] && StagesInOrder(deps, t.order)
    decreases Unset(s.visited)
  {
    if s.committed[i] || s.visited[i] {
      return s;
    }
    UnsetUpdate(s.visited, i);
    t := s.(visited := s.visited[i := true]);
    ghost var start := t;
    var todo := deps[i];
    while todo != {}
      invariant todo <= deps[i] && Walking(|deps|, t) && Onward(start, t) && !t.committed[i]
      invariant RankedStages(deps, rank) && PathAbove(rank, s, i) && StagesInOrder(deps, s.order) ==>
                  StagesInOrder(deps, t.order) && forall d :: d in deps[i] && d !in todo ==> t.committed[d]
      decreases todo
    {
      var d: nat :| d in todo;
      UnsetMonotone(start.visited, t.visited);
      assert InProgress(t, i);
      t := Visit(deps, rank, d, t);
      assert InProgress(t, i);
      todo := todo - {d};
    }
    CommitKeeps(deps, i, t);
    CommitOnward(s, t, i);
    t := t.(committed := t.committed[i := true], order := t.order + [i]);
  }

  /** Entering and committing a stage leaves the same stages in progress. */
  lemma CommitOnward(s: Walk, t: Walk, i: nat)
    requires |s.visited| == |s.committed| && i < |s.visited| && !s.visited[i] && !s.committed[i]
    requires Onward(s.(visited := s.visited[i := true]), t)
    ensures Onward(s, t.(committed := t.committed[i := true], order := t.order + [i]))
  {
    var start, u := s.(visited := s.visited[i := true]), t.(committed := t.committed[i := true], order := t.order + [i]);
    forall x: nat ensures InProgress(u, x) <==> InProgress(s, x) {
      assert InProgress(t, x) <==> InProgress(start, x);
    }
  }

  lemma CommitKeeps(deps: seq<set<nat>>, i: nat, t: Walk)
    requires Walking(|deps|, t) && i < |deps| && InProgress(t, i)
    ensures Walking(|deps|, t.(committed := t.committed[i := true], order := t.order + [i]))
    ensures StagesInOrder(deps, t.order) && (forall d :: d in deps[i] ==> d < |deps| && t.committed[d]) ==> StagesInOrder(deps, t.order + [i])
  {
    var order := t.order + [i];
    if StagesInOrder(deps, t.order) && forall d :: d in deps[i] ==> d < |deps| && t.committed[d] {
      forall k, d: nat | 0 <= k < |order| && d in deps[order[k]] ensures Emitted(order, k, d) {
        assert k < |t.order| ==> Emitted(t.order, k, d);
        assert k == |t.order| ==> d in t.order;
        var j :| 0 <= j < k && t.order[j] == d;
        assert order[j] == d;
      }
    }
  }

  /** Sorts the stages: always a permutation, and in order of their dependencies if these have no
      cycle. */
  method SortStages(deps: seq<set<nat>>, ghost rank: seq<nat>) returns (order: seq<nat>)
    requires Closed(deps)
    ensures Below(|deps|, order) && (forall i, j :: 0 <= i < j < |order| ==> order[i] != order[j])
    ensures forall x: nat :: x < |deps| ==> x in order
    ensures RankedStages(deps, rank) ==> StagesInOrder(deps, order)
  {
    var none := seq(|deps|, _ => false);
    var s := Walk(none, none, []);
    for i := 0 to |deps|
      invariant Walking(|deps|, s) && (forall x: nat :: !InProgress(s, x))
      invariant forall x: nat :: x < i ==> s.committed[x]
      invariant RankedStages(deps, rank) ==> StagesInOrder(deps, s.order)
    {
      s := Visit(deps, rank, i, s);
    }
    order := s.order;
  }
}
