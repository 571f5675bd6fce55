/** The order of the operators within a stage: a depth-first sort with an explicit stack, on
    which an operator may lie several times. */
module StageOrder {
  import opened OperatorGraph
  import opened Types

  /** Operator `x` must run before `op` because of buffer `b`, an input of `op`: it writes `b`, or
      it reads `b` and `op` mutates it. */
  ghost predicate Link(g: Graph, op: nat, b: nat, x: nat)
    requires op < |g.ops| && x < |g.ops|
  {
    b in g.ops[x].outputs || (b in g.ops[op].mutates && x != op && b in g.ops[x].inputs)
  }

  /** Operator `x` must run before operator `y`. */
  ghost predicate Needs(g: Graph, y: nat, x: nat) {
    y < |g.ops| && x < |g.ops| && exists k :: 0 <= k < |g.ops[y].inputs| && Link(g, y, g.ops[y].inputs[k], x)
  }

  /** Operator `x` of stage `cur` must run before `op` because of the first `k` inputs of `op`. */
  ghost predicate PrecedesBy(g: Graph, stage: seq<int>, cur: int, k: nat, x: nat, op: nat)
    requires |stage| == |g.ops| && op < |g.ops| && k <= |g.ops[op].inputs|
  {
    x < |g.ops| && stage[x] == cur && exists i :: 0 <= i < k && Link(g, op, g.ops[op].inputs[i], x)
  }

  ghost predicate MustPrecede(g: Graph, stage: seq<int>, cur: int, x: nat, op: nat)
    requires |stage| == |g.ops| && op < |g.ops|
  {
    PrecedesBy(g, stage, cur, |g.ops[op].inputs|, x, op)
  }

  /** `rank` witnesses that the operators of the stage depend on each other without cycles. */
  ghost predicate Ranked(g: Graph, stage: seq<int>, cur: int, rank: seq<nat>)
    requires |stage| == |g.ops|
  {
    |rank| == |g.ops| && forall x: nat, y: nat :: y < |g.ops| && stage[y] == cur && MustPrecede(g, stage, cur, x, y) ==> rank[x] < rank[y]
  }

  /** An operator that writes one of its own inputs. */
  ghost predicate TrivialCycle(g: Graph, op: nat)
    requires op < |g.ops|
  {
    exists i :: 0 <= i < |g.ops[op].inputs| && g.ops[op].inputs[i] in g.ops[op].outputs
  }

  /** `x` lies on the stack at or above position `k`. */
  ghost predicate LiesAbove(stack: seq<nat>, k: nat, x: nat) {
    exists j :: k <= j < |stack| && stack[j] == x
  }

  /** `r` is `stack` with more operators on top. */
  ghost predicate OnTop(stack: seq<nat>, r: seq<nat>) {
    |stack| <= |r| && forall j :: 0 <= j < |stack| ==> r[j] == stack[j]
  }

  /** Pushes the operators of `list` that are in stage `cur`, except for `op` itself. */
  method PushStage(g: Graph, stage: seq<int>, cur: int, list: seq<nat>, op: nat, stack: seq<nat>, ghost base: nat)
    returns (itself: bool, r: seq<nat>)
    requires |stage| == |g.ops| && Below(|g.ops|, list) && base <= |stack|
    ensures OnTop(stack, r)
    ensures itself <==> op in list && stage[op] == cur
    ensures forall x: nat :: LiesAbove(r, base, x) <==> LiesAbove(stack, base, x) || (x in list && stage[x] == cur && x != op)
  {
    itself, r := false, stack;
    for k := 0 to |list|
      invariant OnTop(stack, r)
      invariant itself <==> op in list[..k] && stage[op] == cur
      invariant forall x: nat :: LiesAbove(r, base, x) <==> LiesAbove(stack, base, x) || (x in list[..k] && stage[x] == cur && x != op)
    {
      var x := list[k];
      if stage[x] == cur {
        if x == op {
          itself := true;
        } else {
          PushAbove(r, base, x);
          r := r + [x];
        }
      }
    }
  }

  lemma PushAbove(stack: seq<nat>, base: nat, y: nat)
    requires base <= |stack|
    ensures forall x: nat :: LiesAbove(stack + [y], base, x) <==> LiesAbove(stack, base, x) || x == y
  {
    var r := stack + [y];
    assert r[|stack|] == y;
    forall x: nat ensures LiesAbove(r, base, x) <==> LiesAbove(stack, base, x) || x == y {
      if j :| base <= j < |stack| && stack[j] == x { assert r[j] == x; }
    }
  }

  /** Pushes everything that must run before `op`.  An operator that is its own producer makes the
      source panic. */
  method PushDependencies(g: Graph, stage: seq<int>, cur: int, op: nat, stack: seq<nat>) returns (ok: bool, r: seq<nat>)
    requires Wired(g) && |stage| == |g.ops| && op < |g.ops| && stage[op] == cur
    ensures ok <==> !TrivialCycle(g, op)
    ensures ok ==> OnTop(stack, r) && forall x: nat :: LiesAbove(r, |stack|, x) <==> MustPrecede(g, stage, cur, x, op)
  {
    r := stack;
    var inputs := g.ops[op].inputs;
    for k := 0 to |inputs|
      invariant OnTop(stack, r)
      invariant forall i :: 0 <= i < k ==> inputs[i] !in g.ops[op].outputs
      invariant forall x: nat :: LiesAbove(r, |stack|, x) <==> PrecedesBy(g, stage, cur, k, x, op)
    {
      var b := inputs[k];
      ghost var r0 := r;
      assert Below(|g.consumers|, inputs);
      var itself;
      itself, r := PushStage(g, stage, cur, g.producers[b], op, r, |stack|);
      if itself {
        return false, r;
      }
      if b in g.ops[op].mutates {
        itself, r := PushStage(g, stage, cur, g.consumers[b], op, r, |stack|);
      }
      forall x: nat ensures LiesAbove(r, |stack|, x) <==> PrecedesBy(g, stage, cur, k + 1, x, op) {
        assert LiesAbove(r, |stack|, x) <==> LiesAbove(r0, |stack|, x) || (x < |g.ops| && stage[x] == cur && Link(g, op, b, x));
      }
    }
    ok := true;
  }

  // ---------------------------------------------------------------- the sort

  /** The state of the sort of one stage. */
  datatype Sort = Sort(stack: seq<nat>, entered: seq<bool>, pushed: seq<bool>, order: seq<nat>)

  /** Operator `x` has been opened and waits at position `k`: all above it comes earlier, and
      everything that must run before it has been emitted or lies above it. */
  ghost predicate WaitsAt(g: Graph, stage: seq<int>, cur: int, rank: seq<nat>, stack: seq<nat>, pushed: seq<bool>, x: nat, k: nat)
    requires |stage| == |rank| == |pushed| == |g.ops| && Below(|g.ops|, stack) && x < |g.ops|
  {
    && k < |stack| && stack[k] == x
    && (forall j :: k < j < |stack| ==> rank[stack[j]] < rank[x])
    && (forall p: nat :: MustPrecede(g, stage, cur, p, x) ==> pushed[p] || LiesAbove(stack, k + 1, p))
  }

  ghost predicate Waits(g: Graph, stage: seq<int>, cur: int, rank: seq<nat>, stack: seq<nat>, pushed: seq<bool>, x: nat)
    requires |stage| == |rank| == |pushed| == |g.ops| && Below(|g.ops|, stack) && x < |g.ops|
  {
    exists k: nat :: WaitsAt(g, stage, cur, rank, stack, pushed, x, k)
  }

  ghost predicate Emitted(order: seq<nat>, n: nat, x: nat)
    requires n <= |order|
  {
    exists j :: 0 <= j < n && order[j] == x
  }

  /** Everything in the order comes after all that must run before it. */
  ghost predicate Topological(g: Graph, stage: seq<int>, cur: int, order: seq<nat>)
    requires |stage| == |g.ops| && Below(|g.ops|, order)
  {
    forall i, p: nat :: 0 <= i < |order| && MustPrecede(g, stage, cur, p, order[i]) ==> Emitted(order, i, p)
  }

  /** The order holds exactly the operators of the stage marked as pushed, once each. */
  ghost predicate Listed(n: nat, stage: seq<int>, cur: int, pushed: seq<bool>, order: seq<nat>)
    requires |stage| == |pushed| == n
  {
    && Below(n, order)
    && (forall i, j :: 0 <= i < j < |order| ==> order[i] != order[j])
    && (forall x: nat :: x < n ==> (stage[x] == cur && pushed[x] <==> x in order))
  }

  ghost predicate Sorting(g: Graph, stage: seq<int>, cur: int, s: Sort)
    requires |stage| == |g.ops|
  {
    && |s.entered| == |s.pushed| == |g.ops| && Below(|g.ops|, s.stack)
    && (forall i :: 0 <= i < |s.stack| ==> stage[s.stack[i]] == cur)
    && Listed(|g.ops|, stage, cur, s.pushed, s.order)
    && (forall x: nat :: x < |g.ops| && stage[x] == cur ==> (s.pushed[x] ==> s.entered[x]))
    && (forall x: nat :: x < |g.ops| && stage[x] == cur && !s.pushed[x] ==> x in s.stack)
    && (forall x: nat :: x < |g.ops| && stage[x] == cur && s.entered[x] ==> !TrivialCycle(g, x))
  }

  /** In a stage without cycles, every opened operator waits properly. */
  ghost predicate Acyclic(g: Graph, stage: seq<int>, cur: int, rank: seq<nat>, s: Sort)
    requires |stage| == |g.ops| && Ranked(g, stage, cur, rank) && Sorting(g, stage, cur, s)
  {
    && (forall x: nat :: x < |g.ops| && stage[x] == cur && s.entered[x] && !s.pushed[x] ==> Waits(g, stage, cur, rank, s.stack, s.pushed, x))
    && Topological(g, stage, cur, s.order)
  }

  /** An operator is opened: it goes back on the stack, below all that must run before it. */
  lemma Open(g: Graph, stage: seq<int>, cur: int, rank: seq<nat>, s: Sort, r: seq<nat>)
    requires |stage| == |g.ops| && Sorting(g, stage, cur, s) && s.stack != []
    requires var op := s.stack[|s.stack| - 1];
             && !s.entered[op] && !TrivialCycle(g, op) && OnTop(s.stack, r)
             && (forall x: nat :: LiesAbove(r, |s.stack|, x) <==> MustPrecede(g, stage, cur, x, op))
    ensures var t := s.(stack := r, entered := s.entered[s.stack[|s.stack| - 1] := true]);
            && Sorting(g, stage, cur, t)
            && (Ranked(g, stage, cur, rank) && Acyclic(g, stage, cur, rank, s) ==> Acyclic(g, stage, cur, rank, t))
  {
    var top := |s.stack| - 1;
    var op := s.stack[top];
    var t := s.(stack := r, entered := s.entered[op := true]);
    forall i | 0 <= i < |r| ensures r[i] < |g.ops| && stage[r[i]] == cur {
      if i >= |s.stack| { assert LiesAbove(r, |s.stack|, r[i]); }
    }
    forall x: nat | x < |g.ops| && stage[x] == cur && !s.pushed[x] ensures x in r {
      var i :| 0 <= i < |s.stack| && s.stack[i] == x;
      assert r[i] == x;
    }
    if Ranked(g, stage, cur, rank) && Acyclic(g, stage, cur, rank, s) {
      forall x: nat | x < |g.ops| && stage[x] == cur && t.entered[x] && !t.pushed[x] ensures Waits(g, stage, cur, rank, r, t.pushed, x) {
        if x == op {
          OpenItself(g, stage, cur, rank, s, r);
        } else {
          OpenOther(g, stage, cur, rank, s, r, x);
        }
      }
    }
  }

  lemma OpenItself(g: Graph, stage: seq<int>, cur: int, rank: seq<nat>, s: Sort, r: seq<nat>)
    requires |stage| == |g.ops| && Sorting(g, stage, cur, s) && s.stack != [] && Ranked(g, stage, cur, rank)
    requires OnTop(s.stack, r) && Below(|g.ops|, r)
    requires forall x: nat :: LiesAbove(r, |s.stack|, x) <==> MustPrecede(g, stage, cur, x, s.stack[|s.stack| - 1])
    ensures Waits(g, stage, cur, rank, r, s.pushed, s.stack[|s.stack| - 1])
  {
    var top := |s.stack| - 1;
    forall j | top < j < |r| ensures rank[r[j]] < rank[s.stack[top]] {
      assert LiesAbove(r, |s.stack|, r[j]);
    }
    assert WaitsAt(g, stage, cur, rank, r, s.pushed, s.stack[top], top);
  }

  lemma OpenOther(g: Graph, stage: seq<int>, cur: int, rank: seq<nat>, s: Sort, r: seq<nat>, x: nat)
    requires |stage| == |g.ops| && Sorting(g, stage, cur, s) && s.stack != [] && Ranked(g, stage, cur, rank)
    requires OnTop(s.stack, r) && Below(|g.ops|, r)
    requires forall x: nat :: LiesAbove(r, |s.stack|, x) <==> MustPrecede(g, stage, cur, x, s.stack[|s.stack| - 1])
    requires x < |g.ops| && x != s.stack[|s.stack| - 1] && Waits(g, stage, cur, rank, s.stack, s.pushed, x)
    ensures Waits(g, stage, cur, rank, r, s.pushed, x)
  {
    var top := |s.stack| - 1;
    var k: nat :| WaitsAt(g, stage, cur, rank, s.stack, s.pushed, x, k);
    forall j | k < j < |r| ensures rank[r[j]] < rank[x] {
      if j > top { assert LiesAbove(r, |s.stack|, r[j]); }
    }
    forall p: nat | MustPrecede(g, stage, cur, p, x) ensures s.pushed[p] || LiesAbove(r, k + 1, p) {
      if !s.pushed[p] {
        var j :| k + 1 <= j < |s.stack| && s.stack[j] == p;
        assert r[j] == p;
      }
    }
    assert WaitsAt(g, stage, cur, rank, r, s.pushed, x, k);
  }

  /** Taking an operator off the stack that is emitted, or has been, leaves all others waiting. */
  lemma PopKeeps(g: Graph, stage: seq<int>, cur: int, rank: seq<nat>, stack: seq<nat>, pushed: seq<bool>, x: nat)
    requires |stage| == |rank| == |pushed| == |g.ops| && Below(|g.ops|, stack) && x < |g.ops|
    requires stack != [] && x != stack[|stack| - 1] && Waits(g, stage, cur, rank, stack, pushed, x)
    ensures Waits(g, stage, cur, rank, stack[..|stack| - 1], pushed[stack[|stack| - 1] := true], x)
  {
    var top := |stack| - 1;
    var k: nat :| WaitsAt(g, stage, cur, rank, stack, pushed, x, k);
    var rest, done := stack[..top], pushed[stack[top] := true];
    forall p: nat | MustPrecede(g, stage, cur, p, x) ensures done[p] || LiesAbove(rest, k + 1, p) {
      if !pushed[p] {
        var j :| k + 1 <= j < |stack| && stack[j] == p;
        if j < top { assert rest[j] == p; }
      }
    }
    assert WaitsAt(g, stage, cur, rank, rest, done, x, k);
  }

  /** An operator on top of the stack that has been opened waits for nothing any more. */
  lemma TopIsReady(g: Graph, stage: seq<int>, cur: int, rank: seq<nat>, stack: seq<nat>, pushed: seq<bool>)
    requires |stage| == |rank| == |pushed| == |g.ops| && Below(|g.ops|, stack) && stack != []
    requires Waits(g, stage, cur, rank, stack, pushed, stack[|stack| - 1])
    ensures forall p: nat :: MustPrecede(g, stage, cur, p, stack[|stack| - 1]) ==> pushed[p]
  {
    var k: nat :| WaitsAt(g, stage, cur, rank, stack, pushed, stack[|stack| - 1], k);
    assert k == |stack| - 1;
  }

  /** The order after the topmost operator has been taken off. */
  function AfterPop(s: Sort): (t: Sort)
    requires s.stack != [] && |s.pushed| > s.stack[|s.stack| - 1]
  {
    var op := s.stack[|s.stack| - 1];
    Sort(s.stack[..|s.stack| - 1], s.entered, s.pushed[op := true], if s.pushed[op] then s.order else s.order + [op])
  }

  lemma PopListed(g: Graph, stage: seq<int>, cur: int, s: Sort)
    requires |stage| == |g.ops| && Sorting(g, stage, cur, s) && s.stack != []
    ensures Listed(|g.ops|, stage, cur, AfterPop(s).pushed, AfterPop(s).order)
  {
  }

  lemma Pop(g: Graph, stage: seq<int>, cur: int, rank: seq<nat>, s: Sort)
    requires |stage| == |g.ops| && Sorting(g, stage, cur, s) && s.stack != [] && s.entered[s.stack[|s.stack| - 1]]
    ensures Sorting(g, stage, cur, AfterPop(s))
    ensures Ranked(g, stage, cur, rank) && Acyclic(g, stage, cur, rank, s) ==> Acyclic(g, stage, cur, rank, AfterPop(s))
  {
    var op, t := s.stack[|s.stack| - 1], AfterPop(s);
    PopListed(g, stage, cur, s);
    forall x: nat | x < |g.ops| && stage[x] == cur && !t.pushed[x] ensures x in t.stack {
      var i :| 0 <= i < |s.stack| && s.stack[i] == x;
      assert t.stack[i] == x;
    }
    if Ranked(g, stage, cur, rank) && Acyclic(g, stage, cur, rank, s) {
      forall x: nat | x < |g.ops| && stage[x] == cur && t.entered[x] && !t.pushed[x] ensures Waits(g, stage, cur, rank, t.stack, t.pushed, x) {
        PopKeeps(g, stage, cur, rank, s.stack, s.pushed, x);
      }
      PopTopological(g, stage, cur, rank, s);
    }
  }

  lemma PopTopological(g: Graph, stage: seq<int>, cur: int, rank: seq<nat>, s: Sort)
    requires |stage| == |g.ops| && Sorting(g, stage, cur, s) && s.stack != [] && s.entered[s.stack[|s.stack| - 1]]
    requires Ranked(g, stage, cur, rank) && Acyclic(g, stage, cur, rank, s) && Below(|g.ops|, AfterPop(s).order)
    ensures Topological(g, stage, cur, AfterPop(s).order)
  {
    var op, order := s.stack[|s.stack| - 1], AfterPop(s).order;
    if !s.pushed[op] {
      TopIsReady(g, stage, cur, rank, s.stack, s.pushed);
    }
    forall i, p: nat | 0 <= i < |order| && MustPrecede(g, stage, cur, p, order[i]) ensures Emitted(order, i, p) {
      if i < |s.order| {
        assert Emitted(s.order, i, p);
        var j :| 0 <= j < i && s.order[j] == p;
        assert order[j] == p;
      } else {
        assert p in s.order;
        var j :| 0 <= j < |s.order| && s.order[j] == p;
        assert order[j] == p;
      }
    }
  }

  /** How many entries are false. */
  ghost function Unset(s: seq<bool>): nat {
    if s == [] then 0 else (if s[0] then 0 else 1) + Unset(s[1..])
  }

  lemma {:induction false} UnsetUpdate(s: seq<bool>, i: nat)
    requires i < |s| && !s[i]
    ensures Unset(s[i := true]) == Unset(s) - 1
  {
    var t := s[i := true];
    if i == 0 {
      assert t[1..] == s[1..];
    } else {
      assert t[1..] == s[1..][i - 1 := true];
      UnsetUpdate(s[1..], i - 1);
    }
  }

  /** The topological sort of one stage.  `found` lists the operators of stage `cur`, possibly
      several times; `entered` and `pushed` carry over from earlier stages. */
  method SortStage(g: Graph, stage: seq<int>, cur: int, found: seq<nat>, entered0: seq<bool>, pushed0: seq<bool>, ghost rank: seq<nat>)
    returns (ok: bool, order: seq<nat>, entered: seq<bool>, pushed: seq<bool>)
    requires Wired(g) && |stage| == |entered0| == |pushed0| == |g.ops| && Below(|g.ops|, found)
    requires forall x: nat :: x < |g.ops| ==> (stage[x] == cur <==> x in found)
    requires forall x: nat :: x < |g.ops| && stage[x] == cur ==> !entered0[x] && !pushed0[x]
    ensures ok <==> forall x: nat :: x < |g.ops| && stage[x] == cur ==> !TrivialCycle(g, x)
    ensures ok ==> Listed(|g.ops|, stage, cur, seq(|g.ops|, _ => true), order)
    ensures ok && Ranked(g, stage, cur, rank) ==> Topological(g, stage, cur, order)
    ensures |entered| == |pushed| == |g.ops|
    ensures forall x: nat :: x < |g.ops| && stage[x] != cur ==> entered[x] == entered0[x] && pushed[x] == pushed0[x]
  {
    var s := Sort(found, entered0, pushed0, []);
    assert forall i :: 0 <= i < |found| ==> found[i] in found;
    while s.stack != []
      invariant Sorting(g, stage, cur, s)
      invariant Ranked(g, stage, cur, rank) ==> Acyclic(g, stage, cur, rank, s)
      invariant forall x: nat :: x < |g.ops| && stage[x] != cur ==> s.entered[x] == entered0[x] && s.pushed[x] == pushed0[x]
      decreases Unset(s.entered), |s.stack|
    {
      var op := s.stack[|s.stack| - 1];
      if !s.entered[op] {
        var fine, r := PushDependencies(g, stage, cur, op, s.stack);
        if !fine {
          return false, s.order, s.entered, s.pushed;
        }
        Open(g, stage, cur, rank, s, r);
        UnsetUpdate(s.entered, op);
        s := s.(stack := r, entered := s.entered[op := true]);
      } else {
        Pop(g, stage, cur, rank, s);
        s := AfterPop(s);
      }
    }
    return true, s.order, s.entered, s.pushed;
  }
}
