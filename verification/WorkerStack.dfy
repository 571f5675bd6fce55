/** The stack of batch results that a worker keeps: it merges only results of the same level, so
    levels strictly decrease towards the top and every result is a perfect tree. */
module WorkerStack {
  import opened MergeTree
  import opened Seqs
  import opened Indices
  import opened Types
  import opened Powers

  /** `BatchResult::level`, as `combine` sets it. */
  function Level(s: Shape): nat {
    match s
    case Leaf(_) => 0
    case Node(l, _) => Level(l) + 1
  }

  /** `BatchResult::batch_count`, as `combine` sets it. */
  function BatchCount(s: Shape): nat {
    match s
    case Leaf(_) => 1
    case Node(l, r) => BatchCount(l) + BatchCount(r)
  }

  lemma {:induction false} CountLeaves(s: Shape)
    ensures BatchCount(s) == |Leaves(s)|
  {
    match s
    case Leaf(_) =>
    case Node(l, r) =>
      CountLeaves(l);
      CountLeaves(r);
  }

  ghost predicate Perfect(s: Shape) {
    match s
    case Leaf(_) => true
    case Node(l, r) => Perfect(l) && Perfect(r) && Level(l) == Level(r)
  }

  lemma {:induction false} PerfectCount(s: Shape)
    requires Perfect(s)
    ensures BatchCount(s) == Pow2(Level(s))
  {
    match s
    case Leaf(_) =>
    case Node(l, r) =>
      PerfectCount(l);
      PerfectCount(r);
  }

  /** The partitions merged into the results of a list, in order. */
  function AllLeaves(list: seq<Shape>): seq<nat> {
    if list == [] then [] else Leaves(list[0]) + AllLeaves(list[1..])
  }

  lemma {:induction false} AllLeavesAppend(x: seq<Shape>, y: seq<Shape>)
    ensures AllLeaves(x + y) == AllLeaves(x) + AllLeaves(y)
  {
    if x == [] {
      assert x + y == y;
    } else {
      ConsAppend(x, y);
      AllLeavesAppend(x[1..], y);
      Associate(Leaves(x[0]), AllLeaves(x[1..]), AllLeaves(y));
    }
  }

  lemma AllLeavesSnoc(x: seq<Shape>, s: Shape)
    ensures AllLeaves(x + [s]) == AllLeaves(x) + Leaves(s)
  {
    AllLeavesAppend(x, [s]);
    assert [s][1..] == [] && Leaves(s) + [] == Leaves(s);
  }

  /** Perfect trees with levels strictly decreasing towards the top. */
  ghost predicate LevelStack(stack: seq<Shape>) {
    && (forall i :: 0 <= i < |stack| ==> Perfect(stack[i]))
    && (forall i, j :: 0 <= i < j < |stack| ==> Level(stack[i]) > Level(stack[j]))
  }

  /** The stack after a new result has been merged in. */
  function Merged(stack: seq<Shape>, batch: Shape): (r: seq<Shape>)
    ensures r != []
    decreases |stack|
  {
    if stack == [] then [batch]
    else
      var top := stack[|stack| - 1];
      if Level(top) == Level(batch) then Merged(stack[..|stack| - 1], Node(top, batch)) else stack + [batch]
  }

  lemma {:induction false} MergedKeeps(stack: seq<Shape>, batch: Shape)
    requires LevelStack(stack) && Perfect(batch)
    requires stack != [] ==> Level(batch) <= Level(stack[|stack| - 1])
    ensures LevelStack(Merged(stack, batch))
    ensures AllLeaves(Merged(stack, batch)) == AllLeaves(stack) + Leaves(batch)
    decreases |stack|
  {
    AllLeavesSnoc(stack, batch);
    if stack != [] && Level(stack[|stack| - 1]) == Level(batch) {
      var rest, top := stack[..|stack| - 1], stack[|stack| - 1];
      StackPop(stack);
      MergedKeeps(rest, Node(top, batch));
      AllLeavesSnoc(rest, top);
      Associate(AllLeaves(rest), Leaves(top), Leaves(batch));
    } else {
      StackPush(stack, batch);
    }
  }

  lemma StackPush(stack: seq<Shape>, batch: Shape)
    requires LevelStack(stack) && Perfect(batch) && (stack != [] ==> Level(batch) < Level(stack[|stack| - 1]))
    ensures LevelStack(stack + [batch])
  {
  }

  lemma StackPop(stack: seq<Shape>)
    requires LevelStack(stack) && stack != []
    ensures var rest, top := stack[..|stack| - 1], stack[|stack| - 1];
            LevelStack(rest) && Perfect(top) && rest + [top] == stack && (rest != [] ==> Level(rest[|rest| - 1]) > Level(top))
  {
  }

  /** The loop in `run` that merges a new result into the stack. */
  method MergeLevels(stack: seq<Shape>, batch: Shape) returns (r: seq<Shape>)
    ensures r == Merged(stack, batch)
  {
    var results, result := stack, batch;
    while results != []
      invariant Merged(results, result) == Merged(stack, batch)
      decreases |results|
    {
      var br := results[|results| - 1];
      results := results[..|results| - 1];
      if Level(br) == Level(result) {
        result := Node(br, result);
      } else {
        results := results + [br];
        break;
      }
    }
    r := results + [result];
  }

  lemma {:induction false} LevelsSpread(stack: seq<Shape>, i: nat)
    requires LevelStack(stack) && i < |stack|
    ensures Level(stack[i]) >= |stack| - 1 - i
    decreases |stack| - i
  {
    if i + 1 < |stack| {
      LevelsSpread(stack, i + 1);
    }
  }

  /** The levels are the binary digits of the number of partitions merged: the stack holds
      logarithmically many results, and no partition has gone through more merges than that. */
  lemma {:induction false} StackIsBinary(stack: seq<Shape>)
    requires LevelStack(stack)
    ensures Pow2(|stack|) - 1 <= |AllLeaves(stack)|
    ensures stack != [] ==> Pow2(Level(stack[0])) <= |AllLeaves(stack)| < Pow2(Level(stack[0]) + 1)
  {
    if stack != [] {
      PerfectCount(stack[0]);
      CountLeaves(stack[0]);
      LevelsSpread(stack, 0);
      Pow2Grows(|stack| - 1, Level(stack[0]));
      StackIsBinary(stack[1..]);
      if |stack| > 1 {
        Pow2Grows(Level(stack[1]) + 1, Level(stack[0]));
      }
    }
  }

  // ---------------------------------------------------------------- combine_results

  /** `combine_results`: from the first to the last. */
  function Folded(list: seq<Shape>): (s: Shape)
    requires list != []
  {
    if |list| == 1 then list[0] else Node(Folded(list[..|list| - 1]), list[|list| - 1])
  }

  lemma {:induction false} FoldedLeaves(list: seq<Shape>)
    requires list != []
    ensures Leaves(Folded(list)) == AllLeaves(list)
  {
    var rest, last := list[..|list| - 1], list[|list| - 1];
    AllLeavesSnoc(rest, last);
    assert rest + [last] == list;
    if |list| > 1 {
      FoldedLeaves(rest);
    }
  }

  /** The loop of `combine_results`. */
  method CombineResults(list: seq<Shape>) returns (full: Option<Shape>)
    ensures if list == [] then full == None else full == Some(Folded(list))
  {
    full := None;
    for i := 0 to |list|
      invariant if i == 0 then full == None else full == Some(Folded(list[..i]))
    {
      assert list[..i + 1][..i] == list[..i];
      full := Some(if full.Some? then Node(full.value, list[i]) else list[i]);
    }
    assert list[..|list|] == list;
  }
}
