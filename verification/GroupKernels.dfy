/** The kernels that merge group-by results: deduplication of the last key column run by run,
    and replay of the resulting plan on the other columns. */
module GroupKernels {
  import opened Order
  import opened Types
  import opened MergePlans
  import opened Partitioning
  import opened DedupMerge
  import opened GroupMerge
  import opened GroupBy
  import opened Seqs

  lemma {:induction false} TakenSnoc(ops: seq<MergeOp>, x: MergeOp)
    ensures LeftTaken(ops + [x]) == LeftTaken(ops) + if x == TakeLeft then 1 else 0
    ensures RightTaken(ops + [x]) == RightTaken(ops) + if x == TakeLeft then 0 else 1
  {
    if ops == [] {
      assert ops + [x] == [x] && [x][1..] == [];
    } else {
      ConsAppend(ops, [x]);
      TakenSnoc(ops[1..], x);
    }
  }

  /** What one step of a plan appends. */
  ghost function Emit<T>(x: MergeOp, a: seq<T>, b: seq<T>, i: nat, j: nat): seq<T>
    requires if x == TakeLeft then i < |a| else j < |b|
  {
    if x == TakeLeft then [a[i]] else if x == TakeRight then [b[j]] else []
  }

  lemma {:induction false} ReplaySnoc<T>(ops: seq<MergeOp>, x: MergeOp, a: seq<T>, b: seq<T>)
    requires LeftTaken(ops) <= |a| && RightTaken(ops) <= |b|
    requires if x == TakeLeft then LeftTaken(ops) < |a| else RightTaken(ops) < |b|
    ensures LeftTaken(ops + [x]) <= |a| && RightTaken(ops + [x]) <= |b|
    ensures Replay(ops + [x], a, b) == Replay(ops, a, b) + Emit(x, a, b, LeftTaken(ops), RightTaken(ops))
  {
    TakenSnoc(ops, x);
    if ops == [] {
      assert ops + [x] == [x] && [x][1..] == [];
    } else {
      ConsAppend(ops, [x]);
      TakenTail(ops);
      if ops[0] == TakeLeft {
        ReplaySnoc(ops[1..], x, a[1..], b);
        Associate([a[0]], Replay(ops[1..], a[1..], b), Emit(x, a, b, LeftTaken(ops), RightTaken(ops)));
      } else if ops[0] == TakeRight {
        ReplaySnoc(ops[1..], x, a, b[1..]);
        Associate([b[0]], Replay(ops[1..], a, b[1..]), Emit(x, a, b, LeftTaken(ops), RightTaken(ops)));
      } else {
        ReplaySnoc(ops[1..], x, a, b[1..]);
      }
    }
  }

  lemma TakenTail(ops: seq<MergeOp>)
    requires ops != []
    ensures LeftTaken(ops) == LeftTaken(ops[1..]) + if ops[0] == TakeLeft then 1 else 0
    ensures RightTaken(ops) == RightTaken(ops[1..]) + if ops[0] == TakeLeft then 0 else 1
  {
  }

  // ---------------------------------------------------------------- merge_deduplicate_partitioned

  /** The rows are strictly sorted and `left` and `right` are their last columns. */
  ghost predicate LastColumns(desc: seq<bool>, c: nat, a: seq<Key>, b: seq<Key>, left: seq<int>, right: seq<int>) {
    && !Direction(desc, c)
    && Strict(KeyOrder(desc), a) && Strict(KeyOrder(desc), b)
    && IsColumn(left, a, c) && IsColumn(right, b, c)
    && (forall x :: 0 <= x < |a| ==> |a[x]| == c + 1) && (forall y :: 0 <= y < |b| ==> |b[y]| == c + 1)
  }

  /** The state of the merge: the plan so far, and its replay on the last column. */
  ghost predicate Merged(lt: (Key, Key) -> bool, a: seq<Key>, b: seq<Key>, left: seq<int>, right: seq<int>,
                         i: nat, j: nat, ops: seq<MergeOp>, result: seq<int>)
  {
    && Merging(lt, a, b, i, j, ops) && |left| == |a| && |right| == |b|
    && LeftTaken(ops) == i && RightTaken(ops) == j
    && result == Replay(ops, left, right)
  }

  lemma MergedLeft(lt: (Key, Key) -> bool, a: seq<Key>, b: seq<Key>, left: seq<int>, right: seq<int>,
                   i: nat, j: nat, ops: seq<MergeOp>, result: seq<int>)
    requires Merged(lt, a, b, left, right, i, j, ops, result) && i < |a| && !Pending(a, b, i, j)
    requires j < |b| ==> !lt(b[j], a[i])
    ensures Merged(lt, a, b, left, right, i + 1, j, ops + [TakeLeft], result + [left[i]])
  {
    TakeLeftStep(lt, a, b, i, j, ops);
    TakenSnoc(ops, TakeLeft);
    ReplaySnoc(ops, TakeLeft, left, right);
  }

  lemma MergedRight(lt: (Key, Key) -> bool, a: seq<Key>, b: seq<Key>, left: seq<int>, right: seq<int>,
                    i: nat, j: nat, ops: seq<MergeOp>, result: seq<int>)
    requires Merged(lt, a, b, left, right, i, j, ops, result) && j < |b| && !Pending(a, b, i, j)
    requires i < |a| ==> lt(b[j], a[i])
    ensures Merged(lt, a, b, left, right, i, j + 1, ops + [TakeRight], result + [right[j]]) && !Pending(a, b, i, j + 1)
  {
    TakeRightStep(lt, a, b, i, j, ops);
    TakenSnoc(ops, TakeRight);
    ReplaySnoc(ops, TakeRight, left, right);
  }

  lemma MergedPending(lt: (Key, Key) -> bool, a: seq<Key>, b: seq<Key>, left: seq<int>, right: seq<int>,
                      i: nat, j: nat, ops: seq<MergeOp>, result: seq<int>)
    requires Merged(lt, a, b, left, right, i, j, ops, result) && Pending(a, b, i, j)
    ensures Merged(lt, a, b, left, right, i, j + 1, ops + [MergeRight], result) && !Pending(a, b, i, j + 1)
  {
    MergeRightStep(lt, a, b, i, j, ops);
    TakenSnoc(ops, MergeRight);
    ReplaySnoc(ops, MergeRight, left, right);
  }

  /** The rows between the cursors and `i'`, `j'` compare like the values in `left` and `right`,
      and come before all rows behind. */
  ghost predicate ByColumn(lt: (Key, Key) -> bool, a: seq<Key>, b: seq<Key>, left: seq<int>, right: seq<int>,
                           i: nat, j: nat, i': nat, j': nat)
  {
    && i <= i' <= |a| == |left| && j <= j' <= |b| == |right|
    && (forall s, t :: i <= s < i' && j <= t < j' ==>
          (lt(b[t], a[s]) <==> right[t] < left[s]) && (a[s] == b[t] <==> left[s] == right[t]))
    && (forall t :: j < t < j' ==> right[t - 1] != right[t])
    && (forall s, t :: i <= s < i' && j' <= t < |b| ==> lt(a[s], b[t]) && a[s] != b[t])
    && (forall s, t :: i' <= s < |a| && j <= t < j' ==> lt(b[t], a[s]))
  }

  lemma RunByColumn(desc: seq<bool>, c: nat, k: Key, x: Premerge, a: seq<Key>, b: seq<Key>, i: nat, j: nat,
                    left: seq<int>, right: seq<int>)
    requires LastColumns(desc, c, a, b, left, right) && RunLike(desc, c, k, x, a, b, i, j)
    ensures ByColumn(KeyOrder(desc), a, b, left, right, i, j, i + x.left, j + x.right)
  {
    var lt, i', j' := KeyOrder(desc), i + x.left, j + x.right;
    BlockBefore(desc, c, k, a, b, i, i', j, j');
    BlockBefore(desc, c, k, b, a, j, j', i, i');
    KeyOrderIsStrict(desc);
    forall s, t | i <= s < i' && j <= t < j'
      ensures (lt(b[t], a[s]) <==> right[t] < left[s]) && (a[s] == b[t] <==> left[s] == right[t])
    {
      assert Agree(c, k, a[s]) && Agree(c, k, b[t]);
      CompareLast(desc, c, b[t], a[s]);
    }
    forall t | j < t < j' ensures right[t - 1] != right[t] {
      assert Agree(c, k, b[t - 1]) && Agree(c, k, b[t]) && lt(b[t - 1], b[t]);
      CompareLast(desc, c, b[t - 1], b[t]);
    }
  }

  /** Merges the rows of one run. */
  method DedupRun(ghost lt: (Key, Key) -> bool, ghost a: seq<Key>, ghost b: seq<Key>,
                  group: Premerge, left: seq<int>, right: seq<int>, i0: nat, j0: nat,
                  ops0: seq<MergeOp>, result0: seq<int>)
    returns (i: nat, j: nat, ops: seq<MergeOp>, result: seq<int>)
    requires ByColumn(lt, a, b, left, right, i0, j0, i0 + group.left, j0 + group.right)
    requires Merged(lt, a, b, left, right, i0, j0, ops0, result0) && !Pending(a, b, i0, j0)
    ensures i == i0 + group.left && j == j0 + group.right
    ensures Merged(lt, a, b, left, right, i, j, ops, result) && !Pending(a, b, i, j)
  {
    i, j, ops, result := i0, j0, ops0, result0;
    var last: Option<int> := None;
    var iMax, jMax := i + group.left, j + group.right;
    for n := 0 to group.left + group.right
      invariant i0 <= i <= iMax && j0 <= j <= jMax && i - i0 + j - j0 == n
      invariant Merged(lt, a, b, left, right, i, j, ops, result)
      invariant if j < jMax then last == Some(right[j]) <==> Pending(a, b, i, j) else !Pending(a, b, i, j)
    {
      if j < jMax && last == Some(right[j]) {
        MergedPending(lt, a, b, left, right, i, j, ops, result);
        ops := ops + [MergeRight];
        j := j + 1;
      } else if i < iMax && (j >= jMax || left[i] <= right[j]) {
        MergedLeft(lt, a, b, left, right, i, j, ops, result);
        result := result + [left[i]];
        ops := ops + [TakeLeft];
        last := Some(left[i]);
        i := i + 1;
      } else {
        MergedRight(lt, a, b, left, right, i, j, ops, result);
        result := result + [right[j]];
        ops := ops + [TakeRight];
        last := Some(right[j]);
        j := j + 1;
      }
    }
  }

  /** `merge_deduplicate_partitioned`. */
  method MergeDeduplicatePartitioned(ghost desc: seq<bool>, ghost c: nat, ghost a: seq<Key>, ghost b: seq<Key>,
                                     partitioning: seq<Premerge>, left: seq<int>, right: seq<int>)
    returns (result: seq<int>, ops: seq<MergeOp>)
    requires LastColumns(desc, c, a, b, left, right)
    requires Runs(desc, c, partitioning, a, b)
    ensures Lefts(partitioning, |partitioning|) <= |a| && Rights(partitioning, |partitioning|) <= |b|
    ensures ops == RowOps(KeyOrder(desc), a[..Lefts(partitioning, |partitioning|)], b[..Rights(partitioning, |partitioning|)])
    ensures LeftTaken(ops) <= |left| && RightTaken(ops) <= |right| && result == Replay(ops, left, right)
  {
    result, ops := [], [];
    var i: nat, j: nat := 0, 0;
    ghost var lt := KeyOrder(desc);
    KeyOrderIsStrict(desc);
    for g := 0 to |partitioning|
      invariant i == Lefts(partitioning, g) && j == Rights(partitioning, g)
      invariant Merged(lt, a, b, left, right, i, j, ops, result) && !Pending(a, b, i, j)
    {
      assert OneRun(desc, c, partitioning[g], a, b, Lefts(partitioning, g), Rights(partitioning, g));
      ghost var k :| RunLike(desc, c, k, partitioning[g], a, b, i, j);
      RunByColumn(desc, c, k, partitioning[g], a, b, i, j, left, right);
      i, j, ops, result := DedupRun(lt, a, b, partitioning[g], left, right, i, j, ops, result);
    }
  }

  // ---------------------------------------------------------------- merge_deduplicate

  /** `merge_deduplicate`, for results grouped by a single column. */
  method MergeDeduplicate(ghost lt: (Key, Key) -> bool, ghost a: seq<Key>, ghost b: seq<Key>, left: seq<int>, right: seq<int>)
    returns (result: seq<int>, ops: seq<MergeOp>)
    requires StrictOrder(lt) && Strict(lt, a) && Strict(lt, b)
    requires ByColumn(lt, a, b, left, right, 0, 0, |a|, |b|)
    ensures ops == RowOps(lt, a, b)
    ensures LeftTaken(ops) <= |left| && RightTaken(ops) <= |right| && result == Replay(ops, left, right)
  {
    result, ops := [], [];
    var i: nat, j: nat := 0, 0;
    while i < |left| && j < |right|
      invariant Merged(lt, a, b, left, right, i, j, ops, result)
      invariant j < |right| ==> ((result != [] && result[|result| - 1] == right[j]) <==> Pending(a, b, i, j))
      decreases |left| - i + |right| - j
    {
      if result != [] && result[|result| - 1] == right[j] {
        MergedPending(lt, a, b, left, right, i, j, ops, result);
        ops := ops + [MergeRight];
        j := j + 1;
      } else if left[i] <= right[j] {
        MergedLeft(lt, a, b, left, right, i, j, ops, result);
        result := result + [left[i]];
        ops := ops + [TakeLeft];
        i := i + 1;
      } else {
        MergedRight(lt, a, b, left, right, i, j, ops, result);
        result := result + [right[j]];
        ops := ops + [TakeRight];
        j := j + 1;
      }
    }
    i, j, ops, result := DeduplicateTails(lt, a, b, left, right, i, j, ops, result);
    assert a[..i] == a && b[..j] == b;
  }

  /** What is left of one side when the other has been used up. */
  method DeduplicateTails(ghost lt: (Key, Key) -> bool, ghost a: seq<Key>, ghost b: seq<Key>, left: seq<int>, right: seq<int>,
                          i0: nat, j0: nat, ops0: seq<MergeOp>, result0: seq<int>)
    returns (i: nat, j: nat, ops: seq<MergeOp>, result: seq<int>)
    requires Merged(lt, a, b, left, right, i0, j0, ops0, result0) && (i0 < |left| ==> j0 == |right|)
    requires j0 < |right| ==> ((result0 != [] && result0[|result0| - 1] == right[j0]) <==> Pending(a, b, i0, j0))
    ensures i == |a| && j == |b| && Merged(lt, a, b, left, right, i, j, ops, result)
  {
    i, j, ops, result := i0, j0, ops0, result0;
    while i < |left|
      invariant Merged(lt, a, b, left, right, i, j, ops, result) && (i < |left| ==> j == |right|)
      invariant j < |right| ==> ((result != [] && result[|result| - 1] == right[j]) <==> Pending(a, b, i, j))
    {
      MergedLeft(lt, a, b, left, right, i, j, ops, result);
      result := result + [left[i]];
      ops := ops + [TakeLeft];
      i := i + 1;
    }
    if j < |right| && result != [] && result[|result| - 1] == right[j] {
      MergedPending(lt, a, b, left, right, i, j, ops, result);
      ops := ops + [MergeRight];
      j := j + 1;
    }
    while j < |right|
      invariant i == |left| && Merged(lt, a, b, left, right, i, j, ops, result) && !Pending(a, b, i, j)
    {
      MergedRight(lt, a, b, left, right, i, j, ops, result);
      result := result + [right[j]];
      ops := ops + [TakeRight];
      j := j + 1;
    }
  }

  // ---------------------------------------------------------------- replay on other columns

  lemma {:induction false} TakenPrefix(ops: seq<MergeOp>, n: nat)
    requires n <= |ops|
    ensures LeftTaken(ops[..n]) <= LeftTaken(ops) && RightTaken(ops[..n]) <= RightTaken(ops)
  {
    if n > 0 {
      TakenPrefix(ops[1..], n - 1);
      assert ops[..n][1..] == ops[1..][..n - 1];
    }
  }

  /** `merge_drop`. */
  method MergeDrop<T>(ops: seq<MergeOp>, left: seq<T>, right: seq<T>) returns (result: seq<T>)
    requires LeftTaken(ops) <= |left| && RightTaken(ops) <= |right|
    ensures result == Replay(ops, left, right)
  {
    result := [];
    var i: nat, j: nat := 0, 0;
    for n := 0 to |ops|
      invariant i == LeftTaken(ops[..n]) <= |left| && j == RightTaken(ops[..n]) <= |right|
      invariant result == Replay(ops[..n], left, right)
    {
      assert ops[..n + 1] == ops[..n] + [ops[n]];
      TakenPrefix(ops, n + 1);
      TakenSnoc(ops[..n], ops[n]);
      ReplaySnoc(ops[..n], ops[n], left, right);
      match ops[n] {
        case TakeLeft =>
          result := result + [left[i]];
          i := i + 1;
        case TakeRight =>
          result := result + [right[j]];
          j := j + 1;
        case MergeRight =>
          j := j + 1;
      }
    }
    assert ops[..|ops|] == ops;
  }

  /** `merge_aggregate`: replays the plan on an aggregate column. */
  method MergeAggregate(op: Aggregator, ops: seq<MergeOp>, left: seq<int>, right: seq<int>)
    returns (r: Result<seq<int>>)
    requires LeftTaken(ops) <= |left| && RightTaken(ops) <= |right|
    requires ops != [] ==> ops[0] != MergeRight
    ensures r == Aggregate(op, ops, left, right, [])
  {
    var result: seq<int> := [];
    var i: nat, j: nat, n: nat := 0, 0, 0;
    assert ops[0..] == ops && left[0..] == left && right[0..] == right;
    while n < |ops|
      invariant n <= |ops| && i <= |left| && j <= |right|
      invariant LeftTaken(ops[n..]) <= |left| - i && RightTaken(ops[n..]) <= |right| - j
      invariant n < |ops| && ops[n] == MergeRight ==> result != []
      invariant Aggregate(op, ops[n..], left[i..], right[j..], result) == Aggregate(op, ops, left, right, [])
    {
      assert ops[n..][0] == ops[n] && ops[n..][1..] == ops[n + 1..];
      if i < |left| { assert left[i..][1..] == left[i + 1..]; }
      if j < |right| { assert right[j..][1..] == right[j + 1..]; }
      match ops[n] {
        case TakeLeft =>
          result := result + [left[i]];
          i := i + 1;
        case TakeRight =>
          result := result + [right[j]];
          j := j + 1;
        case MergeRight =>
          var last := |result| - 1;
          var combined := Combine(op, result[last], right[j]);
          if combined.Err? {
            return Err(combined.error);
          }
          result := result[last := combined.value];
          j := j + 1;
      }
      n := n + 1;
    }
    r := Ok(result);
  }
}
