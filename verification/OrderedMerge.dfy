/** Merging sorted results of an order-by query: the plan merges whole rows, `merge_keep`
    replays it on the other columns, and cutting off at the limit loses nothing. */
module OrderedMerge {
  import opened Order
  import opened Types
  import opened MergePlans
  import opened Partitioning
  import opened GroupBy
  import opened Seqs

  // ---------------------------------------------------------------- replaying a plan

  ghost function LeftKept(ops: seq<bool>): (n: nat)
    ensures n <= |ops|
  {
    if ops == [] then 0 else (if ops[0] then 1 else 0) + LeftKept(ops[1..])
  }

  /** What `merge_keep` makes of a column. */
  function Keep<T>(ops: seq<bool>, a: seq<T>, b: seq<T>): (s: seq<T>)
    requires LeftKept(ops) <= |a| && |ops| - LeftKept(ops) <= |b|
    ensures |s| == |ops|
  {
    if ops == [] then []
    else if ops[0] then [a[0]] + Keep(ops[1..], a[1..], b)
    else [b[0]] + Keep(ops[1..], a, b[1..])
  }

  lemma {:induction false} KeptSnoc(ops: seq<bool>, x: bool)
    ensures LeftKept(ops + [x]) == LeftKept(ops) + (if x then 1 else 0) <= |ops| + 1
  {
    if ops == [] {
      assert ops + [x] == [x] && [x][1..] == [];
    } else {
      ConsAppend(ops, [x]);
      KeptSnoc(ops[1..], x);
    }
  }

  lemma {:induction false} KeepSnoc<T>(ops: seq<bool>, x: bool, a: seq<T>, b: seq<T>)
    requires LeftKept(ops) <= |a| && |ops| - LeftKept(ops) <= |b|
    requires if x then LeftKept(ops) < |a| else |ops| - LeftKept(ops) < |b|
    ensures LeftKept(ops + [x]) <= |a| && |ops + [x]| - LeftKept(ops + [x]) <= |b|
    ensures Keep(ops + [x], a, b) == Keep(ops, a, b) + [if x then a[LeftKept(ops)] else b[|ops| - LeftKept(ops)]]
  {
    KeptSnoc(ops, x);
    if ops == [] {
      assert ops + [x] == [x] && [x][1..] == [];
    } else {
      ConsAppend(ops, [x]);
      var e := if x then a[LeftKept(ops)] else b[|ops| - LeftKept(ops)];
      if ops[0] {
        KeepSnoc(ops[1..], x, a[1..], b);
        Associate([a[0]], Keep(ops[1..], a[1..], b), [e]);
      } else {
        KeepSnoc(ops[1..], x, a, b[1..]);
        Associate([b[0]], Keep(ops[1..], a, b[1..]), [e]);
      }
    }
  }

  lemma {:induction false} KeptPrefix(ops: seq<bool>, n: nat)
    requires n <= |ops|
    ensures LeftKept(ops[..n]) <= LeftKept(ops) && n - LeftKept(ops[..n]) <= |ops| - LeftKept(ops)
    ensures LeftKept(ops[..n]) <= n
  {
    if n > 0 {
      KeptPrefix(ops[1..], n - 1);
      assert ops[..n][1..] == ops[1..][..n - 1];
    }
  }

  /** Element `n` of a kept column comes from the same place in every column. */
  lemma {:induction false} KeepAt<T>(ops: seq<bool>, a: seq<T>, b: seq<T>, n: nat)
    requires LeftKept(ops) <= |a| && |ops| - LeftKept(ops) <= |b| && n < |ops|
    ensures var i := LeftKept(ops[..n]);
            if ops[n] then i < |a| && Keep(ops, a, b)[n] == a[i] else n - i < |b| && Keep(ops, a, b)[n] == b[n - i]
  {
    if n == 0 {
      assert ops[..n] == [];
    } else {
      var rest, m: nat := ops[1..], n - 1;
      KeptTake(ops, n);
      assert ops[n] == rest[m];
      if ops[0] {
        KeepAt(rest, a[1..], b, m);
      } else {
        KeepAt(rest, a, b[1..], m);
      }
    }
  }

  lemma KeptTake(ops: seq<bool>, n: nat)
    requires 0 < n <= |ops|
    ensures LeftKept(ops[..n]) == LeftKept(ops[1..][..n - 1]) + if ops[0] then 1 else 0
  {
    assert ops[..n][1..] == ops[1..][..n - 1];
  }

  /** `merge_keep`; with `T` an optional value it is `merge_keep_nullable`, which moves the null
      flags along with the values. */
  method MergeKeep<T>(ops: seq<bool>, left: seq<T>, right: seq<T>) returns (result: seq<T>)
    requires LeftKept(ops) <= |left| && |ops| - LeftKept(ops) <= |right|
    ensures result == Keep(ops, left, right)
  {
    result := [];
    var i: nat, j: nat := 0, 0;
    for n := 0 to |ops|
      invariant i == LeftKept(ops[..n]) <= |left| && i <= n && j == n - i <= |right|
      invariant result == Keep(ops[..n], left, right)
    {
      assert ops[..n + 1] == ops[..n] + [ops[n]];
      KeptPrefix(ops, n + 1);
      KeptSnoc(ops[..n], ops[n]);
      KeepSnoc(ops[..n], ops[n], left, right);
      if ops[n] {
        result := result + [left[i]];
        i := i + 1;
      } else {
        result := result + [right[j]];
        j := j + 1;
      }
    }
    assert ops[..|ops|] == ops;
  }

  // ---------------------------------------------------------------- growing a plan

  /** The state of an ordered merge: the plan so far, replayed on one column; what is left to merge are
      the rows from the cursors on. */
  ghost predicate Swept<K>(lt: (K, K) -> bool, lf: bool, a: seq<K>, b: seq<K>, left: seq<int>, right: seq<int>,
                           i: nat, j: nat, ops: seq<bool>, result: seq<int>)
  {
    && |left| == |a| && |right| == |b| && i <= |a| && j <= |b|
    && RowMerge(lt, lf, a, b) == ops + RowMerge(lt, lf, a[i..], b[j..])
    && |ops| == i + j && LeftKept(ops) == i && result == Keep(ops, left, right)
  }

  lemma SweptStart<K>(lt: (K, K) -> bool, lf: bool, a: seq<K>, b: seq<K>, left: seq<int>, right: seq<int>)
    requires |left| == |a| && |right| == |b|
    ensures Swept(lt, lf, a, b, left, right, 0, 0, [], [])
  {
    assert a[0..] == a && b[0..] == b;
  }

  lemma SweptLeft<K>(lt: (K, K) -> bool, lf: bool, a: seq<K>, b: seq<K>, left: seq<int>, right: seq<int>,
                     i: nat, j: nat, ops: seq<bool>, result: seq<int>)
    requires Swept(lt, lf, a, b, left, right, i, j, ops, result) && i < |a|
    requires j < |b| ==> Precedes(lt, lf, a[i], b[j])
    ensures Swept(lt, lf, a, b, left, right, i + 1, j, ops + [true], result + [left[i]])
  {
    var x, y := a[i..], b[j..];
    assert x[1..] == a[i + 1..];
    assert RowMerge(lt, lf, x, y) == [true] + RowMerge(lt, lf, x[1..], y);
    Associate(ops, [true], RowMerge(lt, lf, x[1..], y));
    KeptSnoc(ops, true);
    KeepSnoc(ops, true, left, right);
  }

  lemma SweptRight<K>(lt: (K, K) -> bool, lf: bool, a: seq<K>, b: seq<K>, left: seq<int>, right: seq<int>,
                      i: nat, j: nat, ops: seq<bool>, result: seq<int>)
    requires Swept(lt, lf, a, b, left, right, i, j, ops, result) && j < |b|
    requires i < |a| ==> !Precedes(lt, lf, a[i], b[j])
    ensures Swept(lt, lf, a, b, left, right, i, j + 1, ops + [false], result + [right[j]])
  {
    var x, y := a[i..], b[j..];
    assert y[1..] == b[j + 1..];
    assert RowMerge(lt, lf, x, y) == [false] + RowMerge(lt, lf, x, y[1..]);
    Associate(ops, [false], RowMerge(lt, lf, x, y[1..]));
    KeptSnoc(ops, false);
    KeepSnoc(ops, false, left, right);
  }

  // ---------------------------------------------------------------- the kernels

  /** The rows from `i`, `j` up to `i'`, `j'` go before one another as their values in `left` and
      `right` say, and before all rows behind. */
  ghost predicate SweepByColumn<K>(lt: (K, K) -> bool, lf: bool, desc: bool, a: seq<K>, b: seq<K>,
                                   left: seq<int>, right: seq<int>, i: nat, j: nat, i': nat, j': nat)
  {
    && i <= i' <= |a| == |left| && j <= j' <= |b| == |right|
    && (forall s, t :: i <= s < i' && j <= t < j' ==>
          (Precedes(lt, lf, a[s], b[t]) <==> if lf then NotAfter(desc, left[s], right[t]) else Before(desc, left[s], right[t])))
    && (forall s, t :: i <= s < i' && j' <= t < |b| ==> Precedes(lt, lf, a[s], b[t]))
    && (forall s, t :: i' <= s < |a| && j <= t < j' ==> !Precedes(lt, lf, a[s], b[t]))
  }

  /** `merge`: a single order-by column; ties go to the right. */
  method MergeColumns<K(!new)>(ghost lt: (K, K) -> bool, ghost a: seq<K>, ghost b: seq<K>,
                               desc: bool, left: seq<int>, right: seq<int>, limit: nat)
    returns (result: seq<int>, ops: seq<bool>)
    requires SweepByColumn(lt, false, desc, a, b, left, right, 0, 0, |a|, |b|)
    ensures ops == Top(RowMerge(lt, false, a, b), limit) && |ops| == Min(limit, |a| + |b|)
    ensures LeftKept(ops) <= |left| && |ops| - LeftKept(ops) <= |right| && result == Keep(ops, left, right)
  {
    result, ops := [], [];
    var i: nat, j: nat := 0, 0;
    SweptStart(lt, false, a, b, left, right);
    while i < |left| && j < |right| && i + j < limit
      invariant Swept(lt, false, a, b, left, right, i, j, ops, result) && i + j <= limit
      decreases |left| - i + |right| - j
    {
      if Before(desc, left[i], right[j]) {
        SweptLeft(lt, false, a, b, left, right, i, j, ops, result);
        result := result + [left[i]];
        ops := ops + [true];
        i := i + 1;
      } else {
        SweptRight(lt, false, a, b, left, right, i, j, ops, result);
        result := result + [right[j]];
        ops := ops + [false];
        j := j + 1;
      }
    }
    result, ops := MergeTails(lt, a, b, left, right, limit, i, j, ops, result);
  }

  /** The tails of `merge`: slices of both sides that end at the limit. */
  method MergeTails<K(!new)>(ghost lt: (K, K) -> bool, ghost a: seq<K>, ghost b: seq<K>, left: seq<int>, right: seq<int>,
                             limit: nat, i: nat, j: nat, ops0: seq<bool>, result0: seq<int>)
    returns (result: seq<int>, ops: seq<bool>)
    requires Swept(lt, false, a, b, left, right, i, j, ops0, result0) && i + j <= limit
    requires i == |left| || j == |right| || i + j == limit
    ensures ops == Top(RowMerge(lt, false, a, b), limit) && |ops| == Min(limit, |a| + |b|)
    ensures LeftKept(ops) <= |left| && |ops| - LeftKept(ops) <= |right| && result == Keep(ops, left, right)
  {
    result, ops := result0, ops0;
    var iEnd, jEnd := Min(|left|, limit - j), Min(|right|, limit - i);
    var x, y := i, j;
    while x < iEnd
      invariant i <= x <= iEnd && (i < iEnd ==> j == |right|)
      invariant Swept(lt, false, a, b, left, right, x, j, ops, result)
    {
      SweptLeft(lt, false, a, b, left, right, x, j, ops, result);
      result := result + [left[x]];
      ops := ops + [true];
      x := x + 1;
    }
    while y < jEnd
      invariant j <= y <= jEnd && (j < jEnd ==> x == |left|)
      invariant Swept(lt, false, a, b, left, right, x, y, ops, result)
    {
      SweptRight(lt, false, a, b, left, right, x, y, ops, result);
      result := result + [right[y]];
      ops := ops + [false];
      y := y + 1;
    }
    TailsDone(lt, a, b, left, right, limit, x, y, ops, result);
  }

  lemma TailsDone<K(!new)>(lt: (K, K) -> bool, a: seq<K>, b: seq<K>, left: seq<int>, right: seq<int>, limit: nat,
                           x: nat, y: nat, ops: seq<bool>, result: seq<int>)
    requires Swept(lt, false, a, b, left, right, x, y, ops, result) && x + y == Min(limit, |a| + |b|)
    ensures ops == Top(RowMerge(lt, false, a, b), limit) && |ops| == Min(limit, |a| + |b|)
    ensures LeftKept(ops) <= |left| && |ops| - LeftKept(ops) <= |right| && result == Keep(ops, left, right)
  {
    RowMergeLength(lt, false, a, b);
  }

  lemma {:induction false} RowMergeLength<K>(lt: (K, K) -> bool, lf: bool, a: seq<K>, b: seq<K>)
    ensures |RowMerge(lt, lf, a, b)| == |a| + |b| && LeftKept(RowMerge(lt, lf, a, b)) == |a|
    decreases |a| + |b|
  {
    if a != [] && (b == [] || Precedes(lt, lf, a[0], b[0])) {
      RowMergeLength(lt, lf, a[1..], b);
    } else if b != [] {
      RowMergeLength(lt, lf, a, b[1..]);
    }
  }

  /** Merges the rows of one run, up to the limit. */
  method MergeRun<K(!new)>(ghost lt: (K, K) -> bool, ghost a: seq<K>, ghost b: seq<K>,
                           desc: bool, group: Premerge, left: seq<int>, right: seq<int>, limit: nat,
                           i0: nat, j0: nat, ops0: seq<bool>, result0: seq<int>)
    returns (i: nat, j: nat, ops: seq<bool>, result: seq<int>)
    requires SweepByColumn(lt, true, desc, a, b, left, right, i0, j0, i0 + group.left, j0 + group.right)
    requires Swept(lt, true, a, b, left, right, i0, j0, ops0, result0) && i0 + j0 < limit
    ensures Swept(lt, true, a, b, left, right, i, j, ops, result)
    ensures i <= i0 + group.left && j <= j0 + group.right
    ensures i + j == limit || (i == i0 + group.left && j == j0 + group.right && i + j < limit)
  {
    i, j, ops, result := i0, j0, ops0, result0;
    var iMax, jMax := i + group.left, j + group.right;
    for n := 0 to group.left + group.right
      invariant i0 <= i <= iMax && j0 <= j <= jMax && i - i0 + j - j0 == n && i + j < limit
      invariant Swept(lt, true, a, b, left, right, i, j, ops, result)
    {
      if j == jMax || (i < iMax && NotAfter(desc, left[i], right[j])) {
        SweptLeft(lt, true, a, b, left, right, i, j, ops, result);
        ops := ops + [true];
        result := result + [left[i]];
        i := i + 1;
      } else {
        SweptRight(lt, true, a, b, left, right, i, j, ops, result);
        ops := ops + [false];
        result := result + [right[j]];
        j := j + 1;
      }
      if i + j == limit {
        return;
      }
    }
  }

  /** `left` and `right` are the last columns of the rows. */
  ghost predicate LastColumnsOf(desc: seq<bool>, c: nat, a: seq<Key>, b: seq<Key>, descending: bool, left: seq<int>, right: seq<int>) {
    && descending == Direction(desc, c)
    && IsColumn(left, a, c) && IsColumn(right, b, c)
    && (forall x :: 0 <= x < |a| ==> |a[x]| == c + 1) && (forall y :: 0 <= y < |b| ==> |b[y]| == c + 1)
  }

  lemma RunSweepByColumn(desc: seq<bool>, c: nat, k: Key, x: Premerge, lf: bool, a: seq<Key>, b: seq<Key>, i: nat, j: nat,
                         descending: bool, left: seq<int>, right: seq<int>)
    requires LastColumnsOf(desc, c, a, b, descending, left, right) && RunLike(desc, c, k, x, a, b, i, j)
    ensures SweepByColumn(KeyOrder(desc), lf, descending, a, b, left, right, i, j, i + x.left, j + x.right)
  {
    var i', j' := i + x.left, j + x.right;
    BlockPrecedes(desc, c, k, lf, a, b, i, i', j, j');
    forall s, t | i <= s < i' && j <= t < j'
      ensures Precedes(KeyOrder(desc), lf, a[s], b[t]) <==>
              if lf then NotAfter(descending, left[s], right[t]) else Before(descending, left[s], right[t])
    {
      assert Agree(c, k, a[s]) && Agree(c, k, b[t]);
      CompareLast(desc, c, b[t], a[s]);
      CompareLast(desc, c, a[s], b[t]);
    }
  }

  lemma BlockPrecedes(desc: seq<bool>, c: nat, k: Key, lf: bool, a: seq<Key>, b: seq<Key>, i: nat, i': nat, j: nat, j': nat)
    requires Block(desc, c, k, a, i, i') && Block(desc, c, k, b, j, j')
    ensures forall s, t :: i <= s < i' && j' <= t < |b| ==> Precedes(KeyOrder(desc), lf, a[s], b[t])
    ensures forall s, t :: i' <= s < |a| && j <= t < j' ==> !Precedes(KeyOrder(desc), lf, a[s], b[t])
  {
    forall s, t | i <= s < i' && j' <= t < |b| ensures Precedes(KeyOrder(desc), lf, a[s], b[t]) {
      AgreeWithin(desc, c, k, a[s], b[t]);
      WithinIsLess(desc, c, a[s], b[t]);
    }
    forall s, t | i' <= s < |a| && j <= t < j' ensures !Precedes(KeyOrder(desc), lf, a[s], b[t]) {
      AgreeWithin(desc, c, k, b[t], a[s]);
      WithinIsLess(desc, c, b[t], a[s]);
    }
  }

  /** `merge_partitioned`: the last of several order-by columns; ties go to the left. */
  method MergePartitioned(ghost desc: seq<bool>, ghost c: nat, ghost a: seq<Key>, ghost b: seq<Key>,
                          descending: bool, partitioning: seq<Premerge>, left: seq<int>, right: seq<int>, limit: nat)
    returns (result: seq<int>, ops: seq<bool>)
    requires LastColumnsOf(desc, c, a, b, descending, left, right)
    requires Runs(desc, c, partitioning, a, b)
    requires limit == 0 ==> partitioning == []
    ensures ops <= RowMerge(KeyOrder(desc), true, a, b)
    ensures |ops| == Min(limit, Lefts(partitioning, |partitioning|) + Rights(partitioning, |partitioning|))
    ensures LeftKept(ops) <= |left| && |ops| - LeftKept(ops) <= |right| && result == Keep(ops, left, right)
  {
    var i, j;
    ghost var g;
    i, j, ops, result, g := MergeGroups(desc, c, a, b, descending, partitioning, left, right, limit);
    SumsGrow(partitioning, g);
  }

  /** The loop over the groups, which stops at the limit. */
  method MergeGroups(ghost desc: seq<bool>, ghost c: nat, ghost a: seq<Key>, ghost b: seq<Key>,
                     descending: bool, partitioning: seq<Premerge>, left: seq<int>, right: seq<int>, limit: nat)
    returns (i: nat, j: nat, ops: seq<bool>, result: seq<int>, ghost last: nat)
    requires LastColumnsOf(desc, c, a, b, descending, left, right)
    requires Runs(desc, c, partitioning, a, b)
    requires limit == 0 ==> partitioning == []
    ensures Swept(KeyOrder(desc), true, a, b, left, right, i, j, ops, result)
    ensures last <= |partitioning| && Reached(partitioning, last, limit, i, j) && (i + j < limit ==> last == |partitioning|)
  {
    var g: nat := 0;
    i, j, result, ops := 0, 0, [], [];
    ghost var lt := KeyOrder(desc);
    SweptStart(lt, true, a, b, left, right);
    while g < |partitioning| && (g == 0 || i + j != limit)
      invariant g <= |partitioning| && Reached(partitioning, g, limit, i, j) && (g > 0 || i + j < limit || partitioning == [])
      invariant Swept(lt, true, a, b, left, right, i, j, ops, result)
    {
      SweepOfRun(desc, c, a, b, descending, partitioning, g, left, right);
      i, j, ops, result := MergeRun(lt, a, b, descending, partitioning[g], left, right, limit, i, j, ops, result);
      g := g + 1;
    }
    last := g;
  }

  /** The cursors are at the end of the first `g` runs, or at the limit before that. */
  ghost predicate Reached(p: seq<Premerge>, g: nat, limit: nat, i: nat, j: nat)
    requires g <= |p|
  {
    if i + j < limit then i == Lefts(p, g) && j == Rights(p, g) else i + j == limit <= Lefts(p, g) + Rights(p, g)
  }

  lemma SweepOfRun(desc: seq<bool>, c: nat, a: seq<Key>, b: seq<Key>, descending: bool, p: seq<Premerge>, g: nat, left: seq<int>, right: seq<int>)
    requires LastColumnsOf(desc, c, a, b, descending, left, right) && Runs(desc, c, p, a, b) && g < |p|
    ensures SweepByColumn(KeyOrder(desc), true, descending, a, b, left, right, Lefts(p, g), Rights(p, g), Lefts(p, g) + p[g].left, Rights(p, g) + p[g].right)
  {
    assert OneRun(desc, c, p[g], a, b, Lefts(p, g), Rights(p, g));
    var k :| RunLike(desc, c, k, p[g], a, b, Lefts(p, g), Rights(p, g));
    RunSweepByColumn(desc, c, k, p[g], true, a, b, Lefts(p, g), Rights(p, g), descending, left, right);
  }

  lemma {:induction false} SumsGrow(p: seq<Premerge>, g: nat)
    requires g <= |p|
    ensures Lefts(p, g) <= Lefts(p, |p|) && Rights(p, g) <= Rights(p, |p|)
    decreases |p| - g
  {
    if g < |p| {
      SumsGrow(p, g + 1);
    }
  }
}
