/** The sort branch of `combine`: two order-by results, stored as columns, are merged into one.
    Every column moves by the same plan, so whole rows are merged.  The branch refines runs by as
    many order-by columns as the result has columns, less two, whatever they are: it panics if there
    are not that many, and skips order-by columns if there are more. */
module SortedBatches {
  import opened Order
  import opened Types
  import opened MergePlans
  import opened Partitioning
  import opened OrderedMerge
  import opened OrderBy
  import opened GroupBy
  import opened Seqs
  import opened Aliasing
  import opened Indices
  import BatchMerging

  /** What an order-by result shows: `len` rows with their order-by columns and selected columns. */
  datatype SortedTable = SortedTable(order: seq<seq<int>>, cols: seq<seq<int>>, len: nat)

  ghost predicate WellFormed(t: SortedTable) {
    && (forall c :: 0 <= c < |t.order| ==> |t.order[c]| == t.len)
    && (forall c :: 0 <= c < |t.cols| ==> |t.cols[c]| == t.len)
  }

  ghost function OrderKeys(t: SortedTable): (s: seq<Key>)
    requires WellFormed(t)
    ensures |s| == t.len
  {
    BatchMerging.Rows(t.order, t.len)
  }

  ghost function TableRows(t: SortedTable): (s: seq<Row<Key, Key>>)
    requires WellFormed(t)
    ensures |s| == t.len
    ensures forall i :: 0 <= i < t.len ==> s[i] == Row(BatchMerging.Row(t.order, i), BatchMerging.Row(t.cols, i))
  {
    seq(t.len, i requires 0 <= i < t.len => Row(BatchMerging.Row(t.order, i), BatchMerging.Row(t.cols, i)))
  }

  /** The two sides of a merge: the same columns, rows sorted by the order-by columns. */
  ghost predicate Mergeable(desc: seq<bool>, t1: SortedTable, t2: SortedTable) {
    && WellFormed(t1) && WellFormed(t2)
    && |t1.order| == |t2.order| == |desc| > 0 && |t1.cols| == |t2.cols|
    && Sorted(KeyOrder(desc), OrderKeys(t1)) && Sorted(KeyOrder(desc), OrderKeys(t2))
  }

  /** A plan for the first rows of the merge. */
  ghost predicate GoodPlan(desc: seq<bool>, t1: SortedTable, t2: SortedTable, limit: nat, ops: seq<bool>)
    requires Mergeable(desc, t1, t2)
  {
    && ops <= RowMerge(KeyOrder(desc), |desc| > 1, OrderKeys(t1), OrderKeys(t2))
    && |ops| <= limit && (|ops| >= Min(limit, U32_MAX) || |ops| == t1.len + t2.len)
    && LeftKept(ops) <= t1.len && |ops| - LeftKept(ops) <= t2.len
  }

  /** `t` is the merge of the rows of `t1` and `t2`, cut off behind the first `limit` rows; every
      column moved by the same rows. */
  ghost predicate MergedSorted(desc: seq<bool>, t1: SortedTable, t2: SortedTable, limit: nat, t: SortedTable)
    requires Mergeable(desc, t1, t2)
  {
    && WellFormed(t) && |t.order| == |desc| && |t.cols| == |t1.cols|
    && t.len <= limit && t.len <= t1.len + t2.len && (t.len >= Min(limit, U32_MAX) || t.len == t1.len + t2.len)
    && TableRows(t) == MergeRows(KeyOrder(desc), |desc| > 1, TableRows(t1), TableRows(t2))[..t.len]
  }

  /** Keeping every column by one plan keeps whole rows. */
  lemma RowsKept(desc: seq<bool>, t1: SortedTable, t2: SortedTable, limit: nat, ops: seq<bool>, t: SortedTable)
    requires Mergeable(desc, t1, t2) && GoodPlan(desc, t1, t2, limit, ops)
    requires |t.order| == |t1.order| && |t.cols| == |t1.cols| && t.len == |ops|
    requires forall c :: 0 <= c < |t.order| ==> t.order[c] == Keep(ops, t1.order[c], t2.order[c])
    requires forall c :: 0 <= c < |t.cols| ==> t.cols[c] == Keep(ops, t1.cols[c], t2.cols[c])
    ensures WellFormed(t)
    ensures t.len <= t1.len + t2.len
    ensures TableRows(t) == MergeRows(KeyOrder(desc), |desc| > 1, TableRows(t1), TableRows(t2))[..t.len]
  {
    var x, y := TableRows(t1), TableRows(t2);
    PlanPrefix(desc, t1, t2, limit, ops);
    forall n | 0 <= n < |ops| ensures TableRows(t)[n] == Keep(ops, x, y)[n] {
      RowKept(t1, t2, ops, t, n);
    }
  }

  /** A good plan yields the first rows of the merge. */
  lemma PlanPrefix(desc: seq<bool>, t1: SortedTable, t2: SortedTable, limit: nat, ops: seq<bool>)
    requires Mergeable(desc, t1, t2) && GoodPlan(desc, t1, t2, limit, ops)
    ensures |ops| <= t1.len + t2.len
    ensures Keep(ops, TableRows(t1), TableRows(t2)) == MergeRows(KeyOrder(desc), |desc| > 1, TableRows(t1), TableRows(t2))[..|ops|]
  {
    var all := RowMerge(KeyOrder(desc), |desc| > 1, OrderKeys(t1), OrderKeys(t2));
    RowKeysOf(t1);
    RowKeysOf(t2);
    RowMergeLength(KeyOrder(desc), |desc| > 1, OrderKeys(t1), OrderKeys(t2));
    PrefixIs(ops, all);
    KeepPrefix(all, TableRows(t1), TableRows(t2), |ops|);
  }

  lemma RowKeysOf(t: SortedTable)
    requires WellFormed(t)
    ensures RowKeys(TableRows(t)) == OrderKeys(t)
  {
  }

  lemma RowKept(t1: SortedTable, t2: SortedTable, ops: seq<bool>, t: SortedTable, n: nat)
    requires WellFormed(t1) && WellFormed(t2) && WellFormed(t)
    requires |t1.order| == |t2.order| && |t1.cols| == |t2.cols|
    requires |t.order| == |t1.order| && |t.cols| == |t1.cols| && t.len == |ops|
    requires LeftKept(ops) <= t1.len && |ops| - LeftKept(ops) <= t2.len && n < |ops|
    requires forall c :: 0 <= c < |t.order| ==> t.order[c] == Keep(ops, t1.order[c], t2.order[c])
    requires forall c :: 0 <= c < |t.cols| ==> t.cols[c] == Keep(ops, t1.cols[c], t2.cols[c])
    ensures TableRows(t)[n] == Keep(ops, TableRows(t1), TableRows(t2))[n]
  {
    KeepAt(ops, TableRows(t1), TableRows(t2), n);
    var i := LeftKept(ops[..n]);
    ColumnsKept(t1.order, t2.order, t.order, t1.len, t2.len, ops, n, i);
    ColumnsKept(t1.cols, t2.cols, t.cols, t1.len, t2.len, ops, n, i);
    if ops[n] {
      SameRow(t, n, t1, i);
    } else {
      SameRow(t, n, t2, n - i);
    }
  }

  /** The entry of a left or a right column. */
  ghost function Pick(takeLeft: bool, a: seq<int>, i: int, b: seq<int>, j: int): int {
    if takeLeft then (if 0 <= i < |a| then a[i] else 0) else if 0 <= j < |b| then b[j] else 0
  }

  lemma ColumnKept(a: seq<int>, b: seq<int>, r: seq<int>, ops: seq<bool>, n: nat, i: nat)
    requires LeftKept(ops) <= |a| && |ops| - LeftKept(ops) <= |b| && r == Keep(ops, a, b) && n < |ops| && i == LeftKept(ops[..n])
    ensures |r| == |ops| && r[n] == Pick(ops[n], a, i, b, n - i)
  {
    KeepAt(ops, a, b, n);
  }

  /** Entry `n` of every kept column comes from the same place. */
  lemma ColumnsKept(cols1: seq<seq<int>>, cols2: seq<seq<int>>, cols: seq<seq<int>>, len1: nat, len2: nat, ops: seq<bool>, n: nat, i: nat)
    requires |cols| == |cols1| == |cols2| && n < |ops| && LeftKept(ops) <= len1 && |ops| - LeftKept(ops) <= len2 && i == LeftKept(ops[..n])
    requires forall c :: 0 <= c < |cols| ==> |cols1[c]| == len1 && |cols2[c]| == len2 && cols[c] == Keep(ops, cols1[c], cols2[c])
    ensures forall c :: 0 <= c < |cols| ==> |cols[c]| == |ops| && cols[c][n] == Pick(ops[n], cols1[c], i, cols2[c], n - i)
  {
    forall c | 0 <= c < |cols| ensures |cols[c]| == |ops| && cols[c][n] == Pick(ops[n], cols1[c], i, cols2[c], n - i) {
      ColumnKept(cols1[c], cols2[c], cols[c], ops, n, i);
    }
  }

  lemma SameRow(t: SortedTable, n: nat, t': SortedTable, i: nat)
    requires WellFormed(t) && WellFormed(t') && |t.order| == |t'.order| && |t.cols| == |t'.cols| && n < t.len && i < t'.len
    requires forall c :: 0 <= c < |t.order| ==> t.order[c][n] == t'.order[c][i]
    requires forall c :: 0 <= c < |t.cols| ==> t.cols[c][n] == t'.cols[c][i]
    ensures TableRows(t)[n] == TableRows(t')[i]
  {
    assert BatchMerging.Row(t.order, n) == BatchMerging.Row(t'.order, i);
    assert BatchMerging.Row(t.cols, n) == BatchMerging.Row(t'.cols, i);
  }

  /** A prefix of a plan keeps a prefix of the rows. */
  lemma {:induction false} KeepPrefix<T>(ops: seq<bool>, a: seq<T>, b: seq<T>, n: nat)
    requires LeftKept(ops) <= |a| && |ops| - LeftKept(ops) <= |b| && n <= |ops|
    ensures LeftKept(ops[..n]) <= |a| && n - LeftKept(ops[..n]) <= |b|
    ensures Keep(ops[..n], a, b) == Keep(ops, a, b)[..n]
  {
    KeptPrefix(ops, n);
    if n > 0 {
      assert ops[..n][1..] == ops[1..][..n - 1];
      if ops[0] {
        KeepPrefix(ops[1..], a[1..], b, n - 1);
      } else {
        KeepPrefix(ops[1..], a, b[1..], n - 1);
      }
    }
  }

  // ---------------------------------------------------------------- results as they are stored

  /** `BatchResult`: the different columns, and by their numbers the selected ones and those that the
      rows are ordered by. */
  datatype SortedBatch = SortedBatch(columns: seq<seq<int>>, projection: seq<nat>, orderBy: seq<nat>, len: nat)

  ghost predicate BatchOk(b: SortedBatch) {
    && (forall c :: 0 <= c < |b.columns| ==> |b.columns[c]| == b.len)
    && (forall k :: 0 <= k < |b.projection| ==> b.projection[k] < |b.columns|)
    && (forall k :: 0 <= k < |b.orderBy| ==> b.orderBy[k] < |b.columns|)
  }

  /** The columns with the given numbers. */
  function Columns(columns: seq<seq<int>>, ix: seq<nat>): (r: seq<seq<int>>)
    requires forall k :: 0 <= k < |ix| ==> ix[k] < |columns|
    ensures |r| == |ix| && forall k :: 0 <= k < |ix| ==> r[k] == columns[ix[k]]
  {
    seq(|ix|, k requires 0 <= k < |ix| => columns[ix[k]])
  }

  function Table(b: SortedBatch): (t: SortedTable)
    requires BatchOk(b)
    ensures WellFormed(t) && t.len == b.len && |t.order| == |b.orderBy| && |t.cols| == |b.projection|
  {
    SortedTable(Columns(b.columns, b.orderBy), Columns(b.columns, b.projection), b.len)
  }

  /** Two sides whose columns are numbered alike. */
  ghost predicate Sided(desc: seq<bool>, b1: SortedBatch, b2: SortedBatch) {
    && BatchOk(b1) && BatchOk(b2) && b1.orderBy == b2.orderBy && |b1.projection| == |b2.projection|
    && Mergeable(desc, Table(b1), Table(b2))
  }

  // ---------------------------------------------------------------- by what rows are compared

  /** By how many order-by columns, of `n`, the runs are cut, if the result has `w` columns. */
  function RefinedBy(n: nat, w: nat): nat {
    if n <= 1 then 0 else if w <= 2 then 1 else w - 1
  }

  /** The loop reads an order-by column that does not exist. */
  predicate Refuses(n: nat, w: nat) {
    n >= 2 && w >= n + 2
  }

  /** What rows are compared by: the first `c` order-by columns, and the last one. */
  ghost function Compared(c: nat, k: Key): (r: Key)
    requires c <= |k| && k != []
    ensures |r| == c + 1
  {
    k[..c] + [k[|k| - 1]]
  }

  ghost function ComparedDesc(c: nat, desc: seq<bool>): (r: seq<bool>)
    requires c <= |desc| && desc != []
    ensures |r| == c + 1
  {
    desc[..c] + [desc[|desc| - 1]]
  }

  ghost function ComparedKeys(c: nat, keys: seq<Key>): (r: seq<Key>)
    requires forall i :: 0 <= i < |keys| ==> c <= |keys[i]| && keys[i] != []
    ensures |r| == |keys| && forall i :: 0 <= i < |r| ==> r[i] == Compared(c, keys[i])
  {
    seq(|keys|, i requires 0 <= i < |keys| => Compared(c, keys[i]))
  }

  lemma KeyLengths(desc: seq<bool>, b1: SortedBatch, b2: SortedBatch)
    requires Sided(desc, b1, b2)
    ensures var a, b := OrderKeys(Table(b1)), OrderKeys(Table(b2));
            (forall i :: 0 <= i < |a| ==> |a[i]| == |desc|) && (forall i :: 0 <= i < |b| ==> |b[i]| == |desc|)
  {
  }

  /** The plan that the branch makes: the first rows of a merge that compares rows as it does. */
  ghost predicate PlanFor(desc: seq<bool>, b1: SortedBatch, b2: SortedBatch, limit: nat, ops: seq<bool>)
    requires Sided(desc, b1, b2) && !Refuses(|desc|, |b1.columns|)
  {
    KeyLengths(desc, b1, b2);
    var c := RefinedBy(|desc|, |b1.columns|);
    && ops <= RowMerge(KeyOrder(ComparedDesc(c, desc)), |desc| > 1, ComparedKeys(c, OrderKeys(Table(b1))), ComparedKeys(c, OrderKeys(Table(b2))))
    && |ops| <= limit && (|ops| >= Min(limit, U32_MAX) || |ops| == b1.len + b2.len)
    && LeftKept(ops) <= b1.len && |ops| - LeftKept(ops) <= b2.len
  }

  // ---------------------------------------------------------------- the kernels

  lemma {:induction false} WeightInRows(p: seq<Premerge>, g: nat)
    requires g <= |p|
    ensures Weight(p, g) <= Lefts(p, g) + Rights(p, g)
  {
    if g > 0 {
      WeightInRows(p, g - 1);
    }
  }

  /** Partitions by the first order-by column and refines by the next ones, as many as there are
      columns but two. */
  method PartitionOrder(desc: seq<bool>, b1: SortedBatch, b2: SortedBatch, limit: nat) returns (r: Option<seq<Premerge>>)
    requires Sided(desc, b1, b2) && |desc| > 1
    ensures r.None? <==> Refuses(|desc|, |b1.columns|)
    ensures r.Some? ==>
              var a, b := OrderKeys(Table(b1)), OrderKeys(Table(b2));
              && Runs(desc, RefinedBy(|desc|, |b1.columns|), r.value, a, b) && (limit == 0 ==> r.value == [])
              && (Covers(r.value, a, b) || Lefts(r.value, |r.value|) + Rights(r.value, |r.value|) >= Min(limit, U32_MAX))
  {
    ghost var a, b := OrderKeys(Table(b1)), OrderKeys(Table(b2));
    KeyLengths(desc, b1, b2);
    var p := Partition(desc, a, b, desc[0], b1.columns[b1.orderBy[0]], b2.columns[b2.orderBy[0]], limit);
    WeightInRows(p, |p|);
    var i: nat := 1;
    while i < |b1.columns| - 1
      invariant 1 <= i <= |desc| && (i == 1 || i <= |b1.columns| - 1)
      invariant Runs(desc, i, p, a, b) && (limit == 0 ==> p == [])
      invariant Covers(p, a, b) || Lefts(p, |p|) + Rights(p, |p|) >= Min(limit, U32_MAX)
      decreases |b1.columns| - i
    {
      if i >= |b1.orderBy| {
        return None;
      }
      p := Subpartition(desc, i, a, b, desc[i], p, b1.columns[b1.orderBy[i]], b2.columns[b1.orderBy[i]]);
      i := i + 1;
    }
    r := Some(p);
  }

  /** Runs on the first columns are runs of what is compared. */
  lemma RunsCompared(desc: seq<bool>, c: nat, p: seq<Premerge>, a: seq<Key>, b: seq<Key>)
    requires Runs(desc, c, p, a, b) && c <= |desc| && desc != []
    requires (forall i :: 0 <= i < |a| ==> |a[i]| == |desc|) && (forall i :: 0 <= i < |b| ==> |b[i]| == |desc|)
    ensures Runs(ComparedDesc(c, desc), c, p, ComparedKeys(c, a), ComparedKeys(c, b))
  {
    var d, x, y := ComparedDesc(c, desc), ComparedKeys(c, a), ComparedKeys(c, b);
    forall g: nat | g < |p| ensures OneRun(d, c, p[g], x, y, Lefts(p, g), Rights(p, g)) {
      var i, j := Lefts(p, g), Rights(p, g);
      assert OneRun(desc, c, p[g], a, b, i, j);
      var k :| RunLike(desc, c, k, p[g], a, b, i, j);
      BlockCompared(desc, c, k, a, i, i + p[g].left);
      BlockCompared(desc, c, k, b, j, j + p[g].right);
      assert RunLike(d, c, k, p[g], x, y, i, j);
    }
  }

  lemma BlockCompared(desc: seq<bool>, c: nat, k: Key, s: seq<Key>, i: nat, hi: nat)
    requires Block(desc, c, k, s, i, hi) && c <= |desc| && desc != [] && forall x :: 0 <= x < |s| ==> |s[x]| == |desc|
    ensures Block(ComparedDesc(c, desc), c, k, ComparedKeys(c, s), i, hi)
  {
    var d, t := ComparedDesc(c, desc), ComparedKeys(c, s);
    forall x | hi <= x < |s| ensures LessWithin(d, c, k, t[x]) {
      assert LessWithin(desc, c, k, s[x]);
      var p: nat :| p < c && p < |k| && DecidedAt(desc, k, s[x], p);
      assert DecidedAt(d, k, t[x], p);
    }
  }

  /** Merges a single order-by column. */
  method MergeSingle(desc: seq<bool>, b1: SortedBatch, b2: SortedBatch, limit: nat) returns (merged: seq<int>, ops: seq<bool>)
    requires Sided(desc, b1, b2) && |desc| == 1
    ensures PlanFor(desc, b1, b2, limit, ops) && merged == Keep(ops, b1.columns[b1.orderBy[0]], b2.columns[b2.orderBy[0]])
  {
    ghost var lt, a, b := KeyOrder(desc), OrderKeys(Table(b1)), OrderKeys(Table(b2));
    KeyOrderIsStrict(desc);
    KeyLengths(desc, b1, b2);
    SingleCompared(desc, a);
    SingleCompared(desc, b);
    RunSweepByColumn(desc, 0, [], Premerge(|a|, |b|), false, a, b, 0, 0, desc[0], b1.columns[b1.orderBy[0]], b2.columns[b2.orderBy[0]]);
    merged, ops := MergeColumns(lt, a, b, desc[0], b1.columns[b1.orderBy[0]], b2.columns[b2.orderBy[0]], limit);
  }

  lemma SingleCompared(desc: seq<bool>, keys: seq<Key>)
    requires |desc| == 1 && forall i :: 0 <= i < |keys| ==> |keys[i]| == 1
    ensures ComparedDesc(0, desc) == desc && ComparedKeys(0, keys) == keys
  {
    forall i | 0 <= i < |keys| ensures ComparedKeys(0, keys)[i] == keys[i] {
      assert Compared(0, keys[i]) == keys[i];
    }
  }

  /** The first and the last order-by column are columns of what is compared. */
  lemma LastCompared(desc: seq<bool>, c: nat, b1: SortedBatch, b2: SortedBatch)
    requires Sided(desc, b1, b2) && c <= |desc|
    ensures (forall i :: 0 <= i < b1.len ==> |OrderKeys(Table(b1))[i]| == |desc|) && (forall i :: 0 <= i < b2.len ==> |OrderKeys(Table(b2))[i]| == |desc|)
    ensures LastColumnsOf(ComparedDesc(c, desc), c, ComparedKeys(c, OrderKeys(Table(b1))), ComparedKeys(c, OrderKeys(Table(b2))),
                          desc[|desc| - 1], b1.columns[b1.orderBy[|desc| - 1]], b2.columns[b2.orderBy[|desc| - 1]])
  {
    KeyLengths(desc, b1, b2);
  }

  /** Merges several order-by columns. */
  method MergeSeveral(desc: seq<bool>, b1: SortedBatch, b2: SortedBatch, limit: nat) returns (r: Option<(seq<int>, seq<bool>)>)
    requires Sided(desc, b1, b2) && |desc| > 1
    ensures r.None? <==> Refuses(|desc|, |b1.columns|)
    ensures r.Some? ==> PlanFor(desc, b1, b2, limit, r.value.1)
                        && r.value.0 == Keep(r.value.1, b1.columns[b1.orderBy[|desc| - 1]], b2.columns[b2.orderBy[|desc| - 1]])
  {
    var p := PartitionOrder(desc, b1, b2, limit);
    if p.None? {
      return None;
    }
    var merged, ops := MergeRuns(desc, b1, b2, limit, p.value);
    r := Some((merged, ops));
  }

  /** Merges the last order-by column run by run. */
  method MergeRuns(desc: seq<bool>, b1: SortedBatch, b2: SortedBatch, limit: nat, p: seq<Premerge>) returns (merged: seq<int>, ops: seq<bool>)
    requires Sided(desc, b1, b2) && |desc| > 1 && !Refuses(|desc|, |b1.columns|)
    requires Runs(desc, RefinedBy(|desc|, |b1.columns|), p, OrderKeys(Table(b1)), OrderKeys(Table(b2))) && (limit == 0 ==> p == [])
    requires Covers(p, OrderKeys(Table(b1)), OrderKeys(Table(b2))) || Lefts(p, |p|) + Rights(p, |p|) >= Min(limit, U32_MAX)
    ensures PlanFor(desc, b1, b2, limit, ops)
    ensures merged == Keep(ops, b1.columns[b1.orderBy[|desc| - 1]], b2.columns[b2.orderBy[|desc| - 1]])
  {
    var last := |desc| - 1;
    ghost var c, a, b := RefinedBy(|desc|, |b1.columns|), OrderKeys(Table(b1)), OrderKeys(Table(b2));
    LastCompared(desc, c, b1, b2);
    RunsCompared(desc, c, p, a, b);
    merged, ops := MergePartitioned(ComparedDesc(c, desc), c, ComparedKeys(c, a), ComparedKeys(c, b), desc[last], p,
                                    b1.columns[b1.orderBy[last]], b2.columns[b2.orderBy[last]], limit);
    LongEnough(p, |a|, |b|, limit, |ops|);
  }

  lemma LongEnough(p: seq<Premerge>, a: nat, b: nat, limit: nat, n: nat)
    requires Lefts(p, |p|) <= a && Rights(p, |p|) <= b
    requires (Lefts(p, |p|) == a && Rights(p, |p|) == b) || Lefts(p, |p|) + Rights(p, |p|) >= Min(limit, U32_MAX)
    requires n == Min(limit, Lefts(p, |p|) + Rights(p, |p|))
    ensures n <= limit && (n >= Min(limit, U32_MAX) || n == a + b)
  {
  }

  /** Merges the order-by columns: the plan, and the last of the columns.  Panics if an order-by column
      is read that does not exist. */
  method MergeOrder(desc: seq<bool>, b1: SortedBatch, b2: SortedBatch, limit: nat) returns (r: Option<(seq<int>, seq<bool>)>)
    requires Sided(desc, b1, b2)
    ensures r.None? <==> Refuses(|desc|, |b1.columns|)
    ensures r.Some? ==> PlanFor(desc, b1, b2, limit, r.value.1)
                        && r.value.0 == Keep(r.value.1, b1.columns[b1.orderBy[|desc| - 1]], b2.columns[b2.orderBy[|desc| - 1]])
  {
    if |desc| == 1 {
      var merged, ops := MergeSingle(desc, b1, b2, limit);
      r := Some((merged, ops));
    } else {
      r := MergeSeveral(desc, b1, b2, limit);
    }
  }

  // ---------------------------------------------------------------- the result

  /** The buffers of the result: the last order-by column as merged, and columns kept by the plan. */
  datatype Merging = Final | Kept(left: nat, right: nat)

  /** The buffer of a selected column. */
  function Selected(b1: SortedBatch, b2: SortedBatch, k: nat): Merging
    requires k < |b1.projection| && k < |b2.projection| && b1.orderBy != [] && b2.orderBy != []
  {
    var (i, j) := (b1.projection[k], b2.projection[k]);
    if i == b1.orderBy[|b1.orderBy| - 1] && j == b2.orderBy[|b2.orderBy| - 1] then Final else Kept(i, j)
  }

  /** The buffer of an order-by column. */
  function Ordered(b1: SortedBatch, b2: SortedBatch, k: nat): Merging
    requires k < |b1.orderBy| == |b2.orderBy|
  {
    if k == |b1.orderBy| - 1 then Final else Kept(b1.orderBy[k], b2.orderBy[k])
  }

  function Buffers(b1: SortedBatch, b2: SortedBatch): (r: seq<Merging>)
    requires |b1.projection| == |b2.projection| && |b1.orderBy| == |b2.orderBy| > 0
    ensures |r| == |b1.projection| + |b1.orderBy|
    ensures forall k :: 0 <= k < |b1.projection| ==> r[k] == Selected(b1, b2, k)
    ensures forall k :: 0 <= k < |b1.orderBy| ==> r[|b1.projection| + k] == Ordered(b1, b2, k)
  {
    seq(|b1.projection|, k requires 0 <= k < |b1.projection| => Selected(b1, b2, k)) +
    seq(|b1.orderBy|, k requires 0 <= k < |b1.orderBy| => Ordered(b1, b2, k))
  }

  /** The buffer refers to columns of both sides. */
  predicate Refers(b1: SortedBatch, b2: SortedBatch, m: Merging) {
    m.Kept? ==> m.left < |b1.columns| && m.right < |b2.columns|
  }

  /** The plan fits the two sides. */
  ghost predicate Fits(b1: SortedBatch, b2: SortedBatch, ops: seq<bool>) {
    BatchOk(b1) && BatchOk(b2) && LeftKept(ops) <= b1.len && |ops| - LeftKept(ops) <= b2.len
  }

  function Contents(b1: SortedBatch, b2: SortedBatch, ops: seq<bool>, m: Merging): (r: seq<int>)
    requires Fits(b1, b2, ops) && Refers(b1, b2, m) && b1.orderBy != [] && b2.orderBy != []
    ensures |r| == |ops|
  {
    if m.Kept? then Keep(ops, b1.columns[m.left], b2.columns[m.right])
    else Keep(ops, b1.columns[b1.orderBy[|b1.orderBy| - 1]], b2.columns[b2.orderBy[|b2.orderBy| - 1]])
  }

  /** The result of a plan, with its columns collected. */
  function Assemble(b1: SortedBatch, b2: SortedBatch, ops: seq<bool>): (t: SortedBatch)
    requires Fits(b1, b2, ops) && |b1.projection| == |b2.projection| && |b1.orderBy| == |b2.orderBy| > 0
    ensures BatchOk(t) && t.len == |ops| && |t.projection| == |b1.projection| && |t.orderBy| == |b1.orderBy|
  {
    var (ix, ds) := Collect(Buffers(b1, b2));
    BuffersRefer(b1, b2, ds);
    SortedBatch(seq(|ds|, d requires 0 <= d < |ds| => Contents(b1, b2, ops, ds[d])), ix[..|b1.projection|], ix[|b1.projection|..], |ops|)
  }

  lemma BuffersRefer(b1: SortedBatch, b2: SortedBatch, ds: seq<Merging>)
    requires BatchOk(b1) && BatchOk(b2) && |b1.projection| == |b2.projection| && |b1.orderBy| == |b2.orderBy| > 0
    requires ds == Collect(Buffers(b1, b2)).1
    ensures forall d :: 0 <= d < |ds| ==> Refers(b1, b2, ds[d])
  {
    var bufs := Buffers(b1, b2);
    forall d | 0 <= d < |ds| ensures Refers(b1, b2, ds[d]) {
      var k := CollectedFrom(bufs, d);
      if k >= |b1.projection| { assert bufs[k] == Ordered(b1, b2, k - |b1.projection|); }
    }
  }

  /** Every column of the result is that of both sides, kept by the plan. */
  lemma AssembledColumns(b1: SortedBatch, b2: SortedBatch, ops: seq<bool>)
    requires Fits(b1, b2, ops) && |b1.projection| == |b2.projection| && |b1.orderBy| == |b2.orderBy| > 0
    ensures var t := Table(Assemble(b1, b2, ops));
            && (forall k :: 0 <= k < |t.order| ==> t.order[k] == Keep(ops, Table(b1).order[k], Table(b2).order[k]))
            && (forall k :: 0 <= k < |t.cols| ==> t.cols[k] == Keep(ops, Table(b1).cols[k], Table(b2).cols[k]))
  {
    var r, bufs := Assemble(b1, b2, ops), Buffers(b1, b2);
    var (ix, ds) := Collect(bufs);
    BuffersRefer(b1, b2, ds);
    var t := Table(r);
    forall k | 0 <= k < |t.order| ensures t.order[k] == Keep(ops, Table(b1).order[k], Table(b2).order[k]) {
      assert ds[ix[|b1.projection| + k]] == bufs[|b1.projection| + k] == Ordered(b1, b2, k);
      assert t.order[k] == r.columns[r.orderBy[k]] == Contents(b1, b2, ops, Ordered(b1, b2, k));
    }
    forall k | 0 <= k < |t.cols| ensures t.cols[k] == Keep(ops, Table(b1).cols[k], Table(b2).cols[k]) {
      assert ds[ix[k]] == bufs[k] == Selected(b1, b2, k);
      assert t.cols[k] == r.columns[r.projection[k]] == Contents(b1, b2, ops, Selected(b1, b2, k));
    }
  }

  /** `t` is what the branch makes of the two sides. */
  ghost predicate Combined(desc: seq<bool>, b1: SortedBatch, b2: SortedBatch, limit: nat, t: SortedBatch)
    requires Sided(desc, b1, b2)
  {
    !Refuses(|desc|, |b1.columns|) && exists ops :: PlanFor(desc, b1, b2, limit, ops) && t == Assemble(b1, b2, ops)
  }

  /** The sort branch of `combine`.  It panics if and only if there are several order-by columns and at
      least two columns more than these. */
  method CombineSorted(desc: seq<bool>, b1: SortedBatch, b2: SortedBatch, limit: nat) returns (r: Option<SortedBatch>)
    requires Sided(desc, b1, b2)
    ensures r.None? <==> Refuses(|desc|, |b1.columns|)
    ensures r.Some? ==> Combined(desc, b1, b2, limit, r.value)
  {
    var plan := MergeOrder(desc, b1, b2, limit);
    if plan.None? {
      return None;
    }
    var (merged, ops) := plan.value;
    var indices, buffers := CollectAliased(Buffers(b1, b2));
    BuffersRefer(b1, b2, buffers);
    var columns := KeepColumns(b1, b2, ops, merged, buffers);
    Assembled(b1, b2, ops, indices, buffers, columns);
    r := Some(SortedBatch(columns, indices[..|b1.projection|], indices[|b1.projection|..], |ops|));
  }

  lemma Assembled(b1: SortedBatch, b2: SortedBatch, ops: seq<bool>, indices: seq<nat>, buffers: seq<Merging>, columns: seq<seq<int>>)
    requires Fits(b1, b2, ops) && |b1.projection| == |b2.projection| && |b1.orderBy| == |b2.orderBy| > 0
    requires (indices, buffers) == Collect(Buffers(b1, b2)) && |columns| == |buffers|
    requires forall d :: 0 <= d < |buffers| ==> Refers(b1, b2, buffers[d]) && columns[d] == Contents(b1, b2, ops, buffers[d])
    ensures SortedBatch(columns, indices[..|b1.projection|], indices[|b1.projection|..], |ops|) == Assemble(b1, b2, ops)
  {
    assert columns == Assemble(b1, b2, ops).columns;
  }

  method KeepColumns(b1: SortedBatch, b2: SortedBatch, ops: seq<bool>, merged: seq<int>, buffers: seq<Merging>) returns (columns: seq<seq<int>>)
    requires Fits(b1, b2, ops) && b1.orderBy != [] && b2.orderBy != [] && forall d :: 0 <= d < |buffers| ==> Refers(b1, b2, buffers[d])
    requires merged == Contents(b1, b2, ops, Final)
    ensures |columns| == |buffers| && forall d :: 0 <= d < |buffers| ==> columns[d] == Contents(b1, b2, ops, buffers[d])
  {
    columns := [];
    for d := 0 to |buffers|
      invariant |columns| == d && forall k :: 0 <= k < d ==> columns[k] == Contents(b1, b2, ops, buffers[k])
    {
      var column;
      match buffers[d] {
        case Final => column := merged;
        case Kept(i, j) => column := MergeKeep(ops, b1.columns[i], b2.columns[j]);
      }
      columns := columns + [column];
    }
  }

  /** The branch always makes something of two sides that it does not refuse. */
  lemma CombinedExists(desc: seq<bool>, b1: SortedBatch, b2: SortedBatch, limit: nat) returns (t: SortedBatch)
    requires Sided(desc, b1, b2) && !Refuses(|desc|, |b1.columns|)
    ensures Combined(desc, b1, b2, limit, t)
  {
    var ops := PlanExists(desc, b1, b2, limit);
    t := Assemble(b1, b2, ops);
  }

  lemma PlanExists(desc: seq<bool>, b1: SortedBatch, b2: SortedBatch, limit: nat) returns (ops: seq<bool>)
    requires Sided(desc, b1, b2) && !Refuses(|desc|, |b1.columns|)
    ensures PlanFor(desc, b1, b2, limit, ops)
  {
    KeyLengths(desc, b1, b2);
    var c := RefinedBy(|desc|, |b1.columns|);
    var d, a, b := ComparedDesc(c, desc), ComparedKeys(c, OrderKeys(Table(b1))), ComparedKeys(c, OrderKeys(Table(b2)));
    ops := FirstOf(KeyOrder(d), |desc| > 1, a, b, limit);
  }

  lemma FirstOf(lt: (Key, Key) -> bool, lf: bool, a: seq<Key>, b: seq<Key>, limit: nat) returns (ops: seq<bool>)
    ensures ops <= RowMerge(lt, lf, a, b) && |ops| == Min(limit, |a| + |b|) && LeftKept(ops) <= |a| && |ops| - LeftKept(ops) <= |b|
  {
    var all := RowMerge(lt, lf, a, b);
    RowMergeLength(lt, lf, a, b);
    ops := all[..Min(limit, |all|)];
    KeptPrefix(all, |ops|);
  }

  // ---------------------------------------------------------------- when the result is right

  /** Order-by column `j` repeats an earlier one. */
  ghost predicate Repeats(orderBy: seq<nat>, j: nat)
    requires j < |orderBy|
  {
    exists k :: 0 <= k < j && orderBy[k] == orderBy[j]
  }

  /** Every order-by column that is skipped repeats an earlier one, or is the last one, in the same
      direction. */
  ghost predicate Harmless(desc: seq<bool>, orderBy: seq<nat>, w: nat)
    requires |desc| == |orderBy|
  {
    forall j :: RefinedBy(|desc|, w) <= j < |desc| - 1 ==>
      Repeats(orderBy, j) || (orderBy[j] == orderBy[|desc| - 1] && desc[j] == desc[|desc| - 1])
  }

  /** A key of a row: the same column has the same value. */
  ghost predicate Respects(orderBy: seq<nat>, x: Key) {
    |x| == |orderBy| && forall k, l :: 0 <= k < |x| && 0 <= l < |x| && orderBy[k] == orderBy[l] ==> x[k] == x[l]
  }

  lemma KeysRespect(b: SortedBatch, i: nat)
    requires BatchOk(b) && i < b.len
    ensures Respects(b.orderBy, OrderKeys(Table(b))[i])
  {
  }

  /** If nothing that matters is skipped, rows are in order if what is compared is. */
  lemma LessCompared(desc: seq<bool>, orderBy: seq<nat>, w: nat, x: Key, y: Key)
    requires |desc| == |orderBy| > 0 && !Refuses(|desc|, w) && Harmless(desc, orderBy, w)
    requires Respects(orderBy, x) && Respects(orderBy, y) && Less(desc, x, y)
    ensures var c := RefinedBy(|desc|, w); Less(ComparedDesc(c, desc), Compared(c, x), Compared(c, y))
  {
    var c, n := RefinedBy(|desc|, w), |desc|;
    var d, u, v := ComparedDesc(c, desc), Compared(c, x), Compared(c, y);
    var p: nat :| DecidedAt(desc, x, y, p);
    if p < c {
      assert DecidedAt(d, u, v, p);
    } else {
      FirstDifference(orderBy, x, y, p);
      assert Agree(c, u, v);
      assert DecidedAt(d, u, v, c);
    }
  }

  /** The first column in which keys differ does not repeat an earlier one. */
  lemma FirstDifference(orderBy: seq<nat>, x: Key, y: Key, p: nat)
    requires Respects(orderBy, x) && Respects(orderBy, y) && Agree(p, x, y) && p < |x| && x[p] != y[p]
    ensures !Repeats(orderBy, p)
  {
    forall k | 0 <= k < p ensures orderBy[k] != orderBy[p] { assert x[k] == y[k]; }
  }

  lemma SameOrder(desc: seq<bool>, orderBy: seq<nat>, w: nat, x: Key, y: Key)
    requires |desc| == |orderBy| > 0 && !Refuses(|desc|, w) && Harmless(desc, orderBy, w)
    requires Respects(orderBy, x) && Respects(orderBy, y)
    ensures var c := RefinedBy(|desc|, w); Less(ComparedDesc(c, desc), Compared(c, x), Compared(c, y)) <==> Less(desc, x, y)
  {
    var c := RefinedBy(|desc|, w);
    var d, u, v := ComparedDesc(c, desc), Compared(c, x), Compared(c, y);
    if Less(desc, x, y) {
      LessCompared(desc, orderBy, w, x, y);
    } else if x == y {
      LessIrreflexive(d, u);
    } else {
      LessTotal(desc, x, y);
      LessCompared(desc, orderBy, w, y, x);
      if Less(d, u, v) {
        LessTransitive(d, u, v, u);
        LessIrreflexive(d, u);
      }
    }
  }

  /** Merges depend on comparisons only. */
  lemma {:induction false} SameMerge<K, L>(lt: (K, K) -> bool, lt': (L, L) -> bool, lf: bool, a: seq<K>, b: seq<K>, a': seq<L>, b': seq<L>)
    requires |a| == |a'| && |b| == |b'|
    requires forall s, t :: 0 <= s < |a| && 0 <= t < |b| ==> (Precedes(lt, lf, a[s], b[t]) <==> Precedes(lt', lf, a'[s], b'[t]))
    ensures RowMerge(lt, lf, a, b) == RowMerge(lt', lf, a', b')
    decreases |a| + |b|
  {
    if a != [] && (b == [] || Precedes(lt, lf, a[0], b[0])) {
      SameMerge(lt, lt', lf, a[1..], b, a'[1..], b');
    } else if b != [] {
      SameMerge(lt, lt', lf, a, b[1..], a', b'[1..]);
    }
  }

  lemma HarmlessPlan(desc: seq<bool>, b1: SortedBatch, b2: SortedBatch, limit: nat, ops: seq<bool>)
    requires Sided(desc, b1, b2) && !Refuses(|desc|, |b1.columns|) && PlanFor(desc, b1, b2, limit, ops)
    requires Harmless(desc, b1.orderBy, |b1.columns|)
    ensures GoodPlan(desc, Table(b1), Table(b2), limit, ops)
  {
    KeyLengths(desc, b1, b2);
    var c, lf := RefinedBy(|desc|, |b1.columns|), |desc| > 1;
    var d, a, b := ComparedDesc(c, desc), OrderKeys(Table(b1)), OrderKeys(Table(b2));
    forall s, t | 0 <= s < |a| && 0 <= t < |b|
      ensures Precedes(KeyOrder(d), lf, ComparedKeys(c, a)[s], ComparedKeys(c, b)[t]) <==> Precedes(KeyOrder(desc), lf, a[s], b[t])
    {
      KeysRespect(b1, s);
      KeysRespect(b2, t);
      SameOrder(desc, b1.orderBy, |b1.columns|, a[s], b[t]);
      SameOrder(desc, b1.orderBy, |b1.columns|, b[t], a[s]);
    }
    SameMerge(KeyOrder(d), KeyOrder(desc), lf, ComparedKeys(c, a), ComparedKeys(c, b), a, b);
  }

  /** If nothing that matters is skipped, the result is the merge of the rows of both sides, cut off
      at the limit. */
  lemma HarmlessMerged(desc: seq<bool>, b1: SortedBatch, b2: SortedBatch, limit: nat, t: SortedBatch)
    requires Sided(desc, b1, b2) && Combined(desc, b1, b2, limit, t) && Harmless(desc, b1.orderBy, |b1.columns|)
    ensures BatchOk(t) && MergedSorted(desc, Table(b1), Table(b2), limit, Table(t))
  {
    var ops :| PlanFor(desc, b1, b2, limit, ops) && t == Assemble(b1, b2, ops);
    HarmlessPlan(desc, b1, b2, limit, ops);
    AssembledColumns(b1, b2, ops);
    RowsKept(desc, Table(b1), Table(b2), limit, ops, Table(t));
  }

  // ---------------------------------------------------------------- when it is not

  /** The layout of a result: as many columns, with these numbers. */
  ghost predicate HasLayout(b: SortedBatch, projection: seq<nat>, orderBy: seq<nat>, w: nat) {
    BatchOk(b) && b.projection == projection && b.orderBy == orderBy && |b.columns| == w
  }

  /** One row, with `v` in column `x` and zero in all others. */
  function OneRow(projection: seq<nat>, orderBy: seq<nat>, w: nat, x: nat, v: int): (b: SortedBatch)
    requires (forall k :: 0 <= k < |projection| ==> projection[k] < w) && (forall k :: 0 <= k < |orderBy| ==> orderBy[k] < w)
    ensures HasLayout(b, projection, orderBy, w) && b.len == 1
    ensures forall c :: 0 <= c < w ==> b.columns[c] == [if c == x then v else 0]
  {
    SortedBatch(seq(w, c => [if c == x then v else 0]), projection, orderBy, 1)
  }

  /** The key of that row. */
  lemma OneRowKey(projection: seq<nat>, orderBy: seq<nat>, w: nat, x: nat, v: int)
    requires (forall k :: 0 <= k < |projection| ==> projection[k] < w) && (forall k :: 0 <= k < |orderBy| ==> orderBy[k] < w)
    ensures var key := OrderKeys(Table(OneRow(projection, orderBy, w, x, v)))[0];
            |key| == |orderBy| && forall k :: 0 <= k < |orderBy| ==> key[k] == if orderBy[k] == x then v else 0
  {
    var t := Table(OneRow(projection, orderBy, w, x, v));
    assert OrderKeys(t)[0] == BatchMerging.Row(t.order, 0);
  }

  /** Rows that differ only in a column that is skipped are not compared by it. */
  lemma SkippedTie(desc: seq<bool>, orderBy: seq<nat>, w: nat, j: nat, x: Key, y: Key)
    requires |desc| == |orderBy| == |x| == |y| && RefinedBy(|desc|, w) <= j < |desc| - 1 && !Refuses(|desc|, w)
    requires !Repeats(orderBy, j) && (orderBy[j] == orderBy[|desc| - 1] ==> desc[j] != desc[|desc| - 1])
    requires forall k :: 0 <= k < |x| && orderBy[k] != orderBy[j] ==> x[k] == y[k]
    requires (forall k :: 0 <= k < |x| && orderBy[k] == orderBy[j] ==> x[k] == x[j] && y[k] == y[j]) && Before(desc[j], y[j], x[j])
    ensures Less(desc, y, x)
    ensures var c := RefinedBy(|desc|, w); !Less(ComparedDesc(c, desc), Compared(c, y), Compared(c, x))
  {
    var c := RefinedBy(|desc|, w);
    assert DecidedAt(desc, y, x, j);
    CompareLast(ComparedDesc(c, desc), c, Compared(c, y), Compared(c, x));
  }

  /** If a column that matters is skipped, there are two rows that the branch puts in the wrong order. */
  lemma HarmfulUnsorted(desc: seq<bool>, projection: seq<nat>, orderBy: seq<nat>, w: nat) returns (b1: SortedBatch, b2: SortedBatch, t: SortedBatch)
    requires (forall k :: 0 <= k < |projection| ==> projection[k] < w) && (forall k :: 0 <= k < |orderBy| ==> orderBy[k] < w)
    requires |desc| == |orderBy| > 0 && !Refuses(|desc|, w) && !Harmless(desc, orderBy, w)
    ensures HasLayout(b1, projection, orderBy, w) && HasLayout(b2, projection, orderBy, w)
    ensures Sided(desc, b1, b2) && Combined(desc, b1, b2, 2, t) && BatchOk(t) && !SortedRows(KeyOrder(desc), TableRows(Table(t)))
  {
    var j :| RefinedBy(|desc|, w) <= j < |desc| - 1 &&
             !(Repeats(orderBy, j) || (orderBy[j] == orderBy[|desc| - 1] && desc[j] == desc[|desc| - 1]));
    var v := if desc[j] then -1 else 1;
    b1, b2 := OneRow(projection, orderBy, w, orderBy[j], v), OneRow(projection, orderBy, w, orderBy[j], 0);
    OneRowSided(desc, b1, b2);
    OneRowKey(projection, orderBy, w, orderBy[j], v);
    OneRowKey(projection, orderBy, w, orderBy[j], 0);
    var x, y := OrderKeys(Table(b1))[0], OrderKeys(Table(b2))[0];
    SkippedTie(desc, orderBy, w, j, x, y);
    var ops := PlanExists(desc, b1, b2, 2);
    t := Assemble(b1, b2, ops);
    TiedRows(desc, b1, b2, ops);
  }

  lemma OneRowSided(desc: seq<bool>, b1: SortedBatch, b2: SortedBatch)
    requires BatchOk(b1) && BatchOk(b2) && b1.orderBy == b2.orderBy && |b1.projection| == |b2.projection|
    requires |b1.orderBy| == |desc| > 0 && b1.len == b2.len == 1
    ensures Sided(desc, b1, b2)
  {
  }

  /** Two rows that tie for the branch come out with the left one first. */
  lemma TiedRows(desc: seq<bool>, b1: SortedBatch, b2: SortedBatch, ops: seq<bool>)
    requires Sided(desc, b1, b2) && |desc| > 1 && !Refuses(|desc|, |b1.columns|) && PlanFor(desc, b1, b2, 2, ops) && b1.len == b2.len == 1
    requires var x, y, c := OrderKeys(Table(b1))[0], OrderKeys(Table(b2))[0], RefinedBy(|desc|, |b1.columns|);
             |x| == |y| == |desc| && Less(desc, y, x) && !Less(ComparedDesc(c, desc), Compared(c, y), Compared(c, x))
    ensures !SortedRows(KeyOrder(desc), TableRows(Table(Assemble(b1, b2, ops))))
  {
    var c := RefinedBy(|desc|, |b1.columns|);
    KeyLengths(desc, b1, b2);
    var d, a, b := ComparedDesc(c, desc), ComparedKeys(c, OrderKeys(Table(b1))), ComparedKeys(c, OrderKeys(Table(b2)));
    assert RowMerge(KeyOrder(d), true, a, b) == [true] + RowMerge(KeyOrder(d), true, a[1..], b);
    assert RowMerge(KeyOrder(d), true, a[1..], b) == [false] + RowMerge(KeyOrder(d), true, a[1..], b[1..]);
    assert RowMerge(KeyOrder(d), true, a[1..], b[1..]) == [];
    assert ops == [true, false];
    AssembledColumns(b1, b2, ops);
    var t := Table(Assemble(b1, b2, ops));
    RowKept(Table(b1), Table(b2), ops, t, 0);
    RowKept(Table(b1), Table(b2), ops, t, 1);
    TwoKept(TableRows(Table(b1)), TableRows(Table(b2)));
    assert TableRows(t)[0].key == OrderKeys(Table(b1))[0] && TableRows(t)[1].key == OrderKeys(Table(b2))[0];
  }

  lemma TwoKept<T>(a: seq<T>, b: seq<T>)
    requires |a| == |b| == 1
    ensures LeftKept([true, false]) == 1 && Keep([true, false], a, b) == [a[0], b[0]]
  {
    assert [true, false][1..] == [false] && [false][1..] == [];
    assert LeftKept([false]) == 0;
    assert Keep([false], a[1..], b) == [b[0]];
  }

  /** Results are in order, whatever the columns hold, if and only if nothing that matters is skipped. */
  lemma HarmlessExactly(desc: seq<bool>, projection: seq<nat>, orderBy: seq<nat>, w: nat)
    requires (forall k :: 0 <= k < |projection| ==> projection[k] < w) && (forall k :: 0 <= k < |orderBy| ==> orderBy[k] < w)
    requires |desc| == |orderBy| > 0 && !Refuses(|desc|, w)
    ensures Harmless(desc, orderBy, w) <==>
            forall b1, b2, limit, t :: HasLayout(b1, projection, orderBy, w) && HasLayout(b2, projection, orderBy, w)
                                       && Sided(desc, b1, b2) && Combined(desc, b1, b2, limit, t) ==>
                                       BatchOk(t) && SortedRows(KeyOrder(desc), TableRows(Table(t)))
  {
    if Harmless(desc, orderBy, w) {
      forall b1, b2, limit, t | HasLayout(b1, projection, orderBy, w) && HasLayout(b2, projection, orderBy, w)
                                && Sided(desc, b1, b2) && Combined(desc, b1, b2, limit, t)
        ensures BatchOk(t) && SortedRows(KeyOrder(desc), TableRows(Table(t)))
      {
        HarmlessMerged(desc, b1, b2, limit, t);
        MergedIsSorted(desc, Table(b1), Table(b2), limit, Table(t));
      }
    } else {
      var b1, b2, t := HarmfulUnsorted(desc, projection, orderBy, w);
    }
  }

  lemma MergedIsSorted(desc: seq<bool>, t1: SortedTable, t2: SortedTable, limit: nat, t: SortedTable)
    requires Mergeable(desc, t1, t2) && MergedSorted(desc, t1, t2, limit, t)
    ensures SortedRows(KeyOrder(desc), TableRows(t))
  {
    KeyOrderIsStrict(desc);
    RowKeysOf(t1);
    RowKeysOf(t2);
    var x, y := TableRows(t1), TableRows(t2);
    assert forall i :: 0 <= i < |x| ==> x[i].key == OrderKeys(t1)[i];
    assert forall i :: 0 <= i < |y| ==> y[i].key == OrderKeys(t2)[i];
    MergeRowsSorted(KeyOrder(desc), |desc| > 1, x, y);
  }

  // ---------------------------------------------------------------- how layouts develop

  /** The last order-by column is not ordered by before. */
  predicate LastOnce(orderBy: seq<nat>) {
    orderBy != [] && forall k :: 0 <= k < |orderBy| - 1 ==> orderBy[k] != orderBy[|orderBy| - 1]
  }

  /** If the last one is not ordered by before, a merge of two results with the same layout has that
      layout again. */
  lemma LayoutKept(desc: seq<bool>, b1: SortedBatch, b2: SortedBatch, limit: nat, t: SortedBatch, projection: seq<nat>, orderBy: seq<nat>, w: nat)
    requires HasLayout(b1, projection, orderBy, w) && HasLayout(b2, projection, orderBy, w)
    requires LastOnce(orderBy) && Canonical(projection + orderBy, w)
    requires Sided(desc, b1, b2) && Combined(desc, b1, b2, limit, t)
    ensures HasLayout(t, projection, orderBy, w)
  {
    var ops :| PlanFor(desc, b1, b2, limit, ops) && t == Assemble(b1, b2, ops);
    var ids, bufs := projection + orderBy, Buffers(b1, b2);
    BuffersAlias(b1, b2);
    SameNumbers(bufs, ids);
    assert ids[..|projection|] == projection && ids[|projection|..] == orderBy;
  }

  lemma BuffersAlias(b1: SortedBatch, b2: SortedBatch)
    requires b1.projection == b2.projection && b1.orderBy == b2.orderBy && LastOnce(b1.orderBy)
    ensures SameAliases(Buffers(b1, b2), b1.projection + b1.orderBy)
  {
    var ids, bufs, last := b1.projection + b1.orderBy, Buffers(b1, b2), b1.orderBy[|b1.orderBy| - 1];
    forall k: nat | k < |ids| ensures bufs[k] == if ids[k] == last then Final else Kept(ids[k], ids[k]) {
      if k >= |b1.projection| { assert bufs[k] == Ordered(b1, b2, k - |b1.projection|); }
    }
  }

  /** `SELECT a, b, c, d FROM t ORDER BY a, b`: with four columns, two of them ordered by, an order-by
      column is read that does not exist. */
  lemma FourColumnsRefused()
    ensures Canonical(Ids(4) + [0, 1], 4) && Refuses(2, 4)
  {
    CollectKnown(4, [0, 1]);
  }

  /** `SELECT a, b FROM t ORDER BY a, b, a`: the two columns leave no room for `b` in the comparison. */
  lemma RepeatedColumnSkips(desc: seq<bool>)
    requires |desc| == 3
    ensures !Refuses(3, 2) && !Harmless(desc, [0, 1, 0], 2)
  {
    assert RefinedBy(3, 2) == 1 && !Repeats([0, 1, 0], 1);
  }
}
