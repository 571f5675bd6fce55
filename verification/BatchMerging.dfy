/** The aggregate branch of `combine`: two group-by results, stored as columns, are merged into
    one.  For any number of group-by columns the result is the row-level merge of both, cut off
    only behind the first `limit` groups. */
module BatchMerging {
  import opened Order
  import opened Types
  import opened MergePlans
  import opened Partitioning
  import opened DedupMerge
  import opened GroupMerge
  import opened GroupBy
  import opened GroupKernels
  import opened Seqs

  /** A group-by result: `len` groups with their key columns and aggregate columns. */
  datatype GroupTable = GroupTable(keys: seq<seq<int>>, aggs: seq<seq<int>>, len: nat)

  ghost predicate WellFormed(t: GroupTable) {
    && (forall c :: 0 <= c < |t.keys| ==> |t.keys[c]| == t.len)
    && (forall m :: 0 <= m < |t.aggs| ==> |t.aggs[m]| == t.len)
  }

  /** Row `i` of the key columns. */
  ghost function Row(cols: seq<seq<int>>, i: nat): (k: Key)
    requires forall c :: 0 <= c < |cols| ==> i < |cols[c]|
    ensures |k| == |cols| && forall c :: 0 <= c < |cols| ==> k[c] == cols[c][i]
  {
    seq(|cols|, c requires 0 <= c < |cols| => cols[c][i])
  }

  ghost function Rows(cols: seq<seq<int>>, n: nat): (s: seq<Key>)
    requires forall c :: 0 <= c < |cols| ==> |cols[c]| == n
    ensures |s| == n && forall i :: 0 <= i < n ==> s[i] == Row(cols, i)
  {
    seq(n, i requires 0 <= i < n => Row(cols, i))
  }

  /** The groups of a table with their `m`th aggregate. */
  ghost function Groups(t: GroupTable, m: nat): (g: seq<Group<Key>>)
    requires WellFormed(t) && m < |t.aggs|
    ensures |g| == t.len && Keys(g) == Rows(t.keys, t.len) && Values(g) == t.aggs[m]
  {
    Zip(Rows(t.keys, t.len), t.aggs[m])
  }

  ghost function Zip<K>(k: seq<K>, v: seq<int>): (g: seq<Group<K>>)
    requires |k| == |v|
    ensures |g| == |k| && Keys(g) == k && Values(g) == v
    ensures forall i :: 0 <= i < |k| ==> g[i] == Group(k[i], v[i])
  {
    if k == [] then [] else [Group(k[0], v[0])] + Zip(k[1..], v[1..])
  }

  // ---------------------------------------------------------------- merging and cutting off

  lemma {:induction false} MergeSplit<K(!new)>(lt: (K, K) -> bool, op: Aggregator,
                                               a1: seq<Group<K>>, b1: seq<Group<K>>, a2: seq<Group<K>>, b2: seq<Group<K>>)
    requires StrictOrder(lt)
    requires forall i, j :: 0 <= i < |a1| && 0 <= j < |b2| ==> lt(a1[i].key, b2[j].key)
    requires forall i, j :: 0 <= i < |b1| && 0 <= j < |a2| ==> lt(b1[i].key, a2[j].key)
    ensures Merge(lt, op, a1 + a2, b1 + b2) == Merge(lt, op, a1, b1) + Merge(lt, op, a2, b2)
    decreases |a1| + |b1|
  {
    if a1 != [] && b1 != [] && a1[0].key == b1[0].key {
      ConsAppend(a1, a2);
      ConsAppend(b1, b2);
      MergeSplit(lt, op, a1[1..], b1[1..], a2, b2);
      Associate([Group(a1[0].key, Join(op, a1[0].val, b1[0].val))], Merge(lt, op, a1[1..], b1[1..]), Merge(lt, op, a2, b2));
    } else if a1 != [] && (b1 == [] || lt(a1[0].key, b1[0].key)) {
      ConsAppend(a1, a2);
      MergeSplit(lt, op, a1[1..], b1, a2, b2);
      Associate([a1[0]], Merge(lt, op, a1[1..], b1), Merge(lt, op, a2, b2));
    } else if b1 != [] {
      ConsAppend(b1, b2);
      MergeSplit(lt, op, a1, b1[1..], a2, b2);
      Associate([b1[0]], Merge(lt, op, a1, b1[1..]), Merge(lt, op, a2, b2));
    } else {
      assert a1 + a2 == a2 && b1 + b2 == b2;
    }
  }

  lemma {:induction false} MergeLength<K(!new)>(lt: (K, K) -> bool, op: Aggregator, a: seq<Group<K>>, b: seq<Group<K>>)
    ensures |Merge(lt, op, a, b)| == Emitted(RowOps(lt, Keys(a), Keys(b)))
    decreases |a| + |b|
  {
    if a != [] { TailKeys(a); }
    if b != [] { TailKeys(b); }
    if a != [] && b != [] && a[0].key == b[0].key {
      MergeLength(lt, op, a[1..], b[1..]);
      EmittedAppend([TakeLeft, MergeRight], RowOps(lt, Keys(a)[1..], Keys(b)[1..]));
      assert Emitted([TakeLeft, MergeRight]) == 1 + Emitted([TakeLeft, MergeRight][1..]);
    } else if a != [] && (b == [] || lt(a[0].key, b[0].key)) {
      MergeLength(lt, op, a[1..], b);
    } else if b != [] {
      MergeLength(lt, op, a, b[1..]);
    }
  }

  // ---------------------------------------------------------------- replay by column and by row

  /** Replaying a plan column by column replays it on rows. */
  lemma {:induction false} ReplayRows(ops: seq<MergeOp>, left: seq<int>, right: seq<int>, a: seq<Key>, b: seq<Key>, c: nat)
    requires IsColumn(left, a, c) && IsColumn(right, b, c)
    requires LeftTaken(ops) <= |a| && RightTaken(ops) <= |b|
    ensures IsColumn(Replay(ops, left, right), Replay(ops, a, b), c)
  {
    if ops != [] {
      if ops[0] == TakeLeft {
        ReplayRows(ops[1..], left[1..], right, a[1..], b, c);
      } else {
        ReplayRows(ops[1..], left, right[1..], a, b[1..], c);
      }
    }
  }

  /** A plan reads no more of its columns than it takes. */
  lemma {:induction false} ReplayTaken<T>(ops: seq<MergeOp>, a: seq<T>, b: seq<T>, l: nat, r: nat)
    requires LeftTaken(ops) <= l <= |a| && RightTaken(ops) <= r <= |b|
    ensures Replay(ops, a[..l], b[..r]) == Replay(ops, a, b)
  {
    if ops != [] {
      if ops[0] == TakeLeft {
        ReplayTaken(ops[1..], a[1..], b, l - 1, r);
        assert a[..l][1..] == a[1..][..l - 1];
      } else {
        ReplayTaken(ops[1..], a, b[1..], l, r - 1);
        assert b[..r][1..] == b[1..][..r - 1];
      }
    }
  }

  lemma {:induction false} AggregateTaken(op: Aggregator, ops: seq<MergeOp>, a: seq<int>, b: seq<int>, acc: seq<int>, l: nat, r: nat)
    requires LeftTaken(ops) <= l <= |a| && RightTaken(ops) <= r <= |b|
    requires ops != [] && ops[0] == MergeRight ==> acc != []
    ensures Aggregate(op, ops, a[..l], b[..r], acc) == Aggregate(op, ops, a, b, acc)
    decreases |ops|
  {
    if ops != [] {
      if ops[0] == TakeLeft {
        AggregateTaken(op, ops[1..], a[1..], b, acc + [a[0]], l - 1, r);
        assert a[..l][1..] == a[1..][..l - 1];
      } else {
        assert b[..r][1..] == b[1..][..r - 1];
        if ops[0] == TakeRight {
          AggregateTaken(op, ops[1..], a, b[1..], acc + [b[0]], l, r - 1);
        } else if Combine(op, acc[|acc| - 1], b[0]).Ok? {
          AggregateTaken(op, ops[1..], a, b[1..], acc[|acc| - 1 := Combine(op, acc[|acc| - 1], b[0]).value], l, r - 1);
        }
      }
    }
  }

  // ---------------------------------------------------------------- the plan of a merge

  /** The plan merges the first `l` and `r` rows, which come before all others and are all rows
      unless `limit` groups are certain. */
  ghost predicate GoodPlan(lt: (Key, Key) -> bool, a: seq<Key>, b: seq<Key>, limit: nat, ops: seq<MergeOp>, l: nat, r: nat) {
    && l <= |a| && r <= |b| && ops == RowOps(lt, a[..l], b[..r])
    && LeftTaken(ops) == l && RightTaken(ops) == r && (ops != [] ==> ops[0] != MergeRight)
    && (forall i, j :: 0 <= i < l && r <= j < |b| ==> lt(a[i], b[j]))
    && (forall i, j :: l <= i < |a| && 0 <= j < r ==> lt(b[j], a[i]))
    && ((l == |a| && r == |b|) || Emitted(ops) >= Min(limit, U32_MAX))
  }

  /** The runs cover all rows, or certainly `limit` groups. */
  ghost predicate Enough(desc: seq<bool>, p: seq<Premerge>, a: seq<Key>, b: seq<Key>, limit: nat) {
    Covers(p, a, b) ||
    (&& Lefts(p, |p|) <= |a| && Rights(p, |p|) <= |b|
     && Emitted(RowOps(KeyOrder(desc), a[..Lefts(p, |p|)], b[..Rights(p, |p|)])) >= Min(limit, U32_MAX))
  }

  lemma PlanFromRuns(desc: seq<bool>, c: nat, p: seq<Premerge>, a: seq<Key>, b: seq<Key>, limit: nat, ops: seq<MergeOp>)
    requires Runs(desc, c, p, a, b) && Enough(desc, p, a, b, limit)
    requires ops == RowOps(KeyOrder(desc), a[..Lefts(p, |p|)], b[..Rights(p, |p|)])
    ensures GoodPlan(KeyOrder(desc), a, b, limit, ops, Lefts(p, |p|), Rights(p, |p|))
  {
    var l, r := Lefts(p, |p|), Rights(p, |p|);
    RowOpsTakeAll(KeyOrder(desc), a[..l], b[..r]);
    CutOff(desc, c, p, a, b, |p|);
  }

  lemma PlanOfAll(lt: (Key, Key) -> bool, a: seq<Key>, b: seq<Key>, limit: nat, ops: seq<MergeOp>)
    requires ops == RowOps(lt, a, b)
    ensures GoodPlan(lt, a, b, limit, ops, |a|, |b|)
  {
    RowOpsTakeAll(lt, a, b);
    assert a[..|a|] == a && b[..|b|] == b;
  }

  ghost const ASCENDING: seq<bool> := []

  /** The two sides of a merge: as many key columns, with keys in strictly increasing order.  A
      result without group-by columns is a single row. */
  ghost predicate Mergeable(t1: GroupTable, t2: GroupTable) {
    && WellFormed(t1) && WellFormed(t2)
    && |t1.keys| == |t2.keys| && |t1.aggs| == |t2.aggs|
    && (|t1.keys| == 0 ==> t1.len == t2.len == 1)
    && Strict(KeyOrder(ASCENDING), Rows(t1.keys, t1.len)) && Strict(KeyOrder(ASCENDING), Rows(t2.keys, t2.len))
  }

  lemma StrictIsSorted(desc: seq<bool>, s: seq<Key>)
    requires Strict(KeyOrder(desc), s)
    ensures Sorted(KeyOrder(desc), s)
  {
    KeyOrderIsStrict(desc);
  }

  /** Partitions by the first column and refines by all but the last. */
  method PartitionKeys(ghost desc: seq<bool>, t1: GroupTable, t2: GroupTable, limit: nat) returns (p: seq<Premerge>)
    requires Mergeable(t1, t2) && |t1.keys| >= 2 && desc == ASCENDING
    ensures Runs(desc, |t1.keys| - 1, p, Rows(t1.keys, t1.len), Rows(t2.keys, t2.len))
    ensures Enough(desc, p, Rows(t1.keys, t1.len), Rows(t2.keys, t2.len), limit)
  {
    ghost var a, b := Rows(t1.keys, t1.len), Rows(t2.keys, t2.len);
    StrictIsSorted(desc, a);
    StrictIsSorted(desc, b);
    p := Partition(desc, a, b, false, t1.keys[0], t2.keys[0], limit);
    WeightSound(desc, 1, p, a, b, |p|);
    for i := 1 to |t1.keys| - 1
      invariant Runs(desc, i, p, a, b) && Enough(desc, p, a, b, limit)
    {
      p := Subpartition(desc, i, a, b, false, p, t1.keys[i], t2.keys[i]);
    }
  }

  /** Both sides are single rows without a key. */
  lemma NoKeys(t1: GroupTable, t2: GroupTable, limit: nat)
    requires Mergeable(t1, t2) && |t1.keys| == 0
    ensures GoodPlan(KeyOrder(ASCENDING), Rows(t1.keys, t1.len), Rows(t2.keys, t2.len), limit, [TakeLeft, MergeRight], 1, 1)
    ensures Emitted([TakeLeft, MergeRight]) == 1
  {
    var lt, a, b, ops := KeyOrder(ASCENDING), Rows(t1.keys, t1.len), Rows(t2.keys, t2.len), [TakeLeft, MergeRight];
    assert a == [a[0]] && b == [b[0]] && a[0] == b[0];
    Singles(lt, a[0]);
    PlanOfAll(lt, a, b, limit, ops);
    assert ops[1..] == [MergeRight] && ops[1..][1..] == [];
  }

  /** Merges a single key column. */
  method MergeOneKey(t1: GroupTable, t2: GroupTable, limit: nat) returns (merged: seq<int>, ops: seq<MergeOp>)
    requires Mergeable(t1, t2) && |t1.keys| == 1
    ensures GoodPlan(KeyOrder(ASCENDING), Rows(t1.keys, t1.len), Rows(t2.keys, t2.len), limit, ops, t1.len, t2.len)
    ensures merged == Replay(ops, t1.keys[0], t2.keys[0])
  {
    ghost var lt, a, b := KeyOrder(ASCENDING), Rows(t1.keys, t1.len), Rows(t2.keys, t2.len);
    KeyOrderIsStrict(ASCENDING);
    RunByColumn(ASCENDING, 0, [], Premerge(|a|, |b|), a, b, 0, 0, t1.keys[0], t2.keys[0]);
    merged, ops := MergeDeduplicate(lt, a, b, t1.keys[0], t2.keys[0]);
    PlanOfAll(lt, a, b, limit, ops);
  }

  /** Replays the plan on all key columns but the last. */
  method ReplayKeyColumns(ops: seq<MergeOp>, t1: GroupTable, t2: GroupTable) returns (keys: seq<seq<int>>)
    requires Mergeable(t1, t2) && |t1.keys| > 0 && LeftTaken(ops) <= t1.len && RightTaken(ops) <= t2.len
    ensures |keys| == |t1.keys| - 1 && forall c :: 0 <= c < |keys| ==> keys[c] == Replay(ops, t1.keys[c], t2.keys[c])
  {
    keys := [];
    for i := 0 to |t1.keys| - 1
      invariant |keys| == i && forall c :: 0 <= c < i ==> keys[c] == Replay(ops, t1.keys[c], t2.keys[c])
    {
      var col := MergeDrop(ops, t1.keys[i], t2.keys[i]);
      keys := keys + [col];
    }
  }

  /** Merges the key columns. */
  method MergeKeys(t1: GroupTable, t2: GroupTable, limit: nat)
    returns (ops: seq<MergeOp>, keys: seq<seq<int>>, ghost l: nat, ghost r: nat)
    requires Mergeable(t1, t2)
    ensures GoodPlan(KeyOrder(ASCENDING), Rows(t1.keys, t1.len), Rows(t2.keys, t2.len), limit, ops, l, r)
    ensures |t1.keys| <= 1 ==> l == t1.len && r == t2.len
    ensures |t1.keys| == 0 ==> Emitted(ops) == 1
    ensures |keys| == |t1.keys|
    ensures forall c :: 0 <= c < |keys| ==> keys[c] == Replay(ops, t1.keys[c], t2.keys[c])
  {
    if |t1.keys| == 0 {
      ops, keys, l, r := [TakeLeft, MergeRight], [], 1, 1;
      NoKeys(t1, t2, limit);
    } else if |t1.keys| == 1 {
      var merged;
      merged, ops := MergeOneKey(t1, t2, limit);
      keys, l, r := [merged], t1.len, t2.len;
    } else {
      var merged;
      merged, ops, l, r := MergeLastKey(ASCENDING, t1, t2, limit);
      keys := ReplayKeyColumns(ops, t1, t2);
      keys := keys + [merged];
    }
  }

  /** Partitions by all key columns but the last and merges the last one run by run. */
  method MergeLastKey(ghost desc: seq<bool>, t1: GroupTable, t2: GroupTable, limit: nat)
    returns (merged: seq<int>, ops: seq<MergeOp>, ghost l: nat, ghost r: nat)
    requires Mergeable(t1, t2) && |t1.keys| >= 2 && desc == ASCENDING
    ensures GoodPlan(KeyOrder(ASCENDING), Rows(t1.keys, t1.len), Rows(t2.keys, t2.len), limit, ops, l, r)
    ensures merged == Replay(ops, t1.keys[|t1.keys| - 1], t2.keys[|t1.keys| - 1])
  {
    ghost var a, b := Rows(t1.keys, t1.len), Rows(t2.keys, t2.len);
    var last := |t1.keys| - 1;
    var p := PartitionKeys(desc, t1, t2, limit);
    merged, ops := MergeDeduplicatePartitioned(desc, last, a, b, p, t1.keys[last], t2.keys[last]);
    PlanFromRuns(desc, last, p, a, b, limit, ops);
    l, r := Lefts(p, |p|), Rights(p, |p|);
  }

  // ---------------------------------------------------------------- the whole merge

  /** `x` is `y` cut off somewhere behind its first `n` elements. */
  ghost predicate CutBehind<T>(n: nat, x: seq<T>, y: seq<T>) {
    x <= y && (|x| >= n || x == y)
  }

  /** What a replayed plan makes of one aggregate: the merge of the covered groups. */
  lemma MergedGroups(t1: GroupTable, t2: GroupTable, op: Aggregator, m: nat, limit: nat,
                     ops: seq<MergeOp>, keys: seq<Key>, vals: Result<seq<int>>, l: nat, r: nat)
    requires Mergeable(t1, t2) && m < |t1.aggs|
    requires GoodPlan(KeyOrder(ASCENDING), Rows(t1.keys, t1.len), Rows(t2.keys, t2.len), limit, ops, l, r)
    requires keys == Replay(ops, Rows(t1.keys, t1.len), Rows(t2.keys, t2.len))
    requires vals == Aggregate(op, ops, t1.aggs[m], t2.aggs[m], [])
    ensures var a, b := Groups(t1, m), Groups(t2, m);
            && (vals.Ok? <==> Joinable(op, a[..l], b[..r]))
            && (vals.Ok? ==> |keys| == |vals.value| && Zip(keys, vals.value) == Merge(KeyOrder(ASCENDING), op, a[..l], b[..r]))
  {
    var lt := KeyOrder(ASCENDING);
    var x, y := Groups(t1, m)[..l], Groups(t2, m)[..r];
    KeyOrderIsStrict(ASCENDING);
    CoveredPart(t1, m, l);
    CoveredPart(t2, m, r);
    MergedKeys(lt, op, x, y, Rows(t1.keys, t1.len), Rows(t2.keys, t2.len), ops, l, r);
    MergedValues(lt, op, x, y, t1.aggs[m], t2.aggs[m], ops, l, r);
    if vals.Ok? {
      ZipKeysValues(Merge(lt, op, x, y));
    }
  }

  /** The first groups of a table. */
  lemma CoveredPart(t: GroupTable, m: nat, l: nat)
    requires WellFormed(t) && m < |t.aggs| && l <= t.len && Strict(KeyOrder(ASCENDING), Rows(t.keys, t.len))
    ensures var x := Groups(t, m)[..l];
            Keys(x) == Rows(t.keys, t.len)[..l] && Values(x) == t.aggs[m][..l] && Grouped(KeyOrder(ASCENDING), x)
  {
    TakeKeys(Groups(t, m), l);
  }

  lemma MergedKeys(lt: (Key, Key) -> bool, op: Aggregator, x: seq<Group<Key>>, y: seq<Group<Key>>, a: seq<Key>, b: seq<Key>,
                   ops: seq<MergeOp>, l: nat, r: nat)
    requires l <= |a| && r <= |b| && Keys(x) == a[..l] && Keys(y) == b[..r]
    requires ops == RowOps(lt, a[..l], b[..r]) && LeftTaken(ops) <= l && RightTaken(ops) <= r
    ensures Replay(ops, a, b) == Keys(Merge(lt, op, x, y))
  {
    ReplayTaken(ops, a, b, l, r);
    ReplayKeys(lt, op, x, y);
  }

  lemma MergedValues(lt: (Key, Key) -> bool, op: Aggregator, x: seq<Group<Key>>, y: seq<Group<Key>>, a: seq<int>, b: seq<int>,
                     ops: seq<MergeOp>, l: nat, r: nat)
    requires StrictOrder(lt) && Grouped(lt, x) && Grouped(lt, y)
    requires l <= |a| && r <= |b| && Values(x) == a[..l] && Values(y) == b[..r]
    requires ops == RowOps(lt, Keys(x), Keys(y)) && LeftTaken(ops) <= l && RightTaken(ops) <= r && (ops != [] ==> ops[0] != MergeRight)
    ensures var vals := Aggregate(op, ops, a, b, []);
            (vals.Ok? <==> Joinable(op, x, y)) && (vals.Ok? ==> vals.value == Values(Merge(lt, op, x, y)))
  {
    AggregateTaken(op, ops, a, b, [], l, r);
    AggregateValues(lt, op, x, y, []);
    assert [] + Values(Merge(lt, op, x, y)) == Values(Merge(lt, op, x, y));
  }

  lemma TakeKeys<K>(g: seq<Group<K>>, n: nat)
    requires n <= |g|
    ensures Keys(g[..n]) == Keys(g)[..n] && Values(g[..n]) == Values(g)[..n]
    ensures forall i :: 0 <= i < |g| ==> g[i].key == Keys(g)[i]
  {
  }

  lemma {:induction false} ZipKeysValues<K(!new)>(g: seq<Group<K>>)
    ensures Zip(Keys(g), Values(g)) == g
  {
    if g != [] {
      TailKeys(g);
      ZipKeysValues(g[1..]);
    }
  }

  /** Cutting off at a good plan is cutting off behind the first `limit` groups. */
  lemma PlanCutsBehind(lt: (Key, Key) -> bool, op: Aggregator, a: seq<Group<Key>>, b: seq<Group<Key>>, limit: nat,
                       ops: seq<MergeOp>, l: nat, r: nat)
    requires StrictOrder(lt) && GoodPlan(lt, Keys(a), Keys(b), limit, ops, l, r)
    ensures CutBehind(Min(limit, U32_MAX), Merge(lt, op, a[..l], b[..r]), Merge(lt, op, a, b))
  {
    TakeKeys(a, l);
    TakeKeys(b, r);
    if l == |a| && r == |b| {
      assert a[..l] == a && b[..r] == b;
    } else {
      MergeSplit(lt, op, a[..l], b[..r], a[l..], b[r..]);
      Rejoin(a, l);
      Rejoin(b, r);
      MergeLength(lt, op, a[..l], b[..r]);
    }
  }

  /** The first `m` aggregate columns are merged. */
  ghost predicate AggregatesMerged(t1: GroupTable, t2: GroupTable, aggregators: seq<Aggregator>, m: nat,
                                   l: nat, r: nat, merged: seq<Key>, aggs: seq<seq<int>>)
    requires Mergeable(t1, t2) && m <= |aggregators| == |t1.aggs| && l <= t1.len && r <= t2.len
  {
    && |aggs| == m
    && forall n :: 0 <= n < m ==>
         && Joinable(aggregators[n], Groups(t1, n)[..l], Groups(t2, n)[..r])
         && |aggs[n]| == |merged|
         && Zip(merged, aggs[n]) == Merge(KeyOrder(ASCENDING), aggregators[n], Groups(t1, n)[..l], Groups(t2, n)[..r])
  }

  /** A merged table: every aggregate is the merge of the covered groups, cut off behind the
      first `limit` groups of the full merge. */
  ghost predicate MergedTable(t1: GroupTable, t2: GroupTable, aggregators: seq<Aggregator>, limit: nat,
                              l: nat, r: nat, t: GroupTable)
    requires Mergeable(t1, t2) && |aggregators| == |t1.aggs| && l <= t1.len && r <= t2.len
  {
    && WellFormed(t) && |t.keys| == |t1.keys| && |t.aggs| == |t1.aggs|
    && (|t.keys| == 0 ==> t.len == 1)
    && Strict(KeyOrder(ASCENDING), Rows(t.keys, t.len))
    && forall m :: 0 <= m < |aggregators| ==>
         && Groups(t, m) == Merge(KeyOrder(ASCENDING), aggregators[m], Groups(t1, m)[..l], Groups(t2, m)[..r])
         && CutBehind(Min(limit, U32_MAX), Groups(t, m),
                      Merge(KeyOrder(ASCENDING), aggregators[m], Groups(t1, m), Groups(t2, m)))
  }

  lemma TableMerged(t1: GroupTable, t2: GroupTable, aggregators: seq<Aggregator>, limit: nat,
                    ops: seq<MergeOp>, keys: seq<seq<int>>, aggs: seq<seq<int>>, l: nat, r: nat)
    requires Mergeable(t1, t2) && |aggregators| == |t1.aggs| > 0
    requires GoodPlan(KeyOrder(ASCENDING), Rows(t1.keys, t1.len), Rows(t2.keys, t2.len), limit, ops, l, r)
    requires |keys| == |t1.keys|
    requires forall c :: 0 <= c < |keys| ==> keys[c] == Replay(ops, t1.keys[c], t2.keys[c])
    requires |keys| == 0 ==> Emitted(ops) == 1
    requires AggregatesMerged(t1, t2, aggregators, |aggregators|, l, r, Replay(ops, Rows(t1.keys, t1.len), Rows(t2.keys, t2.len)), aggs)
    ensures MergedTable(t1, t2, aggregators, limit, l, r, GroupTable(keys, aggs, Emitted(ops)))
  {
    var lt := KeyOrder(ASCENDING);
    var t := GroupTable(keys, aggs, Emitted(ops));
    ReplayLength(ops, Rows(t1.keys, t1.len), Rows(t2.keys, t2.len));
    RowsOfReplay(t1, t2, ops, keys);
    KeyOrderIsStrict(ASCENDING);
    forall m | 0 <= m < |aggregators|
      ensures Groups(t, m) == Merge(lt, aggregators[m], Groups(t1, m)[..l], Groups(t2, m)[..r])
      ensures CutBehind(Min(limit, U32_MAX), Groups(t, m), Merge(lt, aggregators[m], Groups(t1, m), Groups(t2, m)))
    {
      PlanCutsBehind(lt, aggregators[m], Groups(t1, m), Groups(t2, m), limit, ops, l, r);
    }
    CoveredGrouped(t1, t2, aggregators[0], 0, l, r);
    assert Strict(lt, Keys(Groups(t, 0)));
  }

  lemma CoveredGrouped(t1: GroupTable, t2: GroupTable, op: Aggregator, m: nat, l: nat, r: nat)
    requires Mergeable(t1, t2) && m < |t1.aggs| && l <= t1.len && r <= t2.len
    ensures Strict(KeyOrder(ASCENDING), Keys(Merge(KeyOrder(ASCENDING), op, Groups(t1, m)[..l], Groups(t2, m)[..r])))
  {
    var lt := KeyOrder(ASCENDING);
    KeyOrderIsStrict(ASCENDING);
    TakeKeys(Groups(t1, m), l);
    TakeKeys(Groups(t2, m), r);
    MergeGrouped(lt, op, Groups(t1, m)[..l], Groups(t2, m)[..r]);
  }

  lemma AggregatePushed(t1: GroupTable, t2: GroupTable, aggregators: seq<Aggregator>, m: nat, limit: nat,
                        ops: seq<MergeOp>, l: nat, r: nat, aggs: seq<seq<int>>, vals: Result<seq<int>>)
    requires Mergeable(t1, t2) && m < |aggregators| == |t1.aggs|
    requires GoodPlan(KeyOrder(ASCENDING), Rows(t1.keys, t1.len), Rows(t2.keys, t2.len), limit, ops, l, r)
    requires AggregatesMerged(t1, t2, aggregators, m, l, r, Replay(ops, Rows(t1.keys, t1.len), Rows(t2.keys, t2.len)), aggs)
    requires vals == Aggregate(aggregators[m], ops, t1.aggs[m], t2.aggs[m], [])
    ensures vals.Err? ==> !Joinable(aggregators[m], Groups(t1, m)[..l], Groups(t2, m)[..r])
    ensures vals.Ok? ==> AggregatesMerged(t1, t2, aggregators, m + 1, l, r,
                                          Replay(ops, Rows(t1.keys, t1.len), Rows(t2.keys, t2.len)), aggs + [vals.value])
  {
    var merged := Replay(ops, Rows(t1.keys, t1.len), Rows(t2.keys, t2.len));
    MergedGroups(t1, t2, aggregators[m], m, limit, ops, merged, vals, l, r);
    if vals.Ok? {
      AggregatesSnoc(t1, t2, aggregators, m, l, r, merged, aggs, vals.value);
    }
  }

  lemma AggregatesSnoc(t1: GroupTable, t2: GroupTable, aggregators: seq<Aggregator>, m: nat,
                       l: nat, r: nat, merged: seq<Key>, aggs: seq<seq<int>>, vals: seq<int>)
    requires Mergeable(t1, t2) && m < |aggregators| == |t1.aggs| && l <= t1.len && r <= t2.len
    requires AggregatesMerged(t1, t2, aggregators, m, l, r, merged, aggs)
    requires Joinable(aggregators[m], Groups(t1, m)[..l], Groups(t2, m)[..r]) && |vals| == |merged|
    requires Zip(merged, vals) == Merge(KeyOrder(ASCENDING), aggregators[m], Groups(t1, m)[..l], Groups(t2, m)[..r])
    ensures AggregatesMerged(t1, t2, aggregators, m + 1, l, r, merged, aggs + [vals])
  {
  }

  /** The first `l` and `r` groups of both sides are merged into `res`, or a join fails. */
  ghost predicate CombinedUpTo(t1: GroupTable, t2: GroupTable, aggregators: seq<Aggregator>, limit: nat, res: Result<GroupTable>, l: nat, r: nat)
    requires Mergeable(t1, t2) && |aggregators| == |t1.aggs|
  {
    && l <= t1.len && r <= t2.len && (|t1.keys| <= 1 ==> l == t1.len && r == t2.len)
    && (res.Ok? <==> forall m :: 0 <= m < |aggregators| ==> Joinable(aggregators[m], Groups(t1, m)[..l], Groups(t2, m)[..r]))
    && (res.Ok? ==> MergedTable(t1, t2, aggregators, limit, l, r, res.value))
  }

  /** Every aggregate of the two sides can be joined. */
  ghost predicate AllJoinable(t1: GroupTable, t2: GroupTable, aggregators: seq<Aggregator>)
    requires Mergeable(t1, t2) && |aggregators| == |t1.aggs|
  {
    forall m :: 0 <= m < |aggregators| ==> Joinable(aggregators[m], Groups(t1, m), Groups(t2, m))
  }

  /** Then there is a merge of the two. */
  lemma CombinedExists(t1: GroupTable, t2: GroupTable, aggregators: seq<Aggregator>, limit: nat) returns (t: GroupTable)
    requires Mergeable(t1, t2) && |aggregators| == |t1.aggs| > 0 && AllJoinable(t1, t2, aggregators)
    ensures CombinedUpTo(t1, t2, aggregators, limit, Ok(t), t1.len, t2.len)
  {
    var a, b, l, r := Rows(t1.keys, t1.len), Rows(t2.keys, t2.len), t1.len, t2.len;
    var ops := RowOps(KeyOrder(ASCENDING), a, b);
    WholePlan(a, b, limit);
    var keys := seq(|t1.keys|, c requires 0 <= c < |t1.keys| => Replay(ops, t1.keys[c], t2.keys[c]));
    var aggs := seq(|aggregators|, m requires 0 <= m < |aggregators| =>
                    Values(Merge(KeyOrder(ASCENDING), aggregators[m], Groups(t1, m), Groups(t2, m))));
    forall m | 0 <= m < |aggregators|
      ensures Joinable(aggregators[m], Groups(t1, m)[..l], Groups(t2, m)[..r])
      ensures |aggs[m]| == |Replay(ops, a, b)|
      ensures Zip(Replay(ops, a, b), aggs[m]) == Merge(KeyOrder(ASCENDING), aggregators[m], Groups(t1, m)[..l], Groups(t2, m)[..r])
    {
      WholeMerge(t1, t2, aggregators[m], m);
    }
    if |keys| == 0 { OneGroup(t1, t2); }
    TableMerged(t1, t2, aggregators, limit, ops, keys, aggs, l, r);
    t := GroupTable(keys, aggs, Emitted(ops));
  }

  lemma WholePlan(a: seq<Key>, b: seq<Key>, limit: nat)
    requires Strict(KeyOrder(ASCENDING), a) && Strict(KeyOrder(ASCENDING), b)
    ensures GoodPlan(KeyOrder(ASCENDING), a, b, limit, RowOps(KeyOrder(ASCENDING), a, b), |a|, |b|)
  {
    Whole(a);
    Whole(b);
    RowOpsTakeAll(KeyOrder(ASCENDING), a, b);
  }

  lemma WholeMerge(t1: GroupTable, t2: GroupTable, op: Aggregator, m: nat)
    requires Mergeable(t1, t2) && m < |t1.aggs|
    ensures Groups(t1, m)[..t1.len] == Groups(t1, m) && Groups(t2, m)[..t2.len] == Groups(t2, m)
    ensures var merge, ops := Merge(KeyOrder(ASCENDING), op, Groups(t1, m), Groups(t2, m)), RowOps(KeyOrder(ASCENDING), Rows(t1.keys, t1.len), Rows(t2.keys, t2.len));
            && LeftTaken(ops) <= t1.len && RightTaken(ops) <= t2.len
            && Replay(ops, Rows(t1.keys, t1.len), Rows(t2.keys, t2.len)) == Keys(merge) && Zip(Keys(merge), Values(merge)) == merge
  {
    var lt := KeyOrder(ASCENDING);
    RowOpsTakeAll(lt, Rows(t1.keys, t1.len), Rows(t2.keys, t2.len));
    ReplayKeys(lt, op, Groups(t1, m), Groups(t2, m));
    ZipKeysValues(Merge(lt, op, Groups(t1, m), Groups(t2, m)));
  }

  /** Without group-by columns there is one group. */
  lemma OneGroup(t1: GroupTable, t2: GroupTable)
    requires Mergeable(t1, t2) && |t1.keys| == 0
    ensures Emitted(RowOps(KeyOrder(ASCENDING), Rows(t1.keys, t1.len), Rows(t2.keys, t2.len))) == 1
  {
    var a, b := Rows(t1.keys, t1.len), Rows(t2.keys, t2.len);
    assert a[0] == [] == b[0] && a[1..] == [] && b[1..] == [];
    assert RowOps(KeyOrder(ASCENDING), a, b) == [TakeLeft, MergeRight] + RowOps(KeyOrder(ASCENDING), a[1..], b[1..]) == [TakeLeft, MergeRight];
    assert Emitted([TakeLeft, MergeRight]) == 1 + Emitted([TakeLeft, MergeRight][1..]);
    assert [TakeLeft, MergeRight][1..] == [MergeRight] && [MergeRight][1..] == [];
  }

  /** The aggregate branch of `combine`. */
  method CombineGroups(t1: GroupTable, t2: GroupTable, aggregators: seq<Aggregator>, limit: nat) returns (res: Result<GroupTable>)
    requires Mergeable(t1, t2) && |aggregators| == |t1.aggs| > 0
    ensures exists l: nat, r: nat :: CombinedUpTo(t1, t2, aggregators, limit, res, l, r)
  {
    var ops, keys;
    ghost var l, r;
    ops, keys, l, r := MergeKeys(t1, t2, limit);
    ghost var merged := Replay(ops, Rows(t1.keys, t1.len), Rows(t2.keys, t2.len));
    var aggs: seq<seq<int>> := [];
    for m := 0 to |aggregators|
      invariant AggregatesMerged(t1, t2, aggregators, m, l, r, merged, aggs)
    {
      var aggregated := MergeAggregate(aggregators[m], ops, t1.aggs[m], t2.aggs[m]);
      AggregatePushed(t1, t2, aggregators, m, limit, ops, l, r, aggs, aggregated);
      if aggregated.Err? {
        res := Err(aggregated.error);
        assert CombinedUpTo(t1, t2, aggregators, limit, res, l, r);
        return;
      }
      aggs := aggs + [aggregated.value];
    }
    TableMerged(t1, t2, aggregators, limit, ops, keys, aggs, l, r);
    var len := CountEmitted(ops);
    res := Ok(GroupTable(keys, aggs, len));
    assert CombinedUpTo(t1, t2, aggregators, limit, res, l, r);
  }

  method CountEmitted(ops: seq<MergeOp>) returns (n: nat)
    ensures n == Emitted(ops)
  {
    n := 0;
    for k := 0 to |ops|
      invariant n == Emitted(ops[..k])
    {
      assert ops[..k + 1] == ops[..k] + [ops[k]];
      EmittedAppend(ops[..k], [ops[k]]);
      if ops[k] != MergeRight { n := n + 1; }
    }
    assert ops[..|ops|] == ops;
  }

  lemma {:induction false} ReplayLength<T>(ops: seq<MergeOp>, a: seq<T>, b: seq<T>)
    requires LeftTaken(ops) <= |a| && RightTaken(ops) <= |b|
    ensures |Replay(ops, a, b)| == Emitted(ops)
  {
    if ops != [] {
      if ops[0] == TakeLeft {
        ReplayLength(ops[1..], a[1..], b);
      } else {
        ReplayLength(ops[1..], a, b[1..]);
      }
    }
  }

  /** The merged columns hold the merged rows. */
  lemma RowsOfReplay(t1: GroupTable, t2: GroupTable, ops: seq<MergeOp>, keys: seq<seq<int>>)
    requires Mergeable(t1, t2) && LeftTaken(ops) <= t1.len && RightTaken(ops) <= t2.len
    requires |keys| == |t1.keys|
    requires forall c :: 0 <= c < |keys| ==> keys[c] == Replay(ops, t1.keys[c], t2.keys[c])
    ensures forall c :: 0 <= c < |keys| ==> |keys[c]| == Emitted(ops)
    ensures Rows(keys, Emitted(ops)) == Replay(ops, Rows(t1.keys, t1.len), Rows(t2.keys, t2.len))
  {
    var a, b := Rows(t1.keys, t1.len), Rows(t2.keys, t2.len);
    var rows := Replay(ops, a, b);
    ReplayLength(ops, a, b);
    ReplayFrom(ops, a, b);
    forall c | 0 <= c < |keys| ensures IsColumn(keys[c], rows, c) && |keys[c]| == Emitted(ops) {
      ReplayRows(ops, t1.keys[c], t2.keys[c], a, b, c);
    }
    var rs := Rows(keys, Emitted(ops));
    forall i | 0 <= i < |rows| ensures rs[i] == rows[i] {
      assert |rows[i]| == |keys|;
      forall c | 0 <= c < |keys| ensures rs[i][c] == rows[i][c] {
        assert IsColumn(keys[c], rows, c);
      }
    }
  }

  lemma {:induction false} ReplayFrom<T>(ops: seq<MergeOp>, a: seq<T>, b: seq<T>)
    requires LeftTaken(ops) <= |a| && RightTaken(ops) <= |b|
    ensures forall i :: 0 <= i < |Replay(ops, a, b)| ==> Replay(ops, a, b)[i] in a || Replay(ops, a, b)[i] in b
  {
    if ops != [] {
      if ops[0] == TakeLeft {
        ReplayFrom(ops[1..], a[1..], b);
      } else {
        ReplayFrom(ops[1..], a, b[1..]);
      }
    }
  }
}
