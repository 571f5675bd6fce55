/** Partial results are merged pairwise in whatever order the workers happen to finish.  The
    order is a tree over the partitions; whatever the tree, the root answers the query. */
module MergeTree {
  import opened Order
  import opened Types
  import opened GroupMerge
  import opened GroupBy
  import opened Seqs
  import opened Indices
  import opened Partitioning
  import opened OrderBy
  import BatchMerging
  import opened SortedBatches
  import opened Aliasing
  import opened MergePlans

  /** How a batch result came about: the result of one partition, or `combine` of two. */
  datatype Shape = Leaf(id: nat) | Node(left: Shape, right: Shape)

  function Leaves(s: Shape): (l: seq<nat>)
    ensures l != []
  {
    match s
    case Leaf(id) => [id]
    case Node(l, r) => Leaves(l) + Leaves(r)
  }

  /** The tree has every partition exactly once. */
  ghost predicate OneEach(n: nat, s: Shape) {
    multiset(Leaves(s)) == multiset(Ids(n))
  }

  lemma OneEachWithin(n: nat, s: Shape)
    requires OneEach(n, s)
    ensures Within(n, Leaves(s))
  {
    var l := Leaves(s);
    forall i | 0 <= i < |l| ensures l[i] < n {
      assert l[i] in multiset(Ids(n));
    }
  }

  // ---------------------------------------------------------------- group-by queries

  /** `t` comes out of merging the group-by results `parts` along `s`. */
  ghost predicate GroupTree(aggregators: seq<Aggregator>, limit: nat, parts: seq<BatchMerging.GroupTable>, s: Shape, t: BatchMerging.GroupTable)
    decreases s
  {
    match s
    case Leaf(id) => id < |parts| && t == parts[id]
    case Node(l, r) =>
      exists t1, t2 :: GroupTree(aggregators, limit, parts, l, t1) && GroupTree(aggregators, limit, parts, r, t2) &&
                       GroupStep(aggregators, limit, t1, t2, t)
  }

  /** `t` is what `combine` makes of `t1` and `t2`. */
  ghost predicate GroupStep(aggregators: seq<Aggregator>, limit: nat,
                            t1: BatchMerging.GroupTable, t2: BatchMerging.GroupTable, t: BatchMerging.GroupTable)
  {
    && BatchMerging.Mergeable(t1, t2) && |aggregators| == |t1.aggs|
    && exists l: nat, r: nat :: BatchMerging.CombinedUpTo(t1, t2, aggregators, limit, Ok(t), l, r)
  }

  /** Each partition result is a table of groups. */
  ghost predicate PartsFit(aggregators: seq<Aggregator>, parts: seq<BatchMerging.GroupTable>) {
    forall i :: 0 <= i < |parts| ==> BatchMerging.WellFormed(parts[i]) && |parts[i].aggs| == |aggregators|
  }

  /** Aggregate `m` of each partition groups the rows of that partition. */
  ghost predicate PartsGroup(aggregators: seq<Aggregator>, m: nat, parts: seq<BatchMerging.GroupTable>, rows: seq<seq<Group<Key>>>)
    requires PartsFit(aggregators, parts) && m < |aggregators|
  {
    |rows| == |parts| && forall i :: 0 <= i < |parts| ==> PartGroups(aggregators[m], m, parts[i], rows[i])
  }

  /** Aggregate `m` of a partition result groups the rows. */
  ghost predicate PartGroups(op: Aggregator, m: nat, part: BatchMerging.GroupTable, rows: seq<Group<Key>>)
    requires BatchMerging.WellFormed(part) && m < |part.aggs|
  {
    IsGroupBy(KeyOrder(BatchMerging.ASCENDING), op, BatchMerging.Groups(part, m), rows)
  }

  lemma CutTop<T>(n: nat, x: seq<T>, y: seq<T>)
    requires BatchMerging.CutBehind(n, x, y)
    ensures Top(x, n) == Top(y, n)
  {
  }

  /** A cut-off merge of cut-off results agrees with the full merge of the full results. */
  lemma CutMerge<K(!new)>(lt: (K, K) -> bool, op: Aggregator, n: nat, x: seq<Group<K>>,
                          a: seq<Group<K>>, b: seq<Group<K>>, fa: seq<Group<K>>, fb: seq<Group<K>>)
    requires BatchMerging.CutBehind(n, x, Merge(lt, op, a, b)) && Top(a, n) == Top(fa, n) && Top(b, n) == Top(fb, n)
    ensures Top(x, n) == Top(Merge(lt, op, fa, fb), n)
  {
    CutTop(n, x, Merge(lt, op, a, b));
    MergeTop(lt, op, a, b, n);
    MergeTop(lt, op, fa, fb, n);
  }

  /** There is a grouping of all rows under the tree whose first groups are those of `t`. */
  lemma {:induction false} GroupTreeTop(aggregators: seq<Aggregator>, m: nat, limit: nat, parts: seq<BatchMerging.GroupTable>,
                                        rows: seq<seq<Group<Key>>>, s: Shape, t: BatchMerging.GroupTable)
    returns (full: seq<Group<Key>>)
    requires PartsFit(aggregators, parts) && m < |aggregators| && PartsGroup(aggregators, m, parts, rows)
    requires GroupTree(aggregators, limit, parts, s, t) && Within(|rows|, Leaves(s))
    ensures BatchMerging.WellFormed(t) && |t.aggs| == |aggregators|
    ensures IsGroupBy(KeyOrder(BatchMerging.ASCENDING), aggregators[m], full, Gather(rows, Leaves(s)))
    ensures Top(BatchMerging.Groups(t, m), Min(limit, U32_MAX)) == Top(full, Min(limit, U32_MAX))
    decreases s
  {
    var lt, op := KeyOrder(BatchMerging.ASCENDING), aggregators[m];
    match s
    case Leaf(id) =>
      full := BatchMerging.Groups(t, m);
      assert Leaves(s)[0] == id;
      assert Leaves(s)[1..] == [] && rows[id] + [] == rows[id];
    case Node(l, r) =>
      KeyOrderIsStrict(BatchMerging.ASCENDING);
      var t1, t2 :| GroupTree(aggregators, limit, parts, l, t1) && GroupTree(aggregators, limit, parts, r, t2) &&
                    GroupStep(aggregators, limit, t1, t2, t);
      WithinAppend(|rows|, Leaves(l), Leaves(r));
      var f1 := GroupTreeTop(aggregators, m, limit, parts, rows, l, t1);
      var f2 := GroupTreeTop(aggregators, m, limit, parts, rows, r, t2);
      full := Merge(lt, op, f1, f2);
      MergeIsGroupBy(lt, op, f1, f2, Gather(rows, Leaves(l)), Gather(rows, Leaves(r)));
      GatherAppend(rows, Leaves(l), Leaves(r));
      StepCuts(aggregators, m, limit, t1, t2, t);
      CutMerge(lt, op, Min(limit, U32_MAX), BatchMerging.Groups(t, m), BatchMerging.Groups(t1, m), BatchMerging.Groups(t2, m), f1, f2);
  }

  lemma StepCuts(aggregators: seq<Aggregator>, m: nat, limit: nat,
                 t1: BatchMerging.GroupTable, t2: BatchMerging.GroupTable, t: BatchMerging.GroupTable)
    requires GroupStep(aggregators, limit, t1, t2, t) && m < |aggregators|
    ensures BatchMerging.WellFormed(t) && |t.aggs| == |aggregators|
    ensures BatchMerging.CutBehind(Min(limit, U32_MAX), BatchMerging.Groups(t, m),
                                   Merge(KeyOrder(BatchMerging.ASCENDING), aggregators[m], BatchMerging.Groups(t1, m), BatchMerging.Groups(t2, m)))
  {
  }

  /** Whatever the tree over all partitions, its root has the first groups of a grouping of all rows. */
  lemma {:induction false} GroupTreeFull(aggregators: seq<Aggregator>, m: nat, limit: nat, parts: seq<BatchMerging.GroupTable>,
                                         rows: seq<seq<Group<Key>>>, s: Shape, t: BatchMerging.GroupTable)
    returns (full: seq<Group<Key>>)
    requires PartsFit(aggregators, parts) && m < |aggregators| && PartsGroup(aggregators, m, parts, rows)
    requires OneEach(|parts|, s) && GroupTree(aggregators, limit, parts, s, t)
    ensures BatchMerging.WellFormed(t) && |t.aggs| == |aggregators|
    ensures IsGroupBy(KeyOrder(BatchMerging.ASCENDING), aggregators[m], full, Gather(rows, Ids(|parts|)))
    ensures Top(BatchMerging.Groups(t, m), Min(limit, U32_MAX)) == Top(full, Min(limit, U32_MAX))
  {
    OneEachWithin(|parts|, s);
    full := GroupTreeTop(aggregators, m, limit, parts, rows, s, t);
    GatherPermutation(rows, Leaves(s), Ids(|parts|));
    GroupByPermutation(KeyOrder(BatchMerging.ASCENDING), aggregators[m], full, Gather(rows, Leaves(s)), Gather(rows, Ids(|parts|)));
  }

  lemma GroupByPermutation<K(!new)>(lt: (K, K) -> bool, op: Aggregator, g: seq<Group<K>>, x: seq<Group<K>>, y: seq<Group<K>>)
    requires IsGroupBy(lt, op, g, x) && multiset(x) == multiset(y)
    ensures IsGroupBy(lt, op, g, y)
  {
    forall k ensures Lookup(g, k) == Total(op, y, k) { TotalPermutation(op, x, y, k); }
  }

  /** Whatever the tree over all partitions, its root has the first `limit` groups of grouping all
      rows of the table, `g`, with their aggregates over the whole table. */
  lemma {:induction false} GroupTreeCorrect(aggregators: seq<Aggregator>, m: nat, limit: nat, parts: seq<BatchMerging.GroupTable>,
                                            rows: seq<seq<Group<Key>>>, s: Shape, t: BatchMerging.GroupTable, g: seq<Group<Key>>)
    requires PartsFit(aggregators, parts) && m < |aggregators| && PartsGroup(aggregators, m, parts, rows)
    requires OneEach(|parts|, s) && GroupTree(aggregators, limit, parts, s, t)
    requires IsGroupBy(KeyOrder(BatchMerging.ASCENDING), aggregators[m], g, Gather(rows, Ids(|parts|)))
    ensures BatchMerging.WellFormed(t) && |t.aggs| == |aggregators|
    ensures Top(BatchMerging.Groups(t, m), Min(limit, U32_MAX)) == Top(g, Min(limit, U32_MAX))
  {
    var full := GroupTreeFull(aggregators, m, limit, parts, rows, s, t);
    KeyOrderIsStrict(BatchMerging.ASCENDING);
    SameGrouping(KeyOrder(BatchMerging.ASCENDING), aggregators[m], full, g, Gather(rows, Ids(|parts|)));
  }

  lemma SameGrouping<K(!new)>(lt: (K, K) -> bool, op: Aggregator, g: seq<Group<K>>, h: seq<Group<K>>, x: seq<Group<K>>)
    requires StrictOrder(lt) && IsGroupBy(lt, op, g, x) && IsGroupBy(lt, op, h, x)
    ensures g == h
  {
    forall k ensures Lookup(g, k) == Lookup(h, k) {
      assert Lookup(g, k) == Total(op, x, k) && Lookup(h, k) == Total(op, x, k);
    }
    GroupByUnique(lt, g, h);
  }

  /** A group-by result with `n` key columns, sorted by its keys, that can be merged. */
  ghost predicate GroupsFit(aggregators: seq<Aggregator>, n: nat, t: BatchMerging.GroupTable) {
    && BatchMerging.WellFormed(t) && |t.aggs| == |aggregators| && |t.keys| == n && (n == 0 ==> t.len == 1)
    && Strict(KeyOrder(BatchMerging.ASCENDING), BatchMerging.Rows(t.keys, t.len))
  }

  /** Some merge along `s` joins two aggregates that overflow. */
  ghost predicate JoinFails(aggregators: seq<Aggregator>, limit: nat, parts: seq<BatchMerging.GroupTable>, s: Shape)
    decreases s
  {
    match s
    case Leaf(_) => false
    case Node(l, r) =>
      || JoinFails(aggregators, limit, parts, l) || JoinFails(aggregators, limit, parts, r)
      || exists t1, t2 :: GroupTree(aggregators, limit, parts, l, t1) && GroupTree(aggregators, limit, parts, r, t2) && Unjoinable(aggregators, t1, t2)
  }

  ghost predicate Unjoinable(aggregators: seq<Aggregator>, t1: BatchMerging.GroupTable, t2: BatchMerging.GroupTable) {
    BatchMerging.Mergeable(t1, t2) && |aggregators| == |t1.aggs| && !BatchMerging.AllJoinable(t1, t2, aggregators)
  }

  /** Merge results can be merged again. */
  lemma {:induction false} GroupTreeFits(aggregators: seq<Aggregator>, limit: nat, n: nat, parts: seq<BatchMerging.GroupTable>, s: Shape, t: BatchMerging.GroupTable)
    requires (forall i :: 0 <= i < |parts| ==> GroupsFit(aggregators, n, parts[i])) && GroupTree(aggregators, limit, parts, s, t)
    ensures GroupsFit(aggregators, n, t)
    decreases s
  {
    match s
    case Leaf(id) =>
    case Node(l, r) =>
      var t1, t2 :| GroupTree(aggregators, limit, parts, l, t1) && GroupTree(aggregators, limit, parts, r, t2) &&
                    GroupStep(aggregators, limit, t1, t2, t);
      GroupTreeFits(aggregators, limit, n, parts, l, t1);
      GroupTreeFits(aggregators, limit, n, parts, r, t2);
  }

  /** Every tree has a root, unless a join overflows. */
  lemma {:induction false} GroupTreeExists(aggregators: seq<Aggregator>, limit: nat, n: nat, parts: seq<BatchMerging.GroupTable>, s: Shape)
    requires aggregators != [] && Within(|parts|, Leaves(s)) && forall i :: 0 <= i < |parts| ==> GroupsFit(aggregators, n, parts[i])
    ensures JoinFails(aggregators, limit, parts, s) || exists t :: GroupTree(aggregators, limit, parts, s, t)
    decreases s
  {
    match s
    case Leaf(id) =>
      assert Leaves(s)[0] == id;
      assert GroupTree(aggregators, limit, parts, s, parts[id]);
    case Node(l, r) =>
      WithinAppend(|parts|, Leaves(l), Leaves(r));
      GroupTreeExists(aggregators, limit, n, parts, l);
      GroupTreeExists(aggregators, limit, n, parts, r);
      if !JoinFails(aggregators, limit, parts, s) {
        var t1 :| GroupTree(aggregators, limit, parts, l, t1);
        var t2 :| GroupTree(aggregators, limit, parts, r, t2);
        GroupTreeFits(aggregators, limit, n, parts, l, t1);
        GroupTreeFits(aggregators, limit, n, parts, r, t2);
        assert !Unjoinable(aggregators, t1, t2);
        var t := BatchMerging.CombinedExists(t1, t2, aggregators, limit);
        assert GroupStep(aggregators, limit, t1, t2, t);
        assert GroupTree(aggregators, limit, parts, s, t);
      }
  }

  // ---------------------------------------------------------------- order-by queries

  /** `t` comes out of merging the sorted results `parts` along `s`. */
  ghost predicate OrderTree(desc: seq<bool>, limit: nat, parts: seq<SortedBatch>, s: Shape, t: SortedBatch)
    decreases s
  {
    match s
    case Leaf(id) => id < |parts| && t == parts[id]
    case Node(l, r) =>
      exists t1, t2 :: OrderTree(desc, limit, parts, l, t1) && OrderTree(desc, limit, parts, r, t2) && OrderStep(desc, limit, t1, t2, t)
  }

  /** `t` is what `combine` makes of `t1` and `t2`. */
  ghost predicate OrderStep(desc: seq<bool>, limit: nat, t1: SortedBatch, t2: SortedBatch, t: SortedBatch) {
    Sided(desc, t1, t2) && Combined(desc, t1, t2, limit, t)
  }

  /** It does so without skipping an order-by column that matters, at any merge. */
  ghost predicate SafeTree(desc: seq<bool>, limit: nat, parts: seq<SortedBatch>, s: Shape, t: SortedBatch)
    decreases s
  {
    match s
    case Leaf(id) => id < |parts| && t == parts[id]
    case Node(l, r) =>
      exists t1, t2 :: SafeTree(desc, limit, parts, l, t1) && SafeTree(desc, limit, parts, r, t2) && SafeStep(desc, limit, t1, t2, t)
  }

  ghost predicate SafeStep(desc: seq<bool>, limit: nat, t1: SortedBatch, t2: SortedBatch, t: SortedBatch) {
    OrderStep(desc, limit, t1, t2, t) && Harmless(desc, t1.orderBy, |t1.columns|)
  }

  /** Each partition result answers the query for the rows of that partition. */
  ghost predicate PartsSorted(desc: seq<bool>, limit: nat, parts: seq<SortedBatch>, rows: seq<seq<Row<Key, Key>>>) {
    |rows| == |parts| && forall i :: 0 <= i < |parts| ==> PartSorted(desc, limit, parts[i], rows[i])
  }

  /** A partition result answers the query for the rows of the partition. */
  ghost predicate PartSorted(desc: seq<bool>, limit: nat, part: SortedBatch, rows: seq<Row<Key, Key>>) {
    && BatchOk(part) && |part.orderBy| == |desc|
    && TopOf(KeyOrder(desc), Min(limit, U32_MAX), TableRows(Table(part)), multiset(rows))
  }

  lemma {:induction false} OrderTreeTop(desc: seq<bool>, limit: nat, parts: seq<SortedBatch>, rows: seq<seq<Row<Key, Key>>>, s: Shape, t: SortedBatch)
    requires PartsSorted(desc, limit, parts, rows) && SafeTree(desc, limit, parts, s, t) && Within(|rows|, Leaves(s))
    ensures PartSorted(desc, limit, t, Gather(rows, Leaves(s)))
    decreases s
  {
    match s
    case Leaf(id) =>
      assert Leaves(s)[0] == id;
      assert Leaves(s)[1..] == [] && rows[id] + [] == rows[id];
    case Node(l, r) =>
      var t1, t2 :| SafeTree(desc, limit, parts, l, t1) && SafeTree(desc, limit, parts, r, t2) && SafeStep(desc, limit, t1, t2, t);
      WithinAppend(|rows|, Leaves(l), Leaves(r));
      OrderTreeTop(desc, limit, parts, rows, l, t1);
      OrderTreeTop(desc, limit, parts, rows, r, t2);
      GatherAppend(rows, Leaves(l), Leaves(r));
      StepTop(desc, limit, t1, t2, t, Gather(rows, Leaves(l)), Gather(rows, Leaves(r)));
  }

  /** A merge of two answers answers the query for the rows of both. */
  lemma StepTop(desc: seq<bool>, limit: nat, t1: SortedBatch, t2: SortedBatch, t: SortedBatch, x: seq<Row<Key, Key>>, y: seq<Row<Key, Key>>)
    requires SafeStep(desc, limit, t1, t2, t) && PartSorted(desc, limit, t1, x) && PartSorted(desc, limit, t2, y)
    ensures PartSorted(desc, limit, t, x + y)
  {
    HarmlessMerged(desc, t1, t2, limit, t);
    KeyOrderIsStrict(desc);
    MergeTopOf(KeyOrder(desc), |desc| > 1, Min(limit, U32_MAX), t.len, TableRows(Table(t1)), TableRows(Table(t2)), multiset(x), multiset(y));
  }

  /** Whatever the tree over all partitions, its root is sorted, and no row of the table that it
      leaves out comes before one of its first `limit` rows, if no merge skips an order-by column that
      matters. */
  lemma {:induction false} OrderTreeCorrect(desc: seq<bool>, limit: nat, parts: seq<SortedBatch>, rows: seq<seq<Row<Key, Key>>>, s: Shape,
                                            t: SortedBatch)
    requires PartsSorted(desc, limit, parts, rows) && OneEach(|parts|, s) && SafeTree(desc, limit, parts, s, t)
    ensures PartSorted(desc, limit, t, Gather(rows, Ids(|parts|)))
  {
    OneEachWithin(|parts|, s);
    OrderTreeTop(desc, limit, parts, rows, s, t);
    GatherPermutation(rows, Leaves(s), Ids(|parts|));
    SortedOf(desc, limit, t, Gather(rows, Leaves(s)), Gather(rows, Ids(|parts|)));
  }

  lemma SortedOf(desc: seq<bool>, limit: nat, t: SortedBatch, x: seq<Row<Key, Key>>, y: seq<Row<Key, Key>>)
    requires PartSorted(desc, limit, t, x) && multiset(x) == multiset(y)
    ensures PartSorted(desc, limit, t, y)
  {
  }

  /** All partition results have the same layout, in which the last column is not ordered by before, and
      nothing that matters is skipped. */
  ghost predicate PartsAlike(desc: seq<bool>, parts: seq<SortedBatch>, projection: seq<nat>, orderBy: seq<nat>, w: nat) {
    && |desc| == |orderBy| && LastOnce(orderBy) && Harmless(desc, orderBy, w) && Canonical(projection + orderBy, w)
    && forall i :: 0 <= i < |parts| ==> HasLayout(parts[i], projection, orderBy, w)
  }

  /** Then no merge along a tree skips anything that matters, as the layout stays the same. */
  lemma {:induction false} TreeSafe(desc: seq<bool>, limit: nat, parts: seq<SortedBatch>, s: Shape, t: SortedBatch,
                                    projection: seq<nat>, orderBy: seq<nat>, w: nat)
    requires PartsAlike(desc, parts, projection, orderBy, w) && OrderTree(desc, limit, parts, s, t)
    ensures SafeTree(desc, limit, parts, s, t) && HasLayout(t, projection, orderBy, w)
    ensures s.Node? ==> !Refuses(|desc|, w)
    decreases s
  {
    match s
    case Leaf(id) =>
    case Node(l, r) =>
      var t1, t2 :| OrderTree(desc, limit, parts, l, t1) && OrderTree(desc, limit, parts, r, t2) && OrderStep(desc, limit, t1, t2, t);
      TreeSafe(desc, limit, parts, l, t1, projection, orderBy, w);
      TreeSafe(desc, limit, parts, r, t2, projection, orderBy, w);
      StepSafe(desc, limit, t1, t2, t, projection, orderBy, w);
  }

  lemma StepSafe(desc: seq<bool>, limit: nat, t1: SortedBatch, t2: SortedBatch, t: SortedBatch, projection: seq<nat>, orderBy: seq<nat>, w: nat)
    requires OrderStep(desc, limit, t1, t2, t) && LastOnce(orderBy) && Canonical(projection + orderBy, w)
    requires |desc| == |orderBy| && Harmless(desc, orderBy, w)
    requires HasLayout(t1, projection, orderBy, w) && HasLayout(t2, projection, orderBy, w)
    ensures SafeStep(desc, limit, t1, t2, t) && HasLayout(t, projection, orderBy, w) && !Refuses(|desc|, w)
  {
    LayoutKept(desc, t1, t2, limit, t, projection, orderBy, w);
  }

  /** Two answers with the same layout can be merged. */
  lemma AnswersSided(desc: seq<bool>, limit: nat, t1: SortedBatch, t2: SortedBatch, x: seq<Row<Key, Key>>, y: seq<Row<Key, Key>>,
                     projection: seq<nat>, orderBy: seq<nat>, w: nat)
    requires PartSorted(desc, limit, t1, x) && PartSorted(desc, limit, t2, y) && orderBy != []
    requires HasLayout(t1, projection, orderBy, w) && HasLayout(t2, projection, orderBy, w)
    ensures Sided(desc, t1, t2)
  {
    RowKeysOf(Table(t1));
    RowKeysOf(Table(t2));
  }

  /** And every tree has a root if the layout is not refused. */
  lemma {:induction false} OrderTreeExists(desc: seq<bool>, limit: nat, parts: seq<SortedBatch>, rows: seq<seq<Row<Key, Key>>>, s: Shape,
                                           projection: seq<nat>, orderBy: seq<nat>, w: nat) returns (t: SortedBatch)
    requires PartsSorted(desc, limit, parts, rows) && PartsAlike(desc, parts, projection, orderBy, w) && Within(|parts|, Leaves(s))
    requires s.Leaf? || !Refuses(|desc|, w)
    ensures OrderTree(desc, limit, parts, s, t)
    decreases s
  {
    match s
    case Leaf(id) =>
      assert Leaves(s)[0] == id;
      t := parts[id];
    case Node(l, r) =>
      WithinAppend(|parts|, Leaves(l), Leaves(r));
      var t1 := OrderTreeExists(desc, limit, parts, rows, l, projection, orderBy, w);
      var t2 := OrderTreeExists(desc, limit, parts, rows, r, projection, orderBy, w);
      TreeSafe(desc, limit, parts, l, t1, projection, orderBy, w);
      TreeSafe(desc, limit, parts, r, t2, projection, orderBy, w);
      OrderTreeTop(desc, limit, parts, rows, l, t1);
      OrderTreeTop(desc, limit, parts, rows, r, t2);
      AnswersSided(desc, limit, t1, t2, Gather(rows, Leaves(l)), Gather(rows, Leaves(r)), projection, orderBy, w);
      t := CombinedExists(desc, t1, t2, limit);
      assert OrderStep(desc, limit, t1, t2, t);
  }

  ghost predicate HasRoot(desc: seq<bool>, limit: nat, parts: seq<SortedBatch>, s: Shape) {
    exists t :: OrderTree(desc, limit, parts, s, t)
  }

  lemma OrderTreeIff(desc: seq<bool>, limit: nat, parts: seq<SortedBatch>, rows: seq<seq<Row<Key, Key>>>, s: Shape,
                     projection: seq<nat>, orderBy: seq<nat>, w: nat)
    requires PartsSorted(desc, limit, parts, rows) && PartsAlike(desc, parts, projection, orderBy, w) && Within(|parts|, Leaves(s))
    ensures HasRoot(desc, limit, parts, s) <==> s.Leaf? || !Refuses(|desc|, w)
  {
    if s.Leaf? || !Refuses(|desc|, w) {
      var t := OrderTreeExists(desc, limit, parts, rows, s, projection, orderBy, w);
    }
    if t :| OrderTree(desc, limit, parts, s, t) {
      TreeSafe(desc, limit, parts, s, t, projection, orderBy, w);
    }
  }

  // ---------------------------------------------------------------- unordered select queries

  /** The select branch of `combine` on one column. */
  function Extend<T>(limit: nat, a: seq<T>, b: seq<T>): seq<T> {
    var count := if |a| >= limit then 0 else Min(|b|, limit - |a|);
    a + b[..count]
  }

  /** The select branch of `combine`: every column is extended, so whole rows are. */
  method CombineSelect(cols1: seq<seq<int>>, cols2: seq<seq<int>>, limit: nat, ghost len1: nat, ghost len2: nat)
    returns (cols: seq<seq<int>>)
    requires |cols1| == |cols2| > 0
    requires forall c :: 0 <= c < |cols1| ==> |cols1[c]| == len1 && |cols2[c]| == len2
    ensures |cols| == |cols1| && forall c :: 0 <= c < |cols| ==> cols[c] == Extend(limit, cols1[c], cols2[c])
    ensures var rows := Extend(limit, BatchMerging.Rows(cols1, len1), BatchMerging.Rows(cols2, len2));
            (forall c :: 0 <= c < |cols| ==> |cols[c]| == |rows|) && BatchMerging.Rows(cols, |rows|) == rows
  {
    cols := [];
    for i := 0 to |cols1|
      invariant |cols| == i && forall c :: 0 <= c < i ==> cols[c] == Extend(limit, cols1[c], cols2[c])
    {
      var count := if |cols1[i]| >= limit then 0 else Min(|cols2[i]|, limit - |cols1[i]|);
      cols := cols + [cols1[i] + cols2[i][..count]];
    }
    RowsExtended(cols1, cols2, cols, limit, len1, len2);
  }

  lemma RowsExtended(cols1: seq<seq<int>>, cols2: seq<seq<int>>, cols: seq<seq<int>>, limit: nat, len1: nat, len2: nat)
    requires |cols| == |cols1| == |cols2| > 0
    requires forall c :: 0 <= c < |cols| ==> |cols1[c]| == len1 && |cols2[c]| == len2 && cols[c] == Extend(limit, cols1[c], cols2[c])
    ensures var rows := Extend(limit, BatchMerging.Rows(cols1, len1), BatchMerging.Rows(cols2, len2));
            (forall c :: 0 <= c < |cols| ==> |cols[c]| == |rows|) && BatchMerging.Rows(cols, |rows|) == rows
  {
    var a, b := BatchMerging.Rows(cols1, len1), BatchMerging.Rows(cols2, len2);
    var rows := Extend(limit, a, b);
    forall i: nat | i < |rows| ensures BatchMerging.Row(cols, i) == rows[i] {
      RowExtended(cols1, cols2, cols, limit, len1, len2, i);
      assert rows[i] == if i < len1 then a[i] else b[i - len1];
    }
  }

  lemma RowExtended(cols1: seq<seq<int>>, cols2: seq<seq<int>>, cols: seq<seq<int>>, limit: nat, len1: nat, len2: nat, i: nat)
    requires |cols| == |cols1| == |cols2| > 0 && i < |cols[0]|
    requires forall c :: 0 <= c < |cols| ==> |cols1[c]| == len1 && |cols2[c]| == len2 && cols[c] == Extend(limit, cols1[c], cols2[c])
    ensures (forall c :: 0 <= c < |cols| ==> |cols[c]| == |cols[0]|) && |cols[0]| <= len1 + len2
    ensures BatchMerging.Row(cols, i) == if i < len1 then BatchMerging.Row(cols1, i) else BatchMerging.Row(cols2, i - len1)
  {
    var row := if i < len1 then BatchMerging.Row(cols1, i) else BatchMerging.Row(cols2, i - len1);
    forall c | 0 <= c < |cols| ensures cols[c][i] == row[c] {
      assert cols[c][i] == if i < len1 then cols1[c][i] else cols2[c][i - len1];
    }
  }

  ghost function SelectTree<T>(limit: nat, parts: seq<seq<T>>, s: Shape): seq<T>
    requires Within(|parts|, Leaves(s))
  {
    match s
    case Leaf(id) => assert Leaves(s)[0] == id; parts[id]
    case Node(l, r) =>
      WithinAppend(|parts|, Leaves(l), Leaves(r));
      Extend(limit, SelectTree(limit, parts, l), SelectTree(limit, parts, r))
  }

  /** The root holds rows of the partitions under it, each at most as often as it occurs there,
      and at least `limit` of them unless it holds all. */
  lemma {:induction false} SelectTreeRows<T>(limit: nat, parts: seq<seq<T>>, s: Shape)
    requires Within(|parts|, Leaves(s))
    ensures var x, all := SelectTree(limit, parts, s), Gather(parts, Leaves(s));
            && multiset(x) <= multiset(all)
            && (|x| >= limit || multiset(x) == multiset(all))
            && |x| <= |all|
    decreases s
  {
    match s
    case Leaf(id) =>
      assert Leaves(s)[0] == id;
      assert Leaves(s)[1..] == [] && parts[id] + [] == parts[id];
    case Node(l, r) =>
      WithinAppend(|parts|, Leaves(l), Leaves(r));
      SelectTreeRows(limit, parts, l);
      SelectTreeRows(limit, parts, r);
      GatherAppend(parts, Leaves(l), Leaves(r));
      ExtendRows(limit, SelectTree(limit, parts, l), SelectTree(limit, parts, r),
                 Gather(parts, Leaves(l)), Gather(parts, Leaves(r)));
  }

  /** To be exact, it holds the first rows of the partitions under it, in order: `limit` of them, or all of
      the first partition if these are more. */
  lemma {:induction false} SelectTreeExact<T>(limit: nat, parts: seq<seq<T>>, s: Shape)
    requires Within(|parts|, Leaves(s))
    ensures Leaves(s) != [] && Leaves(s)[0] < |parts|
    ensures var all := Gather(parts, Leaves(s));
            SelectTree(limit, parts, s) == all[..Min(|all|, Max(limit, |parts[Leaves(s)[0]]|))]
    ensures |Gather(parts, Leaves(s))| >= |parts[Leaves(s)[0]]|
    decreases s
  {
    match s
    case Leaf(id) =>
      assert Leaves(s)[0] == id;
      assert Leaves(s)[1..] == [] && parts[id] + [] == parts[id];
    case Node(l, r) =>
      WithinAppend(|parts|, Leaves(l), Leaves(r));
      SelectTreeExact(limit, parts, l);
      SelectTreeExact(limit, parts, r);
      GatherAppend(parts, Leaves(l), Leaves(r));
      assert Leaves(s)[0] == Leaves(l)[0];
      ExtendExact(limit, Gather(parts, Leaves(l)), Gather(parts, Leaves(r)), |parts[Leaves(l)[0]]|, |parts[Leaves(r)[0]]|);
  }

  lemma ExtendExact<T>(limit: nat, x: seq<T>, y: seq<T>, m: nat, n: nat)
    requires m <= |x| && n <= |y|
    ensures Extend(limit, x[..Min(|x|, Max(limit, m))], y[..Min(|y|, Max(limit, n))]) == (x + y)[..Min(|x + y|, Max(limit, m))]
  {
    var a, b := x[..Min(|x|, Max(limit, m))], y[..Min(|y|, Max(limit, n))];
    if |a| < limit {
      assert a == x;
      var count := Min(|b|, limit - |a|);
      assert b[..count] == y[..count];
    }
  }

  lemma ExtendRows<T>(limit: nat, a: seq<T>, b: seq<T>, x: seq<T>, y: seq<T>)
    requires multiset(a) <= multiset(x) && (|a| >= limit || multiset(a) == multiset(x)) && |a| <= |x|
    requires multiset(b) <= multiset(y) && (|b| >= limit || multiset(b) == multiset(y)) && |b| <= |y|
    ensures var e := Extend(limit, a, b);
            && multiset(e) <= multiset(x + y) && |e| <= |x + y|
            && (|e| >= limit || multiset(e) == multiset(x + y))
  {
    var count := if |a| >= limit then 0 else Min(|b|, limit - |a|);
    Rejoin(b, count);
    assert multiset(b) == multiset(b[..count]) + multiset(b[count..]);
    if |a| + count < limit {
      assert b[..count] == b;
    }
  }
}
