/** Whatever the workers do, a reply that carries a result answers the query over the whole
    table: the protocol guarantees the merge tree, the merge tree guarantees the rows. */
module QueryAnswers {
  import opened Order
  import opened Types
  import opened GroupMerge
  import opened GroupBy
  import opened OrderBy
  import opened MergeTree
  import opened QueryTask
  import opened WorkerStack
  import opened Partitioning
  import opened Seqs
  import opened Indices
  import BatchMerging
  import opened SortedBatches
  import opened Aliasing
  import PartitionQueries
  import opened Aggregates
  import PartitionGroups

  /** A run over the given number of partitions that has replied with the result `r`. */
  ghost predicate Replied(q: Query, n: nat, tr: seq<State>, r: Shape) {
    |q.lens| == n && Run(q, tr) && Answer(r) in Last(tr).replies
  }

  /** An aggregate query is answered with the first `limit` groups of the whole table. */
  lemma AggregateAnswered(q: Query, tr: seq<State>, r: Shape, aggregators: seq<Aggregator>, m: nat,
                          parts: seq<BatchMerging.GroupTable>, rows: seq<seq<Group<Key>>>, t: BatchMerging.GroupTable, g: seq<Group<Key>>)
    requires Replied(q, |parts|, tr, r) && !q.unordered
    requires PartsFit(aggregators, parts) && m < |aggregators| && PartsGroup(aggregators, m, parts, rows)
    requires GroupTree(aggregators, q.limit, parts, r, t)
    requires IsGroupBy(KeyOrder(BatchMerging.ASCENDING), aggregators[m], g, Gather(rows, Ids(|parts|)))
    ensures BatchMerging.WellFormed(t) && |t.aggs| == |aggregators|
    ensures Top(BatchMerging.Groups(t, m), Min(q.limit, U32_MAX)) == Top(g, Min(q.limit, U32_MAX))
  {
    AnswerComplete(q, tr, r);
    GroupTreeCorrect(aggregators, m, q.limit, parts, rows, r, t, g);
  }

  /** Every partition has a column for aggregate `m`. */
  ghost predicate HaveColumn(m: nat, inputs: seq<PartitionQueries.Input>) {
    forall i :: 0 <= i < |inputs| ==> m < |inputs[i].cols| && |inputs[i].tuples| == |inputs[i].cols[m]|
  }

  /** The rows of all partitions by tuple, with what they contribute to aggregate `m`. */
  ghost function AllRows(op: Aggregator, m: nat, inputs: seq<PartitionQueries.Input>): (rows: seq<seq<Group<Key>>>)
    requires HaveColumn(m, inputs)
    ensures |rows| == |inputs| && forall i :: 0 <= i < |rows| ==> rows[i] == PartitionQueries.TupleRows(op, inputs[i].tuples, inputs[i].cols[m])
  {
    seq(|inputs|, i requires 0 <= i < |inputs| => PartitionQueries.TupleRows(op, inputs[i].tuples, inputs[i].cols[m]))
  }

  /** All columns of every partition have the same length. */
  ghost predicate AllEven(sources: seq<PartitionQueries.Filtered>) {
    forall i, m :: 0 <= i < |sources| && 0 <= m < |sources[i].all.cols| ==> |sources[i].all.cols[m]| == |sources[i].all.tuples|
  }

  /** The rows of the partitions that pass the filter. */
  ghost function KeptInputs(sources: seq<PartitionQueries.Filtered>): (inputs: seq<PartitionQueries.Input>)
    requires AllEven(sources)
    ensures |inputs| == |sources| && forall i :: 0 <= i < |inputs| ==> inputs[i] == PartitionQueries.KeptInput(sources[i])
  {
    seq(|sources|, i requires 0 <= i < |sources| => PartitionQueries.KeptInput(sources[i]))
  }

  /** From the rows to the reply: if every part is what `GroupPartition` returns for a partition, and
      the workers merge them, the reply has the first `limit` groups of all rows of the table that pass
      the filter. */
  lemma AggregateQuery(q: Query, tr: seq<State>, r: Shape, aggregators: seq<Aggregator>, n: nat, m: nat,
                       sources: seq<PartitionQueries.Filtered>, parts: seq<BatchMerging.GroupTable>, t: BatchMerging.GroupTable, g: seq<Group<Key>>)
    requires Replied(q, |parts|, tr, r) && !q.unordered && GroupTree(aggregators, q.limit, parts, r, t)
    requires |sources| == |parts| && m < |aggregators| && AllEven(sources) && HaveColumn(m, KeptInputs(sources))
    requires forall i :: 0 <= i < |parts| ==> PartitionQueries.GroupResult(aggregators, n, PartitionQueries.KeptInput(sources[i]), parts[i])
    requires IsGroupBy(KeyOrder(BatchMerging.ASCENDING), aggregators[m], g, Gather(AllRows(aggregators[m], m, KeptInputs(sources)), Ids(|parts|)))
    ensures BatchMerging.WellFormed(t) && |t.aggs| == |aggregators|
    ensures Top(BatchMerging.Groups(t, m), Min(q.limit, U32_MAX)) == Top(g, Min(q.limit, U32_MAX))
  {
    var inputs := KeptInputs(sources);
    var rows := AllRows(aggregators[m], m, inputs);
    ResultsGroup(aggregators, n, m, inputs, parts);
    AggregateAnswered(q, tr, r, aggregators, m, parts, rows, t, g);
  }

  /** The rows of a partition by tuple, with the values that aggregate `m` is about. */
  ghost function Entries(input: PartitionQueries.Input, m: nat): (rows: seq<Entry<Key>>)
    requires m < |input.cols| && |input.tuples| == |input.cols[m]|
    ensures |rows| == |input.tuples|
    ensures forall i :: 0 <= i < |rows| ==> rows[i] == Entry(PartitionGroups.Fused(input.tuples[i]), input.cols[m][i])
  {
    seq(|input.tuples|, i requires 0 <= i < |input.tuples| => Entry(PartitionGroups.Fused(input.tuples[i]), input.cols[m][i]))
  }

  ghost function AllEntries(inputs: seq<PartitionQueries.Input>, m: nat): (rows: seq<seq<Entry<Key>>>)
    requires HaveColumn(m, inputs)
    ensures |rows| == |inputs| && forall i :: 0 <= i < |rows| ==> rows[i] == Entries(inputs[i], m)
  {
    seq(|inputs|, i requires 0 <= i < |inputs| => Entries(inputs[i], m))
  }

  /** All rows contribute what those of each partition do. */
  lemma {:induction false} AllContribute(op: Aggregator, m: nat, inputs: seq<PartitionQueries.Input>, ids: seq<nat>)
    requires HaveColumn(m, inputs) && Within(|inputs|, ids)
    ensures Gather(AllRows(op, m, inputs), ids) == Contributed(op, Gather(AllEntries(inputs, m), ids))
  {
    if ids != [] {
      var x, y := Entries(inputs[ids[0]], m), Gather(AllEntries(inputs, m), ids[1..]);
      AllContribute(op, m, inputs, ids[1..]);
      assert PartitionQueries.TupleRows(op, inputs[ids[0]].tuples, inputs[ids[0]].cols[m]) == Contributed(op, x);
      assert Contributed(op, x + y) == Contributed(op, x) + Contributed(op, y);
    }
  }

  lemma {:induction false} AllEntriesOk(op: Aggregator, parts: seq<seq<Entry<Key>>>, ids: seq<nat>)
    requires IntegerAggregator(op) && Within(|parts|, ids) && forall i :: 0 <= i < |parts| ==> EntriesOk(op, parts[i])
    ensures EntriesOk(op, Gather(parts, ids))
  {
    if ids != [] { AllEntriesOk(op, parts, ids[1..]); }
  }

  /** What the reply of an aggregate query means, in terms of the rows alone: the first `limit` keys of the
      rows of the whole table that pass the filter, each with the sum, the number, the largest or the
      smallest of the values of its rows. */
  lemma AggregateMeaning(q: Query, tr: seq<State>, r: Shape, aggregators: seq<Aggregator>, n: nat, m: nat,
                         sources: seq<PartitionQueries.Filtered>, parts: seq<BatchMerging.GroupTable>, t: BatchMerging.GroupTable)
    requires Replied(q, |parts|, tr, r) && !q.unordered && GroupTree(aggregators, q.limit, parts, r, t)
    requires |sources| == |parts| && m < |aggregators| && AllEven(sources) && HaveColumn(m, KeptInputs(sources))
    requires forall i :: 0 <= i < |parts| ==> PartitionQueries.GroupResult(aggregators, n, PartitionQueries.KeptInput(sources[i]), parts[i])
    requires IntegerAggregator(aggregators[m]) && forall i :: 0 <= i < |sources| ==> EntriesOk(aggregators[m], AllEntries(KeptInputs(sources), m)[i])
    ensures BatchMerging.WellFormed(t) && |t.aggs| == |aggregators|
    ensures FirstGroups(KeyOrder(BatchMerging.ASCENDING), aggregators[m], Min(q.limit, U32_MAX), Top(BatchMerging.Groups(t, m), Min(q.limit, U32_MAX)),
                        Gather(AllEntries(KeptInputs(sources), m), Ids(|parts|)))
  {
    var inputs, op := KeptInputs(sources), aggregators[m];
    var rows := AllRows(op, m, inputs);
    ResultsGroup(aggregators, n, m, inputs, parts);
    AnswerComplete(q, tr, r);
    var full := GroupTreeFull(aggregators, m, q.limit, parts, rows, r, t);
    FullMeans(op, m, Min(q.limit, U32_MAX), inputs, full);
  }

  /** The results of the partitions group their rows. */
  lemma ResultsGroup(aggregators: seq<Aggregator>, n: nat, m: nat, inputs: seq<PartitionQueries.Input>, parts: seq<BatchMerging.GroupTable>)
    requires |inputs| == |parts| && m < |aggregators| && HaveColumn(m, inputs)
    requires forall i :: 0 <= i < |parts| ==> PartitionQueries.GroupResult(aggregators, n, inputs[i], parts[i])
    ensures PartsFit(aggregators, parts) && PartsGroup(aggregators, m, parts, AllRows(aggregators[m], m, inputs))
  {
    var rows := AllRows(aggregators[m], m, inputs);
    forall i | 0 <= i < |parts| ensures m < |parts[i].aggs| && PartGroups(aggregators[m], m, parts[i], rows[i]) {
      assert PartitionQueries.GroupResultAt(aggregators[m], inputs[i].tuples, inputs[i].cols[m], parts[i], m);
    }
  }

  /** What a grouping of all rows means. */
  lemma FullMeans(op: Aggregator, m: nat, n: nat, inputs: seq<PartitionQueries.Input>, full: seq<Group<Key>>)
    requires HaveColumn(m, inputs) && IntegerAggregator(op) && forall i :: 0 <= i < |inputs| ==> EntriesOk(op, AllEntries(inputs, m)[i])
    requires IsGroupBy(KeyOrder(BatchMerging.ASCENDING), op, full, Gather(AllRows(op, m, inputs), Ids(|inputs|)))
    ensures FirstGroups(KeyOrder(BatchMerging.ASCENDING), op, n, Top(full, n), Gather(AllEntries(inputs, m), Ids(|inputs|)))
  {
    AllContribute(op, m, inputs, Ids(|inputs|));
    AllEntriesOk(op, AllEntries(inputs, m), Ids(|inputs|));
    KeyOrderIsStrict(BatchMerging.ASCENDING);
    GroupByMeans(KeyOrder(BatchMerging.ASCENDING), op, n, full, Gather(AllEntries(inputs, m), Ids(|inputs|)));
  }

  /** The workers get to a result, whatever they merge with what, unless a join overflows. */
  lemma AggregateResult(aggregators: seq<Aggregator>, limit: nat, n: nat, inputs: seq<PartitionQueries.Input>,
                        parts: seq<BatchMerging.GroupTable>, s: Shape)
    requires aggregators != [] && n > 0 && |inputs| == |parts| && Within(|parts|, Leaves(s))
    requires forall i :: 0 <= i < |parts| ==> PartitionQueries.GroupResult(aggregators, n, inputs[i], parts[i])
    ensures JoinFails(aggregators, limit, parts, s) || exists t :: GroupTree(aggregators, limit, parts, s, t)
  {
    forall i | 0 <= i < |parts| ensures GroupsFit(aggregators, n, parts[i]) {
      ResultFits(aggregators, n, inputs[i], parts[i]);
    }
    GroupTreeExists(aggregators, limit, n, parts, s);
  }

  lemma ResultFits(aggregators: seq<Aggregator>, n: nat, input: PartitionQueries.Input, t: BatchMerging.GroupTable)
    requires aggregators != [] && n > 0 && PartitionQueries.GroupResult(aggregators, n, input, t)
    ensures GroupsFit(aggregators, n, t)
  {
    assert PartitionQueries.GroupResultAt(aggregators[0], input.tuples, input.cols[0], t, 0);
    var g := BatchMerging.Groups(t, 0);
    assert forall i :: 0 <= i < |g| ==> g[i].key == Keys(g)[i];
  }

  /** An order-by query is answered with the first `limit` rows of the whole table, if no merge skips
      an order-by column that matters. */
  lemma OrderByAnswered(q: Query, tr: seq<State>, r: Shape, desc: seq<bool>,
                        parts: seq<SortedBatch>, rows: seq<seq<Row<Key, Key>>>, t: SortedBatch)
    requires Replied(q, |parts|, tr, r) && !q.unordered
    requires PartsSorted(desc, q.limit, parts, rows) && SafeTree(desc, q.limit, parts, r, t)
    ensures PartSorted(desc, q.limit, t, Gather(rows, Ids(|parts|)))
  {
    AnswerComplete(q, tr, r);
    OrderTreeCorrect(desc, q.limit, parts, rows, r, t);
  }

  /** The partitions of a query that selects the expressions `select` and orders by the expressions
      `order`, of which merging skips only repeated ones, and the results of sorting them. */
  ghost predicate SortedParts(desc: seq<bool>, limit: nat, select: seq<nat>, order: seq<nat>,
                              inputs: seq<PartitionQueries.Buffers>, parts: seq<SortedBatch>)
  {
    && |inputs| == |parts| && |order| == |desc| && PartitionQueries.Orderable(select, order)
    && (forall i :: 0 <= i < |inputs| ==> PartitionQueries.BuffersOk(inputs[i]))
    && forall i {:trigger SortedPart(desc, limit, select, order, inputs[i], parts[i])} :: 0 <= i < |parts| ==>
         SortedPart(desc, limit, select, order, inputs[i], parts[i])
  }

  ghost predicate SortedPart(desc: seq<bool>, limit: nat, select: seq<nat>, order: seq<nat>, input: PartitionQueries.Buffers, part: SortedBatch) {
    input.select == select && input.order == order && PartitionQueries.SortResult(desc, limit, input, part)
  }

  ghost function KeptRows(inputs: seq<PartitionQueries.Buffers>): (rows: seq<seq<Row<Key, Key>>>)
    requires forall i :: 0 <= i < |inputs| ==> PartitionQueries.BuffersOk(inputs[i])
    ensures |rows| == |inputs| && forall i :: 0 <= i < |rows| ==> rows[i] == TableRows(PartitionQueries.Base(PartitionQueries.Kept(inputs[i])))
  {
    seq(|inputs|, i requires 0 <= i < |inputs| => TableRows(PartitionQueries.Base(PartitionQueries.Kept(inputs[i]))))
  }

  /** Their layout, and that they answer the query for the rows of each partition. */
  lemma SortedPartsAlike(desc: seq<bool>, limit: nat, select: seq<nat>, order: seq<nat>, inputs: seq<PartitionQueries.Buffers>, parts: seq<SortedBatch>)
    requires SortedParts(desc, limit, select, order, inputs, parts)
    ensures PartsAlike(desc, parts, PartitionQueries.ProjectionOf(select, order), PartitionQueries.OrderByOf(select, order), PartitionQueries.WidthOf(select, order))
    ensures PartsSorted(desc, limit, parts, KeptRows(inputs))
  {
    PartitionQueries.LayoutCanonical(select, order);
    PartitionQueries.OrderableIff(desc, select, order);
    forall i | 0 <= i < |parts|
      ensures PartSorted(desc, limit, parts[i], KeptRows(inputs)[i])
      ensures PartitionQueries.LaidOut(parts[i], select, order)
    {
      assert SortedPart(desc, limit, select, order, inputs[i], parts[i]);
    }
  }

  /** From the rows to the reply: if every part is what `SortPartition` returns for a partition, and the
      workers merge them, the reply has the first `limit` of the rows of the table that pass the filter. */
  lemma OrderByQuery(q: Query, tr: seq<State>, r: Shape, desc: seq<bool>, select: seq<nat>, order: seq<nat>,
                     inputs: seq<PartitionQueries.Buffers>, parts: seq<SortedBatch>, t: SortedBatch)
    requires Replied(q, |parts|, tr, r) && !q.unordered && OrderTree(desc, q.limit, parts, r, t)
    requires SortedParts(desc, q.limit, select, order, inputs, parts)
    ensures PartSorted(desc, q.limit, t, Gather(KeptRows(inputs), Ids(|parts|)))
  {
    SortedPartsAlike(desc, q.limit, select, order, inputs, parts);
    TreeSafe(desc, q.limit, parts, r, t, PartitionQueries.ProjectionOf(select, order), PartitionQueries.OrderByOf(select, order),
             PartitionQueries.WidthOf(select, order));
    OrderByAnswered(q, tr, r, desc, parts, KeptRows(inputs), t);
  }

  /** The workers get to a result, whatever they merge with what, if and only if there is nothing to
      merge, or the query orders by one expression, or it selects at most one that it does not order
      by. */
  lemma OrderByResult(desc: seq<bool>, limit: nat, select: seq<nat>, order: seq<nat>,
                      inputs: seq<PartitionQueries.Buffers>, parts: seq<SortedBatch>, s: Shape)
    requires SortedParts(desc, limit, select, order, inputs, parts) && Within(|parts|, Leaves(s))
    ensures HasRoot(desc, limit, parts, s) <==> s.Leaf? || |order| == 1 || PartitionQueries.WidthOf(select, order) <= |order| + 1
  {
    SortedPartsAlike(desc, limit, select, order, inputs, parts);
    OrderTreeIff(desc, limit, parts, KeptRows(inputs), s, PartitionQueries.ProjectionOf(select, order), PartitionQueries.OrderByOf(select, order),
                 PartitionQueries.WidthOf(select, order));
  }

  lemma {:induction false} GatherLength<T>(q: Query, parts: seq<seq<T>>, ids: seq<nat>)
    requires |q.lens| == |parts| && Within(|parts|, ids)
    requires forall i :: 0 <= i < |parts| ==> q.lens[i] == |parts[i]|
    ensures |Gather(parts, ids)| == Collected(q, ids)
  {
    if ids != [] {
      GatherLength(q, parts, ids[1..]);
    }
  }

  /** A select without order is answered with rows of the table, none too often, and at least
      `limit` of them unless with all; also when the reply did not wait for all partitions. */
  lemma SelectAnswered<T>(q: Query, tr: seq<State>, r: Shape, parts: seq<seq<T>>)
    requires Replied(q, |parts|, tr, r)
    requires forall i :: 0 <= i < |parts| ==> q.lens[i] == |parts[i]|
    ensures Within(|parts|, Leaves(r))
    ensures var x, all := SelectTree(q.limit, parts, r), Gather(parts, Ids(|parts|));
            multiset(x) <= multiset(all) && (|x| >= q.limit || multiset(x) == multiset(all))
    ensures var x, read := SelectTree(q.limit, parts, r), Gather(parts, Leaves(r));
            Leaves(r) != [] && Leaves(r)[0] < |parts| && x == read[..Min(|read|, Max(q.limit, |parts[Leaves(r)[0]]|))]
  {
    AnswerComplete(q, tr, r);
    SelectTreeExact(q.limit, parts, r);
    GatherSome(parts, Leaves(r));
    SelectTreeRows(q.limit, parts, r);
    GatherLength(q, parts, Leaves(r));
    var x := SelectTree(q.limit, parts, r);
    assert |multiset(x)| == |x| && |multiset(Gather(parts, Leaves(r)))| == |Gather(parts, Leaves(r))|;
    if OneEach(|parts|, r) {
      GatherPermutation(parts, Leaves(r), Ids(|parts|));
    }
  }

  /** `SELECT x FROM t ORDER BY x LIMIT 0` over one partition of two rows: sorting it panics, and the
      worker takes the partition with it, so that the query is never answered. */
  lemma LimitZeroUnanswered() returns (q: Query, tr: seq<State>)
    ensures |q.lens| == 1 && q.limit == 0 && q.panics == {0} && PartitionQueries.UsesTopN([false], q.limit, 2)
    ensures Run(q, tr) && Quiescent(q, Last(tr)) && Last(tr).replies == [] && !Last(tr).poisoned
  {
    q := Query([0], false, 0, 0, false, {0}, false);
    var s0 := State(0, false, None, false, [], 0, 0, [], [Idle]);
    var s1 := Next(q, s0, 0, Good);
    var s2 := Next(q, s1, 0, Good);
    assert s2.workers[0] == Computing([], 0, 0);
    var s3 := Next(q, s2, 0, Panic);
    tr := [s0, s1, s2, s3];
    assert s3.workers == [Dead(AllLeaves([]) + [0])] && s3.batchIndex == 1;
    assert Step(q, tr[0], tr[1]) && Step(q, tr[1], tr[2]) && Step(q, tr[2], tr[3]);
  }
}
