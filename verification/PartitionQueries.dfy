/** What a worker computes for one partition: the sorted rows of an order-by query, the groups of an
    aggregate query.  These are the results that are merged into the reply. */
module PartitionQueries {
  import opened Order
  import opened Types
  import opened GroupMerge
  import opened GroupBy
  import opened OrderBy
  import opened Seqs
  import opened Indices
  import opened MergeTree
  import opened SortedBatches
  import opened Aliasing
  import opened PartitionSort
  import opened PartitionGroups
  import opened Filtering
  import opened Partitioning
  import BatchMerging
  import BitPacking
  import Grouping
  import TopN

  // ---------------------------------------------------------------- order-by queries

  /** The rows with the given indices. */
  function SelectRows(base: SortedTable, idx: seq<nat>): (t: SortedTable)
    requires WellFormed(base) && Within(base.len, idx)
    ensures WellFormed(t)
  {
    SortedTable(SelectColumns(base.order, base.len, idx), SelectColumns(base.cols, base.len, idx), |idx|)
  }

  function SelectColumns(cols: seq<seq<int>>, len: nat, idx: seq<nat>): (r: seq<seq<int>>)
    requires Within(len, idx) && forall c :: 0 <= c < |cols| ==> |cols[c]| == len
    ensures |r| == |cols| && forall c :: 0 <= c < |r| ==> |r[c]| == |idx|
    ensures forall c, i :: 0 <= c < |r| && 0 <= i < |idx| ==> r[c][i] == cols[c][idx[i]]
  {
    seq(|cols|, c requires 0 <= c < |cols| => seq(|idx|, i requires 0 <= i < |idx| => cols[c][idx[i]]))
  }

  lemma SelectedRows(base: SortedTable, idx: seq<nat>)
    requires WellFormed(base) && Within(base.len, idx)
    ensures TableRows(SelectRows(base, idx)) == Picked(TableRows(base), idx)
  {
    var t, all := SelectRows(base, idx), TableRows(base);
    forall i | 0 <= i < |idx| ensures TableRows(t)[i] == all[idx[i]] {
      assert BatchMerging.Row(t.order, i) == BatchMerging.Row(base.order, idx[i]);
      assert BatchMerging.Row(t.cols, i) == BatchMerging.Row(base.cols, idx[i]);
    }
  }

  /** An answer for the first `n` rows answers a query for fewer. */
  lemma TopOfFewer<K, D>(lt: (K, K) -> bool, n: nat, m: nat, x: seq<Row<K, D>>, all: multiset<Row<K, D>>)
    requires m <= n && TopOf(lt, n, x, all)
    ensures TopOf(lt, m, x, all)
  {
  }

  /** `TopN` is used for one order-by column if far fewer rows are asked for than there are. */
  predicate UsesTopN(desc: seq<bool>, limit: nat, len: nat) {
    limit < len / 2 && |desc| == 1
  }

  /** `TopN` over a column that arrives in chunks. */
  method TopIndices(desc: bool, limit: nat, col: seq<int>, chunk: nat) returns (idx: Option<seq<nat>>)
    requires chunk > 0
    ensures idx.None? <==> limit == 0 && col != []
    ensures idx.Some? ==> TopN.Best(desc, limit, col, multiset(idx.value)) && TopN.InOrder(desc, col, idx.value)
  {
    var op := new TopN.Operator(limit, desc, !desc);
    var i: nat := 0;
    while i < |col|
      invariant i <= |col| && op.Valid() && fresh(op) && fresh(op.keys) && fresh(op.indices)
      invariant op.n == limit && op.desc == desc && op.lessThan == !desc && op.col == col[..i] && (i > 0 ==> limit > 0)
      decreases |col| - i
    {
      var j := Min(i + chunk, |col|);
      PrefixGrows(col, i, j);
      var ok := op.Execute(col[i..j]);
      if !ok {
        return None;
      }
      i := j;
    }
    Whole(col);
    var output := op.Finalize();
    idx := Some(output);
  }

  /** The rows of a partition: the buffers of its expressions, by their numbers those that are
      selected and those that the rows are ordered by, and the filter. */
  datatype Buffers = Buffers(columns: seq<seq<int>>, select: seq<nat>, order: seq<nat>, filter: Filter, len: nat)

  ghost predicate BuffersOk(b: Buffers) {
    && Filtering.Fits(b.filter, b.len)
    && (forall c :: 0 <= c < |b.columns| ==> |b.columns[c]| == b.len)
    && (forall k :: 0 <= k < |b.select| ==> b.select[k] < |b.columns|) && (forall k :: 0 <= k < |b.order| ==> b.order[k] < |b.columns|)
  }

  function Base(b: Buffers): (t: SortedTable)
    requires BuffersOk(b)
    ensures WellFormed(t) && t.len == b.len && |t.order| == |b.order|
  {
    SortedTable(Columns(b.columns, b.order), Columns(b.columns, b.select), b.len)
  }

  /** The rows that pass the filter. */
  function Kept(b: Buffers): (r: Buffers)
    requires BuffersOk(b)
    ensures BuffersOk(r) && r.select == b.select && r.order == b.order && r.len == |Passing(b.filter, b.len)|
  {
    var idx := Passing(b.filter, b.len);
    Buffers(SelectColumns(b.columns, b.len, idx), b.select, b.order, NoFilter, |idx|)
  }

  /** They are the rows of the partition of which the condition holds. */
  lemma KeptRows(b: Buffers)
    requires BuffersOk(b)
    ensures TableRows(Base(Kept(b))) == Picked(TableRows(Base(b)), Passing(b.filter, b.len))
  {
    KeptSelects(b, Ids(|Passing(b.filter, b.len)|), Passing(b.filter, b.len));
    SelectedAll(Base(Kept(b)));
    SelectedRows(Base(b), Passing(b.filter, b.len));
  }

  lemma SelectedAll(base: SortedTable)
    requires WellFormed(base)
    ensures SelectRows(base, Ids(base.len)) == base
  {
    SelectedIds(base.order, base.len);
    SelectedIds(base.cols, base.len);
  }

  lemma SelectedIds(cols: seq<seq<int>>, len: nat)
    requires forall c :: 0 <= c < |cols| ==> |cols[c]| == len
    ensures SelectColumns(cols, len, Ids(len)) == cols
  {
    forall c | 0 <= c < |cols| ensures SelectColumns(cols, len, Ids(len))[c] == cols[c] {
    }
  }

  /** Selecting among the rows kept is selecting among all rows by the indices of those kept. */
  lemma KeptSelects(b: Buffers, idx: seq<nat>, at: seq<nat>)
    requires BuffersOk(b) && Within(Kept(b).len, idx) && at == At(Passing(b.filter, b.len), idx)
    ensures Within(b.len, at) && SelectRows(Base(b), at) == SelectRows(Base(Kept(b)), idx)
  {
    var kept := Passing(b.filter, b.len);
    SelectedTwice(b.columns, b.order, b.len, kept, idx);
    SelectedTwice(b.columns, b.select, b.len, kept, idx);
  }

  lemma SelectedTwice(columns: seq<seq<int>>, ix: seq<nat>, len: nat, kept: seq<nat>, idx: seq<nat>)
    requires (forall c :: 0 <= c < |columns| ==> |columns[c]| == len) && forall k :: 0 <= k < |ix| ==> ix[k] < |columns|
    requires Within(len, kept) && Within(|kept|, idx)
    ensures Within(len, At(kept, idx))
    ensures SelectColumns(Columns(columns, ix), len, At(kept, idx)) ==
            SelectColumns(Columns(SelectColumns(columns, len, kept), ix), |kept|, idx)
  {
    var x, y := SelectColumns(Columns(columns, ix), len, At(kept, idx)), SelectColumns(Columns(SelectColumns(columns, len, kept), ix), |kept|, idx);
    forall k | 0 <= k < |ix| ensures x[k] == y[k] {
    }
  }

  /** The numbers that selected columns get by being collected. */
  ghost function ProjectionOf(select: seq<nat>, order: seq<nat>): (r: seq<nat>)
    ensures |r| == |select|
  {
    Collect(select + order).0[..|select|]
  }

  /** Those of order-by columns. */
  ghost function OrderByOf(select: seq<nat>, order: seq<nat>): (r: seq<nat>)
    ensures |r| == |order|
  {
    Collect(select + order).0[|select|..]
  }

  /** How many columns there are. */
  ghost function WidthOf(select: seq<nat>, order: seq<nat>): nat {
    |Collect(select + order).1|
  }

  ghost predicate LaidOut(t: SortedBatch, select: seq<nat>, order: seq<nat>) {
    HasLayout(t, ProjectionOf(select, order), OrderByOf(select, order), WidthOf(select, order))
  }

  /** Columns repeat as expressions do. */
  lemma LayoutAlike(select: seq<nat>, order: seq<nat>, k: nat, l: nat)
    requires k < |order| && l < |order|
    ensures OrderByOf(select, order)[k] == OrderByOf(select, order)[l] <==> order[k] == order[l]
  {
    var ids := select + order;
    var (ix, ds) := Collect(ids);
    assert ds[ix[|select| + k]] == ids[|select| + k] == order[k] && ds[ix[|select| + l]] == ids[|select| + l] == order[l];
  }

  /** The query does not order by its last expression before, and every expression that merging skips
      repeats an earlier one. */
  ghost predicate Orderable(select: seq<nat>, order: seq<nat>) {
    LastOnce(order) && forall j :: RefinedBy(|order|, WidthOf(select, order)) <= j < |order| - 1 ==> Repeats(order, j)
  }

  /** For an expression that is ordered by last only, that is what it takes for merging to skip nothing
      that matters. */
  lemma OrderableIff(desc: seq<bool>, select: seq<nat>, order: seq<nat>)
    requires LastOnce(order) && |desc| == |order|
    ensures LastOnce(OrderByOf(select, order))
    ensures Orderable(select, order) <==> Harmless(desc, OrderByOf(select, order), WidthOf(select, order))
  {
    var orderBy := OrderByOf(select, order);
    forall k, l | 0 <= k < |order| && 0 <= l < |order| ensures orderBy[k] == orderBy[l] <==> order[k] == order[l] {
      LayoutAlike(select, order, k, l);
    }
    forall j | 0 <= j < |order| ensures Repeats(orderBy, j) <==> Repeats(order, j) {
    }
  }

  /** Queries that order by different expressions are among them. */
  lemma DifferentOrderable(select: seq<nat>, order: seq<nat>)
    requires Different(order) && order != []
    ensures Orderable(select, order)
  {
    var ids := select + order;
    assert ids[|select|..|ids|] == order;
    EnoughColumns(ids, |select|, |ids|);
  }

  /** `SELECT a, b, c FROM t ORDER BY a, a, b, c` is not: merging skips `b`. */
  lemma RepetitionSkips()
    ensures LastOnce([0, 0, 1, 2]) && !Refuses(4, WidthOf(Ids(3), [0, 0, 1, 2])) && !Orderable(Ids(3), [0, 0, 1, 2])
  {
    CollectKnown(3, [0, 0, 1, 2]);
    assert RefinedBy(4, 3) == 2 && !Repeats([0, 0, 1, 2], 2);
  }

  lemma LayoutCanonical(select: seq<nat>, order: seq<nat>)
    ensures Canonical(ProjectionOf(select, order) + OrderByOf(select, order), WidthOf(select, order))
  {
    CollectCanonical(select + order);
    Rejoin(Collect(select + order).0, |select|);
  }

  /** The rows with the given indices, with their columns collected. */
  method CollectRows(b: Buffers, idx: seq<nat>) returns (t: SortedBatch)
    requires BuffersOk(b) && Within(b.len, idx)
    ensures LaidOut(t, b.select, b.order) && Table(t) == SelectRows(Base(b), idx)
  {
    var indices, buffers := CollectAliased(b.select + b.order);
    CollectedOk(b, indices, buffers);
    var columns := SelectColumns(Columns(b.columns, buffers), b.len, idx);
    t := SortedBatch(columns, indices[..|b.select|], indices[|b.select|..], |idx|);
    CollectedBatch(b, idx, indices, buffers, t);
  }

  lemma CollectedBatch(b: Buffers, idx: seq<nat>, indices: seq<nat>, buffers: seq<nat>, t: SortedBatch)
    requires BuffersOk(b) && Within(b.len, idx) && (indices, buffers) == Collect(b.select + b.order)
    requires forall d :: 0 <= d < |buffers| ==> buffers[d] < |b.columns|
    requires t == SortedBatch(SelectColumns(Columns(b.columns, buffers), b.len, idx), indices[..|b.select|], indices[|b.select|..], |idx|)
    ensures LaidOut(t, b.select, b.order) && Table(t) == SelectRows(Base(b), idx)
  {
    CollectedOk(b, indices, buffers);
    forall k | 0 <= k < |b.order| ensures t.orderBy[k] < |buffers| && buffers[t.orderBy[k]] == b.order[k] {
      assert t.orderBy[k] == indices[|b.select| + k];
    }
    assert BatchOk(t);
    CollectedTable(b, idx, buffers, t);
  }

  lemma CollectedOk(b: Buffers, indices: seq<nat>, buffers: seq<nat>)
    requires BuffersOk(b) && (indices, buffers) == Collect(b.select + b.order)
    ensures forall d :: 0 <= d < |buffers| ==> buffers[d] < |b.columns|
    ensures forall k :: 0 <= k < |b.select| ==> indices[k] < |buffers| && buffers[indices[k]] == b.select[k]
    ensures forall k :: 0 <= k < |b.order| ==> indices[|b.select| + k] < |buffers| && buffers[indices[|b.select| + k]] == b.order[k]
  {
    var ids := b.select + b.order;
    forall d: nat | d < |buffers| ensures buffers[d] < |b.columns| { var k := CollectedFrom(ids, d); }
    forall k | 0 <= k < |b.order| ensures indices[|b.select| + k] < |buffers| && buffers[indices[|b.select| + k]] == b.order[k] {
      assert ids[|b.select| + k] == b.order[k];
    }
  }

  lemma CollectedTable(b: Buffers, idx: seq<nat>, buffers: seq<nat>, t: SortedBatch)
    requires BuffersOk(b) && Within(b.len, idx) && BatchOk(t) && t.len == |idx|
    requires forall d :: 0 <= d < |buffers| ==> buffers[d] < |b.columns|
    requires t.columns == SelectColumns(Columns(b.columns, buffers), b.len, idx) && |t.projection| == |b.select| && |t.orderBy| == |b.order|
    requires forall k :: 0 <= k < |b.select| ==> t.projection[k] < |buffers| && buffers[t.projection[k]] == b.select[k]
    requires forall k :: 0 <= k < |b.order| ==> t.orderBy[k] < |buffers| && buffers[t.orderBy[k]] == b.order[k]
    ensures Table(t) == SelectRows(Base(b), idx)
  {
    assert Table(t).order == SelectRows(Base(b), idx).order;
    assert Table(t).cols == SelectRows(Base(b), idx).cols;
  }

  /** What sorting a partition returns: an answer for the rows that pass the filter. */
  ghost predicate SortResult(desc: seq<bool>, limit: nat, b: Buffers, t: SortedBatch) {
    BuffersOk(b) && PartSorted(desc, limit, t, TableRows(Base(Kept(b)))) && LaidOut(t, b.select, b.order)
  }

  /** The columns that the rows kept are ordered by. */
  method Rankings(b: Buffers) returns (r: seq<seq<int>>)
    requires BuffersOk(b)
    ensures r == Columns(Kept(b).columns, b.order)
  {
    r := FilterColumns(Columns(b.columns, b.order), b.len, b.filter);
    forall k | 0 <= k < |b.order| ensures r[k] == Columns(Kept(b).columns, b.order)[k] {
      assert r[k] == At(b.columns[b.order[k]], Passing(b.filter, b.len));
    }
  }

  /** The indices, among all rows, of rows kept. */
  method Original(b: Buffers, idx: seq<nat>) returns (at: seq<nat>)
    requires BuffersOk(b) && Within(Kept(b).len, idx)
    ensures at == At(Passing(b.filter, b.len), idx)
  {
    if b.filter == NoFilter {
      AllPass(b.len);
      at := idx;
    } else {
      var indices := FilterColumn(Ids(b.len), b.filter);
      at := At(indices, idx);
    }
  }

  /** The order-by part of `run`: sorts one partition.  It panics only if no rows are asked for, some
      row passes the filter, and the partition is sorted by `TopN`. */
  method SortPartition(desc: seq<bool>, limit: nat, b: Buffers, chunk: nat) returns (t: Option<SortedBatch>)
    requires BuffersOk(b) && |b.order| == |desc| > 0 && chunk > 0
    ensures t.None? <==> UsesTopN(desc, limit, b.len) && limit == 0 && Kept(b).len > 0
    ensures t.Some? ==> SortResult(desc, limit, b, t.value)
  {
    var idx;
    ghost var base := Base(Kept(b));
    ghost var all := TableRows(base);
    var rankings := Rankings(b);
    if limit < b.len / 2 && |desc| == 1 {
      var top := TopIndices(desc[0], limit, rankings[0], chunk);
      if top.None? {
        return None;
      }
      idx := top.value;
      assert desc == [desc[0]];
      TopNTopOf(desc[0], limit, rankings[0], all, idx);
    } else {
      idx := SortIndices(desc, rankings, OrderKeys(base));
      PassesTopOf(desc, limit, all, idx);
    }
    SelectedRows(base, idx);
    TopOfFewer(KeyOrder(desc), limit, Min(limit, U32_MAX), Picked(all, idx), multiset(all));
    var at := Original(b, idx);
    KeptSelects(b, idx, at);
    var result := CollectRows(b, at);
    t := Some(result);
  }

  // ---------------------------------------------------------------- aggregate queries

  /** Cuts rows into chunks. */
  method Chunks(rows: seq<Grouping.Row>, chunk: nat) returns (chunks: seq<seq<Grouping.Row>>)
    requires chunk > 0
    ensures Grouping.Flat(chunks, |chunks|) == rows
    ensures forall i, j :: 0 <= i < |chunks| && 0 <= j < |chunks[i]| ==> chunks[i][j] in rows
  {
    chunks := [];
    var i: nat := 0;
    while i < |rows|
      invariant i <= |rows| && Grouping.Flat(chunks, |chunks|) == rows[..i]
      invariant forall k, j :: 0 <= k < |chunks| && 0 <= j < |chunks[k]| ==> chunks[k][j] in rows
      decreases |rows| - i
    {
      var j := Min(i + chunk, |rows|);
      FlatSnoc(chunks, rows[i..j], |chunks|);
      PrefixGrows(rows, i, j);
      chunks := chunks + [rows[i..j]];
      i := j;
    }
    Whole(rows);
  }

  lemma {:induction false} FlatSnoc(chunks: seq<seq<Grouping.Row>>, c: seq<Grouping.Row>, n: nat)
    requires n <= |chunks|
    ensures Grouping.Flat(chunks + [c], n) == Grouping.Flat(chunks, n)
    ensures n == |chunks| ==> Grouping.Flat(chunks + [c], n + 1) == Grouping.Flat(chunks, n) + c
  {
    if n > 0 {
      FlatSnoc(chunks, c, n - 1);
    }
  }

  /** The largest key for which accumulators are indexed by the key itself. */
  const DENSE_LIMIT: nat := 0x1_0000

  /** One aggregate of one partition, on the dense path or the hash path. */
  method GroupColumn(op: Aggregator, nullable: bool, rows: seq<Grouping.Row>, maxKey: nat, chunk: nat)
    returns (ok: bool, keys: seq<nat>, vals: seq<int>)
    requires Grouping.RowsOk(op, rows) && chunk > 0 && (!nullable ==> Grouping.AllPresent(rows))
    requires forall i :: 0 <= i < |rows| ==> rows[i].key <= maxKey
    ensures ok <==> Grouping.NoOverflow(op, rows)
    ensures ok ==> Grouping.GroupsRows(op, rows, keys, vals)
  {
    var chunks := Chunks(rows, chunk);
    if maxKey < DENSE_LIMIT {
      ok, keys, vals := Grouping.GroupDense(op, nullable, chunks, maxKey);
    } else {
      ok, keys, vals := Grouping.GroupHash(op, chunks);
    }
  }

  /** The rows of a partition: the values of the group-by columns, and for every aggregate the
      aggregated column and whether it is nullable. */
  datatype Input = Input(tuples: seq<BitPacking.Tuple>, cols: seq<seq<Option<int>>>, nullable: seq<bool>)

  ghost predicate ColumnOk(op: Aggregator, len: nat, col: seq<Option<int>>, nullable: bool) {
    && IntegerAggregator(op) && |col| == len
    && forall i :: 0 <= i < |col| ==> (col[i].Some? ==> InI64(col[i].value)) && (!nullable ==> col[i].Some?)
  }

  ghost predicate InputOk(fs: seq<BitPacking.Field>, aggregators: seq<Aggregator>, input: Input) {
    && |input.cols| == |input.nullable| == |aggregators| > 0
    && (forall m :: 0 <= m < |aggregators| ==> ColumnOk(aggregators[m], |input.tuples|, input.cols[m], input.nullable[m]))
    && TuplesOk(fs, input.tuples)
  }

  /** The values of the group-by columns are in range, and fusing nulls keeps them apart. */
  ghost predicate TuplesOk(fs: seq<BitPacking.Field>, tuples: seq<BitPacking.Tuple>) {
    AllInRange(fs, tuples) && forall i, j :: 0 <= i < |tuples| && 0 <= j < |tuples| ==> Fusable(tuples[i], tuples[j])
  }

  ghost predicate AllInRange(fs: seq<BitPacking.Field>, tuples: seq<BitPacking.Tuple>) {
    forall i :: 0 <= i < |tuples| ==> BitPacking.RowInRange(fs, tuples[i])
  }

  /** The plan and the unpackings that `TryBitpacking` yields. */
  ghost predicate PackingOk(fs: seq<BitPacking.Field>, p: BitPacking.Packing) {
    && BitPacking.FieldsOk(fs) && BitPacking.FieldsFit(fs) && BitPacking.Width(fs) <= 63
    && BitPacking.Computes(fs, p.plan, 0) && p.largestKey == BitPacking.Largest(fs) && BitPacking.UnpacksAll(fs, p.unpacks)
  }

  /** What row `i` contributes to aggregate `op`, by tuple. */
  ghost function TupleRows(op: Aggregator, tuples: seq<BitPacking.Tuple>, col: seq<Option<int>>): (g: seq<Group<Key>>)
    requires |tuples| == |col|
    ensures |g| == |tuples|
    ensures forall i :: 0 <= i < |g| ==> g[i] == Group(Fused(tuples[i]), Grouping.Contribution(op, Grouping.Row(0, col[i])).val)
  {
    seq(|tuples|, i requires 0 <= i < |tuples| => Group(Fused(tuples[i]), Grouping.Contribution(op, Grouping.Row(0, col[i])).val))
  }

  /** The rows with their packed keys. */
  ghost predicate Packs(fs: seq<BitPacking.Field>, p: BitPacking.Packing, tuples: seq<BitPacking.Tuple>, col: seq<Option<int>>, rows: seq<Grouping.Row>)
    requires PackingOk(fs, p) && |col| == |tuples| && AllInRange(fs, tuples)
  {
    |rows| == |tuples| && forall i :: 0 <= i < |rows| ==> rows[i] == Grouping.Row(PackedKey(fs, p, tuples[i]), col[i])
  }

  function PackedKey(fs: seq<BitPacking.Field>, p: BitPacking.Packing, tuple: BitPacking.Tuple): (k: nat)
    requires PackingOk(fs, p) && BitPacking.RowInRange(fs, tuple)
    ensures k <= p.largestKey
  {
    BitPacking.GroupingKey(fs, p, tuple, tuple);
    BitPacking.Eval(fs, tuple, p.plan)
  }

  method PackRows(fs: seq<BitPacking.Field>, p: BitPacking.Packing, tuples: seq<BitPacking.Tuple>, col: seq<Option<int>>)
    returns (rows: seq<Grouping.Row>)
    requires PackingOk(fs, p) && |col| == |tuples| && AllInRange(fs, tuples)
    ensures Packs(fs, p, tuples, col, rows)
  {
    rows := [];
    for i := 0 to |tuples|
      invariant |rows| == i && forall k :: 0 <= k < i ==> rows[k] == Grouping.Row(PackedKey(fs, p, tuples[k]), col[k])
    {
      rows := rows + [Grouping.Row(PackedKey(fs, p, tuples[i]), col[i])];
    }
  }

  /** A column of the result, unpacked from the keys of the groups, with null fused. */
  function UnpackColumn(f: BitPacking.Field, u: BitPacking.Unpack, keys: seq<nat>): (r: seq<int>)
    requires BitPacking.FieldOk(f)
    ensures |r| == |keys| && forall i :: 0 <= i < |r| ==> r[i] == Fuse(BitPacking.Decode(f, BitPacking.BitUnpack(keys[i], u.shift, u.width)))
  {
    seq(|keys|, i requires 0 <= i < |keys| => Fuse(BitPacking.Decode(f, BitPacking.BitUnpack(keys[i], u.shift, u.width))))
  }

  function UnpackColumns(fs: seq<BitPacking.Field>, us: seq<BitPacking.Unpack>, keys: seq<nat>): (r: seq<seq<int>>)
    requires BitPacking.FieldsOk(fs) && |us| == |fs|
    ensures |r| == |fs| && forall c :: 0 <= c < |r| ==> r[c] == UnpackColumn(fs[c], us[c], keys)
  {
    seq(|fs|, c requires 0 <= c < |fs| => UnpackColumn(fs[c], us[c], keys))
  }

  /** A packed key unpacks to the tuple it was packed from. */
  lemma UnpackedTuple(fs: seq<BitPacking.Field>, p: BitPacking.Packing, keys: seq<nat>, i: nat, tuple: BitPacking.Tuple)
    requires PackingOk(fs, p) && i < |keys| && BitPacking.RowInRange(fs, tuple) && keys[i] == PackedKey(fs, p, tuple)
    ensures BatchMerging.Row(UnpackColumns(fs, p.unpacks, keys), i) == Fused(tuple)
  {
    BitPacking.GroupingKey(fs, p, tuple, tuple);
    var cols := UnpackColumns(fs, p.unpacks, keys);
    forall c | 0 <= c < |fs| ensures cols[c][i] == Fuse(tuple[c]) {
    }
  }

  /** The keys of a grouping occur in the rows. */
  lemma KeyOccurs(op: Aggregator, rows: seq<Grouping.Row>, keys: seq<nat>, vals: seq<int>, i: nat) returns (j: nat)
    requires Grouping.GroupsRows(op, rows, keys, vals) && i < |keys|
    ensures j < |rows| && rows[j].key == keys[i]
  {
    var g := BatchMerging.Zip(keys, vals);
    LookupFound(g, i);
    assert Lookup(g, keys[i]) == Total(op, Grouping.Contributions(op, rows), keys[i]);
    Grouping.TotalOccurs(op, rows, keys[i]);
    j :| 0 <= j < |rows| && rows[j].key == keys[i];
  }

  lemma {:induction false} LookupFound<K(!new)>(g: seq<Group<K>>, i: nat)
    requires i < |g|
    ensures Lookup(g, g[i].key).Some?
  {
    if g[0].key != g[i].key {
      LookupFound(g[1..], i - 1);
    }
  }

  lemma {:induction false} Origins(op: Aggregator, rows: seq<Grouping.Row>, keys: seq<nat>, vals: seq<int>, n: nat) returns (of: seq<nat>)
    requires Grouping.GroupsRows(op, rows, keys, vals) && n <= |keys|
    ensures |of| == n && forall i :: 0 <= i < n ==> of[i] < |rows| && rows[of[i]].key == keys[i]
  {
    if n == 0 {
      of := [];
    } else {
      var k: nat := n - 1;
      var before := Origins(op, rows, keys, vals, k);
      var j := KeyOccurs(op, rows, keys, vals, k);
      of := before + [j];
      forall i: nat | i < n ensures of[i] < |rows| && rows[of[i]].key == keys[i] {
        assert of[i] == if i < k then before[i] else j;
      }
    }
  }

  ghost function KeyedRows(op: Aggregator, tuples: seq<BitPacking.Tuple>, rows: seq<Grouping.Row>): (k: seq<Keyed>)
    requires |tuples| == |rows|
    ensures |k| == |rows|
    ensures forall i :: 0 <= i < |k| ==> k[i] == Keyed(rows[i].key, Fused(tuples[i]), Grouping.Contribution(op, rows[i]).val)
  {
    seq(|rows|, i requires 0 <= i < |rows| => Keyed(rows[i].key, Fused(tuples[i]), Grouping.Contribution(op, rows[i]).val))
  }

  /** Packed keys and tuples order the rows alike. */
  lemma KeyedAlike(fs: seq<BitPacking.Field>, p: BitPacking.Packing, op: Aggregator, tuples: seq<BitPacking.Tuple>, col: seq<Option<int>>, rows: seq<Grouping.Row>)
    requires PackingOk(fs, p) && |col| == |tuples| && TuplesOk(fs, tuples) && Packs(fs, p, tuples, col, rows)
    ensures OrderedAlike(KeyedRows(op, tuples, rows))
  {
    PackedAlike(fs, p, tuples, KeyedRows(op, tuples, rows));
  }

  lemma KeyedContributions(op: Aggregator, tuples: seq<BitPacking.Tuple>, col: seq<Option<int>>, rows: seq<Grouping.Row>)
    requires |tuples| == |rows| == |col| && forall i :: 0 <= i < |rows| ==> rows[i].val == col[i]
    ensures ByPacked(KeyedRows(op, tuples, rows)) == Grouping.Contributions(op, rows)
    ensures ByTuple(KeyedRows(op, tuples, rows)) == TupleRows(op, tuples, col)
  {
    var keyed, g := KeyedRows(op, tuples, rows), TupleRows(op, tuples, col);
    forall i | 0 <= i < |rows| ensures ByTuple(keyed)[i] == g[i] {
      assert Grouping.Contribution(op, rows[i]).val == Grouping.Contribution(op, Grouping.Row(0, col[i])).val;
    }
  }

  /** The groups of the table are those of the packed keys, unpacked. */
  lemma TableUnpacked(fs: seq<BitPacking.Field>, p: BitPacking.Packing, op: Aggregator, tuples: seq<BitPacking.Tuple>, col: seq<Option<int>>,
                      rows: seq<Grouping.Row>, keys: seq<nat>, t: BatchMerging.GroupTable, m: nat, of: seq<nat>)
    requires PackingOk(fs, p) && |col| == |tuples| && AllInRange(fs, tuples) && Packs(fs, p, tuples, col, rows)
    requires BatchMerging.WellFormed(t) && m < |t.aggs| && t.len == |keys| && t.keys == UnpackColumns(fs, p.unpacks, keys)
    requires |of| == |keys| && forall i :: 0 <= i < |keys| ==> of[i] < |rows| && rows[of[i]].key == keys[i]
    ensures Unpacked(KeyedRows(op, tuples, rows), BatchMerging.Zip(keys, t.aggs[m]), BatchMerging.Groups(t, m), of)
  {
    var keyed, g, h := KeyedRows(op, tuples, rows), BatchMerging.Zip(keys, t.aggs[m]), BatchMerging.Groups(t, m);
    forall i | 0 <= i < |g| ensures of[i] < |keyed| && g[i].key == keyed[of[i]].packed && h[i] == Group(keyed[of[i]].tuple, g[i].val) {
      GroupOfRow(fs, p, tuples, col, rows, keys, t, m, i, of[i]);
    }
  }

  lemma GroupOfRow(fs: seq<BitPacking.Field>, p: BitPacking.Packing, tuples: seq<BitPacking.Tuple>, col: seq<Option<int>>,
                   rows: seq<Grouping.Row>, keys: seq<nat>, t: BatchMerging.GroupTable, m: nat, i: nat, j: nat)
    requires PackingOk(fs, p) && |col| == |tuples| && AllInRange(fs, tuples) && Packs(fs, p, tuples, col, rows)
    requires BatchMerging.WellFormed(t) && m < |t.aggs| && t.len == |keys| && t.keys == UnpackColumns(fs, p.unpacks, keys)
    requires i < |keys| && j < |rows| && rows[j].key == keys[i]
    ensures BatchMerging.Groups(t, m)[i] == Group(Fused(tuples[j]), t.aggs[m][i])
  {
    UnpackedTuple(fs, p, keys, i, tuples[j]);
    assert BatchMerging.Rows(t.keys, t.len)[i] == BatchMerging.Row(t.keys, i);
    var h := BatchMerging.Groups(t, m);
    assert Keys(h)[i] == h[i].key && Values(h)[i] == h[i].val;
  }

  /** Grouping by packed keys and unpacking the keys groups the rows by their tuples. */
  lemma ColumnGroups(fs: seq<BitPacking.Field>, p: BitPacking.Packing, op: Aggregator, tuples: seq<BitPacking.Tuple>, col: seq<Option<int>>,
                     rows: seq<Grouping.Row>, keys: seq<nat>, t: BatchMerging.GroupTable, m: nat)
    requires PackingOk(fs, p) && |col| == |tuples| && TuplesOk(fs, tuples) && Packs(fs, p, tuples, col, rows)
    requires BatchMerging.WellFormed(t) && m < |t.aggs| && t.len == |keys| && t.keys == UnpackColumns(fs, p.unpacks, keys)
    requires Grouping.GroupsRows(op, rows, keys, t.aggs[m])
    ensures PartGroups(op, m, t, TupleRows(op, tuples, col))
  {
    var keyed := KeyedRows(op, tuples, rows);
    var of := Origins(op, rows, keys, t.aggs[m], |keys|);
    TableUnpacked(fs, p, op, tuples, col, rows, keys, t, m, of);
    KeyedAlike(fs, p, op, tuples, col, rows);
    KeyedContributions(op, tuples, col, rows);
    UnpackedIsGroupBy(op, keyed, BatchMerging.Zip(keys, t.aggs[m]), BatchMerging.Groups(t, m), of);
  }

  ghost predicate Increasing(s: seq<nat>) {
    forall i, j :: 0 <= i < j < |s| ==> s[i] < s[j]
  }

  lemma WithoutLast(x: seq<nat>, k: nat)
    requires Increasing(x) && x != []
    ensures k in x[..|x| - 1] <==> k in x && k != x[|x| - 1]
  {
  }

  lemma LargestLast(x: seq<nat>, y: seq<nat>)
    requires Increasing(y) && x != [] && y != [] && forall k :: k in x ==> k in y
    ensures x[|x| - 1] <= y[|y| - 1]
  {
    assert x[|x| - 1] in y;
  }

  /** Increasing lists of the same numbers are the same. */
  lemma {:induction false} SameIncreasing(x: seq<nat>, y: seq<nat>)
    requires Increasing(x) && Increasing(y) && forall k :: k in x <==> k in y
    ensures x == y
  {
    assert (x != [] ==> x[0] in x) && (y != [] ==> y[0] in y);
    if x != [] && y != [] {
      var a, b := x[|x| - 1], y[|y| - 1];
      LargestLast(x, y);
      LargestLast(y, x);
      var u, v := x[..|x| - 1], y[..|y| - 1];
      forall k ensures k in u <==> k in v {
        WithoutLast(x, k);
        WithoutLast(y, k);
      }
      SameIncreasing(u, v);
      assert x == u + [a] && y == v + [b];
    }
  }

  /** Two aggregates over rows with the same keys have the same groups. */
  lemma SameKeys(op: Aggregator, rows: seq<Grouping.Row>, keys: seq<nat>, vals: seq<int>,
                 op': Aggregator, rows': seq<Grouping.Row>, keys': seq<nat>, vals': seq<int>)
    requires Grouping.GroupsRows(op, rows, keys, vals) && Grouping.GroupsRows(op', rows', keys', vals')
    requires |rows| == |rows'| && forall i :: 0 <= i < |rows| ==> rows[i].key == rows'[i].key
    ensures keys == keys'
  {
    KeysIncrease(op, rows, keys, vals);
    KeysIncrease(op', rows', keys', vals');
    forall k ensures k in keys <==> k in keys' {
      KeysOccur(op, rows, keys, vals, k);
      KeysOccur(op', rows', keys', vals', k);
      if Grouping.Occurs(rows, k) { var i :| 0 <= i < |rows| && rows[i].key == k; assert rows'[i].key == k; }
      if Grouping.Occurs(rows', k) { var i :| 0 <= i < |rows'| && rows'[i].key == k; assert rows[i].key == k; }
    }
    SameIncreasing(keys, keys');
  }

  lemma KeysIncrease(op: Aggregator, rows: seq<Grouping.Row>, keys: seq<nat>, vals: seq<int>)
    requires Grouping.GroupsRows(op, rows, keys, vals)
    ensures Increasing(keys)
  {
    var g := BatchMerging.Zip(keys, vals);
    assert forall i :: 0 <= i < |keys| ==> g[i].key == keys[i];
  }

  lemma KeysOccur(op: Aggregator, rows: seq<Grouping.Row>, keys: seq<nat>, vals: seq<int>, k: nat)
    requires Grouping.GroupsRows(op, rows, keys, vals)
    ensures k in keys <==> Grouping.Occurs(rows, k)
  {
    var g := BatchMerging.Zip(keys, vals);
    Grouping.TotalOccurs(op, rows, k);
    assert Lookup(g, k) == Total(op, Grouping.Contributions(op, rows), k);
    if k in keys {
      var i :| 0 <= i < |keys| && keys[i] == k;
      LookupFound(g, i);
    } else {
      LookupAbsent(g, k);
    }
  }

  /** Aggregate `m` of the partition overflows. */
  ghost predicate Overflows(fs: seq<BitPacking.Field>, p: BitPacking.Packing, aggregators: seq<Aggregator>, input: Input, m: nat)
    requires PackingOk(fs, p) && InputOk(fs, aggregators, input) && m < |aggregators|
  {
    exists rows :: Packs(fs, p, input.tuples, input.cols[m], rows) && !Grouping.NoOverflow(aggregators[m], rows)
  }

  /** The table groups the rows of the partition by their tuples, with every aggregate. */
  ghost predicate GroupResult(aggregators: seq<Aggregator>, n: nat, input: Input, t: BatchMerging.GroupTable) {
    && |t.keys| == n && BatchMerging.WellFormed(t) && |t.aggs| == |aggregators| == |input.cols|
    && forall m: nat :: m < |aggregators| ==> GroupResultAt(aggregators[m], input.tuples, input.cols[m], t, m)
  }

  ghost predicate GroupResultAt(op: Aggregator, tuples: seq<BitPacking.Tuple>, col: seq<Option<int>>, t: BatchMerging.GroupTable, m: nat)
    requires BatchMerging.WellFormed(t) && m < |t.aggs|
  {
    |tuples| == |col| && PartGroups(op, m, t, TupleRows(op, tuples, col))
  }

  /** The columns of a partition with the filter of the query, which all of them go through. */
  datatype Filtered = Filtered(all: Input, filter: Filter)

  /** The rows that pass the filter. */
  function KeptInput(x: Filtered): (r: Input)
    requires forall m :: 0 <= m < |x.all.cols| ==> |x.all.cols[m]| == |x.all.tuples|
    ensures |r.cols| == |x.all.cols| && forall m :: 0 <= m < |r.cols| ==> |r.cols[m]| == |r.tuples|
  {
    var cols, idx := x.all.cols, Passing(x.filter, |x.all.tuples|);
    Input(At(x.all.tuples, idx), seq(|cols|, m requires 0 <= m < |cols| => At(cols[m], idx)), x.all.nullable)
  }

  ghost predicate FilteredOk(fs: seq<BitPacking.Field>, aggregators: seq<Aggregator>, x: Filtered) {
    && (forall m :: 0 <= m < |x.all.cols| ==> |x.all.cols[m]| == |x.all.tuples|)
    && Filtering.Fits(x.filter, |x.all.tuples|) && InputOk(fs, aggregators, KeptInput(x))
  }

  /** `run_aggregate`: filters one partition and groups it.  It fails exactly if a sum overflows. */
  method GroupPartition(fs: seq<BitPacking.Field>, p: BitPacking.Packing, aggregators: seq<Aggregator>, x: Filtered, chunk: nat)
    returns (r: Result<BatchMerging.GroupTable>)
    requires PackingOk(fs, p) && FilteredOk(fs, aggregators, x) && chunk > 0
    ensures r.Err? <==> exists m: nat :: m < |aggregators| && Overflows(fs, p, aggregators, KeptInput(x), m)
    ensures r.Ok? ==> GroupResult(aggregators, |fs|, KeptInput(x), r.value)
  {
    var tuples := FilterColumn(x.all.tuples, x.filter);
    var cols := FilterColumns(x.all.cols, |x.all.tuples|, x.filter);
    var input := Input(tuples, cols, x.all.nullable);
    assert input == KeptInput(x);
    r := GroupRows(fs, p, aggregators, input, chunk);
  }

  /** Groups the rows that are left. */
  method GroupRows(fs: seq<BitPacking.Field>, p: BitPacking.Packing, aggregators: seq<Aggregator>, input: Input, chunk: nat)
    returns (r: Result<BatchMerging.GroupTable>)
    requires PackingOk(fs, p) && InputOk(fs, aggregators, input) && chunk > 0
    ensures r.Err? <==> exists m: nat :: m < |aggregators| && Overflows(fs, p, aggregators, input, m)
    ensures r.Ok? ==> GroupResult(aggregators, |fs|, input, r.value)
  {
    var keys: seq<nat>, aggs: seq<seq<int>> := [], [];
    ghost var packed: seq<seq<Grouping.Row>> := [];
    var maxKey := LargestKey(fs, p);
    for m := 0 to |aggregators|
      invariant AllAggregated(fs, p, aggregators, input, packed, keys, aggs, m)
    {
      var ok, ks, vs, rows := GroupAggregate(fs, p, aggregators, input, m, maxKey, chunk);
      if !ok {
        return Err(Overflow);
      }
      AggregatedNext(fs, p, aggregators, input, packed, keys, aggs, m, rows, ks, vs);
      keys, aggs, packed := ks, aggs + [vs], packed + [rows];
    }
    var t := BatchMerging.GroupTable(UnpackColumns(fs, p.unpacks, keys), aggs, |keys|);
    AllGroups(fs, p, aggregators, input, packed, keys, t);
    r := Ok(t);
  }

  lemma AllGroups(fs: seq<BitPacking.Field>, p: BitPacking.Packing, aggregators: seq<Aggregator>, input: Input,
                  packed: seq<seq<Grouping.Row>>, keys: seq<nat>, t: BatchMerging.GroupTable)
    requires PackingOk(fs, p) && InputOk(fs, aggregators, input)
    requires AllAggregated(fs, p, aggregators, input, packed, keys, t.aggs, |aggregators|)
    requires t.len == |keys| && t.keys == UnpackColumns(fs, p.unpacks, keys)
    ensures GroupResult(aggregators, |fs|, input, t) && forall m: nat :: m < |aggregators| ==> !Overflows(fs, p, aggregators, input, m)
  {
    assert BatchMerging.WellFormed(t) by {
      forall m | 0 <= m < |t.aggs| ensures |t.aggs[m]| == t.len { assert Aggregated(fs, p, aggregators, input, m, packed[m], keys, t.aggs[m]); }
    }
    forall m: nat | m < |aggregators|
      ensures GroupResultAt(aggregators[m], input.tuples, input.cols[m], t, m) && !Overflows(fs, p, aggregators, input, m)
    {
      TableGroups(fs, p, aggregators, input, m, packed[m], keys, t);
    }
  }

  method LargestKey(fs: seq<BitPacking.Field>, p: BitPacking.Packing) returns (k: nat)
    requires PackingOk(fs, p)
    ensures k == p.largestKey
  {
    BitPacking.KeyBounds(fs, BitPacking.Lowest(fs));
    k := p.largestKey;
  }

  /** `rows` are the packed rows for aggregate `m`, and `keys` and `vals` its groups. */
  ghost predicate Aggregated(fs: seq<BitPacking.Field>, p: BitPacking.Packing, aggregators: seq<Aggregator>, input: Input, m: nat,
                             rows: seq<Grouping.Row>, keys: seq<nat>, vals: seq<int>)
    requires PackingOk(fs, p) && InputOk(fs, aggregators, input) && m < |aggregators|
  {
    && Packs(fs, p, input.tuples, input.cols[m], rows) && Grouping.NoOverflow(aggregators[m], rows)
    && Grouping.GroupsRows(aggregators[m], rows, keys, vals)
  }

  method GroupAggregate(fs: seq<BitPacking.Field>, p: BitPacking.Packing, aggregators: seq<Aggregator>, input: Input, m: nat, maxKey: nat, chunk: nat)
    returns (ok: bool, keys: seq<nat>, vals: seq<int>, ghost packed: seq<Grouping.Row>)
    requires PackingOk(fs, p) && InputOk(fs, aggregators, input) && m < |aggregators| && chunk > 0 && maxKey == p.largestKey
    ensures ok <==> !Overflows(fs, p, aggregators, input, m)
    ensures ok ==> Aggregated(fs, p, aggregators, input, m, packed, keys, vals)
  {
    assert ColumnOk(aggregators[m], |input.tuples|, input.cols[m], input.nullable[m]);
    var rows := PackRows(fs, p, input.tuples, input.cols[m]);
    ok, keys, vals := GroupColumn(aggregators[m], input.nullable[m], rows, maxKey, chunk);
    packed := rows;
    PacksOnce(fs, p, input.tuples, input.cols[m], rows);
  }

  /** There is only one way to pack the rows. */
  lemma PacksOnce(fs: seq<BitPacking.Field>, p: BitPacking.Packing, tuples: seq<BitPacking.Tuple>, col: seq<Option<int>>, rows: seq<Grouping.Row>)
    requires PackingOk(fs, p) && |col| == |tuples| && AllInRange(fs, tuples) && Packs(fs, p, tuples, col, rows)
    ensures forall rows' :: Packs(fs, p, tuples, col, rows') ==> rows' == rows
  {
  }

  /** The first `m` aggregates have the groups with the packed keys `keys`. */
  ghost predicate AllAggregated(fs: seq<BitPacking.Field>, p: BitPacking.Packing, aggregators: seq<Aggregator>, input: Input,
                                packed: seq<seq<Grouping.Row>>, keys: seq<nat>, aggs: seq<seq<int>>, m: nat)
    requires PackingOk(fs, p) && InputOk(fs, aggregators, input) && m <= |aggregators|
  {
    |aggs| == |packed| == m && forall j :: 0 <= j < m ==> Aggregated(fs, p, aggregators, input, j, packed[j], keys, aggs[j])
  }

  lemma AggregatedNext(fs: seq<BitPacking.Field>, p: BitPacking.Packing, aggregators: seq<Aggregator>, input: Input,
                       packed: seq<seq<Grouping.Row>>, keys: seq<nat>, aggs: seq<seq<int>>, m: nat,
                       rows: seq<Grouping.Row>, keys': seq<nat>, vals: seq<int>)
    requires PackingOk(fs, p) && InputOk(fs, aggregators, input) && m < |aggregators|
    requires AllAggregated(fs, p, aggregators, input, packed, keys, aggs, m) && Aggregated(fs, p, aggregators, input, m, rows, keys', vals)
    ensures AllAggregated(fs, p, aggregators, input, packed + [rows], keys', aggs + [vals], m + 1)
  {
    if m > 0 { PackedAgain(fs, p, aggregators, input, packed[0], keys, aggs[0], m, rows, keys', vals); }
  }

  lemma PackedAgain(fs: seq<BitPacking.Field>, p: BitPacking.Packing, aggregators: seq<Aggregator>, input: Input,
                    rows: seq<Grouping.Row>, keys: seq<nat>, vals: seq<int>, m: nat, rows': seq<Grouping.Row>, keys': seq<nat>, vals': seq<int>)
    requires PackingOk(fs, p) && InputOk(fs, aggregators, input) && m < |aggregators|
    requires Aggregated(fs, p, aggregators, input, 0, rows, keys, vals) && Aggregated(fs, p, aggregators, input, m, rows', keys', vals')
    ensures keys == keys'
  {
    SameKeys(aggregators[0], rows, keys, vals, aggregators[m], rows', keys', vals');
  }

  lemma TableGroups(fs: seq<BitPacking.Field>, p: BitPacking.Packing, aggregators: seq<Aggregator>, input: Input, m: nat,
                    rows: seq<Grouping.Row>, keys: seq<nat>, t: BatchMerging.GroupTable)
    requires PackingOk(fs, p) && InputOk(fs, aggregators, input) && m < |aggregators|
    requires BatchMerging.WellFormed(t) && m < |t.aggs| && t.len == |keys| && t.keys == UnpackColumns(fs, p.unpacks, keys)
    requires Aggregated(fs, p, aggregators, input, m, rows, keys, t.aggs[m])
    ensures GroupResultAt(aggregators[m], input.tuples, input.cols[m], t, m) && !Overflows(fs, p, aggregators, input, m)
  {
    ColumnGroups(fs, p, aggregators[m], input.tuples, input.cols[m], rows, keys, t, m);
    PacksOnce(fs, p, input.tuples, input.cols[m], rows);
  }
}
