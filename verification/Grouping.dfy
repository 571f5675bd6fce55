/** Grouping and aggregation within a partition.  With few possible keys the accumulators are
    indexed by the key itself; otherwise a hash map numbers the keys in order of appearance, and
    the result is sorted.  Both yield the same groups. */
module Grouping {
  import opened Types
  import opened GroupMerge
  import opened GroupBy
  import opened Seqs
  import opened Indices
  import IntegerColumn
  import opened Order
  import opened MergeTree
  import PartitionSort
  import BatchMerging

  /** A row: its grouping key and the aggregated value, which may be null. */
  datatype Row = Row(key: nat, val: Option<int>)

  /** `Aggregator::unit`. */
  function Unit(op: Aggregator): int {
    match op
    case MaxI64 => I64_MIN
    case MinI64 => I64_MAX
    case _ => 0
  }

  /** `Aggregator::accumulate`, for a value that is present. */
  function Accumulate(op: Aggregator, acc: int, v: int): int {
    match op
    case Count => acc + 1
    case SumI64 => acc + v
    case MaxI64 => if acc < v then v else acc
    case MinI64 => if acc < v then acc else v
    case _ => 0
  }

  /** What a row contributes to its group: a null contributes nothing. */
  ghost function Contribution(op: Aggregator, r: Row): Group<nat> {
    Group(r.key, if r.val.None? then Unit(op) else if op == Count then 1 else r.val.value)
  }

  ghost function Contributions(op: Aggregator, rows: seq<Row>): (c: seq<Group<nat>>)
    ensures |c| == |rows| && forall i :: 0 <= i < |rows| ==> c[i] == Contribution(op, rows[i])
  {
    seq(|rows|, i requires 0 <= i < |rows| => Contribution(op, rows[i]))
  }

  /** Values are 64-bit integers, and the aggregate is an integer one. */
  ghost predicate RowsOk(op: Aggregator, rows: seq<Row>) {
    IntegerAggregator(op) && forall i :: 0 <= i < |rows| && rows[i].val.Some? ==> InI64(rows[i].val.value)
  }

  /** The aggregate of group `k`, or the unit if there is no such group. */
  ghost function Acc(op: Aggregator, rows: seq<Row>, k: nat): int {
    var t := Total(op, Contributions(op, rows), k);
    if t.Some? then t.value else Unit(op)
  }

  ghost predicate Occurs(rows: seq<Row>, k: nat) {
    exists i :: 0 <= i < |rows| && rows[i].key == k
  }

  lemma {:induction false} TotalOccurs(op: Aggregator, rows: seq<Row>, k: nat)
    ensures Total(op, Contributions(op, rows), k).Some? <==> Occurs(rows, k)
  {
    if rows != [] {
      var c := Contributions(op, rows);
      assert c[1..] == Contributions(op, rows[1..]);
      TotalOccurs(op, rows[1..], k);
      if Occurs(rows, k) {
        var i :| 0 <= i < |rows| && rows[i].key == k;
        if i > 0 { assert rows[1..][i - 1].key == k; }
      }
      if i :| 0 <= i < |rows[1..]| && rows[1..][i].key == k { assert rows[i + 1].key == k; }
    }
  }

  /** Every aggregate stays within what is aggregated, so the units change nothing. */
  ghost predicate UnitFits(op: Aggregator, x: int) {
    (op == MaxI64 ==> x >= I64_MIN) && (op == MinI64 ==> x <= I64_MAX)
  }

  lemma {:induction false} TotalFits(op: Aggregator, rows: seq<Row>, k: nat)
    requires RowsOk(op, rows)
    ensures UnitFits(op, Acc(op, rows, k))
  {
    if rows != [] {
      var c := Contributions(op, rows);
      assert c[1..] == Contributions(op, rows[1..]);
      TotalFits(op, rows[1..], k);
    }
  }

  /** One more row. */
  lemma AccSnoc(op: Aggregator, rows: seq<Row>, r: Row, k: nat)
    requires RowsOk(op, rows + [r])
    ensures Acc(op, rows + [r], k) ==
            if r.key != k || r.val.None? then Acc(op, rows, k) else Accumulate(op, Acc(op, rows, k), r.val.value)
  {
    assert (rows + [r])[..|rows|] == rows;
    assert RowsOk(op, rows) by { assert forall i :: 0 <= i < |rows| ==> (rows + [r])[i] == rows[i]; }
    assert r == (rows + [r])[|rows|];
    TotalFits(op, rows, k);
    assert Contributions(op, rows + [r]) == Contributions(op, rows) + [Contribution(op, r)];
    TotalAppend(op, Contributions(op, rows), [Contribution(op, r)], k);
    assert [Contribution(op, r)][1..] == [];
  }

  // ---------------------------------------------------------------- accumulating

  /** The sum of the group of row `n - 1` up to that row fits 64 bits. */
  ghost predicate SumFits(op: Aggregator, rows: seq<Row>, n: nat)
    requires 0 < n <= |rows|
  {
    op == SumI64 ==> InI64(Acc(op, rows[..n], rows[n - 1].key))
  }

  /** No prefix of a group has a sum that leaves the 64-bit range. */
  ghost predicate NoOverflow(op: Aggregator, rows: seq<Row>) {
    forall n :: 0 < n <= |rows| ==> SumFits(op, rows, n)
  }

  lemma NoOverflowSnoc(op: Aggregator, rows: seq<Row>, r: Row)
    ensures NoOverflow(op, rows + [r]) <==> NoOverflow(op, rows) && (op == SumI64 ==> InI64(Acc(op, rows + [r], r.key)))
  {
    var all := rows + [r];
    assert all[..|all|] == all && all[|rows|] == r;
    forall n | 0 < n <= |rows| ensures all[..n] == rows[..n] && (SumFits(op, all, n) <==> SumFits(op, rows, n)) {
    }
    if NoOverflow(op, all) {
      assert SumFits(op, all, |all|);
      forall n | 0 < n <= |rows| ensures SumFits(op, rows, n) { assert SumFits(op, all, n); }
    }
  }

  /** The accumulators hold the aggregates of all keys. */
  ghost predicate Accumulated(op: Aggregator, rows: seq<Row>, acc: seq<int>) {
    && RowsOk(op, rows) && (forall i :: 0 <= i < |rows| ==> rows[i].key < |acc|)
    && forall k: nat :: k < |acc| ==> acc[k] == Acc(op, rows, k)
  }

  /** The state of the loop: exact, or an overflow has occurred. */
  ghost predicate Accumulating(op: Aggregator, rows: seq<Row>, acc: seq<int>, overflow: bool) {
    if overflow then !NoOverflow(op, rows) else NoOverflow(op, rows) && Accumulated(op, rows, acc)
  }

  lemma AccumulateStep(op: Aggregator, rows: seq<Row>, acc: seq<int>, overflow: bool, r: Row)
    requires Accumulating(op, rows, acc, overflow) && r.key < |acc| && RowsOk(op, rows + [r])
    ensures r.val.None? ==> Accumulating(op, rows + [r], acc, overflow)
    ensures r.val.Some? ==>
              var v := Accumulate(op, acc[r.key], r.val.value);
              Accumulating(op, rows + [r], acc[r.key := if op == SumI64 then IntegerColumn.Wrap(v) else v], overflow || (op == SumI64 && !InI64(v)))
  {
    NoOverflowSnoc(op, rows, r);
    if !overflow {
      AccSnoc(op, rows, r, r.key);
      if r.val.None? && op == SumI64 { SumInRange(op, rows, r.key); }
      forall k: nat | k < |acc| ensures r.key != k ==> Acc(op, rows + [r], k) == Acc(op, rows, k) {
        AccSnoc(op, rows, r, k);
      }
      assert forall i :: 0 <= i < |rows + [r]| ==> (rows + [r])[i] == if i < |rows| then rows[i] else r;
    }
  }

  /** Without overflow every sum is in range. */
  lemma {:induction false} SumInRange(op: Aggregator, rows: seq<Row>, k: nat)
    requires op == SumI64 && RowsOk(op, rows) && NoOverflow(op, rows)
    ensures InI64(Acc(op, rows, k))
    decreases |rows|
  {
    if rows != [] {
      var front, r := rows[..|rows| - 1], rows[|rows| - 1];
      assert rows == front + [r];
      NoOverflowSnoc(op, front, r);
      AccSnoc(op, front, r, k);
      if r.key != k { SumInRange(op, front, k); }
    }
  }

  /** Adds a chunk of rows to the accumulators. */
  method AccumulateRows(op: Aggregator, acc0: seq<int>, ghost rows: seq<Row>, chunk: seq<Row>) returns (acc: seq<int>, overflow: bool)
    requires NoOverflow(op, rows) && Accumulated(op, rows, acc0) && RowsOk(op, rows + chunk)
    requires forall i :: 0 <= i < |chunk| ==> chunk[i].key < |acc0|
    ensures |acc| == |acc0| && Accumulating(op, rows + chunk, acc, overflow)
  {
    acc, overflow := acc0, false;
    assert rows + chunk[..0] == rows;
    for i := 0 to |chunk|
      invariant |acc| == |acc0| && Accumulating(op, rows + chunk[..i], acc, overflow)
    {
      var r := chunk[i];
      ghost var seen := rows + chunk[..i];
      assert rows + chunk[..i + 1] == seen + [r];
      assert RowsOk(op, seen + [r]) by {
        assert forall j :: 0 <= j < |seen + [r]| ==> (seen + [r])[j] == (rows + chunk)[j];
      }
      AccumulateStep(op, seen, acc, overflow, r);
      if r.val.Some? {
        var v := Accumulate(op, acc[r.key], r.val.value);
        acc := acc[r.key := if op == SumI64 then IntegerColumn.Wrap(v) else v];
        overflow := overflow || (op == SumI64 && !InI64(v));
      }
    }
    assert chunk[..|chunk|] == chunk;
  }

  /** `Aggregate`, `AggregateNullable` and, for sums, their checked forms. */
  class Aggregate {
    const op: Aggregator
    var accumulators: seq<int>
    ghost var rows: seq<Row>

    ghost predicate Valid()
      reads this
    {
      Accumulated(op, rows, accumulators) && NoOverflow(op, rows)
    }

    constructor (op: Aggregator)
      requires IntegerAggregator(op)
      ensures Valid() && rows == [] && accumulators == [] && this.op == op
    {
      this.op := op;
      accumulators, rows := [], [];
    }

    /** Takes the next chunk.  It fails if and only if some group's sum has left the range. */
    method Execute(chunk: seq<Row>, maxIndex: nat) returns (ok: bool)
      requires Valid() && RowsOk(op, chunk) && forall i :: 0 <= i < |chunk| ==> chunk[i].key <= maxIndex
      modifies this
      ensures rows == old(rows) + chunk && (ok <==> NoOverflow(op, rows)) && (ok ==> Valid())
      ensures |accumulators| == Max(old(|accumulators|), maxIndex + 1)
    {
      var len := maxIndex + 1;
      if len > |accumulators| {
        Resized(op, rows, accumulators, len);
        accumulators := accumulators + seq(len - |accumulators|, _ => Unit(op));
      }
      var acc, overflow := AccumulateRows(op, accumulators, rows, chunk);
      accumulators := acc;
      rows := rows + chunk;
      ok := !overflow;
    }
  }

  lemma Resized(op: Aggregator, rows: seq<Row>, acc: seq<int>, len: nat)
    requires Accumulated(op, rows, acc) && len >= |acc|
    ensures Accumulated(op, rows, acc + seq(len - |acc|, _ => Unit(op)))
  {
    forall k: nat | |acc| <= k ensures Acc(op, rows, k) == Unit(op) {
      TotalOccurs(op, rows, k);
    }
  }

  // ---------------------------------------------------------------- selecting the groups that occur

  /** The selector is positive exactly for the keys that occur. */
  ghost predicate Selects(sel: seq<int>, rows: seq<Row>) {
    && (forall i :: 0 <= i < |rows| ==> rows[i].key < |sel|)
    && forall k: nat :: k < |sel| ==> (sel[k] > 0 <==> Occurs(rows, k))
  }

  /** `Exists`. */
  class Exists {
    var marks: seq<int>
    ghost var rows: seq<Row>

    ghost predicate Valid()
      reads this
    {
      Selects(marks, rows)
    }

    constructor ()
      ensures Valid() && rows == [] && marks == []
    {
      marks, rows := [], [];
    }

    method Execute(chunk: seq<Row>, maxIndex: nat)
      requires Valid() && forall i :: 0 <= i < |chunk| ==> chunk[i].key <= maxIndex
      modifies this
      ensures Valid() && rows == old(rows) + chunk && |marks| == Max(old(|marks|), maxIndex + 1)
    {
      var len := maxIndex + 1;
      var sel := marks;
      if len > |sel| {
        sel := sel + seq(len - |sel|, _ => 0);
      }
      sel := MarkRows(sel, rows, chunk);
      marks := sel;
      rows := rows + chunk;
    }
  }

  method MarkRows(sel0: seq<int>, ghost rows: seq<Row>, chunk: seq<Row>) returns (sel: seq<int>)
    requires Selects(sel0, rows) && forall i :: 0 <= i < |chunk| ==> chunk[i].key < |sel0|
    ensures |sel| == |sel0| && Selects(sel, rows + chunk)
  {
    sel := sel0;
    assert rows + chunk[..0] == rows;
    for i := 0 to |chunk|
      invariant |sel| == |sel0| && Selects(sel, rows + chunk[..i])
    {
      OccursSnoc(rows + chunk[..i], chunk[i]);
      assert rows + chunk[..i + 1] == rows + chunk[..i] + [chunk[i]];
      sel := sel[chunk[i].key := 1];
    }
    assert chunk[..|chunk|] == chunk;
  }

  lemma OccursSnoc(rows: seq<Row>, r: Row)
    ensures forall k: nat :: Occurs(rows + [r], k) <==> Occurs(rows, k) || r.key == k
  {
    var all := rows + [r];
    assert all[|rows|] == r;
    forall k: nat ensures Occurs(all, k) <==> Occurs(rows, k) || r.key == k {
      if i :| 0 <= i < |rows| && rows[i].key == k { assert all[i].key == k; }
    }
  }

  ghost predicate AllPresent(rows: seq<Row>) {
    forall i :: 0 <= i < |rows| ==> rows[i].val.Some?
  }

  /** A count of values that are never null selects as well. */
  lemma CountSelects(rows: seq<Row>, acc: seq<int>)
    requires Accumulated(Count, rows, acc) && AllPresent(rows)
    ensures Selects(acc, rows)
  {
    forall k: nat | k < |acc| ensures acc[k] > 0 <==> Occurs(rows, k) {
      CountPositive(rows, k);
      TotalOccurs(Count, rows, k);
    }
  }

  /** No count exceeds the number of rows, so that a 32-bit counter does not overflow as long as a
      partition has fewer than 2^32 rows. */
  lemma {:induction false} CountBounded(rows: seq<Row>, k: nat)
    ensures 0 <= Acc(Count, rows, k) <= |rows|
  {
    if rows != [] {
      var c := Contributions(Count, rows);
      assert c[1..] == Contributions(Count, rows[1..]);
      CountBounded(rows[1..], k);
    }
  }

  lemma {:induction false} CountPositive(rows: seq<Row>, k: nat)
    requires AllPresent(rows)
    ensures var t := Total(Count, Contributions(Count, rows), k); t.Some? ==> t.value > 0
  {
    if rows != [] {
      assert Contributions(Count, rows)[1..] == Contributions(Count, rows[1..]);
      CountPositive(rows[1..], k);
    }
  }

  /** The indices below `n` that are selected. */
  ghost function Nonzero(sel: seq<int>, n: nat): seq<nat>
    requires n <= |sel|
  {
    if n == 0 then [] else Nonzero(sel, n - 1) + if sel[n - 1] > 0 then [(n - 1) as nat] else []
  }

  /** The selected entries below `n`. */
  ghost function Selected(data: seq<int>, sel: seq<int>, n: nat): (r: seq<int>)
    requires n <= |sel| && n <= |data|
    ensures |r| <= n && |r| == |Nonzero(sel, n)|
  {
    if n == 0 then [] else Selected(data, sel, n - 1) + if sel[n - 1] > 0 then [data[n - 1]] else []
  }

  /** `NonzeroIndices`. */
  method NonzeroIndices(sel: seq<int>) returns (unique: seq<nat>)
    ensures unique == Nonzero(sel, |sel|)
  {
    unique := [];
    for i := 0 to |sel|
      invariant unique == Nonzero(sel, i)
    {
      if sel[i] > 0 {
        unique := unique + [i];
      }
    }
  }

  /** `Compact`: in place, then cut off at `j`.  Entries without a selector are dropped. */
  method Compact(data: array<int>, sel: seq<int>) returns (j: nat)
    modifies data
    ensures j <= data.Length && data[..j] == Selected(old(data[..]), sel, Min(|sel|, data.Length))
  {
    j := 0;
    ghost var d := data[..];
    for i := 0 to Min(|sel|, data.Length)
      invariant j <= i && data[..j] == Selected(d, sel, i) && data[i..] == d[i..]
    {
      assert data[i] == data[i..][0] == d[i];
      if sel[i] > 0 {
        data[j] := data[i];
        j := j + 1;
      }
    }
  }

  // ---------------------------------------------------------------- the dense path

  ghost const BY_KEY: (nat, nat) -> bool := (a: nat, b: nat) => a < b

  /** The groups below `n`. */
  ghost function DenseGroups(sel: seq<int>, acc: seq<int>, n: nat): seq<Group<nat>>
    requires n <= |sel| && n <= |acc|
  {
    if n == 0 then [] else DenseGroups(sel, acc, n - 1) + if sel[n - 1] > 0 then [Group((n - 1) as nat, acc[n - 1])] else []
  }

  lemma {:induction false} LookupSnoc<K(!new)>(g: seq<Group<K>>, x: Group<K>, k: K)
    ensures Lookup(g + [x], k) == if Lookup(g, k).Some? then Lookup(g, k) else if x.key == k then Some(x.val) else None
  {
    if g == [] {
      assert g + [x] == [x] && [x][1..] == [];
    } else {
      ConsAppend(g, [x]);
      LookupSnoc(g[1..], x, k);
    }
  }

  lemma {:induction false} DenseLookup(sel: seq<int>, acc: seq<int>, n: nat, k: nat)
    requires n <= |sel| && n <= |acc|
    ensures Lookup(DenseGroups(sel, acc, n), k) == if k < n && sel[k] > 0 then Some(acc[k]) else None
  {
    if n > 0 {
      DenseLookup(sel, acc, n - 1, k);
      assert DenseGroups(sel, acc, n - 1) + [] == DenseGroups(sel, acc, n - 1);
      LookupSnoc(DenseGroups(sel, acc, n - 1), Group((n - 1) as nat, acc[n - 1]), k);
    }
  }

  lemma {:induction false} DenseKeys(sel: seq<int>, acc: seq<int>, n: nat)
    requires n <= |sel| && n <= |acc|
    ensures Grouped(BY_KEY, DenseGroups(sel, acc, n))
    ensures forall i :: 0 <= i < |DenseGroups(sel, acc, n)| ==> DenseGroups(sel, acc, n)[i].key < n
  {
    if n > 0 {
      DenseKeys(sel, acc, n - 1);
    }
  }

  lemma {:induction false} DenseColumns(sel: seq<int>, acc: seq<int>, n: nat)
    requires n <= |sel| && n <= |acc|
    ensures |DenseGroups(sel, acc, n)| == |Nonzero(sel, n)| == |Selected(acc, sel, n)|
    ensures forall i :: 0 <= i < |Nonzero(sel, n)| ==> DenseGroups(sel, acc, n)[i] == Group(Nonzero(sel, n)[i], Selected(acc, sel, n)[i])
  {
    if n > 0 {
      DenseColumns(sel, acc, n - 1);
    }
  }

  /** Nonzero indices and compacted accumulators are the grouping of the rows. */
  lemma DenseIsGroupBy(op: Aggregator, rows: seq<Row>, sel: seq<int>, acc: seq<int>)
    requires Accumulated(op, rows, acc) && Selects(sel, rows) && |sel| == |acc|
    ensures IsGroupBy(BY_KEY, op, DenseGroups(sel, acc, |sel|), Contributions(op, rows))
  {
    DenseKeys(sel, acc, |sel|);
    forall k ensures Lookup(DenseGroups(sel, acc, |sel|), k) == Total(op, Contributions(op, rows), k) {
      DenseLookup(sel, acc, |sel|, k);
      TotalOccurs(op, rows, k);
    }
  }

  // ---------------------------------------------------------------- the hash path

  /** The hash map numbers the keys in `unique`. */
  ghost predicate Numbered(m: map<nat, nat>, unique: seq<nat>) {
    && (forall k :: k in m ==> m[k] < |unique| && unique[m[k]] == k)
    && (forall i: nat :: i < |unique| ==> unique[i] in m && m[unique[i]] == i)
  }

  /** Row `i` of `numbered` is row `i` of `rows` with the number of its key. */
  ghost predicate Renumbered(unique: seq<nat>, rows: seq<Row>, numbered: seq<Row>) {
    && |numbered| == |rows|
    && forall i :: 0 <= i < |rows| ==> numbered[i].key < |unique| && unique[numbered[i].key] == rows[i].key && numbered[i].val == rows[i].val
  }

  /** `HashMapGrouping`. */
  class HashMapGrouping {
    var numbers: map<nat, nat>
    var unique: seq<nat>
    ghost var rows: seq<Row>
    ghost var numbered: seq<Row>

    ghost predicate Valid()
      reads this
    {
      && Numbered(numbers, unique) && Renumbered(unique, rows, numbered)
      && forall i :: 0 <= i < |unique| ==> Occurs(rows, unique[i])
    }

    constructor ()
      ensures Valid() && rows == [] && numbered == [] && unique == []
    {
      numbers, unique, rows, numbered := map[], [], [], [];
    }

    /** Numbers the keys of the next chunk. */
    method Execute(chunk: seq<Row>) returns (grouping: seq<nat>)
      requires Valid()
      modifies this
      ensures Valid() && rows == old(rows) + chunk && |grouping| == |chunk|
      ensures numbered == old(numbered) + Numbering(chunk, grouping)
      ensures forall i :: 0 <= i < |grouping| ==> grouping[i] < |unique|
    {
      var m, u;
      m, u, grouping := NumberKeys(numbers, unique, chunk);
      Extended(unique, u, rows, numbered, chunk, grouping);
      forall i | 0 <= i < |u| ensures Occurs(rows + chunk, u[i]) {
        assert i < |unique| ==> u[i] == unique[i];
        OccursLater(rows, chunk, u[i]);
      }
      numbers, unique, rows, numbered := m, u, rows + chunk, numbered + Numbering(chunk, grouping);
    }
  }

  function Numbering(chunk: seq<Row>, grouping: seq<nat>): (r: seq<Row>)
    requires |chunk| == |grouping|
    ensures |r| == |chunk| && forall i :: 0 <= i < |chunk| ==> r[i] == Row(grouping[i], chunk[i].val)
  {
    seq(|chunk|, i requires 0 <= i < |chunk| => Row(grouping[i], chunk[i].val))
  }

  /** Key `k` occurs in the first `n` rows. */
  ghost predicate OccursIn(rows: seq<Row>, n: nat, k: nat)
    requires n <= |rows|
  {
    exists j :: 0 <= j < n && rows[j].key == k
  }

  lemma OccursLater(rows: seq<Row>, chunk: seq<Row>, k: nat)
    requires Occurs(rows, k) || OccursIn(chunk, |chunk|, k)
    ensures Occurs(rows + chunk, k)
  {
    var all := rows + chunk;
    if Occurs(rows, k) {
      var j :| 0 <= j < |rows| && rows[j].key == k;
      assert all[j].key == k;
    } else {
      var j :| 0 <= j < |chunk| && chunk[j].key == k;
      assert all[|rows| + j].key == k;
    }
  }

  method NumberKeys(numbers: map<nat, nat>, unique: seq<nat>, chunk: seq<Row>) returns (m: map<nat, nat>, u: seq<nat>, grouping: seq<nat>)
    requires Numbered(numbers, unique)
    ensures Numbered(m, u) && unique <= u && |grouping| == |chunk|
    ensures forall i :: 0 <= i < |chunk| ==> grouping[i] < |u| && u[grouping[i]] == chunk[i].key
    ensures forall i :: |unique| <= i < |u| ==> OccursIn(chunk, |chunk|, u[i])
  {
    m, u, grouping := numbers, unique, [];
    for i := 0 to |chunk|
      invariant Numbered(m, u) && unique <= u && |grouping| == i
      invariant forall j :: 0 <= j < i ==> grouping[j] < |u| && u[grouping[j]] == chunk[j].key
      invariant forall j :: |unique| <= j < |u| ==> OccursIn(chunk, i, u[j])
    {
      var k := chunk[i].key;
      assert OccursIn(chunk, i + 1, k);
      if k !in m {
        u := u + [k];
        m := m[k := |u| - 1];
      }
      grouping := grouping + [m[k]];
    }
  }

  lemma Extended(unique: seq<nat>, u: seq<nat>, rows: seq<Row>, numbered: seq<Row>, chunk: seq<Row>, grouping: seq<nat>)
    requires Renumbered(unique, rows, numbered) && unique <= u && |grouping| == |chunk|
    requires forall i :: 0 <= i < |chunk| ==> grouping[i] < |u| && u[grouping[i]] == chunk[i].key
    ensures Renumbered(u, rows + chunk, numbered + Numbering(chunk, grouping))
  {
  }

  /** Aggregating by number is aggregating by key. */
  lemma {:induction false} NumberedTotal(op: Aggregator, unique: seq<nat>, rows: seq<Row>, numbered: seq<Row>, i: nat)
    requires Renumbered(unique, rows, numbered) && i < |unique|
    requires forall a, b :: 0 <= a < b < |unique| ==> unique[a] != unique[b]
    ensures Total(op, Contributions(op, numbered), i) == Total(op, Contributions(op, rows), unique[i])
  {
    if rows != [] {
      assert Contributions(op, rows)[1..] == Contributions(op, rows[1..]);
      assert Contributions(op, numbered)[1..] == Contributions(op, numbered[1..]);
      NumberedTotal(op, unique, rows[1..], numbered[1..], i);
      assert rows[0].key == unique[i] <==> numbered[0].key == i;
    }
  }

  ghost function HashGroups(unique: seq<nat>, acc: seq<int>, idx: seq<nat>): (g: seq<Group<nat>>)
    requires Within(|unique|, idx) && |unique| <= |acc|
    ensures |g| == |idx| && forall i :: 0 <= i < |idx| ==> g[i] == Group(unique[idx[i]], acc[idx[i]])
  {
    seq(|idx|, i requires 0 <= i < |idx| => Group(unique[idx[i]], acc[idx[i]]))
  }

  lemma {:induction false} LookupAt<K(!new)>(g: seq<Group<K>>, i: nat)
    requires i < |g| && forall a, b :: 0 <= a < b < |g| ==> g[a].key != g[b].key
    ensures Lookup(g, g[i].key) == Some(g[i].val)
  {
    if i > 0 {
      LookupAt(g[1..], i - 1);
    }
  }

  /** Numbered keys, sorted with their accumulators, are the grouping of the rows. */
  lemma HashIsGroupBy(op: Aggregator, unique: seq<nat>, rows: seq<Row>, numbered: seq<Row>, acc: seq<int>, idx: seq<nat>)
    requires Renumbered(unique, rows, numbered) && (forall i :: 0 <= i < |unique| ==> Occurs(rows, unique[i]))
    requires forall a, b :: 0 <= a < b < |unique| ==> unique[a] != unique[b]
    requires Accumulated(op, numbered, acc) && |unique| <= |acc|
    requires multiset(idx) == multiset(Ids(|unique|)) && Within(|unique|, idx)
    requires forall i, j :: 0 <= i < j < |idx| ==> unique[idx[i]] <= unique[idx[j]]
    ensures IsGroupBy(BY_KEY, op, HashGroups(unique, acc, idx), Contributions(op, rows))
  {
    var g := HashGroups(unique, acc, idx);
    PartitionSort.IdsOnce(|unique|);
    DistinctFromCounts(|unique|, idx);
    forall i, j | 0 <= i < j < |g| ensures g[i].key < g[j].key {
      assert idx[i] != idx[j];
    }
    forall k ensures Lookup(g, k) == Total(op, Contributions(op, rows), k) {
      HashLookup(op, unique, rows, numbered, acc, idx, k);
    }
  }

  lemma HashLookup(op: Aggregator, unique: seq<nat>, rows: seq<Row>, numbered: seq<Row>, acc: seq<int>, idx: seq<nat>, k: nat)
    requires Renumbered(unique, rows, numbered) && (forall i :: 0 <= i < |unique| ==> Occurs(rows, unique[i]))
    requires forall a, b :: 0 <= a < b < |unique| ==> unique[a] != unique[b]
    requires Accumulated(op, numbered, acc) && |unique| <= |acc|
    requires multiset(idx) == multiset(Ids(|unique|)) && Within(|unique|, idx)
    requires Grouped(BY_KEY, HashGroups(unique, acc, idx))
    ensures Lookup(HashGroups(unique, acc, idx), k) == Total(op, Contributions(op, rows), k)
  {
    var g := HashGroups(unique, acc, idx);
    TotalOccurs(op, rows, k);
    assert forall i :: 0 <= i < |rows| ==> unique[numbered[i].key] == rows[i].key;
    if n: nat :| n < |unique| && unique[n] == k {
      assert Ids(|unique|)[n] == n;
      assert n in multiset(idx);
      var i :| 0 <= i < |idx| && idx[i] == n;
      LookupAt(g, i);
      NumberedTotal(op, unique, rows, numbered, n);
    } else {
      LookupAbsent(g, k);
    }
  }

  // ---------------------------------------------------------------- both pipelines, over any chunks

  ghost function Flat(chunks: seq<seq<Row>>, n: nat): seq<Row>
    requires n <= |chunks|
  {
    if n == 0 then [] else Flat(chunks, n - 1) + chunks[n - 1]
  }

  lemma {:induction false} OverflowStays(op: Aggregator, chunks: seq<seq<Row>>, n: nat, m: nat)
    requires n <= m <= |chunks| && NoOverflow(op, Flat(chunks, m))
    ensures NoOverflow(op, Flat(chunks, n))
    decreases m - n
  {
    if n < m {
      var x, y := Flat(chunks, m - 1), chunks[m - 1];
      forall k | 0 < k <= |x| ensures SumFits(op, x, k) {
        assert SumFits(op, x + y, k) && (x + y)[..k] == x[..k];
      }
      OverflowStays(op, chunks, n, m - 1);
    }
  }

  ghost predicate ChunksOk(op: Aggregator, chunks: seq<seq<Row>>) {
    forall i :: 0 <= i < |chunks| ==> RowsOk(op, chunks[i])
  }

  /** The columns `keys` and `vals` are the grouping of the rows: keys in strictly increasing
      order, each with the aggregate of its group. */
  ghost predicate GroupsRows(op: Aggregator, rows: seq<Row>, keys: seq<nat>, vals: seq<int>) {
    |keys| == |vals| && IsGroupBy(BY_KEY, op, BatchMerging.Zip(keys, vals), Contributions(op, rows))
  }

  lemma SameColumns(op: Aggregator, rows: seq<Row>, g: seq<Group<nat>>, keys: seq<nat>, vals: seq<int>)
    requires IsGroupBy(BY_KEY, op, g, Contributions(op, rows))
    requires |keys| == |vals| == |g| && forall i :: 0 <= i < |g| ==> g[i] == Group(keys[i], vals[i])
    ensures GroupsRows(op, rows, keys, vals)
  {
    assert BatchMerging.Zip(keys, vals) == g;
  }

  /** Few possible keys: accumulators indexed by the key.  The count of a column that is not nullable
      serves as the selector. */
  method GroupDense(op: Aggregator, nullable: bool, chunks: seq<seq<Row>>, maxKey: nat)
    returns (ok: bool, keys: seq<nat>, vals: seq<int>)
    requires IntegerAggregator(op) && ChunksOk(op, chunks) && (!nullable ==> AllPresent(Flat(chunks, |chunks|)))
    requires forall i, j :: 0 <= i < |chunks| && 0 <= j < |chunks[i]| ==> chunks[i][j].key <= maxKey
    ensures ok <==> NoOverflow(op, Flat(chunks, |chunks|))
    ensures ok ==> GroupsRows(op, Flat(chunks, |chunks|), keys, vals)
  {
    var aggregate := new Aggregate(op);
    var selector := new Exists();
    keys, vals := [], [];
    for i := 0 to |chunks|
      invariant fresh(aggregate) && fresh(selector) && aggregate.op == op && aggregate.Valid() && selector.Valid()
      invariant aggregate.rows == selector.rows == Flat(chunks, i) && |aggregate.accumulators| == |selector.marks|
    {
      var fine := aggregate.Execute(chunks[i], maxKey);
      if !fine {
        if NoOverflow(op, Flat(chunks, |chunks|)) { OverflowStays(op, chunks, i + 1, |chunks|); }
        return false, keys, vals;
      }
      selector.Execute(chunks[i], maxKey);
    }
    ok := true;
    ghost var rows := Flat(chunks, |chunks|);
    var acc := aggregate.accumulators;
    var sel := if op == Count && !nullable then acc else selector.marks;
    if op == Count && !nullable { CountSelects(rows, acc); }
    keys := NonzeroIndices(sel);
    var data := new int[|acc|](i requires 0 <= i < |acc| => acc[i]);
    assert data[..] == acc;
    var j := Compact(data, sel);
    vals := data[..j];
    DenseColumns(sel, acc, |sel|);
    DenseIsGroupBy(op, rows, sel, acc);
    SameColumns(op, rows, DenseGroups(sel, acc, |sel|), keys, vals);
  }

  /** Sums overflow by number exactly if they do by key. */
  lemma NumberedOverflow(op: Aggregator, unique: seq<nat>, rows: seq<Row>, numbered: seq<Row>)
    requires Renumbered(unique, rows, numbered) && forall a, b :: 0 <= a < b < |unique| ==> unique[a] != unique[b]
    ensures NoOverflow(op, numbered) <==> NoOverflow(op, rows)
  {
    forall n | 0 < n <= |rows| ensures SumFits(op, numbered, n) <==> SumFits(op, rows, n) {
      assert Renumbered(unique, rows[..n], numbered[..n]);
      NumberedTotal(op, unique, rows[..n], numbered[..n], numbered[n - 1].key);
    }
    if NoOverflow(op, rows) {
      forall n | 0 < n <= |rows| ensures SumFits(op, numbered, n) { assert SumFits(op, rows, n); }
    }
    if NoOverflow(op, numbered) {
      forall n | 0 < n <= |rows| ensures SumFits(op, rows, n) { assert SumFits(op, numbered, n); }
    }
  }

  /** Every number below that of the keys occurs. */
  lemma NumbersOccur(unique: seq<nat>, rows: seq<Row>, numbered: seq<Row>, i: nat)
    requires Renumbered(unique, rows, numbered) && forall a, b :: 0 <= a < b < |unique| ==> unique[a] != unique[b]
    requires i < |unique| ==> Occurs(rows, unique[i])
    ensures Occurs(numbered, i) <==> i < |unique|
  {
    if i < |unique| {
      var j :| 0 <= j < |rows| && rows[j].key == unique[i];
      assert numbered[j].key == i;
    }
  }

  /** If exactly the first `u` entries are selected, compaction cuts off the rest. */
  lemma {:induction false} PrefixSelected(acc: seq<int>, sel: seq<int>, u: nat, n: nat)
    requires n <= |sel| == |acc| && u <= |acc| && forall k :: 0 <= k < |sel| ==> (sel[k] > 0 <==> k < u)
    ensures Selected(acc, sel, n) == acc[..Min(u, n)]
  {
    if n > 0 {
      PrefixSelected(acc, sel, u, n - 1);
      if n <= u {
        assert acc[..n] == acc[..n - 1] + [acc[n - 1]];
      }
    }
  }

  /** `select`. */
  method Select<T>(data: seq<T>, idx: seq<nat>) returns (r: seq<T>)
    requires Within(|data|, idx)
    ensures |r| == |idx| && forall i :: 0 <= i < |idx| ==> r[i] == data[idx[i]]
  {
    r := seq(|idx|, i requires 0 <= i < |idx| => data[idx[i]]);
  }

  /** What the hash map, the accumulators and the selector hold after the rows `rows`. */
  ghost predicate HashState(op: Aggregator, hash: HashMapGrouping, aggregate: Aggregate, selector: Exists, rows: seq<Row>)
    reads hash, aggregate, selector
  {
    && aggregate.op == op && aggregate.Valid() && hash.Valid() && selector.Valid() && hash.rows == rows
    && aggregate.rows == selector.rows == hash.numbered
    && |hash.unique| <= |aggregate.accumulators| == |selector.marks|
  }

  lemma NumbersDistinct(m: map<nat, nat>, unique: seq<nat>)
    requires Numbered(m, unique)
    ensures forall a, b :: 0 <= a < b < |unique| ==> unique[a] != unique[b]
  {
    forall a: nat, b: nat | a < b < |unique| ensures unique[a] != unique[b] {
      assert m[unique[a]] == a && m[unique[b]] == b;
    }
  }

  /** One chunk on the hash path. */
  method HashChunk(op: Aggregator, hash: HashMapGrouping, aggregate: Aggregate, selector: Exists, chunk: seq<Row>) returns (ok: bool)
    requires HashState(op, hash, aggregate, selector, hash.rows) && RowsOk(op, chunk)
    modifies hash, aggregate, selector
    ensures hash.rows == old(hash.rows) + chunk && (ok <==> NoOverflow(op, hash.rows))
    ensures ok ==> HashState(op, hash, aggregate, selector, hash.rows)
  {
    var grouping := hash.Execute(chunk);
    var numbered := Numbering(chunk, grouping);
    ok := aggregate.Execute(numbered, |hash.unique|);
    NumbersDistinct(hash.numbers, hash.unique);
    NumberedOverflow(op, hash.unique, hash.rows, hash.numbered);
    if ok {
      selector.Execute(numbered, |hash.unique|);
    }
  }

  /** Many possible keys: accumulators indexed by the number of the key, sorted at the end. */
  method GroupHash(op: Aggregator, chunks: seq<seq<Row>>)
    returns (ok: bool, keys: seq<nat>, vals: seq<int>)
    requires IntegerAggregator(op) && ChunksOk(op, chunks)
    ensures ok <==> NoOverflow(op, Flat(chunks, |chunks|))
    ensures ok ==> GroupsRows(op, Flat(chunks, |chunks|), keys, vals)
  {
    var hash := new HashMapGrouping();
    var aggregate := new Aggregate(op);
    var selector := new Exists();
    keys, vals := [], [];
    for i := 0 to |chunks|
      invariant fresh(aggregate) && fresh(hash) && fresh(selector)
      invariant HashState(op, hash, aggregate, selector, Flat(chunks, i)) && NoOverflow(op, Flat(chunks, i))
    {
      var fine := HashChunk(op, hash, aggregate, selector, chunks[i]);
      if !fine {
        if NoOverflow(op, Flat(chunks, |chunks|)) { OverflowStays(op, chunks, i + 1, |chunks|); }
        return false, keys, vals;
      }
    }
    ok := true;
    NumbersDistinct(hash.numbers, hash.unique);
    keys, vals := HashResult(op, hash.unique, aggregate.accumulators, selector.marks, Flat(chunks, |chunks|), hash.numbered);
  }

  /** Compacts the accumulators and sorts keys and accumulators by the key. */
  method HashResult(op: Aggregator, unique: seq<nat>, acc: seq<int>, sel: seq<int>, ghost rows: seq<Row>, ghost numbered: seq<Row>)
    returns (keys: seq<nat>, vals: seq<int>)
    requires Renumbered(unique, rows, numbered) && (forall i :: 0 <= i < |unique| ==> Occurs(rows, unique[i]))
    requires forall a, b :: 0 <= a < b < |unique| ==> unique[a] != unique[b]
    requires Accumulated(op, numbered, acc) && Selects(sel, numbered) && |unique| <= |acc| == |sel|
    ensures GroupsRows(op, rows, keys, vals)
  {
    var data := new int[|acc|](i requires 0 <= i < |acc| => acc[i]);
    assert data[..] == acc;
    var j := Compact(data, sel);
    var compacted := data[..j];
    forall k: nat | k < |sel| ensures sel[k] > 0 <==> k < |unique| {
      NumbersOccur(unique, rows, numbered, k);
    }
    PrefixSelected(acc, sel, |unique|, |sel|);
    var idx := PartitionSort.UnstableSort(false, unique, Ids(|unique|));
    keys := Select(unique, idx);
    vals := Select(compacted, idx);
    HashIsGroupBy(op, unique, rows, numbered, acc, idx);
    SameColumns(op, rows, HashGroups(unique, acc, idx), keys, vals);
  }

  /** The dense path and the hash path yield the same keys with the same aggregates. */
  lemma SameGroups(op: Aggregator, rows: seq<Row>, keys: seq<nat>, vals: seq<int>, keys': seq<nat>, vals': seq<int>)
    requires GroupsRows(op, rows, keys, vals) && GroupsRows(op, rows, keys', vals')
    ensures keys == keys' && vals == vals'
  {
    var g, h := BatchMerging.Zip(keys, vals), BatchMerging.Zip(keys', vals');
    forall k ensures Lookup(g, k) == Lookup(h, k) {
      assert Lookup(g, k) == Total(op, Contributions(op, rows), k) == Lookup(h, k);
    }
    GroupByUnique(BY_KEY, g, h);
    assert keys == Keys(g) == keys' && vals == Values(g) == vals';
  }
}
