/** From packed grouping keys back to tuples: grouping rows by their packed keys and unpacking the
    keys of the groups is grouping the rows by their tuples.  This is what the merge of the
    partition results starts from. */
module PartitionGroups {
  import opened Order
  import opened Types
  import opened GroupMerge
  import opened GroupBy
  import BitPacking
  import Grouping

  /** A group-by value with nulls fused into the smallest integer, as the results are merged. */
  function Fuse(v: Option<int>): int {
    if v.None? then I64_MIN else v.value
  }

  ghost function Fused(row: BitPacking.Tuple): (k: Key)
    ensures |k| == |row| && forall i :: 0 <= i < |row| ==> k[i] == Fuse(row[i])
  {
    seq(|row|, i requires 0 <= i < |row| => Fuse(row[i]))
  }

  /** The values are those of 64-bit integers. */
  ghost predicate Integers(row: BitPacking.Tuple) {
    forall i :: 0 <= i < |row| && row[i].Some? ==> InI64(row[i].value)
  }

  /** Null and the value that stands for it do not meet in a column. */
  predicate NoClash(v: Option<int>, w: Option<int>) {
    !(v == None && w == Some(I64_MIN)) && !(v == Some(I64_MIN) && w == None)
  }

  ghost predicate Fusable(a: BitPacking.Tuple, b: BitPacking.Tuple) {
    Integers(a) && Integers(b) && |a| == |b| && forall i :: 0 <= i < |a| ==> NoClash(a[i], b[i])
  }

  /** Fusing keeps two values apart and in order, if and only if they are not null and the value
      that stands for it. */
  lemma FuseKeeps(v: Option<int>, w: Option<int>)
    requires (v.Some? ==> InI64(v.value)) && (w.Some? ==> InI64(w.value))
    ensures NoClash(v, w) <==> ((Fuse(v) == Fuse(w) <==> v == w) && (Fuse(v) < Fuse(w) <==> BitPacking.ValueLess(v, w)))
  {
  }

  /** Fusing loses nothing. */
  lemma FusedEqual(a: BitPacking.Tuple, b: BitPacking.Tuple)
    requires Fusable(a, b) && Fused(a) == Fused(b)
    ensures a == b
  {
    forall i | 0 <= i < |a| ensures a[i] == b[i] {
      assert Fused(a)[i] == Fuse(a[i]) && Fused(b)[i] == Fuse(b[i]);
    }
  }

  /** Fusing keeps the order of tuples. */
  lemma {:induction false} FusedOrder(a: BitPacking.Tuple, b: BitPacking.Tuple)
    requires Fusable(a, b)
    ensures BitPacking.RowLess(a, b) <==> Less([], Fused(a), Fused(b))
  {
    var x, y := Fused(a), Fused(b);
    if a != [] {
      FusedOrder(a[1..], b[1..]);
      FusedTail(a);
      FusedTail(b);
      LessCons(x, y);
      assert x[0] == Fuse(a[0]) && y[0] == Fuse(b[0]);
    }
  }

  lemma FusedTail(a: BitPacking.Tuple)
    requires a != []
    ensures Fused(a[1..]) == Fused(a)[1..]
  {
  }

  lemma LessCons(x: Key, y: Key)
    requires x != [] && y != []
    ensures Less([], x, y) <==> x[0] < y[0] || (x[0] == y[0] && Less([], x[1..], y[1..]))
  {
    if Less([], x, y) {
      var p: nat :| DecidedAt([], x, y, p);
      if p > 0 { assert DecidedAt([], x[1..], y[1..], p - 1); }
    }
    if x[0] == y[0] && Less([], x[1..], y[1..]) {
      var p: nat :| DecidedAt([], x[1..], y[1..], p);
      assert DecidedAt([], x, y, p + 1);
    }
    if x[0] < y[0] { assert DecidedAt([], x, y, 0); }
  }

  /** Rows with their packed key, their fused tuple and what they contribute. */
  datatype Keyed = Keyed(packed: nat, tuple: Key, val: int)

  ghost function ByPacked(rows: seq<Keyed>): (g: seq<Group<nat>>)
    ensures |g| == |rows| && forall i :: 0 <= i < |rows| ==> g[i] == Group(rows[i].packed, rows[i].val)
  {
    if rows == [] then [] else [Group(rows[0].packed, rows[0].val)] + ByPacked(rows[1..])
  }

  ghost function ByTuple(rows: seq<Keyed>): (g: seq<Group<Key>>)
    ensures |g| == |rows| && forall i :: 0 <= i < |rows| ==> g[i] == Group(rows[i].tuple, rows[i].val)
  {
    if rows == [] then [] else [Group(rows[0].tuple, rows[0].val)] + ByTuple(rows[1..])
  }

  /** Packed keys and tuples order the rows alike. */
  ghost predicate OrderedAlike(rows: seq<Keyed>) {
    forall i, j :: 0 <= i < |rows| && 0 <= j < |rows| ==>
      && (rows[i].packed < rows[j].packed <==> Less([], rows[i].tuple, rows[j].tuple))
      && (rows[i].packed == rows[j].packed <==> rows[i].tuple == rows[j].tuple)
  }

  /** Packing by `BitPacking` orders rows like their tuples. */
  lemma PackedAlike(fs: seq<BitPacking.Field>, p: BitPacking.Packing, tuples: seq<BitPacking.Tuple>, rows: seq<Keyed>)
    requires BitPacking.FieldsOk(fs) && BitPacking.FieldsFit(fs) && BitPacking.Width(fs) <= 63 && BitPacking.Computes(fs, p.plan, 0)
    requires p.largestKey == BitPacking.Largest(fs) && BitPacking.UnpacksAll(fs, p.unpacks)
    requires |rows| == |tuples| && forall i :: 0 <= i < |rows| ==>
               && BitPacking.RowInRange(fs, tuples[i])
               && rows[i].packed == BitPacking.Eval(fs, tuples[i], p.plan) && rows[i].tuple == Fused(tuples[i])
    requires forall i, j :: 0 <= i < |rows| && 0 <= j < |rows| ==> Fusable(tuples[i], tuples[j])
    ensures OrderedAlike(rows)
  {
    forall i, j | 0 <= i < |rows| && 0 <= j < |rows|
      ensures rows[i].packed < rows[j].packed <==> Less([], rows[i].tuple, rows[j].tuple)
      ensures rows[i].packed == rows[j].packed <==> rows[i].tuple == rows[j].tuple
    {
      BitPacking.GroupingKey(fs, p, tuples[i], tuples[j]);
      FusedOrder(tuples[i], tuples[j]);
      if rows[i].tuple == rows[j].tuple { FusedEqual(tuples[i], tuples[j]); }
    }
  }

  /** Totals by packed key are totals by tuple. */
  lemma {:induction false} SameTotal(op: Aggregator, rows: seq<Keyed>, r: Keyed)
    requires forall i :: 0 <= i < |rows| ==> (rows[i].packed == r.packed <==> rows[i].tuple == r.tuple)
    ensures Total(op, ByPacked(rows), r.packed) == Total(op, ByTuple(rows), r.tuple)
  {
    if rows != [] {
      SameTotal(op, rows[1..], r);
    }
  }

  lemma {:induction false} TotalFound<K(!new)>(op: Aggregator, rows: seq<Group<K>>, k: K)
    ensures Total(op, rows, k).Some? <==> exists i :: 0 <= i < |rows| && rows[i].key == k
  {
    if rows != [] {
      TotalFound(op, rows[1..], k);
      if i :| 0 <= i < |rows[1..]| && rows[1..][i].key == k { assert rows[i + 1].key == k; }
      if i :| 0 <= i < |rows| && rows[i].key == k { if i > 0 { assert rows[1..][i - 1].key == k; } }
    }
  }

  /** The groups `h` are the groups `g` with their keys unpacked: group `i` is that of row
      `of[i]`. */
  ghost predicate Unpacked(rows: seq<Keyed>, g: seq<Group<nat>>, h: seq<Group<Key>>, of: seq<nat>) {
    && |h| == |g| == |of|
    && forall i :: 0 <= i < |g| ==>
         of[i] < |rows| && g[i].key == rows[of[i]].packed && h[i] == Group(rows[of[i]].tuple, g[i].val)
  }

  lemma {:induction false} SameLookup(rows: seq<Keyed>, g: seq<Group<nat>>, h: seq<Group<Key>>, of: seq<nat>, r: Keyed)
    requires Unpacked(rows, g, h, of)
    requires forall i :: 0 <= i < |rows| ==> (rows[i].packed == r.packed <==> rows[i].tuple == r.tuple)
    ensures Lookup(h, r.tuple) == Lookup(g, r.packed)
  {
    if g != [] {
      SameLookup(rows, g[1..], h[1..], of[1..], r);
    }
  }

  /** Grouping by packed keys and unpacking the keys is grouping by tuples. */
  lemma UnpackedIsGroupBy(op: Aggregator, rows: seq<Keyed>, g: seq<Group<nat>>, h: seq<Group<Key>>, of: seq<nat>)
    requires OrderedAlike(rows) && IsGroupBy(Grouping.BY_KEY, op, g, ByPacked(rows)) && Unpacked(rows, g, h, of)
    ensures IsGroupBy(KeyOrder([]), op, h, ByTuple(rows))
  {
    forall i, j | 0 <= i < j < |h| ensures KeyOrder([])(h[i].key, h[j].key) {
      assert g[i].key < g[j].key;
    }
    forall k: Key ensures Lookup(h, k) == Total(op, ByTuple(rows), k) {
      TotalFound(op, ByTuple(rows), k);
      if i :| 0 <= i < |rows| && rows[i].tuple == k {
        SameLookup(rows, g, h, of, rows[i]);
        SameTotal(op, rows, rows[i]);
        assert Lookup(g, rows[i].packed) == Total(op, ByPacked(rows), rows[i].packed);
      } else {
        LookupAbsent(h, k);
      }
    }
  }
}
