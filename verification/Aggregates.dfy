/** What the aggregates of a group are, in terms of the values of its rows alone: the sum, the number,
    the largest or the smallest of the values that are not null. */
module Aggregates {
  import opened Types
  import opened Order
  import opened GroupMerge
  import opened GroupBy
  import opened Seqs
  import opened Indices
  import Grouping
  import BatchMerging

  /** A row: the key of its group and the aggregated value. */
  datatype Entry<K> = Entry(key: K, val: Option<int>)

  /** The values of the group that are not null. */
  ghost function ValuesOf<K>(rows: seq<Entry<K>>, k: K): seq<int> {
    if rows == [] then []
    else if rows[0].key == k && rows[0].val.Some? then [rows[0].val.value] + ValuesOf(rows[1..], k)
    else ValuesOf(rows[1..], k)
  }

  ghost function SumOf(xs: seq<int>): int {
    if xs == [] then 0 else xs[0] + SumOf(xs[1..])
  }

  /** `r` is the aggregate of the values: without any, the sum and the number are zero, the largest and
      the smallest those of no 64-bit integer. */
  ghost predicate Aggregates(op: Aggregator, xs: seq<int>, r: int) {
    match op
    case SumI64 => r == SumOf(xs)
    case Count => r == |xs|
    case MaxI64 => if xs == [] then r == -0x8000_0000_0000_0000 else r in xs && forall i :: 0 <= i < |xs| ==> xs[i] <= r
    case MinI64 => if xs == [] then r == 0x7fff_ffff_ffff_ffff else r in xs && forall i :: 0 <= i < |xs| ==> r <= xs[i]
    case _ => false
  }

  ghost predicate AllI64(xs: seq<int>) {
    forall i :: 0 <= i < |xs| ==> InI64(xs[i])
  }

  /** There is only one. */
  lemma AggregateUnique(op: Aggregator, xs: seq<int>, r: int, r': int)
    requires Aggregates(op, xs, r) && Aggregates(op, xs, r')
    ensures r == r'
  {
    if op.MaxI64? && xs != [] {
      var i, j :| 0 <= i < |xs| && xs[i] == r && 0 <= j < |xs| && xs[j] == r';
      assert xs[i] <= r' && xs[j] <= r;
    } else if op.MinI64? && xs != [] {
      var i, j :| 0 <= i < |xs| && xs[i] == r && 0 <= j < |xs| && xs[j] == r';
      assert r' <= xs[i] && r <= xs[j];
    }
  }

  lemma {:induction false} SumAppend(xs: seq<int>, ys: seq<int>)
    ensures SumOf(xs + ys) == SumOf(xs) + SumOf(ys)
  {
    if xs == [] {
      assert xs + ys == ys;
    } else {
      ConsAppend(xs, ys);
      SumAppend(xs[1..], ys);
    }
  }

  /** Joining the aggregates of two lists of values gives that of both. */
  lemma JoinAggregates(op: Aggregator, xs: seq<int>, ys: seq<int>, a: int, b: int)
    requires AllI64(xs) && AllI64(ys) && Aggregates(op, xs, a) && Aggregates(op, ys, b)
    ensures Aggregates(op, xs + ys, Join(op, a, b))
  {
    match op
    case SumI64 => SumAppend(xs, ys);
    case Count =>
    case MaxI64 => LargestOfBoth(xs, ys, a, b);
    case MinI64 => SmallestOfBoth(xs, ys, a, b);
  }

  lemma LargestOfBoth(xs: seq<int>, ys: seq<int>, a: int, b: int)
    requires AllI64(xs) && AllI64(ys) && Aggregates(MaxI64, xs, a) && Aggregates(MaxI64, ys, b)
    ensures Aggregates(MaxI64, xs + ys, Join(MaxI64, a, b))
  {
    if xs == [] { assert xs + ys == ys; }
    if ys == [] { assert xs + ys == xs; }
  }

  lemma SmallestOfBoth(xs: seq<int>, ys: seq<int>, a: int, b: int)
    requires AllI64(xs) && AllI64(ys) && Aggregates(MinI64, xs, a) && Aggregates(MinI64, ys, b)
    ensures Aggregates(MinI64, xs + ys, Join(MinI64, a, b))
  {
    if xs == [] { assert xs + ys == ys; }
    if ys == [] { assert xs + ys == xs; }
  }

  // ---------------------------------------------------------------- what rows contribute

  ghost predicate EntriesOk<K>(op: Aggregator, rows: seq<Entry<K>>) {
    IntegerAggregator(op) && forall i :: 0 <= i < |rows| && rows[i].val.Some? ==> InI64(rows[i].val.value)
  }

  /** What rows contribute to the aggregate of their groups. */
  ghost function Contributed<K>(op: Aggregator, rows: seq<Entry<K>>): (g: seq<Group<K>>)
    ensures |g| == |rows|
    ensures forall i :: 0 <= i < |g| ==> g[i] == Group(rows[i].key, Grouping.Contribution(op, Grouping.Row(0, rows[i].val)).val)
  {
    seq(|rows|, i requires 0 <= i < |rows| => Group(rows[i].key, Grouping.Contribution(op, Grouping.Row(0, rows[i].val)).val))
  }

  ghost predicate Occurs<K>(rows: seq<Entry<K>>, k: K) {
    exists i :: 0 <= i < |rows| && rows[i].key == k
  }

  lemma {:induction false} ValuesAreI64<K>(op: Aggregator, rows: seq<Entry<K>>, k: K)
    requires EntriesOk(op, rows)
    ensures AllI64(ValuesOf(rows, k))
  {
    if rows != [] { ValuesAreI64(op, rows[1..], k); }
  }

  /** What one row contributes is the aggregate of its value, if it has one. */
  lemma ContributionMeans<K>(op: Aggregator, r: Entry<K>)
    requires EntriesOk(op, [r])
    ensures Aggregates(op, if r.val.Some? then [r.val.value] else [], Grouping.Contribution(op, Grouping.Row(0, r.val)).val)
  {
    if r.val.Some? {
      var xs := [r.val.value];
      assert xs[0] == r.val.value && xs[1..] == [] && SumOf(xs) == xs[0];
    }
  }

  /** The total over all rows of a group is the aggregate of its values; rows without that key have no
      total. */
  lemma {:induction false} TotalMeans<K>(op: Aggregator, rows: seq<Entry<K>>, k: K)
    requires EntriesOk(op, rows)
    ensures Total(op, Contributed(op, rows), k).Some? <==> Occurs(rows, k)
    ensures !Occurs(rows, k) ==> ValuesOf(rows, k) == []
    ensures Occurs(rows, k) ==> Aggregates(op, ValuesOf(rows, k), Total(op, Contributed(op, rows), k).value)
  {
    if rows != [] {
      var r, rest := rows[0], rows[1..];
      assert Contributed(op, rows)[1..] == Contributed(op, rest);
      TotalMeans(op, rest, k);
      OccursCons(rows, k);
      ContributionMeans(op, r);
      ValuesAreI64(op, rest, k);
      if r.key == k {
        var x := if r.val.Some? then [r.val.value] else [];
        assert ValuesOf(rows, k) == x + ValuesOf(rest, k);
        if Occurs(rest, k) {
          JoinAggregates(op, x, ValuesOf(rest, k), Contributed(op, rows)[0].val, Total(op, Contributed(op, rest), k).value);
        }
      }
    }
  }

  lemma OccursCons<K>(rows: seq<Entry<K>>, k: K)
    requires rows != []
    ensures Occurs(rows, k) <==> rows[0].key == k || Occurs(rows[1..], k)
  {
    if i :| 0 <= i < |rows| && rows[i].key == k {
      assert i > 0 ==> rows[1..][i - 1].key == k;
    }
    if i :| 0 <= i < |rows[1..]| && rows[1..][i].key == k { assert rows[i + 1].key == k; }
  }

  // ---------------------------------------------------------------- what a grouping means

  /** `g` has the first `n` groups of the rows in order of their keys, each with the aggregate of its
      values; all of them if there are no more. */
  ghost predicate FirstGroups<K(!new)>(lt: (K, K) -> bool, op: Aggregator, n: nat, g: seq<Group<K>>, rows: seq<Entry<K>>) {
    && |g| <= n && Grouped(lt, g)
    && (forall i :: 0 <= i < |g| ==> Occurs(rows, g[i].key) && Aggregates(op, ValuesOf(rows, g[i].key), g[i].val))
    && forall j :: 0 <= j < |rows| ==> HasKey(g, rows[j].key) || (|g| == n && AllBefore(lt, g, rows[j].key))
  }

  ghost predicate HasKey<K(!new)>(g: seq<Group<K>>, k: K) {
    exists i :: 0 <= i < |g| && g[i].key == k
  }

  ghost predicate AllBefore<K(!new)>(lt: (K, K) -> bool, g: seq<Group<K>>, k: K) {
    forall i :: 0 <= i < |g| ==> lt(g[i].key, k)
  }

  lemma {:induction false} LookupAt<K(!new)>(lt: (K, K) -> bool, g: seq<Group<K>>, i: nat)
    requires StrictOrder(lt) && Grouped(lt, g) && i < |g|
    ensures Lookup(g, g[i].key) == Some(g[i].val)
  {
    if i > 0 {
      assert lt(g[0].key, g[i].key) && g[0].key != g[i].key;
      LookupAt(lt, g[1..], i - 1);
    }
  }

  /** The first groups of a grouping. */
  lemma GroupByMeans<K(!new)>(lt: (K, K) -> bool, op: Aggregator, n: nat, g: seq<Group<K>>, rows: seq<Entry<K>>)
    requires StrictOrder(lt) && EntriesOk(op, rows) && IsGroupBy(lt, op, g, Contributed(op, rows))
    ensures FirstGroups(lt, op, n, Top(g, n), rows)
  {
    var top := Top(g, n);
    forall i | 0 <= i < |top| ensures Occurs(rows, top[i].key) && Aggregates(op, ValuesOf(rows, top[i].key), top[i].val) {
      var k := g[i].key;
      LookupAt(lt, g, i);
      assert Lookup(g, k) == Total(op, Contributed(op, rows), k);
      TotalMeans(op, rows, k);
    }
    forall j | 0 <= j < |rows| ensures HasKey(top, rows[j].key) || (|top| == n && AllBefore(lt, top, rows[j].key)) {
      var k := rows[j].key;
      TotalMeans(op, rows, k);
      assert Lookup(g, k) == Total(op, Contributed(op, rows), k);
      if forall i :: 0 <= i < |g| ==> g[i].key != k { LookupAbsent(g, k); }
      var i :| 0 <= i < |g| && g[i].key == k;
      if i < |top| { assert top[i].key == k; }
    }
  }

  /** An occurring key is a group, or all groups come before it. */
  lemma KeyListed<K(!new)>(lt: (K, K) -> bool, op: Aggregator, n: nat, h: seq<Group<K>>, rows: seq<Entry<K>>, k: K)
    requires FirstGroups(lt, op, n, h, rows) && Occurs(rows, k)
    ensures HasKey(h, k) || (|h| == n && AllBefore(lt, h, k))
  {
    var x :| 0 <= x < |rows| && rows[x].key == k;
  }

  ghost predicate SameUpTo<K(!new)>(g: seq<Group<K>>, h: seq<Group<K>>, n: nat) {
    n <= |g| && n <= |h| && forall l :: 0 <= l < n ==> g[l] == h[l]
  }

  lemma NotBoth<K(!new)>(lt: (K, K) -> bool, a: K, b: K)
    requires StrictOrder(lt) && lt(a, b)
    ensures !lt(b, a) && a != b
  {
  }

  lemma KeyFollows<K(!new)>(lt: (K, K) -> bool, op: Aggregator, n: nat, g: seq<Group<K>>, h: seq<Group<K>>, rows: seq<Entry<K>>, j: nat)
    requires StrictOrder(lt) && FirstGroups(lt, op, n, g, rows) && FirstGroups(lt, op, n, h, rows) && j < |g|
    requires SameUpTo(g, h, j)
    ensures j < |h| && !lt(g[j].key, h[j].key)
  {
    var k := g[j].key;
    KeyListed(lt, op, n, h, rows, k);
    if HasKey(h, k) {
      var y :| 0 <= y < |h| && h[y].key == k;
      if y < j {
        NotBoth(lt, g[y].key, k);
      } else if y == j {
        if lt(k, k) { NotBoth(lt, k, k); }
      } else {
        NotBoth(lt, h[j].key, h[y].key);
      }
    } else {
      NotBoth(lt, h[j].key, k);
    }
  }

  lemma GroupFollows<K(!new)>(lt: (K, K) -> bool, op: Aggregator, n: nat, g: seq<Group<K>>, h: seq<Group<K>>, rows: seq<Entry<K>>, j: nat)
    requires StrictOrder(lt) && FirstGroups(lt, op, n, g, rows) && FirstGroups(lt, op, n, h, rows) && j < |g|
    requires SameUpTo(g, h, j)
    ensures SameUpTo(g, h, j + 1)
  {
    KeyFollows(lt, op, n, g, h, rows, j);
    KeyFollows(lt, op, n, h, g, rows, j);
    assert g[j].key == h[j].key;
    AggregateUnique(op, ValuesOf(rows, g[j].key), g[j].val, h[j].val);
    SameNext(g, h, j);
  }

  lemma SameNext<K(!new)>(g: seq<Group<K>>, h: seq<Group<K>>, j: nat)
    requires SameUpTo(g, h, j) && j < |g| && j < |h| && g[j] == h[j]
    ensures SameUpTo(g, h, j + 1)
  {
  }

  lemma {:induction false} FirstGroupsAgree<K(!new)>(lt: (K, K) -> bool, op: Aggregator, n: nat, g: seq<Group<K>>, h: seq<Group<K>>, rows: seq<Entry<K>>, i: nat)
    requires StrictOrder(lt) && FirstGroups(lt, op, n, g, rows) && FirstGroups(lt, op, n, h, rows) && i <= |g|
    ensures SameUpTo(g, h, i)
  {
    if i > 0 {
      var j: nat := i - 1;
      FirstGroupsAgree(lt, op, n, g, h, rows, j);
      GroupFollows(lt, op, n, g, h, rows, j);
    }
  }

  /** There is only one list of first groups. */
  lemma FirstGroupsUnique<K(!new)>(lt: (K, K) -> bool, op: Aggregator, n: nat, g: seq<Group<K>>, h: seq<Group<K>>, rows: seq<Entry<K>>)
    requires StrictOrder(lt) && FirstGroups(lt, op, n, g, rows) && FirstGroups(lt, op, n, h, rows)
    ensures g == h
  {
    FirstGroupsAgree(lt, op, n, g, h, rows, |g|);
    FirstGroupsAgree(lt, op, n, h, g, rows, |h|);
  }

  // ---------------------------------------------------------------- within a partition

  ghost function EntriesOf(rows: seq<Grouping.Row>): (e: seq<Entry<nat>>)
    ensures |e| == |rows| && forall i :: 0 <= i < |e| ==> e[i] == Entry(rows[i].key, rows[i].val)
  {
    seq(|rows|, i requires 0 <= i < |rows| => Entry(rows[i].key, rows[i].val))
  }

  lemma SameContributions(op: Aggregator, rows: seq<Grouping.Row>)
    ensures Contributed(op, EntriesOf(rows)) == Grouping.Contributions(op, rows)
  {
    forall i | 0 <= i < |rows| ensures Contributed(op, EntriesOf(rows))[i] == Grouping.Contributions(op, rows)[i] {
    }
  }

  /** Every accumulator holds the aggregate of the values of its key. */
  lemma AccMeans(op: Aggregator, rows: seq<Grouping.Row>, k: nat)
    requires Grouping.RowsOk(op, rows)
    ensures Aggregates(op, ValuesOf(EntriesOf(rows), k), Grouping.Acc(op, rows, k))
  {
    SameContributions(op, rows);
    TotalMeans(op, EntriesOf(rows), k);
  }

  /** The groups of a partition are the keys that occur, all of them, in order, each with the aggregate
      of its values. */
  lemma GroupsMean(op: Aggregator, rows: seq<Grouping.Row>, keys: seq<nat>, vals: seq<int>)
    requires Grouping.RowsOk(op, rows) && Grouping.GroupsRows(op, rows, keys, vals)
    ensures FirstGroups(Grouping.BY_KEY, op, |keys| + 1, BatchMerging.Zip(keys, vals), EntriesOf(rows))
  {
    var g := BatchMerging.Zip(keys, vals);
    SameContributions(op, rows);
    GroupByMeans(Grouping.BY_KEY, op, |keys| + 1, g, EntriesOf(rows));
    assert Top(g, |keys| + 1) == g;
  }
}
