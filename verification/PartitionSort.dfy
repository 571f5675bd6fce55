/** Sorting one partition: stable passes over the order-by columns from the last to the first, or
    `TopN` for a single column.  Either way the partition result answers the query for the rows of
    the partition, which is what the merge of the partition results starts from. */
module PartitionSort {
  import opened Order
  import opened Types
  import opened MergePlans
  import opened MergeTree
  import opened OrderBy
  import opened Seqs
  import opened Indices
  import TopN

  /** Column `p` is the first from `c` on in which the rows differ, and it puts `a` first. */
  ghost predicate DecidedFrom(desc: seq<bool>, c: nat, a: Key, b: Key, p: nat) {
    && c <= p < |a| && p < |b| && Before(Direction(desc, p), a[p], b[p])
    && forall t :: c <= t < p ==> a[t] == b[t]
  }

  /** The columns from `c` on put `a` before `b`. */
  ghost predicate LessFrom(desc: seq<bool>, c: nat, a: Key, b: Key) {
    exists p: nat :: DecidedFrom(desc, c, a, b, p)
  }

  lemma LessFromStart(desc: seq<bool>, a: Key, b: Key)
    requires |a| == |b|
    ensures LessFrom(desc, 0, a, b) <==> Less(desc, a, b)
  {
    if LessFrom(desc, 0, a, b) {
      var p: nat :| DecidedFrom(desc, 0, a, b, p);
      assert DecidedAt(desc, a, b, p);
    }
    if Less(desc, a, b) {
      var p: nat :| DecidedAt(desc, a, b, p);
      assert DecidedFrom(desc, 0, a, b, p);
    }
  }

  lemma LessFromStep(desc: seq<bool>, c: nat, a: Key, b: Key)
    requires c < |a| == |b|
    ensures LessFrom(desc, c, a, b) ==> Before(Direction(desc, c), a[c], b[c]) || (a[c] == b[c] && LessFrom(desc, c + 1, a, b))
  {
    if LessFrom(desc, c, a, b) {
      var p: nat :| DecidedFrom(desc, c, a, b, p);
      if p > c { assert DecidedFrom(desc, c + 1, a, b, p); }
    }
  }

  // ---------------------------------------------------------------- one pass

  /** All rows have `k` columns, and `idx` points at rows. */
  ghost predicate Shaped(rows: seq<Key>, k: nat, idx: seq<nat>) {
    Within(|rows|, idx) && forall i :: 0 <= i < |rows| ==> |rows[i]| == k
  }

  ghost predicate SortedFrom(desc: seq<bool>, c: nat, rows: seq<Key>, idx: seq<nat>)
    requires Within(|rows|, idx)
  {
    forall i, j :: 0 <= i < j < |idx| ==> !LessFrom(desc, c, rows[idx[j]], rows[idx[i]])
  }

  /** `x` occurs before `y`. */
  ghost predicate Earlier(s: seq<nat>, x: nat, y: nat) {
    exists i, j :: 0 <= i < j < |s| && s[i] == x && s[j] == y
  }

  ghost predicate Ordered(d: bool, ranking: seq<int>, idx: seq<nat>)
    requires Within(|ranking|, idx)
  {
    forall i, j :: 0 <= i < j < |idx| ==> !Before(d, ranking[idx[j]], ranking[idx[i]])
  }

  /** Rows that rank equal keep their order. */
  ghost predicate Stable(ranking: seq<int>, input: seq<nat>, output: seq<nat>)
    requires Within(|ranking|, output)
  {
    forall i, j :: 0 <= i < j < |output| && ranking[output[i]] == ranking[output[j]] ==> Earlier(input, output[i], output[j])
  }

  /** A stable pass over column `c` after the later columns sorts by all of them. */
  lemma StablePass(desc: seq<bool>, c: nat, k: nat, rows: seq<Key>, ranking: seq<int>, input: seq<nat>, output: seq<nat>)
    requires c < k && Shaped(rows, k, input) && Shaped(rows, k, output) && |ranking| == |rows|
    requires forall i :: 0 <= i < |rows| ==> ranking[i] == rows[i][c]
    requires SortedFrom(desc, c + 1, rows, input)
    requires Ordered(Direction(desc, c), ranking, output) && Stable(ranking, input, output)
    ensures SortedFrom(desc, c, rows, output)
  {
    forall i, j | 0 <= i < j < |output| ensures !LessFrom(desc, c, rows[output[j]], rows[output[i]]) {
      LessFromStep(desc, c, rows[output[j]], rows[output[i]]);
      if ranking[output[i]] == ranking[output[j]] {
        assert Earlier(input, output[i], output[j]);
      }
    }
  }

  /** The last column needs no stability. */
  lemma FirstPass(desc: seq<bool>, k: nat, rows: seq<Key>, ranking: seq<int>, output: seq<nat>)
    requires k > 0 && Shaped(rows, k, output) && |ranking| == |rows|
    requires forall i :: 0 <= i < |rows| ==> ranking[i] == rows[i][k - 1]
    requires Ordered(Direction(desc, k - 1), ranking, output)
    ensures SortedFrom(desc, k - 1, rows, output)
  {
  }

  // ---------------------------------------------------------------- the sorts

  lemma InsertOrdered(d: bool, ranking: seq<int>, idx: seq<nat>, p: nat, x: nat)
    requires Within(|ranking|, idx) && Ordered(d, ranking, idx) && p <= |idx| && x < |ranking|
    requires forall i :: 0 <= i < p ==> !Before(d, ranking[x], ranking[idx[i]])
    requires p < |idx| ==> Before(d, ranking[x], ranking[idx[p]])
    ensures Within(|ranking|, idx[..p] + [x] + idx[p..]) && Ordered(d, ranking, idx[..p] + [x] + idx[p..])
  {
    var r := idx[..p] + [x] + idx[p..];
    assert forall i :: 0 <= i < |r| ==> r[i] == if i < p then idx[i] else if i == p then x else idx[i - 1];
  }

  lemma EarlierSnoc(s: seq<nat>, x: nat)
    ensures forall y, z :: Earlier(s, y, z) ==> Earlier(s + [x], y, z)
    ensures forall y :: y in s ==> Earlier(s + [x], y, x)
  {
    var t := s + [x];
    forall y, z | Earlier(s, y, z) ensures Earlier(t, y, z) {
      var i, j :| 0 <= i < j < |s| && s[i] == y && s[j] == z;
      assert t[i] == y && t[j] == z;
    }
    forall y | y in s ensures Earlier(t, y, x) {
      var i :| 0 <= i < |s| && s[i] == y;
      assert t[i] == y && t[|s|] == x;
    }
  }

  lemma InsertStable(d: bool, ranking: seq<int>, input: seq<nat>, idx: seq<nat>, p: nat, x: nat)
    requires Within(|ranking|, idx) && Ordered(d, ranking, idx) && Stable(ranking, input, idx) && multiset(idx) == multiset(input)
    requires p <= |idx| && x < |ranking| && (p < |idx| ==> Before(d, ranking[x], ranking[idx[p]]))
    ensures Within(|ranking|, idx[..p] + [x] + idx[p..]) && Stable(ranking, input + [x], idx[..p] + [x] + idx[p..])
  {
    var r := idx[..p] + [x] + idx[p..];
    assert forall i :: 0 <= i < |r| ==> r[i] == if i < p then idx[i] else if i == p then x else idx[i - 1];
    EarlierSnoc(input, x);
    forall i, j | 0 <= i < j < |r| && ranking[r[i]] == ranking[r[j]] ensures Earlier(input + [x], r[i], r[j]) {
      if j == p {
        assert idx[i] in multiset(input);
      } else if i != p {
        assert Earlier(input, r[i], r[j]);
      }
    }
  }

  /** A stable sort of row indices by a column, as the library's `sort_by`. */
  method StableSort(d: bool, ranking: seq<int>, indices: seq<nat>) returns (output: seq<nat>)
    requires Within(|ranking|, indices)
    ensures multiset(output) == multiset(indices) && Within(|ranking|, output)
    ensures Ordered(d, ranking, output) && Stable(ranking, indices, output)
  {
    output := [];
    for i := 0 to |indices|
      invariant multiset(output) == multiset(indices[..i]) && Within(|ranking|, output)
      invariant Ordered(d, ranking, output) && Stable(ranking, indices[..i], output)
    {
      var x := indices[i];
      var p := Place(d, ranking, output, x);
      InsertOrdered(d, ranking, output, p, x);
      InsertStable(d, ranking, indices[..i], output, p, x);
      InsertedAt(output, p, x);
      PrefixSnoc(indices, i);
      output := output[..p] + [x] + output[p..];
    }
    Whole(indices);
  }

  /** The place of row `x` behind all rows that it does not come before. */
  method Place(d: bool, ranking: seq<int>, idx: seq<nat>, x: nat) returns (p: nat)
    requires Within(|ranking|, idx) && x < |ranking|
    ensures p <= |idx| && (forall k :: 0 <= k < p ==> !Before(d, ranking[x], ranking[idx[k]]))
    ensures p < |idx| ==> Before(d, ranking[x], ranking[idx[p]])
  {
    p := 0;
    while p < |idx| && !Before(d, ranking[x], ranking[idx[p]])
      invariant p <= |idx| && forall k :: 0 <= k < p ==> !Before(d, ranking[x], ranking[idx[k]])
    {
      p := p + 1;
    }
  }

  /** An unstable sort: rows that rank equal come in any order. */
  method UnstableSort(d: bool, ranking: seq<int>, indices: seq<nat>) returns (output: seq<nat>)
    requires Within(|ranking|, indices)
    ensures multiset(output) == multiset(indices) && Within(|ranking|, output) && Ordered(d, ranking, output)
  {
    output := StableSort(d, ranking, indices);
  }

  /** Column `c` of the rows. */
  ghost predicate IsRanking(ranking: seq<int>, rows: seq<Key>, c: nat) {
    |ranking| == |rows| && forall i :: 0 <= i < |rows| ==> c < |rows[i]| && ranking[i] == rows[i][c]
  }

  /** The sorting passes of `run`. */
  method SortIndices(desc: seq<bool>, rankings: seq<seq<int>>, ghost rows: seq<Key>) returns (idx: seq<nat>)
    requires |desc| == |rankings| > 0 && forall c :: 0 <= c < |desc| ==> IsRanking(rankings[c], rows, c)
    requires forall i :: 0 <= i < |rows| ==> |rows[i]| == |desc|
    ensures multiset(idx) == multiset(Ids(|rows|)) && Within(|rows|, idx)
    ensures forall i, j :: 0 <= i < j < |idx| ==> !Less(desc, rows[idx[j]], rows[idx[i]])
  {
    var c: nat := |desc| - 1;
    assert IsRanking(rankings[c], rows, c);
    idx := UnstableSort(desc[c], rankings[c], Ids(|rankings[c]|));
    FirstPass(desc, |desc|, rows, rankings[c], idx);
    while c > 0
      invariant c < |desc| && multiset(idx) == multiset(Ids(|rows|)) && Within(|rows|, idx) && SortedFrom(desc, c, rows, idx)
    {
      c := c - 1;
      assert IsRanking(rankings[c], rows, c);
      ghost var input := idx;
      idx := StableSort(desc[c], rankings[c], idx);
      StablePass(desc, c, |desc|, rows, rankings[c], input, idx);
    }
    forall i, j | 0 <= i < j < |idx| ensures !Less(desc, rows[idx[j]], rows[idx[i]]) {
      LessFromStart(desc, rows[idx[j]], rows[idx[i]]);
    }
  }

  // ---------------------------------------------------------------- the rows of the partition result

  /** The rows at the given indices. */
  ghost function Picked<T>(rows: seq<T>, idx: seq<nat>): (r: seq<T>)
    requires Within(|rows|, idx)
    ensures |r| == |idx| && forall i :: 0 <= i < |idx| ==> r[i] == rows[idx[i]]
  {
    if idx == [] then [] else [rows[idx[0]]] + Picked(rows, idx[1..])
  }

  ghost function Singletons<T>(rows: seq<T>): (r: seq<seq<T>>)
    ensures |r| == |rows| && forall i :: 0 <= i < |rows| ==> r[i] == [rows[i]]
  {
    seq(|rows|, i requires 0 <= i < |rows| => [rows[i]])
  }

  lemma {:induction false} PickedGathers<T>(rows: seq<T>, idx: seq<nat>)
    requires Within(|rows|, idx)
    ensures Picked(rows, idx) == Gather(Singletons(rows), idx)
  {
    if idx != [] {
      PickedGathers(rows, idx[1..]);
    }
  }

  lemma PickedAll<T>(rows: seq<T>, idx: seq<nat>)
    requires multiset(idx) == multiset(Ids(|rows|)) && Within(|rows|, idx)
    ensures multiset(Picked(rows, idx)) == multiset(rows)
  {
    PickedGathers(rows, idx);
    PickedGathers(rows, Ids(|rows|));
    GatherPermutation(Singletons(rows), idx, Ids(|rows|));
    PickedIds(rows);
  }

  lemma PickedIds<T>(rows: seq<T>)
    ensures Within(|rows|, Ids(|rows|)) && Picked(rows, Ids(|rows|)) == rows
  {
  }

  /** The indices left out. */
  lemma {:induction false} Complement(n: nat, idx: seq<nat>) returns (rest: seq<nat>)
    requires Distinct(n, idx)
    ensures Distinct(n, idx + rest) && |idx + rest| == n
    decreases n - |idx|
  {
    Pigeonhole(n, idx);
    if |idx| == n {
      rest := [];
      assert idx + rest == idx;
    } else {
      var x := Missing(n, idx);
      var more := Complement(n, idx + [x]);
      rest := [x] + more;
      Associate(idx, [x], more);
    }
  }

  /** Distinct indices in order, with none left out that should come earlier, answer the query for
      the rows of the partition. */
  lemma PickedTopOf<K(!new), D(!new)>(lt: (K, K) -> bool, n: nat, all: seq<Row<K, D>>, idx: seq<nat>)
    requires Distinct(|all|, idx) && (|idx| >= n || |idx| == |all|)
    requires forall i, j :: 0 <= i < j < |idx| ==> !lt(all[idx[j]].key, all[idx[i]].key)
    requires forall e: nat, i :: e < |all| && e !in idx && 0 <= i < |idx| ==> !lt(all[e].key, all[idx[i]].key)
    ensures TopOf(lt, n, Picked(all, idx), multiset(all))
  {
    var x := Picked(all, idx);
    var rest := PickedSplit(all, idx);
    Difference(multiset(all), multiset(x), multiset(Picked(all, rest)));
    LeftOutLate(lt, n, all, idx, rest);
  }

  lemma LeftOutLate<K(!new), D(!new)>(lt: (K, K) -> bool, n: nat, all: seq<Row<K, D>>, idx: seq<nat>, rest: seq<nat>)
    requires Within(|all|, idx) && Within(|all|, rest) && forall k :: 0 <= k < |rest| ==> rest[k] !in idx
    requires forall e: nat, i :: e < |all| && e !in idx && 0 <= i < |idx| ==> !lt(all[e].key, all[idx[i]].key)
    ensures NoneEarlier(lt, n, Picked(all, idx), multiset(Picked(all, rest)))
  {
    var x, y := Picked(all, idx), Picked(all, rest);
    forall e: Row<K, D>, i | e in multiset(y) && 0 <= i < |x| && i < n ensures !lt(e.key, x[i].key) {
      var k :| 0 <= k < |y| && y[k] == e;
    }
  }

  lemma Difference<T(!new)>(all: multiset<T>, x: multiset<T>, y: multiset<T>)
    requires all == x + y
    ensures x <= all && all - x == y && (|y| == 0 ==> x == all)
  {
  }

  /** The rows of a partition are those picked and those left out. */
  lemma PickedSplit<T>(all: seq<T>, idx: seq<nat>) returns (rest: seq<nat>)
    requires Distinct(|all|, idx)
    ensures Within(|all|, rest) && multiset(all) == multiset(Picked(all, idx)) + multiset(Picked(all, rest))
    ensures (forall k :: 0 <= k < |rest| ==> rest[k] !in idx) && |rest| == |all| - |idx|
  {
    rest := Complement(|all|, idx);
    Pigeonhole(|all|, idx + rest);
    PickedAll(all, idx + rest);
    WithinAppend(|all|, idx, rest);
    assert Picked(all, idx + rest) == Picked(all, idx) + Picked(all, rest);
    forall k | 0 <= k < |rest| ensures rest[k] !in idx {
      LeftOut(|all|, idx, rest, k);
    }
  }

  lemma LeftOut(n: nat, idx: seq<nat>, rest: seq<nat>, k: nat)
    requires Distinct(n, idx + rest) && k < |rest|
    ensures rest[k] < n && rest[k] !in idx
  {
    var all := idx + rest;
    assert all[|idx| + k] == rest[k];
    forall i | 0 <= i < |idx| ensures idx[i] != rest[k] {
      assert all[i] == idx[i];
    }
  }

  /** The passes answer the query for the rows of the partition. */
  lemma PassesTopOf<D(!new)>(desc: seq<bool>, n: nat, all: seq<Row<Key, D>>, idx: seq<nat>)
    requires multiset(idx) == multiset(Ids(|all|)) && Within(|all|, idx)
    requires forall i, j :: 0 <= i < j < |idx| ==> !Less(desc, all[idx[j]].key, all[idx[i]].key)
    ensures TopOf(KeyOrder(desc), n, Picked(all, idx), multiset(all))
  {
    IdsOnce(|all|);
    DistinctFromCounts(|all|, idx);
    assert |multiset(idx)| == |multiset(Ids(|all|))|;
    forall e: nat | e < |all| ensures e in idx {
      assert Ids(|all|)[e] == e;
      assert e in multiset(idx);
    }
    PickedTopOf(KeyOrder(desc), n, all, idx);
  }

  lemma {:induction false} IdsOnce(n: nat)
    ensures forall id: nat :: multiset(Ids(n))[id] <= if id < n then 1 else 0
  {
    if n > 0 {
      IdsOnce(n - 1);
      IdsSnoc(n);
    }
  }

  /** So does `TopN`, for a single order-by column. */
  lemma TopNTopOf<D(!new)>(desc: bool, n: nat, col: seq<int>, all: seq<Row<Key, D>>, output: seq<nat>)
    requires |all| == |col| && forall i :: 0 <= i < |all| ==> all[i].key == [col[i]]
    requires TopN.Best(desc, n, col, multiset(output)) && TopN.InOrder(desc, col, output)
    ensures Within(|all|, output) && TopOf(KeyOrder([desc]), n, Picked(all, output), multiset(all))
  {
    DistinctFromCounts(|all|, output);
    assert |multiset(output)| == |output|;
    forall x, y | 0 <= x < |all| && 0 <= y < |all| ensures Less([desc], all[x].key, all[y].key) <==> Before(desc, col[x], col[y]) {
      CompareLast([desc], 0, all[x].key, all[y].key);
    }
    forall e: nat, i | e < |all| && e !in output && 0 <= i < |output| ensures !Before(desc, col[e], col[output[i]]) {
      assert output[i] in multiset(output);
    }
    PickedTopOf(KeyOrder([desc]), n, all, output);
  }
}
