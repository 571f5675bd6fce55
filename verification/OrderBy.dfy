/** What an order-by result means: sorted rows, none of the omitted ones before any of the first
    `limit`.  Sorting a partition establishes it, merging preserves it. */
module OrderBy {
  import opened Order
  import opened Types
  import opened MergePlans
  import opened GroupBy
  import opened OrderedMerge
  import opened Seqs

  /** A result row: its order-by key and everything else it carries. */
  datatype Row<K, D> = Row(key: K, data: D)

  ghost function RowKeys<K, D>(s: seq<Row<K, D>>): (k: seq<K>)
    ensures |k| == |s| && forall i :: 0 <= i < |s| ==> k[i] == s[i].key
  {
    if s == [] then [] else [s[0].key] + RowKeys(s[1..])
  }

  ghost predicate SortedRows<K, D>(lt: (K, K) -> bool, s: seq<Row<K, D>>) {
    forall i, j :: 0 <= i < j < |s| ==> !lt(s[j].key, s[i].key)
  }

  /** `x` answers a query for the first `n` of the rows `all`. */
  ghost predicate TopOf<K, D>(lt: (K, K) -> bool, n: nat, x: seq<Row<K, D>>, all: multiset<Row<K, D>>) {
    && SortedRows(lt, x)
    && multiset(x) <= all
    && (|x| >= n || multiset(x) == all)
    && NoneEarlier(lt, n, x, all - multiset(x))
  }

  /** None of the rows `omitted` comes before one of the first `n` rows of `x`. */
  ghost predicate NoneEarlier<K, D>(lt: (K, K) -> bool, n: nat, x: seq<Row<K, D>>, omitted: multiset<Row<K, D>>) {
    forall e, i :: e in omitted && 0 <= i < |x| && i < n ==> !lt(e.key, x[i].key)
  }

  /** The merge of two row lists by a plan. */
  ghost function MergeRows<K, D>(lt: (K, K) -> bool, lf: bool, x: seq<Row<K, D>>, y: seq<Row<K, D>>): (w: seq<Row<K, D>>)
    ensures |w| == |x| + |y|
  {
    RowMergeLength(lt, lf, RowKeys(x), RowKeys(y));
    Keep(RowMerge(lt, lf, RowKeys(x), RowKeys(y)), x, y)
  }

  lemma MergeRowsStep<K, D>(lt: (K, K) -> bool, lf: bool, x: seq<Row<K, D>>, y: seq<Row<K, D>>)
    ensures MergeRows(lt, lf, x, y) ==
            if x != [] && (y == [] || Precedes(lt, lf, x[0].key, y[0].key)) then [x[0]] + MergeRows(lt, lf, x[1..], y)
            else if y != [] then [y[0]] + MergeRows(lt, lf, x, y[1..])
            else []
  {
    RowMergeLength(lt, lf, RowKeys(x), RowKeys(y));
    if x != [] { assert RowKeys(x[1..]) == RowKeys(x)[1..]; }
    if y != [] { assert RowKeys(y[1..]) == RowKeys(y)[1..]; }
  }

  /** A merge keeps every row. */
  lemma {:induction false} MergeRowsAll<K, D>(lt: (K, K) -> bool, lf: bool, x: seq<Row<K, D>>, y: seq<Row<K, D>>)
    ensures multiset(MergeRows(lt, lf, x, y)) == multiset(x) + multiset(y)
    decreases |x| + |y|
  {
    MergeRowsStep(lt, lf, x, y);
    if x != [] && (y == [] || Precedes(lt, lf, x[0].key, y[0].key)) {
      MergeRowsAll(lt, lf, x[1..], y);
      ConsMultiset(x, MergeRows(lt, lf, x[1..], y), multiset(y));
    } else if y != [] {
      MergeRowsAll(lt, lf, x, y[1..]);
      ConsMultiset(y, MergeRows(lt, lf, x, y[1..]), multiset(x));
    }
  }

  lemma ConsMultiset<T>(s: seq<T>, w: seq<T>, other: multiset<T>)
    requires s != [] && multiset(w) == multiset(s[1..]) + other
    ensures multiset([s[0]] + w) == multiset(s) + other == other + multiset(s)
  {
    assert s == [s[0]] + s[1..];
  }

  lemma {:induction false} MergeRowsSorted<K(!new), D(!new)>(lt: (K, K) -> bool, lf: bool, x: seq<Row<K, D>>, y: seq<Row<K, D>>)
    requires StrictOrder(lt) && SortedRows(lt, x) && SortedRows(lt, y)
    ensures SortedRows(lt, MergeRows(lt, lf, x, y))
    decreases |x| + |y|
  {
    MergeRowsStep(lt, lf, x, y);
    if x != [] && (y == [] || Precedes(lt, lf, x[0].key, y[0].key)) {
      MergeRowsSorted(lt, lf, x[1..], y);
      SortedCons(lt, lf, x[0], x[1..], y);
    } else if y != [] {
      MergeRowsSorted(lt, lf, x, y[1..]);
      SortedCons(lt, lf, y[0], x, y[1..]);
    }
  }

  lemma SortedCons<K(!new), D(!new)>(lt: (K, K) -> bool, lf: bool, h: Row<K, D>, x: seq<Row<K, D>>, y: seq<Row<K, D>>)
    requires StrictOrder(lt) && SortedRows(lt, MergeRows(lt, lf, x, y))
    requires x != [] ==> SortedRows(lt, x) && !lt(x[0].key, h.key)
    requires y != [] ==> SortedRows(lt, y) && !lt(y[0].key, h.key)
    ensures SortedRows(lt, [h] + MergeRows(lt, lf, x, y))
  {
    var w := MergeRows(lt, lf, x, y);
    MergeRowsAll(lt, lf, x, y);
    forall i | 0 <= i < |w| ensures !lt(w[i].key, h.key) {
      assert w[i] in multiset(w);
      assert w[i] in multiset(x) || w[i] in multiset(y);
      NotBefore(lt, h, if w[i] in x then x else y, w[i]);
    }
  }

  /** No sorted row comes before what the first does not come before. */
  lemma NotBefore<K(!new), D(!new)>(lt: (K, K) -> bool, h: Row<K, D>, x: seq<Row<K, D>>, e: Row<K, D>)
    requires StrictOrder(lt) && SortedRows(lt, x) && e in x && !lt(x[0].key, h.key)
    ensures !lt(e.key, h.key)
  {
    var t :| 0 <= t < |x| && x[t] == e;
  }

  lemma FirstTaken<K(!new), D>(lt: (K, K) -> bool, lf: bool, x: seq<Row<K, D>>, y: seq<Row<K, D>>)
    requires StrictOrder(lt) && |x| + |y| > 0
    ensures x != [] ==> !lt(x[0].key, MergeRows(lt, lf, x, y)[0].key)
    ensures y != [] ==> !lt(y[0].key, MergeRows(lt, lf, x, y)[0].key)
  {
    MergeRowsStep(lt, lf, x, y);
  }

  lemma TakenLater<K(!new), D>(lt: (K, K) -> bool, lf: bool, x: seq<Row<K, D>>, y: seq<Row<K, D>>, t: nat)
    requires 0 < t < |x| + |y|
    ensures if x != [] && (y == [] || Precedes(lt, lf, x[0].key, y[0].key)) then MergeRows(lt, lf, x, y)[t] == MergeRows(lt, lf, x[1..], y)[t - 1]
            else y != [] && MergeRows(lt, lf, x, y)[t] == MergeRows(lt, lf, x, y[1..])[t - 1]
  {
    MergeRowsStep(lt, lf, x, y);
  }

  /** Row `t` of a merge comes after none of the rows then still to be merged. */
  lemma {:induction false} MergeTakesFirst<K(!new), D>(lt: (K, K) -> bool, lf: bool, x: seq<Row<K, D>>, y: seq<Row<K, D>>, t: nat)
    returns (i: nat, j: nat)
    requires StrictOrder(lt) && t < |x| + |y|
    ensures i + j == t && i <= |x| && j <= |y|
    ensures i < |x| ==> !lt(x[i].key, MergeRows(lt, lf, x, y)[t].key)
    ensures j < |y| ==> !lt(y[j].key, MergeRows(lt, lf, x, y)[t].key)
    decreases |x| + |y|
  {
    if t == 0 {
      i, j := 0, 0;
      FirstTaken(lt, lf, x, y);
    } else if x != [] && (y == [] || Precedes(lt, lf, x[0].key, y[0].key)) {
      TakenLater(lt, lf, x, y, t);
      i, j := MergeTakesFirst(lt, lf, x[1..], y, t - 1);
      i := i + 1;
      assert i < |x| ==> x[i] == x[1..][i - 1];
    } else {
      TakenLater(lt, lf, x, y, t);
      i, j := MergeTakesFirst(lt, lf, x, y[1..], t - 1);
      j := j + 1;
      assert j < |y| ==> y[j] == y[1..][j - 1];
    }
  }

  /** A row left out of one side comes before none of the first `n` merged rows. */
  lemma OmittedLate<K(!new), D>(lt: (K, K) -> bool, lf: bool, n: nat, x: seq<Row<K, D>>, y: seq<Row<K, D>>, e: Row<K, D>, t: nat)
    requires StrictOrder(lt) && SortedRows(lt, x) && SortedRows(lt, y) && t < n && t < |x| + |y|
    requires (|x| >= n && forall i :: 0 <= i < |x| && i < n ==> !lt(e.key, x[i].key)) ||
             (|y| >= n && forall i :: 0 <= i < |y| && i < n ==> !lt(e.key, y[i].key))
    ensures !lt(e.key, MergeRows(lt, lf, x, y)[t].key)
  {
    var i, j := MergeTakesFirst(lt, lf, x, y, t);
  }

  /** A row left out of the merge comes before none of its first `n` rows. */
  lemma OmittedByMerge<K(!new), D(!new)>(lt: (K, K) -> bool, lf: bool, n: nat, m: nat, x: seq<Row<K, D>>, y: seq<Row<K, D>>,
                                         a: multiset<Row<K, D>>, b: multiset<Row<K, D>>, e: Row<K, D>, i: nat)
    requires StrictOrder(lt) && TopOf(lt, n, x, a) && TopOf(lt, n, y, b)
    requires i < m <= |x| + |y| && i < n
    requires e in (a + b) - multiset(MergeRows(lt, lf, x, y)[..m])
    ensures !lt(e.key, MergeRows(lt, lf, x, y)[i].key)
  {
    var w := MergeRows(lt, lf, x, y);
    MergeRowsAll(lt, lf, x, y);
    if e in w[m..] {
      MergeRowsSorted(lt, lf, x, y);
      var t :| 0 <= t < |w[m..]| && w[m..][t] == e;
      assert w[m + t] == e;
    } else {
      SplitMultiset(w, m);
      assert multiset(w[m..])[e] == 0;
      assert e in a - multiset(x) || e in b - multiset(y);
      OmittedLate(lt, lf, n, x, y, e, i);
    }
  }

  lemma SplitMultiset<T>(w: seq<T>, m: nat)
    requires m <= |w|
    ensures multiset(w) == multiset(w[..m]) + multiset(w[m..])
  {
    assert w == w[..m] + w[m..];
  }

  lemma OmittedRows<K(!new), D(!new)>(lt: (K, K) -> bool, lf: bool, n: nat, m: nat, x: seq<Row<K, D>>, y: seq<Row<K, D>>,
                                      a: multiset<Row<K, D>>, b: multiset<Row<K, D>>)
    requires StrictOrder(lt) && TopOf(lt, n, x, a) && TopOf(lt, n, y, b) && m <= |x| + |y|
    ensures NoneEarlier(lt, n, MergeRows(lt, lf, x, y)[..m], (a + b) - multiset(MergeRows(lt, lf, x, y)[..m]))
  {
    var z := MergeRows(lt, lf, x, y)[..m];
    forall e, i | e in (a + b) - multiset(z) && 0 <= i < |z| && i < n ensures !lt(e.key, z[i].key) {
      OmittedByMerge(lt, lf, n, m, x, y, a, b, e, i);
    }
  }

  lemma KeptRows<T(!new)>(n: nat, m: nat, w: seq<T>, x: seq<T>, y: seq<T>, a: multiset<T>, b: multiset<T>)
    requires multiset(w) == multiset(x) + multiset(y) && |w| == |x| + |y|
    requires multiset(x) <= a && (|x| >= n || multiset(x) == a)
    requires multiset(y) <= b && (|y| >= n || multiset(y) == b)
    requires m <= |w| && (m >= n || m == |w|)
    ensures multiset(w[..m]) <= a + b && (m >= n || multiset(w[..m]) == a + b)
  {
    SplitMultiset(w, m);
    forall e ensures multiset(w[..m])[e] <= (a + b)[e] {
      assert multiset(w)[e] == multiset(x)[e] + multiset(y)[e];
      assert multiset(x)[e] <= a[e] && multiset(y)[e] <= b[e];
    }
    if m < n {
      assert w[..m] == w;
    }
  }

  /** Merging two answers and cutting off behind row `n` answers the query for all rows. */
  lemma MergeTopOf<K(!new), D(!new)>(lt: (K, K) -> bool, lf: bool, n: nat, m: nat, x: seq<Row<K, D>>, y: seq<Row<K, D>>,
                                     a: multiset<Row<K, D>>, b: multiset<Row<K, D>>)
    requires StrictOrder(lt) && TopOf(lt, n, x, a) && TopOf(lt, n, y, b)
    requires m <= |x| + |y| && (m >= n || m == |x| + |y|)
    ensures TopOf(lt, n, MergeRows(lt, lf, x, y)[..m], a + b)
  {
    MergeRowsSorted(lt, lf, x, y);
    MergeRowsAll(lt, lf, x, y);
    KeptRows(n, m, MergeRows(lt, lf, x, y), x, y, a, b);
    OmittedRows(lt, lf, n, m, x, y, a, b);
  }
}
