/** The kernels see one column at a time: `partition` cuts both sides into runs that agree on
    the first key column, `subpartition` refines the runs by each further column, and the last
    column is merged run by run.  `Runs` is what every partitioning along the way satisfies. */
module Partitioning {
  import opened Order
  import opened Types
  import opened MergePlans
  import opened Seqs

  /** A run of rows, `left` of them on the left side and `right` on the right side, that agree
      on all columns looked at so far. */
  datatype Premerge = Premerge(left: nat, right: nat)

  const U32_MAX: nat := 0xffff_ffff

  /** The left rows in the first `g` runs. */
  ghost function Lefts(p: seq<Premerge>, g: nat): nat
    requires g <= |p|
  {
    if g == 0 then 0 else Lefts(p, g - 1) + p[g - 1].left
  }

  ghost function Rights(p: seq<Premerge>, g: nat): nat
    requires g <= |p|
  {
    if g == 0 then 0 else Rights(p, g - 1) + p[g - 1].right
  }

  /** A lower bound on the distinct rows that the first `g` runs yield. */
  ghost function Weight(p: seq<Premerge>, g: nat): nat
    requires g <= |p|
  {
    if g == 0 then 0 else Weight(p, g - 1) + Max(p[g - 1].left, p[g - 1].right)
  }

  lemma {:induction false} PrefixSums(p: seq<Premerge>, x: Premerge, g: nat)
    requires g <= |p|
    ensures Lefts(p + [x], g) == Lefts(p, g) && Rights(p + [x], g) == Rights(p, g)
    ensures Weight(p + [x], g) == Weight(p, g)
  {
    if g > 0 {
      PrefixSums(p, x, g - 1);
    }
  }

  /** The rows from `i` up to `hi` agree with `k` on `c` columns, and these columns put all rows
      from `hi` on after `k`. */
  ghost predicate Block(desc: seq<bool>, c: nat, k: Key, s: seq<Key>, i: nat, hi: nat) {
    && i <= hi <= |s|
    && (forall x :: i <= x < hi ==> Agree(c, k, s[x]))
    && (forall x :: hi <= x < |s| ==> LessWithin(desc, c, k, s[x]))
  }

  /** The rows from `i` and `j` on start with a run of rows like `k` on `c` columns. */
  ghost predicate RunLike(desc: seq<bool>, c: nat, k: Key, x: Premerge, a: seq<Key>, b: seq<Key>, i: nat, j: nat) {
    Block(desc, c, k, a, i, i + x.left) && Block(desc, c, k, b, j, j + x.right)
  }

  /** The rows from `i` and `j` on start with a run on `c` columns; all else comes later. */
  ghost predicate OneRun(desc: seq<bool>, c: nat, x: Premerge, a: seq<Key>, b: seq<Key>, i: nat, j: nat) {
    x.left + x.right > 0 && exists k :: RunLike(desc, c, k, x, a, b, i, j)
  }

  /** `p` cuts nonempty runs off the front of `a` and `b` that agree on the first `c` columns,
      in strictly increasing order, and everything not cut off comes later. */
  ghost predicate Runs(desc: seq<bool>, c: nat, p: seq<Premerge>, a: seq<Key>, b: seq<Key>) {
    && Lefts(p, |p|) <= |a| && Rights(p, |p|) <= |b|
    && forall g {:trigger OneRun(desc, c, p[g], a, b, Lefts(p, g), Rights(p, g))} :: 0 <= g < |p| ==>
         OneRun(desc, c, p[g], a, b, Lefts(p, g), Rights(p, g))
  }

  /** `p` covers every row. */
  ghost predicate Covers(p: seq<Premerge>, a: seq<Key>, b: seq<Key>) {
    Lefts(p, |p|) == |a| && Rights(p, |p|) == |b|
  }

  /** One more run, at the rows where the runs so far end. */
  lemma {:induction false} RunsSnoc(desc: seq<bool>, c: nat, p: seq<Premerge>, x: Premerge, a: seq<Key>, b: seq<Key>)
    requires Runs(desc, c, p, a, b)
    requires OneRun(desc, c, x, a, b, Lefts(p, |p|), Rights(p, |p|))
    ensures Runs(desc, c, p + [x], a, b)
    ensures Lefts(p + [x], |p| + 1) == Lefts(p, |p|) + x.left
    ensures Rights(p + [x], |p| + 1) == Rights(p, |p|) + x.right
    ensures Weight(p + [x], |p| + 1) == Weight(p, |p|) + Max(x.left, x.right)
  {
    var q := p + [x];
    SumsSnoc(p, x);
    OneRunAhead(desc, c, p, x, a, b);
    forall g: nat | g < |q| ensures OneRun(desc, c, q[g], a, b, Lefts(q, g), Rights(q, g)) {
      PrefixSums(p, x, if g < |p| then g else |p|);
      assert g < |p| ==> OneRun(desc, c, p[g], a, b, Lefts(p, g), Rights(p, g));
      assert q[g] == if g < |p| then p[g] else x;
    }
  }

  lemma SumsSnoc(p: seq<Premerge>, x: Premerge)
    ensures Lefts(p + [x], |p| + 1) == Lefts(p, |p|) + x.left
    ensures Rights(p + [x], |p| + 1) == Rights(p, |p|) + x.right
    ensures Weight(p + [x], |p| + 1) == Weight(p, |p|) + Max(x.left, x.right)
  {
    var q, n := p + [x], |p|;
    assert q[n] == x;
    PrefixSums(p, x, n);
    assert Lefts(q, n + 1) == Lefts(q, n) + q[n].left;
    assert Rights(q, n + 1) == Rights(q, n) + q[n].right;
    assert Weight(q, n + 1) == Weight(q, n) + Max(q[n].left, q[n].right);
  }

  /** A run lies within the rows. */
  lemma OneRunAhead(desc: seq<bool>, c: nat, p: seq<Premerge>, x: Premerge, a: seq<Key>, b: seq<Key>)
    requires OneRun(desc, c, x, a, b, Lefts(p, |p|), Rights(p, |p|))
    ensures Lefts(p, |p|) + x.left <= |a| && Rights(p, |p|) + x.right <= |b|
  {
  }

  /** The rows before run `g` come before all rows from run `g` on. */
  lemma {:induction false} CutOff(desc: seq<bool>, c: nat, p: seq<Premerge>, a: seq<Key>, b: seq<Key>, g: nat)
    requires Runs(desc, c, p, a, b) && g <= |p|
    ensures Lefts(p, g) <= |a| && Rights(p, g) <= |b|
    ensures forall x, y :: 0 <= x < Lefts(p, g) && Rights(p, g) <= y < |b| ==> Less(desc, a[x], b[y])
    ensures forall x, y :: Lefts(p, g) <= x < |a| && 0 <= y < Rights(p, g) ==> Less(desc, b[y], a[x])
  {
    if g > 0 {
      CutOff(desc, c, p, a, b, g - 1);
      var i, j := Lefts(p, g - 1), Rights(p, g - 1);
      var i', j' := i + p[g - 1].left, j + p[g - 1].right;
      assert OneRun(desc, c, p[g - 1], a, b, Lefts(p, g - 1), Rights(p, g - 1));
      var k :| RunLike(desc, c, k, p[g - 1], a, b, i, j);
      BlockBefore(desc, c, k, a, b, i, i', j, j');
      BlockBefore(desc, c, k, b, a, j, j', i, i');
    }
  }

  lemma BlockBefore(desc: seq<bool>, c: nat, k: Key, s: seq<Key>, t: seq<Key>, i: nat, hi: nat, j: nat, hj: nat)
    requires Block(desc, c, k, s, i, hi) && Block(desc, c, k, t, j, hj)
    ensures forall x, y :: i <= x < hi && hj <= y < |t| ==> Less(desc, s[x], t[y])
  {
    forall x, y | i <= x < hi && hj <= y < |t| ensures Less(desc, s[x], t[y]) {
      AgreeWithin(desc, c, k, s[x], t[y]);
      WithinIsLess(desc, c, s[x], t[y]);
    }
  }

  lemma AgreeWithin(desc: seq<bool>, c: nat, k: Key, a: Key, b: Key)
    requires Agree(c, k, a) && LessWithin(desc, c, k, b)
    ensures LessWithin(desc, c, a, b)
  {
    var p: nat :| p < c && p < |k| && DecidedAt(desc, k, b, p);
    assert DecidedAt(desc, a, b, p);
  }

  // ---------------------------------------------------------------- the kernels

  /** `col` is column `c` of the rows `s`. */
  ghost predicate IsColumn(col: seq<int>, s: seq<Key>, c: nat) {
    |col| == |s| && forall i :: 0 <= i < |s| ==> c < |s[i]| && col[i] == s[i][c]
  }

  /** The rows from `i` up to `i'` are the maximal run of `e` in column `c` at the front of the
      block, and no row at the front of the block has an earlier value. */
  ghost predicate RunOf(desc: seq<bool>, c: nat, s: seq<Key>, i: nat, hi: nat, i': nat, e: int) {
    && i <= i' <= hi <= |s|
    && (forall x :: i <= x < |s| ==> c < |s[x]|)
    && (forall x :: i <= x < i' ==> s[x][c] == e)
    && (i' < hi ==> s[i'][c] != e)
    && (i < hi ==> NotAfter(Direction(desc, c), e, s[i][c]))
  }

  /** Counts the run of `e` that starts at `i`. */
  method CountRun(s: seq<int>, i: nat, hi: nat, e: int) returns (k: nat)
    requires i <= hi <= |s|
    ensures i <= k <= hi
    ensures forall x :: i <= x < k ==> s[x] == e
    ensures k < hi ==> s[k] != e
  {
    k := i;
    while k < hi && e == s[k]
      invariant i <= k <= hi
      invariant forall x :: i <= x < k ==> s[x] == e
    {
      k := k + 1;
    }
  }

  /** Within a block, column `c` is sorted. */
  lemma ColumnOrdered(desc: seq<bool>, c: nat, k: Key, s: seq<Key>, lo: nat, hi: nat, i: nat, j: nat)
    requires Sorted(KeyOrder(desc), s) && Block(desc, c, k, s, lo, hi)
    requires lo <= i <= j < hi && c < |s[i]| && c < |s[j]|
    ensures NotAfter(Direction(desc, c), s[i][c], s[j][c])
  {
    if i < j {
      assert !KeyOrder(desc)(s[j], s[i]);
      ColumnInOrder(desc, c, s[i], s[j]);
    }
  }

  /** The run of `e` at the front of a block is a block on one more column, for any key `k'` that
      agrees with `k` and has `e` there. */
  lemma RunInBlock(desc: seq<bool>, c: nat, k: Key, k': Key, s: seq<Key>, i: nat, hi: nat, i': nat, e: int)
    requires Sorted(KeyOrder(desc), s)
    requires Block(desc, c, k, s, i, hi) && RunOf(desc, c, s, i, hi, i', e)
    requires Agree(c, k, k') && c < |k'| && k'[c] == e
    ensures Block(desc, c + 1, k', s, i, i') && Block(desc, c, k, s, i', hi)
  {
    forall x | i' <= x < |s| ensures LessWithin(desc, c + 1, k', s[x]) {
      if x < hi {
        ColumnOrdered(desc, c, k, s, i, hi, i, i');
        ColumnOrdered(desc, c, k, s, i, hi, i', x);
        assert DecidedAt(desc, k', s[x], c);
      } else {
        AgreeWithin(desc, c, k, k', s[x]);
      }
    }
  }

  /** `left` and `right` are column `c` of the sorted rows `a` and `b`. */
  ghost predicate Sides(desc: seq<bool>, c: nat, a: seq<Key>, b: seq<Key>, descending: bool, left: seq<int>, right: seq<int>) {
    && descending == Direction(desc, c)
    && Sorted(KeyOrder(desc), a) && Sorted(KeyOrder(desc), b)
    && IsColumn(left, a, c) && IsColumn(right, b, c)
  }

  /** The state of a partitioning loop: `p` has cut off everything before the cursors, and the
      rows up to `hi` and `hj` are the blocks being cut. */
  ghost predicate Cut(desc: seq<bool>, c: nat, k: Key, a: seq<Key>, b: seq<Key>, i: nat, j: nat, hi: nat, hj: nat, p: seq<Premerge>) {
    && Block(desc, c, k, a, i, hi) && Block(desc, c, k, b, j, hj)
    && Runs(desc, c + 1, p, a, b) && Lefts(p, |p|) == i && Rights(p, |p|) == j
  }

  /** Cuts off the next run: the smaller of the values at the cursors. */
  method TakeRun(ghost desc: seq<bool>, ghost c: nat, ghost k: Key, ghost a: seq<Key>, ghost b: seq<Key>,
                 descending: bool, left: seq<int>, right: seq<int>,
                 i: nat, j: nat, hi: nat, hj: nat, p: seq<Premerge>)
    returns (i': nat, j': nat, p': seq<Premerge>)
    requires Sides(desc, c, a, b, descending, left, right)
    requires Cut(desc, c, k, a, b, i, j, hi, hj, p) && (i < hi || j < hj)
    ensures Cut(desc, c, k, a, b, i', j', hi, hj, p') && i' + j' > i + j && i' >= i && j' >= j
    ensures p' == p + [Premerge(i' - i, j' - j)]
    ensures Weight(p', |p'|) == Weight(p, |p|) + Max(i' - i, j' - j)
  {
    var elem := if i < hi && (j == hj || NotAfter(descending, left[i], right[j])) then left[i] else right[j];
    i' := CountRun(left, i, hi, elem);
    j' := CountRun(right, j, hj, elem);
    ghost var k' := if i' > i then a[i] else b[j];
    RunInBlock(desc, c, k, k', a, i, hi, i', elem);
    RunInBlock(desc, c, k, k', b, j, hj, j', elem);
    assert RunLike(desc, c + 1, k', Premerge(i' - i, j' - j), a, b, i, j);
    CutNext(desc, c, k, a, b, i, j, hi, hj, p, i', j', k');
    p' := p + [Premerge(i' - i, j' - j)];
  }

  lemma CutNext(desc: seq<bool>, c: nat, k: Key, a: seq<Key>, b: seq<Key>, i: nat, j: nat, hi: nat, hj: nat, p: seq<Premerge>,
                i': nat, j': nat, k': Key)
    requires Cut(desc, c, k, a, b, i, j, hi, hj, p) && i <= i' <= hi && j <= j' <= hj && i' + j' > i + j
    requires RunLike(desc, c + 1, k', Premerge(i' - i, j' - j), a, b, i, j)
    ensures var p' := p + [Premerge(i' - i, j' - j)];
            Cut(desc, c, k, a, b, i', j', hi, hj, p') && Weight(p', |p'|) == Weight(p, |p|) + Max(i' - i, j' - j)
  {
    RunsSnoc(desc, c + 1, p, Premerge(i' - i, j' - j), a, b);
  }

  /** `partition`: runs of equal values of the first key column, until `limit` result rows are
      certain.  The rows `a` and `b` are those the columns belong to. */
  method Partition(ghost desc: seq<bool>, ghost a: seq<Key>, ghost b: seq<Key>,
                   descending: bool, left: seq<int>, right: seq<int>, limit: nat)
    returns (result: seq<Premerge>)
    requires Sides(desc, 0, a, b, descending, left, right)
    ensures Runs(desc, 1, result, a, b)
    ensures Covers(result, a, b) || Weight(result, |result|) >= Min(limit, U32_MAX)
    ensures result != [] ==> Weight(result, |result| - 1) < Min(limit, U32_MAX)
    ensures limit == 0 ==> result == []
  {
    var lim := if limit > U32_MAX then U32_MAX else limit;
    var i: nat, j: nat, minElems: nat := 0, 0, 0;
    result := [];
    while i < |left| && j < |right| && minElems < lim
      invariant Cut(desc, 0, [], a, b, i, j, |a|, |b|, result) && minElems == Weight(result, |result|)
      invariant result != [] ==> Weight(result, |result| - 1) < lim
      decreases |left| - i + |right| - j
    {
      var i', j', p' := TakeRun(desc, 0, [], a, b, descending, left, right, i, j, |left|, |right|, result);
      minElems := minElems + Max(i' - i, j' - j);
      i, j, result := i', j', p';
    }
    while i < |left| && minElems < lim
      invariant Cut(desc, 0, [], a, b, i, j, |a|, |b|, result) && minElems == Weight(result, |result|)
      invariant result != [] ==> Weight(result, |result| - 1) < lim
      invariant i < |left| && minElems < lim ==> j == |right|
      decreases |left| - i + |right| - j
    {
      var i', j', p' := TakeRun(desc, 0, [], a, b, descending, left, right, i, j, |left|, |right|, result);
      minElems := minElems + Max(i' - i, j' - j);
      i, j, result := i', j', p';
    }
    while j < |right| && minElems < lim
      invariant Cut(desc, 0, [], a, b, i, j, |a|, |b|, result) && minElems == Weight(result, |result|)
      invariant result != [] ==> Weight(result, |result| - 1) < lim
      invariant minElems < lim ==> i == |left|
      decreases |left| - i + |right| - j
    {
      var i', j', p' := TakeRun(desc, 0, [], a, b, descending, left, right, i, j, |left|, |right|, result);
      minElems := minElems + Max(i' - i, j' - j);
      i, j, result := i', j', p';
    }
  }

  /** `subpartition`: refines runs on `c` columns into runs on `c + 1` columns of the same rows. */
  method Subpartition(ghost desc: seq<bool>, ghost c: nat, ghost a: seq<Key>, ghost b: seq<Key>,
                      descending: bool, partitioning: seq<Premerge>, left: seq<int>, right: seq<int>)
    returns (result: seq<Premerge>)
    requires Sides(desc, c, a, b, descending, left, right)
    requires Runs(desc, c, partitioning, a, b)
    ensures Runs(desc, c + 1, result, a, b)
    ensures Lefts(result, |result|) == Lefts(partitioning, |partitioning|)
    ensures Rights(result, |result|) == Rights(partitioning, |partitioning|)
    ensures partitioning == [] ==> result == []
  {
    var i: nat, j: nat := 0, 0;
    result := [];
    for g := 0 to |partitioning|
      invariant i == Lefts(partitioning, g) == Lefts(result, |result|)
      invariant j == Rights(partitioning, g) == Rights(result, |result|)
      invariant Runs(desc, c + 1, result, a, b) && (g == 0 ==> result == [])
    {
      var group := partitioning[g];
      var iMax, jMax := i + group.left, j + group.right;
      assert OneRun(desc, c, partitioning[g], a, b, Lefts(partitioning, g), Rights(partitioning, g));
      ghost var k :| RunLike(desc, c, k, group, a, b, i, j);
      i, j, result := RefineGroup(desc, c, k, a, b, descending, left, right, i, j, iMax, jMax, result);
    }
  }

  /** The inner loop of `subpartition`: cuts one group into runs. */
  method RefineGroup(ghost desc: seq<bool>, ghost c: nat, ghost k: Key, ghost a: seq<Key>, ghost b: seq<Key>,
                     descending: bool, left: seq<int>, right: seq<int>,
                     i0: nat, j0: nat, iMax: nat, jMax: nat, p: seq<Premerge>)
    returns (i: nat, j: nat, result: seq<Premerge>)
    requires Sides(desc, c, a, b, descending, left, right)
    requires Cut(desc, c, k, a, b, i0, j0, iMax, jMax, p)
    ensures i == iMax && j == jMax && Cut(desc, c, k, a, b, i, j, iMax, jMax, result)
  {
    i, j, result := i0, j0, p;
    while i < iMax || j < jMax
      invariant Cut(desc, c, k, a, b, i, j, iMax, jMax, result)
      decreases iMax - i + jMax - j
    {
      i, j, result := TakeRun(desc, c, k, a, b, descending, left, right, i, j, iMax, jMax, result);
    }
  }
}
