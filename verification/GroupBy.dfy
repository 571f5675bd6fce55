/** What a group-by result means, and why merging partial results in any order, cut off at the
    limit anywhere, still yields the first `limit` groups of the whole table. */
module GroupBy {
  import opened Order
  import opened Types
  import opened MergePlans
  import opened DedupMerge
  import opened GroupMerge
  import opened Seqs

  /** The aggregate of the group `k`, if the result has that group. */
  ghost function Lookup<K>(g: seq<Group<K>>, k: K): Option<int> {
    if g == [] then None else if g[0].key == k then Some(g[0].val) else Lookup(g[1..], k)
  }

  ghost function JoinOption(op: Aggregator, a: Option<int>, b: Option<int>): Option<int> {
    if a.None? then b else if b.None? then a else Some(Join(op, a.value, b.value))
  }

  /** The aggregate over all rows with key `k`; a row is its key and the value it contributes. */
  ghost function Total<K>(op: Aggregator, rows: seq<Group<K>>, k: K): Option<int> {
    if rows == [] then None
    else JoinOption(op, if rows[0].key == k then Some(rows[0].val) else None, Total(op, rows[1..], k))
  }

  /** `g` is the result of grouping `rows`. */
  ghost predicate IsGroupBy<K(!new)>(lt: (K, K) -> bool, op: Aggregator, g: seq<Group<K>>, rows: seq<Group<K>>) {
    Grouped(lt, g) && forall k :: Lookup(g, k) == Total(op, rows, k)
  }

  // ---------------------------------------------------------------- merging is grouping

  lemma JoinOptionLaws(op: Aggregator, a: Option<int>, b: Option<int>, c: Option<int>)
    ensures JoinOption(op, JoinOption(op, a, b), c) == JoinOption(op, a, JoinOption(op, b, c))
    ensures JoinOption(op, a, b) == JoinOption(op, b, a)
  {
  }

  lemma {:induction false} TotalAppend<K>(op: Aggregator, x: seq<Group<K>>, y: seq<Group<K>>, k: K)
    ensures Total(op, x + y, k) == JoinOption(op, Total(op, x, k), Total(op, y, k))
  {
    if x == [] {
      assert x + y == y;
    } else {
      ConsAppend(x, y);
      TotalAppend(op, x[1..], y, k);
      JoinOptionLaws(op, if x[0].key == k then Some(x[0].val) else None, Total(op, x[1..], k), Total(op, y, k));
    }
  }

  lemma {:induction false} LookupAbsent<K(!new)>(g: seq<Group<K>>, k: K)
    requires forall j :: 0 <= j < |g| ==> g[j].key != k
    ensures Lookup(g, k) == None
  {
    if g != [] {
      LookupAbsent(g[1..], k);
    }
  }

  lemma {:induction false} LookupMerge<K(!new)>(lt: (K, K) -> bool, op: Aggregator, a: seq<Group<K>>, b: seq<Group<K>>, k: K)
    requires StrictOrder(lt) && Grouped(lt, a) && Grouped(lt, b)
    ensures Lookup(Merge(lt, op, a, b), k) == JoinOption(op, Lookup(a, k), Lookup(b, k))
    decreases |a| + |b|
  {
    if a != [] { GroupedTail(lt, a); LookupAbsent(a[1..], a[0].key); }
    if b != [] { GroupedTail(lt, b); LookupAbsent(b[1..], b[0].key); }
    if a != [] && b != [] && a[0].key == b[0].key {
      LookupMerge(lt, op, a[1..], b[1..], k);
    } else if a != [] && (b == [] || lt(a[0].key, b[0].key)) {
      Absent(lt, a[0].key, b);
      LookupAbsent(b, a[0].key);
      LookupMerge(lt, op, a[1..], b, k);
    } else if b != [] {
      Absent(lt, b[0].key, a);
      LookupAbsent(a, b[0].key);
      LookupMerge(lt, op, a, b[1..], k);
    }
  }

  /** Every key of a merge comes after `k` if all keys merged do. */
  lemma {:induction false} MergeAfter<K(!new)>(lt: (K, K) -> bool, op: Aggregator, a: seq<Group<K>>, b: seq<Group<K>>, k: K)
    requires forall i :: 0 <= i < |a| ==> lt(k, a[i].key)
    requires forall i :: 0 <= i < |b| ==> lt(k, b[i].key)
    ensures forall i :: 0 <= i < |Merge(lt, op, a, b)| ==> lt(k, Merge(lt, op, a, b)[i].key)
    decreases |a| + |b|
  {
    if a != [] && b != [] && a[0].key == b[0].key {
      MergeAfter(lt, op, a[1..], b[1..], k);
    } else if a != [] && (b == [] || lt(a[0].key, b[0].key)) {
      MergeAfter(lt, op, a[1..], b, k);
    } else if b != [] {
      MergeAfter(lt, op, a, b[1..], k);
    }
  }

  lemma GroupedCons<K>(lt: (K, K) -> bool, x: Group<K>, g: seq<Group<K>>)
    requires Grouped(lt, g)
    requires forall i :: 0 <= i < |g| ==> lt(x.key, g[i].key)
    ensures Grouped(lt, [x] + g)
  {
  }

  lemma {:induction false} MergeGrouped<K(!new)>(lt: (K, K) -> bool, op: Aggregator, a: seq<Group<K>>, b: seq<Group<K>>)
    requires StrictOrder(lt) && Grouped(lt, a) && Grouped(lt, b)
    ensures Grouped(lt, Merge(lt, op, a, b))
    decreases |a| + |b|
  {
    if a != [] { GroupedTail(lt, a); }
    if b != [] { GroupedTail(lt, b); }
    if a != [] && b != [] && a[0].key == b[0].key {
      MergeGrouped(lt, op, a[1..], b[1..]);
      MergeAfter(lt, op, a[1..], b[1..], a[0].key);
      GroupedCons(lt, Group(a[0].key, Join(op, a[0].val, b[0].val)), Merge(lt, op, a[1..], b[1..]));
    } else if a != [] && (b == [] || lt(a[0].key, b[0].key)) {
      Absent(lt, a[0].key, b);
      MergeGrouped(lt, op, a[1..], b);
      MergeAfter(lt, op, a[1..], b, a[0].key);
      GroupedCons(lt, a[0], Merge(lt, op, a[1..], b));
    } else if b != [] {
      Absent(lt, b[0].key, a);
      MergeGrouped(lt, op, a, b[1..]);
      MergeAfter(lt, op, a, b[1..], b[0].key);
      GroupedCons(lt, b[0], Merge(lt, op, a, b[1..]));
    }
  }

  /** Merging the groupings of two sets of rows is grouping all the rows. */
  lemma MergeIsGroupBy<K(!new)>(lt: (K, K) -> bool, op: Aggregator, a: seq<Group<K>>, b: seq<Group<K>>, x: seq<Group<K>>, y: seq<Group<K>>)
    requires StrictOrder(lt) && IsGroupBy(lt, op, a, x) && IsGroupBy(lt, op, b, y)
    ensures IsGroupBy(lt, op, Merge(lt, op, a, b), x + y)
  {
    MergeGrouped(lt, op, a, b);
    forall k ensures Lookup(Merge(lt, op, a, b), k) == Total(op, x + y, k) {
      LookupMerge(lt, op, a, b, k);
      TotalAppend(op, x, y, k);
    }
  }

  /** A set of rows has one grouping only. */
  lemma {:induction false} GroupByUnique<K(!new)>(lt: (K, K) -> bool, g: seq<Group<K>>, h: seq<Group<K>>)
    requires StrictOrder(lt) && Grouped(lt, g) && Grouped(lt, h)
    requires forall k :: Lookup(g, k) == Lookup(h, k)
    ensures g == h
    decreases |g|
  {
    assert h != [] ==> Lookup(g, h[0].key) == Lookup(h, h[0].key);
    assert g != [] ==> Lookup(g, g[0].key) == Lookup(h, g[0].key);
    if g != [] && h != [] {
      GroupedTail(lt, g);
      GroupedTail(lt, h);
      SameHead(lt, g, h);
      LookupAbsent(g[1..], g[0].key);
      LookupAbsent(h[1..], h[0].key);
      assert Lookup(g, g[0].key) == Lookup(h, g[0].key);
      forall k ensures Lookup(g[1..], k) == Lookup(h[1..], k) {
        assert Lookup(g, k) == Lookup(h, k);
      }
      GroupByUnique(lt, g[1..], h[1..]);
      assert g == [g[0]] + g[1..] && h == [h[0]] + h[1..];
    }
  }

  lemma SameHead<K(!new)>(lt: (K, K) -> bool, g: seq<Group<K>>, h: seq<Group<K>>)
    requires StrictOrder(lt) && Grouped(lt, g) && Grouped(lt, h) && g != [] && h != []
    requires forall k :: Lookup(g, k) == Lookup(h, k)
    ensures g[0].key == h[0].key
  {
    var a, b := g[0].key, h[0].key;
    assert Lookup(g, a) == Lookup(h, a) && Lookup(g, b) == Lookup(h, b);
    if lt(a, b) {
      Absent(lt, a, h);
      LookupAbsent(h, a);
    } else if lt(b, a) {
      Absent(lt, b, g);
      LookupAbsent(g, b);
    }
  }

  /** The order of the rows does not matter. */
  lemma {:induction false} TotalPermutation<K>(op: Aggregator, x: seq<Group<K>>, y: seq<Group<K>>, k: K)
    requires multiset(x) == multiset(y)
    ensures Total(op, x, k) == Total(op, y, k)
    decreases |x|
  {
    if x == [] {
      assert |multiset(y)| == |y|;
    } else {
      assert x[0] in multiset(y);
      var j :| 0 <= j < |y| && y[j] == x[0];
      var u, v := y[..j], y[j + 1..];
      RemoveSame(x, y, j);
      TotalPermutation(op, x[1..], u + v, k);
      TotalAppend(op, u, v, k);
      TotalAppend(op, u, [x[0]] + v, k);
      ConsTail(x[0], v);
      var one := if x[0].key == k then Some(x[0].val) else None;
      JoinOptionLaws(op, Total(op, u, k), one, Total(op, v, k));
      JoinOptionLaws(op, one, Total(op, u, k), Total(op, v, k));
    }
  }

  // ---------------------------------------------------------------- cutting off at the limit

  ghost function Top<T>(s: seq<T>, n: nat): seq<T> {
    if |s| <= n then s else s[..n]
  }

  lemma TopCons<T>(s: seq<T>, n: nat)
    requires n > 0 && s != []
    ensures Top(s, n) != [] && Top(s, n)[0] == s[0] && Top(s, n)[1..] == Top(s[1..], n - 1)
  {
  }

  lemma TopSame<T>(x: T, s: seq<T>, t: seq<T>, n: nat)
    requires n > 0 && Top(s, n - 1) == Top(t, n - 1)
    ensures Top([x] + s, n) == Top([x] + t, n)
  {
    assert Top([x] + s, n) == [x] + Top(s, n - 1);
    assert Top([x] + t, n) == [x] + Top(t, n - 1);
  }

  /** The first `n` groups of a merge depend on the first `n` groups of each side only. */
  lemma {:induction false} MergeTop<K(!new)>(lt: (K, K) -> bool, op: Aggregator, a: seq<Group<K>>, b: seq<Group<K>>, n: nat)
    ensures Top(Merge(lt, op, a, b), n) == Top(Merge(lt, op, Top(a, n), Top(b, n)), n)
    decreases n, |a| + |b|
  {
    if n > 0 && (a != [] || b != []) {
      var m := n - 1;
      if a != [] { TopCons(a, n); }
      if b != [] { TopCons(b, n); }
      var ta, tb := Top(a, n), Top(b, n);
      if a != [] && b != [] && a[0].key == b[0].key {
        MergeTop(lt, op, a[1..], b[1..], m);
        TopSame(Group(a[0].key, Join(op, a[0].val, b[0].val)),
                Merge(lt, op, a[1..], b[1..]), Merge(lt, op, ta[1..], tb[1..]), n);
      } else if a != [] && (b == [] || lt(a[0].key, b[0].key)) {
        MergeTop(lt, op, a[1..], b, m);
        MergeTop(lt, op, ta[1..], tb, m);
        TopTop(a[1..], m, m);
        TopTop(b, n, m);
        TopSame(a[0], Merge(lt, op, a[1..], b), Merge(lt, op, ta[1..], tb), n);
      } else {
        MergeTop(lt, op, a, b[1..], m);
        MergeTop(lt, op, ta, tb[1..], m);
        TopTop(b[1..], m, m);
        TopTop(a, n, m);
        TopSame(b[0], Merge(lt, op, a, b[1..]), Merge(lt, op, ta, tb[1..]), n);
      }
    }
  }

  lemma TopTop<T>(s: seq<T>, n: nat, m: nat)
    requires m <= n
    ensures Top(Top(s, n), m) == Top(s, m)
  {
  }
}
