/** `collect_aliased`: every buffer is collected once, as a column, and referred to by the number of
    that column. */
module Aliasing {
  import opened Seqs
  import opened Indices

  ghost predicate Different<T>(ds: seq<T>) {
    forall i, j :: 0 <= i < j < |ds| ==> ds[i] != ds[j]
  }

  function IndexOf<T(==)>(ds: seq<T>, x: T): (i: nat)
    requires x in ds
    ensures i < |ds| && ds[i] == x
  {
    if ds[0] == x then 0 else 1 + IndexOf(ds[1..], x)
  }

  /** The numbers of the buffers, in order of first appearance, and the different buffers. */
  function Collect<T(==)>(ids: seq<T>): (r: (seq<nat>, seq<T>))
    ensures |r.0| == |ids| && Different(r.1)
    ensures forall k {:trigger r.0[k]} :: 0 <= k < |ids| ==> r.0[k] < |r.1| && r.1[r.0[k]] == ids[k]
  {
    if ids == [] then ([], [])
    else
      var init, x := ids[..|ids| - 1], ids[|ids| - 1];
      var (ix, ds) := Collect(init);
      assert ids == init + [x];
      if x in ds then (ix + [IndexOf(ds, x)], ds) else (ix + [|ds|], ds + [x])
  }

  lemma CollectSnoc<T>(ids: seq<T>, x: T)
    ensures var (ix, ds) := Collect(ids);
            Collect(ids + [x]) == if x in ds then (ix + [IndexOf(ds, x)], ds) else (ix + [|ds|], ds + [x])
  {
    var all := ids + [x];
    assert all[..|all| - 1] == ids && all[|all| - 1] == x;
  }

  /** Only given buffers are collected. */
  lemma {:induction false} CollectedFrom<T>(ids: seq<T>, d: nat) returns (k: nat)
    requires d < |Collect(ids).1|
    ensures k < |ids| && ids[k] == Collect(ids).1[d]
  {
    var n: nat := |ids| - 1;
    var init := ids[..n];
    if d < |Collect(init).1| {
      k := CollectedFrom(init, d);
    } else {
      k := n;
    }
  }

  /** The loops of `collect_aliased`. */
  method CollectAliased<T(==)>(ids: seq<T>) returns (indices: seq<nat>, columns: seq<T>)
    ensures (indices, columns) == Collect(ids)
  {
    var collected: map<T, nat> := map[];
    indices, columns := [], [];
    for k := 0 to |ids|
      invariant (indices, columns) == Collect(ids[..k])
      invariant forall x :: x in collected <==> x in columns
      invariant forall x :: x in collected ==> collected[x] < |columns| && columns[collected[x]] == x
    {
      PrefixSnoc(ids, k);
      assert ids[..k + 1][..k] == ids[..k];
      if ids[k] in collected {
        SamePlace(columns, collected[ids[k]], IndexOf(columns, ids[k]));
        indices := indices + [collected[ids[k]]];
      } else {
        collected := collected[ids[k] := |columns|];
        indices := indices + [|columns|];
        columns := columns + [ids[k]];
      }
    }
    Whole(ids);
  }

  lemma SamePlace<T>(ds: seq<T>, i: nat, j: nat)
    requires Different(ds) && i < |ds| && j < |ds| && ds[i] == ds[j]
    ensures i == j
  {
  }

  /** The same buffers are aliased in both lists. */
  ghost predicate SameAliases<S, T>(x: seq<S>, y: seq<T>) {
    |x| == |y| && forall k, l :: 0 <= k < |x| && 0 <= l < |x| ==> (x[k] == x[l] <==> y[k] == y[l])
  }

  /** The numbers depend on nothing else. */
  lemma {:induction false} SameNumbers<S, T>(x: seq<S>, y: seq<T>)
    requires SameAliases(x, y)
    ensures Collect(x).0 == Collect(y).0 && |Collect(x).1| == |Collect(y).1|
    decreases |x|
  {
    if x != [] {
      var n: nat := |x| - 1;
      var u, v := x[..n], y[..n];
      SameNumbers(u, v);
      var (ix, ds) := Collect(u);
      var (iy, es) := Collect(v);
      SeenBefore(u, ix, ds, x[n]);
      SeenBefore(v, iy, es, y[n]);
      SeenAlike(x, y, n);
      if x[n] in ds {
        var k := FirstSeen(u, x[n]);
        SamePlace(ds, IndexOf(ds, x[n]), ix[k]);
        assert y[k] == y[n] && v[k] == y[n];
        SamePlace(es, IndexOf(es, y[n]), iy[k]);
      }
    }
  }

  lemma SeenBefore<T>(ids: seq<T>, ix: seq<nat>, ds: seq<T>, x: T)
    requires (ix, ds) == Collect(ids)
    ensures x in ds <==> x in ids
  {
    if x in ds {
      var d :| 0 <= d < |ds| && ds[d] == x;
      var k := CollectedFrom(ids, d);
    }
    if k :| 0 <= k < |ids| && ids[k] == x { assert ds[ix[k]] == x; }
  }

  lemma SeenAlike<S, T>(x: seq<S>, y: seq<T>, n: nat)
    requires SameAliases(x, y) && n < |x|
    ensures x[n] in x[..n] <==> y[n] in y[..n]
  {
    if k :| 0 <= k < n && x[k] == x[n] { assert y[..n][k] == y[n]; }
    if k :| 0 <= k < n && y[k] == y[n] { assert x[..n][k] == x[n]; }
  }

  lemma FirstSeen<T>(ids: seq<T>, x: T) returns (k: nat)
    requires x in ids
    ensures k < |ids| && ids[k] == x
  {
    k :| 0 <= k < |ids| && ids[k] == x;
  }

  /** Numbers that collecting yields. */
  ghost predicate Canonical(ix: seq<nat>, w: nat) {
    Collect(ix).0 == ix && |Collect(ix).1| == w
  }

  /** Collecting the numbers again changes nothing. */
  lemma CollectCanonical<T>(ids: seq<T>)
    ensures Canonical(Collect(ids).0, |Collect(ids).1|)
  {
    var (ix, ds) := Collect(ids);
    forall k, l | 0 <= k < |ids| && 0 <= l < |ids| ensures ids[k] == ids[l] <==> ix[k] == ix[l] {
      if ids[k] == ids[l] { SamePlace(ds, ix[k], ix[l]); }
    }
    SameNumbers(ids, ix);
  }

  /** Different entries need as many columns. */
  lemma EnoughColumns<T>(ids: seq<T>, n: nat, m: nat)
    requires n <= m <= |ids| && Different(ids[n..m])
    ensures |Collect(ids).1| >= m - n
  {
    var (ix, ds) := Collect(ids);
    var part := ids[n..m];
    forall i | 0 <= i < |part| ensures part[i] in ds { assert ds[ix[n + i]] == part[i]; }
    Injected(part, ds);
  }

  /** Different elements of a list are no more than its elements. */
  lemma {:induction false} Injected<T>(x: seq<T>, ds: seq<T>)
    requires Different(x) && forall i :: 0 <= i < |x| ==> x[i] in ds
    ensures |x| <= |ds|
    decreases |x|
  {
    if x != [] {
      var j :| 0 <= j < |ds| && ds[j] == x[0];
      var rest := ds[..j] + ds[j + 1..];
      forall i | 0 <= i < |x[1..]| ensures x[1..][i] in rest {
        var y := x[i + 1];
        var k :| 0 <= k < |ds| && ds[k] == y;
        assert x[0] != y;
        assert rest[if k < j then k else k - 1] == y;
      }
      Injected(x[1..], rest);
    }
  }

  lemma {:induction false} CollectIds(w: nat)
    ensures Collect(Ids(w)) == (Ids(w), Ids(w))
  {
    if w > 0 {
      var v: nat := w - 1;
      CollectIds(v);
      CollectSnoc(Ids(v), v);
      assert Ids(v) + [v] == Ids(w);
    }
  }

  /** Different columns are numbered one after the other, and columns seen before keep their numbers. */
  lemma {:induction false} CollectKnown(w: nat, ix: seq<nat>)
    requires forall k :: 0 <= k < |ix| ==> ix[k] < w
    ensures Collect(Ids(w) + ix) == (Ids(w) + ix, Ids(w))
  {
    if ix == [] {
      CollectIds(w);
      assert Ids(w) + ix == Ids(w);
    } else {
      var init, x := ix[..|ix| - 1], ix[|ix| - 1];
      CollectKnown(w, init);
      CollectSnoc(Ids(w) + init, x);
      IdsIndex(w, x);
      assert ix == init + [x];
      Associate(Ids(w), init, [x]);
    }
  }

  lemma IdsIndex(w: nat, x: nat)
    requires x < w
    ensures x in Ids(w) && IndexOf(Ids(w), x) == x
  {
    assert Ids(w)[x] == x;
  }
}
