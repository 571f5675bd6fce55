/** Lists of indices: within bounds, different from each other, complete; and what parts with these
    indices hold together. */
module Indices {
  import opened Seqs

  /** The numbers below `n`, in order. */
  function Ids(n: nat): (s: seq<nat>)
    ensures |s| == n && forall i :: 0 <= i < n ==> s[i] == i
  {
    seq(n, i => i)
  }

  ghost predicate Within(n: nat, ids: seq<nat>) {
    forall i :: 0 <= i < |ids| ==> ids[i] < n
  }

  lemma WithinAppend(n: nat, x: seq<nat>, y: seq<nat>)
    requires Within(n, x + y)
    ensures Within(n, x) && Within(n, y)
  {
    forall i | 0 <= i < |x| ensures x[i] < n { assert (x + y)[i] == x[i]; }
    forall i | 0 <= i < |y| ensures y[i] < n { assert (x + y)[|x| + i] == y[i]; }
  }

  /** Different numbers below `n`. */
  ghost predicate Distinct(n: nat, ids: seq<nat>) {
    Within(n, ids) && forall i, j :: 0 <= i < j < |ids| ==> ids[i] != ids[j]
  }

  lemma DistinctFromCounts(n: nat, ids: seq<nat>)
    requires forall id: nat :: multiset(ids)[id] <= if id < n then 1 else 0
    ensures Distinct(n, ids)
  {
    forall i | 0 <= i < |ids| ensures ids[i] < n {
      assert ids[i] in multiset(ids);
    }
    forall i, j | 0 <= i < j < |ids| ensures ids[i] != ids[j] {
      assert multiset(ids)[ids[i]] <= 1;
      if ids[i] == ids[j] {
        Twice(ids, i, j);
      }
    }
  }

  lemma Twice(ids: seq<nat>, i: nat, j: nat)
    requires i < j < |ids| && ids[i] == ids[j]
    ensures multiset(ids)[ids[i]] >= 2
  {
    assert ids == ids[..j] + ids[j..];
    assert ids[i] in ids[..j] && ids[j] in ids[j..];
  }

  lemma DropLast(n: nat, ids: seq<nat>, j: nat)
    requires n > 0 && Distinct(n, ids) && j < |ids| && ids[j] == n - 1
    ensures Distinct(n - 1, ids[..j] + ids[j + 1..])
  {
    var rest := ids[..j] + ids[j + 1..];
    assert forall i :: 0 <= i < |rest| ==> rest[i] == ids[if i < j then i else i + 1];
  }

  /** There are at most `n` different numbers below `n`, and `n` of them are all. */
  lemma {:induction false} Pigeonhole(n: nat, ids: seq<nat>)
    requires Distinct(n, ids)
    ensures |ids| <= n
    ensures |ids| == n ==> multiset(ids) == multiset(Ids(n))
  {
    assert ids != [] ==> ids[0] < n;
    if n > 0 {
      if j :| 0 <= j < |ids| && ids[j] == n - 1 {
        DropLast(n, ids, j);
        Pigeonhole(n - 1, ids[..j] + ids[j + 1..]);
        PutBack(n - 1, ids, j);
      } else {
        Pigeonhole(n - 1, ids);
      }
    }
  }

  lemma PutBack(n: nat, ids: seq<nat>, j: nat)
    requires j < |ids| && ids[j] == n
    requires var rest := ids[..j] + ids[j + 1..]; |rest| <= n && (|rest| == n ==> multiset(rest) == multiset(Ids(n)))
    ensures |ids| <= n + 1 && (|ids| == n + 1 ==> multiset(ids) == multiset(Ids(n + 1)))
  {
    IdsSnoc(n + 1);
    RemoveOne(ids, j);
    Restore(multiset(ids), ids[j]);
  }

  lemma Restore(m: multiset<nat>, x: nat)
    requires x in m
    ensures m == m - multiset{x} + multiset{x}
  {
  }

  lemma IdsSnoc(n: nat)
    requires n > 0
    ensures multiset(Ids(n)) == multiset(Ids(n - 1)) + multiset{(n - 1) as nat}
  {
    assert Ids(n) == Ids(n - 1) + [n - 1];
  }

  /** Fewer than `n` different numbers leave one out. */
  lemma {:induction false} Missing(n: nat, ids: seq<nat>) returns (x: nat)
    requires Distinct(n, ids) && |ids| < n
    ensures x < n && x !in ids
  {
    if j :| 0 <= j < |ids| && ids[j] == n - 1 {
      DropLast(n, ids, j);
      var rest := ids[..j] + ids[j + 1..];
      x := Missing(n - 1, rest);
      assert forall i :: 0 <= i < |ids| && i != j ==> ids[i] == rest[if i < j then i else i - 1];
    } else {
      x := n - 1;
    }
  }

  /** The parts with the given numbers, one after the other. */
  ghost function Gather<T>(parts: seq<seq<T>>, ids: seq<nat>): seq<T>
    requires Within(|parts|, ids)
  {
    if ids == [] then [] else parts[ids[0]] + Gather(parts, ids[1..])
  }

  lemma {:induction false} GatherAppend<T>(parts: seq<seq<T>>, x: seq<nat>, y: seq<nat>)
    requires Within(|parts|, x) && Within(|parts|, y)
    ensures Gather(parts, x + y) == Gather(parts, x) + Gather(parts, y)
  {
    if x == [] {
      assert x + y == y;
    } else {
      ConsAppend(x, y);
      GatherAppend(parts, x[1..], y);
      Associate(parts[x[0]], Gather(parts, x[1..]), Gather(parts, y));
    }
  }

  /** The order of the parts does not matter to what they hold. */
  lemma {:induction false} GatherPermutation<T>(parts: seq<seq<T>>, x: seq<nat>, y: seq<nat>)
    requires Within(|parts|, x) && Within(|parts|, y) && multiset(x) == multiset(y)
    ensures multiset(Gather(parts, x)) == multiset(Gather(parts, y))
    decreases |x|
  {
    if x == [] {
      assert |multiset(y)| == |y|;
    } else {
      assert x[0] in multiset(y);
      var j :| 0 <= j < |y| && y[j] == x[0];
      var u, v := y[..j], y[j + 1..];
      RemoveSame(x, y, j);
      GatherPermutation(parts, x[1..], u + v);
      GatherAppend(parts, u, v);
      GatherAppend(parts, u, [x[0]] + v);
      GatherCons(parts, x[0], v);
      Reorder(parts[x[0]], Gather(parts, u), Gather(parts, v));
    }
  }

  lemma GatherCons<T>(parts: seq<seq<T>>, i: nat, ids: seq<nat>)
    requires i < |parts| && Within(|parts|, ids)
    ensures Within(|parts|, [i] + ids) && Gather(parts, [i] + ids) == parts[i] + Gather(parts, ids)
  {
    ConsTail(i, ids);
  }

  lemma Reorder<T>(x: seq<T>, y: seq<T>, z: seq<T>)
    ensures multiset(y + (x + z)) == multiset(x) + multiset(y + z)
  {
  }

  /** Different parts hold no more than all parts. */
  lemma {:induction false} GatherSome<T>(parts: seq<seq<T>>, ids: seq<nat>)
    requires Distinct(|parts|, ids)
    ensures multiset(Gather(parts, ids)) <= multiset(Gather(parts, Ids(|parts|)))
    decreases |parts| - |ids|
  {
    Pigeonhole(|parts|, ids);
    if |ids| == |parts| {
      GatherPermutation(parts, ids, Ids(|parts|));
    } else {
      var x := Missing(|parts|, ids);
      GatherSome(parts, ids + [x]);
      GatherAppend(parts, ids, [x]);
    }
  }
}
