/** The filter of a query: which rows of a partition it keeps. */
module Filtering {
  import opened Types
  import opened Indices

  /** No filter, or a byte for every row, which may be nullable: stored byte and whether it is present. */
  datatype Filter = NoFilter | Bytes(flags: seq<nat>) | NullableBytes(stored: seq<nat>, present: seq<bool>)

  /** There is a flag for each of the rows. */
  predicate Fits(f: Filter, len: nat) {
    match f
    case NoFilter => true
    case Bytes(flags) => |flags| == len
    case NullableBytes(stored, present) => |stored| == |present| == len
  }

  /** The condition holds of row `i`; it does not if it is null. */
  predicate Passes(f: Filter, i: nat) {
    match f
    case NoFilter => true
    case Bytes(flags) => i < |flags| && flags[i] > 0
    case NullableBytes(stored, present) => i < |stored| && i < |present| && stored[i] > 0 && present[i]
  }

  /** The rows, of the first `n`, of which it holds, in order. */
  function Passing(f: Filter, n: nat): (r: seq<nat>)
    ensures Within(n, r) && (forall i, j :: 0 <= i < j < |r| ==> r[i] < r[j])
    ensures forall k: nat :: k in r <==> k < n && Passes(f, k)
  {
    if n == 0 then []
    else
      var before := Passing(f, n - 1);
      if Passes(f, n - 1) then before + [n - 1] else before
  }

  /** The values at the given rows. */
  function At<T>(col: seq<T>, idx: seq<nat>): (r: seq<T>)
    requires Within(|col|, idx)
    ensures |r| == |idx| && forall i :: 0 <= i < |r| ==> r[i] == col[idx[i]]
  {
    seq(|idx|, i requires 0 <= i < |idx| => col[idx[i]])
  }

  /** `Filter` and `NullableFilter`: one column, without the rows that do not pass. */
  method FilterColumn<T>(col: seq<T>, f: Filter) returns (r: seq<T>)
    requires Fits(f, |col|)
    ensures r == At(col, Passing(f, |col|))
  {
    if f == NoFilter {
      AllPass(|col|);
      return col;
    }
    r := [];
    for i := 0 to |col|
      invariant r == At(col, Passing(f, i))
    {
      match f
      case NoFilter =>
      case Bytes(flags) =>
        if flags[i] > 0 { r := r + [col[i]]; }
      case NullableBytes(stored, present) =>
        if stored[i] > 0 && present[i] { r := r + [col[i]]; }
    }
  }

  lemma {:induction false} AllPass(n: nat)
    ensures Passing(NoFilter, n) == Ids(n)
  {
    if n > 0 { AllPass(n - 1); }
  }

  /** A list of columns. */
  method FilterColumns<T>(cols: seq<seq<T>>, len: nat, f: Filter) returns (r: seq<seq<T>>)
    requires Fits(f, len) && forall c :: 0 <= c < |cols| ==> |cols[c]| == len
    ensures |r| == |cols| && forall c :: 0 <= c < |r| ==> r[c] == At(cols[c], Passing(f, len))
  {
    r := [];
    for c := 0 to |cols|
      invariant |r| == c && forall k :: 0 <= k < c ==> r[k] == At(cols[k], Passing(f, len))
    {
      var col := FilterColumn(cols[c], f);
      r := r + [col];
    }
  }
}
