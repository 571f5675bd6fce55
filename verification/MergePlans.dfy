/** Merge plans over whole rows, for any strict order on the rows. */
module MergePlans {
  import opened Order
  import opened Types
  import opened Seqs

  /** A deduplicating merge plan, replayed on the columns that were not compared. */
  datatype MergeOp = TakeLeft | TakeRight | MergeRight

  /** The plan that deduplicates two strictly sorted lists of rows. */
  ghost function RowOps<K>(lt: (K, K) -> bool, a: seq<K>, b: seq<K>): seq<MergeOp>
    decreases |a| + |b|
  {
    if a != [] && b != [] && a[0] == b[0] then [TakeLeft, MergeRight] + RowOps(lt, a[1..], b[1..])
    else if a != [] && (b == [] || lt(a[0], b[0])) then [TakeLeft] + RowOps(lt, a[1..], b)
    else if b != [] then [TakeRight] + RowOps(lt, a, b[1..])
    else []
  }

  /** A left row goes before a right row; `leftFirst` says which side wins ties. */
  ghost predicate Precedes<K>(lt: (K, K) -> bool, leftFirst: bool, a: K, b: K) {
    if leftFirst then !lt(b, a) else lt(a, b)
  }

  /** The plan that merges two sorted lists of rows: true takes from the left. */
  ghost function RowMerge<K>(lt: (K, K) -> bool, leftFirst: bool, a: seq<K>, b: seq<K>): seq<bool>
    decreases |a| + |b|
  {
    if a != [] && (b == [] || Precedes(lt, leftFirst, a[0], b[0]))
    then [true] + RowMerge(lt, leftFirst, a[1..], b)
    else if b != [] then [false] + RowMerge(lt, leftFirst, a, b[1..])
    else []
  }

  ghost predicate Strict<K>(lt: (K, K) -> bool, s: seq<K>) {
    forall i, j :: 0 <= i < j < |s| ==> lt(s[i], s[j])
  }

  ghost predicate Sorted<K>(lt: (K, K) -> bool, s: seq<K>) {
    forall i, j :: 0 <= i < j < |s| ==> !lt(s[j], s[i])
  }

  /** Every row of `x` comes before every row of `y`. */
  ghost predicate AllLess<K>(lt: (K, K) -> bool, x: seq<K>, y: seq<K>) {
    forall i, j :: 0 <= i < |x| && 0 <= j < |y| ==> lt(x[i], y[j])
  }

  /** Rows before and rows after a separation point are merged independently. */
  lemma {:induction false} RowOpsSplit<K(!new)>(lt: (K, K) -> bool, a1: seq<K>, b1: seq<K>, a2: seq<K>, b2: seq<K>)
    requires StrictOrder(lt)
    requires AllLess(lt, a1, b2) && AllLess(lt, b1, a2)
    ensures RowOps(lt, a1 + a2, b1 + b2) == RowOps(lt, a1, b1) + RowOps(lt, a2, b2)
    decreases |a1| + |b1|
  {
    if a1 != [] && b1 != [] && a1[0] == b1[0] {
      ConsAppend(a1, a2);
      ConsAppend(b1, b2);
      RowOpsSplit(lt, a1[1..], b1[1..], a2, b2);
    } else if a1 != [] && (b1 == [] || lt(a1[0], b1[0])) {
      ConsAppend(a1, a2);
      RowOpsSplit(lt, a1[1..], b1, a2, b2);
      Associate([TakeLeft], RowOps(lt, a1[1..], b1), RowOps(lt, a2, b2));
    } else if b1 != [] {
      ConsAppend(b1, b2);
      RowOpsSplit(lt, a1, b1[1..], a2, b2);
      Associate([TakeRight], RowOps(lt, a1, b1[1..]), RowOps(lt, a2, b2));
    } else {
      assert a1 + a2 == a2 && b1 + b2 == b2;
    }
  }
}
