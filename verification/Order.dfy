/** The order on result rows.  A row key is the tuple of its group-by or order-by column
    values; every column has a direction (`desc`), and keys are compared lexicographically. */
module Order {

  type Key = seq<int>

  /** `Comparator::cmp`: `a` comes strictly before `b` in a column of the given direction. */
  predicate Before(desc: bool, a: int, b: int) {
    if desc then a > b else a < b
  }

  /** `Comparator::cmp_eq`. */
  predicate NotAfter(desc: bool, a: int, b: int) {
    if desc then a >= b else a <= b
  }

  /** The direction of column `p`. */
  predicate Direction(desc: seq<bool>, p: nat) {
    p < |desc| && desc[p]
  }

  /** `a` and `b` have the same first `c` columns. */
  ghost predicate Agree(c: nat, a: Key, b: Key) {
    c <= |a| && c <= |b| && forall t :: 0 <= t < c ==> a[t] == b[t]
  }

  /** Column `p` is the first in which `a` and `b` differ, and it puts `a` first. */
  ghost predicate DecidedAt(desc: seq<bool>, a: Key, b: Key, p: nat) {
    Agree(p, a, b) && p < |b| && (p == |a| || Before(Direction(desc, p), a[p], b[p]))
  }

  /** Lexicographic order on all keys. */
  ghost predicate Less(desc: seq<bool>, a: Key, b: Key) {
    exists p: nat :: DecidedAt(desc, a, b, p)
  }

  /** The first `c` columns put `a` before `b`. */
  ghost predicate LessWithin(desc: seq<bool>, c: nat, a: Key, b: Key) {
    exists p: nat :: p < c && p < |a| && DecidedAt(desc, a, b, p)
  }

  /** The order as a value, for the theory of merging, which needs no more than its laws. */
  ghost function KeyOrder(desc: seq<bool>): (Key, Key) -> bool {
    (a: Key, b: Key) => Less(desc, a, b)
  }

  ghost predicate StrictOrder<K(!new)>(lt: (K, K) -> bool) {
    && (forall x :: !lt(x, x))
    && (forall x, y, z :: lt(x, y) && lt(y, z) ==> lt(x, z))
    && (forall x, y :: x == y || lt(x, y) || lt(y, x))
  }

  lemma LessTransitive(desc: seq<bool>, a: Key, b: Key, c: Key)
    requires Less(desc, a, b) && Less(desc, b, c)
    ensures Less(desc, a, c)
  {
    var p: nat :| DecidedAt(desc, a, b, p);
    var q: nat :| DecidedAt(desc, b, c, q);
    assert DecidedAt(desc, a, c, if p < q then p else q);
  }

  lemma LessIrreflexive(desc: seq<bool>, a: Key)
    ensures !Less(desc, a, a)
  {
  }

  /** The first column in which two different keys differ. */
  lemma FirstDifference(a: Key, b: Key, p: nat) returns (d: nat)
    requires Agree(p, a, b) && a != b
    ensures Agree(d, a, b) && (d == |a| || d == |b| || a[d] != b[d]) && !(d == |a| == |b|)
    decreases |a| - p
  {
    if p == |a| || p == |b| || a[p] != b[p] {
      d := p;
    } else {
      d := FirstDifference(a, b, p + 1);
    }
  }

  lemma LessTotal(desc: seq<bool>, a: Key, b: Key)
    ensures a == b || Less(desc, a, b) || Less(desc, b, a)
  {
    if a != b {
      var d := FirstDifference(a, b, 0);
      assert DecidedAt(desc, a, b, d) || DecidedAt(desc, b, a, d);
    }
  }

  lemma KeyOrderIsStrict(desc: seq<bool>)
    ensures StrictOrder(KeyOrder(desc))
  {
    var lt := KeyOrder(desc);
    forall x: Key ensures !lt(x, x) {
      LessIrreflexive(desc, x);
    }
    forall x: Key, y: Key, z: Key | lt(x, y) && lt(y, z) ensures lt(x, z) {
      LessTransitive(desc, x, y, z);
    }
    forall x: Key, y: Key ensures x == y || lt(x, y) || lt(y, x) {
      LessTotal(desc, x, y);
    }
  }

  /** A key decided within its first columns is decided. */
  lemma WithinIsLess(desc: seq<bool>, c: nat, a: Key, b: Key)
    requires LessWithin(desc, c, a, b)
    ensures Less(desc, a, b) && !Less(desc, b, a) && a != b
  {
    LessIrreflexive(desc, a);
    if Less(desc, b, a) {
      LessTransitive(desc, a, b, a);
    }
  }

  /** Keys in order that agree on `c` columns have column `c` in order. */
  lemma ColumnInOrder(desc: seq<bool>, c: nat, a: Key, b: Key)
    requires Agree(c, a, b) && c < |a| && c < |b|
    requires !Less(desc, b, a)
    ensures NotAfter(Direction(desc, c), a[c], b[c])
  {
    assert DecidedAt(desc, b, a, c) || NotAfter(Direction(desc, c), a[c], b[c]);
  }

  /** Keys that agree on all columns but the last compare like their last column. */
  lemma CompareLast(desc: seq<bool>, c: nat, a: Key, b: Key)
    requires Agree(c, a, b) && |a| == |b| == c + 1
    ensures Less(desc, a, b) <==> Before(Direction(desc, c), a[c], b[c])
    ensures a == b <==> a[c] == b[c]
  {
    if Before(Direction(desc, c), a[c], b[c]) { assert DecidedAt(desc, a, b, c); }
  }
}
