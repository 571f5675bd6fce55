/** Deduplicating merges of strictly sorted rows: how a plan grows step by step, and how many
    groups a partitioning is sure to yield. */
module DedupMerge {
  import opened Order
  import opened Types
  import opened MergePlans
  import opened Partitioning
  import opened Seqs

  /** The next right row is equal to the left row taken last. */
  ghost predicate Pending<K>(a: seq<K>, b: seq<K>, i: nat, j: nat) {
    0 < i <= |a| && j < |b| && a[i - 1] == b[j]
  }

  /** The rows before the cursors come before the rows at and behind them, but for a pending one. */
  ghost predicate Ahead<K>(lt: (K, K) -> bool, a: seq<K>, b: seq<K>, i: nat, j: nat)
    requires i <= |a| && j <= |b|
  {
    && (forall x, y :: i <= x < |a| && 0 <= y < j ==> lt(b[y], a[x]))
    && (forall x, y :: 0 <= x < i && j <= y < |b| ==> lt(a[x], b[y]) || (x == i - 1 && y == j && a[x] == b[y]))
  }

  /** The state of a deduplicating merge. */
  ghost predicate Merging<K(!new)>(lt: (K, K) -> bool, a: seq<K>, b: seq<K>, i: nat, j: nat, ops: seq<MergeOp>) {
    && StrictOrder(lt) && Strict(lt, a) && Strict(lt, b)
    && i <= |a| && j <= |b| && Ahead(lt, a, b, i, j)
    && ops == RowOps(lt, a[..i], b[..j])
  }

  lemma Singles<K>(lt: (K, K) -> bool, x: K)
    ensures RowOps(lt, [x], []) == [TakeLeft]
    ensures RowOps(lt, [], [x]) == [TakeRight]
    ensures RowOps(lt, [x], [x]) == [TakeLeft, MergeRight]
  {
    assert [x][1..] == [];
  }

  lemma GrowLeft<K(!new)>(lt: (K, K) -> bool, a: seq<K>, b: seq<K>, i: nat, j: nat)
    requires StrictOrder(lt) && i < |a| && j <= |b|
    requires forall y :: 0 <= y < j ==> lt(b[y], a[i])
    ensures RowOps(lt, a[..i + 1], b[..j]) == RowOps(lt, a[..i], b[..j]) + [TakeLeft]
  {
    RowOpsSplit(lt, a[..i], b[..j], [a[i]], []);
    Singles(lt, a[i]);
    assert a[..i] + [a[i]] == a[..i + 1] && b[..j] + [] == b[..j];
  }

  lemma GrowRight<K(!new)>(lt: (K, K) -> bool, a: seq<K>, b: seq<K>, i: nat, j: nat)
    requires StrictOrder(lt) && i <= |a| && j < |b|
    requires forall x :: 0 <= x < i ==> lt(a[x], b[j])
    ensures RowOps(lt, a[..i], b[..j + 1]) == RowOps(lt, a[..i], b[..j]) + [TakeRight]
  {
    RowOpsSplit(lt, a[..i], b[..j], [], [b[j]]);
    Singles(lt, b[j]);
    assert a[..i] + [] == a[..i] && b[..j] + [b[j]] == b[..j + 1];
  }

  lemma GrowMerge<K(!new)>(lt: (K, K) -> bool, a: seq<K>, b: seq<K>, i: nat, j: nat)
    requires StrictOrder(lt) && 0 < i <= |a| && j < |b| && a[i - 1] == b[j]
    requires forall x :: 0 <= x < i - 1 ==> lt(a[x], b[j])
    requires forall y :: 0 <= y < j ==> lt(b[y], b[j])
    ensures RowOps(lt, a[..i], b[..j + 1]) == RowOps(lt, a[..i], b[..j]) + [MergeRight]
  {
    var v := b[j];
    var before := RowOps(lt, a[..i - 1], b[..j]);
    assert a[..i] == a[..i - 1] + [v] && b[..j + 1] == b[..j] + [v];
    GrowLeft(lt, a, b, i - 1, j);
    RowOpsSplit(lt, a[..i - 1], b[..j], [v], [v]);
    Singles(lt, v);
    Associate(before, [TakeLeft], [MergeRight]);
    assert [TakeLeft] + [MergeRight] == [TakeLeft, MergeRight];
  }

  lemma TakeLeftStep<K(!new)>(lt: (K, K) -> bool, a: seq<K>, b: seq<K>, i: nat, j: nat, ops: seq<MergeOp>)
    requires Merging(lt, a, b, i, j, ops) && i < |a| && !Pending(a, b, i, j)
    requires j < |b| ==> !lt(b[j], a[i])
    ensures Merging(lt, a, b, i + 1, j, ops + [TakeLeft])
  {
    GrowLeft(lt, a, b, i, j);
  }

  lemma TakeRightStep<K(!new)>(lt: (K, K) -> bool, a: seq<K>, b: seq<K>, i: nat, j: nat, ops: seq<MergeOp>)
    requires Merging(lt, a, b, i, j, ops) && j < |b| && !Pending(a, b, i, j)
    requires i < |a| ==> lt(b[j], a[i])
    ensures Merging(lt, a, b, i, j + 1, ops + [TakeRight]) && !Pending(a, b, i, j + 1)
  {
    GrowRight(lt, a, b, i, j);
  }

  lemma MergeRightStep<K(!new)>(lt: (K, K) -> bool, a: seq<K>, b: seq<K>, i: nat, j: nat, ops: seq<MergeOp>)
    requires Merging(lt, a, b, i, j, ops) && Pending(a, b, i, j)
    ensures Merging(lt, a, b, i, j + 1, ops + [MergeRight]) && !Pending(a, b, i, j + 1)
  {
    GrowMerge(lt, a, b, i, j);
  }

  // ---------------------------------------------------------------- how many groups come out

  /** The rows a plan emits. */
  ghost function Emitted(ops: seq<MergeOp>): nat {
    if ops == [] then 0 else (if ops[0] == MergeRight then 0 else 1) + Emitted(ops[1..])
  }

  lemma {:induction false} EmittedAppend(x: seq<MergeOp>, y: seq<MergeOp>)
    ensures Emitted(x + y) == Emitted(x) + Emitted(y)
  {
    if x == [] {
      assert x + y == y;
    } else {
      ConsAppend(x, y);
      EmittedAppend(x[1..], y);
    }
  }

  lemma {:induction false} EmittedRowOps<K>(lt: (K, K) -> bool, a: seq<K>, b: seq<K>)
    ensures Emitted(RowOps(lt, a, b)) >= Max(|a|, |b|)
    decreases |a| + |b|
  {
    if a != [] && b != [] && a[0] == b[0] {
      EmittedRowOps(lt, a[1..], b[1..]);
      EmittedAppend([TakeLeft, MergeRight], RowOps(lt, a[1..], b[1..]));
      assert Emitted([TakeLeft, MergeRight]) == 1 + Emitted([TakeLeft, MergeRight][1..]);
    } else if a != [] && (b == [] || lt(a[0], b[0])) {
      EmittedRowOps(lt, a[1..], b);
    } else if b != [] {
      EmittedRowOps(lt, a, b[1..]);
    }
  }

  /** A further block of rows adds at least as many groups as its longer side has rows. */
  lemma EmittedBlock<K(!new)>(lt: (K, K) -> bool, a: seq<K>, b: seq<K>, i: nat, j: nat, i': nat, j': nat)
    requires StrictOrder(lt) && i <= i' <= |a| && j <= j' <= |b|
    requires forall x, y :: 0 <= x < i && j <= y < |b| ==> lt(a[x], b[y])
    requires forall x, y :: i <= x < |a| && 0 <= y < j ==> lt(b[y], a[x])
    ensures Emitted(RowOps(lt, a[..i'], b[..j'])) >= Emitted(RowOps(lt, a[..i], b[..j])) + Max(i' - i, j' - j)
  {
    RowOpsSplit(lt, a[..i], b[..j], a[i..i'], b[j..j']);
    assert a[..i] + a[i..i'] == a[..i'] && b[..j] + b[j..j'] == b[..j'];
    EmittedRowOps(lt, a[i..i'], b[j..j']);
    EmittedAppend(RowOps(lt, a[..i], b[..j]), RowOps(lt, a[i..i'], b[j..j']));
  }

  /** The weight of a partitioning never exceeds the groups it leads to. */
  lemma {:induction false} WeightSound(desc: seq<bool>, c: nat, p: seq<Premerge>, a: seq<Key>, b: seq<Key>, g: nat)
    requires Runs(desc, c, p, a, b) && g <= |p|
    ensures Lefts(p, g) <= |a| && Rights(p, g) <= |b|
    ensures Weight(p, g) <= Emitted(RowOps(KeyOrder(desc), a[..Lefts(p, g)], b[..Rights(p, g)]))
  {
    CutOff(desc, c, p, a, b, g);
    if g > 0 {
      CutOff(desc, c, p, a, b, g - 1);
      WeightSound(desc, c, p, a, b, g - 1);
      KeyOrderIsStrict(desc);
      EmittedBlock(KeyOrder(desc), a, b, Lefts(p, g - 1), Rights(p, g - 1), Lefts(p, g), Rights(p, g));
    }
  }
}
