/** Merging two group-by results.  `Merge` is the meaning; replaying a row merge plan on the key
    columns (`merge_drop`) and on an aggregate column (`merge_aggregate`) computes it. */
module GroupMerge {
  import opened Order
  import opened Types
  import opened MergePlans
  import opened DedupMerge
  import opened Seqs

  datatype Aggregator = SumI64 | Count | MaxI64 | MinI64 | SumF64 | MaxF64 | MinF64
  /** Combining two partial aggregates, without regard to integer width. */
  function Join(op: Aggregator, a: int, b: int): int {
    match op
    case SumI64 | Count => a + b
    case MaxI64 => if a < b then b else a
    case MinI64 => if a < b then a else b
    case _ => 0
  }

  predicate IntegerAggregator(op: Aggregator) {
    op.SumI64? || op.Count? || op.MaxI64? || op.MinI64?
  }

  /** `Combinable<i64>::combine`. */
  function Combine(op: Aggregator, a: int, b: int): (r: Result<int>)
    ensures r.Ok? <==> IntegerAggregator(op) && (op.SumI64? ==> InI64(a + b))
    ensures r.Ok? ==> r.value == Join(op, a, b)
  {
    match op
    case SumI64 => if InI64(a + b) then Ok(a + b) else Err(Overflow)
    case Count => Ok(a + b)
    case MaxI64 => Ok(if b >= a then b else a)
    case MinI64 => Ok(if a <= b then a else b)
    case _ => Err(FatalError)
  }

  // ---------------------------------------------------------------- replaying a plan

  ghost function LeftTaken(ops: seq<MergeOp>): nat {
    if ops == [] then 0 else (if ops[0] == TakeLeft then 1 else 0) + LeftTaken(ops[1..])
  }

  ghost function RightTaken(ops: seq<MergeOp>): nat {
    if ops == [] then 0 else (if ops[0] == TakeLeft then 0 else 1) + RightTaken(ops[1..])
  }

  /** What `merge_drop` makes of a column that was not compared. */
  function Replay<T>(ops: seq<MergeOp>, a: seq<T>, b: seq<T>): seq<T>
    requires LeftTaken(ops) <= |a| && RightTaken(ops) <= |b|
  {
    if ops == [] then []
    else match ops[0]
      case TakeLeft => [a[0]] + Replay(ops[1..], a[1..], b)
      case TakeRight => [b[0]] + Replay(ops[1..], a, b[1..])
      case MergeRight => Replay(ops[1..], a, b[1..])
  }

  /** What `merge_aggregate` makes of an aggregate column; `acc` is the result so far. */
  function Aggregate(op: Aggregator, ops: seq<MergeOp>, a: seq<int>, b: seq<int>, acc: seq<int>): Result<seq<int>>
    requires LeftTaken(ops) <= |a| && RightTaken(ops) <= |b|
    requires ops != [] && ops[0] == MergeRight ==> acc != []
    decreases |ops|
  {
    if ops == [] then Ok(acc)
    else match ops[0]
      case TakeLeft => Aggregate(op, ops[1..], a[1..], b, acc + [a[0]])
      case TakeRight => Aggregate(op, ops[1..], a, b[1..], acc + [b[0]])
      case MergeRight =>
        var last := |acc| - 1;
        match Combine(op, acc[last], b[0])
        case Ok(v) => Aggregate(op, ops[1..], a, b[1..], acc[last := v])
        case Err(e) => Err(e)
  }

  // ---------------------------------------------------------------- the meaning

  /** A group: its key and one of its aggregates. */
  datatype Group<K> = Group(key: K, val: int)

  ghost function Keys<K>(g: seq<Group<K>>): (k: seq<K>)
    ensures |k| == |g| && forall i :: 0 <= i < |g| ==> k[i] == g[i].key
  {
    if g == [] then [] else [g[0].key] + Keys(g[1..])
  }

  ghost function Values<K>(g: seq<Group<K>>): (v: seq<int>)
    ensures |v| == |g| && forall i :: 0 <= i < |g| ==> v[i] == g[i].val
  {
    if g == [] then [] else [g[0].val] + Values(g[1..])
  }

  /** A group-by result: its keys are in strictly increasing order. */
  ghost predicate Grouped<K>(lt: (K, K) -> bool, g: seq<Group<K>>) {
    forall i, j :: 0 <= i < j < |g| ==> lt(g[i].key, g[j].key)
  }

  ghost function Merge<K>(lt: (K, K) -> bool, op: Aggregator, a: seq<Group<K>>, b: seq<Group<K>>): seq<Group<K>>
    decreases |a| + |b|
  {
    if a != [] && b != [] && a[0].key == b[0].key then
      [Group(a[0].key, Join(op, a[0].val, b[0].val))] + Merge(lt, op, a[1..], b[1..])
    else if a != [] && (b == [] || lt(a[0].key, b[0].key)) then
      [a[0]] + Merge(lt, op, a[1..], b)
    else if b != [] then
      [b[0]] + Merge(lt, op, a, b[1..])
    else []
  }

  /** No pair of groups to be joined overflows. */
  ghost predicate Joinable<K>(op: Aggregator, a: seq<Group<K>>, b: seq<Group<K>>) {
    forall i, j :: 0 <= i < |a| && 0 <= j < |b| && a[i].key == b[j].key ==> Combine(op, a[i].val, b[j].val).Ok?
  }

  lemma {:induction false} RowOpsTakeAll<K(!new)>(lt: (K, K) -> bool, a: seq<K>, b: seq<K>)
    ensures LeftTaken(RowOps(lt, a, b)) == |a| && RightTaken(RowOps(lt, a, b)) == |b|
    ensures RowOps(lt, a, b) != [] ==> RowOps(lt, a, b)[0] != MergeRight
    decreases |a| + |b|
  {
    if a != [] && b != [] && a[0] == b[0] {
      RowOpsTakeAll(lt, a[1..], b[1..]);
      var rest := RowOps(lt, a[1..], b[1..]);
      var ops := [TakeLeft, MergeRight] + rest;
      assert ops[1..] == [MergeRight] + rest && ops[1..][1..] == rest;
    } else if a != [] && (b == [] || lt(a[0], b[0])) {
      RowOpsTakeAll(lt, a[1..], b);
    } else if b != [] {
      RowOpsTakeAll(lt, a, b[1..]);
    }
  }

  lemma TailKeys<K(!new)>(g: seq<Group<K>>)
    requires g != []
    ensures Keys(g[1..]) == Keys(g)[1..] && Values(g[1..]) == Values(g)[1..]
  {
  }

  /** Replaying the row plan on the keys gives the merged keys. */
  lemma {:induction false} ReplayKeys<K(!new)>(lt: (K, K) -> bool, op: Aggregator, a: seq<Group<K>>, b: seq<Group<K>>)
    ensures var ops := RowOps(lt, Keys(a), Keys(b));
            && LeftTaken(ops) <= |a| && RightTaken(ops) <= |b|
            && Replay(ops, Keys(a), Keys(b)) == Keys(Merge(lt, op, a, b))
    decreases |a| + |b|
  {
    var ka, kb := Keys(a), Keys(b);
    var ops := RowOps(lt, ka, kb);
    RowOpsTakeAll(lt, ka, kb);
    if a != [] { TailKeys(a); }
    if b != [] { TailKeys(b); }
    if a != [] && b != [] && a[0].key == b[0].key {
      ReplayKeys(lt, op, a[1..], b[1..]);
      var rest := RowOps(lt, ka[1..], kb[1..]);
      assert ops[1..] == [MergeRight] + rest && ops[1..][1..] == rest;
      assert Replay(ops[1..], ka[1..], kb) == Replay(rest, ka[1..], kb[1..]);
    } else if a != [] && (b == [] || lt(a[0].key, b[0].key)) {
      ReplayKeys(lt, op, a[1..], b);
    } else if b != [] {
      ReplayKeys(lt, op, a, b[1..]);
    }
  }

  lemma GroupedTail<K(!new)>(lt: (K, K) -> bool, g: seq<Group<K>>)
    requires StrictOrder(lt) && g != [] && Grouped(lt, g)
    ensures Grouped(lt, g[1..])
    ensures forall j :: 1 <= j < |g| ==> lt(g[0].key, g[j].key) && g[0].key != g[j].key
  {
  }

  /** A key before the first key of a group-by result does not occur in it. */
  lemma Absent<K(!new)>(lt: (K, K) -> bool, k: K, g: seq<Group<K>>)
    requires StrictOrder(lt) && Grouped(lt, g)
    requires g != [] ==> lt(k, g[0].key)
    ensures forall j :: 0 <= j < |g| ==> lt(k, g[j].key) && g[j].key != k
  {
  }

  lemma JoinableEqual<K(!new)>(lt: (K, K) -> bool, op: Aggregator, a: seq<Group<K>>, b: seq<Group<K>>)
    requires StrictOrder(lt) && Grouped(lt, a) && Grouped(lt, b)
    requires a != [] && b != [] && a[0].key == b[0].key
    ensures Joinable(op, a, b) <==> Combine(op, a[0].val, b[0].val).Ok? && Joinable(op, a[1..], b[1..])
  {
    GroupedTail(lt, a);
    GroupedTail(lt, b);
    var x, y := a[1..], b[1..];
    if Combine(op, a[0].val, b[0].val).Ok? && Joinable(op, x, y) {
      forall i, j | 0 <= i < |a| && 0 <= j < |b| && a[i].key == b[j].key
        ensures Combine(op, a[i].val, b[j].val).Ok?
      {
        if i > 0 && j > 0 { assert a[i] == x[i - 1] && b[j] == y[j - 1]; }
      }
    }
    if Joinable(op, a, b) {
      forall i, j | 0 <= i < |x| && 0 <= j < |y| && x[i].key == y[j].key
        ensures Combine(op, x[i].val, y[j].val).Ok?
      {
        assert x[i] == a[i + 1] && y[j] == b[j + 1];
      }
    }
  }

  lemma JoinableDrop<K>(op: Aggregator, a: seq<Group<K>>, b: seq<Group<K>>)
    ensures a != [] && (forall j :: 0 <= j < |b| ==> b[j].key != a[0].key) ==> (Joinable(op, a, b) <==> Joinable(op, a[1..], b))
    ensures b != [] && (forall i :: 0 <= i < |a| ==> a[i].key != b[0].key) ==> (Joinable(op, a, b) <==> Joinable(op, a, b[1..]))
  {
    if a != [] {
      var x := a[1..];
      assert forall i :: 0 <= i < |x| ==> x[i] == a[i + 1];
      assert forall i :: 1 <= i < |a| ==> a[i] == x[i - 1];
    }
    if b != [] {
      var y := b[1..];
      assert forall i :: 0 <= i < |y| ==> y[i] == b[i + 1];
      assert forall i :: 1 <= i < |b| ==> b[i] == y[i - 1];
    }
  }

  lemma AggregateJoin(op: Aggregator, rest: seq<MergeOp>, a: seq<int>, b: seq<int>, acc: seq<int>)
    requires a != [] && b != []
    requires LeftTaken(rest) <= |a| - 1 && RightTaken(rest) <= |b| - 1
    requires rest != [] ==> rest[0] != MergeRight
    ensures var ops := [TakeLeft, MergeRight] + rest;
            && LeftTaken(ops) <= |a| && RightTaken(ops) <= |b|
            && Aggregate(op, ops, a, b, acc) ==
               if Combine(op, a[0], b[0]).Err? then Err(Combine(op, a[0], b[0]).error)
               else Aggregate(op, rest, a[1..], b[1..], acc + [Combine(op, a[0], b[0]).value])
  {
    var ops := [TakeLeft, MergeRight] + rest;
    assert ops[1..] == [MergeRight] + rest && ops[1..][1..] == rest;
    var acc' := acc + [a[0]];
    assert Aggregate(op, ops, a, b, acc) == Aggregate(op, ops[1..], a[1..], b, acc');
    if Combine(op, a[0], b[0]).Ok? {
      var v := Combine(op, a[0], b[0]).value;
      assert acc'[|acc| := v] == acc + [v];
    }
  }

  /** Replaying the row plan on an aggregate column joins the values of equal keys; it fails if
      and only if one of these joins does. */
  lemma {:induction false} AggregateValues<K(!new)>(lt: (K, K) -> bool, op: Aggregator, a: seq<Group<K>>, b: seq<Group<K>>, acc: seq<int>)
    requires StrictOrder(lt) && Grouped(lt, a) && Grouped(lt, b)
    ensures var ops := RowOps(lt, Keys(a), Keys(b));
            && LeftTaken(ops) <= |a| && RightTaken(ops) <= |b|
            && (ops != [] && ops[0] == MergeRight ==> acc != [])
            && var r := Aggregate(op, ops, Values(a), Values(b), acc);
            && (r.Ok? <==> Joinable(op, a, b))
            && (r.Ok? ==> r.value == acc + Values(Merge(lt, op, a, b)))
    decreases |a| + |b|
  {
    var ka, kb, va, vb := Keys(a), Keys(b), Values(a), Values(b);
    RowOpsTakeAll(lt, ka, kb);
    if a != [] { TailKeys(a); GroupedTail(lt, a); }
    if b != [] { TailKeys(b); GroupedTail(lt, b); }
    if a != [] && b != [] && a[0].key == b[0].key {
      RowOpsTakeAll(lt, ka[1..], kb[1..]);
      AggregateJoin(op, RowOps(lt, ka[1..], kb[1..]), va, vb, acc);
      JoinableEqual(lt, op, a, b);
      var v := Join(op, a[0].val, b[0].val);
      AggregateValues(lt, op, a[1..], b[1..], acc + [v]);
      Associate(acc, [v], Values(Merge(lt, op, a[1..], b[1..])));
    } else if a != [] && (b == [] || lt(a[0].key, b[0].key)) {
      Absent(lt, a[0].key, b);
      JoinableDrop(op, a, b);
      AggregateValues(lt, op, a[1..], b, acc + [va[0]]);
      Associate(acc, [va[0]], Values(Merge(lt, op, a[1..], b)));
    } else if b != [] {
      Absent(lt, b[0].key, a);
      JoinableDrop(op, a, b);
      AggregateValues(lt, op, a, b[1..], acc + [vb[0]]);
      Associate(acc, [vb[0]], Values(Merge(lt, op, a, b[1..])));
    } else {
      assert acc + Values(Merge(lt, op, a, b)) == acc;
    }
  }
}
