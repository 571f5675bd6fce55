/** A column codec is a postfix program for a stack machine.  `ensure_property` splits it in two:
    what must be executed to restore a property, and the rest, which preserves it. */
module Codec {
  import opened Seqs

  datatype CodecOp =
    | Nullable | Add(amount: int) | Delta | ToI64 | PushDataSection(section: nat) | DictLookup | LZ4
    | UnpackStrings | UnhexpackStrings | Unknown

  /** How many values an operation takes off the stack when decoding. */
  function Arity(op: CodecOp): nat {
    match op
    case Nullable => 2
    case PushDataSection(_) => 0
    case DictLookup => 3
    case _ => 1
  }

  /** `arg_count`, which counts none for `Nullable`. */
  function ArgCount(op: CodecOp): nat {
    match op
    case Nullable => 0
    case PushDataSection(_) => 0
    case DictLookup => 3
    case _ => 1
  }

  /** The properties that the engine asks for. */
  datatype Property = SummationPreserving | OrderPreserving | ElementwiseDecodable

  predicate Has(p: Property, op: CodecOp) {
    match op
    case Add(x) => p.SummationPreserving? ==> x == 0
    case ToI64 => true
    case PushDataSection(_) => true
    case DictLookup => !p.SummationPreserving?
    case _ => false
  }

  // ---------------------------------------------------------------- decoding

  /** The plan that decoding builds. */
  datatype Plan = Input | Section(i: nat) | Apply(op: CodecOp, args: seq<Plan>)

  /** One step of `decode_ops`. */
  function Step(op: CodecOp, stack: seq<Plan>): (r: seq<Plan>)
    requires |stack| >= Arity(op)
    ensures |r| == |stack| - Arity(op) + 1
  {
    var n := |stack| - Arity(op);
    stack[..n] + [if op.PushDataSection? then Section(op.section) else Apply(op, stack[n..])]
  }

  /** The depth of the stack after `ops`, from depth `d`; each operation must find its operands. */
  ghost predicate Runs(ops: seq<CodecOp>, d: nat) {
    ops == [] || (d >= Arity(ops[0]) && Runs(ops[1..], d - Arity(ops[0]) + 1))
  }

  ghost function Depth(ops: seq<CodecOp>, d: nat): nat
    requires Runs(ops, d)
  {
    if ops == [] then d else Depth(ops[1..], d - Arity(ops[0]) + 1)
  }

  ghost function Exec(ops: seq<CodecOp>, stack: seq<Plan>): (r: seq<Plan>)
    requires Runs(ops, |stack|)
    ensures |r| == Depth(ops, |stack|)
  {
    if ops == [] then stack else Exec(ops[1..], Step(ops[0], stack))
  }

  lemma {:induction false} RunsAppend(x: seq<CodecOp>, y: seq<CodecOp>, d: nat)
    ensures Runs(x + y, d) <==> Runs(x, d) && Runs(y, Depth(x, d))
    ensures Runs(x + y, d) ==> Depth(x + y, d) == Depth(y, Depth(x, d))
  {
    if x == [] {
      assert x + y == y;
    } else {
      ConsAppend(x, y);
      if d >= Arity(x[0]) {
        RunsAppend(x[1..], y, d - Arity(x[0]) + 1);
      }
    }
  }

  lemma {:induction false} ExecAppend(x: seq<CodecOp>, y: seq<CodecOp>, stack: seq<Plan>)
    requires Runs(x, |stack|) && Runs(y, Depth(x, |stack|)) && Runs(x + y, |stack|)
    ensures Exec(x + y, stack) == Exec(y, Exec(x, stack))
  {
    if x == [] {
      assert x + y == y;
    } else {
      ConsAppend(x, y);
      ExecAppend(x[1..], y, Step(x[0], stack));
    }
  }

  /** The codec runs on a single value and leaves a single value, and `Nullable` is applied only
      to the column itself, not within an argument. */
  ghost predicate WellFormed(ops: seq<CodecOp>) {
    && Runs(ops, 1) && Depth(ops, 1) == 1 && Unknown !in ops
    && forall k :: 0 <= k < |ops| && ops[k] == Nullable ==> DepthAt(ops, k + 1) == 1
  }

  /** The depth after the first `k` operations. */
  ghost function DepthAt(ops: seq<CodecOp>, k: nat): nat
    requires k <= |ops| && Runs(ops, 1)
  {
    Rejoin(ops, k);
    RunsAppend(ops[..k], ops[k..], 1);
    Depth(ops[..k], 1)
  }

  lemma DepthStep(ops: seq<CodecOp>, k: nat)
    requires k < |ops| && Runs(ops, 1)
    ensures DepthAt(ops, k) >= Arity(ops[k]) && DepthAt(ops, k + 1) == DepthAt(ops, k) - Arity(ops[k]) + 1
  {
    Rejoin(ops, k);
    Rejoin(ops, k + 1);
    RunsAppend(ops[..k], ops[k..], 1);
    RunsAppend(ops[..k + 1], ops[k + 1..], 1);
    assert ops[..k + 1] == ops[..k] + [ops[k]];
    RunsAppend(ops[..k], [ops[k]], 1);
    assert [ops[k]][1..] == [];
  }

  lemma {:induction false} DepthPositive(ops: seq<CodecOp>, k: nat)
    requires k <= |ops| && Runs(ops, 1)
    ensures DepthAt(ops, k) >= 1
  {
    if k > 0 {
      DepthPositive(ops, k - 1);
      DepthStep(ops, k - 1);
    }
  }

  /** `decode_ops`: the stack never runs empty, and a single plan is left. */
  method DecodeOps(ops: seq<CodecOp>, column: Plan) returns (plan: Plan)
    requires WellFormed(ops)
    ensures Exec(ops, [column]) == [plan]
  {
    var stack := [column];
    for i := 0 to |ops|
      invariant Runs(ops[..i], 1) && stack == Exec(ops[..i], [column]) && |stack| == DepthAt(ops, i)
    {
      DepthStep(ops, i);
      assert ops[..i + 1] == ops[..i] + [ops[i]] && [ops[i]][1..] == [];
      RunsAppend(ops[..i], [ops[i]], 1);
      ExecAppend(ops[..i], [ops[i]], [column]);
      stack := Step(ops[i], stack);
    }
    assert ops[..|ops|] == ops;
    plan := stack[0];
  }

  /** Operation `k` is on the spine: it is applied to the column, not within an argument. */
  ghost predicate Spine(ops: seq<CodecOp>, k: nat)
    requires Runs(ops, 1)
  {
    k < |ops| && DepthAt(ops, k + 1) == 1
  }

  // ---------------------------------------------------------------- walking backwards

  ghost function Reverse<T>(s: seq<T>): (r: seq<T>)
    ensures |r| == |s| && forall i :: 0 <= i < |s| ==> r[i] == s[|s| - 1 - i]
  {
    if s == [] then [] else Reverse(s[1..]) + [s[0]]
  }

  /** The operations from `j` up to `k` compute one argument: the depth goes up by one and never
      falls back in between. */
  ghost predicate Argument(ops: seq<CodecOp>, j: nat, k: nat)
    requires Runs(ops, 1)
  {
    && j < k <= |ops| && DepthAt(ops, k) == DepthAt(ops, j) + 1
    && forall m :: j < m <= k ==> DepthAt(ops, m) > DepthAt(ops, j)
  }

  /** As many arguments in a row. */
  ghost predicate Arguments(ops: seq<CodecOp>, j: nat, k: nat, n: nat)
    requires Runs(ops, 1)
  {
    && j <= k <= |ops| && DepthAt(ops, k) == DepthAt(ops, j) + n
    && forall m :: j < m <= k ==> DepthAt(ops, m) > DepthAt(ops, j)
  }

  /** `pop_push`: takes one argument off the end of `ops`, the first `k` operations of a codec, and
      moves it to `push` in reverse.  `pop` does the same without keeping it. */
  method PopPush(ghost all: seq<CodecOp>, ops: seq<CodecOp>, push: seq<CodecOp>) returns (ops': seq<CodecOp>, push': seq<CodecOp>)
    requires WellFormed(all) && ops <= all && DepthAt(all, |ops|) >= 2
    ensures ops' <= all && Argument(all, |ops'|, |ops|)
    ensures push' == push + Reverse(all[|ops'|..|ops|])
    decreases |ops|
  {
    if ops == [] {
      assert false;
      return ops, push;
    }
    var k := |ops| - 1;
    var op := ops[k];
    DepthStep(all, k);
    ops', push' := ops[..k], push + [op];
    ghost var d := DepthAt(all, k);
    ReverseOne(all, k);
    for n := 0 to ArgCount(op)
      invariant ops' <= all && |ops'| <= k && Arguments(all, |ops'|, k, n)
      invariant push' == push + Reverse(all[|ops'|..|ops|])
    {
      ghost var j := |ops'|;
      ops', push' := PopPush(all, ops', push');
      ReverseJoin(all, |ops'|, j, |ops|);
      Associate(push, Reverse(all[j..|ops|]), Reverse(all[|ops'|..j]));
      assert DepthAt(all, j) == DepthAt(all, |ops'|) + 1;
    }
  }

  lemma ReverseOne(all: seq<CodecOp>, k: nat)
    requires k < |all|
    ensures Reverse(all[k..k + 1]) == [all[k]]
  {
  }

  lemma ReverseJoin(all: seq<CodecOp>, i: nat, j: nat, k: nat)
    requires i <= j <= k <= |all|
    ensures Reverse(all[j..k]) + Reverse(all[i..j]) == Reverse(all[i..k])
  {
  }

  // ---------------------------------------------------------------- properties of a codec

  /** Every operation on the spine has the property. */
  ghost predicate AllHave(p: Property, ops: seq<CodecOp>, from: nat)
    requires Runs(ops, 1)
  {
    forall k :: from <= k && Spine(ops, k) ==> Has(p, ops[k])
  }

  /** Takes `n` arguments off the end of the first `k` operations. */
  method PopArguments(ghost all: seq<CodecOp>, ops: seq<CodecOp>, push: seq<CodecOp>, n: nat) returns (ops': seq<CodecOp>, push': seq<CodecOp>)
    requires WellFormed(all) && ops <= all && DepthAt(all, |ops|) > n && push == Reverse(all[|ops|..])
    ensures ops' <= all && Arguments(all, |ops'|, |ops|, n) && push' == Reverse(all[|ops'|..])
  {
    ops', push' := ops, push;
    for m := 0 to n
      invariant ops' <= all && Arguments(all, |ops'|, |ops|, m) && push' == Reverse(all[|ops'|..])
    {
      ghost var j := |ops'|;
      ops', push' := PopPush(all, ops', push');
      ReverseRest(all, |ops'|, j);
      OneMoreArgument(all, |ops'|, j, |ops|, m);
    }
  }

  lemma ReverseRest(all: seq<CodecOp>, i: nat, j: nat)
    requires i <= j <= |all|
    ensures Reverse(all[j..]) + Reverse(all[i..j]) == Reverse(all[i..])
  {
  }

  lemma OneMoreArgument(all: seq<CodecOp>, i: nat, j: nat, k: nat, m: nat)
    requires Runs(all, 1) && Argument(all, i, j) && Arguments(all, j, k, m)
    ensures Arguments(all, i, k, m + 1)
  {
    assert DepthAt(all, j) == DepthAt(all, i) + 1;
  }

  /** Takes an operation that has the property, and all its arguments but the column, off the
      end. */
  method PopSpine(ghost all: seq<CodecOp>, p: Property, ops: seq<CodecOp>, push: seq<CodecOp>) returns (ops': seq<CodecOp>, push': seq<CodecOp>)
    requires WellFormed(all) && ops <= all && ops != [] && DepthAt(all, |ops|) == 1 && Has(p, ops[|ops| - 1])
    requires AllHave(p, all, |ops|) && push == Reverse(all[|ops|..])
    ensures ops' <= all && |ops'| < |ops| && DepthAt(all, |ops'|) == 1
    ensures AllHave(p, all, |ops'|) && push' == Reverse(all[|ops'|..])
  {
    var k := |ops| - 1;
    var op := ops[k];
    DepthStep(all, k);
    DepthPositive(all, k);
    ReverseOne(all, k);
    ReverseRest(all, k, |ops|);
    ops', push' := PopArguments(all, ops[..k], push + [op], ArgCount(op) - 1);
    SpineBelow(all, p, |ops'|, k, ArgCount(op) - 1);
  }

  /** The arguments of an operation on the spine are not on the spine. */
  lemma SpineBelow(all: seq<CodecOp>, p: Property, j: nat, k: nat, n: nat)
    requires Runs(all, 1) && k < |all| && Arguments(all, j, k, n) && DepthAt(all, j) == 1
    requires Has(p, all[k]) && AllHave(p, all, k + 1)
    ensures AllHave(p, all, j)
  {
  }

  /** `ensure_property`.  If no operation on the spine lacks the property, the rest comes back in
      reverse order. */
  method EnsureProperty(ops: seq<CodecOp>, p: Property) returns (first: seq<CodecOp>, rest: seq<CodecOp>)
    requires WellFormed(ops)
    ensures AllHave(p, ops, 0) ==> first == [] && rest == Reverse(ops)
    ensures !AllHave(p, ops, 0) ==> 0 < |first| <= |ops| && first == ops[..|first|] && rest == ops[|first|..]
    ensures !AllHave(p, ops, 0) ==> Spine(ops, |first| - 1) && !Has(p, ops[|first| - 1]) && AllHave(p, ops, |first|)
    ensures first + rest == ops <==> !AllHave(p, ops, 0) || Reverse(ops) == ops
  {
    var cur, push := ops, [];
    assert ops[..|ops|] == ops;
    while cur != []
      invariant cur <= ops && DepthAt(ops, |cur|) == 1 && AllHave(p, ops, |cur|) && push == Reverse(ops[|cur|..])
      decreases |cur|
    {
      if !Has(p, cur[|cur| - 1]) {
        assert Spine(ops, |cur| - 1);
        rest := Reversed(push);
        ReverseTwice(ops[|cur|..]);
        Rejoin(ops, |cur|);
        return cur, rest;
      }
      cur, push := PopSpine(ops, p, cur, push);
    }
    return [], push;
  }

  /** `Vec::reverse`. */
  method Reversed<T>(s: seq<T>) returns (r: seq<T>)
    ensures r == Reverse(s)
  {
    r := seq(|s|, i requires 0 <= i < |s| => s[|s| - 1 - i]);
  }

  lemma ReverseTwice<T>(s: seq<T>)
    ensures Reverse(Reverse(s)) == s
  {
  }

  /** `has_property`: all operations on the spine have the property. */
  method HasProperty(ops: seq<CodecOp>, p: Property) returns (r: bool)
    requires WellFormed(ops)
    ensures r <==> AllHave(p, ops, 0)
  {
    var cur, push := ops, [];
    assert ops[..|ops|] == ops;
    while cur != []
      invariant cur <= ops && DepthAt(ops, |cur|) == 1 && AllHave(p, ops, |cur|) && push == Reverse(ops[|cur|..])
      decreases |cur|
    {
      if !Has(p, cur[|cur| - 1]) {
        assert Spine(ops, |cur| - 1);
        return false;
      }
      cur, push := PopSpine(ops, p, cur, push);
    }
    r := true;
  }

  lemma DepthInRest(ops: seq<CodecOp>, n: nat, k: nat)
    requires Runs(ops, 1) && n <= |ops| && DepthAt(ops, n) == 1 && n + k <= |ops|
    ensures Runs(ops[n..], 1) && DepthAt(ops[n..], k) == DepthAt(ops, n + k)
  {
    Rejoin(ops, n);
    RunsAppend(ops[..n], ops[n..], 1);
    Rejoin(ops[n..], k);
    RunsAppend(ops[n..][..k], ops[n..][k..], 1);
    assert ops[..n + k] == ops[..n] + ops[n..][..k];
    RunsAppend(ops[..n], ops[n..][..k], 1);
  }

  /** Where the stack holds a single value a codec can be split: decoding the first part and then
      the rest is decoding the codec. */
  lemma SplitDecodes(ops: seq<CodecOp>, n: nat, column: Plan)
    requires WellFormed(ops) && n <= |ops| && DepthAt(ops, n) == 1
    ensures var first, rest := ops[..n], ops[n..];
            && Runs(first, 1) && |Exec(first, [column])| == 1 && Runs(rest, 1)
            && Exec(rest, [Exec(first, [column])[0]]) == Exec(ops, [column])
  {
    var first, rest := ops[..n], ops[n..];
    Rejoin(ops, n);
    RunsAppend(first, rest, 1);
    ExecAppend(first, rest, [column]);
    assert Exec(first, [column]) == [Exec(first, [column])[0]];
  }

  /** The rest is a codec again, with the same operations on the spine. */
  lemma SplitRest(ops: seq<CodecOp>, n: nat)
    requires WellFormed(ops) && n <= |ops| && DepthAt(ops, n) == 1
    ensures WellFormed(ops[n..]) && forall k: nat :: Spine(ops[n..], k) <==> Spine(ops, n + k)
  {
    var rest := ops[n..];
    DepthInRest(ops, n, 0);
    forall k: nat | k <= |rest| ensures DepthAt(rest, k) == DepthAt(ops, n + k) {
      DepthInRest(ops, n, k);
    }
    assert rest[..|rest|] == rest && ops[..|ops|] == ops;
    assert DepthAt(rest, |rest|) == Depth(rest, 1) && DepthAt(ops, n + |rest|) == Depth(ops, 1);
    forall k: nat ensures Spine(rest, k) <==> Spine(ops, n + k) {
      assert k < |rest| ==> DepthAt(rest, k + 1) == DepthAt(ops, n + (k + 1));
    }
    forall k | 0 <= k < |rest| && rest[k] == Nullable ensures DepthAt(rest, k + 1) == 1 {
      assert ops[n + k] == Nullable;
    }
  }

  /** The split of `ensure_property` restores the property: what is left to decode has it. */
  lemma SplitRestores(ops: seq<CodecOp>, p: Property, n: nat, column: Plan)
    requires WellFormed(ops) && n > 0 && Spine(ops, n - 1) && AllHave(p, ops, n)
    ensures Runs(ops[..n], 1) && |Exec(ops[..n], [column])| == 1 && WellFormed(ops[n..])
    ensures Exec(ops[n..], [Exec(ops[..n], [column])[0]]) == Exec(ops, [column])
    ensures AllHave(p, ops[n..], 0)
  {
    SplitDecodes(ops, n, column);
    SplitRest(ops, n);
    var rest := ops[n..];
    forall k: nat | Spine(rest, k) ensures Has(p, rest[k]) {
      assert Spine(ops, n + k);
    }
  }

  /** A codec that already has the property, such as that of a dictionary column, comes back in the
      wrong order.  The only caller asks for codecs without the property. */
  lemma FallThrough()
    ensures var ops := [PushDataSection(1), PushDataSection(2), DictLookup];
            WellFormed(ops) && AllHave(ElementwiseDecodable, ops, 0) && Reverse(ops) != ops
  {
    var ops := [PushDataSection(1), PushDataSection(2), DictLookup];
    assert ops[1..] == [PushDataSection(2), DictLookup] && ops[1..][1..] == [DictLookup] && ops[1..][1..][1..] == [];
    assert Runs([DictLookup], 3) && Depth([DictLookup], 3) == 1 by { assert [DictLookup][1..] == []; }
    assert Runs(ops[1..], 2) && Depth(ops[1..], 2) == 1;
    assert Runs(ops, 1) && Depth(ops, 1) == 1;
    assert Reverse(ops)[0] == DictLookup;
  }
}
