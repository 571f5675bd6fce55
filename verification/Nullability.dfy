/** The planner plans operations on nullable buffers as if there were no nulls, and then rewrites
    them: data and null maps are processed apart.  The rewritten plan computes what the original
    one means. */
module Nullability {
  import opened Types
  import opened OrderedMerge
  import IntegerColumn

  // ---------------------------------------------------------------- values

  datatype BinaryOp = Add | Subtract | Multiply | Divide | Modulo | And | Or | LessThan | LessThanEquals | Equals | NotEquals

  predicate IsComparison(op: BinaryOp) {
    op.LessThan? || op.LessThanEquals? || op.Equals? || op.NotEquals?
  }

  /** Division rounds towards zero. */
  function Quotient(a: int, b: int): int
    requires b != 0
  {
    if a >= 0 then a / b else -((-a) / b)
  }

  /** The exact result; comparisons yield zero or one. */
  function Exact(op: BinaryOp, a: int, b: int): int
    requires (op.Divide? || op.Modulo?) ==> b != 0
  {
    match op
    case Add => a + b
    case Subtract => a - b
    case Multiply => a * b
    case Divide => Quotient(a, b)
    case Modulo => a - Quotient(a, b) * b
    case And => if a != 0 && b != 0 then 1 else 0
    case Or => if a != 0 || b != 0 then 1 else 0
    case LessThan => if a < b then 1 else 0
    case LessThanEquals => if a <= b then 1 else 0
    case Equals => if a == b then 1 else 0
    case NotEquals => if a != b then 1 else 0
  }

  /** `perform_checked`: the result, which wraps around, and whether it overflowed.  Dividing by zero
      yields one, with overflow. */
  function PerformChecked(op: BinaryOp, a: int, b: int): (int, bool) {
    if (op.Divide? || op.Modulo?) && b == 0 then (1, true)
    else (IntegerColumn.Wrap(Exact(op, a, b)), (op.Add? || op.Subtract? || op.Multiply?) && !InI64(Exact(op, a, b)))
  }

  function Perform(op: BinaryOp, a: int, b: int): int { PerformChecked(op, a, b).0 }

  predicate Overflows(op: BinaryOp, a: int, b: int) { PerformChecked(op, a, b).1 }

  /** The only quotient that does not fit makes the operators panic. */
  predicate PanicsOn(op: BinaryOp, a: int, b: int) { (op.Divide? || op.Modulo?) && a == I64_MIN && b == -1 }

  // ---------------------------------------------------------------- buffers and plans

  /** The contents of a buffer: values, and which of them are present. */
  datatype Buffer = Buffer(vals: seq<int>, bits: seq<bool>)

  /** A typed reference to a buffer; without nullability only its values count. */
  datatype Ref = Ref(i: nat, nullable: bool)

  function Forget(r: Ref): Ref { r.(nullable := false) }

  /** Operations of the query plan. */
  datatype Plan =
    | Cast(input: Ref, casted: Ref, toVal: bool)
    | Binary(op: BinaryOp, checked: bool, lhs: Ref, rhs: Ref, out: Ref)
    | NullableChecked(op: BinaryOp, lhs: Ref, rhs: Ref, present: nat, out: Ref)
    | MergeKeep(takeLeft: seq<bool>, lhs: Ref, rhs: Ref, merged: Ref)
    | DictLookup(indices: Ref, dict: seq<int>, decoded: Ref)
    | PropagateNullability(nullable: Ref, data: Ref, out: Ref)
    | CombineNullMaps(lhs: Ref, rhs: Ref, present: nat)
    | GetNullMap(nullable: Ref, present: nat)
    | AssembleNullable(data: Ref, present: nat, out: Ref)
    | MakeNullable(data: Ref, present: nat, out: Ref)

  /** What every buffer holds. */
  type Env = nat -> Buffer

  /** The column that a reference shows: nothing where a nullable buffer has no value. */
  ghost function View(env: Env, r: Ref): (v: seq<Option<int>>)
    requires Sized(env, r)
    ensures |v| == |env(r.i).vals|
  {
    seq(|env(r.i).vals|, k requires 0 <= k < |env(r.i).vals| => if r.nullable && !env(r.i).bits[k] then None else Some(env(r.i).vals[k]))
  }

  ghost predicate Sized(env: Env, r: Ref) {
    r.nullable ==> |env(r.i).bits| == |env(r.i).vals|
  }

  function Lift(op: BinaryOp, a: Option<int>, b: Option<int>): Option<int> {
    if a.Some? && b.Some? then Some(Perform(op, a.value, b.value)) else None
  }

  /** Entry `k` of a dictionary. */
  function Entry(dict: seq<int>, k: int): int {
    if 0 <= k < |dict| then dict[k] else 0
  }

  /** What an operation of the original plan means. */
  ghost predicate Means(env: Env, p: Plan) {
    match p
    case Cast(input, casted, _) =>
      Sized(env, input) && Sized(env, casted) && View(env, casted) == View(env, input)
    case Binary(op, _, l, r, out) =>
      && Sized(env, l) && Sized(env, r) && Sized(env, out)
      && var (x, y, z) := (View(env, l), View(env, r), View(env, out));
         |x| == |y| == |z| && forall k :: 0 <= k < |z| ==> z[k] == Lift(op, x[k], y[k])
    case MergeKeep(t, l, r, m) =>
      && Sized(env, l) && Sized(env, r) && Sized(env, m)
      && LeftKept(t) <= |View(env, l)| && |t| - LeftKept(t) <= |View(env, r)|
      && View(env, m) == Keep(t, View(env, l), View(env, r))
    case DictLookup(indices, dict, decoded) =>
      && Sized(env, indices) && Sized(env, decoded)
      && var (x, z) := (View(env, indices), View(env, decoded));
         |x| == |z| && forall k :: 0 <= k < |z| ==> z[k] == if x[k].Some? then Some(Entry(dict, x[k].value)) else None
    case _ => Executes(env, p)
  }

  /** The types of the buffers fit: a result is nullable if and only if an input is.  Divisions are
      always checked. */
  predicate Typed(p: Plan) {
    match p
    case Cast(input, casted, toVal) => toVal || casted.nullable == input.nullable
    case Binary(op, checked, l, r, out) => out.nullable == (l.nullable || r.nullable) && (checked ==> !IsComparison(op) && !op.And? && !op.Or?) && (op.Divide? || op.Modulo? ==> checked)
    case MergeKeep(_, l, r, m) => m.nullable == (l.nullable || r.nullable)
    case DictLookup(indices, _, decoded) => decoded.nullable == indices.nullable
    case _ => true
  }

  ghost predicate Zipped(op: BinaryOp, x: seq<int>, y: seq<int>, z: seq<int>) {
    |x| == |y| == |z| && forall k :: 0 <= k < |z| ==> z[k] == Perform(op, x[k], y[k])
  }

  /** What the operators leave in the buffers, if none fails or panics. */
  ghost predicate Executes(env: Env, p: Plan) {
    match p
    case Cast(input, casted, toVal) =>
      if toVal then Sized(env, input) && Sized(env, casted) && View(env, casted) == View(env, input) else env(casted.i).vals == env(input.i).vals
    case Binary(op, _, l, r, out) => Zipped(op, env(l.i).vals, env(r.i).vals, env(out.i).vals)
    case NullableChecked(op, l, r, present, out) =>
      Zipped(op, env(l.i).vals, env(r.i).vals, env(out.i).vals) && env(out.i).bits == env(present).bits
    case MergeKeep(t, l, r, m) =>
      && LeftKept(t) <= |env(l.i).vals| && |t| - LeftKept(t) <= |env(r.i).vals|
      && env(m.i).vals == Keep(t, env(l.i).vals, env(r.i).vals)
      && (l.nullable && r.nullable ==>
            LeftKept(t) <= |env(l.i).bits| && |t| - LeftKept(t) <= |env(r.i).bits| && env(m.i).bits == Keep(t, env(l.i).bits, env(r.i).bits))
    case DictLookup(indices, dict, decoded) =>
      && |env(decoded.i).vals| == |env(indices.i).vals|
      && forall k :: 0 <= k < |env(indices.i).vals| ==> env(decoded.i).vals[k] == Entry(dict, env(indices.i).vals[k])
    case PropagateNullability(nullable, data, out) =>
      env(out.i).vals == env(data.i).vals && env(out.i).bits == env(nullable.i).bits
    case CombineNullMaps(l, r, present) =>
      && |env(present).bits| == |env(l.i).bits| == |env(r.i).bits|
      && forall k :: 0 <= k < |env(l.i).bits| ==> env(present).bits[k] == (env(l.i).bits[k] && env(r.i).bits[k])
    case GetNullMap(nullable, present) => env(present).bits == env(nullable.i).bits
    case AssembleNullable(data, present, out) => env(out.i).vals == env(data.i).vals && env(out.i).bits == env(present).bits
    case MakeNullable(data, present, out) =>
      && env(out.i).vals == env(data.i).vals && |env(out.i).bits| == |env(data.i).vals| && env(present).bits == env(out.i).bits
      && forall k :: 0 <= k < |env(out.i).bits| ==> env(out.i).bits[k]
  }

  ghost predicate AllExecute(env: Env, ps: seq<Plan>) {
    forall i :: 0 <= i < |ps| ==> Executes(env, ps[i])
  }

  /** The buffers read by the operation are well formed. */
  ghost predicate InputsSized(env: Env, p: Plan) {
    match p
    case Cast(input, _, _) => Sized(env, input)
    case Binary(_, _, l, r, _) => Sized(env, l) && Sized(env, r)
    case MergeKeep(_, l, r, _) => Sized(env, l) && Sized(env, r)
    case DictLookup(indices, _, _) => Sized(env, indices)
    case _ => true
  }

  // ---------------------------------------------------------------- the rewrite

  /** The operations that `propagate_nullability` rewrites. */
  predicate Guard(p: Plan) {
    match p
    case Cast(input, _, toVal) => input.nullable && !toVal
    case Binary(_, _, _, _, out) => out.nullable
    case MergeKeep(_, l, r, _) => l.nullable != r.nullable
    case DictLookup(indices, _, _) => indices.nullable
    case _ => false
  }

  /** `combine_nulls`; buffers from `n` on are new. */
  function CombineNulls(l: Ref, r: Ref, data: Ref, out: Ref, n: nat): seq<Plan> {
    if l.nullable && r.nullable then [CombineNullMaps(l, r, n), AssembleNullable(data, n, out)]
    else [PropagateNullability(if l.nullable then l else r, data, out)]
  }

  /** `combine_nulls2`. */
  function CombineNulls2(l: Ref, r: Ref, n: nat): Plan {
    if l.nullable && r.nullable then CombineNullMaps(l, r, n) else GetNullMap(if l.nullable then l else r, n)
  }

  /** `propagate_nullability`: the operations that replace `p`, and the number of buffers then. */
  function Rewrite(p: Plan, n: nat): (r: (seq<Plan>, nat))
    requires Guard(p)
    ensures |r.0| > 0 && r.1 >= n
    ensures forall i :: 0 <= i < |r.0| ==> !Guard(r.0[i])
  {
    match p
    case Cast(input, casted, toVal) =>
      var data := Ref(n, false);
      ([Cast(Forget(input), data, toVal), PropagateNullability(input, data, casted)], n + 1)
    case Binary(op, checked, l, r, out) =>
      if checked then ([CombineNulls2(l, r, n), NullableChecked(op, Forget(l), Forget(r), n, out)], n + 1)
      else
        var data := Ref(n, false);
        var main := Binary(op, false, Forget(l), Forget(r), data);
        var nulls := CombineNulls(l, r, data, out, n + 1);
        (if IsComparison(op) then nulls + [main] else [main] + nulls, if l.nullable && r.nullable then n + 2 else n + 1)
    case MergeKeep(t, l, r, m) =>
      if l.nullable then ([MakeNullable(r, n + 1, Ref(n, true)), MergeKeep(t, l, Ref(n, true), m)], n + 2)
      else ([MakeNullable(l, n + 1, Ref(n, true)), MergeKeep(t, Ref(n, true), r, m)], n + 2)
    case DictLookup(indices, dict, decoded) =>
      var data := Ref(n, false);
      ([DictLookup(Forget(indices), dict, data), PropagateNullability(indices, data, decoded)], n + 1)
  }

  /** Without nulls the operators do what the plan means. */
  lemma PlainMeans(env: Env, p: Plan)
    requires Typed(p) && !Guard(p) && InputsSized(env, p) && Executes(env, p)
    ensures Means(env, p)
  {
    match p
    case MergeKeep(t, l, r, m) => KeepView(env, t, l, r, m);
    case _ =>
  }

  /** Values, and which of them are present, as optional values. */
  ghost function Optional(vals: seq<int>, bits: seq<bool>): (v: seq<Option<int>>)
    requires |bits| == |vals|
    ensures |v| == |vals| && forall k :: 0 <= k < |v| ==> v[k] == if bits[k] then Some(vals[k]) else None
  {
    seq(|vals|, k requires 0 <= k < |vals| => if bits[k] then Some(vals[k]) else None)
  }

  ghost function Plain(vals: seq<int>): (v: seq<Option<int>>)
    ensures |v| == |vals| && forall k :: 0 <= k < |v| ==> v[k] == Some(vals[k])
  {
    seq(|vals|, k requires 0 <= k < |vals| => Some(vals[k]))
  }

  lemma ViewOptional(env: Env, r: Ref)
    requires Sized(env, r)
    ensures r.nullable ==> View(env, r) == Optional(env(r.i).vals, env(r.i).bits)
    ensures !r.nullable ==> View(env, r) == Plain(env(r.i).vals)
  {
  }

  /** Keeping values and flags apart keeps optional values. */
  lemma KeepOptional(t: seq<bool>, x: seq<int>, a: seq<bool>, y: seq<int>, b: seq<bool>)
    requires |a| == |x| && |b| == |y| && LeftKept(t) <= |x| && |t| - LeftKept(t) <= |y|
    ensures Optional(Keep(t, x, y), Keep(t, a, b)) == Keep(t, Optional(x, a), Optional(y, b))
  {
    var v, w := Optional(Keep(t, x, y), Keep(t, a, b)), Keep(t, Optional(x, a), Optional(y, b));
    forall k | 0 <= k < |t| ensures v[k] == w[k] {
      KeepAt(t, x, y, k);
      KeepAt(t, a, b, k);
      KeepAt(t, Optional(x, a), Optional(y, b), k);
    }
  }

  lemma KeepPlain(t: seq<bool>, x: seq<int>, y: seq<int>)
    requires LeftKept(t) <= |x| && |t| - LeftKept(t) <= |y|
    ensures Plain(Keep(t, x, y)) == Keep(t, Plain(x), Plain(y))
  {
    var v, w := Plain(Keep(t, x, y)), Keep(t, Plain(x), Plain(y));
    forall k | 0 <= k < |t| ensures v[k] == w[k] {
      KeepAt(t, x, y, k);
      KeepAt(t, Plain(x), Plain(y), k);
    }
  }

  lemma KeepView(env: Env, t: seq<bool>, l: Ref, r: Ref, m: Ref)
    requires l.nullable == r.nullable == m.nullable && Sized(env, l) && Sized(env, r) && Executes(env, MergeKeep(t, l, r, m))
    ensures Sized(env, m) && View(env, m) == Keep(t, View(env, l), View(env, r))
  {
    var x, y := env(l.i), env(r.i);
    ViewOptional(env, l);
    ViewOptional(env, r);
    if l.nullable {
      KeepOptional(t, x.vals, x.bits, y.vals, y.bits);
    } else {
      KeepPlain(t, x.vals, y.vals);
    }
    ViewOptional(env, m);
  }

  /** The columns of two inputs combined: where both are present, the results of the values. */
  lemma BinaryMeans(env: Env, op: BinaryOp, l: Ref, r: Ref, out: Ref)
    requires Sized(env, l) && Sized(env, r) && out.nullable && (l.nullable || r.nullable)
    requires Zipped(op, env(l.i).vals, env(r.i).vals, env(out.i).vals) && |env(out.i).bits| == |env(out.i).vals|
    requires forall k :: 0 <= k < |env(out.i).bits| ==>
               (env(out.i).bits[k] <==> (l.nullable ==> env(l.i).bits[k]) && (r.nullable ==> env(r.i).bits[k]))
    ensures Means(env, Binary(op, false, l, r, out)) && Means(env, Binary(op, true, l, r, out))
  {
  }

  /** The null map that `combine_nulls` and `combine_nulls2` compute. */
  ghost predicate NullMap(env: Env, l: Ref, r: Ref, bits: seq<bool>)
    requires Sized(env, l) && Sized(env, r)
  {
    && (l.nullable ==> |bits| == |env(l.i).bits|) && (r.nullable ==> |bits| == |env(r.i).bits|)
    && forall k :: 0 <= k < |bits| ==> (bits[k] <==> (l.nullable ==> env(l.i).bits[k]) && (r.nullable ==> env(r.i).bits[k]))
  }

  lemma CheckedMeans(env: Env, op: BinaryOp, l: Ref, r: Ref, out: Ref, n: nat)
    requires Sized(env, l) && Sized(env, r) && out.nullable && (l.nullable || r.nullable)
    requires Executes(env, CombineNulls2(l, r, n)) && Executes(env, NullableChecked(op, Forget(l), Forget(r), n, out))
    ensures Means(env, Binary(op, true, l, r, out)) && NullMap(env, l, r, env(n).bits) && |env(n).bits| == |env(l.i).vals| == |env(r.i).vals|
  {
    BinaryMeans(env, op, l, r, out);
  }

  lemma UncheckedMeans(env: Env, op: BinaryOp, l: Ref, r: Ref, out: Ref, n: nat)
    requires Sized(env, l) && Sized(env, r) && out.nullable && (l.nullable || r.nullable)
    requires AllExecute(env, Rewrite(Binary(op, false, l, r, out), n).0)
    ensures Means(env, Binary(op, false, l, r, out))
  {
    var ps := Rewrite(Binary(op, false, l, r, out), n).0;
    var data := Ref(n, false);
    var main, nulls := Binary(op, false, Forget(l), Forget(r), data), CombineNulls(l, r, data, out, n + 1);
    var shift := if IsComparison(op) then 0 else 1;
    assert ps[if IsComparison(op) then |nulls| else 0] == main;
    assert Executes(env, main);
    forall i | 0 <= i < |nulls| ensures Executes(env, nulls[i]) {
      assert ps[i + shift] == nulls[i];
    }
    assert Executes(env, nulls[0]) && (l.nullable && r.nullable ==> Executes(env, nulls[1]));
    BinaryMeans(env, op, l, r, out);
  }

  lemma MergeKeepMeans(env: Env, t: seq<bool>, l: Ref, r: Ref, m: Ref, n: nat)
    requires Sized(env, l) && Sized(env, r) && m.nullable && l.nullable != r.nullable
    requires AllExecute(env, Rewrite(MergeKeep(t, l, r, m), n).0)
    ensures Means(env, MergeKeep(t, l, r, m))
  {
    var ps := Rewrite(MergeKeep(t, l, r, m), n).0;
    assert Executes(env, ps[0]) && Executes(env, ps[1]);
    var made := Ref(n, true);
    if l.nullable {
      assert View(env, made) == View(env, r);
      KeepView(env, t, l, made, m);
    } else {
      assert View(env, made) == View(env, l);
      KeepView(env, t, made, r, m);
    }
  }

  /** The operations that replace an operation compute what it means. */
  lemma RewriteMeans(env: Env, p: Plan, n: nat)
    requires Typed(p) && Guard(p) && InputsSized(env, p) && AllExecute(env, Rewrite(p, n).0)
    ensures Means(env, p)
  {
    var ps := Rewrite(p, n).0;
    assert Executes(env, ps[0]);
    match p
    case Binary(op, checked, l, r, out) =>
      if checked {
        assert Executes(env, ps[1]);
        CheckedMeans(env, op, l, r, out, n);
      } else {
        UncheckedMeans(env, op, l, r, out, n);
      }
    case MergeKeep(t, l, r, m) => MergeKeepMeans(env, t, l, r, m, n);
    case Cast(_, _, _) => assert Executes(env, ps[1]);
    case DictLookup(_, _, _) => assert Executes(env, ps[1]);
  }

  // ---------------------------------------------------------------- failure

  /** An operator fails: a checked result overflows, in a row that is present. */
  ghost predicate Fails(env: Env, p: Plan) {
    match p
    case Binary(op, checked, l, r, _) =>
      checked && exists k :: 0 <= k < |env(l.i).vals| && k < |env(r.i).vals| && Overflows(op, env(l.i).vals[k], env(r.i).vals[k])
    case NullableChecked(op, l, r, present, _) =>
      exists k :: 0 <= k < |env(l.i).vals| && k < |env(r.i).vals| && k < |env(present).bits| && env(present).bits[k] &&
                  Overflows(op, env(l.i).vals[k], env(r.i).vals[k])
    case _ => false
  }

  /** An operation of the original plan should fail: some row where both inputs are present
      overflows or divides by zero. */
  ghost predicate ShouldFail(env: Env, p: Plan)
    requires InputsSized(env, p)
  {
    p.Binary? && p.checked && exists k: nat :: OverflowsAt(p.op, View(env, p.lhs), View(env, p.rhs), k)
  }

  /** In row `k` both inputs are present, and the result overflows. */
  predicate OverflowsAt(op: BinaryOp, x: seq<Option<int>>, y: seq<Option<int>>, k: nat) {
    k < |x| && k < |y| && x[k].Some? && y[k].Some? && Overflows(op, x[k].value, y[k].value)
  }

  /** The rewritten operations fail exactly when the original one should. */
  lemma RewriteFails(env: Env, p: Plan, n: nat)
    requires Typed(p) && Guard(p) && InputsSized(env, p) && AllExecute(env, Rewrite(p, n).0)
    ensures (exists i :: 0 <= i < |Rewrite(p, n).0| && Fails(env, Rewrite(p, n).0[i])) <==> ShouldFail(env, p)
  {
    var ps := Rewrite(p, n).0;
    if p.Binary? && p.checked {
      assert Executes(env, ps[0]) && Executes(env, ps[1]);
      CheckedMeans(env, p.op, p.lhs, p.rhs, p.out, n);
      var x, y := View(env, p.lhs), View(env, p.rhs);
      assert forall k :: 0 <= k < |x| ==> (env(n).bits[k] <==> x[k].Some? && y[k].Some?);
      SameRows(env, p, ps[1]);
    }
  }

  lemma SameRows(env: Env, p: Plan, q: Plan)
    requires p.Binary? && p.checked && InputsSized(env, p) && |View(env, p.lhs)| == |View(env, p.rhs)|
    requires q.NullableChecked? && q.op == p.op && q.lhs == Forget(p.lhs) && q.rhs == Forget(p.rhs)
    requires var (x, y) := (View(env, p.lhs), View(env, p.rhs));
             |env(q.present).bits| == |x| && forall k :: 0 <= k < |x| ==> (env(q.present).bits[k] <==> x[k].Some? && y[k].Some?)
    ensures Fails(env, q) <==> ShouldFail(env, p)
  {
    var x, y := View(env, p.lhs), View(env, p.rhs);
    if k: nat :| OverflowsAt(p.op, x, y, k) {
      assert env(q.present).bits[k] && Overflows(q.op, env(q.lhs.i).vals[k], env(q.rhs.i).vals[k]);
    }
    if Fails(env, q) {
      var k :| 0 <= k < |env(q.lhs.i).vals| && k < |env(q.rhs.i).vals| && k < |env(q.present).bits| && env(q.present).bits[k] &&
               Overflows(q.op, env(q.lhs.i).vals[k], env(q.rhs.i).vals[k]);
      assert OverflowsAt(p.op, x, y, k);
    }
  }

  lemma PlainFails(env: Env, p: Plan)
    requires Typed(p) && !Guard(p) && !p.NullableChecked? && InputsSized(env, p)
    ensures Fails(env, p) <==> ShouldFail(env, p)
  {
    if p.Binary? && p.checked {
      var x, y := View(env, p.lhs), View(env, p.rhs);
      assert forall k :: 0 <= k < |x| ==> x[k] == Some(env(p.lhs.i).vals[k]);
      assert forall k :: 0 <= k < |y| ==> y[k] == Some(env(p.rhs.i).vals[k]);
      if Fails(env, p) {
        var k :| 0 <= k < |env(p.lhs.i).vals| && k < |env(p.rhs.i).vals| && Overflows(p.op, env(p.lhs.i).vals[k], env(p.rhs.i).vals[k]);
        assert OverflowsAt(p.op, x, y, k);
      }
      if ShouldFail(env, p) {
        var k: nat :| OverflowsAt(p.op, x, y, k);
        assert Overflows(p.op, env(p.lhs.i).vals[k], env(p.rhs.i).vals[k]);
      }
    }
  }

  // ---------------------------------------------------------------- panics

  /** Some row of the two buffers, present or not, holds a quotient that does not fit. */
  ghost predicate RowPanics(env: Env, op: BinaryOp, l: Ref, r: Ref) {
    exists k :: 0 <= k < |env(l.i).vals| && k < |env(r.i).vals| && PanicsOn(op, env(l.i).vals[k], env(r.i).vals[k])
  }

  /** An operator panics. */
  ghost predicate Panics(env: Env, p: Plan) {
    match p
    case Binary(op, _, l, r, _) => RowPanics(env, op, l, r)
    case NullableChecked(op, l, r, _, _) => RowPanics(env, op, l, r)
    case _ => false
  }

  /** In row `k` both inputs are present, and the quotient does not fit. */
  predicate PanicsAt(op: BinaryOp, x: seq<Option<int>>, y: seq<Option<int>>, k: nat) {
    k < |x| && k < |y| && x[k].Some? && y[k].Some? && PanicsOn(op, x[k].value, y[k].value)
  }

  /** There is a quotient of values that are present that does not fit. */
  ghost predicate ShouldPanic(env: Env, p: Plan)
    requires InputsSized(env, p)
  {
    p.Binary? && exists k: nat :: PanicsAt(p.op, View(env, p.lhs), View(env, p.rhs), k)
  }

  /** Rewriting does not change which rows are looked at: null or not, they make the operator
      panic. */
  lemma RewritePanics(env: Env, p: Plan, n: nat)
    requires Typed(p) && Guard(p)
    ensures (exists i :: 0 <= i < |Rewrite(p, n).0| && Panics(env, Rewrite(p, n).0[i])) <==> Panics(env, p)
  {
    var ps := Rewrite(p, n).0;
    if p.Binary? && p.checked {
      assert ps[1] == NullableChecked(p.op, Forget(p.lhs), Forget(p.rhs), n, p.out);
      assert RowPanics(env, p.op, Forget(p.lhs), Forget(p.rhs)) == RowPanics(env, p.op, p.lhs, p.rhs);
      assert !Panics(env, ps[0]);
    }
  }

  /** In row `k` an input is null, and the values stored all the same do not fit. */
  predicate NullPanicsAt(op: BinaryOp, l: Buffer, r: Buffer, x: seq<Option<int>>, y: seq<Option<int>>, k: nat) {
    k < |l.vals| && k < |r.vals| && k < |x| && k < |y| && (x[k].None? || y[k].None?) && PanicsOn(op, l.vals[k], r.vals[k])
  }

  /** The operator panics exactly when it should, if and only if no null row stores a quotient that
      does not fit unless a row that is present does as well. */
  lemma PanicsExactly(env: Env, p: Plan)
    requires p.Binary? && InputsSized(env, p)
    ensures (Panics(env, p) <==> ShouldPanic(env, p)) <==>
            ((exists k: nat :: NullPanicsAt(p.op, env(p.lhs.i), env(p.rhs.i), View(env, p.lhs), View(env, p.rhs), k)) ==> ShouldPanic(env, p))
  {
    var l, r, x, y := env(p.lhs.i), env(p.rhs.i), View(env, p.lhs), View(env, p.rhs);
    if Panics(env, p) && !ShouldPanic(env, p) {
      var k :| 0 <= k < |l.vals| && k < |r.vals| && PanicsOn(p.op, l.vals[k], r.vals[k]);
      assert !PanicsAt(p.op, x, y, k);
      assert NullPanicsAt(p.op, l, r, x, y, k);
    }
    if k: nat :| PanicsAt(p.op, x, y, k) { assert PanicsOn(p.op, l.vals[k], r.vals[k]); }
  }

  /** The plan of `(a - I64_MAX - 1) / (a - 1)` for a nullable column `a` in buffer 0 and constants
      in buffers 1 and 2. */
  function NullQuotient(): seq<Plan> {
    [Binary(Subtract, true, Ref(0, true), Ref(1, false), Ref(3, true)),
     Binary(Subtract, true, Ref(3, true), Ref(2, false), Ref(4, true)),
     Binary(Subtract, true, Ref(0, true), Ref(2, false), Ref(5, true)),
     Binary(Divide, true, Ref(4, true), Ref(5, true), Ref(6, true))]
  }

  /** Where `a` is null, with zero stored for it, the division panics, although no row is present. */
  lemma NullRowPanics(env: Env)
    requires env(0) == Buffer([0], [false]) && env(1).vals == [I64_MAX] && env(2).vals == [1]
    requires forall k :: 0 <= k < 4 ==> var p := NullQuotient()[k]; Executes(env, p) && env(p.out.i).bits == [false]
    ensures forall k :: 0 <= k < 4 ==> var p := NullQuotient()[k]; InputsSized(env, p) && Means(env, p) && !ShouldFail(env, p) && !ShouldPanic(env, p)
    ensures Panics(env, NullQuotient()[3])
  {
    var ps := NullQuotient();
    assert Executes(env, ps[0]) && Executes(env, ps[1]) && Executes(env, ps[2]) && Executes(env, ps[3]);
    assert env(3).vals[0] == -I64_MAX;
    assert env(4).vals[0] == I64_MIN && env(5).vals[0] == -1;
    assert env(ps[0].out.i).bits == [false] && env(ps[1].out.i).bits == [false] && env(ps[2].out.i).bits == [false];
    forall k | 0 <= k < 4 ensures var p := NullQuotient()[k]; InputsSized(env, p) && Means(env, p) && !ShouldFail(env, p) && !ShouldPanic(env, p) {
      assert env(ps[k].out.i).bits == [false];
      NothingPresent(env, ps[k]);
    }
  }

  lemma NothingPresent(env: Env, p: Plan)
    requires p.Binary? && p.lhs.nullable && p.out.nullable && |env(p.lhs.i).vals| == |env(p.rhs.i).vals| == |env(p.out.i).vals| == 1
    requires env(p.lhs.i).bits == env(p.out.i).bits == [false] && (p.rhs.nullable ==> env(p.rhs.i).bits == [false])
    ensures InputsSized(env, p) && Means(env, p) && !ShouldFail(env, p) && !ShouldPanic(env, p)
  {
    assert View(env, p.lhs) == [None] && View(env, p.out) == [None];
  }

  // ---------------------------------------------------------------- what is read and written

  function Reads(p: Plan): set<nat> {
    match p
    case Cast(input, _, _) => {input.i}
    case Binary(_, _, l, r, _) => {l.i, r.i}
    case NullableChecked(_, l, r, present, _) => {l.i, r.i, present}
    case MergeKeep(_, l, r, _) => {l.i, r.i}
    case DictLookup(indices, _, _) => {indices.i}
    case PropagateNullability(nullable, data, _) => {nullable.i, data.i}
    case CombineNullMaps(l, r, _) => {l.i, r.i}
    case GetNullMap(nullable, _) => {nullable.i}
    case AssembleNullable(data, present, _) => {data.i, present}
    case MakeNullable(data, _, _) => {data.i}
  }

  function Writes(p: Plan): set<nat> {
    match p
    case Cast(_, casted, _) => {casted.i}
    case Binary(_, _, _, _, out) => {out.i}
    case NullableChecked(_, _, _, _, out) => {out.i}
    case MergeKeep(_, _, _, merged) => {merged.i}
    case DictLookup(_, _, decoded) => {decoded.i}
    case PropagateNullability(_, _, out) => {out.i}
    case CombineNullMaps(_, _, present) => {present}
    case GetNullMap(_, present) => {present}
    case AssembleNullable(_, _, out) => {out.i}
    case MakeNullable(_, present, out) => {present, out.i}
  }

  /** Whether an operation executes depends on the buffers it reads and writes only. */
  lemma ExecutesFrame(env: Env, env': Env, p: Plan)
    requires Executes(env, p) && forall i :: i in Reads(p) + Writes(p) ==> env'(i) == env(i)
    ensures Executes(env', p)
  {
    match p
    case Cast(input, casted, toVal) =>
      if toVal { assert View(env', casted) == View(env, casted) && View(env', input) == View(env, input); }
    case _ =>
  }

  /** All buffers that the plan refers to are below `n`. */
  ghost predicate Below(ps: seq<Plan>, n: nat) {
    forall k {:trigger Reads(ps[k])} :: 0 <= k < |ps| ==> forall i :: i in Reads(ps[k]) + Writes(ps[k]) ==> i < n
  }

  /** No buffer from `n` on is written twice. */
  ghost predicate OnceFrom(ps: seq<Plan>, n: nat) {
    forall i, j, b :: 0 <= i < |ps| && 0 <= j < |ps| && b in Writes(ps[i]) && b in Writes(ps[j]) && b >= n ==> i == j
  }

  ghost predicate WritesTo(ps: seq<Plan>, b: nat) {
    exists i :: 0 <= i < |ps| && b in Writes(ps[i])
  }

  // ---------------------------------------------------------------- the pieces of the new plan

  /** What becomes of an operation, and the number of buffers then. */
  function Piece(p: Plan, n: nat): (r: (seq<Plan>, nat))
    ensures |r.0| > 0 && r.1 >= n && forall i :: 0 <= i < |r.0| ==> !Guard(r.0[i])
  {
    if Guard(p) then Rewrite(p, n) else ([p], n)
  }

  /** The new operations write what the original one does, each new buffer, and nothing else. */
  lemma PieceWrites(p: Plan, n: nat, b: nat)
    ensures WritesTo(Piece(p, n).0, b) <==> b in Writes(p) || n <= b < Piece(p, n).1
  {
    var (ops, n') := Piece(p, n);
    assert ops == [ops[0]] || ops == [ops[0], ops[1]] || ops == [ops[0], ops[1], ops[2]];
    assert b in Writes(ops[0]) ==> WritesTo(ops, b);
    assert |ops| > 1 && b in Writes(ops[1]) ==> WritesTo(ops, b);
    assert |ops| > 2 && b in Writes(ops[2]) ==> WritesTo(ops, b);
  }

  /** None of them twice. */
  lemma PieceOnce(p: Plan, n: nat)
    requires forall b :: b in Writes(p) ==> b < n
    ensures OnceFrom(Piece(p, n).0, 0)
  {
    var ops := Piece(p, n).0;
    assert !p.MakeNullable? ==> exists b :: Writes(p) == {b} && b < n;
    assert |ops| > 1 ==> Writes(ops[0]) !! Writes(ops[1]);
    assert |ops| > 2 ==> Writes(ops[0]) !! Writes(ops[2]) && Writes(ops[1]) !! Writes(ops[2]);
  }

  /** They read what the original one reads, and new buffers. */
  lemma PieceReads(p: Plan, n: nat)
    ensures var (ops, n') := Piece(p, n);
            forall i, b :: 0 <= i < |ops| && b in Reads(ops[i]) ==> b in Reads(p) || n <= b < n'
  {
  }

  /** The number of buffers before operation `k` is looked at. */
  function Base(ps: seq<Plan>, n: nat, k: nat): (m: nat)
    requires k <= |ps|
    ensures m >= n
  {
    if k == 0 then n else Piece(ps[k - 1], Base(ps, n, k - 1)).1
  }

  lemma {:induction false} BaseGrows(ps: seq<Plan>, n: nat, j: nat, k: nat)
    requires j <= k <= |ps|
    ensures Base(ps, n, j) <= Base(ps, n, k)
  {
    if j < k { BaseGrows(ps, n, j, k - 1); }
  }

  function PieceAt(ps: seq<Plan>, n: nat, k: nat): seq<Plan>
    requires k < |ps|
  {
    Piece(ps[k], Base(ps, n, k)).0
  }

  /** The first operations of the first `k` pieces, which stay in place. */
  ghost function Heads(ps: seq<Plan>, n: nat, k: nat): (r: seq<Plan>)
    requires k <= |ps|
    ensures |r| == k && forall j :: 0 <= j < k ==> r[j] == PieceAt(ps, n, j)[0]
  {
    seq(k, j requires 0 <= j < k => PieceAt(ps, n, j)[0])
  }

  /** The others, which go to the end. */
  ghost function Tails(ps: seq<Plan>, n: nat, k: nat): seq<Plan>
    requires k <= |ps|
  {
    if k == 0 then [] else Tails(ps, n, k - 1) + PieceAt(ps, n, k - 1)[1..]
  }

  /** The plan after the first `k` operations have been looked at. */
  ghost function Rewritten(ps: seq<Plan>, n: nat, k: nat): seq<Plan>
    requires k <= |ps|
  {
    Heads(ps, n, k) + ps[k..] + Tails(ps, n, k)
  }

  lemma RewrittenNext(ps: seq<Plan>, n: nat, k: nat)
    requires k < |ps|
    ensures k < |Rewritten(ps, n, k)| && Rewritten(ps, n, k)[k] == ps[k]
    ensures Rewritten(ps, n, k + 1) == Replace(Rewritten(ps, n, k), k, PieceAt(ps, n, k))
  {
    var ops := PieceAt(ps, n, k);
    assert Heads(ps, n, k + 1) == Heads(ps, n, k) + [ops[0]];
    assert ps[k..] == [ps[k]] + ps[k + 1..];
    ReplaceParts(Heads(ps, n, k), ps[k], ps[k + 1..], Tails(ps, n, k), ops);
  }

  lemma ReplaceParts(x: seq<Plan>, p: Plan, y: seq<Plan>, z: seq<Plan>, ops: seq<Plan>)
    requires ops != []
    ensures Replace(x + ([p] + y) + z, |x|, ops) == (x + [ops[0]]) + y + (z + ops[1..])
  {
  }

  /** What goes to the end comes from a piece. */
  lemma {:induction false} TailFrom(ps: seq<Plan>, n: nat, k: nat, q: Plan) returns (j: nat)
    requires k <= |ps| && q in Tails(ps, n, k)
    ensures j < k && q in PieceAt(ps, n, j)
  {
    var i: nat := k - 1;
    var last := PieceAt(ps, n, i);
    assert q in Tails(ps, n, i) || q in last[1..];
    if q in last {
      j := i;
    } else {
      j := TailFrom(ps, n, i, q);
    }
  }

  lemma {:induction false} TailTo(ps: seq<Plan>, n: nat, k: nat, j: nat, q: Plan)
    requires j < k <= |ps| && q in PieceAt(ps, n, j)[1..]
    ensures q in Tails(ps, n, k)
  {
    if j < k - 1 {
      TailTo(ps, n, k - 1, j, q);
    }
  }

  /** All operations of a piece are in the new plan. */
  lemma InRewritten(ps: seq<Plan>, n: nat, k: nat, j: nat)
    requires k < |ps| && j < |PieceAt(ps, n, k)|
    ensures PieceAt(ps, n, k)[j] in Rewritten(ps, n, |ps|)
  {
    var ops, qs := PieceAt(ps, n, k), Rewritten(ps, n, |ps|);
    if j == 0 {
      assert qs[k] == ops[0];
    } else {
      assert ops[1..][j - 1] == ops[j];
      TailTo(ps, n, |ps|, k, ops[j]);
    }
  }

  /** Every operation of the new plan belongs to a piece. */
  lemma PieceOf(ps: seq<Plan>, n: nat, q: Plan) returns (k: nat, j: nat)
    requires q in Rewritten(ps, n, |ps|)
    ensures k < |ps| && j < |PieceAt(ps, n, k)| && PieceAt(ps, n, k)[j] == q
  {
    var heads := Heads(ps, n, |ps|);
    if q in heads {
      k :| 0 <= k < |ps| && heads[k] == q;
      j := 0;
    } else {
      assert ps[|ps|..] == [];
      k := TailFrom(ps, n, |ps|, q);
      j :| 0 <= j < |PieceAt(ps, n, k)| && PieceAt(ps, n, k)[j] == q;
    }
  }

  // ---------------------------------------------------------------- the meaning of the plan

  /** The plan of a query before the rewrite. */
  ghost predicate Original(ps: seq<Plan>) {
    forall i {:trigger Typed(ps[i])} :: 0 <= i < |ps| ==> Typed(ps[i]) && !ps[i].NullableChecked?
  }

  ghost predicate AllSized(env: Env, ps: seq<Plan>) {
    forall i {:trigger InputsSized(env, ps[i])} :: 0 <= i < |ps| ==> InputsSized(env, ps[i])
  }

  ghost predicate AllMean(env: Env, ps: seq<Plan>) {
    forall k {:trigger Means(env, ps[k])} :: 0 <= k < |ps| ==> Means(env, ps[k])
  }

  ghost predicate SomeFails(env: Env, ps: seq<Plan>) {
    exists k :: 0 <= k < |ps| && Fails(env, ps[k])
  }

  ghost predicate SomePanics(env: Env, ps: seq<Plan>) {
    exists k :: 0 <= k < |ps| && Panics(env, ps[k])
  }

  lemma PieceMeans(env: Env, p: Plan, n: nat)
    requires Typed(p) && !p.NullableChecked? && InputsSized(env, p) && AllExecute(env, Piece(p, n).0)
    ensures Means(env, p)
    ensures SomeFails(env, Piece(p, n).0) <==> ShouldFail(env, p)
    ensures SomePanics(env, Piece(p, n).0) <==> Panics(env, p)
  {
    if Guard(p) {
      RewriteMeans(env, p, n);
      RewriteFails(env, p, n);
      RewritePanics(env, p, n);
    } else {
      var ops := Piece(p, n).0;
      assert ops[0] == p;
      PlainMeans(env, p);
      PlainFails(env, p);
    }
  }

  lemma PieceExecutes(env: Env, ps: seq<Plan>, n: nat, k: nat)
    requires k < |ps| && AllExecute(env, Rewritten(ps, n, |ps|))
    ensures AllExecute(env, PieceAt(ps, n, k))
  {
    var qs, ops := Rewritten(ps, n, |ps|), PieceAt(ps, n, k);
    forall j | 0 <= j < |ops| ensures Executes(env, ops[j]) {
      InRewritten(ps, n, k, j);
      assert ops[j] in qs;
    }
  }

  /** If the new plan executes, the original one has its meaning, and operations fail or panic
      exactly when original ones should or would. */
  lemma RewrittenMeans(env: Env, ps: seq<Plan>, n: nat)
    requires Original(ps) && AllSized(env, ps) && AllExecute(env, Rewritten(ps, n, |ps|))
    ensures AllMean(env, ps)
    ensures SomeFails(env, Rewritten(ps, n, |ps|)) <==> exists k :: 0 <= k < |ps| && ShouldFail(env, ps[k])
    ensures SomePanics(env, Rewritten(ps, n, |ps|)) <==> SomePanics(env, ps)
  {
    var qs := Rewritten(ps, n, |ps|);
    forall k | 0 <= k < |ps|
      ensures Means(env, ps[k]) && (SomeFails(env, PieceAt(ps, n, k)) <==> ShouldFail(env, ps[k]))
      ensures SomePanics(env, PieceAt(ps, n, k)) <==> Panics(env, ps[k])
    {
      PieceExecutes(env, ps, n, k);
      PieceMeans(env, ps[k], Base(ps, n, k));
    }
    FailsRewritten(env, ps, n);
    PanicsRewritten(env, ps, n);
  }

  lemma FailsRewritten(env: Env, ps: seq<Plan>, n: nat)
    ensures SomeFails(env, Rewritten(ps, n, |ps|)) <==> exists k :: 0 <= k < |ps| && SomeFails(env, PieceAt(ps, n, k))
  {
    var qs := Rewritten(ps, n, |ps|);
    if i :| 0 <= i < |qs| && Fails(env, qs[i]) {
      var k, j := PieceOf(ps, n, qs[i]);
      assert SomeFails(env, PieceAt(ps, n, k));
    }
    if k :| 0 <= k < |ps| && SomeFails(env, PieceAt(ps, n, k)) {
      var j :| 0 <= j < |PieceAt(ps, n, k)| && Fails(env, PieceAt(ps, n, k)[j]);
      InRewritten(ps, n, k, j);
    }
  }

  lemma PanicsRewritten(env: Env, ps: seq<Plan>, n: nat)
    ensures SomePanics(env, Rewritten(ps, n, |ps|)) <==> exists k :: 0 <= k < |ps| && SomePanics(env, PieceAt(ps, n, k))
  {
    var qs := Rewritten(ps, n, |ps|);
    if i :| 0 <= i < |qs| && Panics(env, qs[i]) {
      var k, j := PieceOf(ps, n, qs[i]);
      assert SomePanics(env, PieceAt(ps, n, k));
    }
    if k :| 0 <= k < |ps| && SomePanics(env, PieceAt(ps, n, k)) {
      var j :| 0 <= j < |PieceAt(ps, n, k)| && Panics(env, PieceAt(ps, n, k)[j]);
      InRewritten(ps, n, k, j);
    }
  }

  // ---------------------------------------------------------------- a run of the new plan

  /** The operations that are rewritten if they concern nullable buffers. */
  predicate Core(p: Plan) {
    p.Cast? || p.Binary? || p.MergeKeep? || p.DictLookup?
  }

  function Out(p: Plan): (r: Ref)
    requires Core(p)
    ensures Writes(p) == {r.i}
  {
    match p
    case Cast(_, casted, _) => casted
    case Binary(_, _, _, _, out) => out
    case MergeKeep(_, _, _, merged) => merged
    case DictLookup(_, _, decoded) => decoded
  }

  function Ins(p: Plan): seq<Ref>
    requires Core(p)
  {
    match p
    case Cast(input, _, _) => [input]
    case Binary(_, _, l, r, _) => [l, r]
    case MergeKeep(_, l, r, _) => [l, r]
    case DictLookup(indices, _, _) => [indices]
  }

  ghost predicate Refers(p: Plan, r: Ref) {
    Core(p) && (r == Out(p) || r in Ins(p))
  }

  /** Operations read what earlier ones have written, every buffer is written once, and has one
      type. */
  ghost predicate Straight(ps: seq<Plan>) {
    && (forall k {:trigger Core(ps[k])} :: 0 <= k < |ps| ==> Core(ps[k]))
    && (forall j, k {:trigger Out(ps[j]), Reads(ps[k])} :: 0 <= k <= j < |ps| ==> Out(ps[j]).i !in Reads(ps[k]))
    && (forall j, k {:trigger Out(ps[j]), Out(ps[k])} :: 0 <= j < k < |ps| ==> Out(ps[j]).i != Out(ps[k]).i)
    && OneType(ps)
  }

  ghost predicate OneType(ps: seq<Plan>) {
    forall j, k, r, s :: 0 <= j < |ps| && 0 <= k < |ps| && Refers(ps[j], r) && Refers(ps[k], s) && r.i == s.i ==> r == s
  }

  /** The operation finds columns of fitting length. */
  ghost predicate Ready(env: Env, p: Plan)
    requires Core(p)
  {
    match p
    case Cast(_, _, toVal) => toVal ==> Executes(env, p)
    case Binary(_, _, l, r, _) => |env(l.i).vals| == |env(r.i).vals|
    case MergeKeep(t, l, r, _) => LeftKept(t) <= |env(l.i).vals| && |t| - LeftKept(t) <= |env(r.i).vals|
    case DictLookup(_, _, _) => true
  }

  ghost function Zip(op: BinaryOp, x: seq<int>, y: seq<int>): (z: seq<int>)
    requires |x| == |y|
    ensures Zipped(op, x, y, z)
  {
    seq(|x|, k requires 0 <= k < |x| => Perform(op, x[k], y[k]))
  }

  /** Which values of a buffer are present. */
  ghost function Present(env: Env, r: Ref): (bits: seq<bool>)
    requires Sized(env, r)
    ensures |bits| == |env(r.i).vals| && (r.nullable ==> bits == env(r.i).bits) && (!r.nullable ==> forall k :: 0 <= k < |bits| ==> bits[k])
  {
    if r.nullable then env(r.i).bits else seq(|env(r.i).vals|, k => true)
  }

  ghost function Both(x: seq<bool>, y: seq<bool>): (z: seq<bool>)
    requires |x| == |y|
    ensures |z| == |x| && forall k :: 0 <= k < |z| ==> z[k] == (x[k] && y[k])
    ensures (forall k :: 0 <= k < |y| ==> y[k]) ==> z == x
    ensures (forall k :: 0 <= k < |x| ==> x[k]) ==> z == y
  {
    seq(|x|, k requires 0 <= k < |x| => x[k] && y[k])
  }

  /** `env` with new contents in the buffers from `from` up to `to`, and in `out`. */
  ghost function Fill(env: Env, from: nat, to: nat, made: Buffer, out: nat, result: Buffer): Env {
    (i: nat) => if i == out then result else if from <= i < to then made else env(i)
  }

  /** The buffers after the operations that become of `p` have run. */
  ghost function RunPiece(env: Env, p: Plan, n: nat): Env
    requires Core(p) && InputsSized(env, p) && Ready(env, p)
  {
    var n' := Piece(p, n).1;
    match p
    case Cast(input, casted, toVal) => if toVal then env else Fill(env, n, n', env(input.i), casted.i, env(input.i))
    case Binary(op, _, l, r, out) =>
      var b := Buffer(Zip(op, env(l.i).vals, env(r.i).vals), Both(Present(env, l), Present(env, r)));
      Fill(env, n, n', b, out.i, b)
    case MergeKeep(t, l, r, m) =>
      var (x, y) := (Present(env, l), Present(env, r));
      var made := if l.nullable then Buffer(env(r.i).vals, y) else Buffer(env(l.i).vals, x);
      Fill(env, n, n', made, m.i, Buffer(Keep(t, env(l.i).vals, env(r.i).vals), Keep(t, x, y)))
    case DictLookup(indices, dict, decoded) =>
      var x := env(indices.i).vals;
      var b := Buffer(seq(|x|, k requires 0 <= k < |x| => Entry(dict, x[k])), env(indices.i).bits);
      Fill(env, n, n', b, decoded.i, b)
  }

  ghost predicate Separate(p: Plan, n: nat)
    requires Core(p)
  {
    Out(p).i < n && Out(p).i !in Reads(p) && forall i :: i in Reads(p) ==> i < n
  }

  lemma RunBinary(env: Env, op: BinaryOp, checked: bool, l: Ref, r: Ref, out: Ref, n: nat)
    requires var p := Binary(op, checked, l, r, out); Typed(p) && InputsSized(env, p) && Ready(env, p) && Separate(p, n)
    ensures var p := Binary(op, checked, l, r, out); AllExecute(RunPiece(env, p, n), Piece(p, n).0)
  {
    var p := Binary(op, checked, l, r, out);
    assert l.i in Reads(p) && r.i in Reads(p);
    var ops, env' := Piece(p, n).0, RunPiece(env, p, n);
    assert env'(l.i) == env(l.i) && env'(r.i) == env(r.i);
  }

  lemma RunMergeKeep(env: Env, t: seq<bool>, l: Ref, r: Ref, m: Ref, n: nat)
    requires var p := MergeKeep(t, l, r, m); Typed(p) && InputsSized(env, p) && Ready(env, p) && Separate(p, n)
    ensures var p := MergeKeep(t, l, r, m); AllExecute(RunPiece(env, p, n), Piece(p, n).0)
  {
    var p := MergeKeep(t, l, r, m);
    assert l.i in Reads(p) && r.i in Reads(p);
    var ops, env' := Piece(p, n).0, RunPiece(env, p, n);
    assert env'(l.i) == env(l.i) && env'(r.i) == env(r.i);
  }

  /** They have executed, and changed nothing but new buffers and the result. */
  lemma PieceRuns(env: Env, p: Plan, n: nat)
    requires Core(p) && Typed(p) && InputsSized(env, p) && Ready(env, p) && Separate(p, n)
    ensures AllExecute(RunPiece(env, p, n), Piece(p, n).0)
    ensures forall i: nat :: i != Out(p).i && !(n <= i < Piece(p, n).1) ==> RunPiece(env, p, n)(i) == env(i)
  {
    match p
    case Binary(op, checked, l, r, out) => RunBinary(env, op, checked, l, r, out, n);
    case MergeKeep(t, l, r, m) => RunMergeKeep(env, t, l, r, m, n);
    case Cast(input, _, _) => assert input.i in Reads(p);
    case DictLookup(indices, _, _) => assert indices.i in Reads(p);
  }

  /** The two environments show the same columns to the plan. */
  ghost predicate SameViews(env: Env, env': Env, ps: seq<Plan>) {
    forall k, r :: 0 <= k < |ps| && Refers(ps[k], r) ==> SameView(env, env', r)
  }

  ghost predicate SameView(env: Env, env': Env, r: Ref) {
    Sized(env, r) && Sized(env', r) && View(env', r) == View(env, r)
  }

  lemma MeansSized(env: Env, p: Plan, r: Ref)
    requires Means(env, p) && Refers(p, r)
    ensures SameView(env, env, r)
  {
  }

  /** The meaning of an operation determines its result. */
  lemma OutDetermined(env: Env, env': Env, p: Plan)
    requires Core(p) && Means(env, p) && Means(env', p) && forall r :: r in Ins(p) ==> SameView(env, env', r)
    ensures SameView(env, env', Out(p))
  {
    match p
    case Cast(input, casted, _) => assert input in Ins(p);
    case Binary(_, _, l, r, out) => assert l in Ins(p) && r in Ins(p);
    case MergeKeep(_, l, r, m) => assert l in Ins(p) && r in Ins(p);
    case DictLookup(indices, _, decoded) => assert indices in Ins(p);
  }

  /** An operation can run where columns look as in an environment that has its meaning. */
  lemma MeansReady(env: Env, env': Env, p: Plan)
    requires Core(p) && Means(env, p) && forall r :: Refers(p, r) ==> SameView(env, env', r)
    ensures InputsSized(env', p) && Ready(env', p)
  {
    match p
    case Cast(input, casted, _) => assert Refers(p, input) && Refers(p, casted);
    case Binary(_, _, l, r, _) => assert Refers(p, l) && Refers(p, r);
    case MergeKeep(_, l, r, _) => assert Refers(p, l) && Refers(p, r);
    case DictLookup(indices, _, _) => assert Refers(p, indices);
  }

  /** All buffers below `bound` but `w` are left alone. */
  ghost predicate OnlyChanges(env: Env, env': Env, w: nat, bound: nat) {
    forall i: nat :: i != w && i < bound ==> env'(i) == env(i)
  }

  /** A piece that has executed stays so. */
  lemma PieceStays(env: Env, env': Env, p: Plan, m: nat, w: nat, bound: nat)
    requires AllExecute(env, Piece(p, m).0) && OnlyChanges(env, env', w, bound)
    requires Piece(p, m).1 <= bound && Apart(p, w, m)
    ensures AllExecute(env', Piece(p, m).0)
  {
    var ops := Piece(p, m).0;
    forall x | 0 <= x < |ops| ensures Executes(env', ops[x]) {
      forall i | i in Reads(ops[x]) + Writes(ops[x]) ensures env'(i) == env(i) {
        PieceTouches(p, m, x, i);
      }
      ExecutesFrame(env, env', ops[x]);
    }
  }

  lemma PieceTouches(p: Plan, m: nat, x: nat, i: nat)
    requires x < |Piece(p, m).0| && i in Reads(Piece(p, m).0[x]) + Writes(Piece(p, m).0[x])
    ensures i in Reads(p) + Writes(p) || m <= i < Piece(p, m).1
  {
    PieceReads(p, m);
    if i in Writes(Piece(p, m).0[x]) {
      PieceWrites(p, m, i);
      assert WritesTo(Piece(p, m).0, i);
    }
  }

  /** Buffer `w` is below `n` and has nothing to do with `p`, which refers to buffers below `n`. */
  ghost predicate Apart(p: Plan, w: nat, n: nat) {
    w < n && w !in Reads(p) + Writes(p) && forall i :: i in Reads(p) + Writes(p) ==> i < n
  }

  lemma ResultsApart(ps: seq<Plan>, n: nat, j: nat, k: nat)
    requires Straight(ps) && Below(ps, n) && j < k < |ps|
    ensures Apart(ps[j], Out(ps[k]).i, n)
  {
    var w := Out(ps[k]).i;
    assert w in Reads(ps[k]) + Writes(ps[k]);
    assert w !in Reads(ps[j]);
    assert Core(ps[j]) && Writes(ps[j]) == {Out(ps[j]).i} && Out(ps[j]).i != w;
  }

  ghost predicate Executed(env: Env, ps: seq<Plan>, n: nat, k: nat)
    requires k < |ps|
  {
    AllExecute(env, PieceAt(ps, n, k))
  }

  ghost predicate AllExecuted(env: Env, ps: seq<Plan>, n: nat, k: nat)
    requires k <= |ps|
  {
    k == 0 || (AllExecuted(env, ps, n, k - 1) && Executed(env, ps, n, k - 1))
  }

  lemma {:induction false} ExecutedAt(env: Env, ps: seq<Plan>, n: nat, k: nat, j: nat)
    requires j < k <= |ps| && AllExecuted(env, ps, n, k)
    ensures Executed(env, ps, n, j)
  {
    if j < k - 1 { ExecutedAt(env, ps, n, k - 1, j); }
  }

  lemma ExecutedStays(env: Env, env': Env, ps: seq<Plan>, n: nat, j: nat, k: nat, w: nat)
    requires j < k < |ps| && Apart(ps[j], w, n) && OnlyChanges(env, env', w, Base(ps, n, k)) && Executed(env, ps, n, j)
    ensures Executed(env', ps, n, j)
  {
    BaseGrows(ps, n, j + 1, k);
    PieceStays(env, env', ps[j], Base(ps, n, j), w, Base(ps, n, k));
  }

  ghost predicate WrittenBefore(ps: seq<Plan>, k: nat, b: nat)
    requires k <= |ps|
  {
    exists j :: 0 <= j < k && b in Writes(ps[j])
  }

  /** Buffers that are not results of the first `k` operations are left alone. */
  ghost predicate InputsKept(env: Env, env': Env, ps: seq<Plan>, n: nat, k: nat)
    requires k <= |ps|
  {
    forall i: nat :: i < n && !WrittenBefore(ps, k, i) ==> env'(i) == env(i)
  }

  /** From buffers that have the meaning of the plan, the first `k` pieces can be run. */
  lemma {:induction false} RunFirst(env: Env, ps: seq<Plan>, n: nat, k: nat) returns (env': Env)
    requires Original(ps) && Straight(ps) && Below(ps, n) && AllMean(env, ps) && k <= |ps|
    ensures AllExecuted(env', ps, n, k)
    ensures SameViews(env, env', ps) && InputsKept(env, env', ps, n, k)
  {
    if k == 0 {
      env' := env;
      ViewsSized(env, ps);
    } else {
      var j := k - 1;
      var e := RunFirst(env, ps, n, j);
      env' := RunNext(env, e, ps, n, j);
      ResultApart(ps, n, j);
      StayExecuted(e, env', ps, n, j, Out(ps[j]).i, j);
      ViewsStay(env, e, env', ps, n, j);
      KeptNext(env, e, env', ps, n, j);
    }
  }

  lemma ViewsSized(env: Env, ps: seq<Plan>)
    requires AllMean(env, ps)
    ensures SameViews(env, env, ps)
  {
    forall j, r | 0 <= j < |ps| && Refers(ps[j], r) ensures SameView(env, env, r) { MeansSized(env, ps[j], r); }
  }

  lemma RunNext(env: Env, e: Env, ps: seq<Plan>, n: nat, k: nat) returns (env': Env)
    requires Original(ps) && Straight(ps) && Below(ps, n) && AllMean(env, ps) && k < |ps| && SameViews(env, e, ps)
    ensures Executed(env', ps, n, k) && OnlyChanges(e, env', Out(ps[k]).i, Base(ps, n, k))
  {
    var p, m := ps[k], Base(ps, n, k);
    MeansReady(env, e, p);
    IsSeparate(ps, n, k);
    PieceRuns(e, p, m);
    env' := RunPiece(e, p, m);
  }

  ghost predicate AllApart(ps: seq<Plan>, k: nat, w: nat, n: nat)
    requires k <= |ps|
  {
    forall j {:trigger Apart(ps[j], w, n)} :: 0 <= j < k ==> Apart(ps[j], w, n)
  }

  lemma ResultApart(ps: seq<Plan>, n: nat, k: nat)
    requires Straight(ps) && Below(ps, n) && k < |ps| && Core(ps[k])
    ensures AllApart(ps, k, Out(ps[k]).i, n)
  {
    forall j | 0 <= j < k ensures Apart(ps[j], Out(ps[k]).i, n) { ResultsApart(ps, n, j, k); }
  }

  lemma {:induction false} StayExecuted(env: Env, env': Env, ps: seq<Plan>, n: nat, k: nat, w: nat, j: nat)
    requires j <= k < |ps| && AllApart(ps, k, w, n) && OnlyChanges(env, env', w, Base(ps, n, k)) && AllExecuted(env, ps, n, j)
    ensures AllExecuted(env', ps, n, j)
  {
    if j > 0 {
      StayExecuted(env, env', ps, n, k, w, j - 1);
      assert Apart(ps[j - 1], w, n);
      ExecutedStays(env, env', ps, n, j - 1, k, w);
    }
  }

  lemma IsSeparate(ps: seq<Plan>, n: nat, k: nat)
    requires Straight(ps) && Below(ps, n) && k < |ps|
    ensures Separate(ps[k], Base(ps, n, k))
  {
    var p := ps[k];
    assert Out(p).i in Reads(p) + Writes(p) && forall i :: i in Reads(p) ==> i in Reads(p) + Writes(p);
  }

  lemma KeptNext(env: Env, e: Env, env': Env, ps: seq<Plan>, n: nat, k: nat)
    requires k < |ps| && Core(ps[k]) && InputsKept(env, e, ps, n, k) && OnlyChanges(e, env', Out(ps[k]).i, Base(ps, n, k))
    ensures InputsKept(env, env', ps, n, k + 1)
  {
    forall i: nat | i < n && !WrittenBefore(ps, k + 1, i) ensures env'(i) == env(i) {
      assert i !in Writes(ps[k]) && !WrittenBefore(ps, k, i);
    }
  }

  lemma ViewsStay(env: Env, e: Env, env': Env, ps: seq<Plan>, n: nat, k: nat)
    requires Original(ps) && Straight(ps) && Below(ps, n) && AllMean(env, ps) && k < |ps| && SameViews(env, e, ps)
    requires OnlyChanges(e, env', Out(ps[k]).i, Base(ps, n, k)) && Executed(env', ps, n, k)
    ensures SameViews(env, env', ps)
  {
    var p := ps[k];
    forall j, r | 0 <= j < |ps| && Refers(ps[j], r) && r.i != Out(p).i ensures SameView(env, env', r) {
      assert SameView(env, e, r);
      RefersBelow(ps[j], r);
      assert View(env', r) == View(e, r);
    }
    forall r | r in Ins(p) ensures SameView(env, env', r) {
      assert Refers(p, r);
      InsRead(p, r);
    }
    InsSized(env', p);
    PieceMeans(env', p, Base(ps, n, k));
    OutDetermined(env, env', p);
    assert Refers(p, Out(p));
  }

  lemma RefersBelow(p: Plan, r: Ref)
    requires Refers(p, r)
    ensures r.i in Reads(p) + Writes(p)
  {
  }

  lemma InsRead(p: Plan, r: Ref)
    requires Core(p) && r in Ins(p)
    ensures r.i in Reads(p)
  {
  }

  lemma InsSized(env: Env, p: Plan)
    requires Core(p) && forall r :: r in Ins(p) ==> Sized(env, r)
    ensures InputsSized(env, p)
  {
    match p
    case Cast(input, _, _) => assert input in Ins(p);
    case Binary(_, _, l, r, _) => assert l in Ins(p) && r in Ins(p);
    case MergeKeep(_, l, r, _) => assert l in Ins(p) && r in Ins(p);
    case DictLookup(indices, _, _) => assert indices in Ins(p);
  }

  /** Buffers that have the meaning of the plan can be had by running the new plan on the same
      inputs. */
  ghost predicate Runs(env: Env, ps: seq<Plan>, n: nat, qs: seq<Plan>) {
    exists env': Env :: SameViews(env, env', ps) && InputsKept(env, env', ps, n, |ps|) && AllExecute(env', qs)
  }

  lemma RewrittenRuns(env: Env, ps: seq<Plan>, n: nat)
    requires Original(ps) && Straight(ps) && Below(ps, n) && AllMean(env, ps)
    ensures Runs(env, ps, n, Rewritten(ps, n, |ps|))
  {
    var env' := RunFirst(env, ps, n, |ps|);
    var qs := Rewritten(ps, n, |ps|);
    forall i | 0 <= i < |qs| ensures Executes(env', qs[i]) {
      var k, j := PieceOf(ps, n, qs[i]);
      ExecutedAt(env', ps, n, |ps|, k);
    }
    assert AllExecute(env', qs);
  }

  // ---------------------------------------------------------------- the pass

  ghost predicate WritesBelow(ps: seq<Plan>, n: nat) {
    forall k, b :: 0 <= k < |ps| && b in Writes(ps[k]) ==> b < n
  }

  /** The plan with operation `i` replaced by `ops`. */
  function Replace(qs: seq<Plan>, i: nat, ops: seq<Plan>): (rs: seq<Plan>)
    requires i < |qs| && ops != []
    ensures |rs| == |qs| + |ops| - 1
    ensures forall k :: 0 <= k < |rs| ==> rs[k] == if k == i then ops[0] else if k < |qs| then qs[k] else ops[k - |qs| + 1]
  {
    qs[i := ops[0]] + ops[1..]
  }

  /** What a new operation writes is new or was written by the one it replaces. */
  lemma ReplaceWrites(qs: seq<Plan>, i: nat, n: nat, k: nat, b: nat)
    requires i < |qs| && k < |Replace(qs, i, Piece(qs[i], n).0)| && b in Writes(Replace(qs, i, Piece(qs[i], n).0)[k])
    requires k == i || k >= |qs|
    ensures b in Writes(qs[i]) || n <= b < Piece(qs[i], n).1
  {
    var ops := Piece(qs[i], n).0;
    var x := if k == i then 0 else k - |qs| + 1;
    assert Replace(qs, i, ops)[k] == ops[x];
    assert WritesTo(ops, b);
    PieceWrites(qs[i], n, b);
  }

  lemma ReplaceBelow(qs: seq<Plan>, i: nat, n: nat)
    requires i < |qs| && WritesBelow(qs, n)
    ensures WritesBelow(Replace(qs, i, Piece(qs[i], n).0), Piece(qs[i], n).1)
  {
    var rs := Replace(qs, i, Piece(qs[i], n).0);
    forall k, b | 0 <= k < |rs| && b in Writes(rs[k]) ensures b < Piece(qs[i], n).1 {
      if k == i || k >= |qs| { ReplaceWrites(qs, i, n, k, b); }
    }
  }

  /** Replacing an operation by its piece keeps buffers from being written twice. */
  lemma ReplaceOnce(qs: seq<Plan>, i: nat, n: nat, m: nat)
    requires i < |qs| && OnceFrom(qs, m) && WritesBelow(qs, n)
    ensures OnceFrom(Replace(qs, i, Piece(qs[i], n).0), m)
  {
    var ops := Piece(qs[i], n).0;
    var rs := Replace(qs, i, ops);
    PieceOnce(qs[i], n);
    forall k, j, b | 0 <= k < |rs| && 0 <= j < |rs| && b in Writes(rs[k]) && b in Writes(rs[j]) && b >= m ensures k == j {
      var newK, newJ := k == i || k >= |qs|, j == i || j >= |qs|;
      if newK && newJ {
        assert rs[k] == ops[if k == i then 0 else k - |qs| + 1] && rs[j] == ops[if j == i then 0 else j - |qs| + 1];
      } else if newK {
        ReplaceWrites(qs, i, n, k, b);
      } else if newJ {
        ReplaceWrites(qs, i, n, j, b);
      }
    }
  }

  lemma OnceNext(ps: seq<Plan>, n: nat, k: nat, m: nat)
    requires k < |ps| && OnceFrom(Rewritten(ps, n, k), m) && WritesBelow(Rewritten(ps, n, k), Base(ps, n, k))
    ensures OnceFrom(Rewritten(ps, n, k + 1), m) && WritesBelow(Rewritten(ps, n, k + 1), Base(ps, n, k + 1))
  {
    RewrittenNext(ps, n, k);
    ReplaceOnce(Rewritten(ps, n, k), k, Base(ps, n, k), m);
    ReplaceBelow(Rewritten(ps, n, k), k, Base(ps, n, k));
  }

  lemma {:induction false} RewrittenOnce(ps: seq<Plan>, n: nat, k: nat, m: nat)
    requires k <= |ps| && Below(ps, n) && OnceFrom(ps, m)
    ensures OnceFrom(Rewritten(ps, n, k), m) && WritesBelow(Rewritten(ps, n, k), Base(ps, n, k))
  {
    if k == 0 {
      RewriteStart(ps, n);
      NoneFrom(ps, n);
    } else {
      var i: nat := k - 1;
      RewrittenOnce(ps, n, i, m);
      OnceNext(ps, n, i, m);
      assert i + 1 == k;
    }
  }

  /** Before the pass no buffer from `n` on is written at all. */
  lemma NoneFrom(ps: seq<Plan>, n: nat)
    requires Below(ps, n)
    ensures OnceFrom(ps, n) && WritesBelow(ps, n)
  {
    forall i, b | 0 <= i < |ps| && b in Writes(ps[i]) ensures b < n { assert b in Reads(ps[i]) + Writes(ps[i]); }
  }

  /** Whenever the new plan executes, the original one has its meaning, and operations fail exactly
      when a row that is present should, and panic exactly when the original ones would. */
  ghost predicate Sound(ps: seq<Plan>, qs: seq<Plan>) {
    forall env: Env :: AllSized(env, ps) && AllExecute(env, qs) ==>
      && AllMean(env, ps)
      && (SomeFails(env, qs) <==> exists k :: 0 <= k < |ps| && ShouldFail(env, ps[k]))
      && (SomePanics(env, qs) <==> SomePanics(env, ps))
  }

  lemma RewrittenSound(ps: seq<Plan>, n: nat)
    requires Original(ps)
    ensures Sound(ps, Rewritten(ps, n, |ps|))
  {
    var qs := Rewritten(ps, n, |ps|);
    forall env: Env | AllSized(env, ps) && AllExecute(env, qs)
      ensures AllMean(env, ps) && (SomeFails(env, qs) <==> exists k :: 0 <= k < |ps| && ShouldFail(env, ps[k]))
      ensures SomePanics(env, qs) <==> SomePanics(env, ps)
    {
      RewrittenMeans(env, ps, n);
    }
  }

  /** Whenever the original plan has a meaning, the new one can be run. */
  ghost predicate Complete(ps: seq<Plan>, n: nat, qs: seq<Plan>) {
    forall env: Env :: AllMean(env, ps) ==> Runs(env, ps, n, qs)
  }

  lemma RewrittenComplete(ps: seq<Plan>, n: nat)
    requires Original(ps) && Straight(ps) && Below(ps, n)
    ensures Complete(ps, n, Rewritten(ps, n, |ps|))
  {
    forall env: Env | AllMean(env, ps) ensures Runs(env, ps, n, Rewritten(ps, n, |ps|)) { RewrittenRuns(env, ps, n); }
  }

  /** The original plan writes the buffers below `n`, the new one those and each buffer from `n` up
      to `count`: new ones once, old ones once if the original plan does. */
  ghost predicate Allocates(ps: seq<Plan>, n: nat, qs: seq<Plan>, count: nat) {
    && count >= n && OnceFrom(qs, n) && (OnceFrom(ps, 0) ==> OnceFrom(qs, 0))
    && forall b: nat :: WritesTo(qs, b) <==> WritesTo(ps, b) || n <= b < count
  }

  lemma RewrittenAllocates(ps: seq<Plan>, n: nat)
    requires Below(ps, n)
    ensures Allocates(ps, n, Rewritten(ps, n, |ps|), Base(ps, n, |ps|))
  {
    NoneFrom(ps, n);
    RewrittenOnce(ps, n, |ps|, n);
    if OnceFrom(ps, 0) { RewrittenOnce(ps, n, |ps|, 0); }
    var qs := Rewritten(ps, n, |ps|);
    forall b: nat ensures WritesTo(qs, b) <==> WritesTo(ps, b) || n <= b < Base(ps, n, |ps|) { RewrittenWrites(ps, n, b); }
  }

  /** `perform_rewrites`: the plan keeps its meaning, in both directions, new buffers do not get in
      the way, and one pass suffices. */
  method PerformRewrites(ps: seq<Plan>, buffers: nat) returns (qs: seq<Plan>, count: nat)
    requires Original(ps) && Below(ps, buffers)
    ensures Sound(ps, qs) && (Straight(ps) ==> Complete(ps, buffers, qs))
    ensures Allocates(ps, buffers, qs, count)
    ensures NoGuard(qs)
  {
    RewrittenCorrect(ps, buffers);
    qs, count := RewriteAll(ps, buffers);
  }

  method RewriteAll(ps: seq<Plan>, buffers: nat) returns (qs: seq<Plan>, count: nat)
    ensures qs == Rewritten(ps, buffers, |ps|) && count == Base(ps, buffers, |ps|)
  {
    qs, count := ps, buffers;
    RewriteStart(ps, buffers);
    for i := 0 to |ps|
      invariant count == Base(ps, buffers, i) && qs == Rewritten(ps, buffers, i)
    {
      RewriteStep(ps, buffers, i);
      if Guard(qs[i]) {
        var (ops, n) := Rewrite(qs[i], count);
        qs, count := Replace(qs, i, ops), n;
      }
    }
  }

  lemma RewriteStart(ps: seq<Plan>, n: nat)
    ensures Rewritten(ps, n, 0) == ps
  {
  }

  lemma RewriteStep(ps: seq<Plan>, n: nat, k: nat)
    requires k < |ps|
    ensures var qs, m := Rewritten(ps, n, k), Base(ps, n, k);
            && k < |qs| && qs[k] == ps[k]
            && (Guard(ps[k]) ==> Rewritten(ps, n, k + 1) == Replace(qs, k, Rewrite(ps[k], m).0) && Base(ps, n, k + 1) == Rewrite(ps[k], m).1)
            && (!Guard(ps[k]) ==> Rewritten(ps, n, k + 1) == qs && Base(ps, n, k + 1) == m)
  {
    RewrittenNext(ps, n, k);
    if !Guard(ps[k]) {
      var qs := Rewritten(ps, n, k);
      assert Replace(qs, k, [ps[k]]) == qs;
    }
  }

  lemma RewrittenCorrect(ps: seq<Plan>, n: nat)
    requires Original(ps) && Below(ps, n)
    ensures var qs := Rewritten(ps, n, |ps|);
            && Sound(ps, qs) && (Straight(ps) ==> Complete(ps, n, qs)) && Allocates(ps, n, qs, Base(ps, n, |ps|))
            && NoGuard(qs)
  {
    RewrittenSound(ps, n);
    if Straight(ps) { RewrittenComplete(ps, n); }
    RewrittenAllocates(ps, n);
    var qs := Rewritten(ps, n, |ps|);
    forall i | 0 <= i < |qs| ensures !Guard(qs[i]) { var k, j := PieceOf(ps, n, qs[i]); }
  }

  ghost predicate NoGuard(ps: seq<Plan>) {
    forall i :: 0 <= i < |ps| ==> !Guard(ps[i])
  }

  lemma {:induction false} BaseCovers(ps: seq<Plan>, n: nat, k: nat, b: nat) returns (j: nat)
    requires k <= |ps| && n <= b < Base(ps, n, k)
    ensures j < k && Base(ps, n, j) <= b < Base(ps, n, j + 1)
  {
    if b >= Base(ps, n, k - 1) {
      j := k - 1;
    } else {
      j := BaseCovers(ps, n, k - 1, b);
    }
  }

  lemma RewrittenWrites(ps: seq<Plan>, n: nat, b: nat)
    ensures WritesTo(Rewritten(ps, n, |ps|), b) <==> WritesTo(ps, b) || n <= b < Base(ps, n, |ps|)
  {
    if WritesTo(Rewritten(ps, n, |ps|), b) { WritesCome(ps, n, b); }
    if i :| 0 <= i < |ps| && b in Writes(ps[i]) { WritesStay(ps, n, i, b); }
    if n <= b < Base(ps, n, |ps|) {
      var k := BaseCovers(ps, n, |ps|, b);
      WritesStay(ps, n, k, b);
    }
  }

  lemma WritesCome(ps: seq<Plan>, n: nat, b: nat)
    requires WritesTo(Rewritten(ps, n, |ps|), b)
    ensures WritesTo(ps, b) || n <= b < Base(ps, n, |ps|)
  {
    var qs := Rewritten(ps, n, |ps|);
    var i :| 0 <= i < |qs| && b in Writes(qs[i]);
    var k, j := PieceOf(ps, n, qs[i]);
    WritesFrom(ps, n, k, j, b);
  }

  lemma WritesFrom(ps: seq<Plan>, n: nat, k: nat, j: nat, b: nat)
    requires k < |ps| && j < |PieceAt(ps, n, k)| && b in Writes(PieceAt(ps, n, k)[j])
    ensures WritesTo(ps, b) || n <= b < Base(ps, n, |ps|)
  {
    assert WritesTo(PieceAt(ps, n, k), b);
    PieceWrites(ps[k], Base(ps, n, k), b);
    BaseGrows(ps, n, k + 1, |ps|);
  }

  lemma WritesStay(ps: seq<Plan>, n: nat, k: nat, b: nat)
    requires k < |ps| && (b in Writes(ps[k]) || Base(ps, n, k) <= b < Base(ps, n, k + 1))
    ensures WritesTo(Rewritten(ps, n, |ps|), b)
  {
    var qs, ops := Rewritten(ps, n, |ps|), PieceAt(ps, n, k);
    PieceWrites(ps[k], Base(ps, n, k), b);
    var j :| 0 <= j < |ops| && b in Writes(ops[j]);
    InRewritten(ps, n, k, j);
    assert ops[j] in qs;
  }

  // ---------------------------------------------------------------- the checked operators

  /** `NullableCheckedBinaryOperator`: computes every row, and fails if a present one overflows.  It
      panics on a quotient that does not fit, present or not. */
  method NullableCheckedBinary(op: BinaryOp, lhs: seq<int>, rhs: seq<int>, present: seq<bool>) returns (r: Option<(seq<int>, bool)>)
    requires |lhs| == |rhs| == |present|
    ensures r.None? <==> exists k :: 0 <= k < |lhs| && PanicsOn(op, lhs[k], rhs[k])
    ensures r.Some? ==> Zipped(op, lhs, rhs, r.value.0)
    ensures r.Some? ==> (r.value.1 <==> exists k :: 0 <= k < |lhs| && present[k] && Overflows(op, lhs[k], rhs[k]))
  {
    var output, anyOverflow := [], false;
    for i := 0 to |lhs|
      invariant |output| == i && forall k :: 0 <= k < i ==> output[k] == Perform(op, lhs[k], rhs[k]) && !PanicsOn(op, lhs[k], rhs[k])
      invariant anyOverflow <==> exists k :: 0 <= k < i && present[k] && Overflows(op, lhs[k], rhs[k])
    {
      if PanicsOn(op, lhs[i], rhs[i]) {
        return None;
      }
      var (result, overflow) := PerformChecked(op, lhs[i], rhs[i]);
      anyOverflow := anyOverflow || (overflow && present[i]);
      output := output + [result];
    }
    r := Some((output, anyOverflow));
  }
}
