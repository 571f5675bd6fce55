/** Integer columns are stored in the narrowest type that fits, after subtracting an offset and,
    for increasing columns, storing differences.  Arithmetic wraps around as in the release
    profile; every column decodes to the values it was built from. */
module IntegerColumn {
  import opened Types
  import opened Seqs
  import opened Codec

  const TWO64: int := 0x1_0000_0000_0000_0000

  /** A 64-bit signed result, wrapped around. */
  function Wrap(x: int): (r: int)
    ensures InI64(r)
    ensures InI64(x) ==> r == x
  {
    (x - I64_MIN) % TWO64 + I64_MIN
  }

  /** Reinterpretation as a 64-bit unsigned integer. */
  function AsU64(x: int): nat
    requires InI64(x)
  {
    x % TWO64
  }

  /** Wrapping around can be left to the end. */
  lemma WrapAdd(x: int, y: int)
    ensures Wrap(Wrap(x) + y) == Wrap(x + y)
  {
    var k := (x - I64_MIN) / TWO64;
    assert Wrap(x) == x - k * TWO64;
    ModShift(x + y - I64_MIN, k);
  }

  lemma ModShift(a: int, k: int)
    ensures (a - k * TWO64) % TWO64 == a % TWO64
  {
  }

  ghost predicate AllI64(s: seq<int>) {
    forall i :: 0 <= i < |s| ==> InI64(s[i])
  }

  // ---------------------------------------------------------------- differences

  /** The first value and the differences between neighbours. */
  ghost function Deltas(previous: int, s: seq<int>): seq<int>
    decreases |s|
  {
    if s == [] then [] else [Wrap(s[0] - previous)] + Deltas(s[0], s[1..])
  }

  /** Running sums, from `previous` on. */
  ghost function Sums(previous: int, es: seq<int>): (r: seq<int>)
    ensures |r| == |es|
    decreases |es|
  {
    if es == [] then [] else [Wrap(es[0] + previous)] + Sums(Wrap(es[0] + previous), es[1..])
  }

  /** The running sum after all of `es`. */
  ghost function Carry(previous: int, es: seq<int>): int
    decreases |es|
  {
    if es == [] then previous else Carry(Wrap(es[0] + previous), es[1..])
  }

  /** Summing up differences restores the values, whether or not differences overflow. */
  lemma {:induction false} SumDeltas(previous: int, s: seq<int>)
    requires AllI64(s)
    ensures Sums(previous, Deltas(previous, s)) == s
    decreases |s|
  {
    if s != [] {
      WrapAdd(s[0] - previous, previous);
      ConsTail(Wrap(s[0] - previous), Deltas(s[0], s[1..]));
      SumDeltas(s[0], s[1..]);
    }
  }

  /** Sums may be taken chunk by chunk if the last one is carried over. */
  lemma {:induction false} SumsAppend(previous: int, x: seq<int>, y: seq<int>)
    ensures Sums(previous, x + y) == Sums(previous, x) + Sums(Carry(previous, x), y)
    ensures Carry(previous, x + y) == Carry(Carry(previous, x), y)
    decreases |x|
  {
    if x == [] {
      assert x + y == y;
    } else {
      ConsAppend(x, y);
      var next := Wrap(x[0] + previous);
      SumsAppend(next, x[1..], y);
      Associate([next], Sums(next, x[1..]), Sums(Carry(next, x[1..]), y));
    }
  }

  lemma SumsSnoc(previous: int, es: seq<int>, e: int)
    ensures var next := Wrap(e + Carry(previous, es));
            Sums(previous, es + [e]) == Sums(previous, es) + [next] && Carry(previous, es + [e]) == next
  {
    SumsAppend(previous, es, [e]);
    assert [e][1..] == [];
  }

  /** `DeltaDecode`: decodes a column that arrives in chunks. */
  class DeltaDecode {
    var previous: int
    ghost var seen: seq<int>
    ghost var output: seq<int>

    ghost predicate Valid()
      reads this
    {
      output == Sums(0, seen) && previous == Carry(0, seen)
    }

    constructor ()
      ensures Valid() && seen == [] && output == []
    {
      previous, seen, output := 0, [], [];
    }

    method Execute(encoded: seq<int>) returns (decoded: seq<int>)
      requires Valid()
      modifies this
      ensures Valid() && seen == old(seen) + encoded && output == old(output) + decoded
    {
      var last;
      decoded, last := DecodeChunk(previous, encoded);
      SumsAppend(0, seen, encoded);
      previous, seen, output := last, seen + encoded, output + decoded;
    }
  }

  method DecodeChunk(previous: int, encoded: seq<int>) returns (decoded: seq<int>, last: int)
    ensures decoded == Sums(previous, encoded) && last == Carry(previous, encoded)
  {
    decoded, last := [], previous;
    for i := 0 to |encoded|
      invariant decoded == Sums(previous, encoded[..i]) && last == Carry(previous, encoded[..i])
    {
      assert encoded[..i + 1] == encoded[..i] + [encoded[i]];
      SumsSnoc(previous, encoded[..i], encoded[i]);
      last := Wrap(encoded[i] + last);
      decoded := decoded + [last];
    }
    assert encoded[..|encoded|] == encoded;
  }

  /** `min` and `max` are the smallest and the largest value. */
  ghost predicate Extremes(min: int, max: int, s: seq<int>) {
    min in s && max in s && forall i :: 0 <= i < |s| ==> min <= s[i] <= max
  }

  lemma ExtremesSnoc(min: int, max: int, s: seq<int>, x: int)
    requires Extremes(min, max, s)
    ensures Extremes(if min > x then x else min, if max < x then x else max, s + [x])
  {
    assert (s + [x])[|s|] == x;
  }

  lemma {:induction false} DeltasSnoc(previous: int, s: seq<int>, x: int)
    ensures Deltas(previous, s + [x]) == Deltas(previous, s) + [Wrap(x - (if s == [] then previous else s[|s| - 1]))]
    decreases |s|
  {
    if s == [] {
      assert s + [x] == [x] && [x][1..] == [];
    } else {
      ConsAppend(s, [x]);
      DeltasSnoc(s[0], s[1..], x);
    }
  }

  /** Replaces value `i` by its difference to the one before. */
  method EncodeDelta(values: array<int>, i: nat, previous: int, ghost s: seq<int>)
    requires 0 < i < values.Length == |s| && previous == s[i - 1]
    requires values[..i] == Deltas(0, s[..i]) && values[i..] == s[i..]
    modifies values
    ensures values[..i + 1] == Deltas(0, s[..i + 1]) && values[i + 1..] == s[i + 1..]
    ensures values[..i + 1] == old(values[..i]) + [values[i]]
  {
    ghost var done := values[..i];
    assert values[i] == values[i..][0] == s[i];
    DeltasSnoc(0, s[..i], s[i]);
    assert s[..i + 1] == s[..i] + [s[i]];
    values[i] := Wrap(values[i] - previous);
    assert values[..i + 1] == done + [values[i]];
  }

  /** Replaces the values by their differences in place and finds the range of these. */
  method EncodeDeltas(values: array<int>) returns (min: int, max: int)
    requires values.Length > 0 && InI64(values[0])
    modifies values
    ensures values[..] == Deltas(0, old(values[..]))
    ensures Extremes(min, max, values[..])
  {
    ghost var s := values[..];
    var previous := values[0];
    min, max := previous, previous;
    DeltasSnoc(0, [], s[0]);
    assert [] + [s[0]] == s[..1] && values[..1] == [previous];
    for i := 1 to values.Length
      invariant values[..i] == Deltas(0, s[..i]) && values[i..] == s[i..] && previous == s[i - 1]
      invariant Extremes(min, max, values[..i])
    {
      assert values[i] == values[i..][0] == s[i];
      var tmp := values[i];
      ghost var done := values[..i];
      EncodeDelta(values, i, previous, s);
      previous := tmp;
      ExtremesSnoc(min, max, done, values[i]);
      if max < values[i] { max := values[i]; }
      if min > values[i] { min := values[i]; }
    }
    assert values[..values.Length] == values[..] && s[..|s|] == s;
  }

  // ---------------------------------------------------------------- widths and offsets

  datatype Width = U8 | U16 | U32 | I64

  function WidthMax(w: Width): int {
    match w
    case U8 => 0xff
    case U16 => 0xffff
    case U32 => 0xffff_ffff
    case I64 => I64_MAX
  }

  /** The interval from `min` to `max`, as the source computes it. */
  function Interval(min: int, max: int): nat
    requires InI64(min) && InI64(max)
  {
    if min < 0 && max > 0 then AsU64(Wrap(max)) + AsU64(Wrap(-min)) else AsU64(Wrap(max - min))
  }

  /** It is exact, although the subtraction may wrap around. */
  lemma IntervalExact(min: int, max: int)
    requires I64_MIN <= min <= max <= I64_MAX
    ensures Interval(min, max) == max - min
  {
  }

  /** The width and the offset that `new_boxed` chooses. */
  function Choose(min: int, max: int): (Width, int)
    requires InI64(min) && InI64(max)
  {
    var interval := Interval(min, max);
    if min >= 0 && max <= 0xff then (U8, 0)
    else if interval <= 0xff then (U8, min)
    else if min >= 0 && max <= 0xffff then (U16, 0)
    else if interval <= 0xffff then (U16, min)
    else if min >= 0 && max <= 0xffff_ffff then (U32, 0)
    else if interval <= 0xffff_ffff then (U32, min)
    else (I64, 0)
  }

  /** Encoding never reaches `unreachable!`: every value fits the chosen width. */
  lemma ChooseFits(min: int, max: int, v: int)
    requires I64_MIN <= min <= v <= max <= I64_MAX
    ensures var (w, offset) := Choose(min, max);
            && InI64(v - offset) && (if w == I64 then offset == 0 else 0 <= v - offset <= WidthMax(w))
            && Wrap(Wrap(v - offset) + offset) == v
  {
    IntervalExact(min, max);
  }

  /** No narrower width has room for the range, and values are stored as they are if they fit. */
  lemma ChooseNarrowest(min: int, max: int, v: Width)
    requires I64_MIN <= min <= max <= I64_MAX
    ensures var (w, offset) := Choose(min, max);
            && (WidthMax(v) < WidthMax(w) ==> max - min > WidthMax(v))
            && (offset == 0 <==> w == I64 || (min >= 0 && max <= WidthMax(w)))
            && (offset == 0 || offset == min)
  {
    IntervalExact(min, max);
  }

  // ---------------------------------------------------------------- columns

  /** A stored column: its codec, the encoded values, and which of them are present if there are
      nulls. */
  datatype Column = Column(ops: seq<CodecOp>, data: seq<int>, present: Option<seq<bool>>)

  /** The codec of a column. */
  function CodecOf(w: Width, offset: int, delta: bool, nullable: bool): seq<CodecOp> {
    if w == I64 then (if delta then [Delta] else []) + (if nullable then [PushDataSection(1), Nullable] else [])
    else if nullable then
      (match (offset == 0, delta)
       case (true, true) => [Delta, PushDataSection(1), Nullable]
       case (true, false) => [PushDataSection(1), Nullable, ToI64]
       case (false, true) => [Add(offset), Delta, PushDataSection(1), Nullable]
       case (false, false) => [PushDataSection(1), Nullable, Add(offset)])
    else
      (match (offset == 0, delta)
       case (true, true) => [Delta]
       case (true, false) => [ToI64]
       case (false, true) => [Add(offset), Delta]
       case (false, false) => [Add(offset)])
  }

  ghost predicate AllFit(values: seq<int>, w: Width, offset: int) {
    forall i :: 0 <= i < |values| ==> w == I64 || 0 <= Wrap(values[i] - offset) <= WidthMax(w)
  }

  ghost predicate IsShifted(encoded: seq<int>, values: seq<int>, offset: int) {
    |encoded| == |values| && forall i :: 0 <= i < |values| ==> encoded[i] == Wrap(values[i] - offset)
  }

  /** `encode`: subtracts the offset; a value outside the width is unreachable. */
  method EncodeValues(values: seq<int>, w: Width, offset: int) returns (r: Option<seq<int>>)
    ensures r.Some? <==> AllFit(values, w, offset)
    ensures r.Some? ==> IsShifted(r.value, values, offset)
  {
    var encoded := [];
    for i := 0 to |values|
      invariant |encoded| == i
      invariant forall k :: 0 <= k < i ==> encoded[k] == Wrap(values[k] - offset) && (w == I64 || 0 <= encoded[k] <= WidthMax(w))
    {
      var e := Wrap(values[i] - offset);
      if w != I64 && !(0 <= e <= WidthMax(w)) {
        return None;
      }
      encoded := encoded + [e];
    }
    r := Some(encoded);
  }

  /** The values that decoding has to restore. */
  ghost predicate Encodes(encoded: seq<int>, stored: seq<int>, offset: int) {
    |encoded| == |stored| && forall i :: 0 <= i < |stored| ==> Wrap(encoded[i] + offset) == stored[i]
  }

  /** The values to store, with their range. */
  method StoredValues(values: seq<int>, min0: int, max0: int, delta: bool) returns (stored: seq<int>, min: int, max: int)
    requires AllI64(values) && (values != [] ==> Extremes(min0, max0, values))
    ensures stored == (if delta then Deltas(0, values) else values) && AllI64(stored) && |stored| == |values|
    ensures if values == [] then min == min0 && max == max0 else Extremes(min, max, stored)
  {
    stored, min, max := values, min0, max0;
    if delta && values != [] {
      var a := new int[|values|](i requires 0 <= i < |values| => values[i]);
      assert a[..] == values;
      min, max := EncodeDeltas(a);
      stored := a[..];
    }
    DeltasInI64(0, values);
  }

  /** Every stored value fits the chosen width. */
  lemma StoredFit(stored: seq<int>, min: int, max: int)
    requires AllI64(stored) && InI64(min) && InI64(max) && (stored != [] ==> Extremes(min, max, stored))
    ensures AllFit(stored, Choose(min, max).0, Choose(min, max).1)
  {
    forall i | 0 <= i < |stored|
      ensures var (w, offset) := Choose(min, max); w == I64 || 0 <= Wrap(stored[i] - offset) <= WidthMax(w)
    {
      ChooseFits(min, max, stored[i]);
    }
  }

  /** Every stored value is restored by adding the offset. */
  lemma ShiftedBack(encoded: seq<int>, stored: seq<int>, offset: int)
    requires IsShifted(encoded, stored, offset) && AllI64(stored)
    ensures Encodes(encoded, stored, offset) && AllI64(encoded)
  {
    forall i | 0 <= i < |stored| ensures Wrap(encoded[i] + offset) == stored[i] {
      WrapAdd(stored[i] - offset, offset);
    }
  }

  /** `new_boxed`: never `None`, that is, never `unreachable!`. */
  method NewBoxed(values: seq<int>, min0: int, max0: int, delta: bool, present: Option<seq<bool>>)
    returns (column: Option<Column>, ghost w: Width, ghost offset: int)
    requires AllI64(values) && (if values == [] then min0 == I64_MAX && max0 == I64_MIN else Extremes(min0, max0, values))
    ensures column.Some? && column.value.present == present
    ensures column.value.ops == CodecOf(w, offset, delta, present.Some?) && (w == I64 ==> offset == 0)
    ensures Encodes(column.value.data, if delta then Deltas(0, values) else values, offset) && AllI64(column.value.data)
  {
    var stored, min, max := StoredValues(values, min0, max0, delta);
    var (width, off) := Choose(min, max);
    w, offset := width, off;
    StoredFit(stored, min, max);
    var encoded := EncodeValues(stored, width, off);
    if encoded.Some? {
      ShiftedBack(encoded.value, stored, off);
      column := Some(Column(CodecOf(width, off, delta, present.Some?), encoded.value, present));
    } else {
      column := None;
    }
  }

  lemma {:induction false} DeltasInI64(previous: int, s: seq<int>)
    ensures AllI64(Deltas(previous, s)) && |Deltas(previous, s)| == |s|
    decreases |s|
  {
    if s != [] {
      DeltasInI64(s[0], s[1..]);
    }
  }

  // ---------------------------------------------------------------- decoding

  /** What a buffer holds while decoding: values, null flags, or values with null flags. */
  datatype Buffer = Values(vals: seq<int>) | Flags(bits: seq<bool>) | WithNulls(vals: seq<int>, bits: seq<bool>) | Invalid

  ghost function AddOffset(offset: int, s: seq<int>): (r: seq<int>)
    ensures |r| == |s| && forall i :: 0 <= i < |s| ==> r[i] == Wrap(s[i] + offset)
  {
    seq(|s|, i requires 0 <= i < |s| => Wrap(s[i] + offset))
  }

  /** What a decoding operation computes. */
  ghost function Operate(op: CodecOp, args: seq<Buffer>): Buffer
    requires |args| == Arity(op)
  {
    match op
    case Nullable => if args[0].Values? && args[1].Flags? then WithNulls(args[0].vals, args[1].bits) else Invalid
    case Add(x) =>
      if args[0].Values? then Values(AddOffset(x, args[0].vals))
      else if args[0].WithNulls? then WithNulls(AddOffset(x, args[0].vals), args[0].bits)
      else Invalid
    case Delta => if args[0].Values? then Values(Sums(0, args[0].vals)) else Invalid
    case ToI64 => args[0]
    case _ => Invalid
  }

  /** The meaning of a decoding program on the sections of a column. */
  ghost function Decoded(ops: seq<CodecOp>, c: Column, stack: seq<Buffer>): seq<Buffer>
    decreases |ops|
  {
    if ops == [] then stack
    else if |stack| < Arity(ops[0]) then [Invalid]
    else
      var n := |stack| - Arity(ops[0]);
      var b := if ops[0].PushDataSection? then (if c.present.Some? then Flags(c.present.value) else Invalid)
               else Operate(ops[0], stack[n..]);
      Decoded(ops[1..], c, stack[..n] + [b])
  }

  /** The result of one operation on top of a stack. */
  ghost function Result(op: CodecOp, c: Column, stack: seq<Buffer>): Buffer
    requires |stack| >= Arity(op)
  {
    if op.PushDataSection? then (if c.present.Some? then Flags(c.present.value) else Invalid)
    else Operate(op, stack[|stack| - Arity(op)..])
  }

  lemma DecodeStep(op: CodecOp, rest: seq<CodecOp>, c: Column, stack: seq<Buffer>)
    requires |stack| >= Arity(op)
    ensures Decoded([op] + rest, c, stack) == Decoded(rest, c, stack[..|stack| - Arity(op)] + [Result(op, c, stack)])
  {
    ConsTail(op, rest);
  }

  lemma DecodeOne(op: CodecOp, rest: seq<CodecOp>, c: Column, b: Buffer)
    requires Arity(op) == 1 && !op.PushDataSection?
    ensures Decoded([op] + rest, c, [b]) == Decoded(rest, c, [Operate(op, [b])])
  {
    DecodeStep(op, rest, c, [b]);
    assert [b][0..] == [b] && [b][..0] + [Operate(op, [b])] == [Operate(op, [b])];
  }

  lemma DecodeNullable(rest: seq<CodecOp>, c: Column, vals: seq<int>)
    requires c.present.Some?
    ensures Decoded([PushDataSection(1), Nullable] + rest, c, [Values(vals)]) == Decoded(rest, c, [WithNulls(vals, c.present.value)])
  {
    var b, f, r := Values(vals), Flags(c.present.value), WithNulls(vals, c.present.value);
    assert [PushDataSection(1), Nullable] + rest == [PushDataSection(1)] + ([Nullable] + rest);
    DecodeStep(PushDataSection(1), [Nullable] + rest, c, [b]);
    assert [b][..1] + [f] == [b, f];
    DecodeStep(Nullable, rest, c, [b, f]);
    assert [b, f][0..] == [b, f] && [b, f][..0] + [r] == [r];
  }

  /** Decoding a column stored as differences: offset, running sums, null flags. */
  lemma DeltaDecodes(values: seq<int>, c: Column, offset: int, tail: seq<CodecOp>)
    requires AllI64(values) && AddOffset(offset, c.data) == Deltas(0, values) && (offset == 0 ==> c.data == Deltas(0, values))
    requires tail == if c.present.Some? then [PushDataSection(1), Nullable] else []
    ensures Decoded((if offset == 0 then [] else [Add(offset)]) + ([Delta] + tail), c, [Values(c.data)]) ==
            [if c.present.Some? then WithNulls(values, c.present.value) else Values(values)]
  {
    var ops := (if offset == 0 then [] else [Add(offset)]) + ([Delta] + tail);
    if offset != 0 {
      DecodeOne(Add(offset), [Delta] + tail, c, Values(c.data));
    } else {
      assert ops == [Delta] + tail;
    }
    DecodeOne(Delta, tail, c, Values(Deltas(0, values)));
    SumDeltas(0, values);
    if c.present.Some? {
      DecodeNullable([], c, values);
      assert [PushDataSection(1), Nullable] + [] == tail;
    }
  }

  /** Decoding a column stored as such: null flags, then offset or cast, if any. */
  lemma PlainDecodes(values: seq<int>, c: Column, op: Option<CodecOp>)
    requires match op { case None => c.data == values case Some(o) => (o == ToI64 && c.data == values) || (o.Add? && AddOffset(o.amount, c.data) == values) }
    ensures Decoded((if c.present.Some? then [PushDataSection(1), Nullable] else []) + (if op.Some? then [op.value] else []), c, [Values(c.data)]) ==
            [if c.present.Some? then WithNulls(values, c.present.value) else Values(values)]
  {
    var rest := if op.Some? then [op.value] else [];
    var b := if c.present.Some? then WithNulls(c.data, c.present.value) else Values(c.data);
    if c.present.Some? {
      DecodeNullable(rest, c, c.data);
    } else {
      assert [] + rest == rest;
    }
    if op.Some? {
      DecodeOne(op.value, [], c, b);
      assert [op.value] + [] == rest;
    }
  }

  /** Every integer column decodes to the values it was built from, with their null flags, for
      every width, with or without offset, differences and nulls. */
  lemma ColumnDecodes(values: seq<int>, c: Column, w: Width, offset: int, delta: bool)
    requires AllI64(values) && c.ops == CodecOf(w, offset, delta, c.present.Some?) && (w == I64 ==> offset == 0)
    requires Encodes(c.data, if delta then Deltas(0, values) else values, offset) && AllI64(c.data)
    ensures Decoded(c.ops, c, [Values(c.data)]) == [if c.present.Some? then WithNulls(values, c.present.value) else Values(values)]
  {
    var stored := if delta then Deltas(0, values) else values;
    Restored(c.data, stored, offset);
    if delta {
      DeltaCodec(w, offset, c.present.Some?);
      DeltaDecodes(values, c, offset, if c.present.Some? then [PushDataSection(1), Nullable] else []);
    } else {
      PlainCodec(w, offset, c.present.Some?);
      PlainDecodes(values, c, if w == I64 then None else Some(if offset == 0 then ToI64 else Add(offset)));
    }
  }

  lemma Restored(data: seq<int>, stored: seq<int>, offset: int)
    requires Encodes(data, stored, offset) && AllI64(data)
    ensures AddOffset(offset, data) == stored && (offset == 0 ==> data == stored)
  {
  }

  lemma DeltaCodec(w: Width, offset: int, nullable: bool)
    requires w == I64 ==> offset == 0
    ensures CodecOf(w, offset, true, nullable) ==
            (if offset == 0 then [] else [Add(offset)]) + ([Delta] + if nullable then [PushDataSection(1), Nullable] else [])
  {
  }

  lemma PlainCodec(w: Width, offset: int, nullable: bool)
    ensures CodecOf(w, offset, false, nullable) ==
            (if nullable then [PushDataSection(1), Nullable] else []) + if w == I64 then [] else [if offset == 0 then ToI64 else Add(offset)]
  {
  }

  ghost predicate Unary(ops: seq<CodecOp>) {
    forall i :: 0 <= i < |ops| ==> Arity(ops[i]) == 1 && ops[i] != Nullable && ops[i] != Unknown
  }

  lemma {:induction false} UnaryRuns(ops: seq<CodecOp>)
    requires Unary(ops)
    ensures Runs(ops, 1) && Depth(ops, 1) == 1
  {
    if ops != [] {
      UnaryRuns(ops[1..]);
    }
  }

  /** Null flags may be attached anywhere among unary operations. */
  lemma NullsWellFormed(pre: seq<CodecOp>, post: seq<CodecOp>)
    requires Unary(pre) && Unary(post)
    ensures WellFormed(pre + post) && WellFormed(pre + ([PushDataSection(1), Nullable] + post))
  {
    var nulls := [PushDataSection(1), Nullable];
    var ops := pre + (nulls + post);
    UnaryRuns(pre);
    UnaryRuns(post);
    assert nulls[1..] == [Nullable] && nulls[1..][1..] == [];
    RunsAppend(pre, post, 1);
    RunsAppend(nulls, post, 1);
    RunsAppend(pre, nulls + post, 1);
    RunsAppend(pre, nulls, 1);
    assert ops[..|pre| + 2] == pre + nulls;
    assert forall k :: 0 <= k < |ops| && ops[k] == Nullable ==> k == |pre| + 1;
  }

  /** The codecs of integer columns are well formed. */
  lemma CodecWellFormed(w: Width, offset: int, delta: bool, nullable: bool)
    ensures WellFormed(CodecOf(w, offset, delta, nullable))
  {
    var ops := CodecOf(w, offset, delta, nullable);
    var add := if offset == 0 then ToI64 else Add(offset);
    var pre := if delta then (if offset == 0 || w == I64 then [Delta] else [Add(offset), Delta]) else [];
    var post := if delta || w == I64 then [] else [add];
    NullsWellFormed(pre, post);
    assert ops == if nullable then pre + ([PushDataSection(1), Nullable] + post) else pre + post;
  }

  // ---------------------------------------------------------------- the builder

  /** How many values are larger than the one before. */
  ghost function Rises(last: int, s: seq<int>): nat
    decreases |s|
  {
    if s == [] then 0 else (if s[0] > last then 1 else 0) + Rises(s[0], s[1..])
  }

  /** No fall from one value to the next overflows. */
  ghost predicate NoDeepFall(last: int, s: seq<int>)
    decreases |s|
  {
    s == [] || ((s[0] <= last ==> InI64(s[0] - last)) && NoDeepFall(s[0], s[1..]))
  }

  lemma {:induction false} PushRises(last: int, s: seq<int>, x: int)
    ensures var prev := if s == [] then last else s[|s| - 1];
            && Rises(last, s + [x]) == Rises(last, s) + (if x > prev then 1 else 0)
            && (NoDeepFall(last, s + [x]) <==> NoDeepFall(last, s) && (x <= prev ==> InI64(x - prev)))
    decreases |s|
  {
    if s == [] {
      assert s + [x] == [x] && [x][1..] == [];
    } else {
      ConsAppend(s, [x]);
      PushRises(s[0], s[1..], x);
    }
  }

  /** What the builder knows about the values pushed. */
  ghost predicate Summary(data: seq<int>, min: int, max: int, increasing: nat, allowDelta: bool, last: int) {
    && AllI64(data) && increasing == Rises(I64_MIN, data) && allowDelta == NoDeepFall(I64_MIN, data)
    && (if data == [] then min == I64_MAX && max == I64_MIN && last == I64_MIN
        else Extremes(min, max, data) && last == data[|data| - 1])
  }

  lemma SummaryPush(data: seq<int>, min: int, max: int, increasing: nat, allowDelta: bool, last: int, x: int)
    requires Summary(data, min, max, increasing, allowDelta, last) && InI64(x)
    ensures Summary(data + [x], if min > x then x else min, if max < x then x else max,
                    increasing + (if x > last then 1 else 0), allowDelta && (x > last || InI64(x - last)), x)
  {
    PushRises(I64_MIN, data, x);
    if data == [] {
      assert data + [x] == [x];
    } else {
      ExtremesSnoc(min, max, data, x);
    }
  }

  /** `IntColBuilder`.  A null is stored as zero. */
  class IntColBuilder {
    var data: seq<int>
    var min: int
    var max: int
    var increasing: nat
    var allowDelta: bool
    var last: int

    ghost predicate Valid()
      reads this
    {
      Summary(data, min, max, increasing, allowDelta, last)
    }

    constructor ()
      ensures Valid() && data == []
    {
      data, min, max, increasing, allowDelta, last := [], I64_MAX, I64_MIN, 0, true, I64_MIN;
    }

    method Push(elem: Option<int>)
      requires Valid() && (elem.Some? ==> InI64(elem.value))
      modifies this
      ensures Valid() && data == old(data) + [if elem.Some? then elem.value else 0]
    {
      var x := if elem.Some? then elem.value else 0;
      SummaryPush(data, min, max, increasing, allowDelta, last, x);
      min := if min > x then x else min;
      max := if max < x then x else max;
      if x > last {
        increasing := increasing + 1;
      } else if !InI64(x - last) {
        allowDelta := false;
      }
      last := x;
      data := data + [x];
    }

    /** `finalize`.  The column decodes to the values pushed. */
    method Finalize(present: Option<seq<bool>>, lz4: bool) returns (column: Option<Column>)
      requires Valid()
      ensures column.Some? && WellFormed(column.value.ops)
      ensures Decoded(column.value.ops, column.value, [Values(column.value.data)]) ==
              [if present.Some? then WithNulls(data, present.value) else Values(data)]
      ensures Delta in column.value.ops <==> lz4 && NoDeepFall(I64_MIN, data) && Rises(I64_MIN, data) * 10 > |data| * 9
    {
      var delta := allowDelta && increasing * 10 > |data| * 9 && lz4;
      ghost var w, offset;
      column, w, offset := NewBoxed(data, min, max, delta, present);
      ColumnDecodes(data, column.value, w, offset, delta);
      CodecWellFormed(w, offset, delta, present.Some?);
      DeltaInCodec(w, offset, delta, present.Some?);
    }
  }

  /** The codec says whether differences are stored. */
  lemma DeltaInCodec(w: Width, offset: int, delta: bool, nullable: bool)
    ensures Delta in CodecOf(w, offset, delta, nullable) <==> delta
  {
    var ops := CodecOf(w, offset, delta, nullable);
    if delta { assert ops[0] == Delta || ops[1] == Delta; }
  }

  /** The builder rules out falls that overflow, but not rises: the difference between these two
      values overflows, and the column is still stored as differences. */
  lemma RiseMayOverflow()
    ensures var s := [-1, I64_MAX]; NoDeepFall(I64_MIN, s) && Rises(I64_MIN, s) * 10 > |s| * 9 && !InI64(s[1] - s[0])
  {
    var s := [-1, I64_MAX];
    assert s[1..] == [I64_MAX] && s[1..][1..] == [];
  }
}
