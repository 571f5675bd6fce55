/** Several group-by columns are packed into one 64-bit grouping key.  Packing keeps the order of
    the rows, and every column can be unpacked again. */
module BitPacking {
  import opened Types
  import opened Powers
  import IntegerColumn

  // ---------------------------------------------------------------- one column

  /** A group-by column: whether it has nulls, its encoding range, and the type of its values. */
  datatype Field = Field(nullable: bool, min: int, max: int, stored: Stored)

  type Stored = IntegerColumn.Width

  predicate InType(t: Stored, x: int) {
    if t == IntegerColumn.I64 then InI64(x) else 0 <= x <= IntegerColumn.WidthMax(t)
  }

  /** The range is one of values of the type, and the planner's arithmetic on it does not overflow. */
  predicate FieldOk(f: Field) {
    f.min <= f.max && InType(f.stored, f.min) && InType(f.stored, f.max) && Max(f) < I64_MAX && Max(f) - f.min + 2 <= I64_MAX
  }

  ghost predicate InRange(f: Field, v: Option<int>) {
    if v.None? then f.nullable else f.min <= v.value <= f.max
  }

  /** The upper end of the range that the planner works with. */
  function Max(f: Field): int {
    if f.nullable && f.min <= 0 then f.max + 1 else f.max
  }

  /** Is the lower end of the range subtracted before packing? */
  predicate SubtractOffset(f: Field)
    requires FieldOk(f)
  {
    f.min < 0 || f.nullable || Bits(Max(f)) > Bits(Max(f) - f.min) + 1
  }

  /** The largest encoded value. */
  function AdjustedMax(f: Field): (m: nat)
    requires FieldOk(f)
  {
    if f.nullable then Max(f) - f.min + 1 else if SubtractOffset(f) then Max(f) - f.min else Max(f)
  }

  /** A result in the type `t`, wrapped around. */
  function Narrow(t: Stored, x: int): int {
    if t == IntegerColumn.I64 then IntegerColumn.Wrap(x) else x % (IntegerColumn.WidthMax(t) + 1)
  }

  /** `FuseIntNulls`: null becomes zero, and the offset is added in the type of the values. */
  function FuseIntNulls(t: Stored, offset: int, v: Option<int>): int {
    if v.Some? then Narrow(t, v.value + Narrow(t, offset)) else 0
  }

  /** The value that is packed. */
  function Encode(f: Field, v: Option<int>): int
    requires FieldOk(f)
  {
    if f.nullable then FuseIntNulls(f.stored, -f.min + 1, v)
    else if v.None? then 0
    else if SubtractOffset(f) then v.value + -f.min
    else v.value
  }

  function Decode(f: Field, e: int): Option<int>
    requires FieldOk(f)
  {
    if f.nullable then (if e == 0 then None else Some(e - (-f.min + 1)))
    else if SubtractOffset(f) then Some(e + f.min)
    else Some(e)
  }

  /** Nulls come first. */
  predicate ValueLess(a: Option<int>, b: Option<int>) {
    if a.None? then b.Some? else b.Some? && a.value < b.value
  }

  /** The type has room for the values of the range and for null. */
  predicate Fits(f: Field) {
    f.nullable ==> f.max - f.min + 1 <= IntegerColumn.WidthMax(f.stored)
  }

  /** The code of a value: its distance from the lower end, from one on, as long as the type has
      room for it. */
  lemma FuseValue(f: Field, v: int)
    requires FieldOk(f) && f.nullable && f.min <= v <= f.max
    ensures Encode(f, Some(v)) == if v - f.min + 1 <= IntegerColumn.WidthMax(f.stored) then v - f.min + 1 else 0
  {
    NarrowAdd(f.stored, v, -f.min + 1);
    NarrowValue(f.stored, v - f.min + 1);
  }

  lemma NarrowValue(t: Stored, x: int)
    requires 0 < x && (if t == IntegerColumn.I64 then x <= I64_MAX else x <= IntegerColumn.WidthMax(t) + 1)
    ensures Narrow(t, x) == if x <= IntegerColumn.WidthMax(t) then x else 0
  {
  }

  /** The offset may be narrowed before or after the addition. */
  lemma NarrowAdd(t: Stored, x: int, y: int)
    ensures Narrow(t, x + Narrow(t, y)) == Narrow(t, x + y)
  {
    if t == IntegerColumn.I64 {
      IntegerColumn.WrapAdd(y, x);
    } else {
      ModAdd(x, y, IntegerColumn.WidthMax(t) + 1);
    }
  }

  lemma ModAdd(x: int, y: int, m: nat)
    requires m > 0
    ensures (x + y % m) % m == (x + y) % m
  {
    Decompose(y, m);
    ModMultiple(x + y, y / m, m);
  }

  lemma ModMultiple(x: int, k: int, m: nat)
    requires m > 0
    ensures (x - k * m) % m == x % m
  {
    var y := x - k * m;
    Decompose(x, m);
    Decompose(y, m);
    Distribute(x / m, k, m);
    Unique(m, x / m - k, x % m, y / m, y % m);
  }

  lemma Decompose(x: int, m: nat)
    requires m > 0
    ensures x == x / m * m + x % m && 0 <= x % m < m
  {
  }

  lemma Distribute(q: int, k: int, m: int)
    ensures (q - k) * m == q * m - k * m
  {
  }

  lemma EncodeBounds(f: Field, v: Option<int>)
    requires FieldOk(f) && InRange(f, v)
    ensures 0 <= Encode(f, v) <= AdjustedMax(f) < Pow2(Bits(AdjustedMax(f)))
  {
    if f.nullable && v.Some? { FuseValue(f, v.value); }
  }

  lemma EncodeColumn(f: Field, v: Option<int>)
    requires FieldOk(f) && Fits(f) && InRange(f, v)
    ensures Decode(f, Encode(f, v)) == v
  {
    if f.nullable && v.Some? { FuseValue(f, v.value); }
  }

  lemma EncodeOrder(f: Field, v: Option<int>, w: Option<int>)
    requires FieldOk(f) && Fits(f) && InRange(f, v) && InRange(f, w)
    ensures Encode(f, v) < Encode(f, w) <==> ValueLess(v, w)
    ensures Encode(f, v) == Encode(f, w) <==> v == w
  {
    if f.nullable && v.Some? { FuseValue(f, v.value); }
    if f.nullable && w.Some? { FuseValue(f, w.value); }
  }

  /** The encoding can be decoded, and keeps order and distinctness, for every value in range. */
  ghost predicate Exact(f: Field)
    requires FieldOk(f)
  {
    && (forall v :: InRange(f, v) ==> Decode(f, Encode(f, v)) == v)
    && (forall v, w :: InRange(f, v) && InRange(f, w) ==>
          (Encode(f, v) < Encode(f, w) <==> ValueLess(v, w)) && (Encode(f, v) == Encode(f, w) <==> v == w))
  }

  /** If the type has no room, the largest value gets the code of null. */
  lemma FuseCollides(f: Field)
    requires FieldOk(f) && !Fits(f)
    ensures InRange(f, Some(f.max)) && InRange(f, None) && Encode(f, Some(f.max)) == Encode(f, None)
  {
    FuseValue(f, f.max);
  }

  /** That is exactly when the type has room for null beside the values. */
  lemma FuseExact(f: Field)
    requires FieldOk(f)
    ensures Exact(f) <==> Fits(f)
  {
    if Fits(f) {
      forall v | InRange(f, v) ensures Decode(f, Encode(f, v)) == v { EncodeColumn(f, v); }
      forall v, w | InRange(f, v) && InRange(f, w)
        ensures (Encode(f, v) < Encode(f, w) <==> ValueLess(v, w)) && (Encode(f, v) == Encode(f, w) <==> v == w)
      {
        EncodeOrder(f, v, w);
      }
    } else {
      FuseCollides(f);
    }
  }

  /** A nullable integer column with values from `min` to `max`, zero for null included, as it is
      stored. */
  function StoredField(min: int, max: int): Field
    requires InI64(min) && InI64(max) && min <= max
  {
    var (w, offset) := IntegerColumn.Choose(min, max);
    Field(true, min - offset, max - offset, w)
  }

  /** A stored column has room for null exactly if its range does not fill an unsigned type: the
      values 0 to 255, for instance, leave none. */
  lemma StoredFits(min: int, max: int)
    requires I64_MIN < min <= max && InI64(max) && max - min < I64_MAX
    ensures Fits(StoredField(min, max)) <==> max - min != 0xff && max - min != 0xffff && max - min != 0xffff_ffff
  {
    IntegerColumn.IntervalExact(min, max);
  }

  /** In a column of the values 0 to 255 and null, 255 gets the code of null. */
  lemma ByteCollides()
    ensures var f := StoredField(0, 255); FieldOk(f) && Encode(f, Some(255)) == Encode(f, None) && Decode(f, Encode(f, Some(255))) == None
  {
    FuseCollides(StoredField(0, 255));
  }

  // ---------------------------------------------------------------- a row of columns

  type Tuple = seq<Option<int>>

  ghost predicate FieldsOk(fs: seq<Field>) {
    forall i :: 0 <= i < |fs| ==> FieldOk(fs[i])
  }

  ghost predicate FieldsFit(fs: seq<Field>) {
    forall i :: 0 <= i < |fs| ==> Fits(fs[i])
  }

  ghost predicate RowInRange(fs: seq<Field>, row: Tuple) {
    |row| == |fs| && forall i :: 0 <= i < |fs| ==> InRange(fs[i], row[i])
  }

  /** The bits that the columns take. */
  ghost function Width(fs: seq<Field>): nat
    requires FieldsOk(fs)
  {
    if fs == [] then 0 else Bits(AdjustedMax(fs[0])) + Width(fs[1..])
  }

  /** The packed key: the last column in the lowest bits. */
  ghost function Key(fs: seq<Field>, row: Tuple): int
    requires FieldsOk(fs) && |row| == |fs|
  {
    if fs == [] then 0 else Encode(fs[0], row[0]) * Pow2(Width(fs[1..])) + Key(fs[1..], row[1..])
  }

  ghost function Largest(fs: seq<Field>): int
    requires FieldsOk(fs)
  {
    if fs == [] then 0 else AdjustedMax(fs[0]) * Pow2(Width(fs[1..])) + Largest(fs[1..])
  }

  lemma MulMono(a: int, b: int, c: nat)
    requires a <= b
    ensures a * c <= b * c
  {
    assert (b - a) * c >= 0;
    assert (b - a) * c == b * c - a * c;
  }

  lemma DigitBounds(x: int, y: int, e: nat, m: nat, base: nat, p: nat, low: int, most: int, top: int)
    requires e <= m < base && 0 <= low <= most < p && OnTop(x, e, p, low) && OnTop(y, m, p, most) && OnTop(top, base, p, 0)
    ensures 0 <= x <= y < top
  {
    MulMono(0, e, p);
    MulMono(e, m, p);
    MulMono(m + 1, base, p);
    Distribute(m + 1, 1, p);
  }

  /** Every key lies between zero and the largest key, which fits the total width. */
  lemma {:induction false} KeyBounds(fs: seq<Field>, row: Tuple)
    requires FieldsOk(fs) && RowInRange(fs, row)
    ensures 0 <= Key(fs, row) <= Largest(fs) < Pow2(Width(fs))
  {
    if fs != [] {
      var m, rest := AdjustedMax(fs[0]), fs[1..];
      KeyBounds(rest, row[1..]);
      EncodeBounds(fs[0], row[0]);
      KeyUnfold(fs, row);
      WidthUnfold(fs);
      DigitBounds(Key(fs, row), Largest(fs), Encode(fs[0], row[0]), m, Pow2(Bits(m)), Pow2(Width(rest)), Key(rest, row[1..]), Largest(rest), Pow2(Width(fs)));
    }
  }

  lemma WidthUnfold(fs: seq<Field>)
    requires FieldsOk(fs) && fs != []
    ensures var m, p := AdjustedMax(fs[0]), Pow2(Width(fs[1..]));
            OnTop(Largest(fs), m, p, Largest(fs[1..])) && OnTop(Pow2(Width(fs)), Pow2(Bits(m)), p, 0)
  {
    PowerOnTop(Bits(AdjustedMax(fs[0])), Width(fs[1..]), Width(fs));
  }

  lemma PowerOnTop(v: nat, w: nat, sum: nat)
    requires sum == v + w
    ensures OnTop(Pow2(sum), Pow2(v), Pow2(w), 0)
  {
    Pow2Add(v, w);
  }

  ghost predicate RowLess(a: Tuple, b: Tuple)
    requires |a| == |b|
  {
    a != [] && (ValueLess(a[0], b[0]) || (a[0] == b[0] && RowLess(a[1..], b[1..])))
  }

  /** Numbers with two digits are ordered by the high digit first. */
  lemma DigitsOrder(x: int, y: int, h1: nat, l1: int, h2: nat, l2: int, p: nat)
    requires 0 <= l1 < p && 0 <= l2 < p && OnTop(x, h1, p, l1) && OnTop(y, h2, p, l2)
    ensures x < y <==> h1 < h2 || (h1 == h2 && l1 < l2)
    ensures x == y <==> h1 == h2 && l1 == l2
  {
    if h1 < h2 {
      MulAtLeast(h2 - h1, p);
      assert (h2 - h1) * p == h2 * p - h1 * p;
    } else if h2 < h1 {
      MulAtLeast(h1 - h2, p);
      assert (h1 - h2) * p == h1 * p - h2 * p;
    }
  }

  /** The order of the keys is the lexicographic order of the rows, with nulls first. */
  lemma {:induction false} KeyOrder(fs: seq<Field>, a: Tuple, b: Tuple)
    requires FieldsOk(fs) && FieldsFit(fs) && RowInRange(fs, a) && RowInRange(fs, b)
    ensures Key(fs, a) < Key(fs, b) <==> RowLess(a, b)
    ensures Key(fs, a) == Key(fs, b) <==> a == b
  {
    if fs != [] {
      KeyBounds(fs[1..], a[1..]);
      KeyBounds(fs[1..], b[1..]);
      KeyUnfold(fs, a);
      KeyUnfold(fs, b);
      KeyOrder(fs[1..], a[1..], b[1..]);
      EncodeOrder(fs[0], a[0], b[0]);
      DigitsOrder(Key(fs, a), Key(fs, b), Encode(fs[0], a[0]), Key(fs[1..], a[1..]),
                  Encode(fs[0], b[0]), Key(fs[1..], b[1..]), Pow2(Width(fs[1..])));
      TupleCons(a, b);
    }
  }

  lemma TupleCons(a: Tuple, b: Tuple)
    requires a != [] && b != []
    ensures a == b <==> a[0] == b[0] && a[1..] == b[1..]
  {
    assert a == [a[0]] + a[1..] && b == [b[0]] + b[1..];
  }

  ghost function Lowest(fs: seq<Field>): (row: Tuple)
    requires FieldsOk(fs)
    ensures RowInRange(fs, row)
  {
    seq(|fs|, i requires 0 <= i < |fs| => Some(fs[i].min))
  }

  /** Rows that differ in a column only, with the same code there, have the same key. */
  lemma {:induction false} KeyCollides(fs: seq<Field>, row: Tuple, i: nat, v: Option<int>)
    requires FieldsOk(fs) && |row| == |fs| && i < |fs| && Encode(fs[i], v) == Encode(fs[i], row[i])
    ensures Key(fs, row[i := v]) == Key(fs, row)
  {
    if i == 0 {
      assert row[i := v][1..] == row[1..];
    } else {
      assert row[i := v][1..] == row[1..][i - 1 := v];
      KeyCollides(fs[1..], row[1..], i - 1, v);
    }
  }

  /** Different rows have different keys, if and only if every type has room for null. */
  lemma KeysDistinct(fs: seq<Field>)
    requires FieldsOk(fs)
    ensures FieldsFit(fs) <==> forall a, b :: RowInRange(fs, a) && RowInRange(fs, b) && Key(fs, a) == Key(fs, b) ==> a == b
  {
    if FieldsFit(fs) {
      forall a, b | RowInRange(fs, a) && RowInRange(fs, b) && Key(fs, a) == Key(fs, b) ensures a == b { KeyOrder(fs, a, b); }
    } else {
      var i :| 0 <= i < |fs| && !Fits(fs[i]);
      FuseCollides(fs[i]);
      var a := Lowest(fs)[i := None];
      KeyCollides(fs, a, i, Some(fs[i].max));
      var b := a[i := Some(fs[i].max)];
      assert a[i] != b[i];
      assert RowInRange(fs, a) && RowInRange(fs, b);
    }
  }

  // ---------------------------------------------------------------- unpacking

  /** `(1 << width) - 1`, which wraps around on the way for width 63. */
  function Mask(width: nat): int {
    IntegerColumn.Wrap(IntegerColumn.Wrap(Pow2(width)) - 1)
  }

  lemma MaskExact(width: nat)
    requires width <= 63
    ensures Mask(width) == Pow2(width) - 1
  {
    Pow2Grows(width, 63);
    Pow2Of63();
    if width < 63 { Pow2Grows(width, 62); }
    IntegerColumn.WrapAdd(Pow2(width), -1);
  }

  /** `bit_unpack`: shift right, then take the bits under the mask. */
  function BitUnpack(key: nat, shift: nat, width: nat): nat {
    key / Pow2(shift) % Pow2(width)
  }

  /** `key` has the digits `high`, `e` and `low`, in bases `w` and `p`. */
  ghost predicate Composed(key: int, p: nat, w: nat, high: nat, e: int, low: int) {
    key == (high * w + e) * p + low
  }

  lemma UnpackDigits(key: nat, shift: nat, width: nat, high: nat, e: nat, low: nat)
    requires Composed(key, Pow2(shift), Pow2(width), high, e, low) && low < Pow2(shift) && e < Pow2(width)
    ensures BitUnpack(key, shift, width) == e
  {
    var p, w := Pow2(shift), Pow2(width);
    assert high * w >= 0;
    var top: nat := high * w + e;
    Digits(top, low, p);
    Digits(high, e, w);
    assert key / p == top;
  }

  /** Higher digits. */
  lemma HigherDigits(f: nat, d: nat, key: int, p: nat, w: nat, high: nat, e: int, low: int)
    requires Composed(key, p, w, high, e, low)
    ensures Composed(f * (d * w * p) + key, p, w, f * d + high, e, low)
  {
    Regroup(f * d, high, e, w, p);
    Associate(f, d, w, p);
  }

  lemma Regroup(g: nat, high: nat, e: int, w: nat, p: nat)
    ensures g * w * p + (high * w + e) * p == ((g + high) * w + e) * p
  {
    assert (g + high) * w == g * w + high * w;
    var x, y := g * w, high * w + e;
    assert (x + y) * p == x * p + y * p;
  }

  lemma Associate(a: nat, b: nat, c: nat, d: nat)
    ensures a * (b * c * d) == a * b * c * d
  {
    assert a * (b * c * d) == a * (b * c) * d;
    assert a * (b * c) == a * b * c;
  }

  /** `key` is `f` on top of `tail`. */
  ghost predicate OnTop(key: int, f: nat, p: nat, tail: int) {
    key == f * p + tail
  }

  lemma HigherBits(f: nat, d: nat, tail: int, s: nat, w: nat, above: nat, e: int, low: int, p: nat, key: int) returns (high: nat)
    requires Composed(tail, Pow2(s), Pow2(w), above, e, low) && p == Pow2(d + w + s) && OnTop(key, f, p, tail)
    ensures Composed(key, Pow2(s), Pow2(w), high, e, low)
  {
    Pow2Add(d + w, s);
    Pow2Add(d, w);
    HigherDigits(f, Pow2(d), tail, Pow2(s), Pow2(w), above, e, low);
    high := f * Pow2(d) + above;
  }

  lemma LowestDigits(key: int, p: nat, w: nat, e: nat, low: int)
    requires OnTop(key, e, p, low)
    ensures Composed(key, p, w, 0, e, low)
  {
  }

  lemma {:induction false} WidthAt(fs: seq<Field>, i: nat) returns (d: nat)
    requires FieldsOk(fs) && i < |fs|
    ensures Width(fs) == d + Bits(AdjustedMax(fs[i])) + Width(fs[i + 1..])
  {
    if i == 0 {
      d := 0;
    } else {
      d := WidthAt(fs[1..], i - 1);
      assert fs[1..][i..] == fs[i + 1..];
      d := d + Bits(AdjustedMax(fs[0]));
    }
  }

  lemma KeyUnfold(fs: seq<Field>, row: Tuple)
    requires FieldsOk(fs) && RowInRange(fs, row) && fs != []
    ensures Encode(fs[0], row[0]) >= 0 && OnTop(Key(fs, row), Encode(fs[0], row[0]), Pow2(Width(fs[1..])), Key(fs[1..], row[1..]))
  {
    EncodeBounds(fs[0], row[0]);
  }

  /** The encoded value of every column stands in the key, above those of the later columns. */
  lemma {:induction false} KeyDigits(fs: seq<Field>, row: Tuple, i: nat, key: int) returns (high: nat)
    requires FieldsOk(fs) && RowInRange(fs, row) && i < |fs| && key == Key(fs, row)
    ensures Composed(key, Pow2(Width(fs[i + 1..])), Pow2(Bits(AdjustedMax(fs[i]))), high, Encode(fs[i], row[i]), Key(fs[i + 1..], row[i + 1..]))
    decreases i
  {
    KeyUnfold(fs, row);
    var f, p, tail := Encode(fs[0], row[0]), Pow2(Width(fs[1..])), Key(fs[1..], row[1..]);
    if i == 0 {
      high := 0;
      LowestDigits(key, p, Pow2(Bits(AdjustedMax(fs[0]))), f, tail);
    } else {
      var above := KeyDigits(fs[1..], row[1..], i - 1, tail);
      assert fs[1..][i..] == fs[i + 1..] && row[1..][i..] == row[i + 1..];
      var d := WidthAt(fs[1..], i - 1);
      high := HigherBits(f, d, tail, Width(fs[i + 1..]), Bits(AdjustedMax(fs[i])), above, Encode(fs[i], row[i]), Key(fs[i + 1..], row[i + 1..]), p, key);
    }
  }

  /** Every column can be unpacked from the key. */
  lemma Unpacked(fs: seq<Field>, row: Tuple, i: nat)
    requires FieldsOk(fs) && FieldsFit(fs) && RowInRange(fs, row) && i < |fs|
    ensures Key(fs, row) >= 0
    ensures Decode(fs[i], BitUnpack(Key(fs, row), Width(fs[i + 1..]), Bits(AdjustedMax(fs[i])))) == row[i]
  {
    KeyBounds(fs, row);
    KeyBounds(fs[i + 1..], row[i + 1..]);
    EncodeBounds(fs[i], row[i]);
    EncodeColumn(fs[i], row[i]);
    var high := KeyDigits(fs, row, i, Key(fs, row));
    UnpackDigits(Key(fs, row), Width(fs[i + 1..]), Bits(AdjustedMax(fs[i])), high, Encode(fs[i], row[i]), Key(fs[i + 1..], row[i + 1..]));
  }

  // ---------------------------------------------------------------- the planner

  /** The plan that computes the key: a column by itself, or packed on top of another plan. */
  datatype Plan = Adjusted(i: nat) | BitPack(low: Plan, i: nat, shift: nat)

  /** How to unpack a column. */
  datatype Unpack = Unpack(shift: nat, width: nat)

  datatype Packing = Packing(plan: Plan, largestKey: int, unpacks: seq<Unpack>)

  predicate PlanOk(n: nat, p: Plan) {
    match p
    case Adjusted(i) => i < n
    case BitPack(low, i, _) => i < n && PlanOk(n, low)
  }

  function Eval(fs: seq<Field>, row: Tuple, p: Plan): int
    requires FieldsOk(fs) && |row| == |fs| && PlanOk(|fs|, p)
  {
    match p
    case Adjusted(i) => Encode(fs[i], row[i])
    case BitPack(low, i, shift) => Eval(fs, row, low) + Encode(fs[i], row[i]) * Pow2(shift)
  }

  /** The plan computes the key of the columns from `i` on. */
  ghost predicate Computes(fs: seq<Field>, p: Plan, i: nat)
    requires FieldsOk(fs) && i <= |fs|
  {
    PlanOk(|fs|, p) && forall row :: RowInRange(fs, row) ==> Eval(fs, row, p) == Key(fs[i..], row[i..])
  }

  /** The unpackings of the columns from `i` on, in reverse. */
  ghost predicate Unpacks(fs: seq<Field>, us: seq<Unpack>, i: nat)
    requires FieldsOk(fs) && i <= |fs|
  {
    |us| == |fs| - i && forall k :: i <= k < |fs| ==> us[|fs| - 1 - k] == Unpack(Width(fs[k + 1..]), Bits(AdjustedMax(fs[k])))
  }

  ghost predicate UnpacksAll(fs: seq<Field>, us: seq<Unpack>)
    requires FieldsOk(fs)
  {
    |us| == |fs| && forall k :: 0 <= k < |fs| ==> us[k] == Unpack(Width(fs[k + 1..]), Bits(AdjustedMax(fs[k])))
  }

  lemma UnpacksNext(fs: seq<Field>, us: seq<Unpack>, i: nat)
    requires FieldsOk(fs) && i < |fs| && Unpacks(fs, us, i + 1)
    ensures Unpacks(fs, us + [Unpack(Width(fs[i + 1..]), Bits(AdjustedMax(fs[i])))], i)
  {
    var more := us + [Unpack(Width(fs[i + 1..]), Bits(AdjustedMax(fs[i])))];
    forall k | i <= k < |fs| ensures more[|fs| - 1 - k] == Unpack(Width(fs[k + 1..]), Bits(AdjustedMax(fs[k]))) {
      if k > i { assert more[|fs| - 1 - k] == us[|fs| - 1 - k]; }
    }
  }

  lemma UnpacksReversed(fs: seq<Field>, us: seq<Unpack>)
    requires FieldsOk(fs) && Unpacks(fs, us, 0)
    ensures UnpacksAll(fs, seq(|us|, k requires 0 <= k < |us| => us[|us| - 1 - k]))
  {
  }

  /** What the next column makes of the plan.  A column of width zero is always zero. */
  function NextPlan(f: Field, plan: Option<Plan>, i: nat, totalWidth: nat): Option<Plan>
    requires FieldOk(f) && (totalWidth > 0 ==> plan.Some?)
  {
    if totalWidth == 0 then Some(Adjusted(i))
    else if AdjustedMax(f) > 0 || f.nullable then Some(BitPack(plan.value, i, totalWidth))
    else plan
  }

  /** The plan after the columns from `i` on: none at first. */
  ghost predicate Partial(fs: seq<Field>, plan: Option<Plan>, i: nat)
    requires FieldsOk(fs)
  {
    i <= |fs| && (plan.Some? ==> Computes(fs, plan.value, i)) && (plan.None? ==> i == |fs|) && (Width(fs[i..]) > 0 ==> plan.Some?)
  }

  lemma KeyFrom(fs: seq<Field>, row: Tuple, i: nat)
    requires FieldsOk(fs) && RowInRange(fs, row) && i < |fs|
    ensures Key(fs[i..], row[i..]) == Encode(fs[i], row[i]) * Pow2(Width(fs[i + 1..])) + Key(fs[i + 1..], row[i + 1..])
    ensures Width(fs[i..]) == Bits(AdjustedMax(fs[i])) + Width(fs[i + 1..])
    ensures Largest(fs[i..]) == AdjustedMax(fs[i]) * Pow2(Width(fs[i + 1..])) + Largest(fs[i + 1..])
    ensures Width(fs[i + 1..]) == 0 ==> Key(fs[i + 1..], row[i + 1..]) == 0
  {
    assert fs[i..][1..] == fs[i + 1..] && row[i..][1..] == row[i + 1..];
    KeyBounds(fs[i + 1..], row[i + 1..]);
  }

  lemma LargestFrom(fs: seq<Field>, i: nat)
    requires FieldsOk(fs) && i < |fs|
    ensures FieldsOk(fs[i..]) && FieldsOk(fs[i + 1..])
    ensures Largest(fs[i..]) == Largest(fs[i + 1..]) + AdjustedMax(fs[i]) * Pow2(Width(fs[i + 1..]))
    ensures Width(fs[i..]) == Width(fs[i + 1..]) + Bits(AdjustedMax(fs[i]))
  {
    assert fs[i..][1..] == fs[i + 1..];
  }

  /** If no bits are used yet, the column is the key. */
  lemma EvalFirst(fs: seq<Field>, i: nat, row: Tuple)
    requires FieldsOk(fs) && i < |fs| && RowInRange(fs, row) && Width(fs[i + 1..]) == 0
    ensures Encode(fs[i], row[i]) == Key(fs[i..], row[i..])
  {
    KeyFrom(fs, row, i);
    TimesOne(Encode(fs[i], row[i]), Pow2(Width(fs[i + 1..])));
  }

  lemma TimesOne(x: int, p: int)
    requires p == 1
    ensures x * p == x
  {
  }

  /** Otherwise it is packed on top. */
  lemma EvalPacked(fs: seq<Field>, low: Plan, i: nat, row: Tuple)
    requires FieldsOk(fs) && i < |fs| && RowInRange(fs, row) && Computes(fs, low, i + 1)
    ensures Eval(fs, row, BitPack(low, i, Width(fs[i + 1..]))) == Key(fs[i..], row[i..])
  {
    KeyFrom(fs, row, i);
  }

  /** A column of width zero may be skipped. */
  lemma EvalSkipped(fs: seq<Field>, low: Plan, i: nat, row: Tuple)
    requires FieldsOk(fs) && i < |fs| && RowInRange(fs, row) && Computes(fs, low, i + 1) && AdjustedMax(fs[i]) == 0
    ensures Eval(fs, row, low) == Key(fs[i..], row[i..])
  {
    KeyFrom(fs, row, i);
    EncodeBounds(fs[i], row[i]);
    TimesZero(Encode(fs[i], row[i]), Pow2(Width(fs[i + 1..])));
  }

  lemma TimesZero(x: int, p: int)
    requires x == 0
    ensures x * p == 0
  {
  }

  lemma NextComputes(fs: seq<Field>, plan: Option<Plan>, i: nat)
    requires FieldsOk(fs) && i < |fs| && Partial(fs, plan, i + 1)
    ensures var next := NextPlan(fs[i], plan, i, Width(fs[i + 1..])); next.Some? && Computes(fs, next.value, i)
  {
    var next := NextPlan(fs[i], plan, i, Width(fs[i + 1..]));
    forall row | RowInRange(fs, row) ensures Eval(fs, row, next.value) == Key(fs[i..], row[i..]) {
      if Width(fs[i + 1..]) == 0 {
        EvalFirst(fs, i, row);
      } else if AdjustedMax(fs[i]) > 0 {
        EvalPacked(fs, plan.value, i, row);
      } else {
        EvalSkipped(fs, plan.value, i, row);
      }
    }
  }

  /** All ranges are known. */
  ghost predicate Known(cols: seq<Option<Field>>) {
    forall i :: 0 <= i < |cols| ==> cols[i].Some?
  }

  ghost function Fields(cols: seq<Option<Field>>): (fs: seq<Field>)
    requires Known(cols)
    ensures |fs| == |cols| && forall i :: 0 <= i < |fs| ==> fs[i] == cols[i].value
  {
    seq(|cols|, i requires 0 <= i < |cols| => cols[i].value)
  }

  /** `try_bitpacking`: columns from the last to the first; gives up if the range of a column is not
      known, or if the key does not fit 63 bits in the end. */
  method TryBitpacking(cols: seq<Option<Field>>) returns (r: Option<Packing>)
    requires forall i :: 0 <= i < |cols| && cols[i].Some? ==> FieldOk(cols[i].value)
    ensures r.Some? <==> cols != [] && Known(cols) && Width(Fields(cols)) <= 63
    ensures r.Some? ==> Computes(Fields(cols), r.value.plan, 0) && r.value.largestKey == Largest(Fields(cols))
    ensures r.Some? ==> UnpacksAll(Fields(cols), r.value.unpacks)
  {
    if i :| 0 <= i < |cols| && cols[i].None? {
      return None;
    }
    r := PackFields(seq(|cols|, i requires 0 <= i < |cols| => cols[i].value));
    assert Fields(cols) == seq(|cols|, i requires 0 <= i < |cols| => cols[i].value);
  }

  /** The loop of `try_bitpacking`. */
  method PackFields(fs: seq<Field>) returns (r: Option<Packing>)
    requires FieldsOk(fs)
    ensures r.Some? <==> fs != [] && Width(fs) <= 63
    ensures r.Some? ==> Computes(fs, r.value.plan, 0) && r.value.largestKey == Largest(fs)
    ensures r.Some? ==> UnpacksAll(fs, r.value.unpacks)
  {
    var totalWidth: nat, largestKey, plan: Option<Plan>, unpacks := 0, 0, None, [];
    var i: nat := |fs|;
    while i > 0
      invariant i <= |fs| && totalWidth == Width(fs[i..]) && largestKey == Largest(fs[i..])
      invariant Partial(fs, plan, i) && (i < |fs| ==> plan.Some?)
      invariant Unpacks(fs, unpacks, i)
    {
      i := i - 1;
      LargestFrom(fs, i);
      NextComputes(fs, plan, i);
      plan := NextPlan(fs[i], plan, i, totalWidth);
      UnpacksNext(fs, unpacks, i);
      unpacks := unpacks + [Unpack(totalWidth, Bits(AdjustedMax(fs[i])))];
      largestKey := largestKey + AdjustedMax(fs[i]) * Pow2(totalWidth);
      totalWidth := totalWidth + Bits(AdjustedMax(fs[i]));
    }
    assert fs[0..] == fs;
    if totalWidth <= 63 && plan.Some? {
      UnpacksReversed(fs, unpacks);
      unpacks := seq(|unpacks|, k requires 0 <= k < |unpacks| => unpacks[|unpacks| - 1 - k]);
      r := Some(Packing(plan.value, largestKey, unpacks));
    } else {
      r := None;
    }
  }

  /** The packed key of a row is a nonnegative 64-bit integer no larger than the largest key, every
      column can be unpacked from it, and it orders the rows lexicographically. */
  lemma GroupingKey(fs: seq<Field>, p: Packing, a: Tuple, b: Tuple)
    requires FieldsOk(fs) && FieldsFit(fs) && Width(fs) <= 63 && RowInRange(fs, a) && RowInRange(fs, b)
    requires Computes(fs, p.plan, 0) && p.largestKey == Largest(fs) && UnpacksAll(fs, p.unpacks)
    ensures 0 <= Eval(fs, a, p.plan) <= p.largestKey <= I64_MAX
    ensures forall k :: 0 <= k < |fs| ==>
              Decode(fs[k], BitUnpack(Eval(fs, a, p.plan), p.unpacks[k].shift, p.unpacks[k].width)) == a[k]
    ensures Eval(fs, a, p.plan) < Eval(fs, b, p.plan) <==> RowLess(a, b)
    ensures Eval(fs, a, p.plan) == Eval(fs, b, p.plan) <==> a == b
  {
    assert fs[0..] == fs && a[0..] == a && b[0..] == b;
    KeyFits(fs, a);
    KeyOrder(fs, a, b);
    forall k | 0 <= k < |fs| ensures Decode(fs[k], BitUnpack(Key(fs, a), Width(fs[k + 1..]), Bits(AdjustedMax(fs[k])))) == a[k] {
      Unpacked(fs, a, k);
    }
  }

  lemma KeyFits(fs: seq<Field>, row: Tuple)
    requires FieldsOk(fs) && Width(fs) <= 63 && RowInRange(fs, row)
    ensures 0 <= Key(fs, row) <= Largest(fs) <= I64_MAX
  {
    KeyBounds(fs, row);
    Pow2Grows(Width(fs), 63);
    Pow2Of63();
  }

  // ---------------------------------------------------------------- encoding ranges

  /** The plans whose range is known to the planner. */
  datatype RangePlan =
    | Column(range: Option<(int, int)>)
    | Restricted(plan: RangePlan)                 // a filter or a cast keeps the values
    | ToYear(timestamp: RangePlan)
    | Divide(lhs: RangePlan, c: int)
    | Add(lhs: RangePlan, c: int)

  /** Division in the source rounds towards zero. */
  function TruncDiv(a: int, c: int): int
    requires c != 0
  {
    if a >= 0 then a / c else -((-a) / c)
  }

  /** Later timestamps are not in earlier years. */
  ghost predicate Monotone(year: int -> int) {
    forall a, b :: a <= b ==> year(a) <= year(b)
  }

  /** `encoding_range`, for the year of a timestamp as given.  It divides by the constant, so a zero makes it panic. */
  function EncodingRange(year: int -> int, p: RangePlan): Option<(int, int)>
    requires NoZero(p)
  {
    match p
    case Column(range) => range
    case Restricted(q) => EncodingRange(year, q)
    case ToYear(q) =>
      var r := EncodingRange(year, q);
      if r.None? then None else Some((year(r.value.0), year(r.value.1)))
    case Divide(q, c) =>
      var r := EncodingRange(year, q);
      if r.None? then None
      else if c > 0 then Some((TruncDiv(r.value.0, c), TruncDiv(r.value.1, c)))
      else Some((TruncDiv(r.value.1, c), TruncDiv(r.value.0, c)))
    case Add(q, c) =>
      var r := EncodingRange(year, q);
      if r.None? then None else Some((r.value.0 + c, r.value.1 + c))
  }

  predicate NoZero(p: RangePlan) {
    match p
    case Column(_) => true
    case Restricted(q) => NoZero(q)
    case ToYear(q) => NoZero(q)
    case Divide(q, c) => c != 0 && NoZero(q)
    case Add(q, _) => NoZero(q)
  }

  /** The plan may yield the value `v`. */
  ghost predicate Yields(year: int -> int, p: RangePlan, v: int)
    requires NoZero(p)
  {
    match p
    case Column(range) => range.Some? ==> range.value.0 <= v <= range.value.1
    case Restricted(q) => Yields(year, q, v)
    case ToYear(q) => exists u :: Yields(year, q, u) && v == year(u)
    case Divide(q, c) => exists u :: Yields(year, q, u) && v == TruncDiv(u, c)
    case Add(q, c) => Yields(year, q, v - c)
  }

  lemma DivMono(a: nat, b: nat, c: int)
    requires a <= b && c > 0
    ensures a / c <= b / c
  {
    DivMod(a, c);
    DivMod(b, c);
    if a / c > b / c {
      MulMono(b / c + 1, a / c, c);
    }
  }

  lemma DivNegative(a: nat, c: int)
    requires c < 0
    ensures a / c == -(a / -c)
  {
  }

  lemma TruncMono(a: int, b: int, c: int)
    requires a <= b && c != 0
    ensures if c > 0 then TruncDiv(a, c) <= TruncDiv(b, c) else TruncDiv(b, c) <= TruncDiv(a, c)
  {
    var d := if c > 0 then c else -c;
    if c < 0 {
      DivNegative(if a >= 0 then a else -a, c);
      DivNegative(if b >= 0 then b else -b, c);
    }
    if a >= 0 {
      DivMono(a, b, d);
    } else if b < 0 {
      DivMono(-b, -a, d);
    } else {
      DivMono(0, -a, d);
      DivMono(0, b, d);
    }
  }

  /** Every value a plan yields lies in its encoding range. */
  lemma {:induction false} RangeSound(year: int -> int, p: RangePlan, v: int)
    requires Monotone(year) && NoZero(p) && Yields(year, p, v) && EncodingRange(year, p).Some?
    ensures EncodingRange(year, p).value.0 <= v <= EncodingRange(year, p).value.1
  {
    match p
    case Column(_) =>
    case Restricted(q) => RangeSound(year, q, v);
    case ToYear(q) =>
      var u :| Yields(year, q, u) && v == year(u);
      RangeSound(year, q, u);
    case Divide(q, c) =>
      var u :| Yields(year, q, u) && v == TruncDiv(u, c);
      RangeSound(year, q, u);
      TruncMono(EncodingRange(year, q).value.0, u, c);
      TruncMono(u, EncodingRange(year, q).value.1, c);
    case Add(q, c) => RangeSound(year, q, v - c);
  }
}
