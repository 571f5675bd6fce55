/** What the properties of decoding operations are for.  The engine filters, compares and sums up columns
    that are not fully decoded; an operation has a property exactly if that may be done before it. */
module CodecMeaning {
  import opened Types
  import opened Seqs
  import opened Indices
  import opened Codec
  import opened IntegerColumn
  import opened PackedStrings
  import Filtering
  import StringColumn

  /** What a buffer holds: numbers, or strings with null flags if they have some. */
  datatype Data = Numbers(b: Buffer) | Strings(texts: seq<Text>, bits: Option<seq<bool>>)

  /** What unpacking bytes yields, which is left open. */
  type Unpacker = (CodecOp, seq<int>) -> Data

  const BAD: Data := Numbers(Invalid)

  /** The codes refer to strings of the dictionary. */
  ghost predicate LookupOk(codes: seq<int>, entries: seq<int>, store: seq<int>) {
    forall i :: 0 <= i < |codes| ==>
      && 0 <= codes[i] < |entries| && entries[codes[i]] >= 0
      && StringColumn.EntryOffset(entries[codes[i]]) + StringColumn.EntryLen(entries[codes[i]]) <= |store|
  }

  ghost function Lookups(codes: seq<int>, entries: seq<int>, store: seq<int>): (r: seq<Text>)
    requires LookupOk(codes, entries, store)
    ensures |r| == |codes|
    ensures forall i :: 0 <= i < |r| ==> r[i] == StringColumn.At(StringColumn.Indexed([], store), entries[codes[i]])
  {
    seq(|codes|, i requires 0 <= i < |codes| => StringColumn.At(StringColumn.Indexed([], store), entries[codes[i]]))
  }

  predicate IsValues(d: Data) {
    d.Numbers? && d.b.Values?
  }

  ghost function LookedUp(codes: Data, entries: Data, store: Data): Data {
    if IsValues(entries) && IsValues(store) && codes.Numbers? && (codes.b.Values? || codes.b.WithNulls?)
       && LookupOk(codes.b.vals, entries.b.vals, store.b.vals)
    then Strings(Lookups(codes.b.vals, entries.b.vals, store.b.vals), if codes.b.Values? then None else Some(codes.b.bits))
    else BAD
  }

  /** What a decoding operation computes. */
  ghost function Computed(u: Unpacker, op: CodecOp, args: seq<Data>): Data
    requires |args| == Arity(op)
  {
    match op
    case Nullable => if args[0].Numbers? && args[1].Numbers? then Numbers(Operate(op, [args[0].b, args[1].b])) else BAD
    case Add(_) => if args[0].Numbers? then Numbers(Operate(op, [args[0].b])) else BAD
    case Delta => if args[0].Numbers? then Numbers(Operate(op, [args[0].b])) else BAD
    case ToI64 => if args[0].Numbers? then Numbers(Operate(op, [args[0].b])) else BAD
    case DictLookup => LookedUp(args[0], args[1], args[2])
    case PushDataSection(_) => BAD
    case Unknown => BAD
    case _ => if IsValues(args[0]) then u(op, args[0].b.vals) else BAD
  }

  // ---------------------------------------------------------------- rows

  /** The data has rows: as many flags as values. */
  ghost predicate Ok(d: Data) {
    match d
    case Numbers(b) => b.Values? || (b.WithNulls? && |b.bits| == |b.vals|)
    case Strings(texts, bits) => bits.Some? ==> |bits.value| == |texts|
  }

  ghost function Rows(d: Data): nat
    requires Ok(d)
  {
    if d.Numbers? then |d.b.vals| else |d.texts|
  }

  /** The rows with the given indices. */
  ghost function Select(d: Data, idx: seq<nat>): (r: Data)
    requires Ok(d) && Within(Rows(d), idx)
    ensures Ok(r) && Rows(r) == |idx|
  {
    match d
    case Numbers(b) =>
      if b.Values? then Numbers(Values(Filtering.At(b.vals, idx)))
      else Numbers(WithNulls(Filtering.At(b.vals, idx), Filtering.At(b.bits, idx)))
    case Strings(texts, bits) => Strings(Filtering.At(texts, idx), if bits.None? then None else Some(Filtering.At(bits.value, idx)))
  }

  /** A row. */
  datatype Item = Null | Number(n: int) | String(s: Text)

  ghost function ItemAt(d: Data, i: nat): Item
    requires Ok(d) && i < Rows(d)
  {
    match d
    case Numbers(b) => if b.WithNulls? && !b.bits[i] then Null else Number(b.vals[i])
    case Strings(texts, bits) => if bits.Some? && !bits.value[i] then Null else String(texts[i])
  }

  /** The order of rows, with null first. */
  ghost predicate ItemLess(x: Item, y: Item) {
    || (x.Null? && !y.Null?)
    || (x.Number? && y.Number? && x.n < y.n)
    || (x.String? && y.String? && StringColumn.TextLess(x.s, y.s))
  }

  /** The sum of the first `n` rows, if they are numbers; null adds nothing. */
  ghost function SumTo(d: Data, n: nat): Option<int>
    requires Ok(d) && n <= Rows(d)
  {
    if n == 0 then Some(0)
    else
      var x, before := ItemAt(d, n - 1), SumTo(d, n - 1);
      if before.None? || x.String? then None else if x.Null? then before else Some(before.value + x.n)
  }

  // ---------------------------------------------------------------- what the properties mean

  /** The operation has its operands, and they can be decoded. */
  ghost predicate Decodes(u: Unpacker, op: CodecOp, arg: Data, extra: seq<Data>) {
    |extra| + 1 == Arity(op) && Ok(arg) && Ok(Computed(u, op, [arg] + extra))
  }

  /** No sum wraps around, and the dictionary is sorted. */
  ghost predicate Tame(op: CodecOp, arg: Data, extra: seq<Data>)
    requires |extra| + 1 == Arity(op) && Ok(arg)
  {
    match op
    case Add(x) => arg.Numbers? && forall i :: 0 <= i < |arg.b.vals| ==> InI64(arg.b.vals[i] + x)
    case DictLookup => IsValues(extra[0]) && IsValues(extra[1]) && SortedDictionary(extra[0].b.vals, extra[1].b.vals)
    case _ => true
  }

  ghost predicate SortedDictionary(entries: seq<int>, store: seq<int>) {
    && (forall c :: 0 <= c < |entries| ==> LookupOk([c], entries, store))
    && forall c, e :: 0 <= c < e < |entries| ==> StringColumn.TextLess(Lookups([c], entries, store)[0], Lookups([e], entries, store)[0])
  }

  /** Selecting rows before the operation is selecting them behind it. */
  ghost predicate SelectsAlike(u: Unpacker, op: CodecOp, arg: Data, extra: seq<Data>, idx: seq<nat>)
    requires Decodes(u, op, arg, extra) && Within(Rows(arg), idx)
  {
    var r := Computed(u, op, [arg] + extra);
    Rows(r) == Rows(arg) && Computed(u, op, [Select(arg, idx)] + extra) == Select(r, idx)
  }

  /** Rows compare the same before and behind the operation. */
  ghost predicate ComparesAlike(u: Unpacker, op: CodecOp, arg: Data, extra: seq<Data>, i: nat, j: nat)
    requires Decodes(u, op, arg, extra) && i < Rows(arg) && j < Rows(arg)
  {
    var r := Computed(u, op, [arg] + extra);
    Rows(r) == Rows(arg) && (ItemLess(ItemAt(arg, i), ItemAt(arg, j)) <==> ItemLess(ItemAt(r, i), ItemAt(r, j)))
  }

  /** Rows have the same sum before and behind the operation. */
  ghost predicate SumsAlike(u: Unpacker, op: CodecOp, arg: Data, extra: seq<Data>)
    requires Decodes(u, op, arg, extra)
  {
    var r := Computed(u, op, [arg] + extra);
    SumTo(r, Rows(r)) == SumTo(arg, Rows(arg))
  }

  /** What may be done before the operation instead of behind it. */
  ghost predicate Keeps(u: Unpacker, p: Property, op: CodecOp) {
    match p
    case ElementwiseDecodable =>
      forall arg, extra, idx :: Decodes(u, op, arg, extra) && Within(Rows(arg), idx) ==> SelectsAlike(u, op, arg, extra, idx)
    case OrderPreserving =>
      forall arg, extra, i: nat, j: nat :: Decodes(u, op, arg, extra) && Tame(op, arg, extra) && i < Rows(arg) && j < Rows(arg) ==>
        ComparesAlike(u, op, arg, extra, i, j)
    case SummationPreserving =>
      forall arg, extra :: Decodes(u, op, arg, extra) && Tame(op, arg, extra) ==> SumsAlike(u, op, arg, extra)
  }

  // ---------------------------------------------------------------- operations with a property keep it

  lemma AddSelects(u: Unpacker, x: int, arg: Data, idx: seq<nat>)
    requires Decodes(u, Add(x), arg, []) && Within(Rows(arg), idx)
    ensures SelectsAlike(u, Add(x), arg, [], idx)
  {
    var vals := arg.b.vals;
    assert AddOffset(x, Filtering.At(vals, idx)) == Filtering.At(AddOffset(x, vals), idx);
  }

  lemma LookupSelects(u: Unpacker, arg: Data, extra: seq<Data>, idx: seq<nat>)
    requires Decodes(u, DictLookup, arg, extra) && Within(Rows(arg), idx)
    ensures SelectsAlike(u, DictLookup, arg, extra, idx)
  {
    var codes, entries, store := arg.b.vals, extra[0].b.vals, extra[1].b.vals;
    assert ([arg] + extra)[1] == extra[0] && ([arg] + extra)[2] == extra[1];
    var some := Filtering.At(codes, idx);
    assert LookupOk(some, entries, store);
    assert Lookups(some, entries, store) == Filtering.At(Lookups(codes, entries, store), idx);
  }

  lemma LookupCompares(u: Unpacker, arg: Data, extra: seq<Data>, i: nat, j: nat)
    requires Decodes(u, DictLookup, arg, extra) && Tame(DictLookup, arg, extra) && i < Rows(arg) && j < Rows(arg)
    ensures ComparesAlike(u, DictLookup, arg, extra, i, j)
  {
    var codes, entries, store := arg.b.vals, extra[0].b.vals, extra[1].b.vals;
    assert ([arg] + extra)[1] == extra[0] && ([arg] + extra)[2] == extra[1];
    var c, e := codes[i], codes[j];
    var r := Lookups(codes, entries, store);
    assert LookupOk([c], entries, store) && LookupOk([e], entries, store);
    assert r[i] == Lookups([c], entries, store)[0] && r[j] == Lookups([e], entries, store)[0];
    StringColumn.TextIrreflexive(r[i]);
    if e < c { StringColumn.TextAsymmetric(r[j], r[i]); }
  }

  lemma {:induction false} SameSums(a: Data, b: Data, n: nat)
    requires Ok(a) && Ok(b) && n <= Rows(a) && n <= Rows(b)
    requires forall i: nat :: i < n ==> ItemAt(a, i) == ItemAt(b, i)
    ensures SumTo(a, n) == SumTo(b, n)
  {
    if n > 0 { SameSums(a, b, n - 1); }
  }

  /** An operation that has a property keeps what the property is about. */
  lemma HasKeeps(u: Unpacker, p: Property, op: CodecOp)
    requires Has(p, op)
    ensures Keeps(u, p, op)
  {
    match p
    case ElementwiseDecodable =>
      forall arg, extra, idx | Decodes(u, op, arg, extra) && Within(Rows(arg), idx) ensures SelectsAlike(u, op, arg, extra, idx) {
        if op.Add? {
          assert extra == [];
          AddSelects(u, op.amount, arg, idx);
        } else if op.DictLookup? {
          LookupSelects(u, arg, extra, idx);
        }
      }
    case OrderPreserving =>
      forall arg, extra, i: nat, j: nat | Decodes(u, op, arg, extra) && Tame(op, arg, extra) && i < Rows(arg) && j < Rows(arg)
        ensures ComparesAlike(u, op, arg, extra, i, j)
      {
        if op.DictLookup? { LookupCompares(u, arg, extra, i, j); }
      }
    case SummationPreserving =>
      forall arg, extra | Decodes(u, op, arg, extra) && Tame(op, arg, extra) ensures SumsAlike(u, op, arg, extra) {
        SameSums(Computed(u, op, [arg] + extra), arg, Rows(arg));
      }
  }

  // ---------------------------------------------------------------- operations without it do not

  /** An operation that can be applied to a column, with a 64-bit amount. */
  predicate Applicable(op: CodecOp) {
    !op.PushDataSection? && !op.Unknown? && (op.Add? ==> InI64(op.amount))
  }

  /** Unpacking for which no property holds: it always yields two zeros. */
  const ZEROS: Unpacker := (op, bytes) => Numbers(Values([0, 0]))

  ghost function TwoRows(): (d: Data)
    ensures Ok(d) && Rows(d) == 2
  {
    Numbers(Values([1, 2]))
  }

  lemma DeltaLacks(u: Unpacker, p: Property)
    ensures !Keeps(u, p, Delta)
  {
    SumsOfTwo(1, 1);
    SumsOfTwo(2, 1);
    match p
    case ElementwiseDecodable =>
      var arg, idx := Numbers(Values([1, 1])), [1];
      SumsOfOne(1);
      assert Filtering.At([1, 1], idx) == [1] && Filtering.At([1, 2], idx) == [2];
      assert !SelectsAlike(u, Delta, arg, [], idx);
    case OrderPreserving =>
      var arg := Numbers(Values([2, 1]));
      assert Tame(Delta, arg, []) && !ComparesAlike(u, Delta, arg, [], 1, 0);
    case SummationPreserving =>
      var arg := Numbers(Values([1, 1]));
      SumOfTwo(arg);
      SumOfTwo(Numbers(Values([1, 2])));
      assert Tame(Delta, arg, []) && !SumsAlike(u, Delta, arg, []);
  }

  lemma SumsOfOne(a: int)
    requires InI64(a)
    ensures Sums(0, [a]) == [a]
  {
    assert [a][1..] == [];
  }

  lemma SumsOfTwo(a: int, b: int)
    requires InI64(a) && InI64(a + b)
    ensures Sums(0, [a, b]) == [a, a + b]
  {
    assert [a, b][1..] == [b] && [b][1..] == [];
  }

  lemma SumOfTwo(d: Data)
    requires IsValues(d) && |d.b.vals| == 2
    ensures SumTo(d, 2) == Some(d.b.vals[0] + d.b.vals[1])
  {
    assert SumTo(d, 1) == Some(d.b.vals[0]);
  }

  lemma NullableLacks(u: Unpacker, p: Property)
    ensures !Keeps(u, p, Nullable)
  {
    var arg, flags := TwoRows(), Numbers(Flags([true, false]));
    var r := Numbers(WithNulls([1, 2], [true, false]));
    assert Computed(u, Nullable, [arg] + [flags]) == r && Decodes(u, Nullable, arg, [flags]) && Tame(Nullable, arg, [flags]);
    match p
    case ElementwiseDecodable =>
      var idx := [1];
      assert Filtering.At([true, false], idx) == [false];
      assert !SelectsAlike(u, Nullable, arg, [flags], idx);
    case OrderPreserving =>
      assert ItemAt(r, 1) == Null && !ComparesAlike(u, Nullable, arg, [flags], 0, 1);
    case SummationPreserving =>
      SumOfTwo(arg);
      assert ItemAt(r, 0) == Number(1) && ItemAt(r, 1) == Null && SumTo(r, 1) == Some(1) && SumTo(r, 2) == Some(1);
      assert !SumsAlike(u, Nullable, arg, [flags]);
  }

  lemma AddLacks(u: Unpacker, x: int)
    requires x != 0 && InI64(x)
    ensures !Keeps(u, SummationPreserving, Add(x))
  {
    var arg := Numbers(Values([0]));
    var r := Computed(u, Add(x), [arg] + []);
    assert Decodes(u, Add(x), arg, []) && Tame(Add(x), arg, []);
    assert r == Numbers(Values([x])) by { assert AddOffset(x, [0]) == [x]; }
    assert SumTo(arg, 1) == Some(0) && SumTo(r, 1) == Some(x);
    assert !SumsAlike(u, Add(x), arg, []);
  }

  /** A dictionary with the empty string. */
  lemma EmptyString()
    ensures LookupOk([0], [0], []) && SortedDictionary([0], [])
  {
    var entries := [0];
    assert StringColumn.EntryOffset(entries[0]) == 0 && StringColumn.EntryLen(entries[0]) == 0;
    forall c | 0 <= c < |entries| ensures LookupOk([c], entries, []) { assert c == 0; }
  }

  lemma {:induction false} LookupLacks(u: Unpacker)
    ensures !Keeps(u, SummationPreserving, DictLookup)
  {
    var arg, entries, store := Numbers(Values([0])), Numbers(Values([0])), Numbers(Values([]));
    var extra := [entries, store];
    EmptyString();
    assert [arg] + extra == [arg, entries, store];
    var r := LookedUp(arg, entries, store);
    assert Computed(u, DictLookup, [arg, entries, store]) == r == Strings(Lookups([0], [0], []), None);
    assert Decodes(u, DictLookup, arg, extra) && Tame(DictLookup, arg, extra);
    OneRowSums(arg);
    StringsHaveNoSum(r);
    SumsLack(u, DictLookup, arg, extra);
  }

  lemma SumsLack(u: Unpacker, op: CodecOp, arg: Data, extra: seq<Data>)
    requires Decodes(u, op, arg, extra) && Tame(op, arg, extra) && !SumsAlike(u, op, arg, extra)
    ensures !Keeps(u, SummationPreserving, op)
  {
  }

  lemma StringsHaveNoSum(d: Data)
    requires d.Strings? && |d.texts| == 1 && d.bits.None?
    ensures SumTo(d, 1) == None
  {
    assert ItemAt(d, 0).String?;
  }

  lemma OneRowSums(d: Data)
    requires IsValues(d) && |d.b.vals| == 1
    ensures SumTo(d, 1) == Some(d.b.vals[0])
  {
    assert SumTo(d, 0) == Some(0);
  }

  lemma UnpackingLacks(p: Property, op: CodecOp)
    requires op.LZ4? || op.UnpackStrings? || op.UnhexpackStrings?
    ensures !Keeps(ZEROS, p, op)
  {
    var arg, r := TwoRows(), Numbers(Values([0, 0]));
    assert Computed(ZEROS, op, [arg] + []) == r && Decodes(ZEROS, op, arg, []) && Tame(op, arg, []);
    match p
    case ElementwiseDecodable => assert !SelectsAlike(ZEROS, op, arg, [], [0]);
    case OrderPreserving => assert !ComparesAlike(ZEROS, op, arg, [], 0, 1);
    case SummationPreserving =>
      SumOfTwo(arg);
      SumOfTwo(r);
      assert !SumsAlike(ZEROS, op, arg, []);
  }

  /** An operation has a property if and only if it keeps what the property is about, whatever unpacking
      yields. */
  lemma HasExactly(p: Property, op: CodecOp)
    requires Applicable(op)
    ensures Has(p, op) <==> forall u: Unpacker :: Keeps(u, p, op)
  {
    if Has(p, op) {
      forall u: Unpacker ensures Keeps(u, p, op) { HasKeeps(u, p, op); }
    } else {
      match op
      case Nullable => NullableLacks(ZEROS, p);
      case Add(x) => AddLacks(ZEROS, x);
      case Delta => DeltaLacks(ZEROS, p);
      case DictLookup => LookupLacks(ZEROS);
      case _ => UnpackingLacks(p, op);
    }
  }

  // ---------------------------------------------------------------- whole codecs

  ghost function SectionOf(sections: seq<Data>, i: nat): Data {
    if i < |sections| then sections[i] else BAD
  }

  /** The stack after one operation. */
  ghost function After(u: Unpacker, sections: seq<Data>, op: CodecOp, stack: seq<Data>): (r: seq<Data>)
    requires Arity(op) <= |stack|
    ensures |r| == |stack| - Arity(op) + 1
  {
    var n := |stack| - Arity(op);
    stack[..n] + [if op.PushDataSection? then SectionOf(sections, op.section) else Computed(u, op, stack[n..])]
  }

  /** The meaning of a decoding program on a stack of data. */
  ghost function Decoding(u: Unpacker, sections: seq<Data>, ops: seq<CodecOp>, stack: seq<Data>): (r: seq<Data>)
    requires Runs(ops, |stack|)
    ensures |r| == Depth(ops, |stack|)
  {
    if ops == [] then stack else Decoding(u, sections, ops[1..], After(u, sections, ops[0], stack))
  }

  /** An operation of the spine with its operands besides the column. */
  datatype Link = Link(op: CodecOp, extra: seq<Data>)

  ghost predicate LinksOk(links: seq<Link>) {
    forall i :: 0 <= i < |links| ==> |links[i].extra| + 1 == Arity(links[i].op)
  }

  /** The column after all operations of the spine. */
  ghost function Through(u: Unpacker, links: seq<Link>, d: Data): Data
    requires LinksOk(links)
  {
    if links == [] then d else Through(u, links[1..], Computed(u, links[0].op, [d] + links[0].extra))
  }

  /** From depth `d` on, every operation that leaves a single value has the property. */
  ghost predicate SpineHas(p: Property, ops: seq<CodecOp>, d: nat)
    requires Runs(ops, d)
  {
    ops == [] || ((d == Arity(ops[0]) ==> Has(p, ops[0])) && SpineHas(p, ops[1..], d - Arity(ops[0]) + 1))
  }

  lemma DepthOne(op: CodecOp, d: nat)
    requires d >= Arity(op)
    ensures Runs([op], d) && Depth([op], d) == d - Arity(op) + 1
  {
    assert [op][1..] == [];
  }

  lemma {:induction false} SpineHasAll(p: Property, ops: seq<CodecOp>, d: nat)
    requires Runs(ops, d)
    requires forall k: nat :: k < |ops| && Runs(ops[..k + 1], d) && Depth(ops[..k + 1], d) == 1 ==> Has(p, ops[k])
    ensures SpineHas(p, ops, d)
  {
    if ops != [] {
      var op, rest := ops[0], ops[1..];
      var e := d - Arity(op) + 1;
      DepthOne(op, d);
      assert ops[..0 + 1] == [op];
      forall k: nat | k < |rest| && Runs(rest[..k + 1], e) && Depth(rest[..k + 1], e) == 1 ensures Has(p, rest[k]) {
        assert ops[..k + 2][0] == op && ops[..k + 2][1..] == rest[..k + 1];
        assert Runs(ops[..k + 1 + 1], d) && Depth(ops[..k + 1 + 1], d) == 1;
      }
      SpineHasAll(p, rest, e);
    }
  }

  lemma {:induction false} AllHaveSpine(p: Property, ops: seq<CodecOp>)
    requires WellFormed(ops) && AllHave(p, ops, 0)
    ensures SpineHas(p, ops, 1)
  {
    forall k: nat | k < |ops| && Runs(ops[..k + 1], 1) && Depth(ops[..k + 1], 1) == 1 ensures Has(p, ops[k]) {
      assert DepthAt(ops, k + 1) == 1 && Spine(ops, k);
    }
    SpineHasAll(p, ops, 1);
  }

  /** All data on the way are in order. */
  ghost predicate ThroughOk(u: Unpacker, links: seq<Link>, d: Data)
    requires LinksOk(links)
  {
    Ok(d) && (links == [] || ThroughOk(u, links[1..], Computed(u, links[0].op, [d] + links[0].extra)))
  }

  ghost predicate ThroughTame(u: Unpacker, links: seq<Link>, d: Data)
    requires LinksOk(links) && ThroughOk(u, links, d)
  {
    links == [] || (Tame(links[0].op, d, links[0].extra) && ThroughTame(u, links[1..], Computed(u, links[0].op, [d] + links[0].extra)))
  }

  /** Every operation of the spine is tame: no sum wraps around, and dictionaries are sorted. */
  ghost predicate TameRun(u: Unpacker, sections: seq<Data>, ops: seq<CodecOp>, stack: seq<Data>)
    requires Runs(ops, |stack|)
  {
    ops == [] ||
    (&& (0 < |stack| == Arity(ops[0]) && Ok(stack[0]) ==> Tame(ops[0], stack[0], stack[1..]))
     && TameRun(u, sections, ops[1..], After(u, sections, ops[0], stack)))
  }

  /** An operation on top of the column leaves it alone. */
  lemma {:induction false} AfterInner(u: Unpacker, sections: seq<Data>, op: CodecOp, extra: seq<Data>, d: Data)
    requires Arity(op) <= |extra|
    ensures After(u, sections, op, [d] + extra) == [d] + After(u, sections, op, extra)
  {
    var stack, n := [d] + extra, |extra| - Arity(op);
    assert stack[n + 1..] == extra[n..] && stack[..n + 1] == [d] + extra[..n];
  }

  lemma {:induction false} AfterOuter(u: Unpacker, sections: seq<Data>, op: CodecOp, extra: seq<Data>, d: Data)
    requires Arity(op) == |extra| + 1
    ensures After(u, sections, op, [d] + extra) == [Computed(u, op, [d] + extra)] + [] && ([d] + extra)[1..] == extra
  {
    var stack := [d] + extra;
    assert stack[0..] == stack && stack[..0] == [];
  }

  /** The links take any column to what the program makes of it. */
  ghost predicate Linked(u: Unpacker, sections: seq<Data>, ops: seq<CodecOp>, extra: seq<Data>, links: seq<Link>)
    requires Runs(ops, 1 + |extra|)
  {
    LinksOk(links) && forall d :: LinkedAt(u, sections, ops, extra, links, d)
  }

  ghost predicate LinkedAt(u: Unpacker, sections: seq<Data>, ops: seq<CodecOp>, extra: seq<Data>, links: seq<Link>, d: Data)
    requires Runs(ops, 1 + |extra|) && LinksOk(links)
  {
    LinkedOn(u, sections, ops, [d] + extra, links)
  }

  ghost predicate LinkedOn(u: Unpacker, sections: seq<Data>, ops: seq<CodecOp>, stack: seq<Data>, links: seq<Link>)
    requires stack != [] && Runs(ops, |stack|) && LinksOk(links)
  {
    && Decoding(u, sections, ops, stack) == [Through(u, links, stack[0])]
    && (ThroughOk(u, links, stack[0]) && TameRun(u, sections, ops, stack) ==> ThroughTame(u, links, stack[0]))
  }

  lemma {:induction false} LinkedInner(u: Unpacker, sections: seq<Data>, ops: seq<CodecOp>, extra: seq<Data>, links: seq<Link>, d: Data)
    requires Runs(ops, 1 + |extra|) && ops != [] && Arity(ops[0]) <= |extra| && LinksOk(links)
    requires LinkedAt(u, sections, ops[1..], After(u, sections, ops[0], extra), links, d)
    ensures LinkedAt(u, sections, ops, extra, links, d)
  {
    AfterInner(u, sections, ops[0], extra, d);
  }

  lemma {:induction false} LinkedOuter(u: Unpacker, sections: seq<Data>, ops: seq<CodecOp>, extra: seq<Data>, links: seq<Link>, d: Data)
    requires Runs(ops, 1 + |extra|) && ops != [] && Arity(ops[0]) == |extra| + 1 && LinksOk(links)
    requires links != [] && links[0] == Link(ops[0], extra) && LinkedAt(u, sections, ops[1..], [], links[1..], Computed(u, ops[0], [d] + extra))
    ensures LinkedAt(u, sections, ops, extra, links, d)
  {
    AfterOuter(u, sections, ops[0], extra, d);
  }

  ghost predicate LinksHave(p: Property, links: seq<Link>) {
    forall i :: 0 <= i < |links| ==> Has(p, links[i].op)
  }

  /** A program takes the bottom of the stack, whatever it is, through the operations of the spine. */
  lemma {:induction false} SpineLinks(u: Unpacker, sections: seq<Data>, p: Property, ops: seq<CodecOp>, extra: seq<Data>) returns (links: seq<Link>)
    requires Runs(ops, 1 + |extra|) && Depth(ops, 1 + |extra|) == 1 && SpineHas(p, ops, 1 + |extra|)
    ensures Linked(u, sections, ops, extra, links) && LinksHave(p, links)
    decreases |ops|
  {
    if ops == [] {
      links := [];
    } else {
      var op, rest := ops[0], ops[1..];
      if Arity(op) <= |extra| {
        links := SpineLinks(u, sections, p, rest, After(u, sections, op, extra));
        forall d ensures LinkedAt(u, sections, ops, extra, links, d) { LinkedInner(u, sections, ops, extra, links, d); }
      } else {
        var tail := SpineLinks(u, sections, p, rest, []);
        links := [Link(op, extra)] + tail;
        assert links[1..] == tail;
        forall d ensures LinkedAt(u, sections, ops, extra, links, d) { LinkedOuter(u, sections, ops, extra, links, d); }
      }
    }
  }

  lemma {:induction false} ThroughSelects(u: Unpacker, links: seq<Link>, d: Data, idx: seq<nat>)
    requires LinksOk(links) && ThroughOk(u, links, d) && Within(Rows(d), idx)
    requires LinksHave(ElementwiseDecodable, links)
    ensures Ok(Through(u, links, d)) && Rows(Through(u, links, d)) == Rows(d)
    ensures Through(u, links, Select(d, idx)) == Select(Through(u, links, d), idx)
  {
    if links != [] {
      var op, extra := links[0].op, links[0].extra;
      HasKeeps(u, ElementwiseDecodable, op);
      assert Decodes(u, op, d, extra) && SelectsAlike(u, op, d, extra, idx);
      ThroughSelects(u, links[1..], Computed(u, op, [d] + extra), idx);
    }
  }

  lemma {:induction false} ThroughCompares(u: Unpacker, links: seq<Link>, d: Data, i: nat, j: nat)
    requires LinksOk(links) && ThroughOk(u, links, d) && ThroughTame(u, links, d) && i < Rows(d) && j < Rows(d)
    requires LinksHave(OrderPreserving, links)
    ensures var r := Through(u, links, d);
            Ok(r) && Rows(r) == Rows(d) && (ItemLess(ItemAt(d, i), ItemAt(d, j)) <==> ItemLess(ItemAt(r, i), ItemAt(r, j)))
  {
    if links != [] {
      var op, extra := links[0].op, links[0].extra;
      HasKeeps(u, OrderPreserving, op);
      assert Decodes(u, op, d, extra) && ComparesAlike(u, op, d, extra, i, j);
      ThroughCompares(u, links[1..], Computed(u, op, [d] + extra), i, j);
    }
  }

  lemma {:induction false} ThroughSums(u: Unpacker, links: seq<Link>, d: Data)
    requires LinksOk(links) && ThroughOk(u, links, d) && ThroughTame(u, links, d)
    requires LinksHave(SummationPreserving, links)
    ensures var r := Through(u, links, d); Ok(r) && SumTo(r, Rows(r)) == SumTo(d, Rows(d))
  {
    if links != [] {
      var op, extra := links[0].op, links[0].extra;
      HasKeeps(u, SummationPreserving, op);
      assert Decodes(u, op, d, extra) && SumsAlike(u, op, d, extra);
      ThroughSums(u, links[1..], Computed(u, op, [d] + extra));
    }
  }

  /** Operations that have a property do not repair data. */
  lemma OkBefore(u: Unpacker, p: Property, op: CodecOp, d: Data, extra: seq<Data>)
    requires Has(p, op) && |extra| + 1 == Arity(op) && Ok(Computed(u, op, [d] + extra))
    ensures Ok(d)
  {
  }

  lemma {:induction false} OkThrough(u: Unpacker, p: Property, links: seq<Link>, d: Data)
    requires LinksOk(links) && LinksHave(p, links) && Ok(Through(u, links, d))
    ensures ThroughOk(u, links, d)
  {
    if links != [] {
      var op, extra := links[0].op, links[0].extra;
      OkThrough(u, p, links[1..], Computed(u, op, [d] + extra));
      OkBefore(u, p, op, d, extra);
    }
  }

  /** What a codec makes of a column. */
  ghost function Decode(u: Unpacker, sections: seq<Data>, ops: seq<CodecOp>, d: Data): Data
    requires Runs(ops, 1) && Depth(ops, 1) == 1
  {
    Decoding(u, sections, ops, [d])[0]
  }

  lemma {:induction false} LinkedAlone(u: Unpacker, sections: seq<Data>, ops: seq<CodecOp>, links: seq<Link>, d: Data, stack: seq<Data>)
    requires Runs(ops, 1) && Linked(u, sections, ops, [], links) && stack == [d]
    ensures LinkedOn(u, sections, ops, stack, links)
  {
    AndNothing(stack);
    LinkedHere(u, sections, ops, [], links, d);
  }

  lemma {:induction false} LinkedHere(u: Unpacker, sections: seq<Data>, ops: seq<CodecOp>, extra: seq<Data>, links: seq<Link>, d: Data)
    requires Runs(ops, 1 + |extra|) && Linked(u, sections, ops, extra, links)
    ensures LinkedOn(u, sections, ops, [d] + extra, links)
  {
    assert LinkedAt(u, sections, ops, extra, links, d);
  }

  lemma {:induction false} DecodeThrough(u: Unpacker, sections: seq<Data>, ops: seq<CodecOp>, links: seq<Link>, d: Data)
    requires Runs(ops, 1) && Depth(ops, 1) == 1 && Linked(u, sections, ops, [], links)
    ensures Decode(u, sections, ops, d) == Through(u, links, d)
    ensures ThroughOk(u, links, d) && TameRun(u, sections, ops, [d]) ==> ThroughTame(u, links, d)
  {
    LinkedAlone(u, sections, ops, links, d, [d]);
  }

  /** The spine of a codec that has a property, for two columns. */
  lemma {:induction false} DecodeLinks(u: Unpacker, sections: seq<Data>, p: Property, ops: seq<CodecOp>, d: Data, e: Data) returns (links: seq<Link>)
    requires WellFormed(ops) && AllHave(p, ops, 0)
    ensures LinksOk(links) && LinksHave(p, links)
    ensures Decode(u, sections, ops, d) == Through(u, links, d) && Decode(u, sections, ops, e) == Through(u, links, e)
    ensures ThroughOk(u, links, d) && TameRun(u, sections, ops, [d]) ==> ThroughTame(u, links, d)
  {
    AllHaveSpine(p, ops);
    links := SpineLinks(u, sections, p, ops, []);
    DecodeThrough(u, sections, ops, links, d);
    DecodeThrough(u, sections, ops, links, e);
  }

  /** Such a codec decodes nothing but columns that are in order, and keeps the number of rows. */
  lemma {:induction false} DecodesRows(u: Unpacker, sections: seq<Data>, ops: seq<CodecOp>, d: Data)
    requires WellFormed(ops) && AllHave(ElementwiseDecodable, ops, 0) && Ok(Decode(u, sections, ops, d))
    ensures Ok(d) && Rows(d) == Rows(Decode(u, sections, ops, d))
  {
    var links := DecodeLinks(u, sections, ElementwiseDecodable, ops, d, d);
    OkThrough(u, ElementwiseDecodable, links, d);
    ThroughSelects(u, links, d, []);
  }

  /** Rows of a column may be selected before it is decoded if the codec can be decoded element by element. */
  lemma {:induction false} SelectThenDecode(u: Unpacker, sections: seq<Data>, ops: seq<CodecOp>, d: Data, idx: seq<nat>)
    requires WellFormed(ops) && AllHave(ElementwiseDecodable, ops, 0) && Ok(Decode(u, sections, ops, d)) && Ok(d) && Within(Rows(d), idx)
    ensures Rows(Decode(u, sections, ops, d)) == Rows(d)
    ensures Decode(u, sections, ops, Select(d, idx)) == Select(Decode(u, sections, ops, d), idx)
  {
    var links := DecodeLinks(u, sections, ElementwiseDecodable, ops, d, Select(d, idx));
    OkThrough(u, ElementwiseDecodable, links, d);
    ThroughSelects(u, links, d, idx);
  }

  /** Rows of a column may be compared before it is decoded if the codec preserves order. */
  lemma {:induction false} CompareThenDecode(u: Unpacker, sections: seq<Data>, ops: seq<CodecOp>, d: Data, i: nat, j: nat)
    requires WellFormed(ops) && AllHave(OrderPreserving, ops, 0) && Ok(Decode(u, sections, ops, d)) && TameRun(u, sections, ops, [d])
    requires Ok(d) && i < Rows(d) && j < Rows(d)
    ensures var r := Decode(u, sections, ops, d);
            Rows(r) == Rows(d) && (ItemLess(ItemAt(d, i), ItemAt(d, j)) <==> ItemLess(ItemAt(r, i), ItemAt(r, j)))
  {
    var links := DecodeLinks(u, sections, OrderPreserving, ops, d, d);
    OkThrough(u, OrderPreserving, links, d);
    ThroughCompares(u, links, d, i, j);
  }

  /** A column may be summed up before it is decoded if the codec preserves sums. */
  lemma {:induction false} SumThenDecode(u: Unpacker, sections: seq<Data>, ops: seq<CodecOp>, d: Data)
    requires WellFormed(ops) && AllHave(SummationPreserving, ops, 0) && Ok(Decode(u, sections, ops, d)) && TameRun(u, sections, ops, [d]) && Ok(d)
    ensures var r := Decode(u, sections, ops, d); SumTo(r, Rows(r)) == SumTo(d, Rows(d))
  {
    var links := DecodeLinks(u, sections, SummationPreserving, ops, d, d);
    OkThrough(u, SummationPreserving, links, d);
    ThroughSums(u, links, d);
  }

  lemma {:induction false} DecodingAppend(u: Unpacker, sections: seq<Data>, x: seq<CodecOp>, y: seq<CodecOp>, stack: seq<Data>)
    requires Runs(x, |stack|) && Runs(y, Depth(x, |stack|)) && Runs(x + y, |stack|)
    ensures Decoding(u, sections, x + y, stack) == Decoding(u, sections, y, Decoding(u, sections, x, stack))
  {
    if x == [] {
      assert x + y == y;
    } else {
      ConsAppend(x, y);
      DecodingAppend(u, sections, x[1..], y, After(u, sections, x[0], stack));
    }
  }

  /** What reading a column under a filter is for: the first part of the codec is decoded, rows are
      selected, and decoding the rest of them gives the selected rows of the column. */
  ghost predicate ReadsRows(ops: seq<CodecOp>, first: seq<CodecOp>, rest: seq<CodecOp>, u: Unpacker, sections: seq<Data>, d: Data, idx: seq<nat>)
    requires WellFormed(ops) && Runs(first, 1) && Depth(first, 1) == 1 && Runs(rest, 1) && Depth(rest, 1) == 1
  {
    var middle, all := Decode(u, sections, first, d), Decode(u, sections, ops, d);
    Ok(all) && Within(Rows(all), idx) ==>
      Ok(middle) && Rows(middle) == Rows(all) && Decode(u, sections, rest, Select(middle, idx)) == Select(all, idx)
  }

  lemma {:induction false} SplitParts(ops: seq<CodecOp>, n: nat)
    requires WellFormed(ops) && n <= |ops| && DepthAt(ops, n) == 1 && AllHave(ElementwiseDecodable, ops, n)
    ensures Runs(ops[..n], 1) && Depth(ops[..n], 1) == 1 && WellFormed(ops[n..]) && AllHave(ElementwiseDecodable, ops[n..], 0)
  {
    var rest := ops[n..];
    SplitDecodes(ops, n, Input);
    SplitRest(ops, n);
    forall k: nat | Spine(rest, k) ensures Has(ElementwiseDecodable, rest[k]) { assert Spine(ops, n + k); }
  }

  lemma {:induction false} DecodeParts(ops: seq<CodecOp>, first: seq<CodecOp>, rest: seq<CodecOp>, u: Unpacker, sections: seq<Data>, d: Data)
    requires WellFormed(ops) && ops == first + rest && Runs(first, 1) && Depth(first, 1) == 1 && Runs(rest, 1) && Depth(rest, 1) == 1
    ensures Decode(u, sections, ops, d) == Decode(u, sections, rest, Decode(u, sections, first, d))
  {
    DecodingAppend(u, sections, first, rest, [d]);
    assert Decoding(u, sections, first, [d]) == [Decode(u, sections, first, d)];
  }

  lemma {:induction false} SplitReads(ops: seq<CodecOp>, n: nat, u: Unpacker, sections: seq<Data>, d: Data, idx: seq<nat>)
    requires WellFormed(ops) && n <= |ops| && DepthAt(ops, n) == 1 && AllHave(ElementwiseDecodable, ops, n)
    ensures Runs(ops[..n], 1) && Depth(ops[..n], 1) == 1 && WellFormed(ops[n..]) && ReadsRows(ops, ops[..n], ops[n..], u, sections, d, idx)
  {
    SplitParts(ops, n);
    Rejoin(ops, n);
    DecodeParts(ops, ops[..n], ops[n..], u, sections, d);
    var middle := Decode(u, sections, ops[..n], d);
    var all := Decode(u, sections, ops, d);
    if Ok(all) && Within(Rows(all), idx) {
      DecodesRows(u, sections, ops[n..], middle);
      SelectThenDecode(u, sections, ops[n..], middle, idx);
    }
  }

  /** How an expression reads a column: a codec that cannot be decoded element by element is split, and
      the first part is decoded before rows are selected. */
  method ReadColumn(ops: seq<CodecOp>) returns (first: seq<CodecOp>, rest: seq<CodecOp>)
    requires WellFormed(ops)
    ensures Runs(first, 1) && Depth(first, 1) == 1 && WellFormed(rest) && AllHave(ElementwiseDecodable, rest, 0)
    ensures forall u, sections, d, idx :: ReadsRows(ops, first, rest, u, sections, d, idx)
  {
    var fixed := HasProperty(ops, ElementwiseDecodable);
    if fixed {
      first, rest := [], ops;
      assert ops[..0] == [] && ops[0..] == ops;
    } else {
      first, rest := EnsureProperty(ops, ElementwiseDecodable);
      SplitRestores(ops, ElementwiseDecodable, |first|, Input);
    }
    forall u, sections, d, idx ensures ReadsRows(ops, first, rest, u, sections, d, idx) { SplitReads(ops, |first|, u, sections, d, idx); }
  }

  // ---------------------------------------------------------------- integer columns

  predicate ForIntegers(op: CodecOp) {
    op.Nullable? || op.Add? || op.Delta? || op.ToI64? || op == PushDataSection(1)
  }

  ghost function SectionsOf(c: Column): seq<Data> {
    [BAD, if c.present.Some? then Numbers(Flags(c.present.value)) else BAD]
  }

  ghost function AsData(stack: seq<Buffer>): (r: seq<Data>)
    ensures |r| == |stack| && forall i :: 0 <= i < |r| ==> r[i] == Numbers(stack[i])
  {
    seq(|stack|, i requires 0 <= i < |stack| => Numbers(stack[i]))
  }

  lemma {:induction false} IntegerDecoding(u: Unpacker, c: Column, ops: seq<CodecOp>, stack: seq<Buffer>)
    requires Runs(ops, |stack|) && forall k :: 0 <= k < |ops| ==> ForIntegers(ops[k])
    ensures Decoding(u, SectionsOf(c), ops, AsData(stack)) == AsData(Decoded(ops, c, stack))
    decreases |ops|
  {
    if ops != [] {
      IntegerAfter(u, c, ops[0], stack);
      IntegerDecoding(u, c, ops[1..], stack[..|stack| - Arity(ops[0])] + [IntegerColumn.Result(ops[0], c, stack)]);
    }
  }

  lemma {:induction false} IntegerAfter(u: Unpacker, c: Column, op: CodecOp, stack: seq<Buffer>)
    requires ForIntegers(op) && Arity(op) <= |stack|
    ensures After(u, SectionsOf(c), op, AsData(stack)) == AsData(stack[..|stack| - Arity(op)] + [IntegerColumn.Result(op, c, stack)])
  {
    var n := |stack| - Arity(op);
    assert AsData(stack)[n..] == AsData(stack[n..]);
    if op.Nullable? { assert [stack[n..][0], stack[n..][1]] == stack[n..]; }
    if op.Add? || op.Delta? || op.ToI64? { assert [stack[n..][0]] == stack[n..]; }
  }

  lemma {:induction false} CodecForIntegers(w: Width, offset: int, delta: bool, nullable: bool)
    ensures forall k :: 0 <= k < |CodecOf(w, offset, delta, nullable)| ==> ForIntegers(CodecOf(w, offset, delta, nullable)[k])
  {
  }

  /** What an integer column is decoded to. */
  ghost function WithFlags(values: seq<int>, present: Option<seq<bool>>): Data {
    Numbers(if present.Some? then WithNulls(values, present.value) else Values(values))
  }

  ghost predicate Stores(c: Column, values: seq<int>, w: Width, offset: int, delta: bool) {
    && AllI64(values) && c.ops == CodecOf(w, offset, delta, c.present.Some?) && (w == I64 ==> offset == 0)
    && Encodes(c.data, if delta then Deltas(0, values) else values, offset) && AllI64(c.data)
    && (c.present.Some? ==> |c.present.value| == |values|)
  }

  lemma {:induction false} IntegersDecode(u: Unpacker, values: seq<int>, c: Column, w: Width, offset: int, delta: bool)
    requires Stores(c, values, w, offset, delta)
    ensures WellFormed(c.ops) && Decode(u, SectionsOf(c), c.ops, Numbers(Values(c.data))) == WithFlags(values, c.present)
  {
    CodecWellFormed(w, offset, delta, c.present.Some?);
    CodecForIntegers(w, offset, delta, c.present.Some?);
    ColumnDecodes(values, c, w, offset, delta);
    var stack := [Values(c.data)];
    IntegerDecoding(u, c, c.ops, stack);
    assert AsData(stack) == [Numbers(Values(c.data))];
  }

  /** Wherever the codec of a stored integer column is split so that the rest can be decoded element by
      element, selected rows decode to the values of these rows. */
  lemma {:induction false} IntegerRows(u: Unpacker, values: seq<int>, c: Column, w: Width, offset: int, delta: bool, n: nat, idx: seq<nat>)
    requires Stores(c, values, w, offset, delta) && Within(|values|, idx)
    requires WellFormed(c.ops) && n <= |c.ops| && DepthAt(c.ops, n) == 1 && AllHave(ElementwiseDecodable, c.ops, n)
    ensures Runs(c.ops[..n], 1) && Depth(c.ops[..n], 1) == 1 && WellFormed(c.ops[n..])
    ensures var middle := Decode(u, SectionsOf(c), c.ops[..n], Numbers(Values(c.data)));
            && Ok(middle) && Rows(middle) == |values|
            && Decode(u, SectionsOf(c), c.ops[n..], Select(middle, idx)) == Select(WithFlags(values, c.present), idx)
  {
    IntegersDecode(u, values, c, w, offset, delta);
    SplitReads(c.ops, n, u, SectionsOf(c), Numbers(Values(c.data)), idx);
  }
}
