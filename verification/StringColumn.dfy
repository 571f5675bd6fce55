/** String columns: a sorted dictionary with indices into it, or packed strings if there are too
    many different ones.  Codes keep the order of the strings, so that comparisons can be done on
    codes. */
module StringColumn {
  import opened Types
  import opened Order
  import opened PackedStrings
  import opened Seqs

  // ---------------------------------------------------------------- indexed strings

  const LEN_LIMIT: nat := 0x100_0000            // 2^24
  const OFFSET_LIMIT: nat := 0x100_0000_0000    // 2^40
  const U64_LIMIT: nat := 0x1_0000_0000_0000_0000

  /** The entry for a string of length `len` at `offset`, as a 64-bit integer. */
  function Entry(offset: nat, len: nat): nat {
    (offset * LEN_LIMIT + len) % U64_LIMIT
  }

  function EntryOffset(e: nat): nat { e / LEN_LIMIT }
  function EntryLen(e: nat): nat { e % LEN_LIMIT }

  /** An entry can be decoded if and only if the length fits 24 bits and the offset 40 bits. */
  lemma EntryDecodes(offset: nat, len: nat)
    ensures EntryOffset(Entry(offset, len)) == offset && EntryLen(Entry(offset, len)) == len <==> len < LEN_LIMIT && offset < OFFSET_LIMIT
  {
    assert LEN_LIMIT * OFFSET_LIMIT == U64_LIMIT;
    if offset < OFFSET_LIMIT && len < LEN_LIMIT {
      assert offset * LEN_LIMIT + len < U64_LIMIT;
    }
  }

  /** A list of strings behind each other, with an entry for each. */
  datatype Indexed = Indexed(data: seq<nat>, store: seq<int>)

  /** The string with the entry `e`. */
  function At(x: Indexed, e: nat): Text
    requires EntryOffset(e) + EntryLen(e) <= |x.store|
  {
    x.store[EntryOffset(e)..EntryOffset(e) + EntryLen(e)]
  }

  /** `x` holds the strings `ss`. */
  ghost predicate Holds(x: Indexed, ss: seq<Text>) {
    && |x.data| == |ss|
    && forall i :: 0 <= i < |ss| ==>
         EntryOffset(x.data[i]) + EntryLen(x.data[i]) <= |x.store| && At(x, x.data[i]) == ss[i]
  }

  /** `IndexedPackedStrings::push`. */
  method PushIndexed(x: Indexed, s: Text, ghost ss: seq<Text>) returns (r: Indexed)
    requires Holds(x, ss) && |s| < LEN_LIMIT && |x.store| < OFFSET_LIMIT
    ensures Holds(r, ss + [s]) && |r.store| == |x.store| + |s|
  {
    EntryDecodes(|x.store|, |s|);
    r := Indexed(x.data + [Entry(|x.store|, |s|)], x.store + s);
    forall i | 0 <= i < |ss| ensures At(r, r.data[i]) == ss[i] {
      var o, l := EntryOffset(x.data[i]), EntryLen(x.data[i]);
      assert r.store[o..o + l] == x.store[o..o + l];
    }
    assert r.store[|x.store|..|x.store| + |s|] == s;
  }

  // ---------------------------------------------------------------- the order of strings

  /** Strings are compared byte by byte. */
  ghost predicate TextLess(a: Text, b: Text) {
    Less([], a, b)
  }

  function Compare(a: Text, b: Text): (r: int)
    ensures r < 0 <==> TextLess(a, b)
    ensures r == 0 <==> a == b
  {
    CompareStep(a, b);
    if a == [] then (if b == [] then 0 else -1)
    else if b == [] then 1
    else if a[0] < b[0] then -1
    else if a[0] > b[0] then 1
    else Compare(a[1..], b[1..])
  }

  lemma CompareStep(a: Text, b: Text)
    ensures TextLess(a, b) <==> b != [] && (a == [] || a[0] < b[0] || (a[0] == b[0] && TextLess(a[1..], b[1..])))
    ensures a == b <==> (if a == [] || b == [] then a == [] && b == [] else a[0] == b[0] && a[1..] == b[1..])
  {
    if TextLess(a, b) {
      var p: nat :| DecidedAt([], a, b, p);
      if p > 0 { assert DecidedAt([], a[1..], b[1..], p - 1); }
    }
    if a != [] && b != [] && a[0] == b[0] && TextLess(a[1..], b[1..]) {
      var p: nat :| DecidedAt([], a[1..], b[1..], p);
      assert DecidedAt([], a, b, p + 1);
    }
    if b != [] && (a == [] || a[0] < b[0]) { assert DecidedAt([], a, b, 0); }
    if a != [] && b != [] { assert a == [a[0]] + a[1..] && b == [b[0]] + b[1..]; }
  }

  lemma TextIrreflexive(a: Text)
    ensures !TextLess(a, a)
  {
    LessIrreflexive([], a);
  }

  lemma TextAsymmetric(a: Text, b: Text)
    requires TextLess(a, b)
    ensures !TextLess(b, a)
  {
    if TextLess(b, a) {
      LessTransitive([], a, b, a);
      LessIrreflexive([], a);
    }
  }

  ghost predicate StrictlySorted(ss: seq<Text>) {
    forall i, j :: 0 <= i < j < |ss| ==> TextLess(ss[i], ss[j])
  }

  /** The total length of strings. */
  ghost function Bytes(ss: seq<Text>): nat {
    if ss == [] then 0 else |ss[0]| + Bytes(ss[1..])
  }

  lemma {:induction false} BytesAppend(x: seq<Text>, y: seq<Text>)
    ensures Bytes(x + y) == Bytes(x) + Bytes(y)
  {
    if x == [] {
      assert x + y == y;
    } else {
      ConsAppend(x, y);
      BytesAppend(x[1..], y);
    }
  }

  lemma BytesSnoc(x: seq<Text>, s: Text)
    ensures Bytes(x + [s]) == Bytes(x) + |s|
  {
    BytesAppend(x, [s]);
    assert [s][1..] == [];
  }

  lemma BytesInsert(r: seq<Text>, i: nat, s: Text)
    requires i <= |r|
    ensures Bytes(r[..i] + [s] + r[i..]) == Bytes(r) + |s|
  {
    BytesSnoc(r[..i], s);
    BytesAppend(r[..i] + [s], r[i..]);
    BytesAppend(r[..i], r[i..]);
    Rejoin(r, i);
  }

  /** Sorts distinct strings. */
  method SortTexts(ss: seq<Text>) returns (r: seq<Text>)
    requires forall i, j :: 0 <= i < j < |ss| ==> ss[i] != ss[j]
    ensures StrictlySorted(r) && |r| == |ss| && Bytes(r) == Bytes(ss) && forall s :: s in r <==> s in ss
  {
    r := [];
    for k := 0 to |ss|
      invariant StrictlySorted(r) && |r| == k && Bytes(r) == Bytes(ss[..k]) && forall s :: s in r <==> s in ss[..k]
    {
      var s, i := ss[k], 0;
      while i < |r| && Compare(r[i], s) < 0
        invariant i <= |r| && forall j :: 0 <= j < i ==> TextLess(r[j], s)
      {
        i := i + 1;
      }
      assert i < |r| ==> r[i] in ss[..k];
      InsertText(r, i, s);
      assert ss[..k + 1] == ss[..k] + [s];
      BytesSnoc(ss[..k], s);
      BytesInsert(r, i, s);
      r := r[..i] + [s] + r[i..];
    }
    assert ss[..|ss|] == ss;
  }

  lemma InsertText(r: seq<Text>, i: nat, s: Text)
    requires StrictlySorted(r) && i <= |r| && (forall j :: 0 <= j < i ==> TextLess(r[j], s))
    requires i < |r| ==> !TextLess(r[i], s) && r[i] != s
    ensures StrictlySorted(r[..i] + [s] + r[i..])
    ensures forall x :: x in r[..i] + [s] + r[i..] <==> x in r || x == s
  {
    var t := r[..i] + [s] + r[i..];
    assert r == r[..i] + r[i..];
    forall j | i <= j < |r| ensures TextLess(s, r[j]) {
      LessTotal([], s, r[i]);
      if j > i { LessTransitive([], s, r[i], r[j]); }
    }
    SortedBetween(r, i, s, t);
  }

  lemma SortedBetween(r: seq<Text>, i: nat, s: Text, t: seq<Text>)
    requires StrictlySorted(r) && i <= |r| && |t| == |r| + 1
    requires t[..i] == r[..i] && t[i] == s && t[i + 1..] == r[i..]
    requires (forall j :: 0 <= j < i ==> TextLess(r[j], s)) && forall j :: i <= j < |r| ==> TextLess(s, r[j])
    ensures StrictlySorted(t)
  {
    forall j, k | 0 <= j < k < |t| ensures TextLess(t[j], t[k]) {
      if j < i {
        assert t[j] == t[..i][j] == r[j];
      } else if j > i {
        assert t[j] == t[i + 1..][j - i - 1] == r[j - 1];
      }
      if k < i {
        assert t[k] == t[..i][k] == r[k];
      } else if k > i {
        assert t[k] == t[i + 1..][k - i - 1] == r[k - 1];
      }
    }
  }

  // ---------------------------------------------------------------- dictionary codes

  /** In a strictly sorted dictionary codes are ordered like strings. */
  lemma CodesOrdered(dict: seq<Text>, i: nat, j: nat)
    requires StrictlySorted(dict) && i < |dict| && j < |dict|
    ensures i < j <==> TextLess(dict[i], dict[j])
    ensures i == j <==> dict[i] == dict[j]
  {
    LessIrreflexive([], dict[i]);
    if j < i && TextLess(dict[i], dict[j]) {
      LessTransitive([], dict[i], dict[j], dict[i]);
    }
  }

  /** `InverseDictLookup`: the code of a constant, or -1 if it is not in the dictionary. */
  method InverseDictLookup(x: Indexed, constant: Text, ghost dict: seq<Text>) returns (r: int)
    requires Holds(x, dict)
    ensures if constant in dict then 0 <= r < |dict| && dict[r] == constant else r == -1
  {
    r := -1;
    for i := 0 to |x.data|
      invariant r == -1 && constant !in dict[..i]
    {
      if At(x, x.data[i]) == constant {
        return i;
      }
    }
    assert dict[..|dict|] == dict;
  }

  /** Equality with a constant can be decided on codes, whether or not it is in the dictionary. */
  lemma EncodedEquals(dict: seq<Text>, code: nat, constant: Text, c: int)
    requires StrictlySorted(dict) && code < |dict|
    requires if constant in dict then 0 <= c < |dict| && dict[c] == constant else c == -1
    ensures code == c <==> dict[code] == constant
  {
    if c >= 0 { CodesOrdered(dict, code, c); }
  }

  /** Order comparisons with a constant can be decided on codes for every row if and only if the
      constant is in the dictionary or no string comes before it. */
  lemma EncodedLess(dict: seq<Text>, constant: Text, c: int)
    requires StrictlySorted(dict)
    requires if constant in dict then 0 <= c < |dict| && dict[c] == constant else c == -1
    ensures var fine := constant in dict || forall i :: 0 <= i < |dict| ==> !TextLess(dict[i], constant);
            && ((forall i :: 0 <= i < |dict| ==> (i < c <==> TextLess(dict[i], constant))) <==> fine)
            && ((forall i :: 0 <= i < |dict| ==> (i <= c <==> TextLess(dict[i], constant) || dict[i] == constant)) <==> fine)
            && ((forall i :: 0 <= i < |dict| ==> (c < i <==> TextLess(constant, dict[i]))) <==> fine)
  {
    if constant in dict {
      forall i: nat | i < |dict| ensures (i < c <==> TextLess(dict[i], constant)) && (c < i <==> TextLess(constant, dict[i])) && (i == c <==> dict[i] == constant) {
        CodesOrdered(dict, i, c);
        CodesOrdered(dict, c, i);
      }
    } else {
      forall i: nat | i < |dict| ensures TextLess(constant, dict[i]) <==> !TextLess(dict[i], constant) {
        LessTotal([], constant, dict[i]);
        if TextLess(constant, dict[i]) && TextLess(dict[i], constant) {
          LessTransitive([], constant, dict[i], constant);
          LessIrreflexive([], constant);
        }
      }
    }
  }

  // ---------------------------------------------------------------- columns

  datatype Column =
    | Dictionary(codeLimit: nat, codes: seq<nat>, dict: Indexed)
    | PackedText(data: seq<int>)
    | PackedHex(upper: bool, data: seq<int>)

  const DICTIONARY_RATIO: nat := 2

  /** The codes of a dictionary column stand for the strings, are ordered like them and fit their
      type. */
  ghost predicate Encodes(c: Column, dict: seq<Text>, strings: seq<Text>) {
    && c.Dictionary? && Holds(c.dict, dict) && StrictlySorted(dict) && |c.codes| == |strings|
    && forall i :: 0 <= i < |strings| ==> c.codes[i] < |dict| && c.codes[i] < c.codeLimit && dict[c.codes[i]] == strings[i]
  }

  /** What the stored column says about the strings; `unhex` decodes hexadecimal strings. */
  ghost predicate Stores(unhex: Text -> Text, c: Column, strings: seq<Text>) {
    match c
    case Dictionary(_, _, _) => exists dict :: Encodes(c, dict, strings)
    case PackedText(data) => data == PackAll(strings)
    case PackedHex(_, data) => data == PackAll(Mapped(unhex, strings))
  }

  function Mapped(f: Text -> Text, strings: seq<Text>): (r: seq<Text>)
    ensures |r| == |strings| && forall i :: 0 <= i < |strings| ==> r[i] == f(strings[i])
  {
    seq(|strings|, i requires 0 <= i < |strings| => f(strings[i]))
  }

  /** The position of a string in the dictionary, which the source keeps in a hash map. */
  method Code(dict: seq<Text>, s: Text) returns (i: nat)
    requires s in dict
    ensures i < |dict| && dict[i] == s
  {
    i := 0;
    assert dict[..|dict|] == dict;
    while dict[i] != s
      invariant i < |dict| && s !in dict[..i]
      decreases |dict| - i
    {
      assert dict[..i + 1] == dict[..i] + [dict[i]];
      i := i + 1;
    }
  }

  /** Packs the sorted strings of the dictionary. */
  method PackDictionary(mapping: seq<Text>) returns (packed: Indexed)
    requires (forall s :: s in mapping ==> |s| < LEN_LIMIT) && Bytes(mapping) < OFFSET_LIMIT
    ensures Holds(packed, mapping)
  {
    packed := Indexed([], []);
    for i := 0 to |mapping|
      invariant Holds(packed, mapping[..i]) && |packed.store| == Bytes(mapping[..i])
    {
      assert mapping[i] in mapping;
      assert mapping[..i + 1] == mapping[..i] + [mapping[i]];
      BytesSnoc(mapping[..i], mapping[i]);
      BytesAppend(mapping[..i], mapping[i..]);
      Rejoin(mapping, i);
      packed := PushIndexed(packed, mapping[i], mapping[..i]);
    }
    assert mapping[..|mapping|] == mapping;
  }

  /** The codes of the strings. */
  method CodesOf(mapping: seq<Text>, strings: seq<Text>) returns (codes: seq<nat>)
    requires forall s :: s in strings ==> s in mapping
    ensures |codes| == |strings| && forall k :: 0 <= k < |codes| ==> codes[k] < |mapping| && mapping[codes[k]] == strings[k]
  {
    codes := [];
    for i := 0 to |strings|
      invariant |codes| == i && forall k :: 0 <= k < i ==> codes[k] < |mapping| && mapping[codes[k]] == strings[k]
    {
      assert strings[i] in strings;
      var code := Code(mapping, strings[i]);
      codes := codes + [code];
    }
  }

  method BuildDictionary(strings: seq<Text>, unique: seq<Text>) returns (c: Column)
    requires forall i, j :: 0 <= i < j < |unique| ==> unique[i] != unique[j]
    requires forall s :: s in strings ==> s in unique
    requires (forall s :: s in unique ==> |s| < LEN_LIMIT) && Bytes(unique) < OFFSET_LIMIT && |unique| <= 0x1_0000_0000
    ensures exists dict :: Encodes(c, dict, strings)
  {
    var mapping := SortTexts(unique);
    var packed := PackDictionary(mapping);
    var codes := CodesOf(mapping, strings);
    var limit := if |mapping| <= 0xff then 0x100 else if |mapping| <= 0xffff then 0x1_0000 else 0x1_0000_0000;
    c := Dictionary(limit, codes, packed);
    assert Encodes(c, mapping, strings);
  }

  ghost function Elements(strings: seq<Text>): set<Text> {
    set s | s in strings
  }

  /** There are less different strings than half of all, or hardly any at all. */
  ghost predicate Few(strings: seq<Text>) {
    |strings| < DICTIONARY_RATIO || |Elements(strings)| < |strings| / DICTIONARY_RATIO
  }

  ghost predicate AllDiffer(unique: seq<Text>) {
    forall a, b :: 0 <= a < b < |unique| ==> unique[a] != unique[b]
  }

  lemma ElementsSnoc(strings: seq<Text>, s: Text)
    ensures Elements(strings + [s]) == Elements(strings) + {s}
  {
  }

  lemma DifferSnoc(unique: seq<Text>, s: Text)
    requires AllDiffer(unique) && s !in Elements(unique)
    ensures AllDiffer(unique + [s])
  {
    var more := unique + [s];
    forall a, b | 0 <= a < b < |more| ensures more[a] != more[b] {
      assert more[a] in unique;
    }
  }

  /** The different strings. */
  ghost predicate UniqueOf(unique: seq<Text>, strings: seq<Text>) {
    && AllDiffer(unique) && Elements(unique) == Elements(strings)
    && Bytes(unique) <= Bytes(strings) && |unique| <= |strings| && |unique| == |Elements(strings)|
  }

  /** The different strings, in order of appearance. */
  ghost function Uniques(strings: seq<Text>): seq<Text> {
    if strings == [] then []
    else
      var before, last := Uniques(strings[..|strings| - 1]), strings[|strings| - 1];
      if last in before then before else before + [last]
  }

  lemma {:induction false} UniquesAre(strings: seq<Text>)
    ensures UniqueOf(Uniques(strings), strings)
    decreases |strings|
  {
    if strings == [] {
      assert Elements(strings) == {};
    } else {
      var n := |strings| - 1;
      var front, s := strings[..n], strings[n];
      UniquesAre(front);
      assert strings == front + [s];
      UniqueNext(Uniques(front), front, s);
    }
  }

  lemma UniqueNext(unique: seq<Text>, strings: seq<Text>, s: Text)
    requires UniqueOf(unique, strings)
    ensures UniqueOf(if s in unique then unique else unique + [s], strings + [s])
  {
    ElementsSnoc(strings, s);
    ElementsSnoc(unique, s);
    BytesSnoc(strings, s);
    BytesSnoc(unique, s);
    assert s in unique <==> s in Elements(unique);
    if s in unique {
      assert Elements(strings) + {s} == Elements(strings);
    } else {
      DifferSnoc(unique, s);
    }
  }

  lemma SameStrings(unique: seq<Text>, strings: seq<Text>)
    requires UniqueOf(unique, strings)
    ensures forall s :: s in unique <==> s in strings
  {
    forall s ensures s in unique <==> s in strings {
      assert s in Elements(unique) <==> s in Elements(strings);
    }
  }

  lemma ManyDifferent(strings: seq<Text>, n: nat)
    requires n <= |strings|
    ensures |Elements(strings[..n])| <= |Elements(strings)|
  {
    assert Elements(strings[..n]) <= Elements(strings);
    SubsetSize(Elements(strings[..n]), Elements(strings));
  }

  lemma SubsetSize<T>(a: set<T>, b: set<T>)
    requires a <= b
    ensures |a| <= |b|
  {
    assert b == a + (b - a);
  }

  /** The loop that collects the different strings, until there are many of them. */
  method CollectUnique(strings: seq<Text>) returns (unique: seq<Text>, many: bool)
    ensures many <==> !Few(strings)
    ensures !many ==> UniqueOf(unique, strings)
  {
    var half := |strings| / DICTIONARY_RATIO;
    unique, many := [], false;
    for i := 0 to |strings|
      invariant unique == Uniques(strings[..i]) && (half == 0 || |unique| < half)
    {
      PrefixSnoc(strings, i);
      if strings[i] !in unique {
        unique := unique + [strings[i]];
      }
      if |unique| == half {
        ManyAt(strings, i + 1);
        return unique, true;
      }
    }
    Whole(strings);
    FewAtEnd(strings, half);
  }

  lemma ManyAt(strings: seq<Text>, n: nat)
    requires 0 < n <= |strings| && |Uniques(strings[..n])| == |strings| / DICTIONARY_RATIO
    ensures !Few(strings)
  {
    UniquesAre(strings[..n]);
    assert strings[..n][0] in Elements(strings[..n]);
    SameStrings(Uniques(strings[..n]), strings[..n]);
    ManyDifferent(strings, n);
  }

  lemma FewAtEnd(strings: seq<Text>, half: nat)
    requires half == |strings| / DICTIONARY_RATIO && (half == 0 || |Uniques(strings)| < half)
    ensures Few(strings) && UniqueOf(Uniques(strings), strings)
  {
    UniquesAre(strings);
  }

  /** `fast_build_string_column`.  A column with many different strings is packed, as hexadecimal
      numbers if all are; all others get a dictionary. */
  method BuildColumn(strings: seq<Text>, lhex: bool, uhex: bool, totalBytes: nat, unhex: Text -> Text) returns (c: Column)
    requires (forall s :: s in strings ==> |s| < LEN_LIMIT) && Bytes(strings) < OFFSET_LIMIT && |strings| <= 0x1_0000_0000
    ensures Stores(unhex, c, strings)
    ensures c.PackedHex? ==> c.upper == uhex
    ensures c.Dictionary? <==> Few(strings)
    ensures c.PackedHex? <==> !Few(strings) && (lhex || uhex) && totalBytes / |strings| > 5
  {
    var unique, many := CollectUnique(strings);
    if !many {
      SameStrings(unique, strings);
      c := BuildDictionary(strings, unique);
    } else if (lhex || uhex) && totalBytes / |strings| > 5 {
      var data := FromIterator(Mapped(unhex, strings));
      c := PackedHex(uhex, data);
    } else {
      var data := FromIterator(strings);
      c := PackedText(data);
    }
  }

  /** `DictLookup`. */
  method DictLookup(codes: seq<nat>, x: Indexed, ghost dict: seq<Text>) returns (r: seq<Text>)
    requires Holds(x, dict) && forall i :: 0 <= i < |codes| ==> codes[i] < |dict|
    ensures |r| == |codes| && forall i :: 0 <= i < |codes| ==> r[i] == dict[codes[i]]
  {
    r := [];
    for i := 0 to |codes|
      invariant |r| == i && forall k :: 0 <= k < i ==> r[k] == dict[codes[k]]
    {
      r := r + [At(x, x.data[codes[i]])];
    }
  }

  /** Decoding restores the strings, on every path; `hex` turns bytes back into hexadecimal
      digits. */
  method DecodeColumn(c: Column, hex: (bool, Text) -> Text, ghost unhex: Text -> Text, ghost strings: seq<Text>) returns (r: seq<Text>)
    requires Stores(unhex, c, strings)
    requires c.PackedHex? ==> forall s :: s in strings ==> hex(c.upper, unhex(s)) == s
    ensures r == strings
  {
    match c
    case Dictionary(_, codes, x) =>
      ghost var dict :| Encodes(c, dict, strings);
      r := DictLookup(codes, x, dict);
    case PackedText(data) =>
      r := Unpack(data, strings);
    case PackedHex(upper, data) =>
      var raw := Unpack(data, Mapped(unhex, strings));
      r := seq(|raw|, i requires 0 <= i < |raw| => hex(upper, raw[i]));
      assert forall i :: 0 <= i < |strings| ==> strings[i] in strings;
  }
}
