/** Strings packed one after the other, each behind its length.  Lengths of 255 and more take
    several bytes. */
module PackedStrings {
  import opened Types
  import opened Seqs

  /** The bytes of a string. */
  type Text = seq<int>

  /** The bytes that encode a length. */
  function LengthBytes(n: nat): (r: seq<int>)
    ensures |r| > 0
  {
    if n > 254 then [255] + LengthBytes(n - 255) else [n]
  }

  function Packed(s: Text): seq<int> {
    LengthBytes(|s|) + s
  }

  function PackAll(strings: seq<Text>): seq<int> {
    if strings == [] then [] else Packed(strings[0]) + PackAll(strings[1..])
  }

  lemma {:induction false} PackSnoc(strings: seq<Text>, s: Text)
    ensures PackAll(strings + [s]) == PackAll(strings) + Packed(s)
  {
    if strings == [] {
      assert strings + [s] == [s] && [s][1..] == [];
      assert PackAll([s]) == Packed(s) + [];
    } else {
      ConsAppend(strings, [s]);
      PackSnoc(strings[1..], s);
      Associate(Packed(strings[0]), PackAll(strings[1..]), Packed(s));
    }
  }

  /** `PackedStrings::push` and the loop of `PackedBytes::from_iterator`. */
  method Push(data: seq<int>, s: Text) returns (r: seq<int>)
    ensures r == data + Packed(s)
  {
    r := data;
    var len := |s|;
    while len > 254
      invariant len >= 0 && r + LengthBytes(len) == data + LengthBytes(|s|)
    {
      Associate(r, [255], LengthBytes(len - 255));
      r := r + [255];
      len := len - 255;
    }
    r := r + [len];
    Associate(data, LengthBytes(|s|), s);
    r := r + s;
  }

  /** `PackedStrings::from_iterator`. */
  method FromIterator(strings: seq<Text>) returns (data: seq<int>)
    ensures data == PackAll(strings)
  {
    data := [];
    for i := 0 to |strings|
      invariant data == PackAll(strings[..i])
    {
      PackSnoc(strings[..i], strings[i]);
      assert strings[..i + 1] == strings[..i] + [strings[i]];
      data := Push(data, strings[i]);
    }
    assert strings[..|strings|] == strings;
  }

  /** Reads a length at `i`, and returns where it ends. */
  method ReadLength(data: seq<int>, i: nat, ghost n: nat) returns (len: nat, j: nat)
    requires i <= |data| && LengthBytes(n) <= data[i..]
    ensures len == n && j == i + |LengthBytes(n)|
  {
    len, j := 0, i;
    while data[j] == 255
      invariant i <= j < |data| && len <= n && LengthBytes(n - len) <= data[j..] && j + |LengthBytes(n - len)| == i + |LengthBytes(n)|
      decreases |data| - j
    {
      assert data[j] == data[j..][0] == LengthBytes(n - len)[0];
      assert LengthBytes(n - len)[1..] == LengthBytes(n - len - 255);
      PrefixTail(LengthBytes(n - len), data, j);
      len := len + 255;
      j := j + 1;
    }
    assert data[j] == data[j..][0] == LengthBytes(n - len)[0];
    len := len + data[j];
    j := j + 1;
  }

  lemma PrefixTail(x: seq<int>, data: seq<int>, j: nat)
    requires j < |data| && x != [] && x <= data[j..]
    ensures x[1..] <= data[j + 1..]
  {
    assert data[j..][1..] == data[j + 1..];
  }

  /** `StringPackerIterator` and `PackedBytesIterator`: yields the strings that were packed. */
  class StringPackerIterator {
    const data: seq<int>
    var currIndex: nat
    ghost var rest: seq<Text>

    ghost predicate Valid()
      reads this
    {
      currIndex <= |data| && data[currIndex..] == PackAll(rest)
    }

    constructor (data: seq<int>, ghost strings: seq<Text>)
      requires data == PackAll(strings)
      ensures Valid() && rest == strings && this.data == data
    {
      this.data, currIndex, rest := data, 0, strings;
      new;
      assert data[0..] == data;
    }

    method Next() returns (r: Option<Text>)
      requires Valid()
      modifies this
      ensures Valid()
      ensures if old(rest) == [] then r == None && rest == [] else r == Some(old(rest)[0]) && rest == old(rest)[1..]
    {
      if currIndex >= |data| {
        assert rest != [] ==> |PackAll(rest)| > 0;
        return None;
      }
      var len, i := ReadString(data, currIndex, rest);
      r := Some(data[i..i + len]);
      currIndex := i + len;
      rest := rest[1..];
    }
  }

  /** Finds the first of the strings packed from `i` on. */
  method ReadString(data: seq<int>, i: nat, ghost strings: seq<Text>) returns (len: nat, j: nat)
    requires i < |data| && data[i..] == PackAll(strings)
    ensures strings != [] && j + len <= |data| && data[j..j + len] == strings[0] && data[j + len..] == PackAll(strings[1..])
  {
    assert strings != [];
    ghost var s, n := strings[0], LengthBytes(|strings[0]|);
    ghost var tail := PackAll(strings[1..]);
    Associate(n, s, tail);
    assert data[i..] == n + (s + tail);
    len, j := ReadLength(data, i, |s|);
    Located(data, i, n, s, tail);
  }

  lemma Located(data: seq<int>, i: nat, n: seq<int>, s: seq<int>, tail: seq<int>)
    requires i <= |data| && data[i..] == n + (s + tail)
    ensures var j := i + |n|; j + |s| <= |data| && data[j..j + |s|] == s && data[j + |s|..] == tail
  {
    var j := i + |n|;
    assert data[j..] == data[i..][|n|..] == s + tail;
    assert data[j..j + |s|] == data[j..][..|s|];
    assert data[j + |s|..] == data[j..][|s|..];
  }

  /** `UnpackStrings`: packing and unpacking restores every list of strings. */
  method Unpack(data: seq<int>, ghost strings: seq<Text>) returns (r: seq<Text>)
    requires data == PackAll(strings)
    ensures r == strings
  {
    var it := new StringPackerIterator(data, strings);
    r := [];
    assert [] + strings == strings;
    while true
      invariant fresh(it) && it.Valid() && r + it.rest == strings
      decreases |it.rest|
    {
      ghost var before := it.rest;
      var s := it.Next();
      if s.None? {
        break;
      }
      assert before == [s.value] + it.rest;
      Associate(r, [s.value], it.rest);
      r := r + [s.value];
    }
  }
}
