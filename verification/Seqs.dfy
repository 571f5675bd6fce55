/** Facts about sequences that the verifier finds costly in the middle of a larger proof. */
module Seqs {

  lemma ConsAppend<T>(s: seq<T>, t: seq<T>)
    requires s != []
    ensures [s[0]] + (s[1..] + t) == s + t
    ensures (s + t)[1..] == s[1..] + t
  {
  }

  lemma Rejoin<T>(s: seq<T>, n: nat)
    requires n <= |s|
    ensures s[..n] + s[n..] == s
  {
  }

  lemma PrefixGrows<T>(s: seq<T>, i: nat, j: nat)
    requires i <= j <= |s|
    ensures s[..i] + s[i..j] == s[..j]
  {
  }

  lemma PrefixSnoc<T>(s: seq<T>, i: nat)
    requires i < |s|
    ensures s[..i + 1] == s[..i] + [s[i]]
  {
  }

  lemma InsertedAt<T>(s: seq<T>, p: nat, x: T)
    requires p <= |s|
    ensures multiset(s[..p] + [x] + s[p..]) == multiset(s) + multiset{x}
  {
    Rejoin(s, p);
    assert multiset(s) == multiset(s[..p]) + multiset(s[p..]);
  }

  lemma PrefixIs<T>(s: seq<T>, t: seq<T>)
    requires s <= t
    ensures t[..|s|] == s
  {
  }

  lemma Whole<T>(s: seq<T>)
    ensures s[..|s|] == s
  {
  }

  lemma Associate<T>(s: seq<T>, t: seq<T>, u: seq<T>)
    ensures s + t + u == s + (t + u)
  {
  }

  lemma AndNothing<T>(s: seq<T>)
    ensures s + [] == s
  {
  }

  lemma ConsTail<T>(x: T, s: seq<T>)
    ensures ([x] + s)[1..] == s
  {
  }

  /** The first element of the rest moves over. */
  lemma ShiftOne<T>(done: seq<T>, s: seq<T>, i: nat)
    requires i < |s|
    ensures (done + [s[i]]) + s[i + 1..] == done + s[i..]
  {
  }

  lemma RemoveOne<T>(s: seq<T>, j: nat)
    requires j < |s|
    ensures s == s[..j] + ([s[j]] + s[j + 1..])
    ensures multiset(s[..j] + s[j + 1..]) == multiset(s) - multiset{s[j]}
  {
    assert s == s[..j] + ([s[j]] + s[j + 1..]);
  }

  /** Permutations stay permutations when an element they share is taken out of both. */
  lemma RemoveSame<T>(s: seq<T>, t: seq<T>, j: nat)
    requires multiset(s) == multiset(t) && s != [] && j < |t| && t[j] == s[0]
    ensures multiset(s[1..]) == multiset(t[..j] + t[j + 1..])
    ensures t == t[..j] + ([s[0]] + t[j + 1..])
  {
    RemoveOne(s, 0);
    assert s[..0] + s[0 + 1..] == s[1..];
    RemoveOne(t, j);
  }
}
