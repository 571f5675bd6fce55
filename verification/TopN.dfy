/** `TopN`: the indices of the first `n` rows in the order of one column, kept in a heap while
    the column arrives in chunks. */
module TopN {
  import opened Order
  import opened Types
  import opened Seqs
  import opened Indices

  /** The parent of a node of the heap. */
  function Parent(c: nat): nat
    requires c > 0
  {
    (c - 1) / 2
  }

  /** No node is better than its children, so the worst key is at the root. */
  ghost predicate Heap(desc: bool, ks: seq<int>) {
    forall c :: 0 < c < |ks| ==> !Before(desc, ks[Parent(c)], ks[c])
  }

  lemma {:induction false} RootWorst(desc: bool, ks: seq<int>, c: nat)
    requires Heap(desc, ks) && c < |ks|
    ensures !Before(desc, ks[0], ks[c])
  {
    if c > 0 {
      RootWorst(desc, ks, Parent(c));
    }
  }

  ghost predicate SortedBy(desc: bool, ks: seq<int>) {
    forall i, j :: 0 <= i < j < |ks| ==> !Before(desc, ks[j], ks[i])
  }

  /** When the buffer is full it is sorted.  With the direction taken from `is_less_than`, that
      gives a heap if and only if `is_less_than` agrees with the comparator or all keys are equal.
      It disagrees for `CmpLessThan` on `u64` and `f64`. */
  lemma FirstHeap(desc: bool, lessThan: bool, ks: seq<int>)
    requires SortedBy(lessThan, ks)
    ensures Heap(desc, ks) <==> lessThan != desc || forall c :: 0 <= c < |ks| ==> ks[c] == ks[0]
  {
    if Heap(desc, ks) && lessThan == desc {
      forall c: nat | c < |ks| ensures ks[c] == ks[0] {
        RootWorst(desc, ks, c);
      }
    }
  }

  // ---------------------------------------------------------------- heap_replace

  lemma Swap<T>(s: seq<T>, i: nat, j: nat)
    requires i < |s| && j < |s|
    ensures multiset(s[i := s[j]][j := s[i]]) == multiset(s)
  {
  }

  /** The heap while a hole at `node` sinks; `key` will fill it. */
  ghost predicate Sinking(desc: bool, ks: seq<int>, key: int, node: nat)
    requires node < |ks|
  {
    && (forall c :: 0 < c < |ks| && c != node && Parent(c) != node ==> !Before(desc, ks[Parent(c)], ks[c]))
    && (node > 0 ==> !Before(desc, ks[Parent(node)], key))
    && (node > 0 ==> forall c :: 0 < c < |ks| && Parent(c) == node ==> !Before(desc, ks[Parent(node)], ks[c]))
  }

  /** The hole sinks to the child `c`, the worse of the two, which is worse than the key. */
  lemma Sink(desc: bool, ks: seq<int>, key: int, node: nat, c: nat)
    requires node < |ks| && Sinking(desc, ks, key, node) && WorseChild(desc, ks, node, c) && Before(desc, key, ks[c])
    ensures Sinking(desc, ks[node := ks[c]], key, c)
  {
  }

  /** The hole is filled when no child is worse than the key. */
  lemma Fill(desc: bool, ks: seq<int>, key: int, node: nat)
    requires node < |ks| && Sinking(desc, ks, key, node) && NoneWorse(desc, ks, key, node)
    ensures Heap(desc, ks[node := key])
  {
  }

  /** Moving up the value of a child keeps all values but the one that will be overwritten. */
  lemma MoveUp(values: seq<nat>, node: nat, child: nat, value: nat)
    requires node < |values| && child < |values| && node != child
    ensures multiset(values[node := values[child]][child := value]) == multiset(values[node := value])
  {
    Swap(values[node := value], node, child);
    assert values[node := values[child]][child := value] == values[node := value][node := values[child]][child := value];
  }

  /** The child that the source picks is the worse one; if it picks none, no child is worse than
      the key. */
  lemma Picked(desc: bool, ks: seq<int>, key: int, node: nat)
    requires 2 * node + 1 < |ks|
    ensures var left, right := 2 * node + 1, 2 * node + 2;
            var goLeft := Before(desc, key, ks[left]) && (right >= |ks| || Before(desc, ks[right], ks[left]));
            var goRight := right < |ks| && Before(desc, key, ks[right]);
            && (goLeft ==> WorseChild(desc, ks, node, left))
            && (!goLeft && goRight ==> WorseChild(desc, ks, node, right))
            && (!goLeft && !goRight ==> NoneWorse(desc, ks, key, node))
  {
    forall d: nat | d > 0 ensures Parent(d) == node <==> d == 2 * node + 1 || d == 2 * node + 2 { Children(node, d); }
  }

  ghost predicate WorseChild(desc: bool, ks: seq<int>, node: nat, c: nat) {
    0 < c < |ks| && Parent(c) == node && forall d :: 0 < d < |ks| && Parent(d) == node ==> !Before(desc, ks[c], ks[d])
  }

  ghost predicate NoneWorse(desc: bool, ks: seq<int>, key: int, node: nat) {
    forall d :: 0 < d < |ks| && Parent(d) == node ==> !Before(desc, key, ks[d])
  }

  lemma Children(node: nat, d: nat)
    requires d > 0
    ensures Parent(d) == node <==> d == 2 * node + 1 || d == 2 * node + 2
  {
  }

  /** The keys are the values of the column at the indices. */
  ghost predicate Aligned(col: seq<int>, ks: seq<int>, vs: seq<nat>) {
    |ks| == |vs| && forall k :: 0 <= k < |vs| ==> vs[k] < |col| && ks[k] == col[vs[k]]
  }

  /** The state of `heap_replace`, which may have begun with a heap; `target` holds the indices that
      will result. */
  ghost predicate Replacing(col: seq<int>, desc: bool, heap: bool, ks: seq<int>, vs: seq<nat>, key: int, value: nat, node: nat, target: multiset<nat>) {
    && Aligned(col, ks, vs) && value < |col| && col[value] == key
    && node < |ks| && (heap ==> Sinking(desc, ks, key, node)) && multiset(vs[node := value]) == target
  }

  lemma ReplaceStep(col: seq<int>, desc: bool, heap: bool, ks: seq<int>, vs: seq<nat>, key: int, value: nat, node: nat, c: nat, target: multiset<nat>)
    requires Replacing(col, desc, heap, ks, vs, key, value, node, target)
    requires WorseChild(desc, ks, node, c) && Before(desc, key, ks[c])
    ensures Replacing(col, desc, heap, ks[node := ks[c]], vs[node := vs[c]], key, value, c, target)
  {
    if heap { Sink(desc, ks, key, node, c); }
    MoveUp(vs, node, c, value);
  }

  lemma ReplaceDone(col: seq<int>, desc: bool, heap: bool, ks: seq<int>, vs: seq<nat>, key: int, value: nat, node: nat, target: multiset<nat>)
    requires Replacing(col, desc, heap, ks, vs, key, value, node, target)
    requires 2 * node + 1 >= |ks| || NoneWorse(desc, ks, key, node)
    ensures (heap ==> Heap(desc, ks[node := key])) && Aligned(col, ks[node := key], vs[node := value]) && multiset(vs[node := value]) == target
  {
    if heap { Fill(desc, ks, key, node); }
  }

  /** The child to which the hole sinks, if any. */
  method PickChild(desc: bool, keys: array<int>, key: int, node: nat) returns (child: nat)
    requires 2 * node + 1 < keys.Length
    ensures child < keys.Length ==> WorseChild(desc, keys[..], node, child) && Before(desc, key, keys[child])
    ensures child >= keys.Length ==> NoneWorse(desc, keys[..], key, node)
  {
    var left, right := 2 * node + 1, 2 * node + 2;
    Picked(desc, keys[..], key, node);
    if Before(desc, key, keys[left]) && (right >= keys.Length || Before(desc, keys[right], keys[left])) {
      return left;
    } else if right < keys.Length && Before(desc, key, keys[right]) {
      return right;
    }
    return keys.Length;
  }

  /** Overwrites one entry of both arrays. */
  method Put(keys: array<int>, values: array<nat>, node: nat, key: int, value: nat)
    requires node < keys.Length == values.Length && keys as object != values as object
    modifies keys, values
    ensures keys[..] == old(keys[..])[node := key] && values[..] == old(values[..])[node := value]
  {
    keys[node] := key;
    values[node] := value;
  }

  /** `heap_replace`: the root gives way to a new key, which sinks to its place.  `col` is the
      column that the keys come from. */
  method HeapReplace(ghost col: seq<int>, desc: bool, keys: array<int>, values: array<nat>, key: int, value: nat)
    requires keys.Length > 0 && keys as object != values as object
    requires Aligned(col, keys[..], values[..]) && value < |col| && col[value] == key
    modifies keys, values
    ensures (Heap(desc, old(keys[..])) ==> Heap(desc, keys[..])) && Aligned(col, keys[..], values[..])
    ensures multiset(values[..]) == multiset(old(values[..])[0 := value])
  {
    var node: nat := 0;
    ghost var target, heap := multiset(values[..][0 := value]), Heap(desc, keys[..]);
    while 2 * node + 1 < keys.Length
      invariant Replacing(col, desc, heap, keys[..], values[..], key, value, node, target)
      decreases keys.Length - node
    {
      var child := PickChild(desc, keys, key, node);
      if child >= keys.Length {
        break;
      }
      ReplaceStep(col, desc, heap, keys[..], values[..], key, value, node, child, target);
      Put(keys, values, node, keys[child], values[child]);
      node := child;
    }
    ReplaceDone(col, desc, heap, keys[..], values[..], key, value, node, target);
    Put(keys, values, node, key, value);
  }

  // ---------------------------------------------------------------- sorting

  /** Inserts an index into indices sorted by their keys. */
  method InsertByKey(ghost col: seq<int>, dir: bool, ks: seq<int>, vs: seq<nat>, key: int, value: nat) returns (ks': seq<int>, vs': seq<nat>)
    requires Aligned(col, ks, vs) && SortedBy(dir, ks) && value < |col| && key == col[value]
    ensures Aligned(col, ks', vs') && SortedBy(dir, ks')
    ensures multiset(vs') == multiset(vs + [value]) && |vs'| == |vs| + 1
  {
    var p := 0;
    while p < |ks| && !Before(dir, key, ks[p])
      invariant p <= |ks| && forall k :: 0 <= k < p ==> !Before(dir, key, ks[k])
    {
      p := p + 1;
    }
    Inserted(dir, ks, p, key);
    assert vs == vs[..p] + vs[p..];
    ks', vs' := ks[..p] + [key] + ks[p..], vs[..p] + [value] + vs[p..];
  }

  /** Sorts indices by their keys.  The source sorts with an unstable library sort; all that is
      used here is that the result is a sorted rearrangement. */
  method SortByKey(ghost col: seq<int>, dir: bool, ks: seq<int>, vs: seq<nat>) returns (sortedKs: seq<int>, sortedVs: seq<nat>)
    requires Aligned(col, ks, vs)
    ensures Aligned(col, sortedKs, sortedVs) && SortedBy(dir, sortedKs)
    ensures multiset(sortedVs) == multiset(vs) && |sortedVs| == |vs|
  {
    sortedKs, sortedVs := [], [];
    for i := 0 to |ks|
      invariant Aligned(col, sortedKs, sortedVs) && SortedBy(dir, sortedKs)
      invariant multiset(sortedVs) == multiset(vs[..i]) && |sortedVs| == i
    {
      assert vs[..i + 1] == vs[..i] + [vs[i]];
      sortedKs, sortedVs := InsertByKey(col, dir, sortedKs, sortedVs, ks[i], vs[i]);
    }
    assert vs[..|vs|] == vs;
  }

  lemma Inserted(dir: bool, ks: seq<int>, p: nat, key: int)
    requires SortedBy(dir, ks) && p <= |ks|
    requires forall k :: 0 <= k < p ==> !Before(dir, key, ks[k])
    requires p < |ks| ==> Before(dir, key, ks[p])
    ensures SortedBy(dir, ks[..p] + [key] + ks[p..])
  {
    var r := ks[..p] + [key] + ks[p..];
    assert forall k :: 0 <= k < |r| ==> r[k] == if k < p then ks[k] else if k == p then key else ks[k - 1];
  }

  // ---------------------------------------------------------------- the operator

  /** The indices `m` are the best `n` of the column: distinct, and no index left out has a better
      key than one of them. */
  ghost predicate Best(desc: bool, n: nat, col: seq<int>, m: multiset<nat>) {
    && |m| == Min(n, |col|)
    && Once(|col|, m)
    && (forall j: nat, x :: j < |col| && j !in m && x in m ==> !Before(desc, col[j], col[x]))
  }

  /** Different indices of the column. */
  ghost predicate Once(len: nat, m: multiset<nat>) {
    forall x :: x in m ==> m[x] == 1 && x < len
  }

  /** A key that is no better than the worst one kept is left out. */
  lemma BestSkip(desc: bool, n: nat, col: seq<int>, ks: seq<int>, vs: seq<nat>, key: int)
    requires Best(desc, n, col, multiset(vs)) && Aligned(col, ks, vs) && Heap(desc, ks) && |vs| == n > 0
    requires !Before(desc, key, ks[0])
    ensures Best(desc, n, col + [key], multiset(vs))
  {
    forall x | x in multiset(vs) ensures !Before(desc, key, col[x]) {
      var k :| 0 <= k < |vs| && vs[k] == x;
      RootWorst(desc, ks, k);
    }
  }

  /** A better key takes the place of the worst one. */
  lemma BestReplace(desc: bool, n: nat, col: seq<int>, ks: seq<int>, vs: seq<nat>, key: int)
    requires Best(desc, n, col, multiset(vs)) && Aligned(col, ks, vs) && Heap(desc, ks) && |vs| == n > 0
    requires Before(desc, key, ks[0])
    ensures Best(desc, n, col + [key], multiset(vs[0 := |col|]))
  {
    var m, all := multiset(vs[0 := |col|]), col + [key];
    ReplaceFirst(vs, |col|);
    forall j: nat, x | j < |all| && j !in m && x in m ensures !Before(desc, all[j], all[x]) {
      if x != |col| {
        var k :| 0 <= k < |vs| && vs[k] == x;
        RootWorst(desc, ks, k);
      }
      assert j == vs[0] || !Before(desc, col[j], ks[0]);
    }
  }

  lemma ReplaceFirst(vs: seq<nat>, v: nat)
    requires vs != [] && v !in vs && forall x :: x in multiset(vs) ==> multiset(vs)[x] == 1
    ensures var m := multiset(vs[0 := v]);
            && |m| == |vs|
            && (forall x :: x in m ==> m[x] == 1)
            && (forall x :: x in m <==> x == v || (x in vs && x != vs[0]))
  {
    var rest := multiset(vs[1..]);
    assert vs == [vs[0]] + vs[1..] && vs[0 := v] == [v] + vs[1..];
    assert multiset(vs) == multiset{vs[0]} + rest && multiset(vs[0 := v]) == multiset{v} + rest;
    assert multiset(vs)[vs[0]] == 1;
    assert forall x :: x in rest ==> x in multiset(vs);
  }

  /** While the buffers fill up they hold the whole column. */
  lemma {:induction false} WholeColumn(desc: bool, n: nat, col: seq<int>, vs: seq<nat>)
    requires |vs| == |col| <= n && forall k :: 0 <= k < |vs| ==> vs[k] == k
    ensures Best(desc, n, col, multiset(vs))
    decreases |vs|
  {
    forall j: nat | j < |col| ensures j in multiset(vs) {
      assert vs[j] == j;
    }
    forall x | x in multiset(vs) ensures multiset(vs)[x] == 1 && x < |col| {
      OnlyOnce(vs, x);
    }
  }

  lemma {:induction false} OnlyOnce(vs: seq<nat>, x: nat)
    requires x in vs && forall k :: 0 <= k < |vs| ==> vs[k] == k
    ensures multiset(vs)[x] == 1
  {
    assert vs == vs[..x] + [x] + vs[x + 1..];
    assert x !in vs[..x] && x !in vs[x + 1..];
  }

  lemma Filled(desc: bool, n: nat, col: seq<int>, vs: seq<nat>)
    requires |vs| == |col| <= n && forall k :: 0 <= k < |vs| ==> vs[k] == k
    ensures Aligned(col, col, vs) && Best(desc, n, col, multiset(vs))
  {
    WholeColumn(desc, n, col, vs);
  }

  /** The operator finds the best `n`: `is_less_than` agrees with the comparator, or there is only
      one to find. */
  predicate Coherent(n: nat, desc: bool, lessThan: bool) {
    lessThan != desc || n <= 1
  }

  /** What the buffers hold after the column `col` has been seen. */
  ghost predicate Kept(coherent: bool, desc: bool, n: nat, col: seq<int>, ks: seq<int>, vs: seq<nat>) {
    && |vs| == Min(n, |col|) && Aligned(col, ks, vs) && Once(|col|, multiset(vs))
    && (|col| < n ==> ks == col && forall k :: 0 <= k < |vs| ==> vs[k] == k)
    && (coherent ==> Best(desc, n, col, multiset(vs)) && (|col| >= n ==> Heap(desc, ks)))
  }

  lemma KeptSkip(coherent: bool, desc: bool, n: nat, col: seq<int>, ks: seq<int>, vs: seq<nat>, key: int)
    requires Kept(coherent, desc, n, col, ks, vs) && |vs| == n > 0 && !Before(desc, key, ks[0])
    ensures Kept(coherent, desc, n, col + [key], ks, vs)
  {
    if coherent { BestSkip(desc, n, col, ks, vs, key); }
  }

  lemma KeptReplace(coherent: bool, desc: bool, n: nat, col: seq<int>, ks: seq<int>, vs: seq<nat>, key: int, ks': seq<int>, vs': seq<nat>)
    requires Kept(coherent, desc, n, col, ks, vs) && |vs| == n > 0 && Before(desc, key, ks[0])
    requires Aligned(col + [key], ks', vs') && |vs'| == n && (Heap(desc, ks) ==> Heap(desc, ks')) && multiset(vs') == multiset(vs[0 := |col|])
    ensures Kept(coherent, desc, n, col + [key], ks', vs')
  {
    OutOfRange(col, ks, vs);
    ReplaceFirst(vs, |col|);
    if coherent { BestReplace(desc, n, col, ks, vs, key); }
  }

  lemma AlignedMore(col: seq<int>, ks: seq<int>, vs: seq<nat>, key: int)
    requires Aligned(col, ks, vs)
    ensures Aligned(col + [key], ks, vs)
  {
  }

  /** The whole column, as long as it fits. */
  lemma KeptWhole(coherent: bool, desc: bool, n: nat, col: seq<int>, vs: seq<nat>)
    requires |col| < n && vs == Ids(|col|)
    ensures Kept(coherent, desc, n, col, col, vs)
  {
    Filled(desc, n, col, vs);
  }

  lemma KeptFull(coherent: bool, desc: bool, n: nat, col: seq<int>, ks: seq<int>, vs: seq<nat>)
    requires |col| == |vs| == n && Aligned(col, ks, vs) && multiset(vs) == multiset(Ids(n)) && (coherent ==> Heap(desc, ks))
    ensures Kept(coherent, desc, n, col, ks, vs)
  {
    Filled(desc, n, col, Ids(n));
  }

  lemma OutOfRange(col: seq<int>, ks: seq<int>, vs: seq<nat>)
    requires Aligned(col, ks, vs)
    ensures |col| !in vs
  {
  }

  /** Appends the first `count` values of `input` with their indices. */
  method PushAll(keys: array<int>, indices: array<nat>, len: nat, lastIndex: nat, input: seq<int>, count: nat)
    requires count <= |input| && len + count <= keys.Length == indices.Length && keys as object != indices as object
    modifies keys, indices
    ensures keys[..len + count] == old(keys[..len]) + input[..count] && indices[..len] == old(indices[..len])
    ensures forall k :: len <= k < len + count ==> indices[k] == lastIndex + k - len
  {
    for i := 0 to count
      invariant keys[..len + i] == old(keys[..len]) + input[..i] && indices[..len] == old(indices[..len])
      invariant forall k :: len <= k < len + i ==> indices[k] == lastIndex + k - len
    {
      keys[len + i] := input[i];
      indices[len + i] := lastIndex + i;
    }
  }

  method Overwrite(keys: array<int>, indices: array<nat>, ks: seq<int>, vs: seq<nat>)
    requires keys.Length == indices.Length == |ks| == |vs| && keys as object != indices as object
    modifies keys, indices
    ensures keys[..] == ks && indices[..] == vs
  {
    for i := 0 to |ks|
      invariant keys[..i] == ks[..i] && indices[..i] == vs[..i]
    {
      keys[i] := ks[i];
      indices[i] := vs[i];
    }
  }

  /** Sorts the full buffers, which makes them a heap if the comparator is coherent. */
  method SortFull(ghost col: seq<int>, ghost desc: bool, lessThan: bool, keys: array<int>, indices: array<nat>)
    requires keys.Length == indices.Length && keys as object != indices as object
    requires Aligned(col, keys[..], indices[..])
    modifies keys, indices
    ensures Aligned(col, keys[..], indices[..]) && SortedBy(lessThan, keys[..]) && (Coherent(keys.Length, desc, lessThan) ==> Heap(desc, keys[..]))
    ensures multiset(indices[..]) == multiset(old(indices[..]))
  {
    var ks, vs := SortByKey(col, lessThan, keys[..], indices[..]);
    FirstHeap(desc, lessThan, ks);
    Overwrite(keys, indices, ks, vs);
  }

  /** The operator.  `desc` is its comparator and `lessThan` what that reports as `is_less_than`;
      the first `len` entries of both buffers are in use. */
  class Operator {
    const n: nat
    const desc: bool
    const lessThan: bool
    const keys: array<int>
    const indices: array<nat>
    var len: nat
    var lastIndex: nat
    ghost var col: seq<int>

    ghost predicate Valid()
      reads this, keys, indices
    {
      && keys.Length == indices.Length == n && keys as object != indices as object
      && len == Min(n, |col|) && lastIndex == |col|
      && Kept(Coherent(n, desc, lessThan), desc, n, col, keys[..len], indices[..len])
    }

    constructor (n: nat, desc: bool, lessThan: bool)
      ensures Valid() && fresh(keys) && fresh(indices) && col == []
      ensures this.n == n && this.desc == desc && this.lessThan == lessThan
    {
      this.n, this.desc, this.lessThan := n, desc, lessThan;
      keys, indices := new int[n], new nat[n];
      len, lastIndex, col := 0, 0, [];
    }

    /** Appends values to buffers that hold the whole column. */
    method Append(input: seq<int>, count: nat)
      requires Valid() && len + count <= n && len < n && count <= |input|
      modifies this`len, this`lastIndex, this`col, keys, indices
      ensures col == old(col) + input[..count] && len == lastIndex == |col| == old(len) + count
      ensures keys[..len] == col && forall k :: 0 <= k < len ==> indices[k] == k
    {
      assert keys[..len] == col && forall k :: 0 <= k < len ==> indices[..len][k] == k;
      PushAll(keys, indices, len, lastIndex, input, count);
      assert forall k :: 0 <= k < len ==> indices[k] == indices[..len][k];
      len := len + count;
      lastIndex := lastIndex + count;
      col := col + input[..count];
    }

    lemma Full()
      requires len == n == keys.Length == indices.Length
      ensures keys[..len] == keys[..] && indices[..len] == indices[..]
    {
    }

    /** Takes the first values of the column until the buffers are full, and then sorts them. */
    method FillUp(input: seq<int>) returns (count: nat)
      requires Valid() && len < n
      modifies this`len, this`lastIndex, this`col, keys, indices
      ensures Valid() && count <= |input| && col == old(col) + input[..count]
      ensures count < |input| ==> len == n
      ensures len == n ==> SortedBy(lessThan, keys[..]) && multiset(indices[..]) == multiset(Ids(n))
    {
      count := Min(n - len, |input|);
      Append(input, count);
      assert indices[..len] == Ids(len);
      if len == n {
        Full();
        SortFull(col, desc, lessThan, keys, indices);
        Full();
        KeptFull(Coherent(n, desc, lessThan), desc, n, col, keys[..], indices[..]);
      } else {
        KeptWhole(Coherent(n, desc, lessThan), desc, n, col, indices[..len]);
      }
    }

    /** Takes one more value of the column when the buffers are full. */
    method Offer(key: int)
      requires Valid() && len == n > 0
      modifies this`lastIndex, this`col, keys, indices
      ensures Valid() && col == old(col) + [key]
      ensures !Before(desc, key, old(keys[0])) ==> indices[..] == old(indices[..])
    {
      ghost var ks, vs := keys[..], indices[..];
      Full();
      if Before(desc, key, keys[0]) {
        AlignedMore(col, ks, vs, key);
        HeapReplace(col + [key], desc, keys, indices, key, lastIndex);
        KeptReplace(Coherent(n, desc, lessThan), desc, n, col, ks, vs, key, keys[..], indices[..]);
      } else {
        KeptSkip(Coherent(n, desc, lessThan), desc, n, col, ks, vs, key);
      }
      Full();
      col := col + [key];
      lastIndex := lastIndex + 1;
    }

    /** `execute`, on the next chunk of the column.  It panics if there is a value but no place for
        one. */
    method Execute(input: seq<int>) returns (ok: bool)
      requires Valid()
      modifies this`len, this`lastIndex, this`col, keys, indices
      ensures ok <==> n > 0 || input == []
      ensures Valid() && col == old(col) + if ok then input else []
    {
      if n == 0 && input != [] {
        assert old(col) + [] == old(col);
        return false;
      }
      ok := true;
      var count: nat := 0;
      if len < n {
        count := FillUp(input);
      }
      OfferAll(input, count);
      Rejoin(input, count);
      Associate(old(col), input[..count], input[count..]);
    }

    method OfferAll(input: seq<int>, from: nat)
      requires Valid() && from <= |input| && (from < |input| ==> len == n > 0)
      modifies this`lastIndex, this`col, keys, indices
      ensures Valid() && col == old(col) + input[from..]
    {
      for i := from to |input|
        invariant Valid() && (i < |input| ==> len == n > 0) && col + input[i..] == old(col) + input[from..]
      {
        ShiftOne(col, input, i);
        Offer(input[i]);
      }
    }

    /** `finalize`: the indices kept, in the order of their keys; with a coherent comparator those of
        the first `n` rows. */
    method Finalize() returns (output: seq<nat>)
      requires Valid()
      ensures multiset(output) == multiset(indices[..len]) && |output| == Min(n, |col|) && Once(|col|, multiset(output))
      ensures Coherent(n, desc, lessThan) ==> Best(desc, n, col, multiset(output)) && InOrder(desc, col, output)
    {
      var ks;
      ks, output := SortByKey(col, !lessThan, keys[..len], indices[..len]);
    }
  }

  /** The rows with the given indices are sorted. */
  ghost predicate InOrder(desc: bool, col: seq<int>, output: seq<nat>) {
    forall i, j :: 0 <= i < j < |output| ==> output[i] < |col| && output[j] < |col| && !Before(desc, col[output[j]], col[output[i]])
  }

  /** A column that ends with the second best value. */
  function Late(n: nat, desc: bool): (col: seq<int>)
    ensures |col| == n + 1
  {
    var sign := if desc then -1 else 1;
    seq(n, i => sign * (2 * i)) + [sign]
  }

  /** The second best value is turned away if the best is at the root. */
  lemma LateLost(n: nat, desc: bool, col: seq<int>, ks: seq<int>, vs: seq<nat>)
    requires n >= 2 && col == Late(n, desc) && Aligned(col[..n], ks, vs) && SortedBy(desc, ks) && multiset(vs) == multiset(Ids(n))
    ensures |ks| == n && !Before(desc, col[n], ks[0]) && !Best(desc, n, col, multiset(vs))
  {
    assert |multiset(vs)| == |vs| && |multiset(Ids(n))| == n;
    assert Ids(n)[0] == 0 && Ids(n)[n - 1] == n - 1;
    assert 0 in multiset(vs) && n - 1 in multiset(vs);
    var k :| 0 <= k < |vs| && vs[k] == 0;
    assert ks[k] == 0 && col[vs[0]] == ks[0];
    assert n !in multiset(Ids(n));
    var x: nat := n - 1;
    assert Before(desc, col[n], col[x]);
  }

  /** With a comparator that is not coherent there is, for every `n`, a column whose first `n` rows
      are not found. */
  method Incoherent(n: nat, desc: bool) returns (output: seq<nat>)
    requires !Coherent(n, desc, desc)
    ensures !Best(desc, n, Late(n, desc), multiset(output))
  {
    var op := new Operator(n, desc, desc);
    var col := Late(n, desc);
    var first, last := col[..n], col[n];
    assert col == first + [last];
    var count := op.FillUp(first);
    assert op.col == [] + first[..n] == first;
    assert op.keys[..op.len] == op.keys[..] && op.indices[..op.len] == op.indices[..];
    LateLost(n, desc, col, op.keys[..], op.indices[..]);
    op.Offer(last);
    output := op.Finalize();
    assert op.indices[..op.len] == op.indices[..];
  }
}
