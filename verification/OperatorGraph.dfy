/** The dataflow graph of a query plan: operators read and write buffers. */
module OperatorGraph {

  /** An operator: the buffers it reads and writes, which of them it can stream, and which of its
      inputs it mutates. */
  datatype Op = Op(inputs: seq<nat>, outputs: seq<nat>, streamsIn: set<nat>, streamsOut: set<nat>, mutates: set<nat>)

  /** The operators, with the operators that read and that write each buffer. */
  datatype Graph = Graph(ops: seq<Op>, consumers: seq<seq<nat>>, producers: seq<seq<nat>>)

  /** All entries are operators. */
  predicate Below(n: nat, s: seq<nat>) {
    forall i :: 0 <= i < |s| ==> s[i] < n
  }

  /** The buffers of the operators are wired up correctly. */
  ghost predicate Wired(g: Graph) {
    && |g.consumers| == |g.producers|
    && (forall i :: 0 <= i < |g.ops| ==> Below(|g.consumers|, g.ops[i].inputs) && Below(|g.consumers|, g.ops[i].outputs))
    && (forall b :: 0 <= b < |g.consumers| ==> Below(|g.ops|, g.consumers[b]) && Below(|g.ops|, g.producers[b]))
    && (forall b: nat, i: nat :: 0 <= b < |g.consumers| ==> (i in g.consumers[b] <==> i < |g.ops| && b in g.ops[i].inputs))
    && (forall b: nat, i: nat :: 0 <= b < |g.producers| ==> (i in g.producers[b] <==> i < |g.ops| && b in g.ops[i].outputs))
  }

  /** Adds operator `i` to the list of each of the buffers `bs`. */
  method Register(lists: seq<seq<nat>>, i: nat, bs: seq<nat>) returns (r: seq<seq<nat>>)
    requires Below(|lists|, bs)
    ensures |r| == |lists|
    ensures forall b: nat, n: nat :: b < |r| && Below(n, lists[b]) && i < n ==> Below(n, r[b])
    ensures forall b, x :: 0 <= b < |r| ==> (x in r[b] <==> x in lists[b] || (x == i && b in bs))
  {
    r := lists;
    for k := 0 to |bs|
      invariant |r| == |lists|
      invariant forall b: nat, n: nat :: b < |r| && Below(n, lists[b]) && i < n ==> Below(n, r[b])
      invariant forall b, x :: 0 <= b < |r| ==> (x in r[b] <==> x in lists[b] || (x == i && b in bs[..k]))
    {
      r := r[bs[k] := r[bs[k]] + [i]];
    }
  }

  /** Constructs the execution graph. */
  method Wire(ops: seq<Op>, count: nat) returns (g: Graph)
    requires forall i :: 0 <= i < |ops| ==> Below(count, ops[i].inputs) && Below(count, ops[i].outputs)
    ensures g.ops == ops && Wired(g)
  {
    var consumers := seq(count, _ => []);
    var producers := seq(count, _ => []);
    for i := 0 to |ops|
      invariant |consumers| == |producers| == count
      invariant forall b :: 0 <= b < count ==> Below(|ops|, consumers[b]) && Below(|ops|, producers[b])
      invariant forall b: nat, x: nat :: b < count ==> (x in consumers[b] <==> x < i && b in ops[x].inputs)
      invariant forall b: nat, x: nat :: b < count ==> (x in producers[b] <==> x < i && b in ops[x].outputs)
    {
      consumers := Register(consumers, i, ops[i].inputs);
      producers := Register(producers, i, ops[i].outputs);
    }
    g := Graph(ops, consumers, producers);
  }

  /** The lists of the given buffers, one after the other. */
  function Joined(lists: seq<seq<nat>>, bs: seq<nat>): (r: seq<nat>)
    requires Below(|lists|, bs)
    ensures forall x :: x in r <==> exists k :: 0 <= k < |bs| && x in lists[bs[k]]
  {
    if bs == [] then []
    else
      var rest := Joined(lists, bs[1..]);
      assert forall x :: x in lists[bs[0]] + rest <==> exists k :: 0 <= k < |bs| && x in lists[bs[k]] by {
        JoinedHead(lists, bs, rest);
      }
      lists[bs[0]] + rest
  }

  lemma JoinedHead(lists: seq<seq<nat>>, bs: seq<nat>, rest: seq<nat>)
    requires bs != [] && Below(|lists|, bs)
    requires forall x :: x in rest <==> exists k :: 0 <= k < |bs[1..]| && x in lists[bs[1..][k]]
    ensures forall x :: x in lists[bs[0]] + rest <==> exists k :: 0 <= k < |bs| && x in lists[bs[k]]
  {
    forall x ensures x in lists[bs[0]] + rest <==> exists k :: 0 <= k < |bs| && x in lists[bs[k]] {
      if x in rest {
        var k :| 0 <= k < |bs[1..]| && x in lists[bs[1..][k]];
        assert x in lists[bs[k + 1]];
      }
      if k :| 0 <= k < |bs| && x in lists[bs[k]] {
        if k > 0 { assert x in lists[bs[1..][k - 1]]; }
      }
    }
  }

  lemma JoinedBelow(g: Graph, lists: seq<seq<nat>>, bs: seq<nat>)
    requires Below(|lists|, bs) && forall b :: 0 <= b < |lists| ==> Below(|g.ops|, lists[b])
    ensures Below(|g.ops|, Joined(lists, bs))
  {
    var r := Joined(lists, bs);
    forall k | 0 <= k < |r| ensures r[k] < |g.ops| {
      assert r[k] in r;
    }
  }

  /** The operators that write an input of operator `i`. */
  function Parents(g: Graph, i: nat): (r: seq<nat>)
    requires Wired(g) && i < |g.ops|
    ensures Below(|g.ops|, r)
  {
    JoinedBelow(g, g.producers, g.ops[i].inputs);
    Joined(g.producers, g.ops[i].inputs)
  }

  /** The operators that read an output of operator `i`. */
  function Children(g: Graph, i: nat): (r: seq<nat>)
    requires Wired(g) && i < |g.ops|
    ensures Below(|g.ops|, r)
  {
    JoinedBelow(g, g.consumers, g.ops[i].outputs);
    Joined(g.consumers, g.ops[i].outputs)
  }

  /** Reading and writing are two sides of one relation. */
  lemma ParentsChildren(g: Graph, i: nat, j: nat)
    requires Wired(g) && i < |g.ops| && j < |g.ops|
    ensures j in Parents(g, i) <==> i in Children(g, j)
    ensures j in Parents(g, i) <==> exists b :: b in g.ops[i].inputs && b in g.ops[j].outputs
  {
    if j in Parents(g, i) {
      var k :| 0 <= k < |g.ops[i].inputs| && j in g.producers[g.ops[i].inputs[k]];
      var b := g.ops[i].inputs[k];
      var k' :| 0 <= k' < |g.ops[j].outputs| && g.ops[j].outputs[k'] == b;
      assert i in g.consumers[g.ops[j].outputs[k']];
    }
    if i in Children(g, j) {
      var k :| 0 <= k < |g.ops[j].outputs| && i in g.consumers[g.ops[j].outputs[k]];
      var b := g.ops[j].outputs[k];
      assert b in g.ops[i].inputs && b in g.ops[j].outputs;
    }
    if b :| b in g.ops[i].inputs && b in g.ops[j].outputs {
      var k :| 0 <= k < |g.ops[i].inputs| && g.ops[i].inputs[k] == b;
      assert j in g.producers[g.ops[i].inputs[k]];
    }
  }
}
