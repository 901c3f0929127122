/** Singly linked lists threaded through an array of links, as the free lists and message lists of the kernel are. */
module Chains {

  import opened WaitList

  const NIL: int := -1

  /** The i-th node of a list, or NIL behind its end. */
  function Head(nodes: seq<nat>, i: nat): int {
    if i < |nodes| then nodes[i] else NIL
  }

  predicate Threaded(next: seq<int>, nodes: seq<nat>, i: nat)
    requires i < |nodes| && InRange(nodes, |next|)
  {
    next[nodes[i]] == Head(nodes, i + 1)
  }

  /** Each node links to the one behind it, and the last one to nothing. */
  ghost predicate Chain(next: seq<int>, nodes: seq<nat>) {
    InRange(nodes, |next|) && Distinct(nodes) && forall i: nat :: i < |nodes| ==> Threaded(next, nodes, i)
  }

  /** A write to a node that is not on the list does not disturb it. */
  lemma ChainFrame(next: seq<int>, nodes: seq<nat>, n: nat, value: int)
    requires Chain(next, nodes) && n < |next| && n !in nodes
    ensures Chain(next[n := value], nodes)
  {
    var next2 := next[n := value];
    forall i: nat | i < |nodes| ensures Threaded(next2, nodes, i) {
      assert Threaded(next, nodes, i);
    }
  }

  lemma ChainTail(next: seq<int>, nodes: seq<nat>)
    requires Chain(next, nodes) && nodes != []
    ensures nodes[0] < |next| && next[nodes[0]] == Head(nodes[1..], 0)
    ensures Chain(next, nodes[1..]) && nodes[0] !in nodes[1..] && Distinct(nodes)
    ensures forall b :: b in nodes <==> b == nodes[0] || b in nodes[1..]
  {
    var rest := nodes[1..];
    assert Threaded(next, nodes, 0);
    assert forall i :: 0 <= i < |rest| ==> rest[i] == nodes[i + 1];
    forall i: nat | i < |rest| ensures Threaded(next, rest, i) {
      assert Threaded(next, nodes, i + 1);
    }
  }

  lemma ChainPush(next: seq<int>, nodes: seq<nat>, n: nat)
    requires Chain(next, nodes) && n < |next| && n !in nodes
    ensures Chain(next[n := Head(nodes, 0)], [n] + nodes)
    ensures forall b :: b in [n] + nodes <==> b == n || b in nodes
  {
    var next2, more := next[n := Head(nodes, 0)], [n] + nodes;
    ChainFrame(next, nodes, n, Head(nodes, 0));
    assert forall i :: 1 <= i < |more| ==> more[i] == nodes[i - 1];
    forall i: nat | i < |more| ensures Threaded(next2, more, i) {
      if i > 0 {
        assert Threaded(next2, nodes, i - 1);
      }
    }
  }

  /** Hanging a node that links to nothing behind the last one. */
  lemma ChainAppend(next: seq<int>, nodes: seq<nat>, n: nat)
    requires Chain(next, nodes) && nodes != [] && n < |next| && n !in nodes && next[n] == NIL
    ensures nodes[|nodes| - 1] < |next| && Chain(next[nodes[|nodes| - 1] := n], nodes + [n])
    ensures forall b :: b in nodes + [n] <==> b == n || b in nodes
  {
    var more := nodes + [n];
    var next2 := next[nodes[|nodes| - 1] := n];
    forall i: nat | i < |more| ensures Threaded(next2, more, i) {
      if i < |nodes| {
        assert Threaded(next, nodes, i);
      }
    }
  }
}
