/**
 The intrusive rings of rtservice.h and the wait lists ipc.c keeps on them.  A list node is a number; the
 head of a list and the nodes on it form one ring through `next` and `prev`.
 */
module WaitList {

  // ---------------------------------------------------------------- rings as values

  /** The neighbours on a ring: after the last node comes the head. */
  function Succ(ring: seq<nat>, i: nat): nat
    requires i < |ring|
  {
    if i + 1 < |ring| then ring[i + 1] else ring[0]
  }

  function Pred(ring: seq<nat>, i: nat): nat
    requires i < |ring|
  {
    if i > 0 then ring[i - 1] else ring[|ring| - 1]
  }

  predicate Joined(next: seq<nat>, prev: seq<nat>, ring: seq<nat>, i: nat)
    requires |next| == |prev| && InRange(ring, |next|) && i < |ring|
  {
    next[ring[i]] == Succ(ring, i) && prev[ring[i]] == Pred(ring, i)
  }

  /** The nodes of `ring`, head first, are linked to each other in that order and to nothing else. */
  ghost predicate Linked(next: seq<nat>, prev: seq<nat>, ring: seq<nat>) {
    |next| == |prev| && ring != [] && Distinct(ring) && InRange(ring, |next|)
    && forall i: nat :: i < |ring| ==> Joined(next, prev, ring, i)
  }

  lemma Around(next: seq<nat>, prev: seq<nat>, ring: seq<nat>, i: nat)
    requires Linked(next, prev, ring) && i < |ring|
    ensures |next| == |prev| && ring[i] < |next| && Succ(ring, i) < |next| && Pred(ring, i) < |next|
    ensures next[ring[i]] == Succ(ring, i) && prev[ring[i]] == Pred(ring, i)
    ensures Distinct(ring) && InRange(ring, |next|)
  {
    assert Joined(next, prev, ring, i);
  }

  predicate Distinct(s: seq<nat>) {
    forall i, j :: 0 <= i < j < |s| ==> s[i] != s[j]
  }

  /** Where rt_list_insert_before puts a node when it is given the i-th node of the ring: before the
      head means at the end. */
  function InsertedBefore(ring: seq<nat>, i: nat, n: nat): seq<nat>
    requires i < |ring|
  {
    if i == 0 then ring + [n] else ring[..i] + [n] + ring[i..]
  }

  function InsertedAfter(ring: seq<nat>, i: nat, n: nat): seq<nat>
    requires i < |ring|
  {
    ring[..i + 1] + [n] + ring[i + 1..]
  }

  function Without(ring: seq<nat>, i: nat): seq<nat>
    requires i < |ring|
  {
    ring[..i] + ring[i + 1..]
  }

  /** A ring none of whose nodes is touched stays a ring. */
  lemma RingKept(next: seq<nat>, prev: seq<nat>, ring: seq<nat>, next2: seq<nat>, prev2: seq<nat>)
    requires Linked(next, prev, ring) && |next2| == |next| && |prev2| == |prev|
    requires forall i :: 0 <= i < |ring| ==> next2[ring[i]] == next[ring[i]] && prev2[ring[i]] == prev[ring[i]]
    ensures Linked(next2, prev2, ring)
  {
    forall i: nat | i < |ring| ensures Joined(next2, prev2, ring, i) {
      Around(next, prev, ring, i);
    }
  }

  lemma SpliceDistinct(ring: seq<nat>, i: nat, n: nat)
    requires Distinct(ring) && i <= |ring| && n !in ring
    ensures Distinct(ring[..i] + [n] + ring[i..])
  {
    var r := ring[..i] + [n] + ring[i..];
    forall x, y | 0 <= x < y < |r| ensures r[x] != r[y] {
      assert x != i ==> r[x] in ring;
      assert y != i ==> r[y] in ring;
    }
  }

  /** Splicing n between two neighbours of a ring makes a ring with n between them. */
  lemma Splice(next: seq<nat>, prev: seq<nat>, ring: seq<nat>, i: nat, n: nat, next2: seq<nat>, prev2: seq<nat>)
    requires Linked(next, prev, ring) && 0 < i <= |ring| && n < |next| && n !in ring
    requires var a, b := ring[i - 1], Succ(ring, i - 1);
             next2 == next[n := b][a := n] && prev2 == prev[n := a][b := n]
    ensures Linked(next2, prev2, ring[..i] + [n] + ring[i..])
  {
    var r := ring[..i] + [n] + ring[i..];
    SpliceDistinct(ring, i, n);
    hide Distinct;
    forall x: nat | x < |r| ensures Joined(next2, prev2, r, x) {
      SpliceNext(next, prev, ring, i, n, next2, x);
      SplicePrev(next, prev, ring, i, n, prev2, x);
    }
  }

  lemma SpliceBefore(next: seq<nat>, prev: seq<nat>, ring: seq<nat>, i: nat, n: nat, next2: seq<nat>, prev2: seq<nat>)
    requires Linked(next, prev, ring) && i < |ring| && n < |next| && n !in ring
    requires var a, b := Pred(ring, i), ring[i];
             next2 == next[a := n][n := b] && prev2 == prev[n := a][b := n]
    ensures Linked(next2, prev2, InsertedBefore(ring, i, n))
  {
    hide Linked;
    Around(next, prev, ring, i);
    var at := if i == 0 then |ring| else i;
    var a, b := Pred(ring, i), ring[i];
    assert a == ring[at - 1] && b == Succ(ring, at - 1);
    assert next[a := n][n := b] == next[n := b][a := n];
    assert ring[..at] + [n] + ring[at..] == InsertedBefore(ring, i, n);
    Splice(next, prev, ring, at, n, next2, prev2);
  }

  lemma SpliceNext(next: seq<nat>, prev: seq<nat>, ring: seq<nat>, i: nat, n: nat, next2: seq<nat>, x: nat)
    requires Linked(next, prev, ring) && 0 < i <= |ring| && n < |next| && n !in ring && x <= |ring|
    requires next2 == next[n := Succ(ring, i - 1)][ring[i - 1] := n]
    ensures var r := ring[..i] + [n] + ring[i..]; next2[r[x]] == Succ(r, x)
  {
    var r := ring[..i] + [n] + ring[i..];
    if x != i {
      var y := if x < i then x else x - 1;
      assert r[x] == ring[y];
      Around(next, prev, ring, y);
    }
  }

  lemma SplicePrev(next: seq<nat>, prev: seq<nat>, ring: seq<nat>, i: nat, n: nat, prev2: seq<nat>, x: nat)
    requires Linked(next, prev, ring) && 0 < i <= |ring| && n < |next| && n !in ring && x <= |ring|
    requires prev2 == prev[n := ring[i - 1]][Succ(ring, i - 1) := n]
    ensures var r := ring[..i] + [n] + ring[i..]; prev2[r[x]] == Pred(r, x)
  {
    var r := ring[..i] + [n] + ring[i..];
    if x != i {
      var y := if x < i then x else x - 1;
      assert r[x] == ring[y];
      Around(next, prev, ring, y);
    }
  }

  /** Bridging over one node leaves a ring without it. */
  lemma Bridge(next: seq<nat>, prev: seq<nat>, ring: seq<nat>, i: nat, next2: seq<nat>, prev2: seq<nat>)
    requires Linked(next, prev, ring) && 0 < i < |ring|
    requires var n, a, b := ring[i], ring[i - 1], Succ(ring, i);
             next2 == next[a := b][n := n] && prev2 == prev[b := a][n := n]
    ensures Linked(next2, prev2, Without(ring, i))
  {
    var r := Without(ring, i);
    assert forall k :: 0 <= k < |r| ==> r[k] == if k < i then ring[k] else ring[k + 1];
    assert Distinct(r);
    hide Distinct;
    forall x: nat | x < |r| ensures Joined(next2, prev2, r, x) {
      BridgeAt(next, prev, ring, i, next2, prev2, x);
    }
  }

  lemma BridgeAt(next: seq<nat>, prev: seq<nat>, ring: seq<nat>, i: nat, next2: seq<nat>, prev2: seq<nat>, x: nat)
    requires Linked(next, prev, ring) && 0 < i < |ring| && x < |ring| - 1
    requires var n, a, b := ring[i], ring[i - 1], Succ(ring, i);
             next2 == next[a := b][n := n] && prev2 == prev[b := a][n := n]
    ensures var r := Without(ring, i); next2[r[x]] == Succ(r, x) && prev2[r[x]] == Pred(r, x)
  {
    var y := if x < i then x else x + 1;
    assert Without(ring, i)[x] == ring[y];
    Around(next, prev, ring, y);
  }

  /** There are no more than n distinct numbers below n. */
  lemma {:induction false} Pigeonhole(q: seq<nat>, n: nat)
    requires Distinct(q) && InRange(q, n)
    ensures |q| <= n
  {
    if q != [] {
      Positive(q, n);
    }
    if n == 0 {
    } else if i :| 0 <= i < |q| && q[i] == n - 1 {
      var r := Without(q, i);
      assert forall k :: 0 <= k < |r| ==> r[k] == q[if k < i then k else k + 1];
      Pigeonhole(r, n - 1);
    } else {
      Pigeonhole(q, n - 1);
    }
  }

  lemma Positive(q: seq<nat>, n: nat)
    requires q != [] && InRange(q, n)
    ensures n > 0
  {
    assert q[0] < n;
  }

  /** A list of distinct numbers below n that misses one of them is shorter than n. */
  lemma Missing(q: seq<nat>, n: nat, x: nat)
    requires Distinct(q) && InRange(q, n) && x < n && x !in q
    ensures |q| < n
  {
    Pigeonhole(q + [x], n);
  }

  // ---------------------------------------------------------------- queueing by priority

  predicate InRange(q: seq<nat>, bound: nat) {
    forall i :: 0 <= i < |q| ==> q[i] < bound
  }

  /** Where _ipc_list_suspend puts t in priority mode: before the first less urgent thread. */
  function Place(q: seq<nat>, priority: seq<nat>, t: nat): (i: nat)
    requires t < |priority| && InRange(q, |priority|)
    ensures i <= |q| && (i < |q| ==> priority[t] < priority[q[i]])
    ensures forall k :: 0 <= k < i ==> priority[q[k]] <= priority[t]
  {
    if q == [] || priority[t] < priority[q[0]] then 0 else 1 + Place(q[1..], priority, t)
  }

  function Queued(q: seq<nat>, priority: seq<nat>, t: nat): seq<nat>
    requires t < |priority| && InRange(q, |priority|)
  {
    var i := Place(q, priority, t);
    q[..i] + [t] + q[i..]
  }

  /** Most urgent first; a smaller number is more urgent. */
  predicate Sorted(q: seq<nat>, priority: seq<nat>)
    requires InRange(q, |priority|)
  {
    forall i, j :: 0 <= i < j < |q| ==> priority[q[i]] <= priority[q[j]]
  }

  /** Queueing keeps the list sorted, and a newcomer goes behind everybody as urgent as itself. */
  lemma QueuedSorted(q: seq<nat>, priority: seq<nat>, t: nat)
    requires t < |priority| && InRange(q, |priority|) && Sorted(q, priority)
    ensures var r := Queued(q, priority, t);
            InRange(r, |priority|) && Sorted(r, priority)
            && r == q[..Place(q, priority, t)] + [t] + q[Place(q, priority, t)..]
            && (forall k :: 0 <= k < |q| ==> (priority[q[k]] <= priority[t] <==> k < Place(q, priority, t)))
  {
    var i := Place(q, priority, t);
    assert Queued(q, priority, t) == q[..i] + [t] + q[i..];
    hide Queued, Place;
    assert forall k :: i <= k < |q| ==> priority[q[i]] <= priority[q[k]];
    SplicedSorted(q, priority, t, i);
  }

  lemma SplicedSorted(q: seq<nat>, priority: seq<nat>, t: nat, i: nat)
    requires t < |priority| && InRange(q, |priority|) && Sorted(q, priority) && i <= |q|
    requires forall k :: 0 <= k < i ==> priority[q[k]] <= priority[t]
    requires forall k :: i <= k < |q| ==> priority[t] <= priority[q[k]]
    ensures var r := q[..i] + [t] + q[i..]; InRange(r, |priority|) && Sorted(r, priority)
  {
    var r := q[..i] + [t] + q[i..];
    assert forall k :: 0 <= k < |r| ==> r[k] == if k < i then q[k] else if k == i then t else q[k - 1];
  }

  /** Only the priorities of the threads on the list matter for its order. */
  lemma SortedSame(q: seq<nat>, priority: seq<nat>, priority2: seq<nat>)
    requires InRange(q, |priority|) && |priority2| == |priority| && Sorted(q, priority)
    requires forall i :: 0 <= i < |q| ==> priority2[q[i]] == priority[q[i]]
    ensures Sorted(q, priority2)
  {
  }

  lemma WithoutFits(q: seq<nat>, i: nat, priority: seq<nat>)
    requires i < |q| && InRange(q, |priority|) && Distinct(q) && Sorted(q, priority)
    ensures var r := Without(q, i);
            InRange(r, |priority|) && Distinct(r) && Sorted(r, priority) && q[i] !in r
            && forall k :: 0 <= k < |r| ==> r[k] in q
  {
    var r := Without(q, i);
    assert forall k :: 0 <= k < |r| ==> r[k] == q[if k < i then k else k + 1];
  }

  /** Taking the first thread off leaves a list of threads no more urgent than it. */
  lemma TailFits(q: seq<nat>, priority: seq<nat>)
    requires q != [] && InRange(q, |priority|) && Distinct(q) && Sorted(q, priority)
    ensures InRange(q[1..], |priority|) && Distinct(q[1..]) && Sorted(q[1..], priority) && q[0] !in q[1..]
    ensures forall i :: 0 <= i < |q| - 1 ==> priority[q[0]] <= priority[q[1..][i]]
  {
    assert Without(q, 0) == q[1..];
    WithoutFits(q, 0, priority);
  }

  lemma QueuedFits(q: seq<nat>, priority: seq<nat>, t: nat)
    requires t < |priority| && InRange(q, |priority|) && Distinct(q) && Sorted(q, priority) && t !in q
    ensures var r := Queued(q, priority, t);
            InRange(r, |priority|) && Distinct(r) && Sorted(r, priority) && t in r
            && forall k :: 0 <= k < |r| ==> r[k] == t || r[k] in q
  {
    QueuedSorted(q, priority, t);
    SpliceDistinct(q, Place(q, priority, t), t);
    assert Queued(q, priority, t)[Place(q, priority, t)] == t;
  }

  lemma QueuedInRange(q: seq<nat>, priority: seq<nat>, t: nat)
    requires t < |priority| && InRange(q, |priority|)
    ensures InRange(Queued(q, priority, t), |priority|)
  {
  }

  lemma WithoutInRange(q: seq<nat>, i: nat, bound: nat)
    requires i < |q| && InRange(q, bound)
    ensures InRange(Without(q, i), bound)
  {
  }

  lemma InsertedIs(list: nat, q: seq<nat>, t: nat, at: nat)
    requires at <= |q|
    ensures InsertedBefore([list] + q, if at == |q| then 0 else at + 1, t) == [list] + (q[..at] + [t] + q[at..])
  {
  }

  // ---------------------------------------------------------------- the rings in place

  class Links {
    const next: array<nat>
    const prev: array<nat>

    ghost predicate Ring(ring: seq<nat>)
      reads next, prev
    {
      Linked(next[..], prev[..], ring)
    }

    /** Nodes off the ring keep their links. */
    twostate predicate OthersKept(ring: seq<nat>)
      requires next.Length == prev.Length
      reads next, prev
    {
      forall k :: 0 <= k < next.Length && k !in ring ==> next[k] == old(next[k]) && prev[k] == old(prev[k])
    }

    constructor (size: nat)
      ensures fresh(next) && fresh(prev) && next != prev && next.Length == prev.Length == size
      ensures forall n :: 0 <= n < size ==> Ring([n])
    {
      var a := new nat[size](i => i);
      var b := new nat[size](i => i);
      next, prev := a, b;
    }

    /** rt_list_init */
    method Init(l: nat)
      requires l < next.Length == prev.Length && next != prev
      modifies next, prev
      ensures Ring([l]) && OthersKept([l])
    {
      prev[l] := l;
      next[l] := l;
    }

    method InsertAfter(l: nat, n: nat, ghost ring: seq<nat>, ghost i: nat)
      requires next != prev && next.Length == prev.Length
      requires Ring(ring) && i < |ring| && ring[i] == l && n < next.Length && n !in ring
      modifies next, prev
      ensures Ring(InsertedAfter(ring, i, n)) && OthersKept(ring + [n])
    {
      hide Linked;
      ghost var nx, pv := next[..], prev[..];
      Around(nx, pv, ring, i);
      prev[next[l]] := n;
      next[n] := next[l];
      next[l] := n;
      prev[n] := l;
      Splice(nx, pv, ring, i + 1, n, next[..], prev[..]);
    }

    method InsertBefore(l: nat, n: nat, ghost ring: seq<nat>, ghost i: nat)
      requires next != prev && next.Length == prev.Length
      requires Ring(ring) && i < |ring| && ring[i] == l && n < next.Length && n !in ring
      modifies next, prev
      ensures Ring(InsertedBefore(ring, i, n)) && OthersKept(ring + [n])
    {
      hide Linked, InsertedBefore, Distinct, InRange;
      ghost var nx, pv := next[..], prev[..];
      Around(nx, pv, ring, i);
      next[prev[l]] := n;
      prev[n] := prev[l];
      prev[l] := n;
      next[n] := l;
      SpliceBefore(nx, pv, ring, i, n, next[..], prev[..]);
    }

    /** rt_list_remove: the node ends up in a ring of its own, as it may have been before. */
    method Remove(n: nat, ghost ring: seq<nat>, ghost i: nat)
      requires next != prev && next.Length == prev.Length
      requires Ring(ring) && i < |ring| && ring[i] == n && (i == 0 ==> ring == [n])
      modifies next, prev
      ensures Ring([n]) && OthersKept(ring) && (i > 0 ==> Ring(Without(ring, i)))
    {
      ghost var nx, pv := next[..], prev[..];
      Detach(n, ring, i);
      if i > 0 {
        Bridge(nx, pv, ring, i, next[..], prev[..]);
      } else {
        Around(nx, pv, ring, 0);
        RingKept(nx, pv, ring, next[..], prev[..]);
      }
    }

    method Detach(n: nat, ghost ring: seq<nat>, ghost i: nat)
      requires next != prev && next.Length == prev.Length
      requires Ring(ring) && i < |ring| && ring[i] == n && (i == 0 ==> ring == [n])
      modifies next, prev
      ensures next[..] == old(next[..])[Pred(ring, i) := Succ(ring, i)][n := n]
      ensures prev[..] == old(prev[..])[Succ(ring, i) := Pred(ring, i)][n := n]
    {
      Around(next[..], prev[..], ring, i);
      hide Linked;
      prev[next[n]] := prev[n];
      next[prev[n]] := next[n];
      next[n] := n;
      prev[n] := n;
    }

    method IsEmpty(l: nat, ghost ring: seq<nat>) returns (empty: bool)
      requires Ring(ring) && ring[0] == l
      ensures empty <==> ring == [l]
    {
      Around(next[..], prev[..], ring, 0);
      empty := next[l] == l;
    }

    /** rt_list_len */
    method Len(l: nat, ghost ring: seq<nat>) returns (len: nat)
      requires Ring(ring) && ring[0] == l
      ensures len == |ring| - 1
    {
      len := 0;
      var p := l;
      Around(next[..], prev[..], ring, 0);
      while next[p] != l
        invariant len < |ring| && p == ring[len] && p < next.Length && next[p] == Succ(ring, len)
        decreases |ring| - len
      {
        p := next[p];
        len := len + 1;
        Around(next[..], prev[..], ring, len);
      }
    }

    /** The priority branch of _ipc_list_suspend: walk from the head to the first less urgent thread. */
    method QueueByPriority(list: nat, t: nat, priority: array<nat>, ghost q: seq<nat>)
      requires next != prev && next.Length == prev.Length && priority != next && priority != prev
      requires Ring([list] + q) && t < next.Length && t !in [list] + q
      requires t < priority.Length && InRange(q, priority.Length)
      modifies next, prev
      ensures Ring([list] + Queued(q, priority[..], t)) && OthersKept([list] + q + [t])
    {
      hide Linked, InsertedBefore;
      var n, at := FindPlace(list, t, priority, q);
      ghost var i := if at == |q| then 0 else at + 1;
      InsertBefore(n, t, [list] + q, i);
      InsertedIs(list, q, t, at);
    }

    /** The search of _ipc_list_suspend; the head stands for "nobody is less urgent". */
    method FindPlace(list: nat, t: nat, priority: array<nat>, ghost q: seq<nat>) returns (n: nat, ghost at: nat)
      requires Ring([list] + q) && t < priority.Length && InRange(q, priority.Length)
      ensures at == Place(q, priority[..], t) && n == if at < |q| then q[at] else list
    {
      ghost var ring := [list] + q;
      at := 0;
      Around(next[..], prev[..], ring, 0);
      assert Distinct(ring);
      hide Linked;
      n := next[list];
      while n != list
        invariant at <= |q| && n == (if at < |q| then q[at] else list)
        invariant forall x :: 0 <= x < at ==> priority[q[x]] <= priority[t]
        decreases |q| - at
      {
        assert ring[at + 1] == n;
        Around(next[..], prev[..], ring, at + 1);
        if priority[t] < priority[n] {
          break;
        }
        n := next[n];
        at := at + 1;
      }
      assert at < |q| ==> ring[at + 1] != ring[0];
      PlaceIs(q, priority[..], t, at);
    }
  }

  lemma {:induction false} PlaceIs(q: seq<nat>, priority: seq<nat>, t: nat, i: nat)
    requires t < |priority| && InRange(q, |priority|)
    requires i <= |q| && (i < |q| ==> priority[t] < priority[q[i]])
    requires forall k :: 0 <= k < i ==> priority[q[k]] <= priority[t]
    ensures Place(q, priority, t) == i
  {
    if i > 0 {
      assert priority[q[0]] <= priority[t];
      PlaceIs(q[1..], priority, t, i - 1);
    }
  }
}
