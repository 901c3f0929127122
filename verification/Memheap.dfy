/**
 The allocator of rt-thread/src/memheap.c: blocks on a doubly linked ring in address order, and
 the free ones also on a ring that starts at `free_header`.  Both rings are threaded through
 headers inside the pool; `free_header` sits right behind the pool in `ram`.
 Offsets and sizes are in words of RT_ALIGN_SIZE (4) bytes.
 */
module Memheap {
  import opened HeapBlocks

  const HDR: nat := 6   // RT_MEMHEAP_SIZE: magic, pool_ptr, next, prev, next_free, prev_free
  const MIN: nat := 3   // RT_MEMHEAP_MINIALLOC
  const MAGIC: int := 0x1ea01ea0
  const NEXT: nat := 2
  const PREV: nat := 3
  const NEXT_FREE: nat := 4
  const PREV_FREE: nat := 5
  const POOL: nat := 1       // pool_ptr
  const HEAP_PTR: int := -1  // stands for the address of the heap object
  const WORDS: int := 0x4000_0000      // words in the address space

  // ---------------------------------------------------------------- the block ring

  ghost predicate HeaderOf(s: seq<int>, b: Block, size: nat) {
    && b.start + HDR <= |s|
    && s[b.start] == (if b.used then MAGIC + 1 else MAGIC)
    && s[b.start + NEXT] == (if b.end == size then 0 else b.end)
  }

  ghost predicate PrevIs(s: seq<int>, b: Block, prev: nat) {
    b.start + HDR <= |s| && s[b.start + PREV] == prev
  }

  /** The zero-length used block at the end of the pool. */
  ghost function Tail(size: nat): Block
    requires size >= HDR
  {
    Block(size - HDR, size, true)
  }

  /** The headers link `bs` into a ring, forwards and backwards. */
  ghost predicate Chained(s: seq<int>, bs: seq<Block>, size: nat) {
    && |s| == size + HDR && |bs| > 1 && size >= HDR
    && bs[|bs| - 1] == Tail(size)
    && (forall i :: 0 <= i < |bs| ==> HeaderOf(s, bs[i], size))
    && PrevIs(s, bs[0], size - HDR)
    && (forall i, j :: 0 <= i && j == i + 1 && j < |bs| ==> PrevIs(s, bs[j], bs[i].start))
  }

  // ---------------------------------------------------------------- the free ring

  /** Node `x` is followed by `y` on the free ring. */
  ghost predicate Follows(s: seq<int>, x: nat, y: nat) {
    && x + HDR <= |s| && y + HDR <= |s|
    && s[x + NEXT_FREE] == y && s[y + PREV_FREE] == x
  }

  /** The free ring starts at `head` and visits `fl` in order. */
  ghost predicate Ringed(s: seq<int>, head: nat, fl: seq<nat>) {
    var r := [head] + fl;
    && (forall j, k :: 0 <= j && k == j + 1 && k < |r| ==> Follows(s, r[j], r[k]))
    && Follows(s, r[|r| - 1], head)
  }

  /** Nodes of the free ring are headers of free blocks, each listed once. */
  ghost predicate Lists(fl: seq<nat>, bs: seq<Block>) {
    && (forall j, k :: 0 <= j < k < |fl| ==> fl[j] != fl[k])
    && (forall x :: x in fl <==> x in FreeStarts(bs))
  }

  /** Headers of ring nodes do not overlap. */
  ghost predicate Spaced(r: seq<nat>) {
    forall j, k :: 0 <= j < k < |r| ==> r[j] + HDR <= r[k] || r[k] + HDR <= r[j]
  }

  ghost function After(head: nat, fl: seq<nat>, k: nat): nat {
    if k < |fl| then fl[k] else head
  }

  /** `t` is `s` with node `x` bypassed between `p` and `n`; the links of `x` itself may be anything. */
  ghost predicate Bypassed(s: seq<int>, t: seq<int>, p: nat, x: nat, n: nat) {
    && |t| == |s| && p + HDR <= |s| && x + HDR <= |s| && n + HDR <= |s|
    && t[p + NEXT_FREE] == n && t[n + PREV_FREE] == p
    && forall o :: 0 <= o < |s| && o != p + NEXT_FREE && o != n + PREV_FREE && o != x + NEXT_FREE && o != x + PREV_FREE
         ==> t[o] == s[o]
  }

  lemma RingRemove(s: seq<int>, t: seq<int>, head: nat, fl: seq<nat>, k: nat)
    requires Ringed(s, head, fl) && Spaced([head] + fl) && k < |fl|
    requires Bypassed(s, t, ([head] + fl)[k], fl[k], After(head, fl, k + 1))
    ensures Ringed(t, head, fl[..k] + fl[k + 1..])
  {
    hide Spaced, Bypassed;
    var r, q := [head] + fl, [head] + (fl[..k] + fl[k + 1..]);
    BypassLink(s, t, r[k], fl[k], After(head, fl, k + 1));
    var m := if k + 2 < |r| then k + 2 else 0;
    assert r[k + 1] == fl[k] && r[m] == After(head, fl, k + 1);
    assert forall j :: 0 <= j <= k ==> q[j] == r[j];
    assert forall j :: k < j < |q| ==> q[j] == r[j + 1];
    forall i, j | 0 <= i && j == i + 1 && j < |q|
      ensures Follows(t, q[i], q[j])
    {
      if j <= k {
        LinkKept(s, t, r, k, m, i, j);
      } else if i > k {
        LinkKept(s, t, r, k, m, i + 1, j + 1);
      }
    }
    if m != 0 {
      LinkKept(s, t, r, k, m, |r| - 1, 0);
    }
  }

  lemma BypassLink(s: seq<int>, t: seq<int>, p: nat, x: nat, n: nat)
    requires Bypassed(s, t, p, x, n)
    ensures Follows(t, p, n)
  {
  }

  /** A link between two nodes other than the bypassed one and its outer neighbours' facing links survives. */
  lemma LinkKept(s: seq<int>, t: seq<int>, r: seq<nat>, k: nat, m: nat, i: nat, j: nat)
    requires Spaced(r) && k + 1 < |r| && m < |r| && i < |r| && j < |r|
    requires Follows(s, r[i], r[j]) && Bypassed(s, t, r[k], r[k + 1], r[m])
    requires i != k && i != k + 1 && j != m && j != k + 1
    ensures Follows(t, r[i], r[j])
  {
  }

  /** `t` is `s` with node `x` linked in between the head and what followed it. */
  ghost predicate Inserted(s: seq<int>, t: seq<int>, head: nat, x: nat, n: nat) {
    && |t| == |s| && head + HDR <= |s| && x + HDR <= |s| && n + HDR <= |s|
    && Follows(t, head, x) && Follows(t, x, n)
    && forall o :: 0 <= o < |s| && o != head + NEXT_FREE && o != n + PREV_FREE && o != x + NEXT_FREE && o != x + PREV_FREE
         ==> t[o] == s[o]
  }

  lemma RingInsert(s: seq<int>, t: seq<int>, head: nat, fl: seq<nat>, x: nat)
    requires Ringed(s, head, fl) && Spaced([head] + ([x] + fl))
    requires Inserted(s, t, head, x, After(head, fl, 0))
    ensures Ringed(t, head, [x] + fl)
  {
    var r, q := [head] + fl, [head] + ([x] + fl);
    var m := if |fl| > 0 then 2 else 0;
    assert q[0] == head && q[1] == x && q[m] == After(head, fl, 0);
    assert forall j :: 1 < j < |q| ==> q[j] == r[j - 1];
    forall i, j | 0 <= i && j == i + 1 && j < |q|
      ensures Follows(t, q[i], q[j])
    {
      if i > 1 {
        assert Follows(s, r[i - 1], r[j - 1]);
        OuterLinkKept(s, t, q, m, i, j);
      }
    }
    if m == 2 {
      assert Follows(s, r[|r| - 1], head);
      OuterLinkKept(s, t, q, m, |q| - 1, 0);
    }
  }

  lemma OuterLinkKept(s: seq<int>, t: seq<int>, q: seq<nat>, m: nat, i: nat, j: nat)
    requires Spaced(q) && 1 < |q| && m < |q| && 1 < i < |q| && j < |q| && j != m && j != 1
    requires Follows(s, q[i], q[j]) && Inserted(s, t, q[0], q[1], q[m])
    ensures Follows(t, q[i], q[j])
  {
  }

  ghost predicate SameLinks(s: seq<int>, t: seq<int>, x: nat) {
    x + HDR <= |s| == |t| && t[x + NEXT_FREE] == s[x + NEXT_FREE] && t[x + PREV_FREE] == s[x + PREV_FREE]
  }

  /** Stores that keep away from the ring links leave the ring alone. */
  lemma RingFrame(s: seq<int>, t: seq<int>, head: nat, fl: seq<nat>)
    requires Ringed(s, head, fl)
    requires SameLinks(s, t, head) && forall x :: x in fl ==> SameLinks(s, t, x)
    ensures Ringed(t, head, fl)
  {
    var r := [head] + fl;
    assert forall i :: 0 <= i < |r| ==> r[i] == head || r[i] in fl;
    forall i, j | 0 <= i && j == i + 1 && j < |r|
      ensures Follows(t, r[i], r[j])
    {
      assert Follows(s, r[i], r[j]);
    }
  }

  /** Stores to ring links only leave the block ring alone. */
  lemma ChainFrame(s: seq<int>, t: seq<int>, bs: seq<Block>, size: nat)
    requires Chained(s, bs, size) && |t| == |s|
    requires forall i :: 0 <= i < |bs| ==>
               bs[i].start + HDR <= |s| && t[bs[i].start] == s[bs[i].start]
               && t[bs[i].start + NEXT] == s[bs[i].start + NEXT] && t[bs[i].start + PREV] == s[bs[i].start + PREV]
    ensures Chained(t, bs, size)
  {
    forall i, j | 0 <= i && j == i + 1 && j < |bs|
      ensures PrevIs(t, bs[j], bs[i].start)
    {
      assert PrevIs(s, bs[j], bs[i].start);
    }
    assert HeaderOf(s, bs[0], size);
    forall i | 0 <= i < |bs|
      ensures HeaderOf(t, bs[i], size)
    {
      assert HeaderOf(s, bs[i], size);
    }
  }

  // ---------------------------------------------------------------- stores on the block ring

  /** The pool `s` holds the block ring of `bs` and the free ring `fl`. */
  ghost predicate RingsIn(s: seq<int>, size: nat, bs: seq<Block>, fl: seq<nat>) {
    && |s| == size + HDR
    && Tiled(bs, HDR, 0, size)
    && Chained(s, bs, size)
    && OnFree(fl, bs)
    && Ringed(s, size, fl)
  }

  /** No two rings whatever are spelled out by the pool `s`. */
  ghost predicate NoRings(s: seq<int>, size: nat) {
    forall bs, fl :: !RingsIn(s, size, bs, fl)
  }

  lemma HeadersInside(s: seq<int>, bs: seq<Block>, size: nat, i: nat)
    requires Chained(s, bs, size) && Tiled(bs, HDR, 0, size) && i < |bs|
    ensures size >= 2 * HDR && |s| == size + HDR
    ensures HeaderOf(s, bs[i], size) && bs[i].start + HDR <= bs[i].end <= size
    ensures i + 1 < |bs| ==> bs[i + 1].start == bs[i].end <= size - HDR && HeaderOf(s, bs[i + 1], size)
    ensures i + 1 == |bs| <==> bs[i].end == size
    ensures i + 1 == |bs| ==> bs[i] == Tail(size)
    ensures PrevIs(s, bs[i], if i == 0 then size - HDR else bs[i - 1].start)
    ensures HeaderOf(s, bs[|bs| - 1], size) && bs[|bs| - 1] == Tail(size)
    ensures i > 0 ==> HeaderOf(s, bs[i - 1], size)
  {
    AllOrdered(bs, HDR, 0, size);
  }

  lemma MarkChained(s: seq<int>, t: seq<int>, bs: seq<Block>, size: nat, i: nat, used: bool)
    requires Chained(s, bs, size) && Tiled(bs, HDR, 0, size) && i + 1 < |bs|
    requires t == s[bs[i].start := if used then MAGIC + 1 else MAGIC]
    ensures Chained(t, bs[i := bs[i].(used := used)], size)
  {
    AllOrdered(bs, HDR, 0, size);
    var r := bs[i := bs[i].(used := used)];
    forall j | 0 <= j < |r|
      ensures HeaderOf(t, r[j], size)
    {
      assert HeaderOf(s, bs[j], size);
    }
    forall j, k | 0 <= j && k == j + 1 && k < |r|
      ensures PrevIs(t, r[k], r[j].start)
    {
      assert PrevIs(s, bs[k], bs[j].start);
    }
  }

  /** `t` is `s` with a free block built `w` words into the payload of `b`. */
  ghost predicate CutStored(s: seq<int>, t: seq<int>, b: Block, size: nat, w: nat) {
    var q := b.start + HDR + w;
    && |t| == |s| == size + HDR && q + HDR <= b.end && b.end + HDR <= size
    && t[b.start] == MAGIC + 1
    && t[b.start + NEXT] == q
    && HeaderOf(t, Block(q, b.end, false), size)
    && PrevIs(t, Block(q, b.end, false), b.start)
    && t[b.end + PREV] == q
    && forall o :: 0 <= o < |s| && o != b.start && o != b.start + NEXT && !(q <= o < q + HDR) && o != b.end + PREV ==> t[o] == s[o]
  }

  lemma CutChained(s: seq<int>, t: seq<int>, bs: seq<Block>, size: nat, i: nat, w: nat)
    requires Chained(s, bs, size) && Tiled(bs, HDR, 0, size) && i + 1 < |bs|
    requires CutStored(s, t, bs[i], size, w)
    ensures Chained(t, Cut(bs, HDR, i, w), size)
  {
    var c := Cut(bs, HDR, i, w);
    AllOrdered(bs, HDR, 0, size);
    forall j | 0 <= j < |c|
      ensures HeaderOf(t, c[j], size)
    {
      if j < i {
        assert c[j] == bs[j] && HeaderOf(s, bs[j], size) && bs[j].end <= bs[i].start;
      } else if j > i + 1 {
        assert c[j] == bs[j - 1] && HeaderOf(s, bs[j - 1], size);
        assert bs[i].end == bs[i + 1].start && (j == i + 2 || bs[i + 1].end <= bs[j - 1].start);
      }
    }
    CutPrevs(s, t, bs, size, i, w);
  }

  lemma CutPrevs(s: seq<int>, t: seq<int>, bs: seq<Block>, size: nat, i: nat, w: nat)
    requires Chained(s, bs, size) && Tiled(bs, HDR, 0, size) && i + 1 < |bs|
    requires CutStored(s, t, bs[i], size, w)
    ensures var c := Cut(bs, HDR, i, w);
            && PrevIs(t, c[0], size - HDR)
            && forall j, k :: 0 <= j && k == j + 1 && k < |c| ==> PrevIs(t, c[k], c[j].start)
  {
    var c := Cut(bs, HDR, i, w);
    AllOrdered(bs, HDR, 0, size);
    forall j, k | 0 <= j && k == j + 1 && k < |c|
      ensures PrevIs(t, c[k], c[j].start)
    {
      if k <= i {
        assert PrevIs(s, bs[k], bs[j].start);
      } else if j > i + 1 {
        assert PrevIs(s, bs[k - 1], bs[j - 1].start) && bs[i].end <= bs[j - 1].start;
      }
    }
  }

  /** The list in which block `i` has swallowed its successor and kept its own mark. */
  ghost function Absorb(bs: seq<Block>, i: nat): seq<Block>
    requires i + 1 < |bs|
  {
    bs[..i] + [Block(bs[i].start, bs[i + 1].end, bs[i].used)] + bs[i + 2..]
  }

  /** `t` is `s` with the header of `b` taken out of the block ring behind `a`. */
  ghost predicate FuseStored(s: seq<int>, t: seq<int>, a: Block, b: Block, size: nat) {
    && |t| == |s| == size + HDR
    && a.start + HDR <= a.end == b.start && b.start + HDR <= b.end && b.end + HDR <= size
    && t[a.start + NEXT] == b.end && t[b.end + PREV] == a.start
    && forall o :: 0 <= o < |s| && o != a.start + NEXT && o != b.end + PREV ==> t[o] == s[o]
  }

  lemma FuseChained(s: seq<int>, t: seq<int>, bs: seq<Block>, size: nat, i: nat)
    requires Chained(s, bs, size) && Tiled(bs, HDR, 0, size) && i + 2 < |bs|
    requires FuseStored(s, t, bs[i], bs[i + 1], size)
    ensures Chained(t, Absorb(bs, i), size)
  {
    var c := Absorb(bs, i);
    AllOrdered(bs, HDR, 0, size);
    forall j | 0 <= j < |c|
      ensures HeaderOf(t, c[j], size)
    {
      if j <= i {
        assert HeaderOf(s, bs[j], size);
      } else {
        assert c[j] == bs[j + 1] && HeaderOf(s, bs[j + 1], size);
      }
    }
    FusePrevs(s, t, bs, size, i);
  }

  lemma FusePrevs(s: seq<int>, t: seq<int>, bs: seq<Block>, size: nat, i: nat)
    requires Chained(s, bs, size) && Tiled(bs, HDR, 0, size) && i + 2 < |bs|
    requires FuseStored(s, t, bs[i], bs[i + 1], size)
    ensures var c := Absorb(bs, i);
            && PrevIs(t, c[0], size - HDR)
            && forall j, k :: 0 <= j && k == j + 1 && k < |c| ==> PrevIs(t, c[k], c[j].start)
  {
    var c := Absorb(bs, i);
    AllOrdered(bs, HDR, 0, size);
    forall j, k | 0 <= j && k == j + 1 && k < |c|
      ensures PrevIs(t, c[k], c[j].start)
    {
      if k <= i {
        assert PrevIs(s, bs[k], bs[j].start);
      } else if j > i {
        assert PrevIs(s, bs[k + 1], bs[j + 1].start);
      }
    }
  }

  // ---------------------------------------------------------------- how the two rings stay out of each other's way

  /** The nodes `fl` are headers of free blocks of `bs`, each once. */
  ghost predicate OnFree(fl: seq<nat>, bs: seq<Block>) {
    && (forall j, k :: 0 <= j < k < |fl| ==> fl[j] != fl[k])
    && (forall x :: x in fl ==> x in FreeStarts(bs))
  }

  lemma NodesSpaced(bs: seq<Block>, size: nat, fl: seq<nat>)
    requires Tiled(bs, HDR, 0, size) && OnFree(fl, bs)
    ensures Spaced([size] + fl)
  {
    AllOrdered(bs, HDR, 0, size);
    forall j, k | 0 <= j < k < |[size] + fl|
      ensures var r := [size] + fl; r[j] + HDR <= r[k] || r[k] + HDR <= r[j]
    {
      assert fl[k - 1] in fl && (j > 0 ==> fl[j - 1] in fl);
    }
  }

  /** A free node is some block's header and keeps clear of the header of every other block. */
  lemma NodeClear(bs: seq<Block>, size: nat, x: nat)
    requires Tiled(bs, HDR, 0, size) && x in FreeStarts(bs)
    ensures forall i :: 0 <= i < |bs| ==> x == bs[i].start || x + HDR <= bs[i].start || bs[i].end <= x
    ensures x + HDR <= size
  {
    AllOrdered(bs, HDR, 0, size);
  }

  ghost predicate Node(x: nat, bs: seq<Block>, size: nat) {
    x == size || x in FreeStarts(bs)
  }

  /** Stores to the links of free-ring nodes leave every block header's ring and mark alone. */
  lemma ChainLinkStores(s: seq<int>, t: seq<int>, bs: seq<Block>, size: nat, p: nat, x: nat, n: nat)
    requires Chained(s, bs, size) && Tiled(bs, HDR, 0, size) && |t| == |s|
    requires Node(p, bs, size) && Node(x, bs, size) && Node(n, bs, size)
    requires forall o :: 0 <= o < |s| && o != p + NEXT_FREE && o != n + PREV_FREE && o != x + NEXT_FREE && o != x + PREV_FREE
               ==> t[o] == s[o]
    ensures Chained(t, bs, size) && SamePayloads(HDR, s, t, All(bs))
  {
    hide Chained, SamePayloads, All;
    LinkPayloads(s, t, bs, size, p, x, n);
    forall i | 0 <= i < |bs|
      ensures bs[i].start + HDR <= |s| && t[bs[i].start] == s[bs[i].start]
      ensures t[bs[i].start + NEXT] == s[bs[i].start + NEXT] && t[bs[i].start + PREV] == s[bs[i].start + PREV]
    {
      HeadersInside(s, bs, size, i);
      NodeApart(bs, size, p, i);
      NodeApart(bs, size, x, i);
      NodeApart(bs, size, n, i);
    }
    ChainFrame(s, t, bs, size);
  }

  // ---------------------------------------------------------------- stores to headers spare the payloads

  ghost function All(bs: seq<Block>): set<Block> {
    set b | b in bs
  }

  lemma LiveListed(bs: seq<Block>)
    ensures Live(bs) <= All(bs)
  {
  }

  /** A header begins at `x`: a block's, or free_header. */
  ghost predicate Begins(x: nat, bs: seq<Block>, size: nat) {
    x == size || exists i :: 0 <= i < |bs| && bs[i].start == x
  }

  lemma BeginsApart(bs: seq<Block>, size: nat, x: nat, b: Block)
    requires Tiled(bs, HDR, 0, size) && Begins(x, bs, size) && b in bs
    ensures x == b.start || x + HDR <= b.start || b.end <= x
  {
    AllOrdered(bs, HDR, 0, size);
  }

  lemma HeaderStores(s: seq<int>, t: seq<int>, bs: seq<Block>, size: nat, p: nat, x: nat, n: nat)
    requires Tiled(bs, HDR, 0, size) && |t| == |s|
    requires Begins(p, bs, size) && Begins(x, bs, size) && Begins(n, bs, size)
    requires forall o :: 0 <= o < |s| && !(p <= o < p + HDR) && !(x <= o < x + HDR) && !(n <= o < n + HDR) ==> t[o] == s[o]
    ensures SamePayloads(HDR, s, t, All(bs))
  {
    hide Tiled, Begins;
    forall b, k | b in All(bs) && b.start + HDR <= k < b.end && k < |s|
      ensures s[k] == t[k]
    {
      BeginsApart(bs, size, p, b);
      BeginsApart(bs, size, x, b);
      BeginsApart(bs, size, n, b);
    }
  }

  lemma SameTwice(s: seq<int>, t: seq<int>, u: seq<int>, v: seq<int>, live: set<Block>, more: set<Block>)
    requires SamePayloads(HDR, s, t, live) && SamePayloads(HDR, t, u, more) && SamePayloads(HDR, u, v, more) && live <= more
    ensures SamePayloads(HDR, s, v, live)
  {
    SameTrans(HDR, s, t, u, live, more, live);
    SameTrans(HDR, s, u, v, live, more, live);
  }

  lemma NodeBegins(bs: seq<Block>, size: nat, x: nat)
    requires Node(x, bs, size)
    ensures Begins(x, bs, size)
  {
  }

  lemma StartBegins(bs: seq<Block>, size: nat, i: nat)
    requires i < |bs|
    ensures Begins(bs[i].start, bs, size)
  {
  }

  lemma LinkPayloads(s: seq<int>, t: seq<int>, bs: seq<Block>, size: nat, p: nat, x: nat, n: nat)
    requires Tiled(bs, HDR, 0, size) && |t| == |s|
    requires Node(p, bs, size) && Node(x, bs, size) && Node(n, bs, size)
    requires forall o :: 0 <= o < |s| && o != p + NEXT_FREE && o != n + PREV_FREE && o != x + NEXT_FREE && o != x + PREV_FREE
               ==> t[o] == s[o]
    ensures SamePayloads(HDR, s, t, All(bs))
  {
    hide Tiled, Node, Begins, SamePayloads;
    NodeBegins(bs, size, p);
    NodeBegins(bs, size, x);
    NodeBegins(bs, size, n);
    HeaderStores(s, t, bs, size, p, x, n);
  }

  lemma CutPayloads(s: seq<int>, t: seq<int>, bs: seq<Block>, size: nat, i: nat, w: nat)
    requires Tiled(bs, HDR, 0, size) && i + 1 < |bs| && CutStored(s, t, bs[i], size, w)
    ensures SamePayloads(HDR, s, t, All(Cut(bs, HDR, i, w)))
  {
    var c := Cut(bs, HDR, i, w);
    WfCut(bs, HDR, 0, size, i, w);
    assert c[i + 2] == bs[i + 1] && bs[i].end == bs[i + 1].start;
    hide Tiled, Begins, SamePayloads;
    StartBegins(c, size, i);
    StartBegins(c, size, i + 1);
    StartBegins(c, size, i + 2);
    HeaderStores(s, t, c, size, bs[i].start, bs[i].start + HDR + w, bs[i].end);
  }

  lemma FusePayloads(s: seq<int>, t: seq<int>, bs: seq<Block>, size: nat, i: nat)
    requires Tiled(bs, HDR, 0, size) && i + 2 < |bs| && FuseStored(s, t, bs[i], bs[i + 1], size)
    ensures SamePayloads(HDR, s, t, All(bs))
  {
    assert bs[i + 1].end == bs[i + 2].start;
    hide Tiled, Begins, SamePayloads;
    StartBegins(bs, size, i);
    StartBegins(bs, size, i + 2);
    HeaderStores(s, t, bs, size, bs[i].start, bs[i].start, bs[i + 1].end);
  }

  lemma NodeApart(bs: seq<Block>, size: nat, x: nat, i: nat)
    requires Tiled(bs, HDR, 0, size) && Node(x, bs, size) && i < |bs|
    ensures x == bs[i].start || x + HDR <= bs[i].start || bs[i].start + HDR <= bs[i].end <= x
  {
    AllOrdered(bs, HDR, 0, size);
    if x != size {
      NodeClear(bs, size, x);
    }
  }

  /** Building or removing a block header, or marking a block, leaves the free ring alone. */
  lemma RingHeaderStores(s: seq<int>, t: seq<int>, bs: seq<Block>, size: nat, fl: seq<nat>, i: nat, lo: nat, hi: nat)
    requires Tiled(bs, HDR, 0, size) && OnFree(fl, bs) && Ringed(s, size, fl) && |t| == |s| == size + HDR
    requires i < |bs| && bs[i].start + HDR <= lo <= hi <= bs[i].end && bs[i].end + HDR <= size
    requires forall x :: x in fl ==> x <= bs[i].start || bs[i].end <= x
    requires forall o :: 0 <= o < |s| && o != bs[i].start && o != bs[i].start + NEXT && !(lo <= o < hi) && o != bs[i].end + PREV
               ==> t[o] == s[o]
    ensures Ringed(t, size, fl)
  {
    hide Ringed;
    forall x | x in fl
      ensures SameLinks(s, t, x)
    {
      NodeApart(bs, size, x, i);
      NodeClear(bs, size, x);
      NodeAtEnd(bs, size, x, i);
    }
    RingFrame(s, t, size, fl);
  }

  /** A free node at or above the end of block `i` is the next header or lies beyond it. */
  lemma NodeAtEnd(bs: seq<Block>, size: nat, x: nat, i: nat)
    requires Tiled(bs, HDR, 0, size) && x in FreeStarts(bs) && i < |bs|
    ensures x < bs[i].end || x == bs[i].end || bs[i].end + HDR <= x
  {
    AllOrdered(bs, HDR, 0, size);
    var b :| b in bs && !b.used && b.start == x;
    var j :| 0 <= j < |bs| && bs[j] == b;
    if j > i + 1 {
      assert bs[i].end == bs[i + 1].start && bs[i + 1].end <= bs[j].start;
    }
  }

  // ---------------------------------------------------------------- building and listing a header

  /** Every live block but the tail has room for the smallest payload. */
  ghost predicate Roomy(live: set<Block>, size: nat) {
    forall b :: b in live && b.end != size ==> Capacity(b, HDR) >= MIN
  }

  /** `t` is `s` with a free block's header built at `q` and linked in between those at `x` and `end`. */
  ghost predicate Built(s: seq<int>, t: seq<int>, x: nat, q: nat, end: nat) {
    && |t| == |s| && x + NEXT < q && q + HDR <= end && end + HDR <= |s|
    && t[q] == MAGIC && t[q + POOL] == HEAP_PTR && t[q + NEXT] == end && t[q + PREV] == x
    && t[x + NEXT] == q && t[end + PREV] == q
    && forall o :: 0 <= o < |s| && !(q <= o < q + NEXT_FREE) && o != x + NEXT && o != end + PREV ==> t[o] == s[o]
  }

  lemma BuiltRings(s: seq<int>, t: seq<int>, bs: seq<Block>, size: nat, fl: seq<nat>, i: nat, q: nat)
    requires RingsIn(s, size, bs, fl) && i + 1 < |bs| && bs[i].used
    requires bs[i].start + HDR <= q && Built(s, t, bs[i].start, q, bs[i].end)
    ensures var c := Cut(bs, HDR, i, q - bs[i].start - HDR);
            RingsIn(t, size, c, fl) && SamePayloads(HDR, s, t, All(c))
  {
    hide Chained, Tiled, OnFree, Ringed, Cut, SamePayloads, All;
    HeadersInside(s, bs, size, i);
    CutRings(s, t, bs, size, fl, i, q - bs[i].start - HDR);
    CutPayloads(s, t, bs, size, i, q - bs[i].start - HDR);
  }

  lemma HungRings(s: seq<int>, t: seq<int>, bs: seq<Block>, size: nat, fl: seq<nat>, x: nat)
    requires RingsIn(s, size, bs, fl) && OnFree([x] + fl, bs) && Inserted(s, t, size, x, After(size, fl, 0))
    ensures RingsIn(t, size, bs, [x] + fl) && SamePayloads(HDR, s, t, All(bs))
  {
    hide Chained, Tiled, OnFree, Ringed, SamePayloads, All;
    HeadNeighbour(s, bs, size, fl, x);
    NodesSpaced(bs, size, [x] + fl);
    RingInsert(s, t, size, fl, x);
    ChainLinkStores(s, t, bs, size, size, x, After(size, fl, 0));
  }

  /** The first node of the free ring keeps clear of anything inside a used block. */
  lemma HeadApart(s: seq<int>, bs: seq<Block>, size: nat, fl: seq<nat>, i: nat, q: nat)
    requires RingsIn(s, size, bs, fl) && i + 1 < |bs| && bs[i].used
    requires bs[i].start <= q && q + HDR <= bs[i].end
    ensures var n := After(size, fl, 0);
            n <= size && Follows(s, size, n) && (n + HDR <= q || q + HDR <= n) && q + HDR <= bs[i].end <= size - HDR
            && (n + HDR <= bs[i].start || bs[i].end <= n) && Node(n, bs, size)
  {
    hide Chained, Tiled, OnFree;
    HeadersInside(s, bs, size, i);
    if |fl| > 0 {
      assert ([size] + fl)[1] == fl[0] && fl[0] in fl;
      assert Follows(s, ([size] + fl)[0], ([size] + fl)[1]);
      ListedOutside(bs, size, fl, i, fl[0]);
    }
  }

  lemma ListedOutside(bs: seq<Block>, size: nat, fl: seq<nat>, i: nat, x: nat)
    requires Tiled(bs, HDR, 0, size) && OnFree(fl, bs) && i < |bs| && bs[i].used && x in fl
    ensures x in FreeStarts(bs) && x + HDR <= size && (x + HDR <= bs[i].start || bs[i].end <= x)
  {
    NodeClear(bs, size, x);
    FreeNodesOutside(bs, size, fl, i);
    UsedNotListed(bs, size, fl, i);
  }

  /** Building a header leaves the first link of the free ring alone. */
  lemma BuiltHead(s: seq<int>, t: seq<int>, b: Block, size: nat, q: nat, fl: seq<nat>)
    requires Built(s, t, b.start, q, b.end) && b.end + HDR <= size && |s| == size + HDR
    ensures t[size + NEXT_FREE] == s[size + NEXT_FREE]
  {
  }

  // ---------------------------------------------------------------- a header built inside a header

  /**
   `t` is `s` after a free block was built and listed at `q`, where `q` lies in the header of the
   used block `b` that it was split from; `f` was the first node of the free ring.
   */
  ghost predicate Spoiled(s: seq<int>, t: seq<int>, b: Block, size: nat, q: nat, f: nat) {
    && |t| == |s| == size + HDR && b.start + NEXT < q && q + HDR <= b.end && b.end + HDR <= size && f <= size
    && t[q..q + HDR] == [MAGIC, HEAP_PTR, b.end, b.start, f, size]
    && t[b.start + NEXT] == q && t[size + NEXT_FREE] == q
    && forall o :: 0 <= o < |s| && !(q <= o < q + HDR)
                   && o != b.start + NEXT && o != b.end + PREV && o != f + PREV_FREE && o != size + NEXT_FREE
         ==> t[o] == s[o]
  }

  lemma SpoiledIs(s: seq<int>, t: seq<int>, u: seq<int>, b: Block, size: nat, q: nat, f: nat)
    requires |s| == size + HDR && b.end + HDR <= size && f <= size
    requires Built(s, t, b.start, q, b.end) && Inserted(t, u, size, q, f)
    requires f + HDR <= b.start || b.end <= f
    ensures Spoiled(s, u, b, size, q, f)
  {
  }

  ghost predicate SameNext(s: seq<int>, t: seq<int>, b: Block) {
    b.start + NEXT < |s| == |t| && t[b.start + NEXT] == s[b.start + NEXT]
  }

  /** A walk along the block ring of `t` from the start of the pool goes the way it went in `s`. */
  lemma {:induction false} SameWalk(s: seq<int>, t: seq<int>, bs: seq<Block>, cs: seq<Block>, size: nat, i: nat, j: nat)
    requires Tiled(bs, HDR, 0, size) && Chained(s, bs, size) && Tiled(cs, HDR, 0, size) && Chained(t, cs, size)
    requires i + 1 < |bs| && j <= i
    requires forall k :: 0 <= k < i ==> SameNext(s, t, bs[k])
    ensures j < |cs| && cs[j].start == bs[j].start
  {
    hide Tiled, Chained;
    if j == 0 {
      FirstStarts(bs, size);
      FirstStarts(cs, size);
    } else {
      SameWalk(s, t, bs, cs, size, i, j - 1);
      HeadersInside(s, bs, size, j - 1);
      HeadersInside(t, cs, size, j - 1);
    }
  }

  lemma FirstStarts(bs: seq<Block>, size: nat)
    requires Tiled(bs, HDR, 0, size)
    ensures |bs| > 0 && bs[0].start == 0
  {
  }

  /** A block ring cannot lead from a block to a place inside its own header. */
  lemma SpoiledBreaks(s: seq<int>, t: seq<int>, bs: seq<Block>, fl: seq<nat>, size: nat, i: nat, q: nat, f: nat)
    requires RingsIn(s, size, bs, fl) && i + 1 < |bs| && bs[i].used
    requires Spoiled(s, t, bs[i], size, q, f) && q < bs[i].start + HDR
    requires Node(f, bs, size) && (f + HDR <= bs[i].start || bs[i].end <= f)
    ensures NoRings(t, size)
  {
    hide Tiled, Chained, OnFree, Ringed;
    forall k | 0 <= k < i
      ensures SameNext(s, t, bs[k])
    {
      EarlierLink(s, t, bs, size, i, q, f, k);
    }
    forall cs, gl
      ensures !RingsIn(t, size, cs, gl)
    {
      if RingsIn(t, size, cs, gl) {
        SameWalk(s, t, bs, cs, size, i, i);
        HeadersInside(t, cs, size, i);
        assert false;
      }
    }
  }

  lemma EarlierLink(s: seq<int>, t: seq<int>, bs: seq<Block>, size: nat, i: nat, q: nat, f: nat, k: nat)
    requires Tiled(bs, HDR, 0, size) && k < i < |bs| && Spoiled(s, t, bs[i], size, q, f)
    requires Node(f, bs, size)
    ensures SameNext(s, t, bs[k])
  {
    AllOrdered(bs, HDR, 0, size);
    NodeApart(bs, size, f, k);
  }

  /** Only the block whose header was overwritten loses words, and of those none beyond the new header. */
  lemma SpoiledKeeps(s: seq<int>, t: seq<int>, bs: seq<Block>, size: nat, i: nat, q: nat, f: nat)
    requires Tiled(bs, HDR, 0, size) && i + 1 < |bs| && Spoiled(s, t, bs[i], size, q, f)
    requires Node(f, bs, size) && (f + HDR <= bs[i].start || bs[i].end <= f)
    ensures SamePayloads(HDR, s, t, All(bs) - {bs[i]})
    ensures forall k :: q + HDR <= k < bs[i].end ==> t[k] == s[k]
  {
    AllOrdered(bs, HDR, 0, size);
    hide Tiled;
    forall b, k | b in All(bs) - {bs[i]} && b.start + HDR <= k < b.end && k < |s|
      ensures s[k] == t[k]
    {
      var j :| 0 <= j < |bs| && bs[j] == b;
      NodeApart(bs, size, f, j);
    }
  }

  /**
   `t` is what growing block `i` of `s` to `w` words leaves when ptr + newsize wraps around the address
   space: the header of the new block lies over the header and the first words of block `i` itself.
   */
  ghost predicate Overran(s: seq<int>, t: seq<int>, bs: seq<Block>, fl: seq<nat>, size: nat, i: nat, w: nat)
    requires i + 1 < |bs|
  {
    var x, q := bs[i].start, bs[i].start + HDR + w - WORDS;
    && |t| == |s| == size + HDR && x + NEXT < q < x + HDR && q + HDR <= size
    && t[q..q + HDR] == [MAGIC, HEAP_PTR, bs[i + 1].end, x, After(size, Without(fl, bs[i + 1].start), 0), size]
    && t[x + NEXT] == q && t[size + NEXT_FREE] == q
    && SamePayloads(HDR, s, t, Live(bs) - {bs[i]})
    && (forall k :: q + HDR <= k < bs[i].end && k < |s| ==> t[k] == s[k])
    && NoRings(t, size)
  }

  lemma OverranIs(s: seq<int>, t: seq<int>, u: seq<int>, bs: seq<Block>, fl: seq<nat>, size: nat, i: nat, w: nat)
    requires Tiled(bs, HDR, 0, size) && i + 2 < |bs| && bs[i].used && !bs[i + 1].used && OnFree(fl, bs)
    requires RingsIn(t, size, Absorb(bs, i), Without(fl, bs[i + 1].start)) && SamePayloads(HDR, s, t, All(bs))
    requires w + MIN >= WORDS > w
    requires Spoiled(t, u, Absorb(bs, i)[i], size, bs[i].start + HDR + w - WORDS, After(size, Without(fl, bs[i + 1].start), 0))
    ensures Overran(s, u, bs, fl, size, i, w)
  {
    hide Chained, Ringed, OnFree, Tiled, All, Live, SamePayloads, Spoiled, NoRings, Without;
    var a, rest, q := Absorb(bs, i), Without(fl, bs[i + 1].start), bs[i].start + HDR + w - WORDS;
    var f := After(size, rest, 0);
    AbsorbFacts(bs, size, i);
    SpoiledRead(t, u, a[i], size, q, f);
    HeadApart(t, a, size, rest, i, q);
    SpoiledBreaks(t, u, a, rest, size, i, q, f);
    SpoiledKeeps(t, u, a, size, i, q, f);
    LiveListed(bs);
    LiveListed(a);
    LessOne(Live(bs), bs[i]);
    OthersListed(bs, a, i);
    SameTrans(HDR, s, t, u, All(bs), All(a) - {a[i]}, Live(bs) - {bs[i]});
    PayloadWords(s, t, bs, size, i);
    BlockExtents(bs, size, i);
  }

  lemma BlockExtents(bs: seq<Block>, size: nat, i: nat)
    requires Tiled(bs, HDR, 0, size) && i + 1 < |bs|
    ensures bs[i].start + HDR <= bs[i].end == bs[i + 1].start && bs[i + 1].start + HDR <= bs[i + 1].end <= size
  {
    AllOrdered(bs, HDR, 0, size);
  }

  lemma OthersListed(bs: seq<Block>, a: seq<Block>, i: nat)
    requires i < |bs| && i < |a| && Live(a) - {a[i]} == Live(bs) - {bs[i]}
    ensures Live(bs) - {bs[i]} <= All(bs) && Live(bs) - {bs[i]} <= All(a) - {a[i]}
  {
    forall b | b in Live(bs) - {bs[i]}
      ensures b in All(bs) && b in All(a) - {a[i]}
    {
      assert b in Live(a) - {a[i]};
    }
  }

  lemma PayloadWords(s: seq<int>, t: seq<int>, bs: seq<Block>, size: nat, i: nat)
    requires SamePayloads(HDR, s, t, All(bs)) && i < |bs|
    ensures |s| == |t| && forall k :: bs[i].start + HDR <= k < bs[i].end && k < |s| ==> t[k] == s[k]
  {
    assert bs[i] in All(bs);
  }

  lemma SpoiledRead(s: seq<int>, t: seq<int>, b: Block, size: nat, q: nat, f: nat)
    requires Spoiled(s, t, b, size, q, f)
    ensures |t| == |s| == size + HDR && b.start + NEXT < q && q + HDR <= b.end && b.end + HDR <= size
    ensures t[q..q + HDR] == [MAGIC, HEAP_PTR, b.end, b.start, f, size] && t[b.start + NEXT] == q && t[size + NEXT_FREE] == q
  {
  }

  // ---------------------------------------------------------------- the 32-bit test for growing

  /**
   The sizes for which newsize + RT_MEMHEAP_MINIALLOC wraps while the rounding does not, for a block
   that has a free one behind it.
   */
  ghost predicate Overruns(bs: seq<Block>, p: nat, bytes: Bytes) {
    && LAST_ROUNDED - 4 * MIN < bytes <= LAST_ROUNDED
    && IsLive(bs, p) && !bs[IndexOf(bs, p - HDR) + 1].used
  }

  lemma RingsThere(s: seq<int>, size: nat, bs: seq<Block>, fl: seq<nat>)
    requires RingsIn(s, size, bs, fl)
    ensures !NoRings(s, size)
  {
  }

  lemma ResizedRings(s: seq<int>, t: seq<int>, size: nat, bs: seq<Block>, fl: seq<nat>, bs': seq<Block>, fl': seq<nat>,
        p: nat, bytes: Bytes)
    requires IsLive(bs, p)
    requires if Overruns(bs, p, bytes) then Overran(s, t, bs, fl, size, IndexOf(bs, p - HDR), RequestWords(bytes))
             else RingsIn(t, size, bs', fl')
    ensures NoRings(t, size) <==> Overruns(bs, p, bytes)
  {
    hide RingsIn, RequestWords, IndexOf, SamePayloads;
    if !Overruns(bs, p, bytes) {
      RingsThere(t, size, bs', fl');
    }
  }

  /** The same for a size of `w` words. */
  ghost predicate OverrunsBy(bs: seq<Block>, i: nat, w: nat)
    requires i + 1 < |bs|
  {
    w + MIN >= WORDS && !bs[i + 1].used
  }

  lemma OverrunWords(bytes: Bytes)
    ensures LAST_ROUNDED - 4 * MIN < bytes <= LAST_ROUNDED <==> RequestWords(bytes) + MIN >= WORDS
    ensures MIN <= RequestWords(bytes) < WORDS
  {
  }

  /** The test agrees with the sum it means, unless that wraps; then it says yes. */
  lemma GrowTest(bs: seq<Block>, size: nat, i: nat, w: nat)
    requires Tiled(bs, HDR, 0, size) && 4 * size < WORD_RANGE && Roomy(Live(bs), size)
    requires i + 2 < |bs| && bs[i].used && !bs[i + 1].used && w < WORDS
    ensures Capacity(bs[i], HDR) >= MIN && Capacity(bs[i + 1], HDR) >= 0
    ensures bs[i].end == bs[i + 1].start && bs[i + 1].end <= size - HDR
    ensures w + MIN < WORDS ==>
              (GrowsInPlace(bs, i, w) <==> Capacity(bs[i], HDR) < w && Capacity(bs[i], HDR) + Capacity(bs[i + 1], HDR) > w + MIN)
    ensures w + MIN >= WORDS ==> GrowsInPlace(bs, i, w) && bs[i + 1].end - bs[i].start - HDR < w
  {
    AllOrdered(bs, HDR, 0, size);
    assert bs[i] in Live(bs);
  }

  lemma {:induction false} FreeBound(bs: seq<Block>, lo: nat, size: nat)
    requires Tiled(bs, HDR, lo, size)
    ensures 0 <= FreeCapacity(bs, HDR) <= size - lo - HDR * |bs|
    decreases |bs|
  {
    if |bs| == 1 {
      assert bs == [bs[0]];
      SumsOne(bs[0], HDR);
    } else {
      TiledTail(bs, HDR, lo, size);
      FreeBound(bs[1..], bs[0].end, size);
    }
  }

  /** What is free and what one used block holds fit the pool together. */
  lemma GrowBound(bs: seq<Block>, size: nat, i: nat)
    requires Tiled(bs, HDR, 0, size) && i + 1 < |bs| && bs[i].used
    ensures 0 <= FreeCapacity(bs, HDR) && FreeCapacity(bs, HDR) + Capacity(bs[i], HDR) + 2 * HDR <= size
  {
    hide FreeCapacity;
    var b := bs[i].(used := false);
    FreeBound(bs, 0, size);
    SumsSet(bs, HDR, i, b);
    SumsOne(bs[i], HDR);
    SumsOne(b, HDR);
    FreeBound(bs[i := b], 0, size);
  }

  lemma Wrapped(a: int)
    requires -WORDS <= a < WORDS
    ensures a % WORDS == if a < 0 then a + WORDS else a
  {
  }

  lemma RoomyOne(live: set<Block>, more: set<Block>, b: Block, size: nat)
    requires Roomy(live, size) && more <= live + {b} && Capacity(b, HDR) >= MIN
    ensures Roomy(more, size)
  {
  }

  lemma RoomyFewer(live: set<Block>, less: set<Block>, size: nat)
    requires Roomy(live, size) && less <= live
    ensures Roomy(less, size)
  {
  }

  // ---------------------------------------------------------------- the heap object

  class Heap {
    const ram: array<int>   // the pool, then free_header
    const size: nat         // pool_size
    var available: int
    var maxUsed: int
    ghost var blocks: seq<Block>
    ghost var free: seq<nat>   // the free ring after free_header

    ghost predicate Rings(bs: seq<Block>, fl: seq<nat>)
      reads this, ram
    {
      RingsIn(ram[..], size, bs, fl)
    }

    ghost predicate Valid()
      reads this, ram
    {
      && Rings(blocks, free)
      && NoFreePair(blocks)
      && Lists(free, blocks)
      && available == FreeCapacity(blocks, HDR)
      && maxUsed >= size - available
      && 4 * size < WORD_RANGE
      && Roomy(Live(blocks), size)
    }

    /** rt_memheap_init on a pool of `words` words. */
    constructor (words: nat)
      requires words >= 2 * HDR && 4 * words < WORD_RANGE
      ensures Valid() && fresh(ram) && size == words
      ensures blocks == [Block(0, words - HDR, false), Tail(words)] && free == [0] && maxUsed == size - available
    {
      var a := new int[words + HDR];
      ram, size := a, words;
      available, maxUsed := words - 2 * HDR, 2 * HDR;
      blocks := [Block(0, words - HDR, false), Tail(words)];
      free := [0];
      new;
      ram[0], ram[NEXT], ram[PREV] := MAGIC, words - HDR, words - HDR;
      ram[words - HDR], ram[words - HDR + NEXT], ram[words - HDR + PREV] := MAGIC + 1, 0, 0;
      ram[NEXT_FREE], ram[PREV_FREE] := words, words;
      ram[words + NEXT_FREE], ram[words + PREV_FREE] := 0, 0;
      InitialRings(ram[..], words);
    }

    predicate IsUsed(o: nat)
      requires o < ram.Length
      reads ram
    {
      ram[o] % 2 != 0
    }

    /** MEMITEM_SIZE: the payload words of the block at `x`. */
    method ItemSize(x: nat, ghost bs: seq<Block>, ghost i: nat) returns (n: nat)
      requires ram.Length == size + HDR && Tiled(bs, HDR, 0, size) && Chained(ram[..], bs, size)
      requires i + 1 < |bs| && bs[i].start == x
      ensures n == Capacity(bs[i], HDR)
    {
      hide Chained, Tiled;
      HeadersInside(ram[..], bs, size, i);
      n := ram[x + NEXT] - x - HDR;
    }

    /** The block behind the one at `x`, and whether it is used. */
    method NextItem(x: nat, ghost bs: seq<Block>, ghost i: nat) returns (n: nat, used: bool)
      requires ram.Length == size + HDR && Tiled(bs, HDR, 0, size) && Chained(ram[..], bs, size)
      requires i + 1 < |bs| && bs[i].start == x
      ensures n == bs[i].end == bs[i + 1].start && used == bs[i + 1].used
      ensures !used ==> i + 2 < |bs|
    {
      hide Chained, Tiled;
      HeadersInside(ram[..], bs, size, i);
      HeadersInside(ram[..], bs, size, i + 1);
      n := ram[x + NEXT];
      used := IsUsed(n);
    }

    /** Take node `x` off the free ring. */
    method Detach(x: nat, ghost bs: seq<Block>, ghost fl: seq<nat>, ghost k: nat)
      requires Rings(bs, fl) && k < |fl| && fl[k] == x
      modifies ram
      ensures Rings(bs, fl[..k] + fl[k + 1..])
      ensures SamePayloads(HDR, old(ram[..]), ram[..], All(bs))
    {
      hide Chained, Tiled, OnFree, SamePayloads, All;
      ghost var s := ram[..];
      RingNeighbours(s, bs, size, fl, k);
      var n, p := ram[x + NEXT_FREE], ram[x + PREV_FREE];
      ram[n + PREV_FREE] := p;
      ram[p + NEXT_FREE] := n;
      NodesSpaced(bs, size, fl);
      RingRemove(s, ram[..], size, fl, k);
      ChainLinkStores(s, ram[..], bs, size, p, x, n);
      FewerOnFree(fl, bs, k);
    }

    /** Put node `x` right behind `free_header` on the free ring. */
    method Attach(x: nat, ghost bs: seq<Block>, ghost fl: seq<nat>)
      requires Rings(bs, fl) && OnFree([x] + fl, bs)
      modifies ram
      ensures Rings(bs, [x] + fl)
      ensures SamePayloads(HDR, old(ram[..]), ram[..], All(bs))
    {
      hide Chained, Tiled, OnFree, Ringed, SamePayloads, All, Inserted;
      ghost var s := ram[..];
      HeadNeighbour(s, bs, size, fl, x);
      Hang(x, After(size, fl, 0));
      HungRings(s, ram[..], bs, size, fl, x);
    }

    /** Link the node at `x` in between `free_header` and what follows that. */
    method Hang(x: nat, ghost n: nat)
      requires ram.Length == size + HDR && x + HDR <= size && n <= size && ram[size + NEXT_FREE] == n
      requires n + HDR <= x || x + HDR <= n
      modifies ram
      ensures Inserted(old(ram[..]), ram[..], size, x, n)
    {
      ram[x + NEXT_FREE] := ram[size + NEXT_FREE];
      ram[x + PREV_FREE] := size;
      ram[ram[size + NEXT_FREE] + PREV_FREE] := x;
      ram[size + NEXT_FREE] := x;
    }

    /** Set or clear the used mark of a block that is not on the free ring. */
    method Mark(x: nat, used: bool, ghost bs: seq<Block>, ghost fl: seq<nat>, ghost i: nat)
      requires Rings(bs, fl) && i + 1 < |bs| && bs[i].start == x && x !in fl
      modifies ram
      ensures Rings(bs[i := bs[i].(used := used)], fl)
      ensures SamePayloads(HDR, old(ram[..]), ram[..], All(bs))
    {
      hide Chained, OnFree, Ringed, SamePayloads, All, Begins;
      ghost var s := ram[..];
      HeadersInside(s, bs, size, i);
      ram[x] := if used then MAGIC + 1 else MAGIC;
      MarkChained(s, ram[..], bs, size, i, used);
      FreeStartsSet(bs, HDR, 0, size, i, used);
      OnFreeKept(fl, bs, bs[i := bs[i].(used := used)], x);
      FreeNodesOutside(bs, size, fl, i);
      RingHeaderStores(s, ram[..], bs, size, fl, i, bs[i].end, bs[i].end);
      StartBegins(bs, size, i);
      HeaderStores(s, ram[..], bs, size, x, x, x);
    }

    /** Store a free block's header at `ptr2` and link it in between the block at `ptr` and the next one. */
    method BuildHeader(ptr: nat, ptr2: nat, ghost end: nat)
      requires ptr + NEXT < ptr2 && ptr2 + HDR <= end && end + HDR <= ram.Length && ram[ptr + NEXT] == end
      modifies ram
      ensures Built(old(ram[..]), ram[..], ptr, ptr2, end)
    {
      ram[ptr2] := MAGIC;
      ram[ptr2 + POOL] := HEAP_PTR;
      ram[ptr2 + PREV] := ptr;
      ram[ptr2 + NEXT] := ram[ptr + NEXT];
      ram[ram[ptr + NEXT] + PREV] := ptr2;
      ram[ptr + NEXT] := ptr2;
    }

    /** Build a free block at `ptr2` inside the used block at `ptr` and link it behind that block. */
    method SplitOff(ptr: nat, ptr2: nat, ghost bs: seq<Block>, ghost fl: seq<nat>, ghost i: nat)
      requires Rings(bs, fl) && i + 1 < |bs| && bs[i].start == ptr && bs[i].used
      requires ptr + HDR <= ptr2 && ptr2 + HDR <= bs[i].end
      modifies ram
      ensures Rings(Cut(bs, HDR, i, ptr2 - ptr - HDR), fl)
      ensures SamePayloads(HDR, old(ram[..]), ram[..], All(Cut(bs, HDR, i, ptr2 - ptr - HDR)))
    {
      hide Chained, OnFree, Ringed, Tiled, Cut, SamePayloads, All;
      ghost var s := ram[..];
      HeadersInside(s, bs, size, i);
      BuildHeader(ptr, ptr2, bs[i].end);
      BuiltRings(s, ram[..], bs, size, fl, i, ptr2);
    }

    /** Build a free block at `q` behind the used block at `x` and list it, as growing does. */
    method PlaceRest(x: nat, q: nat, ghost bs: seq<Block>, ghost fl: seq<nat>, ghost i: nat)
      requires Rings(bs, fl) && i + 1 < |bs| && bs[i].start == x && bs[i].used
      requires x + NEXT < q && q + HDR <= bs[i].end
      requires q >= x + HDR ==> OnFree([q] + fl, Cut(bs, HDR, i, q - x - HDR))
      modifies ram
      ensures q >= x + HDR ==>
                && Rings(Cut(bs, HDR, i, q - x - HDR), [q] + fl)
                && SamePayloads(HDR, old(ram[..]), ram[..], All(Cut(bs, HDR, i, q - x - HDR)))
      ensures q < x + HDR ==> Spoiled(old(ram[..]), ram[..], bs[i], size, q, After(size, fl, 0))
    {
      hide Chained, OnFree, Ringed, Tiled, Cut, SamePayloads, All, Built, Inserted, Spoiled;
      ghost var s := ram[..];
      ghost var n := After(size, fl, 0);
      HeadersInside(s, bs, size, i);
      HeadApart(s, bs, size, fl, i, q);
      BuildHeader(x, q, bs[i].end);
      ghost var t := ram[..];
      BuiltHead(s, t, bs[i], size, q, fl);
      Hang(q, n);
      if q >= x + HDR {
        BuiltRings(s, t, bs, size, fl, i, q);
        HungRings(t, ram[..], Cut(bs, HDR, i, q - x - HDR), size, fl, q);
        ghost var c := Cut(bs, HDR, i, q - x - HDR);
        SameTrans(HDR, s, t, ram[..], All(c), All(c), All(c));
      } else {
        SpoiledIs(s, t, ram[..], bs[i], size, q, n);
      }
    }

    /** Take the header at `high`, no longer on the free ring, out of the block ring behind `low`. */
    method Fuse(low: nat, high: nat, ghost bs: seq<Block>, ghost fl: seq<nat>, ghost i: nat)
      requires Rings(bs, fl) && i + 2 < |bs| && bs[i].start == low && bs[i + 1].start == high
      requires !bs[i + 1].used && high !in fl
      modifies ram
      ensures Rings(Absorb(bs, i), fl)
      ensures SamePayloads(HDR, old(ram[..]), ram[..], All(bs))
    {
      hide Chained, OnFree, Ringed, SamePayloads, All;
      ghost var s := ram[..];
      HeadersInside(s, bs, size, i);
      HeadersInside(s, bs, size, i + 1);
      ram[low + NEXT] := ram[high + NEXT];
      ram[ram[high + NEXT] + PREV] := low;
      FuseRings(s, ram[..], bs, size, fl, i);
      FusePayloads(s, ram[..], bs, size, i);
    }

    /** Hand out the free block at `x` for `w` words. */
    method Take(x: nat, w: nat)
      requires Valid() && x in FreeStarts(blocks) && Capacity(blocks[IndexOf(blocks, x)], HDR) >= w >= MIN
      modifies this, ram
      ensures Valid()
      ensures blocks == TakenBlocks(old(blocks), x, w) && free == TakenFree(old(blocks), old(free), x, w)
      ensures maxUsed == Max(old(maxUsed), size - available)
      ensures SamePayloads(HDR, old(ram[..]), ram[..], Live(old(blocks)))
    {
      hide Chained, Tiled, NoFreePair, OnFree, Ringed, Lists, FreeCapacity, FreeStarts, SamePayloads, All, Live, Roomy;
      ghost var s := ram[..];
      ghost var i := IndexOf(blocks, x);
      ghost var k := Pos(free, x);
      ghost var rest := Without(free, x);
      NodeIndex(ram[..], blocks, size, x);
      WithoutLists(free, blocks, x);
      TakeFacts(blocks, free, size, x, w);
      TakenListed(blocks, size, x, w);
      var freeSize := ItemSize(x, blocks, i);
      Detach(x, blocks, free, k);
      ghost var t := ram[..];
      Mark(x, true, blocks, rest, i);
      SameTrans(HDR, s, t, ram[..], All(blocks), All(blocks), Live(blocks));
      if freeSize >= w + HDR + MIN {
        t := ram[..];
        SplitOff(x, x + HDR + w, blocks[i := blocks[i].(used := true)], rest, i);
        ghost var u := ram[..];
        Attach(x + HDR + w, TakenBlocks(blocks, x, w), rest);
        SameTwice(s, t, u, ram[..], Live(blocks), All(TakenBlocks(blocks, x, w)));
        available := available - w - HDR;
      } else {
        available := available - freeSize;
      }
      if size - available > maxUsed {
        maxUsed := size - available;
      }
      free := TakenFree(blocks, free, x, w);
      blocks := TakenBlocks(blocks, x, w);
    }

    /** The search loop of rt_memheap_alloc along the free ring. */
    method Search(w: nat) returns (x: nat, freeSize: int)
      requires Valid() && w > 0
      ensures var k := FirstOnRing(free, blocks, w);
              if k < |free|
              then x == free[k] && x in FreeStarts(blocks) && freeSize == Capacity(blocks[IndexOf(blocks, x)], HDR) >= w
              else freeSize < w
    {
      hide Chained, Tiled, NoFreePair, OnFree, Ringed, Lists, FreeCapacity, FreeStarts, FirstOnRing, Roomy;
      hide IndexOf, Capacity, HeaderOf;
      freeSize := 0;
      ghost var k := 0;
      RingStep(ram[..], blocks, size, free, 0);
      x := ram[size + NEXT_FREE];
      while x != size && freeSize < w
        invariant k <= |free| && x == After(size, free, k)
        invariant forall j :: 0 <= j < k ==> !BigEnough(blocks, free[j], w)
        invariant freeSize >= w ==> k < |free| && BigEnough(blocks, x, w) && freeSize == Capacity(blocks[IndexOf(blocks, x)], HDR)
        decreases |free| - k, w - freeSize
      {
        RingStep(ram[..], blocks, size, free, k);
        freeSize := ram[x + NEXT] - x - HDR;
        if freeSize < w {
          RingStep(ram[..], blocks, size, free, k + 1);
          x := ram[x + NEXT_FREE];
          k := k + 1;
        }
      }
      RingStep(ram[..], blocks, size, free, k);
      FirstIs(free, blocks, w, k);
    }

    /** rt_memheap_alloc: the first block on the free ring that is large enough. */
    method Alloc(bytes: Bytes) returns (r: nat)
      requires Valid()
      modifies this, ram
      ensures Valid()
      ensures var w, k := RequestWords(bytes), FirstOnRing(old(free), old(blocks), RequestWords(bytes));
              if w < old(available) && k < |old(free)|
              then
                && IndexOf(old(blocks), old(free)[k]) < |old(blocks)|
                && r == old(free)[k] + HDR
                && blocks == TakenBlocks(old(blocks), old(free)[k], w)
                && free == TakenFree(old(blocks), old(free), old(free)[k], w)
              else
                r == NULL && blocks == old(blocks) && free == old(free) && ram[..] == old(ram[..])
      ensures maxUsed == Max(old(maxUsed), size - available)
      ensures SamePayloads(HDR, old(ram[..]), ram[..], Live(old(blocks)))
    {
      hide Chained, Tiled, NoFreePair, OnFree, Ringed, Lists, FreeCapacity, FreeStarts, FirstOnRing, SamePayloads, Live, Roomy;
      SameIsSame(HDR, ram[..], Live(blocks));
      var w := AlignWords(bytes);
      if w < MIN {
        w := MIN;
      }
      if w < available {
        var x, freeSize := Search(w);
        if freeSize >= w {
          Take(x, w);
          return x + HDR;
        }
      }
      return NULL;
    }

    /** First merge of rt_memheap_free: the previous block swallows `x` when it is free. */
    method MergeLeft(x: nat, ghost bs: seq<Block>, ghost fl: seq<nat>, ghost i: nat) returns (h: nat, insertHeader: bool)
      requires Rings(bs, fl) && i + 1 < |bs| && bs[i].start == x && !bs[i].used && x !in fl
      modifies ram, this`available
      ensures Rings(JoinPrev(bs, i), fl)
      ensures insertHeader == !FreeBefore(bs, i)
      ensures h == if insertHeader then x else bs[i - 1].start
      ensures available == old(available) + (if insertHeader then 0 else HDR)
      ensures SamePayloads(HDR, old(ram[..]), ram[..], All(bs))
    {
      hide Chained, Tiled, OnFree, Ringed, SamePayloads, All;
      SameIsSame(HDR, ram[..], All(bs));
      h, insertHeader := x, true;
      HeadersInside(ram[..], bs, size, i);
      if !IsUsed(ram[x + PREV]) {
        available := available + HDR;
        h := ram[x + PREV];
        Fuse(h, x, bs, fl, i - 1);
        insertHeader := false;
      }
    }

    /** Second merge of rt_memheap_free: `h` swallows the next block when that is free. */
    method MergeRight(h: nat, ghost bs: seq<Block>, ghost fl: seq<nat>, ghost i: nat)
      requires Rings(bs, fl) && i + 1 < |bs| && bs[i].start == h && !bs[i].used
      requires !bs[i + 1].used ==> bs[i + 1].start in fl
      modifies ram, this`available
      ensures Rings(JoinNext(bs, i), if bs[i + 1].used then fl else Without(fl, bs[i + 1].start))
      ensures available == old(available) + (if bs[i + 1].used then 0 else HDR)
      ensures SamePayloads(HDR, old(ram[..]), ram[..], All(bs))
    {
      hide Chained, Tiled, OnFree, Ringed, Pos, Without, SamePayloads, All;
      SameIsSame(HDR, ram[..], All(bs));
      var n, used := NextItem(h, bs, i);
      if !used {
        available := available + HDR;
        SwallowNext(h, n, bs, fl, i);
      }
    }

    /** Take the free block at `n` off the free ring and let its predecessor at `h` swallow it. */
    method SwallowNext(h: nat, n: nat, ghost bs: seq<Block>, ghost fl: seq<nat>, ghost i: nat)
      requires Rings(bs, fl) && i + 2 < |bs| && bs[i].start == h && bs[i + 1].start == n
      requires !bs[i + 1].used && n in fl
      modifies ram
      ensures Rings(Absorb(bs, i), Without(fl, n))
      ensures SamePayloads(HDR, old(ram[..]), ram[..], All(bs))
    {
      hide Chained, Tiled, OnFree, Ringed, Pos, Without, SamePayloads, All;
      ghost var s := ram[..];
      WithoutGone(fl, bs, n);
      Detach(n, bs, fl, Pos(fl, n));
      ghost var t := ram[..];
      Fuse(h, n, bs, Without(fl, n), i);
      SameTrans(HDR, s, t, ram[..], All(bs), All(bs), All(bs));
    }

    /** Mark the block at `x` free, merge it with its neighbours and list it. */
    method GiveBack(x: nat, ghost i: nat)
      requires Valid() && i + 1 < |blocks| && blocks[i].start == x && blocks[i].used
      requires IsLive(blocks, x + HDR) && IndexOf(blocks, x) == i
      modifies ram, this`available
      ensures SamePayloads(HDR, old(ram[..]), ram[..], Live(Release(blocks, i)))
      ensures Rings(Release(blocks, i), ReleasedRing(blocks, free, i))
      ensures available == FreeCapacity(Release(blocks, i), HDR) >= old(available)
    {
      hide Chained, Tiled, NoFreePair, OnFree, Ringed, Lists, FreeCapacity, FreeStarts, JoinNext, JoinPrev, Release, Without, Roomy;
      hide SamePayloads, All, Live;
      ghost var f := blocks[i := blocks[i].(used := false)];
      ghost var left := Live(FreedBlocks(blocks, x + HDR));
      ghost var s := ram[..];
      FreeFacts(blocks, free, size, i);
      FreeShape(blocks, size, i);
      FreedListed(blocks, size, i);
      Mark(x, false, blocks, free, i);
      ghost var t := ram[..];
      var n := ItemSize(x, f, i);
      available := available + n;
      var h, insertHeader := MergeLeft(x, f, free, i);
      SameTrans(HDR, s, t, ram[..], All(blocks), All(f), left);
      t := ram[..];
      MergeRight(h, JoinPrev(f, i), free, if FreeBefore(blocks, i) then i - 1 else i);
      SameTrans(HDR, s, t, ram[..], left, All(JoinPrev(f, i)), left);
      if insertHeader {
        t := ram[..];
        Attach(h, FreedBlocks(blocks, x + HDR), if blocks[i + 1].used then free else Without(free, blocks[i + 1].start));
        SameTrans(HDR, s, t, ram[..], left, All(FreedBlocks(blocks, x + HDR)), left);
      }
    }

    /** rt_memheap_free */
    method Free(p: nat)
      requires Valid() && (p == NULL || IsLive(blocks, p))
      modifies this, ram
      ensures Valid()
      ensures blocks == FreedBlocks(old(blocks), p) && free == FreedRing(old(blocks), old(free), p)
      ensures maxUsed == old(maxUsed)
      ensures SamePayloads(HDR, old(ram[..]), ram[..], Live(blocks))
    {
      hide Chained, Tiled, NoFreePair, OnFree, Ringed, Lists, FreeCapacity, FreeStarts, Release, Without, SamePayloads, Live, Roomy;
      SameIsSame(HDR, ram[..], Live(blocks));
      if p == NULL {
        return;
      }
      ghost var i := IndexOf(blocks, p - HDR);
      FreeFacts(blocks, free, size, i);
      RoomyFewer(Live(blocks), Live(FreedBlocks(blocks, p)), size);
      GiveBack(p - HDR, i);
      free := FreedRing(blocks, free, p);
      blocks := FreedBlocks(blocks, p);
    }

    /** The sizes after a block of `oldsize` words was enlarged to `w`, in 32-bit arithmetic. */
    method CountGrown(w: nat, oldsize: nat)
      requires 0 <= available && available + oldsize + 2 * HDR <= size < WORDS && maxUsed >= size - available
      requires oldsize < w < WORDS && (w <= available + oldsize || w + MIN >= WORDS)
      modifies this`available, this`maxUsed
      ensures available == old(available) + oldsize - w + (if w + MIN >= WORDS then WORDS else 0)
      ensures maxUsed == Max(old(maxUsed), size - available)
    {
      Wrapped(available - (w - oldsize));
      available := (available - (w - oldsize)) % WORDS;
      Wrapped(size - available);
      if (size - available) % WORDS > maxUsed {
        maxUsed := (size - available) % WORDS;
      }
    }

    /** Enlarge the block at `x` into the free block behind it. */
    method GrowInPlace(x: nat, w: nat, oldsize: nat, ghost i: nat)
      requires Valid() && i + 2 < |blocks| && blocks[i].start == x && blocks[i].used && !blocks[i + 1].used
      requires oldsize == Capacity(blocks[i], HDR) && w < WORDS && GrowsInPlace(blocks, i, w)
      modifies this, ram
      ensures w + MIN < WORDS ==>
                && Valid()
                && blocks == GrownBlocks(old(blocks), i, w) && free == GrownRing(old(blocks), old(free), i, w)
                && SamePayloads(HDR, old(ram[..]), ram[..], Live(old(blocks)))
      ensures w + MIN >= WORDS ==>
                && Overran(old(ram[..]), ram[..], old(blocks), old(free), size, i, w)
                && available == old(available) + oldsize + (WORDS - w)
      ensures maxUsed == Max(old(maxUsed), size - available)
    {
      hide Chained, Tiled, NoFreePair, OnFree, Ringed, Lists, FreeCapacity, FreeStarts, Without, Cut, Roomy;
      hide SamePayloads, All, Live, Absorb, Spoiled, Overran, GrowsInPlace;
      ghost var s, bs, rest := ram[..], blocks, Without(free, blocks[i + 1].start);
      GrowReady(bs, free, size, i, w);
      var next, _ := NextItem(x, blocks, i);
      CountGrown(w, oldsize);
      SwallowNext(x, next, blocks, free, i);
      ghost var t := ram[..];
      PlaceRest(x, (x + HDR + w) % WORDS, Absorb(blocks, i), rest, i);
      if w + MIN < WORDS {
        GrownSame(s, t, ram[..], bs, i, w);
        free := GrownRing(blocks, free, i, w);
        blocks := GrownBlocks(blocks, i, w);
      } else {
        OverranIs(s, t, ram[..], bs, free, size, i, w);
      }
    }

    /** Split off and list what the block at `x` has beyond its first `w` words. */
    method CutBack(x: nat, w: nat, ghost i: nat)
      requires Valid() && i + 1 < |blocks| && blocks[i].start == x && blocks[i].used
      requires w + HDR + MIN < Capacity(blocks[i], HDR)
      modifies ram, this`available
      ensures Rings(Shrink(blocks, HDR, i, w), ShrunkRing(blocks, free, i, w))
      ensures available == FreeCapacity(Shrink(blocks, HDR, i, w), HDR)
      ensures SamePayloads(HDR, old(ram[..]), ram[..], Live(Shrink(blocks, HDR, i, w)))
    {
      hide Chained, Tiled, NoFreePair, OnFree, Ringed, Lists, FreeCapacity, FreeStarts, Without, Cut, Shrink, Roomy;
      hide SamePayloads, All, Live;
      ghost var c := Cut(blocks, HDR, i, w);
      ghost var left := Live(Shrink(blocks, HDR, i, w));
      ghost var s := ram[..];
      ShrinkFacts(blocks, free, size, i, w);
      ShrunkListed(blocks, size, i, w);
      var q := x + HDR + w;
      SplitOff(x, q, blocks, free, i);
      ghost var t := ram[..];
      SameIsSame(HDR, t, All(c));
      var n, used := NextItem(q, c, i + 1);
      if !used {
        var m := ItemSize(n, c, i + 2);
        available := available - m;
        SwallowNext(q, n, c, free, i + 1);
      }
      SameTrans(HDR, s, t, ram[..], All(c), All(c), left);
      t := ram[..];
      Attach(q, Shrink(blocks, HDR, i, w), if blocks[i + 1].used then free else Without(free, blocks[i + 1].start));
      SameTrans(HDR, s, t, ram[..], left, All(Shrink(blocks, HDR, i, w)), left);
      TailLast(ram[..], Shrink(blocks, HDR, i, w), size);
      var rest := ItemSize(q, Shrink(blocks, HDR, i, w), i + 1);
      available := available + rest;
    }

    /** The shrinking half of rt_memheap_realloc. */
    method ShrinkInPlace(x: nat, w: nat, ghost i: nat)
      requires Valid() && i + 1 < |blocks| && blocks[i].start == x && blocks[i].used
      requires MIN <= w && w + HDR + MIN < Capacity(blocks[i], HDR)
      modifies this, ram
      ensures Valid()
      ensures blocks == Shrink(old(blocks), HDR, i, w) && free == ShrunkRing(old(blocks), old(free), i, w)
      ensures maxUsed == old(maxUsed)
      ensures SamePayloads(HDR, old(ram[..]), ram[..], Live(blocks))
      ensures Live(blocks) == Live(old(blocks)) - {old(blocks)[i]} + {Block(x, x + HDR + w, true)}
    {
      hide Chained, Tiled, NoFreePair, OnFree, Ringed, Lists, FreeCapacity, FreeStarts, Without, Cut, Shrink, SamePayloads, Live, All, Roomy;
      ShrinkFacts(blocks, free, size, i, w);
      ShrunkListed(blocks, size, i, w);
      RoomyOne(Live(blocks), Live(Shrink(blocks, HDR, i, w)), Block(x, x + HDR + w, true), size);
      CutBack(x, w, i);
      free := ShrunkRing(blocks, free, i, w);
      blocks := Shrink(blocks, HDR, i, w);
    }

    /** rt_memcpy of `n` words between two blocks. */
    method CopyWords(dst: nat, src: nat, n: nat)
      requires dst + n <= ram.Length && src + n <= ram.Length && (dst + n <= src || src + n <= dst)
      modifies ram
      ensures ram[dst..dst + n] == old(ram[src..src + n])
      ensures forall k :: 0 <= k < ram.Length && !(dst <= k < dst + n) ==> ram[k] == old(ram[k])
    {
      for j := 0 to n
        invariant ram[dst..dst + j] == old(ram[src..src + j])
        invariant forall k :: 0 <= k < ram.Length && !(dst <= k < dst + j) ==> ram[k] == old(ram[k])
      {
        ram[dst + j] := ram[src + j];
        assert ram[dst..dst + j + 1] == ram[dst..dst + j] + [ram[dst + j]];
      }
    }

    /** rt_memcpy between two live blocks touches nothing but the destination's payload. */
    method CopyPayload(dst: nat, src: nat, n: nat, ghost i: nat)
      requires Valid() && i + 1 < |blocks| && blocks[i].used && dst == blocks[i].start + HDR
      requires n <= Capacity(blocks[i], HDR) && src + n <= ram.Length
      requires dst + n <= src || src + n <= dst
      modifies ram
      ensures Valid()
      ensures SamePayloads(HDR, old(ram[..]), ram[..], Live(blocks) - {blocks[i]})
      ensures WordsMoved(old(ram[..]), src, ram[..], dst, n)
    {
      hide Chained, Tiled, NoFreePair, OnFree, Ringed, Lists, FreeCapacity, FreeStarts, SamePayloads, Live, Roomy;
      ghost var s := ram[..];
      HeadersInside(s, blocks, size, i);
      CopyWords(dst, src, n);
      PayloadStores(s, ram[..], blocks, size, free, i);
      assert ram[..][dst..dst + n] == ram[dst..dst + n];
      assert old(ram[src..src + n]) == s[src..src + n];
    }

    /** Copy the words of the block at `src` into the payload at `dst` and give the former back. */
    method CopyAndFree(dst: nat, src: nat, n: nat, ghost j: nat)
      requires Valid() && IsLive(blocks, src) && j + 1 < |blocks| && blocks[j].used && dst == blocks[j].start + HDR
      requires var from := blocks[IndexOf(blocks, src - HDR)];
               && n <= Capacity(blocks[j], HDR) && n <= Capacity(from, HDR) && from.end <= size
               && (from.end <= blocks[j].start || blocks[j].end <= from.start)
               && Live(FreedBlocks(blocks, src)) == Live(blocks) - {from} && blocks[j] != from
      modifies this, ram
      ensures Valid()
      ensures blocks == FreedBlocks(old(blocks), src) && maxUsed == old(maxUsed)
      ensures SamePayloads(HDR, old(ram[..]), ram[..], Live(blocks) - {old(blocks)[j]})
      ensures WordsMoved(old(ram[..]), src, ram[..], dst, n)
    {
      hide Chained, Tiled, NoFreePair, OnFree, Ringed, Lists, FreeCapacity, FreeStarts, SamePayloads, Live, WordsMoved, Roomy;
      hide Release, FreedRing, FreedBlocks;
      ghost var s, bs, from := ram[..], blocks, blocks[IndexOf(blocks, src - HDR)];
      HeadersInside(s, bs, size, j);
      UsedIsLive(bs, j);
      CopyPayload(dst, src, n, j);
      ghost var t := ram[..];
      Free(src);
      CopiedKept(s, t, ram[..], Live(bs), Live(blocks), from, bs[j], n);
    }

    /** Allocate, copy and free: what rt_memheap_realloc falls back on. */
    method Move(p: nat, oldsize: nat, w: nat) returns (r: nat)
      requires Valid() && IsLive(blocks, p) && oldsize == Capacity(blocks[IndexOf(blocks, p - HDR)], HDR)
      requires oldsize < w && MIN <= w && 4 * w < WORD_RANGE
      modifies this, ram
      ensures Valid()
      ensures r == MovedPtr(old(blocks), old(free), old(available), p, w)
      ensures blocks == MovedBlocks(old(blocks), old(free), old(available), p, w)
      ensures maxUsed == Max(old(maxUsed), size - FreeCapacity(MovedPeak(old(blocks), old(free), old(available), w), HDR))
      ensures SamePayloads(HDR, old(ram[..]), ram[..], Live(old(blocks)) * Live(blocks))
      ensures r == NULL ==> ram[..] == old(ram[..])
      ensures r != NULL ==> WordsMoved(old(ram[..]), p, ram[..], r, oldsize)
    {
      hide Chained, Tiled, NoFreePair, OnFree, Ringed, Lists, FreeCapacity, FreeStarts, Without, Release, FirstOnRing, Roomy;
      hide TakenBlocks, TakenFree, FreedRing, FreedBlocks, IndexOf, SamePayloads, Live, WordsMoved, BigEnough;
      ghost var s, bs, k := ram[..], blocks, FirstOnRing(free, blocks, w);
      SameIsSame(HDR, s, Live(blocks) * Live(blocks));
      TailLast(s, bs, size);
      MoveReady(s, bs, size, free, p, w);
      r := Alloc(4 * w);
      if r != NULL {
        ghost var t, g := ram[..], blocks;
        ghost var j := IndexOf(g, r - HDR);
        CopyAndFree(r, p, oldsize, j);
        MovedKept(s, t, ram[..], Live(bs), Live(blocks), bs[IndexOf(bs, p - HDR)], g[j], oldsize);
      }
    }

    /** rt_memheap_realloc to a larger size: into the next block when that is free and large enough. */
    method Enlarge(p: nat, oldsize: nat, w: nat, ghost i: nat) returns (r: nat)
      requires Valid() && IsLive(blocks, p) && i == IndexOf(blocks, p - HDR) && oldsize == Capacity(blocks[i], HDR)
      requires oldsize < w < WORDS && MIN <= w
      modifies this, ram
      ensures !OverrunsBy(old(blocks), i, w) ==>
                && Valid()
                && r == (if GrowsInPlace(old(blocks), i, w) then p else MovedPtr(old(blocks), old(free), old(available), p, w))
                && blocks == (if GrowsInPlace(old(blocks), i, w) then GrownBlocks(old(blocks), i, w)
                              else MovedBlocks(old(blocks), old(free), old(available), p, w))
                && maxUsed == Max(old(maxUsed), size - FreeCapacity(
                     if GrowsInPlace(old(blocks), i, w) then GrownBlocks(old(blocks), i, w)
                     else MovedPeak(old(blocks), old(free), old(available), w), HDR))
                && SamePayloads(HDR, old(ram[..]), ram[..], Live(old(blocks)) * Live(blocks))
                && (r != NULL ==> WordsMoved(old(ram[..]), p, ram[..], r, oldsize))
      ensures OverrunsBy(old(blocks), i, w) ==>
                r == p && Overran(old(ram[..]), ram[..], old(blocks), old(free), size, i, w)
                && available == old(available) + oldsize + (WORDS - w) && maxUsed == old(maxUsed)
      ensures r == NULL ==> ram[..] == old(ram[..])
    {
      hide Chained, Tiled, NoFreePair, OnFree, Ringed, Lists, FreeCapacity, FreeStarts, SamePayloads, Live, WordsMoved;
      hide MovedPtr, MovedBlocks, MovedPeak, GrownBlocks, GrownRing, IndexOf, Roomy, Overran;
      ghost var s, bs := ram[..], blocks;
      HeadersInside(s, bs, size, i);
      UsedIsLive(bs, i);
      var x := p - HDR;
      var next, used := NextItem(x, blocks, i);
      if !used {
        GrowTest(blocks, size, i, w);
        var nextsize := ItemSize(next, blocks, i + 1);
        if 4 * (nextsize + oldsize) > 4 * (w + MIN) % WORD_RANGE {
          GrowInPlace(x, w, oldsize, i);
          if w + MIN < WORDS {
            StaysPut(s, ram[..], Live(bs), bs[i], oldsize);
            SameCommon(s, ram[..], Live(bs), Live(blocks));
          }
          return p;
        }
      }
      r := Move(p, oldsize, w);
    }

    /** rt_memheap_realloc of a live block to a non-zero size, `w` words after rounding. */
    method Resize(p: nat, w: nat, ghost bytes: Bytes) returns (r: nat)
      requires Valid() && IsLive(blocks, p) && bytes != 0 && w == RequestWords(bytes)
      modifies this, ram
      ensures !Overruns(old(blocks), p, bytes) ==>
                && Valid()
                && r == ReallocPtr(old(blocks), old(free), old(available), p, bytes)
                && blocks == ReallocBlocks(old(blocks), old(free), old(available), p, bytes)
                && maxUsed == Max(old(maxUsed), size - FreeCapacity(ReallocPeak(old(blocks), old(free), old(available), p, bytes), HDR))
                && SamePayloads(HDR, old(ram[..]), ram[..], Live(old(blocks)) * Live(blocks))
                && (r != NULL ==> WordsMoved(old(ram[..]), p, ram[..], r,
                      Least(Capacity(old(blocks[IndexOf(blocks, p - HDR)]), HDR), RequestWords(bytes))))
      ensures Overruns(old(blocks), p, bytes) ==>
                && r == p
                && Overran(old(ram[..]), ram[..], old(blocks), old(free), size, IndexOf(old(blocks), p - HDR), w)
                && available == old(available) + Capacity(old(blocks[IndexOf(blocks, p - HDR)]), HDR) + (WORDS - w)
                && maxUsed == old(maxUsed)
      ensures r == NULL ==> ram[..] == old(ram[..])
    {
      hide Chained, Tiled, NoFreePair, OnFree, Ringed, Lists, FreeCapacity, FreeStarts, Shrink, Release, FirstOnRing;
      hide TakenBlocks, TakenFree, FreedRing, GrownBlocks, ShrunkRing, MovedBlocks, IndexOf, SamePayloads, Live, WordsMoved;
      hide MovedPeak, MovedPtr, HeaderOf, RequestWords, Roomy, Overran;
      ghost var s, bs := ram[..], blocks;
      var x := p - HDR;
      ghost var i := IndexOf(blocks, x);
      HeadersInside(s, bs, size, i);
      UsedIsLive(bs, i);
      SameIsSame(HDR, s, Live(bs));
      OverrunWords(bytes);
      var oldsize := ItemSize(x, blocks, i);
      if w > oldsize {
        r := Enlarge(p, oldsize, w, i);
        return;
      }
      if w + HDR + MIN >= oldsize {
        StaysPut(s, s, Live(bs), bs[i], w);
        SameCommon(s, s, Live(bs), Live(bs));
        return p;
      }
      ShrinkInPlace(x, w, i);
      StaysPut(s, ram[..], Live(blocks), Block(x, x + HDR + w, true), w);
      SameCommon(s, ram[..], Live(blocks), Live(bs));
      return p;
    }

    /**
     rt_memheap_realloc.  It leaves two well-formed rings exactly when newsize + RT_MEMHEAP_MINIALLOC
     does not wrap in the test for growing.
     */
    method Realloc(p: nat, bytes: Bytes) returns (r: nat)
      requires Valid() && (p == NULL || IsLive(blocks, p))
      modifies this, ram
      ensures NoRings(ram[..], size) <==> Overruns(old(blocks), p, bytes)
      ensures !Overruns(old(blocks), p, bytes) ==>
                && Valid()
                && r == ReallocPtr(old(blocks), old(free), old(available), p, bytes)
                && blocks == ReallocBlocks(old(blocks), old(free), old(available), p, bytes)
                && maxUsed == Max(old(maxUsed), size - FreeCapacity(ReallocPeak(old(blocks), old(free), old(available), p, bytes), HDR))
                && SamePayloads(HDR, old(ram[..]), ram[..], Live(old(blocks)) * Live(blocks))
                && (r != NULL && p != NULL ==> WordsMoved(old(ram[..]), p, ram[..], r,
                      Least(Capacity(old(blocks[IndexOf(blocks, p - HDR)]), HDR), RequestWords(bytes))))
      ensures Overruns(old(blocks), p, bytes) ==>
                && r == p
                && Overran(old(ram[..]), ram[..], old(blocks), old(free), size, IndexOf(old(blocks), p - HDR), RequestWords(bytes))
                && available == old(available) + Capacity(old(blocks[IndexOf(blocks, p - HDR)]), HDR) + (WORDS - RequestWords(bytes))
                && maxUsed == old(maxUsed)
      ensures r == NULL && bytes != 0 ==> ram[..] == old(ram[..])
    {
      hide Chained, Tiled, NoFreePair, OnFree, Ringed, Lists, FreeCapacity, FreeStarts, Shrink, Release, FirstOnRing;
      hide TakenBlocks, TakenFree, FreedRing, GrownBlocks, ShrunkRing, MovedBlocks, IndexOf, SamePayloads, Live, WordsMoved;
      hide ReallocPtr, ReallocBlocks, ReallocPeak, Roomy, NoRings, Overran;
      ghost var s, bs := ram[..], blocks;
      ReallocCases(blocks, free, available, p, bytes);
      if bytes == 0 {
        Free(p);
        SameCommon(s, ram[..], Live(blocks), Live(bs));
        RingsThere(ram[..], size, blocks, free);
        return NULL;
      }
      var w := AlignWords(bytes);
      if w < MIN {
        w := MIN;
      }
      if p == NULL {
        r := Alloc(4 * w);
        SameCommon(s, ram[..], Live(bs), Live(blocks));
        RingsThere(ram[..], size, blocks, free);
        return;
      }
      r := Resize(p, w, bytes);
      ResizedRings(s, ram[..], size, bs, old(free), blocks, free, p, bytes);
    }
  }

  // ---------------------------------------------------------------- what the operations do

  const NULL: nat := 0   // payload offsets start at HDR

  /** Position of `x` on the free ring, or |fl|. */
  ghost function Pos(fl: seq<nat>, x: nat): (k: nat)
    ensures k <= |fl|
    ensures k < |fl| ==> fl[k] == x
    ensures k == |fl| ==> x !in fl
  {
    if fl == [] then 0
    else if fl[0] == x then 0
    else 1 + Pos(fl[1..], x)
  }

  ghost function Without(fl: seq<nat>, x: nat): seq<nat> {
    var k := Pos(fl, x);
    if k < |fl| then fl[..k] + fl[k + 1..] else fl
  }

  lemma WithoutGone(fl: seq<nat>, bs: seq<Block>, x: nat)
    requires OnFree(fl, bs) && x in fl
    ensures var k := Pos(fl, x);
            && k < |fl| && fl[k] == x && Without(fl, x) == fl[..k] + fl[k + 1..] && x !in Without(fl, x)
  {
    FewerOnFree(fl, bs, Pos(fl, x));
  }

  /** The list of free nodes after `x` was taken off, for any ring that lists exactly the free blocks. */
  lemma WithoutLists(fl: seq<nat>, bs: seq<Block>, x: nat)
    requires Lists(fl, bs) && x in FreeStarts(bs)
    ensures Pos(fl, x) < |fl| && OnFree(Without(fl, x), bs)
    ensures forall y :: y in Without(fl, x) <==> y in FreeStarts(bs) - {x}
  {
    ListedExactly(fl, bs);
    hide Lists, OnFree, FreeStarts;
    FewerOnFree(fl, bs, Pos(fl, x));
  }

  /** The block a payload offset belongs to; the tail is never handed out. */
  ghost predicate IsLive(bs: seq<Block>, p: nat) {
    HDR <= p && IndexOf(bs, p - HDR) + 1 < |bs| && bs[IndexOf(bs, p - HDR)].used
  }

  /** First block on the free ring with `w` words, or |fl|. */
  ghost function FirstOnRing(fl: seq<nat>, bs: seq<Block>, w: nat): (k: nat)
    ensures k <= |fl|
    ensures k < |fl| ==> BigEnough(bs, fl[k], w)
    ensures forall j :: 0 <= j < k ==> !BigEnough(bs, fl[j], w)
  {
    if fl == [] then 0
    else if BigEnough(bs, fl[0], w) then 0
    else
      var k := 1 + FirstOnRing(fl[1..], bs, w);
      assert forall j :: 0 < j < k ==> fl[j] == fl[1..][j - 1];
      k
  }

  ghost predicate BigEnough(bs: seq<Block>, x: nat, w: nat) {
    var i := IndexOf(bs, x);
    i < |bs| && Capacity(bs[i], HDR) >= w
  }

  /** The payload size rt_memheap_alloc looks for. */
  function RequestWords(bytes: Bytes): nat {
    if AlignWords(bytes) < MIN then MIN else AlignWords(bytes)
  }

  lemma FirstIs(fl: seq<nat>, bs: seq<Block>, w: nat, k: nat)
    requires k <= |fl| && forall j :: 0 <= j < k ==> !BigEnough(bs, fl[j], w)
    requires k < |fl| ==> BigEnough(bs, fl[k], w)
    ensures FirstOnRing(fl, bs, w) == k
  {
  }

  /** Where the walk along the free ring stands after `k` steps, and what it reads there. */
  lemma RingStep(s: seq<int>, bs: seq<Block>, size: nat, fl: seq<nat>, k: nat)
    requires |s| == size + HDR && Ringed(s, size, fl) && Tiled(bs, HDR, 0, size) && Chained(s, bs, size)
    requires Lists(fl, bs) && k <= |fl|
    ensures ([size] + fl)[k] + HDR <= |s| && s[([size] + fl)[k] + NEXT_FREE] == After(size, fl, k)
    ensures k > 0 ==> ([size] + fl)[k] == fl[k - 1]
    ensures k < |fl| ==>
              var i := IndexOf(bs, fl[k]);
              && fl[k] in FreeStarts(bs) && fl[k] != size && i < |bs| && bs[i].start == fl[k]
              && fl[k] + HDR <= |s| && s[fl[k] + NEXT] - fl[k] - HDR == Capacity(bs[i], HDR) && !bs[i].used
  {
    hide Tiled, Chained, Lists;
    var r := [size] + fl;
    assert k < |fl| ==> r[k + 1] == fl[k];
    assert k < |fl| ==> Follows(s, r[k], r[k + 1]);
    if k < |fl| {
      NodeRead(s, bs, size, fl, k);
    }
  }

  lemma NodeRead(s: seq<int>, bs: seq<Block>, size: nat, fl: seq<nat>, k: nat)
    requires |s| == size + HDR && Tiled(bs, HDR, 0, size) && Chained(s, bs, size) && Lists(fl, bs) && k < |fl|
    ensures var i := IndexOf(bs, fl[k]);
            && fl[k] in FreeStarts(bs) && fl[k] != size && i < |bs| && bs[i].start == fl[k]
            && fl[k] + HDR <= |s| && s[fl[k] + NEXT] - fl[k] - HDR == Capacity(bs[i], HDR) && !bs[i].used
  {
    hide Tiled, Chained, Lists, FreeStarts, IndexOf;
    assert fl[k] in fl;
    ListedIs(fl, bs, fl[k]);
    NodeIndex(s, bs, size, fl[k]);
    HeadersInside(s, bs, size, IndexOf(bs, fl[k]));
  }

  /** The rings after the block at `x` was handed out for `w` words. */
  ghost function TakenBlocks(bs: seq<Block>, x: nat, w: nat): seq<Block>
    requires IndexOf(bs, x) < |bs|
  {
    Carve(bs, HDR, MIN, IndexOf(bs, x), w)
  }

  ghost function TakenFree(bs: seq<Block>, fl: seq<nat>, x: nat, w: nat): seq<nat>
    requires IndexOf(bs, x) < |bs|
  {
    if Capacity(bs[IndexOf(bs, x)], HDR) >= w + HDR + MIN then [x + HDR + w] + Without(fl, x) else Without(fl, x)
  }

  lemma IndexIs(bs: seq<Block>, size: nat, i: nat)
    requires Tiled(bs, HDR, 0, size) && i < |bs|
    ensures IndexOf(bs, bs[i].start) == i
  {
    AllOrdered(bs, HDR, 0, size);
  }

  /** A node of the free ring is the header of a free block below the tail. */
  lemma NodeIndex(s: seq<int>, bs: seq<Block>, size: nat, x: nat)
    requires Tiled(bs, HDR, 0, size) && Chained(s, bs, size) && x in FreeStarts(bs)
    ensures var i := IndexOf(bs, x); i + 1 < |bs| && bs[i].start == x && !bs[i].used && i < |bs|
  {
    var b :| b in bs && !b.used && b.start == x;
    var j :| 0 <= j < |bs| && bs[j] == b;
    IndexIs(bs, size, j);
  }

  lemma TakeFacts(bs: seq<Block>, fl: seq<nat>, size: nat, x: nat, w: nat)
    requires Wf(bs, HDR, 0, size) && Lists(fl, bs) && OnFree(fl, bs) && x in FreeStarts(bs)
    requires var i := IndexOf(bs, x); i < |bs| && !bs[i].used && Capacity(bs[i], HDR) >= w
    ensures var i, r, g := IndexOf(bs, x), TakenBlocks(bs, x, w), TakenFree(bs, fl, x, w);
            && Wf(r, HDR, 0, size) && OnFree(g, r) && Lists(g, r)
            && FreeCapacity(r, HDR) == FreeCapacity(bs, HDR) -
                 (if Capacity(bs[i], HDR) >= w + HDR + MIN then w + HDR else Capacity(bs[i], HDR))
            && (Capacity(bs[i], HDR) >= w + HDR + MIN ==>
                  && r == Cut(bs[i := bs[i].(used := true)], HDR, i, w)
                  && g == [x + HDR + w] + Without(fl, x))
            && (Capacity(bs[i], HDR) < w + HDR + MIN ==> r == bs[i := bs[i].(used := true)] && g == Without(fl, x))
  {
    hide Tiled, NoFreePair, FreeCapacity, FreeStarts, Live, IndexOf, Pos, OnFree, Lists, Without;
    var i := IndexOf(bs, x);
    CarveKeeps(bs, HDR, MIN, 0, size, i, w);
    WithoutLists(fl, bs, x);
    SumsOne(bs[i], HDR);
    if Capacity(bs[i], HDR) >= w + HDR + MIN {
      TakeSplit(bs, Without(fl, x), size, i, w);
    } else {
      SumsOne(bs[i].(used := true), HDR);
      SumsSet(bs, HDR, i, bs[i].(used := true));
      FreeStartsSet(bs, HDR, 0, size, i, true);
      ListsFrom(Without(fl, x), bs, TakenBlocks(bs, x, w));
    }
  }

  /** The front of a free block is used now and what is left of it is listed in its place. */
  lemma TakeSplit(bs: seq<Block>, rest: seq<nat>, size: nat, i: nat, w: nat)
    requires Tiled(bs, HDR, 0, size) && i < |bs| && !bs[i].used && Capacity(bs[i], HDR) >= w + HDR + MIN
    requires OnFree(rest, bs) && forall y :: y in rest <==> y in FreeStarts(bs) - {bs[i].start}
    ensures var c, q := Cut(bs, HDR, i, w), bs[i].start + HDR + w;
            && OnFree([q] + rest, c) && Lists([q] + rest, c)
            && c == Cut(bs[i := bs[i].(used := true)], HDR, i, w)
            && FreeCapacity(c, HDR) == FreeCapacity(bs, HDR) - (w + HDR)
  {
    hide Tiled, FreeCapacity, FreeStarts, OnFree, Lists;
    var q := bs[i].start + HDR + w;
    SumsOne(bs[i], HDR);
    SumsCut(bs, HDR, i, w);
    FreeStartsCut(bs, HDR, 0, size, i, w);
    NewNode(bs, size, i, q);
    PrependLists(rest, bs, Cut(bs, HDR, i, w), q);
  }

  lemma TakenListed(bs: seq<Block>, size: nat, x: nat, w: nat)
    requires Wf(bs, HDR, 0, size)
    requires var i := IndexOf(bs, x); i < |bs| && !bs[i].used && Capacity(bs[i], HDR) >= w >= MIN
    requires Roomy(Live(bs), size)
    ensures Live(bs) <= All(bs) && Live(bs) <= All(TakenBlocks(bs, x, w)) && Roomy(Live(TakenBlocks(bs, x, w)), size)
  {
    hide Tiled, NoFreePair, Live, All, Carve, IndexOf, Roomy;
    CarveKeeps(bs, HDR, MIN, 0, size, IndexOf(bs, x), w);
    RoomyOne(Live(bs), Live(TakenBlocks(bs, x, w)), TakenBlocks(bs, x, w)[IndexOf(bs, x)], size);
    LiveListed(bs);
    LiveListed(TakenBlocks(bs, x, w));
  }

  ghost predicate FreeBefore(bs: seq<Block>, i: nat)
    requires i < |bs|
  {
    i > 0 && !bs[i - 1].used
  }

  ghost function FreedBlocks(bs: seq<Block>, p: nat): seq<Block>
    requires p == NULL || IsLive(bs, p)
  {
    if p == NULL then bs else Release(bs, IndexOf(bs, p - HDR))
  }

  /** The free ring after block `i` was freed: it joins the ring unless its predecessor swallowed it. */
  ghost function FreedRing(bs: seq<Block>, fl: seq<nat>, p: nat): seq<nat>
    requires p == NULL || IsLive(bs, p)
  {
    if p == NULL then fl else ReleasedRing(bs, fl, IndexOf(bs, p - HDR))
  }

  ghost function ReleasedRing(bs: seq<Block>, fl: seq<nat>, i: nat): seq<nat>
    requires i + 1 < |bs|
  {
    var rest := if bs[i + 1].used then fl else Without(fl, bs[i + 1].start);
    if FreeBefore(bs, i) then rest else [bs[i].start] + rest
  }

  /** Merging left first comes to the same list as merging right first. */
  lemma EitherOrder(f: seq<Block>, i: nat)
    requires i + 1 < |f| && !f[i].used
    ensures JoinNext(JoinPrev(f, i), if FreeBefore(f, i) then i - 1 else i) == Coalesce(f, i)
  {
    if FreeBefore(f, i) && !f[i + 1].used {
      var u, v := Join(Join(f, i - 1), i - 1), Join(Join(f, i), i - 1);
      assert |u| == |v|;
      assert forall j :: 0 <= j < |u| ==> u[j] == v[j];
    }
  }

  /** Value-level account of rt_memheap_free on block `i`. */
  lemma FreeFacts(bs: seq<Block>, fl: seq<nat>, size: nat, i: nat)
    requires Wf(bs, HDR, 0, size) && Lists(fl, bs) && OnFree(fl, bs) && i + 1 < |bs| && bs[i].used
    ensures var p := bs[i].start + HDR;
            && IsLive(bs, p) && IndexOf(bs, bs[i].start) == i
            && bs[i].start !in fl
            && (!bs[i + 1].used ==> bs[i + 1].start in fl)
            && Wf(FreedBlocks(bs, p), HDR, 0, size)
            && OnFree(FreedRing(bs, fl, p), FreedBlocks(bs, p)) && Lists(FreedRing(bs, fl, p), FreedBlocks(bs, p))
            && Live(FreedBlocks(bs, p)) <= Live(bs)
            && FreeCapacity(FreedBlocks(bs, p), HDR) == FreeCapacity(bs, HDR) + Capacity(bs[i], HDR)
                 + (if FreeBefore(bs, i) then HDR else 0) + (if bs[i + 1].used then 0 else HDR)
  {
    hide Tiled, NoFreePair, FreeCapacity, FreeStarts, Live, Lists, OnFree, Release;
    IndexIs(bs, size, i);
    UsedNotListed(bs, size, fl, i);
    if !bs[i + 1].used {
      FreeStartIn(bs, i + 1);
      ListedIs(fl, bs, bs[i + 1].start);
    }
    ReleaseKeeps(bs, HDR, 0, size, i);
    LessOne(Live(bs), bs[i]);
    FreeSums(bs, size, i);
    FreeLists(bs, fl, size, i);
  }

  /** What stays live while block `i` is freed is on every list the merging passes through. */
  lemma FreedListed(bs: seq<Block>, size: nat, i: nat)
    requires Wf(bs, HDR, 0, size) && i + 1 < |bs| && bs[i].used && IsLive(bs, bs[i].start + HDR)
    requires IndexOf(bs, bs[i].start) == i
    ensures var left, f := Live(FreedBlocks(bs, bs[i].start + HDR)), bs[i := bs[i].(used := false)];
            left <= All(bs) && left <= All(f) && left <= All(JoinPrev(f, i)) && left <= All(FreedBlocks(bs, bs[i].start + HDR))
            && left <= Live(bs)
  {
    hide Tiled, NoFreePair, JoinPrev, Release, IndexOf, Live, All;
    var f := bs[i := bs[i].(used := false)];
    ReleaseKeeps(bs, HDR, 0, size, i);
    LiveSet(bs, HDR, 0, size, i, f[i]);
    JoinPrevLists(f, i);
    LiveListed(bs);
    LiveListed(f);
    LiveListed(FreedBlocks(bs, bs[i].start + HDR));
    LessOne(Live(bs), bs[i]);
  }

  lemma LessOne(live: set<Block>, b: Block)
    ensures live - {b} <= live
  {
  }

  lemma JoinPrevLists(f: seq<Block>, i: nat)
    requires i < |f| && !f[i].used
    ensures Live(f) <= All(JoinPrev(f, i))
  {
    forall b | b in Live(f)
      ensures b in JoinPrev(f, i)
    {
      var k :| 0 <= k < |f| && f[k] == b;
      if FreeBefore(f, i) {
        assert k < i - 1 ==> JoinPrev(f, i)[k] == b;
        assert k > i ==> JoinPrev(f, i)[k - 1] == b;
      }
    }
  }

  lemma ListedIs(fl: seq<nat>, bs: seq<Block>, x: nat)
    requires Lists(fl, bs)
    ensures x in fl <==> x in FreeStarts(bs)
  {
  }

  lemma FreeSums(bs: seq<Block>, size: nat, i: nat)
    requires Wf(bs, HDR, 0, size) && i + 1 < |bs| && bs[i].used
    ensures FreeCapacity(Release(bs, i), HDR) == FreeCapacity(bs, HDR) + Capacity(bs[i], HDR)
              + (if FreeBefore(bs, i) then HDR else 0) + (if bs[i + 1].used then 0 else HDR)
    ensures FreeStarts(Release(bs, i)) == FreeStarts(bs) - (if bs[i + 1].used then {} else {bs[i + 1].start})
              + (if FreeBefore(bs, i) then {} else {bs[i].start})
  {
    hide NoFreePair, FreeCapacity, FreeStarts, Tiled;
    var b := bs[i].(used := false);
    var f := bs[i := b];
    SumsSet(bs, HDR, i, b);
    SumsOne(bs[i], HDR);
    SumsOne(b, HDR);
    FreeStartsSet(bs, HDR, 0, size, i, false);
    ReadyToCoalesce(bs, HDR, 0, size, i);
    JoinSums(f, size, i);
    UsedNotFree(bs, size, i);
    hide Release, Coalesce;
    Regained(FreeStarts(bs), bs[i].start, if bs[i + 1].used then {} else {bs[i + 1].start}, FreeBefore(bs, i));
  }

  lemma Regained(starts: set<nat>, x: nat, gone: set<nat>, merged: bool)
    requires x !in starts && x !in gone
    ensures starts - {x} + {x} - gone - (if merged then {x} else {}) == starts - gone + (if merged then {} else {x})
  {
  }

  lemma UsedNotFree(bs: seq<Block>, size: nat, i: nat)
    requires Tiled(bs, HDR, 0, size) && i < |bs|
    ensures bs[i].used ==> bs[i].start !in FreeStarts(bs)
    ensures i + 1 < |bs| ==> bs[i].start != bs[i + 1].start
  {
    AllOrdered(bs, HDR, 0, size);
  }

  lemma JoinSums(f: seq<Block>, size: nat, i: nat)
    requires Tiled(f, HDR, 0, size) && i + 1 < |f| && !f[i].used && FreePairsOnlyAt(f, i)
    ensures FreeCapacity(Coalesce(f, i), HDR) == FreeCapacity(f, HDR)
              + (if FreeBefore(f, i) then HDR else 0) + (if f[i + 1].used then 0 else HDR)
    ensures FreeStarts(Coalesce(f, i)) == FreeStarts(f) - (if f[i + 1].used then {} else {f[i + 1].start})
              - (if FreeBefore(f, i) then {f[i].start} else {})
  {
    hide NoFreePair, FreeCapacity, FreeStarts, Live, Tiled, FreePairsOnlyAt;
    var a := JoinNext(f, i);
    NextSums(f, size, i);
    if FreeBefore(f, i) {
      hide JoinNext;
      JoinOne(a, size, i - 1);
    }
  }

  /** Merging forwards comes first. */
  lemma NextSums(f: seq<Block>, size: nat, i: nat)
    requires Tiled(f, HDR, 0, size) && i + 1 < |f| && !f[i].used && FreePairsOnlyAt(f, i)
    ensures var a := JoinNext(f, i);
            && Tiled(a, HDR, 0, size) && i < |a| && !a[i].used && a[i].start == f[i].start
            && FreeBefore(a, i) == FreeBefore(f, i)
            && FreeCapacity(a, HDR) == FreeCapacity(f, HDR) + (if f[i + 1].used then 0 else HDR)
            && FreeStarts(a) == FreeStarts(f) - (if f[i + 1].used then {} else {f[i + 1].start})
  {
    hide NoFreePair, FreeCapacity, FreeStarts, Live, Tiled, FreePairsOnlyAt;
    JoinNextKeeps(f, HDR, 0, size, i);
    if !f[i + 1].used {
      JoinOne(f, size, i);
    }
  }

  lemma JoinOne(bs: seq<Block>, size: nat, i: nat)
    requires Tiled(bs, HDR, 0, size) && i + 1 < |bs| && !bs[i].used && !bs[i + 1].used
    ensures FreeCapacity(Join(bs, i), HDR) == FreeCapacity(bs, HDR) + HDR
    ensures FreeStarts(Join(bs, i)) == FreeStarts(bs) - {bs[i + 1].start}
    ensures Join(bs, i)[i].start == bs[i].start
  {
    SumsJoin(bs, HDR, i);
    FreeStartsJoin(bs, HDR, 0, size, i);
  }

  lemma FreeLists(bs: seq<Block>, fl: seq<nat>, size: nat, i: nat)
    requires Wf(bs, HDR, 0, size) && Lists(fl, bs) && OnFree(fl, bs) && i + 1 < |bs| && bs[i].used
    requires IsLive(bs, bs[i].start + HDR) && IndexOf(bs, bs[i].start) == i
    ensures var p := bs[i].start + HDR;
            OnFree(FreedRing(bs, fl, p), FreedBlocks(bs, p)) && Lists(FreedRing(bs, fl, p), FreedBlocks(bs, p))
  {
    hide Tiled, NoFreePair, FreeStarts, Release, Pos, IndexOf, Without, Lists, OnFree;
    var rest := if bs[i + 1].used then fl else Without(fl, bs[i + 1].start);
    FreeSums(bs, size, i);
    UsedNotFree(bs, size, i);
    if bs[i + 1].used {
      ListedExactly(fl, bs);
    } else {
      FreeStartIn(bs, i + 1);
      WithoutLists(fl, bs, bs[i + 1].start);
    }
    if FreeBefore(bs, i) {
      ListsFrom(rest, bs, Release(bs, i));
    } else {
      PrependLists(rest, bs, Release(bs, i), bs[i].start);
    }
  }

  /** The intermediate list, after the predecessor but before the successor was merged. */
  lemma FreeShape(bs: seq<Block>, size: nat, i: nat)
    requires Wf(bs, HDR, 0, size) && i + 1 < |bs| && bs[i].used && IndexOf(bs, bs[i].start) == i
    ensures var f := bs[i := bs[i].(used := false)];
            var a := JoinPrev(f, i);
            var k := if FreeBefore(bs, i) then i - 1 else i;
            && FreeBefore(f, i) == FreeBefore(bs, i)
            && k + 1 < |a| && !a[k].used && a[k].start == (if FreeBefore(bs, i) then bs[i - 1].start else bs[i].start)
            && a[k + 1] == bs[i + 1]
            && JoinNext(a, k) == Release(bs, i)
  {
    EitherOrder(bs[i := bs[i].(used := false)], i);
  }

  /** Block `i` enlarged to `w` words at the expense of the free block behind it. */
  ghost function GrownBlocks(bs: seq<Block>, i: nat, w: nat): seq<Block>
    requires i + 1 < |bs|
  {
    Cut(Absorb(bs, i), HDR, i, w)
  }

  ghost function GrownRing(bs: seq<Block>, fl: seq<nat>, i: nat, w: nat): seq<nat>
    requires i + 1 < |bs|
  {
    [bs[i].start + HDR + w] + Without(fl, bs[i + 1].start)
  }

  ghost function ShrunkRing(bs: seq<Block>, fl: seq<nat>, i: nat, w: nat): seq<nat>
    requires i + 1 < |bs|
  {
    [bs[i].start + HDR + w] + (if bs[i + 1].used then fl else Without(fl, bs[i + 1].start))
  }

  lemma GrowFacts(bs: seq<Block>, fl: seq<nat>, size: nat, i: nat, w: nat)
    requires Wf(bs, HDR, 0, size) && Lists(fl, bs) && OnFree(fl, bs) && i + 2 < |bs| && bs[i].used && !bs[i + 1].used
    requires Capacity(bs[i], HDR) < w && w + MIN < Capacity(bs[i], HDR) + Capacity(bs[i + 1], HDR)
    ensures var r, g := GrownBlocks(bs, i, w), GrownRing(bs, fl, i, w);
            && bs[i + 1].start in fl
            && bs[i].end == bs[i + 1].start && Absorb(bs, i)[i] == Block(bs[i].start, bs[i + 1].end, true)
            && i + 1 < |Absorb(bs, i)|
            && Wf(r, HDR, 0, size) && OnFree(g, r) && Lists(g, r)
            && Live(r) == Live(bs) - {bs[i]} + {Block(bs[i].start, bs[i].start + HDR + w, true)}
            && FreeCapacity(r, HDR) == FreeCapacity(bs, HDR) - (w - Capacity(bs[i], HDR))
  {
    hide Tiled, NoFreePair, FreeCapacity, FreeStarts, Live, OnFree, Without;
    var a := Absorb(bs, i);
    FreeStartIn(bs, i + 1);
    ListedIs(fl, bs, bs[i + 1].start);
    WithoutLists(fl, bs, bs[i + 1].start);
    AbsorbFacts(bs, size, i);
    WfCut(a, HDR, 0, size, i, w);
    GrownSeparate(bs, i, w);
    LiveCut(a, HDR, 0, size, i, w);
    SumsCut(a, HDR, i, w);
    SumsOne(a[i], HDR);
    FreeStartsCut(a, HDR, 0, size, i, w);
    FreeStartsAbsorb(bs, size, i);
    UsedNotFree(bs, size, i);
    GrownNode(bs, size, i, bs[i].start + HDR + w);
    PrependLists(Without(fl, bs[i + 1].start), bs, GrownBlocks(bs, i, w), bs[i].start + HDR + w);
  }

  /** What the steps of growing rely on, whether or not the new header lies where it should. */
  lemma GrowReady(bs: seq<Block>, fl: seq<nat>, size: nat, i: nat, w: nat)
    requires Wf(bs, HDR, 0, size) && Lists(fl, bs) && OnFree(fl, bs) && i + 2 < |bs| && bs[i].used && !bs[i + 1].used
    requires 4 * size < WORD_RANGE && Roomy(Live(bs), size) && w < WORDS && GrowsInPlace(bs, i, w)
    ensures var a, x, c := Absorb(bs, i), bs[i].start, Capacity(bs[i], HDR);
            && c < w && bs[i + 1].start in fl && bs[i].end == bs[i + 1].start
            && i + 1 < |a| && a[i] == Block(x, bs[i + 1].end, true)
            && 0 <= FreeCapacity(bs, HDR) && FreeCapacity(bs, HDR) + c + 2 * HDR <= size < WORDS
            && (w + MIN >= WORDS ==> (x + HDR + w) % WORDS == x + HDR + w - WORDS > x + NEXT && x + HDR + w - WORDS + HDR <= a[i].end)
            && (w + MIN < WORDS ==>
                  && (x + HDR + w) % WORDS == x + HDR + w && x + HDR + w + HDR <= a[i].end
                  && w <= FreeCapacity(bs, HDR) + c
                  && Grown(bs, fl, size, i, w))
  {
    hide Tiled, NoFreePair, FreeCapacity, FreeStarts, Live, OnFree, Lists, Roomy, Grown, Absorb;
    GrowTest(bs, size, i, w);
    GrowBound(bs, size, i);
    AbsorbLen(bs, i);
    FreeStartIn(bs, i + 1);
    ListedIs(fl, bs, bs[i + 1].start);
    if w + MIN < WORDS {
      GrowSound(bs, fl, size, i, w);
    }
  }

  lemma AbsorbLen(bs: seq<Block>, i: nat)
    requires i + 2 < |bs| && bs[i].used
    ensures i + 1 < |Absorb(bs, i)| && Absorb(bs, i)[i] == Block(bs[i].start, bs[i + 1].end, true)
  {
  }

  lemma WfWhole(bs: seq<Block>, size: nat)
    requires Wf(bs, HDR, 0, size)
    ensures 0 <= FreeCapacity(bs, HDR)
  {
    FreeBound(bs, 0, size);
  }

  /** The rings after block `i` has grown to `w` words are sound, with one live block for another. */
  ghost predicate Grown(bs: seq<Block>, fl: seq<nat>, size: nat, i: nat, w: nat)
    requires i + 1 < |bs|
  {
    var r, g := GrownBlocks(bs, i, w), GrownRing(bs, fl, i, w);
    && Wf(r, HDR, 0, size) && OnFree(g, r) && Lists(g, r) && Roomy(Live(r), size)
    && Live(r) == Live(bs) - {bs[i]} + {Block(bs[i].start, bs[i].start + HDR + w, true)}
    && FreeCapacity(r, HDR) == FreeCapacity(bs, HDR) - (w - Capacity(bs[i], HDR))
  }

  lemma GrowSound(bs: seq<Block>, fl: seq<nat>, size: nat, i: nat, w: nat)
    requires Wf(bs, HDR, 0, size) && Lists(fl, bs) && OnFree(fl, bs) && i + 2 < |bs| && bs[i].used && !bs[i + 1].used
    requires Capacity(bs[i], HDR) < w && MIN <= w && w + MIN < Capacity(bs[i], HDR) + Capacity(bs[i + 1], HDR)
    requires Roomy(Live(bs), size)
    ensures Grown(bs, fl, size, i, w) && w <= FreeCapacity(bs, HDR) + Capacity(bs[i], HDR)
  {
    hide Tiled, NoFreePair, FreeCapacity, FreeStarts, Live, OnFree, Lists, Roomy, GrownBlocks, GrownRing;
    GrowFacts(bs, fl, size, i, w);
    RoomyOne(Live(bs), Live(GrownBlocks(bs, i, w)), Block(bs[i].start, bs[i].start + HDR + w, true), size);
    WfWhole(GrownBlocks(bs, i, w), size);
  }

  lemma GrownSame(s: seq<int>, t: seq<int>, u: seq<int>, bs: seq<Block>, i: nat, w: nat)
    requires i + 1 < |bs| && Capacity(bs[i], HDR) < w
    requires SamePayloads(HDR, s, t, All(bs)) && SamePayloads(HDR, t, u, All(GrownBlocks(bs, i, w)))
    requires Live(GrownBlocks(bs, i, w)) == Live(bs) - {bs[i]} + {Block(bs[i].start, bs[i].start + HDR + w, true)}
    ensures SamePayloads(HDR, s, u, Live(bs))
  {
    hide SamePayloads, All, Live, GrownBlocks;
    var r := GrownBlocks(bs, i, w);
    LiveListed(bs);
    LiveListed(r);
    SameTrans(HDR, t, u, u, All(r), All(r), Live(r));
    GrownCovers(t, u, bs, i, w);
    SameTrans(HDR, s, t, u, All(bs), Live(bs), Live(bs));
  }

  /** The grown block covers the payload it grew from. */
  lemma GrownCovers(s: seq<int>, t: seq<int>, bs: seq<Block>, i: nat, w: nat)
    requires i + 1 < |bs| && Capacity(bs[i], HDR) < w
    requires Live(GrownBlocks(bs, i, w)) == Live(bs) - {bs[i]} + {Block(bs[i].start, bs[i].start + HDR + w, true)}
    requires SamePayloads(HDR, s, t, Live(GrownBlocks(bs, i, w)))
    ensures SamePayloads(HDR, s, t, Live(bs))
  {
    hide GrownBlocks, Live;
    var live, front := Live(GrownBlocks(bs, i, w)), Block(bs[i].start, bs[i].start + HDR + w, true);
    assert front in live;
    forall b, k | b in Live(bs) && b.start + HDR <= k < b.end && k < |s|
      ensures s[k] == t[k]
    {
      assert b in live || front in live;
    }
  }

  lemma AbsorbFacts(bs: seq<Block>, size: nat, i: nat)
    requires Tiled(bs, HDR, 0, size) && i + 1 < |bs| && bs[i].used && !bs[i + 1].used
    ensures var a := Absorb(bs, i);
            && Tiled(a, HDR, 0, size) && i < |a| && a[i] == Block(bs[i].start, bs[i + 1].end, true)
            && bs[i].end == bs[i + 1].start
            && Live(a) - {a[i]} == Live(bs) - {bs[i]}
            && FreeCapacity(a, HDR) == FreeCapacity(bs, HDR) - Capacity(bs[i + 1], HDR)
  {
    TiledAbsorb(bs, size, i);
    AbsorbSums(bs, i);
    AbsorbLive(bs, size, i);
  }

  lemma AbsorbSums(bs: seq<Block>, i: nat)
    requires i + 1 < |bs| && bs[i].used && !bs[i + 1].used
    ensures FreeCapacity(Absorb(bs, i), HDR) == FreeCapacity(bs, HDR) - Capacity(bs[i + 1], HDR)
  {
    hide FreeCapacity;
    var x, y := bs[i], bs[i + 1];
    var whole := Block(x.start, y.end, true);
    assert bs[i..i + 2] == [x, y];
    SumsSplice(bs, HDR, i, 2, [whole]);
    SumsOne(whole, HDR);
    SumsOne(x, HDR);
    SumsOne(y, HDR);
    SumsTwo(x, y, HDR);
  }

  lemma AbsorbLive(bs: seq<Block>, size: nat, i: nat)
    requires Tiled(bs, HDR, 0, size) && i + 1 < |bs| && bs[i].used && !bs[i + 1].used
    ensures Live(Absorb(bs, i)) - {Block(bs[i].start, bs[i + 1].end, true)} == Live(bs) - {bs[i]}
  {
    hide Tiled, Live;
    var x, y := bs[i], bs[i + 1];
    var whole := Block(x.start, y.end, true);
    assert bs[i..i + 2] == [x, y];
    LiveSplice(bs, HDR, 0, size, i, 2, [whole]);
    LiveOfTwo(x, y, whole);
    StartTaken(bs, size, i, whole);
    assert Live(bs) - {x} + {whole} - {whole} == Live(bs) - {x};
  }

  lemma LiveOfTwo(x: Block, y: Block, whole: Block)
    requires x.used && !y.used && whole.used
    ensures Live([x, y]) == {x} && Live([whole]) == {whole}
  {
    assert x in [x, y] && whole in [whole];
  }

  lemma StartTaken(bs: seq<Block>, size: nat, i: nat, b: Block)
    requires Tiled(bs, HDR, 0, size) && i < |bs| && b.start == bs[i].start
    ensures b !in Live(bs) - {bs[i]}
  {
    AllOrdered(bs, HDR, 0, size);
  }

  lemma GrownSeparate(bs: seq<Block>, i: nat, w: nat)
    requires NoFreePair(bs) && i + 1 < |bs| && bs[i].used && !bs[i + 1].used
    ensures NoFreePair(GrownBlocks(bs, i, w))
  {
    var r := GrownBlocks(bs, i, w);
    assert forall j :: 0 <= j < i ==> r[j] == bs[j];
    assert forall j :: i + 2 <= j < |r| ==> r[j] == bs[j];
    assert r[i].used && (i + 2 < |r| ==> bs[i + 1].used || bs[i + 2].used);
  }

  /** The new header either lies inside a block or where the swallowed header was. */
  lemma GrownNode(bs: seq<Block>, size: nat, i: nat, q: nat)
    requires Tiled(bs, HDR, 0, size) && i + 1 < |bs| && bs[i].start < q < bs[i + 1].end && bs[i].used
    ensures q !in FreeStarts(bs) - {bs[i + 1].start}
  {
    AllOrdered(bs, HDR, 0, size);
  }

  lemma ShrinkFacts(bs: seq<Block>, fl: seq<nat>, size: nat, i: nat, w: nat)
    requires Wf(bs, HDR, 0, size) && Lists(fl, bs) && OnFree(fl, bs) && i + 1 < |bs| && bs[i].used
    requires w + HDR + MIN < Capacity(bs[i], HDR)
    ensures var c, r, g := Cut(bs, HDR, i, w), Shrink(bs, HDR, i, w), ShrunkRing(bs, fl, i, w);
            var q := bs[i].start + HDR + w;
            && |c| == |bs| + 1 && c[i + 1] == Block(q, bs[i].end, false) && c[i + 2] == bs[i + 1]
            && (!bs[i + 1].used ==> bs[i + 1].start in fl && r == Absorb(c, i + 1))
            && (bs[i + 1].used ==> r == c)
            && i + 2 <= |r| && r[i + 1] == Block(q, if bs[i + 1].used then bs[i].end else bs[i + 1].end, false)
            && Wf(r, HDR, 0, size) && OnFree(g, r) && Lists(g, r)
            && FreeCapacity(r, HDR) == FreeCapacity(bs, HDR) + Capacity(r[i + 1], HDR)
                 - (if bs[i + 1].used then 0 else Capacity(bs[i + 1], HDR))
            && FreeCapacity(r, HDR) >= FreeCapacity(bs, HDR)
  {
    hide Tiled, NoFreePair, FreeCapacity, FreeStarts, Live, OnFree, Lists, Without, Shrink;
    var c, q := Cut(bs, HDR, i, w), bs[i].start + HDR + w;
    var rest := if bs[i + 1].used then fl else Without(fl, bs[i + 1].start);
    ShrunkShape(bs, size, i, w);
    ShrinkKeeps(bs, HDR, 0, size, i, w);
    SumsCut(bs, HDR, i, w);
    SumsOne(bs[i], HDR);
    FreeStartsCut(bs, HDR, 0, size, i, w);
    UsedNotFree(bs, size, i);
    NewNode(bs, size, i, q);
    if bs[i + 1].used {
      ListedExactly(fl, bs);
    } else {
      FreeStartIn(bs, i + 1);
      WithoutLists(fl, bs, bs[i + 1].start);
      ListedIs(fl, bs, bs[i + 1].start);
      JoinOne(c, size, i + 1);
    }
    PrependLists(rest, bs, Shrink(bs, HDR, i, w), q);
  }

  lemma ShrunkListed(bs: seq<Block>, size: nat, i: nat, w: nat)
    requires Wf(bs, HDR, 0, size) && i + 1 < |bs| && bs[i].used && w + HDR <= Capacity(bs[i], HDR)
    ensures var c, r, q := Cut(bs, HDR, i, w), Shrink(bs, HDR, i, w), bs[i].start + HDR + w;
            && Live(r) <= All(c) && Live(r) <= All(r)
            && Live(r) == Live(bs) - {bs[i]} + {Block(bs[i].start, q, true)}
  {
    hide Tiled, NoFreePair, Live, All, Cut, Shrink;
    ShrinkKeeps(bs, HDR, 0, size, i, w);
    LiveListed(Cut(bs, HDR, i, w));
    LiveListed(Shrink(bs, HDR, i, w));
    LiveCut(bs, HDR, 0, size, i, w);
  }

  lemma ListedExactly(fl: seq<nat>, bs: seq<Block>)
    requires Lists(fl, bs)
    ensures OnFree(fl, bs) && forall y :: y in fl <==> y in FreeStarts(bs)
  {
  }

  lemma ShrunkShape(bs: seq<Block>, size: nat, i: nat, w: nat)
    requires Tiled(bs, HDR, 0, size) && i + 1 < |bs| && Capacity(bs[i], HDR) >= w + HDR
    ensures var c, r, q := Cut(bs, HDR, i, w), Shrink(bs, HDR, i, w), bs[i].start + HDR + w;
            && Tiled(c, HDR, 0, size)
            && |c| == |bs| + 1 && c[i + 1] == Block(q, bs[i].end, false) && c[i + 2] == bs[i + 1]
            && bs[i].end == bs[i + 1].start
            && (!bs[i + 1].used ==> r == Absorb(c, i + 1) == Join(c, i + 1))
            && (bs[i + 1].used ==> r == c)
            && i + 2 <= |r| && r[i + 1] == Block(q, if bs[i + 1].used then bs[i].end else bs[i + 1].end, false)
  {
    WfCut(bs, HDR, 0, size, i, w);
  }

  ghost function MovedPtr(bs: seq<Block>, fl: seq<nat>, available: int, p: nat, w: nat): nat {
    var k := FirstOnRing(fl, bs, w);
    if w < available && k < |fl| then fl[k] + HDR else NULL
  }

  ghost function MovedBlocks(bs: seq<Block>, fl: seq<nat>, available: int, p: nat, w: nat): seq<Block> {
    var k := FirstOnRing(fl, bs, w);
    if w < available && k < |fl| && IsLive(TakenBlocks(bs, fl[k], w), p)
    then FreedBlocks(TakenBlocks(bs, fl[k], w), p)
    else bs
  }

  /** What rt_memheap_realloc does to the block list. */
  ghost function ReallocBlocks(bs: seq<Block>, fl: seq<nat>, available: int, p: nat, bytes: Bytes): seq<Block>
    requires p == NULL || IsLive(bs, p)
  {
    var w := RequestWords(bytes);
    if bytes == 0 then FreedBlocks(bs, p)
    else if p == NULL then
      (var k := FirstOnRing(fl, bs, w); if w < available && k < |fl| then TakenBlocks(bs, fl[k], w) else bs)
    else
      var i := IndexOf(bs, p - HDR);
      if GrowsInPlace(bs, i, w) then GrownBlocks(bs, i, w)
      else if w > Capacity(bs[i], HDR) then MovedBlocks(bs, fl, available, p, w)
      else if w + HDR + MIN < Capacity(bs[i], HDR) then Shrink(bs, HDR, i, w)
      else bs
  }

  /** The list at the fullest moment of a move. */
  ghost function MovedPeak(bs: seq<Block>, fl: seq<nat>, available: int, w: nat): seq<Block> {
    var k := FirstOnRing(fl, bs, w);
    if w < available && k < |fl| && IndexOf(bs, fl[k]) < |bs| then TakenBlocks(bs, fl[k], w) else bs
  }

  /** The list at the fullest moment of a resize: a block that moves is there twice. */
  ghost function ReallocPeak(bs: seq<Block>, fl: seq<nat>, available: int, p: nat, bytes: Bytes): seq<Block>
    requires p == NULL || IsLive(bs, p)
  {
    var w := RequestWords(bytes);
    if bytes == 0 then bs
    else if p == NULL then MovedPeak(bs, fl, available, w)
    else
      var i := IndexOf(bs, p - HDR);
      if GrowsInPlace(bs, i, w) then GrownBlocks(bs, i, w)
      else if w > Capacity(bs[i], HDR) then MovedPeak(bs, fl, available, w)
      else bs
  }

  ghost function ReallocPtr(bs: seq<Block>, fl: seq<nat>, available: int, p: nat, bytes: Bytes): nat
    requires p == NULL || IsLive(bs, p)
  {
    var w := RequestWords(bytes);
    if bytes == 0 then NULL
    else if p == NULL then MovedPtr(bs, fl, available, p, w)
    else if GrowsInPlace(bs, IndexOf(bs, p - HDR), w) || w <= Capacity(bs[IndexOf(bs, p - HDR)], HDR) then p
    else MovedPtr(bs, fl, available, p, w)
  }

  /** The test for growing in place, which adds in 32-bit arithmetic. */
  ghost predicate GrowsInPlace(bs: seq<Block>, i: nat, w: nat)
    requires i + 1 < |bs|
  {
    && Capacity(bs[i], HDR) < w && !bs[i + 1].used
    && 4 * (Capacity(bs[i + 1], HDR) + Capacity(bs[i], HDR)) > 4 * (w + MIN) % WORD_RANGE
  }

  /** The two kinds of calls that do not resize anything. */
  lemma ReallocCases(bs: seq<Block>, fl: seq<nat>, available: int, p: nat, bytes: Bytes)
    requires p == NULL || IsLive(bs, p)
    ensures bytes == 0 ==>
              ReallocPtr(bs, fl, available, p, bytes) == NULL
              && ReallocBlocks(bs, fl, available, p, bytes) == FreedBlocks(bs, p)
              && ReallocPeak(bs, fl, available, p, bytes) == bs
    ensures bytes != 0 && p == NULL ==>
              var w, k := RequestWords(bytes), FirstOnRing(fl, bs, RequestWords(bytes));
              if w < available && k < |fl| && IndexOf(bs, fl[k]) < |bs| then
                ReallocPtr(bs, fl, available, p, bytes) == fl[k] + HDR
                && ReallocBlocks(bs, fl, available, p, bytes) == TakenBlocks(bs, fl[k], w)
                && ReallocPeak(bs, fl, available, p, bytes) == TakenBlocks(bs, fl[k], w)
              else
                ReallocPtr(bs, fl, available, p, bytes) == NULL
                && ReallocBlocks(bs, fl, available, p, bytes) == bs
                && ReallocPeak(bs, fl, available, p, bytes) == bs
  {
  }

  lemma PayloadStores(s: seq<int>, t: seq<int>, bs: seq<Block>, size: nat, fl: seq<nat>, i: nat)
    requires Tiled(bs, HDR, 0, size) && Chained(s, bs, size) && OnFree(fl, bs) && Ringed(s, size, fl) && |t| == |s|
    requires i + 1 < |bs| && bs[i].used
    requires forall o :: 0 <= o < |s| && !(bs[i].start + HDR <= o < bs[i].end) ==> t[o] == s[o]
    ensures Chained(t, bs, size) && Ringed(t, size, fl)
    ensures SamePayloads(HDR, s, t, Live(bs) - {bs[i]})
  {
    HeadersInside(s, bs, size, i);
    FreeNodesOutside(bs, size, fl, i);
    PayloadChain(s, t, bs, size, i);
    OthersKept(s, t, bs, size, i);
    hide SamePayloads, Chained, Ringed, Tiled, OnFree;
    RingHeaderStores(s, t, bs, size, fl, i, bs[i].start + HDR, bs[i].end);
  }

  lemma OthersKept(s: seq<int>, t: seq<int>, bs: seq<Block>, size: nat, i: nat)
    requires Tiled(bs, HDR, 0, size) && |t| == |s| && i < |bs|
    requires forall o :: 0 <= o < |s| && !(bs[i].start + HDR <= o < bs[i].end) ==> t[o] == s[o]
    ensures SamePayloads(HDR, s, t, Live(bs) - {bs[i]})
  {
    AllOrdered(bs, HDR, 0, size);
  }

  lemma PayloadChain(s: seq<int>, t: seq<int>, bs: seq<Block>, size: nat, i: nat)
    requires Tiled(bs, HDR, 0, size) && Chained(s, bs, size) && |t| == |s| && i < |bs|
    requires forall o :: 0 <= o < |s| && !(bs[i].start + HDR <= o < bs[i].end) ==> t[o] == s[o]
    ensures Chained(t, bs, size)
  {
    hide Chained;
    forall j | 0 <= j < |bs|
      ensures bs[j].start + HDR <= |s| && t[bs[j].start] == s[bs[j].start]
      ensures t[bs[j].start + NEXT] == s[bs[j].start + NEXT] && t[bs[j].start + PREV] == s[bs[j].start + PREV]
    {
      HeadersInside(s, bs, size, j);
      if j < i { Ordered(bs, HDR, 0, size, j, i); }
      if i < j { Ordered(bs, HDR, 0, size, i, j); }
    }
    ChainFrame(s, t, bs, size);
  }

  lemma TailLast(s: seq<int>, bs: seq<Block>, size: nat)
    requires Chained(s, bs, size)
    ensures |bs| > 1 && size >= HDR && bs[|bs| - 1] == Tail(size)
  {
  }

  lemma FirstIsFree(s: seq<int>, bs: seq<Block>, size: nat, fl: seq<nat>, k: nat, w: nat)
    requires Tiled(bs, HDR, 0, size) && Chained(s, bs, size) && Lists(fl, bs) && k < |fl| && BigEnough(bs, fl[k], w)
    ensures var i := IndexOf(bs, fl[k]); i + 1 < |bs| && bs[i].start == fl[k] && Fits(bs[i], HDR, w)
  {
    assert fl[k] in fl;
    NodeIndex(s, bs, size, fl[k]);
  }

  /** Between the two halves of a move both blocks are live, and they do not overlap. */
  lemma MoveFacts(bs: seq<Block>, size: nat, p: nat, x: nat, w: nat)
    requires Wf(bs, HDR, 0, size) && |bs| > 1 && size >= HDR && bs[|bs| - 1] == Tail(size) && IsLive(bs, p)
    requires IndexOf(bs, x) + 1 < |bs| && Fits(bs[IndexOf(bs, x)], HDR, w)
    ensures var g := TakenBlocks(bs, x, w);
            var i, j := IndexOf(g, p - HDR), IndexOf(g, x);
            && IsLive(g, p) && g[i] == bs[IndexOf(bs, p - HDR)]
            && j + 1 < |g| && g[j].used && g[j].start == x && Capacity(g[j], HDR) >= w
            && (g[i].end <= g[j].start || g[j].end <= g[i].start)
            && g[i].end <= size && g[j].end <= size
  {
    hide Tiled, NoFreePair, Carve, IndexOf;
    var g, i, j := TakenBlocks(bs, x, w), IndexOf(bs, p - HDR), IndexOf(bs, x);
    CarveKeeps(bs, HDR, MIN, 0, size, j, w);
    IndexIs(g, size, j);
    BelowTail(bs, size, i);
    BelowTail(bs, size, j);
    assert bs[i] in Live(g);
    var k :| 0 <= k < |g| && g[k] == bs[i];
    IndexIs(g, size, k);
    NotLast(g, size, k);
    NotLast(g, size, j);
    CarveEnds(bs, size, j, w);
    BlocksApart(g, size, j, k);
  }

  /** Which blocks are live at each stage of a move. */
  lemma MoveLive(bs: seq<Block>, size: nat, p: nat, x: nat, w: nat)
    requires Wf(bs, HDR, 0, size) && |bs| > 1 && size >= HDR && bs[|bs| - 1] == Tail(size) && IsLive(bs, p)
    requires IndexOf(bs, x) + 1 < |bs| && Fits(bs[IndexOf(bs, x)], HDR, w)
    ensures Movable(bs, TakenBlocks(bs, x, w), size, p, x + HDR, w)
  {
    hide Tiled, NoFreePair, Carve, IndexOf, Live, Release;
    var g, i, j := TakenBlocks(bs, x, w), IndexOf(bs, p - HDR), IndexOf(bs, x);
    MoveFacts(bs, size, p, x, w);
    CarveKeeps(bs, HDR, MIN, 0, size, j, w);
    IndexIs(g, size, j);
    ReleaseKeeps(g, HDR, 0, size, IndexOf(g, p - HDR));
    UsedIsLive(bs, i);
  }

  /** In `g` the block at `p` of `bs` and a new block of `w` words at `q` are both live, and apart. */
  ghost predicate Movable(bs: seq<Block>, g: seq<Block>, size: nat, p: nat, q: nat, w: nat)
    requires IsLive(bs, p) && q >= HDR
  {
    var from, j := bs[IndexOf(bs, p - HDR)], IndexOf(g, q - HDR);
    && IsLive(g, p) && g[IndexOf(g, p - HDR)] == from && from.start + HDR == p && from.end <= size
    && j + 1 < |g| && g[j].used && g[j].start + HDR == q && Capacity(g[j], HDR) >= w
    && (from.end <= g[j].start || g[j].end <= from.start)
    && from in Live(bs) && g[j] != from && g[j] !in Live(bs)
    && Live(g) == Live(bs) + {g[j]} && Live(FreedBlocks(g, p)) == Live(g) - {from}
  }

  lemma MoveReady(s: seq<int>, bs: seq<Block>, size: nat, fl: seq<nat>, p: nat, w: nat)
    requires Wf(bs, HDR, 0, size) && Chained(s, bs, size) && Lists(fl, bs) && IsLive(bs, p)
    ensures var k := FirstOnRing(fl, bs, w);
            k < |fl| ==> IndexOf(bs, fl[k]) < |bs| && Movable(bs, TakenBlocks(bs, fl[k], w), size, p, fl[k] + HDR, w)
  {
    hide Tiled, NoFreePair, Chained, Lists, Movable, TakenBlocks, BigEnough, IndexOf;
    var k := FirstOnRing(fl, bs, w);
    if k < |fl| {
      TailLast(s, bs, size);
      FirstIsFree(s, bs, size, fl, k, w);
      MoveLive(bs, size, p, fl[k], w);
    }
  }

  lemma UsedIsLive(bs: seq<Block>, i: nat)
    requires i < |bs| && bs[i].used
    ensures bs[i] in Live(bs)
  {
  }

  /** Copying into `to` and then freeing `from` leaves the words of every other live block. */
  lemma CopiedKept(s: seq<int>, t: seq<int>, u: seq<int>, l0: set<Block>, l1: set<Block>, from: Block, to: Block, n: nat)
    requires SamePayloads(HDR, s, t, l0 - {to}) && SamePayloads(HDR, t, u, l1) && l1 == l0 - {from} && from != to && to in l0
    requires n <= Capacity(to, HDR) && WordsMoved(s, from.start + HDR, t, to.start + HDR, n)
    ensures SamePayloads(HDR, s, u, l1 - {to})
    ensures WordsMoved(s, from.start + HDR, u, to.start + HDR, n)
  {
    SliceKept(HDR, t, u, l1, to, n);
    SameTrans(HDR, s, t, u, l0 - {to}, l1, l1 - {to});
  }

  /** What allocating `to` and moving `from` there leave: the words moved, and those of every other live block. */
  lemma MovedKept(s: seq<int>, t: seq<int>, u: seq<int>, l0: set<Block>, l1: set<Block>, from: Block, to: Block, n: nat)
    requires SamePayloads(HDR, s, t, l0) && SamePayloads(HDR, t, u, l1 - {to})
    requires from in l0 && to !in l0 && l1 == l0 + {to} - {from}
    requires n <= Capacity(from, HDR) && WordsMoved(t, from.start + HDR, u, to.start + HDR, n)
    ensures SamePayloads(HDR, s, u, l0 * l1)
    ensures WordsMoved(s, from.start + HDR, u, to.start + HDR, n)
  {
    SliceKept(HDR, s, t, l0, from, n);
    SameTrans(HDR, s, t, u, l0, l1 - {to}, l0 * l1);
  }

  lemma StaysPut(s: seq<int>, t: seq<int>, live: set<Block>, b: Block, n: nat)
    requires SamePayloads(HDR, s, t, live) && b in live && n <= Capacity(b, HDR) && b.end <= |s|
    ensures WordsMoved(s, b.start + HDR, t, b.start + HDR, n)
  {
    SliceKept(HDR, s, t, live, b, n);
  }

  lemma SameCommon(s: seq<int>, t: seq<int>, live: set<Block>, other: set<Block>)
    requires SamePayloads(HDR, s, t, live)
    ensures SamePayloads(HDR, s, t, live * other) && SamePayloads(HDR, s, t, other * live)
  {
  }

  lemma BelowTail(bs: seq<Block>, size: nat, i: nat)
    requires Tiled(bs, HDR, 0, size) && i + 1 < |bs|
    ensures bs[i].end < size
  {
    Ordered(bs, HDR, 0, size, i, |bs| - 1);
  }

  lemma NotLast(bs: seq<Block>, size: nat, i: nat)
    requires Tiled(bs, HDR, 0, size) && i < |bs|
    ensures bs[i].end < size ==> i + 1 < |bs|
  {
  }

  lemma CarveEnds(bs: seq<Block>, size: nat, i: nat, w: nat)
    requires i < |bs| && bs[i].end < size && Capacity(bs[i], HDR) >= w
    ensures Carve(bs, HDR, MIN, i, w)[i].end < size
  {
  }

  lemma BlocksApart(bs: seq<Block>, size: nat, i: nat, j: nat)
    requires Tiled(bs, HDR, 0, size) && i < |bs| && j < |bs|
    ensures bs[i].end <= size && bs[j].end <= size
    ensures bs[i] != bs[j] ==> bs[i].end <= bs[j].start || bs[j].end <= bs[i].start
  {
    AllOrdered(bs, HDR, 0, size);
  }

  lemma ListsFrom(fl: seq<nat>, bs: seq<Block>, bs': seq<Block>)
    requires OnFree(fl, bs) && forall y :: y in fl <==> y in FreeStarts(bs')
    ensures Lists(fl, bs') && OnFree(fl, bs')
  {
  }

  /** An offset inside a block is nobody's header. */
  lemma NewNode(bs: seq<Block>, size: nat, i: nat, q: nat)
    requires Tiled(bs, HDR, 0, size) && i < |bs| && bs[i].start < q < bs[i].end
    ensures q !in FreeStarts(bs)
  {
    AllOrdered(bs, HDR, 0, size);
  }

  lemma PrependLists(fl: seq<nat>, was: seq<Block>, bs: seq<Block>, x: nat)
    requires OnFree(fl, was)
    requires x !in fl && x in FreeStarts(bs) && forall y :: y in fl <==> y in FreeStarts(bs) - {x}
    ensures Lists([x] + fl, bs) && OnFree([x] + fl, bs)
  {
    var g := [x] + fl;
    assert forall j :: 0 < j < |g| ==> g[j] == fl[j - 1];
    assert g[0] == x;
    assert forall y :: y in g <==> y == x || y in fl;
  }

  lemma HeadNeighbour(s: seq<int>, bs: seq<Block>, size: nat, fl: seq<nat>, x: nat)
    requires |s| == size + HDR && Ringed(s, size, fl) && Tiled(bs, HDR, 0, size) && OnFree([x] + fl, bs)
    ensures var n := After(size, fl, 0);
            && Follows(s, size, n) && Node(n, bs, size) && Node(x, bs, size) && x + HDR <= size
            && (n == size || n + HDR <= size) && (n == size || x + HDR <= n || n + HDR <= x)
  {
    var r, q := [size] + fl, [size] + ([x] + fl);
    NodesSpaced(bs, size, [x] + fl);
    assert ([x] + fl)[0] == x && q[1] == x && (|fl| > 0 ==> ([x] + fl)[1] == fl[0] && q[2] == fl[0]);
    assert |fl| > 0 ==> Follows(s, r[0], r[1]);
    NodeClear(bs, size, x);
    if |fl| > 0 {
      assert fl[0] in [x] + fl;
      NodeClear(bs, size, fl[0]);
    }
  }

  lemma OnFreeKept(fl: seq<nat>, bs: seq<Block>, bs': seq<Block>, gone: nat)
    requires OnFree(fl, bs) && FreeStarts(bs) - {gone} <= FreeStarts(bs') && gone !in fl
    ensures OnFree(fl, bs')
  {
  }

  lemma FreeNodesOutside(bs: seq<Block>, size: nat, fl: seq<nat>, i: nat)
    requires Tiled(bs, HDR, 0, size) && OnFree(fl, bs) && i < |bs|
    ensures forall x :: x in fl ==> x <= bs[i].start || bs[i].end <= x
  {
    AllOrdered(bs, HDR, 0, size);
  }

  lemma CutRings(s: seq<int>, t: seq<int>, bs: seq<Block>, size: nat, fl: seq<nat>, i: nat, w: nat)
    requires Tiled(bs, HDR, 0, size) && Chained(s, bs, size) && OnFree(fl, bs) && Ringed(s, size, fl)
    requires i + 1 < |bs| && bs[i].used && CutStored(s, t, bs[i], size, w)
    ensures var c := Cut(bs, HDR, i, w);
            && Tiled(c, HDR, 0, size) && Chained(t, c, size) && OnFree(fl, c) && Ringed(t, size, fl)
  {
    hide Chained, Tiled, OnFree, Ringed;
    var b := bs[i];
    WfCut(bs, HDR, 0, size, i, w);
    CutChained(s, t, bs, size, i, w);
    FreeStartsCut(bs, HDR, 0, size, i, w);
    UsedNotListed(bs, size, fl, i);
    OnFreeKept(fl, bs, Cut(bs, HDR, i, w), b.start);
    FreeNodesOutside(bs, size, fl, i);
    RingHeaderStores(s, t, bs, size, fl, i, b.start + HDR + w, b.start + HDR + w + HDR);
  }

  lemma UsedNotListed(bs: seq<Block>, size: nat, fl: seq<nat>, i: nat)
    requires Tiled(bs, HDR, 0, size) && OnFree(fl, bs) && i < |bs| && bs[i].used
    ensures bs[i].start !in fl
  {
    AllOrdered(bs, HDR, 0, size);
  }

  lemma TiledAbsorb(bs: seq<Block>, size: nat, i: nat)
    requires Tiled(bs, HDR, 0, size) && i + 1 < |bs|
    ensures Tiled(Absorb(bs, i), HDR, 0, size)
  {
  }

  lemma FreeStartsAbsorb(bs: seq<Block>, size: nat, i: nat)
    requires Tiled(bs, HDR, 0, size) && i + 1 < |bs| && !bs[i + 1].used
    ensures FreeStarts(Absorb(bs, i)) == FreeStarts(bs) - {bs[i + 1].start}
  {
    if !bs[i].used {
      FreeStartsJoin(bs, HDR, 0, size, i);
    } else {
      var a, b := bs[i], bs[i + 1];
      FreeStartsSplice(bs, HDR, 0, size, i, 2, [Block(a.start, b.end, true)]);
      assert bs[i..i + 2] == [a, b];
      assert b in [a, b];
    }
  }

  lemma FuseRings(s: seq<int>, t: seq<int>, bs: seq<Block>, size: nat, fl: seq<nat>, i: nat)
    requires Tiled(bs, HDR, 0, size) && Chained(s, bs, size) && OnFree(fl, bs) && Ringed(s, size, fl)
    requires i + 2 < |bs| && !bs[i + 1].used && bs[i + 1].start !in fl && FuseStored(s, t, bs[i], bs[i + 1], size)
    ensures var c := Absorb(bs, i);
            && Tiled(c, HDR, 0, size) && Chained(t, c, size) && OnFree(fl, c) && Ringed(t, size, fl)
  {
    hide Chained, Tiled, OnFree, Ringed;
    TiledAbsorb(bs, size, i);
    FuseChained(s, t, bs, size, i);
    FreeStartsAbsorb(bs, size, i);
    OnFreeKept(fl, bs, Absorb(bs, i), bs[i + 1].start);
    FreeNodesOutside(Absorb(bs, i), size, fl, i);
    RingHeaderStores(s, t, Absorb(bs, i), size, fl, i, bs[i + 1].end, bs[i + 1].end);
  }

  lemma InitialRings(s: seq<int>, words: nat)
    requires words >= 2 * HDR && |s| == words + HDR
    requires s[0] == MAGIC && s[NEXT] == words - HDR && s[PREV] == words - HDR
    requires s[words - HDR] == MAGIC + 1 && s[words - HDR + NEXT] == 0 && s[words - HDR + PREV] == 0
    requires s[NEXT_FREE] == words && s[PREV_FREE] == words && s[words + NEXT_FREE] == 0 && s[words + PREV_FREE] == 0
    ensures var bs := [Block(0, words - HDR, false), Tail(words)];
            && Tiled(bs, HDR, 0, words) && Chained(s, bs, words) && NoFreePair(bs) && Roomy(Live(bs), words)
            && Ringed(s, words, [0]) && OnFree([0], bs) && Lists([0], bs)
            && FreeCapacity(bs, HDR) == words - 2 * HDR
  {
    var bs := [Block(0, words - HDR, false), Tail(words)];
    assert bs[0] in bs;
    SumsOne(bs[0], HDR);
    SumsOne(bs[1], HDR);
    SumsTwo(bs[0], bs[1], HDR);
    assert forall x :: x in FreeStarts(bs) ==> x == 0;
  }

  lemma RingNeighbours(s: seq<int>, bs: seq<Block>, size: nat, fl: seq<nat>, k: nat)
    requires |s| == size + HDR && Ringed(s, size, fl) && Tiled(bs, HDR, 0, size) && OnFree(fl, bs) && k < |fl|
    ensures var p, n := ([size] + fl)[k], After(size, fl, k + 1);
            && Follows(s, p, fl[k]) && Follows(s, fl[k], n)
            && Node(p, bs, size) && Node(fl[k], bs, size) && Node(n, bs, size)
            && (p == n || p + HDR <= n || n + HDR <= p)
  {
    NodesSpaced(bs, size, fl);
    var r := [size] + fl;
    assert r[k + 1] == fl[k] && (k + 2 < |r| ==> r[k + 2] == fl[k + 1]);
    assert k > 0 ==> r[k] == fl[k - 1];
    assert After(size, fl, k + 1) == r[if k + 2 < |r| then k + 2 else 0];
    assert Follows(s, r[k], r[k + 1]);
    assert k + 2 < |r| ==> Follows(s, r[k + 1], r[k + 2]);
  }

  lemma FewerOnFree(fl: seq<nat>, bs: seq<Block>, k: nat)
    requires OnFree(fl, bs) && k < |fl|
    ensures OnFree(fl[..k] + fl[k + 1..], bs)
    ensures fl[k] !in fl[..k] + fl[k + 1..]
    ensures forall x :: x in fl <==> x == fl[k] || x in fl[..k] + fl[k + 1..]
  {
    var g := fl[..k] + fl[k + 1..];
    assert forall j :: 0 <= j < |g| ==> g[j] == fl[if j < k then j else j + 1];
    forall x | x in fl && x != fl[k]
      ensures x in g
    {
      var j :| 0 <= j < |fl| && fl[j] == x;
      assert g[if j < k then j else j - 1] == x;
    }
  }
}
