/**
 What callers of the memheap.c heap may rely on: exactly when an allocation succeeds, and exactly when
 a resize trades one block for another, whichever of its four ways it takes.
 */
module MemheapLaws {
  import opened HeapBlocks
  import opened Memheap

  /** The value part of Memheap.Heap.Valid. */
  ghost predicate Sound(bs: seq<Block>, fl: seq<nat>, size: nat) {
    && size >= HDR && |bs| > 1 && bs[|bs| - 1] == Tail(size)
    && Wf(bs, HDR, 0, size) && OnFree(fl, bs) && Lists(fl, bs)
    && 4 * size < WORD_RANGE && Roomy(Live(bs), size)
  }

  ghost predicate SomeFits(bs: seq<Block>, w: nat) {
    exists b :: b in bs && Fits(b, HDR, w)
  }

  lemma {:induction false} CapacityBound(bs: seq<Block>, i: nat)
    requires i < |bs| && !bs[i].used && forall j :: 0 <= j < |bs| ==> bs[j].start + HDR <= bs[j].end
    ensures Capacity(bs[i], HDR) <= FreeCapacity(bs, HDR)
    decreases |bs|
  {
    CapacityNonNegative(bs[1..]);
    if i > 0 {
      CapacityBound(bs[1..], i - 1);
    }
  }

  lemma {:induction false} CapacityNonNegative(bs: seq<Block>)
    requires forall j :: 0 <= j < |bs| ==> bs[j].start + HDR <= bs[j].end
    ensures FreeCapacity(bs, HDR) >= 0
  {
    if bs != [] {
      CapacityNonNegative(bs[1..]);
    }
  }

  /** Walking the free ring finds a block whenever some free block of the pool fits. */
  lemma RingFinds(bs: seq<Block>, fl: seq<nat>, size: nat, w: nat)
    requires Sound(bs, fl, size)
    ensures FirstOnRing(fl, bs, w) < |fl| <==> SomeFits(bs, w)
  {
    var k := FirstOnRing(fl, bs, w);
    if k < |fl| {
      FitsThere(bs, fl, size, w, k);
    } else if SomeFits(bs, w) {
      var b :| b in bs && Fits(b, HDR, w);
      var i :| 0 <= i < |bs| && bs[i] == b;
      FreeStartIn(bs, i);
      IndexIs(bs, size, i);
      var j :| 0 <= j < |fl| && fl[j] == bs[i].start;
      assert BigEnough(bs, fl[j], w);
    }
  }

  lemma FitsThere(bs: seq<Block>, fl: seq<nat>, size: nat, w: nat, k: nat)
    requires Sound(bs, fl, size) && k < |fl| && BigEnough(bs, fl[k], w)
    ensures IndexOf(bs, fl[k]) < |bs| && Fits(bs[IndexOf(bs, fl[k])], HDR, w) && SomeFits(bs, w)
  {
    assert fl[k] in fl;
    var b :| b in bs && !b.used && b.start == fl[k];
    var j :| 0 <= j < |bs| && bs[j] == b;
    IndexIs(bs, size, j);
  }

  /**
   rt_memheap_alloc does not find every block that fits: it first compares the size with the
   total free payload, and strictly.  So it succeeds exactly when some free block fits and the
   request is not for the whole of what is left.
   */
  lemma AllocSucceedsIff(bs: seq<Block>, fl: seq<nat>, size: nat, w: nat)
    requires Sound(bs, fl, size)
    ensures w < FreeCapacity(bs, HDR) && FirstOnRing(fl, bs, w) < |fl|
            <==> SomeFits(bs, w) && FreeCapacity(bs, HDR) != w
  {
    RingFinds(bs, fl, size, w);
    if SomeFits(bs, w) {
      var b :| b in bs && Fits(b, HDR, w);
      var i :| 0 <= i < |bs| && bs[i] == b;
      CapacityBound(bs, i);
    }
  }

  /**
   An allocation that succeeds makes exactly one new block live: the first one on the free ring that is large
   enough, cut to within a header and a minimum payload, with what is left in its place on the ring's front.
   */
  lemma AllocMeaning(bs: seq<Block>, fl: seq<nat>, size: nat, w: nat, k: nat)
    requires Sound(bs, fl, size) && w >= MIN && k < |fl|
    requires FirstOnRing(fl, bs, w) == k
    ensures IndexOf(bs, fl[k]) < |bs|
    ensures var x, r, g := fl[k], TakenBlocks(bs, fl[k], w), TakenFree(bs, fl, fl[k], w);
            && Sound(r, g, size)
            && IsLive(r, x + HDR)
            && var b := r[IndexOf(r, x)];
               && b.start == x && w <= Capacity(b, HDR) < w + HDR + MIN
               && b !in Live(bs) && Live(r) == Live(bs) + {b}
               && g == (if Capacity(b, HDR) == Capacity(bs[IndexOf(bs, x)], HDR) then [] else [x + HDR + w]) + (fl[..k] + fl[k + 1..])
    ensures forall j :: 0 <= j < k ==> IndexOf(bs, fl[j]) < |bs| ==> Capacity(bs[IndexOf(bs, fl[j])], HDR) < w
  {
    hide Tiled, NoFreePair, FreeCapacity, IndexOf, FirstOnRing, Live, BigEnough, Without, Roomy, OnFree, Lists, Carve;
    var x := fl[k];
    NoneBefore(fl, bs, w);
    FitsThere(bs, fl, size, w, k);
    var i, r := IndexOf(bs, x), TakenBlocks(bs, x, w);
    FreeNotTail(bs, size, i);
    ListedOnce(fl, bs, x, k);
    TakeFacts(bs, fl, size, x, w);
    CarveKeeps(bs, HDR, MIN, 0, size, i, w);
    CarvedSize(bs, i, w);
    RoomyOne(Live(bs), Live(r), r[i], size);
    IndexIs(r, size, i);
    CarvedTail(bs, size, i, w);
  }

  lemma NoneBefore(fl: seq<nat>, bs: seq<Block>, w: nat)
    ensures forall j :: 0 <= j < FirstOnRing(fl, bs, w) ==>
              IndexOf(bs, fl[j]) < |bs| ==> Capacity(bs[IndexOf(bs, fl[j])], HDR) < w
    ensures var k := FirstOnRing(fl, bs, w); k < |fl| ==> BigEnough(bs, fl[k], w)
  {
    hide FirstOnRing;
    assert forall j :: 0 <= j < FirstOnRing(fl, bs, w) ==> !BigEnough(bs, fl[j], w);
  }

  lemma CarvedSize(bs: seq<Block>, i: nat, w: nat)
    requires i < |bs| && Capacity(bs[i], HDR) >= w
    ensures var r := Carve(bs, HDR, MIN, i, w);
            && i < |r| && w <= Capacity(r[i], HDR) < w + HDR + MIN
            && (Capacity(r[i], HDR) == Capacity(bs[i], HDR) <==> Capacity(bs[i], HDR) < w + HDR + MIN)
  {
  }

  lemma CarvedTail(bs: seq<Block>, size: nat, i: nat, w: nat)
    requires |bs| > 1 && size >= HDR && bs[|bs| - 1] == Tail(size) && i + 1 < |bs|
    ensures var r := Carve(bs, HDR, MIN, i, w); |r| > 1 && r[|r| - 1] == Tail(size) && i + 1 < |r|
  {
  }

  /** A node of the free ring is listed once, so leaving it out leaves all others in their order. */
  lemma ListedOnce(fl: seq<nat>, bs: seq<Block>, x: nat, k: nat)
    requires OnFree(fl, bs) && k < |fl| && fl[k] == x
    ensures Without(fl, x) == fl[..k] + fl[k + 1..] && x in FreeStarts(bs)
  {
    assert x in fl;
    var j := Pos(fl, x);
    assert fl[j] == x;
  }

  /**
   A block that is freed is the only one to go.  Its neighbours that are free are one with it afterwards; a free
   block behind it leaves the ring, and it comes to the ring's front unless the block before it was free.
   */
  lemma FreeMeaning(bs: seq<Block>, fl: seq<nat>, size: nat, p: nat)
    requires Sound(bs, fl, size) && IsLive(bs, p)
    ensures var i, r, g := IndexOf(bs, p - HDR), FreedBlocks(bs, p), FreedRing(bs, fl, p);
            && Sound(r, g, size) && Live(r) == Live(bs) - {bs[i]}
            && g == (if i > 0 && !bs[i - 1].used then [] else [p - HDR])
                    + (if bs[i + 1].used then fl else Without(fl, bs[i + 1].start))
  {
    hide Tiled, NoFreePair, FreeCapacity, IndexOf, Live, Roomy, OnFree, Lists, Release, Without;
    var i := IndexOf(bs, p - HDR);
    FreeFacts(bs, fl, size, i);
    ReleaseKeeps(bs, HDR, 0, size, i);
    RoomyFewer(Live(bs), Live(FreedBlocks(bs, p)), size);
    FreedTail(bs, size, i);
  }

  lemma FreedTail(bs: seq<Block>, size: nat, i: nat)
    requires |bs| > 1 && size >= HDR && bs[|bs| - 1] == Tail(size) && i + 1 < |bs|
    ensures var r := Release(bs, i); |r| > 1 && r[|r| - 1] == Tail(size)
  {
  }

  lemma EmptySound(n: nat)
    requires n >= HDR && 4 * (n + HDR) < WORD_RANGE
    ensures Sound([Block(0, n, false), Tail(n + HDR)], [0], n + HDR)
  {
    var bs := [Block(0, n, false), Tail(n + HDR)];
    assert bs[0] in bs;
    assert forall x :: x in FreeStarts(bs) ==> x == 0;
  }

  /** A fresh heap refuses a request for its one free block, although that block fits exactly. */
  lemma ExactFitRefused(w: nat)
    requires w >= MIN && 4 * (w + 2 * HDR) < WORD_RANGE
    ensures var size := w + 2 * HDR;
            var bs := [Block(0, size - HDR, false), Tail(size)];
            && Sound(bs, [0], size)
            && SomeFits(bs, w)
            && !(w < FreeCapacity(bs, HDR) && FirstOnRing([0], bs, w) < 1)
  {
    var size := w + 2 * HDR;
    var bs := [Block(0, size - HDR, false), Tail(size)];
    SumsOne(bs[0], HDR);
    SumsOne(bs[1], HDR);
    SumsTwo(bs[0], bs[1], HDR);
    EmptySound(w + HDR);
    assert bs[0] in bs && Fits(bs[0], HDR, w);
  }

  /** The size looked for covers the request exactly when rounding it up does not wrap; else it is the smallest. */
  lemma RequestCovers(bytes: Bytes)
    ensures 4 * RequestWords(bytes) >= bytes <==> bytes <= LAST_ROUNDED
    ensures bytes > LAST_ROUNDED ==> RequestWords(bytes) == MIN
  {
    AlignCovers(bytes);
    hide AlignWords;
  }

  /**
   A resize to a non-zero size fails without a change, or trades the one block for one that holds the
   request and leaves every other live block as it was.  It does so, and leaves blocks that tile the pool
   at all, exactly when newsize + RT_MEMHEAP_MINIALLOC does not wrap in the test for growing; where it
   wraps, p is returned although the block and the free one behind it together are too small.
   */
  lemma ReallocMeaning(bs: seq<Block>, fl: seq<nat>, size: nat, p: nat, bytes: Bytes)
    requires Sound(bs, fl, size) && IsLive(bs, p) && bytes != 0
    ensures var available, w, i := FreeCapacity(bs, HDR), RequestWords(bytes), IndexOf(bs, p - HDR);
            var r, bs' := ReallocPtr(bs, fl, available, p, bytes), ReallocBlocks(bs, fl, available, p, bytes);
            && (Wf(bs', HDR, 0, size) <==> !Overruns(bs, p, bytes))
            && (Overruns(bs, p, bytes) ==> r == p && bs[i + 1].end - bs[i].start - HDR < w)
            && (!Overruns(bs, p, bytes) ==> Traded(bs, bs', p, r, bytes))
  {
    hide Tiled, NoFreePair, FreeCapacity, Lists, OnFree, IndexOf, FirstOnRing, Live, Shrink, GrownBlocks, TakenBlocks, Release;
    hide RequestWords, Roomy, GrowsInPlace, Traded;
    OverrunWords(bytes);
    var w, i := RequestWords(bytes), IndexOf(bs, p - HDR);
    if !bs[i + 1].used {
      NextBelowTail(bs, size, i);
      GrowTest(bs, size, i, w);
    } else {
      UsedBehind(bs, i, w);
    }
    if Overruns(bs, p, bytes) {
      GrowTest(bs, size, i, w);
      OverrunUntiled(bs, size, i, w);
    } else {
      ReallocTrades(bs, fl, size, p, bytes);
    }
  }

  /** What a resize that does not overrun comes to: nothing, or one live block for another that is large enough. */
  ghost predicate Traded(bs: seq<Block>, bs': seq<Block>, p: nat, r: nat, bytes: Bytes)
    requires IsLive(bs, p)
  {
    && (r == NULL ==> bs' == bs)
    && (r != NULL ==>
          && IsLive(bs', r)
          && Capacity(bs'[IndexOf(bs', r - HDR)], HDR) >= RequestWords(bytes)
          && (bytes <= LAST_ROUNDED ==> 4 * Capacity(bs'[IndexOf(bs', r - HDR)], HDR) >= bytes)
          && Live(bs') - {bs'[IndexOf(bs', r - HDR)]} == Live(bs) - {bs[IndexOf(bs, p - HDR)]})
  }

  /**
   When a resize stays, moves or fails, wherever the test for growing does not wrap.  A block stays when it is
   large enough or when the free block behind it makes it so with more than a minimum payload to spare; else
   the first block on the ring that is large enough takes over; and the resize fails if and only if no
   free block is large enough or it would take exactly all that is left.
   */
  lemma ReallocDecides(bs: seq<Block>, fl: seq<nat>, size: nat, p: nat, bytes: Bytes)
    requires Sound(bs, fl, size) && IsLive(bs, p) && 0 < bytes <= LAST_ROUNDED && !Overruns(bs, p, bytes)
    ensures var i, need := IndexOf(bs, p - HDR), if (bytes + 3) / 4 < MIN then MIN else (bytes + 3) / 4;
            var cap := Capacity(bs[i], HDR);
            var stays := need <= cap || (!bs[i + 1].used && cap + Capacity(bs[i + 1], HDR) > need + MIN);
            var r, bs' := ReallocPtr(bs, fl, FreeCapacity(bs, HDR), p, bytes), ReallocBlocks(bs, fl, FreeCapacity(bs, HDR), p, bytes);
            && (r == p <==> stays)
            && (r == NULL <==> !stays && (FreeCapacity(bs, HDR) == need || !SomeFits(bs, need)))
            && (r != NULL && r != p ==> FirstOnRing(fl, bs, need) < |fl| && r == fl[FirstOnRing(fl, bs, need)] + HDR)
            && (r == p ==> IsLive(bs', p) && Capacity(bs'[IndexOf(bs', p - HDR)], HDR)
                           == if need <= cap <= need + HDR + MIN then cap else need)
  {
    hide Tiled, NoFreePair, FreeCapacity, Lists, OnFree, IndexOf, FirstOnRing, Live, Shrink, GrownBlocks, TakenBlocks, Release;
    hide AlignWords, Roomy, GrowsInPlace, SomeFits;
    RequestIs(bytes);
    OverrunWords(bytes);
    var w, i := RequestWords(bytes), IndexOf(bs, p - HDR);
    AllocSucceedsIff(bs, fl, size, w);
    if !bs[i + 1].used {
      NextBelowTail(bs, size, i);
      GrowTest(bs, size, i, w);
    } else {
      UsedBehind(bs, i, w);
    }
    if FirstOnRing(fl, bs, w) < |fl| {
      ElsewhereOnRing(bs, fl, size, i, FirstOnRing(fl, bs, w));
    }
    if GrowsInPlace(bs, i, w) {
      GrowsOnlyFree(bs, i, w);
      GrowFacts(bs, fl, size, i, w);
      BelowTail(bs, size, i + 1);
      FrontMeaning(bs, GrownBlocks(bs, i, w), size, p, w);
    } else if w + HDR + MIN < Capacity(bs[i], HDR) {
      ShrinkKeeps(bs, HDR, 0, size, i, w);
      BelowTail(bs, size, i);
      FrontMeaning(bs, Shrink(bs, HDR, i, w), size, p, w);
    }
  }

  /** A resize of NULL is an allocation, and one to size 0 is a release. */
  lemma ReallocEnds(bs: seq<Block>, fl: seq<nat>, size: nat, p: nat, bytes: Bytes)
    requires Sound(bs, fl, size) && bytes <= LAST_ROUNDED
    ensures bytes > 0 ==>
              var need := if (bytes + 3) / 4 < MIN then MIN else (bytes + 3) / 4;
              var r, bs' := ReallocPtr(bs, fl, FreeCapacity(bs, HDR), NULL, bytes), ReallocBlocks(bs, fl, FreeCapacity(bs, HDR), NULL, bytes);
              && (r == NULL <==> FreeCapacity(bs, HDR) == need || !SomeFits(bs, need))
              && (r == NULL ==> bs' == bs)
              && (r != NULL ==> IsLive(bs', r) && bs'[IndexOf(bs', r - HDR)] !in Live(bs)
                                && Live(bs') == Live(bs) + {bs'[IndexOf(bs', r - HDR)]}
                                && need <= Capacity(bs'[IndexOf(bs', r - HDR)], HDR) < need + HDR + MIN)
    ensures bytes == 0 && IsLive(bs, p) ==>
              ReallocPtr(bs, fl, FreeCapacity(bs, HDR), p, 0) == NULL
              && Live(ReallocBlocks(bs, fl, FreeCapacity(bs, HDR), p, 0)) == Live(bs) - {bs[IndexOf(bs, p - HDR)]}
  {
    hide Sound, FreeCapacity, IndexOf, FirstOnRing, Live, TakenBlocks, TakenFree, Release, RequestWords, SomeFits, FreedBlocks, FreedRing;
    if bytes > 0 {
      RequestIs(bytes);
      var w := RequestWords(bytes);
      AllocSucceedsIff(bs, fl, size, w);
      if FirstOnRing(fl, bs, w) < |fl| {
        AllocMeaning(bs, fl, size, w, FirstOnRing(fl, bs, w));
      }
    } else if IsLive(bs, p) {
      FreeMeaning(bs, fl, size, p);
    }
  }

  /**
   The list at the fullest moment of a resize: both blocks are live while the words of one move to the other,
   growing in place fills up to the new size, and any other resize is at its fullest when it starts.
   */
  lemma PeakMeaning(bs: seq<Block>, fl: seq<nat>, size: nat, p: nat, bytes: Bytes)
    requires Sound(bs, fl, size) && (p == NULL || (IsLive(bs, p) && (bytes != 0 ==> !Overruns(bs, p, bytes))))
    ensures var available := FreeCapacity(bs, HDR);
            var r, bs' := ReallocPtr(bs, fl, available, p, bytes), ReallocBlocks(bs, fl, available, p, bytes);
            var peak := ReallocPeak(bs, fl, available, p, bytes);
            && (r == NULL ==> peak == bs)
            && (p == NULL && r != NULL ==> peak == bs')
            && (p != NULL && r == p ==> peak == if RequestWords(bytes) > Capacity(bs[IndexOf(bs, p - HDR)], HDR) then bs' else bs)
            && (p != NULL && r != NULL && r != p ==> IsLive(bs', r) && Live(peak) == Live(bs) + {bs'[IndexOf(bs', r - HDR)]})
  {
    hide Tiled, NoFreePair, FreeCapacity, Lists, OnFree, IndexOf, FirstOnRing, Live, Shrink, GrownBlocks, TakenBlocks, Release;
    hide FreedBlocks, AlignWords, RequestWords, Roomy, Overruns, BigEnough;
    var w, k := RequestWords(bytes), FirstOnRing(fl, bs, RequestWords(bytes));
    if w < FreeCapacity(bs, HDR) && k < |fl| {
      FitsThere(bs, fl, size, w, k);
      if p != NULL {
        ElsewhereOnRing(bs, fl, size, IndexOf(bs, p - HDR), k);
        MoveThere(bs, size, p, fl[k], w);
      }
    }
  }

  lemma RequestIs(bytes: Bytes)
    requires 0 < bytes <= LAST_ROUNDED
    ensures RequestWords(bytes) == if (bytes + 3) / 4 < MIN then MIN else (bytes + 3) / 4
  {
  }

  /** A node of the free ring is no live block's header. */
  lemma ElsewhereOnRing(bs: seq<Block>, fl: seq<nat>, size: nat, i: nat, k: nat)
    requires Sound(bs, fl, size) && i < |bs| && bs[i].used && k < |fl|
    ensures fl[k] != bs[i].start
  {
    UsedNotListed(bs, size, fl, i);
    assert fl[k] in fl;
  }

  lemma UsedBehind(bs: seq<Block>, i: nat, w: nat)
    requires i + 1 < |bs| && bs[i + 1].used
    ensures !GrowsInPlace(bs, i, w)
  {
  }

  /** The free block that growing would leave has its header beyond its end. */
  lemma OverrunUntiled(bs: seq<Block>, size: nat, i: nat, w: nat)
    requires Tiled(bs, HDR, 0, size) && i + 2 < |bs| && bs[i].used && bs[i + 1].end - bs[i].start - HDR < w
    ensures !Tiled(GrownBlocks(bs, i, w), HDR, 0, size)
  {
    AbsorbLen(bs, i);
    var r := GrownBlocks(bs, i, w);
    assert r[i + 1] == Block(bs[i].start + HDR + w, bs[i + 1].end, false);
  }

  lemma ReallocTrades(bs: seq<Block>, fl: seq<nat>, size: nat, p: nat, bytes: Bytes)
    requires Sound(bs, fl, size) && IsLive(bs, p) && bytes != 0 && !Overruns(bs, p, bytes)
    ensures var available := FreeCapacity(bs, HDR);
            var r, bs' := ReallocPtr(bs, fl, available, p, bytes), ReallocBlocks(bs, fl, available, p, bytes);
            Wf(bs', HDR, 0, size) && Traded(bs, bs', p, r, bytes)
  {
    hide Tiled, NoFreePair, FreeCapacity, Lists, OnFree, IndexOf, FirstOnRing, Live, Shrink, GrownBlocks, TakenBlocks, Release;
    hide AlignWords, RequestWords, Roomy, GrowsInPlace;
    RequestCovers(bytes);
    OverrunWords(bytes);
    var w, i := RequestWords(bytes), IndexOf(bs, p - HDR);
    if GrowsInPlace(bs, i, w) {
      GrowsOnlyFree(bs, i, w);
      NextBelowTail(bs, size, i);
      GrowTest(bs, size, i, w);
      GrowFacts(bs, fl, size, i, w);
      BelowTail(bs, size, i + 1);
      FrontMeaning(bs, GrownBlocks(bs, i, w), size, p, w);
    } else if w > Capacity(bs[i], HDR) {
      MoveMeaning(bs, fl, size, p, w);
    } else if w + HDR + MIN < Capacity(bs[i], HDR) {
      ShrinkKeeps(bs, HDR, 0, size, i, w);
      BelowTail(bs, size, i);
      FrontMeaning(bs, Shrink(bs, HDR, i, w), size, p, w);
    }
  }

  lemma GrowsOnlyFree(bs: seq<Block>, i: nat, w: nat)
    requires i + 1 < |bs| && GrowsInPlace(bs, i, w)
    ensures !bs[i + 1].used
  {
  }

  /**
   A heap of 30 words from which 12 bytes were allocated overruns when that block is resized to 0xFFFFFFF4
   bytes.  The words from 3 on are the `prev`, `next_free` and `prev_free` of its header and its whole payload.
   */
  lemma OverrunInstance(s: seq<int>, t: seq<int>)
    ensures var empty := [Block(0, 24, false), Tail(30)];
            var bs, w := TakenBlocks(empty, 0, RequestWords(12)), RequestWords(0xFFFF_FFF4);
            && Sound(empty, [0], 30)
            && bs == [Block(0, 9, true), Block(9, 24, false), Tail(30)]
            && Overruns(bs, HDR, 0xFFFF_FFF4) && IndexOf(bs, 0) == 0
            && (Overran(s, t, bs, TakenFree(empty, [0], 0, 3), 30, 0, w) ==>
                  t[2..9] == [3, MAGIC, HEAP_PTR, 24, 0, 30, 30])
  {
    hide Sound, Overran, Overruns, TakenBlocks, TakenFree, Without, After;
    EmptySound(24);
    InstanceBlocks();
    if Overran(s, t, [Block(0, 9, true), Block(9, 24, false), Tail(30)], [9], 30, 0, 0x3FFF_FFFD) {
      InstanceWords(s, t);
    }
  }

  lemma InstanceBlocks()
    ensures var empty, bs := [Block(0, 24, false), Tail(30)], [Block(0, 9, true), Block(9, 24, false), Tail(30)];
            && RequestWords(12) == 3 && RequestWords(0xFFFF_FFF4) == 0x3FFF_FFFD
            && IndexOf(empty, 0) == 0 && TakenBlocks(empty, 0, 3) == bs && TakenFree(empty, [0], 0, 3) == [9]
            && IndexOf(bs, 0) == 0 && Overruns(bs, HDR, 0xFFFF_FFF4)
  {
  }

  lemma InstanceWords(s: seq<int>, t: seq<int>)
    requires Overran(s, t, [Block(0, 9, true), Block(9, 24, false), Tail(30)], [9], 30, 0, 0x3FFF_FFFD)
    ensures |t| > 9 && t[2..9] == [3, MAGIC, HEAP_PTR, 24, 0, 30, 30]
  {
    hide NoRings, SamePayloads;
    assert Without([9], 9) == [];
    assert t[2..9] == [t[2]] + t[3..9];
  }

  lemma NextBelowTail(bs: seq<Block>, size: nat, i: nat)
    requires |bs| > 1 && size >= HDR && bs[|bs| - 1] == Tail(size) && i + 1 < |bs| && !bs[i + 1].used
    ensures i + 2 < |bs|
  {
  }

  /** The block at `p` was replaced by one of `w` words with the same start. */
  lemma FrontMeaning(bs: seq<Block>, r: seq<Block>, size: nat, p: nat, w: nat)
    requires Wf(bs, HDR, 0, size) && Wf(r, HDR, 0, size) && IsLive(bs, p) && w > 0
    requires p + w < size
    requires var b := bs[IndexOf(bs, p - HDR)];
             Live(r) == Live(bs) - {b} + {Block(b.start, b.start + HDR + w, true)}
    ensures IsLive(r, p) && Capacity(r[IndexOf(r, p - HDR)], HDR) == w
    ensures Live(r) - {r[IndexOf(r, p - HDR)]} == Live(bs) - {bs[IndexOf(bs, p - HDR)]}
  {
    hide Tiled, NoFreePair, IndexOf;
    var i := IndexOf(bs, p - HDR);
    var front := Block(bs[i].start, bs[i].start + HDR + w, true);
    assert front in Live(r);
    var k :| 0 <= k < |r| && r[k] == front;
    IndexIs(r, size, k);
    NotLast(r, size, k);
    StartTaken(bs, size, i, front);
  }

  lemma MoveMeaning(bs: seq<Block>, fl: seq<nat>, size: nat, p: nat, w: nat)
    requires Sound(bs, fl, size) && IsLive(bs, p)
    ensures var r, bs' := MovedPtr(bs, fl, FreeCapacity(bs, HDR), p, w), MovedBlocks(bs, fl, FreeCapacity(bs, HDR), p, w);
            && Wf(bs', HDR, 0, size)
            && (r == NULL ==> bs' == bs)
            && (r != NULL ==>
                  && IsLive(bs', r)
                  && Capacity(bs'[IndexOf(bs', r - HDR)], HDR) >= w
                  && Live(bs') - {bs'[IndexOf(bs', r - HDR)]} == Live(bs) - {bs[IndexOf(bs, p - HDR)]})
  {
    hide Tiled, NoFreePair, FreeCapacity, Lists, OnFree, IndexOf, FirstOnRing, Live, Carve, Release, BigEnough;
    var k := FirstOnRing(fl, bs, w);
    if w < FreeCapacity(bs, HDR) && k < |fl| {
      FitsThere(bs, fl, size, w, k);
      MoveThere(bs, size, p, fl[k], w);
    }
  }

  lemma MoveThere(bs: seq<Block>, size: nat, p: nat, x: nat, w: nat)
    requires Wf(bs, HDR, 0, size) && |bs| > 1 && size >= HDR && bs[|bs| - 1] == Tail(size) && IsLive(bs, p)
    requires IndexOf(bs, x) < |bs| && Fits(bs[IndexOf(bs, x)], HDR, w)
    ensures IsLive(TakenBlocks(bs, x, w), p)
    ensures var bs' := FreedBlocks(TakenBlocks(bs, x, w), p);
            && Wf(bs', HDR, 0, size) && IsLive(bs', x + HDR)
            && Capacity(bs'[IndexOf(bs', x)], HDR) >= w
            && Live(bs') - {bs'[IndexOf(bs', x)]} == Live(bs) - {bs[IndexOf(bs, p - HDR)]}
            && Live(TakenBlocks(bs, x, w)) == Live(bs) + {bs'[IndexOf(bs', x)]}
  {
    hide Tiled, NoFreePair, IndexOf, Carve, Release;
    var g := TakenBlocks(bs, x, w);
    var j := IndexOf(bs, x);
    FreeNotTail(bs, size, j);
    MoveFacts(bs, size, p, x, w);
    CarveKeeps(bs, HDR, MIN, 0, size, j, w);
    IndexIs(g, size, j);
    var bs' := FreedBlocks(g, p);
    ReleaseKeeps(g, HDR, 0, size, IndexOf(g, p - HDR));
    assert g[j] in Live(bs');
    var k :| 0 <= k < |bs'| && bs'[k] == g[j];
    IndexIs(bs', size, k);
    NotLast(bs', size, k);
    BelowTail(g, size, j);
  }

  lemma FreeNotTail(bs: seq<Block>, size: nat, i: nat)
    requires |bs| > 1 && size >= HDR && bs[|bs| - 1] == Tail(size) && i < |bs| && !bs[i].used
    ensures i + 1 < |bs|
  {
  }
}
