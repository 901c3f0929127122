/**
 What callers of the mem.c heap may rely on: exact first fit, what a resize means whichever
 branch it takes, and facts about every run of alloc, realloc and free from rt_smem_init.
 */
module SmallMemLaws {
  import opened HeapBlocks
  import opened SmallMem

  /**
   rt_smem_alloc fails on a non-zero size only when no free block is large enough; otherwise it
   hands out the lowest-address one that is, as a new live block with little to spare.  The block covers
   the request exactly when rounding the request up did not wrap.
   */
  lemma AllocMeaning(bs: seq<Block>, end: nat, bytes: Bytes)
    requires Wf(bs, HDR, 0, end)
    ensures var w, r, bs' := RequestWords(bytes), AllocPtr(bs, bytes), AllocBlocks(bs, bytes);
            && (r == NULL <==> bytes == 0 || forall b :: b in bs ==> !Fits(b, HDR, w))
            && (r == NULL ==> bs' == bs)
            && (r != NULL ==>
                  && IsLive(bs', r)
                  && var b := bs'[Owner(bs', r)];
                     && w <= Capacity(b, HDR) < w + HDR + MIN
                     && b !in Live(bs) && Live(bs') == Live(bs) + {b}
                     && (forall f :: f in bs && Fits(f, HDR, w) ==> b.start <= f.start)
                     && (4 * Capacity(b, HDR) >= bytes <==> bytes <= LAST_ROUNDED))
  {
    hide Tiled, NoFreePair, IndexOf, AlignWords;
    AlignCovers(bytes);
    var i, w := Chosen(bs, bytes), RequestWords(bytes);
    assert forall b :: b in bs ==> exists k :: 0 <= k < |bs| && bs[k] == b;
    if AllocSucceeds(bs, bytes) {
      CarveKeeps(bs, HDR, MIN, 0, end, i, w);
      OwnerIs(AllocBlocks(bs, bytes), end, i);
      LowestOfFits(bs, end, i, w);
    }
  }

  lemma LowestOfFits(bs: seq<Block>, end: nat, i: nat, w: nat)
    requires Tiled(bs, HDR, 0, end) && i < |bs| && forall j :: 0 <= j < i ==> !Fits(bs[j], HDR, w)
    ensures forall f :: f in bs && Fits(f, HDR, w) ==> bs[i].start <= f.start
  {
    AllOrdered(bs, HDR, 0, end);
  }

  /** A block that was just allocated and is freed again leaves no trace in the block list. */
  lemma AllocFreeIdentity(bs: seq<Block>, end: nat, bytes: Bytes)
    requires Wf(bs, HDR, 0, end) && AllocSucceeds(bs, bytes)
    ensures IsLive(AllocBlocks(bs, bytes), AllocPtr(bs, bytes))
    ensures FreeBlocks(AllocBlocks(bs, bytes), AllocPtr(bs, bytes)) == bs
  {
    hide Tiled, NoFreePair, Carve, Release;
    var i := Chosen(bs, bytes);
    CarveKeeps(bs, HDR, MIN, 0, end, i, RequestWords(bytes));
    OwnerIs(AllocBlocks(bs, bytes), end, i);
    AllocThenFree(bs, HDR, MIN, 0, end, i, RequestWords(bytes));
  }

  /** The list a resize leaves, whatever lists it passed through. */
  ghost function ReallocBlocks(bs: seq<Block>, memSize: nat, p: nat, bytes: Bytes): seq<Block>
    requires p == NULL || IsLive(bs, p)
  {
    LastOf(bs, ReallocTrail(bs, memSize, p, bytes))
  }

  /**
   A resize to a non-zero size either fails and changes nothing, or trades the old block for one large enough,
   with every other live block as it was, exactly when rounding the size up does not wrap.  If it does, the
   block is freed although the size is not zero.
   */
  lemma ReallocMeaning(bs: seq<Block>, memSize: nat, p: nat, bytes: Bytes)
    requires Wf(bs, HDR, 0, memSize + HDR) && IsLive(bs, p) && bytes != 0
    ensures var r, bs' := ReallocPtr(bs, memSize, p, bytes), ReallocBlocks(bs, memSize, p, bytes);
            && Wf(bs', HDR, 0, memSize + HDR)
            && (r == NULL ==> (bs' == bs <==> bytes <= LAST_ROUNDED))
            && (bytes > LAST_ROUNDED ==> r == NULL && Live(bs') == Live(bs) - {bs[Owner(bs, p)]})
            && (r != NULL ==>
                  && IsLive(bs', r)
                  && 4 * Capacity(bs'[Owner(bs', r)], HDR) >= bytes
                  && Live(bs') - {bs'[Owner(bs', r)]} == Live(bs) - {bs[Owner(bs, p)]})
  {
    AlignCovers(bytes);
    hide Tiled, NoFreePair, Carve, Release, Shrink, FirstFit, IndexOf, Live, AlignWords;
    var w, i, end := AlignWords(bytes), Owner(bs, p), memSize + HDR;
    BlocksApart(bs, end, i, i);
    if w == 0 {
      ReleaseKeeps(bs, HDR, 0, end, i);
      OneLess(bs, i);
    } else if w > memSize || w == Capacity(bs[i], HDR) {
    } else if w + HDR + MIN < Capacity(bs[i], HDR) {
      ShrinkMeaning(bs, end, p, w);
    } else if AllocPtr(bs, 4 * w) != NULL {
      MoveMeaning(bs, end, p, w);
    } else {
      NullMeansFull(bs, 4 * w);
    }
  }

  /**
   When a resize stays, moves or fails.  A block stays if its size is right or if what it has to spare can be
   split off; else the lowest free block that is large enough takes over, even for a smaller size; and the resize
   fails if and only if there is none.  No more than a header and a minimum payload is wasted.
   */
  lemma ReallocDecides(bs: seq<Block>, memSize: nat, p: nat, bytes: Bytes)
    requires Wf(bs, HDR, 0, memSize + HDR) && IsLive(bs, p) && 0 < bytes <= LAST_ROUNDED
    ensures var w, cap := (bytes + 3) / 4, Capacity(bs[Owner(bs, p)], HDR);
            var need, stays := if w < MIN then MIN else w, cap == w || w + HDR + MIN < cap;
            var r, bs' := ReallocPtr(bs, memSize, p, bytes), ReallocBlocks(bs, memSize, p, bytes);
            && (r == p <==> stays)
            && (r == NULL <==> !stays && forall b :: b in bs ==> !Fits(b, HDR, need))
            && (r != NULL ==> IsLive(bs', r) && Capacity(bs'[Owner(bs', r)], HDR) < need + HDR + MIN)
            && (r != NULL && r != p ==> forall f :: f in bs && Fits(f, HDR, need) ==> r <= f.start + HDR)
  {
    hide Tiled, NoFreePair, Carve, Release, Shrink, FirstFit, IndexOf, Live, FreeBlocks, AllocPtr, AllocBlocks;
    var w, i, end := AlignWords(bytes), Owner(bs, p), memSize + HDR;
    assert w == (bytes + 3) / 4 > 0;
    AllocMeaning(bs, end, 4 * w);
    SameRequest(w);
    SizesFit(bs, memSize);
    if w > memSize || w == Capacity(bs[i], HDR) {
    } else if w + HDR + MIN < Capacity(bs[i], HDR) {
      ShrinkMeaning(bs, end, p, w);
    } else if AllocPtr(bs, 4 * w) != NULL {
      MoveDecides(bs, end, p, w);
    }
  }

  /** A resize of NULL is an allocation of the rounded size, and one to size 0 is a release. */
  lemma ReallocEnds(bs: seq<Block>, memSize: nat, p: nat, bytes: Bytes)
    requires Wf(bs, HDR, 0, memSize + HDR) && bytes <= LAST_ROUNDED
    ensures bytes > 0 ==>
              var need := if (bytes + 3) / 4 < MIN then MIN else (bytes + 3) / 4;
              var r, bs' := ReallocPtr(bs, memSize, NULL, bytes), ReallocBlocks(bs, memSize, NULL, bytes);
              && (r == NULL <==> forall b :: b in bs ==> !Fits(b, HDR, need))
              && (r == NULL ==> bs' == bs)
              && (r != NULL ==> IsLive(bs', r) && bs'[Owner(bs', r)] !in Live(bs) && Live(bs') == Live(bs) + {bs'[Owner(bs', r)]}
                                && need <= Capacity(bs'[Owner(bs', r)], HDR) < need + HDR + MIN)
    ensures bytes == 0 && IsLive(bs, p) ==>
              ReallocPtr(bs, memSize, p, 0) == NULL && Live(ReallocBlocks(bs, memSize, p, 0)) == Live(bs) - {bs[Owner(bs, p)]}
  {
    hide Tiled, NoFreePair, Carve, Release, FirstFit, IndexOf, Live, AllocPtr, AllocBlocks;
    if bytes > 0 {
      var w := AlignWords(bytes);
      assert w == (bytes + 3) / 4 > 0;
      AllocMeaning(bs, memSize + HDR, 4 * w);
      SameRequest(w);
      SizesFit(bs, memSize);
      AllocMatches(bs, 4 * w);
    } else if IsLive(bs, p) {
      ReleaseKeeps(bs, HDR, 0, memSize + HDR, Owner(bs, p));
    }
  }

  lemma AllocMatches(bs: seq<Block>, bytes: Bytes)
    ensures AllocSucceeds(bs, bytes) <==> AllocPtr(bs, bytes) != NULL
    ensures !AllocSucceeds(bs, bytes) ==> AllocBlocks(bs, bytes) == bs
  {
  }

  lemma SameRequest(w: nat)
    requires 0 < 4 * w < WORD_RANGE
    ensures RequestWords(4 * w) == if w < MIN then MIN else w
  {
  }

  /** No block is larger than the pool. */
  lemma SizesFit(bs: seq<Block>, memSize: nat)
    requires Tiled(bs, HDR, 0, memSize + HDR)
    ensures forall b :: b in bs ==> Capacity(b, HDR) <= memSize
  {
    AllOrdered(bs, HDR, 0, memSize + HDR);
  }

  lemma MoveDecides(bs: seq<Block>, end: nat, p: nat, w: nat)
    requires Wf(bs, HDR, 0, end) && IsLive(bs, p) && 4 * w < WORD_RANGE && AllocPtr(bs, 4 * w) != NULL
    ensures var g, q := AllocBlocks(bs, 4 * w), AllocPtr(bs, 4 * w);
            && IsLive(g, p) && q != p
            && (forall f :: f in bs && Fits(f, HDR, RequestWords(4 * w)) ==> q <= f.start + HDR)
            && var bs' := FreeBlocks(g, p);
               IsLive(bs', q) && Capacity(bs'[Owner(bs', q)], HDR) < RequestWords(4 * w) + HDR + MIN
  {
    hide Tiled, NoFreePair, Carve, Release, FirstFit, IndexOf, RequestWords;
    var i, g, q := Chosen(bs, 4 * w), AllocBlocks(bs, 4 * w), AllocPtr(bs, 4 * w);
    AllocMeaning(bs, end, 4 * w);
    MoveFacts(bs, end, p, w);
    MoveMeaning(bs, end, p, w);
    StartsApart(bs, end, Owner(bs, p), i);
    SameBlock(bs, g, end, p, q);
  }

  lemma StartsApart(bs: seq<Block>, end: nat, i: nat, j: nat)
    requires Tiled(bs, HDR, 0, end) && i < |bs| && j < |bs| && bs[i].used && !bs[j].used
    ensures bs[i].start != bs[j].start
  {
    AllOrdered(bs, HDR, 0, end);
  }

  /** The block at q is the same one before and after p is freed. */
  lemma SameBlock(bs: seq<Block>, g: seq<Block>, end: nat, p: nat, q: nat)
    requires Wf(g, HDR, 0, end) && IsLive(g, p) && IsLive(g, q) && p != q
    ensures var bs' := FreeBlocks(g, p); IsLive(bs', q) && bs'[Owner(bs', q)] == g[Owner(g, q)]
  {
    hide Tiled, NoFreePair, Release, IndexOf;
    var bs' := FreeBlocks(g, p);
    var b := g[Owner(g, q)];
    ReleaseKeeps(g, HDR, 0, end, Owner(g, p));
    OwnerOfLive(bs', end, q, b);
  }

  lemma OneLess(bs: seq<Block>, i: nat)
    requires i < |bs| && bs[i].used
    ensures Live(bs) - {bs[i]} != Live(bs)
  {
    assert bs[i] in Live(bs);
  }

  lemma NullMeansFull(bs: seq<Block>, bytes: Bytes)
    requires bytes != 0 && AllocPtr(bs, bytes) == NULL
    ensures !AllocSucceeds(bs, bytes)
  {
  }

  lemma ShrinkMeaning(bs: seq<Block>, end: nat, p: nat, w: nat)
    requires Wf(bs, HDR, 0, end) && IsLive(bs, p) && w + HDR + MIN < Capacity(bs[Owner(bs, p)], HDR)
    ensures var bs' := Shrink(bs, HDR, Owner(bs, p), w);
            && Wf(bs', HDR, 0, end) && IsLive(bs', p)
            && Capacity(bs'[Owner(bs', p)], HDR) == w
            && Live(bs') - {bs'[Owner(bs', p)]} == Live(bs) - {bs[Owner(bs, p)]}
  {
    hide Tiled, NoFreePair, Shrink, IndexOf;
    var i := Owner(bs, p);
    var front := Block(bs[i].start, bs[i].start + HDR + w, true);
    ShrinkKeeps(bs, HDR, 0, end, i, w);
    OwnerOfLive(Shrink(bs, HDR, i, w), end, p, front);
    StartsDiffer(bs, end, i, front);
  }

  /** No other live block starts where block `i` does. */
  lemma StartsDiffer(bs: seq<Block>, end: nat, i: nat, b: Block)
    requires Tiled(bs, HDR, 0, end) && i < |bs| && b.start == bs[i].start
    ensures b !in Live(bs) - {bs[i]}
  {
    AllOrdered(bs, HDR, 0, end);
  }

  lemma MoveMeaning(bs: seq<Block>, end: nat, p: nat, w: nat)
    requires Wf(bs, HDR, 0, end) && IsLive(bs, p) && 4 * w < WORD_RANGE && AllocPtr(bs, 4 * w) != NULL
    ensures var g, q := AllocBlocks(bs, 4 * w), AllocPtr(bs, 4 * w);
            && IsLive(g, p)
            && var bs' := FreeBlocks(g, p);
               && Wf(bs', HDR, 0, end) && IsLive(bs', q)
               && Capacity(bs'[Owner(bs', q)], HDR) >= w
               && Live(bs') - {bs'[Owner(bs', q)]} == Live(bs) - {bs[Owner(bs, p)]}
  {
    hide Tiled, NoFreePair, Carve, Release, FirstFit, IndexOf;
    MoveFacts(bs, end, p, w);
    var g := AllocBlocks(bs, 4 * w);
    ReleaseKeeps(g, HDR, 0, end, Owner(g, p));
    CarveKeeps(bs, HDR, MIN, 0, end, Chosen(bs, 4 * w), RequestWords(4 * w));
    OwnerIs(g, end, Chosen(bs, 4 * w));
  }

  // ---------------------------------------------------------------- runs

  datatype Op = Alloc(bytes: Bytes) | Realloc(p: nat, bytes: Bytes) | Free(p: nat)

  /** The calls the source allows: a pointer passed back is NULL or live. */
  ghost predicate Legal(bs: seq<Block>, op: Op) {
    op.Alloc? || op.p == NULL || IsLive(bs, op.p)
  }

  ghost function Step(bs: seq<Block>, memSize: nat, op: Op): seq<Block>
    requires Legal(bs, op)
  {
    match op
    case Alloc(bytes) => AllocBlocks(bs, bytes)
    case Realloc(p, bytes) => ReallocBlocks(bs, memSize, p, bytes)
    case Free(p) => FreeBlocks(bs, p)
  }

  ghost function Initial(memSize: nat): seq<Block> {
    [Block(0, memSize + HDR, false)]
  }

  /** The heap after `ops`, oldest call first, or None when a call breaks the rules. */
  datatype Outcome = Broken | Heap(blocks: seq<Block>)

  ghost function Run(memSize: nat, ops: seq<Op>): Outcome {
    if ops == [] then Heap(Initial(memSize))
    else
      var before := Run(memSize, ops[..|ops| - 1]);
      if before.Broken? || !Legal(before.blocks, ops[|ops| - 1]) then Broken
      else Heap(Step(before.blocks, memSize, ops[|ops| - 1]))
  }

  lemma StepKeeps(bs: seq<Block>, memSize: nat, op: Op)
    requires Wf(bs, HDR, 0, memSize + HDR) && Legal(bs, op)
    ensures Wf(Step(bs, memSize, op), HDR, 0, memSize + HDR)
  {
    hide Tiled, NoFreePair, Carve, Release, Shrink, FirstFit, IndexOf, Live;
    var end := memSize + HDR;
    match op
    case Alloc(bytes) =>
      AllocKeeps(bs, end, bytes);
    case Free(p) =>
      FreeKeeps(bs, end, p);
    case Realloc(p, bytes) =>
      if AlignWords(bytes) != 0 && p != NULL {
        ReallocMeaning(bs, memSize, p, bytes);
      } else {
        AllocKeeps(bs, end, 4 * AlignWords(bytes));
        FreeKeeps(bs, end, p);
      }
  }

  lemma AllocKeeps(bs: seq<Block>, end: nat, bytes: Bytes)
    requires Wf(bs, HDR, 0, end)
    ensures Wf(AllocBlocks(bs, bytes), HDR, 0, end)
  {
    hide Tiled, NoFreePair, Carve;
    if AllocSucceeds(bs, bytes) {
      CarveKeeps(bs, HDR, MIN, 0, end, Chosen(bs, bytes), RequestWords(bytes));
    }
  }

  lemma FreeKeeps(bs: seq<Block>, end: nat, p: nat)
    requires Wf(bs, HDR, 0, end) && (p == NULL || IsLive(bs, p))
    ensures Wf(FreeBlocks(bs, p), HDR, 0, end)
  {
    hide Tiled, NoFreePair, Release;
    if p != NULL {
      ReleaseKeeps(bs, HDR, 0, end, Owner(bs, p));
    }
  }

  /** Every run of legal calls leaves blocks that tile the pool, with no two free neighbours. */
  lemma {:induction false} RunKeeps(memSize: nat, ops: seq<Op>)
    requires Run(memSize, ops).Heap?
    ensures Wf(Run(memSize, ops).blocks, HDR, 0, memSize + HDR)
  {
    if ops != [] {
      RunKeeps(memSize, ops[..|ops| - 1]);
      StepKeeps(Run(memSize, ops[..|ops| - 1]).blocks, memSize, ops[|ops| - 1]);
    }
  }

  /** Two runs that leave the same blocks live leave the same heap: no run fragments for good. */
  lemma LiveBlocksDecide(memSize: nat, ops: seq<Op>, ops': seq<Op>)
    requires Run(memSize, ops).Heap? && Run(memSize, ops').Heap?
    requires Live(Run(memSize, ops).blocks) == Live(Run(memSize, ops').blocks)
    ensures Run(memSize, ops) == Run(memSize, ops')
  {
    RunKeeps(memSize, ops);
    RunKeeps(memSize, ops');
    Canonical(Run(memSize, ops).blocks, Run(memSize, ops').blocks, HDR, 0, memSize + HDR);
  }

  /** Once every block has been freed, in whatever order, the heap is as rt_smem_init left it. */
  lemma AllFreed(memSize: nat, ops: seq<Op>)
    requires Run(memSize, ops).Heap? && Live(Run(memSize, ops).blocks) == {}
    ensures Run(memSize, ops).blocks == Initial(memSize)
    ensures UsedExtent(Run(memSize, ops).blocks) == 0
  {
    hide Tiled, NoFreePair;
    RunKeeps(memSize, ops);
    NothingLive(Run(memSize, ops).blocks, HDR, 0, memSize + HDR);
  }

  /** Live blocks of one heap never share a word. */
  lemma LiveDisjoint(memSize: nat, ops: seq<Op>, a: Block, b: Block)
    requires Run(memSize, ops).Heap? && a in Live(Run(memSize, ops).blocks) && b in Live(Run(memSize, ops).blocks)
    ensures a == b || a.end <= b.start || b.end <= a.start
  {
    hide Tiled, NoFreePair, Run;
    RunKeeps(memSize, ops);
    AllOrdered(Run(memSize, ops).blocks, HDR, 0, memSize + HDR);
  }
}
