/**
 The block list that both boundary-tag allocators (mem.c and memheap.c) keep in their pool,
 as a value: the blocks in address order, each with its extent and its used mark.
 All offsets and sizes are in words of RT_ALIGN_SIZE (4) bytes; `h` is the size of a block
 header and `m` the smallest payload worth splitting off.
 */
module HeapBlocks {

  const WORD_RANGE: nat := 0x1_0000_0000

  type Bytes = n: nat | n < WORD_RANGE

  /** RT_ALIGN(bytes, 4) in 32-bit arithmetic, counted in words. */
  function AlignWords(bytes: Bytes): (w: nat)
    ensures 4 * w < WORD_RANGE
  {
    (bytes + 3) % WORD_RANGE / 4
  }

  const LAST_ROUNDED: nat := 0xFFFF_FFFC

  /** Rounding covers the request exactly when the rounding itself does not wrap to 0. */
  lemma AlignCovers(bytes: Bytes)
    ensures 4 * AlignWords(bytes) >= bytes <==> bytes <= LAST_ROUNDED
    ensures bytes <= LAST_ROUNDED ==> 4 * AlignWords(bytes) < bytes + 4
    ensures AlignWords(bytes) == 0 <==> bytes == 0 || bytes > LAST_ROUNDED
  {
  }

  datatype Block = Block(start: nat, end: nat, used: bool)

  function Capacity(b: Block, h: nat): int {
    b.end - b.start - h
  }

  predicate Fits(b: Block, h: nat, w: nat) {
    !b.used && Capacity(b, h) >= w
  }

  /** The blocks tile the words from `lo` up to `end` without a gap, each with room for its header. */
  ghost predicate Tiled(bs: seq<Block>, h: nat, lo: nat, end: nat) {
    && |bs| > 0
    && bs[0].start == lo
    && bs[|bs| - 1].end == end
    && (forall i :: 0 <= i < |bs| ==> bs[i].start + h <= bs[i].end)
    && (forall i, j :: 0 <= i && j == i + 1 && j < |bs| ==> bs[i].end == bs[j].start)
  }

  ghost predicate NoFreePair(bs: seq<Block>) {
    forall i, j :: 0 <= i && j == i + 1 && j < |bs| ==> bs[i].used || bs[j].used
  }

  ghost predicate Wf(bs: seq<Block>, h: nat, lo: nat, end: nat) {
    h > 0 && Tiled(bs, h, lo, end) && NoFreePair(bs)
  }

  /** The blocks handed out to callers. */
  ghost function Live(bs: seq<Block>): set<Block> {
    set b | b in bs && b.used
  }

  ghost function UsedExtent(bs: seq<Block>): int {
    if bs == [] then 0
    else (if bs[0].used then bs[0].end - bs[0].start else 0) + UsedExtent(bs[1..])
  }

  ghost function FreeCapacity(bs: seq<Block>, h: nat): int {
    if bs == [] then 0
    else (if bs[0].used then 0 else Capacity(bs[0], h)) + FreeCapacity(bs[1..], h)
  }

  /** Index of the lowest-address free block that holds `w` words, or |bs|. */
  ghost function FirstFit(bs: seq<Block>, h: nat, w: nat): (i: nat)
    ensures i <= |bs|
    ensures i < |bs| ==> Fits(bs[i], h, w)
    ensures forall j :: 0 <= j < i ==> !Fits(bs[j], h, w)
  {
    if bs == [] then 0
    else if Fits(bs[0], h, w) then 0
    else
      var i := 1 + FirstFit(bs[1..], h, w);
      assert forall j :: 0 < j < i ==> bs[j] == bs[1..][j - 1];
      i
  }

  /** Offset of the lowest free block, or `end` when every block is used. */
  ghost function LowestFree(bs: seq<Block>, end: nat): nat {
    if bs == [] then end
    else if !bs[0].used then bs[0].start
    else LowestFree(bs[1..], end)
  }

  // ---------------------------------------------------------------- transformations

  /** Cut block `i` after `w` payload words: the front is used, the rest is free. */
  ghost function Cut(bs: seq<Block>, h: nat, i: nat, w: nat): seq<Block>
    requires i < |bs|
  {
    var b := bs[i];
    bs[..i] + [Block(b.start, b.start + h + w, true), Block(b.start + h + w, b.end, false)] + bs[i + 1..]
  }

  /** Hand out block `i` for `w` words, splitting it when the rest can hold a header and `m` words. */
  ghost function Carve(bs: seq<Block>, h: nat, m: nat, i: nat, w: nat): seq<Block>
    requires i < |bs|
  {
    if Capacity(bs[i], h) >= w + h + m then Cut(bs, h, i, w) else bs[i := bs[i].(used := true)]
  }

  ghost function Join(bs: seq<Block>, i: nat): seq<Block>
    requires i + 1 < |bs|
  {
    bs[..i] + [Block(bs[i].start, bs[i + 1].end, false)] + bs[i + 2..]
  }

  ghost function JoinNext(bs: seq<Block>, i: nat): (r: seq<Block>)
    requires i < |bs|
    ensures i < |r| && (forall j :: 0 <= j < i ==> r[j] == bs[j])
  {
    if i + 1 < |bs| && !bs[i + 1].used then Join(bs, i) else bs
  }

  ghost function JoinPrev(bs: seq<Block>, i: nat): seq<Block>
    requires i < |bs|
  {
    if i > 0 && !bs[i - 1].used then Join(bs, i - 1) else bs
  }

  /** Merge the free block `i` with its free neighbours. */
  ghost function Coalesce(bs: seq<Block>, i: nat): seq<Block>
    requires i < |bs|
  {
    JoinPrev(JoinNext(bs, i), i)
  }

  ghost function Release(bs: seq<Block>, i: nat): seq<Block>
    requires i < |bs|
  {
    Coalesce(bs[i := bs[i].(used := false)], i)
  }

  /** Give back the words of block `i` after its first `w`. */
  ghost function Shrink(bs: seq<Block>, h: nat, i: nat, w: nat): seq<Block>
    requires i < |bs|
  {
    JoinNext(Cut(bs, h, i, w), i + 1)
  }

  // ---------------------------------------------------------------- facts about tilings

  lemma {:induction false} Ordered(bs: seq<Block>, h: nat, lo: nat, end: nat, i: nat, j: nat)
    requires Tiled(bs, h, lo, end) && i < j < |bs|
    ensures bs[i].end <= bs[j].start
    decreases j
  {
    if i + 1 < j {
      Ordered(bs, h, lo, end, i, j - 1);
    }
  }

  /** Blocks of one tiling never overlap, and every offset lies inside the tiled range. */
  lemma AllOrdered(bs: seq<Block>, h: nat, lo: nat, end: nat)
    requires Tiled(bs, h, lo, end)
    ensures forall i, j :: 0 <= i < j < |bs| ==> bs[i].end <= bs[j].start
    ensures forall i :: 0 <= i < |bs| ==> lo <= bs[i].start && bs[i].end <= end
  {
    forall i, j | 0 <= i < j < |bs|
      ensures bs[i].end <= bs[j].start
    {
      Ordered(bs, h, lo, end, i, j);
    }
    forall i | 0 <= i < |bs|
      ensures lo <= bs[i].start && bs[i].end <= end
    {
      if i > 0 { Ordered(bs, h, lo, end, 0, i); }
      if i < |bs| - 1 { Ordered(bs, h, lo, end, i, |bs| - 1); }
    }
  }

  lemma TiledTail(bs: seq<Block>, h: nat, lo: nat, end: nat)
    requires Tiled(bs, h, lo, end) && |bs| > 1
    ensures Tiled(bs[1..], h, bs[0].end, end)
    ensures NoFreePair(bs) ==> NoFreePair(bs[1..])
  {
    forall i | 0 <= i < |bs[1..]| - 1
      ensures bs[1..][i].end == bs[1..][i + 1].start
      ensures NoFreePair(bs) ==> bs[1..][i].used || bs[1..][i + 1].used
    {
      assert bs[1..][i] == bs[i + 1] && bs[1..][i + 1] == bs[i + 2];
    }
  }

  lemma LiveTail(bs: seq<Block>, h: nat, lo: nat, end: nat)
    requires Wf(bs, h, lo, end)
    ensures Live(bs[1..]) == if bs[0].used then Live(bs) - {bs[0]} else Live(bs)
  {
    AllOrdered(bs, h, lo, end);
    assert forall b :: b in bs <==> b == bs[0] || b in bs[1..];
    assert bs[0] !in bs[1..];
  }

  /** A live block whose start is the low end of the tiling is the first block. */
  lemma FirstIsFirst(bs: seq<Block>, h: nat, lo: nat, end: nat, b: Block)
    requires Wf(bs, h, lo, end)
    requires b in bs && b.start < bs[0].end
    ensures b == bs[0]
  {
    AllOrdered(bs, h, lo, end);
  }

  /**
   The block list is canonical: which blocks are live decides the whole list, its free
   blocks included.  So two histories that leave the same blocks live leave the same heap.
   */
  lemma {:induction false} Canonical(xs: seq<Block>, bs: seq<Block>, h: nat, lo: nat, end: nat)
    requires Wf(xs, h, lo, end) && Wf(bs, h, lo, end)
    requires Live(xs) == Live(bs)
    ensures xs == bs
    decreases |xs|
  {
    HeadsAgree(xs, bs, h, lo, end);
    if |xs| == 1 {
      AlonesAgree(xs, bs, h, lo, end);
    } else if |bs| == 1 {
      AlonesAgree(bs, xs, h, lo, end);
    } else {
      TailsAgree(xs, bs, h, lo, end);
      Canonical(xs[1..], bs[1..], h, xs[0].end, end);
      assert xs == [xs[0]] + xs[1..] && bs == [bs[0]] + bs[1..];
    }
  }

  lemma AlonesAgree(xs: seq<Block>, bs: seq<Block>, h: nat, lo: nat, end: nat)
    requires Wf(xs, h, lo, end) && Wf(bs, h, lo, end)
    requires xs[0] == bs[0] && |xs| == 1
    ensures |bs| == 1
  {
    AllOrdered(bs, h, lo, end);
  }

  lemma TailsAgree(xs: seq<Block>, bs: seq<Block>, h: nat, lo: nat, end: nat)
    requires Wf(xs, h, lo, end) && Wf(bs, h, lo, end)
    requires xs[0] == bs[0] && |xs| > 1 && |bs| > 1 && Live(xs) == Live(bs)
    ensures Wf(xs[1..], h, xs[0].end, end) && Wf(bs[1..], h, xs[0].end, end)
    ensures Live(xs[1..]) == Live(bs[1..])
  {
    TiledTail(xs, h, lo, end);
    TiledTail(bs, h, lo, end);
    LiveTail(xs, h, lo, end);
    LiveTail(bs, h, lo, end);
  }

  lemma HeadsAgree(xs: seq<Block>, bs: seq<Block>, h: nat, lo: nat, end: nat)
    requires Wf(xs, h, lo, end) && Wf(bs, h, lo, end)
    requires Live(xs) == Live(bs)
    ensures xs[0] == bs[0]
  {
    if xs[0].used {
      assert xs[0] in Live(bs);
      FirstIsFirst(bs, h, lo, end, xs[0]);
    } else if bs[0].used {
      assert bs[0] in Live(xs);
      FirstIsFirst(xs, h, lo, end, bs[0]);
    } else {
      FreeHeadNotLonger(xs, bs, h, lo, end);
      FreeHeadNotLonger(bs, xs, h, lo, end);
    }
  }

  lemma FreeHeadNotLonger(xs: seq<Block>, bs: seq<Block>, h: nat, lo: nat, end: nat)
    requires Wf(xs, h, lo, end) && Wf(bs, h, lo, end)
    requires Live(xs) == Live(bs) && !xs[0].used && !bs[0].used
    ensures bs[0].end <= xs[0].end
  {
    AllOrdered(bs, h, lo, end);
    if |xs| > 1 {
      assert xs[1] in Live(xs);
      assert xs[1] in bs && xs[1].used;
    }
  }

  // ---------------------------------------------------------------- what each transformation keeps

  lemma WfCut(bs: seq<Block>, h: nat, lo: nat, end: nat, i: nat, w: nat)
    requires Tiled(bs, h, lo, end) && i < |bs| && Capacity(bs[i], h) >= w + h
    ensures Tiled(Cut(bs, h, i, w), h, lo, end)
  {
  }

  lemma LiveConcat(xs: seq<Block>, ys: seq<Block>)
    ensures Live(xs + ys) == Live(xs) + Live(ys)
  {
    assert forall b :: b in xs + ys <==> b in xs || b in ys;
  }

  lemma AllDistinct(bs: seq<Block>, h: nat, lo: nat, end: nat)
    requires h > 0 && Tiled(bs, h, lo, end)
    ensures forall i, j :: 0 <= i < j < |bs| ==> bs[i] != bs[j]
  {
    AllOrdered(bs, h, lo, end);
  }

  lemma PartsDisjoint(bs: seq<Block>, i: nat, n: nat)
    requires forall i, j :: 0 <= i < j < |bs| ==> bs[i] != bs[j]
    requires i + n <= |bs|
    ensures Live(bs[i..i + n]) !! Live(bs[..i]) + Live(bs[i + n..])
  {
  }

  /** Replacing blocks i .. i+n changes the live set by exactly those blocks. */
  lemma LiveSplice(bs: seq<Block>, h: nat, lo: nat, end: nat, i: nat, n: nat, mid: seq<Block>)
    requires h > 0 && Tiled(bs, h, lo, end) && i + n <= |bs|
    ensures Live(bs[..i] + mid + bs[i + n..]) == Live(bs) - Live(bs[i..i + n]) + Live(mid)
  {
    assert bs == bs[..i] + bs[i..i + n] + bs[i + n..];
    LiveConcat(bs[..i] + bs[i..i + n], bs[i + n..]);
    LiveConcat(bs[..i], bs[i..i + n]);
    LiveConcat(bs[..i] + mid, bs[i + n..]);
    LiveConcat(bs[..i], mid);
    AllDistinct(bs, h, lo, end);
    PartsDisjoint(bs, i, n);
  }

  lemma LiveTaken(bs: seq<Block>, b: Block, front: Block, rest: Block)
    requires front.used && !rest.used
    ensures Live(bs) - Live([b]) + Live([front, rest]) == Live(bs) - {b} + {front}
  {
  }

  lemma LiveCut(bs: seq<Block>, h: nat, lo: nat, end: nat, i: nat, w: nat)
    requires h > 0 && Tiled(bs, h, lo, end) && i < |bs| && Capacity(bs[i], h) >= w + h
    ensures Live(Cut(bs, h, i, w)) == Live(bs) - {bs[i]} + {Block(bs[i].start, bs[i].start + h + w, true)}
  {
    var b := bs[i];
    var front, rest := Block(b.start, b.start + h + w, true), Block(b.start + h + w, b.end, false);
    LiveSplice(bs, h, lo, end, i, 1, [front, rest]);
    LiveTaken(bs, b, front, rest);
    assert bs[i..i + 1] == [b];
  }

  lemma LiveSet(bs: seq<Block>, h: nat, lo: nat, end: nat, i: nat, b: Block)
    requires h > 0 && Tiled(bs, h, lo, end) && i < |bs|
    ensures Live(bs[i := b]) == Live(bs) - {bs[i]} + (if b.used then {b} else {})
  {
    LiveSplice(bs, h, lo, end, i, 1, [b]);
    assert bs[i..i + 1] == [bs[i]];
    assert bs[i := b] == bs[..i] + [b] + bs[i + 1..];
    assert Live(bs) - Live([bs[i]]) == Live(bs) - {bs[i]};
  }

  /** Allocation hands out one new block and touches no other. */
  lemma CarveKeeps(bs: seq<Block>, h: nat, m: nat, lo: nat, end: nat, i: nat, w: nat)
    requires Wf(bs, h, lo, end) && i < |bs| && Fits(bs[i], h, w)
    ensures var r := Carve(bs, h, m, i, w);
            && Wf(r, h, lo, end)
            && i < |r| && r[i].used && r[i].start == bs[i].start
            && Capacity(r[i], h) >= w
            && r[i] !in Live(bs)
            && Live(r) == Live(bs) + {r[i]}
  {
    if Capacity(bs[i], h) >= w + h + m {
      CutKeeps(bs, h, lo, end, i, w);
    } else {
      LiveMarked(bs, h, lo, end, i);
    }
  }

  lemma CutKeeps(bs: seq<Block>, h: nat, lo: nat, end: nat, i: nat, w: nat)
    requires Wf(bs, h, lo, end) && i < |bs| && !bs[i].used && Capacity(bs[i], h) >= w + h
    ensures var r := Cut(bs, h, i, w);
            && Wf(r, h, lo, end)
            && r[i] !in Live(bs)
            && Live(r) == Live(bs) + {r[i]}
  {
    WfCut(bs, h, lo, end, i, w);
    LiveCut(bs, h, lo, end, i, w);
    NotYetLive(bs, h, lo, end, i, Block(bs[i].start, bs[i].start + h + w, true));
    assert NoFreePair(Cut(bs, h, i, w));
  }

  lemma NotYetLive(bs: seq<Block>, h: nat, lo: nat, end: nat, i: nat, b: Block)
    requires h > 0 && Tiled(bs, h, lo, end) && i < |bs| && !bs[i].used && b.start == bs[i].start && b.used
    ensures b !in Live(bs)
  {
    AllOrdered(bs, h, lo, end);
  }

  lemma LiveMarked(bs: seq<Block>, h: nat, lo: nat, end: nat, i: nat)
    requires Wf(bs, h, lo, end) && i < |bs| && !bs[i].used
    ensures var r := bs[i := bs[i].(used := true)];
            && Wf(r, h, lo, end)
            && r[i] !in Live(bs)
            && Live(r) == Live(bs) + {r[i]}
  {
    LiveSet(bs, h, lo, end, i, bs[i].(used := true));
    NotYetLive(bs, h, lo, end, i, bs[i].(used := true));
  }

  lemma JoinKeeps(bs: seq<Block>, h: nat, lo: nat, end: nat, i: nat)
    requires h > 0 && Tiled(bs, h, lo, end) && i + 1 < |bs| && !bs[i].used && !bs[i + 1].used
    ensures Tiled(Join(bs, i), h, lo, end)
    ensures Live(Join(bs, i)) == Live(bs)
  {
    TiledJoin(bs, h, lo, end, i);
    hide Tiled, Live;
    var whole := Block(bs[i].start, bs[i + 1].end, false);
    LiveSplice(bs, h, lo, end, i, 2, [whole]);
    PairAt(bs, i);
    NoneLive([bs[i], bs[i + 1]]);
    NoneLive([whole]);
  }

  lemma TiledJoin(bs: seq<Block>, h: nat, lo: nat, end: nat, i: nat)
    requires Tiled(bs, h, lo, end) && i + 1 < |bs|
    ensures Tiled(Join(bs, i), h, lo, end)
  {
  }

  lemma NoneLive(bs: seq<Block>)
    requires forall i :: 0 <= i < |bs| ==> !bs[i].used
    ensures Live(bs) == {}
  {
  }

  /** The only free pairs of `bs` are those that involve block `i`. */
  ghost predicate FreePairsOnlyAt(bs: seq<Block>, i: nat) {
    forall j, k :: 0 <= j && k == j + 1 && k < |bs| && j != i && k != i ==> bs[j].used || bs[k].used
  }

  lemma CoalesceKeeps(bs: seq<Block>, h: nat, lo: nat, end: nat, i: nat)
    requires h > 0 && Tiled(bs, h, lo, end) && i < |bs| && !bs[i].used && FreePairsOnlyAt(bs, i)
    ensures Wf(Coalesce(bs, i), h, lo, end)
    ensures Live(Coalesce(bs, i)) == Live(bs)
  {
    var a := JoinNext(bs, i);
    JoinNextKeeps(bs, h, lo, end, i);
    JoinPrevKeeps(a, h, lo, end, i);
  }

  lemma JoinNextKeeps(bs: seq<Block>, h: nat, lo: nat, end: nat, i: nat)
    requires h > 0 && Tiled(bs, h, lo, end) && i < |bs| && !bs[i].used && FreePairsOnlyAt(bs, i)
    ensures var a := JoinNext(bs, i);
            && Tiled(a, h, lo, end) && Live(a) == Live(bs) && !a[i].used
            && FreePairsOnlyAt(a, i) && (i + 1 < |a| ==> a[i + 1].used)
  {
    if i + 1 < |bs| && !bs[i + 1].used {
      JoinKeeps(bs, h, lo, end, i);
      var a := Join(bs, i);
      forall j, k | 0 <= j && k == j + 1 && k < |a| && k != i && j != i
        ensures a[j].used || a[k].used
      {
        assert j < i ==> a[j] == bs[j] && a[k] == bs[k];
        assert j > i ==> a[j] == bs[j + 1] && a[k] == bs[k + 1];
      }
      assert i + 1 < |a| ==> a[i + 1] == bs[i + 2] && (bs[i + 1].used || bs[i + 2].used);
    }
  }

  lemma JoinPrevKeeps(a: seq<Block>, h: nat, lo: nat, end: nat, i: nat)
    requires h > 0 && Tiled(a, h, lo, end) && i < |a| && !a[i].used && FreePairsOnlyAt(a, i)
    requires i + 1 < |a| ==> a[i + 1].used
    ensures Wf(JoinPrev(a, i), h, lo, end) && Live(JoinPrev(a, i)) == Live(a)
  {
    hide Tiled;
    if i > 0 && !a[i - 1].used {
      JoinKeeps(a, h, lo, end, i - 1);
      JoinPrevSeparates(a, i);
    } else {
      assert forall j, k :: 0 <= j && k == j + 1 && k < |a| && (j == i || k == i) ==> a[j].used || a[k].used;
    }
  }

  lemma JoinPrevSeparates(a: seq<Block>, i: nat)
    requires 0 < i < |a| && !a[i - 1].used && FreePairsOnlyAt(a, i)
    requires i + 1 < |a| ==> a[i + 1].used
    ensures NoFreePair(Join(a, i - 1))
  {
    var r := Join(a, i - 1);
    assert forall j :: 0 <= j < i - 1 ==> r[j] == a[j];
    assert forall j :: i <= j < |r| ==> r[j] == a[j + 1];
    forall j, k | 0 <= j && k == j + 1 && k < |r|
      ensures r[j].used || r[k].used
    {
      if k < i {
        assert a[j].used || a[k].used;
      } else if j >= i {
        assert a[j + 1].used || a[k + 1].used;
      } else {
        assert r[k] == a[i + 1];
      }
    }
  }

  lemma ReadyToCoalesce(bs: seq<Block>, h: nat, lo: nat, end: nat, i: nat)
    requires Wf(bs, h, lo, end) && i < |bs|
    ensures var f := bs[i := bs[i].(used := false)];
            Tiled(f, h, lo, end) && FreePairsOnlyAt(f, i) && !f[i].used
  {
  }

  /** Freeing a live block takes exactly that block out and restores the canonical form. */
  lemma ReleaseKeeps(bs: seq<Block>, h: nat, lo: nat, end: nat, i: nat)
    requires Wf(bs, h, lo, end) && i < |bs| && bs[i].used
    ensures Wf(Release(bs, i), h, lo, end)
    ensures Live(Release(bs, i)) == Live(bs) - {bs[i]}
  {
    var f := bs[i := bs[i].(used := false)];
    ReadyToCoalesce(bs, h, lo, end, i);
    LiveSet(bs, h, lo, end, i, bs[i].(used := false));
    CoalesceKeeps(f, h, lo, end, i);
  }

  /** Shrinking in place replaces one live block by its front part. */
  lemma ShrinkKeeps(bs: seq<Block>, h: nat, lo: nat, end: nat, i: nat, w: nat)
    requires Wf(bs, h, lo, end) && i < |bs| && bs[i].used && Capacity(bs[i], h) >= w + h
    ensures Wf(Shrink(bs, h, i, w), h, lo, end)
    ensures Live(Shrink(bs, h, i, w)) == Live(bs) - {bs[i]} + {Block(bs[i].start, bs[i].start + h + w, true)}
  {
    CutReady(bs, h, lo, end, i, w);
    LiveCut(bs, h, lo, end, i, w);
    CoalesceKeeps(Cut(bs, h, i, w), h, lo, end, i + 1);
  }

  /** After the cut, the remainder only has to be merged forwards. */
  lemma CutReady(bs: seq<Block>, h: nat, lo: nat, end: nat, i: nat, w: nat)
    requires Wf(bs, h, lo, end) && i < |bs| && bs[i].used && Capacity(bs[i], h) >= w + h
    ensures var c := Cut(bs, h, i, w);
            && Tiled(c, h, lo, end) && FreePairsOnlyAt(c, i + 1) && i + 1 < |c|
            && !c[i + 1].used && c[i + 1].start == bs[i].start + h + w
            && Coalesce(c, i + 1) == Shrink(bs, h, i, w)
  {
    WfCut(bs, h, lo, end, i, w);
  }

  // ---------------------------------------------------------------- the laws callers rely on

  /** Allocating and then freeing the block just handed out gives back the same block list. */
  lemma AllocThenFree(bs: seq<Block>, h: nat, m: nat, lo: nat, end: nat, i: nat, w: nat)
    requires Wf(bs, h, lo, end) && i < |bs| && Fits(bs[i], h, w)
    ensures i < |Carve(bs, h, m, i, w)|
    ensures Release(Carve(bs, h, m, i, w), i) == bs
  {
    CarveKeeps(bs, h, m, lo, end, i, w);
    var r := Carve(bs, h, m, i, w);
    ReleaseKeeps(r, h, lo, end, i);
    Canonical(Release(r, i), bs, h, lo, end);
  }

  /** The order in which two blocks are freed does not matter. */
  lemma FreesCommute(bs: seq<Block>, h: nat, lo: nat, end: nat, i: nat, j: nat, i': nat, j': nat)
    requires Wf(bs, h, lo, end) && i < |bs| && j < |bs| && i != j && bs[i].used && bs[j].used
    requires i' < |Release(bs, j)| && Release(bs, j)[i'] == bs[i]
    requires j' < |Release(bs, i)| && Release(bs, i)[j'] == bs[j]
    ensures Release(Release(bs, i), j') == Release(Release(bs, j), i')
  {
    ReleaseBoth(bs, h, lo, end, i, j, j');
    ReleaseBoth(bs, h, lo, end, j, i, i');
    Canonical(Release(Release(bs, i), j'), Release(Release(bs, j), i'), h, lo, end);
  }

  lemma ReleaseBoth(bs: seq<Block>, h: nat, lo: nat, end: nat, i: nat, j: nat, j': nat)
    requires Wf(bs, h, lo, end) && i < |bs| && j < |bs| && bs[i].used && bs[j].used
    requires j' < |Release(bs, i)| && Release(bs, i)[j'] == bs[j]
    ensures Wf(Release(Release(bs, i), j'), h, lo, end)
    ensures Live(Release(Release(bs, i), j')) == Live(bs) - {bs[i], bs[j]}
  {
    ReleaseKeeps(bs, h, lo, end, i);
    ReleaseKeeps(Release(bs, i), h, lo, end, j');
  }

  /** With nothing live, the list is the single free block that initialisation made. */
  lemma NothingLive(bs: seq<Block>, h: nat, lo: nat, end: nat)
    requires Wf(bs, h, lo, end) && Live(bs) == {}
    ensures bs == [Block(lo, end, false)]
  {
    assert bs[0] in bs && forall b :: b in bs ==> b.used ==> b in Live(bs);
    if |bs| > 1 {
      SomethingLive(bs, h, lo, end);
    }
  }

  lemma SomethingLive(bs: seq<Block>, h: nat, lo: nat, end: nat)
    requires Wf(bs, h, lo, end) && |bs| > 1
    ensures Live(bs) != {}
  {
    assert bs[if bs[0].used then 0 else 1] in Live(bs);
  }

  // ---------------------------------------------------------------- sums and the lowest free block

  lemma {:induction false} UsedExtentConcat(xs: seq<Block>, bs: seq<Block>)
    ensures UsedExtent(xs + bs) == UsedExtent(xs) + UsedExtent(bs)
  {
    if xs == [] {
      assert xs + bs == bs;
    } else {
      assert (xs + bs)[1..] == xs[1..] + bs;
      UsedExtentConcat(xs[1..], bs);
    }
  }

  lemma {:induction false} FreeCapacityConcat(xs: seq<Block>, bs: seq<Block>, h: nat)
    ensures FreeCapacity(xs + bs, h) == FreeCapacity(xs, h) + FreeCapacity(bs, h)
  {
    if xs == [] {
      assert xs + bs == bs;
    } else {
      assert (xs + bs)[1..] == xs[1..] + bs;
      FreeCapacityConcat(xs[1..], bs, h);
    }
  }

  /** Replacing blocks i .. i+n changes the sums by that stretch only. */
  lemma SumsSplice(bs: seq<Block>, h: nat, i: nat, n: nat, mid: seq<Block>)
    requires i + n <= |bs|
    ensures var r := bs[..i] + mid + bs[i + n..];
            && UsedExtent(r) == UsedExtent(bs) - UsedExtent(bs[i..i + n]) + UsedExtent(mid)
            && FreeCapacity(r, h) == FreeCapacity(bs, h) - FreeCapacity(bs[i..i + n], h) + FreeCapacity(mid, h)
  {
    assert bs == bs[..i] + bs[i..i + n] + bs[i + n..];
    UsedExtentConcat(bs[..i] + bs[i..i + n], bs[i + n..]);
    UsedExtentConcat(bs[..i], bs[i..i + n]);
    UsedExtentConcat(bs[..i] + mid, bs[i + n..]);
    UsedExtentConcat(bs[..i], mid);
    FreeCapacityConcat(bs[..i] + bs[i..i + n], bs[i + n..], h);
    FreeCapacityConcat(bs[..i], bs[i..i + n], h);
    FreeCapacityConcat(bs[..i] + mid, bs[i + n..], h);
    FreeCapacityConcat(bs[..i], mid, h);
  }

  lemma SumsOne(b: Block, h: nat)
    ensures UsedExtent([b]) == (if b.used then b.end - b.start else 0)
    ensures FreeCapacity([b], h) == (if b.used then 0 else Capacity(b, h))
  {
  }

  lemma SumsTwo(a: Block, b: Block, h: nat)
    ensures UsedExtent([a, b]) == UsedExtent([a]) + UsedExtent([b])
    ensures FreeCapacity([a, b], h) == FreeCapacity([a], h) + FreeCapacity([b], h)
  {
    assert [a, b] == [a] + [b];
    UsedExtentConcat([a], [b]);
    FreeCapacityConcat([a], [b], h);
  }

  lemma SumsCut(bs: seq<Block>, h: nat, i: nat, w: nat)
    requires i < |bs|
    ensures UsedExtent(Cut(bs, h, i, w)) == UsedExtent(bs) - UsedExtent([bs[i]]) + h + w
    ensures FreeCapacity(Cut(bs, h, i, w), h) == FreeCapacity(bs, h) - FreeCapacity([bs[i]], h) + Capacity(bs[i], h) - h - w
  {
    var b := bs[i];
    var front, rest := Block(b.start, b.start + h + w, true), Block(b.start + h + w, b.end, false);
    SumsSplice(bs, h, i, 1, [front, rest]);
    SumsTwo(front, rest, h);
    assert bs[i..i + 1] == [b];
  }

  lemma SumsSet(bs: seq<Block>, h: nat, i: nat, b: Block)
    requires i < |bs|
    ensures UsedExtent(bs[i := b]) == UsedExtent(bs) - UsedExtent([bs[i]]) + UsedExtent([b])
    ensures FreeCapacity(bs[i := b], h) == FreeCapacity(bs, h) - FreeCapacity([bs[i]], h) + FreeCapacity([b], h)
  {
    SumsSplice(bs, h, i, 1, [b]);
    assert bs[i..i + 1] == [bs[i]];
    assert bs[i := b] == bs[..i] + [b] + bs[i + 1..];
  }

  /** Joining two free blocks makes one header's words available as payload. */
  lemma SumsJoin(bs: seq<Block>, h: nat, i: nat)
    requires i + 1 < |bs| && !bs[i].used && !bs[i + 1].used && bs[i].end == bs[i + 1].start
    ensures UsedExtent(Join(bs, i)) == UsedExtent(bs)
    ensures FreeCapacity(Join(bs, i), h) == FreeCapacity(bs, h) + h
  {
    SumsSplice(bs, h, i, 2, [Block(bs[i].start, bs[i + 1].end, false)]);
    SumsTwo(bs[i], bs[i + 1], h);
    assert bs[i..i + 2] == [bs[i], bs[i + 1]];
  }

  lemma UsedCoalesce(bs: seq<Block>, h: nat, lo: nat, end: nat, i: nat)
    requires h > 0 && Tiled(bs, h, lo, end) && i < |bs| && !bs[i].used && FreePairsOnlyAt(bs, i)
    ensures UsedExtent(Coalesce(bs, i)) == UsedExtent(bs)
    ensures LowestFree(Coalesce(bs, i), end) == LowestFree(bs, end)
  {
    var a := JoinNext(bs, i);
    JoinNextKeeps(bs, h, lo, end, i);
    if i + 1 < |bs| && !bs[i + 1].used {
      SumsJoin(bs, h, i);
      LowestFreeJoin(bs, end, i);
    }
    if i > 0 && !a[i - 1].used {
      SumsJoin(a, h, i - 1);
      LowestFreeJoin(a, end, i - 1);
    }
  }

  lemma UsedRelease(bs: seq<Block>, h: nat, lo: nat, end: nat, i: nat)
    requires Wf(bs, h, lo, end) && i < |bs| && bs[i].used
    ensures UsedExtent(Release(bs, i)) == UsedExtent(bs) - (bs[i].end - bs[i].start)
  {
    var f := bs[i := bs[i].(used := false)];
    SumsSet(bs, h, i, bs[i].(used := false));
    ReadyToCoalesce(bs, h, lo, end, i);
    UsedCoalesce(f, h, lo, end, i);
  }

  /** LowestFree is the start of the first free block. */
  lemma {:induction false} LowestFreeAt(bs: seq<Block>, end: nat, i: nat)
    requires i <= |bs| && (forall j :: 0 <= j < i ==> bs[j].used) && (i < |bs| ==> !bs[i].used)
    ensures LowestFree(bs, end) == if i < |bs| then bs[i].start else end
  {
    if i > 0 {
      LowestFreeAt(bs[1..], end, i - 1);
    }
  }

  /** Joining two free blocks leaves the lowest free offset where it was. */
  lemma {:induction false} LowestFreeJoin(bs: seq<Block>, end: nat, i: nat)
    requires i + 1 < |bs| && !bs[i].used && !bs[i + 1].used
    ensures LowestFree(Join(bs, i), end) == LowestFree(bs, end)
  {
    if i > 0 {
      LowestFreeJoin(bs[1..], end, i - 1);
      assert Join(bs, i)[1..] == Join(bs[1..], i - 1);
    }
  }

  lemma {:induction false} LowestFreeBound(bs: seq<Block>, h: nat, lo: nat, end: nat)
    requires Tiled(bs, h, lo, end)
    ensures lo <= LowestFree(bs, end) <= end
    ensures forall i :: 0 <= i < |bs| && !bs[i].used ==> LowestFree(bs, end) <= bs[i].start
  {
    AllOrdered(bs, h, lo, end);
    if bs[0].used && |bs| > 1 {
      TiledTail(bs, h, lo, end);
      LowestFreeBound(bs[1..], h, bs[0].end, end);
      assert forall i :: 0 < i < |bs| ==> bs[i] == bs[1..][i - 1];
    }
  }

  /** After block `i` becomes free, the lowest free offset is the lower of its start and the old one. */
  lemma {:induction false} LowestFreeFreed(bs: seq<Block>, h: nat, lo: nat, end: nat, i: nat)
    requires Tiled(bs, h, lo, end) && i < |bs|
    ensures var f := bs[i := bs[i].(used := false)];
            LowestFree(f, end) == if bs[i].start < LowestFree(bs, end) then bs[i].start else LowestFree(bs, end)
  {
    var f := bs[i := bs[i].(used := false)];
    if i > 0 {
      TiledTail(bs, h, lo, end);
      assert f[1..] == bs[1..][i - 1 := bs[i].(used := false)];
      if bs[0].used {
        LowestFreeFreed(bs[1..], h, bs[0].end, end, i - 1);
      } else {
        AllOrdered(bs, h, lo, end);
      }
    } else {
      LowestFreeBound(bs, h, lo, end);
      AllOrdered(bs, h, lo, end);
    }
  }

  /** Handing out a block other than the lowest free one leaves the lowest free offset alone. */
  lemma LowestFreeCarve(bs: seq<Block>, h: nat, m: nat, end: nat, i: nat, w: nat)
    requires i < |bs| && !bs[i].used && LowestFree(bs, end) != bs[i].start
    ensures LowestFree(Carve(bs, h, m, i, w), end) == LowestFree(bs, end)
  {
    var r := Carve(bs, h, m, i, w);
    var k := LowestIndex(bs, end);
    assert k < i && r[..k + 1] == bs[..k + 1];
    assert r[k] == r[..k + 1][k] && forall j :: 0 <= j < k ==> r[j] == r[..k + 1][j];
    LowestFreeAt(r, end, k);
  }

  lemma LowestFreeCut(bs: seq<Block>, h: nat, lo: nat, end: nat, i: nat, w: nat)
    requires Tiled(bs, h, lo, end) && i < |bs| && bs[i].used && Capacity(bs[i], h) >= w + h > 0
    ensures var q := bs[i].start + h + w;
            LowestFree(Cut(bs, h, i, w), end) == if q < LowestFree(bs, end) then q else LowestFree(bs, end)
  {
    var r := Cut(bs, h, i, w);
    var k := LowestIndex(bs, end);
    AllOrdered(bs, h, lo, end);
    if k < i {
      assert r[..k + 1] == bs[..k + 1];
      assert r[k] == r[..k + 1][k] && forall j :: 0 <= j < k ==> r[j] == r[..k + 1][j];
      LowestFreeAt(r, end, k);
    } else {
      assert r[..i] == bs[..i] && forall j :: 0 <= j < i ==> r[j] == r[..i][j];
      LowestFreeAt(r, end, i + 1);
    }
  }

  /** Every block below the lowest free one is used. */
  lemma BelowLowest(bs: seq<Block>, h: nat, lo: nat, end: nat, i: nat)
    requires Tiled(bs, h, lo, end) && h > 0 && i <= |bs|
    requires LowestFree(bs, end) == if i < |bs| then bs[i].start else end
    ensures forall j :: 0 <= j < i ==> bs[j].used
  {
    AllOrdered(bs, h, lo, end);
    LowestFreeBound(bs, h, lo, end);
  }

  /** The lowest free offset is the start of some block, or the end. */
  lemma {:induction false} LowestIndex(bs: seq<Block>, end: nat) returns (i: nat)
    ensures i <= |bs|
    ensures LowestFree(bs, end) == if i < |bs| then bs[i].start else end
    ensures i < |bs| ==> !bs[i].used
    ensures forall j :: 0 <= j < i ==> bs[j].used
  {
    if bs == [] || !bs[0].used {
      i := 0;
    } else {
      i := LowestIndex(bs[1..], end);
      i := i + 1;
      assert forall j :: 0 < j < i ==> bs[j] == bs[1..][j - 1];
    }
  }

  /** Index of the block that starts at `o`, or |bs|. */
  ghost function IndexOf(bs: seq<Block>, o: nat): (i: nat)
    ensures i <= |bs|
    ensures i < |bs| ==> bs[i].start == o
    ensures forall j :: 0 <= j < i ==> bs[j].start != o
  {
    if bs == [] then 0
    else if bs[0].start == o then 0
    else
      var i := 1 + IndexOf(bs[1..], o);
      assert forall j :: 0 < j < i ==> bs[j] == bs[1..][j - 1];
      i
  }

  // ---------------------------------------------------------------- where the free blocks are

  ghost function FreeStarts(bs: seq<Block>): set<nat> {
    set b | b in bs && !b.used :: b.start
  }

  lemma FreeStartsConcat(xs: seq<Block>, ys: seq<Block>)
    ensures FreeStarts(xs + ys) == FreeStarts(xs) + FreeStarts(ys)
  {
    assert forall b :: b in xs + ys <==> b in xs || b in ys;
  }

  lemma StartsDisjoint(bs: seq<Block>, i: nat, n: nat)
    requires forall i, j :: 0 <= i < j < |bs| ==> bs[i].start != bs[j].start
    requires i + n <= |bs|
    ensures FreeStarts(bs[i..i + n]) !! FreeStarts(bs[..i]) + FreeStarts(bs[i + n..])
  {
  }

  /** Replacing blocks i .. i+n changes the set of free starts by exactly those blocks. */
  lemma FreeStartsSplice(bs: seq<Block>, h: nat, lo: nat, end: nat, i: nat, n: nat, mid: seq<Block>)
    requires h > 0 && Tiled(bs, h, lo, end) && i + n <= |bs|
    ensures FreeStarts(bs[..i] + mid + bs[i + n..]) == FreeStarts(bs) - FreeStarts(bs[i..i + n]) + FreeStarts(mid)
  {
    assert bs == bs[..i] + bs[i..i + n] + bs[i + n..];
    FreeStartsConcat(bs[..i] + bs[i..i + n], bs[i + n..]);
    FreeStartsConcat(bs[..i], bs[i..i + n]);
    FreeStartsConcat(bs[..i] + mid, bs[i + n..]);
    FreeStartsConcat(bs[..i], mid);
    AllOrdered(bs, h, lo, end);
    StartsDisjoint(bs, i, n);
  }

  lemma FreeStartsCut(bs: seq<Block>, h: nat, lo: nat, end: nat, i: nat, w: nat)
    requires h > 0 && Tiled(bs, h, lo, end) && i < |bs|
    ensures FreeStarts(Cut(bs, h, i, w)) == FreeStarts(bs) - {bs[i].start} + {bs[i].start + h + w}
  {
    hide Tiled;
    var b := bs[i];
    FreeStartsSplice(bs, h, lo, end, i, 1, [Block(b.start, b.start + h + w, true), Block(b.start + h + w, b.end, false)]);
    assert bs[i..i + 1] == [b];
    OnlyFreeStart(bs, h, lo, end, i);
  }

  lemma FreeStartsSet(bs: seq<Block>, h: nat, lo: nat, end: nat, i: nat, used: bool)
    requires h > 0 && Tiled(bs, h, lo, end) && i < |bs|
    ensures FreeStarts(bs[i := bs[i].(used := used)]) == FreeStarts(bs) - {bs[i].start} + (if used then {} else {bs[i].start})
  {
    hide Tiled;
    var b := bs[i].(used := used);
    FreeStartsSplice(bs, h, lo, end, i, 1, [b]);
    assert bs[i..i + 1] == [bs[i]];
    assert bs[i := b] == bs[..i] + [b] + bs[i + 1..];
    OnlyFreeStart(bs, h, lo, end, i);
  }

  lemma OnlyFreeStart(bs: seq<Block>, h: nat, lo: nat, end: nat, i: nat)
    requires h > 0 && Tiled(bs, h, lo, end) && i < |bs|
    ensures FreeStarts(bs) - FreeStarts([bs[i]]) == FreeStarts(bs) - {bs[i].start}
  {
    AllOrdered(bs, h, lo, end);
  }

  lemma FreeStartIn(bs: seq<Block>, i: nat)
    requires i < |bs| && !bs[i].used
    ensures bs[i].start in FreeStarts(bs)
  {
  }

  lemma FreeStartsPair(a: Block, b: Block)
    requires !a.used && !b.used
    ensures FreeStarts([a, b]) == {a.start, b.start} && FreeStarts([a]) == {a.start}
  {
    assert a in [a, b] && b in [a, b] && a in [a];
  }

  lemma PairAt(bs: seq<Block>, i: nat)
    requires i + 1 < |bs|
    ensures bs[i..i + 2] == [bs[i], bs[i + 1]]
  {
  }

  lemma StartsDiffer(bs: seq<Block>, h: nat, lo: nat, end: nat, i: nat)
    requires h > 0 && Tiled(bs, h, lo, end) && i + 1 < |bs|
    ensures bs[i].start != bs[i + 1].start
  {
  }

  lemma JoinSpliced(bs: seq<Block>, h: nat, lo: nat, end: nat, i: nat)
    requires h > 0 && Tiled(bs, h, lo, end) && i + 1 < |bs|
    ensures var whole := Block(bs[i].start, bs[i + 1].end, false);
            FreeStarts(Join(bs, i)) == FreeStarts(bs) - FreeStarts(bs[i..i + 2]) + FreeStarts([whole])
  {
    hide Tiled, FreeStarts;
    FreeStartsSplice(bs, h, lo, end, i, 2, [Block(bs[i].start, bs[i + 1].end, false)]);
  }

  lemma KeepOne(xs: set<nat>, x: nat, y: nat)
    requires x in xs && x != y
    ensures xs - {x, y} + {x} == xs - {y}
  {
  }

  lemma FreeStartsJoin(bs: seq<Block>, h: nat, lo: nat, end: nat, i: nat)
    requires h > 0 && Tiled(bs, h, lo, end) && i + 1 < |bs| && !bs[i].used && !bs[i + 1].used
    ensures FreeStarts(Join(bs, i)) == FreeStarts(bs) - {bs[i + 1].start}
    ensures bs[i].start in FreeStarts(bs) && bs[i + 1].start in FreeStarts(bs) && bs[i].start != bs[i + 1].start
  {
    hide *;
    var a, b := bs[i], bs[i + 1];
    FreeStartIn(bs, i);
    FreeStartIn(bs, i + 1);
    StartsDiffer(bs, h, lo, end, i);
    JoinSpliced(bs, h, lo, end, i);
    PairAt(bs, i);
    FreeStartsPair(a, b);
    FreeStartsPair(Block(a.start, b.end, false), Block(a.start, b.end, false));
    KeepOne(FreeStarts(bs), a.start, b.start);
  }

  // ---------------------------------------------------------------- what the payloads hold

  /** The words of every block in `live` are the same in both pools. */
  ghost predicate SamePayloads(h: nat, s: seq<int>, t: seq<int>, live: set<Block>) {
    |s| == |t| && forall b, k :: b in live && b.start + h <= k < b.end && k < |s| ==> s[k] == t[k]
  }

  lemma SameIsSame(h: nat, s: seq<int>, live: set<Block>)
    ensures SamePayloads(h, s, s, live)
  {
  }

  lemma SameFewer(h: nat, s: seq<int>, t: seq<int>, live: set<Block>, gone: set<Block>)
    requires SamePayloads(h, s, t, live)
    ensures SamePayloads(h, s, t, live - gone)
  {
  }

  lemma SameTrans(h: nat, s: seq<int>, t: seq<int>, u: seq<int>, l0: set<Block>, l1: set<Block>, l2: set<Block>)
    requires SamePayloads(h, s, t, l0) && SamePayloads(h, t, u, l1) && l2 <= l0 && l2 <= l1
    ensures SamePayloads(h, s, u, l2)
  {
  }

  function Least(a: nat, b: nat): nat {
    if a < b then a else b
  }

  ghost function Max(a: int, b: int): int {
    if a < b then b else a
  }

  /** The first `n` words at `p` hold what the first `n` words at `q` held. */
  ghost predicate WordsMoved(s: seq<int>, q: nat, t: seq<int>, p: nat, n: nat) {
    q + n <= |s| && p + n <= |t| && t[p..p + n] == s[q..q + n]
  }

  /** What the steps of a move leave: every other live block, and the words moved. */
  lemma MovedWords(h: nat, s: seq<int>, t: seq<int>, v: seq<int>, l0: set<Block>, l1: set<Block>, from: Block, to: Block, n: nat)
    requires SamePayloads(h, s, t, l0) && SamePayloads(h, t, v, l1 - {to})
    requires from in l0 && l1 <= l0
    requires WordsMoved(t, from.start + h, v, to.start + h, n)
    requires n <= Capacity(from, h) && n <= Capacity(to, h)
    ensures SamePayloads(h, s, v, l1 - {to})
    ensures WordsMoved(s, from.start + h, v, to.start + h, n)
  {
    SliceKept(h, s, t, l0, from, n);
    SameTrans(h, s, t, v, l0, l1 - {to}, l1 - {to});
  }

  lemma SliceKept(h: nat, s: seq<int>, t: seq<int>, live: set<Block>, b: Block, n: nat)
    requires SamePayloads(h, s, t, live) && b in live && n <= Capacity(b, h) && b.start + h + n <= |s|
    ensures s[b.start + h..b.start + h + n] == t[b.start + h..b.start + h + n]
  {
    var p := b.start + h;
    assert forall k :: p <= k < p + n ==> s[k] == t[k];
  }
}
