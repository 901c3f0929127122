/**
 The first-fit heap of rt-thread/src/mem.c.  Block headers live inside the pool and are
 updated in place; the ghost field `blocks` is the list they spell out.
 Offsets and sizes are in words of RT_ALIGN_SIZE (4) bytes, requests are in bytes.
 */
module SmallMem {
  import opened HeapBlocks

  const HDR: nat := 3   // SIZEOF_STRUCT_MEM: pool_ptr, next and prev
  const MIN: nat := 3   // MIN_SIZE_ALIGNED, and MIN_SIZE in realloc
  const NULL: nat := 0  // payload offsets start at HDR, so 0 is free to stand for RT_NULL

  /** The payload size rt_smem_alloc looks for. */
  function RequestWords(bytes: Bytes): nat {
    if AlignWords(bytes) < MIN then MIN else AlignWords(bytes)
  }

  // ---------------------------------------------------------------- headers in the pool

  /** The header of `b` in the pool says where the next block starts and whether `b` is used. */
  ghost predicate HeaderOf(s: seq<int>, tag: int, b: Block) {
    && b.start + HDR <= |s|
    && s[b.start] == (if b.used then tag + 1 else tag)
    && s[b.start + 1] == b.end
  }

  ghost predicate PrevIs(s: seq<int>, b: Block, prev: nat) {
    b.start + HDR <= |s| && s[b.start + 2] == prev
  }

  /** Headers in `s` spell out `bs`; the `prev` of the end marker is not maintained. */
  ghost predicate Linked(s: seq<int>, tag: int, bs: seq<Block>, end: nat) {
    && tag % 2 == 0
    && |s| == end + HDR
    && s[end] == tag + 1 && s[end + 1] == end
    && (forall i :: 0 <= i < |bs| ==> HeaderOf(s, tag, bs[i]))
    && |bs| > 0 && PrevIs(s, bs[0], 0)
    && (forall i, j :: 0 <= i && j == i + 1 && j < |bs| ==> PrevIs(s, bs[j], bs[i].start))
  }

  lemma MarkLinked(s: seq<int>, t: seq<int>, tag: int, bs: seq<Block>, end: nat, i: nat, used: bool)
    requires Linked(s, tag, bs, end) && Tiled(bs, HDR, 0, end) && i < |bs|
    requires t == s[bs[i].start := if used then tag + 1 else tag]
    ensures Linked(t, tag, bs[i := bs[i].(used := used)], end)
  {
    AllOrdered(bs, HDR, 0, end);
    var r := bs[i := bs[i].(used := used)];
    forall j | 0 <= j < |r|
      ensures HeaderOf(t, tag, r[j])
    {
      assert HeaderOf(s, tag, bs[j]);
    }
    forall j, k | 0 <= j && k == j + 1 && k < |r|
      ensures PrevIs(t, r[k], r[j].start)
    {
      assert PrevIs(s, bs[k], bs[j].start);
    }
  }

  lemma MarkPayloads(s: seq<int>, t: seq<int>, bs: seq<Block>, end: nat, i: nat, v: int)
    requires Tiled(bs, HDR, 0, end) && i < |bs| && bs[i].start < |s| == end + HDR
    requires t == s[bs[i].start := v]
    ensures SamePayloads(HDR, s, t, Live(bs) + {bs[i].(used := true)})
  {
    AllOrdered(bs, HDR, 0, end);
  }

  /** `t` is `s` with block `i` split after `w` words. */
  ghost predicate CutStored(s: seq<int>, t: seq<int>, tag: int, b: Block, end: nat, w: nat) {
    var q := b.start + HDR + w;
    && |t| == |s| == end + HDR
    && q + HDR <= b.end <= end
    && t[b.start + 1] == q
    && HeaderOf(t, tag, Block(q, b.end, false))
    && PrevIs(t, Block(q, b.end, false), b.start)
    && (b.end != end ==> t[b.end + 2] == q)
    && forall k :: 0 <= k < |s| && k != b.start && k != b.start + 1 && !(q <= k < q + HDR) && k != b.end + 2 ==> t[k] == s[k]
  }

  lemma CutLinked(s: seq<int>, t: seq<int>, tag: int, bs: seq<Block>, end: nat, i: nat, w: nat)
    requires Linked(s, tag, bs, end) && Tiled(bs, HDR, 0, end) && i < |bs|
    requires CutStored(s, t, tag, bs[i], end, w) && t[bs[i].start] == tag + 1
    ensures Linked(t, tag, Cut(bs, HDR, i, w), end)
  {
    var c := Cut(bs, HDR, i, w);
    AllOrdered(bs, HDR, 0, end);
    forall j | 0 <= j < |c|
      ensures HeaderOf(t, tag, c[j])
    {
      if j < i {
        assert c[j] == bs[j] && HeaderOf(s, tag, bs[j]) && bs[j].end <= bs[i].start;
      } else if j > i + 1 {
        assert c[j] == bs[j - 1] && HeaderOf(s, tag, bs[j - 1]);
        assert bs[i].end == bs[i + 1].start && (j == i + 2 || bs[i + 1].end <= bs[j - 1].start);
      }
    }
    CutPrevs(s, t, tag, bs, end, i, w);
  }

  lemma CutPrevs(s: seq<int>, t: seq<int>, tag: int, bs: seq<Block>, end: nat, i: nat, w: nat)
    requires Linked(s, tag, bs, end) && Tiled(bs, HDR, 0, end) && i < |bs|
    requires CutStored(s, t, tag, bs[i], end, w)
    ensures var c := Cut(bs, HDR, i, w);
            && PrevIs(t, c[0], 0)
            && forall j, k :: 0 <= j && k == j + 1 && k < |c| ==> PrevIs(t, c[k], c[j].start)
  {
    var c := Cut(bs, HDR, i, w);
    AllOrdered(bs, HDR, 0, end);
    forall j, k | 0 <= j && k == j + 1 && k < |c|
      ensures PrevIs(t, c[k], c[j].start)
    {
      if k <= i {
        assert PrevIs(s, bs[k], bs[j].start);
      } else if j > i + 1 {
        assert PrevIs(s, bs[k - 1], bs[j - 1].start) && bs[i].end <= bs[j - 1].start;
      }
    }
  }

  lemma CutPayloads(s: seq<int>, t: seq<int>, tag: int, bs: seq<Block>, end: nat, i: nat, w: nat)
    requires Tiled(bs, HDR, 0, end) && i < |bs|
    requires CutStored(s, t, tag, bs[i], end, w)
    ensures SamePayloads(HDR, s, t, Live(bs) - {bs[i]} + {Block(bs[i].start, bs[i].start + HDR + w, true)})
  {
    AllOrdered(bs, HDR, 0, end);
    forall b, k | b in Live(bs) - {bs[i]} && b.start + HDR <= k < b.end && k < |s|
      ensures s[k] == t[k]
    {
      var j :| 0 <= j < |bs| && bs[j] == b;
    }
  }

  /** Everything a caller needs to know after splitting and claiming block `i`. */
  lemma CutAll(s: seq<int>, t: seq<int>, tag: int, bs: seq<Block>, end: nat, i: nat, w: nat)
    requires Linked(s, tag, bs, end) && Tiled(bs, HDR, 0, end) && i < |bs|
    requires CutStored(s, t, tag, bs[i], end, w) && t[bs[i].start] == tag + 1
    ensures var r := Cut(bs, HDR, i, w);
            && Linked(t, tag, r, end)
            && SamePayloads(HDR, s, t, Live(r))
            && UsedExtent(r) == UsedExtent(bs) - UsedExtent([bs[i]]) + HDR + w
  {
    CutLinked(s, t, tag, bs, end, i, w);
    CutPayloads(s, t, tag, bs, end, i, w);
    LiveCut(bs, HDR, 0, end, i, w);
    SumsCut(bs, HDR, i, w);
  }

  lemma MarkAll(s: seq<int>, t: seq<int>, tag: int, bs: seq<Block>, end: nat, i: nat, used: bool)
    requires Linked(s, tag, bs, end) && Tiled(bs, HDR, 0, end) && i < |bs|
    requires t == s[bs[i].start := if used then tag + 1 else tag]
    ensures var r := bs[i := bs[i].(used := used)];
            && Linked(t, tag, r, end)
            && SamePayloads(HDR, s, t, Live(r)) && SamePayloads(HDR, s, t, Live(bs))
            && UsedExtent(r) == UsedExtent(bs) - UsedExtent([bs[i]]) + UsedExtent([r[i]])
  {
    HeadersInside(s, tag, bs, end, i);
    MarkLinked(s, t, tag, bs, end, i, used);
    MarkPayloads(s, t, bs, end, i, if used then tag + 1 else tag);
    LiveSet(bs, HDR, 0, end, i, bs[i].(used := used));
    SumsSet(bs, HDR, i, bs[i].(used := used));
  }

  /** `t` is `s` after the free block `a` swallowed the free block `b` that follows it. */
  ghost predicate JoinStored(s: seq<int>, t: seq<int>, tag: int, a: Block, b: Block, end: nat) {
    && |t| == |s| == end + HDR
    && a.start + HDR <= a.end == b.start && b.start + HDR <= b.end <= end
    && t[a.start + 1] == b.end
    && t[b.end + 2] == a.start
    && forall k :: 0 <= k < |s| && k != a.start + 1 && k != b.start && k != b.end + 2 ==> t[k] == s[k]
  }

  lemma JoinLinked(s: seq<int>, t: seq<int>, tag: int, bs: seq<Block>, end: nat, i: nat)
    requires Linked(s, tag, bs, end) && Tiled(bs, HDR, 0, end) && i + 1 < |bs| && !bs[i].used && !bs[i + 1].used
    requires JoinStored(s, t, tag, bs[i], bs[i + 1], end)
    ensures Linked(t, tag, Join(bs, i), end)
  {
    var c := Join(bs, i);
    AllOrdered(bs, HDR, 0, end);
    forall j | 0 <= j < |c|
      ensures HeaderOf(t, tag, c[j])
    {
      if j < i { assert c[j] == bs[j]; } else if j > i { assert c[j] == bs[j + 1]; }
    }
    JoinPrevs(s, t, tag, bs, end, i);
  }

  lemma JoinPrevs(s: seq<int>, t: seq<int>, tag: int, bs: seq<Block>, end: nat, i: nat)
    requires Linked(s, tag, bs, end) && Tiled(bs, HDR, 0, end) && i + 1 < |bs|
    requires JoinStored(s, t, tag, bs[i], bs[i + 1], end)
    ensures var c := Join(bs, i);
            && PrevIs(t, c[0], 0)
            && forall j, k :: 0 <= j && k == j + 1 && k < |c| ==> PrevIs(t, c[k], c[j].start)
  {
    var c := Join(bs, i);
    AllOrdered(bs, HDR, 0, end);
    forall j, k | 0 <= j && k == j + 1 && k < |c|
      ensures PrevIs(t, c[k], c[j].start)
    {
      if k <= i { assert PrevIs(s, bs[k], bs[j].start); }
      else if j > i { assert PrevIs(s, bs[k + 1], bs[j + 1].start); }
    }
  }

  lemma JoinPayloads(s: seq<int>, t: seq<int>, tag: int, bs: seq<Block>, end: nat, i: nat)
    requires Tiled(bs, HDR, 0, end) && i + 1 < |bs| && !bs[i].used && !bs[i + 1].used
    requires JoinStored(s, t, tag, bs[i], bs[i + 1], end)
    ensures SamePayloads(HDR, s, t, Live(bs))
  {
    AllOrdered(bs, HDR, 0, end);
    forall b, k | b in Live(bs) && b.start + HDR <= k < b.end && k < |s|
      ensures s[k] == t[k]
    {
      var j :| 0 <= j < |bs| && bs[j] == b;
    }
  }

  /** Reading the header of block `i` leads to its neighbours. */
  lemma HeadersInside(s: seq<int>, tag: int, bs: seq<Block>, end: nat, i: nat)
    requires Linked(s, tag, bs, end) && Tiled(bs, HDR, 0, end) && i < |bs|
    ensures tag % 2 == 0 && |s| == end + HDR && s[end] == tag + 1
    ensures HeaderOf(s, tag, bs[i]) && bs[i].start + HDR <= bs[i].end <= end
    ensures i + 1 < |bs| ==> bs[i + 1].start == bs[i].end < end && HeaderOf(s, tag, bs[i + 1])
    ensures i + 1 == |bs| ==> bs[i].end == end
    ensures PrevIs(s, bs[i], if i == 0 then 0 else bs[i - 1].start)
    ensures i == 0 ==> bs[i].start == 0
    ensures i > 0 ==> HeaderOf(s, tag, bs[i - 1]) && bs[i - 1].start + HDR <= bs[i - 1].end == bs[i].start
  {
    AllOrdered(bs, HDR, 0, end);
  }

  // ---------------------------------------------------------------- what the operations do to the block list

  /** The largest used extent the heap has ever reached. */
  ghost function HighWater(history: seq<seq<Block>>): int {
    if history == [] then 0
    else Max(HighWater(history[..|history| - 1]), UsedExtent(history[|history| - 1]))
  }

  lemma HighWaterSnoc(history: seq<seq<Block>>, bs: seq<Block>)
    ensures HighWater(history + [bs]) == Max(HighWater(history), UsedExtent(bs))
  {
    assert (history + [bs])[..|history|] == history;
  }

  /** The block a payload offset belongs to, or |bs|. */
  ghost function Owner(bs: seq<Block>, p: nat): (i: nat)
    ensures i <= |bs|
  {
    if p < HDR then |bs| else IndexOf(bs, p - HDR)
  }

  ghost predicate IsLive(bs: seq<Block>, p: nat) {
    Owner(bs, p) < |bs| && bs[Owner(bs, p)].used
  }

  ghost function Chosen(bs: seq<Block>, bytes: Bytes): (i: nat)
    ensures i <= |bs|
  {
    FirstFit(bs, HDR, RequestWords(bytes))
  }

  ghost predicate AllocSucceeds(bs: seq<Block>, bytes: Bytes) {
    bytes != 0 && Chosen(bs, bytes) < |bs|
  }

  ghost function AllocPtr(bs: seq<Block>, bytes: Bytes): nat {
    if AllocSucceeds(bs, bytes) then bs[Chosen(bs, bytes)].start + HDR else NULL
  }

  ghost function AllocBlocks(bs: seq<Block>, bytes: Bytes): seq<Block> {
    if AllocSucceeds(bs, bytes) then Carve(bs, HDR, MIN, Chosen(bs, bytes), RequestWords(bytes)) else bs
  }

  ghost function FreeBlocks(bs: seq<Block>, p: nat): seq<Block>
    requires p == NULL || IsLive(bs, p)
  {
    if p == NULL then bs else Release(bs, Owner(bs, p))
  }

  lemma FirstFitIs(bs: seq<Block>, w: nat, i: nat)
    requires i < |bs| && forall j :: 0 <= j < i ==> !Fits(bs[j], HDR, w)
    ensures Fits(bs[i], HDR, w) ==> FirstFit(bs, HDR, w) == i
  {
  }

  lemma FreeFacts(bs: seq<Block>, end: nat, i: nat)
    requires Wf(bs, HDR, 0, end) && i < |bs| && bs[i].used
    ensures var f := bs[i := bs[i].(used := false)];
            var r := Release(bs, i);
            && Tiled(f, HDR, 0, end) && FreePairsOnlyAt(f, i) && !f[i].used && r == Coalesce(f, i)
            && Wf(r, HDR, 0, end)
            && Live(r) == Live(f) && Live(r) <= Live(bs)
            && UsedExtent(r) == UsedExtent(bs) - (bs[i].end - bs[i].start) <= UsedExtent(bs)
            && LowestFree(f, end) == if bs[i].start < LowestFree(bs, end) then bs[i].start else LowestFree(bs, end)
  {
    ReadyToCoalesce(bs, HDR, 0, end, i);
    CoalesceKeeps(bs[i := bs[i].(used := false)], HDR, 0, end, i);
    ReleaseKeeps(bs, HDR, 0, end, i);
    LowestFreeFreed(bs, HDR, 0, end, i);
    UsedRelease(bs, HDR, 0, end, i);
  }

  lemma ShrinkFacts(bs: seq<Block>, end: nat, i: nat, w: nat)
    requires Wf(bs, HDR, 0, end) && i < |bs| && bs[i].used && w + HDR + MIN < Capacity(bs[i], HDR)
    ensures var c := Cut(bs, HDR, i, w);
            var r := Shrink(bs, HDR, i, w);
            && Tiled(c, HDR, 0, end) && FreePairsOnlyAt(c, i + 1) && i + 1 < |c| && !c[i + 1].used
            && c[i + 1].start == bs[i].start + HDR + w
            && r == Coalesce(c, i + 1)
            && Wf(r, HDR, 0, end)
            && Live(r) == Live(c) && Block(bs[i].start, bs[i].start + HDR + w, true) in Live(r)
            && UsedExtent(c) == UsedExtent(r) == UsedExtent(bs) - (Capacity(bs[i], HDR) - w) <= UsedExtent(bs)
            && LowestFree(c, end) == if c[i + 1].start < LowestFree(bs, end) then c[i + 1].start else LowestFree(bs, end)
  {
    hide Tiled, NoFreePair, FreePairsOnlyAt, Live, UsedExtent, LowestFree, JoinNext, JoinPrev;
    var c := Cut(bs, HDR, i, w);
    CutReady(bs, HDR, 0, end, i, w);
    CoalesceKeeps(c, HDR, 0, end, i + 1);
    ShrinkKeeps(bs, HDR, 0, end, i, w);
    SumsCut(bs, HDR, i, w);
    SumsOne(bs[i], HDR);
    UsedCoalesce(c, HDR, 0, end, i + 1);
    LowestFreeCut(bs, HDR, 0, end, i, w);
  }

  /** Once too little room is left above block `i`, no later block fits. */
  lemma StopEarly(bs: seq<Block>, end: nat, w: nat, i: nat)
    requires Tiled(bs, HDR, 0, end) && i <= |bs| && forall j :: 0 <= j < i ==> !Fits(bs[j], HDR, w)
    requires i < |bs| ==> bs[i].start + HDR + w > end
    ensures FirstFit(bs, HDR, w) == |bs|
  {
    AllOrdered(bs, HDR, 0, end);
  }

  /** What a request to resize comes to, once rounded: the new block list and the lists passed through. */
  ghost function ReallocTrail(bs: seq<Block>, memSize: nat, p: nat, bytes: Bytes): seq<seq<Block>>
    requires p == NULL || IsLive(bs, p)
  {
    var w := AlignWords(bytes);
    if w > memSize then []
    else if w == 0 then (if p == NULL then [] else [FreeBlocks(bs, p)])
    else if p == NULL then (if AllocSucceeds(bs, 4 * w) then [AllocBlocks(bs, 4 * w)] else [])
    else
      var size := Capacity(bs[Owner(bs, p)], HDR);
      if size == w then []
      else if w + HDR + MIN < size then [Shrink(bs, HDR, Owner(bs, p), w)]
      else if !AllocSucceeds(bs, 4 * w) then []
      else
        var grown := AllocBlocks(bs, 4 * w);
        if IsLive(grown, p) then [grown, FreeBlocks(grown, p)] else []
  }

  ghost function ReallocPtr(bs: seq<Block>, memSize: nat, p: nat, bytes: Bytes): nat
    requires p == NULL || IsLive(bs, p)
  {
    var w := AlignWords(bytes);
    if w > memSize || w == 0 then NULL
    else if p != NULL && (Capacity(bs[Owner(bs, p)], HDR) == w || w + HDR + MIN < Capacity(bs[Owner(bs, p)], HDR)) then p
    else AllocPtr(bs, 4 * w)
  }

  /** The one live block whose words a resize may change: the new home of a block that moved. */
  ghost function MovedTo(bs: seq<Block>, p: nat, r: nat): set<Block> {
    if r != NULL && r != p && IsLive(bs, r) then {bs[Owner(bs, r)]} else {}
  }

  ghost function LastOf(bs: seq<Block>, trail: seq<seq<Block>>): seq<Block> {
    if trail == [] then bs else trail[|trail| - 1]
  }

  lemma OwnerIs(bs: seq<Block>, end: nat, i: nat)
    requires Tiled(bs, HDR, 0, end) && i < |bs|
    ensures Owner(bs, bs[i].start + HDR) == i
  {
    AllOrdered(bs, HDR, 0, end);
  }

  /** A block stays live, at the same offset and of the same size, while another is handed out. */
  lemma CarveKeepsOwner(bs: seq<Block>, end: nat, bytes: Bytes, p: nat)
    requires Wf(bs, HDR, 0, end) && IsLive(bs, p) && AllocSucceeds(bs, bytes)
    ensures var g := AllocBlocks(bs, bytes);
            && Wf(g, HDR, 0, end) && IsLive(g, p)
            && g[Owner(g, p)] == bs[Owner(bs, p)]
            && g[Chosen(bs, bytes)].start + HDR == AllocPtr(bs, bytes)
  {
    hide FirstFit, Carve, Tiled, NoFreePair;
    CarveKeeps(bs, HDR, MIN, 0, end, Chosen(bs, bytes), RequestWords(bytes));
    OwnerOfLive(AllocBlocks(bs, bytes), end, p, bs[Owner(bs, p)]);
  }

  /** The block at payload offset `p` is the live block that starts just before it. */
  lemma OwnerOfLive(bs: seq<Block>, end: nat, p: nat, b: Block)
    requires Tiled(bs, HDR, 0, end) && b in Live(bs) && p == b.start + HDR
    ensures IsLive(bs, p) && bs[Owner(bs, p)] == b
  {
    hide Tiled;
    var k :| 0 <= k < |bs| && bs[k] == b;
    OwnerIs(bs, end, k);
  }

  lemma HighWaterOlder(history: seq<seq<Block>>, bs: seq<Block>)
    requires history != [] && UsedExtent(bs) <= UsedExtent(history[|history| - 1])
    ensures HighWater(history + [bs]) == HighWater(history)
  {
    HighWaterSnoc(history, bs);
  }

  /** Stores inside the payload of a block leave every header alone. */
  lemma PayloadStores(s: seq<int>, t: seq<int>, tag: int, bs: seq<Block>, end: nat, i: nat)
    requires Linked(s, tag, bs, end) && Tiled(bs, HDR, 0, end) && i < |bs| && bs[i].used && |t| == |s|
    requires forall k :: 0 <= k < |s| && !(bs[i].start + HDR <= k < bs[i].end) ==> t[k] == s[k]
    ensures Linked(t, tag, bs, end)
    ensures SamePayloads(HDR, s, t, Live(bs) - {bs[i]})
  {
    AllOrdered(bs, HDR, 0, end);
    forall j | 0 <= j < |bs|
      ensures HeaderOf(t, tag, bs[j])
      ensures forall v :: PrevIs(s, bs[j], v) ==> PrevIs(t, bs[j], v)
    {
      assert HeaderOf(s, tag, bs[j]);
    }
  }

  /** Moving a block: the old and the new one are both live in between, and the new one afterwards. */
  lemma MoveFacts(bs: seq<Block>, end: nat, p: nat, w: nat)
    requires Wf(bs, HDR, 0, end) && IsLive(bs, p) && 4 * w < WORD_RANGE && AllocPtr(bs, 4 * w) != NULL
    ensures var g := AllocBlocks(bs, 4 * w);
            var q := AllocPtr(bs, 4 * w);
            && Wf(g, HDR, 0, end) && IsLive(g, p) && IsLive(g, q)
            && Owner(g, p) != Owner(g, q)
            && g[Owner(g, p)] == bs[Owner(bs, p)]
            && g[Owner(g, q)].start + HDR == q && g[Owner(g, p)].start + HDR == p
            && Capacity(g[Owner(g, q)], HDR) >= w
            && g[Owner(g, q)] in Live(FreeBlocks(g, p)) && g[Owner(g, p)] in Live(g)
            && Live(g) == Live(bs) + {g[Owner(g, q)]}
            && IsLive(FreeBlocks(g, p), q)
            && FreeBlocks(g, p)[Owner(FreeBlocks(g, p), q)] == g[Owner(g, q)]
            && Live(FreeBlocks(g, p)) == Live(g) - {g[Owner(g, p)]}
  {
    hide FirstFit, Carve, Tiled, NoFreePair, Release, IndexOf;
    var g := AllocBlocks(bs, 4 * w);
    var i := Chosen(bs, 4 * w);
    CarveKeeps(bs, HDR, MIN, 0, end, i, RequestWords(4 * w));
    CarveKeepsOwner(bs, end, 4 * w, p);
    OwnerIs(g, end, i);
    ReleaseKeeps(g, HDR, 0, end, Owner(g, p));
    OwnerOfLive(FreeBlocks(g, p), end, g[i].start + HDR, g[i]);
  }

  /** Freeing one block leaves every other live block live. */
  lemma ReleaseLeaves(bs: seq<Block>, end: nat, p: nat, i: nat)
    requires Wf(bs, HDR, 0, end) && IsLive(bs, p) && i < |bs| && bs[i].used && i != Owner(bs, p)
    ensures bs[i] in Live(FreeBlocks(bs, p)) && Live(FreeBlocks(bs, p)) <= Live(bs)
    ensures bs[i].start + HDR <= bs[i].end <= end
  {
    hide Tiled, NoFreePair, Release;
    ReleaseKeeps(bs, HDR, 0, end, Owner(bs, p));
    TwoApart(bs, end, i, Owner(bs, p));
  }

  lemma TwoApart(bs: seq<Block>, end: nat, i: nat, j: nat)
    requires Tiled(bs, HDR, 0, end) && i < |bs| && j < |bs| && i != j
    ensures bs[i] != bs[j] && bs[i].start + HDR <= bs[i].end <= end
  {
    AllOrdered(bs, HDR, 0, end);
  }

  lemma BlocksApart(bs: seq<Block>, end: nat, i: nat, j: nat)
    requires Tiled(bs, HDR, 0, end) && i < |bs| && j < |bs|
    ensures i != j ==> bs[i].end <= bs[j].start || bs[j].end <= bs[i].start
    ensures bs[i].end <= end && bs[j].end <= end
  {
    AllOrdered(bs, HDR, 0, end);
  }

  // ---------------------------------------------------------------- the heap object

  class Heap {
    const pool: array<int>
    const memSize: nat   // mem_size_aligned
    const tag: int       // the address of the object, as MEM_FREED() stores it
    var lfree: nat
    var used: int
    var max: int
    ghost var blocks: seq<Block>
    ghost var history: seq<seq<Block>>

    function End(): nat {
      memSize + HDR
    }

    ghost predicate Valid()
      reads this, pool
    {
      && pool.Length == End() + HDR && 4 * pool.Length < WORD_RANGE
      && Wf(blocks, HDR, 0, End())
      && Linked(pool[..], tag, blocks, End())
      && lfree == LowestFree(blocks, End())
      && used == UsedExtent(blocks)
      && max == HighWater(history)
      && history != [] && history[|history| - 1] == blocks
    }

    /** rt_smem_init on a region of `words` words after the control object. */
    constructor (words: nat, tag: int)
      requires words >= 2 * HDR && 4 * words < WORD_RANGE && tag % 2 == 0
      ensures Valid() && fresh(pool)
      ensures blocks == [Block(0, End(), false)] && used == 0 && max == 0
      ensures memSize == words - 2 * HDR && history == [blocks]
    {
      var p := new int[words];
      pool, memSize, this.tag := p, words - 2 * HDR, tag;
      lfree, used, max := 0, 0, 0;
      blocks := [Block(0, words - HDR, false)];
      history := [[Block(0, words - HDR, false)]];
      new;
      pool[0], pool[1], pool[2] := tag, End(), 0;
      pool[End()], pool[End() + 1], pool[End() + 2] := tag + 1, End(), End();
    }

    predicate IsUsed(o: nat)
      requires o < pool.Length
      reads pool
    {
      pool[o] % 2 != 0
    }

    /** Take the header of `high` out of the chain: `low` now reaches to where `high` ended. */
    method Swallow(low: nat, high: nat, ghost bs: seq<Block>, ghost i: nat)
      requires pool.Length == End() + HDR && Tiled(bs, HDR, 0, End()) && Linked(pool[..], tag, bs, End())
      requires i + 1 < |bs| && !bs[i].used && !bs[i + 1].used && bs[i].start == low && bs[i + 1].start == high
      modifies pool
      ensures Linked(pool[..], tag, Join(bs, i), End())
      ensures SamePayloads(HDR, old(pool[..]), pool[..], Live(bs))
    {
      hide Linked, Tiled;
      ghost var s := pool[..];
      HeadersInside(s, tag, bs, End(), i);
      HeadersInside(s, tag, bs, End(), i + 1);
      pool[high] := 0;
      pool[low + 1] := pool[high + 1];
      pool[pool[high + 1] + 2] := low;
      JoinLinked(s, pool[..], tag, bs, End(), i);
      JoinPayloads(s, pool[..], tag, bs, End(), i);
    }

    /** The forward half of plug_holes: swallow the next block when it is free. */
    method PlugForward(mem: nat, ghost bs: seq<Block>, ghost i: nat)
      requires pool.Length == End() + HDR && Tiled(bs, HDR, 0, End()) && Linked(pool[..], tag, bs, End())
      requires i < |bs| && !bs[i].used && bs[i].start == mem
      modifies pool, this`lfree
      ensures Linked(pool[..], tag, JoinNext(bs, i), End())
      ensures lfree == if |JoinNext(bs, i)| < |bs| && old(lfree) == bs[i].end then mem else old(lfree)
      ensures SamePayloads(HDR, old(pool[..]), pool[..], Live(bs))
    {
      hide Linked, Tiled;
      HeadersInside(pool[..], tag, bs, End(), i);
      var nmem := pool[mem + 1];
      if mem != nmem && !IsUsed(nmem) && nmem != End() {
        if lfree == nmem {
          lfree := mem;
        }
        Swallow(mem, nmem, bs, i);
      }
    }

    /** The backward half of plug_holes: let the previous block swallow `mem` when it is free. */
    method PlugBackward(mem: nat, ghost bs: seq<Block>, ghost i: nat)
      requires pool.Length == End() + HDR && Tiled(bs, HDR, 0, End()) && Linked(pool[..], tag, bs, End())
      requires i < |bs| && !bs[i].used && bs[i].start == mem
      modifies pool, this`lfree
      ensures Linked(pool[..], tag, JoinPrev(bs, i), End())
      ensures lfree == if |JoinPrev(bs, i)| < |bs| && old(lfree) == mem then bs[i - 1].start else old(lfree)
      ensures SamePayloads(HDR, old(pool[..]), pool[..], Live(bs))
    {
      hide Linked, Tiled;
      HeadersInside(pool[..], tag, bs, End(), i);
      var pmem := pool[mem + 2];
      if pmem != mem && !IsUsed(pmem) {
        if lfree == mem {
          lfree := pmem;
        }
        Swallow(pmem, mem, bs, i - 1);
      }
    }

    /** plug_holes: merge the free block `mem` with its free neighbours. */
    method PlugHoles(mem: nat, ghost bs: seq<Block>, ghost i: nat)
      requires pool.Length == End() + HDR && Tiled(bs, HDR, 0, End()) && Linked(pool[..], tag, bs, End())
      requires i < |bs| && !bs[i].used && bs[i].start == mem && FreePairsOnlyAt(bs, i)
      requires lfree == LowestFree(bs, End())
      modifies pool, this`lfree
      ensures Linked(pool[..], tag, Coalesce(bs, i), End())
      ensures lfree == LowestFree(Coalesce(bs, i), End())
      ensures SamePayloads(HDR, old(pool[..]), pool[..], Live(bs))
    {
      hide Linked;
      ghost var a := JoinNext(bs, i);
      JoinNextKeeps(bs, HDR, 0, End(), i);
      LowestFreeBound(bs, HDR, 0, End());
      UsedCoalesce(bs, HDR, 0, End(), i);
      PlugForward(mem, bs, i);
      PlugBackward(mem, a, i);
    }

    /** Build the header of the remainder at `ptr2` and link it behind the block at `ptr`. */
    method Split(ptr: nat, ptr2: nat, ghost b: Block)
      requires pool.Length == End() + HDR && HeaderOf(pool[..], tag, b)
      requires b.start == ptr && ptr + HDR <= ptr2 && ptr2 + HDR <= b.end <= End()
      modifies pool
      ensures CutStored(old(pool[..]), pool[..], tag, b, End(), ptr2 - ptr - HDR)
      ensures pool[ptr] == old(pool[ptr])
    {
      pool[ptr2] := tag;
      pool[ptr2 + 1] := pool[ptr + 1];
      pool[ptr2 + 2] := ptr;
      pool[ptr + 1] := ptr2;
      if pool[ptr2 + 1] != memSize + HDR {
        pool[pool[ptr2 + 1] + 2] := ptr2;
      }
    }

    /** Mark the block at `ptr` used, splitting off what `size` words leave over. */
    method Claim(ptr: nat, size: nat, ghost i: nat)
      requires Valid() && i < |blocks| && Fits(blocks[i], HDR, size) && blocks[i].start == ptr
      modifies pool, this`used
      ensures var r := Carve(blocks, HDR, MIN, i, size);
              && Linked(pool[..], tag, r, End())
              && used == UsedExtent(r)
              && SamePayloads(HDR, old(pool[..]), pool[..], Live(r))
    {
      hide Linked, Tiled, NoFreePair, SamePayloads, UsedExtent, Live, Cut, HighWater, LowestFree;
      ghost var s := pool[..];
      ghost var b := blocks[i];
      SumsOne(b, HDR);
      SumsOne(b.(used := true), HDR);
      HeadersInside(s, tag, blocks, End(), i);
      if pool[ptr + 1] - (ptr + HDR) >= size + HDR + MIN {
        Split(ptr, ptr + HDR + size, b);
        used := used + size + HDR;
        pool[ptr] := tag + 1;
        CutAll(s, pool[..], tag, blocks, End(), i, size);
      } else {
        used := used + (pool[ptr + 1] - ptr);
        pool[ptr] := tag + 1;
        MarkAll(s, pool[..], tag, blocks, End(), i, true);
      }
    }

    /** Move `lfree` up to the next free block, or to the end marker. */
    method AdvanceLfree(ghost bs: seq<Block>, ghost i: nat)
      requires pool.Length == End() + HDR && Tiled(bs, HDR, 0, End()) && Linked(pool[..], tag, bs, End())
      requires i < |bs| && lfree == bs[i].start && forall j :: 0 <= j < i ==> bs[j].used
      modifies this`lfree
      ensures lfree == LowestFree(bs, End())
    {
      hide Linked, Tiled;
      ghost var k := i;
      HeadersInside(pool[..], tag, bs, End(), k);
      while IsUsed(lfree) && lfree != End()
        invariant k <= |bs| && lfree < pool.Length
        invariant k == |bs| ==> lfree == End()
        invariant k < |bs| ==> lfree == bs[k].start < End() && HeaderOf(pool[..], tag, bs[k])
        invariant forall j :: 0 <= j < k ==> bs[j].used
        decreases |bs| - k
      {
        HeadersInside(pool[..], tag, bs, End(), k);
        lfree := pool[lfree + 1];
        k := k + 1;
      }
      LowestFreeAt(bs, End(), k);
    }

    /** Hand out the block at `ptr`, which the scan of rt_smem_alloc found to fit. */
    method Take(ptr: nat, size: nat, ghost i: nat) returns (r: nat)
      requires Valid() && i < |blocks| && Fits(blocks[i], HDR, size) && blocks[i].start == ptr
      modifies this, pool
      ensures Valid() && r == ptr + HDR
      ensures blocks == Carve(old(blocks), HDR, MIN, i, size) && history == old(history) + [blocks]
      ensures SamePayloads(HDR, old(pool[..]), pool[..], Live(blocks))
    {
      hide Linked, Tiled, NoFreePair;
      ghost var c := Carve(blocks, HDR, MIN, i, size);
      CarveKeeps(blocks, HDR, MIN, 0, End(), i, size);
      Claim(ptr, size, i);
      if max < used {
        max := used;
      }
      if ptr == lfree {
        BelowLowest(blocks, HDR, 0, End(), i);
        AdvanceLfree(c, i);
      } else {
        LowestFreeCarve(blocks, HDR, MIN, End(), i, size);
      }
      HighWaterSnoc(history, c);
      blocks := c;
      history := history + [c];
      return ptr + HDR;
    }

    /** rt_smem_alloc: first fit, although the scan starts at `lfree` and stops early. */
    method Alloc(bytes: Bytes) returns (r: nat)
      requires Valid()
      modifies this, pool
      ensures Valid()
      ensures r == AllocPtr(old(blocks), bytes) && blocks == AllocBlocks(old(blocks), bytes)
      ensures history == if r == NULL then old(history) else old(history) + [blocks]
      ensures r == NULL ==> pool[..] == old(pool[..])
      ensures SamePayloads(HDR, old(pool[..]), pool[..], Live(blocks))
    {
      hide Linked, Tiled, NoFreePair, HighWater, UsedExtent, FirstFit, SamePayloads;
      SameIsSame(HDR, pool[..], Live(blocks));
      if bytes == 0 {
        return NULL;
      }
      var size := AlignWords(bytes);
      if size < MIN {
        size := MIN;
      }
      if size > memSize {
        StopEarly(blocks, End(), size, 0);
        return NULL;
      }
      var ptr := lfree;
      ghost var i := LowestIndex(blocks, End());
      while ptr <= memSize - size
        invariant unchanged(this, pool) && Valid() && pool[..] == old(pool[..])
        invariant i <= |blocks| && ptr == if i < |blocks| then blocks[i].start else End()
        invariant forall j :: 0 <= j < i ==> !Fits(blocks[j], HDR, size)
        decreases |blocks| - i
      {
        HeadersInside(pool[..], tag, blocks, End(), i);
        FirstFitIs(blocks, size, i);
        if !IsUsed(ptr) && pool[ptr + 1] - (ptr + HDR) >= size {
          r := Take(ptr, size, i);
          return;
        }
        ptr := pool[ptr + 1];
        i := i + 1;
      }
      StopEarly(blocks, End(), size, i);
      return NULL;
    }

    /** rt_smem_free */
    method Free(rmem: nat)
      requires Valid() && (rmem == NULL || IsLive(blocks, rmem))
      modifies this, pool
      ensures Valid()
      ensures blocks == FreeBlocks(old(blocks), rmem)
      ensures history == if rmem == NULL then old(history) else old(history) + [blocks]
      ensures SamePayloads(HDR, old(pool[..]), pool[..], Live(blocks))
    {
      hide Linked, Tiled, NoFreePair, SamePayloads, HighWater, UsedExtent, Live, LowestFree, Coalesce, IndexOf;
      SameIsSame(HDR, pool[..], Live(blocks));
      if rmem == NULL {
        return;
      }
      ghost var i := Owner(blocks, rmem);
      ghost var s := pool[..];
      ghost var f := blocks[i := blocks[i].(used := false)];
      ghost var r := Release(blocks, i);
      HeadersInside(s, tag, blocks, End(), i);
      FreeFacts(blocks, End(), i);
      var mem := rmem - HDR;
      pool[mem] := tag;
      MarkAll(s, pool[..], tag, blocks, End(), i, false);
      if mem < lfree {
        lfree := mem;
      }
      used := used - (pool[mem + 1] - mem);
      ghost var t := pool[..];
      PlugHoles(mem, f, i);
      SameTrans(HDR, s, t, pool[..], Live(blocks), Live(f), Live(r));
      HighWaterOlder(history, r);
      blocks := r;
      history := history + [r];
    }

    /** Split a live block; its free remainder is not yet merged with what follows. */
    method Shave(ptr: nat, newsize: nat, ghost i: nat)
      requires Valid() && i < |blocks| && blocks[i].used && blocks[i].start == ptr
      requires newsize + HDR + MIN < Capacity(blocks[i], HDR)
      modifies pool, this`used, this`lfree
      ensures var c := Cut(blocks, HDR, i, newsize);
              && Linked(pool[..], tag, c, End())
              && used == UsedExtent(c) && lfree == LowestFree(c, End())
              && SamePayloads(HDR, old(pool[..]), pool[..], Live(c))
    {
      hide Linked, Tiled, NoFreePair, SamePayloads, HighWater, UsedExtent, Live, LowestFree;
      hide Cut, Shrink, Coalesce, FreePairsOnlyAt, CutStored;
      ghost var s := pool[..];
      HeadersInside(s, tag, blocks, End(), i);
      ShrinkFacts(blocks, End(), i, newsize);
      var size := pool[ptr + 1] - ptr - HDR;
      used := used - (size - newsize);
      var ptr2 := ptr + HDR + newsize;
      Split(ptr, ptr2, blocks[i]);
      CutAll(s, pool[..], tag, blocks, End(), i, newsize);
      if ptr2 < lfree {
        lfree := ptr2;
      }
    }

    /** The in-place half of rt_smem_realloc: split off what the block no longer needs. */
    method ShrinkInPlace(ptr: nat, newsize: nat, ghost i: nat)
      requires Valid() && i < |blocks| && blocks[i].used && blocks[i].start == ptr
      requires newsize + HDR + MIN < Capacity(blocks[i], HDR)
      modifies this, pool
      ensures Valid()
      ensures blocks == Shrink(old(blocks), HDR, i, newsize) && history == old(history) + [blocks]
      ensures SamePayloads(HDR, old(pool[..]), pool[..], Live(blocks))
      ensures WordsMoved(old(pool[..]), ptr + HDR, pool[..], ptr + HDR, newsize)
    {
      hide Linked, Tiled, NoFreePair, SamePayloads, HighWater, UsedExtent, Live, LowestFree;
      hide Cut, Shrink, Coalesce, FreePairsOnlyAt;
      ghost var s := pool[..];
      ghost var c := Cut(blocks, HDR, i, newsize);
      ghost var r := Shrink(blocks, HDR, i, newsize);
      BlocksApart(blocks, End(), i, i);
      ShrinkFacts(blocks, End(), i, newsize);
      Shave(ptr, newsize, i);
      ghost var t := pool[..];
      PlugHoles(ptr + HDR + newsize, c, i + 1);
      SameTrans(HDR, s, t, pool[..], Live(c), Live(c), Live(r));
      SliceKept(HDR, s, pool[..], Live(r), Block(ptr, ptr + HDR + newsize, true), newsize);
      HighWaterOlder(history, r);
      blocks := r;
      history := history + [r];
    }

    /** rt_memcpy of `n` words between two blocks. */
    method CopyWords(dst: nat, src: nat, n: nat)
      requires dst + n <= pool.Length && src + n <= pool.Length && (dst + n <= src || src + n <= dst)
      modifies pool
      ensures pool[dst..dst + n] == old(pool[src..src + n])
      ensures forall k :: 0 <= k < pool.Length && !(dst <= k < dst + n) ==> pool[k] == old(pool[k])
    {
      for j := 0 to n
        invariant pool[dst..dst + j] == old(pool[src..src + j])
        invariant forall k :: 0 <= k < pool.Length && !(dst <= k < dst + j) ==> pool[k] == old(pool[k])
      {
        pool[dst + j] := pool[src + j];
        assert pool[dst..dst + j + 1] == pool[dst..dst + j] + [pool[dst + j]];
      }
    }

    /** rt_memcpy between two live blocks touches nothing but the destination's payload. */
    method CopyPayload(dst: nat, src: nat, n: nat, ghost i: nat, ghost j: nat)
      requires Valid() && i < |blocks| && j < |blocks| && i != j && blocks[i].used
      requires dst == blocks[i].start + HDR && src == blocks[j].start + HDR
      requires n <= Capacity(blocks[i], HDR) && n <= Capacity(blocks[j], HDR)
      modifies pool
      ensures Valid()
      ensures SamePayloads(HDR, old(pool[..]), pool[..], Live(blocks) - {blocks[i]})
      ensures WordsMoved(old(pool[..]), src, pool[..], dst, n)
    {
      hide Linked, Tiled, NoFreePair, SamePayloads, Live;
      ghost var s := pool[..];
      BlocksApart(blocks, End(), i, j);
      CopyWords(dst, src, n);
      PayloadStores(s, pool[..], tag, blocks, End(), i);
      assert pool[..][dst..dst + n] == pool[dst..dst + n];
      assert old(pool[src..src + n]) == s[src..src + n];
    }

    /** Copy the words of `rmem` into the payload at `nmem` and give `rmem` back. */
    method CopyAndFree(nmem: nat, rmem: nat, n: nat, ghost i: nat)
      requires Valid() && IsLive(blocks, rmem) && i < |blocks| && i != Owner(blocks, rmem) && blocks[i].used
      requires nmem == blocks[i].start + HDR && rmem == blocks[Owner(blocks, rmem)].start + HDR
      requires n <= Capacity(blocks[i], HDR) && n <= Capacity(blocks[Owner(blocks, rmem)], HDR)
      modifies this, pool
      ensures Valid()
      ensures blocks == FreeBlocks(old(blocks), rmem) && history == old(history) + [blocks]
      ensures SamePayloads(HDR, old(pool[..]), pool[..], Live(blocks) - {old(blocks[i])})
      ensures WordsMoved(old(pool[..]), rmem, pool[..], nmem, n)
    {
      hide Linked, Tiled, NoFreePair, SamePayloads, HighWater, UsedExtent, Live, LowestFree, Release, IndexOf, HeaderOf;
      ghost var s := pool[..];
      ghost var bs := blocks;
      ReleaseLeaves(bs, End(), rmem, i);
      CopyPayload(nmem, rmem, n, i, Owner(blocks, rmem));
      ghost var u := pool[..];
      Free(rmem);
      SliceKept(HDR, u, pool[..], Live(blocks), bs[i], n);
      SameTrans(HDR, s, u, pool[..], Live(bs) - {bs[i]}, Live(blocks), Live(blocks) - {bs[i]});
    }

    /** The moving half of rt_smem_realloc: allocate, copy, free. */
    method Move(rmem: nat, size: nat, newsize: nat) returns (nmem: nat)
      requires Valid() && IsLive(blocks, rmem) && size == Capacity(blocks[Owner(blocks, rmem)], HDR)
      requires 4 * newsize < WORD_RANGE && newsize > 0
      modifies this, pool
      ensures Valid()
      ensures nmem == AllocPtr(old(blocks), 4 * newsize)
      ensures nmem == NULL ==> blocks == old(blocks) && history == old(history) && pool[..] == old(pool[..])
      ensures nmem != NULL ==>
                nmem != rmem &&
                var grown := AllocBlocks(old(blocks), 4 * newsize);
                && IsLive(grown, rmem) && blocks == FreeBlocks(grown, rmem)
                && history == old(history) + [grown, blocks]
                && IsLive(blocks, nmem)
                && SamePayloads(HDR, old(pool[..]), pool[..], Live(blocks) - {blocks[Owner(blocks, nmem)]})
                && WordsMoved(old(pool[..]), rmem, pool[..], nmem, Least(size, newsize))
    {
      hide Linked, Tiled, NoFreePair, SamePayloads, HighWater, UsedExtent, Live, LowestFree, AllocBlocks, AllocPtr, Release, Owner, HeaderOf;
      ghost var s := pool[..];
      ghost var bs := blocks;
      nmem := Alloc(4 * newsize);
      if nmem != NULL {
        ghost var grown := blocks;
        ghost var t := pool[..];
        MoveFacts(bs, End(), rmem, newsize);
        ghost var to, from := grown[Owner(grown, nmem)], grown[Owner(grown, rmem)];
        CopyAndFree(nmem, rmem, Least(size, newsize), Owner(grown, nmem));
        assert history == old(history) + [grown, blocks];
        MovedWords(HDR, s, t, pool[..], Live(grown), Live(blocks), from, to, Least(size, newsize));
      }
    }

    /** rt_smem_realloc */
    method Realloc(rmem: nat, bytes: Bytes) returns (r: nat)
      requires Valid() && (rmem == NULL || IsLive(blocks, rmem))
      modifies this, pool
      ensures Valid()
      ensures r == ReallocPtr(old(blocks), memSize, rmem, bytes)
      ensures history == old(history) + ReallocTrail(old(blocks), memSize, rmem, bytes)
      ensures blocks == LastOf(old(blocks), ReallocTrail(old(blocks), memSize, rmem, bytes))
      ensures SamePayloads(HDR, old(pool[..]), pool[..], Live(blocks) - MovedTo(blocks, rmem, r))
      ensures rmem != NULL && r != NULL ==>
                WordsMoved(old(pool[..]), rmem, pool[..], r,
                           Least(Capacity(old(blocks[Owner(blocks, rmem)]), HDR), AlignWords(bytes)))
    {
      hide Linked, Tiled, NoFreePair, SamePayloads, HighWater, UsedExtent, Live, LowestFree, Carve, FirstFit, Release, Shrink, IndexOf;
      SameIsSame(HDR, pool[..], Live(blocks) - MovedTo(blocks, rmem, NULL));
      SameIsSame(HDR, pool[..], Live(blocks) - MovedTo(blocks, rmem, rmem));
      var newsize := AlignWords(bytes);
      if newsize > memSize {
        return NULL;
      } else if newsize == 0 {
        Free(rmem);
        SameFewer(HDR, old(pool[..]), pool[..], Live(blocks), MovedTo(blocks, rmem, NULL));
        return NULL;
      }
      if rmem == NULL {
        r := Alloc(4 * newsize);
        SameFewer(HDR, old(pool[..]), pool[..], Live(blocks), MovedTo(blocks, rmem, r));
        return;
      }
      ghost var i := Owner(blocks, rmem);
      HeadersInside(pool[..], tag, blocks, End(), i);
      var ptr := rmem - HDR;
      var size := pool[ptr + 1] - ptr - HDR;
      if size == newsize {
        return rmem;
      }
      if newsize + HDR + MIN < size {
        ShrinkInPlace(ptr, newsize, i);
        SameFewer(HDR, old(pool[..]), pool[..], Live(blocks), MovedTo(blocks, rmem, rmem));
        return rmem;
      }
      r := Move(rmem, size, newsize);
    }
  }
}
