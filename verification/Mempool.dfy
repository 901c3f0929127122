/**
 The fixed-block memory pool of mempool.c.  A block is a number; its first word links the free list or,
 while the block is allocated, points back to the pool.
 */
module Mempool {

  import opened WaitList
  import opened Wakeup
  import opened Chains
  import H = HeapBlocks

  const POOL: int := -2

  /** The free blocks, next to be handed out first, and the threads waiting for one. */
  datatype State = State(total: nat, free: seq<nat>, side: Side)

  function Counting(from: nat, to: nat): (s: seq<nat>)
    requires from <= to
    ensures |s| == to - from && forall i :: 0 <= i < |s| ==> s[i] == from + i
  {
    seq(to - from, i => from + i)
  }

  function Start(total: nat): State {
    State(total, Counting(0, total), AWAKE)
  }

  predicate Sound(s: State) {
    Distinct(s.free) && InRange(s.free, s.total) && Served(s.side, |s.free|)
  }

  predicate Live(s: State, block: nat) {
    block < s.total && block !in s.free
  }

  /** rt_mp_alloc once a block is there. */
  function Taken(s: State, t: nat): State
    requires s.free != []
  {
    s.(free := s.free[1..], side := Leave(s.side, t))
  }

  /** rt_mp_alloc with nothing there: newcomers go to the front of the list. */
  function Asleep(s: State, t: nat): State {
    s.(side := Sleep(s.side, t, 0))
  }

  function GaveUp(s: State, t: nat): State {
    s.(side := Leave(s.side, t))
  }

  function Freed(s: State, block: nat): State {
    s.(free := [block] + s.free, side := WakeFirst(s.side))
  }

  function Expired(s: State, i: nat): State
    requires i < |s.side.waiting|
  {
    s.(side := Expire(s.side, i))
  }

  // ---------------------------------------------------------------- every step keeps the pool sound

  /** An allocated block was free, is no longer, and nothing else changes hands. */
  lemma TakenSound(s: State, t: nat)
    requires Sound(s) && s.free != []
    ensures Sound(Taken(s, t)) && !Live(s, s.free[0])
    ensures forall b :: Live(Taken(s, t), b) <==> Live(s, b) || b == s.free[0]
  {
    TakeServed(s.side, t, |s.free|);
    var q := s.free[1..];
    assert forall i :: 0 <= i < |q| ==> q[i] == s.free[i + 1];
    assert forall b :: b in s.free <==> b == s.free[0] || b in q;
  }

  lemma FreedSound(s: State, block: nat)
    requires Sound(s) && Live(s, block)
    ensures Sound(Freed(s, block))
    ensures forall b :: Live(Freed(s, block), b) <==> Live(s, b) && b != block
  {
    WakeServed(s.side, |s.free|);
    var q := [block] + s.free;
    assert forall i :: 1 <= i < |q| ==> q[i] == s.free[i - 1];
    assert forall b :: b in q <==> b == block || b in s.free;
  }

  lemma AsleepSound(s: State, t: nat)
    requires Sound(s) && s.free == [] && t !in s.side.waiting
    ensures Sound(Asleep(s, t))
  {
    SleepServed(s.side, t, 0);
  }

  lemma GaveUpSound(s: State, t: nat)
    requires Sound(s) && s.free == []
    ensures Sound(GaveUp(s, t))
  {
    GiveUpServed(s.side, t);
  }

  lemma ExpiredSound(s: State, i: nat)
    requires Sound(s) && i < |s.side.waiting|
    ensures Sound(Expired(s, i))
  {
    ExpireServed(s.side, i, |s.free|);
  }

  /** What was freed last is handed out first, and then the pool is as before. */
  lemma FreeThenTake(s: State, block: nat, t: nat)
    requires Sound(s) && Live(s, block) && !Involved(s.side, t) && s.side.waiting == []
    ensures Freed(s, block).free[0] == block && Taken(Freed(s, block), t) == s
  {
    assert s.side.woken - {t} == s.side.woken;
    assert ([block] + s.free)[1..] == s.free;
  }

  // ---------------------------------------------------------------- whole runs

  datatype Step = TryAlloc(thread: nat, wait: bool) | Free(block: nat) | Timeout(at: nat)

  /** A resumed thread runs rt_mp_alloc's loop again; `wait` is false once its time is used up. */
  function Do(s: State, a: Step): State {
    match a
    case TryAlloc(t, wait) =>
      if t in s.side.waiting then s
      else if s.free != [] then Taken(s, t)
      else if wait then Asleep(s, t)
      else GaveUp(s, t)
    case Free(block) => if Live(s, block) then Freed(s, block) else s
    case Timeout(i) => if i < |s.side.waiting| then Expired(s, i) else s
  }

  function After(total: nat, run: seq<Step>): State {
    if run == [] then Start(total) else Do(After(total, run[..|run| - 1]), run[|run| - 1])
  }

  /** In every run the free list has no duplicates, and nobody sleeps while there are more free blocks than
      resumed threads still to come for them. */
  lemma {:induction false} AlwaysSound(total: nat, run: seq<Step>)
    ensures Sound(After(total, run))
    ensures var s := After(total, run);
            s.side.woken == {} ==> s.side.waiting == [] || s.free == []
  {
    if run != [] {
      var s := After(total, run[..|run| - 1]);
      AlwaysSound(total, run[..|run| - 1]);
      DoSound(s, run[|run| - 1]);
    }
    var s := After(total, run);
    if s.side.woken == {} {
      NobodySleepsOnPlenty(s.side, |s.free|);
    }
  }

  lemma DoSound(s: State, a: Step)
    requires Sound(s)
    ensures Sound(Do(s, a))
  {
    hide Sound;
    match a {
      case TryAlloc(t, wait) =>
        if t !in s.side.waiting {
          if s.free != [] { TakenSound(s, t); } else if wait { AsleepSound(s, t); } else { GaveUpSound(s, t); }
        }
      case Free(block) =>
        if Live(s, block) { FreedSound(s, block); }
      case Timeout(i) =>
        if i < |s.side.waiting| { ExpiredSound(s, i); }
    }
  }

  // ---------------------------------------------------------------- a block has one holder

  /** What each step does: to the blocks, to the threads that wait and to those resumed. */
  lemma DoMeaning(s: State, a: Step)
    requires Sound(s)
    ensures var r := Do(s, a);
            && r.total == s.total
            && (a.TryAlloc? && a.thread !in s.side.waiting ==>
                  && r.side.woken == s.side.woken - {a.thread}
                  && (if s.free == [] then r.free == [] && r.side.waiting == (if a.wait then [a.thread] else []) + s.side.waiting
                      else r.side.waiting == s.side.waiting && Changes(s, r, s.free[0], true)))
            && (a.Free? && Live(s, a.block) ==>
                  && Changes(s, r, a.block, false) && r.free[0] == a.block
                  && (if s.side.waiting == [] then r.side == s.side
                      else s.side.waiting == [s.side.waiting[0]] + r.side.waiting && r.side.woken == s.side.woken + {s.side.waiting[0]}))
            && (a.Timeout? && a.at < |s.side.waiting| ==>
                  r.free == s.free && r.side.woken == s.side.woken && s.side.waiting[a.at] !in r.side.waiting
                  && |r.side.waiting| == |s.side.waiting| - 1)
            && (!Enabled(s, a) ==> r == s)
  {
    hide Served;
    match a {
      case TryAlloc(t, wait) =>
        if t !in s.side.waiting && s.free != [] {
          assert s.free == [s.free[0]] + s.free[1..];
          TakenSound(s, t);
        }
      case Free(block) =>
        if Live(s, block) { FreedSound(s, block); }
      case Timeout(i) =>
        if i < |s.side.waiting| { Gone(s, i); }
    }
  }

  /** A thread that waits makes no calls, only blocks that are held are freed, and only a waiter's time can be up. */
  predicate Enabled(s: State, a: Step) {
    match a
    case TryAlloc(t, _) => t !in s.side.waiting
    case Free(block) => Live(s, block)
    case Timeout(i) => i < |s.side.waiting|
  }

  /** Exactly block b passes from the free ones to the held ones, or back. */
  ghost predicate Changes(s: State, r: State, b: nat, out: bool) {
    b < s.total && Live(s, b) == !out && Live(r, b) == out
    && (forall c :: c != b ==> (Live(r, c) <==> Live(s, c)))
    && (if out then s.free == [b] + r.free else r.free == [b] + s.free)
  }

  lemma Gone(s: State, i: nat)
    requires Sound(s) && i < |s.side.waiting|
    ensures s.side.waiting[i] !in Without(s.side.waiting, i)
  {
    var q, r := s.side.waiting, Without(s.side.waiting, i);
    assert forall k :: 0 <= k < |r| ==> r[k] == q[if k < i then k else k + 1];
  }

  /** The i-th step of the run is a call that gets block b. */
  predicate HandsOut(total: nat, run: seq<Step>, i: nat, b: nat)
    requires i < |run|
  {
    var s := After(total, run[..i]);
    run[i].TryAlloc? && run[i].thread !in s.side.waiting && s.free != [] && s.free[0] == b
  }

  /** Between two calls that get the same block, the block is freed. */
  lemma FreedInBetween(total: nat, run: seq<Step>, i: nat, j: nat, b: nat)
    requires i < j < |run| && HandsOut(total, run, i, b) && HandsOut(total, run, j, b)
    ensures exists k :: i < k < j && run[k] == Free(b)
  {
    if forall k :: i < k < j ==> run[k] != Free(b) {
      AlwaysSound(total, run[..i]);
      assert run[..i + 1][..i] == run[..i];
      DoMeaning(After(total, run[..i]), run[i]);
      StaysHeld(total, run, i + 1, j, b);
      AlwaysSound(total, run[..j]);
      DoMeaning(After(total, run[..j]), run[j]);
      assert false;
    }
  }

  lemma {:induction false} StaysHeld(total: nat, run: seq<Step>, i: nat, j: nat, b: nat)
    requires i <= j <= |run| && Live(After(total, run[..i]), b) && forall k :: i <= k < j ==> run[k] != Free(b)
    ensures Live(After(total, run[..j]), b)
    decreases j
  {
    if i < j {
      StaysHeld(total, run, i, j - 1, b);
      AlwaysSound(total, run[..j - 1]);
      assert run[..j][..j - 1] == run[..j - 1];
      HeldUnlessFreed(After(total, run[..j - 1]), run[j - 1], b);
    }
  }

  lemma HeldUnlessFreed(s: State, a: Step, b: nat)
    requires Sound(s) && Live(s, b) && a != Free(b)
    ensures Live(Do(s, a), b)
  {
    DoMeaning(s, a);
    hide Do, Served, Sound;
  }

  // ---------------------------------------------------------------- who is resumed first

  /** When thread t began the wait it is in: the length of the run at that time. */
  function Since(total: nat, run: seq<Step>, t: nat): nat {
    if run == [] then 0
    else
      var past := run[..|run| - 1];
      if t in After(total, run).side.waiting && t !in After(total, past).side.waiting then |run|
      else Since(total, past, t)
  }

  function Stamps(total: nat, run: seq<Step>, q: seq<nat>): (u: seq<nat>)
    ensures |u| == |q| && forall i :: 0 <= i < |q| ==> u[i] == Since(total, run, q[i])
  {
    seq(|q|, i requires 0 <= i < |q| => Since(total, run, q[i]))
  }

  predicate Falling(u: seq<nat>, now: nat) {
    (forall i :: 0 <= i < |u| ==> u[i] <= now) && forall i, j :: 0 <= i < j < |u| ==> u[j] < u[i]
  }

  /** What a step does to the threads waiting: one comes to the front, one leaves, or nothing. */
  predicate Requeued(q: seq<nat>, r: seq<nat>) {
    r == q
    || (r != [] && r[0] !in q && r == [r[0]] + q)
    || (exists i :: 0 <= i < |q| && r == Without(q, i))
  }

  lemma DoRequeues(s: State, a: Step)
    ensures Requeued(s.side.waiting, Do(s, a).side.waiting)
  {
    var q, r := s.side.waiting, Do(s, a).side.waiting;
    match a {
      case TryAlloc(t, wait) =>
        if r != q { assert r == [t] + q; }
      case Free(block) =>
        if r != q { assert r == Without(q, 0); }
      case Timeout(i) =>
        if i < |q| { assert r == Without(q, i); }
    }
  }

  /** Whoever waits on keeps the time, and whoever comes gets the present one. */
  lemma SinceStep(total: nat, run: seq<Step>, t: nat)
    requires run != [] && t in After(total, run).side.waiting
    ensures Since(total, run, t) == if t in After(total, run[..|run| - 1]).side.waiting
                                    then Since(total, run[..|run| - 1], t) else |run|
  {
  }

  /** In every run the threads wait in the reverse order of their coming, so the one resumed first came last. */
  lemma {:induction false} AlwaysNewestFirst(total: nat, run: seq<Step>)
    ensures Falling(Stamps(total, run, After(total, run).side.waiting), |run|)
  {
    if run != [] {
      var past := run[..|run| - 1];
      var q, r := After(total, past).side.waiting, After(total, run).side.waiting;
      AlwaysNewestFirst(total, past);
      DoRequeues(After(total, past), run[|run| - 1]);
      forall k | 0 <= k < |r|
        ensures Since(total, run, r[k]) == if r[k] in q then Since(total, past, r[k]) else |run|
      {
        SinceStep(total, run, r[k]);
      }
      hide After, Since, Do;
      StampsStep(q, r, total, past, run);
      FallingStep(Stamps(total, past, q), Stamps(total, run, r), |past|);
    }
  }

  lemma StampsStep(q: seq<nat>, r: seq<nat>, total: nat, past: seq<Step>, run: seq<Step>)
    requires Requeued(q, r)
    requires forall k :: 0 <= k < |r| ==> Since(total, run, r[k]) == if r[k] in q then Since(total, past, r[k]) else |run|
    ensures var u, v := Stamps(total, past, q), Stamps(total, run, r);
            v == u || v == [|run|] + u || exists i :: 0 <= i < |u| && v == Without(u, i)
  {
    hide Since, Stamps, Without;
    var u, v := Stamps(total, past, q), Stamps(total, run, r);
    if r == q {
      assert v == u;
    } else if r != [] && r[0] !in q && r == [r[0]] + q {
      assert forall k :: 0 <= k < |q| ==> r[k + 1] == q[k] && q[k] in q;
      StampsCame(q, r[0], total, past, run);
    } else {
      var i :| 0 <= i < |q| && r == Without(q, i);
      StampsLeft(q, i, total, past, run);
    }
  }

  lemma StampsCame(q: seq<nat>, t: nat, total: nat, past: seq<Step>, run: seq<Step>)
    requires forall k :: 0 <= k < |q| ==> Since(total, run, q[k]) == Since(total, past, q[k])
    requires Since(total, run, t) == |run|
    ensures Stamps(total, run, [t] + q) == [|run|] + Stamps(total, past, q)
  {
  }

  lemma StampsLeft(q: seq<nat>, i: nat, total: nat, past: seq<Step>, run: seq<Step>)
    requires i < |q|
    requires var r := Without(q, i);
             forall k :: 0 <= k < |r| ==> Since(total, run, r[k]) == if r[k] in q then Since(total, past, r[k]) else |run|
    ensures Stamps(total, run, Without(q, i)) == Without(Stamps(total, past, q), i)
  {
    hide Since, Stamps;
    var r, v := Stamps(total, run, Without(q, i)), Without(Stamps(total, past, q), i);
    forall k | 0 <= k < |r|
      ensures r[k] == v[k]
    {
      WithoutAt(q, i, k);
      WithoutAt(Stamps(total, past, q), i, k);
    }
  }

  lemma WithoutAt(q: seq<nat>, i: nat, k: nat)
    requires i < |q| && k < |q| - 1
    ensures |Without(q, i)| == |q| - 1 && Without(q, i)[k] == q[if k < i then k else k + 1] && Without(q, i)[k] in q
  {
  }

  lemma FallingStep(u: seq<nat>, v: seq<nat>, now: nat)
    requires Falling(u, now)
    requires v == u || v == [now + 1] + u || exists i :: 0 <= i < |u| && v == Without(u, i)
    ensures Falling(v, now + 1)
  {
    if v == u || v == [now + 1] + u {
    } else {
      var i :| 0 <= i < |u| && v == Without(u, i);
      assert forall k :: 0 <= k < |v| ==> v[k] == u[if k < i then k else k + 1];
    }
  }

  // ---------------------------------------------------------------- how a region is cut into blocks

  /** mp->size, in bytes. */
  function RegionBytes(size: H.Bytes): nat {
    size / 4 * 4
  }

  /** Bytes from one block to the next, its link word included; 32-bit arithmetic throughout. */
  function Stride(blockSize: H.Bytes): H.Bytes {
    (4 * H.AlignWords(blockSize) + 4) % H.WORD_RANGE
  }

  function Whole(x: nat, d: nat): nat
    requires d > 0
  {
    x / d
  }

  /** mp->block_total_count */
  function BlockCount(size: H.Bytes, blockSize: H.Bytes): nat
    requires Stride(blockSize) > 0
  {
    Whole(RegionBytes(size), Stride(blockSize))
  }

  /** The byte behind the start of the region at which rt_mp_init stores the end of the free list. */
  function LastLink(size: H.Bytes, blockSize: H.Bytes): H.Bytes
    requires Stride(blockSize) > 0
  {
    (BlockCount(size, blockSize) - 1) % H.WORD_RANGE * Stride(blockSize) % H.WORD_RANGE
  }

  /**
   rt_mp_init cuts the region into blocks that lie inside it and hold what was asked for exactly when it has room
   for one of them.  When it has not, it divides by 0, or the blocks are empty, or it stores the end of the free
   list one stride before the region, modulo 2^32.
   */
  lemma InitMeaning(size: H.Bytes, blockSize: H.Bytes)
    requires size > 0 && blockSize > 0
    ensures Stride(blockSize) == 0 <==> H.LAST_ROUNDED - 4 < blockSize <= H.LAST_ROUNDED
    ensures blockSize > H.LAST_ROUNDED ==> Stride(blockSize) == 4
    ensures (Stride(blockSize) >= blockSize + 4 && BlockCount(size, blockSize) > 0) <==> size / 4 * 4 >= (blockSize + 3) / 4 * 4 + 4
    ensures Stride(blockSize) > 0 ==>
              var n, d := BlockCount(size, blockSize), Stride(blockSize);
              && (forall k :: 0 <= k < n ==> k * d + d <= RegionBytes(size))
              && LastLink(size, blockSize) == (if n > 0 then (n - 1) * d else H.WORD_RANGE - d)
              && (n > 0 <==> RegionBytes(size) >= d)
  {
    StrideIs(blockSize);
    hide Whole, Stride, H.AlignWords, LastLink, BlockCount;
    if Stride(blockSize) > 0 {
      BlocksInside(size, blockSize);
      LastLinkIs(size, blockSize);
    }
  }

  lemma BlocksInside(size: H.Bytes, blockSize: H.Bytes)
    requires Stride(blockSize) > 0
    ensures var n, d := BlockCount(size, blockSize), Stride(blockSize);
            && (forall k :: 0 <= k < n ==> k * d + d <= RegionBytes(size))
            && (n > 0 <==> RegionBytes(size) >= d)
  {
    hide Stride, RegionBytes, Whole;
    var n, d := BlockCount(size, blockSize), Stride(blockSize);
    DivisionIs(RegionBytes(size), d);
    forall k | 0 <= k < n
      ensures k * d + d <= RegionBytes(size)
    {
      Fits(RegionBytes(size), d, n, k);
    }
  }

  lemma LastLinkIs(size: H.Bytes, blockSize: H.Bytes)
    requires Stride(blockSize) > 0
    ensures var n, d := BlockCount(size, blockSize), Stride(blockSize);
            LastLink(size, blockSize) == if n > 0 then (n - 1) * d else H.WORD_RANGE - d
  {
    var n, d := BlockCount(size, blockSize), Stride(blockSize);
    hide Stride, H.AlignWords, BlockCount, RegionBytes, Whole;
    if n > 0 {
      CountFits(size, blockSize);
      LastInside(RegionBytes(size), n, d);
    } else {
      OneBack(d);
    }
  }

  lemma LastInside(x: nat, n: nat, d: nat)
    requires 0 < n && 0 < d && n * d <= x < H.WORD_RANGE
    ensures (n - 1) % H.WORD_RANGE * d % H.WORD_RANGE == (n - 1) * d
  {
    Fits(x, d, n, n - 1);
    assert n * d == n + n * (d - 1);
  }

  lemma CountFits(size: H.Bytes, blockSize: H.Bytes)
    requires Stride(blockSize) > 0
    ensures BlockCount(size, blockSize) * Stride(blockSize) <= RegionBytes(size) < H.WORD_RANGE
  {
    hide Stride, Whole;
    DivisionIs(RegionBytes(size), Stride(blockSize));
  }

  lemma OneBack(d: nat)
    requires 0 < d < H.WORD_RANGE
    ensures -1 % H.WORD_RANGE * d % H.WORD_RANGE == H.WORD_RANGE - d
  {
    assert -1 % H.WORD_RANGE == H.WORD_RANGE - 1;
    assert (H.WORD_RANGE - 1) * d == (d - 1) * H.WORD_RANGE + (H.WORD_RANGE - d);
  }

  lemma StrideIs(blockSize: H.Bytes)
    ensures Stride(blockSize) == 0 <==> H.LAST_ROUNDED - 4 < blockSize <= H.LAST_ROUNDED
    ensures Stride(blockSize) >= blockSize + 4 <==> blockSize <= H.LAST_ROUNDED - 4
    ensures blockSize > H.LAST_ROUNDED ==> Stride(blockSize) == 4
    ensures blockSize <= H.LAST_ROUNDED - 4 ==> Stride(blockSize) == (blockSize + 3) / 4 * 4 + 4
  {
  }

  lemma DivisionIs(x: nat, d: nat)
    requires d > 0
    ensures Whole(x, d) * d <= x < Whole(x, d) * d + d
    ensures Whole(x, d) > 0 <==> x >= d
  {
    assert x == x / d * d + x % d;
    if x / d > 0 {
      assert x / d * d >= d;
    }
  }

  lemma Fits(x: nat, d: nat, n: nat, k: nat)
    requires n * d <= x && k < n
    ensures 0 <= k * d && k * d + d <= x
  {
    assert n * d == k * d + d + (n - k - 1) * d;
    assert (n - k - 1) * d >= 0;
  }

  /** A region of 8 bytes for blocks of 8: no block, and the word 12 bytes before the region is overwritten. */
  lemma InitTooSmall()
    ensures BlockCount(8, 8) == 0 && LastLink(8, 8) == H.WORD_RANGE - 12
  {
    assert Stride(8) == 12;
  }

  // ---------------------------------------------------------------- the pool in place

  class Pool {
    const link: array<int>
    var list: int
    var freeCount: nat
    var side: Side
    ghost var free: seq<nat>

    /** The free list is threaded through the blocks' first words. */
    ghost predicate Valid()
      reads this, link
    {
      freeCount == |free| && list == Head(free, 0) && Chain(link[..], free)
      && (forall b :: 0 <= b < link.Length && b !in free ==> link[b] == POOL)
    }

    ghost function Value(): State
      reads this, link
    {
      State(link.Length, free, side)
    }

    /** rt_mp_init on a region that has room for a block; InitMeaning tells what it does to others. */
    constructor (size: H.Bytes, blockSize: H.Bytes)
      requires blockSize > 0 && Stride(blockSize) > 0 && RegionBytes(size) >= Stride(blockSize)
      ensures fresh(link) && Valid() && Value() == Start(BlockCount(size, blockSize))
    {
      var total := BlockCount(size, blockSize);
      DivisionIs(RegionBytes(size), Stride(blockSize));
      hide Stride, Whole;
      var a := new int[total];
      link, list, freeCount, side, free := a, 0, total, AWAKE, Counting(0, total);
      new;
      var offset := 0;
      while offset < total
        invariant offset <= total && list == 0 && freeCount == total && side == AWAKE && free == Counting(0, total)
        invariant forall b :: 0 <= b < offset ==> link[b] == b + 1
      {
        link[offset] := offset + 1;
        offset := offset + 1;
      }
      link[offset - 1] := NIL;
      forall b | 0 <= b < total ensures b in free {
        assert free[b] == b;
      }
      forall i: nat | i < |free| ensures Threaded(link[..], free, i) {
      }
    }

    /** rt_mp_alloc up to where it returns a block, returns nothing, or is suspended. */
    method TryAllocate(t: nat, wait: bool) returns (block: int)
      requires Valid() && t !in side.waiting
      modifies this, link
      ensures Valid() && Value() == Do(old(Value()), TryAlloc(t, wait))
      ensures side.woken == old(side.woken) - {t}
      ensures block == NIL <==> old(freeCount) == 0
      ensures block == NIL ==>
                freeCount == 0 && link[..] == old(link[..])
                && side.waiting == (if wait then [t] else []) + old(side.waiting)
      ensures block != NIL ==>
                && 0 <= block < link.Length && old(free) == [block as nat] + free && block !in free
                && old(link[block]) != POOL && link[block] == POOL
                && (forall b :: 0 <= b < link.Length && b != block ==> link[b] == old(link[b]))
                && freeCount == old(freeCount) - 1 && side.waiting == old(side.waiting)
    {
      if freeCount == 0 {
        side := if wait then Sleep(side, t, 0) else Leave(side, t);
        return NIL;
      }
      freeCount := freeCount - 1;
      block := list;
      hide Chain;
      ChainTail(link[..], free);
      ChainFrame(link[..], free[1..], free[0], POOL);
      list := link[block];
      link[block] := POOL;
      side := Leave(side, t);
      free := free[1..];
    }

    /** rt_mp_free; the word it finds before the block names this pool. */
    method Release(block: nat)
      requires Valid() && Live(Value(), block)
      modifies this, link
      ensures old(link[block]) == POOL
      ensures Valid() && Value() == Do(old(Value()), Free(block))
      ensures free == [block] + old(free) && freeCount == old(freeCount) + 1 && link[block] != POOL
      ensures forall b :: 0 <= b < link.Length && b != block ==> link[b] == old(link[b])
      ensures if old(side.waiting) == [] then side == old(side)
              else old(side.waiting) == [old(side.waiting[0])] + side.waiting
                   && side.woken == old(side.woken) + {old(side.waiting[0])}
    {
      hide Chain;
      ChainPush(link[..], free, block);
      freeCount := freeCount + 1;
      link[block] := list;
      list := block;
      side := WakeFirst(side);
      free := [block] + free;
    }
  }
}
