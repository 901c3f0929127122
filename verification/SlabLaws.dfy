/** rt_slab_alloc and rt_slab_free as a whole, over any sequence of calls. */
module SlabLaws {

  import opened WaitList
  import opened Chains
  import opened SlabSizes
  import opened SlabPages
  import opened SlabZones

  datatype Outcome = Outcome(state: State, pointer: Pointer)

  ghost function AllocSmall(s: State, n: nat): Outcome
    requires Sound(s) && 0 < n < Limit(s.zoneSize)
  {
    FreshSound(s.zoneSize, n);
    var i, size := IndexFor(n), Rounded(n);
    if s.lists[i] != [] then
      FromZoneLists(s, i);
      var a := s.lists[i][0];
      Outcome(FromZone(s, i), Chunk(a, NextChunk(s.zones[a])))
    else if s.spare != [] then
      Outcome(Adopted(Unspared(s), s.spare[0], i, size), Chunk(s.spare[0], 0))
    else if TakenAt(s.runs, ZonePages(s)) >= 0 then
      Outcome(Adopted(Unspared(Opened(s)), TakenAt(s.runs, ZonePages(s)), i, size),
              Chunk(TakenAt(s.runs, ZonePages(s)), 0))
    else Outcome(s, Null)
  }

  function PagesFor(n: nat): nat {
    RoundUp(n, PAGE) / PAGE
  }

  ghost function AllocLarge(s: State, n: nat): Outcome
    requires Sound(s) && n > 0
  {
    PagesForIs(n);
    if TakenAt(s.runs, PagesFor(n)) >= 0 then
      OpenedLargeSound(s, PagesFor(n));
      Outcome(OpenedLarge(s, PagesFor(n)), Pages(TakenAt(s.runs, PagesFor(n))))
    else Outcome(s, Null)
  }

  /** rt_slab_alloc */
  ghost function Alloc(s: State, n: nat): Outcome
    requires Sound(s)
  {
    if n == 0 then Outcome(s, Null)
    else if n >= Limit(s.zoneSize) then AllocLarge(s, n)
    else AllocSmall(s, n)
  }

  lemma PagesForIs(n: nat)
    requires n > 0
    ensures PagesFor(n) > 0 && n <= PagesFor(n) * PAGE < n + PAGE
  {
  }

  /** rt_slab_free of a chunk: its zone may become a spare one, and a third spare one gives its pages back. */
  ghost function FreeChunk(s: State, a: nat, k: nat): State
    requires Sound(s) && Live(s, Chunk(a, k))
  {
    ReturnedLists(s, a, k);
    var r := Returned(s, a, k);
    var z := r.zones[a];
    if z.nfree == z.nmax && r.lists[z.index] != [a] then
      var t := Spared(r, a);
      if |t.spare| > RELEASE_THRESHOLD then Released(t) else t
    else r
  }

  /** rt_slab_free */
  ghost function Free(s: State, p: Pointer): State
    requires Sound(s) && Live(s, p)
  {
    match p
    case Chunk(a, k) => FreeChunk(s, a, k)
    case Pages(a) => ClosedLargeSound(s, a); ClosedLarge(s, a)
  }

  /** How many bytes a live pointer may use. */
  function Capacity(s: State, p: Pointer): nat {
    match p
    case Null => 0
    case Chunk(a, _) => if a in s.zones then ChunkSize(s.zones[a].index) else 0
    case Pages(a) => if a in s.areas then s.areas[a] * PAGE else 0
  }

  // ---------------------------------------------------------------- allocation

  /** Exactly p becomes live, it can hold n bytes, and what was live keeps its place and its capacity. */
  ghost predicate Gains(s: State, r: State, p: Pointer, n: nat) {
    !Live(s, p) && Live(r, p) && Capacity(r, p) >= n
    && forall q :: q != p ==> (Live(r, q) <==> Live(s, q)) && (Live(s, q) ==> Capacity(r, q) == Capacity(s, q))
  }

  lemma FromZoneMeaning(s: State, n: nat)
    requires Sound(s) && 0 < n < Limit(s.zoneSize) && 0 <= IndexFor(n) < |s.lists| && s.lists[IndexFor(n)] != []
    ensures Sound(AllocSmall(s, n).state) && Gains(s, AllocSmall(s, n).state, AllocSmall(s, n).pointer, n)
  {
    hide AreasSound, UsageSound, ListsSound, ZoneSound, Handed, Rounded, IndexFor, ChunkSize;
    FreshSound(s.zoneSize, n);
    var i := IndexFor(n);
    FromZoneLists(s, i);
    var a, r := s.lists[i][0], FromZone(s, i);
    SamePagesSound(s, r);
    HandingSound(s.zones[a], s.zoneSize);
    ListedIs(s, i, a);
  }

  lemma ListedIs(s: State, i: nat, a: nat)
    requires ListsSound(s) && i < CLASSES && a in s.lists[i]
    ensures Listed(s, i, a)
  {
  }

  /** As far as chunks go, exactly chunk 0 of zone a becomes live. */
  predicate ChunkGained(s: State, r: State, a: nat, n: nat) {
    Live(r, Chunk(a, 0)) && Capacity(r, Chunk(a, 0)) >= n && !Live(s, Chunk(a, 0))
  }

  ghost predicate ChunksKept(s: State, r: State, a: nat) {
    forall z, k :: z != a || k != 0 ==>
      (Live(r, Chunk(z, k)) <==> Live(s, Chunk(z, k)))
      && (Live(s, Chunk(z, k)) ==> Capacity(r, Chunk(z, k)) == Capacity(s, Chunk(z, k)))
  }

  /** A new zone is laid out at page a, which no zone and no spare zone occupies. */
  lemma AdoptedMeaning(s: State, a: nat, i: nat, size: nat, n: nat)
    requires ReachableZone(s.zoneSize) && 0 < n < Limit(s.zoneSize) && ListsSound(s) && a !in s.zones && a !in s.spare
    requires |s.lists| == CLASSES && i == IndexFor(n) < CLASSES && size == Rounded(n) > 0 && ChunksIn(s.zoneSize, size) >= 1
    ensures ListsSound(Adopted(s, a, i, size))
    ensures ChunkGained(s, Adopted(s, a, i, size), a, n) && ChunksKept(s, Adopted(s, a, i, size), a)
  {
    hide ListsSound, ZoneSound, Handed, Rounded, IndexFor, ChunkSize;
    FreshSound(s.zoneSize, n);
    AdoptedLists(s, a, i, size);
  }

  lemma SpareApart(s: State)
    requires ListsSound(s) && s.spare != []
    ensures s.spare[0] in s.spare && s.spare[0] !in s.zones && s.spare[0] !in s.spare[1..] && ListsSound(Unspared(s))
    ensures |s.lists| == CLASSES
    ensures forall b :: b in s.spare <==> b == s.spare[0] || b in s.spare[1..]
  {
    hide ZoneSound;
    TailApart(s.spare);
    var r := Unspared(s);
    forall j, b | 0 <= j < CLASSES ensures b in r.lists[j] <==> Listed(r, j, b) {
      assert b in s.lists[j] <==> Listed(s, j, b);
    }
  }

  /** What is gained and kept among the chunks is gained and kept among all pointers. */
  lemma GainsAll(s: State, r: State, a: nat, n: nat)
    requires ChunkGained(s, r, a, n) && ChunksKept(s, r, a)
    requires forall b :: Live(r, Pages(b)) <==> Live(s, Pages(b))
    requires forall b :: b in s.areas && !IsZone(s, b) ==> b in r.areas && r.areas[b] == s.areas[b]
    ensures Gains(s, r, Chunk(a, 0), n)
  {
    forall q | q != Chunk(a, 0)
      ensures (Live(r, q) <==> Live(s, q)) && (Live(s, q) ==> Capacity(r, q) == Capacity(s, q))
    {
      match q {
        case Null =>
        case Chunk(z, k) => assert Live(r, Chunk(z, k)) <==> Live(s, Chunk(z, k));
        case Pages(b) => assert Live(r, Pages(b)) <==> Live(s, Pages(b));
      }
    }
  }

  lemma FromSpareMeaning(s: State, n: nat)
    requires Sound(s) && 0 < n < Limit(s.zoneSize) && 0 <= IndexFor(n) < |s.lists|
    requires s.lists[IndexFor(n)] == [] && s.spare != []
    ensures Sound(AllocSmall(s, n).state) && Gains(s, AllocSmall(s, n).state, AllocSmall(s, n).pointer, n)
  {
    hide AreasSound, UsageSound, ListsSound, ZoneSound, Handed, Rounded, IndexFor, ChunkSize;
    FreshSound(s.zoneSize, n);
    SpareApart(s);
    var i, a, r := IndexFor(n), s.spare[0], AllocSmall(s, n).state;
    AdoptedMeaning(Unspared(s), a, i, Rounded(n), n);
    SamePagesSound(s, r);
    GainsAll(s, r, a, n);
  }

  lemma FromPagesMeaning(s: State, n: nat)
    requires Sound(s) && 0 < n < Limit(s.zoneSize) && 0 <= IndexFor(n) < |s.lists|
    requires s.lists[IndexFor(n)] == [] && s.spare == [] && TakenAt(s.runs, ZonePages(s)) >= 0
    ensures Sound(AllocSmall(s, n).state) && Gains(s, AllocSmall(s, n).state, AllocSmall(s, n).pointer, n)
  {
    hide AreasSound, UsageSound, ListsSound, ZoneSound, Handed, Rounded, IndexFor, ChunkSize, Taken, TakenAt;
    FreshSound(s.zoneSize, n);
    OpenedSound(s);
    var o := Opened(s);
    var i, a, r := IndexFor(n), TakenAt(s.runs, ZonePages(s)), AllocSmall(s, n).state;
    assert Unspared(o).spare == s.spare;
    ListsElsewhere(s, Unspared(o));
    AdoptedMeaning(Unspared(o), a, i, Rounded(n), n);
    SamePagesSound(o, r);
    ChunksElsewhere(s, Unspared(o), r, a, n);
    GainsAll(s, r, a, n);
  }

  lemma ListsElsewhere(s: State, r: State)
    requires ListsSound(s) && r.lists == s.lists && r.zones == s.zones && r.spare == s.spare && r.zoneSize == s.zoneSize
    ensures ListsSound(r) && |r.lists| == CLASSES
  {
    hide ZoneSound;
    forall j, b | 0 <= j < CLASSES ensures b in r.lists[j] <==> Listed(r, j, b) {
      assert b in s.lists[j] <==> Listed(s, j, b);
    }
  }

  lemma ChunksElsewhere(s: State, o: State, r: State, a: nat, n: nat)
    requires o.zones == s.zones && ChunkGained(o, r, a, n) && ChunksKept(o, r, a)
    ensures ChunkGained(s, r, a, n) && ChunksKept(s, r, a)
  {
    hide Handed;
    forall z, k | z != a || k != 0
      ensures (Live(r, Chunk(z, k)) <==> Live(s, Chunk(z, k)))
              && (Live(s, Chunk(z, k)) ==> Capacity(r, Chunk(z, k)) == Capacity(s, Chunk(z, k)))
    {
      assert Live(r, Chunk(z, k)) <==> Live(o, Chunk(z, k));
    }
  }

  lemma AllocLargeMeaning(s: State, n: nat)
    requires Sound(s) && n > 0 && TakenAt(s.runs, PagesFor(n)) >= 0
    ensures Sound(AllocLarge(s, n).state) && Gains(s, AllocLarge(s, n).state, AllocLarge(s, n).pointer, n)
  {
    hide AreasSound, UsageSound, ListsSound, Handed, PagesFor, Taken, TakenAt;
    PagesForIs(n);
    OpenedLargeSound(s, PagesFor(n));
    var r := OpenedLarge(s, PagesFor(n));
    ListsElsewhere(s, r);
  }

  lemma ZonePagesPositive(s: State)
    requires ReachableZone(s.zoneSize)
    ensures ZonePages(s) > 0 && ZonePages(s) * PAGE == s.zoneSize
  {
  }

  /**
   An allocation keeps the slab sound.  It returns memory that was not in use and can hold n bytes, or
   nothing: for no bytes, and when neither a listed zone, nor a spare one, nor enough pages side by side exist.
   */
  lemma AllocMeaning(s: State, n: nat)
    requires Sound(s)
    ensures Sound(Alloc(s, n).state)
    ensures Alloc(s, n).pointer == Null ==> Alloc(s, n).state == s
    ensures Alloc(s, n).pointer != Null ==> Gains(s, Alloc(s, n).state, Alloc(s, n).pointer, n)
    ensures |s.lists| == CLASSES && (0 < n < Limit(s.zoneSize) ==> 0 <= IndexFor(n) < CLASSES)
    ensures Alloc(s, n).pointer == Null
            <==> n == 0
                 || (n >= Limit(s.zoneSize) && !exists a :: AllFree(s.runs, a, PagesFor(n)))
                 || (0 < n < Limit(s.zoneSize) && s.lists[IndexFor(n)] == [] && s.spare == []
                     && !exists a :: AllFree(s.runs, a, ZonePages(s)))
  {
    hide UsageSound, Handed, IndexFor, AllFree, Canonical, PagesFor;
    ZonePagesPositive(s);
    assert |s.lists| == CLASSES by { assert ListsSound(s); }
    assert Canonical(s.runs, s.total);
    hide AreasSound, ListsSound, Gains, Limit;
    if n == 0 {
    } else if n >= Limit(s.zoneSize) {
      PagesForIs(n);
      TakenFailsIff(s.runs, s.total, PagesFor(n));
      if TakenAt(s.runs, PagesFor(n)) >= 0 {
        AllocLargeMeaning(s, n);
      }
    } else {
      FreshSound(s.zoneSize, n);
      TakenFailsIff(s.runs, s.total, ZonePages(s));
      if s.lists[IndexFor(n)] != [] {
        FromZoneMeaning(s, n);
      } else if s.spare != [] {
        FromSpareMeaning(s, n);
      } else if TakenAt(s.runs, ZonePages(s)) >= 0 {
        FromPagesMeaning(s, n);
      }
    }
  }

  /**
   Rounding up to whole pages wraps to no page at all for the last 4095 sizes.  Asking for none fails, as asking
   for all 2^20 pages of the address space does, so the unbounded count comes to the same.
   */
  lemma WrappedRequest(s: State, n: nat)
    requires Sound(s) && s.total * PAGE < 0x1_0000_0000 && n < 0x1_0000_0000
    ensures var count := (n + PAGE - 1) % 0x1_0000_0000 / PAGE;
            (count == PagesFor(n) <==> n <= 0x1_0000_0000 - PAGE)
            && (count != PagesFor(n) ==> count == 0 && Alloc(s, n).pointer == Null)
  {
    if n > 0x1_0000_0000 - PAGE {
      hide AreasSound, UsageSound, ListsSound, TakenAt, Taken, AllocSmall, OpenedLarge;
      if TakenAt(s.runs, PagesFor(n)) >= 0 {
        OpenedPages(s, n);
      }
    }
  }

  lemma OpenedPages(s: State, n: nat)
    requires Sound(s) && n > 0 && TakenAt(s.runs, PagesFor(n)) >= 0
    ensures PagesFor(n) <= s.total
  {
    hide UsageSound, ListsSound, PagesFor, Taken, TakenAt, Canonical, Separate, NoneFree;
    PagesForIs(n);
    OpenedLargeSound(s, PagesFor(n));
    assert TakenAt(s.runs, PagesFor(n)) in OpenedLarge(s, PagesFor(n)).areas;
  }

  // ---------------------------------------------------------------- release

  ghost predicate Loses(s: State, r: State, p: Pointer) {
    forall q :: (Live(r, q) <==> Live(s, q) && q != p) && (Live(r, q) ==> Capacity(r, q) == Capacity(s, q))
  }

  /** In a zone all of whose chunks are free nothing is handed out. */
  lemma AllChunksFree(z: Zone, zoneSize: nat)
    requires ZoneSound(z, zoneSize) && z.nfree == z.nmax
    ensures forall k: nat :: !Handed(z, k)
  {
    forall k: nat ensures !Handed(z, k) {
      if Handed(z, k) {
        Missing(z.chunks, z.uindex + 1, k);
      }
    }
  }

  lemma FreeLargeMeaning(s: State, a: nat)
    requires Sound(s) && Live(s, Pages(a))
    ensures Sound(Free(s, Pages(a))) && Loses(s, Free(s, Pages(a)), Pages(a))
  {
    hide AreasSound, UsageSound, ListsSound, Handed;
    ClosedLargeSound(s, a);
    ListsElsewhere(s, ClosedLarge(s, a));
  }

  /** Only zone a changes, and of its chunks only the k-th is no longer handed out. */
  ghost predicate ChunkLost(s: State, r: State, a: nat, k: nat) {
    forall z, j :: (Live(r, Chunk(z, j)) <==> Live(s, Chunk(z, j)) && (z != a || j != k))
                   && (Live(r, Chunk(z, j)) ==> Capacity(r, Chunk(z, j)) == Capacity(s, Chunk(z, j)))
  }

  lemma ReturnedMeaning(s: State, a: nat, k: nat)
    requires Sound(s) && Live(s, Chunk(a, k))
    ensures s.zones[a].index < |s.lists| && Sound(Returned(s, a, k)) && ChunkLost(s, Returned(s, a, k), a, k)
    ensures a in Returned(s, a, k).lists[s.zones[a].index]
  {
    ReturnedLists(s, a, k);
    ReturnedLost(s, a, k);
    hide AreasSound, UsageSound, ListsSound, Handed, ChunkLost, Live;
    SamePagesSound(s, Returned(s, a, k));
  }

  lemma ReturnedLost(s: State, a: nat, k: nat)
    requires Sound(s) && Live(s, Chunk(a, k)) && s.zones[a].index < |s.lists|
    ensures ChunkLost(s, Returned(s, a, k), a, k)
  {
    assert ZoneSound(s.zones[a], s.zoneSize);
    ReturningSound(s.zones[a], s.zoneSize, k);
    hide Sound, Handed, ZoneSound, ChunkSize;
  }

  /** A wholly free zone is put aside; no chunk of it was handed out any more. */
  lemma SparedMeaning(s: State, a: nat)
    requires Sound(s) && a in s.zones && s.zones[a].nfree == s.zones[a].nmax
    ensures s.zones[a].index < |s.lists|
    ensures var r := Spared(s, a);
            AreasSound(r) && UsageSound(r) && r.spare != [] && r.spare[0] == a && Distinct(r.spare) && a !in r.zones
            && |r.spare| <= RELEASE_THRESHOLD + 1
            && (|r.spare| <= RELEASE_THRESHOLD ==> ListsSound(r)) && ListsSound(Unspared(r))
            && forall z, j :: (Live(r, Chunk(z, j)) <==> Live(s, Chunk(z, j)))
                              && (Live(r, Chunk(z, j)) ==> Capacity(r, Chunk(z, j)) == Capacity(s, Chunk(z, j)))
  {
    assert ZoneSound(s.zones[a], s.zoneSize);
    SparedLists(s, a);
    AllChunksFree(s.zones[a], s.zoneSize);
    hide AreasSound, UsageSound, ListsSound, Handed, ZoneSound;
    SamePagesSound(s, Spared(s, a));
  }

  lemma ReleasedMeaning(s: State)
    requires s.spare != [] && Distinct(s.spare) && s.spare[0] !in s.zones
    requires AreasSound(s) && UsageSound(s) && ListsSound(Unspared(s)) && ReachableZone(s.zoneSize)
    ensures Sound(Released(s))
    ensures forall b :: Live(Released(s), Pages(b)) <==> Live(s, Pages(b))
  {
    ReleasedSound(s);
    TailApart(s.spare);
    hide AreasSound, UsageSound, ListsSound, Handed, Given;
    ListsElsewhere(Unspared(s), Released(s));
  }

  lemma LosesAll(s: State, r: State, a: nat, k: nat)
    requires ChunkLost(s, r, a, k)
    requires forall b :: Live(r, Pages(b)) <==> Live(s, Pages(b))
    requires forall b :: b in r.areas ==> b in s.areas && r.areas[b] == s.areas[b]
    ensures Loses(s, r, Chunk(a, k))
  {
    forall q
      ensures (Live(r, q) <==> Live(s, q) && q != Chunk(a, k)) && (Live(r, q) ==> Capacity(r, q) == Capacity(s, q))
    {
      match q {
        case Null =>
        case Chunk(z, j) => assert Live(r, Chunk(z, j)) <==> Live(s, Chunk(z, j)) && (z != a || j != k);
        case Pages(b) => assert Live(r, Pages(b)) <==> Live(s, Pages(b));
      }
    }
  }

  lemma FreeChunkMeaning(s: State, a: nat, k: nat)
    requires Sound(s) && Live(s, Chunk(a, k))
    ensures Sound(FreeChunk(s, a, k)) && Loses(s, FreeChunk(s, a, k), Chunk(a, k))
  {
    hide AreasSound, UsageSound, ListsSound, Handed, Loses, ChunkLost;
    ReturnedMeaning(s, a, k);
    var r := Returned(s, a, k);
    var z := r.zones[a];
    if z.nfree == z.nmax && r.lists[z.index] != [a] {
      SparedMeaning(r, a);
      var t := Spared(r, a);
      SparedLoses(s, r, t, a, k);
      if |t.spare| > RELEASE_THRESHOLD {
        ReleasedMeaning(t);
        SparedLoses(s, t, Released(t), a, k);
        LosesAll(s, Released(t), a, k);
      } else {
        LosesAll(s, t, a, k);
      }
    } else {
      LosesAll(s, r, a, k);
    }
  }

  lemma SparedLoses(s: State, r: State, t: State, a: nat, k: nat)
    requires ChunkLost(s, r, a, k)
    requires forall z, j :: (Live(t, Chunk(z, j)) <==> Live(r, Chunk(z, j)))
                            && (Live(t, Chunk(z, j)) ==> Capacity(t, Chunk(z, j)) == Capacity(r, Chunk(z, j)))
    ensures ChunkLost(s, t, a, k)
  {
    forall z, j
      ensures (Live(t, Chunk(z, j)) <==> Live(s, Chunk(z, j)) && (z != a || j != k))
              && (Live(t, Chunk(z, j)) ==> Capacity(t, Chunk(z, j)) == Capacity(s, Chunk(z, j)))
    {
      assert Live(t, Chunk(z, j)) <==> Live(r, Chunk(z, j));
      assert Live(r, Chunk(z, j)) <==> Live(s, Chunk(z, j)) && (z != a || j != k);
    }
  }

  /** Freeing keeps the slab sound, with at most two spare zones, and takes exactly that pointer out of use. */
  lemma FreeMeaning(s: State, p: Pointer)
    requires Sound(s) && Live(s, p)
    ensures Sound(Free(s, p)) && Loses(s, Free(s, p), p)
  {
    hide Sound, Loses, Handed;
    match p {
      case Chunk(a, k) => FreeChunkMeaning(s, a, k);
      case Pages(a) => FreeLargeMeaning(s, a);
    }
  }

  // ---------------------------------------------------------------- addresses

  /** The byte at which a live pointer points, counted from the start of the heap. */
  function Address(s: State, p: Pointer): nat {
    match p
    case Null => 0
    case Chunk(a, k) =>
      if a in s.zones && ChunkSize(s.zones[a].index) > 0
      then a * PAGE + Offset(ChunkSize(s.zones[a].index)) + k * ChunkSize(s.zones[a].index) else 0
    case Pages(a) => a * PAGE
  }

  lemma ProductSteps(k: nat, m: nat, size: nat)
    requires k < m
    ensures k * size + size <= m * size
  {
    var d := m - k - 1;
    assert d * size >= 0;
    assert m * size == k * size + size + d * size;
  }

  /** A chunk lies behind the header of its zone and inside its pages. */
  lemma ChunkInside(s: State, a: nat, k: nat)
    requires Sound(s) && Live(s, Chunk(a, k))
    ensures a * PAGE + HEADER <= Address(s, Chunk(a, k))
    ensures Address(s, Chunk(a, k)) + Capacity(s, Chunk(a, k)) <= (a + ZonePages(s)) * PAGE
    ensures Capacity(s, Chunk(a, k)) > 0
  {
    hide AreasSound, UsageSound, ListsSound, Offset, ChunksIn, ChunkSize, Distinct, InRange;
    var z := s.zones[a];
    ZoneIsSound(s, a);
    ChunkSizePositive(z.index);
    ChunkBounds(s.zoneSize, ChunkSize(z.index), k);
    ZonePagesPositive(s);
  }

  lemma ZoneIsSound(s: State, a: nat)
    requires ListsSound(s) && a in s.zones
    ensures ZoneSound(s.zones[a], s.zoneSize)
  {
  }

  lemma ChunkBounds(zoneSize: nat, size: nat, k: nat)
    requires ReachableZone(zoneSize) && 0 < size <= Limit(zoneSize) && k < ChunksIn(zoneSize, size)
    ensures HEADER <= Offset(size) && Offset(size) + k * size + size <= zoneSize
  {
    AtLeastTwo(zoneSize, size);
    hide Offset, ChunksIn;
    ProductSteps(k, ChunksIn(zoneSize, size), size);
  }

  lemma ChunkSizePositive(i: nat)
    requires i < CLASSES
    ensures ChunkSize(i) > 0
  {
  }

  /** The page table leads from the address of a chunk to its zone, and from that of a large block to its size. */
  lemma RecoverZone(s: State, p: Pointer)
    requires Sound(s) && Live(s, p)
    ensures var page := Address(s, p) / PAGE;
            page < |s.usage|
            && (p.Chunk? ==> s.usage[page].Small? && page - s.usage[page].offset == p.zone)
            && (p.Pages? ==> page == p.start && p.start in s.areas && s.usage[page] == Large(s.areas[p.start]))
  {
    hide AreasSound, ListsSound, Handed, Offset;
    assert |s.usage| == s.total;
    match p {
      case Chunk(a, k) =>
        ChunkInside(s, a, k);
        AreaInside(s, a);
        assert IsZone(s, a) && Recorded(s, a);
        var o := Address(s, p) / PAGE - a;
        assert 0 <= o < s.areas[a];
        assert s.usage[a + o] == Small(o);
      case Pages(a) =>
        AreaInside(s, a);
        assert Recorded(s, a);
    }
  }

  lemma AreaInside(s: State, a: nat)
    requires AreasSound(s) && a in s.areas
    ensures s.areas[a] > 0 && a + s.areas[a] <= s.total
  {
  }

  /** No two live pointers share a byte. */
  lemma LiveApart(s: State, p: Pointer, q: Pointer)
    requires Sound(s) && Live(s, p) && Live(s, q) && p != q
    ensures Address(s, p) + Capacity(s, p) <= Address(s, q) || Address(s, q) + Capacity(s, q) <= Address(s, p)
  {
    if p.Chunk? && q.Chunk? && p.zone == q.zone {
      var size := ChunkSize(s.zones[p.zone].index);
      hide Sound, Handed, ChunkSize, Offset;
      if p.k < q.k { ProductSteps(p.k, q.k, size); } else { ProductSteps(q.k, p.k, size); }
    } else {
      hide Handed, Address, Capacity;
      InArea(s, p);
      InArea(s, q);
      AreasApart(s, AreaOf(p), AreaOf(q));
    }
  }

  function AreaOf(p: Pointer): nat {
    match p
    case Null => 0
    case Chunk(a, _) => a
    case Pages(a) => a
  }

  lemma InArea(s: State, p: Pointer)
    requires Sound(s) && Live(s, p)
    ensures AreaOf(p) in s.areas && (p.Chunk? <==> IsZone(s, AreaOf(p)))
    ensures AreaOf(p) * PAGE <= Address(s, p)
    ensures Address(s, p) + Capacity(s, p) <= (AreaOf(p) + s.areas[AreaOf(p)]) * PAGE
  {
    hide AreasSound, ListsSound, Handed, Recorded;
    match p {
      case Chunk(a, k) =>
        ChunkInside(s, a, k);
        assert IsZone(s, a);
      case Pages(a) =>
    }
  }

  lemma AreasApart(s: State, a: nat, b: nat)
    requires Sound(s) && a in s.areas && b in s.areas && a != b
    ensures (a + s.areas[a]) * PAGE <= b * PAGE || (b + s.areas[b]) * PAGE <= a * PAGE
  {
    hide UsageSound, ListsSound, Canonical, NoneFree;
  }

  // ---------------------------------------------------------------- whole runs

  datatype Step = AllocStep(n: nat) | FreeStep(p: Pointer)

  /** The pages of the page table, whose entries are two bit fields in one word. */
  function TablePages(total: nat): nat {
    PagesFor(total * 4)
  }

  /** rt_slab_init: the page table takes the first pages; what it holds to begin with is not set. */
  function Start(total: nat, zoneSize: nat, table: nat, usage: seq<Usage>): State {
    State(total, zoneSize, Taken([Run(0, total)], table), usage, map[], seq(CLASSES, _ => []), [], map[])
  }

  lemma StartSound(total: nat, zoneSize: nat, table: nat, usage: seq<Usage>)
    requires ReachableZone(zoneSize) && 0 < table <= total && |usage| == total
    ensures Sound(Start(total, zoneSize, table, usage))
  {
    TakenMeaning([Run(0, total)], total, table);
  }

  ghost function After(total: nat, zoneSize: nat, table: nat, usage: seq<Usage>, run: seq<Step>): (s: State)
    requires ReachableZone(zoneSize) && 0 < table <= total && |usage| == total
    ensures Sound(s)
  {
    if run == [] then StartSound(total, zoneSize, table, usage); Start(total, zoneSize, table, usage)
    else
      var s := After(total, zoneSize, table, usage, run[..|run| - 1]);
      match run[|run| - 1]
      case AllocStep(n) => AllocMeaning(s, n); Alloc(s, n).state
      case FreeStep(p) => if Live(s, p) then FreeMeaning(s, p); Free(s, p) else s
  }
}
