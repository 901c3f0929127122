/**
 How far slab.c keeps what its comments promise: that a request for a power of two gets memory aligned to it.
 `base` is the address of the first page, of which only page alignment is known.
 */
module SlabAlign {

  import opened Chains
  import opened SlabSizes
  import opened SlabPages
  import opened SlabZones
  import opened SlabLaws
  import opened SlabHeap

  lemma SameRemainder(x: nat, m: nat, n: nat)
    requires n > 0
    ensures (x + m * n) % n == x % n
  {
    var q, r := x / n, x % n;
    assert x == q * n + r;
    assert x + m * n == (q + m) * n + r;
    Quotient(x + m * n, n, q + m, r);
    assert x + m * n == (x + m * n) / n * n + (x + m * n) % n;
  }

  lemma {:induction false} PowerCases(n: nat)
    requires PowerOfTwo(n) && n <= 16384
    ensures n == 1 || n == 2 || n == 4 || n == 8 || n == 16 || n == 32 || n == 64 || n == 128 || n == 256
            || n == 512 || n == 1024 || n == 2048 || n == 4096 || n == 8192 || n == 16384
  {
    if n > 1 {
      PowerCases(n / 2);
    }
  }

  /** A power of two from 8 on is a chunk size itself; a smaller one gets chunks of 8. */
  lemma PowerIsClass(n: nat) returns (c: nat)
    requires PowerOfTwo(n) && n < ZONE_LIMIT
    ensures Rounded(n) == if n < 8 then 8 else n
    ensures n > 0 && PowerOfTwo(Rounded(n)) && c * n == Rounded(n)
  {
    PowerCases(n);
    assert PowerOfTwo(8) by { assert PowerOfTwo(2) && PowerOfTwo(4); }
    hide PowerOfTwo;
    c := if n < 8 then 8 / n else 1;
  }

  lemma DividesPage(n: nat) returns (c: nat)
    requires PowerOfTwo(n) && n <= PAGE
    ensures n > 0 && c * n == PAGE
  {
    PowerCases(n);
    hide PowerOfTwo;
    c := PAGE / n;
  }

  lemma PowerDividesPage(n: nat, pages: nat)
    requires PowerOfTwo(n) && n <= PAGE
    ensures n > 0 && pages * PAGE % n == 0
  {
    var c := DividesPage(n);
    hide PowerOfTwo;
    Associate(pages, c, n);
    SameRemainder(0, pages * c, n);
  }

  lemma Associate(a: nat, b: nat, c: nat)
    ensures a * (b * c) == a * b * c
  {
  }

  lemma OffsetMultiple(size: nat) returns (h: nat)
    requires size > 0 && PowerOfTwo(size)
    ensures Offset(size) == h * size
  {
    h := (HEADER + size - 1) / size;
  }

  lemma Remains(x: nat, h: nat, k: nat, c: nat, n: nat, size: nat)
    requires n > 0 && size == c * n
    ensures (x + h * size + k * size) % n == x % n
  {
    Associate(h, c, n);
    Associate(k, c, n);
    SameRemainder(x, h * c, n);
    SameRemainder(x + h * c * n, k * c, n);
  }

  /** The chunks of a class that is a power of two lie as their zone does, with regard to every smaller power. */
  lemma ChunkRemainder(x: nat, k: nat, n: nat)
    requires PowerOfTwo(n) && n < ZONE_LIMIT
    ensures n > 0 && Rounded(n) > 0 && (x + Offset(Rounded(n)) + k * Rounded(n)) % n == x % n
  {
    hide Rounded, Offset;
    var c := PowerIsClass(n);
    var size := Rounded(n);
    var h := OffsetMultiple(size);
    hide PowerOfTwo;
    Remains(x, h, k, c, n, size);
  }

  /** Where a small request ends up. */
  lemma SmallAddress(s: State, n: nat)
    requires Sound(s) && 0 < n < Limit(s.zoneSize) && AllocSmall(s, n).pointer != Null
    ensures var r, p := AllocSmall(s, n).state, AllocSmall(s, n).pointer;
            p.Chunk? && Rounded(n) > 0 && Address(r, p) == p.zone * PAGE + Offset(Rounded(n)) + p.k * Rounded(n)
  {
    hide Sound, Rounded, IndexFor, ChunkSize, Offset, FromZone, ZoneSound, ListsSound, Address, TakenAt, Opened, Unspared;
    hide AllocSmall, Adopted;
    SmallCases(s, n);
    UnsparedLists(s);
    var i := IndexFor(n);
    if s.lists[i] != [] {
      HandedAddress(s, i, n);
    } else if s.spare != [] {
      AdoptedThere(Unspared(s), s.spare[0], i, n);
    } else if TakenAt(s.runs, ZonePages(s)) >= 0 {
      OpenedSpare(s);
      OpenedLists(s);
      AdoptedThere(Unspared(Opened(s)), TakenAt(s.runs, ZonePages(s)), i, n);
    }
  }

  lemma UnsparedLists(s: State)
    ensures s.spare != [] ==> Unspared(s).lists == s.lists && Unspared(s).zoneSize == s.zoneSize
  {
  }

  lemma OpenedLists(s: State)
    requires TakenAt(s.runs, ZonePages(s)) >= 0
    ensures Opened(s).spare != []
    ensures Unspared(Opened(s)).lists == s.lists && Unspared(Opened(s)).zoneSize == s.zoneSize
  {
  }

  lemma AdoptedThere(o: State, a: nat, i: nat, n: nat)
    requires 0 < n < ZONE_LIMIT && i == IndexFor(n) && i < |o.lists| && Rounded(n) > 0 && ChunksIn(o.zoneSize, Rounded(n)) >= 1
    ensures Address(Adopted(o, a, i, Rounded(n)), Chunk(a, 0)) == a * PAGE + Offset(Rounded(n)) + 0 * Rounded(n)
  {
    hide IndexFor, Rounded, Address, ChunkSize, Offset, ChunksIn;
    AdoptedAddress(Adopted(o, a, i, Rounded(n)), a, i, Rounded(n), n);
  }

  /**
   The first page of the memory that a request gets, told from the state before it: that of the first listed zone
   of its class, else of the first spare zone, else of the first run with enough pages; negative if there is none.
   */
  ghost function FirstPage(s: State, n: nat): int
    requires Sound(s)
  {
    if n == 0 then -1
    else if n >= Limit(s.zoneSize) then TakenAt(s.runs, PagesFor(n))
    else
      FreshSound(s.zoneSize, n);
      if s.lists[IndexFor(n)] != [] then s.lists[IndexFor(n)][0]
      else if s.spare != [] then s.spare[0]
      else TakenAt(s.runs, ZonePages(s))
  }

  lemma FirstPageIs(s: State, n: nat)
    requires Sound(s)
    ensures Alloc(s, n).pointer != Null <==> FirstPage(s, n) >= 0
    ensures FirstPage(s, n) >= 0 ==> AreaOf(Alloc(s, n).pointer) == FirstPage(s, n)
  {
    hide Sound, IndexFor, TakenAt, AllocSmall, Adopted, FromZone, Opened, Unspared, Rounded, ChunksIn, PagesFor;
    if 0 < n < Limit(s.zoneSize) {
      SmallCases(s, n);
    }
  }

  /**
   A request for a power of two up to the page size is aligned to it.  A larger one is aligned exactly when the
   page happens to be that the listed zone, the spare zone or the run begins with that serves it.
   */
  lemma AllocAligned(s: State, n: nat, base: nat)
    requires Sound(s) && PowerOfTwo(n) && base % PAGE == 0
    ensures Alloc(s, n).pointer != Null <==> FirstPage(s, n) >= 0
    ensures n > 0
    ensures FirstPage(s, n) >= 0 ==>
              var address := base + Address(Alloc(s, n).state, Alloc(s, n).pointer);
              && (address % n == 0 <==> (base + FirstPage(s, n) * PAGE) % n == 0)
              && (n <= PAGE ==> address % n == 0)
  {
    hide PowerOfTwo, FirstPage, Alloc, Address, Sound;
    PowerPositive(n);
    FirstPageIs(s, n);
    if FirstPage(s, n) >= 0 {
      AddressRemainder(s, n, base);
      if n <= PAGE {
        PowerDividesPage(n, base / PAGE + FirstPage(s, n));
        assert base == base / PAGE * PAGE;
        assert (base / PAGE + FirstPage(s, n)) * PAGE == base + FirstPage(s, n) * PAGE;
      }
    }
  }

  lemma PowerPositive(n: nat)
    requires PowerOfTwo(n)
    ensures n > 0
  {
  }

  lemma AddressRemainder(s: State, n: nat, base: nat)
    requires Sound(s) && n > 0 && PowerOfTwo(n) && Alloc(s, n).pointer != Null
    ensures var r, p := Alloc(s, n).state, Alloc(s, n).pointer;
            (base + Address(r, p)) % n == (base + AreaOf(p) * PAGE) % n && (n <= PAGE ==> p.Chunk?)
  {
    ZoneLimits(s);
    hide AllocSmall, PowerOfTwo, Offset, Rounded, Sound, Limit;
    if n < Limit(s.zoneSize) {
      hide Address, AllocLarge;
      var p := AllocSmall(s, n).pointer;
      SmallAddress(s, n);
      ChunkRemainder(base + p.zone * PAGE, p.k, n);
    }
  }

  lemma ZoneLimits(s: State)
    requires Sound(s)
    ensures PAGE < Limit(s.zoneSize) <= ZONE_LIMIT
  {
  }

  /**
   For larger powers of two it does happen otherwise: on a heap of 100 pages with zones of 32K, whose page table
   takes page 0, the first request for 8192 bytes of memory, small (by its class) or large, is not aligned to 8192.
   */
  lemma NotAlways(usage: seq<Usage>)
    requires |usage| == 100
    ensures var s := Start(100, 32768, 1, usage);
            && Sound(s) && PowerOfTwo(8192)
            && Rounded(8000) == 8192 && Alloc(s, 8000).pointer == Chunk(1, 0)
            && Address(Alloc(s, 8000).state, Chunk(1, 0)) % 8192 == 4096
            && Alloc(s, 8192).pointer == Pages(1) && Address(Alloc(s, 8192).state, Pages(1)) % 8192 == 4096
  {
    var s := Start(100, 32768, 1, usage);
    StartSound(100, 32768, 1, usage);
    FirstFree();
    Eight();
    assert s.runs == [Run(1, 99)] && s.lists == seq(CLASSES, _ => []) && s.spare == [];
    assert TakenAt(s.runs, 8) == 1 && TakenAt(s.runs, 2) == 1;
    hide Sound, PowerOfTwo, TakenAt, Taken, Fit, Start, Alloc, Address, Offset, Rounded, ChunkSize;
    ChunkAstray(s);
    PagesAstray(s);
  }

  lemma ChunkAstray(s: State)
    requires Sound(s) && s.zoneSize == 32768 && s.lists == seq(CLASSES, _ => []) && s.spare == []
    requires TakenAt(s.runs, 8) == 1 && Rounded(8000) == 8192 && Offset(8192) == 8192
    ensures Alloc(s, 8000).pointer == Chunk(1, 0) && Address(Alloc(s, 8000).state, Chunk(1, 0)) % 8192 == 4096
  {
    assert Limit(32768) == 8192 && ZonePages(s) == 8;
    hide Sound, TakenAt, Offset, Address, ChunkSize, AllocLarge, AllocSmall, Opened, Unspared, Adopted, FromZone;
    SmallCases(s, 8000);
    SmallAddress(s, 8000);
  }

  lemma PagesAstray(s: State)
    requires Sound(s) && s.zoneSize == 32768 && TakenAt(s.runs, 2) == 1
    ensures Alloc(s, 8192).pointer == Pages(1) && Address(Alloc(s, 8192).state, Pages(1)) % 8192 == 4096
  {
    assert Limit(32768) == 8192 && PagesFor(8192) == 2;
    hide Sound, TakenAt, AllocSmall;
  }

  lemma FirstFree()
    ensures Taken([Run(0, 100)], 1) == [Run(1, 99)]
    ensures TakenAt([Run(1, 99)], 8) == 1 && TakenAt([Run(1, 99)], 2) == 1
  {
  }

  lemma Eight()
    ensures PowerOfTwo(8192) && Rounded(8000) == 8192 && Offset(8192) == 8192
  {
    assert PowerOfTwo(2048) by { assert PowerOfTwo(4) && PowerOfTwo(16) && PowerOfTwo(64) && PowerOfTwo(256); }
    hide PowerOfTwo;
    PowerDoubled(2048);
    PowerDoubled(4096);
  }

  lemma PowerDoubled(n: nat)
    requires PowerOfTwo(n)
    ensures PowerOfTwo(2 * n)
  {
  }
}
