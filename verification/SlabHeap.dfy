/**
 The slab allocator in place, on top of the page list.  Zone headers are kept by the zone's first page, and
 the lists of zones and of free chunks as sequences of their numbers.
 */
module SlabHeap {

  import opened WaitList
  import opened Chains
  import opened SlabSizes
  import opened SlabPages
  import opened SlabZones
  import opened SlabLaws

  class Slab {
    const pages: PageList
    const usage: array<Usage>
    const lists: array<seq<nat>>
    const zoneSize: nat
    var zones: map<nat, Zone>
    var spare: seq<nat>
    var spareCount: nat
    ghost var areas: map<nat, nat>

    ghost function Value(): State
      reads this, pages, usage, lists
    {
      State(pages.total, zoneSize, pages.runs, usage[..], zones, lists[..], spare, areas)
    }

    /** The page list is in order and the spare zones are counted. */
    ghost predicate Shaped()
      reads this, pages, pages.next, pages.count, usage, lists
    {
      pages.Valid() && usage.Length == pages.total && lists.Length == CLASSES && spareCount == |spare|
    }

    ghost predicate Valid()
      reads this, pages, pages.next, pages.count, usage, lists
    {
      Shaped() && Sound(Value())
    }

    /** rt_slab_init on a heap of `total` pages, whose table has an entry of 4 bytes for each. */
    constructor (total: nat, zone: nat)
      requires ReachableZone(zone) && total > 0
      ensures Valid() && fresh(pages) && fresh(pages.next) && fresh(pages.count) && fresh(usage) && fresh(lists)
      ensures 0 < TablePages(total) <= total && Value() == Start(total, zone, TablePages(total), usage[..])
    {
      var p := new PageList(total);
      var ls := new seq<nat>[CLASSES](_ => []);
      var us := new Usage[total](_ => FreePage);
      pages, lists, usage, zoneSize := p, ls, us, zone;
      zones, spare, spareCount, areas := map[], [], 0, map[];
      new;
      var table := TablePages(total);
      TableFits(total);
      var _ := pages.Take(table);
      StartSound(total, zone, table, usage[..]);
      assert lists[..] == seq(CLASSES, _ => []);
      assert Value() == Start(total, zone, table, usage[..]);
    }

    /** The first listed zone of class i hands a chunk out, and leaves its list if that was the last. */
    method HandOut(i: nat) returns (a: nat, k: nat)
      requires Shaped() && ListsSound(Value()) && i < CLASSES && lists[i] != []
      modifies this`zones, lists
      ensures old(lists[i][0]) in old(zones) && a == old(lists[i][0])
      ensures var z := old(zones[lists[i][0]]);
              z.nfree > 0 && (z.uindex + 1 == z.nmax ==> z.chunks != []) && k == NextChunk(z)
      ensures Shaped() && Value() == FromZone(old(Value()), i)
    {
      FromZoneLists(Value(), i);
      hide ListsSound, ZoneSound, Handing, NextChunk;
      a := lists[i][0];
      var z;
      z, k := FromHeader(zones[a]);
      if z.nfree == 0 {
        lists[i] := lists[i][1..];
      }
      zones := zones[a := z];
    }

    /** What a hand-out does to the zone header. */
    static method FromHeader(zone: Zone) returns (z: Zone, k: nat)
      requires zone.nfree > 0 && (zone.uindex + 1 == zone.nmax ==> zone.chunks != [])
      ensures z == Handing(zone) && k == NextChunk(zone)
      ensures z.nfree == zone.nfree - 1
    {
      z := zone.(nfree := zone.nfree - 1);
      if z.uindex + 1 != z.nmax {
        z := z.(uindex := z.uindex + 1);
        k := z.uindex;
      } else {
        k := z.chunks[0];
        z := z.(chunks := z.chunks[1..]);
      }
    }

    method Adopt(a: nat, i: nat, size: nat)
      requires Shaped() && i < CLASSES && size > 0 && ChunksIn(zoneSize, size) >= 1
      modifies this`zones, lists
      ensures Shaped() && Value() == Adopted(old(Value()), a, i, size)
    {
      hide Offset;
      var off := Offset(size);
      var nmax := (zoneSize - off) / size;
      zones := zones[a := Zone(i, nmax, nmax - 1, 0, [])];
      lists[i] := [a] + lists[i];
    }

    /** The pages of a new zone are taken, and each is marked with its distance from the first. */
    method Open() returns (a: int)
      requires Shaped() && ZonePages(Value()) > 0
      modifies this`areas, this`spare, this`spareCount, pages`list, pages`runs, pages.next, pages.count, usage
      ensures Shaped() && a == TakenAt(old(pages.runs), zoneSize / PAGE)
      ensures Value() == if a < 0 then old(Value()) else Opened(old(Value()))
    {
      hide Chain, Canonical, TakenAt, Taken;
      ghost var runs := pages.runs;
      var n := zoneSize / PAGE;
      TakenInHeap(runs, pages.total, n);
      a := pages.Take(n);
      if a < 0 {
        return;
      }
      var off := 0;
      while off < n
        invariant off <= n && pages.Valid() && pages.runs == Taken(runs, n)
        invariant spare == old(spare) && spareCount == old(spareCount) && areas == old(areas)
        invariant usage[..] == Marked(old(usage[..]), a, off)
      {
        usage[a + off] := Small(off);
        off := off + 1;
      }
      spare := [a] + spare;
      spareCount := spareCount + 1;
      areas := areas[a := n];
    }

    method TakeSpare() returns (a: nat)
      requires Shaped() && spare != []
      modifies this`spare, this`spareCount
      ensures Shaped() && a == old(spare[0]) && Value() == Unspared(old(Value()))
    {
      a := spare[0];
      spare := spare[1..];
      spareCount := spareCount - 1;
    }

    /** A zone to lay out: a spare one if there is one, or one made of free pages. */
    method FindZone() returns (a: int)
      requires Shaped() && ZonePages(Value()) > 0
      modifies this`spare, this`spareCount, this`areas, pages`list, pages`runs, pages.next, pages.count, usage
      ensures Shaped()
      ensures old(spare) != [] ==> a == old(spare[0]) && Value() == Unspared(old(Value()))
      ensures old(spare) == [] ==> a == TakenAt(old(pages.runs), zoneSize / PAGE)
      ensures old(spare) == [] ==> Value() == if a < 0 then old(Value()) else Unspared(Opened(old(Value())))
    {
      hide TakenAt, Opened, Unspared, Canonical, Chain;
      if spare != [] {
        a := TakeSpare();
      } else {
        a := Open();
        if a >= 0 {
          OpenedSpare(old(Value()));
          var _ := TakeSpare();
        }
      }
    }

    /** The small half of rt_slab_alloc; the chunk's address follows from its zone and number. */
    method AllocateSmall(n: nat) returns (ghost p: Pointer, address: int)
      requires Valid() && 0 < n < Limit(zoneSize)
      modifies this`zones, this`spare, this`spareCount, this`areas, lists, pages`list, pages`runs, pages.next, pages.count, usage
      ensures Shaped() && Value() == AllocSmall(old(Value()), n).state && p == AllocSmall(old(Value()), n).pointer
      ensures address == AddressOf(Value(), p)
    {
      hide Sound, AllocSmall, Rounded, IndexFor, ChunkSize, Offset, FromZone, ZoneSound, ListsSound, Address, TakenAt, Opened, Unspared;
      ghost var s := Value();
      SmallCases(s, n);
      var i, size := ZoneIndex(n);
      if lists[i] != [] {
        var a, k := HandOut(i);
        HandedAddress(s, i, n);
        p, address := Chunk(a, k), a * PAGE + Offset(size) + k * size;
      } else {
        var a := FindZone();
        if a < 0 {
          p, address := Null, NIL;
        } else {
          Adopt(a, i, size);
          AdoptedAddress(Value(), a, i, size, n);
          p, address := Chunk(a, 0), a * PAGE + Offset(size);
        }
      }
    }

    method AllocateLarge(n: nat) returns (ghost p: Pointer, address: int)
      requires Valid() && n > 0
      modifies this`areas, pages`list, pages`runs, pages.next, pages.count, usage
      ensures Shaped() && Value() == AllocLarge(old(Value()), n).state && p == AllocLarge(old(Value()), n).pointer
      ensures address == AddressOf(Value(), p)
    {
      hide Sound, TakenAt, Taken, Canonical, Chain, PagesFor;
      PagesForIs(n);
      LargeInTable(Value(), n);
      ghost var runs := pages.runs;
      TakenInHeap(runs, pages.total, PagesFor(n));
      var count := PagesFor(n);
      var a := pages.Take(count);
      if a < 0 {
        return Null, NIL;
      }
      usage[a] := Large(count);
      areas := areas[a := count];
      p, address := Pages(a), a * PAGE;
    }

    /** rt_slab_alloc */
    method Allocate(n: nat) returns (ghost p: Pointer, address: int)
      requires Valid()
      modifies this`zones, this`spare, this`spareCount, this`areas, lists, pages`list, pages`runs, pages.next, pages.count, usage
      ensures Valid() && Value() == Alloc(old(Value()), n).state && p == Alloc(old(Value()), n).pointer
      ensures address == AddressOf(Value(), p)
    {
      hide Sound, AllocSmall, AllocLarge, AddressOf;
      AllocMeaning(Value(), n);
      ZoneIsReachable(Value());
      if n == 0 {
        p, address := Null, NIL;
        NullAddress(Value());
      } else if n >= Limit(zoneSize) {
        p, address := AllocateLarge(n);
      } else {
        p, address := AllocateSmall(n);
      }
    }

    /** The zone's pages are unmarked and go back to the page list. */
    method ReleaseSpare()
      requires Shaped() && spare != [] && ZonePages(Value()) > 0 && NoneFree(pages.runs, spare[0], ZonePages(Value()))
      requires spare[0] + ZonePages(Value()) <= pages.total
      modifies this`spare, this`spareCount, this`areas, pages`list, pages`runs, pages.next, pages.count, usage
      ensures Shaped() && Value() == Released(old(Value()))
    {
      hide Chain, Canonical, NoneFree, Given;
      var n := zoneSize / PAGE;
      var z := TakeSpare();
      var i := 0;
      while i < n
        invariant i <= n && pages.Valid() && pages.runs == old(pages.runs)
        invariant spare == old(spare[1..]) && spareCount == |spare| && areas == old(areas)
        invariant usage[..] == Cleared(old(usage[..]), z, i)
      {
        usage[z + i] := FreePage;
        i := i + 1;
      }
      pages.Give(z, n);
      areas := areas - {z};
    }

    /** Walking the list of a class to the zone and taking it off. */
    method Unlist(i: nat, a: nat)
      requires i < lists.Length && a in lists[i]
      modifies lists
      ensures lists[..] == old(lists[..])[i := Dropped(old(lists[i]), a)]
    {
      var q := lists[i];
      var k := 0;
      while q[k] != a
        invariant k < |q| && forall j :: 0 <= j < k ==> q[j] != a
        decreases |q| - k
      {
        k := k + 1;
      }
      DroppedAt(q, a, k);
      lists[i] := q[..k] + q[k + 1..];
    }

    /** A chunk goes back to its zone. */
    method PutBack(a: nat, k: nat)
      requires Shaped() && a in zones && zones[a].index < CLASSES
      modifies this`zones, lists
      ensures Shaped() && Value() == Returned(old(Value()), a, k)
    {
      var z := zones[a];
      var full := z.nfree == 0;
      z := z.(chunks := [k] + z.chunks, nfree := z.nfree + 1);
      zones := zones[a := z];
      if full {
        lists[z.index] := [a] + lists[z.index];
      }
    }

    method SetAside(a: nat)
      requires Shaped() && a in zones && zones[a].index < CLASSES && a in lists[zones[a].index]
      modifies this`zones, this`spare, this`spareCount, lists
      ensures Shaped() && Value() == Spared(old(Value()), a)
    {
      var i := zones[a].index;
      Unlist(i, a);
      zones := zones - {a};
      spare := [a] + spare;
      spareCount := spareCount + 1;
    }

    method FreeInZone(a: nat, k: nat)
      requires Valid() && Live(Value(), Chunk(a, k))
      modifies this`zones, this`spare, this`spareCount, this`areas, lists, pages`list, pages`runs, pages.next, pages.count, usage
      ensures Shaped() && Value() == FreeChunk(old(Value()), a, k)
    {
      ChunkCases(Value(), a, k);
      hide Sound, Live, FreeChunk, Returned, Spared, Released, NoneFree;
      ghost var s := Value();
      PutBack(a, k);
      var z := zones[a];
      if z.nfree == z.nmax && lists[z.index] != [a] {
        SetAside(a);
        if spareCount > RELEASE_THRESHOLD {
          ReleaseSpare();
        }
      }
    }

    method FreeArea(page: nat, n: nat)
      requires Valid() && Live(Value(), Pages(page)) && page < usage.Length && usage[page] == Large(n)
      modifies this`areas, pages`list, pages`runs, pages.next, pages.count, usage
      ensures Shaped() && page in old(areas) && Value() == ClosedLarge(old(Value()), page)
    {
      RecoverZone(Value(), Pages(page));
      LargeArea(Value(), page);
      hide Sound, Live, Address, Given, NoneFree, Chain, Canonical;
      usage[page] := Large(0);
      pages.Give(page, n);
      areas := areas - {page};
    }

    method FreeAddress(address: nat, a: nat, ghost k: nat)
      requires Valid() && Live(Value(), Chunk(a, k)) && address == Address(Value(), Chunk(a, k))
      modifies this`zones, this`spare, this`spareCount, this`areas, lists, pages`list, pages`runs, pages.next, pages.count, usage
      ensures Shaped() && Value() == FreeChunk(old(Value()), a, k)
    {
      ChunkNumber(Value(), a, k);
      hide Sound, Live, Address, FreeChunk, ChunkSize, Offset;
      var size := ChunkSize(zones[a].index);
      FreeInZone(a, (address - a * PAGE - Offset(size)) / size);
    }

    /** rt_slab_free: the page table tells a chunk from a large block, and where its zone begins. */
    method Release(address: nat, ghost p: Pointer)
      requires Valid() && Live(Value(), p) && address == Address(Value(), p)
      modifies this`zones, this`spare, this`spareCount, this`areas, lists, pages`list, pages`runs, pages.next, pages.count, usage
      ensures Valid() && Value() == Free(old(Value()), p)
    {
      hide Sound, Live, Address, FreeChunk, ClosedLarge, Free, Loses, Chain, Canonical;
      RecoverZone(Value(), p);
      FreeMeaning(Value(), p);
      FreeIs(Value(), p);
      var page := address / PAGE;
      if usage[page].Large? {
        FreeArea(page, usage[page].pages);
      } else {
        FreeAddress(address, page - usage[page].offset, p.k);
      }
    }
  }

  lemma FreeIs(s: State, p: Pointer)
    requires Sound(s) && Live(s, p)
    ensures p == Chunk(AreaOf(p), if p.Chunk? then p.k else 0) || p == Pages(AreaOf(p))
    ensures p.Pages? ==> p.start in s.areas && p.start < |s.usage| && Free(s, p) == ClosedLarge(s, p.start)
    ensures p.Chunk? ==> Free(s, p) == FreeChunk(s, p.zone, p.k)
  {
    hide AreasSound, UsageSound, ListsSound, Handed, FreeChunk, ClosedLarge;
    if p.Pages? {
      ClosedLargeSound(s, p.start);
    }
  }

  lemma {:induction false} DroppedAt(q: seq<nat>, a: nat, k: nat)
    requires k < |q| && q[k] == a && forall j :: 0 <= j < k ==> q[j] != a
    ensures Dropped(q, a) == q[..k] + q[k + 1..]
  {
    if k > 0 {
      DroppedAt(q[1..], a, k - 1);
    }
  }

  /** What happens on the way of a chunk back into its zone, and perhaps of the zone back to the pages. */
  lemma ChunkCases(s: State, a: nat, k: nat)
    requires Sound(s) && Live(s, Chunk(a, k))
    ensures a in s.zones && s.zones[a].index < |s.lists| && |s.lists| == CLASSES && ZonePages(s) > 0
    ensures var r := Returned(s, a, k);
            a in r.zones && r.zones[a].index < CLASSES == |r.lists| && a in r.lists[r.zones[a].index]
            && FreeChunk(s, a, k)
               == (if r.zones[a].nfree == r.zones[a].nmax && r.lists[r.zones[a].index] != [a]
                   then if |Spared(r, a).spare| > RELEASE_THRESHOLD then Released(Spared(r, a)) else Spared(r, a)
                   else r)
            && Spared(r, a).spare != [] && Spared(r, a).spare[0] == a && a + ZonePages(s) <= s.total
            && NoneFree(Spared(r, a).runs, a, ZonePages(s))
  {
    ReturnedMeaning(s, a, k);
    ZonePagesPositive(s);
    ZoneArea(s, a);
    hide AreasSound, UsageSound, ListsSound, Handed, NoneFree;
  }

  lemma ZoneArea(s: State, a: nat)
    requires Sound(s) && a in s.zones
    ensures a + ZonePages(s) <= s.total && NoneFree(s.runs, a, ZonePages(s)) && |s.lists| == CLASSES
  {
    hide ListsSound, Canonical, Separate, Recorded;
    assert IsZone(s, a) && a in s.areas;
    assert |s.lists| == CLASSES by { ListCount(s); }
  }

  lemma ListCount(s: State)
    requires ListsSound(s)
    ensures |s.lists| == CLASSES
  {
  }

  lemma LargeArea(s: State, a: nat)
    requires Sound(s) && Live(s, Pages(a))
    ensures a in s.areas && s.areas[a] > 0 && a + s.areas[a] <= s.total && NoneFree(s.runs, a, s.areas[a])
  {
    hide ListsSound, UsageSound, Canonical, Separate, Recorded;
  }

  /** The number of a chunk from its address. */
  lemma ChunkNumber(s: State, a: nat, k: nat)
    requires Sound(s) && Live(s, Chunk(a, k))
    ensures a in s.zones && ChunkSize(s.zones[a].index) > 0
    ensures Address(s, Chunk(a, k)) - a * PAGE - Offset(ChunkSize(s.zones[a].index)) == k * ChunkSize(s.zones[a].index)
    ensures k * ChunkSize(s.zones[a].index) / ChunkSize(s.zones[a].index) == k
  {
    hide AreasSound, UsageSound, ListsSound, Offset, ChunkSize, Handed, Distinct, InRange;
    ZoneIsSound(s, a);
    ChunkSizePositive(s.zones[a].index);
    ProductQuotient(k, ChunkSize(s.zones[a].index));
  }

  lemma MultipleSize(d: int, size: nat)
    ensures d >= 1 ==> d * size >= size
    ensures d <= -1 ==> d * size + size <= 0
  {
  }

  lemma ProductQuotient(k: nat, size: nat)
    requires size > 0
    ensures k * size / size == k
  {
    var q := k * size / size;
    assert k * size == q * size + k * size % size;
    assert (k - q) * size == k * size - q * size;
    MultipleSize(k - q, size);
  }

  /** A large allocation begins at a page that the page table has. */
  lemma LargeInTable(s: State, n: nat)
    requires Sound(s) && n > 0
    ensures TakenAt(s.runs, PagesFor(n)) < |s.usage| == s.total && Canonical(s.runs, s.total)
  {
    PagesForIs(n);
    if TakenAt(s.runs, PagesFor(n)) >= 0 {
      OpenedLargeSound(s, PagesFor(n));
    }
  }

  lemma ZoneIsReachable(s: State)
    requires Sound(s)
    ensures ReachableZone(s.zoneSize)
  {
  }

  lemma NullAddress(s: State)
    ensures AddressOf(s, Null) == NIL
  {
  }

  lemma OpenedSpare(s: State)
    requires TakenAt(s.runs, ZonePages(s)) >= 0
    ensures Opened(s).spare != []
  {
  }

  /** The address that is handed out for a pointer, or NIL. */
  function AddressOf(s: State, p: Pointer): int {
    if p == Null then NIL else Address(s, p)
  }

  /** The three sources of a chunk, in the order in which they are tried. */
  lemma SmallCases(s: State, n: nat)
    requires Sound(s) && 0 < n < Limit(s.zoneSize)
    ensures ListsSound(s) && |s.lists| == CLASSES && 0 <= IndexFor(n) < CLASSES && ZonePages(s) > 0
    ensures Rounded(n) > 0 && ChunksIn(s.zoneSize, Rounded(n)) >= 1
    ensures s.lists[IndexFor(n)] != [] ==>
              var a := s.lists[IndexFor(n)][0];
              a in s.zones && (s.zones[a].uindex + 1 == s.zones[a].nmax ==> s.zones[a].chunks != []) && s.zones[a].nfree > 0
              && AllocSmall(s, n) == Outcome(FromZone(s, IndexFor(n)), Chunk(a, NextChunk(s.zones[a])))
    ensures s.lists[IndexFor(n)] == [] && s.spare != [] ==>
              AllocSmall(s, n) == Outcome(Adopted(Unspared(s), s.spare[0], IndexFor(n), Rounded(n)), Chunk(s.spare[0], 0))
    ensures s.lists[IndexFor(n)] == [] && s.spare == [] && TakenAt(s.runs, ZonePages(s)) >= 0 ==>
              AllocSmall(s, n) == Outcome(Adopted(Unspared(Opened(s)), TakenAt(s.runs, ZonePages(s)), IndexFor(n), Rounded(n)),
                                          Chunk(TakenAt(s.runs, ZonePages(s)), 0))
    ensures s.lists[IndexFor(n)] == [] && s.spare == [] && TakenAt(s.runs, ZonePages(s)) < 0 ==>
              AllocSmall(s, n) == Outcome(s, Null)
  {
    FreshSound(s.zoneSize, n);
    if s.lists[IndexFor(n)] != [] {
      FromZoneLists(s, IndexFor(n));
    }
  }

  lemma HandedAddress(s: State, i: nat, n: nat)
    requires Sound(s) && 0 < n < ZONE_LIMIT && i == IndexFor(n) < |s.lists| && s.lists[i] != []
    ensures s.lists[i][0] in s.zones
    ensures var a, z := s.lists[i][0], s.zones[s.lists[i][0]];
            z.nfree > 0 && (z.uindex + 1 == z.nmax ==> z.chunks != []) && Rounded(n) > 0
            && Address(FromZone(s, i), Chunk(a, NextChunk(z))) == a * PAGE + Offset(Rounded(n)) + NextChunk(z) * Rounded(n)
  {
    BestClass(n);
    FromZoneLists(s, i);
    ListedIs(s, i, s.lists[i][0]);
    hide Sound, Offset, ChunkSize, Rounded, IndexFor, ZoneSound;
  }

  lemma AdoptedAddress(r: State, a: nat, i: nat, size: nat, n: nat)
    requires 0 < n < ZONE_LIMIT && i == IndexFor(n) && size == Rounded(n)
    requires a in r.zones && r.zones[a].index == i
    ensures size > 0 && Address(r, Chunk(a, 0)) == a * PAGE + Offset(size)
  {
    BestClass(n);
    hide Offset, ChunkSize, Rounded, IndexFor;
  }

  lemma TableFits(total: nat)
    requires total > 0
    ensures 0 < TablePages(total) <= total
  {
    PagesForIs(total * 4);
  }

  /** Either no room is found and the list stays, or the pages lie in the heap. */
  lemma TakenInHeap(runs: seq<Run>, total: nat, n: nat)
    requires Canonical(runs, total) && n > 0
    ensures TakenAt(runs, n) < 0 ==> Taken(runs, n) == runs
    ensures TakenAt(runs, n) >= 0 ==> TakenAt(runs, n) + n <= total
  {
    if Fit(runs, n) < |runs| {
      TakenCanonical(runs, total, n);
    }
  }
}
