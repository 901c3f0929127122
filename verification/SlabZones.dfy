/**
 The zones of slab.c: each holds chunks of one size, handed out first in address order and then from a list
 of freed chunks.  Zones and large allocations take their pages from the page list.
 */
module SlabZones {

  import opened WaitList
  import opened Chains
  import opened SlabSizes
  import opened SlabPages

  const RELEASE_THRESHOLD: nat := 2

  /** A zone header; `chunks` is the list that z_freechunk begins. */
  datatype Zone = Zone(index: nat, nmax: nat, nfree: nat, uindex: nat, chunks: seq<nat>)

  /** An entry of memusage.  Of a large allocation only the first page says so. */
  datatype Usage = FreePage | Small(offset: nat) | Large(pages: nat)

  datatype Pointer = Null | Chunk(zone: nat, k: nat) | Pages(start: nat)

  /**
   `lists` are the zones of each class that have free chunks, `spare` the free zones that are kept, and
   `areas` the pages in use: the first page of each zone or large allocation, and how many there are.
   */
  datatype State = State(total: nat, zoneSize: nat, runs: seq<Run>, usage: seq<Usage>, zones: map<nat, Zone>,
                         lists: seq<seq<nat>>, spare: seq<nat>, areas: map<nat, nat>)

  function ZonePages(s: State): nat {
    s.zoneSize / PAGE
  }

  // ---------------------------------------------------------------- one zone

  /** How many chunks have been handed out before or are handed out now. */
  predicate ZoneSound(z: Zone, zoneSize: nat) {
    z.index < CLASSES && ChunkSize(z.index) <= Limit(zoneSize)
    && z.nmax == ChunksIn(zoneSize, ChunkSize(z.index)) && z.nmax >= 2
    && z.uindex < z.nmax && Distinct(z.chunks) && InRange(z.chunks, z.uindex + 1)
    && z.nfree == z.nmax - 1 - z.uindex + |z.chunks|
  }

  predicate Handed(z: Zone, k: nat) {
    k <= z.uindex && k !in z.chunks
  }

  /** Which chunk a zone with free chunks hands out next: an untouched one while there is one. */
  function NextChunk(z: Zone): nat
    requires z.uindex + 1 == z.nmax ==> z.chunks != []
  {
    if z.uindex + 1 != z.nmax then z.uindex + 1 else z.chunks[0]
  }

  function Handing(z: Zone): Zone
    requires z.nfree > 0 && (z.uindex + 1 == z.nmax ==> z.chunks != [])
  {
    if z.uindex + 1 != z.nmax then z.(nfree := z.nfree - 1, uindex := z.uindex + 1)
    else z.(nfree := z.nfree - 1, chunks := z.chunks[1..])
  }

  function Returning(z: Zone, k: nat): Zone {
    z.(nfree := z.nfree + 1, chunks := [k] + z.chunks)
  }

  function FreshZone(zoneSize: nat, index: nat, size: nat): Zone
    requires size > 0 && ChunksIn(zoneSize, size) >= 1
  {
    Zone(index, ChunksIn(zoneSize, size), ChunksIn(zoneSize, size) - 1, 0, [])
  }

  /** A zone that says it has free chunks has one to give, and gives one that nobody holds. */
  lemma HandingSound(z: Zone, zoneSize: nat)
    requires ZoneSound(z, zoneSize) && z.nfree > 0
    ensures z.uindex + 1 == z.nmax ==> z.chunks != []
    ensures ZoneSound(Handing(z), zoneSize) && !Handed(z, NextChunk(z)) && NextChunk(z) < z.nmax
    ensures forall k :: 0 <= k ==> (Handed(Handing(z), k) <==> Handed(z, k) || k == NextChunk(z))
  {
    if z.uindex + 1 == z.nmax {
      var q := z.chunks[1..];
      assert forall i :: 0 <= i < |q| ==> q[i] == z.chunks[i + 1];
      assert forall k :: k in z.chunks <==> k == z.chunks[0] || k in q;
    }
  }

  lemma ReturningSound(z: Zone, zoneSize: nat, k: nat)
    requires ZoneSound(z, zoneSize) && Handed(z, k)
    ensures ZoneSound(Returning(z, k), zoneSize) && z.nfree < z.nmax
    ensures forall j :: 0 <= j ==> (Handed(Returning(z, k), j) <==> Handed(z, j) && j != k)
  {
    var q := [k] + z.chunks;
    assert forall i :: 1 <= i < |q| ==> q[i] == z.chunks[i - 1];
    assert forall j :: j in q <==> j == k || j in z.chunks;
    Missing(z.chunks, z.uindex + 1, k);
  }

  lemma FreshSound(zoneSize: nat, n: nat)
    requires ReachableZone(zoneSize) && 0 < n < Limit(zoneSize)
    ensures 0 <= IndexFor(n) < CLASSES && n <= Rounded(n) == ChunkSize(IndexFor(n)) <= Limit(zoneSize)
    ensures ChunksIn(zoneSize, Rounded(n)) >= 2
    ensures ZoneSound(FreshZone(zoneSize, IndexFor(n), Rounded(n)), zoneSize)
    ensures forall k :: 0 <= k ==> (Handed(FreshZone(zoneSize, IndexFor(n), Rounded(n)), k) <==> k == 0)
  {
    BestClass(n);
    LimitIsClass(zoneSize, n);
    AtLeastTwo(zoneSize, Rounded(n));
  }

  /** The limit is itself a chunk size, so rounding up does not pass it. */
  lemma LimitIsClass(zoneSize: nat, n: nat)
    requires ReachableZone(zoneSize) && 0 < n < Limit(zoneSize)
    ensures Rounded(n) <= Limit(zoneSize)
  {
    BestClass(n);
    hide IndexFor, Rounded;
    if zoneSize == 32768 {
      assert ChunkSize(63) == 8192;
      Increasing(IndexFor(n), 63);
    } else {
      Increasing(IndexFor(n), 71);
    }
  }

  // ---------------------------------------------------------------- which pages belong to what

  predicate Separate(areas: map<nat, nat>) {
    forall a, b :: a in areas && b in areas && a != b ==> a + areas[a] <= b || b + areas[b] <= a
  }

  /** The pages in use lie apart from each other and from the free ones. */
  ghost predicate AreasSound(s: State) {
    Canonical(s.runs, s.total) && Separate(s.areas)
    && forall a :: a in s.areas ==> s.areas[a] > 0 && a + s.areas[a] <= s.total && NoneFree(s.runs, a, s.areas[a])
  }

  predicate IsZone(s: State, a: nat) {
    a in s.zones || a in s.spare
  }

  /** The page table leads from every page of a zone to its first page, and knows the size of large allocations. */
  ghost predicate UsageSound(s: State) {
    |s.usage| == s.total
    && (forall a :: a in s.areas && IsZone(s, a) ==> s.areas[a] == ZonePages(s))
    && (forall a :: a in s.areas && a + s.areas[a] <= s.total ==> Recorded(s, a))
    && (forall a :: a in s.zones || a in s.spare ==> a in s.areas)
  }

  predicate Recorded(s: State, a: nat)
    requires a in s.areas && a + s.areas[a] <= |s.usage|
  {
    if IsZone(s, a) then forall o :: 0 <= o < s.areas[a] ==> s.usage[a + o] == Small(o)
    else s.areas[a] > 0 ==> s.usage[a] == Large(s.areas[a])
  }

  /** The lists hold exactly the zones in use that have free chunks, each under its class. */
  ghost predicate ListsSound(s: State) {
    |s.lists| == CLASSES && Distinct(s.spare) && |s.spare| <= RELEASE_THRESHOLD
    && (forall i :: 0 <= i < CLASSES ==> Distinct(s.lists[i]))
    && (forall a :: a in s.spare ==> a !in s.zones)
    && (forall a :: a in s.zones ==> ZoneSound(s.zones[a], s.zoneSize))
    && (forall i, a :: 0 <= i < CLASSES ==> (a in s.lists[i] <==> Listed(s, i, a)))
  }

  predicate Listed(s: State, i: int, a: nat) {
    a in s.zones && s.zones[a].index == i && s.zones[a].nfree > 0
  }

  ghost predicate Sound(s: State) {
    ReachableZone(s.zoneSize) && AreasSound(s) && UsageSound(s) && ListsSound(s)
  }

  predicate Live(s: State, p: Pointer) {
    match p
    case Null => false
    case Chunk(z, k) => z in s.zones && Handed(s.zones[z], k)
    case Pages(a) => a in s.areas && !IsZone(s, a)
  }

  // ---------------------------------------------------------------- the operations

  function Marked(usage: seq<Usage>, a: nat, n: nat): (u: seq<Usage>)
    ensures |u| == |usage|
    ensures forall p :: 0 <= p < |usage| ==> u[p] == if a <= p < a + n then Small(p - a) else usage[p]
  {
    seq(|usage|, p requires 0 <= p < |usage| => if a <= p < a + n then Small(p - a) else usage[p])
  }

  function Cleared(usage: seq<Usage>, a: nat, n: nat): (u: seq<Usage>)
    ensures |u| == |usage|
    ensures forall p :: 0 <= p < |usage| ==> u[p] == if a <= p < a + n then FreePage else usage[p]
  {
    seq(|usage|, p requires 0 <= p < |usage| => if a <= p < a + n then FreePage else usage[p])
  }

  /** A chunk from the first zone on the list of class i. */
  function FromZone(s: State, i: nat): State
    requires i < |s.lists| && s.lists[i] != [] && s.lists[i][0] in s.zones
    requires var z := s.zones[s.lists[i][0]]; z.nfree > 0 && (z.uindex + 1 == z.nmax ==> z.chunks != [])
  {
    var a := s.lists[i][0];
    var z := Handing(s.zones[a]);
    s.(zones := s.zones[a := z], lists := if z.nfree == 0 then s.lists[i := s.lists[i][1..]] else s.lists)
  }

  /** A zone is laid out at page a for chunks of `size` bytes, and its first chunk is handed out. */
  function Adopted(s: State, a: nat, i: nat, size: nat): State
    requires i < |s.lists| && size > 0 && ChunksIn(s.zoneSize, size) >= 1
  {
    s.(zones := s.zones[a := FreshZone(s.zoneSize, i, size)], lists := s.lists[i := [a] + s.lists[i]])
  }

  function Unspared(s: State): State
    requires s.spare != []
  {
    s.(spare := s.spare[1..])
  }

  /** The pages of a new zone. */
  function Opened(s: State): State
    requires TakenAt(s.runs, ZonePages(s)) >= 0
  {
    var a := TakenAt(s.runs, ZonePages(s));
    s.(runs := Taken(s.runs, ZonePages(s)), areas := s.areas[a := ZonePages(s)],
       usage := Marked(s.usage, a, ZonePages(s)), spare := [a] + s.spare)
  }

  function OpenedLarge(s: State, n: nat): State
    requires 0 <= TakenAt(s.runs, n) < |s.usage|
  {
    var a := TakenAt(s.runs, n);
    s.(runs := Taken(s.runs, n), areas := s.areas[a := n], usage := s.usage[a := Large(n)])
  }

  function ClosedLarge(s: State, a: nat): State
    requires a in s.areas && a < |s.usage|
  {
    s.(runs := Given(s.runs, a, s.areas[a]), areas := s.areas - {a}, usage := s.usage[a := Large(0)])
  }

  /** A chunk comes back to its zone, which is listed again if it had none free. */
  function Returned(s: State, a: nat, k: nat): State
    requires a in s.zones && s.zones[a].index < |s.lists|
  {
    var z := s.zones[a];
    s.(zones := s.zones[a := Returning(z, k)],
       lists := if z.nfree == 0 then s.lists[z.index := [a] + s.lists[z.index]] else s.lists)
  }

  function Dropped(q: seq<nat>, a: nat): seq<nat> {
    if q == [] then [] else if q[0] == a then q[1..] else [q[0]] + Dropped(q[1..], a)
  }

  /** A wholly free zone becomes a spare one. */
  function Spared(s: State, a: nat): State
    requires a in s.zones && s.zones[a].index < |s.lists|
  {
    var i := s.zones[a].index;
    s.(zones := s.zones - {a}, lists := s.lists[i := Dropped(s.lists[i], a)], spare := [a] + s.spare)
  }

  /** The spare zone at the head of the list gives its pages back. */
  function Released(s: State): State
    requires s.spare != []
  {
    var a := s.spare[0];
    s.(spare := s.spare[1..], runs := Given(s.runs, a, ZonePages(s)), areas := s.areas - {a},
       usage := Cleared(s.usage, a, ZonePages(s)))
  }

  // ---------------------------------------------------------------- each of them keeps the slab sound

  /** The parts of a state that have to do with pages. */
  predicate SamePages(s: State, r: State) {
    r.total == s.total && r.zoneSize == s.zoneSize && r.runs == s.runs && r.usage == s.usage && r.areas == s.areas
  }

  lemma SamePagesSound(s: State, r: State)
    requires AreasSound(s) && UsageSound(s) && SamePages(s, r)
    requires forall a :: IsZone(r, a) <==> IsZone(s, a)
    ensures AreasSound(r) && UsageSound(r)
  {
    hide IsZone, Canonical, Separate, NoneFree;
    forall a: nat | a in r.areas && a + r.areas[a] <= r.total ensures Recorded(r, a) {
      assert Recorded(s, a);
    }
    forall a | a in r.zones || a in r.spare ensures a in r.areas {
      IsZoneIs(r, a);
      IsZoneIs(s, a);
    }
  }

  lemma IsZoneIs(s: State, a: nat)
    ensures IsZone(s, a) <==> a in s.zones || a in s.spare
  {
  }

  /** The class of one zone's list changes, and nothing else in the lists. */
  lemma FromZoneLists(s: State, i: nat)
    requires ListsSound(s) && i < CLASSES && s.lists[i] != []
    ensures s.lists[i][0] in s.zones && s.zones[s.lists[i][0]].nfree > 0
    ensures var z := s.zones[s.lists[i][0]];
            ZoneSound(z, s.zoneSize) && (z.uindex + 1 == z.nmax ==> z.chunks != [])
    ensures ListsSound(FromZone(s, i))
  {
    var q := s.lists[i];
    var a := q[0];
    assert a in s.lists[i] && Listed(s, i, a);
    HandingSound(s.zones[a], s.zoneSize);
    hide ZoneSound;
    var r := FromZone(s, i);
    forall j, b | 0 <= j < CLASSES ensures b in r.lists[j] <==> Listed(r, j, b) {
      assert b in s.lists[j] <==> Listed(s, j, b);
      assert j == i ==> (b in q[1..] <==> b in q && b != a) by { TailApart(q); }
    }
    assert Distinct(r.lists[i]) by { TailApart(q); }
  }

  lemma TailApart(q: seq<nat>)
    requires q != [] && Distinct(q)
    ensures Distinct(q[1..]) && forall b :: b in q[1..] <==> b in q && b != q[0]
  {
    assert forall i :: 0 <= i < |q| - 1 ==> q[1..][i] == q[i + 1];
  }

  lemma HeadApart(q: seq<nat>, a: nat)
    requires Distinct(q) && a !in q
    ensures Distinct([a] + q) && forall b :: b in [a] + q <==> b in q || b == a
  {
    assert forall i :: 1 <= i < |q| + 1 ==> ([a] + q)[i] == q[i - 1];
  }

  lemma AdoptedLists(s: State, a: nat, i: nat, size: nat)
    requires ListsSound(s) && i < CLASSES && a !in s.zones && a !in s.spare
    requires size > 0 && ChunksIn(s.zoneSize, size) >= 2 && ZoneSound(FreshZone(s.zoneSize, i, size), s.zoneSize)
    ensures ListsSound(Adopted(s, a, i, size))
  {
    hide ZoneSound;
    var r := Adopted(s, a, i, size);
    assert a !in s.lists[i] by { assert a in s.lists[i] <==> Listed(s, i, a); }
    HeadApart(s.lists[i], a);
    forall j, b | 0 <= j < CLASSES ensures b in r.lists[j] <==> Listed(r, j, b) {
      assert b in s.lists[j] <==> Listed(s, j, b);
    }
  }

  lemma ReturnedLists(s: State, a: nat, k: nat)
    requires ListsSound(s) && a in s.zones && Handed(s.zones[a], k)
    ensures s.zones[a].index < CLASSES && ListsSound(Returned(s, a, k))
    ensures s.zones[a].nfree < s.zones[a].nmax && a in Returned(s, a, k).lists[s.zones[a].index]
  {
    var z, r := s.zones[a], Returned(s, a, k);
    ReturningSound(z, s.zoneSize, k);
    assert z.index < CLASSES;
    hide ZoneSound;
    assert a in s.lists[z.index] <==> Listed(s, z.index, a);
    if z.nfree == 0 {
      HeadApart(s.lists[z.index], a);
    }
    forall j, b | 0 <= j < CLASSES ensures b in r.lists[j] <==> Listed(r, j, b) {
      assert b in s.lists[j] <==> Listed(s, j, b);
    }
  }

  lemma {:induction false} DroppedIs(q: seq<nat>, a: nat)
    requires Distinct(q) && a in q
    ensures Distinct(Dropped(q, a)) && |Dropped(q, a)| == |q| - 1
    ensures forall b :: b in Dropped(q, a) <==> b in q && b != a
  {
    TailApart(q);
    if q[0] != a {
      DroppedIs(q[1..], a);
      HeadApart(Dropped(q[1..], a), q[0]);
    }
  }

  /** Apart from the number of spare zones, which may now be one too many. */
  lemma SparedLists(s: State, a: nat)
    requires ListsSound(s) && a in s.zones && s.zones[a].nfree > 0
    ensures s.zones[a].index < CLASSES
    ensures var r := Spared(s, a);
            Distinct(r.spare) && |r.spare| <= RELEASE_THRESHOLD + 1
            && (|r.spare| <= RELEASE_THRESHOLD ==> ListsSound(r))
            && (r.spare != [] ==> ListsSound(Unspared(r)))
  {
    assert s.zones[a].index < CLASSES by { assert ZoneSound(s.zones[a], s.zoneSize); }
    hide ZoneSound;
    var i, r := s.zones[a].index, Spared(s, a);
    assert a in s.lists[i] <==> Listed(s, i, a);
    DroppedIs(s.lists[i], a);
    HeadApart(s.spare, a);
    forall j, b | 0 <= j < CLASSES ensures b in r.lists[j] <==> Listed(r, j, b) {
      assert b in s.lists[j] <==> Listed(s, j, b);
    }
  }

  // ---------------------------------------------------------------- pages come and go

  /** Free pages are in no area. */
  lemma FreeOutside(s: State, a: nat, n: nat, b: nat)
    requires AreasSound(s) && AllFree(s.runs, a, n) && n > 0 && b in s.areas
    ensures b + s.areas[b] <= a || a + n <= b
  {
    assert a <= b < a + n ==> IsFree(s.runs, b);
    assert b <= a < b + s.areas[b] ==> IsFree(s.runs, a);
  }

  /** Taking pages from the list for a new area. */
  lemma TakenAreas(s: State, r: State, n: nat)
    requires AreasSound(s) && n > 0 && TakenAt(s.runs, n) >= 0 && r.total == s.total
    requires r.runs == Taken(s.runs, n) && r.areas == s.areas[TakenAt(s.runs, n) := n]
    ensures AreasSound(r) && TakenAt(s.runs, n) !in s.areas && TakenAt(s.runs, n) + n <= s.total
    ensures forall b :: b in s.areas ==> b + s.areas[b] <= TakenAt(s.runs, n) || TakenAt(s.runs, n) + n <= b
  {
    TakenMeaning(s.runs, s.total, n);
    hide Taken, TakenAt, Fit;
    var a := TakenAt(s.runs, n);
    forall b | b in s.areas ensures b + s.areas[b] <= a || a + n <= b {
      FreeOutside(s, a, n, b);
    }
    hide Canonical, IsFree, AllFree;
    forall b: nat | b in r.areas ensures NoneFree(r.runs, b, r.areas[b]) {
      if b != a {
        assert NoneFree(s.runs, b, s.areas[b]);
      }
    }
  }

  /** Giving the pages of an area back. */
  lemma GivenAreas(s: State, r: State, a: nat)
    requires AreasSound(s) && a in s.areas && r.total == s.total
    requires r.runs == Given(s.runs, a, s.areas[a]) && r.areas == s.areas - {a}
    ensures AreasSound(r)
  {
    GivenMeaning(s.runs, s.total, a, s.areas[a]);
    hide Canonical, IsFree, Given;
    forall b: nat | b in r.areas ensures NoneFree(r.runs, b, r.areas[b]) {
      assert NoneFree(s.runs, b, s.areas[b]);
      assert a + s.areas[a] <= b || b + s.areas[b] <= a;
    }
  }

  /** A change in the page table that leaves the pages of area b alone, and its kind. */
  lemma RecordedKept(s: State, r: State, b: nat)
    requires b in s.areas && b in r.areas && r.areas[b] == s.areas[b] > 0 && (IsZone(r, b) <==> IsZone(s, b))
    requires b + s.areas[b] <= |s.usage| == |r.usage|
    requires forall p :: b <= p < b + s.areas[b] ==> r.usage[p] == s.usage[p]
    requires Recorded(s, b)
    ensures Recorded(r, b)
  {
    hide IsZone;
    assert r.usage[b] == s.usage[b];
    forall o | 0 <= o < s.areas[b] && IsZone(s, b) ensures r.usage[b + o] == Small(o) {
      assert s.usage[b + o] == Small(o);
    }
  }

  lemma OpenedSound(s: State)
    requires AreasSound(s) && UsageSound(s) && ZonePages(s) > 0 && TakenAt(s.runs, ZonePages(s)) >= 0
    ensures TakenAt(s.runs, ZonePages(s)) !in s.areas && !IsZone(s, TakenAt(s.runs, ZonePages(s)))
    ensures AreasSound(Opened(s)) && UsageSound(Opened(s))
  {
    hide Canonical, Separate, NoneFree, IsFree;
    var r, n, a := Opened(s), ZonePages(s), TakenAt(s.runs, ZonePages(s));
    TakenAreas(s, r, n);
    assert a !in s.zones && a !in s.spare;
    forall b: nat | b in r.areas && b + r.areas[b] <= r.total ensures Recorded(r, b) {
      if b != a {
        assert Recorded(s, b);
        RecordedKept(s, r, b);
      }
    }
  }

  lemma OpenedLargeSound(s: State, n: nat)
    requires AreasSound(s) && UsageSound(s) && n > 0 && TakenAt(s.runs, n) >= 0
    ensures TakenAt(s.runs, n) < |s.usage| && TakenAt(s.runs, n) !in s.areas && !IsZone(s, TakenAt(s.runs, n))
    ensures AreasSound(OpenedLarge(s, n)) && UsageSound(OpenedLarge(s, n))
  {
    hide Canonical, Separate, NoneFree, IsFree;
    var a := TakenAt(s.runs, n);
    TakenAreas(s, s.(runs := Taken(s.runs, n), areas := s.areas[a := n]), n);
    var r := OpenedLarge(s, n);
    SameAreas(s.(runs := Taken(s.runs, n), areas := s.areas[a := n]), r);
    assert a !in s.zones && a !in s.spare;
    forall b: nat | b in r.areas && b + r.areas[b] <= r.total ensures Recorded(r, b) {
      if b != a {
        assert Recorded(s, b);
        RecordedKept(s, r, b);
      }
    }
  }

  lemma SameAreas(s: State, r: State)
    requires AreasSound(s) && r.total == s.total && r.runs == s.runs && r.areas == s.areas
    ensures AreasSound(r)
  {
  }

  lemma ClosedLargeSound(s: State, a: nat)
    requires AreasSound(s) && UsageSound(s) && a in s.areas && !IsZone(s, a)
    ensures a < |s.usage| && AreasSound(ClosedLarge(s, a)) && UsageSound(ClosedLarge(s, a))
  {
    hide Canonical, NoneFree, IsFree;
    var r := ClosedLarge(s, a);
    GivenAreas(s, r, a);
    forall b: nat | b in r.areas && b + r.areas[b] <= r.total ensures Recorded(r, b) {
      assert Recorded(s, b) && (a + s.areas[a] <= b || b + s.areas[b] <= a);
      RecordedKept(s, r, b);
    }
  }

  lemma ReleasedSound(s: State)
    requires AreasSound(s) && UsageSound(s) && s.spare != [] && Distinct(s.spare) && s.spare[0] !in s.zones
    ensures AreasSound(Released(s)) && UsageSound(Released(s))
  {
    hide Canonical, NoneFree, IsFree;
    var a: nat := s.spare[0];
    var r := Released(s);
    assert a in s.spare;
    TailApart(s.spare);
    GivenAreas(s, r, a);
    forall b: nat | b in r.areas && b + r.areas[b] <= r.total ensures Recorded(r, b) {
      assert Recorded(s, b) && (a + s.areas[a] <= b || b + s.areas[b] <= a);
      RecordedKept(s, r, b);
    }
  }
}
