/**
 Where the pages of the slab are: over any sequence of calls each page behind the page table is free or belongs
 to one zone or one large allocation, and what every call does to the pages.
 */
module SlabPartition {

  import opened WaitList
  import opened Chains
  import opened SlabSizes
  import opened SlabPages
  import opened SlabZones
  import opened SlabLaws
  import opened SlabHeap

  /** The page lies in a zone, a spare one included, or in a large allocation. */
  predicate Occupied(s: State, b: int) {
    exists a :: a in s.areas && Inside(s, a, b)
  }

  predicate Inside(s: State, a: nat, b: int)
    requires a in s.areas
  {
    a <= b < a + s.areas[a]
  }

  /** Exactly the pages of the table are neither free nor occupied, and no page is both. */
  ghost predicate Divided(s: State, table: nat) {
    forall b :: 0 <= b < s.total ==> DividedAt(s, table, b)
  }

  predicate DividedAt(s: State, table: nat, b: int) {
    if b < table then !IsFree(s.runs, b) && !Occupied(s, b) else IsFree(s.runs, b) <==> !Occupied(s, b)
  }

  // ---------------------------------------------------------------- what an allocation does to the pages

  /** The n pages from page a on were free and are a new area, and nothing else happens to the pages. */
  ghost predicate Claims(s: State, r: State, a: nat, n: nat) {
    n > 0 && AllFree(s.runs, a, n) && a !in s.areas && r.areas == s.areas[a := n] && a + n <= s.total
    && forall b :: IsFree(r.runs, b) <==> IsFree(s.runs, b) && !(a <= b < a + n)
  }

  /** Nothing happens to the pages. */
  predicate KeepsPages(s: State, r: State) {
    r.areas == s.areas && r.runs == s.runs
  }

  lemma ClaimsTaken(s: State, r: State, n: nat)
    requires AreasSound(s) && n > 0 && TakenAt(s.runs, n) >= 0
    requires r.runs == Taken(s.runs, n) && r.areas == s.areas[TakenAt(s.runs, n) := n]
    ensures Claims(s, r, TakenAt(s.runs, n), n)
  {
    TakenMeaning(s.runs, s.total, n);
    TakenAreas(s, s.(runs := Taken(s.runs, n), areas := s.areas[TakenAt(s.runs, n) := n]), n);
  }

  /** A large request claims pages and changes no zone. */
  lemma LargeClaims(s: State, n: nat)
    requires Sound(s) && n >= Limit(s.zoneSize) && n > 0 && Alloc(s, n).pointer != Null
    ensures var r, p := Alloc(s, n).state, Alloc(s, n).pointer;
            p.Pages? && Claims(s, r, p.start, (n + PAGE - 1) / PAGE)
            && r.zones == s.zones && r.lists == s.lists && r.spare == s.spare && r.total == s.total && r.zoneSize == s.zoneSize
  {
    hide UsageSound, ListsSound, AllocSmall, Claims, Taken, TakenAt, AreasSound;
    PagesForIs(n);
    PagesAre(n);
    ClaimsTaken(s, Alloc(s, n).state, PagesFor(n));
  }

  lemma PagesAre(n: nat)
    ensures PagesFor(n) == (n + PAGE - 1) / PAGE
  {
  }

  /** A small request is served by a listed zone if there is one, else by a spare one, else it claims pages for a zone. */
  lemma SmallClaims(s: State, n: nat)
    requires Sound(s) && 0 < n < Limit(s.zoneSize) && Alloc(s, n).pointer != Null
    ensures |s.lists| == CLASSES && 0 <= IndexFor(n) < CLASSES
    ensures var r, p := Alloc(s, n).state, Alloc(s, n).pointer;
            && p.Chunk? && p.zone in r.zones && r.zones[p.zone].index == IndexFor(n) && r.total == s.total && r.zoneSize == s.zoneSize
            && (s.lists[IndexFor(n)] != [] ==> p.zone == s.lists[IndexFor(n)][0] && p.zone in s.zones && KeepsPages(s, r) && r.spare == s.spare)
            && (s.lists[IndexFor(n)] == [] ==> p.k == 0 && p.zone !in s.zones)
            && (s.lists[IndexFor(n)] == [] && s.spare != [] ==> p.zone == s.spare[0] && r.spare == s.spare[1..] && KeepsPages(s, r))
            && (s.lists[IndexFor(n)] == [] && s.spare == [] ==> Claims(s, r, p.zone, s.zoneSize / PAGE) && r.spare == [])
            && r.zones == s.zones[p.zone := r.zones[p.zone]] && r.zones[p.zone].nfree < r.zones[p.zone].nmax
  {
    hide AreasSound, UsageSound, ListsSound, Handed, IndexFor, ChunkSize, Rounded, Claims, Taken, TakenAt, ZoneSound, ChunksIn, Limit;
    SmallCases(s, n);
    var i, r, p := IndexFor(n), Alloc(s, n).state, Alloc(s, n).pointer;
    if s.lists[i] != [] {
      ListedIs(s, i, s.lists[i][0]);
      FullerZone(s, s.lists[i][0]);
    } else if s.spare != [] {
      SpareApart(s);
    } else {
      OpenedSound(s);
      ClaimsTaken(s, r, ZonePages(s));
    }
  }

  lemma FullerZone(s: State, a: nat)
    requires ListsSound(s) && a in s.zones
    ensures s.zones[a].nfree <= s.zones[a].nmax && ZoneSound(s.zones[a], s.zoneSize)
    ensures s.zones[a].index < CLASSES
  {
    assert ZoneSound(s.zones[a], s.zoneSize);
    DistinctBound(s.zones[a].chunks, s.zones[a].uindex + 1);
  }

  lemma Below(n: nat) returns (all: set<nat>)
    ensures |all| == n && forall k: nat :: k in all <==> k < n
  {
    all := {};
    for i := 0 to n
      invariant |all| == i && forall k: nat :: k in all <==> k < i
    {
      all := all + {i};
    }
  }

  lemma {:induction false} DistinctSet(q: seq<nat>) returns (all: set<nat>)
    requires Distinct(q)
    ensures |all| == |q| && forall k :: k in all <==> k in q
  {
    if q == [] {
      all := {};
    } else {
      TailApart(q);
      all := DistinctSet(q[1..]);
      all := all + {q[0]};
    }
  }

  lemma Smaller(a: set<nat>, b: set<nat>)
    requires forall k :: k in a ==> k in b
    ensures |a| <= |b|
  {
    assert b == a + (b - a);
  }

  lemma DistinctBound(q: seq<nat>, n: nat)
    requires Distinct(q) && InRange(q, n)
    ensures |q| <= n
    ensures (forall k :: 0 <= k < n ==> k in q) ==> |q| == n
  {
    var a := DistinctSet(q);
    var b := Below(n);
    Smaller(a, b);
    if forall k :: 0 <= k < n ==> k in q {
      Smaller(b, a);
    }
  }

  // ---------------------------------------------------------------- what a release does to the pages

  /** The area at page a is gone and exactly its pages are free now. */
  ghost predicate Yields(s: State, r: State, a: nat) {
    a in s.areas && r.areas == s.areas - {a}
    && forall b :: IsFree(r.runs, b) <==> IsFree(s.runs, b) || a <= b < a + s.areas[a]
  }

  lemma YieldsGiven(s: State, r: State, a: nat)
    requires AreasSound(s) && a in s.areas
    requires r.runs == Given(s.runs, a, s.areas[a]) && r.areas == s.areas - {a}
    ensures Yields(s, r, a)
  {
    GivenMeaning(s.runs, s.total, a, s.areas[a]);
  }

  /** Freeing a large block makes exactly its pages free and changes no zone. */
  lemma LargeYields(s: State, a: nat)
    requires Sound(s) && Live(s, Pages(a))
    ensures var r := Free(s, Pages(a));
            Yields(s, r, a) && r.zones == s.zones && r.lists == s.lists && r.spare == s.spare
            && a < |s.usage| && r.usage == s.usage[a := Large(0)]
            && r.total == s.total && r.zoneSize == s.zoneSize
  {
    hide UsageSound, ListsSound, Handed, AreasSound, Given, Yields;
    ClosedLargeSound(s, a);
    YieldsGiven(s, Free(s, Pages(a)), a);
  }

  /** No chunk of zone a but the k-th is in use. */
  ghost predicate LastOne(s: State, a: nat, k: nat) {
    forall j :: Live(s, Chunk(a, j)) ==> j == k
  }

  /** Another zone of the same class has free chunks. */
  ghost predicate HasPeer(s: State, a: nat)
    requires a in s.zones
  {
    exists b :: b in s.zones && b != a && s.zones[b].index == s.zones[a].index && s.zones[b].nfree > 0
  }

  /** A zone counts all its chunks as free exactly when none is in use. */
  lemma AllFreeIff(z: Zone, zoneSize: nat)
    requires ZoneSound(z, zoneSize)
    ensures z.nfree == z.nmax <==> forall k: nat :: !Handed(z, k)
  {
    if z.nfree == z.nmax {
      AllChunksFree(z, zoneSize);
    }
    if forall k: nat :: !Handed(z, k) {
      forall k | 0 <= k < z.uindex + 1
        ensures k in z.chunks
      {
        assert !Handed(z, k);
      }
      DistinctBound(z.chunks, z.uindex + 1);
    }
  }

  lemma LastReturned(s: State, a: nat, k: nat)
    requires Sound(s) && Live(s, Chunk(a, k))
    ensures s.zones[a].index < |s.lists| && a in Returned(s, a, k).zones
    ensures var z := Returned(s, a, k).zones[a]; z.nfree == z.nmax <==> LastOne(s, a, k)
  {
    hide AreasSound, UsageSound, Handed, ChunkSize;
    ReturnedLists(s, a, k);
    FullerZone(s, a);
    var z := s.zones[a];
    ReturningSound(z, s.zoneSize, k);
    AllFreeIff(Returning(z, k), s.zoneSize);
    hide ListsSound, ZoneSound, Returning;
    if LastOne(s, a, k) {
      forall j: nat
        ensures !Handed(Returning(z, k), j)
      {
        assert Live(s, Chunk(a, j)) ==> j == k;
      }
    } else {
      var j :| Live(s, Chunk(a, j)) && j != k;
      assert Handed(Returning(z, k), j);
    }
  }

  lemma PeerListed(s: State, a: nat, k: nat)
    requires Sound(s) && Live(s, Chunk(a, k))
    ensures s.zones[a].index < |s.lists| && s.zones[a].index < |Returned(s, a, k).lists|
    ensures Returned(s, a, k).lists[s.zones[a].index] != [a] <==> HasPeer(s, a)
  {
    hide AreasSound, UsageSound, Handed, ZoneSound, ChunkSize;
    ReturnedLists(s, a, k);
    var r, i := Returned(s, a, k), s.zones[a].index;
    var q := r.lists[i];
    assert Distinct(q) && a in q;
    if HasPeer(s, a) {
      var b :| b in s.zones && b != a && s.zones[b].index == s.zones[a].index && s.zones[b].nfree > 0;
      assert b in q <==> Listed(r, i, b);
      assert b in q;
    }
    if q != [a] {
      var b := OtherMember(q, a);
      ListedIs(r, i, b);
      assert b in s.zones && s.zones[b].nfree > 0;
    }
  }

  lemma OtherMember(q: seq<nat>, a: nat) returns (b: nat)
    requires Distinct(q) && a in q && q != [a]
    ensures b in q && b != a
  {
    b := if q[0] == a then q[1] else q[0];
  }

  /**
   Freeing a chunk.  Its zone stays unless this was its last one and another zone of the class has free chunks.
   Then it becomes a spare zone, or, with two of those already, its pages and no others become free.
   */
  lemma ChunkYields(s: State, a: nat, k: nat)
    requires Sound(s) && Live(s, Chunk(a, k))
    ensures var r := Free(s, Chunk(a, k));
            && r.total == s.total && r.zoneSize == s.zoneSize
            && (forall b :: b != a ==> (b in r.zones <==> b in s.zones) && (b in r.zones ==> r.zones[b] == s.zones[b]))
            && (a in r.zones <==> !(LastOne(s, a, k) && HasPeer(s, a)))
            && (a in r.zones ==> KeepsPages(s, r) && r.spare == s.spare && r.zones[a].index == s.zones[a].index)
            && (a !in r.zones && |s.spare| < 2 ==> KeepsPages(s, r) && r.spare == [a] + s.spare)
            && (a !in r.zones && |s.spare| >= 2 ==>
                  Yields(s, r, a) && r.spare == s.spare && |r.usage| == |s.usage|
                  && forall b :: 0 <= b < |s.usage| ==> r.usage[b] == if a <= b < a + s.areas[a] then FreePage else s.usage[b])
  {
    hide AreasSound, UsageSound, ListsSound, Handed, LastOne, HasPeer, Yields, Given, ZoneSound, ChunkSize;
    ChunkCases(s, a, k);
    LastReturned(s, a, k);
    PeerListed(s, a, k);
    ReturnedMeaning(s, a, k);
    var t := Returned(s, a, k);
    if t.zones[a].nfree == t.zones[a].nmax && t.lists[t.zones[a].index] != [a] && |s.spare| >= 2 {
      SparedMeaning(t, a);
      ZoneAreaIs(s, a);
      YieldsGiven(s, Free(s, Chunk(a, k)), a);
    }
  }

  lemma ZoneAreaIs(s: State, a: nat)
    requires Sound(s) && a in s.zones
    ensures a in s.areas && s.areas[a] == ZonePages(s)
  {
    hide AreasSound, ListsSound, Recorded;
    assert IsZone(s, a);
  }

  // ---------------------------------------------------------------- over whole runs

  lemma ClaimedPages(s: State, r: State, a: nat, n: nat, table: nat)
    requires Divided(s, table) && Claims(s, r, a, n) && r.total == s.total
    ensures Divided(r, table)
  {
    hide IsFree;
    forall b | 0 <= b < s.total
      ensures DividedAt(r, table, b)
    {
      assert DividedAt(s, table, b);
      assert a <= b < a + n ==> IsFree(s.runs, b);
      if Occupied(s, b) {
        var c :| c in s.areas && Inside(s, c, b);
        assert c in r.areas && Inside(r, c, b);
      }
      if a <= b < a + n {
        assert a in r.areas && Inside(r, a, b);
      }
      if Occupied(r, b) {
        var c :| c in r.areas && Inside(r, c, b);
        assert c != a ==> c in s.areas && Inside(s, c, b);
      }
    }
  }

  lemma YieldedPages(s: State, r: State, a: nat, table: nat)
    requires AreasSound(s) && Divided(s, table) && Yields(s, r, a) && r.total == s.total
    ensures Divided(r, table)
  {
    hide IsFree, Canonical, NoneFree;
    forall b | 0 <= b < s.total
      ensures DividedAt(r, table, b)
    {
      assert DividedAt(s, table, b);
      if a <= b < a + s.areas[a] {
        assert Inside(s, a, b);
      }
      if Occupied(s, b) && !(a <= b < a + s.areas[a]) {
        var c :| c in s.areas && Inside(s, c, b);
        assert c in r.areas && Inside(r, c, b);
      }
      if Occupied(r, b) {
        var c :| c in r.areas && Inside(r, c, b);
        assert c in s.areas && Inside(s, c, b);
      }
    }
  }

  lemma KeptPages(s: State, r: State, table: nat)
    requires Divided(s, table) && KeepsPages(s, r) && r.total == s.total
    ensures Divided(r, table)
  {
    hide IsFree;
    forall b | 0 <= b < s.total
      ensures DividedAt(r, table, b)
    {
      assert DividedAt(s, table, b);
      if Occupied(s, b) {
        var c :| c in s.areas && Inside(s, c, b);
        assert Inside(r, c, b);
      }
      if Occupied(r, b) {
        var c :| c in r.areas && Inside(r, c, b);
        assert Inside(s, c, b);
      }
    }
  }

  /** Of each class at most one zone has all its chunks free. */
  predicate OneIdle(s: State) {
    forall a, b :: a in s.zones && b in s.zones && a != b && s.zones[a].index == s.zones[b].index ==>
      s.zones[a].nfree != s.zones[a].nmax || s.zones[b].nfree != s.zones[b].nmax
  }

  /** A run goes on with what its next step does, a free of nothing live doing nothing. */
  lemma RunStep(total: nat, zoneSize: nat, table: nat, usage: seq<Usage>, run: seq<Step>, n: nat, p: Pointer)
    requires ReachableZone(zoneSize) && 0 < table <= total && |usage| == total
    ensures var s := After(total, zoneSize, table, usage, run);
            && After(total, zoneSize, table, usage, run + [AllocStep(n)]) == Alloc(s, n).state
            && After(total, zoneSize, table, usage, run + [FreeStep(p)]) == if Live(s, p) then Free(s, p) else s
  {
    hide Sound, Alloc, Free, Live;
    assert (run + [AllocStep(n)])[..|run|] == run && (run + [FreeStep(p)])[..|run|] == run;
  }

  lemma AllocDivides(s: State, n: nat, table: nat)
    requires Sound(s) && Divided(s, table) && OneIdle(s)
    ensures Divided(Alloc(s, n).state, table) && OneIdle(Alloc(s, n).state) && Alloc(s, n).state.total == s.total
  {
    hide Sound, Divided, Claims, Limit;
    if Alloc(s, n).pointer == Null {
      AllocMeaning(s, n);
    } else if n >= Limit(s.zoneSize) {
      LimitPositive(s);
      LargeClaims(s, n);
      hide Alloc;
      ClaimedPages(s, Alloc(s, n).state, Alloc(s, n).pointer.start, (n + PAGE - 1) / PAGE, table);
    } else {
      NonZero(s, n);
      SmallClaims(s, n);
      hide Alloc, OneIdle, IndexFor;
      var r, p := Alloc(s, n).state, Alloc(s, n).pointer;
      IdleKept(s, r, p.zone);
      if s.lists[IndexFor(n)] == [] && s.spare == [] {
        ClaimedPages(s, r, p.zone, s.zoneSize / PAGE, table);
      } else {
        KeptPages(s, r, table);
      }
    }
  }

  lemma LimitPositive(s: State)
    requires Sound(s)
    ensures Limit(s.zoneSize) > 0
  {
  }

  lemma NonZero(s: State, n: nat)
    requires Sound(s) && Alloc(s, n).pointer != Null
    ensures n > 0
  {
  }

  lemma IdleKept(s: State, r: State, a: nat)
    requires OneIdle(s) && a in r.zones && r.zones == s.zones[a := r.zones[a]] && r.zones[a].nfree < r.zones[a].nmax
    ensures OneIdle(r)
  {
  }

  lemma FreeDivides(s: State, p: Pointer, table: nat)
    requires Sound(s) && Live(s, p) && Divided(s, table) && OneIdle(s)
    ensures Divided(Free(s, p), table) && OneIdle(Free(s, p)) && Free(s, p).total == s.total
  {
    assert AreasSound(s);
    hide Sound, AreasSound, Divided, Yields, Free, Live, LastOne, HasPeer, KeepsPages;
    match p {
      case Null => LiveNull(s);
      case Pages(a) =>
        LargeYields(s, a);
        YieldedPages(s, Free(s, p), a, table);
      case Chunk(a, k) =>
        ChunkYields(s, a, k);
        StillOneIdle(s, a, k);
        hide OneIdle;
        var r := Free(s, p);
        if a !in r.zones && |s.spare| >= 2 {
          YieldedPages(s, r, a, table);
        } else {
          KeptPages(s, r, table);
        }
    }
  }

  lemma LiveNull(s: State)
    ensures !Live(s, Null)
  {
  }

  lemma StillOneIdle(s: State, a: nat, k: nat)
    requires Sound(s) && Live(s, Chunk(a, k)) && OneIdle(s)
    ensures OneIdle(Free(s, Chunk(a, k)))
  {
    var r := Free(s, Chunk(a, k));
    FreeMeaning(s, Chunk(a, k));
    ChunkYields(s, a, k);
    assert ListsSound(r);
    hide Sound, ListsSound, Free, LastOne, HasPeer, Live, Yields, KeepsPages, Loses, OneIdle, ZoneSound;
    if a in r.zones && r.zones[a].nfree == r.zones[a].nmax {
      IdleAgain(s, r, a, k);
      forall b | b in r.zones && b != a && r.zones[b].index == r.zones[a].index
        ensures r.zones[b].nfree != r.zones[b].nmax
      {
        PeerFull(s, a, b);
        SomeChunks(r, b);
      }
    }
    IdleButOne(s, r, a);
  }

  lemma SomeChunks(s: State, a: nat)
    requires ListsSound(s) && a in s.zones
    ensures s.zones[a].nmax > 0
  {
    FullerZone(s, a);
  }

  lemma IdleButOne(s: State, r: State, a: nat)
    requires OneIdle(s) && forall b :: b != a && b in r.zones ==> b in s.zones && r.zones[b] == s.zones[b]
    requires a in r.zones && r.zones[a].nfree == r.zones[a].nmax ==>
               forall b :: b in r.zones && b != a && r.zones[b].index == r.zones[a].index ==> r.zones[b].nfree != r.zones[b].nmax
    ensures OneIdle(r)
  {
  }

  lemma IdleAgain(s: State, r: State, a: nat, k: nat)
    requires Sound(s) && Live(s, Chunk(a, k)) && r == Free(s, Chunk(a, k)) && ListsSound(r)
    requires a in r.zones && r.zones[a].nfree == r.zones[a].nmax
    ensures !HasPeer(s, a)
  {
    ChunkYields(s, a, k);
    FullerZone(r, a);
    AllFreeIff(r.zones[a], r.zoneSize);
    hide Sound, ListsSound, Free, Handed, Live, ZoneSound, Yields;
    NobodyLeft(s, a, k);
  }

  lemma PeerFull(s: State, a: nat, b: nat)
    requires a in s.zones && b in s.zones && a != b && s.zones[b].index == s.zones[a].index && !HasPeer(s, a)
    ensures s.zones[b].nfree == 0
  {
  }

  lemma NobodyLeft(s: State, a: nat, k: nat)
    requires Sound(s) && Live(s, Chunk(a, k)) && a in Free(s, Chunk(a, k)).zones
    requires forall j: nat :: !Handed(Free(s, Chunk(a, k)).zones[a], j)
    ensures LastOne(s, a, k)
  {
    FreeMeaning(s, Chunk(a, k));
    hide Sound, Free, Handed;
    forall j | Live(s, Chunk(a, j))
      ensures j == k
    {
      assert Live(Free(s, Chunk(a, k)), Chunk(a, j)) <==> Live(s, Chunk(a, j)) && Chunk(a, j) != Chunk(a, k);
    }
  }

  /** In every run each page is the page table's, free, or in exactly one zone or large allocation. */
  lemma {:induction false} AlwaysDivided(total: nat, zoneSize: nat, table: nat, usage: seq<Usage>, run: seq<Step>)
    requires ReachableZone(zoneSize) && 0 < table <= total && |usage| == total
    ensures var s := After(total, zoneSize, table, usage, run);
            && s.total == total && Divided(s, table) && OneIdle(s)
            && (forall a, b :: a in s.areas && b in s.areas && a != b ==> a + s.areas[a] <= b || b + s.areas[b] <= a)
            && (forall a :: a in s.areas <==> a in s.zones || a in s.spare || Live(s, Pages(a)))
  {
    if run == [] {
      StartDivided(total, zoneSize, table, usage);
    } else {
      var past := run[..|run| - 1];
      var s := After(total, zoneSize, table, usage, past);
      AlwaysDivided(total, zoneSize, table, usage, past);
      hide Sound, Divided, OneIdle, Alloc, Free, Live;
      match run[|run| - 1] {
        case AllocStep(n) => AllocDivides(s, n, table);
        case FreeStep(p) => if Live(s, p) { FreeDivides(s, p, table); }
      }
    }
    AreasAre(After(total, zoneSize, table, usage, run));
  }

  lemma AreasAre(s: State)
    requires Sound(s)
    ensures forall a, b :: a in s.areas && b in s.areas && a != b ==> a + s.areas[a] <= b || b + s.areas[b] <= a
    ensures forall a :: a in s.areas <==> a in s.zones || a in s.spare || Live(s, Pages(a))
  {
    hide Canonical, NoneFree, ListsSound, Recorded;
  }

  lemma StartDivided(total: nat, zoneSize: nat, table: nat, usage: seq<Usage>)
    requires ReachableZone(zoneSize) && 0 < table <= total && |usage| == total
    ensures Divided(Start(total, zoneSize, table, usage), table) && OneIdle(Start(total, zoneSize, table, usage))
  {
    TakenMeaning([Run(0, total)], total, table);
    var all := [Run(0, total)];
    assert TakenAt(all, table) == 0;
    hide Taken, TakenAt;
    forall b | 0 <= b < total
      ensures IsFree(all, b)
    {
      assert Covers(all[0], b);
    }
  }

  /**
   Once nothing is in use any more, every page behind the table is free, but for at most one zone of each class
   and at most two spare zones.
   */
  lemma AllGivenBack(total: nat, zoneSize: nat, table: nat, usage: seq<Usage>, run: seq<Step>)
    requires ReachableZone(zoneSize) && 0 < table <= total && |usage| == total
    requires forall p :: !Live(After(total, zoneSize, table, usage, run), p)
    ensures var s := After(total, zoneSize, table, usage, run);
            && (forall b :: table <= b < total ==>
                  IsFree(s.runs, b) || exists a :: (a in s.zones || a in s.spare) && a <= b < a + zoneSize / PAGE)
            && |s.spare| <= 2
            && (forall a, b :: a in s.zones && b in s.zones && a != b ==> s.zones[a].index != s.zones[b].index)
  {
    AlwaysDivided(total, zoneSize, table, usage, run);
    ZoneSizeKept(total, zoneSize, table, usage, run);
    var s := After(total, zoneSize, table, usage, run);
    assert |s.spare| <= 2 by { assert ListsSound(s); }
    hide After, IsFree, Handed;
    forall a | a in s.zones
      ensures s.zones[a].nfree == s.zones[a].nmax
    {
      IdleZone(s, a);
    }
    forall b | table <= b < total && !IsFree(s.runs, b)
      ensures exists a :: (a in s.zones || a in s.spare) && a <= b < a + zoneSize / PAGE
    {
      assert DividedAt(s, table, b);
      var a :| a in s.areas && Inside(s, a, b);
      assert !Live(s, Pages(a));
      assert IsZone(s, a) && s.areas[a] == ZonePages(s) by { assert UsageSound(s); }
    }
  }

  lemma IdleZone(s: State, a: nat)
    requires Sound(s) && a in s.zones && forall k :: !Live(s, Chunk(a, k))
    ensures s.zones[a].nfree == s.zones[a].nmax
  {
    hide AreasSound, UsageSound, Handed;
    FullerZone(s, a);
    hide ListsSound, ZoneSound;
    AllFreeIff(s.zones[a], s.zoneSize);
    forall k: nat
      ensures !Handed(s.zones[a], k)
    {
      assert !Live(s, Chunk(a, k));
    }
  }

  lemma {:induction false} ZoneSizeKept(total: nat, zoneSize: nat, table: nat, usage: seq<Usage>, run: seq<Step>)
    requires ReachableZone(zoneSize) && 0 < table <= total && |usage| == total
    ensures After(total, zoneSize, table, usage, run).zoneSize == zoneSize
  {
    if run != [] {
      ZoneSizeKept(total, zoneSize, table, usage, run[..|run| - 1]);
      var s := After(total, zoneSize, table, usage, run[..|run| - 1]);
      hide Sound, Alloc, Free, Live;
      match run[|run| - 1] {
        case AllocStep(n) => AllocSameZones(s, n);
        case FreeStep(p) => if Live(s, p) { FreeSameZones(s, p); }
      }
    }
  }

  lemma AllocSameZones(s: State, n: nat)
    requires Sound(s)
    ensures Alloc(s, n).state.zoneSize == s.zoneSize
  {
    hide Sound, Limit, Claims;
    if Alloc(s, n).pointer == Null {
      AllocMeaning(s, n);
    } else if n >= Limit(s.zoneSize) {
      LimitPositive(s);
      LargeClaims(s, n);
    } else {
      NonZero(s, n);
      SmallClaims(s, n);
    }
  }

  lemma FreeSameZones(s: State, p: Pointer)
    requires Sound(s) && Live(s, p)
    ensures Free(s, p).zoneSize == s.zoneSize
  {
    hide Sound, Free, Yields, LastOne, HasPeer;
    match p {
      case Null => LiveNull(s);
      case Pages(a) => LargeYields(s, a);
      case Chunk(a, k) => ChunkYields(s, a, k);
    }
  }
}
