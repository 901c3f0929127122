/**
 The page allocator under slab.c.  Free pages are kept as a list of runs; each run is described in its own
 first page.  Pages are numbered from the start of the heap.
 */
module SlabPages {

  import opened WaitList
  import opened Chains

  /** A run of `count` free pages from page `start` on. */
  datatype Run = Run(start: nat, count: nat)

  /** Sorted by address with at least one page in use between two runs: the runs are as long as possible. */
  predicate Canonical(runs: seq<Run>, total: nat) {
    (forall i :: 0 <= i < |runs| ==> runs[i].count > 0 && runs[i].start + runs[i].count <= total)
    && (forall i, j :: 0 <= i < j < |runs| ==> runs[i].start + runs[i].count < runs[j].start)
  }

  predicate Covers(r: Run, page: int) {
    r.start <= page < r.start + r.count
  }

  predicate IsFree(runs: seq<Run>, page: int) {
    exists i :: 0 <= i < |runs| && Covers(runs[i], page)
  }

  /** Are the n pages from `start` on all free? */
  predicate AllFree(runs: seq<Run>, start: int, n: nat) {
    forall p :: start <= p < start + n ==> IsFree(runs, p)
  }

  predicate NoneFree(runs: seq<Run>, start: int, n: nat) {
    forall p :: start <= p < start + n ==> !IsFree(runs, p)
  }

  // ---------------------------------------------------------------- the operations on values

  /** The first run with room for n pages, or the number of runs. */
  function Fit(runs: seq<Run>, n: nat): (i: nat)
    ensures i <= |runs| && (i < |runs| ==> runs[i].count >= n)
    ensures forall k :: 0 <= k < i ==> runs[k].count < n
  {
    if runs == [] || runs[0].count >= n then 0 else 1 + Fit(runs[1..], n)
  }

  /** rt_slab_page_alloc takes the pages from the beginning of that run. */
  function Taken(runs: seq<Run>, n: nat): seq<Run> {
    var i := Fit(runs, n);
    if n == 0 || i == |runs| then runs
    else runs[..i] + Remainder(runs[i], n) + runs[i + 1..]
  }

  function Remainder(r: Run, n: nat): seq<Run> {
    if r.count > n then [Run(r.start + n, r.count - n)] else []
  }

  function TakenAt(runs: seq<Run>, n: nat): int {
    var i := Fit(runs, n);
    if n == 0 || i == |runs| then NIL else runs[i].start
  }

  /** Where rt_slab_page_free stops: the first run that touches [start, start+n) or lies behind it. */
  function Stop(runs: seq<Run>, start: nat, n: nat): (i: nat)
    ensures i <= |runs|
    ensures i < |runs| ==> runs[i].start + runs[i].count == start || start + n <= runs[i].start
    ensures forall k :: 0 <= k < i ==> runs[k].start + runs[k].count != start && runs[k].start < start + n
  {
    if runs == [] || runs[0].start + runs[0].count == start || start + n <= runs[0].start then 0
    else 1 + Stop(runs[1..], start, n)
  }

  /** The pages join the run before them, the run after them, both, or neither. */
  function Merged(runs: seq<Run>, start: nat, n: nat): Run {
    var i := Stop(runs, start, n);
    if i < |runs| && runs[i].start + runs[i].count == start then
      if i + 1 < |runs| && runs[i + 1].start == start + n
      then Run(runs[i].start, runs[i].count + n + runs[i + 1].count)
      else Run(runs[i].start, runs[i].count + n)
    else if i < |runs| && runs[i].start == start + n then Run(start, n + runs[i].count)
    else Run(start, n)
  }

  /** The first run that is left as it was behind the merged one. */
  function Behind(runs: seq<Run>, start: nat, n: nat): (j: nat)
    ensures Stop(runs, start, n) <= j <= |runs| && j <= Stop(runs, start, n) + 2
  {
    var i := Stop(runs, start, n);
    if i < |runs| && runs[i].start + runs[i].count == start then
      if i + 1 < |runs| && runs[i + 1].start == start + n then i + 2 else i + 1
    else if i < |runs| && runs[i].start == start + n then i + 1
    else i
  }

  /** rt_slab_page_free */
  function Given(runs: seq<Run>, start: nat, n: nat): seq<Run> {
    runs[..Stop(runs, start, n)] + [Merged(runs, start, n)] + runs[Behind(runs, start, n)..]
  }

  // ---------------------------------------------------------------- replacing part of a list

  lemma FreeConcat(a: seq<Run>, b: seq<Run>, p: int)
    ensures IsFree(a + b, p) <==> IsFree(a, p) || IsFree(b, p)
  {
    if i :| 0 <= i < |a| && Covers(a[i], p) {
      assert Covers((a + b)[i], p);
    }
    if i :| 0 <= i < |b| && Covers(b[i], p) {
      assert Covers((a + b)[|a| + i], p);
    }
  }

  /** The pages of a list in which the runs from i to j have been replaced by m. */
  lemma FreeReplaced(runs: seq<Run>, i: nat, j: nat, m: seq<Run>, p: int)
    requires i <= j <= |runs|
    ensures IsFree(runs, p) <==> IsFree(runs[..i], p) || IsFree(runs[i..j], p) || IsFree(runs[j..], p)
    ensures IsFree(runs[..i] + m + runs[j..], p) <==> IsFree(runs[..i], p) || IsFree(m, p) || IsFree(runs[j..], p)
  {
    hide IsFree;
    FreeConcat(runs[..i], m, p);
    FreeConcat(runs[..i] + m, runs[j..], p);
    FreeConcat(runs[..i], runs[i..j], p);
    FreeConcat(runs[..i] + runs[i..j], runs[j..], p);
    assert runs[..i] + runs[i..j] + runs[j..] == runs;
  }

  lemma FreeShort(m: seq<Run>, p: int)
    requires |m| <= 2
    ensures IsFree(m, p) <==> (|m| > 0 && Covers(m[0], p)) || (|m| > 1 && Covers(m[1], p))
  {
  }

  /** Runs up to the i-th end, and runs from the j-th begin, clear of a run that is put between them. */
  lemma CanonicalReplaced(runs: seq<Run>, total: nat, i: nat, j: nat, m: seq<Run>)
    requires Canonical(runs, total) && i <= j <= |runs| && |m| <= 1
    requires m != [] ==> m[0].count > 0 && m[0].start + m[0].count <= total
    requires m != [] && i > 0 ==> runs[i - 1].start + runs[i - 1].count < m[0].start
    requires m != [] && j < |runs| ==> m[0].start + m[0].count < runs[j].start
    ensures Canonical(runs[..i] + m + runs[j..], total)
  {
    var r := runs[..i] + m + runs[j..];
    forall x | 0 <= x < |r| ensures r[x].count > 0 && r[x].start + r[x].count <= total {
      assert r[x] == if x < i then runs[x] else if x < i + |m| then m[0] else runs[x - i - |m| + j];
    }
    forall x, y | 0 <= x < y < |r| ensures r[x].start + r[x].count < r[y].start {
      ReplacedOrder(runs, total, i, j, m, x, y);
    }
  }

  lemma ReplacedOrder(runs: seq<Run>, total: nat, i: nat, j: nat, m: seq<Run>, x: nat, y: nat)
    requires Canonical(runs, total) && i <= j <= |runs| && |m| <= 1 && x < y < i + |m| + |runs| - j
    requires m != [] && i > 0 ==> runs[i - 1].start + runs[i - 1].count < m[0].start
    requires m != [] && j < |runs| ==> m[0].start + m[0].count < runs[j].start
    ensures var r := runs[..i] + m + runs[j..]; r[x].start + r[x].count < r[y].start
  {
    var r := runs[..i] + m + runs[j..];
    var x0, y0 := if x < i then x else x - i - |m| + j, if y < i then y else y - i - |m| + j;
    if m != [] && x == i {
      assert r[x] == m[0] && r[y] == runs[y0];
      assert y0 > j ==> runs[j].start + runs[j].count < runs[y0].start;
    } else if m != [] && y == i {
      assert r[x] == runs[x] && r[y] == m[0];
      assert x < i - 1 ==> runs[x].start + runs[x].count < runs[i - 1].start;
    } else {
      assert r[x] == runs[x0] && r[y] == runs[y0] && x0 < y0;
    }
  }

  /** Two neighbouring runs. */
  lemma Neighbours(runs: seq<Run>, total: nat, i: nat)
    requires Canonical(runs, total)
    ensures i < |runs| ==> runs[i].count > 0 && runs[i].start + runs[i].count <= total
    ensures i + 1 < |runs| ==> runs[i].start + runs[i].count < runs[i + 1].start
  {
  }

  // ---------------------------------------------------------------- what they mean for the pages

  /** Taking keeps the list canonical and uses up exactly the n pages handed out, all of which were free. */
  lemma TakenMeaning(runs: seq<Run>, total: nat, n: nat)
    requires Canonical(runs, total) && n > 0 && Fit(runs, n) < |runs|
    ensures Canonical(Taken(runs, n), total)
    ensures 0 <= TakenAt(runs, n) && TakenAt(runs, n) + n <= total && AllFree(runs, TakenAt(runs, n), n)
    ensures forall p :: IsFree(Taken(runs, n), p)
                        <==> IsFree(runs, p) && !(TakenAt(runs, n) <= p < TakenAt(runs, n) + n)
  {
    hide Canonical, IsFree, Taken;
    var i, a := Fit(runs, n), TakenAt(runs, n);
    TakenCanonical(runs, total, n);
    forall p ensures IsFree(Taken(runs, n), p) <==> IsFree(runs, p) && !(a <= p < a + n) {
      TakenPage(runs, total, n, p);
    }
    forall p | a <= p < a + n ensures IsFree(runs, p) {
      CoveredIsFree(runs, i, p);
    }
  }

  lemma TakenCanonical(runs: seq<Run>, total: nat, n: nat)
    requires Canonical(runs, total) && n > 0 && Fit(runs, n) < |runs|
    ensures Canonical(Taken(runs, n), total) && 0 <= TakenAt(runs, n) && TakenAt(runs, n) + n <= total
  {
    hide Canonical;
    var i := Fit(runs, n);
    if i > 0 {
      Neighbours(runs, total, i - 1);
    }
    Neighbours(runs, total, i);
    CanonicalReplaced(runs, total, i, i + 1, Remainder(runs[i], n));
  }

  lemma TakenPage(runs: seq<Run>, total: nat, n: nat, p: int)
    requires Canonical(runs, total) && n > 0 && Fit(runs, n) < |runs|
    ensures IsFree(Taken(runs, n), p) <==> IsFree(runs, p) && !(TakenAt(runs, n) <= p < TakenAt(runs, n) + n)
  {
    hide Canonical, IsFree;
    var i := Fit(runs, n);
    var m := Remainder(runs[i], n);
    FreeReplaced(runs, i, i + 1, m, p);
    FreeShort(m, p);
    assert runs[i..i + 1] == [runs[i]];
    FreeShort([runs[i]], p);
    Beside(runs, total, i, i + 1, p);
  }

  /** No page lies both in the runs from i to j and before or after them. */
  lemma Beside(runs: seq<Run>, total: nat, i: nat, j: nat, p: int)
    requires Canonical(runs, total) && i < j <= |runs|
    ensures IsFree(runs[..i], p) ==> p < runs[i].start
    ensures IsFree(runs[j..], p) ==> p >= runs[j - 1].start + runs[j - 1].count
  {
    if k :| 0 <= k < |runs| - j && Covers(runs[j..][k], p) {
      assert runs[j..][k] == runs[j + k];
    }
  }

  /** Pages that are free side by side belong to one run. */
  lemma OneRun(runs: seq<Run>, total: nat, i: nat, start: int, n: nat)
    requires Canonical(runs, total) && i < |runs| && Covers(runs[i], start) && AllFree(runs, start, n)
    ensures start + n <= runs[i].start + runs[i].count
  {
    var end := runs[i].start + runs[i].count;
    EndNotFree(runs, total, i);
    assert start <= end < start + n ==> IsFree(runs, end);
  }

  /** The page behind a run is in use. */
  lemma EndNotFree(runs: seq<Run>, total: nat, i: nat)
    requires Canonical(runs, total) && i < |runs|
    ensures !IsFree(runs, runs[i].start + runs[i].count)
  {
    forall k | 0 <= k < |runs| ensures !Covers(runs[k], runs[i].start + runs[i].count) {
      if k < i {
        assert runs[k].start + runs[k].count < runs[i].start;
      } else if i < k {
        assert runs[i].start + runs[i].count < runs[k].start;
      }
    }
  }

  /** No room is found exactly when no n pages side by side are free. */
  lemma TakenFailsIff(runs: seq<Run>, total: nat, n: nat)
    requires Canonical(runs, total) && n > 0
    ensures Fit(runs, n) == |runs| <==> !exists a :: AllFree(runs, a, n)
  {
    if Fit(runs, n) < |runs| {
      TakenMeaning(runs, total, n);
      assert AllFree(runs, TakenAt(runs, n), n);
    } else if a :| AllFree(runs, a, n) {
      assert IsFree(runs, a);
      var i :| 0 <= i < |runs| && Covers(runs[i], a);
      OneRun(runs, total, i, a, n);
    }
  }

  /** Giving back pages that are not free keeps the list canonical and frees exactly them. */
  lemma GivenMeaning(runs: seq<Run>, total: nat, start: nat, n: nat)
    requires Canonical(runs, total) && n > 0 && start + n <= total && NoneFree(runs, start, n)
    ensures Canonical(Given(runs, start, n), total)
    ensures forall p :: IsFree(Given(runs, start, n), p) <==> IsFree(runs, p) || start <= p < start + n
  {
    ApartFrom(runs, total, start, n);
    GivenCanonical(runs, total, start, n);
    GivenPages(runs, total, start, n);
  }

  lemma CoveredIsFree(runs: seq<Run>, i: nat, p: int)
    requires i < |runs|
    ensures runs[i].start <= p < runs[i].start + runs[i].count ==> IsFree(runs, p)
  {
    assert runs[i].start <= p < runs[i].start + runs[i].count ==> Covers(runs[i], p);
  }

  /** Every run lies on one side of pages none of which is free. */
  lemma ApartFrom(runs: seq<Run>, total: nat, start: nat, n: nat)
    requires Canonical(runs, total) && n > 0 && NoneFree(runs, start, n)
    ensures forall i :: 0 <= i < |runs| ==> runs[i].start + runs[i].count <= start || start + n <= runs[i].start
  {
    forall i | 0 <= i < |runs| ensures runs[i].start + runs[i].count <= start || start + n <= runs[i].start {
      CoveredIsFree(runs, i, runs[i].start);
      CoveredIsFree(runs, i, start);
    }
  }

  lemma GivenCanonical(runs: seq<Run>, total: nat, start: nat, n: nat)
    requires Canonical(runs, total) && n > 0 && start + n <= total
    requires forall i :: 0 <= i < |runs| ==> runs[i].start + runs[i].count <= start || start + n <= runs[i].start
    ensures Canonical(Given(runs, start, n), total)
  {
    hide Canonical;
    var i := Stop(runs, start, n);
    assert i > 0 ==> runs[i - 1].start + runs[i - 1].count < start;
    assert i + 1 < |runs| ==> runs[i + 1].start + runs[i + 1].count <= start || start + n <= runs[i + 1].start;
    if i > 0 {
      Neighbours(runs, total, i - 1);
    }
    Neighbours(runs, total, i);
    Neighbours(runs, total, i + 1);
    CanonicalReplaced(runs, total, i, Behind(runs, start, n), [Merged(runs, start, n)]);
  }

  lemma GivenPages(runs: seq<Run>, total: nat, start: nat, n: nat)
    requires Canonical(runs, total) && n > 0 && start + n <= total
    ensures forall p :: IsFree(Given(runs, start, n), p) <==> IsFree(runs, p) || start <= p < start + n
  {
    forall p ensures IsFree(Given(runs, start, n), p) <==> IsFree(runs, p) || start <= p < start + n {
      GivenPage(runs, start, n, p);
    }
  }

  lemma GivenPage(runs: seq<Run>, start: nat, n: nat, p: int)
    requires n > 0
    ensures IsFree(Given(runs, start, n), p) <==> IsFree(runs, p) || start <= p < start + n
  {
    hide IsFree;
    var i, j, r := Stop(runs, start, n), Behind(runs, start, n), Merged(runs, start, n);
    assert runs[i..j] == if j == i then [] else if j == i + 1 then [runs[i]] else [runs[i], runs[i + 1]];
    FreeReplaced(runs, i, j, [r], p);
    FreeShort(runs[i..j], p);
    FreeShort([r], p);
  }

  lemma SomePage(a: seq<Run>, total: nat)
    requires Canonical(a, total) && a != []
    ensures IsFree(a, a[0].start)
  {
    assert Covers(a[0], a[0].start);
  }

  /** A canonical list is determined by its pages. */
  lemma {:induction false} CanonicalUnique(a: seq<Run>, b: seq<Run>, total: nat)
    requires Canonical(a, total) && Canonical(b, total) && forall p :: IsFree(a, p) <==> IsFree(b, p)
    ensures a == b
  {
    if a != [] {
      SomePage(a, total);
    }
    if b != [] {
      SomePage(b, total);
    }
    if a != [] && b != [] {
      FirstRun(a, b, total);
      FirstRun(b, a, total);
      RestFree(a, total);
      RestFree(b, total);
      CanonicalUnique(a[1..], b[1..], total);
    }
  }

  lemma FirstRun(a: seq<Run>, b: seq<Run>, total: nat)
    requires Canonical(a, total) && Canonical(b, total) && a != [] && b != []
    requires forall p :: IsFree(a, p) <==> IsFree(b, p)
    ensures b[0].start <= a[0].start
    ensures a[0].start == b[0].start ==> a[0].count <= b[0].count
  {
    assert Covers(a[0], a[0].start) && IsFree(a, a[0].start);
    var k :| 0 <= k < |b| && Covers(b[k], a[0].start);
    if a[0].start == b[0].start {
      assert Covers(b[0], b[0].start);
      forall p | a[0].start <= p < a[0].start + a[0].count ensures IsFree(b, p) {
        assert Covers(a[0], p);
        assert IsFree(a, p);
      }
      OneRun(b, total, 0, a[0].start, a[0].count);
    }
  }

  lemma RestFree(a: seq<Run>, total: nat)
    requires Canonical(a, total) && a != []
    ensures Canonical(a[1..], total)
    ensures forall p :: IsFree(a[1..], p) <==> IsFree(a, p) && !Covers(a[0], p)
  {
    forall p ensures IsFree(a[1..], p) <==> IsFree(a, p) && !Covers(a[0], p) {
      if k :| 0 <= k < |a| - 1 && Covers(a[1..][k], p) {
        assert Covers(a[k + 1], p);
      }
      if k :| 0 <= k < |a| && Covers(a[k], p) && !Covers(a[0], p) {
        assert Covers(a[1..][k - 1], p);
      }
    }
  }

  /** Giving back what was just taken restores the list. */
  lemma TakeThenGive(runs: seq<Run>, total: nat, n: nat)
    requires Canonical(runs, total) && n > 0 && Fit(runs, n) < |runs|
    ensures TakenAt(runs, n) >= 0 && Given(Taken(runs, n), TakenAt(runs, n), n) == runs
  {
    hide IsFree, Given, Taken, Canonical, Fit;
    TakenMeaning(runs, total, n);
    var a, r := TakenAt(runs, n), Taken(runs, n);
    assert NoneFree(r, a, n);
    GivenMeaning(r, total, a, n);
    forall p ensures IsFree(Given(r, a, n), p) <==> IsFree(runs, p) {
      assert a <= p < a + n ==> IsFree(runs, p);
    }
    CanonicalUnique(Given(r, a, n), runs, total);
  }

  // ---------------------------------------------------------------- the list in place

  function Starts(runs: seq<Run>): (s: seq<nat>)
    ensures |s| == |runs| && forall i :: 0 <= i < |s| ==> s[i] == runs[i].start
  {
    seq(|runs|, i requires 0 <= i < |runs| => runs[i].start)
  }

  /** Relinking a list in which the nodes from i to j are replaced by at most one other. */
  lemma ChainReplaced(next: seq<int>, nodes: seq<nat>, i: nat, j: nat, m: seq<nat>, next2: seq<int>)
    requires Chain(next, nodes) && i <= j <= |nodes| && |m| <= 1 && |next2| == |next|
    requires m != [] ==> m[0] < |next| && m[0] !in nodes[..i] && m[0] !in nodes[j..]
    requires forall k :: 0 <= k < i - 1 || j <= k < |nodes| ==> next2[nodes[k]] == next[nodes[k]]
    requires i > 0 ==> next2[nodes[i - 1]] == Head(m + nodes[j..], 0)
    requires m != [] ==> next2[m[0]] == Head(nodes[j..], 0)
    ensures Chain(next2, nodes[..i] + m + nodes[j..])
  {
    var r := nodes[..i] + m + nodes[j..];
    ReplacedDistinct(nodes, i, j, m);
    ReplacedInRange(nodes, i, j, m, |next|);
    hide Distinct, InRange, Threaded;
    forall k: nat | k < |r| ensures Threaded(next2, r, k) {
      ReplacedThreaded(next, nodes, i, j, m, next2, k);
    }
  }

  lemma ReplacedInRange(nodes: seq<nat>, i: nat, j: nat, m: seq<nat>, bound: nat)
    requires InRange(nodes, bound) && i <= j <= |nodes| && InRange(m, bound)
    ensures InRange(nodes[..i] + m + nodes[j..], bound)
  {
  }

  lemma ReplacedDistinct(nodes: seq<nat>, i: nat, j: nat, m: seq<nat>)
    requires Distinct(nodes) && i <= j <= |nodes| && |m| <= 1
    requires m != [] ==> m[0] !in nodes[..i] && m[0] !in nodes[j..]
    ensures Distinct(nodes[..i] + m + nodes[j..])
  {
    var r := nodes[..i] + m + nodes[j..];
    forall x, y | 0 <= x < y < |r| ensures r[x] != r[y] {
      assert x < i ==> r[x] == nodes[..i][x];
      assert y < i ==> r[y] == nodes[..i][y];
      assert x >= i + |m| ==> r[x] == nodes[j..][x - i - |m|];
      assert y >= i + |m| ==> r[y] == nodes[j..][y - i - |m|];
    }
  }

  lemma ReplacedThreaded(next: seq<int>, nodes: seq<nat>, i: nat, j: nat, m: seq<nat>, next2: seq<int>, k: nat)
    requires Chain(next, nodes) && i <= j <= |nodes| && |m| <= 1 && |next2| == |next|
    requires InRange(nodes[..i] + m + nodes[j..], |next2|) && k < i + |m| + |nodes| - j
    requires forall k :: 0 <= k < i - 1 || j <= k < |nodes| ==> next2[nodes[k]] == next[nodes[k]]
    requires i > 0 ==> next2[nodes[i - 1]] == Head(m + nodes[j..], 0)
    requires m != [] ==> m[0] < |next| && next2[m[0]] == Head(nodes[j..], 0)
    ensures Threaded(next2, nodes[..i] + m + nodes[j..], k)
  {
    var r := nodes[..i] + m + nodes[j..];
    if k < i - 1 {
      assert Threaded(next, nodes, k);
    } else if k >= i + |m| {
      var o := k - i - |m| + j;
      assert r[k] == nodes[o] && Threaded(next, nodes, o);
    }
  }

  class PageList {
    const total: nat
    const next: array<int>
    const count: array<nat>
    var list: int
    ghost var runs: seq<Run>

    /** The list runs through the first pages of the free runs. */
    ghost predicate Shaped()
      reads this, next, count
    {
      next.Length == count.Length == total
      && Chain(next[..], Starts(runs)) && list == Head(Starts(runs), 0)
      && forall i :: 0 <= i < |runs| ==> count[runs[i].start] == runs[i].count
    }

    ghost predicate Valid()
      reads this, next, count
    {
      Shaped() && Canonical(runs, total)
    }

    /** rt_slab_page_init: all pages are free. */
    constructor (pages: nat)
      requires pages > 0
      ensures fresh(next) && fresh(count) && Valid() && total == pages && runs == [Run(0, pages)]
    {
      var ns := new int[pages](_ => NIL);
      var cs := new nat[pages](_ => pages);
      total, next, count, list, runs := pages, ns, cs, 0, [Run(0, pages)];
    }

    /** *prev = value, where prev is the list head or the link of a run. */
    method SetLink(prev: int, value: int)
      requires prev == NIL || 0 <= prev < next.Length
      modifies this`list, next
      ensures list == if prev == NIL then value else old(list)
      ensures next[..] == if prev == NIL then old(next[..]) else old(next[..])[prev := value]
    {
      if prev == NIL {
        list := value;
      } else {
        next[prev] := value;
      }
    }

    method FindFit(n: nat) returns (prev: int, b: int)
      requires Valid()
      ensures var i := Fit(runs, n);
              b == Head(Starts(runs), i) && prev == (if i == 0 then NIL else runs[i - 1].start)
    {
      hide Chain, Canonical;
      ghost var k := 0;
      prev, b := NIL, list;
      while b != NIL
        invariant k <= |runs| && b == Head(Starts(runs), k) && prev == if k == 0 then NIL else runs[k - 1].start
        invariant forall x :: 0 <= x < k ==> runs[x].count < n
        decreases |runs| - k
      {
        NextRun(runs, next[..], k);
        if count[b] >= n {
          break;
        }
        prev := b;
        b := next[b];
        k := k + 1;
      }
      FitIs(runs, n, k);
    }

    /** The i-th to the (j-1)-th run give way to one whose description is written into page `start`. */
    method PutRun(prev: int, after: int, start: nat, pages: nat, ghost i: nat, ghost j: nat)
      requires Shaped() && i <= j <= |runs| && start < total
      requires prev == (if i == 0 then NIL else runs[i - 1].start) && after == Head(Starts(runs), j)
      requires start !in Starts(runs)[..i] && start !in Starts(runs)[j..]
      modifies this`list, this`runs, next, count
      ensures Shaped() && runs == old(runs)[..i] + [Run(start, pages)] + old(runs)[j..]
    {
      ghost var nodes, nx, was := Starts(runs), next[..], runs;
      InStarts(runs, next.Length, nx);
      next[start] := after;
      count[start] := pages;
      SetLink(prev, start);
      runs := was[..i] + [Run(start, pages)] + was[j..];
      StartsReplaced(was, i, j, [Run(start, pages)]);
      PutChain(nx, nodes, i, j, start, after, next[..]);
      hide Chain;
      CountsReplaced(was, i, j, Run(start, pages), old(count[..]), count[..]);
    }

    method DropRun(prev: int, after: int, ghost i: nat)
      requires Shaped() && i < |runs|
      requires prev == (if i == 0 then NIL else runs[i - 1].start) && after == Head(Starts(runs), i + 1)
      modifies this`list, this`runs, next
      ensures Shaped() && runs == old(runs)[..i] + old(runs)[i + 1..]
    {
      ghost var nodes, nx, was := Starts(runs), next[..], runs;
      InStarts(runs, next.Length, nx);
      SetLink(prev, after);
      runs := was[..i] + was[i + 1..];
      StartsDropped(was, i);
      DropChain(nx, nodes, i, after, next[..]);
      hide Chain;
      assert forall k :: 0 <= k < |runs| ==> runs[k] == was[if k < i then k else k + 1];
    }

    /** The first n pages of the i-th run are taken, and the rest of it stays in its place. */
    method TakeFrom(prev: int, b: nat, n: nat, ghost i: nat)
      requires Shaped() && i < |runs| && b == runs[i].start < total && 0 < n <= runs[i].count && b + runs[i].count <= total
      requires prev == (if i == 0 then NIL else runs[i - 1].start) && next[b] == Head(Starts(runs), i + 1)
      requires NoneInside(runs, i)
      modifies this`list, this`runs, next, count
      ensures Shaped() && runs == old(runs[..i] + Remainder(runs[i], n) + runs[i + 1..])
    {
      hide Chain;
      if count[b] > n {
        PutRun(prev, next[b], b + n, count[b] - n, i, i + 1);
      } else {
        DropRun(prev, next[b], i);
        assert old(runs)[..i] + old(runs)[i + 1..] == old(runs)[..i] + [] + old(runs)[i + 1..];
      }
    }

    /** The search and what it finds. */
    method TakeFit(n: nat) returns (b: int)
      requires Valid() && n > 0
      modifies this`list, this`runs, next, count
      ensures Valid() && b == TakenAt(old(runs), n) && runs == Taken(old(runs), n)
    {
      hide Chain, Canonical, Remainder, Fit, Starts, Taken, TakenAt, NoneInside;
      TakenIs(runs, n);
      var prev;
      prev, b := FindFit(n);
      if b != NIL {
        ghost var i := Fit(runs, n);
        LinkOf(runs, total, next[..], i);
        TakenCanonical(runs, total, n);
        TakeFrom(prev, b, n, i);
      }
    }

    /** rt_slab_page_alloc */
    method Take(n: nat) returns (b: int)
      requires Valid()
      modifies this`list, this`runs, next, count
      ensures Valid() && b == TakenAt(old(runs), n) && runs == Taken(old(runs), n)
    {
      if n == 0 {
        return NIL;
      }
      b := TakeFit(n);
    }

    /** The i-th run grows in place and swallows the runs up to the j-th. */
    method GrowRun(b: nat, pages: nat, after: int, ghost i: nat, ghost j: nat)
      requires Shaped() && i < |runs| && b == runs[i].start < total && i < j <= |runs| && after == Head(Starts(runs), j)
      modifies this`runs, next, count
      ensures Shaped() && runs == old(runs)[..i] + [Run(b, pages)] + old(runs)[j..]
    {
      ghost var nodes, nx, was := Starts(runs), next[..], runs;
      InStarts(runs, next.Length, nx);
      next[b] := after;
      count[b] := pages;
      runs := was[..i] + [Run(b, pages)] + was[j..];
      StartsReplaced(was, i, j, [Run(b, pages)]);
      GrowChain(nx, nodes, i, j, after, next[..]);
      hide Chain;
      CountsReplaced(was, i, j, Run(b, pages), old(count[..]), count[..]);
    }

    method FindStop(start: nat, n: nat) returns (prev: int, b: int)
      requires Valid() && n > 0 && NoneFree(runs, start, n)
      ensures var i := Stop(runs, start, n);
              b == Head(Starts(runs), i) && prev == (if i == 0 then NIL else runs[i - 1].start)
    {
      hide Chain, Canonical, IsFree, NoneFree;
      ghost var k := 0;
      prev, b := NIL, list;
      while b != NIL
        invariant k <= |runs| && b == Head(Starts(runs), k) && prev == if k == 0 then NIL else runs[k - 1].start
        invariant forall x :: 0 <= x < k ==> runs[x].start + runs[x].count != start && runs[x].start < start + n
        decreases |runs| - k
      {
        NextRun(runs, next[..], k);
        if b + count[b] == start || b == start + n || b > start + n {
          break;
        }
        prev := b;
        b := next[b];
        k := k + 1;
      }
      StopIs(runs, start, n, k);
    }

    /** The run before the given pages grows over them, and over the run behind them if it touches that too. */
    method Extend(b: nat, start: nat, n: nat, ghost i: nat)
      requires Valid() && n > 0 && i == Stop(runs, start, n) < |runs| && b == runs[i].start
      requires runs[i].start + runs[i].count == start
      modifies this`runs, next, count
      ensures Shaped() && runs == Given(old(runs), start, n)
    {
      hide Chain, Canonical, Stop, Given;
      GivenIs(runs, start, n, i);
      NextRun(runs, next[..], i);
      if i + 1 < |runs| {
        NextRun(runs, next[..], i + 1);
      }
      var pages := count[b] + n;
      if b + pages == next[b] {
        GrowRun(b, pages + count[next[b]], next[next[b]], i, i + 2);
      } else {
        GrowRun(b, pages, next[b], i, i + 1);
      }
    }

    /** rt_slab_page_free */
    method Give(start: nat, n: nat)
      requires Valid() && n > 0 && start + n <= total && NoneFree(runs, start, n)
      modifies this`list, this`runs, next, count
      ensures Valid() && runs == Given(old(runs), start, n)
    {
      hide Chain, Canonical, Given, IsFree;
      GivenMeaning(runs, total, start, n);
      var prev, b := FindStop(start, n);
      ghost var i := Stop(runs, start, n);
      if i < |runs| {
        NextRun(runs, next[..], i);
      }
      if b != NIL && b + count[b] == start {
        Extend(b, start, n, i);
      } else {
        Insert(prev, b, start, n, i);
      }
    }

    /** The given pages become a run of their own, or take over the one that begins behind them. */
    method Insert(prev: int, b: int, start: nat, n: nat, ghost i: nat)
      requires Valid() && n > 0 && start + n <= total && NoneFree(runs, start, n) && i == Stop(runs, start, n)
      requires b == Head(Starts(runs), i) && prev == (if i == 0 then NIL else runs[i - 1].start)
      requires i < |runs| ==> runs[i].start + runs[i].count != start
      modifies this`list, this`runs, next, count
      ensures Shaped() && runs == Given(old(runs), start, n)
    {
      hide Chain, Canonical, Stop, Given, IsFree, NoneFree;
      GivenIs(runs, start, n, i);
      ApartFrom(runs, total, start, n);
      StartApart(runs, total, start, n);
      if i < |runs| {
        NextRun(runs, next[..], i);
      }
      if b != NIL && b == start + n {
        PutRun(prev, next[b], start, count[b] + n, i, i + 1);
      } else {
        PutRun(prev, b, start, n, i, i);
      }
    }
  }

  /** Pages that are not free are not the first page of any run. */
  lemma StartApart(runs: seq<Run>, total: nat, start: nat, n: nat)
    requires Canonical(runs, total) && n > 0
    requires forall i :: 0 <= i < |runs| ==> runs[i].start + runs[i].count <= start || start + n <= runs[i].start
    ensures start !in Starts(runs)
    ensures forall i :: 0 <= i <= |runs| ==> start !in Starts(runs)[..i] && start !in Starts(runs)[i..]
  {
  }

  lemma GrowChain(next: seq<int>, nodes: seq<nat>, i: nat, j: nat, after: int, next2: seq<int>)
    requires Chain(next, nodes) && i < j <= |nodes| && nodes[i] < |next| && after == Head(nodes, j)
    requires next2 == next[nodes[i] := after]
    ensures Chain(next2, nodes[..i] + [nodes[i]] + nodes[j..])
  {
    assert i > 0 ==> Threaded(next, nodes, i - 1);
    ChainReplaced(next, nodes, i, j, [nodes[i]], next2);
  }

  lemma {:induction false} StopIs(runs: seq<Run>, start: nat, n: nat, i: nat)
    requires i <= |runs|
    requires i < |runs| ==> runs[i].start + runs[i].count == start || start + n <= runs[i].start
    requires forall k :: 0 <= k < i ==> runs[k].start + runs[k].count != start && runs[k].start < start + n
    ensures Stop(runs, start, n) == i
  {
    if i > 0 {
      assert runs[0].start < start + n;
      StopIs(runs[1..], start, n, i - 1);
    }
  }

  lemma NextRun(runs: seq<Run>, next: seq<int>, i: nat)
    requires Chain(next, Starts(runs)) && i < |runs|
    ensures runs[i].start < |next| && next[runs[i].start] == Head(Starts(runs), i + 1)
  {
    assert Threaded(next, Starts(runs), i);
  }

  /** The four ways of giving pages back, spelt out. */
  lemma GivenIs(runs: seq<Run>, start: nat, n: nat, i: nat)
    requires i == Stop(runs, start, n) && n > 0
    ensures i < |runs| && runs[i].start + runs[i].count == start && !(i + 1 < |runs| && runs[i + 1].start == start + n)
            ==> Given(runs, start, n) == runs[..i] + [Run(runs[i].start, runs[i].count + n)] + runs[i + 1..]
    ensures i + 1 < |runs| && runs[i].start + runs[i].count == start && runs[i + 1].start == start + n
            ==> Given(runs, start, n)
                == runs[..i] + [Run(runs[i].start, runs[i].count + n + runs[i + 1].count)] + runs[i + 2..]
    ensures i < |runs| && runs[i].start == start + n
            ==> Given(runs, start, n) == runs[..i] + [Run(start, n + runs[i].count)] + runs[i + 1..]
    ensures i < |runs| ==> runs[i].start + runs[i].count == start || runs[i].start >= start + n
    ensures i == |runs| || (runs[i].start + runs[i].count != start && runs[i].start != start + n)
            ==> Given(runs, start, n) == runs[..i] + [Run(start, n)] + runs[i..]
  {
  }

  /** No other run begins inside the i-th. */
  ghost predicate NoneInside(runs: seq<Run>, i: nat)
    requires i < |runs|
  {
    forall p :: runs[i].start < p < runs[i].start + runs[i].count
                ==> p !in Starts(runs)[..i] && p !in Starts(runs)[i + 1..]
  }

  /** What the description of the i-th run links to, and that no other run begins inside it. */
  lemma LinkOf(runs: seq<Run>, total: nat, next: seq<int>, i: nat)
    requires Chain(next, Starts(runs)) && |next| == total && Canonical(runs, total) && i < |runs|
    ensures runs[i].start < total && next[runs[i].start] == Head(Starts(runs), i + 1)
    ensures runs[i].count > 0 && runs[i].start + runs[i].count <= total
    ensures NoneInside(runs, i)
  {
    assert Threaded(next, Starts(runs), i);
    forall p | runs[i].start < p < runs[i].start + runs[i].count
      ensures p !in Starts(runs)[..i] && p !in Starts(runs)[i + 1..]
    {
      assert forall k :: 0 <= k < i ==> runs[k].start + runs[k].count < runs[i].start;
      assert forall k :: i < k < |runs| ==> runs[i].start + runs[i].count < runs[k].start;
    }
  }

  lemma InStarts(runs: seq<Run>, total: nat, next: seq<int>)
    requires Chain(next, Starts(runs)) && |next| == total
    ensures Distinct(Starts(runs)) && InRange(Starts(runs), total)
    ensures forall i :: 0 <= i < |runs| ==> runs[i].start < total
  {
    assert forall i :: 0 <= i < |runs| ==> Starts(runs)[i] == runs[i].start;
  }

  lemma StartsReplaced(runs: seq<Run>, i: nat, j: nat, m: seq<Run>)
    requires i <= j <= |runs| && |m| <= 1
    ensures Starts(runs[..i] + m + runs[j..])
            == Starts(runs)[..i] + (if m == [] then [] else [m[0].start]) + Starts(runs)[j..]
  {
  }

  lemma StartsDropped(runs: seq<Run>, i: nat)
    requires i < |runs|
    ensures Starts(runs[..i] + runs[i + 1..]) == Starts(runs)[..i] + Starts(runs)[i + 1..]
  {
  }

  lemma CountsReplaced(runs: seq<Run>, i: nat, j: nat, r: Run, count: seq<nat>, count2: seq<nat>)
    requires i <= j <= |runs| && r.start < |count| && count2 == count[r.start := r.count]
    requires forall k :: 0 <= k < |runs| ==> runs[k].start < |count| && count[runs[k].start] == runs[k].count
    requires r.start !in Starts(runs)[..i] && r.start !in Starts(runs)[j..]
    ensures var s := runs[..i] + [r] + runs[j..];
            forall k :: 0 <= k < |s| ==> s[k].start < |count| && count2[s[k].start] == s[k].count
  {
    var s := runs[..i] + [r] + runs[j..];
    forall k | 0 <= k < |s| ensures s[k].start < |count| && count2[s[k].start] == s[k].count {
      if k < i {
        assert s[k] == runs[k] && Starts(runs)[..i][k] == runs[k].start;
      } else if k > i {
        assert s[k] == runs[k - i - 1 + j] && Starts(runs)[j..][k - i - 1] == s[k].start;
      }
    }
  }

  lemma PutChain(next: seq<int>, nodes: seq<nat>, i: nat, j: nat, start: nat, after: int, next2: seq<int>)
    requires Chain(next, nodes) && i <= j <= |nodes| && start < |next| && after == Head(nodes, j)
    requires start !in nodes[..i] && start !in nodes[j..]
    requires i > 0 ==> nodes[i - 1] < |next|
    requires next2 == if i == 0 then next[start := after] else next[start := after][nodes[i - 1] := start]
    ensures Chain(next2, nodes[..i] + [start] + nodes[j..])
  {
    forall k | 0 <= k < i - 1 || j <= k < |nodes| ensures next2[nodes[k]] == next[nodes[k]] {
      assert k < i ==> nodes[..i][k] == nodes[k];
      assert k >= j ==> nodes[j..][k - j] == nodes[k];
    }
    assert i > 0 ==> nodes[..i][i - 1] == nodes[i - 1];
    ChainReplaced(next, nodes, i, j, [start], next2);
  }

  lemma DropChain(next: seq<int>, nodes: seq<nat>, i: nat, after: int, next2: seq<int>)
    requires Chain(next, nodes) && i < |nodes| && after == Head(nodes, i + 1)
    requires i > 0 ==> nodes[i - 1] < |next|
    requires next2 == if i == 0 then next else next[nodes[i - 1] := after]
    ensures Chain(next2, nodes[..i] + nodes[i + 1..])
  {
    assert nodes[..i] + [] + nodes[i + 1..] == nodes[..i] + nodes[i + 1..];
    ChainReplaced(next, nodes, i, i + 1, [], next2);
  }

  lemma TakenIs(runs: seq<Run>, n: nat)
    requires n > 0
    ensures var i := Fit(runs, n);
            TakenAt(runs, n) == (if i < |runs| then runs[i].start else NIL)
            && Taken(runs, n) == if i < |runs| then runs[..i] + Remainder(runs[i], n) + runs[i + 1..] else runs
  {
  }

  lemma {:induction false} FitIs(runs: seq<Run>, n: nat, i: nat)
    requires i <= |runs| && (i < |runs| ==> runs[i].count >= n)
    requires forall k :: 0 <= k < i ==> runs[k].count < n
    ensures Fit(runs, n) == i
  {
    if i > 0 {
      assert runs[0].count < n;
      FitIs(runs[1..], n, i - 1);
    }
  }
}
