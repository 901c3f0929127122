/** The size classes of slab.c and the layout of a zone. */
module SlabSizes {

  const PAGE: nat := 4096
  const CLASSES: nat := 72
  const HEADER: nat := 36
  const MIN_ZONE: nat := 32768
  const MAX_ZONE: nat := 131072
  const ZONE_LIMIT: nat := 16384

  function RoundUp(n: nat, unit: nat): nat
    requires unit > 0
  {
    (n + unit - 1) / unit * unit
  }

  lemma RoundUpIs(n: nat, unit: nat)
    requires unit > 0
    ensures n <= RoundUp(n, unit) < n + unit
  {
    var x := n + unit - 1;
    assert x == x / unit * unit + x % unit;
  }

  lemma SmallProduct(d: int, unit: nat)
    ensures d <= 1 ==> d * unit <= unit
  {
  }

  lemma DivAtLeastTwo(x: nat, unit: nat)
    requires unit > 0 && x >= 2 * unit
    ensures x / unit >= 2
  {
    assert x == x / unit * unit + x % unit;
    SmallProduct(x / unit, unit);
  }

  // ---------------------------------------------------------------- size classes

  /** The chunk size of a class, eight classes to each doubling from 128 on. */
  function ChunkSize(i: nat): nat {
    if i < 16 then 8 * (i + 1)
    else if i < 24 then 16 * (i - 7)
    else if i < 32 then 32 * (i - 15)
    else if i < 40 then 64 * (i - 23)
    else if i < 48 then 128 * (i - 31)
    else if i < 56 then 256 * (i - 39)
    else if i < 64 then 512 * (i - 47)
    else 1024 * (i - 55)
  }

  /** The granularity zoneindex picks for a request. */
  function Unit(n: nat): (u: nat)
    ensures u > 0
  {
    if n < 128 then 8 else if n < 256 then 16 else if n < 512 then 32 else if n < 1024 then 64
    else if n < 2048 then 128 else if n < 4096 then 256 else if n < 8192 then 512 else 1024
  }

  /** What zoneindex leaves in *bytes. */
  function Rounded(n: nat): nat {
    if n < 16384 then RoundUp(n, Unit(n)) else n
  }

  /** What zoneindex returns; -1 for 0 bytes, which no caller passes. */
  function IndexFor(n: nat): int {
    var r := Rounded(n);
    if n < 128 then r / 8 - 1 else if n < 256 then r / 16 + 7 else if n < 512 then r / 32 + 15
    else if n < 1024 then r / 64 + 23 else if n < 2048 then r / 128 + 31 else if n < 4096 then r / 256 + 39
    else if n < 8192 then r / 512 + 47 else if n < 16384 then r / 1024 + 55
    else 0
  }

  /** The index names the smallest class that is large enough, and the size is rounded to exactly that class. */
  lemma BestClass(n: nat)
    requires 0 < n < ZONE_LIMIT
    ensures 0 <= IndexFor(n) < CLASSES
    ensures Rounded(n) == ChunkSize(IndexFor(n)) && n <= Rounded(n)
    ensures forall j: nat :: j < CLASSES ==> (n <= ChunkSize(j) <==> IndexFor(n) <= j)
  {
    if n < 256 {
      ClassLow(n);
    } else if n < 512 {
      ClassMiddle(n);
    } else if n < 1024 {
      ClassHalf(n);
    } else if n < 4096 {
      ClassUpper(n);
    } else {
      ClassHigh(n);
    }
    hide ChunkSize, IndexFor, Rounded;
    Smallest(n, IndexFor(n));
  }

  lemma ClassLow(n: nat)
    requires 0 < n < 256
    ensures 0 <= IndexFor(n) < CLASSES && Rounded(n) == ChunkSize(IndexFor(n)) && n <= Rounded(n)
    ensures IndexFor(n) > 0 ==> ChunkSize(IndexFor(n) - 1) < n
  {
  }

  lemma ClassMiddle(n: nat)
    requires 256 <= n < 512
    ensures 0 < IndexFor(n) < CLASSES && Rounded(n) == ChunkSize(IndexFor(n)) && n <= Rounded(n)
    ensures ChunkSize(IndexFor(n) - 1) < n
  {
  }

  lemma ClassHalf(n: nat)
    requires 512 <= n < 1024
    ensures 0 < IndexFor(n) < CLASSES && Rounded(n) == ChunkSize(IndexFor(n)) && n <= Rounded(n)
    ensures ChunkSize(IndexFor(n) - 1) < n
  {
  }

  lemma ClassUpper(n: nat)
    requires 1024 <= n < 4096
    ensures 0 < IndexFor(n) < CLASSES && Rounded(n) == ChunkSize(IndexFor(n)) && n <= Rounded(n)
    ensures ChunkSize(IndexFor(n) - 1) < n
  {
  }

  lemma ClassHigh(n: nat)
    requires 4096 <= n < ZONE_LIMIT
    ensures 0 < IndexFor(n) < CLASSES && Rounded(n) == ChunkSize(IndexFor(n)) && n <= Rounded(n)
    ensures ChunkSize(IndexFor(n) - 1) < n
  {
  }

  lemma Smallest(n: nat, i: nat)
    requires i < CLASSES && n <= ChunkSize(i) && (i > 0 ==> ChunkSize(i - 1) < n)
    ensures forall j: nat :: j < CLASSES ==> (n <= ChunkSize(j) <==> i <= j)
  {
    hide ChunkSize;
    forall j: nat | j < CLASSES ensures n <= ChunkSize(j) <==> i <= j {
      if j < i {
        Increasing(j, i - 1);
      } else {
        Increasing(i, j);
      }
    }
  }

  lemma Increasing(i: nat, j: nat)
    requires i <= j < CLASSES
    ensures ChunkSize(i) <= ChunkSize(j)
  {
  }

  // ---------------------------------------------------------------- masks

  const WORDS: nat := 0x1_0000_0000

  type Word = n: nat | n < WORDS

  /** The bitwise and. */
  function BitAnd(a: nat, b: nat): nat {
    if a == 0 || b == 0 then 0
    else (if a % 2 == 1 && b % 2 == 1 then 1 else 0) + 2 * BitAnd(a / 2, b / 2)
  }

  /** The bitwise complement of a 32-bit word. */
  function Not(a: Word): Word {
    WORDS - 1 - a
  }

  function Power(k: nat): (p: nat)
    ensures p > 0
  {
    if k == 0 then 1 else 2 * Power(k - 1)
  }

  lemma {:induction false} AllOnes(x: nat, w: nat)
    requires x < Power(w)
    ensures BitAnd(x, Power(w) - 1) == x
  {
    if w > 0 && x > 0 {
      AllOnes(x / 2, w - 1);
      assert (Power(w) - 1) / 2 == Power(w - 1) - 1;
    }
  }

  /** Clearing the k lowest of w bits rounds down to a multiple of 2^k. */
  lemma {:induction false} Clearing(x: nat, w: nat, k: nat)
    requires k <= w && x < Power(w)
    ensures Power(k) <= Power(w)
    ensures BitAnd(x, Power(w) - Power(k)) == x / Power(k) * Power(k)
  {
    if k == 0 {
      AllOnes(x, w);
    } else {
      Clearing(x / 2, w - 1, k - 1);
      var m, p := Power(w) - Power(k), Power(k - 1);
      assert m % 2 == 0 && m / 2 == Power(w - 1) - p && Power(k) == 2 * p;
      hide Power, BitAnd;
      EvenMask(x, m);
      HalvedTwice(x, p);
      Regroup(x / (2 * p), p);
    }
  }

  lemma EvenMask(x: nat, m: nat)
    requires m % 2 == 0
    ensures BitAnd(x, m) == 2 * BitAnd(x / 2, m / 2)
  {
  }

  lemma Regroup(a: nat, p: nat)
    ensures 2 * (a * p) == a * (2 * p)
  {
  }

  lemma HalvedTwice(x: nat, p: nat)
    requires p > 0
    ensures x / 2 / p == x / (2 * p)
  {
    var q, r := x / 2 / p, x / 2 % p;
    assert x / 2 == q * p + r;
    assert x == q * (2 * p) + (2 * r + x % 2);
    Quotient(x, 2 * p, q, 2 * r + x % 2);
  }

  lemma Quotient(x: nat, d: nat, q: nat, r: nat)
    requires d > 0 && x == q * d + r && r < d
    ensures x / d == q
  {
    var e := x / d - q;
    assert x == x / d * d + x % d;
    assert e * d == r - x % d;
    Sandwich(e, d);
  }

  lemma Sandwich(e: int, d: nat)
    ensures e >= 1 ==> e * d >= d
    ensures e <= -1 ==> e * d + d <= 0
  {
  }

  lemma Powers()
    ensures Power(3) == 8 && Power(4) == 16 && Power(5) == 32 && Power(6) == 64 && Power(7) == 128
    ensures Power(8) == 256 && Power(9) == 512 && Power(10) == 1024 && Power(32) == WORDS
  {
    assert Power(2) == 4;
    assert Power(4) == 16 && Power(6) == 64 && Power(8) == 256 && Power(10) == 1024;
    assert Power(12) == 4096 && Power(14) == 16384 && Power(16) == 65536 && Power(18) == 0x40000;
    assert Power(20) == 0x10_0000 && Power(22) == 0x40_0000 && Power(24) == 0x100_0000 && Power(26) == 0x400_0000;
    assert Power(28) == 0x1000_0000 && Power(30) == 0x4000_0000;
  }

  /** Adding one less than a power of two and masking is rounding up. */
  lemma Masking(n: nat, unit: nat, k: nat)
    requires n < ZONE_LIMIT && 3 <= k <= 10 && unit == Power(k)
    ensures 0 < unit <= 1024 && BitAnd(n + (unit - 1), Not(unit - 1)) == RoundUp(n, unit)
  {
    Powers();
    hide Power;
    assert 0 < unit <= 1024;
    Clearing(n + (unit - 1), 32, k);
  }

  /** zoneindex: the size is rounded up by adding and masking, and shifted into its index. */
  method ZoneIndex(bytes: Word) returns (index: int, rounded: nat)
    ensures index == IndexFor(bytes) && rounded == Rounded(bytes)
  {
    hide BitAnd, RoundUp;
    var n: nat := bytes;
    if n < 128 {
      Masking(n, 8, 3);
      n := BitAnd(n + 7, Not(7));
      return n / 8 - 1, n;
    }
    if n < 256 {
      Masking(n, 16, 4);
      n := BitAnd(n + 15, Not(15));
      return n / 16 + 7, n;
    }
    if n < 8192 {
      if n < 512 {
        Masking(n, 32, 5);
        n := BitAnd(n + 31, Not(31));
        return n / 32 + 15, n;
      }
      if n < 1024 {
        Masking(n, 64, 6);
        n := BitAnd(n + 63, Not(63));
        return n / 64 + 23, n;
      }
      if n < 2048 {
        Masking(n, 128, 7);
        n := BitAnd(n + 127, Not(127));
        return n / 128 + 31, n;
      }
      if n < 4096 {
        Masking(n, 256, 8);
        n := BitAnd(n + 255, Not(255));
        return n / 256 + 39, n;
      }
      Masking(n, 512, 9);
      n := BitAnd(n + 511, Not(511));
      return n / 512 + 47, n;
    }
    if n < 16384 {
      Masking(n, 1024, 10);
      n := BitAnd(n + 1023, Not(1023));
      return n / 1024 + 55, n;
    }
    return 0, n;
  }

  // ---------------------------------------------------------------- zones

  /** rt_slab_init: the zone size doubles with the heap, up to a limit. */
  method ZoneSize(limsize: nat) returns (size: nat)
    ensures ReachableZone(size)
    ensures size < MAX_ZONE ==> size * 2 >= limsize / 1024
    ensures size > MIN_ZONE ==> size < limsize / 1024
  {
    size := MIN_ZONE;
    while size < MAX_ZONE && size * 2 < limsize / 1024
      invariant ReachableZone(size) && (size > MIN_ZONE ==> size < limsize / 1024)
      decreases MAX_ZONE - size
    {
      size := size * 2;
    }
  }

  predicate ReachableZone(size: nat) {
    size == 32768 || size == 65536 || size == 131072
  }

  /** Requests from this size on get whole pages. */
  function Limit(zoneSize: nat): nat {
    if zoneSize / 4 > ZONE_LIMIT then ZONE_LIMIT else zoneSize / 4
  }

  predicate PowerOfTwo(n: nat) {
    n == 1 || (n > 1 && n % 2 == 0 && PowerOfTwo(n / 2))
  }

  /** Where the chunks begin behind the zone header. */
  function Offset(size: nat): nat
    requires size > 0
  {
    if PowerOfTwo(size) then RoundUp(HEADER, size) else RoundUp(HEADER, 8)
  }

  /** The chunks begin at the first multiple of their size behind the header if that is a power of two, else of 8. */
  lemma OffsetMeaning(size: nat)
    requires size > 0
    ensures var unit := if PowerOfTwo(size) then size else 8;
            Offset(size) % unit == 0 && HEADER <= Offset(size) < HEADER + unit
  {
    hide PowerOfTwo;
    var unit := if PowerOfTwo(size) then size else 8;
    RoundUpIs(HEADER, unit);
    Quotient(Offset(size), unit, (HEADER + unit - 1) / unit, 0);
    assert Offset(size) == Offset(size) / unit * unit + Offset(size) % unit;
  }

  function ChunksIn(zoneSize: nat, size: nat): int
    requires size > 0
  {
    (zoneSize - Offset(size)) / size
  }

  /** Every zone that can be made holds at least two chunks, and they end where the zone ends or before. */
  lemma AtLeastTwo(zoneSize: nat, size: nat)
    requires ReachableZone(zoneSize) && 0 < size <= Limit(zoneSize)
    ensures ChunksIn(zoneSize, size) >= 2
    ensures HEADER <= Offset(size) && Offset(size) + ChunksIn(zoneSize, size) * size <= zoneSize
  {
    hide PowerOfTwo, RoundUp;
    RoundUpIs(HEADER, size);
    RoundUpIs(HEADER, 8);
    var room := zoneSize - Offset(size);
    assert room >= 2 * size;
    assert room == room / size * size + room % size;
    DivAtLeastTwo(room, size);
  }
}
