/** The pool's size classes: four classes whose anchors are 64, 128, 256 and
    512 bytes, and the `index` function that maps a buffer length to its
    class. */
module SizeClasses {
  import opened Powers

  /** 2^6 = 64: the anchor of the smallest class. */
  const MinBitSize: nat := 6

  /** The number of size classes (and of call counters). */
  const Steps: nat := 4

  /** minSize = 1 << minBitSize. */
  const MinSize: nat := Pow2(MinBitSize)

  /** Put recalibrates once one counter goes above this many calls. */
  const CalibrateCallsThreshold: nat := 42000

  /** maxPercentile = 0.95, as the fraction 95/100. */
  const PercentileNumerator: nat := 95
  const PercentileDenominator: nat := 100

  /** The anchor of class i: minSize << i. */
  function Anchor(i: nat): (a: nat)
    ensures a >= MinSize
  {
    MinSize * Pow2(i)
  }

  /** A capacity that is the anchor of one of the classes. */
  predicate IsAnchor(size: nat)
  {
    exists i :: 0 <= i < Steps && size == Anchor(i)
  }

  /** The class of a length n: the least i whose anchor covers n, the last
      class taking every n above the largest anchor. */
  function ClassIndex(n: int): (i: nat)
    ensures i < Steps
    ensures forall j :: 0 <= j < i ==> n > Anchor(j)
    ensures i < Steps - 1 ==> n <= Anchor(i)
  {
    CoveringFrom(n, 0)
  }

  /** The least class from i on whose anchor covers n, capped at the last. */
  function CoveringFrom(n: int, i: nat): (c: nat)
    requires i < Steps
    requires forall j :: 0 <= j < i ==> n > Anchor(j)
    ensures i <= c < Steps
    ensures forall j :: 0 <= j < c ==> n > Anchor(j)
    ensures c < Steps - 1 ==> n <= Anchor(c)
    decreases Steps - i
  {
    if i == Steps - 1 || n <= Anchor(i) then i else CoveringFrom(n, i + 1)
  }

  /** index(n): n--, shift right by minBitSize, then count the halvings that
      bring it to zero, clamped to the last class. Go's `>>` on a signed int
      is an arithmetic shift, which is floor division by a power of two, as
      Dafny's `/` is for a positive divisor; so index(0) shifts -1 to -1 and
      skips the loop. */
  method Index(n: int) returns (idx: nat)
    ensures idx == ClassIndex(n)
  {
    var m := (n - 1) / MinSize;
    idx := 0;
    while m > 0
      invariant m == (n - 1) / Anchor(idx)
      invariant forall j :: 0 <= j < idx ==> n > Anchor(j)
      decreases m
    {
      QuotientPositive(n - 1, Anchor(idx));
      HalvedQuotient(n - 1, Anchor(idx));
      m := m / 2;
      idx := idx + 1;
    }
    QuotientPositive(n - 1, Anchor(idx));
    if idx >= Steps {
      idx := Steps - 1;
    }
    ClassIndexUnique(n, idx);
  }

  /** A quotient by a positive divisor is positive exactly when the dividend
      reaches the divisor. */
  lemma QuotientPositive(x: int, d: int)
    requires d > 0
    ensures x / d > 0 <==> x >= d
  {
    var q, r := x / d, x % d;
    assert x == q * d + r && 0 <= r < d;
    if q > 0 {
      assert q * d >= d;
    } else {
      assert q * d <= 0;
    }
  }

  /** Halving a floor quotient is dividing by the doubled divisor. */
  lemma HalvedQuotient(x: int, d: int)
    requires d > 0
    ensures (x / d) / 2 == x / (2 * d)
  {
    var q, r := x / d, x % d;
    assert x == q * d + r && 0 <= r < d;
    var q2, r2 := q / 2, q % 2;
    assert q == 2 * q2 + r2 && 0 <= r2 < 2;
    assert x == q2 * (2 * d) + (r2 * d + r);
    assert 0 <= r2 * d + r < 2 * d;
    QuotientUnique(x, 2 * d, q2, r2 * d + r);
  }

  lemma QuotientUnique(x: int, d: int, q: int, r: int)
    requires d > 0 && x == q * d + r && 0 <= r < d
    ensures x / d == q
  {
    var q0, r0 := x / d, x % d;
    assert x == q0 * d + r0 && 0 <= r0 < d;
    if q0 < q {
      ScaleBelow(q0, q, d);
    } else if q0 > q {
      ScaleBelow(q, q0, d);
    }
  }

  /** A smaller factor loses at least one whole d. */
  lemma ScaleBelow(a: int, b: int, d: int)
    requires a < b && d > 0
    ensures a * d + d <= b * d
  {
    var k := b - a - 1;
    assert k >= 0 && k * d >= 0;
    assert b * d == (a + 1 + k) * d == a * d + d + k * d;
  }

  /** The class index is the only class that satisfies the covering rule:
      every smaller anchor is below n, and n fits its own anchor unless it is
      the last class. */
  lemma ClassIndexUnique(n: int, i: nat)
    requires i < Steps
    requires forall j :: 0 <= j < i ==> n > Anchor(j)
    requires i < Steps - 1 ==> n <= Anchor(i)
    ensures ClassIndex(n) == i
  {
  }

  /** A longer buffer never falls into a smaller class. */
  lemma ClassIndexMonotone(n1: int, n2: int)
    requires n1 <= n2
    ensures ClassIndex(n1) <= ClassIndex(n2)
  {
  }

  /** A length up to an anchor lands in that anchor's class or a lower one;
      a length above it lands in a higher one. */
  lemma ClassIndexAgainstAnchor(n: int, i: nat)
    requires i < Steps
    ensures n <= Anchor(i) ==> ClassIndex(n) <= i
    ensures i < Steps - 1 && n > Anchor(i) ==> ClassIndex(n) > i
  {
  }

  /** The class edges: each anchor is the last length of its class. */
  lemma ClassIndexEdges()
    ensures ClassIndex(0) == 0 && ClassIndex(1) == 0 && ClassIndex(64) == 0
    ensures ClassIndex(65) == 1 && ClassIndex(128) == 1
    ensures ClassIndex(129) == 2 && ClassIndex(256) == 2
    ensures ClassIndex(257) == 3 && ClassIndex(512) == 3
    ensures ClassIndex(513) == 3 && ClassIndex(1048576) == 3
  {
    assert Anchor(0) == 64 && Anchor(1) == 128 && Anchor(2) == 256;
    ClassIndexUnique(0, 0);
    ClassIndexUnique(1, 0);
    ClassIndexUnique(64, 0);
    ClassIndexUnique(65, 1);
    ClassIndexUnique(128, 1);
    ClassIndexUnique(129, 2);
    ClassIndexUnique(256, 2);
    ClassIndexUnique(257, 3);
    ClassIndexUnique(512, 3);
    ClassIndexUnique(513, 3);
    ClassIndexUnique(1048576, 3);
  }
}
