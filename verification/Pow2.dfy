/** Powers of two, alignment and trailing zeros, as the page allocator uses them. */
module Pow2 {

  function Pow(n: nat): (r: nat)
    ensures r > 0
  {
    if n == 0 then 1 else 2 * Pow(n - 1)
  }

  /** i is a multiple of 2^n (see AlignedIff). */
  predicate Aligned(i: nat, n: nat) {
    n == 0 || (i % 2 == 0 && Aligned(i / 2, n - 1))
  }

  lemma {:induction false} AlignedIff(i: nat, n: nat)
    ensures Aligned(i, n) <==> i % Pow(n) == 0
  {
    if n > 0 {
      AlignedIff(i / 2, n - 1);
      HalfMod(i, Pow(n - 1));
    }
  }

  lemma HalfMod(i: nat, d: nat)
    requires d > 0
    ensures i % (2 * d) == 0 <==> i % 2 == 0 && i / 2 % d == 0
  {
    if i % (2 * d) == 0 {
      var l := i / (2 * d);
      assert i == 2 * (d * l) by { assert i == (2 * d) * l + i % (2 * d); }
      ModUnique(i / 2, d, l, 0);
    }
    if i % 2 == 0 && i / 2 % d == 0 {
      var k := i / 2 / d;
      assert i / 2 == d * k + i / 2 % d;
      assert i == (2 * d) * k + 0;
      ModUnique(i, 2 * d, k, 0);
    }
  }

  /** Number of trailing zero bits. */
  function Tz(i: nat): nat
    requires i > 0
  {
    if i % 2 == 1 then 0 else 1 + Tz(i / 2)
  }

  /** The block of the same order that shares its parent: virt ^ size. */
  function BuddyOf(i: nat, n: nat): int {
    if Aligned(i, n + 1) then i + Pow(n) else i - Pow(n)
  }

  lemma ModMul(k: nat, d: nat)
    requires d > 0
    ensures (k * d) % d == 0 && (k * d) / d == k
  {
    assert k * d == d * k + 0;
    ModUnique(k * d, d, k, 0);
  }

  lemma ModUnique(x: nat, d: nat, q: nat, r: nat)
    requires d > 0 && x == d * q + r && r < d
    ensures x / d == q && x % d == r
  {
    var q' := x / d;
    assert x == d * q' + x % d;
    MulGap(d, q, q');
    MulGap(d, q', q);
  }

  lemma MulGap(d: nat, a: nat, b: nat)
    ensures a < b ==> d * a + d <= d * b
  {
    if a < b { assert d * b == d * (a + 1) + d * (b - a - 1); }
  }

  lemma AlignedQuot(i: nat, n: nat) returns (k: nat)
    requires Aligned(i, n)
    ensures i == k * Pow(n)
  {
    AlignedIff(i, n);
    k := i / Pow(n);
  }

  lemma QuotAligned(k: nat, n: nat)
    ensures Aligned(k * Pow(n), n)
  {
    ModMul(k, Pow(n));
    AlignedIff(k * Pow(n), n);
  }

  lemma AlignedDown(i: nat, n: nat)
    requires Aligned(i, n + 1)
    ensures Aligned(i, n) && Aligned(i + Pow(n), n) && !Aligned(i + Pow(n), n + 1)
  {
    var k := AlignedQuot(i, n + 1);
    assert i == (2 * k) * Pow(n);
    QuotAligned(2 * k, n);
    assert i + Pow(n) == (2 * k + 1) * Pow(n);
    QuotAligned(2 * k + 1, n);
    ModUnique(i + Pow(n), Pow(n + 1), k, Pow(n));
    AlignedIff(i + Pow(n), n + 1);
  }

  /** A block that is not a first half is a second half. */
  lemma SecondHalf(i: nat, n: nat)
    requires Aligned(i, n) && !Aligned(i, n + 1)
    ensures i >= Pow(n) && Aligned(i - Pow(n), n + 1)
  {
    var k := AlignedQuot(i, n);
    if k % 2 == 0 {
      assert i == (k / 2) * Pow(n + 1);
      QuotAligned(k / 2, n + 1);
    } else {
      assert k == 2 * (k / 2) + 1;
      assert i == (k / 2) * Pow(n + 1) + Pow(n);
      QuotAligned(k / 2, n + 1);
    }
  }

  lemma {:induction false} PowAdd(a: nat, b: nat)
    ensures Pow(a + b) == Pow(a) * Pow(b)
  {
    if b > 0 {
      PowAdd(a, b - 1);
      assert Pow(a + b) == 2 * Pow(a + (b - 1));
      TwiceProduct(Pow(a), Pow(b - 1));
    }
  }

  lemma TwiceProduct(x: nat, y: nat)
    ensures 2 * (x * y) == x * (2 * y)
  {
  }

  lemma PowMono(a: nat, b: nat)
    requires a <= b
    ensures Pow(a) <= Pow(b)
    ensures a < b ==> 2 * Pow(a) <= Pow(b)
  {
    PowAdd(a, b - a);
    if a < b {
      assert Pow(b - a) >= 2;
      assert Pow(a) * Pow(b - a) >= Pow(a) * 2;
    }
  }

  lemma AlignedLess(i: nat, a: nat, b: nat)
    requires Aligned(i, b) && a <= b
    ensures Aligned(i, a)
  {
    var k := AlignedQuot(i, b);
    PowAdd(a, b - a);
    assert i == k * (Pow(a) * Pow(b - a)) == (k * Pow(b - a)) * Pow(a);
    QuotAligned(k * Pow(b - a), a);
  }

  /** Aligned blocks are nested or disjoint. */
  lemma Nested(p: nat, a: nat, q: nat, b: nat)
    requires a <= b && Aligned(p, a) && Aligned(q, b)
    ensures p < q ==> p + Pow(a) <= q
    ensures q <= p < q + Pow(b) ==> p + Pow(a) <= q + Pow(b)
  {
    AlignedLess(q, a, b);
    var k := AlignedQuot(p, a);
    var l := AlignedQuot(q, a);
    PowAdd(a, b - a);
    NestedMul(Pow(a), Pow(b - a), k, l);
  }

  lemma NestedMul(d: nat, w: nat, k: nat, l: nat)
    requires d > 0
    ensures k * d < l * d ==> k * d + d <= l * d
    ensures l * d <= k * d < l * d + d * w ==> k * d + d <= l * d + d * w
  {
    MulAdd(l, w, d);
    MulAdd(k, 0, d);
    MulGap(d, k, l);
    MulGap(d, l, k);
    MulGap(d, k, l + w);
    MulGap(d, l + w, k);
  }

  lemma MulAdd(l: nat, w: nat, d: nat)
    ensures d * (l + w) == d * l + d * w && l * d == d * l
  {
  }

  lemma {:induction false} TzUpper(p: nat, n: nat)
    requires Aligned(p, n + 1)
    ensures Tz(p + Pow(n)) == n
    decreases n
  {
    var k := AlignedQuot(p, n + 1);
    if n == 0 {
      assert p == 2 * k;
    } else {
      assert p == 2 * (k * Pow(n));
      QuotAligned(k, n);
      TzUpper(k * Pow(n), n - 1);
      assert p + Pow(n) == 2 * (k * Pow(n) + Pow(n - 1));
    }
  }
}
