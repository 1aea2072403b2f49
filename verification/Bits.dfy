/** Bitwise conjunction of unbounded words and the low bits of a word. */
module Bits {
  import opened Pow2

  /** x & y */
  function And(x: nat, y: nat): nat {
    if x == 0 || y == 0 then 0 else 2 * And(x / 2, y / 2) + (x % 2) * (y % 2)
  }

  /** x | y */
  function Or(x: nat, y: nat): int {
    x + y - And(x, y)
  }

  /** x modulo 2^n */
  function Low(x: nat, n: nat): nat {
    if n == 0 then 0 else x % 2 + 2 * Low(x / 2, n - 1)
  }

  /** The bits from m up to w. */
  function Ones(w: nat, m: nat): nat
    requires m <= w
  {
    PowMono(m, w);
    Pow(w) - Pow(m)
  }

  lemma {:induction false} AndSym(x: nat, y: nat)
    ensures And(x, y) == And(y, x)
  {
    if x != 0 && y != 0 { AndSym(x / 2, y / 2); }
  }

  lemma {:induction false} AndTwice(m: nat, b: nat)
    ensures And(m, And(m, b)) == And(m, b)
  {
    if m != 0 && b != 0 {
      AndTwice(m / 2, b / 2);
      assert And(m, b) / 2 == And(m / 2, b / 2);
      assert And(m, b) % 2 == (m % 2) * (b % 2);
    }
  }

  /** Masking with the bits from m up to w. */
  lemma {:induction false} AndOnes(x: nat, w: nat, m: nat)
    requires m <= w
    ensures And(x, Ones(w, m)) == Low(x, w) - Low(x, m)
  {
    if w == 0 {
    } else if m == 0 {
      assert Ones(w, 0) / 2 == Ones(w - 1, 0) && Ones(w, 0) % 2 == 1;
      AndOnes(x / 2, w - 1, 0);
      if x == 0 { LowSmall(0, w); }
    } else {
      assert Ones(w, m) / 2 == Ones(w - 1, m - 1) && Ones(w, m) % 2 == 0;
      AndOnes(x / 2, w - 1, m - 1);
      if x == 0 { LowSmall(0, w); LowSmall(0, m); }
    }
  }

  lemma {:induction false} LowBound(x: nat, n: nat)
    ensures Low(x, n) < Pow(n) && Low(x, n) <= x
  {
    if n > 0 { LowBound(x / 2, n - 1); }
  }

  lemma {:induction false} LowSmall(x: nat, n: nat)
    requires x < Pow(n)
    ensures Low(x, n) == x
  {
    if n > 0 { LowSmall(x / 2, n - 1); }
  }

  /** A sum whose first term has no bit below n, and whose second has none above. */
  lemma {:induction false} LowSum(p: nat, r: nat, n: nat, m: nat)
    requires Low(p, n) == 0 && r < Pow(n)
    ensures m >= n ==> Low(p + r, m) == Low(p, m) + r
    ensures m < n ==> Low(p + r, m) == Low(r, m)
    decreases m
  {
    if n == 0 {
    } else if m > 0 {
      LowSum(p / 2, r / 2, n - 1, m - 1);
      assert p % 2 == 0;
      assert (p + r) / 2 == p / 2 + r / 2 && (p + r) % 2 == r % 2;
    } else {
    }
  }

  /** What is left when the low bits are taken away. */
  lemma {:induction false} LowLess(x: nat, k: nat)
    ensures x >= Low(x, k) && Low(x - Low(x, k), k) == 0
  {
    LowBound(x, k);
    if k > 0 {
      LowLess(x / 2, k - 1);
      assert (x - Low(x, k)) % 2 == 0 && (x - Low(x, k)) / 2 == x / 2 - Low(x / 2, k - 1);
    }
  }

  /** Splitting a word at bit k. */
  lemma Split(x: nat, k: nat, m: nat)
    requires m >= k
    ensures x >= Low(x, k) && Low(x - Low(x, k), k) == 0 && Low(x, m) == Low(x - Low(x, k), m) + Low(x, k)
  {
    LowLess(x, k);
    LowBound(x, k);
    LowSum(x - Low(x, k), Low(x, k), k, m);
  }

  // ------------------------------------------------------------- single bits

  /** a >> k */
  function Shr(a: nat, k: nat): nat {
    if k == 0 then a else Shr(a / 2, k - 1)
  }

  predicate Bit(a: nat, k: nat) {
    Shr(a, k) % 2 == 1
  }

  /** a | 1 << k */
  function SetBit(a: nat, k: nat): nat {
    if k == 0 then a - a % 2 + 1 else 2 * SetBit(a / 2, k - 1) + a % 2
  }

  lemma {:induction false} ShrStep(a: nat, k: nat)
    ensures Shr(a, k + 1) == Shr(a, k) / 2
  {
    if k > 0 { ShrStep(a / 2, k - 1); }
  }

  lemma {:induction false} SetBitSets(a: nat, k: nat, j: nat)
    ensures Bit(SetBit(a, k), j) <==> j == k || Bit(a, j)
  {
    if k > 0 {
      assert SetBit(a, k) / 2 == SetBit(a / 2, k - 1);
      if j > 0 { SetBitSets(a / 2, k - 1, j - 1); }
    } else if j > 0 {
      assert SetBit(a, 0) / 2 == a / 2;
    }
  }

  lemma {:induction false} SetBitRange(a: nat, k: nat, w: nat)
    requires k < w && Shr(a, w) == 0
    ensures Shr(SetBit(a, k), w) == 0 && SetBit(a, k) > 0
  {
    if k > 0 {
      SetBitRange(a / 2, k - 1, w - 1);
      assert SetBit(a, k) / 2 == SetBit(a / 2, k - 1);
    } else {
      assert SetBit(a, 0) / 2 == a / 2;
    }
  }

  /** Bits from `k` on are clear once the shifted word is zero. */
  lemma {:induction false} NoHighBits(a: nat, k: nat, j: nat)
    requires Shr(a, k) == 0 && k <= j
    ensures !Bit(a, j)
    decreases j - k
  {
    if k < j { ShrStep(a, k); NoHighBits(a, k + 1, j); }
  }

  lemma {:induction false} AndPow(x: nat, n: nat)
    ensures And(x, Pow(n)) == if Bit(x, n) then Pow(n) else 0
  {
    if x == 0 { NoBit(n); }
    if n > 0 { AndPow(x / 2, n - 1); } else { assert And(x / 2, 0) == 0; }
  }

  lemma {:induction false} NoBit(n: nat)
    ensures !Bit(0, n)
  {
    if n > 0 { NoBit(n - 1); }
  }

  lemma {:induction false} LowStep(x: nat, n: nat)
    ensures Low(x, n + 1) == Low(x, n) + if Bit(x, n) then Pow(n) else 0
  {
    if n > 0 { LowStep(x / 2, n - 1); }
  }

  /** Conjunction with a sum of which one part has no bit below n and the other none above. */
  lemma {:induction false} AndSum(x: nat, p: nat, r: nat, n: nat)
    requires Low(p, n) == 0 && r < Pow(n)
    ensures And(x, p + r) == And(x, p) + And(x, r)
  {
    if n > 0 {
      AndSum(x / 2, p / 2, r / 2, n - 1);
      assert p % 2 == 0 && (p + r) / 2 == p / 2 + r / 2 && (p + r) % 2 == r % 2;
    }
  }

  lemma {:induction false} AndNoLow(x: nat, r: nat, n: nat)
    requires Low(x, n) == 0 && r < Pow(n)
    ensures And(x, r) == 0
  {
    if n > 0 { AndNoLow(x / 2, r / 2, n - 1); }
  }

  lemma {:induction false} LowestBit(x: nat, n: nat) returns (m: nat)
    requires Low(x, n) != 0
    ensures m < n && Bit(x, m) && Low(x, m) == 0
  {
    if x % 2 == 1 {
      m := 0;
    } else {
      m := LowestBit(x / 2, n - 1);
      m := m + 1;
    }
  }

  /** A word of w bits that is not all ones has a clear bit. */
  lemma {:induction false} SomeClear(x: nat, w: nat) returns (h: nat)
    requires x < Pow(w) && x != Pow(w) - 1
    ensures h < w && !Bit(x, h)
  {
    if x % 2 == 0 {
      h := 0;
    } else {
      h := SomeClear(x / 2, w - 1);
      h := h + 1;
    }
  }

  /** A word whose lowest bit is m, and which is not all ones from there, has a clear bit above m. */
  lemma {:induction false} Hole(x: nat, w: nat, m: nat) returns (h: nat)
    requires m < w && x < Pow(w) && Bit(x, m) && Low(x, m) == 0 && x != Ones(w, m)
    ensures m < h < w && !Bit(x, h)
  {
    if m == 0 {
      h := SomeClear(x / 2, w - 1);
    } else {
      assert Ones(w, m) == 2 * Ones(w - 1, m - 1);
      h := Hole(x / 2, w - 1, m - 1);
    }
    h := h + 1;
  }

  // ------------------------------------------------------------- masks by their bits

  lemma {:induction false} BitAnd(x: nat, y: nat, n: nat)
    ensures Bit(And(x, y), n) <==> Bit(x, n) && Bit(y, n)
  {
    if x == 0 || y == 0 {
      NoBit(n);
    } else {
      assert And(x, y) / 2 == And(x / 2, y / 2) && And(x, y) % 2 == (x % 2) * (y % 2);
      if n > 0 { BitAnd(x / 2, y / 2, n - 1); }
    }
  }

  lemma {:induction false} BitOnes(w: nat, m: nat, n: nat)
    requires m <= w
    ensures Bit(Ones(w, m), n) <==> m <= n < w
  {
    if w == 0 {
      NoBit(n);
    } else if m > 0 {
      assert Ones(w, m) == 2 * Ones(w - 1, m - 1);
      if n > 0 { BitOnes(w - 1, m - 1, n - 1); }
    } else {
      assert Ones(w, 0) == 2 * Ones(w - 1, 0) + 1;
      if n > 0 { BitOnes(w - 1, 0, n - 1); }
    }
  }

  /** Two words are the same under a mask iff they agree on its bits. */
  lemma AndSame(m: nat, x: nat, y: nat)
    ensures And(m, x) == And(m, y) <==> forall n :: 0 <= n && Bit(m, n) ==> (Bit(x, n) <==> Bit(y, n))
  {
    if And(m, x) == And(m, y) {
      forall n | 0 <= n && Bit(m, n) ensures Bit(x, n) <==> Bit(y, n) {
        BitAnd(m, x, n);
        BitAnd(m, y, n);
      }
    } else if forall n :: 0 <= n && Bit(m, n) ==> (Bit(x, n) <==> Bit(y, n)) {
      SameUnder(m, x, y);
    }
  }

  lemma {:induction false} SameUnder(m: nat, x: nat, y: nat)
    requires forall n :: 0 <= n && Bit(m, n) ==> (Bit(x, n) <==> Bit(y, n))
    ensures And(m, x) == And(m, y)
  {
    if m > 0 {
      forall n | 0 <= n && Bit(m / 2, n) ensures Bit(x / 2, n) <==> Bit(y / 2, n) {
        assert Bit(m, n + 1) && Bit(x, n + 1) == Bit(x / 2, n) && Bit(y, n + 1) == Bit(y / 2, n);
      }
      SameUnder(m / 2, x / 2, y / 2);
      assert Bit(m, 0) == (m % 2 == 1) && Bit(x, 0) == (x % 2 == 1) && Bit(y, 0) == (y % 2 == 1);
      AndHalf(m, x);
      AndHalf(m, y);
    }
  }

  lemma AndHalf(x: nat, y: nat)
    ensures And(x, y) == 2 * And(x / 2, y / 2) + (x % 2) * (y % 2)
  {
  }
}
