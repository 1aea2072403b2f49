/** The bitmaps of mm.c (small_bitmap, tiny_bitmap): 32-bit words, the macros on them, and the
    sets of blocks in use that they stand for. */
module Bitmap {
  import opened Pow2
  import opened Bits

  /** ~b of a word of w bits. */
  function Not(b: nat, w: nat): nat
    requires b < Pow(w)
  {
    Pow(w) - 1 - b
  }

  /** x ^ y */
  function Xor(x: nat, y: nat): int {
    x + y - 2 * And(x, y)
  }

  /** FIND_NEXT_BIT on a word of w bits: ~b & (b + 1) */
  function NextBit(b: nat, w: nat): nat
    requires b < Pow(w)
  {
    And(Not(b, w), (b + 1) % Pow(w))
  }

  /** __builtin_ffs: one more than the number of the lowest bit, 0 for none. */
  function Ffs(x: nat): nat {
    if x == 0 then 0 else if x % 2 == 1 then 1 else 1 + Ffs(x / 2)
  }

  /** (2U << (nbits - 1)) - 1 in 32 bits */
  function FullWord(nbits: nat): nat
    requires 0 < nbits
  {
    (2 * Pow(nbits - 1) % 0x1_0000_0000 - 1) % 0x1_0000_0000
  }

  /** The bits below w that are set. */
  function Members(b: nat, w: nat): set<nat> {
    set i: nat | i < w && Bit(b, i)
  }

  // ------------------------------------------------------------- FIND_NEXT_BIT

  lemma {:induction false} AndNot(x: nat, w: nat)
    requires x < Pow(w)
    ensures And(Not(x, w), x) == 0
  {
    if w > 0 && x > 0 {
      AndNot(x / 2, w - 1);
      assert Not(x, w) / 2 == Not(x / 2, w - 1) && Not(x, w) % 2 == 1 - x % 2;
    }
  }

  /** FIND_NEXT_BIT gives the lowest clear bit alone, and 0 if there is none. */
  lemma {:induction false} NextBitIs(b: nat, w: nat) returns (i: nat)
    requires b < Pow(w)
    ensures i <= w && (forall j: nat :: j < i ==> Bit(b, j))
    ensures i < w <==> b != Pow(w) - 1
    ensures i < w ==> !Bit(b, i) && NextBit(b, w) == Pow(i)
    ensures i == w ==> NextBit(b, w) == 0
  {
    if w == 0 {
      i := 0;
    } else if b == Pow(w) - 1 {
      i := w;
      NextBitFull(b, w);
      forall j: nat | j < w ensures Bit(b, j) { AllOnes(w, j); }
    } else if b % 2 == 0 {
      i := 0;
      NextBitEven(b, w);
    } else {
      NextBitOdd(b, w);
      var k := NextBitIs(b / 2, w - 1);
      i := k + 1;
      OddBits(b, k);
    }
  }

  lemma OddBits(b: nat, k: nat)
    requires b % 2 == 1 && forall j: nat :: j < k ==> Bit(b / 2, j)
    ensures (forall j: nat :: j < k + 1 ==> Bit(b, j)) && Bit(b, k + 1) == Bit(b / 2, k)
  {
    forall j: nat | j < k + 1 ensures Bit(b, j) {
      if j > 0 { assert Bit(b / 2, j - 1); }
    }
  }

  lemma NextBitFull(b: nat, w: nat)
    requires b == Pow(w) - 1
    ensures NextBit(b, w) == 0
  {
    assert (b + 1) % Pow(w) == 0;
  }

  lemma NoCarryOut(b: nat, w: nat)
    requires b + 1 < Pow(w)
    ensures NextBit(b, w) == And(Not(b, w), b + 1)
  {
    ModUnique(b + 1, Pow(w), 0, b + 1);
  }

  /** The complement, half by half. */
  lemma NotHalf(b: nat, w: nat)
    requires 0 < w && b < Pow(w)
    ensures b / 2 < Pow(w - 1) && Not(b, w) / 2 == Not(b / 2, w - 1) && Not(b, w) % 2 == 1 - b % 2
  {
  }

  lemma NextBitEven(b: nat, w: nat)
    requires 0 < w && b < Pow(w) && b % 2 == 0
    ensures NextBit(b, w) == 1
  {
    AndNot(b / 2, w - 1);
    NotHalf(b, w);
    NoCarryOut(b, w);
    assert (b + 1) / 2 == b / 2;
  }

  lemma NextBitOdd(b: nat, w: nat)
    requires 0 < w && b < Pow(w) - 1 && b % 2 == 1
    ensures b / 2 < Pow(w - 1) - 1 && NextBit(b, w) == 2 * NextBit(b / 2, w - 1)
  {
    NotHalf(b, w);
    NoCarryOut(b, w);
    NoCarryOut(b / 2, w - 1);
    assert (b + 1) / 2 == b / 2 + 1;
  }

  lemma {:induction false} AllOnes(w: nat, j: nat)
    requires j < w
    ensures Bit(Pow(w) - 1, j)
  {
    if j > 0 { AllOnes(w - 1, j - 1); }
  }

  lemma {:induction false} FfsPow(i: nat)
    ensures Ffs(Pow(i)) == i + 1
  {
    if i > 0 { FfsPow(i - 1); }
  }

  // ------------------------------------------------------------- |, ^ and comparisons

  /** b with bit i turned over. */
  function Flip(b: nat, i: nat): int {
    if Bit(b, i) then b - Pow(i) else b + Pow(i)
  }

  lemma FlipHalf(b: nat, i: nat)
    requires i > 0
    ensures Flip(b, i) == 2 * Flip(b / 2, i - 1) + b % 2
  {
  }

  lemma {:induction false} FlipBits(b: nat, i: nat, j: nat)
    ensures Flip(b, i) >= 0
    ensures Bit(Flip(b, i), j) == if j == i then !Bit(b, i) else Bit(b, j)
  {
    if i == 0 {
      assert Flip(b, 0) / 2 == b / 2;
    } else {
      FlipBits(b / 2, i - 1, if j > 0 then j - 1 else 0);
      FlipHalf(b, i);
      assert j > 0 ==> Bit(b, j) == Bit(b / 2, j - 1);
    }
  }

  lemma {:induction false} FlipBelow(b: nat, i: nat, w: nat)
    requires b < Pow(w) && i < w
    ensures 0 <= Flip(b, i) < Pow(w)
  {
    if i > 0 {
      FlipBelow(b / 2, i - 1, w - 1);
      FlipHalf(b, i);
    }
  }

  lemma FlipMembers(b: nat, i: nat, w: nat, c: nat)
    requires i < w && c == Flip(b, i)
    ensures Members(c, w) == if Bit(b, i) then Members(b, w) - {i} else Members(b, w) + {i}
  {
    forall j: nat ensures Bit(c, j) == if j == i then !Bit(b, i) else Bit(b, j) { FlipBits(b, i, j); }
  }

  /** b | n sets a clear bit. */
  lemma OrSets(b: nat, i: nat, w: nat)
    requires b < Pow(w) && i < w && !Bit(b, i)
    ensures 0 <= Or(b, Pow(i)) < Pow(w) && Members(Or(b, Pow(i)), w) == Members(b, w) + {i}
  {
    AndPow(b, i);
    FlipBelow(b, i, w);
    FlipMembers(b, i, w, Flip(b, i));
  }

  /** b ^ n clears a set bit, and sets a clear one. */
  lemma XorFlips(b: nat, i: nat, w: nat)
    requires b < Pow(w) && i < w
    ensures 0 <= Xor(b, Pow(i)) < Pow(w)
    ensures Members(Xor(b, Pow(i)), w) == if Bit(b, i) then Members(b, w) - {i} else Members(b, w) + {i}
  {
    XorIsFlip(b, i);
    FlipBelow(b, i, w);
    FlipMembers(b, i, w, Flip(b, i));
  }

  lemma XorIsFlip(b: nat, i: nat)
    ensures Xor(b, Pow(i)) == Flip(b, i)
  {
    AndPow(b, i);
  }

  lemma {:induction false} SameWord(b: nat, c: nat, w: nat)
    requires b < Pow(w) && c < Pow(w) && Members(b, w) == Members(c, w)
    ensures b == c
  {
    if w > 0 {
      assert 0 in Members(b, w) <==> 0 in Members(c, w);
      forall i: nat | i < w - 1 ensures Bit(b / 2, i) == Bit(c / 2, i) {
        assert i + 1 in Members(b, w) <==> i + 1 in Members(c, w);
      }
      assert Members(b / 2, w - 1) == Members(c / 2, w - 1);
      SameWord(b / 2, c / 2, w - 1);
    }
  }

  lemma FullWordIs(nbits: nat)
    requires 0 < nbits <= 32
    ensures FullWord(nbits) == Pow(nbits) - 1
  {
    Pow32();
    FullIn(nbits, 32);
    Wrapped(2 * Pow(nbits - 1));
  }

  lemma FullIn(nbits: nat, w: nat)
    requires 0 < nbits <= w
    ensures 0 < 2 * Pow(nbits - 1) == Pow(nbits) <= Pow(w)
  {
    PowMono(nbits, w);
  }

  lemma Wrapped(x: nat)
    requires 0 < x <= 0x1_0000_0000
    ensures (x % 0x1_0000_0000 - 1) % 0x1_0000_0000 == x - 1
  {
  }

  lemma Pow32()
    ensures Pow(32) == 0x1_0000_0000
  {
    assert Pow(8) == 256;
    PowAdd(8, 8);
    PowAdd(16, 16);
  }

  /** Comparing with the full word asks whether all bits are set ... */
  lemma FullIff(b: nat, nbits: nat)
    requires b < Pow(nbits)
    ensures b == Pow(nbits) - 1 <==> forall i :: 0 <= i < nbits ==> i in Members(b, nbits)
  {
    var i := NextBitIs(b, nbits);
    if i < nbits { assert i !in Members(b, nbits); }
  }

  /** ... and with 0, whether none is. */
  lemma ZeroIff(b: nat, w: nat)
    requires b < Pow(w)
    ensures b == 0 <==> Members(b, w) == {}
  {
    if b == 0 {
      forall i: nat ensures !Bit(0, i) { NoBit(i); }
    } else if Members(b, w) == {} {
      forall i: nat ensures !Bit(0, i) { NoBit(i); }
      assert Members(0, w) == {};
      SameWord(b, 0, w);
    }
  }
}
