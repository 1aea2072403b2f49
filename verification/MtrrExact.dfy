/** The exact condition on the variable-range masks under which mtrr_type_equal (cache.c) can be
    relied on. */
module MtrrExact {
  import opened Pow2
  import opened Bits
  import opened Mtrr

  /** The mask applies to a as it applies to phys, whatever the base, wherever the scan does not
      give up. */
  ghost predicate SlotReliable(mask: nat, w: nat) {
    forall base, phys, k, a :: SlotCase(Slot(base, mask), w, phys, k, a) ==>
      Hits(Slot(base, mask), a) == Hits(Slot(base, mask), phys)
  }

  /** An address of an aligned region of 4 KiB to 4 GiB in which the scan goes past the slot. */
  predicate SlotCase(s: Slot, w: nat, phys: nat, k: nat, a: nat) {
    12 <= k <= 32 && phys < Pow(w) && InRegion(a, phys, k) && !Splits(s, phys, Ones(k, 0))
  }

  /** The masks of the variable ranges. */
  predicate Masks(slots: seq<Slot>, masks: seq<nat>) {
    |slots| == |masks| && forall i :: 0 <= i < |slots| ==> slots[i].mask == masks[i]
  }

  /** mtrr_type_equal is right for these masks whatever the bases and the other registers. */
  ghost predicate Reliable(masks: seq<nat>, w: nat) {
    forall c: Regs, phys, k, a, pass :: Case(c, masks, w, phys, k, a) ==> TypeOf(c, a, pass) == TypeOf(c, phys, pass)
  }

  /** An address of a region that mtrr_type_equal reports as uniform. */
  predicate Case(c: Regs, masks: seq<nat>, w: nat, phys: nat, k: nat, a: nat) {
    && |c.fix| == 88 && Masks(c.slots, masks) && 12 <= k <= 32 && phys < Pow(w)
    && InRegion(a, phys, k) && Equal(c, phys, Ones(k, 0))
  }

  /** The mask is tame; the base does not matter. */
  ghost predicate TameMask(mask: nat, w: nat) {
    Tame(Slot(0, mask), w)
  }

  // ------------------------------------------------------------- a mask with a hole

  lemma NoLowBits(s: Slot)
    ensures Low(Mask(s), 12) == 0
  {
    assert PHYSMASK == Ones(52, 12) by {
      Powers();
      MorePowers();
    }
    NothingBelow(s.mask, 52, 12);
  }

  lemma NothingBelow(x: nat, w: nat, m: nat)
    requires m <= w
    ensures Low(And(x, Ones(w, m)), m) == 0
  {
    AndOnes(x, w, m);
    LowOfLow(x, w, m);
    LowLess(Low(x, w), m);
  }

  /** A base that has the lowest mask bit alone, and a type. */
  function OneBit(m: nat, t: nat): nat {
    Pow(m) + t
  }

  lemma OneBitBase(s: Slot, m: nat, t: nat)
    requires s.base == OneBit(m, t) && 12 <= m && t < 8
    ensures BaseType(s) == t && And(Mask(s), s.base) == And(Mask(s), Pow(m))
  {
    Powers();
    NoLowBits(s);
    TypeAside(Mask(s), m, t, 12);
    TypeOfBase(s, m, t);
  }

  /** A mask without bits below n does not see the type. */
  lemma TypeAside(mask: nat, m: nat, t: nat, n: nat)
    requires n <= m && Low(mask, n) == 0 && t < Pow(n)
    ensures And(mask, OneBit(m, t)) == And(mask, Pow(m))
  {
    PowLow(m);
    LowOfLow(Pow(m), m, n);
    LowSmall(0, n);
    AndSum(mask, Pow(m), t, n);
    AndNoLow(mask, t, n);
  }

  lemma TypeOfBase(s: Slot, m: nat, t: nat)
    requires s.base == OneBit(m, t) && 12 <= m && t < 8
    ensures BaseType(s) == t
  {
    MorePowers();
    PowAdd(m - 8, 8);
    ModUnique(s.base, 256, Pow(m - 8), t);
    AndMod(s.base, 8, 0);
  }

  /** With the lowest mask bit m below k and phys = 2^h above, the scan goes past such a slot. */
  lemma PassesBy(s: Slot, m: nat, t: nat, k: nat, h: nat)
    requires s.base == OneBit(m, t) && t < 8 && m < k <= h && Bit(Mask(s), m) && Low(Mask(s), m) == 0
    ensures 12 <= m && BaseType(s) == t && !Splits(s, Pow(h), Ones(k, 0)) && !Hits(s, Pow(h))
  {
    if m < 12 { BelowTwelve(s, m); }
    OneBitBase(s, m, t);
    AndPow(Mask(s), m);
    AndPow(Mask(s), h);
    PowMono(m + 1, h);
    PowMono(m, k);
    Above(h, k);
    AndOnes(Pow(m), k, 0);
    PowMono(m + 1, k);
    LowSmall(Pow(m), k);
  }

  lemma BelowTwelve(s: Slot, m: nat)
    requires m < 12
    ensures !Bit(Mask(s), m)
  {
    NoLowBits(s);
    LowStep(Mask(s), m);
    LowOfLow(Mask(s), 12, m + 1);
    LowSmall(0, m + 1);
  }

  /** 2^h is aligned to 2^k. */
  lemma Above(h: nat, k: nat)
    requires k <= h
    ensures Low(Pow(h), k) == 0 && And(Pow(h), Ones(k, 0)) == 0
  {
    PowLow(h);
    LowOfLow(Pow(h), h, k);
    LowSmall(0, k);
    AndOnes(Pow(h), k, 0);
  }

  /** The address 2^h + 2^m lies in the region of 2^h and is matched by a mask without bit h. */
  lemma MatchedAddress(s: Slot, m: nat, t: nat, h: nat, a: nat)
    requires s.base == OneBit(m, t) && t < 8 && 12 <= m < h && Bit(Mask(s), m) && !Bit(Mask(s), h) && Valid(s)
    requires a == Pow(h) + Pow(m)
    ensures InRegion(a, Pow(h), m + 1) && Hits(s, a)
  {
    OneBitBase(s, m, t);
    AndPow(Mask(s), m);
    AndPow(Mask(s), h);
    PowLow(h);
    PowMono(m + 1, h);
    AndSum(Mask(s), Pow(h), Pow(m), h);
    Above(h, m + 1);
    LowSum(Pow(h), Pow(m), m + 1, m + 1);
  }

  /** The lowest bit and a hole of a mask that is not tame. */
  lemma WildMask(s: Slot, w: nat) returns (m: nat, h: nat)
    requires !Tame(s, w) && Mask(s) < Pow(w) && 32 <= w
    ensures Valid(s) && 12 <= m < 32 && m < h < w && Bit(Mask(s), m) && Low(Mask(s), m) == 0 && !Bit(Mask(s), h)
  {
    m := LowestBit(Mask(s), 32);
    if m < 12 { BelowTwelve(s, m); }
    h := Hole(Mask(s), w, m);
  }

  /** For one slot: the scan can be relied on iff the mask is tame. */
  lemma SlotReliableIff(mask: nat, w: nat)
    requires Valid(Slot(0, mask)) && Mask(Slot(0, mask)) < Pow(w) && 32 <= w
    ensures SlotReliable(mask, w) <==> TameMask(mask, w)
  {
    if TameMask(mask, w) {
      forall base, phys, k, a | SlotCase(Slot(base, mask), w, phys, k, a)
        ensures Hits(Slot(base, mask), a) == Hits(Slot(base, mask), phys)
      {
        SameMask(Slot(base, mask), w);
        SlotAgrees(Slot(base, mask), w, phys, k, a);
      }
    } else {
      var base, phys, k, a := SlotMisled(mask, w);
      assert SlotCase(Slot(base, mask), w, phys, k, a);
    }
  }

  lemma SlotMisled(mask: nat, w: nat) returns (base: nat, phys: nat, k: nat, a: nat)
    requires !TameMask(mask, w) && Mask(Slot(0, mask)) < Pow(w) && 32 <= w
    ensures SlotCase(Slot(base, mask), w, phys, k, a) && !Hits(Slot(base, mask), phys) && Hits(Slot(base, mask), a)
  {
    var m, h := WildMask(Slot(0, mask), w);
    base, phys, k, a := OneBit(m, 0), Pow(h), m + 1, Pow(h) + Pow(m);
    var s := Slot(base, mask);
    SameMask(s, w);
    PassesBy(s, m, 0, k, h);
    MatchedAddress(s, m, 0, h, a);
    PowBelow(h, w);
  }

  lemma PowBelow(h: nat, w: nat)
    requires h < w
    ensures Pow(h) < Pow(w)
  {
    PowMono(h + 1, w);
  }

  lemma SameMask(s: Slot, w: nat)
    ensures Tame(s, w) <==> TameMask(s.mask, w)
    ensures Mask(s) == Mask(Slot(0, s.mask)) && Valid(s) == Valid(Slot(0, s.mask))
  {
  }

  // ------------------------------------------------------------- all slots

  /** A base with which a slot of this mask changes nothing in the region of 2^h: it has the
      type 7, and the scan goes past it. */
  lemma Neutral(mask: nat, k: nat, h: nat) returns (base: nat)
    requires k <= h
    ensures BaseType(Slot(base, mask)) == UC_MINUS && !Splits(Slot(base, mask), Pow(h), Ones(k, 0))
  {
    var x := Mask(Slot(0, mask));
    AndOnes(x, k, 0);
    if Low(x, k) == 0 {
      base := 7;
      MorePowers();
      AndMod(7, 8, 0);
      assert Mask(Slot(base, mask)) == x;
    } else {
      var m := LowestBit(x, k);
      base := OneBit(m, 7);
      assert Mask(Slot(base, mask)) == x;
      PassesBy(Slot(base, mask), m, 7, k, h);
    }
  }

  lemma {:induction false} NeutralSlots(masks: seq<nat>, k: nat, h: nat) returns (slots: seq<Slot>)
    requires k <= h
    ensures Masks(slots, masks) && AllNeutral(slots, Pow(h), k)
  {
    if masks == [] {
      slots := [];
    } else {
      var base := Neutral(masks[0], k, h);
      var rest := NeutralSlots(masks[1..], k, h);
      slots := [Slot(base, masks[0])] + rest;
      forall i | 0 <= i < |slots| ensures slots[i].mask == masks[i] {
        if i > 0 { assert slots[i] == rest[i - 1] && masks[1..][i - 1] == masks[i]; }
      }
    }
  }

  predicate AllNeutral(slots: seq<Slot>, phys: nat, k: nat) {
    forall i :: 0 <= i < |slots| ==> BaseType(slots[i]) == UC_MINUS && !Splits(slots[i], phys, Ones(k, 0))
  }

  lemma {:induction false} NeutralScan(slots: seq<Slot>, phys: nat, k: nat)
    requires AllNeutral(slots, phys, k)
    ensures ScanSlots(slots, phys, Ones(k, 0), UC_MINUS) == Type(UC_MINUS)
    ensures VarType(slots, phys, UC_MINUS) == UC_MINUS
  {
    if slots != [] {
      NeutralScan(slots[1..], phys, k);
    }
  }

  lemma {:induction false} NeutralType(slots: seq<Slot>, phys: nat, k: nat, a: nat, t: nat)
    requires AllNeutral(slots, phys, k)
    ensures VarType(slots, a, t) == t
  {
    if slots != [] { NeutralType(slots[1..], phys, k, a, t); }
  }

  /** One slot of type WB among neutral ones, not applying to phys but to a. */
  lemma {:induction false} OneAmong(slots: seq<Slot>, j: nat, phys: nat, k: nat, a: nat)
    requires j < |slots| && BaseType(slots[j]) == WB && !Splits(slots[j], phys, Ones(k, 0))
    requires !Hits(slots[j], phys) && Hits(slots[j], a)
    requires forall i :: 0 <= i < |slots| && i != j ==>
      BaseType(slots[i]) == UC_MINUS && !Splits(slots[i], phys, Ones(k, 0))
    ensures ScanSlots(slots, phys, Ones(k, 0), UC_MINUS) == Type(UC_MINUS)
    ensures VarType(slots, phys, UC_MINUS) == UC_MINUS && VarType(slots, a, UC_MINUS) == WB
  {
    var rest := slots[1..];
    if j == 0 {
      assert AllNeutral(rest, phys, k);
      NeutralScan(rest, phys, k);
      NeutralType(rest, phys, k, a, WB);
    } else {
      assert rest[j - 1] == slots[j];
      OneAmong(rest, j - 1, phys, k, a);
    }
  }

  /** Registers with which a mask that is not tame makes mtrr_type_equal answer wrongly. */
  lemma Misled(masks: seq<nat>, w: nat, j: nat) returns (c: Regs, phys: nat, k: nat, a: nat)
    requires j < |masks| && !TameMask(masks[j], w) && Mask(Slot(0, masks[j])) < Pow(w) && 32 <= w
    ensures Case(c, masks, w, phys, k, a) && TypeOf(c, a, false) == WB && TypeOf(c, phys, false) == UC
  {
    var m, h := WildMask(Slot(0, masks[j]), w);
    var s := Slot(OneBit(m, WB), masks[j]);
    SameMask(s, w);
    k, phys, a := m + 1, Pow(h), Pow(h) + Pow(m);
    PassesBy(s, m, WB, k, h);
    MatchedAddress(s, m, WB, h, a);
    PowBelow(h, w);
    var slots := NeutralSlots(masks, k, h);
    slots := slots[j := s];
    OneAmong(slots, j, phys, k, a);
    c := Regs(0x800, seq(88, i => 0), slots, 0, 0);
    UnevenTypes(c, phys, k, a);
  }

  /** Uncached by default, write-back at a, and reported as uniform. */
  lemma UnevenTypes(c: Regs, phys: nat, k: nat, a: nat)
    requires |c.fix| == 88 && c.defType == 0x800 && c.syscfg == 0
    requires ScanSlots(c.slots, phys, Ones(k, 0), UC_MINUS) == Type(UC_MINUS)
    requires VarType(c.slots, phys, UC_MINUS) == UC_MINUS && VarType(c.slots, a, UC_MINUS) == WB
    ensures Equal(c, phys, Ones(k, 0)) && TypeOf(c, a, false) == WB && TypeOf(c, phys, false) == UC
  {
    RegWords(c);
  }

  /** mtrr_type_equal is right for all bases, types, default types and regions iff the mask of
      every valid slot is tame. */
  lemma ReliableIff(masks: seq<nat>, w: nat)
    requires 32 <= w && forall i :: 0 <= i < |masks| ==> Mask(Slot(0, masks[i])) < Pow(w)
    ensures Reliable(masks, w) <==> forall i :: 0 <= i < |masks| ==> TameMask(masks[i], w)
  {
    if forall i :: 0 <= i < |masks| ==> TameMask(masks[i], w) {
      forall c: Regs, phys, k, a, pass | Case(c, masks, w, phys, k, a) ensures TypeOf(c, a, pass) == TypeOf(c, phys, pass) {
        forall i | 0 <= i < |c.slots| ensures Tame(c.slots[i], w) { SameMask(c.slots[i], w); }
        EqualSound(c, w, phys, k, a, pass);
      }
    } else {
      var j :| 0 <= j < |masks| && !TameMask(masks[j], w);
      var c, phys, k, a := Misled(masks, w, j);
      assert Case(c, masks, w, phys, k, a);
    }
  }
}
