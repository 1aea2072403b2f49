/** What get_mtrr_type and mtrr_type_equal (cache.c) answer, said by the bits of the registers. */
module MtrrTypes {
  import opened Pow2
  import opened Bits
  import opened Mtrr

  // ------------------------------------------------------------- registers by their bits

  /** A valid slot whose base agrees with the address on the bits of the mask from 12 to 51. */
  ghost predicate Applies(s: Slot, a: nat) {
    Bit(s.mask, 11) && forall n :: 12 <= n < 52 && Bit(s.mask, n) ==> (Bit(s.base, n) <==> Bit(a, n))
  }

  function SlotType(s: Slot): nat {
    s.base % 256
  }

  /** Some slot that applies says t. */
  ghost predicate Says(slots: seq<Slot>, a: nat, t: nat) {
    exists i :: 0 <= i < |slots| && Applies(slots[i], a) && SlotType(slots[i]) == t
  }

  /** Slot i applies and has a type (7 is no memory type). */
  ghost predicate Decides(slots: seq<Slot>, a: nat, i: nat)
    requires i < |slots|
  {
    Applies(slots[i], a) && SlotType(slots[i]) != UC_MINUS
  }

  /** Byte of the fixed ranges: 4 KiB pieces from C0000, 16 KiB pieces from 80000, 64 KiB pieces
      from 0. */
  function FixByte(a: nat): nat {
    if a >= 0xC0000 then (a - 0xC0000) / 0x1000
    else if a >= 0x80000 then 64 + (a - 0x80000) / 0x4000
    else 80 + a / 0x10000
  }

  /** TOM2: bits 23 to 51 of TOP_MEM2. */
  function Tom2(c: Regs): int {
    c.topMem2 % 0x10_0000_0000_0000 - c.topMem2 % 0x80_0000
  }

  /** Without a slot: write-back from 4 GiB to TOM2 if forced, else the default type. */
  function NoSlotType(c: Regs, a: nat): nat {
    if 0x1_0000_0000 <= a < Tom2(c) && Bit(c.syscfg, 22) then WB else c.defType % 256
  }

  /** r is the type that the variable ranges give. */
  ghost predicate VarTyped(c: Regs, a: nat, r: nat) {
    if Says(c.slots, a, UC) then r == UC
    else if Says(c.slots, a, WT) then r == WT
    else
      && (forall i :: 0 <= i < |c.slots| && Decides(c.slots, a, i) && (forall j :: 0 <= j < i ==> !Decides(c.slots, a, j)) ==>
            r == SlotType(c.slots[i]))
      && ((forall i :: 0 <= i < |c.slots| ==> !Decides(c.slots, a, i)) ==> r == NoSlotType(c, a))
  }

  /** r is the type of address a: uncached while the MTRRs are off, then the fixed ranges, then
      the variable ones. */
  ghost predicate Typed(c: Regs, a: nat, pass: bool, r: nat)
    requires |c.fix| == 88
  {
    if !Bit(c.defType, 11) then r == UC
    else if Bit(c.defType, 10) && a <= 0xFFFFF then r == if pass then WB else c.fix[FixByte(a)]
    else VarTyped(c, a, r)
  }

  /** That is one type. */
  lemma TypedUnique(c: Regs, a: nat, pass: bool, r: nat, q: nat)
    requires |c.fix| == 88 && Typed(c, a, pass, r) && Typed(c, a, pass, q)
    ensures r == q
  {
    if i :| 0 <= i < |c.slots| && Decides(c.slots, a, i) {
      var k := FirstOf(c.slots, a, i);
    }
  }

  lemma {:induction false} FirstOf(slots: seq<Slot>, a: nat, i: nat) returns (k: nat)
    requires i < |slots| && Decides(slots, a, i)
    ensures k <= i && Decides(slots, a, k) && forall j :: 0 <= j < k ==> !Decides(slots, a, j)
  {
    if j :| 0 <= j < i && Decides(slots, a, j) {
      k := FirstOf(slots, a, j);
    } else {
      k := i;
    }
  }

  // ------------------------------------------------------------- the masks of the source

  lemma TestBit(x: nat, n: nat)
    ensures And(x, Pow(n)) != 0 <==> Bit(x, n)
  {
    AndPow(x, n);
  }

  /** The flags of MTRR_DEF_TYPE, PHYSMASK and SYSCFG. */
  lemma Flags(x: nat)
    ensures And(x, E_BIT) != 0 <==> Bit(x, 11)
    ensures And(x, V_BIT) != 0 <==> Bit(x, 11)
    ensures And(x, FE_BIT) != 0 <==> Bit(x, 10)
    ensures And(x, TOM2FORCE) != 0 <==> Bit(x, 22)
  {
    MorePowers();
    TestBit(x, 11);
    TestBit(x, 10);
    TestBit(x, 22);
    assert Pow(22) == 2 * Pow(21);
  }

  lemma TypeField(x: nat)
    ensures And(x, TYPE) == x % 256
  {
    MorePowers();
    AndMod(x, 8, 0);
  }

  lemma TopField(x: nat)
    ensures And(x, TOP_MEM2) == x % 0x10_0000_0000_0000 - x % 0x80_0000
  {
    MorePowers();
    assert Pow(23) == 2 * Pow(22) && Pow(22) == 2 * Pow(21);
    AndMod(x, 52, 23);
  }

  lemma HitsIs(s: Slot, a: nat)
    ensures Hits(s, a) <==> Applies(s, a)
    ensures BaseType(s) == SlotType(s)
  {
    Flags(s.mask);
    TypeField(s.base);
    AndSame(Mask(s), s.base, a);
    forall n | 0 <= n ensures Bit(Mask(s), n) <==> 12 <= n < 52 && Bit(s.mask, n) { MaskBits(s, n); }
  }

  lemma MaskBits(s: Slot, n: nat)
    ensures Bit(Mask(s), n) <==> 12 <= n < 52 && Bit(s.mask, n)
  {
    assert PHYSMASK == Ones(52, 12) by {
      Powers();
      MorePowers();
    }
    BitAnd(s.mask, Ones(52, 12), n);
    BitOnes(52, 12, n);
  }

  lemma SomeIs(slots: seq<Slot>, a: nat, t: nat)
    ensures Some(slots, a, t) <==> Says(slots, a, t)
  {
    forall i | 0 <= i < |slots| ensures (Hits(slots[i], a) <==> Applies(slots[i], a)) && BaseType(slots[i]) == SlotType(slots[i]) {
      HitsIs(slots[i], a);
    }
  }

  // ------------------------------------------------------------- get_mtrr_type

  lemma VarTypeIs(c: Regs, a: nat)
    ensures var t := VarType(c.slots, a, UC_MINUS); VarTyped(c, a, if t != UC_MINUS then t else Fallback(c, a))
  {
    var t := VarType(c.slots, a, UC_MINUS);
    SomeIs(c.slots, a, UC);
    SomeIs(c.slots, a, WT);
    Precedence(c.slots, a, UC_MINUS);
    FallbackIs(c, a);
    if !Says(c.slots, a, UC) && !Says(c.slots, a, WT) {
      forall i | 0 <= i < |c.slots| ensures Decides(c.slots, a, i) <==> Hits(c.slots[i], a) && BaseType(c.slots[i]) != UC_MINUS {
        HitsIs(c.slots[i], a);
      }
      FirstDecides(c.slots, a, 0);
      forall i | 0 <= i < |c.slots| && Decides(c.slots, a, i) && (forall j :: 0 <= j < i ==> !Decides(c.slots, a, j))
        ensures t == SlotType(c.slots[i]) != UC_MINUS
      {
        HitsIs(c.slots[i], a);
        FirstDecides(c.slots, a, i);
      }
    }
  }

  lemma FallbackIs(c: Regs, a: nat)
    ensures Fallback(c, a) == NoSlotType(c, a)
  {
    Flags(c.syscfg);
    TypeField(c.defType);
    TopField(c.topMem2);
  }

  /** get_mtrr_type gives that type. */
  lemma TypeOfIs(c: Regs, a: nat, pass: bool)
    requires |c.fix| == 88
    ensures Typed(c, a, pass, TypeOf(c, a, pass))
  {
    Flags(c.defType);
    if a <= 0xFFFFF { FixLayout(a); }
    VarTypeIs(c, a);
  }

  /** get_mtrr_type, as written. */
  method GetMtrrType(c: Regs, phys: nat, pass: bool) returns (r: nat)
    requires |c.fix| == 88
    ensures r == TypeOf(c, phys, pass) && Typed(c, phys, pass, r)
  {
    TypeOfIs(c, phys, pass);
    if And(c.defType, E_BIT) == 0 {
      return UC;
    }
    if And(c.defType, FE_BIT) != 0 && phys <= 0xFFFFF {
      if pass {
        return WB;
      }
      FixLayout(phys);
      return c.fix[FixIndex(phys)];
    }
    var t := UC_MINUS;
    for i := 0 to |c.slots|
      invariant VarType(c.slots[i..], phys, t) == VarType(c.slots, phys, UC_MINUS)
    {
      var s := c.slots[i];
      assert c.slots[i..][1..] == c.slots[i + 1..];
      if Valid(s) && Under(Mask(s), s.base, phys) {
        if BaseType(s) == UC {
          return UC;
        } else if BaseType(s) == WT {
          t := WT;
        } else if t == UC_MINUS {
          t := BaseType(s);
        }
      }
    }
    if t != UC_MINUS {
      return t;
    }
    r := Fallback(c, phys);
  }

  // ------------------------------------------------------------- mtrr_type_equal

  /** No slot before n is given up on. */
  ghost predicate NoneSplits(slots: seq<Slot>, n: nat, phys: nat, pm: nat) {
    forall i :: 0 <= i < |slots| && i < n ==> !Splits(slots[i], phys, pm)
  }

  /** The first slot that applies and says UC, with no slot given up on before. */
  ghost predicate SettledUC(slots: seq<Slot>, phys: nat, pm: nat) {
    exists i :: 0 <= i < |slots| && Applies(slots[i], phys) && SlotType(slots[i]) == UC && NoneSplits(slots, i + 1, phys, pm)
  }

  lemma {:induction false} ScanIs(slots: seq<Slot>, phys: nat, pm: nat, t: nat)
    requires t != UC
    ensures var r := ScanSlots(slots, phys, pm, t);
      && (r == Uncached <==> SettledUC(slots, phys, pm))
      && (r == GiveUp <==> !SettledUC(slots, phys, pm) && !NoneSplits(slots, |slots|, phys, pm))
      && (r.Type? ==> r.t == VarType(slots, phys, t))
  {
    if slots != [] {
      var s, rest := slots[0], slots[1..];
      HitsIs(s, phys);
      var u := if Hits(s, phys) && BaseType(s) == WT then WT else if Hits(s, phys) && BaseType(s) != UC && t == UC_MINUS then BaseType(s) else t;
      ScanIs(rest, phys, pm, u);
      SplitTail(slots, phys, pm);
      SettledTail(slots, phys, pm);
    }
  }

  lemma SplitTail(slots: seq<Slot>, phys: nat, pm: nat)
    requires slots != []
    ensures forall n: nat :: NoneSplits(slots, n + 1, phys, pm) <==> !Splits(slots[0], phys, pm) && NoneSplits(slots[1..], n, phys, pm)
  {
    forall n: nat ensures NoneSplits(slots, n + 1, phys, pm) <==> !Splits(slots[0], phys, pm) && NoneSplits(slots[1..], n, phys, pm) {
      if NoneSplits(slots, n + 1, phys, pm) {
        forall i | 0 <= i < |slots[1..]| && i < n ensures !Splits(slots[1..][i], phys, pm) { assert slots[1..][i] == slots[i + 1]; }
      }
      if !Splits(slots[0], phys, pm) && NoneSplits(slots[1..], n, phys, pm) {
        forall i | 0 <= i < |slots| && i < n + 1 ensures !Splits(slots[i], phys, pm) {
          if i > 0 { assert slots[1..][i - 1] == slots[i]; }
        }
      }
    }
  }

  lemma SettledTail(slots: seq<Slot>, phys: nat, pm: nat)
    requires slots != []
    ensures SettledUC(slots, phys, pm) <==>
      !Splits(slots[0], phys, pm) && ((Applies(slots[0], phys) && SlotType(slots[0]) == UC) || SettledUC(slots[1..], phys, pm))
  {
    SplitTail(slots, phys, pm);
    var rest := slots[1..];
    if i :| 0 <= i < |slots| && Applies(slots[i], phys) && SlotType(slots[i]) == UC && NoneSplits(slots, i + 1, phys, pm) {
      if i > 0 {
        assert rest[i - 1] == slots[i] && NoneSplits(rest, i, phys, pm);
      }
    }
    if !Splits(slots[0], phys, pm) {
      if Applies(slots[0], phys) && SlotType(slots[0]) == UC {
        assert NoneSplits(slots, 0 + 1, phys, pm);
      } else if i :| 0 <= i < |rest| && Applies(rest[i], phys) && SlotType(rest[i]) == UC && NoneSplits(rest, i + 1, phys, pm) {
        assert slots[i + 1] == rest[i] && NoneSplits(slots, i + 1 + 1, phys, pm);
      }
    }
  }

  /** mtrr_type_equal answers true exactly when the MTRRs are on, the region is not among the fixed
      ranges, and an uncached slot settles it before any slot is given up on, or no slot is given
      up on and either a slot decides or the region does not straddle TOM2. */
  lemma EqualIff(c: Regs, phys: nat, pm: nat)
    ensures Equal(c, phys, pm) <==>
      && Bit(c.defType, 11) && !(Bit(c.defType, 10) && (phys <= 0xFFFFF || phys <= pm))
      && (SettledUC(c.slots, phys, pm)
          || (NoneSplits(c.slots, |c.slots|, phys, pm)
              && ((exists i :: 0 <= i < |c.slots| && Decides(c.slots, phys, i))
                  || !(0x1_0000_0000 <= phys < Tom2(c) && Bit(c.syscfg, 22)) || Or(phys, pm) < Tom2(c))))
  {
    Flags(c.defType);
    Flags(c.syscfg);
    TopField(c.topMem2);
    ScanIs(c.slots, phys, pm, UC_MINUS);
    SomeDecides(c.slots, phys);
  }

  lemma SomeDecides(slots: seq<Slot>, a: nat)
    ensures VarType(slots, a, UC_MINUS) != UC_MINUS <==> exists i :: 0 <= i < |slots| && Decides(slots, a, i)
  {
    SomeIs(slots, a, UC);
    SomeIs(slots, a, WT);
    Precedence(slots, a, UC_MINUS);
    forall i | 0 <= i < |slots| ensures Decides(slots, a, i) <==> Hits(slots[i], a) && BaseType(slots[i]) != UC_MINUS {
      HitsIs(slots[i], a);
    }
    if Says(slots, a, UC) {
      var i :| 0 <= i < |slots| && Applies(slots[i], a) && SlotType(slots[i]) == UC;
      assert Decides(slots, a, i);
    } else if Says(slots, a, WT) {
      var i :| 0 <= i < |slots| && Applies(slots[i], a) && SlotType(slots[i]) == WT;
      assert Decides(slots, a, i);
    } else {
      FirstDecides(slots, a, 0);
    }
  }
}
