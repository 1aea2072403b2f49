/** Memory types from a snapshot of the MTRRs (cache.c, get_mtrr_type, mtrr_type_equal). */
module Mtrr {
  import opened Pow2
  import opened Bits

  const UC: nat := 0
  const WT: nat := 4
  const WB: nat := 6
  const UC_MINUS: nat := 7

  const E_BIT: nat := 0x800
  const FE_BIT: nat := 0x400
  const V_BIT: nat := 0x800
  const TYPE: nat := 0xFF
  const PHYSMASK: nat := 0xF_FFFF_FFFF_F000
  const TOM2FORCE: nat := 0x40_0000
  const TOP_MEM2: nat := 0xF_FFFF_FF80_0000
  const FOUR_G: nat := 0x1_0000_0000

  /** A variable-range pair mtrr_physbase[i], mtrr_physmask[i]. */
  datatype Slot = Slot(base: nat, mask: nat)

  /** struct cache_regs: the fixed-range bytes come in the order of mtrr_fix_msr. */
  datatype Regs = Regs(defType: nat, fix: seq<nat>, slots: seq<Slot>, syscfg: nat, topMem2: nat)

  predicate Valid(s: Slot) {
    And(s.mask, V_BIT) != 0
  }

  function Mask(s: Slot): nat {
    And(s.mask, PHYSMASK)
  }

  function BaseType(s: Slot): nat {
    And(s.base, TYPE)
  }

  /** Masked comparison. */
  predicate Under(m: nat, base: nat, a: nat) {
    And(m, base) == And(m, a)
  }

  /** The slot applies to address a. */
  predicate Hits(s: Slot, a: nat) {
    Valid(s) && Under(Mask(s), s.base, a)
  }

  // ------------------------------------------------------------- get_mtrr_type

  /** Index of the fixed-range byte of an address below 1 MiB. */
  function FixIndex(a: nat): nat {
    if And(a, 0x80000) != 0 then
      if And(a, 0x40000) != 0 then And(a, 0x3F000) / 0x1000 else 64 + And(a, 0x3C000) / 0x4000
    else 80 + And(a, 0x70000) / 0x10000
  }

  lemma Powers()
    ensures Pow(12) == 0x1000 && Pow(14) == 0x4000 && Pow(16) == 0x10000 && Pow(18) == 0x40000
    ensures Pow(19) == 0x80000 && Pow(20) == 0x100000 && Pow(32) == FOUR_G
  {
    assert Pow(8) == 256 && Pow(12) == 0x1000;
    PowAdd(12, 2);
    PowAdd(12, 4);
    PowAdd(12, 8);
    assert Pow(19) == 2 * Pow(18) && Pow(18) == 2 * Pow(17) && Pow(17) == 2 * Pow(16);
    PowAdd(20, 12);
  }

  lemma AndMod(x: nat, w: nat, m: nat)
    requires m <= w
    ensures And(x, Ones(w, m)) == x % Pow(w) - x % Pow(m)
  {
    AndOnes(x, w, m);
    LowIsMod(x, w);
    LowIsMod(x, m);
  }

  lemma {:induction false} LowOfLow(a: nat, m: nat, n: nat)
    requires n <= m
    ensures Low(Low(a, m), n) == Low(a, n)
  {
    if n > 0 {
      LowOfLow(a / 2, m - 1, n - 1);
      assert Low(a, m) % 2 == a % 2 && Low(a, m) / 2 == Low(a / 2, m - 1);
    }
  }

  lemma LowIsMod(a: nat, n: nat)
    ensures Low(a, n) == a % Pow(n)
  {
    LowLess(a, n);
    LowBound(a, n);
    var p := a - Low(a, n);
    NoLow(p, n);
    var k := AlignedQuot(p, n);
    assert a == Pow(n) * k + Low(a, n);
    ModUnique(a, Pow(n), k, Low(a, n));
  }

  lemma {:induction false} NoLow(p: nat, n: nat)
    requires Low(p, n) == 0
    ensures Aligned(p, n)
  {
    if n > 0 { NoLow(p / 2, n - 1); }
  }

  /** The layout of the fixed ranges: 4 KiB pieces from C0000, 16 KiB pieces from 80000 and
      64 KiB pieces from 0, which have the bytes 0 to 63, 64 to 79 and 80 to 87. */
  lemma FixLayout(a: nat)
    requires a <= 0xFFFFF
    ensures FixIndex(a) < 88
    ensures FixIndex(a) ==
      if a >= 0xC0000 then (a - 0xC0000) / 0x1000
      else if a >= 0x80000 then 64 + (a - 0x80000) / 0x4000
      else 80 + a / 0x10000
  {
    FixBits(a);
    FixParts(a);
    if a >= 0xC0000 {
      Offset(a, 0xC0000, 0x1000);
    } else if a >= 0x80000 {
      Offset(a, 0x80000, 0x4000);
    } else {
      Offset(a, 0, 0x10000);
    }
  }

  /** An address from a region of 256 KiB or 512 KiB on, in units of d. */
  lemma Offset(a: nat, base: nat, d: nat)
    requires (base == 0xC0000 && d == 0x1000 && a < 0x100000) || (base == 0x80000 && d == 0x4000 && a < 0xC0000)
          || (base == 0 && d == 0x10000 && a < 0x80000)
    requires base <= a
    ensures a - a % 0x80000 == (if base == 0 then 0 else 0x80000)
    ensures base > 0 ==> a % 0x80000 - a % 0x40000 == (if base == 0xC0000 then 0x40000 else 0) && a % 0x40000 == a - base
    ensures base == 0 ==> a % 0x80000 == a
    ensures (a - base - a % d) / d == (a - base) / d
  {
  }

  /** The masks that get_mtrr_type uses on an address below 1 MiB: the two that choose ... */
  lemma FixBits(a: nat)
    requires a <= 0xFFFFF
    ensures And(a, 0x80000) == a - a % 0x80000 && And(a, 0x40000) == a % 0x80000 - a % 0x40000
  {
    AndMod(a, 20, 19);
    AndMod(a, 19, 18);
    Powers();
  }

  /** ... and the three that give an index. */
  lemma FixParts(a: nat)
    ensures And(a, 0x3F000) == a % 0x40000 - a % 0x1000 && And(a, 0x3C000) == a % 0x40000 - a % 0x4000
    ensures And(a, 0x70000) == a % 0x80000 - a % 0x10000
  {
    Powers();
    AndMod(a, 18, 12);
    AndMod(a, 18, 14);
    AndMod(a, 19, 16);
  }

  lemma {:induction false} PowLow(n: nat)
    ensures Low(Pow(n), n) == 0
  {
    if n > 0 { PowLow(n - 1); }
  }

  /** The loop over the variable ranges, started with type t. */
  function VarType(slots: seq<Slot>, a: nat, t: nat): nat {
    if slots == [] then t
    else
      var s, rest := slots[0], slots[1..];
      if !Hits(s, a) then VarType(rest, a, t)
      else if BaseType(s) == UC then UC
      else if BaseType(s) == WT then VarType(rest, a, WT)
      else VarType(rest, a, if t == UC_MINUS then BaseType(s) else t)
  }

  function Fallback(c: Regs, a: nat): nat {
    if a >= FOUR_G && And(c.syscfg, TOM2FORCE) != 0 && a < And(c.topMem2, TOP_MEM2) then WB else And(c.defType, TYPE)
  }

  predicate Fixed(c: Regs, a: nat) {
    And(c.defType, FE_BIT) != 0 && a <= 0xFFFFF
  }

  /** get_mtrr_type */
  function TypeOf(c: Regs, a: nat, pass: bool): nat
    requires |c.fix| == 88
  {
    if And(c.defType, E_BIT) == 0 then UC
    else if Fixed(c, a) then
      FixLayout(a);
      if pass then WB else c.fix[FixIndex(a)]
    else
      var t := VarType(c.slots, a, UC_MINUS);
      if t != UC_MINUS then t else Fallback(c, a)
  }

  /** Some slot applies to a and has type t. */
  predicate Some(slots: seq<Slot>, a: nat, t: nat) {
    exists i :: 0 <= i < |slots| && Hits(slots[i], a) && BaseType(slots[i]) == t
  }

  /** Slot i is the first that applies and gives a type. */
  predicate First(slots: seq<Slot>, a: nat, i: nat) {
    && i < |slots| && Hits(slots[i], a) && BaseType(slots[i]) != UC_MINUS
    && (forall j :: 0 <= j < i ==> !(Hits(slots[j], a) && BaseType(slots[j]) != UC_MINUS))
  }

  lemma SomeTail(slots: seq<Slot>, a: nat, t: nat)
    requires slots != []
    ensures Some(slots, a, t) <==> (Hits(slots[0], a) && BaseType(slots[0]) == t) || Some(slots[1..], a, t)
  {
    if i :| 0 <= i < |slots[1..]| && Hits(slots[1..][i], a) && BaseType(slots[1..][i]) == t {
      assert slots[1..][i] == slots[i + 1];
    }
    if i :| 0 < i < |slots| && Hits(slots[i], a) && BaseType(slots[i]) == t {
      assert slots[1..][i - 1] == slots[i];
    }
  }

  /** The precedence of the MTRRs, whatever the order of the slots: UC beats all, WT beats the
      rest ... */
  lemma {:induction false} Precedence(slots: seq<Slot>, a: nat, t: nat)
    requires t != UC
    ensures Some(slots, a, UC) <==> VarType(slots, a, t) == UC
    ensures !Some(slots, a, UC) && Some(slots, a, WT) ==> VarType(slots, a, t) == WT
    ensures !Some(slots, a, UC) && !Some(slots, a, WT) && t != UC_MINUS ==> VarType(slots, a, t) == t
  {
    if slots != [] {
      var s, rest := slots[0], slots[1..];
      SomeTail(slots, a, UC);
      SomeTail(slots, a, WT);
      Precedence(rest, a, t);
      Precedence(rest, a, WT);
      if BaseType(s) != UC { Precedence(rest, a, BaseType(s)); }
    }
  }

  /** ... and otherwise the first slot that applies decides; none does exactly when the
      default is used. */
  lemma {:induction false} FirstDecides(slots: seq<Slot>, a: nat, i: nat)
    requires !Some(slots, a, UC) && !Some(slots, a, WT)
    ensures First(slots, a, i) ==> VarType(slots, a, UC_MINUS) == BaseType(slots[i])
    ensures VarType(slots, a, UC_MINUS) == UC_MINUS <==>
      forall j :: 0 <= j < |slots| && Hits(slots[j], a) ==> BaseType(slots[j]) == UC_MINUS
  {
    if slots != [] {
      var s, rest := slots[0], slots[1..];
      SomeTail(slots, a, UC);
      SomeTail(slots, a, WT);
      assert forall j :: 0 <= j < |rest| ==> rest[j] == slots[j + 1];
      if Hits(s, a) && BaseType(s) != UC_MINUS {
        Precedence(rest, a, BaseType(s));
      } else {
        FirstDecides(rest, a, if i > 0 then i - 1 else 0);
      }
    }
  }

  // ------------------------------------------------------------- mtrr_type_equal

  /** A slot on which the scan gives up; pm is the mask of the offsets in the region. */
  predicate Splits(s: Slot, phys: nat, pm: nat) {
    && Valid(s) && And(Mask(s), pm) != 0
    && (Under(Mask(s), s.base, phys) || AndNot(And(Mask(s), s.base), pm) == AndNot(phys, pm))
  }

  /** x & ~y */
  function AndNot(x: nat, y: nat): int {
    x - And(x, y)
  }

  /** How the scan ends: given up, a UC slot covers the region, or with a type. */
  datatype Scan = GiveUp | Uncached | Type(t: nat)

  function ScanSlots(slots: seq<Slot>, phys: nat, pm: nat, t: nat): Scan {
    if slots == [] then Type(t)
    else
      var s, rest := slots[0], slots[1..];
      if Splits(s, phys, pm) then GiveUp
      else if !Hits(s, phys) then ScanSlots(rest, phys, pm, t)
      else if BaseType(s) == UC then Uncached
      else if BaseType(s) == WT then ScanSlots(rest, phys, pm, WT)
      else ScanSlots(rest, phys, pm, if t == UC_MINUS then BaseType(s) else t)
  }

  /** What is left to decide when the scan ends with a type. */
  predicate BelowTop2(c: Regs, phys: nat, pm: nat) {
    phys >= FOUR_G && And(c.syscfg, TOM2FORCE) != 0 && phys < And(c.topMem2, TOP_MEM2) ==>
      Or(phys, pm) < And(c.topMem2, TOP_MEM2)
  }

  /** mtrr_type_equal */
  predicate Equal(c: Regs, phys: nat, pm: nat) {
    && And(c.defType, E_BIT) != 0
    && !(And(c.defType, FE_BIT) != 0 && (phys <= 0xFFFFF || phys <= pm))
    && match ScanSlots(c.slots, phys, pm, UC_MINUS)
       case GiveUp => false
       case Uncached => true
       case Type(t) => t != UC_MINUS || BelowTop2(c, phys, pm)
  }

  /** mtrr_type_equal, as written. */
  method MtrrTypeEqual(c: Regs, phys: nat, pm: nat) returns (r: bool)
    ensures r == Equal(c, phys, pm)
  {
    if And(c.defType, E_BIT) == 0 {
      return false;
    }
    if And(c.defType, FE_BIT) != 0 && (phys <= 0xFFFFF || phys <= pm) {
      return false;
    }
    var t := UC_MINUS;
    for i := 0 to |c.slots|
      invariant ScanSlots(c.slots[i..], phys, pm, t) == ScanSlots(c.slots, phys, pm, UC_MINUS)
    {
      var s := c.slots[i];
      assert c.slots[i..][1..] == c.slots[i + 1..];
      if Valid(s) {
        if And(Mask(s), s.base) == And(Mask(s), phys) {
          if And(Mask(s), pm) != 0 {
            return false;
          }
          if BaseType(s) == UC {
            return true;
          } else if BaseType(s) == WT {
            t := WT;
          } else if t == UC_MINUS {
            t := BaseType(s);
          }
        } else if And(Mask(s), pm) != 0 {
          if AndNot(And(Mask(s), s.base), pm) == AndNot(phys, pm) {
            return false;
          }
        }
      }
    }
    if t != UC_MINUS {
      return true;
    }
    var top := And(c.topMem2, TOP_MEM2);
    if phys >= FOUR_G && And(c.syscfg, TOM2FORCE) != 0 && phys < top {
      return Or(phys, pm) < top;
    }
    r := true;
  }

  // ------------------------------------------------------------- regions

  /** Addresses that differ from phys only in the low k bits. */
  predicate InRegion(a: nat, phys: nat, k: nat) {
    a - Low(a, k) == phys
  }

  /** The slot's mask has no hole below the address width w. */
  ghost predicate Contiguous(s: Slot, w: nat) {
    Valid(s) ==> exists m :: 0 <= m <= w && Mask(s) == Ones(w, m)
  }

  /** A mask on which mtrr_type_equal can be relied on: no hole below the width, or no bit among
      the offsets of a region of up to 4 GiB. */
  ghost predicate Tame(s: Slot, w: nat) {
    Contiguous(s, w) || Low(Mask(s), 32) == 0
  }

  lemma RegionFacts(a: nat, phys: nat, k: nat)
    requires InRegion(a, phys, k)
    ensures Low(phys, k) == 0 && phys <= a < phys + Pow(k) && InRegion(phys, phys, k)
    ensures forall m :: m >= k ==> Low(a, m) == Low(phys, m) + Low(a, k)
    ensures And(phys, Ones(k, 0)) == 0 && Or(phys, Ones(k, 0)) == phys + Pow(k) - 1
  {
    LowLess(a, k);
    LowBound(a, k);
    forall m: nat | m >= k ensures Low(a, m) == Low(phys, m) + Low(a, k) { Split(a, k, m); }
    AndOnes(phys, k, 0);
  }

  lemma MaskedBy(x: nat, w: nat, m: nat)
    requires m <= w
    ensures And(Ones(w, m), x) == Low(x, w) - Low(x, m)
  {
    AndOnes(x, w, m);
    AndSym(x, Ones(w, m));
  }

  /** A mask meets the offsets exactly when its lowest bit is among them. */
  lemma MeetsOffsets(w: nat, m: nat, k: nat)
    requires m <= w && k <= w
    ensures And(Ones(w, m), Ones(k, 0)) != 0 <==> m < k
  {
    MaskedBy(Ones(k, 0), w, m);
    PowMono(k, w);
    LowSmall(Ones(k, 0), w);
    if m < k {
      LowBound(Ones(k, 0), m);
      PowMono(m, k);
    } else {
      PowMono(k, m);
      LowSmall(Ones(k, 0), m);
    }
  }

  lemma InWidth(a: nat, phys: nat, k: nat, w: nat)
    requires InRegion(a, phys, k) && k <= w && phys < Pow(w)
    ensures a < Pow(w)
  {
    RegionFacts(a, phys, k);
    LowSmall(phys, w);
    LowBound(a, w);
  }

  /** A mask above the offsets does not see them. */
  lemma WideMask(w: nat, m: nat, phys: nat, k: nat, a: nat)
    requires k <= m <= w && InRegion(a, phys, k)
    ensures And(Ones(w, m), a) == And(Ones(w, m), phys)
  {
    RegionFacts(a, phys, k);
    MaskedBy(a, w, m);
    MaskedBy(phys, w, m);
  }

  /** A narrower range that meets the region lies inside it. */
  lemma NarrowMask(w: nat, m: nat, phys: nat, k: nat, a: nat)
    requires m < k <= w && phys < Pow(w) && InRegion(a, phys, k)
    ensures AndNot(And(Ones(w, m), a), Ones(k, 0)) == phys == AndNot(phys, Ones(k, 0))
  {
    InWidth(a, phys, k, w);
    MaskedInWidth(a, w, m);
    assert And(phys, Ones(k, 0)) == 0 by { RegionFacts(a, phys, k); }
    Split(a, m, k);
    AndOnes(a - Low(a, m), k, 0);
  }

  /** A slot that is not given up on applies to the whole region or to none of it. */
  lemma SlotAgrees(s: Slot, w: nat, phys: nat, k: nat, a: nat)
    requires Tame(s, w) && k <= 32 <= w && phys < Pow(w) && InRegion(a, phys, k) && !Splits(s, phys, Ones(k, 0))
    ensures Hits(s, a) == Hits(s, phys)
  {
    if Low(Mask(s), 32) == 0 {
      HighMask(Mask(s), phys, k, a, 32);
    } else if Valid(s) {
      var m :| 0 <= m <= w && Mask(s) == Ones(w, m);
      MeetsOffsets(w, m, k);
      if m < k { NarrowMask(w, m, phys, k, a); } else { WideMask(w, m, phys, k, a); }
    }
  }

  lemma HighMask(mask: nat, phys: nat, k: nat, a: nat, n: nat)
    requires Low(mask, n) == 0 && k <= n && InRegion(a, phys, k)
    ensures And(mask, a) == And(mask, phys)
  {
    RegionFacts(a, phys, k);
    LowBound(a, k);
    PowMono(k, n);
    AndSum(mask, phys, Low(a, k), k);
    AndNoLow(mask, Low(a, k), n);
  }

  /** The scan gives up only on a slot that applies to part of the region: there is an
      address in it on which the slot differs. */
  lemma SplitIsReal(s: Slot, w: nat, phys: nat, k: nat) returns (a: nat)
    requires Contiguous(s, w) && k <= w && phys < Pow(w) && Low(phys, k) == 0 && Splits(s, phys, Ones(k, 0))
    ensures InRegion(a, phys, k) && Hits(s, a) != Hits(s, phys)
  {
    var m :| 0 <= m <= w && Mask(s) == Ones(w, m);
    MeetsOffsets(w, m, k);
    if Hits(s, phys) {
      a := phys + Pow(m);
      StepBelow(phys, m, k);
      OtherPart(w, m, phys, k, a);
    } else {
      a := And(Mask(s), s.base);
      AndTwice(Mask(s), s.base);
      AndOnes(a, k, 0);
      AndOnes(phys, k, 0);
    }
  }

  lemma OtherPart(w: nat, m: nat, phys: nat, k: nat, a: nat)
    requires m < k <= w && phys < Pow(w) && a > phys && InRegion(a, phys, k) && Low(a, m) == 0 && Low(phys, m) == 0
    ensures And(Ones(w, m), a) != And(Ones(w, m), phys)
  {
    InWidth(a, phys, k, w);
    MaskedInWidth(a, w, m);
    MaskedInWidth(phys, w, m);
  }

  lemma MaskedInWidth(x: nat, w: nat, m: nat)
    requires m <= w && x < Pow(w)
    ensures And(Ones(w, m), x) == x - Low(x, m)
  {
    LowSmall(x, w);
    MaskedBy(x, w, m);
  }

  lemma StepBelow(phys: nat, m: nat, k: nat)
    requires m < k && Low(phys, k) == 0
    ensures Low(phys + Pow(m), m) == 0 && Low(phys, m) == 0 && InRegion(phys + Pow(m), phys, k)
  {
    PowMono(m, k);
    LowSum(phys, Pow(m), k, k);
    LowSum(phys, Pow(m), k, m);
    LowSum(phys, 0, k, m);
    LowSmall(0, m);
    PowLow(m);
  }

  // ------------------------------------------------------------- soundness

  ghost predicate AllTame(slots: seq<Slot>, w: nat) {
    forall i :: 0 <= i < |slots| ==> Tame(slots[i], w)
  }

  lemma {:induction false} ScanSound(slots: seq<Slot>, w: nat, phys: nat, k: nat, a: nat, t: nat)
    requires AllTame(slots, w) && k <= 32 <= w && phys < Pow(w) && InRegion(a, phys, k)
    ensures match ScanSlots(slots, phys, Ones(k, 0), t)
      case GiveUp => true
      case Uncached => VarType(slots, a, t) == UC
      case Type(u) => VarType(slots, a, t) == u
  {
    if slots != [] && !Splits(slots[0], phys, Ones(k, 0)) {
      var s, rest := slots[0], slots[1..];
      SlotAgrees(s, w, phys, k, a);
      assert AllTame(rest, w);
      ScanSound(rest, w, phys, k, a, t);
      ScanSound(rest, w, phys, k, a, WT);
      ScanSound(rest, w, phys, k, a, BaseType(s));
    }
  }

  lemma SameFallback(c: Regs, phys: nat, k: nat, a: nat)
    requires InRegion(a, phys, k) && k <= 32 && BelowTop2(c, phys, Ones(k, 0))
    ensures Fallback(c, a) == Fallback(c, phys)
  {
    RegionFacts(a, phys, k);
    Powers();
    if phys < FOUR_G { InWidth(a, phys, k, 32); }
  }

  /** When mtrr_type_equal answers true for an aligned region of 4 KiB to 4 GiB, every address
      in it has the same type: for all register values whose variable masks are tame. */
  lemma EqualSound(c: Regs, w: nat, phys: nat, k: nat, a: nat, pass: bool)
    requires |c.fix| == 88 && AllTame(c.slots, w) && 12 <= k <= 32 <= w
    requires phys < Pow(w) && InRegion(a, phys, k) && Equal(c, phys, Ones(k, 0))
    ensures TypeOf(c, a, pass) == TypeOf(c, phys, pass)
  {
    RegionFacts(a, phys, k);
    ScanSound(c.slots, w, phys, k, a, UC_MINUS);
    ScanSound(c.slots, w, phys, k, phys, UC_MINUS);
    if VarType(c.slots, phys, UC_MINUS) == UC_MINUS { SameFallback(c, phys, k, a); }
  }

  /** With a hole in a mask the answer can be wrong: a slot that matches every other 4 KiB
      page, and a 2 MiB region that is reported uniform but is not. */
  lemma HoleBreaksEqual() returns (c: Regs, phys: nat, a: nat)
    ensures |c.fix| == 88 && phys < Pow(52) && InRegion(a, phys, 21) && Equal(c, phys, Ones(21, 0))
    ensures TypeOf(c, a, false) == WB && TypeOf(c, phys, false) == UC
  {
    var s := Slot(0x1006, 0x1800);
    c := Regs(0x800, seq(88, i => 0), [s], 0, 0);
    phys, a := 0x20_0000, 0x20_1000;
    HoleWords(s, phys, a);
    RegWords(c);
    HoleScan(c, s, phys, Ones(21, 0));
    HoleTypes(c, s, phys, a);
  }

  lemma HoleWords(s: Slot, phys: nat, a: nat)
    requires s.base == 0x1006 && s.mask == 0x1800 && phys == 0x20_0000 && a == 0x20_1000
    ensures phys < Pow(52) && InRegion(a, phys, 21) && Valid(s) && BaseType(s) == WB
    ensures Under(Mask(s), s.base, a) && !Under(Mask(s), s.base, phys)
    ensures And(Mask(s), s.base) == And(And(Mask(s), s.base), Ones(21, 0)) && AndNot(phys, Ones(21, 0)) != 0
  {
    Powers();
    MorePowers();
    SlotWords(s);
    LowIsMod(a, 21);
    AndMod(phys, 13, 12);
    AndMod(a, 13, 12);
    AndMod(phys, 21, 0);
    AndSym(Mask(s), phys);
    AndSym(Mask(s), a);
  }

  lemma HoleScan(c: Regs, s: Slot, phys: nat, pm: nat)
    requires c.slots == [s] && And(c.defType, E_BIT) != 0 && And(c.defType, FE_BIT) == 0
    requires And(c.syscfg, TOM2FORCE) == 0 && Valid(s) && !Under(Mask(s), s.base, phys)
    requires And(Mask(s), s.base) == And(And(Mask(s), s.base), pm) && AndNot(phys, pm) != 0
    ensures Equal(c, phys, pm)
  {
    assert c.slots[1..] == [];
    assert ScanSlots(c.slots, phys, pm, UC_MINUS) == Type(UC_MINUS);
  }

  lemma HoleTypes(c: Regs, s: Slot, phys: nat, a: nat)
    requires |c.fix| == 88 && c.slots == [s] && And(c.defType, E_BIT) != 0 && And(c.defType, FE_BIT) == 0
    requires And(c.syscfg, TOM2FORCE) == 0 && And(c.defType, TYPE) == 0
    requires Valid(s) && BaseType(s) == WB && Under(Mask(s), s.base, a) && !Under(Mask(s), s.base, phys)
    ensures TypeOf(c, a, false) == WB && TypeOf(c, phys, false) == UC
  {
    assert c.slots[1..] == [];
    assert VarType(c.slots, a, UC_MINUS) == WB;
    assert VarType(c.slots, phys, UC_MINUS) == UC_MINUS;
  }

  lemma MorePowers()
    ensures Pow(8) == 0x100 && Pow(10) == 0x400 && Pow(11) == 0x800 && Pow(13) == 0x2000 && Pow(21) == 0x20_0000
    ensures Pow(52) == 0x10_0000_0000_0000
  {
    Powers();
    assert Pow(8) == 256 && Pow(10) == 1024 && Pow(11) == 2048;
    assert Pow(13) == 2 * Pow(12) && Pow(21) == 2 * Pow(20);
    PowAdd(32, 20);
  }

  lemma SlotWords(s: Slot)
    requires s.base == 0x1006 && s.mask == 0x1800
    ensures Valid(s) && BaseType(s) == WB && Mask(s) == 0x1000 && And(Mask(s), s.base) == 0x1000
    ensures And(And(Mask(s), s.base), Ones(21, 0)) == 0x1000
  {
    Powers();
    MorePowers();
    AndMod(s.mask, 12, 11);
    AndMod(s.mask, 52, 12);
    AndMod(s.base, 8, 0);
    AndMod(s.base, 13, 12);
    AndSym(Mask(s), s.base);
    AndMod(And(Mask(s), s.base), 21, 0);
  }

  lemma RegWords(c: Regs)
    requires c.defType == 0x800 && c.syscfg == 0
    ensures And(c.defType, E_BIT) != 0 && And(c.defType, FE_BIT) == 0 && And(c.defType, TYPE) == 0 && And(c.syscfg, TOM2FORCE) == 0
  {
    Powers();
    MorePowers();
    AndMod(c.defType, 12, 11);
    AndMod(c.defType, 11, 10);
    AndMod(c.defType, 8, 0);
  }
}
