/** Lazy clearing of a shadow page (cpu_mmu_spt.c, SPT_3): every entry that may be
    written is recorded first, and the page is later zeroed from the record only. */
module LazyClear {
  import opened Bits

  /** Entries of one shadow page, and the capacity of the short offset record. */
  const ENTRIES: nat := 512
  const OFFS: nat := 31

  /** `n` is clear_n, `off` the used part of clear_off (pairs of entries),
      `area` the 64-bit clear_area (one bit for eight entries). */
  datatype ClearInfo = ClearInfo(n: nat, off: seq<nat>, area: nat)

  const NOTHING := ClearInfo(0, [], 0)

  ghost predicate Valid(ci: ClearInfo) {
    && ci.n <= OFFS + 1
    && |ci.off| == (if ci.n < OFFS then ci.n else OFFS)
    && (forall j :: 0 <= j < |ci.off| ==> ci.off[j] < ENTRIES / 2)
    && Shr(ci.area, 64) == 0
    && (ci.n > 0 ==> ci.area > 0)
  }

  /** Entry `e` will be zeroed by the next clear. */
  ghost predicate Recorded(ci: ClearInfo, e: nat) {
    ci.n > 0 && (ci.n < OFFS ==> e / 2 in ci.off) && Bit(ci.area, e / 8)
  }

  /** update_clearinfo */
  function Record(ci: ClearInfo, e: nat): ClearInfo {
    ClearInfo(if ci.n <= OFFS then ci.n + 1 else ci.n,
              if ci.n < OFFS then ci.off + [e / 2] else ci.off,
              SetBit(ci.area, e / 8))
  }

  /** Recording keeps the record well formed, adds `e` and forgets nothing. */
  lemma RecordSound(ci: ClearInfo, e: nat)
    requires Valid(ci) && e < ENTRIES
    ensures Valid(Record(ci, e)) && Recorded(Record(ci, e), e)
    ensures forall f: nat :: Recorded(ci, f) ==> Recorded(Record(ci, e), f)
  {
    SetBitRange(ci.area, e / 8, 64);
    forall f: nat ensures Bit(SetBit(ci.area, e / 8), f / 8) <==> f / 8 == e / 8 || Bit(ci.area, f / 8) {
      SetBitSets(ci.area, e / 8, f / 8);
    }
  }

  /** Every non-zero entry of the page is recorded. */
  ghost predicate Covered<E>(ci: ClearInfo, t: seq<E>, zero: E) {
    forall e :: 0 <= e < |t| && t[e] != zero ==> Recorded(ci, e)
  }

  function Zeros<E>(zero: E): (t: seq<E>)
    ensures |t| == ENTRIES && forall e :: 0 <= e < ENTRIES ==> t[e] == zero
  {
    seq(ENTRIES, i => zero)
  }

  /** clear_shadow, the offset route. */
  function ClearPairs<E>(t: seq<E>, off: seq<nat>, zero: E): (r: seq<E>)
    requires |t| == ENTRIES && forall j :: 0 <= j < |off| ==> off[j] < ENTRIES / 2
    ensures |r| == |t|
    ensures forall e :: 0 <= e < |t| ==> r[e] == if e / 2 in off then zero else t[e]
  {
    if off == [] then t
    else
      var last := off[|off| - 1];
      assert off == off[..|off| - 1] + [last];
      ClearPairs(t, off[..|off| - 1], zero)[2 * last := zero][2 * last + 1 := zero]
  }

  /** clear_shadow, the run-scan route: what the nested run loops must compute. */
  function ClearArea<E>(t: seq<E>, area: nat, zero: E): (r: seq<E>)
    requires |t| == ENTRIES
    ensures |r| == |t|
    ensures forall e :: 0 <= e < |t| ==> r[e] == if Bit(area, e / 8) then zero else t[e]
  {
    seq(|t|, e requires 0 <= e < |t| => if Bit(area, e / 8) then zero else t[e])
  }

  /** clear_shadow: the new page contents (the record becomes NOTHING). */
  function Cleared<E>(ci: ClearInfo, t: seq<E>, zero: E): (r: seq<E>)
    requires |t| == ENTRIES && Valid(ci)
    ensures |r| == |t|
  {
    if ci.n == 0 then t
    else if ci.n < OFFS then ClearPairs(t, ci.off, zero)
    else ClearArea(t, ci.area, zero)
  }

  /** Lazy clearing refines a full memset, by either route. */
  lemma ClearedIsZero<E>(ci: ClearInfo, t: seq<E>, zero: E)
    requires |t| == ENTRIES && Valid(ci) && Covered(ci, t, zero)
    ensures Cleared(ci, t, zero) == Zeros(zero)
    ensures Covered(NOTHING, Cleared(ci, t, zero), zero) && Valid(NOTHING)
  {
    var r := Cleared(ci, t, zero);
    forall e | 0 <= e < ENTRIES ensures r[e] == zero {
      if t[e] != zero { assert Recorded(ci, e); }
    }
    assert r == Zeros(zero);
    assert Shr(0, 64) == 0 by { ShrZero(64); }
  }

  lemma {:induction false} ShrZero(k: nat)
    ensures Shr(0, k) == 0
  {
    if k > 0 { ShrZero(k - 1); }
  }

  lemma {:induction false} ShrBound(a: nat, k: nat, w: nat)
    requires Shr(a, w) == 0 && Shr(a, k) > 0
    ensures k < w
  {
    if k == 0 {
    } else if w == 0 {
      ShrZero(k);
    } else {
      ShrBound(a / 2, k - 1, w - 1);
    }
  }

  /** clear_shadow on a page in memory.  `p` holds the entries; the scan route keeps
      `tmp` (the shifted area) and `k` (the byte pointer, in units of 64 bytes). */
  method ClearShadow<E>(p: array<E>, ci: ClearInfo, zero: E) returns (ci': ClearInfo)
    requires p.Length == ENTRIES && Valid(ci)
    modifies p
    ensures p[..] == Cleared(ci, old(p[..]), zero)
    ensures Covered(ci, old(p[..]), zero) ==> p[..] == Zeros(zero)
    ensures ci' == if ci.n == 0 then ci else NOTHING
  {
    if Covered(ci, p[..], zero) { ClearedIsZero(ci, p[..], zero); }
    ci' := ci;
    if ci.n == 0 { return; }
    if ci.n < OFFS {
      var i := 0;
      while i < ci.n
        invariant 0 <= i <= ci.n
        invariant p[..] == ClearPairs(old(p[..]), ci.off[..i], zero)
      {
        var j := 2 * ci.off[i];
        assert ci.off[..i + 1][..i] == ci.off[..i];
        p[j] := zero;
        p[j + 1] := zero;
        i := i + 1;
      }
      assert ci.off[..ci.n] == ci.off;
    } else {
      ClearRuns(p, ci.area, zero);
    }
    ci' := NOTHING;
  }

  ghost predicate ScannedTo<E>(now: seq<E>, was: seq<E>, area: nat, k: nat, zero: E) {
    && |now| == |was| == ENTRIES
    && (forall e :: 0 <= e < ENTRIES && e < 8 * k ==> now[e] == if Bit(area, e / 8) then zero else was[e])
    && (forall e :: 8 * k <= e < ENTRIES ==> now[e] == was[e])
  }

  /** The nested do-while loops over runs of set bits. */
  method ClearRuns<E>(p: array<E>, area: nat, zero: E)
    requires p.Length == ENTRIES && area > 0 && Shr(area, 64) == 0
    modifies p
    ensures p[..] == ClearArea(old(p[..]), area, zero)
  {
    ghost var was := p[..];
    var tmp, k := area, 0;
    var start1 := tmp % 2 == 1;
    while tmp != 0
      invariant 0 <= k <= 64 && tmp == Shr(area, k)
      invariant start1 <==> tmp % 2 == 1
      invariant ScannedTo(p[..], was, area, k, zero)
      decreases tmp
    {
      if !start1 {
        tmp, k := SkipClear(area, tmp, k, p[..], was, zero);
      }
      start1 := false;
      ghost var k0 := k;
      var j := 0;
      ShrBound(area, k, 64);
      while tmp % 2 == 1
        invariant tmp == Shr(area, k0 + j) && k0 + j <= 64
        invariant j == 0 ==> tmp % 2 == 1
        invariant j > 0 ==> tmp < Shr(area, k0)
        invariant forall b :: k0 <= b < k0 + j ==> Bit(area, b)
        decreases tmp
        modifies {}
      {
        ShrStep(area, k0 + j);
        ShrBound(area, k0 + j, 64);
        tmp := tmp / 2;
        j := j + 1;
      }
      ZeroRange(p, 8 * k, 8 * (k + j), zero);
      k := k + j;
    }
    forall e | 0 <= e < ENTRIES ensures p[e] == ClearArea(was, area, zero)[e] {
      if 8 * k <= e { NoHighBits(area, k, e / 8); }
    }
  }

  method SkipClear<E>(area: nat, tmp0: nat, k0: nat, ghost now: seq<E>, ghost was: seq<E>, ghost zero: E)
    returns (tmp: nat, k: nat)
    requires tmp0 == Shr(area, k0) && tmp0 > 0 && tmp0 % 2 == 0 && Shr(area, 64) == 0
    requires ScannedTo(now, was, area, k0, zero)
    ensures k0 < k < 64 && tmp == Shr(area, k) && tmp % 2 == 1 && tmp < tmp0
    ensures ScannedTo(now, was, area, k, zero)
  {
    tmp, k := tmp0, k0;
    while tmp % 2 == 0
      invariant tmp == Shr(area, k) && 0 < tmp <= tmp0 && k0 <= k
      invariant k > k0 ==> tmp < tmp0
      invariant ScannedTo(now, was, area, k, zero)
      decreases tmp
    {
      ShrStep(area, k);
      assert !Bit(area, k);
      tmp := tmp / 2;
      k := k + 1;
    }
    ShrBound(area, k, 64);
  }

  method ZeroRange<E>(p: array<E>, lo: nat, hi: nat, zero: E)
    requires lo <= hi <= p.Length
    modifies p
    ensures forall e :: 0 <= e < p.Length ==> p[e] == if lo <= e < hi then zero else old(p[e])
  {
    var e := lo;
    while e < hi
      invariant lo <= e <= hi
      invariant forall f :: 0 <= f < p.Length ==> p[f] == if lo <= f < e then zero else old(p[f])
    {
      p[e] := zero;
      e := e + 1;
    }
  }
}
