/** Interval arithmetic of the MMIO index (mmio.c): rangecheck on 64-bit addresses, and the
    seventeen buckets (sixteen of 256 MiB below 4 GiB, one above). */
module MmioRange {

  const TWO64: nat := 0x1_0000_0000_0000_0000
  const BUCKET: nat := 0x1000_0000
  const FOURG: nat := 0x1_0000_0000

  /** struct mmio_handle: `dead` is the unregistered flag, `unlocked` the kind of handler. */
  datatype Range = Range(gphys: nat, len: nat, dead: bool, unlocked: bool)

  /** A range the source can represent without wrapping around. */
  predicate Proper(g: nat, len: nat) {
    0 < len && g + len <= TWO64
  }

  predicate InRange(h: Range, x: nat) {
    h.gphys <= x < h.gphys + h.len
  }

  /** Two half-open ranges have a byte in common. */
  predicate Meet(a: nat, alen: nat, b: nat, blen: nat) {
    a < b + blen && b < a + alen
  }

  /** Reduction to 64 bits. */
  function W(x: int): (r: nat)
    ensures r < TWO64
  {
    x % TWO64
  }

  datatype Hit = Miss | Hit(g: nat, len: int)

  /** rangecheck: relative to the start of the handle, in 64-bit arithmetic. */
  function RangeCheck(h: Range, g: nat, len: nat): Hit {
    if h.dead then Miss
    else
      var a := W(g - h.gphys);
      var b := W(W(g + len - 1) - h.gphys);
      var d := W(W(h.gphys + h.len - 1) - h.gphys);
      if d < a && a <= b then Miss
      else
        var a' := if d < a then 0 else a;
        var b' := if d < b then d else b;
        Hit(W(a' + h.gphys), b' - a' + 1)
  }

  lemma WrapSmall(x: int)
    ensures 0 <= x < TWO64 ==> W(x) == x
    ensures x < 0 && 0 <= x + TWO64 ==> W(x) == x + TWO64
  {
  }

  /** On ranges that do not wrap, rangecheck hits iff the ranges meet, and reports their
      intersection; its assertion never fires. */
  lemma RangeCheckExact(h: Range, g: nat, len: nat)
    requires Proper(h.gphys, h.len) && Proper(g, len)
    ensures RangeCheck(h, g, len).Hit? <==> !h.dead && Meet(h.gphys, h.len, g, len)
    ensures var r := RangeCheck(h, g, len);
      r.Hit? ==>
        && r.g == (if g < h.gphys then h.gphys else g)
        && r.g + r.len == (if g + len < h.gphys + h.len then g + len else h.gphys + h.len)
        && 0 < r.len
  {
    Relative(h.gphys, h.gphys + h.len - 1);
    Relative(h.gphys, g);
    Relative(h.gphys, g + len - 1);
    if g < h.gphys { WrapSmall(h.gphys); } else { WrapSmall(g); }
  }

  /** An address relative to the start of a handle. */
  lemma Relative(base: nat, x: nat)
    requires base < TWO64 && x < TWO64
    ensures W(x) == x && W(W(x) - base) == (if base <= x then x - base else x - base + TWO64)
    ensures W(x - base) == W(W(x) - base)
  {
    WrapSmall(x);
    WrapSmall(x - base);
  }

  /** Byte x belongs to the range of len bytes at g on the circle of 2^64 addresses. */
  predicate OnCircle(g: nat, len: nat, x: nat) {
    W(x - g) < len
  }

  /** On all ranges of 1 to 2^32 - 1 bytes, wrapping ones included, rangecheck hits iff a byte
      is shared on the circle, and its assertion never fires. */
  lemma RangeCheckCircle(h: Range, g: nat, len: nat)
    requires h.gphys < TWO64 && g < TWO64 && 0 < h.len < FOURG && 0 < len < FOURG
    ensures RangeCheck(h, g, len).Hit? <==> !h.dead && exists x: nat :: x < TWO64 && OnCircle(h.gphys, h.len, x) && OnCircle(g, len, x)
    ensures RangeCheck(h, g, len).Hit? ==> 0 < RangeCheck(h, g, len).len
  {
    var a := W(g - h.gphys);
    HitForm(h, g, len, a);
    CircleForm(h.gphys, h.len, g, len, a);
  }

  /** rangecheck by the distance a from the start of the handle to the access. */
  lemma HitForm(h: Range, g: nat, len: nat, a: nat)
    requires h.gphys < TWO64 && g < TWO64 && 0 < h.len < FOURG && 0 < len < FOURG && a == W(g - h.gphys)
    ensures RangeCheck(h, g, len).Hit? <==> !h.dead && (a < h.len || TWO64 < a + len)
    ensures RangeCheck(h, g, len).Hit? ==> 0 < RangeCheck(h, g, len).len
  {
    Turn(g, len - 1, h.gphys);
    Turn(h.gphys, h.len - 1, h.gphys);
    assert W(0) == 0;
  }

  lemma CircleForm(h: nat, hlen: nat, g: nat, len: nat, a: nat)
    requires h < TWO64 && g < TWO64 && 0 < hlen < FOURG && 0 < len < FOURG && a == W(g - h)
    ensures a < hlen || TWO64 < a + len <==> exists x: nat :: x < TWO64 && OnCircle(h, hlen, x) && OnCircle(g, len, x)
  {
    assert W(0) == 0;
    if a < hlen {
      assert OnCircle(h, hlen, g) && OnCircle(g, len, g);
    } else if TWO64 < a + len {
      WrapSmall(g - h);
      WrapSmall(h - g);
      assert OnCircle(h, hlen, h) && OnCircle(g, len, h);
    } else {
      forall x: nat | x < TWO64 ensures !(OnCircle(h, hlen, x) && OnCircle(g, len, x)) {
        Apart(h, g, x, len);
      }
    }
  }

  /** W (base + k - from) from W (base - from). */
  lemma Turn(base: nat, k: nat, from: nat)
    requires base < TWO64 && from < TWO64 && k < FOURG
    ensures var a := W(base - from);
      W(W(base + k) - from) == (if a + k < TWO64 then a + k else a + k - TWO64)
  {
    WrapSmall(base - from);
    if base + k >= TWO64 { WrapSmall(base + k - TWO64); } else { WrapSmall(base + k); }
    assert W(base + k) == (if base + k < TWO64 then base + k else base + k - TWO64);
    WrapSmall(W(base + k) - from);
  }

  /** A byte counted from h and from g. */
  lemma Apart(h: nat, g: nat, x: nat, len: nat)
    requires h < TWO64 && g < TWO64 && x < TWO64 && W(g - h) + len - 1 < TWO64 && 0 < len
    ensures W(x - g) < len ==> W(x - h) == W(g - h) + W(x - g)
  {
    WrapSmall(g - h);
    WrapSmall(x - g);
    WrapSmall(x - h);
  }

  /** Exactness fails for a zero-length handle: it answers for every access, and the assertion
      fires iff its start is inside the access and not the first byte. */
  lemma ZeroLengthCatchesAll(h: Range, g: nat, len: nat)
    requires h.len == 0 && !h.dead && h.gphys < TWO64 && Proper(g, len)
    ensures RangeCheck(h, g, len).Hit? && forall x :: !InRange(h, x)
    ensures RangeCheck(h, g, len).len <= 0 <==> g < h.gphys < g + len
  {
    WrapSmall(h.gphys - 1);
    WrapSmall(-1);
    Relative(h.gphys, g);
    Relative(h.gphys, g + len - 1);
  }

  // ------------------------------------------------------------- buckets

  function BucketOf(x: nat): (i: nat)
    ensures i < 17
  {
    if x < FOURG then x / BUCKET else 16
  }

  lemma BucketMono(x: nat, y: nat)
    requires x <= y
    ensures BucketOf(x) <= BucketOf(y)
  {
  }

  /** The first and last bucket that scan visits. */
  function ScanFirst(g: nat): nat {
    BucketOf(g - g % BUCKET)
  }

  function ScanLast(g: nat, len: nat): nat {
    var end := W(g + len - 1);
    BucketOf(end - end % BUCKET + (BUCKET - 1))
  }

  lemma ScanExact(g: nat, len: nat)
    requires Proper(g, len)
    ensures ScanFirst(g) == BucketOf(g) && ScanLast(g, len) == BucketOf(g + len - 1)
  {
    WrapSmall(g + len - 1);
  }
}
