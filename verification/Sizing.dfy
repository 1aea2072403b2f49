/** How many bytes an allocation gets (mm.c: get_alloc_pages_size, get_small_allocsize,
    get_tiny_allocsize, get_actual_allocate_size) and what realloc does with it. */
module Sizing {
  import opened Pow2

  const ORDERS: nat := 13
  const TWO31: int := 0x8000_0000

  /** The value an `int` of 32 bits holds. */
  function Int32(x: int): int {
    (x + TWO31) % (2 * TWO31) - TWO31
  }

  // ------------------------------------------------------------- get_alloc_pages_size

  /** One block of order i, or order i followed by order j; Refused is the panic. */
  datatype Choice = Refused | One(i: nat) | Two(i: nat, j: nat)

  /** The inner loop from j: the first order below top whose block holds sz bytes, or top. */
  function Second(sz: int, j: nat, top: nat): (r: nat)
    requires j <= top
    ensures j <= r <= top && (r < top ==> 4096 * Pow(r) >= sz)
    ensures forall k :: j <= k < r ==> 4096 * Pow(k) < sz
    decreases top - j
  {
    if j == top || 4096 * Pow(j) >= sz then j else Second(sz, j + 1, top)
  }

  /** The outer loop from i. */
  function Choose(sz: int, i: nat): Choice
    requires i <= ORDERS
    decreases ORDERS - i
  {
    if i == ORDERS then Refused
    else if 4096 * Pow(i) >= sz then One(i)
    else if i > 0 && 4096 * Pow(i) + 4096 * Pow(i - 1) >= sz then Two(i, Second(sz - 4096 * Pow(i), 0, i - 1))
    else Choose(sz, i + 1)
  }

  /** get_alloc_pages_size: the product is an `int`. */
  function PagesSize(n: int): Choice {
    Choose(Int32(n * 4096), 0)
  }

  /** Pages of the chosen block or blocks. */
  function Pages(c: Choice): nat {
    match c
    case Refused => 0
    case One(i) => Pow(i)
    case Two(i, j) => Pow(i) + Pow(j)
  }

  /** get_alloc_pages_size, as written. */
  method GetAllocPagesSize(n: int) returns (first: int, second: int)
    ensures Picked(PagesSize(n), first, second)
  {
    first, second := PickBlocks(Int32(n * 4096));
  }

  /** The two results that stand for a choice. */
  predicate Picked(c: Choice, first: int, second: int) {
    match c
    case Refused => first == -1
    case One(i) => first == i && second == -1
    case Two(i, j) => first == i && second == j
  }

  method PickBlocks(sz: int) returns (first: int, second: int)
    ensures Picked(Choose(sz, 0), first, second)
  {
    var i := 0;
    while i < ORDERS
      invariant 0 <= i <= ORDERS && Choose(sz, i) == Choose(sz, 0)
    {
      if 4096 * Pow(i) >= sz {
        return i, -1;
      }
      if i > 0 && 4096 * Pow(i) + 4096 * Pow(i - 1) >= sz {
        var rest := sz - 4096 * Pow(i);
        var j := 0;
        while j < i - 1
          invariant 0 <= j <= i - 1 && Second(rest, j, i - 1) == Second(rest, 0, i - 1)
        {
          if 4096 * Pow(j) >= rest {
            break;
          }
          j := j + 1;
        }
        return i, j;
      }
      i := i + 1;
    }
    return -1, -1;
  }

  // ------------------------------------------------------------- the page bound

  /** 2^a + 2^b pages, or 2^a for a == b. */
  function Sum(a: nat, b: nat): nat {
    if a == b then Pow(a) else Pow(a) + Pow(b)
  }

  /** Order a, with whatever follows it, is too small for n pages. */
  predicate TooSmall(a: nat, n: int) {
    Pow(a) < n && (a > 0 ==> Pow(a) + Pow(a - 1) < n)
  }

  /** The choice is the least sum of blocks that covers n pages. */
  lemma {:induction false} ChooseLeast(n: int, i: nat, a: nat, b: nat)
    requires 0 < n && i <= ORDERS && b <= a < ORDERS && Sum(a, b) >= n
    requires forall k :: 0 <= k < i ==> TooSmall(k, n)
    ensures var c := Choose(n * 4096, i); !c.Refused? && n <= Pages(c) <= Sum(a, b)
    decreases ORDERS - i
  {
    SumBounds(a, b);
    assert a < i ==> TooSmall(a, n);
    assert i <= a;
    if Pow(i) >= n {
      PowMono(i, a);
    } else if i > 0 && Pow(i) + Pow(i - 1) >= n {
      LeastTwo(n, i, a, b);
    } else {
      assert TooSmall(i, n);
      ChooseLeast(n, i + 1, a, b);
    }
  }

  lemma LeastTwo(n: int, i: nat, a: nat, b: nat)
    requires b <= a < ORDERS && 0 < i <= a && Sum(a, b) >= n && Pow(i) < n <= Pow(i) + Pow(i - 1)
    ensures var j := Second(n * 4096 - 4096 * Pow(i), 0, i - 1); n <= Pow(i) + Pow(j) <= Sum(a, b)
  {
    if a > i {
      SumBounds(a, b);
      PowMono(i + 1, a);
      TwoCovers(n, i);
    } else {
      LeastSecond(n, i, b);
    }
  }

  lemma TwoCovers(n: int, i: nat)
    requires 0 < i && Pow(i) < n <= Pow(i) + Pow(i - 1)
    ensures var j := Second(n * 4096 - 4096 * Pow(i), 0, i - 1); n <= Pow(i) + Pow(j) <= 2 * Pow(i)
  {
    PowMono(Second(n * 4096 - 4096 * Pow(i), 0, i - 1), i - 1);
  }

  lemma LeastSecond(n: int, i: nat, b: nat)
    requires 0 < i && b <= i && Pow(i) < n <= Pow(i) + Pow(i - 1) && Sum(i, b) >= n
    ensures var j := Second(n * 4096 - 4096 * Pow(i), 0, i - 1); n <= Pow(i) + Pow(j) <= Sum(i, b)
  {
    TwoCovers(n, i);
    var sz := n * 4096 - 4096 * Pow(i);
    var j := Second(sz, 0, i - 1);
    assert b < i && 4096 * Pow(b) >= sz;
    PowMono(j, b);
  }

  lemma SumBounds(a: nat, b: nat)
    requires b <= a
    ensures Pow(a) <= Sum(a, b) && (a > 0 ==> Sum(a, b) <= Pow(a) + Pow(a - 1)) && (a == 0 ==> Sum(a, b) == 1)
  {
    if b < a { PowMono(b, a - 1); }
  }

  /** The chosen blocks are of the shape they are compared with. */
  lemma {:induction false} ChooseShape(sz: int, i: nat)
    requires i <= ORDERS
    ensures var c := Choose(sz, i); (c.One? ==> c.i < ORDERS) && (c.Two? ==> c.j < c.i < ORDERS)
    decreases ORDERS - i
  {
    if i < ORDERS && 4096 * Pow(i) < sz && !(i > 0 && 4096 * Pow(i) + 4096 * Pow(i - 1) >= sz) { ChooseShape(sz, i + 1); }
  }

  lemma ShapeSum(c: Choice) returns (a: nat, b: nat)
    requires !c.Refused? && c.i < ORDERS && (c.Two? ==> c.j < c.i)
    ensures b <= a < ORDERS && Pages(c) == Sum(a, b)
  {
    a, b := c.i, if c.Two? then c.j else c.i;
  }

  const MAXPAGES: nat := 6144

  lemma Largest(a: nat, b: nat)
    requires b <= a < ORDERS
    ensures Sum(a, b) <= MAXPAGES && Sum(12, 11) == MAXPAGES
  {
    assert Pow(11) == 2048 && Pow(12) == 4096;
    SumBounds(a, b);
    PowMono(a, 12);
    if a > 0 { PowMono(a - 1, 11); }
  }

  lemma NoWrap(n: int)
    requires 0 <= n < 0x8_0000
    ensures Int32(n * 4096) == n * 4096
  {
  }

  /** Below 2^19 pages, alloc_pages refuses exactly what is over 6144 pages, and otherwise
      takes the least sum of blocks that covers the request, less than a third over it. */
  lemma PagesBound(n: int)
    requires 0 < n < 0x8_0000
    ensures var c := PagesSize(n);
      && (c.Refused? <==> n > MAXPAGES)
      && (!c.Refused? ==> n <= Pages(c) && 3 * Pages(c) < 4 * n && c.i < ORDERS && (c.Two? ==> c.j < c.i))
  {
    NoWrap(n);
    ChooseShape(n * 4096, 0);
    Largest(12, 11);
    if n <= MAXPAGES {
      ChooseLeast(n, 0, 12, 11);
      ChooseTight(n, 0);
    } else {
      ChooseCovers(n, 0);
      var c := PagesSize(n);
      if !c.Refused? {
        var a, b := ShapeSum(c);
        Largest(a, b);
      }
    }
  }

  /** Whatever is chosen covers the request ... */
  lemma {:induction false} ChooseCovers(n: int, i: nat)
    requires 0 < n && i <= ORDERS
    ensures var c := Choose(n * 4096, i); !c.Refused? ==> Pages(c) >= n
    decreases ORDERS - i
  {
    if i < ORDERS && Pow(i) < n {
      if i > 0 && Pow(i) + Pow(i - 1) >= n {
        LeastTwo(n, i, i, i - 1);
      } else {
        ChooseCovers(n, i + 1);
      }
    }
  }

  /** ... by less than a third too much. */
  lemma {:induction false} ChooseTight(n: int, i: nat)
    requires 0 < n && i <= ORDERS && (i > 0 ==> TooSmall(i - 1, n))
    ensures var c := Choose(n * 4096, i); !c.Refused? ==> 3 * Pages(c) < 4 * n
    decreases ORDERS - i
  {
    if i < ORDERS {
      if Pow(i) >= n {
        if i > 1 { assert Pow(i) == 4 * Pow(i - 2) && Pow(i - 1) == 2 * Pow(i - 2); }
      } else if i > 0 && Pow(i) + Pow(i - 1) >= n {
        TightTwo(n, i);
      } else {
        ChooseTight(n, i + 1);
      }
    }
  }

  lemma TightTwo(n: int, i: nat)
    requires 0 < i && Pow(i) < n <= Pow(i) + Pow(i - 1)
    ensures var j := Second(n * 4096 - 4096 * Pow(i), 0, i - 1); 3 * (Pow(i) + Pow(j)) < 4 * n
  {
    var j := Second(n * 4096 - 4096 * Pow(i), 0, i - 1);
    var s := n - Pow(i);
    assert Pow(i) == 2 * Pow(i - 1);
    if j > 0 {
      assert 4096 * Pow(j - 1) < n * 4096 - 4096 * Pow(i);
      assert Pow(j) == 2 * Pow(j - 1);
    }
  }

  /** From 2^19 pages on the product overflows: an accepted request is covered if and only if it
      is below 2^19 pages. */
  lemma CoveredIff(n: int)
    requires 0 < n && !PagesSize(n).Refused?
    ensures Pages(PagesSize(n)) >= n <==> n < 0x8_0000
  {
    if n < 0x8_0000 {
      PagesBound(n);
    } else {
      var _, _ := AcceptedSum(n);
    }
  }

  /** Whatever is accepted, wrapped or not, gives a sum of blocks of at most 6144 pages. */
  lemma AcceptedSum(n: int) returns (a: nat, b: nat)
    requires !PagesSize(n).Refused?
    ensures b <= a < ORDERS && Pages(PagesSize(n)) == Sum(a, b) <= MAXPAGES
  {
    ChooseShape(Int32(n * 4096), 0);
    a, b := ShapeSum(PagesSize(n));
    Largest(a, b);
  }

  /** A request of 2 GiB up to 4 GiB gets a single page. */
  lemma TwoGigabytesGetOnePage(n: int)
    requires 0x8_0000 <= n <= 0x10_0000
    ensures PagesSize(n) == One(0) && Pages(One(0)) == 1
  {
    assert Int32(n * 4096) <= 0;
  }

  // ------------------------------------------------------------- bytes

  /** get_small_allocsize and get_tiny_allocsize: an index, or -1. */
  function SmallIndex(len: nat): int {
    if len <= 128 then 0 else if len <= 256 then 1 else if len <= 512 then 2
    else if len <= 1024 then 3 else if len <= 2048 then 4 else -1
  }

  function TinyIndex(len: nat): int {
    if len <= 16 then 0 else if len <= 32 then 1 else if len <= 64 then 2 else -1
  }

  method GetSmallAllocsize(len: nat) returns (r: int)
    ensures r == SmallIndex(len)
  {
    var i, size := 0, 0x80;
    while i < 5
      invariant 0 <= i <= 5 && size == (if i == 0 then 128 else if i == 1 then 256 else if i == 2 then 512 else if i == 3 then 1024 else if i == 4 then 2048 else 4096)
      invariant i > 0 ==> 2 * len > size
    {
      if len <= size {
        return i;
      }
      i, size := i + 1, 2 * size;
    }
    return -1;
  }

  function SmallSize(k: int): nat {
    if k == 0 then 128 else if k == 1 then 256 else if k == 2 then 512 else if k == 3 then 1024 else 2048
  }

  function TinySize(k: int): nat {
    if k == 0 then 16 else if k == 1 then 32 else 64
  }

  const MAXBYTES: nat := 6144 * 4096

  /** get_actual_allocate_size; the source asserts that the pages are not refused. */
  function ActualSize(len: nat): nat {
    var small := SmallIndex(len);
    if small < 0 then Pages(PagesSize((len + 4095) / 4096)) * 4096
    else
      var tiny := if small == 0 then TinyIndex(len) else -1;
      if tiny < 0 then SmallSize(small) else TinySize(tiny)
  }

  lemma PageCount(len: nat)
    requires 2048 < len <= MAXBYTES
    ensures 1 <= (len + 4095) / 4096 <= MAXPAGES && len <= (len + 4095) / 4096 * 4096
  {
  }

  lemma PagesMono(n: int, m: int)
    requires 0 < n <= m <= MAXPAGES
    ensures Pages(PagesSize(n)) <= Pages(PagesSize(m))
  {
    PagesBound(m);
    var a, b := ShapeSum(PagesSize(m));
    NoWrap(n);
    ChooseLeast(n, 0, a, b);
  }

  lemma PagesTwice(n: int)
    requires 0 < n <= MAXPAGES
    ensures var v := Pages(PagesSize(n)); n <= v <= MAXPAGES && Pages(PagesSize(v)) == v
  {
    PagesBound(n);
    SumTwice(n);
  }

  /** Asking for as many pages as an accepted request got gives the same. */
  lemma SumTwice(n: int)
    requires !PagesSize(n).Refused?
    ensures var v := Pages(PagesSize(n)); 0 < v <= MAXPAGES && Pages(PagesSize(v)) == v
  {
    var v := Pages(PagesSize(n));
    var a, b := AcceptedSum(n);
    SumBounds(a, b);
    NoWrap(v);
    ChooseLeast(v, 0, a, b);
  }

  /** An allocation is at least as long as asked for, and never over the maximum. */
  lemma Enough(len: nat)
    requires len <= MAXBYTES
    ensures len <= ActualSize(len) <= MAXBYTES
  {
    if len > 2048 {
      PageCount(len);
      PagesTwice((len + 4095) / 4096);
    }
  }

  /** Sizes are monotone ... */
  lemma Monotone(len: nat, more: nat)
    requires len <= more <= MAXBYTES
    ensures ActualSize(len) <= ActualSize(more)
  {
    if more > 2048 {
      PageCount(more);
      PagesTwice((more + 4095) / 4096);
      if len > 2048 {
        PageCount(len);
        PagesMono((len + 4095) / 4096, (more + 4095) / 4096);
      }
    }
  }

  /** alloc takes the request: no panic about the size. */
  predicate Accepted(len: nat) {
    SmallIndex(len) >= 0 || !PagesSize((len + 4095) / 4096).Refused?
  }

  /** A length that an allocation can have. */
  predicate Actual(v: nat) {
    0 < v <= MAXBYTES && ActualSize(v) == v
  }

  /** ... and asking for the size an accepted request got gives that size. */
  lemma Idempotent(len: nat)
    requires Accepted(len)
    ensures Actual(ActualSize(len))
  {
    if len > 2048 {
      var n := (len + 4095) / 4096;
      SumTwice(n);
      WholePages(Pages(PagesSize(n)));
    }
  }

  /** Only an accepted request has a size. */
  lemma AcceptedActual(len: nat)
    requires ActualSize(len) > 0
    ensures Accepted(len)
  {
  }

  lemma WholePages(v: nat)
    requires v > 0
    ensures ActualSize(v * 4096) == Pages(PagesSize(v)) * 4096
  {
    assert (v * 4096 + 4095) / 4096 == v;
  }

  /** realloc of an allocation of oldlen bytes: kept, or a new one into which this many bytes
      are copied; AssertFails is its ASSERT. */
  datatype Realloc = Keep | Copy(bytes: nat, size: nat) | AssertFails

  function ReallocPlan(oldlen: nat, len: nat): Realloc
    requires len > 0
  {
    if oldlen == len then Keep
    else if oldlen < len then Copy(oldlen, ActualSize(len))
    else if oldlen < ActualSize(len) then AssertFails
    else if oldlen == ActualSize(len) then Keep
    else Copy(len, ActualSize(len))
  }

  /** For every length that an allocation can have and every new length, the assertion in realloc
      holds, an allocation that is kept is large enough, and what is copied is in the old one. */
  lemma ReallocSafe(oldlen: nat, len: nat)
    requires Actual(oldlen) && 0 < len
    ensures var p := ReallocPlan(oldlen, len);
      && !p.AssertFails? && (p.Keep? ==> len <= oldlen && ActualSize(len) == oldlen)
      && (p.Copy? ==> p.size == ActualSize(len) && p.bytes == (if oldlen < len then oldlen else len))
  {
    if len <= oldlen { Monotone(len, oldlen); }
  }

  /** What is copied fits into the new allocation if and only if the new length is below 2 GiB,
      or the old one is a page at most. */
  lemma CopyFitsIff(oldlen: nat, len: nat)
    requires Actual(oldlen) && 0 < len < 0x1_0000_0000 && Accepted(len) && ReallocPlan(oldlen, len).Copy?
    ensures var p := ReallocPlan(oldlen, len); p.bytes <= p.size <==> len <= MAXBYTES || oldlen <= 4096
  {
    if len <= MAXBYTES {
      Enough(len);
    } else {
      var n := (len + 4095) / 4096;
      assert n > MAXPAGES;
      if n < 0x8_0000 { PagesBound(n); }
      TwoGigabytesGetOnePage(n);
    }
  }

  /** Growing 8 KiB to 2 GiB copies 8 KiB into a single page. */
  lemma GrowthOverruns()
    ensures Actual(8192) && Accepted(0x8000_0000) && ReallocPlan(8192, 0x8000_0000) == Copy(8192, 4096)
  {
    assert (8192 + 4095) / 4096 == 2 && (0x8000_0000 + 4095) / 4096 == 0x8_0000;
    PagesBound(2);
    ChooseLeast(2, 0, 1, 1);
    NoWrap(2);
    TwoGigabytesGetOnePage(0x8_0000);
  }
}
