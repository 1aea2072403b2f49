/** The numbers that words stand for: frames, indices and addresses of page tables. */
module WordNums {
  import opened Words
  import opened Pow2
  import opened Bits
  import PageCursor
  import SptEntry

  /** The number with the bits of x from n on, shifted down by n. */
  function Val(x: Word, n: nat): nat
    decreases 64 - n, x
  {
    if n >= 64 then 0 else (if n in x then 1 else 0) + 2 * Val(x, n + 1)
  }

  /** The number with k bits of x from n on. */
  function Part(x: Word, n: nat, k: nat): nat
    decreases k, x
  {
    if k == 0 then 0 else (if n in x then 1 else 0) + 2 * Part(x, n + 1, k - 1)
  }

  lemma {:induction false} NumIs(x: Word, n: nat)
    ensures SptEntry.Num(x, n) == Pow(n) * Val(x, n)
    decreases 64 - n
  {
    if n < 64 {
      NumIs(x, n + 1);
      OneMore(Pow(n), n in x, Val(x, n + 1));
    }
  }

  lemma NumVal(x: Word)
    ensures SptEntry.Num(x, 0) == Val(x, 0)
  {
    NumIs(x, 0);
    Once(Pow(0), Val(x, 0));
  }

  lemma Once(p: nat, r: nat)
    requires p == 1
    ensures p * r == r
  {
  }

  lemma OneMore(p: nat, b: bool, r: nat)
    ensures p * ((if b then 1 else 0) + 2 * r) == (if b then p else 0) + 2 * p * r
  {
  }

  lemma {:induction false} PartBound(x: Word, n: nat, k: nat)
    ensures Part(x, n, k) < Pow(k)
    decreases k
  {
    if k > 0 { PartBound(x, n + 1, k - 1); }
  }

  lemma {:induction false} PartZero(x: Word, n: nat, k: nat)
    requires forall j :: n <= j < n + k ==> j !in x
    ensures Part(x, n, k) == 0
    decreases k
  {
    if k > 0 { PartZero(x, n + 1, k - 1); }
  }

  predicate SameBit(x: Word, n: nat, y: Word, m: nat, j: nat) {
    n + j in x <==> m + j in y
  }

  /** The same bits at other places. */
  lemma {:induction false} PartShift(x: Word, n: nat, y: Word, m: nat, k: nat)
    requires forall j: nat :: j < k ==> SameBit(x, n, y, m, j)
    ensures Part(x, n, k) == Part(y, m, k)
    decreases k
  {
    if k > 0 {
      assert SameBit(x, n, y, m, 0);
      var o, q := n + 1, m + 1;
      forall j: nat | j < k - 1 ensures SameBit(x, o, y, q, j) {
        assert SameBit(x, n, y, m, j + 1);
      }
      PartShift(x, o, y, q, k - 1);
    }
  }

  lemma {:induction false} PartSplit(x: Word, n: nat, k: nat, l: nat)
    ensures Part(x, n, k + l) == Part(x, n, k) + Pow(k) * Part(x, n + k, l)
    decreases k
  {
    if k > 0 {
      PartSplit(x, n + 1, k - 1, l);
      TwoTimes(Pow(k - 1), Part(x, n + k, l));
    }
  }

  lemma TwoTimes(p: nat, r: nat)
    ensures 2 * (p * r) == 2 * p * r
  {
  }

  lemma {:induction false} ValIsPart(x: Word, n: nat, k: nat)
    requires n + k == 64
    ensures Val(x, n) == Part(x, n, k)
    decreases k
  {
    if k > 0 { ValIsPart(x, n + 1, k - 1); }
  }

  /** Bits of the number are bits of the word. */
  lemma {:induction false} ValBit(x: Word, n: nat, k: nat)
    ensures Bit(Val(x, n), k) <==> n + k < 64 && n + k in x
    decreases k
  {
    if n >= 64 {
      NoBit(k);
    } else {
      HalfVal(x, n);
      if k > 0 {
        ValBit(x, n + 1, k - 1);
        BitHalf(Val(x, n), k);
      }
    }
  }

  lemma {:induction false} HalfVal(x: Word, n: nat)
    requires n < 64
    ensures Val(x, n) / 2 == Val(x, n + 1) && (Bit(Val(x, n), 0) <==> n in x)
  {
  }

  lemma {:induction false} BitHalf(a: nat, k: nat)
    requires k > 0
    ensures Bit(a, k) <==> Bit(a / 2, k - 1)
  {
  }

  /** The word with the bits of n. */
  function WordOf(n: nat): Word {
    set b: nat | b < 64 && Bit(n, b)
  }

  lemma WordOfVal(x: Word, n: nat)
    requires x <= Words.Bits(0, 63) && n == Val(x, 0)
    ensures WordOf(n) == x
  {
    forall b: nat ensures b in WordOf(n) <==> b in x {
      ValBit(x, 0, b);
    }
  }

  // ------------------------------------------------------------- addresses

  lemma SplitAt(x: Word, k: nat, l: nat)
    requires k + l == 64
    ensures Val(x, 0) == Part(x, 0, k) + Pow(k) * Part(x, k, l)
  {
    ValIsPart(x, 0, k + l);
    PartSplit(x, 0, k, l);
  }

  /** The number of a linear address without its lowest k bits, and then its l lowest bits. */
  lemma Shifted(v: Word, k: nat, l: nat, t: nat, p: nat, q: nat)
    requires k + l + t == 64 && p == Pow(k) && q == Pow(l)
    ensures SptEntry.Num(v, 0) / p % q == Part(v, k, l)
  {
    NumVal(v);
    SplitAt(v, k, l + t);
    PartBound(v, 0, k);
    ModUnique(Val(v, 0), p, Part(v, k, l + t), Part(v, 0, k));
    LowBits(v, k, l, t, q);
  }

  lemma LowBits(v: Word, k: nat, l: nat, t: nat, q: nat)
    requires q == Pow(l)
    ensures Part(v, k, l + t) % q == Part(v, k, l)
  {
    PartSplit(v, k, l, t);
    PartBound(v, k, l);
    ModUnique(Part(v, k, l + t), q, Part(v, k + l, t), Part(v, k, l));
  }

  /** The frame of an entry; w is the physical address width. */
  lemma FrameIs(e: Word, w: nat, k: nat)
    requires 12 < w && w == k + 12 <= 64
    ensures SptEntry.Frame(e, w) == Part(e, 12, k)
  {
    var d := Down(e * Words.Bits(12, w - 1), 12);
    forall j: nat ensures j in d <==> j < k && 12 + j in e { DownIn(e * Words.Bits(12, w - 1), 12, j); }
    ShortNum(d, k, 64 - k);
    PartShift(d, 0, e, 12, k);
  }

  /** A word with no bits from k on. */
  lemma ShortNum(d: Word, k: nat, l: nat)
    requires k + l == 64 && forall j :: k <= j < k + l ==> j !in d
    ensures SptEntry.Num(d, 0) == Part(d, 0, k)
  {
    NumVal(d);
    SplitAt(d, k, l);
    PartZero(d, k, l);
    assert Pow(k) * 0 == 0;
  }

  // ------------------------------------------------------------- cells

  /** Bit j of the address of an entry of 2^s bytes; o is how far the index of va is shifted. */
  predicate CellBit(e: Word, va: Word, s: nat, o: nat, w: nat, j: nat) {
    (12 <= j < w && j in e) || (s <= j <= 11 && j + o in va)
  }

  /** The bits of the address: entries have 4 bytes with two levels and 8 otherwise. */
  predicate CellShape(levels: nat, l: nat, s: nat, o: nat) {
    if levels == 2 then s == 2 && o == 10 + 10 * l else s == 3 && o == 9 + 9 * l
  }

  lemma CellBits(levels: nat, e: Word, va: Word, l: nat, s: nat, o: nat, w: nat, j: nat)
    requires CellShape(levels, l, s, o) && l < 2 && 12 < w <= 48 && e * Words.Bits(w, 47) == {}
    ensures j in PageCursor.Cell(levels, e, va, l) <==> CellBit(e, va, s, o, w, j)
  {
    DownIn(va, o, j);
    assert j in e * Words.Bits(w, 47) <==> (w <= j <= 47 && j in e);
  }

  /** All bits of c are those of such an address. */
  ghost predicate IsCell(c: Word, e: Word, va: Word, s: nat, o: nat, w: nat) {
    forall j: nat :: j in c <==> CellBit(e, va, s, o, w, j)
  }

  /** i * 2^s for the two sizes of entries. */
  function Scale(s: nat, i: nat): nat {
    if s == 2 then i * 4 else i * 8
  }

  /** The address of an entry: the frame f of its table, and its index i; n is the number of index
      bits. */
  lemma CellIs(levels: nat, e: Word, va: Word, l: nat, w: nat, f: nat, i: nat, s: nat, o: nat, n: nat)
    requires CellShape(levels, l, s, o) && l < 2 && 12 < w <= 48 && e * Words.Bits(w, 47) == {}
    requires s + n == 12 && i == Part(va, s + o, n) && f == SptEntry.Frame(e, w)
    ensures WordOf(f * 4096 + Scale(s, i)) == PageCursor.Cell(levels, e, va, l)
  {
    var c := PageCursor.Cell(levels, e, va, l);
    forall j: nat ensures j in c <==> CellBit(e, va, s, o, w, j) { CellBits(levels, e, va, l, s, o, w, j); }
    CellParts(c, e, va, s, o, w, f, i, n, 12, w - 12, 64 - w);
  }

  lemma CellParts(c: Word, e: Word, va: Word, s: nat, o: nat, w: nat, f: nat, i: nat, n: nat, m: nat, k: nat, t: nat)
    requires m == 12 < w <= 48 && w == k + 12 && w + t == 64 && (s == 2 || s == 3) && f == SptEntry.Frame(e, w)
    requires s + n == m && i == Part(va, s + o, n) && IsCell(c, e, va, s, o, w)
    ensures WordOf(f * 4096 + Scale(s, i)) == c
  {
    LowCell(c, e, va, s, o, w, i, n);
    HighCell(c, e, va, s, o, w, k, t, m);
    AddrParts(c, Scale(s, i), f, m, k + t);
    InWord(c, e, va, s, o, w);
    WordOfVal(c, f * 4096 + Scale(s, i));
  }

  lemma InWord(c: Word, e: Word, va: Word, s: nat, o: nat, w: nat)
    requires w <= 48 && IsCell(c, e, va, s, o, w)
    ensures c <= Words.Bits(0, 63)
  {
    forall j | j in c ensures j in Words.Bits(0, 63) { assert CellBit(e, va, s, o, w, j); }
  }

  lemma AddrParts(c: Word, x: nat, f: nat, k: nat, l: nat)
    requires k == 12 && k + l == 64 && Part(c, 0, k) == x && Part(c, k, l) == f
    ensures Val(c, 0) == f * 4096 + x
  {
    SplitAt(c, k, l);
    Pow12(k);
    Product(Pow(k), f);
  }

  lemma Pow12(k: nat)
    requires k == 12
    ensures Pow(k) == 4096
  {
    assert Pow(12) == 4096;
  }

  lemma Product(p: nat, f: nat)
    requires p == 4096
    ensures p * f == f * 4096
  {
  }

  lemma LowCell(c: Word, e: Word, va: Word, s: nat, o: nat, w: nat, i: nat, n: nat)
    requires s + n == 12 < w && (s == 2 || s == 3) && i == Part(va, s + o, n) && IsCell(c, e, va, s, o, w)
    ensures Part(c, 0, s + n) == Scale(s, i)
  {
    NothingBelow(c, e, va, s, o, w);
    IndexPart(c, e, va, s, o, w, s + o, n);
    PartSplit(c, 0, s, n);
    Scaled(s, i, Pow(s));
  }

  lemma IndexPart(c: Word, e: Word, va: Word, s: nat, o: nat, w: nat, q: nat, n: nat)
    requires s + n == 12 < w && q == s + o && IsCell(c, e, va, s, o, w)
    ensures Part(c, s, n) == Part(va, q, n)
  {
    forall j: nat | j < n ensures SameBit(c, s, va, q, j) {
      assert s + j in c <==> CellBit(e, va, s, o, w, s + j);
    }
    PartShift(c, s, va, q, n);
  }

  lemma Scaled(s: nat, i: nat, p: nat)
    requires (s == 2 || s == 3) && p == Pow(s)
    ensures p * i == Scale(s, i)
  {
    assert Pow(2) == 4 && Pow(3) == 8;
    assert p == if s == 2 then 4 else 8;
  }

  lemma NothingBelow(c: Word, e: Word, va: Word, s: nat, o: nat, w: nat)
    requires s <= 12 && IsCell(c, e, va, s, o, w)
    ensures Part(c, 0, s) == 0
  {
    forall j | 0 <= j < s ensures j !in c { assert !CellBit(e, va, s, o, w, j); }
    PartZero(c, 0, s);
  }

  lemma NoneOf(p: nat)
    ensures p * 0 == 0
  {
  }

  lemma HighCell(c: Word, e: Word, va: Word, s: nat, o: nat, w: nat, k: nat, t: nat, m: nat)
    requires m == 12 < w && w == k + 12 && w + t == 64 && IsCell(c, e, va, s, o, w)
    ensures Part(c, m, k + t) == SptEntry.Frame(e, w)
  {
    NothingAbove(c, e, va, s, o, w, t);
    PartSplit(c, m, k, t);
    NoneOf(Pow(k));
    forall j: nat | j < k ensures SameBit(c, m, e, m, j) {
      assert m + j in c <==> CellBit(e, va, s, o, w, m + j);
    }
    PartShift(c, m, e, m, k);
    FrameIs(e, w, k);
  }

  lemma NothingAbove(c: Word, e: Word, va: Word, s: nat, o: nat, w: nat, t: nat)
    requires 12 < w && IsCell(c, e, va, s, o, w)
    ensures Part(c, w, t) == 0
  {
    forall j | w <= j < w + t ensures j !in c { assert !CellBit(e, va, s, o, w, j); }
    PartZero(c, w, t);
  }
}
