/** What a page fault of a two-level guest hands to map_page was read from guest memory
    (cpu_mmu_spt.c, cpu_mmu_spt_pagefault; cpu_mmu.c, get_pte_sub). */
module SptSeen2 {
  import opened Words
  import opened Pow2
  import opened Lists
  import opened WordNums
  import PageCursor
  import opened GuestWalk
  import opened GuestSeen
  import opened GuestSeen2
  import opened SptEntry
  import opened SptGuest
  import opened SptSeen

  /** A word of guest memory as an entry of 4 bytes. */
  function EntryOf2(e: Word, w: nat): Entry
    requires w > 0
  {
    Entry(P in e, Frame(e, w), RW in e, US in e, NX in e, D in e, PS in e, Frame(PageCursor.SplitPde(2, e, {}), w))
  }

  /** Guest memory, by frame and index. */
  function View2(mem: PageCursor.Mem, w: nat): GuestMem
    requires w > 0
  {
    (f: nat, i: nat) => EntryOf2(PageCursor.Cut(2, PageCursor.Rd(mem, WordOf(f * 4096 + i * 4))), w)
  }

  /** x says what the word e says, but may be dirty where e is not. */
  predicate LooksLike2(x: Entry, e: Word, w: nat)
    requires w > 0
  {
    x.(dirty := D in e) == EntryOf2(e, w) && (D in e ==> x.dirty)
  }

  lemma NearEntry2(x: Word, e: Word, w: nat)
    requires Near(x, e) && w > 0
    ensures LooksLike2(EntryOf2(x, w), e, w)
  {
    var m := Words.Bits(12, w - 1);
    var p, q := x * m, e * m;
    forall b: nat ensures b in p <==> b in q {
    }
    NearSplit(x, e);
    var f, g := PageCursor.SplitPde(2, x, {}), PageCursor.SplitPde(2, e, {});
    var r, s := f * m, g * m;
    forall b: nat ensures b in r <==> b in s {
    }
    assert p == q && r == s;
  }

  lemma NearSplit(x: Word, e: Word)
    requires Near(x, e)
    ensures var f, g := PageCursor.SplitPde(2, x, {}), PageCursor.SplitPde(2, e, {}); forall b: nat :: b >= 12 ==> (b in f <==> b in g)
  {
    var f, g := PageCursor.SplitPde(2, x, {}), PageCursor.SplitPde(2, e, {});
    forall b: nat | b >= 12 ensures b in f <==> b in g {
      HighBit(x, {}, b);
      HighBit(e, {}, b);
    }
  }

  /** Bit b of the entry made from a 4 MiB page. */
  lemma HighBit(u: Word, va: Word, b: nat)
    requires b >= 12
    ensures b in PageCursor.SplitPde(2, u, va) <==>
      if b <= 21 then b in va else b in u || (32 <= b <= 39 && b - 19 in (u - {PS}) - {LARGE_PAT})
  {
    var t := u - {PS};
    var x := if LARGE_PAT in t then (t + {PAT}) - {LARGE_PAT} else t;
    UpIn(Down(x * Words.Bits(13, 20), 13), 32, b);
    if b >= 32 { DownIn(x * Words.Bits(13, 20), 13, b - 32); }
  }

  /** The entry that the view has at the place where level l was read. */
  lemma ViewAt2(mem: PageCursor.Mem, up: Word, va: Word, l: nat, w: nat, i: nat)
    requires l < 2 && 12 < w <= 48 && Tidy(up, w) && i == Part(va, 12 + 10 * l, 10)
    ensures View2(mem, w)(Frame(up, w), i) == EntryOf2(PageCursor.Cut(2, PageCursor.Rd(mem, PageCursor.Cell(2, up, va, l))), w)
  {
    CellWord2(up, va, l, w, Frame(up, w), i);
    ViewIs2(mem, w, Frame(up, w), i, PageCursor.Cell(2, up, va, l));
  }

  lemma CellWord2(up: Word, va: Word, l: nat, w: nat, f: nat, i: nat)
    requires l < 2 && 12 < w <= 48 && Tidy(up, w) && i == Part(va, 12 + 10 * l, 10) && f == Frame(up, w)
    ensures WordOf(f * 4096 + i * 4) == PageCursor.Cell(2, up, va, l)
  {
    CellIs(2, up, va, l, w, f, i, 2, 10 + 10 * l, 10);
  }

  lemma ViewIs2(mem: PageCursor.Mem, w: nat, f: nat, i: nat, a: Word)
    requires w > 0 && WordOf(f * 4096 + i * 4) == a
    ensures View2(mem, w)(f, i) == EntryOf2(PageCursor.Cut(2, PageCursor.Rd(mem, a)), w)
  {
  }

  // ------------------------------------------------------------- 4 MiB pages

  /** The entry made from a 4 MiB page: its first frame, and the place of va in it. */
  lemma SplitFrame2(e: Word, va: Word, w: nat, k: nat)
    requires 32 <= w <= 64 && w == 12 + 10 + k
    ensures Frame(PageCursor.SplitPde(2, e, {}), w) % 1024 == 0
    ensures Frame(PageCursor.SplitPde(2, e, va), w) == Frame(PageCursor.SplitPde(2, e, {}), w) + Part(va, 12, 10)
  {
    var f, b := PageCursor.SplitPde(2, e, va), PageCursor.SplitPde(2, e, {});
    FrameParts2(f, w, k);
    FrameParts2(b, w, k);
    SplitParts2(e, va, f, b, 12, 12 + 10, k);
    Multiple2(Frame(b, w), Part(b, 12 + 10, k));
  }

  lemma SplitParts2(e: Word, va: Word, f: Word, b: Word, n: nat, t: nat, k: nat)
    requires n == 12 && t == n + 10 && f == PageCursor.SplitPde(2, e, va) && b == PageCursor.SplitPde(2, e, {})
    ensures Part(b, n, 10) == 0 && Part(f, n, 10) == Part(va, n, 10) && Part(f, t, k) == Part(b, t, k)
  {
    forall j | n <= j < n + 10 ensures j !in b { HighBit(e, {}, j); }
    PartZero(b, n, 10);
    forall j: nat | j < 10 ensures SameBit(f, n, va, n, j) { HighBit(e, va, n + j); }
    PartShift(f, n, va, n, 10);
    forall j: nat | j < k ensures SameBit(f, t, b, t, j) { HighBit(e, va, t + j); HighBit(e, {}, t + j); }
    PartShift(f, t, b, t, k);
  }

  lemma Multiple2(f: nat, x: nat)
    requires f == 1024 * x
    ensures f % 1024 == 0
  {
  }

  lemma FrameParts2(e: Word, w: nat, k: nat)
    requires 12 < w <= 64 && w == 12 + 10 + k
    ensures Frame(e, w) == Part(e, 12, 10) + 1024 * Part(e, 12 + 10, k)
  {
    FrameIs(e, w, 10 + k);
    PartSplit(e, 12, 10, k);
    Pow10(10);
  }

  lemma Pow10(n: nat)
    requires n == 10
    ensures Pow(n) == 1024
  {
    assert Pow(10) == 1024;
  }

  // ------------------------------------------------------------- the indices of v

  lemma Indices2(va: Word)
    ensures var v := Num(va, 0); v / 0x1000 % 1024 == Part(va, 12, 10) && v / 0x40_0000 % 1024 == Part(va, 22, 10)
  {
    Pow10(10);
    Pow12(12);
    Pow22(22);
    Shifted(va, 12, 10, 42, 0x1000, 1024);
    Shifted(va, 22, 10, 32, 0x40_0000, 1024);
  }

  lemma Pow22(n: nat)
    requires n == 22
    ensures Pow(n) == 0x40_0000
  {
    Pow12(12);
    Pow10(10);
    PowAdd(12, 10);
  }

  // ------------------------------------------------------------- the fault

  lemma PteSeen2(mem: PageCursor.Mem, es: seq<Word>, va: Word, w: nat)
    requires |es| == 5 && 32 <= w <= 48 && Tidy(es[1], w) && PS !in es[1] && Held(mem, PageCursor.Cell(2, es[1], va, 0), es[0])
    ensures PteFits(View2(mem, w)(Frame(es[1], w), Part(va, 12, 10)), GuestOf(es, 2, w))
  {
    ViewAt2(mem, es[1], va, 0, w, Part(va, 12, 10));
    NearEntry2(PageCursor.Cut(2, PageCursor.Rd(mem, PageCursor.Cell(2, es[1], va, 0))), es[0], w);
    M2Allows(es, 0, 2);
  }

  lemma PdeSeen2(mem: PageCursor.Mem, es: seq<Word>, va: Word, w: nat, v: nat)
    requires |es| == 5 && 32 <= w <= 48 && Tidy(es[2], w) && Held(mem, PageCursor.Cell(2, es[2], va, 1), es[1])
    requires PS in es[1] ==> es[0] == PageCursor.SplitPde(2, es[1], va)
    requires v / 0x1000 % 1024 == Part(va, 12, 10)
    ensures PdeFits(View2(mem, w)(Frame(es[2], w), Part(va, 22, 10)), GuestOf(es, 2, w), v)
  {
    ViewAt2(mem, es[2], va, 1, w, Part(va, 22, 10));
    NearEntry2(PageCursor.Cut(2, PageCursor.Rd(mem, PageCursor.Cell(2, es[2], va, 1))), es[1], w);
    M2Allows(es, 1, 2);
    if PS in es[1] { SplitFrame2(es[1], va, w, w - 22); }
  }

  /** What set_m2 and set_gfns make of the entries fits guest memory. */
  lemma EntriesFit2(mem: PageCursor.Mem, es: seq<Word>, va: Word, w: nat, v: nat)
    requires |es| == 5 && 32 <= w <= 48 && Tidy(es[1], w) && Tidy(es[2], w) && PS !in es[2]
    requires Held(mem, PageCursor.Cell(2, es[2], va, 1), es[1])
    requires if PS in es[1] then es[0] == PageCursor.SplitPde(2, es[1], va) else Held(mem, PageCursor.Cell(2, es[1], va, 0), es[0])
    requires v / 0x1000 % 1024 == Part(va, 12, 10) && v / 0x40_0000 % 1024 == Part(va, 22, 10)
    ensures WalkFits(View2(mem, w), v, GuestOf(es, 2, w))
  {
    Shrinking(es, 2);
    PdeSeen2(mem, es, va, w, v);
    if PS in es[1] {
      SplitFrame2(es[1], va, w, w - 22);
      Place2(Frame(es[0], w), Frame(PageCursor.SplitPde(2, es[1], {}), w), v);
    } else {
      PteSeen2(mem, es, va, w);
    }
  }

  lemma Place2(f: nat, base: nat, v: nat)
    requires base % 1024 == 0 && f == base + v / 0x1000 % 1024
    ensures f % 0x200 == v / 0x1000 % 512
  {
    IndexIs(v);
    Remainder(base / 1024 * 2 + v / 0x20_0000 % 2, v / 0x1000 % 512, f);
  }

  lemma Remainder(x: nat, i: nat, f: nat)
    requires f == 512 * x + i && i < 512
    ensures f % 512 == i
  {
  }

  /** A fault that a two-level guest's tables allow (CR3 of 32 bits, bit 7 of the PDE only with
      CR4.PSE) hands map_page what guest memory holds. */
  lemma FaultFits2(virt: Word, cr3: Word, d: Req, w: nat, mem: PageCursor.Mem)
    requires d.pg && !d.pae && !d.lme && 32 <= w <= 48 && PageCursor.Linear(2, virt) && cr3 <= Words.Bits(0, 31)
    requires PS in Pde(virt, cr3, mem) ==> d.pse
    requires GetPte(virt, cr3, d, w, mem).out == Ok
    ensures var r := GetPte(virt, cr3, d, w, mem);
      |r.entries| == 5 && WalkFits(View2(r.mem, w), Num(virt, 0), GuestOf(r.entries, 2, w))
  {
    GetPteSeen(virt, cr3, d, w, mem);
    var r := GetPte(virt, cr3, d, w, mem);
    var root := PageCursor.RootGuest(cr3, 2);
    RootTidy(cr3, w);
    assert r.entries[1] * Words.Bits(w, 47) == {};
    SameCell(root, virt);
    Indices2(virt);
    EntriesFit2(r.mem, r.entries, virt, w, Num(virt, 0));
  }

  lemma RootTidy(cr3: Word, w: nat)
    requires cr3 <= Words.Bits(0, 31) && 32 <= w
    ensures var e := PageCursor.RootGuest(cr3, 2) + {RW, US, A}; Tidy(e, w) && PS !in e
  {
    var e := PageCursor.RootGuest(cr3, 2) + {RW, US, A};
    assert e * Words.Bits(w, 47) == {};
  }

  lemma SameCell(root: Word, va: Word)
    ensures PageCursor.Cell(2, root + {RW, US, A}, va, 1) == PageCursor.Cell(2, root, va, 1)
  {
    assert (root + {RW, US, A}) * Words.Bits(12, 47) == root * Words.Bits(12, 47);
  }
}
