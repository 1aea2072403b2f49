/** What a page fault hands to map_page was read from guest memory (cpu_mmu_spt.c,
    cpu_mmu_spt_pagefault; cpu_mmu.c, get_pte_sub). */
module SptSeen {
  import opened Words
  import opened Pow2
  import opened Lists
  import opened WordNums
  import PageCursor
  import opened GuestWalk
  import opened GuestSeen
  import opened SptEntry
  import opened SptGuest
  import SptMap
  import SptUpper
  import SptFault

  /** A word of guest memory as an entry of 8 bytes. */
  function EntryOf(e: Word, w: nat): Entry
    requires w > 0
  {
    Entry(P in e, Frame(e, w), RW in e, US in e, NX in e, D in e, PS in e, Frame(e - Words.Bits(12, 20), w))
  }

  /** Guest memory, by frame and index. */
  function View(mem: PageCursor.Mem, w: nat): GuestMem
    requires w > 0
  {
    (f: nat, i: nat) => EntryOf(PageCursor.Rd(mem, WordOf(f * 4096 + i * 8)), w)
  }

  /** x says what the word e says, but may be dirty where e is not. */
  predicate LooksLike(x: Entry, e: Word, w: nat)
    requires w > 0
  {
    x.(dirty := D in e) == EntryOf(e, w) && (D in e ==> x.dirty)
  }

  lemma NearEntry(x: Word, e: Word, w: nat)
    requires Near(x, e) && w > 0
    ensures LooksLike(EntryOf(x, w), e, w)
  {
    var m, n := Words.Bits(12, w - 1), Words.Bits(12, 20);
    var p, q := x * m, e * m;
    forall b: nat ensures b in p <==> b in q {
    }
    var r, s := (x - n) * m, (e - n) * m;
    forall b: nat ensures b in r <==> b in s {
    }
    assert p == q && r == s;
  }

  /** The entry that the view has at the place where level l was read. */
  lemma ViewAt(mem: PageCursor.Mem, levels: nat, up: Word, va: Word, l: nat, w: nat, i: nat)
    requires levels != 2 && l < 2 && 12 < w <= 48 && Tidy(up, w) && i == Part(va, 12 + 9 * l, 9)
    ensures View(mem, w)(Frame(up, w), i) == EntryOf(PageCursor.Rd(mem, PageCursor.Cell(levels, up, va, l)), w)
  {
    CellWord(levels, up, va, l, w, Frame(up, w), i);
    ViewIs(mem, w, Frame(up, w), i, PageCursor.Cell(levels, up, va, l));
  }

  lemma ViewIs(mem: PageCursor.Mem, w: nat, f: nat, i: nat, a: Word)
    requires w > 0 && WordOf(f * 4096 + i * 8) == a
    ensures View(mem, w)(f, i) == EntryOf(PageCursor.Rd(mem, a), w)
  {
  }

  lemma CellWord(levels: nat, up: Word, va: Word, l: nat, w: nat, f: nat, i: nat)
    requires levels != 2 && l < 2 && 12 < w <= 48 && Tidy(up, w) && i == Part(va, 12 + 9 * l, 9) && f == Frame(up, w)
    ensures WordOf(f * 4096 + i * 8) == PageCursor.Cell(levels, up, va, l)
  {
    CellIs(levels, up, va, l, w, f, i, 3, 9 + 9 * l, 9);
  }

  // ------------------------------------------------------------- large pages

  /** An entry made from a 2 MiB entry: the first frame of the page, and the place of va in it. */
  lemma SplitFrame(levels: nat, e: Word, va: Word, w: nat, k: nat)
    requires levels != 2 && 32 <= w <= 64 && w == 12 + 9 + k
    ensures Frame(e - Words.Bits(12, 20), w) % 512 == 0
    ensures Frame(PageCursor.SplitPde(levels, e, va), w) == Frame(e - Words.Bits(12, 20), w) + Part(va, 12, 9)
  {
    var f, b := PageCursor.SplitPde(levels, e, va), e - Words.Bits(12, 20);
    FrameParts(f, w, k);
    FrameParts(b, w, k);
    SplitParts(levels, e, va, f, b, 12, 12 + 9, k);
    Multiple(Frame(b, w), Part(b, 12 + 9, k));
  }

  lemma Multiple(f: nat, x: nat)
    requires f == 512 * x
    ensures f % 512 == 0
  {
  }

  lemma SplitParts(levels: nat, e: Word, va: Word, f: Word, b: Word, n: nat, t: nat, k: nat)
    requires levels != 2 && n == 12 && t == n + 9 && t + k <= 64
    requires f == PageCursor.SplitPde(levels, e, va) && b == e - Words.Bits(12, 20)
    ensures Part(b, n, 9) == 0 && Part(f, n, 9) == Part(va, n, 9) && Part(f, t, k) == Part(b, t, k)
  {
    PartZero(b, n, 9);
    forall j: nat | j < 9 ensures SameBit(f, n, va, n, j) { SplitBit(levels, e, va, n + j); }
    PartShift(f, n, va, n, 9);
    forall j: nat | j < k ensures SameBit(f, t, b, t, j) { SplitBit(levels, e, va, t + j); }
    PartShift(f, t, b, t, k);
  }

  lemma SplitBit(levels: nat, e: Word, va: Word, j: nat)
    requires levels != 2 && 12 <= j < 64
    ensures j in PageCursor.SplitPde(levels, e, va) <==> if j <= 20 then j in va else j in e
  {
  }

  lemma FrameParts(e: Word, w: nat, k: nat)
    requires 12 < w <= 64 && w == 12 + 9 + k
    ensures Frame(e, w) == Part(e, 12, 9) + 512 * Part(e, 12 + 9, k)
  {
    FrameIs(e, w, 9 + k);
    PartSplit(e, 12, 9, k);
    Pow9(9);
  }

  /** An entry made from a 1 GiB entry: the place of va in the page. */
  lemma GigFrame(e: Word, va: Word, w: nat, k: nat)
    requires 32 <= w <= 64 && w == 12 + 18 + k
    ensures Frame(PageCursor.SplitPde(4, PageCursor.Split1G(e, va), va), w) % 0x4_0000 == Part(va, 12, 18)
  {
    var f := PageCursor.SplitPde(4, PageCursor.Split1G(e, va), va);
    var m := 12;
    FrameIs(f, w, 18 + k);
    forall j: nat | j < 18 ensures SameBit(f, m, va, m, j) { SplitBit(4, PageCursor.Split1G(e, va), va, m + j); }
    PartShift(f, m, va, m, 18);
    Pow18(18);
    LowBits(f, m, 18, k, 0x4_0000);
  }

  lemma Pow9(n: nat)
    requires n == 9
    ensures Pow(n) == 512
  {
    assert Pow(9) == 512;
  }

  lemma Pow18(n: nat)
    requires n == 18
    ensures Pow(n) == 0x4_0000
  {
    assert Pow(9) == 512;
    PowAdd(9, 9);
  }

  // ------------------------------------------------------------- the indices of v

  lemma Indices(va: Word)
    ensures var v := Num(va, 0);
      && v / 0x1000 % 512 == Part(va, 12, 9) && v / 0x20_0000 % 512 == Part(va, 21, 9)
      && v / 0x1000 % 0x4_0000 == Part(va, 12, 18)
  {
    Pow18(18);
    Pow9(9);
    Pow12(12);
    Pow21(21);
    Shifted(va, 12, 9, 43, 0x1000, 512);
    Shifted(va, 21, 9, 34, 0x20_0000, 512);
    Shifted(va, 12, 18, 34, 0x1000, 0x4_0000);
  }

  lemma Pow21(n: nat)
    requires n == 21
    ensures Pow(n) == 0x20_0000
  {
    Pow12(12);
    assert Pow(9) == 512;
    PowAdd(12, 9);
  }

  // ------------------------------------------------------------- the fault

  /** The rights of m2 only shrink on the way down. */
  lemma Shrinking(es: seq<Word>, levels: nat)
    requires 2 <= levels < |es|
    ensures var p, q := M2(es, 1, levels), M2(es, 2, levels); (p.rw ==> q.rw) && (p.us ==> q.us) && (!p.nx ==> !q.nx)
  {
    M2Allows(es, 1, levels);
    M2Allows(es, 2, levels);
  }

  /** The page table entry. */
  lemma PteSeen(mem: PageCursor.Mem, es: seq<Word>, levels: nat, va: Word, w: nat)
    requires 3 <= levels <= 4 && |es| == 5 && 32 <= w <= 48 && PS !in es[1] && Seen(mem, es, levels, va, 0) && Tidy(es[0], w) && Tidy(es[1], w)
    ensures PteFits(View(mem, w)(Frame(es[1], w), Part(va, 12, 9)), GuestOf(es, levels, w))
  {
    ViewAt(mem, levels, es[1], va, 0, w, Part(va, 12, 9));
    NearEntry(PageCursor.Rd(mem, PageCursor.Cell(levels, es[1], va, 0)), es[0], w);
    M2Allows(es, 0, levels);
  }

  /** The page directory entry. */
  lemma PdeSeen(mem: PageCursor.Mem, es: seq<Word>, levels: nat, va: Word, w: nat, v: nat)
    requires 3 <= levels <= 4 && |es| == 5 && 32 <= w <= 48 && PS !in es[2] && Seen(mem, es, levels, va, 1) && Seen(mem, es, levels, va, 0)
    requires Tidy(es[0], w) && Tidy(es[1], w) && Tidy(es[2], w) && v / 0x1000 % 512 == Part(va, 12, 9)
    ensures PdeFits(View(mem, w)(Frame(es[2], w), Part(va, 21, 9)), GuestOf(es, levels, w), v)
  {
    ViewAt(mem, levels, es[2], va, 1, w, Part(va, 21, 9));
    NearEntry(PageCursor.Rd(mem, PageCursor.Cell(levels, es[2], va, 1)), es[1], w);
    M2Allows(es, 1, levels);
    if PS in es[1] { SplitFrame(levels, es[1], va, w, w - 21); }
  }

  /** The frame of a made-up entry has the place of va in its large page. */
  lemma LargePlace(levels: nat, es: seq<Word>, va: Word, w: nat)
    requires 3 <= levels <= 4 && |es| == 5 && 32 <= w <= 48 && es[0] == PageCursor.SplitPde(levels, es[1], va)
    ensures Frame(es[0], w) % 0x200 == Part(va, 12, 9)
  {
    SplitFrame(levels, es[1], va, w, w - 21);
    PartBound(va, 12, 9);
    Pow9(9);
    Place(Frame(es[0], w), Frame(es[1] - Words.Bits(12, 20), w), Part(va, 12, 9));
  }

  lemma Place(f: nat, base: nat, p: nat)
    requires base % 512 == 0 && p < 512 && f == base + p
    ensures f % 0x200 == p
  {
  }

  lemma GigPlace(levels: nat, es: seq<Word>, va: Word, w: nat)
    requires 3 <= levels <= 4 && |es| == 5 && 32 <= w <= 48 && PS in es[2]
    requires es[1] == PageCursor.Split1G(es[2], va) && (PS in es[1] ==> es[0] == PageCursor.SplitPde(levels, es[1], va))
    ensures PS in es[1] && Frame(es[0], w) % 0x4_0000 == Part(va, 12, 18)
  {
    GigFrame(es[2], va, w, w - 30);
    assert PageCursor.SplitPde(levels, es[1], va) == PageCursor.SplitPde(4, es[1], va);
  }

  /** What set_m2 and set_gfns make of the entries fits guest memory. */
  lemma EntriesFit(mem: PageCursor.Mem, es: seq<Word>, levels: nat, va: Word, w: nat, v: nat)
    requires 3 <= levels <= 4 && |es| == 5 && 32 <= w <= 48
    requires Seen(mem, es, levels, va, 0) && Seen(mem, es, levels, va, 1) && Tidy(es[0], w) && Tidy(es[1], w) && Tidy(es[2], w)
    requires v / 0x1000 % 512 == Part(va, 12, 9) && v / 0x20_0000 % 512 == Part(va, 21, 9) && v / 0x1000 % 0x4_0000 == Part(va, 12, 18)
    ensures WalkFits(View(mem, w), v, GuestOf(es, levels, w))
  {
    Shrinking(es, levels);
    if PS in es[1] { LargePlace(levels, es, va, w); } else { PteSeen(mem, es, levels, va, w); }
    if PS in es[2] { GigPlace(levels, es, va, w); } else { PdeSeen(mem, es, levels, va, w, v); }
  }

  /** A fault that the guest's tables allow (PAE or four-level paging, addresses of at most 48 bits)
      hands map_page what guest memory holds: frames, rights and places in large pages. */
  lemma FaultFits(virt: Word, cr3: Word, d: Req, w: nat, mem: PageCursor.Mem)
    requires d.pg && (d.pae || d.lme) && 32 <= w <= 48 && PageCursor.Linear(Levels(d), virt)
    requires GetPte(virt, cr3, d, w, mem).out == Ok
    ensures var r := GetPte(virt, cr3, d, w, mem);
      |r.entries| == 5 && WalkFits(View(r.mem, w), Num(virt, 0), GuestOf(r.entries, Levels(d), w))
  {
    var n := Levels(d);
    var c := PageCursor.Seek(PageCursor.Open(Root(cr3, d), n), virt, n + 1);
    var top := seq(5, l => if l == n then Root(cr3, d) + {RW, US, A} else {});
    LoopSeen(c, mem, n, Mode(d), w, top);
    var r := GetPte(virt, cr3, d, w, mem);
    assert Seen(r.mem, r.entries, n, virt, 0) && Seen(r.mem, r.entries, n, virt, 1);
    Indices(virt);
    EntriesFit(r.mem, r.entries, n, virt, w, Num(virt, 0));
  }

  /** Without paging the fault hands over the address itself, with all rights. */
  lemma NoPagingFits(virt: Word, cr3: Word, d: Req, w: nat, mem: PageCursor.Mem, gt: GuestMem)
    requires !d.pg && 32 <= w <= 48 && PageCursor.Linear(Levels(d), virt)
    ensures var r := GetPte(virt, cr3, d, w, mem); |r.entries| == 5 && WalkFits(gt, Num(virt, 0), GuestOf(r.entries, 1, w))
    ensures var g := GuestOf(GetPte(virt, cr3, d, w, mem).entries, 1, w); g.m0 == SptMap.Perm(true, true, false) == g.m1
  {
    var e := virt * Words.Bits(12, w - 1) + {P, RW, US, A, D};
    Indices(virt);
    FrameIs(e, w, w - 12);
    assert Gfn(e, 0, w).value == Frame(e, w);
    SamePlace(e, virt, w, w - 30);
  }

  lemma SamePlace(e: Word, virt: Word, w: nat, k: nat)
    requires 32 <= w <= 48 && w == 30 + k && e == virt * Words.Bits(12, w - 1) + {P, RW, US, A, D}
    ensures Frame(e, w) % 0x4_0000 == Part(virt, 12, 18) && Frame(e, w) % 0x200 == Part(virt, 12, 9)
  {
    var m := 12;
    FrameIs(e, w, 18 + k);
    forall j: nat | j < 18 + k ensures SameBit(e, m, virt, m, j) {
    }
    PartShift(e, m, virt, m, 18 + k);
    Pow18(18);
    LowBits(virt, m, 18, k, 0x4_0000);
    Pow9(9);
    LowBits(virt, m, 9, 9 + k, 512);
    assert 9 + (9 + k) == 18 + k;
  }
}
