/** What get_pte_sub (cpu_mmu.c) collects is what guest memory holds after the walk. */
module GuestSeen {
  import opened Words
  import opened PageCursor
  import opened GuestWalk
  import opened GuestRights

  /** The same entry, but for accessed and dirty bits that may have been added. */
  ghost predicate Near(x: Word, e: Word) {
    (forall b: nat :: b != A && b != D ==> (b in x <==> b in e)) && (D in e ==> D in x)
  }

  /** Memory in which only accessed and dirty bits were set. */
  ghost predicate Grows(m: Mem, n: Mem) {
    forall a :: Near(Rd(n, a), Rd(m, a))
  }

  lemma UsedNear(e: Word, levels: nat, l: nat, d: Req)
    ensures Near(Used(e, levels, l, d), e)
  {
  }

  lemma GrowsTrans(m: Mem, n: Mem, o: Mem)
    requires Grows(m, n) && Grows(n, o)
    ensures Grows(m, o)
  {
    forall a ensures Near(Rd(o, a), Rd(m, a)) {
      assert Near(Rd(n, a), Rd(m, a)) && Near(Rd(o, a), Rd(n, a));
    }
  }

  lemma StepGrows(mem: Mem, a: Word, levels: nat, l: nat, d: Req)
    ensures Grows(mem, mem[a := Used(Rd(mem, a), levels, l, d)])
  {
    UsedNear(Rd(mem, a), levels, l, d);
  }

  lemma {:induction false} ArchGrows(mem: Mem, levels: nat, up: Word, l: nat, va: Word, d: Req, w: nat)
    ensures Grows(mem, ArchWalk(mem, levels, up, l, va, d, w, true).mem)
    decreases l
  {
    var a := Cell(levels, up, va, l);
    var e := Rd(mem, a);
    ArchTurn(mem, levels, up, l, va, d, w, true);
    StepGrows(mem, a, levels, l, d);
    var u := Used(e, levels, l, d);
    var m := if HasRights(levels, l) then mem[a := u] else mem;
    if LevelOk(e, levels, l, d, w, true) && !Leaf(e, l) {
      ArchGrows(m, levels, u, l - 1, va, d, w);
      GrowsTrans(mem, m, ArchWalk(m, levels, u, l - 1, va, d, w, true).mem);
    }
  }

  /** Entry k (0 or 1) is in memory where entry k + 1 says, or made from it if that maps a large page. */
  ghost predicate Seen(mem: Mem, es: seq<Word>, levels: nat, va: Word, k: nat)
    requires k + 1 < |es|
  {
    if PS !in es[k + 1] then Near(Rd(mem, Cell(levels, es[k + 1], va, k)), es[k])
    else es[k] == if k == 0 then SplitPde(levels, es[1], va) else Split1G(es[k + 1], va)
  }

  /** Entry k is present, and its address is within the width. */
  predicate Tidy(e: Word, w: nat) {
    P in e && e * Bits(w, 47) == {}
  }

  lemma OkTidy(e: Word, levels: nat, l: nat, d: Req, w: nat)
    requires LevelOk(e, levels, l, d, w, true) && w >= 12
    ensures Tidy(e, w) && Tidy(Used(e, levels, l, d), w) && Tidy(Simplify2(e, l + 1, levels), w)
  {
    forall b: nat ensures b !in e * Bits(w, 47) {
      assert b in Bits(w, 47) ==> b in ArchReserved(levels, l, PS in e, d.nxe, w, true);
      assert b !in e * ArchReserved(levels, l, PS in e, d.nxe, w, true);
    }
    assert e * Bits(w, 47) == {};
    LowBitsOnly(Used(e, levels, l, d), e, w);
    LowBitsOnly(Simplify2(e, l + 1, levels), e, w);
  }

  lemma LowBitsOnly(f: Word, e: Word, w: nat)
    requires Tidy(e, w) && w >= 12 && e <= f && forall b: nat :: b in f && b >= 12 ==> b in e
    ensures Tidy(f, w)
  {
    forall b: nat ensures b !in f * Bits(w, 47) {
      assert b !in e * Bits(w, 47);
    }
  }

  /** The two point at the same table. */
  predicate SameTable(x: Word, y: Word) {
    x * Bits(12, 47) == y * Bits(12, 47) && (PS in x <==> PS in y)
  }

  /** The entries of the loop's result below level i. */
  ghost predicate SeenBelow(r: Result, i: nat, levels: nat, va: Word, w: nat) {
    && |r.entries| == 5 && (forall k: nat :: k < i && k < 2 ==> Seen(r.mem, r.entries, levels, va, k))
    && (forall k: nat :: k < i && k < 5 ==> Tidy(r.entries[k], w))
  }

  /** Below a large page all entries are made up. */
  lemma LeafSeen(c: Cursor, mem: Mem, i: nat, d: Req, w: nat, entries: seq<Word>, u: Word)
    requires Shaped(c) && 3 <= c.levels && c.readlevel == i && |entries| == 5 && 32 <= w <= 52 && d.pae && d.pse
    requires i <= 2 && (i == 2 ==> c.levels == 4) && u == c.entry[i] && Leaf(u, i) && Settled(u, c.levels, i, d, w) && entries[i] == u
    ensures SeenBelow(Loop(c, mem, i, d, w, entries), i, c.levels, c.curaddr, w) && Loop(c, mem, i, d, w, entries).mem == mem
  {
    LoopLeaves(c, mem, i, d, w, entries);
    if i == 1 {
      Loop2M(c, mem, d, w, entries);
      Made2M(u, c.curaddr, c.levels, d, w);
    } else if i == 2 {
      Loop1G(c, mem, d, w, entries);
      Made1G(u, c.curaddr, d, w);
    }
  }

  lemma Made2M(u: Word, va: Word, levels: nat, d: Req, w: nat)
    requires 3 <= levels <= 4 && 32 <= w <= 52 && PS in u && Settled(u, levels, 1, d, w)
    ensures Tidy(SplitPde(levels, u, va), w)
  {
    SettledSplit2M(u, va, levels, d, w);
    OkTidy(SplitPde(levels, u, va), levels, 0, d, w);
  }

  lemma Made1G(u: Word, va: Word, d: Req, w: nat)
    requires 32 <= w <= 52 && PS in u && Settled(u, 4, 2, d, w)
    ensures var f := Split1G(u, va); PS in f && Tidy(f, w) && Tidy(SplitPde(4, f, va), w)
  {
    var f := Split1G(u, va);
    SettledSplit1G(u, va, d, w);
    OkTidy(f, 4, 1, d, w);
    Made2M(f, va, 4, d, w);
  }

  lemma {:induction false} LoopSeen(c: Cursor, mem: Mem, i: nat, d: Req, w: nat, entries: seq<Word>)
    requires Shaped(c) && 3 <= c.levels && 1 <= i == c.readlevel && |entries| == 5 && 32 <= w <= 52 && d.pae && d.pse
    requires P in c.entry[i] && !Large(c.entry[i], i) && Loop(c, mem, i, d, w, entries).out == Ok
    requires i <= 2 ==> SameTable(entries[i], c.entry[i])
    ensures SeenBelow(Loop(c, mem, i, d, w, entries), i, c.levels, c.curaddr, w)
    decreases i
  {
    var e := Rd(mem, Cell(c.levels, c.entry[i], c.curaddr, i - 1));
    PassesIfOk(c, mem, i, d, w, entries, e);
    var r, m, es := TablePasses(c, mem, i, d, w, entries, e);
    PassedEntry(e, c.levels, i - 1, d, w);
    OkTidy(e, c.levels, i - 1, d, w);
    LoopLeaves(c, mem, i, d, w, entries);
    LoopLeaves(r, m, i - 1, d, w, es);
    if Leaf(e, i - 1) {
      LeafSeen(r, m, i - 1, d, w, es, r.entry[i - 1]);
    } else {
      Pointed(e, c.levels, i, d, es[i - 1]);
      LoopSeen(r, m, i - 1, d, w, es);
    }
    if i <= 2 { SeenHere(c, mem, i, d, w, entries, e, r, m, es); }
  }

  /** The entry that goes into the result points where the entry in memory does. */
  lemma Pointed(e: Word, levels: nat, i: nat, d: Req, f: Word)
    requires 1 <= i && if HasRights(levels, i - 1) then f == Used(e, levels, i - 1, d) else f == Simplify2(e, i, levels)
    ensures SameTable(f, Used(e, levels, i - 1, d))
  {
  }

  lemma SeenHere(c: Cursor, mem: Mem, i: nat, d: Req, w: nat, entries: seq<Word>, e: Word, r: Cursor, m: Mem, es: seq<Word>)
    requires Shaped(c) && 3 <= c.levels && 1 <= i == c.readlevel && i <= 2 && |entries| == 5 && |es| == 5 && 32 <= w <= 52 && d.pae && d.pse
    requires P in c.entry[i] && !Large(c.entry[i], i) && SameTable(entries[i], c.entry[i])
    requires Went(r, m, c, mem, i, e, d) && es[i - 1] == Used(e, c.levels, i - 1, d)
    requires Loop(c, mem, i, d, w, entries) == Loop(r, m, i - 1, d, w, es)
    requires var l := Loop(c, mem, i, d, w, entries);
      |l.entries| == 5 && l.entries[i] == entries[i] && l.entries[i - 1] == es[i - 1] && l.out == Ok
    requires !Leaf(e, i - 1) ==> i > 1 && P in r.entry[i - 1] && !Large(r.entry[i - 1], i - 1)
    requires Leaf(e, i - 1) ==> Loop(r, m, i - 1, d, w, es).mem == m
    ensures var l := Loop(c, mem, i, d, w, entries); Seen(l.mem, l.entries, c.levels, c.curaddr, i - 1)
  {
    var l := Loop(c, mem, i, d, w, entries);
    var a := Cell(c.levels, c.entry[i], c.curaddr, i - 1);
    assert Cell(c.levels, l.entries[i], c.curaddr, i - 1) == a;
    assert Rd(m, a) == es[i - 1];
    if !Leaf(e, i - 1) {
      LoopAgrees(r, m, i - 1, d, w, es);
      ArchGrows(m, c.levels, r.entry[i - 1], i - 2, c.curaddr, d, w);
    }
    assert Near(Rd(l.mem, a), Rd(m, a));
  }
}
