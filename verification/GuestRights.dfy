/** The rights in the entries that get_pte_sub (cpu_mmu.c) collects: they say exactly which further
    accesses the guest's tables allow. */
module GuestRights {
  import opened Words
  import opened PageCursor
  import opened GuestWalk

  /** Rights beyond those the walk asked for. */
  datatype More = More(user: bool, write: bool, exec: bool)

  /** The same access with more rights asked for. */
  function Asked(d: Req, x: More): Req {
    d.(user := d.user || x.user, write := d.write || x.write, exec := d.exec || x.exec)
  }

  /** One entry allows them. */
  predicate Allows(e: Word, d: Req, x: More) {
    (x.user ==> US in e) && (x.write ==> RW in e) && (x.exec && d.nxe ==> NX !in e)
  }

  /** The entries below level n allow them. */
  predicate AllAllow(entries: seq<Word>, n: nat, d: Req, x: More)
    requires n <= |entries|
  {
    forall k :: 0 <= k < n ==> Allows(entries[k], d, x)
  }

  // ------------------------------------------------------------- one level

  /** An entry that let the access through lets the larger one through iff it allows it. */
  lemma LevelAllows(e: Word, levels: nat, l: nat, d: Req, w: nat, x: More)
    requires d.wp && LevelOk(e, levels, l, d, w, true)
    ensures LevelOk(e, levels, l, Asked(d, x), w, true) <==> (HasRights(levels, l) ==> Allows(e, d, x))
  {
  }

  lemma UsedAllows(e: Word, levels: nat, l: nat, d: Req, x: More)
    ensures Allows(Used(e, levels, l, d), d, x) <==> Allows(e, d, x)
  {
  }

  /** A PDPTE of three levels, as the loop records it, allows everything. */
  lemma PdpteAllows(e: Word, d: Req, w: nat, x: More, f: Word)
    requires 32 <= w <= 52 && LevelOk(e, 3, 2, d, w, true) && (forall b :: b in f ==> b in e || b == RW || b == US || b == A || b == D)
    requires RW in f && US in f
    ensures Allows(f, d, x)
  {
    assert 63 in ArchReserved(3, 2, PS in e, d.nxe, w, true);
    assert NX !in e * ArchReserved(3, 2, PS in e, d.nxe, w, true);
  }

  // ------------------------------------------------------------- the loop

  /** The loop from level i leaves the entries from i up alone. */
  lemma {:induction false} LoopLeaves(c: Cursor, mem: Mem, i: nat, d: Req, w: nat, entries: seq<Word>)
    requires Shaped(c) && i <= c.readlevel && |entries| == 5 && w > 0
    ensures var r := Loop(c, mem, i, d, w, entries); |r.entries| == 5 && forall k :: i <= k < 5 ==> r.entries[k] == entries[k]
    decreases i
  {
    if i > 0 {
      var t := Turn(c, mem, i, d, w, entries);
      if t.Go? { LoopLeaves(t.c, t.mem, i - 1, d, w, t.entries); }
    }
  }

  /** Entries made from a large page have its rights. */
  lemma SplitAllows(levels: nat, e: Word, va: Word, d: Req, x: More)
    ensures Allows(SplitPde(levels, e, va), d, x) <==> Allows(e, d, x)
  {
  }

  lemma Split1GAllows(e: Word, va: Word, d: Req, x: More)
    ensures Allows(Split1G(e, va), d, x) <==> Allows(e, d, x)
  {
  }

  /** The level whose entry is recorded: what it allows is what the hardware lets through. */
  lemma LevelRights(e: Word, f: Word, levels: nat, i: nat, d: Req, w: nat, x: More)
    requires 1 <= i <= levels && 3 <= levels <= 4 && 32 <= w <= 52 && d.wp && LevelOk(e, levels, i - 1, d, w, true)
    requires if HasRights(levels, i - 1) then f == Used(e, levels, i - 1, d) else f == Simplify2(e, i, levels)
    ensures LevelOk(e, levels, i - 1, Asked(d, x), w, true) <==> Allows(f, d, x)
  {
    LevelAllows(e, levels, i - 1, d, w, x);
    if HasRights(levels, i - 1) { UsedAllows(e, levels, i - 1, d, x); } else { PdpteAllows(e, d, w, x, f); }
  }

  /** The entries made up below a large page. */
  lemma LeafRights(c: Cursor, mem: Mem, i: nat, d: Req, w: nat, entries: seq<Word>, u: Word, x: More)
    requires Shaped(c) && 3 <= c.levels && c.readlevel == i && |entries| == 5 && 32 <= w <= 52 && d.pae && d.pse
    requires i <= 2 && (i == 2 ==> c.levels == 4) && u == c.entry[i] && Leaf(u, i) && Settled(u, c.levels, i, d, w)
    ensures var r := Loop(c, mem, i, d, w, entries);
      |r.entries| == 5 && forall k :: 0 <= k < i ==> (Allows(r.entries[k], d, x) <==> Allows(u, d, x))
  {
    if i == 1 {
      Loop2M(c, mem, d, w, entries);
      SplitAllows(c.levels, u, c.curaddr, d, x);
    } else if i == 2 {
      Loop1G(c, mem, d, w, entries);
      Split1GAllows(u, c.curaddr, d, x);
      SplitAllows(4, Split1G(u, c.curaddr), c.curaddr, d, x);
    }
  }

  /** The hardware goes on from a table entry in the same way for the larger access. */
  lemma WalkOn(mem: Mem, levels: nat, up: Word, l: nat, va: Word, d: Req, w: nat, x: More, e: Word, u: Word, m: Mem)
    requires e == Rd(mem, Cell(levels, up, va, l)) && u == Used(e, levels, l, d)
    requires m == if HasRights(levels, l) then mem[Cell(levels, up, va, l) := u] else mem
    ensures var p := ArchWalk(mem, levels, up, l, va, Asked(d, x), w, true);
      if !LevelOk(e, levels, l, Asked(d, x), w, true) then p.Fault?
      else if Leaf(e, l) then p.Page?
      else l > 0 && p == ArchWalk(m, levels, u, l - 1, va, Asked(d, x), w, true)
  {
    ArchTurn(mem, levels, up, l, va, Asked(d, x), w, true);
    if !Leaf(e, l) { assert Used(e, levels, l, Asked(d, x)) == u; }
  }

  /** The larger access gets through if and only if all entries of the walk allow it. */
  ghost predicate Tells(c: Cursor, mem: Mem, i: nat, d: Req, w: nat, es: seq<Word>, x: More)
    requires Shaped(c) && 1 <= i <= c.levels && |es| == 5
  {
    AllAllow(es, i, d, x) <==> ArchWalk(mem, c.levels, c.entry[i], i - 1, c.curaddr, Asked(d, x), w, true).Page?
  }

  lemma {:induction false} LoopRights(c: Cursor, mem: Mem, i: nat, d: Req, w: nat, entries: seq<Word>, x: More)
    requires Shaped(c) && 3 <= c.levels && 1 <= i == c.readlevel && |entries| == 5 && 32 <= w <= 52 && d.pae && d.pse
    requires P in c.entry[i] && !Large(c.entry[i], i) && d.wp && Loop(c, mem, i, d, w, entries).out == Ok
    ensures var r := Loop(c, mem, i, d, w, entries); |r.entries| == 5 && Tells(c, mem, i, d, w, r.entries, x)
    decreases i, 1
  {
    var e := Rd(mem, Cell(c.levels, c.entry[i], c.curaddr, i - 1));
    PassesIfOk(c, mem, i, d, w, entries, e);
    var r, m, es := TablePasses(c, mem, i, d, w, entries, e);
    RightsOn(c, mem, i, d, w, e, r, m, es, x);
  }

  /** The rest of the loop after a level of a table. */
  lemma {:induction false} RightsOn(c: Cursor, mem: Mem, i: nat, d: Req, w: nat, e: Word, r: Cursor, m: Mem, es: seq<Word>, x: More)
    requires Shaped(c) && 3 <= c.levels && 1 <= i <= c.levels && 32 <= w <= 52 && d.pae && d.pse && d.wp && |es| == 5
    requires e == Rd(mem, Cell(c.levels, c.entry[i], c.curaddr, i - 1)) && LevelOk(e, c.levels, i - 1, d, w, true) && Went(r, m, c, mem, i, e, d)
    requires if HasRights(c.levels, i - 1) then es[i - 1] == Used(e, c.levels, i - 1, d) else es[i - 1] == Simplify2(e, i, c.levels)
    requires Loop(r, m, i - 1, d, w, es).out == Ok
    ensures var l := Loop(r, m, i - 1, d, w, es); |l.entries| == 5 && Tells(c, mem, i, d, w, l.entries, x)
    decreases i, 0
  {
    LoopLeaves(r, m, i - 1, d, w, es);
    PassedEntry(e, c.levels, i - 1, d, w);
    if Leaf(e, i - 1) { LeafRights(r, m, i - 1, d, w, es, r.entry[i - 1], x); } else { LoopRights(r, m, i - 1, d, w, es, x); }
    TurnRights(c, mem, i, d, w, x, e, r, m, Loop(r, m, i - 1, d, w, es).entries);
  }

  lemma TurnRights(c: Cursor, mem: Mem, i: nat, d: Req, w: nat, x: More, e: Word, r: Cursor, m: Mem, rs: seq<Word>)
    requires Shaped(c) && 3 <= c.levels && 1 <= i <= c.levels && 32 <= w <= 52 && d.wp && |rs| == 5
    requires e == Rd(mem, Cell(c.levels, c.entry[i], c.curaddr, i - 1))
    requires LevelOk(e, c.levels, i - 1, d, w, true) && Went(r, m, c, mem, i, e, d)
    requires if HasRights(c.levels, i - 1) then rs[i - 1] == Used(e, c.levels, i - 1, d) else rs[i - 1] == Simplify2(e, i, c.levels)
    requires Leaf(e, i - 1) ==> HasRights(c.levels, i - 1)
    requires Leaf(e, i - 1) ==> forall k :: 0 <= k < i - 1 ==> (Allows(rs[k], d, x) <==> Allows(rs[i - 1], d, x))
    requires !Leaf(e, i - 1) ==> i >= 2 && Tells(r, m, i - 1, d, w, rs, x)
    ensures Tells(c, mem, i, d, w, rs, x)
  {
    LevelRights(e, rs[i - 1], c.levels, i, d, w, x);
    WalkOn(mem, c.levels, c.entry[i], i - 1, c.curaddr, d, w, x, e, r.entry[i - 1], m);
    if Leaf(e, i - 1) { TellsLeaf(c, mem, i, d, w, rs, x, e, rs[i - 1]); } else { TellsOn(c, mem, i, d, w, rs, x, r, m); }
  }

  lemma TellsLeaf(c: Cursor, mem: Mem, i: nat, d: Req, w: nat, rs: seq<Word>, x: More, e: Word, f: Word)
    requires Shaped(c) && 1 <= i <= c.levels && |rs| == 5 && rs[i - 1] == f
    requires forall k :: 0 <= k < i - 1 ==> (Allows(rs[k], d, x) <==> Allows(f, d, x))
    requires Allows(f, d, x) <==> ArchWalk(mem, c.levels, c.entry[i], i - 1, c.curaddr, Asked(d, x), w, true).Page?
    ensures Tells(c, mem, i, d, w, rs, x)
  {
  }

  lemma TellsOn(c: Cursor, mem: Mem, i: nat, d: Req, w: nat, rs: seq<Word>, x: More, r: Cursor, m: Mem)
    requires Shaped(c) && Shaped(r) && 2 <= i <= c.levels == r.levels && r.curaddr == c.curaddr && |rs| == 5
    requires Tells(r, m, i - 1, d, w, rs, x)
    requires var p := ArchWalk(mem, c.levels, c.entry[i], i - 1, c.curaddr, Asked(d, x), w, true);
      if Allows(rs[i - 1], d, x) then p == ArchWalk(m, c.levels, r.entry[i - 1], i - 2, c.curaddr, Asked(d, x), w, true) else p.Fault?
    ensures Tells(c, mem, i, d, w, rs, x)
  {
    assert AllAllow(rs, i, d, x) <==> AllAllow(rs, i - 1, d, x) && Allows(rs[i - 1], d, x);
  }

  /** Where the walk got through, the code's stricter view of bit 8 changes nothing. */
  lemma {:induction false} SameBelow8(mem: Mem, levels: nat, up: Word, l: nat, va: Word, d: Req, w: nat, x: More)
    requires 3 <= levels <= 4 && l < levels && 32 <= w <= 52 && ArchWalk(mem, levels, up, l, va, d, w, true).Page?
    ensures ArchWalk(mem, levels, up, l, va, Asked(d, x), w, true).Page? <==> ArchWalk(mem, levels, up, l, va, Asked(d, x), w, false).Page?
    decreases l
  {
    var a := Cell(levels, up, va, l);
    var e := Rd(mem, a);
    Level8(e, levels, l, d, w);
    Level8(e, levels, l, Asked(d, x), w);
    ArchTurn(mem, levels, up, l, va, d, w, true);
    ArchTurn(mem, levels, up, l, va, Asked(d, x), w, true);
    ArchTurn(mem, levels, up, l, va, Asked(d, x), w, false);
    if !Leaf(e, l) {
      var u := Used(e, levels, l, d);
      assert Used(e, levels, l, Asked(d, x)) == u;
      SameBelow8(if HasRights(levels, l) then mem[a := u] else mem, levels, u, l - 1, va, d, w, x);
    }
  }

  /** With CR0.WP = 1 and PAE or four-level paging: after a walk that succeeds, a larger access
      (user, write or execution added) would get through the guest's tables, as the SDM defines
      them, if and only if every entry collected below the root allows it. */
  lemma RightsExact(virt: Word, cr3: Word, d: Req, w: nat, mem: Mem, x: More)
    requires d.pg && (d.pae || d.lme) && d.wp && 32 <= w <= 52 && Linear(Levels(d), virt)
    requires GetPte(virt, cr3, d, w, mem).out == Ok
    ensures var n := Levels(d); var r := GetPte(virt, cr3, d, w, mem);
      && |r.entries| == 5
      && (AllAllow(r.entries, n, Mode(d), x) <==> ArchWalk(mem, n, Root(cr3, d), n - 1, virt, Asked(Mode(d), x), w, false).Page?)
  {
    var n := Levels(d);
    var c := Seek(Open(Root(cr3, d), n), virt, n + 1);
    var top := seq(5, l => if l == n then Root(cr3, d) + {RW, US, A} else {});
    GetPteAgrees(virt, cr3, d, w, mem);
    LoopRights(c, mem, n, Mode(d), w, top, x);
    SameBelow8(mem, n, Root(cr3, d), n - 1, virt, Mode(d), w, x);
  }
}
