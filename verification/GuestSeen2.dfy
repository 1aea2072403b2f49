/** The same for a two-level guest: what get_pte_sub (cpu_mmu.c) collects is what guest memory holds
    after the walk. */
module GuestSeen2 {
  import opened Words
  import opened PageCursor
  import opened GuestWalk
  import opened GuestWalk2
  import opened GuestSeen

  /** An entry of 32 bits that is present and as memory has it. */
  ghost predicate Held(mem: Mem, a: Word, e: Word) {
    P in e && e <= Bits(0, 31) && Near(Cut(2, Rd(mem, a)), e)
  }

  /** The directory entry is in memory, and the table entry too or made from a 4 MiB page. */
  ghost predicate Seen2(r: Result, root: Word, va: Word) {
    && |r.entries| == 5 && Held(r.mem, Cell(2, root, va, 1), r.entries[1])
    && (if PS in r.entries[1] then r.entries[0] == SplitPde(2, r.entries[1], va)
        else Held(r.mem, Cell(2, r.entries[1], va, 0), r.entries[0]))
  }

  lemma HeldNow(m: Mem, mem: Mem, a: Word, u: Word)
    requires SameMem(m, mem[a := u]) && P in u && u <= Bits(0, 31)
    ensures Held(m, a, u)
  {
    assert Cut(2, Rd(m, a)) == Cut(2, Rd(mem[a := u], a)) == u;
  }

  /** It stays so when another entry, or the same, is marked. */
  lemma HeldOn(m: Mem, n: Mem, a: Word, u: Word, b: Word, setd: bool)
    requires Held(m, a, u) && SameMem(n, m[b := WithAd(Cut(2, Rd(m, b)), setd)])
    ensures Held(n, a, u)
  {
    var t := WithAd(Cut(2, Rd(m, b)), setd);
    AdStays(Cut(2, Rd(m, b)), setd);
    assert Cut(2, Rd(n, a)) == Cut(2, Rd(m[b := t], a));
    if a == b { assert Cut(2, t) == t; }
  }

  lemma LargeSeen(c: Cursor, mem: Mem, d: Req, w: nat, entries: seq<Word>, e: Word)
    requires Shaped(c) && c.levels == 2 && c.readlevel == 2 && |entries| == 5 && 32 <= w <= 52 && !d.pae && d.pse
    requires P in c.entry[2] && PS !in c.entry[2] && e == Cut(2, Rd(mem, Cell(2, c.entry[2], c.curaddr, 1)))
    requires PS in e && Ok2(e, {21}, d) && Loop(c, mem, 2, d, w, entries).out == Ok
    ensures var r := Loop(c, mem, 2, d, w, entries); Seen2(r, c.entry[2], c.curaddr) && r.entries[2] == entries[2]
  {
    CheckIs(e, 2, d, w);
    var r, m, es := RealTurn(c, mem, 2, d, w, entries, e);
    var u := WithAd(e, d.write);
    AdStays(e, d.write);
    MadeTurn(r, m, d, w, es, u);
    HeldNow(m, mem, Cell(2, c.entry[2], c.curaddr, 1), u);
  }

  lemma TableSeen(c: Cursor, mem: Mem, d: Req, w: nat, entries: seq<Word>, e: Word)
    requires Shaped(c) && c.levels == 2 && c.readlevel == 2 && |entries| == 5 && 32 <= w <= 52 && !d.pae
    requires P in c.entry[2] && PS !in c.entry[2] && e == Cut(2, Rd(mem, Cell(2, c.entry[2], c.curaddr, 1)))
    requires PS !in e && Ok2(e, {}, d) && Loop(c, mem, 2, d, w, entries).out == Ok
    ensures var r := Loop(c, mem, 2, d, w, entries); Seen2(r, c.entry[2], c.curaddr) && r.entries[2] == entries[2]
  {
    CheckIs(e, 2, d, w);
    var r, m, es := RealTurn(c, mem, 2, d, w, entries, e);
    var u := WithAd(e, SetD(e, 2, d));
    AdStays(e, SetD(e, 2, d));
    var a := Cell(2, c.entry[2], c.curaddr, 1);
    HeldNow(m, mem, a, u);
    LastSeen(r, m, d, w, es, a, u);
  }

  lemma LastSeen(c: Cursor, mem: Mem, d: Req, w: nat, entries: seq<Word>, a: Word, u: Word)
    requires Shaped(c) && c.levels == 2 && c.readlevel == 1 && |entries| == 5 && 32 <= w <= 52 && !d.pae
    requires c.entry[1] == u == entries[1] && P in u && PS !in u && Held(mem, a, u) && Loop(c, mem, 1, d, w, entries).out == Ok
    ensures var r := Loop(c, mem, 1, d, w, entries);
      && |r.entries| == 5 && r.entries[1] == u && r.entries[2] == entries[2]
      && Held(r.mem, a, u) && Held(r.mem, Cell(2, u, c.curaddr, 0), r.entries[0])
  {
    var b := Cell(2, u, c.curaddr, 0);
    var e := Cut(2, Rd(mem, b));
    CheckIs(e, 1, d, w);
    LastOk(c, mem, d, w, entries, e);
    var r, m, es := RealTurn(c, mem, 1, d, w, entries, e);
    var t := WithAd(e, SetD(e, 1, d));
    AdStays(e, SetD(e, 1, d));
    assert Loop(r, m, 0, d, w, es) == Result(Ok, m, es);
    HeldNow(m, mem, b, t);
    HeldOn(mem, m, a, u, b, SetD(e, 1, d));
  }

  lemma LastOk(c: Cursor, mem: Mem, d: Req, w: nat, entries: seq<Word>, e: Word)
    requires Shaped(c) && c.levels == 2 && c.readlevel == 1 && |entries| == 5 && 32 <= w <= 52 && !d.pae && P in c.entry[1] && PS !in c.entry[1]
    requires e == Cut(2, Rd(mem, Cell(2, c.entry[1], c.curaddr, 0))) && Loop(c, mem, 1, d, w, entries).out == Ok
    ensures Ok2(e, {}, d)
  {
    CheckIs(e, 1, d, w);
    if !Ok2(e, {}, d) {
      ReadTable(c, mem, 1);
      TableStops(c, mem, 1, d, w, entries, Descend(c, mem).(curlevel := 0), e, Named(Why2(e, {})));
    }
  }

  /** Two levels, and a PDE with bit 7 only if CR4.PSE is set. */
  lemma GetPteSeen(virt: Word, cr3: Word, d: Req, w: nat, mem: Mem)
    requires d.pg && !d.pae && !d.lme && 32 <= w <= 52 && Linear(2, virt) && (PS in Pde(virt, cr3, mem) ==> d.pse)
    requires GetPte(virt, cr3, d, w, mem).out == Ok
    ensures var r := GetPte(virt, cr3, d, w, mem);
      Seen2(r, RootGuest(cr3, 2), virt) && r.entries[2] == RootGuest(cr3, 2) + {RW, US, A}
  {
    var c := Seek(Open(Root(cr3, d), 2), virt, 3);
    var top := seq(5, l => if l == 2 then Root(cr3, d) + {RW, US, A} else {});
    var e := Pde(virt, cr3, mem);
    if !Ok2(e, Mask2(e, 2, d), d) { StopTwo(c, mem, d, w, top, e); }
    if PS in e { LargeSeen(c, mem, d, w, top, e); } else { TableSeen(c, mem, d, w, top, e); }
  }
}
