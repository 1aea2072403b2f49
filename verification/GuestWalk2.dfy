/** The walk of a two-level guest (cpu_mmu.c, get_pte_sub without PAE) against 32-bit paging (section
    4.3 of the Intel SDM, volume 3A). */
module GuestWalk2 {
  import opened Words
  import opened PageCursor
  import opened GuestWalk

  // ------------------------------------------------------------- the architecture

  /** Reserved bits of a PDE that maps 4 MiB: those above the address bits 32 to 39 in bits 13 to 20
      that the physical address width has, and bit 21. */
  function Reserved4M(w: nat): Word
    requires w >= 32
  {
    Bits(if w < 40 then w - 19 else 21, 21)
  }

  predicate Permits(e: Word, d: Req) {
    (d.user ==> US in e) && (d.write && (d.wp || d.user) ==> RW in e)
  }

  predicate Ok2(e: Word, reserved: Word, d: Req) {
    P in e && e * reserved == {} && Permits(e, d)
  }

  function Why2(e: Word, reserved: Word): Cause {
    if P !in e then Absent else if e * reserved != {} then ReservedBit else Refused
  }

  /** The page table level of the hardware walk. */
  function ArchPte(mem: Mem, up: Word, va: Word, d: Req): Arch {
    var a := Cell(2, up, va, 0);
    var e := Cut(2, Rd(mem, a));
    if !Ok2(e, {}, d) then Fault(mem, 0, Why2(e, {}))
    else var u := WithAd(e, d.write); Page(mem[a := u], PageAddr(u, va, 12), u, 0)
  }

  /** The hardware walk. */
  function Arch2(mem: Mem, root: Word, va: Word, d: Req, w: nat): Arch
    requires w >= 32
  {
    var a := Cell(2, root, va, 1);
    var e := Cut(2, Rd(mem, a));
    var large := d.pse && PS in e;
    var reserved := if large then Reserved4M(w) else {};
    if !Ok2(e, reserved, d) then Fault(mem, 1, Why2(e, reserved))
    else if large then var u := WithAd(e, d.write); Page(mem[a := u], PageAddr4M(u, va), u, 1)
    else ArchPte(mem[a := e + {A}], e + {A}, va, d)
  }

  /** Memory read 32 bits at a time. */
  ghost predicate SameMem(m: Mem, n: Mem) {
    forall a :: Cut(2, Rd(m, a)) == Cut(2, Rd(n, a))
  }

  /** entries[0] describes the 4 KiB page around va as the leaf does. */
  ghost predicate Describes2(e: Word, p: Arch, va: Word) {
    && p.Page? && PageAddr(e, va, 12) == p.addr
    && (PAT in e <==> (if p.l == 0 then PAT else LARGE_PAT) in p.leaf)
    && e * (Bits(0, 6) + Bits(8, 11)) == p.leaf * (Bits(0, 6) + Bits(8, 11))
  }

  ghost predicate Agrees2(r: Result, p: Arch, va: Word) {
    && SameMem(r.mem, p.mem) && r.out == (if p.Page? then Ok else Named(p.cause))
    && (p.Page? ==> |r.entries| == 5 && Describes2(r.entries[0], p, va))
  }

  // ------------------------------------------------------------- one level

  /** What the code checks in a PDE. */
  function Mask2(e: Word, i: nat, d: Req): Word {
    if d.pse && i == 2 && PS in e then {21} else {}
  }

  lemma CheckIs(e: Word, i: nat, d: Req, w: nat)
    requires e <= Bits(0, 31) && 1 <= i <= 2 && !d.pae && 32 <= w <= 52
    ensures Check(e, e, i, 2, d, w) == if Ok2(e, Mask2(e, i, d), d) then Ok else Named(Why2(e, Mask2(e, i, d)))
  {
    var level := if i == 2 && PS in e then 0 else i;
    var m := Xor(TableMask(d.nxe, 2, level), Xor(Bits(12, w - 1), Bits(12, 35)));
    forall b ensures b in e * m <==> b in e && i == 2 && PS in e && b == 21 {
    }
    if 21 in e { assert 21 in e * m <==> i == 2 && PS in e; assert 21 in e * Mask2(e, i, d) <==> d.pse && i == 2 && PS in e; }
    assert e * m == {} <==> !(i == 2 && PS in e && 21 in e);
    assert e * Mask2(e, i, d) == {} <==> !(d.pse && i == 2 && PS in e && 21 in e);
    assert NX !in e;
  }

  /** The check of an entry made from a 4 MiB page: address bits between 36 and the width, on either
      side, are refused. */
  function CodeHigh(w: nat): Word {
    if w >= 36 then Bits(36, w - 1) else Bits(w, 35)
  }

  lemma MadeCheck(f: Word, d: Req, w: nat)
    requires !d.pae && 32 <= w <= 52 && d.pse && P in f && NX !in f && Permits(f, d)
    ensures Check(f, f, 1, 2, d, w) == if f * CodeHigh(w) == {} then Ok else BadReserved
  {
    var m := Xor(TableMask(d.nxe, 2, 1), Xor(Bits(12, w - 1), Bits(12, 35)));
    forall b ensures b in m <==> b in CodeHigh(w) {
    }
    assert m == CodeHigh(w);
  }

  // ------------------------------------------------------------- a turn on an entry in memory

  ghost predicate Went2(r: Cursor, m: Mem, c: Cursor, mem: Mem, i: nat, u: Word)
    requires Shaped(c) && 1 <= i <= 2
  {
    && Shaped(r) && r.levels == 2 && r.curaddr == c.curaddr && r.readlevel == i - 1 && r.entry[i - 1] == u
    && SameMem(m, mem[Cell(2, c.entry[i], c.curaddr, i - 1) := u])
  }

  /** Marking an entry of 32 bits. */
  lemma Mark2(c: Cursor, mem: Mem, i: nat, e: Word, u: Word) returns (r: Cursor, m: Mem)
    requires Shaped(c) && c.levels == 2 && 1 <= i == c.readlevel && e <= Bits(0, 31) && e <= u <= Bits(0, 31)
    requires e == Cut(2, Rd(mem, Cell(2, c.entry[i], c.curaddr, i - 1)))
    ensures Went2(r, m, c, mem, i, u)
    ensures var q := Descend(c, mem).(curlevel := i - 1);
      if u == e then r == q && m == mem else var wr := Write(q, mem, u, Bits(0, 11), true); r == wr.c && m == wr.mem
  {
    var q := Descend(c, mem).(curlevel := i - 1);
    assert Cut(2, u) == u && Cut(2, e) == e;
    r, m := q, mem;
    if u != e {
      AllAttributes(q, u);
      var wr := Write(q, mem, u, Bits(0, 11), true);
      r, m := wr.c, wr.mem;
    }
  }

  lemma AdStays(e: Word, setd: bool)
    requires e <= Bits(0, 31)
    ensures e <= WithAd(e, setd) <= Bits(0, 31)
  {
  }

  /** The level lets the access through. */
  lemma RealTurn(c: Cursor, mem: Mem, i: nat, d: Req, w: nat, entries: seq<Word>, e: Word)
    returns (r: Cursor, m: Mem, es: seq<Word>)
    requires Shaped(c) && c.levels == 2 && 1 <= i == c.readlevel && |entries| == 5 && w > 0
    requires P in c.entry[i] && !Large(c.entry[i], i) && e == Cut(2, Rd(mem, Cell(2, c.entry[i], c.curaddr, i - 1)))
    requires Check(e, e, i, 2, d, w) == Ok && (i == 2 && PS in e ==> d.pse)
    ensures var u := WithAd(e, SetD(e, i, d)); Went2(r, m, c, mem, i, u) && es == entries[i - 1 := u]
    ensures Loop(c, mem, i, d, w, entries) == Loop(r, m, i - 1, d, w, es)
  {
    var u := WithAd(e, SetD(e, i, d));
    assert e <= Bits(0, 31);
    AdStays(e, SetD(e, i, d));
    r, m := Mark2(c, mem, i, e, u);
    es := entries[i - 1 := u];
    ReadTable(c, mem, i);
    assert Simplify3(e, i, d) == e;
    TurnGoes2(c, mem, i, d, w, entries, e, Descend(c, mem).(curlevel := i - 1), r, m);
    LoopGoes(c, mem, i, d, w, entries, r, m, es);
  }

  lemma TurnGoes2(c: Cursor, mem: Mem, i: nat, d: Req, w: nat, entries: seq<Word>, e: Word, q: Cursor, r: Cursor, m: Mem)
    requires Shaped(c) && c.levels == 2 && 1 <= i <= c.readlevel && |entries| == 5 && w > 0 && i <= 2
    requires Read(c.(curlevel := i - 1), mem) == (q, e) && Shaped(q) && q.readlevel == i - 1 == q.curlevel < q.levels
    requires Check(e, e, i, 2, d, w) == Ok && Simplify3(e, i, d) == e
    requires var u := WithAd(e, SetD(e, i, d));
      if u == e then r == q && m == mem else var wr := Write(q, mem, u, Bits(0, 11), true); r == wr.c && m == wr.mem
    ensures Turn(c, mem, i, d, w, entries) == Go(r, m, entries[i - 1 := WithAd(e, SetD(e, i, d))])
  {
  }

  // ------------------------------------------------------------- the page table

  lemma PteAgrees(c: Cursor, mem: Mem, d: Req, w: nat, entries: seq<Word>)
    requires Shaped(c) && c.levels == 2 && c.readlevel == 1 && |entries| == 5 && 32 <= w <= 52 && !d.pae
    requires P in c.entry[1] && PS !in c.entry[1]
    ensures Agrees2(Loop(c, mem, 1, d, w, entries), ArchPte(mem, c.entry[1], c.curaddr, d), c.curaddr)
  {
    var e := Cut(2, Rd(mem, Cell(2, c.entry[1], c.curaddr, 0)));
    CheckIs(e, 1, d, w);
    if Ok2(e, {}, d) {
      var r, m, es := RealTurn(c, mem, 1, d, w, entries, e);
      assert Loop(r, m, 0, d, w, es) == Result(Ok, m, es);
    } else {
      ReadTable(c, mem, 1);
      TableStops(c, mem, 1, d, w, entries, Descend(c, mem).(curlevel := 0), e, Named(Why2(e, {})));
    }
  }

  /** The walk reads 32 bits at a time. */
  lemma ArchPteSame(m: Mem, n: Mem, up: Word, va: Word, d: Req, r: Result)
    requires SameMem(m, n) && Agrees2(r, ArchPte(m, up, va, d), va)
    ensures Agrees2(r, ArchPte(n, up, va, d), va)
  {
    var a := Cell(2, up, va, 0);
    assert Cut(2, Rd(m, a)) == Cut(2, Rd(n, a));
    var p, q := ArchPte(m, up, va, d), ArchPte(n, up, va, d);
    forall x ensures Cut(2, Rd(p.mem, x)) == Cut(2, Rd(q.mem, x)) {
      assert Cut(2, Rd(m, x)) == Cut(2, Rd(n, x));
    }
  }

  // ------------------------------------------------------------- 4 MiB pages

  /** The bits of a PDE for which the entry made from it is refused. */
  function CodeBits(w: nat): Word
    requires w >= 32
  {
    if w < 36 then Bits(w - 19, 16) else Bits(17, if w < 40 then w - 20 else 20)
  }

  /** The bits above 32 of the entry made from it. */
  lemma MadeBits(u: Word, va: Word, b: nat)
    requires u <= Bits(0, 31) && va <= Bits(0, 31) && 32 <= b
    ensures b in SplitPde(2, u, va) <==> b <= 39 && b - 19 in u
  {
    var t := u - {PS};
    var x := if LARGE_PAT in t then (t + {PAT}) - {LARGE_PAT} else t;
    UpIn(Down(x * Bits(13, 20), 13), 32, b);
    DownIn(x * Bits(13, 20), 13, b - 32);
  }

  lemma MadeHigh(u: Word, va: Word, w: nat)
    requires u <= Bits(0, 31) && va <= Bits(0, 31) && 32 <= w <= 52
    ensures SplitPde(2, u, va) * CodeHigh(w) == {} <==> u * CodeBits(w) == {}
  {
    var f := SplitPde(2, u, va);
    forall b: nat | b in f * CodeHigh(w) ensures b >= 19 && b - 19 in u * CodeBits(w) { MadeBits(u, va, b); }
    forall b: nat | b in u * CodeBits(w) ensures b + 19 in f * CodeHigh(w) { MadeBits(u, va, b + 19); }
  }

  /** The entry made from a 4 MiB page keeps what the checks look at. */
  lemma MadeKeeps(u: Word, va: Word, d: Req)
    requires u <= Bits(0, 31) && va <= Bits(0, 31) && P in u && A in u && (d.write ==> D in u) && Permits(u, d)
    ensures var f := SplitPde(2, u, va); P in f && NX !in f && Permits(f, d) && WithAd(f, d.write) == f && PS !in f - {PAT}
  {
    MadeBits(u, va, NX);
  }

  /** The turn on the entry made from a 4 MiB page. */
  lemma MadeTurn(c: Cursor, mem: Mem, d: Req, w: nat, entries: seq<Word>, u: Word)
    requires Shaped(c) && c.levels == 2 && c.readlevel == 1 && |entries| == 5 && 32 <= w <= 52 && !d.pae && d.pse
    requires u == c.entry[1] && u <= Bits(0, 31) && P in u && PS in u && A in u && (d.write ==> D in u) && Permits(u, d)
    ensures var f := SplitPde(2, u, c.curaddr);
      Loop(c, mem, 1, d, w, entries) == if u * CodeBits(w) == {} then Result(Ok, mem, entries[0 := f]) else Result(BadReserved, mem, entries)
  {
    var f := SplitPde(2, u, c.curaddr);
    var q := c.(curlevel := 0);
    assert Read(q, mem) == (q, f);
    MadeKeeps(u, c.curaddr, d);
    MadeCheck(f, d, w);
    MadeHigh(u, c.curaddr, w);
    if u * CodeBits(w) == {} {
      assert Turn(c, mem, 1, d, w, entries) == Go(q, mem, entries[0 := f]);
      LoopGoes(c, mem, 1, d, w, entries, q, mem, entries[0 := f]);
    } else {
      TableStops(c, mem, 1, d, w, entries, q, f, BadReserved);
    }
  }

  /** A large PDE that passes the code's check. */
  lemma LargeTurn(c: Cursor, mem: Mem, d: Req, w: nat, entries: seq<Word>, e: Word)
    requires Shaped(c) && c.levels == 2 && c.readlevel == 2 && |entries| == 5 && 32 <= w <= 52 && !d.pae && d.pse
    requires P in c.entry[2] && PS !in c.entry[2] && e == Cut(2, Rd(mem, Cell(2, c.entry[2], c.curaddr, 1)))
    requires PS in e && Ok2(e, {21}, d)
    ensures var r := Loop(c, mem, 2, d, w, entries); var u := WithAd(e, d.write);
      && SameMem(r.mem, mem[Cell(2, c.entry[2], c.curaddr, 1) := u])
      && (if e * CodeBits(w) == {} then r.out == Ok && |r.entries| == 5 && r.entries[0] == SplitPde(2, u, c.curaddr) else r.out == BadReserved)
  {
    CheckIs(e, 2, d, w);
    var r, m, es := RealTurn(c, mem, 2, d, w, entries, e);
    var u := WithAd(e, d.write);
    AdStays(e, d.write);
    assert u * CodeBits(w) == e * CodeBits(w);
    MadeTurn(r, m, d, w, es, u);
  }

  // ------------------------------------------------------------- the whole walk

  /** A large PDE on which code and architecture agree: it is refused for P or bit 21, or has no
      address bit that one of them refuses. */
  predicate Apt(e: Word, d: Req, w: nat)
    requires w >= 32
  {
    P !in e || 21 in e || (e * Reserved4M(w) == {} && (Permits(e, d) ==> e * CodeBits(w) == {}))
  }

  lemma LoopAgrees2(c: Cursor, mem: Mem, d: Req, w: nat, entries: seq<Word>, e: Word)
    requires Shaped(c) && c.levels == 2 && c.readlevel == 2 && |entries| == 5 && 32 <= w <= 52 && !d.pae
    requires P in c.entry[2] && PS !in c.entry[2] && e == Cut(2, Rd(mem, Cell(2, c.entry[2], c.curaddr, 1)))
    requires PS in e ==> d.pse && Apt(e, d, w)
    ensures Agrees2(Loop(c, mem, 2, d, w, entries), Arch2(mem, c.entry[2], c.curaddr, d, w), c.curaddr)
  {
    CheckIs(e, 2, d, w);
    if !Ok2(e, Mask2(e, 2, d), d) {
      StopTwo(c, mem, d, w, entries, e);
      if d.pse && PS in e { AptStops(e, d, w); }
    } else if PS in e {
      LargeTurn(c, mem, d, w, entries, e);
      AptClear(e, d, w);
      LargeAgrees(Loop(c, mem, 2, d, w, entries), mem, c.entry[2], c.curaddr, d, w, e);
    } else {
      TableAgrees(c, mem, d, w, entries, e);
    }
  }

  lemma AptStops(e: Word, d: Req, w: nat)
    requires 32 <= w && !Ok2(e, {21}, d) && Apt(e, d, w)
    ensures !Ok2(e, Reserved4M(w), d) && Why2(e, Reserved4M(w)) == Why2(e, {21})
  {
    assert 21 in e <==> 21 in e * {21};
    assert 21 in e <==> 21 in e * Reserved4M(w);
    assert 21 !in e ==> e * {21} == {};
  }

  lemma AptClear(e: Word, d: Req, w: nat)
    requires 32 <= w && Ok2(e, {21}, d) && Apt(e, d, w)
    ensures e * Reserved4M(w) == {} && e * CodeBits(w) == {}
  {
    assert 21 in e <==> 21 in e * {21};
  }

  lemma LargeAgrees(r: Result, mem: Mem, root: Word, va: Word, d: Req, w: nat, e: Word)
    requires va <= Bits(0, 31) && 32 <= w <= 52 && e == Cut(2, Rd(mem, Cell(2, root, va, 1)))
    requires d.pse && PS in e && Ok2(e, {21}, d) && Apt(e, d, w)
    requires var u := WithAd(e, d.write);
      SameMem(r.mem, mem[Cell(2, root, va, 1) := u]) && r.out == Ok && |r.entries| == 5 && r.entries[0] == SplitPde(2, u, va)
    ensures Agrees2(r, Arch2(mem, root, va, d, w), va)
  {
    var u := WithAd(e, d.write);
    AdStays(e, d.write);
    Split4MExact(u, va);
    AptClear(e, d, w);
  }

  lemma TableAgrees(c: Cursor, mem: Mem, d: Req, w: nat, entries: seq<Word>, e: Word)
    requires Shaped(c) && c.levels == 2 && c.readlevel == 2 && |entries| == 5 && 32 <= w <= 52 && !d.pae
    requires P in c.entry[2] && PS !in c.entry[2] && e == Cut(2, Rd(mem, Cell(2, c.entry[2], c.curaddr, 1)))
    requires PS !in e && Ok2(e, {}, d)
    ensures Agrees2(Loop(c, mem, 2, d, w, entries), Arch2(mem, c.entry[2], c.curaddr, d, w), c.curaddr)
  {
    CheckIs(e, 2, d, w);
    var r, m, es := RealTurn(c, mem, 2, d, w, entries, e);
    var u := e + {A};
    assert WithAd(e, SetD(e, 2, d)) == u;
    PteAgrees(r, m, d, w, es);
    ArchPteSame(m, mem[Cell(2, c.entry[2], c.curaddr, 1) := u], u, c.curaddr, d, Loop(r, m, 1, d, w, es));
  }

  lemma StopTwo(c: Cursor, mem: Mem, d: Req, w: nat, entries: seq<Word>, e: Word)
    requires Shaped(c) && c.levels == 2 && c.readlevel == 2 && |entries| == 5 && 32 <= w <= 52 && !d.pae
    requires P in c.entry[2] && PS !in c.entry[2] && e == Cut(2, Rd(mem, Cell(2, c.entry[2], c.curaddr, 1)))
    requires !Ok2(e, Mask2(e, 2, d), d)
    ensures Loop(c, mem, 2, d, w, entries) == Result(Named(Why2(e, Mask2(e, 2, d))), mem, entries)
  {
    CheckIs(e, 2, d, w);
    ReadTable(c, mem, 2);
    TableStops(c, mem, 2, d, w, entries, Descend(c, mem).(curlevel := 1), e, Named(Why2(e, Mask2(e, 2, d))));
  }

  /** Two levels: the PDE maps no 4 MiB, or does so with CR4.PSE and fits the address width as both
      see it; then the walk is the hardware's. */
  lemma GetPteAgrees2(virt: Word, cr3: Word, d: Req, w: nat, mem: Mem)
    requires d.pg && !d.pae && !d.lme && 32 <= w <= 52 && Linear(2, virt)
    requires PS in Pde(virt, cr3, mem) ==> d.pse && Apt(Pde(virt, cr3, mem), d, w)
    ensures Agrees2(GetPte(virt, cr3, d, w, mem), Arch2(mem, RootGuest(cr3, 2), virt, d, w), virt)
  {
    var c := Seek(Open(Root(cr3, d), 2), virt, 3);
    var top := seq(5, l => if l == 2 then Root(cr3, d) + {RW, US, A} else {});
    LoopAgrees2(c, mem, d, w, top, Pde(virt, cr3, mem));
  }

  /** What the hardware answers, in the code's terms. */
  function Answer(p: Arch): Outcome {
    if p.Page? then Ok else Named(p.cause)
  }

  /** For a 4 MiB page get_pte_sub gives the answer of the SDM if and only if the two agree on the
      address bits above 32: with a width of 40 bits or more, for instance, the code refuses bits 36
      to 39, which the SDM allows; with 36 bits it allows them, and the SDM does not. */
  lemma LargeIff(virt: Word, cr3: Word, d: Req, w: nat, mem: Mem)
    requires d.pg && !d.pae && !d.lme && d.pse && 32 <= w <= 52 && Linear(2, virt) && PS in Pde(virt, cr3, mem)
    ensures var e := Pde(virt, cr3, mem);
      GetPte(virt, cr3, d, w, mem).out == Answer(Arch2(mem, RootGuest(cr3, 2), virt, d, w)) <==>
        || P !in e || 21 in e
        || (if Permits(e, d) then e * CodeBits(w) == {} <==> e * Reserved4M(w) == {} else e * Reserved4M(w) == {})
  {
    var c := Seek(Open(Root(cr3, d), 2), virt, 3);
    var top := seq(5, l => if l == 2 then Root(cr3, d) + {RW, US, A} else {});
    var e := Pde(virt, cr3, mem);
    assert 21 in Reserved4M(w);
    if 21 in e { assert 21 in e * Reserved4M(w) && 21 in e * {21}; }
    if Ok2(e, {21}, d) { LargeTurn(c, mem, d, w, top, e); } else { StopTwo(c, mem, d, w, top, e); }
  }

  /** A case: with 40 address bits the code refuses a 4 MiB page with address bit 36. */
  lemma WideCase()
    ensures var d := Req(true, true, true, false, false, false, false, false, false, false); var mem: Mem := map[{} := {P, RW, US, A, PS, 17}];
      Arch2(mem, RootGuest({}, 2), {}, d, 40).Page? && GetPte({}, {}, d, 40, mem).out == BadReserved
  {
    var d := Req(true, true, true, false, false, false, false, false, false, false);
    var e: Word := {P, RW, US, A, PS, 17};
    var mem: Mem := map[{} := e];
    assert Cell(2, RootGuest({}, 2), {}, 1) == {} && Cut(2, e) == e;
    assert e * Reserved4M(40) == {} && 17 in e * CodeBits(40);
    assert Ok2(e, {21}, d);
    var c := Seek(Open(Root({}, d), 2), {}, 3);
    LargeTurn(c, mem, d, 40, seq(5, l => if l == 2 then Root({}, d) + {RW, US, A} else {}), e);
  }

  /** A case: without CR4.PSE a PDE points at a page table whatever its bit 7; the code takes a PDE
      with that bit, accessed already, for a 4 MiB page. */
  lemma NoPseCase()
    ensures var d := Req(true, true, false, false, false, false, false, false, false, false); var mem: Mem := map[{} := {P, RW, US, A, PS, 12}];
      Arch2(mem, RootGuest({}, 2), {}, d, 36).Fault? && GetPte({}, {}, d, 36, mem).out == Ok
  {
    var d := Req(true, true, false, false, false, false, false, false, false, false);
    var e: Word := {P, RW, US, A, PS, 12};
    var mem: Mem := map[{} := e];
    assert Cell(2, RootGuest({}, 2), {}, 1) == {} && Cut(2, e) == e;
    var c := Seek(Open(Root({}, d), 2), {}, 3);
    var top := seq(5, l => if l == 2 then Root({}, d) + {RW, US, A} else {});
    assert e + {A} == e && mem[{} := e] == mem;
    assert 12 in Cell(2, e, {}, 0);
    ReadTable(c, mem, 2);
    CheckIs(e, 2, d, 36);
    var q := Descend(c, mem).(curlevel := 1);
    assert WithAd(e - {PS}, false) == e - {PS};
    LoopGoes(c, mem, 2, d, 36, top, q, mem, top[1 := e - {PS}]);
    MadeAnyway(q, mem, d, top[1 := e - {PS}], e);
  }

  lemma MadeAnyway(q: Cursor, mem: Mem, d: Req, entries: seq<Word>, e: Word)
    requires Shaped(q) && q.levels == 2 && q.readlevel == 1 && |entries| == 5 && q.entry[1] == e && e <= Bits(0, 31)
    requires P in e && PS in e && A in e && !d.pse && !d.pae && !d.user && !d.write && !d.exec
    ensures Loop(q, mem, 1, d, 36, entries).out == Ok
  {
    var f := SplitPde(2, e, q.curaddr);
    MadeKeeps(e, q.curaddr, d);
    var r := q.(curlevel := 0);
    assert Read(r, mem) == (r, f);
    LoopGoes(q, mem, 1, d, 36, entries, r, mem, entries[0 := f]);
  }
}
