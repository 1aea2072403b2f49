/** The walk of the guest's page tables (cpu_mmu.c, get_pte_sub) against the paging
    architecture (sections 4.4 and 4.5 of the Intel SDM, volume 3A). */
module GuestWalk {
  import opened Words
  import opened PageCursor

  /** struct get_pte_data */
  datatype Req = Req(pg: bool, wp: bool, pse: bool, pae: bool, pcide: bool, lme: bool, nxe: bool,
                     write: bool, user: bool, exec: bool)

  /** enum vmmerr, and the failure of an assertion. */
  datatype Outcome = Ok | NotPresent | BadReserved | NotAccessible | NotExecutable | AssertFailed

  // ------------------------------------------------------------- reserved bits

  /** reserved_bit_table[nxe][levels - 2][level]; level 0 is a 2 MiB or 4 MiB entry, 5 a
      1 GiB entry, otherwise 1 to 4 for PTE to PML4E. */
  function TableMask(nxe: bool, levels: nat, level: nat): Word {
    var x: Word := if nxe then {} else {63};
    if levels == 2 then
      if level == 0 then {21} else if level <= 2 then {} else Bits(0, 63)
    else if levels == 3 then
      if level == 0 then Bits(36, 62) + x + Bits(13, 20)
      else if level <= 2 then Bits(36, 62) + x
      else if level == 3 then Bits(36, 63) + {1, 2, 5, 6, 7, 8}
      else Bits(0, 63)
    else
      if level == 0 then Bits(36, 51) + x + Bits(13, 20)
      else if level <= 2 then Bits(36, 51) + x
      else if level == 3 then Bits(36, 51) + x + {8}
      else if level == 4 then Bits(36, 51) + x + {7, 8}
      else Bits(36, 51) + x + Bits(13, 29)
  }

  function Xor(a: Word, b: Word): Word {
    (a - b) + (b - a)
  }

  /** test_pmap_entry_reserved_bit; w is the physical address width. */
  predicate Reserved(e: Word, i: nat, levels: nat, d: Req, w: nat)
    requires w > 0
  {
    (d.pae || d.pse) &&
    var level := if i == 2 && PS in e then 0 else if i == 3 && levels == 4 && PS in e then 5 else i;
    e * Xor(TableMask(d.nxe, levels, level), Xor(Bits(12, w - 1), Bits(12, 35))) != {}
  }

  // ------------------------------------------------------------- get_pte_sub

  /** What the checks of one level say about its entry; e has been through simplify2. */
  function Check(e0: Word, e: Word, i: nat, levels: nat, d: Req, w: nat): Outcome
    requires w > 0
  {
    if P !in e0 then NotPresent
    else if Reserved(e0, i, levels, d, w) then BadReserved
    else if US !in e && d.user then NotAccessible
    else if RW !in e && d.write && (d.wp || d.user) then NotAccessible
    else if NX in e && d.exec && d.nxe then NotExecutable
    else Ok
  }

  /** simplify2: the rights of a PDPTE in the three-level format. */
  function Simplify2(e: Word, i: nat, levels: nat): Word {
    if levels == 3 && i == 3 then e + {RW, US, A} else e
  }

  /** simplify3: no large pages without CR4.PSE. */
  function Simplify3(e: Word, i: nat, d: Req): Word {
    if i == 2 && !d.pse then e - {PS} else e
  }

  /** Is D to be set at this level? */
  predicate SetD(e: Word, i: nat, d: Req) {
    d.write && (i == 1 || (PS in e && (i == 2 || i == 3)))
  }

  /** set_ad_bit: the entry with the bits it needs. */
  function WithAd(e: Word, setd: bool): Word {
    e + {A} + (if setd then {D} else {})
  }

  datatype Result = Result(out: Outcome, mem: Mem, entries: seq<Word>)

  /** How a turn of the loop ends. */
  datatype Turned = Stop(r: Result) | Go(c: Cursor, mem: Mem, entries: seq<Word>)

  /** The turn for level i. */
  function Turn(c: Cursor, mem: Mem, i: nat, d: Req, w: nat, entries: seq<Word>): (t: Turned)
    requires Shaped(c) && 1 <= i <= c.readlevel && |entries| == 5 && w > 0
    ensures t.Go? ==> Shaped(t.c) && i - 1 <= t.c.readlevel && |t.entries| == 5
  {
    ReadExact(c.(curlevel := i - 1), mem);
    var (r, e0) := Read(c.(curlevel := i - 1), mem);
    var e1 := Simplify2(e0, i, c.levels);
    var o := Check(e0, e1, i, c.levels, d, w);
    if o != Ok then Stop(Result(o, mem, entries))
    else
      var e2 := Simplify3(e1, i, d);
      var e3 := WithAd(e2, SetD(e2, i, d));
      if e3 == e2 then Go(r, mem, entries[i - 1 := e2])
      else if r.readlevel > i - 1 then Stop(Result(AssertFailed, mem, entries))
      else
        var wr := Write(r, mem, e3, Bits(0, 11), true);
        Go(wr.c, wr.mem, entries[i - 1 := e3])
  }

  /** The loop from level i down. */
  function Loop(c: Cursor, mem: Mem, i: nat, d: Req, w: nat, entries: seq<Word>): Result
    requires Shaped(c) && i <= c.readlevel && |entries| == 5 && w > 0
    decreases i
  {
    if i == 0 then Result(Ok, mem, entries)
    else
      match Turn(c, mem, i, d, w, entries)
      case Stop(r) => r
      case Go(c', mem', entries') => Loop(c', mem', i - 1, d, w, entries')
  }

  function Levels(d: Req): nat {
    if d.lme then 4 else if d.pae then 3 else 2
  }

  /** The request after the mode is known. */
  function Mode(d: Req): Req {
    if d.lme then d.(pae := true, pse := true) else if d.pae then d.(pse := true) else d
  }

  function Root(cr3: Word, d: Req): Word {
    RootGuest(if d.lme && d.pcide then cr3 - Bits(0, 11) else cr3, Levels(d))
  }

  /** get_pte_sub */
  function GetPte(virt: Word, cr3: Word, d: Req, w: nat, mem: Mem): Result
    requires w > 0 && Linear(Levels(d), virt)
  {
    if !d.pg then
      Result(Ok, mem, [virt * Bits(12, w - 1) + {P, RW, US, A, D}, {P, RW, US, A, D, PS}, {}, {}, {}])
    else
      var c := Seek(Open(Root(cr3, d), Levels(d)), virt, Levels(d) + 1);
      var top := seq(5, l => if l == Levels(d) then Root(cr3, d) + {RW, US, A} else {});
      Loop(c, mem, Levels(d), Mode(d), w, top)
  }

  // ------------------------------------------------------------- the architecture

  /** Reserved bits of an entry of level l (0 is a PTE) in the three-level and four-level
      formats; `mbz8` adds bit 8 of the entries above page directories, which the SDM calls
      ignored. */
  function ArchReserved(levels: nat, l: nat, large: bool, nxe: bool, w: nat, mbz8: bool): Word {
    if levels == 3 && l == 2 then Bits(w, 63) + {1, 2, 5, 6, 7, 8}
    else
      Bits(w, if levels == 3 then 62 else 51) + (if nxe then {} else {NX})
      + (if large && l == 1 then Bits(13, 20) else if large && l == 2 then Bits(13, 29) else {})
      + (if l == 3 then {PS} else {})
      + (if mbz8 && (l == 3 || (l == 2 && !large)) then {8} else {})
  }

  /** Does the entry map a page? */
  predicate Leaf(e: Word, l: nat) {
    l == 0 || (PS in e && (l == 1 || l == 2))
  }

  /** Are there rights and accessed bits in the entry?  Not in a PDPTE of three levels. */
  predicate HasRights(levels: nat, l: nat) {
    !(levels == 3 && l == 2)
  }

  /** The level lets the access through: present, no reserved bit, permitted. */
  predicate LevelOk(e: Word, levels: nat, l: nat, d: Req, w: nat, mbz8: bool) {
    && P in e && e * ArchReserved(levels, l, PS in e, d.nxe, w, mbz8) == {}
    && (HasRights(levels, l) ==>
          && (d.user ==> US in e) && (d.write && (d.wp || d.user) ==> RW in e) && (d.exec && d.nxe ==> NX !in e))
  }

  /** The entry as the processor leaves it. */
  function Used(e: Word, levels: nat, l: nat, d: Req): Word {
    if HasRights(levels, l) then WithAd(e, d.write && Leaf(e, l)) else e
  }

  /** log2 of the size of the page a leaf maps. */
  function Size(l: nat): nat {
    if l == 0 then 12 else if l == 1 then 21 else 30
  }

  /** Why an entry stops the walk: not present, a reserved bit, no right to the access, no right to
      fetch instructions. */
  datatype Cause = Absent | ReservedBit | Refused | NoFetch

  function Why(e: Word, levels: nat, l: nat, d: Req, w: nat, mbz8: bool): Cause {
    if P !in e then Absent
    else if e * ArchReserved(levels, l, PS in e, d.nxe, w, mbz8) != {} then ReservedBit
    else if (d.user && US !in e) || (d.write && (d.wp || d.user) && RW !in e) then Refused
    else NoFetch
  }

  /** The first entry that stops the walk is that of level l. */
  datatype Arch = Fault(mem: Mem, l: nat, cause: Cause) | Page(mem: Mem, addr: Word, leaf: Word, l: nat)

  /** The hardware walk from entry `up` of level l + 1. */
  function ArchWalk(mem: Mem, levels: nat, up: Word, l: nat, va: Word, d: Req, w: nat, mbz8: bool): Arch
    decreases l
  {
    var a := Cell(levels, up, va, l);
    var e := Rd(mem, a);
    if !LevelOk(e, levels, l, d, w, mbz8) then Fault(mem, l, Why(e, levels, l, d, w, mbz8))
    else
      var u := Used(e, levels, l, d);
      var m := if HasRights(levels, l) then mem[a := u] else mem;
      if Leaf(e, l) then Page(m, PageAddr(u, va, Size(l)), u, l)
      else ArchWalk(m, levels, u, l - 1, va, d, w, mbz8)
  }

  /** A PDPTE of three levels that pmap_write stores with the mask of P alone, as setpdpe does, has
      no reserved bit if the address has none: loading CR3 does not fault on it. */
  lemma PdpteClean(c: Cursor, e: Word, nxe: bool, w: nat)
    requires c.levels == 3 && c.curlevel == 2 && 32 <= w <= 52 && e <= Bits(12, w - 1) + {P}
    ensures Stored(c, e, {P}) == e && Stored(c, e, {P}) * ArchReserved(3, 2, false, nxe, w, true) == {}
  {
    forall b: nat ensures b in Stored(c, e, {P}) <==> b in e { StoredBits(c, e, {P}, b); }
  }

  // ------------------------------------------------------------- one level

  /** The masks of the table, adjusted to the address width, are the reserved bits. */
  lemma MaskExact(e: Word, i: nat, levels: nat, d: Req, w: nat)
    requires 1 <= i <= levels && 3 <= levels <= 4 && 32 <= w <= 52 && d.pae
    ensures Reserved(e, i, levels, d, w) <==> e * ArchReserved(levels, i - 1, PS in e, d.nxe, w, true) != {}
  {
    var level := if i == 2 && PS in e then 0 else if i == 3 && levels == 4 && PS in e then 5 else i;
    var m := Xor(TableMask(d.nxe, levels, level), Xor(Bits(12, w - 1), Bits(12, 35)));
    forall b ensures b in m <==> b in ArchReserved(levels, i - 1, PS in e, d.nxe, w, true) {
    }
    assert m == ArchReserved(levels, i - 1, PS in e, d.nxe, w, true);
  }

  /** The error code for each cause. */
  function Named(c: Cause): Outcome {
    match c
    case Absent => NotPresent
    case ReservedBit => BadReserved
    case Refused => NotAccessible
    case NoFetch => NotExecutable
  }

  lemma CheckExact(e: Word, i: nat, levels: nat, d: Req, w: nat)
    requires 1 <= i <= levels && 3 <= levels <= 4 && 32 <= w <= 52 && d.pae
    ensures Check(e, Simplify2(e, i, levels), i, levels, d, w)
         == if LevelOk(e, levels, i - 1, d, w, true) then Ok else Named(Why(e, levels, i - 1, d, w, true))
  {
    MaskExact(e, i, levels, d, w);
    if levels == 3 && i == 3 && e * ArchReserved(3, 2, PS in e, d.nxe, w, true) == {} {
      assert 63 in ArchReserved(3, 2, PS in e, d.nxe, w, true);
    }
  }

  /** Reading the next level of a table. */
  lemma ReadTable(c: Cursor, mem: Mem, i: nat)
    requires Shaped(c) && 1 <= i == c.readlevel && P in c.entry[i] && !Large(c.entry[i], i)
    ensures Read(c.(curlevel := i - 1), mem)
         == (Descend(c, mem).(curlevel := i - 1), Cut(c.levels, Rd(mem, Cell(c.levels, c.entry[i], c.curaddr, i - 1))))
  {
    assert Descend(c.(curlevel := i - 1), mem) == Descend(c, mem).(curlevel := i - 1);
  }

  // ------------------------------------------------------------- entries made from large pages

  /** An entry that has passed the checks and needs no more bits. */
  ghost predicate Settled(u: Word, levels: nat, l: nat, d: Req, w: nat) {
    LevelOk(u, levels, l, d, w, true) && A in u && (d.write ==> D in u)
  }

  lemma SettledSplit2M(u: Word, va: Word, levels: nat, d: Req, w: nat)
    requires 3 <= levels <= 4 && 32 <= w <= 52 && PS in u && Settled(u, levels, 1, d, w)
    ensures Settled(SplitPde(levels, u, va), levels, 0, d, w)
  {
    var f := SplitPde(levels, u, va);
    forall b | b in ArchReserved(levels, 0, PS in f, d.nxe, w, true) ensures b !in f {
      assert b !in u * ArchReserved(levels, 1, true, d.nxe, w, true);
    }
  }

  lemma SettledSplit1G(u: Word, va: Word, d: Req, w: nat)
    requires 32 <= w <= 52 && PS in u && Settled(u, 4, 2, d, w)
    ensures PS in Split1G(u, va) && Settled(Split1G(u, va), 4, 1, d, w)
  {
    var f := Split1G(u, va);
    forall b | b in ArchReserved(4, 1, true, d.nxe, w, true) ensures b !in f {
      assert b !in u * ArchReserved(4, 2, true, d.nxe, w, true);
    }
  }

  /** A turn of the loop on a settled entry that was made up: nothing is written. */
  lemma Passes(c: Cursor, mem: Mem, i: nat, d: Req, w: nat, entries: seq<Word>, e: Word)
    requires Shaped(c) && 3 <= c.levels && 1 <= i <= 2 && i <= c.readlevel && |entries| == 5 && 32 <= w <= 52
    requires d.pae && d.pse && Read(c.(curlevel := i - 1), mem) == (c.(curlevel := i - 1), e)
    requires Settled(e, c.levels, i - 1, d, w)
    ensures Loop(c, mem, i, d, w, entries) == Loop(c.(curlevel := i - 1), mem, i - 1, d, w, entries[i - 1 := e])
  {
    CheckExact(e, i, c.levels, d, w);
    assert WithAd(e, SetD(e, i, d)) == e;
  }

  lemma Loop2M(c: Cursor, mem: Mem, d: Req, w: nat, entries: seq<Word>)
    requires Shaped(c) && 3 <= c.levels && c.readlevel == 1 && |entries| == 5 && 32 <= w <= 52 && d.pae && d.pse
    requires PS in c.entry[1] && Settled(c.entry[1], c.levels, 1, d, w)
    ensures Loop(c, mem, 1, d, w, entries) == Result(Ok, mem, entries[0 := SplitPde(c.levels, c.entry[1], c.curaddr)])
  {
    var e := SplitPde(c.levels, c.entry[1], c.curaddr);
    SettledSplit2M(c.entry[1], c.curaddr, c.levels, d, w);
    Passes(c, mem, 1, d, w, entries, e);
  }

  lemma Loop1G(c: Cursor, mem: Mem, d: Req, w: nat, entries: seq<Word>)
    requires Shaped(c) && c.levels == 4 && c.readlevel == 2 && |entries| == 5 && 32 <= w <= 52 && d.pae && d.pse
    requires PS in c.entry[2] && Settled(c.entry[2], 4, 2, d, w)
    ensures var r := Loop(c, mem, 2, d, w, entries);
      && r.out == Ok && r.mem == mem && |r.entries| == 5
      && r.entries[0] == SplitPde(4, Split1G(c.entry[2], c.curaddr), c.curaddr)
      && r.entries[1] == Split1G(c.entry[2], c.curaddr)
  {
    var f := Split1G(c.entry[2], c.curaddr);
    SettledSplit1G(c.entry[2], c.curaddr, d, w);
    Passes(c, mem, 2, d, w, entries, f);
    var e := SplitPde(4, f, c.curaddr);
    SettledSplit2M(f, c.curaddr, 4, d, w);
    Passes(c.(curlevel := 1), mem, 1, d, w, entries[1 := f], e);
  }

  // ------------------------------------------------------------- the whole walk

  /** entries[0] describes the 4 KiB page around va as the leaf does. */
  ghost predicate Describes(e: Word, p: Arch, va: Word) {
    && p.Page? && PageAddr(e, va, 12) == p.addr
    && (PAT in e <==> (if p.l == 0 then PAT else LARGE_PAT) in p.leaf)
    && e * (Bits(0, 6) + Bits(8, 11) + Bits(52, 63)) == p.leaf * (Bits(0, 6) + Bits(8, 11) + Bits(52, 63))
  }

  /** The loop agrees with the hardware walk. */
  ghost predicate Agrees(r: Result, p: Arch, va: Word) {
    && r.mem == p.mem && r.out == (if p.Page? then Ok else Named(p.cause))
    && (p.Page? ==> |r.entries| == 5 && Describes(r.entries[0], p, va))
  }

  lemma LeafAgrees(c: Cursor, mem: Mem, i: nat, d: Req, w: nat, entries: seq<Word>, u: Word)
    requires Shaped(c) && 3 <= c.levels && c.readlevel == i && |entries| == 5 && 32 <= w <= 52 && d.pae && d.pse
    requires i <= 2 && (i == 2 ==> c.levels == 4) && u == c.entry[i] && Leaf(u, i) && Settled(u, c.levels, i, d, w)
    requires i == 0 ==> entries[0] == u
    ensures Agrees(Loop(c, mem, i, d, w, entries), Page(mem, PageAddr(u, c.curaddr, Size(i)), u, i), c.curaddr)
  {
    if i == 1 {
      Loop2M(c, mem, d, w, entries);
      Split2MExact(c.levels, u, c.curaddr);
    } else if i == 2 {
      Loop1G(c, mem, d, w, entries);
      var f := Split1G(u, c.curaddr);
      Split1GExact(u, c.curaddr);
      Split2MExact(4, f, c.curaddr);
      SameAttributes(SplitPde(4, f, c.curaddr), f, u);
    }
  }

  lemma SameAttributes(e: Word, f: Word, u: Word)
    requires e * (Bits(0, 6) + Bits(8, 11) + Bits(52, 63)) == f * (Bits(0, 6) + Bits(8, 11) + Bits(52, 63))
    requires f * (Bits(0, 20) + Bits(52, 63)) == u * (Bits(0, 20) + Bits(52, 63))
    ensures e * (Bits(0, 6) + Bits(8, 11) + Bits(52, 63)) == u * (Bits(0, 6) + Bits(8, 11) + Bits(52, 63))
    ensures LARGE_PAT in f <==> LARGE_PAT in u
  {
    forall b ensures b in f * (Bits(0, 6) + Bits(8, 11) + Bits(52, 63)) <==> b in u * (Bits(0, 6) + Bits(8, 11) + Bits(52, 63)) {
      assert b in f * (Bits(0, 20) + Bits(52, 63)) <==> b in u * (Bits(0, 20) + Bits(52, 63));
    }
    assert LARGE_PAT in f * (Bits(0, 20) + Bits(52, 63)) <==> LARGE_PAT in u * (Bits(0, 20) + Bits(52, 63));
  }

  /** A used entry still passes. */
  lemma UsedSettled(e: Word, levels: nat, l: nat, d: Req, w: nat)
    requires 3 <= levels <= 4 && 32 <= w <= 52 && l < levels && LevelOk(e, levels, l, d, w, true) && HasRights(levels, l)
    ensures LevelOk(Used(e, levels, l, d), levels, l, d, w, true) && A in Used(e, levels, l, d)
    ensures d.write && Leaf(e, l) ==> D in Used(e, levels, l, d)
    ensures forall b :: b != A && b != D ==> (b in Used(e, levels, l, d) <==> b in e)
  {
    var u := Used(e, levels, l, d);
    forall b | b in ArchReserved(levels, l, PS in u, d.nxe, w, true) ensures b !in u {
      assert b !in e * ArchReserved(levels, l, PS in e, d.nxe, w, true);
    }
  }

  /** The cursor and the memory after a level of a table let the access through. */
  ghost predicate Went(r: Cursor, m: Mem, c: Cursor, mem: Mem, i: nat, e: Word, d: Req)
    requires Shaped(c) && 1 <= i <= c.levels
  {
    var a := Cell(c.levels, c.entry[i], c.curaddr, i - 1);
    && Shaped(r) && r.levels == c.levels && r.curaddr == c.curaddr && r.readlevel == i - 1
    && r.entry[i - 1] == Used(e, c.levels, i - 1, d)
    && m == if HasRights(c.levels, i - 1) then mem[a := Used(e, c.levels, i - 1, d)] else mem
  }

  /** A turn of the loop on a real entry that lets the access through ... */
  lemma TablePasses(c: Cursor, mem: Mem, i: nat, d: Req, w: nat, entries: seq<Word>, e: Word)
    returns (r: Cursor, m: Mem, es: seq<Word>)
    requires Shaped(c) && 3 <= c.levels && 1 <= i == c.readlevel && |entries| == 5 && 32 <= w <= 52 && d.pae && d.pse
    requires P in c.entry[i] && !Large(c.entry[i], i) && e == Rd(mem, Cell(c.levels, c.entry[i], c.curaddr, i - 1))
    requires LevelOk(e, c.levels, i - 1, d, w, true)
    ensures Went(r, m, c, mem, i, e, d) && |es| == 5
    ensures if HasRights(c.levels, i - 1) then es[i - 1] == Used(e, c.levels, i - 1, d) else es[i - 1] == Simplify2(e, i, c.levels)
    ensures Loop(c, mem, i, d, w, entries) == Loop(r, m, i - 1, d, w, es)
  {
    AdExact(e, i, c.levels, d, w);
    var e1 := Simplify2(e, i, c.levels);
    var e3 := WithAd(e1, SetD(e1, i, d));
    r, m := MarkUsed(c, mem, i, d, e, e1, e3);
    es := entries[i - 1 := e3];
    TurnGoes(c, mem, i, d, w, entries, e, r, m);
  }

  lemma TurnGoes(c: Cursor, mem: Mem, i: nat, d: Req, w: nat, entries: seq<Word>, e: Word, r: Cursor, m: Mem)
    requires Shaped(c) && 3 <= c.levels && 1 <= i == c.readlevel && |entries| == 5 && 32 <= w <= 52 && d.pae && d.pse
    requires P in c.entry[i] && !Large(c.entry[i], i) && e == Rd(mem, Cell(c.levels, c.entry[i], c.curaddr, i - 1))
    requires LevelOk(e, c.levels, i - 1, d, w, true) && Shaped(r) && i - 1 <= r.readlevel
    requires var e1 := Simplify2(e, i, c.levels); var e3 := WithAd(e1, SetD(e1, i, d)); var q := Descend(c, mem).(curlevel := i - 1);
      if e3 == e1 then r == q && m == mem else var wr := Write(q, mem, e3, Bits(0, 11), true); r == wr.c && m == wr.mem
    ensures var e1 := Simplify2(e, i, c.levels);
      Loop(c, mem, i, d, w, entries) == Loop(r, m, i - 1, d, w, entries[i - 1 := WithAd(e1, SetD(e1, i, d))])
  {
    var e1 := Simplify2(e, i, c.levels);
    ReadTable(c, mem, i);
    CheckExact(e, i, c.levels, d, w);
    TurnIs(c, mem, i, d, w, entries, Descend(c, mem).(curlevel := i - 1), e);
    LoopGoes(c, mem, i, d, w, entries, r, m, entries[i - 1 := WithAd(e1, SetD(e1, i, d))]);
  }

  lemma TurnIs(c: Cursor, mem: Mem, i: nat, d: Req, w: nat, entries: seq<Word>, q: Cursor, e: Word)
    requires Shaped(c) && 1 <= i <= c.readlevel && |entries| == 5 && w > 0 && d.pse
    requires Read(c.(curlevel := i - 1), mem) == (q, e) && Shaped(q) && q.readlevel == i - 1 == q.curlevel < q.levels
    requires Check(e, Simplify2(e, i, c.levels), i, c.levels, d, w) == Ok
    ensures var e1 := Simplify2(e, i, c.levels); var e3 := WithAd(e1, SetD(e1, i, d));
      Turn(c, mem, i, d, w, entries) ==
        if e3 == e1 then Go(q, mem, entries[i - 1 := e3])
        else var wr := Write(q, mem, e3, Bits(0, 11), true); Go(wr.c, wr.mem, entries[i - 1 := e3])
  {
  }

  lemma {:induction false} LoopGoes(c: Cursor, mem: Mem, i: nat, d: Req, w: nat, entries: seq<Word>, r: Cursor, m: Mem, es: seq<Word>)
    requires Shaped(c) && 1 <= i <= c.readlevel && |entries| == 5 && w > 0 && Turn(c, mem, i, d, w, entries) == Go(r, m, es)
    ensures Shaped(r) && i - 1 <= r.readlevel && |es| == 5 && Loop(c, mem, i, d, w, entries) == Loop(r, m, i - 1, d, w, es)
  {
  }

  /** ... and on one that does not. */
  lemma TableStops(c: Cursor, mem: Mem, i: nat, d: Req, w: nat, entries: seq<Word>, q: Cursor, e: Word, o: Outcome)
    requires Shaped(c) && 1 <= i <= c.readlevel && |entries| == 5 && w > 0
    requires Read(c.(curlevel := i - 1), mem) == (q, e)
    requires o == Check(e, Simplify2(e, i, c.levels), i, c.levels, d, w) && o != Ok
    ensures Loop(c, mem, i, d, w, entries) == Result(o, mem, entries)
  {
  }

  /** The bits the loop adds are the ones the hardware adds. */
  lemma AdExact(e: Word, i: nat, levels: nat, d: Req, w: nat)
    requires 1 <= i <= levels && 3 <= levels && LevelOk(e, levels, i - 1, d, w, true)
    ensures var e1 := Simplify2(e, i, levels); var e3 := WithAd(e1, SetD(e1, i, d));
      && P in e && (if HasRights(levels, i - 1) then e1 == e && e3 == Used(e, levels, i - 1, d) else e3 == e1)
  {
    if !HasRights(levels, i - 1) {
      assert PS !in e * ArchReserved(3, 2, PS in e, d.nxe, w, true);
    }
  }

  /** What the turn leaves of the cursor and of memory. */
  lemma MarkUsed(c: Cursor, mem: Mem, i: nat, d: Req, e: Word, e1: Word, e3: Word) returns (r: Cursor, m: Mem)
    requires Shaped(c) && 3 <= c.levels && 1 <= i == c.readlevel
    requires e == Rd(mem, Cell(c.levels, c.entry[i], c.curaddr, i - 1)) && P in e
    requires if HasRights(c.levels, i - 1) then e1 == e && e3 == Used(e, c.levels, i - 1, d) else e3 == e1
    ensures var q := Descend(c, mem).(curlevel := i - 1);
      && Went(r, m, c, mem, i, e, d)
      && (if e3 == e1 then r == q && m == mem
          else var wr := Write(q, mem, e3, Bits(0, 11), true); !wr.fail && r == wr.c && m == wr.mem)
  {
    var a := Cell(c.levels, c.entry[i], c.curaddr, i - 1);
    r, m := Descend(c, mem).(curlevel := i - 1), mem;
    if e3 == e1 {
      assert mem[a := e] == mem;
    } else {
      AllAttributes(r, e3);
      r, m := r.(entry := r.entry[i - 1 := e3]), mem[a := e3];
    }
  }

  /** With every attribute in the mask the entry is stored as it is. */
  lemma AllAttributes(c: Cursor, e: Word)
    ensures Stored(c, e, Bits(0, 11)) == e
  {
  }

  /** In the three-level and four-level formats the loop does what the hardware does. */
  lemma {:induction false} LoopAgrees(c: Cursor, mem: Mem, i: nat, d: Req, w: nat, entries: seq<Word>)
    requires Shaped(c) && 3 <= c.levels && 1 <= i == c.readlevel && |entries| == 5 && 32 <= w <= 52 && d.pae && d.pse
    requires P in c.entry[i] && !Large(c.entry[i], i)
    ensures Agrees(Loop(c, mem, i, d, w, entries), ArchWalk(mem, c.levels, c.entry[i], i - 1, c.curaddr, d, w, true), c.curaddr)
    decreases i
  {
    var e := Rd(mem, Cell(c.levels, c.entry[i], c.curaddr, i - 1));
    if LevelOk(e, c.levels, i - 1, d, w, true) {
      var r, m, es := TablePasses(c, mem, i, d, w, entries, e);
      PassedOn(c, mem, i, d, w, e, r, m);
      if !Leaf(e, i - 1) { LoopAgrees(r, m, i - 1, d, w, es); }
      TurnAgrees(Loop(r, m, i - 1, d, w, es), c, mem, i, r, m, d, w, es);
    } else {
      StopHere(c, mem, i, d, w, entries, e);
    }
  }

  lemma StopHere(c: Cursor, mem: Mem, i: nat, d: Req, w: nat, entries: seq<Word>, e: Word)
    requires Shaped(c) && 3 <= c.levels && 1 <= i == c.readlevel && |entries| == 5 && 32 <= w <= 52 && d.pae && d.pse
    requires P in c.entry[i] && !Large(c.entry[i], i) && e == Rd(mem, Cell(c.levels, c.entry[i], c.curaddr, i - 1))
    requires !LevelOk(e, c.levels, i - 1, d, w, true)
    ensures var l := Loop(c, mem, i, d, w, entries);
      l.out != Ok && Agrees(l, ArchWalk(mem, c.levels, c.entry[i], i - 1, c.curaddr, d, w, true), c.curaddr)
  {
    ReadTable(c, mem, i);
    CheckExact(e, i, c.levels, d, w);
    StopAgrees(Result(Check(e, Simplify2(e, i, c.levels), i, c.levels, d, w), mem, entries), c, mem, i, d, w);
    TableStops(c, mem, i, d, w, entries, Descend(c, mem).(curlevel := i - 1), e,
               Check(e, Simplify2(e, i, c.levels), i, c.levels, d, w));
  }

  /** The walk succeeds only past an entry that lets the access through. */
  lemma PassesIfOk(c: Cursor, mem: Mem, i: nat, d: Req, w: nat, entries: seq<Word>, e: Word)
    requires Shaped(c) && 3 <= c.levels && 1 <= i == c.readlevel && |entries| == 5 && 32 <= w <= 52 && d.pae && d.pse
    requires P in c.entry[i] && !Large(c.entry[i], i) && e == Rd(mem, Cell(c.levels, c.entry[i], c.curaddr, i - 1))
    requires Loop(c, mem, i, d, w, entries).out == Ok
    ensures LevelOk(e, c.levels, i - 1, d, w, true)
  {
    if !LevelOk(e, c.levels, i - 1, d, w, true) { StopHere(c, mem, i, d, w, entries, e); }
  }

  lemma StopAgrees(l: Result, c: Cursor, mem: Mem, i: nat, d: Req, w: nat)
    requires Shaped(c) && 1 <= i <= c.levels && l.mem == mem
    requires var e := Rd(mem, Cell(c.levels, c.entry[i], c.curaddr, i - 1));
      !LevelOk(e, c.levels, i - 1, d, w, true) && l.out == Named(Why(e, c.levels, i - 1, d, w, true))
    ensures Agrees(l, ArchWalk(mem, c.levels, c.entry[i], i - 1, c.curaddr, d, w, true), c.curaddr)
  {
  }

  lemma TurnAgrees(l: Result, c: Cursor, mem: Mem, i: nat, r: Cursor, m: Mem, d: Req, w: nat, es: seq<Word>)
    requires Shaped(c) && 3 <= c.levels && 1 <= i == c.readlevel && |es| == 5 && 32 <= w <= 52 && d.pae && d.pse
    requires var e := Rd(mem, Cell(c.levels, c.entry[i], c.curaddr, i - 1));
      && LevelOk(e, c.levels, i - 1, d, w, true) && Went(r, m, c, mem, i, e, d)
      && (HasRights(c.levels, i - 1) ==> es[i - 1] == Used(e, c.levels, i - 1, d))
      && l == Loop(r, m, i - 1, d, w, es)
      && (!Leaf(e, i - 1) ==> i > 1 && Agrees(l, ArchWalk(m, c.levels, r.entry[i - 1], i - 2, c.curaddr, d, w, true), c.curaddr))
    ensures Agrees(l, ArchWalk(mem, c.levels, c.entry[i], i - 1, c.curaddr, d, w, true), c.curaddr)
  {
    var e := Rd(mem, Cell(c.levels, c.entry[i], c.curaddr, i - 1));
    ArchTurn(mem, c.levels, c.entry[i], i - 1, c.curaddr, d, w, true);
    if Leaf(e, i - 1) {
      PassedEntry(e, c.levels, i - 1, d, w);
      LeafAgrees(r, m, i - 1, d, w, es, r.entry[i - 1]);
    }
  }

  /** Below an entry that is not a leaf the walk can go on. */
  lemma PassedOn(c: Cursor, mem: Mem, i: nat, d: Req, w: nat, e: Word, r: Cursor, m: Mem)
    requires Shaped(c) && 3 <= c.levels && 1 <= i <= c.levels && 32 <= w <= 52 && LevelOk(e, c.levels, i - 1, d, w, true)
    requires Went(r, m, c, mem, i, e, d)
    ensures !Leaf(e, i - 1) ==> 1 <= i - 1 && P in r.entry[i - 1] && !Large(r.entry[i - 1], i - 1)
  {
    PassedEntry(e, c.levels, i - 1, d, w);
  }

  /** What is left of an entry that passed: a settled leaf, or a pointer to a table. */
  lemma PassedEntry(e: Word, levels: nat, l: nat, d: Req, w: nat)
    requires 3 <= levels <= 4 && 32 <= w <= 52 && l < levels && LevelOk(e, levels, l, d, w, true)
    ensures var u := Used(e, levels, l, d);
      && P in u && (Leaf(e, l) <==> Leaf(u, l))
      && (Leaf(e, l) ==> Settled(u, levels, l, d, w) && l <= 2 && (l == 2 ==> levels == 4) && HasRights(levels, l))
      && (!Leaf(e, l) ==> l > 0 && !Large(u, l))
  {
    if HasRights(levels, l) {
      UsedSettled(e, levels, l, d, w);
    } else {
      assert PS !in e * ArchReserved(3, 2, PS in e, d.nxe, w, true);
    }
  }

  /** One step of the hardware walk. */
  lemma ArchTurn(mem: Mem, levels: nat, up: Word, l: nat, va: Word, d: Req, w: nat, mbz8: bool)
    ensures var a := Cell(levels, up, va, l); var e := Rd(mem, a); var u := Used(e, levels, l, d);
      var m := if HasRights(levels, l) then mem[a := u] else mem;
      var p := ArchWalk(mem, levels, up, l, va, d, w, mbz8);
      if !LevelOk(e, levels, l, d, w, mbz8) then p == Fault(mem, l, Why(e, levels, l, d, w, mbz8))
      else if Leaf(e, l) then p == Page(m, PageAddr(u, va, Size(l)), u, l)
      else l > 0 && p == ArchWalk(m, levels, u, l - 1, va, d, w, mbz8)
  {
  }

  /** get_pte_sub with PAE or four-level paging: it succeeds exactly when the hardware would
      let the access through, entries[0] then describes the page, and memory has A and D
      exactly where the hardware sets them; no made-up entry is written back. */
  lemma GetPteAgrees(virt: Word, cr3: Word, d: Req, w: nat, mem: Mem)
    requires d.pg && (d.pae || d.lme) && 32 <= w <= 52 && Linear(Levels(d), virt)
    ensures Agrees(GetPte(virt, cr3, d, w, mem),
                   ArchWalk(mem, Levels(d), Root(cr3, d), Levels(d) - 1, virt, Mode(d), w, true), virt)
  {
    var c := Seek(Open(Root(cr3, d), Levels(d)), virt, Levels(d) + 1);
    var top := seq(5, l => if l == Levels(d) then Root(cr3, d) + {RW, US, A} else {});
    LoopAgrees(c, mem, Levels(d), Mode(d), w, top);
  }

  // ------------------------------------------------------------- bit 8

  /** Where the code is stricter than the SDM. */
  predicate Strict8(levels: nat, l: nat, e: Word) {
    levels == 4 && (l == 3 || (l == 2 && PS !in e))
  }

  /** No present entry above a page directory that the walk reads has bit 8 set. */
  predicate Bit8Clear(mem: Mem, levels: nat, up: Word, l: nat, va: Word, d: Req, w: nat)
    decreases l
  {
    var a := Cell(levels, up, va, l);
    var e := Rd(mem, a);
    && (P in e && Strict8(levels, l, e) ==> 8 !in e)
    && (LevelOk(e, levels, l, d, w, false) && !Leaf(e, l) ==>
          var u := Used(e, levels, l, d);
          Bit8Clear(if HasRights(levels, l) then mem[a := u] else mem, levels, u, l - 1, va, d, w))
  }

  lemma Level8(e: Word, levels: nat, l: nat, d: Req, w: nat)
    requires 3 <= levels <= 4 && l < levels && 32 <= w <= 52
    ensures LevelOk(e, levels, l, d, w, true) <==> LevelOk(e, levels, l, d, w, false) && (Strict8(levels, l, e) ==> 8 !in e)
    ensures Why(e, levels, l, d, w, true) == if P in e && Strict8(levels, l, e) && 8 in e then ReservedBit else Why(e, levels, l, d, w, false)
  {
    var r, s := ArchReserved(levels, l, PS in e, d.nxe, w, false), ArchReserved(levels, l, PS in e, d.nxe, w, true);
    assert s == r + (if Strict8(levels, l, e) then {8} else {});
    if Strict8(levels, l, e) { assert 8 in e * s <==> 8 in e; }
    assert e * s == e * r + e * (if Strict8(levels, l, e) then {8} else {});
  }

  lemma {:induction false} Strictness(mem: Mem, levels: nat, up: Word, l: nat, va: Word, d: Req, w: nat)
    requires 3 <= levels <= 4 && l < levels && 32 <= w <= 52
    ensures if Bit8Clear(mem, levels, up, l, va, d, w)
      then ArchWalk(mem, levels, up, l, va, d, w, true) == ArchWalk(mem, levels, up, l, va, d, w, false)
      else ArchWalk(mem, levels, up, l, va, d, w, true).Fault? && ArchWalk(mem, levels, up, l, va, d, w, true).cause == ReservedBit
    decreases l
  {
    var a := Cell(levels, up, va, l);
    var e := Rd(mem, a);
    Level8(e, levels, l, d, w);
    if LevelOk(e, levels, l, d, w, true) && !Leaf(e, l) {
      var u := Used(e, levels, l, d);
      Strictness(if HasRights(levels, l) then mem[a := u] else mem, levels, u, l - 1, va, d, w);
    }
  }

  /** With PAE or four-level paging get_pte_sub succeeds if and only if the walk of the SDM
      does and bit 8 is clear in the PML4E and in a PDPTE that points at a page directory.  With
      bit 8 clear it names the cause for which the first entry stops the walk; otherwise it reports
      a reserved bit. */
  lemma SucceedsIff(virt: Word, cr3: Word, d: Req, w: nat, mem: Mem)
    requires d.pg && (d.pae || d.lme) && 32 <= w <= 52 && Linear(Levels(d), virt)
    ensures var n := Levels(d); var p := ArchWalk(mem, n, Root(cr3, d), n - 1, virt, Mode(d), w, false);
      && (GetPte(virt, cr3, d, w, mem).out == Ok <==> p.Page? && Bit8Clear(mem, n, Root(cr3, d), n - 1, virt, Mode(d), w))
      && (if Bit8Clear(mem, n, Root(cr3, d), n - 1, virt, Mode(d), w) then Agrees(GetPte(virt, cr3, d, w, mem), p, virt)
          else GetPte(virt, cr3, d, w, mem).out == BadReserved)
  {
    GetPteAgrees(virt, cr3, d, w, mem);
    Strictness(mem, Levels(d), Root(cr3, d), Levels(d) - 1, virt, Mode(d), w);
  }

  // ------------------------------------------------------------- two levels

  /** The page directory entry of virt with two levels. */
  function Pde(virt: Word, cr3: Word, mem: Mem): Word {
    Cut(2, Rd(mem, Cell(2, RootGuest(cr3, 2), virt, 1)))
  }

  /** Without CR4.PSE the PS bit is dropped from the copy of the PDE only: this is the PDE for
      which the walk then tries to write back a PTE that it made up. */
  predicate Trap(e: Word, d: Req) {
    && !d.pse && d.write && P in e && A in e && PS in e && D !in e
    && (d.user ==> US in e) && (d.wp || d.user ==> RW in e)
  }

  /** The assertion in pmap_write fails exactly there. */
  lemma AssertIff(virt: Word, cr3: Word, d: Req, w: nat, mem: Mem)
    requires 32 <= w <= 52 && Linear(Levels(d), virt)
    ensures GetPte(virt, cr3, d, w, mem).out == AssertFailed <==>
      d.pg && !d.pae && !d.lme && Trap(Pde(virt, cr3, mem), d)
  {
    if d.pg && (d.pae || d.lme) {
      GetPteAgrees(virt, cr3, d, w, mem);
    } else if d.pg {
      var root := Root(cr3, d);
      var c := Seek(Open(root, 2), virt, 3);
      var top := seq(5, l => if l == 2 then root + {RW, US, A} else {});
      assert c.readlevel == 2 && c.entry[2] == root && PS !in root;
      TwoLevels(c, mem, d, w, top);
    }
  }

  lemma TwoLevels(c: Cursor, mem: Mem, d: Req, w: nat, entries: seq<Word>)
    requires Shaped(c) && c.levels == 2 && c.readlevel == 2 && P in c.entry[2] && PS !in c.entry[2]
    requires |entries| == 5 && w > 0 && !d.pae && !d.lme
    ensures Loop(c, mem, 2, d, w, entries).out == AssertFailed <==>
      Trap(Cut(2, Rd(mem, Cell(2, c.entry[2], c.curaddr, 1))), d)
  {
    ReadTable(c, mem, 2);
    var e := Cut(2, Rd(mem, Cell(2, c.entry[2], c.curaddr, 1)));
    var q := Descend(c, mem).(curlevel := 1);
    assert NX !in e;
    if Check(e, e, 2, 2, d, w) == Ok {
      var e2 := Simplify3(e, 2, d);
      var e3 := WithAd(e2, SetD(e2, 2, d));
      if e3 == e2 {
        LastLevel(q, mem, d, w, entries[1 := e2]);
      } else {
        var wr := Write(q, mem, e3, Bits(0, 11), true);
        AllAttributes(q, e3);
        assert wr.c.entry[1] == e3;
        LastLevel(wr.c, wr.mem, d, w, entries[1 := e3]);
      }
    }
  }

  /** The page table level: made up when the directory entry held in the cursor has PS. */
  lemma LastLevel(c: Cursor, mem: Mem, d: Req, w: nat, entries: seq<Word>)
    requires Shaped(c) && c.levels == 2 && c.readlevel == 1 && P in c.entry[1] && |entries| == 5 && w > 0
    requires NX !in c.entry[1] && A in c.entry[1]
    requires Check(c.entry[1], c.entry[1], 2, 2, d, w) == Ok && !d.pae
    requires d.pse && PS in c.entry[1] && d.write ==> D in c.entry[1]
    ensures Loop(c, mem, 1, d, w, entries).out == AssertFailed <==> PS in c.entry[1] && d.write && D !in c.entry[1]
  {
    if PS in c.entry[1] {
      var e := SplitPde(2, c.entry[1], c.curaddr);
      assert P in e && A in e && (D in e <==> D in c.entry[1]) && (US in e <==> US in c.entry[1]);
      assert Read(c.(curlevel := 0), mem) == (c.(curlevel := 0), e);
    } else {
      ReadTable(c, mem, 1);
    }
  }

  /** A case: a supervisor write through a PDE with PS that is accessed but not dirty. */
  lemma AssertCase()
    ensures GetPte({}, {}, Req(true, true, false, false, false, false, false, true, false, false), 36, map[{} := {P, RW, US, A, PS}]).out
      == AssertFailed
  {
    var d := Req(true, true, false, false, false, false, false, true, false, false);
    var mem: Mem := map[{} := {P, RW, US, A, PS}];
    assert Cell(2, RootGuest({}, 2), {}, 1) == {};
    assert Cut(2, {P, RW, US, A, PS}) == {P, RW, US, A, PS};
    AssertIff({}, {}, d, 36, mem);
  }

  /** A case of the stricter bit 8: four levels whose one table maps itself, with bit 8 set. The
      SDM lets a supervisor read through, get_pte_sub reports a reserved bit. */
  lemma Bit8Case()
    ensures var d := Req(true, true, false, true, false, true, true, false, false, false); var mem: Mem := map[{} := {P, RW, US, A, 8}];
      && ArchWalk(mem, 4, Root({}, d), 3, {}, Mode(d), 36, false).Page? && GetPte({}, {}, d, 36, mem).out != Ok
  {
    var d := Req(true, true, false, true, false, true, true, false, false, false);
    var e: Word := {P, RW, US, A, 8};
    var mem: Mem := map[{} := e];
    SelfMapped(mem, e, Root({}, d), 3, Mode(d));
    assert 8 in Rd(mem, Cell(4, Root({}, d), {}, 3));
    SucceedsIff({}, {}, d, 36, mem);
  }

  lemma {:induction false} SelfMapped(mem: Mem, e: Word, up: Word, l: nat, d: Req)
    requires e == {P, RW, US, A, 8} && mem == map[{} := e] && l <= 3 && up * Bits(12, 63) == {} && d.nxe && !d.write && !d.user && !d.exec
    ensures Cell(4, up, {}, l) == {} && LevelOk(e, 4, l, d, 36, false) && ArchWalk(mem, 4, up, l, {}, d, 36, false).Page?
    decreases l
  {
    assert Cell(4, up, {}, l) == {};
    assert e * ArchReserved(4, l, false, true, 36, false) == {};
    assert Used(e, 4, l, d) == e && mem[{} := e] == mem;
    if l > 0 { SelfMapped(mem, e, e, l - 1, d); }
  }

  // ------------------------------------------------------------- as written

  /** An entry just read is still in memory: the write back fails, and the level is retried,
      only when another processor has changed it in between. */
  lemma NoRetry(c: Cursor, mem: Mem, i: nat, e: Word)
    requires Shaped(c) && 1 <= i <= c.readlevel && Read(c.(curlevel := i - 1), mem).0.readlevel <= i - 1
    ensures var r := Read(c.(curlevel := i - 1), mem).0;
      Shaped(r) && r.readlevel <= r.curlevel < r.levels && !Write(r, mem, e, Bits(0, 11), true).fail
  {
    ReadExact(c.(curlevel := i - 1), mem);
    var r := Read(c.(curlevel := i - 1), mem).0;
    assert FitsAt(r, mem, i - 1);
    assert Cut(c.levels, r.entry[i - 1]) == r.entry[i - 1];
  }

  /** get_pte_sub */
  method GetPteSub(virt: Word, cr3: Word, d0: Req, w: nat, mem0: Mem) returns (r: Result, levels: nat)
    requires w > 0 && Linear(Levels(d0), virt)
    ensures r == GetPte(virt, cr3, d0, w, mem0) && levels == if d0.pg then Levels(d0) else 1
    ensures d0.pg && (d0.pae || d0.lme) && 32 <= w <= 52 ==>
      Agrees(r, ArchWalk(mem0, Levels(d0), Root(cr3, d0), Levels(d0) - 1, virt, Mode(d0), w, true), virt)
  {
    if !d0.pg {
      return Result(Ok, mem0, [virt * Bits(12, w - 1) + {P, RW, US, A, D}, {P, RW, US, A, D, PS}, {}, {}, {}]), 1;
    }
    var d := d0;
    if d.lme {
      d := d.(pae := true, pse := true);
      levels := 4;
    } else if d.pae {
      d := d.(pse := true);
      levels := 3;
    } else {
      levels := 2;
    }
    var root := RootGuest(if levels == 4 && d.pcide then cr3 - Bits(0, 11) else cr3, levels);
    var m := Seek(Open(root, levels), virt, levels + 1);
    var mem, entries := mem0, seq(5, l => if l == levels then root + {RW, US, A} else {});
    assert GetPte(virt, cr3, d0, w, mem0) == Loop(m, mem, levels, d, w, entries);
    r := WalkLevels(m, mem, levels, d, w, entries);
    if (d0.pae || d0.lme) && 32 <= w <= 52 { GetPteAgrees(virt, cr3, d0, w, mem0); }
  }

  /** The loop over the levels, from level n down. */
  method WalkLevels(m0: Cursor, mem0: Mem, n: nat, d: Req, w: nat, entries0: seq<Word>) returns (r: Result)
    requires Shaped(m0) && n <= m0.readlevel && |entries0| == 5 && w > 0
    ensures r == Loop(m0, mem0, n, d, w, entries0)
  {
    var m, mem, entries, i := m0, mem0, entries0, n;
    while i > 0
      invariant 0 <= i <= n && Shaped(m) && i <= m.readlevel && |entries| == 5
      invariant Loop(m, mem, i, d, w, entries) == Loop(m0, mem0, n, d, w, entries0)
    {
      var t := WalkLevel(m, mem, i, d, w, entries);
      if t.Stop? { return t.r; }
      m, mem, entries, i := t.c, t.mem, t.entries, i - 1;
    }
    r := Result(Ok, mem, entries);
  }

  /** The body of the loop. */
  method WalkLevel(m: Cursor, mem: Mem, i: nat, d: Req, w: nat, entries: seq<Word>) returns (t: Turned)
    requires Shaped(m) && 1 <= i <= m.readlevel && |entries| == 5 && w > 0
    ensures t == Turn(m, mem, i, d, w, entries)
  {
    ReadExact(m.(curlevel := i - 1), mem);
    var (q, e0) := Read(m.(curlevel := i - 1), mem);
    var e := Simplify2(e0, i, m.levels);
    var o := Check(e0, e, i, m.levels, d, w);
    if o != Ok { return Stop(Result(o, mem, entries)); }
    e := Simplify3(e, i, d);
    var f := WithAd(e, SetD(e, i, d));
    if f == e { return Go(q, mem, entries[i - 1 := e]); }
    if q.readlevel > i - 1 { return Stop(Result(AssertFailed, mem, entries)); }
    var wr := Write(q, mem, f, Bits(0, 11), true);
    t := Go(wr.c, wr.mem, entries[i - 1 := f]);
  }
}
