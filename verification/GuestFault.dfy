/** The page fault that cpu_mmu_spt_pagefault (cpu_mmu_spt.c) gives the guest when its tables do not
    let an access through, against the error code of section 4.7 of the Intel SDM, volume 3A. */
module GuestFault {
  import opened Lists
  import opened Words
  import opened PageCursor
  import opened GuestWalk

  // Bits of the error code; P is bit 0.
  const WR: nat := 1
  const USER: nat := 2
  const RSVD: nat := 3
  const ID: nat := 4

  /** The access that faulted. */
  function Access(err: Word, d: Req): Req {
    d.(write := WR in err, user := USER in err, exec := ID in err)
  }

  /** generate_pf_nopage, generate_pf_reserved, generate_pf_noaccess, generate_pf_noexec */
  function Injected(err: Word, o: Outcome): Word {
    match o
    case NotPresent => err - {P}
    case BadReserved => err + {P, RSVD}
    case NotAccessible => err + {P}
    case NotExecutable => err + {P, ID}
    case Ok => err
    case AssertFailed => err
  }

  // ------------------------------------------------------------- the architecture

  /** The access without its demands on rights: it is stopped only where there is no translation. */
  function Bare(d: Req): Req {
    d.(write := false, user := false, exec := false)
  }

  /** Why the access faults: rights are looked at only if there is a translation. */
  function SdmCause(mem: Mem, levels: nat, up: Word, l: nat, va: Word, d: Req, w: nat): Option<Cause> {
    var s := ArchWalk(mem, levels, up, l, va, Bare(d), w, false);
    var p := ArchWalk(mem, levels, up, l, va, d, w, false);
    if s.Fault? then Some(s.cause) else if p.Fault? then Some(p.cause) else None
  }

  /** P is clear iff an entry is not present, RSVD is set iff a reserved bit is; the other bits
      describe the access. */
  ghost predicate SdmError(code: Word, err: Word, c: Cause) {
    && (P in code <==> c != Absent) && (RSVD in code <==> c == ReservedBit)
    && forall b :: b != P && b != RSVD ==> (b in code <==> b in err)
  }

  /** An entry that the walk reaches refuses the access, and one below it is not present or has a
      reserved bit. */
  predicate RefusedAbove(mem: Mem, levels: nat, up: Word, l: nat, va: Word, d: Req, w: nat)
    decreases l
  {
    var a := Cell(levels, up, va, l);
    var e := Rd(mem, a);
    LevelOk(e, levels, l, Bare(d), w, false) && !Leaf(e, l) &&
    var u := Used(e, levels, l, d);
    var m := if HasRights(levels, l) then mem[a := u] else mem;
    if LevelOk(e, levels, l, d, w, false) then RefusedAbove(m, levels, u, l - 1, va, d, w)
    else ArchWalk(m, levels, u, l - 1, va, Bare(d), w, false).Fault?
  }

  // ------------------------------------------------------------- the order of the checks

  lemma BareLevel(e: Word, levels: nat, l: nat, d: Req, w: nat)
    ensures LevelOk(e, levels, l, d, w, false) ==> LevelOk(e, levels, l, Bare(d), w, false)
    ensures !LevelOk(e, levels, l, Bare(d), w, false) ==>
      var c := Why(e, levels, l, d, w, false); (c == Absent || c == ReservedBit) && c == Why(e, levels, l, Bare(d), w, false)
    ensures LevelOk(e, levels, l, Bare(d), w, false) && !LevelOk(e, levels, l, d, w, false) ==>
      var c := Why(e, levels, l, d, w, false); c == Refused || (c == NoFetch && d.exec)
    ensures !Leaf(e, l) ==> Used(e, levels, l, Bare(d)) == Used(e, levels, l, d)
  {
  }

  /** How the walk ends for the access and without its demands. */
  ghost predicate Together(p: Arch, s: Arch, early: bool, d: Req) {
    && (p.Page? ==> s.Page? && !early)
    && (p.Fault? && (p.cause == Absent || p.cause == ReservedBit) ==> s.Fault? && s.cause == p.cause && !early)
    && (p.Fault? && (p.cause == Refused || p.cause == NoFetch) ==> (early <==> s.Fault?))
    && (p.Fault? && p.cause == NoFetch ==> d.exec)
    && (s.Fault? ==> s.cause == Absent || s.cause == ReservedBit)
  }

  /** One step of the walk, with any demands. */
  lemma WalkStep(mem: Mem, levels: nat, up: Word, l: nat, va: Word, d: Req, w: nat, e: Word, u: Word, m: Mem)
    requires e == Rd(mem, Cell(levels, up, va, l)) && (!Leaf(e, l) ==> u == Used(e, levels, l, d))
    requires m == if HasRights(levels, l) then mem[Cell(levels, up, va, l) := u] else mem
    ensures var p := ArchWalk(mem, levels, up, l, va, d, w, false);
      if !LevelOk(e, levels, l, d, w, false) then p == Fault(mem, l, Why(e, levels, l, d, w, false))
      else if Leaf(e, l) then p.Page? else l > 0 && p == ArchWalk(m, levels, u, l - 1, va, d, w, false)
  {
  }

  lemma {:induction false} BareFaults(mem: Mem, levels: nat, up: Word, l: nat, va: Word, d: Req, w: nat)
    requires d == Bare(d)
    ensures var s := ArchWalk(mem, levels, up, l, va, d, w, false); s.Fault? ==> s.cause == Absent || s.cause == ReservedBit
    decreases l
  {
    var e := Rd(mem, Cell(levels, up, va, l));
    var u := Used(e, levels, l, d);
    var m := if HasRights(levels, l) then mem[Cell(levels, up, va, l) := u] else mem;
    WalkStep(mem, levels, up, l, va, d, w, e, u, m);
    BareLevel(e, levels, l, d, w);
    if !Leaf(e, l) { BareFaults(m, levels, u, l - 1, va, d, w); }
  }

  lemma {:induction false} WalksTogether(mem: Mem, levels: nat, up: Word, l: nat, va: Word, d: Req, w: nat)
    ensures Together(ArchWalk(mem, levels, up, l, va, d, w, false), ArchWalk(mem, levels, up, l, va, Bare(d), w, false),
                     RefusedAbove(mem, levels, up, l, va, d, w), d)
    decreases l
  {
    var e := Rd(mem, Cell(levels, up, va, l));
    var u := Used(e, levels, l, d);
    var m := if HasRights(levels, l) then mem[Cell(levels, up, va, l) := u] else mem;
    BareLevel(e, levels, l, d, w);
    WalkStep(mem, levels, up, l, va, d, w, e, u, m);
    WalkStep(mem, levels, up, l, va, Bare(d), w, e, u, m);
    BareFaults(mem, levels, up, l, va, Bare(d), w);
    if !Leaf(e, l) { WalksTogether(m, levels, u, l - 1, va, d, w); }
  }

  /** With PAE or four-level paging, bit 8 clear where the code wants it so: the guest gets the error
      code of the SDM if and only if no entry refuses the access above one that is not present or has
      a reserved bit.  The code checks the rights of each level before it reads the next. */
  lemma ErrorIff(virt: Word, cr3: Word, d: Req, w: nat, mem: Mem, err: Word)
    requires d.pg && (d.pae || d.lme) && 32 <= w <= 52 && Linear(Levels(d), virt) && d == Access(err, d) && RSVD !in err
    requires var n := Levels(d); Bit8Clear(mem, n, Root(cr3, d), n - 1, virt, Mode(d), w)
    ensures var n := Levels(d); var o := GetPte(virt, cr3, d, w, mem).out;
      var c := SdmCause(mem, n, Root(cr3, d), n - 1, virt, Mode(d), w);
      && (o == Ok <==> c == None)
      && (o != Ok ==> (SdmError(Injected(err, o), err, c.value) <==> !RefusedAbove(mem, n, Root(cr3, d), n - 1, virt, Mode(d), w)))
  {
    var n := Levels(d);
    SucceedsIff(virt, cr3, d, w, mem);
    WalksTogether(mem, n, Root(cr3, d), n - 1, virt, Mode(d), w);
    var p := ArchWalk(mem, n, Root(cr3, d), n - 1, virt, Mode(d), w, false);
    if p.Fault? { InjectedIs(err, p.cause); }
  }

  lemma InjectedIs(err: Word, c: Cause)
    requires RSVD !in err && (c == NoFetch ==> ID in err)
    ensures SdmError(Injected(err, Named(c)), err, c)
    ensures forall x :: SdmError(Injected(err, Named(c)), err, x) <==> ((x == Absent) == (c == Absent) && (x == ReservedBit) == (c == ReservedBit))
  {
  }

  /** A case: a user read through a PML4E for the supervisor that points at an empty table.  The SDM
      reports that the page is not present, the guest is given a protection fault. */
  lemma EarlyRefusal()
    ensures var d := Req(true, true, false, true, false, true, true, false, true, false); var err: Word := {USER};
      var mem: Mem := map[{} := {P, RW, A, 12}];
      && SdmCause(mem, 4, Root({}, d), 3, {}, Mode(d), 36) == Some(Absent)
      && GetPte({}, {}, d, 36, mem).out == NotAccessible && P in Injected(err, NotAccessible)
  {
    var d := Req(true, true, false, true, false, true, true, false, true, false);
    var e: Word := {P, RW, A, 12};
    var mem: Mem := map[{} := e];
    EarlyCause(mem, e, Root({}, d), Mode(d));
    assert 8 !in Rd(mem, Cell(4, Root({}, d), {}, 3));
    SucceedsIff({}, {}, d, 36, mem);
  }

  lemma EarlyCause(mem: Mem, e: Word, up: Word, d: Req)
    requires e == {P, RW, A, 12} && mem == map[{} := e] && up * Words.Bits(12, 63) == {} && d.nxe && d.user && !d.write && !d.exec
    ensures Cell(4, up, {}, 3) == {} && SdmCause(mem, 4, up, 3, {}, d, 36) == Some(Absent)
    ensures var p := ArchWalk(mem, 4, up, 3, {}, d, 36, false); p.Fault? && p.cause == Refused
    ensures !LevelOk(e, 4, 3, d, 36, false)
  {
    assert Cell(4, up, {}, 3) == {};
    assert e * ArchReserved(4, 3, false, true, 36, false) == {};
    assert Used(e, 4, 3, Bare(d)) == e && mem[{} := e] == mem;
    assert 12 in Cell(4, e, {}, 2);
    WalkStep(mem, 4, up, 3, {}, Bare(d), 36, e, e, mem);
    WalkStep(mem, 4, e, 2, {}, Bare(d), 36, {}, {A}, mem[Cell(4, e, {}, 2) := {A}]);
    WalkStep(mem, 4, up, 3, {}, d, 36, e, e, mem);
  }
}
