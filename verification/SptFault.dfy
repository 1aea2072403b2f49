/** map_page, the step that handles a shadow page fault (cpu_mmu_spt.c, SPT_3). */
module SptFault {
  import opened Lists
  import opened Tables
  import opened LazyClear
  import opened ShadowCache
  import opened RwMap
  import opened BackRefs
  import opened Spt3
  import opened SptMap
  import opened SptUpper

  /** struct map_page_data1 */
  datatype Access = Access(write: bool, user: bool, pwt: bool, pcd: bool, pat: bool)

  /** What the guest walk found: gfns[0..2] (None is GFN_GLOBAL or GFN_UNUSED, a large
      page), the accumulated permissions m2[0..2], and the number of guest levels. */
  datatype Guest = Guest(gfn0: nat, gfn1: Option<nat>, gfn2: Option<nat>, m0: Perm, m1: Perm, m2: Perm, glvl: nat)

  datatype PanicAt = GlvlError | Mapsub1 | Mapsub2 | Setpdpe1 | WritingVmm

  datatype Outcome = Mapped(m: seq<Spt>) | Panic(at: PanicAt)

  // ------------------------------------------------------------- keys

  /** KEY_LPMASK and KEY_LP2MASK drop 9 and 18 bits of the frame number. */
  function LargeKey(gfn: nat, span: nat): Key
    requires span > 0
  {
    Key(gfn - gfn % span, 0, 0, true, false, false, false, false)
  }

  function TableKey(gfn: nat, to3: nat, glvl: nat): Key {
    Key(gfn, to3, glvl, false, false, false, false, false)
  }

  function Key1(g: Guest, v: nat): Key {
    if g.glvl == 1 || g.gfn1.None? then LargeKey(g.gfn0, 0x200)
    else if g.glvl == 2 then TableKey(g.gfn1.value, v / 0x20_0000 % 2, 2)
    else TableKey(g.gfn1.value, 0, 3)
  }

  function Key2(g: Guest, v: nat): Key {
    if g.glvl == 1 || g.gfn2.None? then LargeKey(g.gfn0, 0x4_0000)
    else if g.glvl == 2 then TableKey(g.gfn2.value, v / 0x4000_0000 % 4, 2)
    else TableKey(g.gfn2.value, 0, 3)
  }

  /** CR0.WP = 0: kernel writes to read-only pages are emulated by supervisor mappings. */
  function NoWp(p: Perm, a: Access): Perm {
    var us := p.us && !(!a.user && a.write && !p.rw);
    Perm(p.rw || !us, us, p.nx)
  }

  function Perm0(s: Spt, g: Guest, a: Access): Perm { if s.wp then g.m0 else NoWp(g.m0, a) }
  function Perm1(s: Spt, g: Guest, a: Access): Perm { if s.wp then g.m1 else NoWp(g.m1, a) }

  function KeyPd(s: Spt, g: Guest, v: nat): Key {
    var k := Key2(g, v).(wp0 := !s.wp);
    if g.glvl >= 2 then k.(nx := g.m2.nx, us0 := !g.m2.us, rw0 := !g.m2.rw) else k
  }

  function KeyPt(s: Spt, g: Guest, v: nat): Key {
    Key1(g, v).(wp0 := !s.wp)
  }

  // ------------------------------------------------------------- the PTE

  /** The PTE that map_page wants; pmap_write adds the accessed bit. */
  function NewPte(p: Perm, a: Access, h: nat, rom: bool): Pte {
    Pte(h, p.rw && !rom, p.us, p.nx, a.write, true, a.pwt, a.pcd, a.pat)
  }

  /** equal up to A and D */
  predicate SameButAD(x: Pte, y: Pte) {
    x.Pte? && y.Pte? && x.(acc := true, dirty := true) == y.(acc := true, dirty := true)
  }

  function MarkBoth(s: Spt, g: nat, gmm: Gmm): Spt
    requires Core(s, gmm)
  {
    s.(c1 := MarkAll(s.c1, g), c2 := MarkAll(s.c2, g))
  }

  function SptShadows(s: Spt, g: nat, gmm: Gmm): bool
    requires Core(s, gmm)
  {
    AnyNormal(s.c1, s.c1.hash[g % |s.c1.hash|], g) || AnyNormal(s.c2, s.c2.hash[g % |s.c2.hash|], g)
  }

  /** update_shadow */
  function UpdateShadow(m: seq<Spt>, c: nat, g: nat, y: Ptr, needrw: bool, gmm: Gmm): seq<Spt>
    requires c < |m| && AllCore(m, gmm) && InPages(m[c].c1.page, y)
  {
    if needrw then
      seq(|m|, t requires 0 <= t < |m| => MarkBoth(m[t], g, gmm))
    else if exists t :: 0 <= t < |m| && SptShadows(m[t], g, gmm) then
      var f := Forget(m[c].c1.page, m[c].rw, g, y);
      m[c := m[c].(c1 := m[c].c1.(page := f.0), rw := f.1)]
    else m
  }

  /** The last part of map_page: write the PTE at y, register it, settle with the shadows. */
  function SetPte(m: seq<Spt>, c: nat, y: Ptr, g: nat, p: Perm, a: Access, gmm: Gmm): seq<Spt>
    requires c < |m| && Good(m, c, gmm) && GmmOk(gmm)
    requires InPages(m[c].c1.page, y) && Recorded(m[c].c1.clear[y.slot], y.idx)
  {
    var pte := NewPte(p, a, gmm.hp(g), gmm.rom(g));
    if SameButAD(Rd(m[c].c1.page, y), pte) then m
    else
      WrPteCore(m[c], y, pte, gmm);
      if !pte.rw then m[c := WrPte(m[c], y, pte)]
      else
        var s := Registered(m[c], y, g, pte, gmm);
        RegisterCore(m[c], y, g, pte, gmm);
        UpdateShadow(m[c := s], c, g, y, a.write, gmm)
  }

  function WrPte(s: Spt, y: Ptr, e: Pte): Spt
    requires InPages(s.c1.page, y)
  {
    s.(c1 := s.c1.(page := Wr(s.c1.page, y, e)))
  }

  lemma WrPteCore(s: Spt, y: Ptr, e: Pte, gmm: Gmm)
    requires Core(s, gmm) && InPages(s.c1.page, y) && Recorded(s.c1.clear[y.slot], y.idx)
    ensures Core(WrPte(s, y, e), gmm) && SameStatus(s.c1, WrPte(s, y, e).c1)
  {
    WriteEntrySound(s.c1, y.slot, y.idx, e, Zero);
    assert WrPte(s, y, e).c1 == WriteEntry(s.c1, y.slot, y.idx, e);
    CoreC1(s, WrPte(s, y, e).c1, gmm);
  }

  /** After update_rwmap the new PTE and all others are registered again. */
  lemma RegisterCore(s: Spt, y: Ptr, g: nat, e: Pte, gmm: Gmm)
    requires Core(s, gmm) && InPages(s.c1.page, y) && Recorded(s.c1.clear[y.slot], y.idx) && Reg(s.c1.page, s.rw)
    requires e.Pte? && e.addr == gmm.hp(g) && !gmm.rom(g)
    ensures Core(WrPte(s, y, e), gmm)
    ensures var q := WrPte(s, y, e); var r := Registered(s, y, g, e, gmm);
      && Core(r, gmm) && Reg(r.c1.page, r.rw) && SameStatus(s.c1, r.c1) && Weaker(r.c1.page, q.c1.page)
      && r == s.(c1 := s.c1.(page := r.c1.page), rw := r.rw)
  {
    WrPteCore(s, y, e, gmm);
    var q := WrPte(s, y, e);
    WrittenReg(s.c1.page, s.rw, y, e);
    UpdateSound(q.c1.page, q.rw, g, y, gmm.hp(g), gmm);
    var u := Update(q.c1.page, q.rw, g, y, gmm.hp(g), gmm);
    WeakerCore(q, u.page, u.rw, gmm);
  }

  lemma WrittenReg(page: Pages, rw: Rwmap, y: Ptr, e: Pte)
    requires |rw.gfn| == |rw.pte| == |rw.hphys| && InPages(page, y) && Reg(page, rw)
    ensures RegEx(Wr(page, y, e), rw, y)
    ensures !Writable(e) ==> Reg(Wr(page, y, e), rw)
  {
    var r := Wr(page, y, e);
    forall z | InPages(r, z) && (z != y || !Writable(e)) && Writable(Rd(r, z))
      ensures exists i :: RegBy(rw, i, z, Rd(r, z).addr)
    {
      assert Rd(r, z) == Rd(page, z);
    }
  }

  /** The writers after SetPte, other than y, were writers before. */
  lemma WritersBut(r: Pages, q: Pages, page: Pages, y: Ptr, e: Pte)
    requires InPages(page, y) && q == Wr(page, y, e) && Weaker(r, q)
    requires !Writable(Rd(r, y))
    ensures FewerWriters(r, page)
  {
    forall h | NoWriters(page, h) ensures NoWriters(r, h) {
      forall z | InPages(r, z) && Writable(Rd(r, z)) ensures Addr(Rd(r, z)) != h {
        assert LessPerm(Rd(r, z), Rd(q, z));
        assert z != y && Rd(q, z) == Rd(page, z);
      }
    }
  }

  /** Writing a PTE for frame h adds writers of h only. */
  lemma WritersOf(r: Pages, q: Pages, page: Pages, y: Ptr, e: Pte, h: nat)
    requires InPages(page, y) && q == Wr(page, y, e) && Weaker(r, q) && Addr(e) != h && NoWriters(page, h)
    ensures NoWriters(r, h)
  {
    forall z | InPages(r, z) && Writable(Rd(r, z)) ensures Addr(Rd(r, z)) != h {
      assert LessPerm(Rd(r, z), Rd(q, z));
      if z != y { assert Rd(q, z) == Rd(page, z); }
    }
  }

  lemma MarkBothSound(s: Spt, g: nat, gmm: Gmm)
    requires Core(s, gmm)
    ensures var r := MarkBoth(s, g, gmm);
      && Core(r, gmm) && r == s.(c1 := r.c1, c2 := r.c2) && r.c1.page == s.c1.page && r.c2.page == s.c2.page
      && Demoted(r.c1, s.c1) && Demoted(r.c2, s.c2) && !Shadows(r, g)
      && (TopOk(s) ==> TopOk(r))
  {
    MarkAllSound(s.c1, g, Zero);
    MarkAllSound(s.c2, g, NoPde);
    var r := MarkBoth(s, g, gmm);
    CoreC1(s, r.c1, gmm);
    FewerDirs(s.(c1 := r.c1), r.c2, gmm);
    if TopOk(s) { SameFreeTop(s, r); }
  }

  lemma SameFreeTop(s: Spt, r: Spt)
    requires TopOk(s) && r.levels == s.levels && r.top == s.top && r.tbl == s.tbl && r.cnt == s.cnt
    requires |r.c2.key| == |s.c2.key| && forall k :: 0 <= k < |s.c2.key| && St(r.c2, k).Free? ==> St(s.c2, k).Free?
    ensures TopOk(r)
  {
  }

  lemma SptShadowsExact(s: Spt, g: nat, gmm: Gmm)
    requires Core(s, gmm)
    ensures SptShadows(s, g, gmm) <==> Shadows(s, g)
  {
    AnyNormalExact(s.c1, g, Zero);
    AnyNormalExact(s.c2, g, NoPde);
  }

  /** What SetPte did to its own vcpu besides statuses. */
  ghost predicate PteSet(r: Spt, s: Spt, y: Ptr, pte: Pte) {
    && r.levels == s.levels && r.top == s.top && r.tbl == s.tbl && r.cnt == s.cnt && r.wp == s.wp
    && r.c2.page == s.c2.page
    && InPages(r.c1.page, y)
    && (var e := Rd(r.c1.page, y);
        e.Pte? && pte.Pte? && (e.rw ==> pte.rw) && e.(acc := true, dirty := true, rw := pte.rw) == pte.(acc := true, dirty := true))
  }

  lemma SetPteSound(m: seq<Spt>, c: nat, y: Ptr, g: nat, p: Perm, a: Access, gmm: Gmm)
    requires c < |m| && Inv(m, gmm) && GmmOk(gmm)
    requires InPages(m[c].c1.page, y) && Recorded(m[c].c1.clear[y.slot], y.idx)
    ensures Good(m, c, gmm)
    ensures var r := SetPte(m, c, y, g, p, a, gmm);
      |r| == |m| && Inv(r, gmm) && PteSet(r[c], m[c], y, NewPte(p, a, gmm.hp(g), gmm.rom(g)))
  {
    var pte := NewPte(p, a, gmm.hp(g), gmm.rom(g));
    InvGood(m, c, gmm);
    if SameButAD(Rd(m[c].c1.page, y), pte) {
    } else if !pte.rw {
      ReadOnlyPte(m, c, y, pte, gmm);
    } else {
      WritablePte(m, c, y, g, pte, a.write, gmm);
    }
  }

  lemma InvGood(m: seq<Spt>, c: nat, gmm: Gmm)
    requires Inv(m, gmm)
    ensures Good(m, c, gmm)
  {
  }

  lemma ReadOnlyPte(m: seq<Spt>, c: nat, y: Ptr, e: Pte, gmm: Gmm)
    requires c < |m| && Inv(m, gmm) && InPages(m[c].c1.page, y) && Recorded(m[c].c1.clear[y.slot], y.idx)
    requires !Writable(e)
    ensures Inv(m[c := WrPte(m[c], y, e)], gmm)
  {
    var r := WrPte(m[c], y, e);
    WrPteCore(m[c], y, e, gmm);
    WrittenReg(m[c].c1.page, m[c].rw, y, e);
    WritersBut(r.c1.page, r.c1.page, m[c].c1.page, y, e);
    DemotedFewer(r, m[c]);
    KeepProtected(m, c, r, gmm);
    SameStatusTop(m[c], r);
  }

  /** The vcpu after the PTE was written and registered, before update_shadow. */
  function Registered(s: Spt, y: Ptr, g: nat, e: Pte, gmm: Gmm): Spt
    requires Core(s, gmm) && InPages(s.c1.page, y) && Recorded(s.c1.clear[y.slot], y.idx)
  {
    WrPteCore(s, y, e, gmm);
    var q := WrPte(s, y, e);
    var u := Update(q.c1.page, q.rw, g, y, gmm.hp(g), gmm);
    q.(c1 := q.c1.(page := u.page), rw := u.rw)
  }

  /** A PTE of vcpu m[c] was replaced by a writable one for frame g; s is the vcpu now. */
  ghost predicate Writing(m: seq<Spt>, c: nat, y: Ptr, g: nat, e: Pte, s: Spt, gmm: Gmm) {
    && c < |m| && WriteProtected(m, gmm) && Injective(gmm) && InPages(m[c].c1.page, y)
    && e.Pte? && e.addr == gmm.hp(g) && !gmm.rom(g)
    && Weaker(s.c1.page, WrPte(m[c], y, e).c1.page) && SameStatus(m[c].c1, s.c1)
    && s == m[c].(c1 := m[c].c1.(page := s.c1.page), rw := s.rw)
  }

  lemma WritablePte(m: seq<Spt>, c: nat, y: Ptr, g: nat, e: Pte, needrw: bool, gmm: Gmm)
    requires c < |m| && Inv(m, gmm) && GmmOk(gmm) && InPages(m[c].c1.page, y)
    requires Recorded(m[c].c1.clear[y.slot], y.idx)
    requires e.Pte? && e.addr == gmm.hp(g) && !gmm.rom(g) && e.rw
    ensures var s := Registered(m[c], y, g, e, gmm);
      && AllCore(m[c := s], gmm) && InPages(s.c1.page, y)
      && var r := UpdateShadow(m[c := s], c, g, y, needrw, gmm);
      && |r| == |m| && Inv(r, gmm) && PteSet(r[c], m[c], y, e)
  {
    var s := Registered(m[c], y, g, e, gmm);
    RegisteredSpt(m, c, y, g, e, gmm);
    Settle(m, m[c := s], c, y, g, e, s, needrw, gmm);
  }

  lemma RegisteredSpt(m: seq<Spt>, c: nat, y: Ptr, g: nat, e: Pte, gmm: Gmm)
    requires c < |m| && Inv(m, gmm) && GmmOk(gmm) && InPages(m[c].c1.page, y)
    requires Recorded(m[c].c1.clear[y.slot], y.idx)
    requires e.Pte? && e.addr == gmm.hp(g) && !gmm.rom(g) && e.rw
    ensures var s := Registered(m[c], y, g, e, gmm);
      SptInv(s, gmm) && Writing(m, c, y, g, e, s, gmm) && InPages(s.c1.page, y) && LessPerm(Rd(s.c1.page, y), e)
  {
    var s := Registered(m[c], y, g, e, gmm);
    RegisterCore(m[c], y, g, e, gmm);
    SameStatusTop(m[c], s);
    assert LessPerm(Rd(s.c1.page, y), Rd(WrPte(m[c], y, e).c1.page, y));
  }

  lemma Settle(m: seq<Spt>, n: seq<Spt>, c: nat, y: Ptr, g: nat, e: Pte, s: Spt, needrw: bool, gmm: Gmm)
    requires Inv(m, gmm) && Writing(m, c, y, g, e, s, gmm) && SptInv(s, gmm) && n == m[c := s]
    requires InPages(s.c1.page, y) && LessPerm(Rd(s.c1.page, y), e) && e.rw
    ensures AllCore(n, gmm)
    ensures var r := UpdateShadow(n, c, g, y, needrw, gmm);
      && |r| == |m| && Inv(r, gmm) && PteSet(r[c], m[c], y, e)
  {
    if needrw {
      MarkedAll(m, c, y, g, e, s, gmm);
      PteSetFrom(UpdateShadow(n, c, g, y, true, gmm)[c], s, m[c], y, e);
    } else {
      SettleRead(m, n, c, y, g, e, s, gmm);
      PteSetFrom(UpdateShadow(n, c, g, y, false, gmm)[c], s, m[c], y, e);
    }
  }

  lemma SettleRead(m: seq<Spt>, n: seq<Spt>, c: nat, y: Ptr, g: nat, e: Pte, s: Spt, gmm: Gmm)
    requires Inv(m, gmm) && Writing(m, c, y, g, e, s, gmm) && SptInv(s, gmm) && n == m[c := s]
    requires InPages(s.c1.page, y)
    ensures AllCore(n, gmm)
    ensures var r := UpdateShadow(n, c, g, y, false, gmm);
      && |r| == |m| && Inv(r, gmm) && InPages(r[c].c1.page, y)
      && LessPerm(Rd(r[c].c1.page, y), Rd(s.c1.page, y)) && r[c] == s.(c1 := r[c].c1, rw := r[c].rw)
  {
    assert AllCore(n, gmm);
    if exists t :: 0 <= t < |n| && SptShadows(n[t], g, gmm) {
      RefusedRead(m, n, c, y, g, e, s, gmm);
    } else {
      Granted(m, n, c, y, g, e, s, gmm);
    }
  }

  lemma RefusedRead(m: seq<Spt>, n: seq<Spt>, c: nat, y: Ptr, g: nat, e: Pte, s: Spt, gmm: Gmm)
    requires Writing(m, c, y, g, e, s, gmm) && AllSpt(m, gmm) && SptInv(s, gmm) && n == m[c := s]
    ensures var f := Forget(s.c1.page, s.rw, g, y); var r := s.(c1 := s.c1.(page := f.0), rw := f.1);
      Inv(n[c := r], gmm) && InPages(r.c1.page, y) && LessPerm(Rd(r.c1.page, y), Rd(s.c1.page, y))
  {
    Refused(m, c, y, g, e, s, gmm);
    var f := Forget(s.c1.page, s.rw, g, y);
    assert n[c := s.(c1 := s.c1.(page := f.0), rw := f.1)] == m[c := s.(c1 := s.c1.(page := f.0), rw := f.1)];
  }

  lemma PteSetFrom(r: Spt, s: Spt, o: Spt, y: Ptr, e: Pte)
    requires InPages(s.c1.page, y) && LessPerm(Rd(s.c1.page, y), e) && e.Pte? && e.rw
    requires InPages(r.c1.page, y) && LessPerm(Rd(r.c1.page, y), Rd(s.c1.page, y))
    requires r == s.(c1 := r.c1, c2 := r.c2, rw := r.rw) && r.c2.page == s.c2.page
    requires s == o.(c1 := s.c1, rw := s.rw)
    ensures PteSet(r, o, y, e)
  {
    LessTwice(Rd(r.c1.page, y), Rd(s.c1.page, y), e);
  }

  lemma LessTwice(x: Pte, f: Pte, e: Pte)
    requires LessPerm(x, f) && LessPerm(f, e) && e.Pte? && e.rw
    ensures x.Pte? && (x.rw ==> e.rw) && x.(acc := true, dirty := true, rw := e.rw) == e.(acc := true, dirty := true)
  {
  }

  /** A read fault on a frame that some shadow protects: the PTE stays read-only. */
  lemma Refused(m: seq<Spt>, c: nat, y: Ptr, g: nat, e: Pte, s: Spt, gmm: Gmm)
    requires Writing(m, c, y, g, e, s, gmm) && AllSpt(m, gmm) && SptInv(s, gmm)
    ensures var f := Forget(s.c1.page, s.rw, g, y); var r := s.(c1 := s.c1.(page := f.0), rw := f.1);
      Inv(m[c := r], gmm) && InPages(r.c1.page, y) && LessPerm(Rd(r.c1.page, y), Rd(s.c1.page, y))
  {
    ForgetSound(s.c1.page, s.rw, g, y, gmm);
    var f := Forget(s.c1.page, s.rw, g, y);
    WeakerCore(s, f.0, f.1, gmm);
    var r := s.(c1 := s.c1.(page := f.0), rw := f.1);
    WeakerTrans(f.0, s.c1.page, WrPte(m[c], y, e).c1.page);
    WritersBut(f.0, WrPte(m[c], y, e).c1.page, m[c].c1.page, y, e);
    DemotedFewer(r, m[c]);
    KeepProtected(m, c, r, gmm);
    SameStatusTop(m[c], r);
  }

  /** A read fault on a frame that no shadow protects: the PTE may be writable. */
  lemma Granted(m: seq<Spt>, n: seq<Spt>, c: nat, y: Ptr, g: nat, e: Pte, s: Spt, gmm: Gmm)
    requires Writing(m, c, y, g, e, s, gmm) && AllSpt(m, gmm) && SptInv(s, gmm) && n == m[c := s]
    requires forall t :: 0 <= t < |n| ==> !SptShadows(n[t], g, gmm)
    ensures Inv(n, gmm)
  {
    forall t | 0 <= t < |m| ensures !Shadows(n[t], g) {
      SptShadowsExact(n[t], g, gmm);
    }
    DemotedFewer(s, m[c]);
    NewWriter(m, n, c, y, g, e, s, gmm);
  }

  /** The frame that became writable is shadowed nowhere. */
  lemma NewWriter(m: seq<Spt>, n: seq<Spt>, c: nat, y: Ptr, g: nat, e: Pte, s: Spt, gmm: Gmm)
    requires |m| == |n| && Writing(m, c, y, g, e, s, gmm)
    requires forall t :: 0 <= t < |n| ==> !Shadows(n[t], g) && FewerShadows(n[t], m[t])
    requires forall t :: 0 <= t < |n| ==> n[t].c1.page == (if t == c then s.c1.page else m[t].c1.page)
    ensures WriteProtected(n, gmm)
  {
    forall t, u, h: nat | 0 <= t < |n| && 0 <= u < |n| && Shadows(n[t], h) ensures NoWriters(n[u].c1.page, gmm.hp(h)) {
      assert h != g && Shadows(m[t], h);
      assert NoWriters(m[u].c1.page, gmm.hp(h));
      if u == c {
        assert Addr(e) != gmm.hp(h);
        WritersOf(s.c1.page, WrPte(m[c], y, e).c1.page, m[c].c1.page, y, e, gmm.hp(h));
      }
    }
  }

  lemma MarkedAll(m: seq<Spt>, c: nat, y: Ptr, g: nat, e: Pte, s: Spt, gmm: Gmm)
    requires Writing(m, c, y, g, e, s, gmm) && AllSpt(m, gmm) && SptInv(s, gmm)
    ensures AllCore(m[c := s], gmm)
    ensures var r := UpdateShadow(m[c := s], c, g, y, true, gmm);
      && |r| == |m| && Inv(r, gmm)
      && r[c].c1.page == s.c1.page && r[c].c2.page == s.c2.page && r[c] == s.(c1 := r[c].c1, c2 := r[c].c2)
  {
    var n := m[c := s];
    var r := UpdateShadow(n, c, g, y, true, gmm);
    DemotedFewer(s, m[c]);
    forall t | 0 <= t < |m|
      ensures SptInv(r[t], gmm) && !Shadows(r[t], g) && FewerShadows(r[t], m[t])
      ensures r[t].c1.page == (if t == c then s.c1.page else m[t].c1.page)
    {
      MarkBothSound(n[t], g, gmm);
      DemotedFewer(r[t], n[t]);
    }
    NewWriter(m, r, c, y, g, e, s, gmm);
    MarkBothSound(n[c], g, gmm);
  }

  // ------------------------------------------------------------- map_page

  /** The part of map_page below the PDPE. */
  function MapBelow(m: seq<Spt>, c: nat, v: nat, g: Guest, a: Access, gmm: Gmm): Outcome
    requires c < |m| && Inv(m, gmm) && GmmOk(gmm) && PdpeSet(m[c], v)
  {
    var gfnw := if a.write then Some(g.gfn0) else None;
    var y2 := Ptr(RdPdpe(m[c], v).slot, I2(v));
    InvGood(m, c, gmm);
    var n := SetPde(m, c, y2, KeyPt(m[c], g, v), gfnw, I1(v), Perm1(m[c], g, a), gmm);
    if gmm.rom(g.gfn0) && a.write then Panic(WritingVmm)
    else
      PdeInv(m, c, y2, KeyPt(m[c], g, v), gfnw, I1(v), Perm1(m[c], g, a), gmm);
      Mapped(SetPte(n, c, Ptr(Rd(n[c].c2.page, y2).to, I1(v)), g.gfn0, Perm0(m[c], g, a), a, gmm))
  }

  lemma PdeInv(m: seq<Spt>, c: nat, y: Ptr, key: Key, gfnw: Option<nat>, e: nat, p: Perm, gmm: Gmm)
    requires c < |m| && Inv(m, gmm) && GmmOk(gmm)
    requires InPages(m[c].c2.page, y) && Recorded(m[c].c2.clear[y.slot], y.idx) && e < ENTRIES
    ensures Good(m, c, gmm)
    ensures var r := SetPde(m, c, y, key, gfnw, e, p, gmm);
      && |r| == |m| && Inv(r, gmm) && Good(r, c, gmm) && PdeSet(r[c], m[c], y, e, p)
      && InPages(r[c].c1.page, Ptr(Rd(r[c].c2.page, y).to, e))
  {
    InvGood(m, c, gmm);
    SetPdeSound(m, c, y, key, gfnw, e, p, gmm);
    var r := SetPde(m, c, y, key, gfnw, e, p, gmm);
    SameStatusTop(m[c], r[c]);
    GoodInv(r, c, gmm);
  }

  lemma GoodInv(m: seq<Spt>, c: nat, gmm: Gmm)
    requires c < |m| && Good(m, c, gmm) && TopOk(m[c]) && WriteProtected(m, gmm)
    ensures Inv(m, gmm)
  {
  }

  /** mapsub, and again after clearing everything if the pool was used up. */
  function MapTop(s: Spt, v: nat): (Spt, bool)
    requires Shape(s)
  {
    var r := Mapsub(s, v, false);
    if r.1 then r else Mapsub(r.0, v, true)
  }

  /** map_page once the PDPT is there: setpdpe, and what is below. */
  function MapUpper(m: seq<Spt>, c: nat, v: nat, key2: Key, g: Guest, a: Access, gmm: Gmm): Outcome
    requires c < |m| && Inv(m, gmm) && Good(m, c, gmm) && GmmOk(gmm) && HasPdpt(m[c], v) && Linear(m[c], v)
  {
    var gfnw := if a.write then Some(g.gfn0) else None;
    var d := SetPdpe(m, c, v, key2, gfnw, gmm);
    PdpeInv(m, c, v, key2, gfnw, gmm);
    if d.1 then MapBelow(d.0, c, v, g, a, gmm) else MapAgain(d.0, c, v, key2, g, a, gmm)
  }

  /** The second attempt, after mapsub has cleared everything. */
  function MapAgain(d: seq<Spt>, c: nat, v: nat, key2: Key, g: Guest, a: Access, gmm: Gmm): Outcome
    requires c < |d| && Good(d, c, gmm) && GmmOk(gmm) && WriteProtected(d, gmm) && Linear(d[c], v)
  {
    var gfnw := if a.write then Some(g.gfn0) else None;
    var t := Mapsub(d[c], v, true);
    if !t.1 then Panic(Mapsub2)
    else
      RetryInv(d, c, v, gmm);
      var m := d[c := t.0];
      var e := SetPdpe(m, c, v, key2, gfnw, gmm);
      PdpeInv(m, c, v, key2, gfnw, gmm);
      if e.1 then MapBelow(e.0, c, v, g, a, gmm) else Panic(Setpdpe1)
  }

  /** map_page */
  function MapPage(m: seq<Spt>, c: nat, v: nat, g: Guest, a: Access, gmm: Gmm): Outcome
    requires c < |m| && Inv(m, gmm) && GmmOk(gmm) && Linear(m[c], v)
  {
    if !(1 <= g.glvl <= 4) then Panic(GlvlError)
    else
      var t := MapTop(m[c], v);
      if !t.1 then Panic(Mapsub1)
      else
        MapTopInv(m, c, v, gmm);
        MapUpper(m[c := t.0], c, v, KeyPd(m[c], g, v), g, a, gmm)
  }

  /** Changing only the upper tables of one vcpu keeps everything else. */
  lemma UpperChange(m: seq<Spt>, c: nat, r: Spt, gmm: Gmm)
    requires c < |m| && Good(m, c, gmm) && WriteProtected(m, gmm) && Core(r, gmm) && TopOk(r)
    requires r == m[c].(top := r.top, tbl := r.tbl, cnt := r.cnt)
    ensures Inv(m[c := r], gmm) && Good(m[c := r], c, gmm)
  {
    DemotedFewer(r, m[c]);
    KeepProtected(m, c, r, gmm);
  }

  lemma MapTopInv(m: seq<Spt>, c: nat, v: nat, gmm: Gmm)
    requires c < |m| && Inv(m, gmm) && Linear(m[c], v)
    ensures var t := MapTop(m[c], v);
      && t.1 && Inv(m[c := t.0], gmm) && Good(m[c := t.0], c, gmm) && HasPdpt(t.0, v)
      && t.0.levels == m[c].levels && t.0.wp == m[c].wp
  {
    var r := Mapsub(m[c], v, false);
    InvGood(m, c, gmm);
    MapsubSound(m[c], v, false, gmm);
    if !r.1 { MapsubSound(r.0, v, true, gmm); }
    UpperChange(m, c, MapTop(m[c], v).0, gmm);
  }

  lemma RetryInv(m: seq<Spt>, c: nat, v: nat, gmm: Gmm)
    requires c < |m| && Good(m, c, gmm) && WriteProtected(m, gmm) && Linear(m[c], v)
    ensures var t := Mapsub(m[c], v, true);
      && t.1 && Inv(m[c := t.0], gmm) && Good(m[c := t.0], c, gmm) && HasPdpt(t.0, v)
      && t.0.levels == m[c].levels && t.0.wp == m[c].wp && t.0.c2 == m[c].c2
  {
    MapsubSound(m[c], v, true, gmm);
    UpperChange(m, c, Mapsub(m[c], v, true).0, gmm);
  }

  lemma PdpeInv(m: seq<Spt>, c: nat, v: nat, key: Key, gfnw: Option<nat>, gmm: Gmm)
    requires c < |m| && Inv(m, gmm) && Good(m, c, gmm) && GmmOk(gmm) && HasPdpt(m[c], v) && Linear(m[c], v)
    ensures var d := SetPdpe(m, c, v, key, gfnw, gmm);
      && |d.0| == |m| && Good(d.0, c, gmm) && WriteProtected(d.0, gmm) && Linear(d.0[c], v)
      && (d.1 ==> Inv(d.0, gmm) && PdpeSet(d.0[c], v))
      && (!d.1 ==> d.0[c].c2.freeL != []) && (m[c].c2.freeL != [] ==> d.1)
      && d.0[c].wp == m[c].wp
  {
    SetPdpeSound(m, c, v, key, gfnw, gmm);
    var d := SetPdpe(m, c, v, key, gfnw, gmm);
    if d.1 { GoodInv(d.0, c, gmm); }
  }

  // ------------------------------------------------------------- the hardware walk

  datatype Xlat = Fault | Xlat(addr: nat, rw: bool, us: bool, nx: bool, pwt: bool, pcd: bool, pat: bool)

  /** A page walk of the shadow tables (PML4Es and PDPTEs restrict nothing). */
  function Walk(s: Spt, v: nat): Xlat
    requires |s.top| == ENTRIES && Linear(s, v)
  {
    if !HasPdpt(s, v) || RdPdpe(s, v).NoLink? then Fault
    else
      var y2 := Ptr(RdPdpe(s, v).slot, I2(v));
      if !InPages(s.c2.page, y2) || Rd(s.c2.page, y2).NoPde? then Fault
      else
        var d := Rd(s.c2.page, y2);
        var y1 := Ptr(d.to, I1(v));
        if !InPages(s.c1.page, y1) || Rd(s.c1.page, y1).Zero? then Fault
        else
          var e := Rd(s.c1.page, y1);
          Xlat(e.addr, d.rw && e.rw, d.us && e.us, d.nx || e.nx, e.pwt, e.pcd, e.pat)
  }

  /** What map_page promises about the translation it installed. */
  ghost predicate Translates(x: Xlat, h: nat, rom: bool, p0: Perm, p1: Perm, a: Access) {
    && x.Xlat? && x.addr == h && x.pwt == a.pwt && x.pcd == a.pcd && x.pat == a.pat
    && x.us == (p0.us && p1.us) && x.nx == (p0.nx || p1.nx)
    && (x.rw ==> p0.rw && p1.rw && !rom)
  }

  lemma MapBelowSound(m: seq<Spt>, c: nat, v: nat, g: Guest, a: Access, gmm: Gmm)
    requires c < |m| && Inv(m, gmm) && GmmOk(gmm) && PdpeSet(m[c], v) && Linear(m[c], v)
    ensures var o := MapBelow(m, c, v, g, a, gmm);
      && (o.Panic? <==> gmm.rom(g.gfn0) && a.write) && (o.Panic? ==> o.at == WritingVmm)
      && (o.Mapped? ==>
            && |o.m| == |m| && Inv(o.m, gmm) && Linear(o.m[c], v)
            && Translates(Walk(o.m[c], v), gmm.hp(g.gfn0), gmm.rom(g.gfn0), Perm0(m[c], g, a), Perm1(m[c], g, a), a))
  {
    var gfnw := if a.write then Some(g.gfn0) else None;
    var y2 := Ptr(RdPdpe(m[c], v).slot, I2(v));
    var p1 := Perm1(m[c], g, a);
    PdeInv(m, c, y2, KeyPt(m[c], g, v), gfnw, I1(v), p1, gmm);
    var n := SetPde(m, c, y2, KeyPt(m[c], g, v), gfnw, I1(v), p1, gmm);
    if !(gmm.rom(g.gfn0) && a.write) {
      LastLevel(m[c], n, c, v, y2, p1, Perm0(m[c], g, a), g.gfn0, a, gmm);
    }
  }

  lemma LastLevel(s: Spt, n: seq<Spt>, c: nat, v: nat, y2: Ptr, p1: Perm, p0: Perm, gfn: nat, a: Access, gmm: Gmm)
    requires c < |n| && Inv(n, gmm) && GmmOk(gmm) && HasPdpt(s, v) && Linear(s, v)
    requires RdPdpe(s, v) == To(y2.slot) && y2.idx == I2(v) && PdeSet(n[c], s, y2, I1(v), p1)
    requires InPages(n[c].c1.page, Ptr(Rd(n[c].c2.page, y2).to, I1(v)))
    ensures Good(n, c, gmm)
    ensures var r := SetPte(n, c, Ptr(Rd(n[c].c2.page, y2).to, I1(v)), gfn, p0, a, gmm);
      && |r| == |n| && Inv(r, gmm) && Linear(r[c], v) && |r[c].top| == ENTRIES
      && Translates(Walk(r[c], v), gmm.hp(gfn), gmm.rom(gfn), p0, p1, a)
  {
    var y1 := Ptr(Rd(n[c].c2.page, y2).to, I1(v));
    SetPteSound(n, c, y1, gfn, p0, a, gmm);
    var r := SetPte(n, c, y1, gfn, p0, a, gmm);
    WalkOfParts(s, n[c], r[c], v, y2, y1, p1, NewPte(p0, a, gmm.hp(gfn), gmm.rom(gfn)));
  }

  lemma WalkOfParts(s: Spt, n: Spt, r: Spt, v: nat, y2: Ptr, y1: Ptr, p1: Perm, pte: Pte)
    requires HasPdpt(s, v) && Linear(s, v) && RdPdpe(s, v) == To(y2.slot) && y2.idx == I2(v)
    requires PdeSet(n, s, y2, I1(v), p1) && y1 == Ptr(Rd(n.c2.page, y2).to, I1(v))
    requires PteSet(r, n, y1, pte)
    ensures Linear(r, v) && |r.top| == ENTRIES && Walk(r, v).Xlat?
    ensures var x := Walk(r, v);
      && x.addr == pte.addr && x.pwt == pte.pwt && x.pcd == pte.pcd && x.pat == pte.pat && x.us == (p1.us && pte.us) && x.nx == (p1.nx || pte.nx) && (x.rw ==> p1.rw && pte.rw)
  {
  }

  /** What mapping the page with these permissions comes to. */
  ghost predicate Settled(o: Outcome, n: nat, c: nat, v: nat, g: Guest, p0: Perm, p1: Perm, a: Access, gmm: Gmm) {
    && (o.Panic? <==> gmm.rom(g.gfn0) && a.write) && (o.Panic? ==> o.at == WritingVmm)
    && (o.Mapped? ==>
          && c < |o.m| == n && Inv(o.m, gmm) && Linear(o.m[c], v)
          && Translates(Walk(o.m[c], v), gmm.hp(g.gfn0), gmm.rom(g.gfn0), p0, p1, a))
  }

  lemma MapAgainSound(d: seq<Spt>, c: nat, v: nat, key2: Key, g: Guest, a: Access, gmm: Gmm)
    requires c < |d| && Good(d, c, gmm) && GmmOk(gmm) && WriteProtected(d, gmm) && Linear(d[c], v) && d[c].c2.freeL != []
    ensures Settled(MapAgain(d, c, v, key2, g, a, gmm), |d|, c, v, g, Perm0(d[c], g, a), Perm1(d[c], g, a), a, gmm)
  {
    var gfnw := if a.write then Some(g.gfn0) else None;
    RetryInv(d, c, v, gmm);
    var m := d[c := Mapsub(d[c], v, true).0];
    PdpeInv(m, c, v, key2, gfnw, gmm);
    MapBelowSound(SetPdpe(m, c, v, key2, gfnw, gmm).0, c, v, g, a, gmm);
  }

  lemma MapUpperSound(m: seq<Spt>, c: nat, v: nat, key2: Key, g: Guest, a: Access, gmm: Gmm)
    requires c < |m| && Inv(m, gmm) && Good(m, c, gmm) && GmmOk(gmm) && HasPdpt(m[c], v) && Linear(m[c], v)
    ensures Settled(MapUpper(m, c, v, key2, g, a, gmm), |m|, c, v, g, Perm0(m[c], g, a), Perm1(m[c], g, a), a, gmm)
  {
    var gfnw := if a.write then Some(g.gfn0) else None;
    PdpeInv(m, c, v, key2, gfnw, gmm);
    var d := SetPdpe(m, c, v, key2, gfnw, gmm);
    if d.1 {
      MapBelowSound(d.0, c, v, g, a, gmm);
    } else {
      MapAgainSound(d.0, c, v, key2, g, a, gmm);
    }
  }

  /** map_page keeps the whole machine sound; it panics exactly on a bad level count and
      on a guest write to VMM memory (no "mapsub failed" or "setpdpe failed"); otherwise
      the walk for v now reaches the guest's frame with no more rights than the guest's
      own tables grant. */
  lemma MapPageSound(m: seq<Spt>, c: nat, v: nat, g: Guest, a: Access, gmm: Gmm)
    requires c < |m| && Inv(m, gmm) && GmmOk(gmm) && Linear(m[c], v)
    ensures var o := MapPage(m, c, v, g, a, gmm);
      if 1 <= g.glvl <= 4 then Settled(o, |m|, c, v, g, Perm0(m[c], g, a), Perm1(m[c], g, a), a, gmm) else o == Panic(GlvlError)
  {
    if 1 <= g.glvl <= 4 {
      MapTopInv(m, c, v, gmm);
      MapUpperSound(m[c := MapTop(m[c], v).0], c, v, KeyPd(m[c], g, v), g, a, gmm);
    }
  }
}
