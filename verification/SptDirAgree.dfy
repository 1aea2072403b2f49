/** map_page and the other steps of a vcpu keep the shadow page directories in agreement with guest
    memory (cpu_mmu_spt.c, SPT_3). */
module SptDirAgree {
  import opened Lists
  import opened Tables
  import opened LazyClear
  import opened ShadowCache
  import opened RwMap
  import opened BackRefs
  import opened Spt3
  import opened SptMap
  import opened SptUpper
  import opened SptFault
  import opened SptRuns
  import opened SptGuest
  import opened SptCoherent
  import opened SptDirs

  // ------------------------------------------------------------- the directory of v

  /** Marking does not take a slot's key away. */
  lemma MarkedDir(s: Spt, g: nat, i: nat, key: Key, gmm: Gmm)
    requires Core(s, gmm) && Dir(s.c2, i, key)
    ensures Dir(MarkBoth(s, g, gmm).c2, i, key)
  {
    MarkAllSound(s.c2, g, NoPde);
  }

  lemma UpdateShadowDir(n: seq<Spt>, c: nat, g: nat, y: Ptr, needrw: bool, i: nat, key: Key, gmm: Gmm)
    requires c < |n| && AllCore(n, gmm) && InPages(n[c].c1.page, y) && Dir(n[c].c2, i, key)
    ensures c < |UpdateShadow(n, c, g, y, needrw, gmm)| && Dir(UpdateShadow(n, c, g, y, needrw, gmm)[c].c2, i, key)
  {
    if needrw { MarkedDir(n[c], g, i, key, gmm); }
  }

  lemma SetPteDir(m: seq<Spt>, c: nat, y: Ptr, g: nat, p: Perm, a: Access, i: nat, key: Key, gmm: Gmm)
    requires c < |m| && Inv(m, gmm) && GmmOk(gmm) && InPages(m[c].c1.page, y) && Recorded(m[c].c1.clear[y.slot], y.idx)
    requires Dir(m[c].c2, i, key)
    ensures Good(m, c, gmm) && c < |SetPte(m, c, y, g, p, a, gmm)| && Dir(SetPte(m, c, y, g, p, a, gmm)[c].c2, i, key)
  {
    var e := NewPte(p, a, gmm.hp(g), gmm.rom(g));
    InvGood(m, c, gmm);
    if !SameButAD(Rd(m[c].c1.page, y), e) && e.rw {
      assert SptInv(m[c], gmm);
      WritableDir(m, c, y, g, e, a.write, i, key, gmm);
    }
  }

  lemma WritableDir(m: seq<Spt>, c: nat, y: Ptr, g: nat, e: Pte, needrw: bool, i: nat, key: Key, gmm: Gmm)
    requires c < |m| && AllCore(m, gmm) && Reg(m[c].c1.page, m[c].rw) && Dir(m[c].c2, i, key)
    requires InPages(m[c].c1.page, y) && Recorded(m[c].c1.clear[y.slot], y.idx)
    requires e.Pte? && e.addr == gmm.hp(g) && !gmm.rom(g)
    ensures var s := Registered(m[c], y, g, e, gmm);
      && AllCore(m[c := s], gmm) && InPages(s.c1.page, y)
      && (var r := UpdateShadow(m[c := s], c, g, y, needrw, gmm); c < |r| && Dir(r[c].c2, i, key))
  {
    RegisterCore(m[c], y, g, e, gmm);
    UpdateShadowDir(m[c := Registered(m[c], y, g, e, gmm)], c, g, y, needrw, i, key, gmm);
  }

  /** The PDPE of v is not touched below it. */
  lemma StillLeads(s: Spt, r: Spt, v: nat, key: Key)
    requires Leads(s, v, key) && r.levels == s.levels && r.top == s.top && r.tbl == s.tbl && r.cnt == s.cnt
    requires Dir(r.c2, RdPdpe(s, v).slot, key)
    ensures Leads(r, v, key)
  {
  }

  // ------------------------------------------------------------- map_page

  lemma MayLinkHere(s: Spt, v: nat, g: Guest, a: Access, gt: GuestMem)
    requires Leads(s, v, KeyPd(s, g, v)) && WalkFits(gt, v, g) && 1 <= g.glvl <= 4
    ensures MayLink(s.c2, Ptr(RdPdpe(s, v).slot, I2(v)), KeyPt(s, g, v), Perm1(s, g, a), gt)
  {
    var p := Perm1(s, g, a);
    forall i, large ensures DirFaithful(Pde(i, p.rw, p.us, p.nx, large), KeyPt(s, g, v), KeyPd(s, g, v), I2(v), gt) {
      NewDirFaithful(s, g, v, a, gt, i, large);
    }
  }

  lemma MapBelowDirs(m: seq<Spt>, c: nat, v: nat, g: Guest, a: Access, gt: GuestMem, gmm: Gmm)
    requires c < |m| && Inv(m, gmm) && GmmOk(gmm) && PdpeSet(m[c], v) && AllDirs(m, gt) && FreeBlank(m[c].c1)
    requires WalkFits(gt, v, g) && 1 <= g.glvl <= 4 && Leads(m[c], v, KeyPd(m[c], g, v))
    ensures var o := MapBelow(m, c, v, g, a, gmm);
      o.Mapped? ==> c < |o.m| && AllDirs(o.m, gt) && Leads(o.m[c], v, KeyPd(m[c], g, v))
  {
    var gfnw := if a.write then Some(g.gfn0) else None;
    var y2 := Ptr(RdPdpe(m[c], v).slot, I2(v));
    var key, p1 := KeyPt(m[c], g, v), Perm1(m[c], g, a);
    PdeInv(m, c, y2, key, gfnw, I1(v), p1, gmm);
    MayLinkHere(m[c], v, g, a, gt);
    SetPdeDirs(m, c, y2, key, gfnw, I1(v), p1, gt, gmm);
    var n := SetPde(m, c, y2, key, gfnw, I1(v), p1, gmm);
    if !(gmm.rom(g.gfn0) && a.write) {
      var y1 := Ptr(Rd(n[c].c2.page, y2).to, I1(v));
      assert Dir(n[c].c2, y2.slot, KeyPd(m[c], g, v));
      LastDirs(m[c], n, c, v, y1, g.gfn0, Perm0(m[c], g, a), a, KeyPd(m[c], g, v), gt, gmm);
    }
  }

  lemma LastDirs(s: Spt, n: seq<Spt>, c: nat, v: nat, y: Ptr, f: nat, p: Perm, a: Access, key: Key, gt: GuestMem, gmm: Gmm)
    requires c < |n| && Inv(n, gmm) && GmmOk(gmm) && AllDirs(n, gt) && InPages(n[c].c1.page, y) && Recorded(n[c].c1.clear[y.slot], y.idx)
    requires Leads(s, v, key) && n[c].levels == s.levels && n[c].top == s.top && n[c].tbl == s.tbl && n[c].cnt == s.cnt
    requires Dir(n[c].c2, RdPdpe(s, v).slot, key)
    ensures Good(n, c, gmm) && var r := SetPte(n, c, y, f, p, a, gmm); c < |r| && AllDirs(r, gt) && Leads(r[c], v, key)
  {
    SetPteDirs(n, c, y, f, p, a, gt, gmm);
    SetPteDir(n, c, y, f, p, a, RdPdpe(s, v).slot, key, gmm);
    SetPteSound(n, c, y, f, p, a, gmm);
    StillLeads(s, SetPte(n, c, y, f, p, a, gmm)[c], v, key);
  }

  lemma MapAgainDirs(d: seq<Spt>, c: nat, v: nat, key2: Key, g: Guest, a: Access, gt: GuestMem, gmm: Gmm)
    requires c < |d| && Good(d, c, gmm) && GmmOk(gmm) && WriteProtected(d, gmm) && Linear(d[c], v) && AllDirs(d, gt) && FreeBlank(d[c].c1)
    requires WalkFits(gt, v, g) && 1 <= g.glvl <= 4 && key2 == KeyPd(d[c], g, v)
    ensures var o := MapAgain(d, c, v, key2, g, a, gmm); o.Mapped? ==> c < |o.m| && AllDirs(o.m, gt) && Leads(o.m[c], v, key2)
  {
    RetryInv(d, c, v, gmm);
    var r := Mapsub(d[c], v, true).0;
    MapsubSound(d[c], v, true, gmm);
    assert DirsAgree(d[c], gt);
    TopDirs(r, d[c], gt);
    OneAgrees(d, c, r, gt);
    LinkDirs(d[c := r], c, v, key2, g, a, gt, gmm);
  }

  /** The upper tables do not matter. */
  lemma TopDirs(r: Spt, s: Spt, gt: GuestMem)
    requires DirsAgree(s, gt) && r.c1 == s.c1 && r.c2 == s.c2
    ensures DirsAgree(r, gt)
  {
    forall y ensures DirOk(r, y, gt) { assert DirOk(s, y, gt); }
  }

  /** setpdpe, and what is below if it succeeds. */
  lemma LinkDirs(m: seq<Spt>, c: nat, v: nat, key2: Key, g: Guest, a: Access, gt: GuestMem, gmm: Gmm)
    requires c < |m| && Inv(m, gmm) && Good(m, c, gmm) && GmmOk(gmm) && HasPdpt(m[c], v) && Linear(m[c], v)
    requires AllDirs(m, gt) && FreeBlank(m[c].c1) && WalkFits(gt, v, g) && 1 <= g.glvl <= 4 && key2 == KeyPd(m[c], g, v)
    ensures var gfnw := if a.write then Some(g.gfn0) else None; var e := SetPdpe(m, c, v, key2, gfnw, gmm);
      && |e.0| == |m| && AllDirs(e.0, gt) && FreeBlank(e.0[c].c1) && e.0[c].wp == m[c].wp
      && (e.1 ==> Inv(e.0, gmm) && PdpeSet(e.0[c], v) && Below(MapBelow(e.0, c, v, g, a, gmm), c, v, key2, gt))
  {
    var gfnw := if a.write then Some(g.gfn0) else None;
    PdpeInv(m, c, v, key2, gfnw, gmm);
    SetPdpeDirs(m, c, v, key2, gfnw, gt, gmm);
    SetPdpeFollows(m, c, v, key2, gfnw, gmm);
    var e := SetPdpe(m, c, v, key2, gfnw, gmm);
    assert Follows(e.0[c].c1, m[c].c1);
    if e.1 { MapBelowDirs(e.0, c, v, g, a, gt, gmm); }
  }

  ghost predicate Below(o: Outcome, c: nat, v: nat, key2: Key, gt: GuestMem) {
    o.Mapped? ==> c < |o.m| && AllDirs(o.m, gt) && Leads(o.m[c], v, key2)
  }

  lemma MapUpperDirs(m: seq<Spt>, c: nat, v: nat, key2: Key, g: Guest, a: Access, gt: GuestMem, gmm: Gmm)
    requires c < |m| && Inv(m, gmm) && Good(m, c, gmm) && GmmOk(gmm) && HasPdpt(m[c], v) && Linear(m[c], v)
    requires AllDirs(m, gt) && FreeBlank(m[c].c1) && WalkFits(gt, v, g) && 1 <= g.glvl <= 4 && key2 == KeyPd(m[c], g, v)
    ensures Below(MapUpper(m, c, v, key2, g, a, gmm), c, v, key2, gt)
  {
    var gfnw := if a.write then Some(g.gfn0) else None;
    PdpeInv(m, c, v, key2, gfnw, gmm);
    LinkDirs(m, c, v, key2, g, a, gt, gmm);
    var d := SetPdpe(m, c, v, key2, gfnw, gmm);
    if !d.1 { MapAgainDirs(d.0, c, v, key2, g, a, gt, gmm); }
  }

  /** map_page keeps the directories in agreement with guest memory, and the PDPE of v then points at
      the directory with the key of the fault. */
  lemma MapPageDirs(m: seq<Spt>, c: nat, v: nat, g: Guest, a: Access, gt: GuestMem, gmm: Gmm)
    requires c < |m| && Inv(m, gmm) && GmmOk(gmm) && Linear(m[c], v) && AllDirs(m, gt) && FreeBlank(m[c].c1) && WalkFits(gt, v, g)
    ensures Below(MapPage(m, c, v, g, a, gmm), c, v, KeyPd(m[c], g, v), gt)
  {
    if 1 <= g.glvl <= 4 {
      MapTopInv(m, c, v, gmm);
      var t := MapTop(m[c], v).0;
      assert t.c1 == m[c].c1 && t.c2 == m[c].c2 && DirsAgree(m[c], gt);
      TopDirs(t, m[c], gt);
      OneAgrees(m, c, t, gt);
      MapUpperDirs(m[c := t], c, v, KeyPd(m[c], g, v), g, a, gt, gmm);
    }
  }

  // ------------------------------------------------------------- steps of one vcpu

  lemma FreeBothDirs(s: Spt, gmm: Gmm)
    requires SptInv(s, gmm)
    ensures DirFollows(FreeBoth(s, gmm), s)
  {
    CleanFree1Sound(s, gmm);
    var r := CleanFree1(s, gmm);
    StatusKeys(r.c1, s.c1);
    FewerFollows(r, s);
    FreeModsDirs(r, gmm);
    DirFollowsTrans(FreeBoth(s, gmm), r, s);
  }

  lemma FreeModsDirs(s: Spt, gmm: Gmm)
    requires Core(s, gmm)
    ensures DirFollows(s.(c2 := FreeMods(s.c2, NoPde)), s)
  {
    FreeModsSound(s.c2, NoPde);
    var c := FreeMods(s.c2, NoPde);
    EachErased(c.page, s.c2.page, NoPde);
    ErasedFewer(c.page, s.c2.page);
    FewerDangling(c.page, s.c2.page, s.c1);
    FewerFollows(s.(c2 := c), s);
  }

  lemma FlushTlbDirs(s: Spt, gmm: Gmm)
    requires SptInv(s, gmm)
    ensures DirFollows(FlushTlb(s, gmm), s)
  {
    SameDirs(FlushTlb(s, gmm), s);
  }

  lemma ClearTopDirs(s: Spt, r: Spt, gmm: Gmm)
    requires Core(s, gmm) && r.c1 == s.c1 && r.c2 == s.c2
    ensures DirFollows(r, s)
  {
    SameDirs(r, s);
  }

  lemma UpdateCr3Dirs(s: Spt, levels: nat, wp: bool, gmm: Gmm)
    requires SptInv(s, gmm) && (levels == 3 || levels == 4)
    ensures DirFollows(UpdateCr3(s, levels, wp, gmm), s)
  {
    var q := s.(levels := levels, wp := wp);
    assert Core(q, gmm);
    ClearTopSound(q, gmm);
    var r := ClearTop(q);
    ClearTopDirs(s, r, gmm);
    FlushTlbDirs(r, gmm);
    FlushTlbSound(r, gmm);
    FreeBothDirs(FlushTlb(r, gmm), gmm);
    DirFollowsTrans(FlushTlb(r, gmm), r, s);
    DirFollowsTrans(UpdateCr3(s, levels, wp, gmm), FlushTlb(r, gmm), s);
  }

  lemma MarkEverythingDirs(s: Spt, gmm: Gmm)
    requires SptInv(s, gmm)
    ensures DirFollows(MarkEverything(s, gmm), s)
  {
    MarkedSound(s, gmm);
    MarkNormalsSound(s.c1, Zero);
    MarkNormalsSound(s.c2, NoPde);
    var r := MarkEverything(s, gmm);
    StatusKeys(r.c1, s.c1);
    SameFewer(s.c2.page);
    FewerFollows(r, s);
  }

  lemma ClearAllDirs(s: Spt, gmm: Gmm)
    requires SptInv(s, gmm)
    ensures DirFollows(ClearAll(s, gmm), s)
  {
    ClearTopSound(s, gmm);
    var r := ClearTop(s);
    ClearTopDirs(s, r, gmm);
    MarkedSound(r, gmm);
    MarkEverythingDirs(r, gmm);
    FreeBothDirs(MarkEverything(r, gmm), gmm);
    DirFollowsTrans(MarkEverything(r, gmm), r, s);
    DirFollowsTrans(ClearAll(s, gmm), MarkEverything(r, gmm), s);
  }

  lemma InvalidateDirs(s: Spt, gmm: Gmm)
    requires SptInv(s, gmm)
    ensures DirFollows(Invalidate(s, gmm), s)
  {
    InvalidateSound(s, gmm);
    ClearModsSound(s.c1, s.c1.modL, Zero);
    ClearModsSound(s.c2, s.c2.modL, NoPde);
    var r := Invalidate(s, gmm);
    EachErased(r.c2.page, s.c2.page, NoPde);
    ErasedFewer(r.c2.page, s.c2.page);
    StatusKeys(r.c1, s.c1);
    FewerFollows(r, s);
  }

  lemma LocalDirs(s: Spt, e: Event, gmm: Gmm)
    requires SptInv(s, gmm) && LocalEvent(s, e)
    ensures DirFollows(Local(s, e, gmm), s)
  {
    match e
    case MovCr3(_, levels, wp) => UpdateCr3Dirs(s, levels, wp, gmm);
    case Invlpg(_) => InvalidateDirs(s, gmm);
    case FlushAll(_) => ClearAllDirs(s, gmm);
    case TlbFlush(_) => FlushTlbDirs(s, gmm);
    case MmioClear(_, lo, hi) => UnmapDirs(s, lo, hi, gmm);
    case Hardware(_, y, w) => UsePteDirs(s, y, w, gmm);
  }

  lemma UnmapDirs(s: Spt, lo: nat, hi: nat, gmm: Gmm)
    requires SptInv(s, gmm)
    ensures DirFollows(UnmapRange(s, lo, hi, gmm), s)
  {
    SameDirs(UnmapRange(s, lo, hi, gmm), s);
  }

  lemma UsePteDirs(s: Spt, y: Ptr, write: bool, gmm: Gmm)
    requires SptInv(s, gmm) && InPages(s.c1.page, y)
    ensures DirFollows(UsePte(s, y, write), s)
  {
    SameDirs(UsePte(s, y, write), s);
  }

  lemma FreshDirs(s: Spt, gt: GuestMem)
    requires Fresh(s)
    ensures DirsAgree(s, gt)
  {
    forall i | 0 <= i < |s.c2.key| ensures Empty(s.c2, i) {
    }
    forall y ensures DirOk(s, y, gt) {
      if InPages(s.c2.page, y) { assert s.c2.page[y.slot][y.idx].NoPde?; }
    }
  }
}
