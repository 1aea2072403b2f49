/** Runs with guest memory (cpu_mmu_spt.c, SPT_3): guest writes are steps too, possible only through
    a writable translation, and the shadow page tables agree with guest memory after every run. */
module SptAgree {
  import opened Lists
  import opened Tables
  import opened LazyClear
  import opened ShadowCache
  import opened RwMap
  import opened BackRefs
  import opened Spt3
  import opened SptMap
  import opened SptUpper
  import opened SptFault
  import opened SptRuns
  import opened SptGuest
  import opened SptCoherent
  import opened SptDirs
  import opened SptDirAgree

  ghost predicate SptAgrees(s: Spt, gt: GuestMem, gmm: Gmm) {
    Agrees(s.c1, gt, gmm) && FreeBlank(s.c1)
  }

  ghost predicate AllAgree(m: seq<Spt>, gt: GuestMem, gmm: Gmm) {
    forall t :: 0 <= t < |m| ==> SptAgrees(m[t], gt, gmm)
  }

  lemma AgreeOn(s: Spt, r: Spt, gt: GuestMem, gmm: Gmm)
    requires Follows(r.c1, s.c1) && SptAgrees(s, gt, gmm)
    ensures SptAgrees(r, gt, gmm)
  {
    FollowsAgrees(r.c1, s.c1, gt, gmm);
  }

  lemma AllAgreeOn(m: seq<Spt>, n: seq<Spt>, gt: GuestMem, gmm: Gmm)
    requires FollowsAll(n, m) && AllAgree(m, gt, gmm)
    ensures AllAgree(n, gt, gmm)
  {
    forall t | 0 <= t < |n| ensures SptAgrees(n[t], gt, gmm) { AgreeOn(m[t], n[t], gt, gmm); }
  }

  // ------------------------------------------------------------- the PTE

  /** What may be written at y: in a normal table, an entry that agrees with the guest's. */
  ghost predicate MayWrite(c: Cache<Pte>, y: Ptr, e: Pte, key: Key, gt: GuestMem, gmm: Gmm) {
    && y.slot < |c.key| && !St(c, y.slot).Free?
    && (St(c, y.slot).Norm? ==> St(c, y.slot) == Norm(key) && Faithful(e, key, y.idx, gt, gmm))
  }

  lemma WrittenAgrees(s: Spt, y: Ptr, e: Pte, key: Key, gt: GuestMem, gmm: Gmm)
    requires Core(s, gmm) && SptAgrees(s, gt, gmm) && InPages(s.c1.page, y) && Recorded(s.c1.clear[y.slot], y.idx)
    requires MayWrite(s.c1, y, e, key, gt, gmm)
    ensures SptAgrees(WrPte(s, y, e), gt, gmm)
  {
    WrPteCore(s, y, e, gmm);
    var c, d := s.c1, WrPte(s, y, e).c1;
    forall i, k | 0 <= i < |d.key| && St(d, i).Norm? && 0 <= k < |d.page[i]| ensures Faithful(d.page[i][k], St(d, i).key, k, gt, gmm) {
      if Ptr(i, k) != y {
        assert Rd(d.page, Ptr(i, k)) == Rd(c.page, Ptr(i, k));
        assert St(c, i).Norm? && Faithful(c.page[i][k], St(c, i).key, k, gt, gmm);
      }
    }
    forall i | 0 <= i < |d.key| && St(d, i).Free? ensures Blank(d, i) {
      assert Blank(c, i) && d.page[i] == c.page[i];
    }
  }

  lemma RegisteredAgrees(s: Spt, y: Ptr, g: nat, e: Pte, key: Key, gt: GuestMem, gmm: Gmm)
    requires Core(s, gmm) && SptAgrees(s, gt, gmm) && InPages(s.c1.page, y) && Recorded(s.c1.clear[y.slot], y.idx) && Reg(s.c1.page, s.rw)
    requires MayWrite(s.c1, y, e, key, gt, gmm) && e.Pte? && e.addr == gmm.hp(g) && !gmm.rom(g)
    ensures SptAgrees(Registered(s, y, g, e, gmm), gt, gmm)
  {
    WrittenAgrees(s, y, e, key, gt, gmm);
    WrPteCore(s, y, e, gmm);
    RegisterCore(s, y, g, e, gmm);
    var q, r := WrPte(s, y, e), Registered(s, y, g, e, gmm);
    WeakerLesser(r.c1.page, q.c1.page);
    SameStatusFollows(r.c1, q.c1);
    AgreeOn(q, r, gt, gmm);
  }

  lemma MarkBothFollows(s: Spt, g: nat, gmm: Gmm)
    requires Core(s, gmm)
    ensures Follows(MarkBoth(s, g, gmm).c1, s.c1)
  {
    MarkAllSound(s.c1, g, Zero);
    SamePagesLesser(s.c1.page);
    DemotedFollows(MarkAll(s.c1, g), s.c1);
  }

  lemma ForgetFollows(s: Spt, g: nat, y: Ptr, gmm: Gmm)
    requires Core(s, gmm) && InPages(s.c1.page, y)
    ensures Follows(s.c1.(page := Forget(s.c1.page, s.rw, g, y).0), s.c1)
  {
    var p := Forget(s.c1.page, s.rw, g, y).0;
    forall z | InPages(s.c1.page, z) ensures Sub(Rd(p, z), Rd(s.c1.page, z)) {
    }
    SameStatusFollows(s.c1.(page := p), s.c1);
  }

  lemma UpdateShadowFollows(m: seq<Spt>, c: nat, g: nat, y: Ptr, needrw: bool, gmm: Gmm)
    requires c < |m| && AllCore(m, gmm) && InPages(m[c].c1.page, y)
    ensures FollowsAll(UpdateShadow(m, c, g, y, needrw, gmm), m)
  {
    var r := UpdateShadow(m, c, g, y, needrw, gmm);
    if needrw {
      forall t | 0 <= t < |m| ensures Follows(r[t].c1, m[t].c1) { MarkBothFollows(m[t], g, gmm); }
    } else {
      ReadFollows(m, c, g, y, gmm);
    }
  }

  lemma ReadFollows(m: seq<Spt>, c: nat, g: nat, y: Ptr, gmm: Gmm)
    requires c < |m| && AllCore(m, gmm) && InPages(m[c].c1.page, y)
    ensures var f := Forget(m[c].c1.page, m[c].rw, g, y);
      FollowsAll(m[c := m[c].(c1 := m[c].c1.(page := f.0), rw := f.1)], m) && FollowsAll(m, m)
  {
    var f := Forget(m[c].c1.page, m[c].rw, g, y);
    ForgetFollows(m[c], g, y, gmm);
    OneFollows(m, c, m[c].(c1 := m[c].c1.(page := f.0), rw := f.1));
    SamePagesLesser(m[c].c1.page);
    SameStatusFollows(m[c].c1, m[c].c1);
    OneFollows(m, c, m[c]);
    assert m[c := m[c]] == m;
  }

  lemma SetPteAgrees(m: seq<Spt>, c: nat, y: Ptr, g: nat, p: Perm, a: Access, key: Key, gt: GuestMem, gmm: Gmm)
    requires c < |m| && Inv(m, gmm) && GmmOk(gmm) && AllAgree(m, gt, gmm)
    requires InPages(m[c].c1.page, y) && Recorded(m[c].c1.clear[y.slot], y.idx)
    requires MayWrite(m[c].c1, y, NewPte(p, a, gmm.hp(g), gmm.rom(g)), key, gt, gmm)
    ensures Good(m, c, gmm) && AllAgree(SetPte(m, c, y, g, p, a, gmm), gt, gmm)
  {
    var e := NewPte(p, a, gmm.hp(g), gmm.rom(g));
    InvGood(m, c, gmm);
    assert SptAgrees(m[c], gt, gmm);
    if !SameButAD(Rd(m[c].c1.page, y), e) {
      if !e.rw {
        WrittenAgrees(m[c], y, e, key, gt, gmm);
      } else {
        WritableAgrees(m, c, y, g, e, a.write, key, gt, gmm);
      }
    }
  }

  lemma WritableAgrees(m: seq<Spt>, c: nat, y: Ptr, g: nat, e: Pte, needrw: bool, key: Key, gt: GuestMem, gmm: Gmm)
    requires c < |m| && AllCore(m, gmm) && Reg(m[c].c1.page, m[c].rw) && AllAgree(m, gt, gmm)
    requires InPages(m[c].c1.page, y) && Recorded(m[c].c1.clear[y.slot], y.idx)
    requires MayWrite(m[c].c1, y, e, key, gt, gmm) && e.Pte? && e.addr == gmm.hp(g) && !gmm.rom(g)
    ensures var s := Registered(m[c], y, g, e, gmm);
      && AllCore(m[c := s], gmm) && InPages(s.c1.page, y)
      && AllAgree(UpdateShadow(m[c := s], c, g, y, needrw, gmm), gt, gmm)
  {
    assert SptAgrees(m[c], gt, gmm);
    RegisteredAgrees(m[c], y, g, e, key, gt, gmm);
    RegisterCore(m[c], y, g, e, gmm);
    SettledAgrees(m[c := Registered(m[c], y, g, e, gmm)], c, g, y, needrw, gt, gmm);
  }

  lemma SettledAgrees(n: seq<Spt>, c: nat, g: nat, y: Ptr, needrw: bool, gt: GuestMem, gmm: Gmm)
    requires c < |n| && AllCore(n, gmm) && InPages(n[c].c1.page, y) && AllAgree(n, gt, gmm)
    ensures AllAgree(UpdateShadow(n, c, g, y, needrw, gmm), gt, gmm)
  {
    UpdateShadowFollows(n, c, g, y, needrw, gmm);
    AllAgreeOn(n, UpdateShadow(n, c, g, y, needrw, gmm), gt, gmm);
  }

  // ------------------------------------------------------------- map_page

  lemma NewFaithful(s: Spt, g: Guest, v: nat, a: Access, gt: GuestMem, gmm: Gmm)
    requires WalkFits(gt, v, g)
    ensures Faithful(NewPte(Perm0(s, g, a), a, gmm.hp(g.gfn0), gmm.rom(g.gfn0)), KeyPt(s, g, v), I1(v), gt, gmm)
  {
    var key := KeyPt(s, g, v);
    if key.large {
      LargeStart(g.gfn0, I1(v));
    } else {
      IndexIs(v);
      assert key.to3 * 512 + I1(v) == GuestIndex(g.glvl, v);
      NewBounded(s, g, a);
    }
  }

  lemma LargeStart(f: nat, i: nat)
    requires f % 0x200 == i
    ensures (f - f % 0x200) % 512 == 0 && f - f % 0x200 + i == f
  {
  }

  /** The rights map_page gives are bounded by those it was given. */
  lemma NewBounded(s: Spt, g: Guest, a: Access)
    ensures var p := Perm0(s, g, a); Bounded(p.rw, p.us, p.nx, !s.wp, g.m0.rw, g.m0.us, g.m0.nx)
  {
  }

  lemma MapBelowAgrees(m: seq<Spt>, c: nat, v: nat, g: Guest, a: Access, gt: GuestMem, gmm: Gmm)
    requires c < |m| && Inv(m, gmm) && GmmOk(gmm) && PdpeSet(m[c], v) && AllAgree(m, gt, gmm) && WalkFits(gt, v, g)
    ensures var o := MapBelow(m, c, v, g, a, gmm); o.Mapped? ==> AllAgree(o.m, gt, gmm)
  {
    var gfnw := if a.write then Some(g.gfn0) else None;
    var y2 := Ptr(RdPdpe(m[c], v).slot, I2(v));
    var key, p1 := KeyPt(m[c], g, v), Perm1(m[c], g, a);
    assert SptAgrees(m[c], gt, gmm);
    PdeInv(m, c, y2, key, gfnw, I1(v), p1, gmm);
    SetPdeFollows(m, c, y2, key, gfnw, I1(v), p1, gmm);
    var n := SetPde(m, c, y2, key, gfnw, I1(v), p1, gmm);
    AllAgreeOn(m, n, gt, gmm);
    if !(gmm.rom(g.gfn0) && a.write) {
      NewFaithful(m[c], g, v, a, gt, gmm);
      assert SptInv(n[c], gmm);
      SetPteAgrees(n, c, Ptr(Rd(n[c].c2.page, y2).to, I1(v)), g.gfn0, Perm0(m[c], g, a), a, key, gt, gmm);
    }
  }

  /** The upper tables do not matter. */
  lemma UpperAgrees(m: seq<Spt>, c: nat, r: Spt, gt: GuestMem, gmm: Gmm)
    requires c < |m| && AllAgree(m, gt, gmm) && r.c1 == m[c].c1
    ensures AllAgree(m[c := r], gt, gmm)
  {
  }

  lemma MapAgainAgrees(d: seq<Spt>, c: nat, v: nat, key2: Key, g: Guest, a: Access, gt: GuestMem, gmm: Gmm)
    requires c < |d| && Good(d, c, gmm) && GmmOk(gmm) && WriteProtected(d, gmm) && Linear(d[c], v) && AllAgree(d, gt, gmm) && WalkFits(gt, v, g)
    ensures var o := MapAgain(d, c, v, key2, g, a, gmm); o.Mapped? ==> AllAgree(o.m, gt, gmm)
  {
    var gfnw := if a.write then Some(g.gfn0) else None;
    RetryInv(d, c, v, gmm);
    var r := Mapsub(d[c], v, true).0;
    MapsubSound(d[c], v, true, gmm);
    UpperAgrees(d, c, r, gt, gmm);
    var m := d[c := r];
    PdpeInv(m, c, v, key2, gfnw, gmm);
    SetPdpeFollows(m, c, v, key2, gfnw, gmm);
    var e := SetPdpe(m, c, v, key2, gfnw, gmm);
    AllAgreeOn(m, e.0, gt, gmm);
    if e.1 { MapBelowAgrees(e.0, c, v, g, a, gt, gmm); }
  }

  lemma MapUpperAgrees(m: seq<Spt>, c: nat, v: nat, key2: Key, g: Guest, a: Access, gt: GuestMem, gmm: Gmm)
    requires c < |m| && Inv(m, gmm) && Good(m, c, gmm) && GmmOk(gmm) && HasPdpt(m[c], v) && Linear(m[c], v)
    requires AllAgree(m, gt, gmm) && WalkFits(gt, v, g)
    ensures var o := MapUpper(m, c, v, key2, g, a, gmm); o.Mapped? ==> AllAgree(o.m, gt, gmm)
  {
    var gfnw := if a.write then Some(g.gfn0) else None;
    PdpeInv(m, c, v, key2, gfnw, gmm);
    SetPdpeFollows(m, c, v, key2, gfnw, gmm);
    var d := SetPdpe(m, c, v, key2, gfnw, gmm);
    AllAgreeOn(m, d.0, gt, gmm);
    if d.1 { MapBelowAgrees(d.0, c, v, g, a, gt, gmm); } else { MapAgainAgrees(d.0, c, v, key2, g, a, gt, gmm); }
  }

  /** map_page keeps the shadow page tables in agreement with guest memory. */
  lemma MapPageAgrees(m: seq<Spt>, c: nat, v: nat, g: Guest, a: Access, gt: GuestMem, gmm: Gmm)
    requires c < |m| && Inv(m, gmm) && GmmOk(gmm) && Linear(m[c], v) && AllAgree(m, gt, gmm) && WalkFits(gt, v, g)
    ensures var o := MapPage(m, c, v, g, a, gmm); o.Mapped? ==> AllAgree(o.m, gt, gmm)
  {
    if 1 <= g.glvl <= 4 {
      MapTopInv(m, c, v, gmm);
      var t := MapTop(m[c], v);
      TopSame(m[c], v);
      UpperAgrees(m, c, t.0, gt, gmm);
      MapUpperAgrees(m[c := t.0], c, v, KeyPd(m[c], g, v), g, a, gt, gmm);
    }
  }

  lemma TopSame(s: Spt, v: nat)
    requires Shape(s)
    ensures MapTop(s, v).0.c1 == s.c1
  {
  }

  // ------------------------------------------------------------- steps of one vcpu

  lemma FreeBothFollows(s: Spt, gmm: Gmm)
    requires SptInv(s, gmm)
    ensures Follows(FreeBoth(s, gmm).c1, s.c1)
  {
    CleanFree1Sound(s, gmm);
    CleanFree1Follows(s, gmm);
  }

  lemma FlushTlbFollows(s: Spt, gmm: Gmm)
    requires SptInv(s, gmm)
    ensures Follows(FlushTlb(s, gmm).c1, s.c1)
  {
    DrainShape(s.c1.page, s.rw, gmm);
    WeakerLesser(FlushTlb(s, gmm).c1.page, s.c1.page);
    SameStatusFollows(FlushTlb(s, gmm).c1, s.c1);
  }

  lemma UpdateCr3Follows(s: Spt, levels: nat, wp: bool, gmm: Gmm)
    requires SptInv(s, gmm) && (levels == 3 || levels == 4)
    ensures Follows(UpdateCr3(s, levels, wp, gmm).c1, s.c1)
  {
    var q := s.(levels := levels, wp := wp);
    assert Core(q, gmm);
    ClearTopSound(q, gmm);
    var r := ClearTop(q);
    FlushTlbFollows(r, gmm);
    FlushTlbSound(r, gmm);
    FreeBothFollows(FlushTlb(r, gmm), gmm);
    FollowsTrans(UpdateCr3(s, levels, wp, gmm).c1, FlushTlb(r, gmm).c1, s.c1);
  }

  lemma ClearAllFollows(s: Spt, gmm: Gmm)
    requires SptInv(s, gmm)
    ensures Follows(ClearAll(s, gmm).c1, s.c1)
  {
    ClearTopSound(s, gmm);
    var r := ClearTop(s);
    MarkedSound(r, gmm);
    MarkNormalsSound(s.c1, Zero);
    SamePagesLesser(s.c1.page);
    DemotedFollows(MarkEverything(r, gmm).c1, s.c1);
    FreeBothFollows(MarkEverything(r, gmm), gmm);
    FollowsTrans(ClearAll(s, gmm).c1, MarkEverything(r, gmm).c1, s.c1);
  }

  lemma InvalidateFollows(s: Spt, gmm: Gmm)
    requires SptInv(s, gmm)
    ensures Follows(Invalidate(s, gmm).c1, s.c1)
  {
    ClearModsSound(s.c1, s.c1.modL, Zero);
    var r := Invalidate(s, gmm);
    EachErased(r.c1.page, s.c1.page, Zero);
    ErasedLesser(r.c1.page, s.c1.page);
    SameStatusFollows(r.c1, s.c1);
  }

  lemma UnmapFollows(s: Spt, lo: nat, hi: nat, gmm: Gmm)
    requires SptInv(s, gmm)
    ensures Follows(UnmapRange(s, lo, hi, gmm).c1, s.c1)
  {
    var r := UnmapRange(s, lo, hi, gmm);
    assert Erased(r.c1.page, s.c1.page, Zero);
    ErasedLesser(r.c1.page, s.c1.page);
    SameStatusFollows(r.c1, s.c1);
  }

  lemma UsePteFollows(s: Spt, y: Ptr, write: bool, gmm: Gmm)
    requires SptInv(s, gmm) && InPages(s.c1.page, y)
    ensures Follows(UsePte(s, y, write).c1, s.c1)
  {
    var r := UsePte(s, y, write);
    forall z | InPages(s.c1.page, z) ensures Sub(Rd(r.c1.page, z), Rd(s.c1.page, z)) {
    }
    SameStatusFollows(r.c1, s.c1);
  }

  lemma LocalFollows(s: Spt, e: Event, gmm: Gmm)
    requires SptInv(s, gmm) && LocalEvent(s, e)
    ensures Follows(Local(s, e, gmm).c1, s.c1)
  {
    match e
    case MovCr3(_, levels, wp) => UpdateCr3Follows(s, levels, wp, gmm);
    case Invlpg(_) => InvalidateFollows(s, gmm);
    case FlushAll(_) => ClearAllFollows(s, gmm);
    case TlbFlush(_) => FlushTlbFollows(s, gmm);
    case MmioClear(_, lo, hi) => UnmapFollows(s, lo, hi, gmm);
    case Hardware(_, y, w) => UsePteFollows(s, y, w, gmm);
  }

  lemma FreshAgrees(s: Spt, gt: GuestMem, gmm: Gmm)
    requires Fresh(s)
    ensures SptAgrees(s, gt, gmm)
  {
    forall i | 0 <= i < |s.c1.key| ensures Blank(s.c1, i) && St(s.c1, i).Free? {
    }
  }

  // ------------------------------------------------------------- runs

  datatype World = World(m: seq<Spt>, gt: GuestMem)

  datatype Act =
    | Vmm(e: Event)                                 // a step of the shadow page table machine
    | GuestWrite(f: nat, i: nat, x: Entry)          // the guest writes an entry of a page table
    | Dirtied(f: nat, i: nat)                       // get_pte_sub sets D in a guest entry

  ghost predicate WInv(w: World, gmm: Gmm) {
    Inv(w.m, gmm) && AllAgree(w.m, w.gt, gmm) && AllDirs(w.m, w.gt)
  }

  /** Some vcpu has a writable translation to the guest frame. */
  ghost predicate CanWrite(m: seq<Spt>, f: nat, gmm: Gmm) {
    exists u :: 0 <= u < |m| && !NoWriters(m[u].c1.page, gmm.hp(f))
  }

  function Put(gt: GuestMem, f: nat, i: nat, x: Entry): GuestMem {
    (g: nat, k: nat) => if g == f && k == i then x else gt(g, k)
  }

  /** One step; a page fault hands map_page what guest memory holds. */
  ghost function Step(w: World, a: Act, gmm: Gmm): World
    requires WInv(w, gmm) && GmmOk(gmm)
  {
    match a
    case Vmm(e) =>
      if e.PageFault? && !WalkFits(w.gt, e.v, e.g) then w
      else
        var o := Next(w.m, e, gmm);
        if o.Mapped? then w.(m := o.m) else w
    case GuestWrite(f, i, x) => if CanWrite(w.m, f, gmm) then w.(gt := Put(w.gt, f, i, x)) else w
    case Dirtied(f, i) => w.(gt := Put(w.gt, f, i, w.gt(f, i).(dirty := true)))
  }

  /** The directories after a step. */
  lemma VmmDirs(m: seq<Spt>, e: Event, gt: GuestMem, gmm: Gmm)
    requires Inv(m, gmm) && GmmOk(gmm) && AllAgree(m, gt, gmm) && AllDirs(m, gt) && (e.PageFault? ==> WalkFits(gt, e.v, e.g))
    ensures var o := Next(m, e, gmm); o.Mapped? ==> AllDirs(o.m, gt)
  {
    if Enabled(m, e, gmm) {
      if e.Boot? {
        FreshDirs(e.s, gt);
      } else if e.PageFault? {
        assert SptAgrees(m[e.c], gt, gmm);
        MapPageDirs(m, e.c, e.v, e.g, e.a, gt, gmm);
      } else {
        LocalDirsAgree(m, e, gt, gmm);
      }
    }
  }

  lemma LocalDirsAgree(m: seq<Spt>, e: Event, gt: GuestMem, gmm: Gmm)
    requires AllSpt(m, gmm) && AllDirs(m, gt) && !e.Boot? && e.c < |m| && LocalEvent(m[e.c], e)
    ensures AllDirs(m[e.c := Local(m[e.c], e, gmm)], gt)
  {
    assert SptInv(m[e.c], gmm) && DirsAgree(m[e.c], gt);
    LocalDirs(m[e.c], e, gmm);
    DirFollowsAgree(Local(m[e.c], e, gmm), m[e.c], gt);
    OneAgrees(m, e.c, Local(m[e.c], e, gmm), gt);
  }

  /** The tables after a step. */
  lemma VmmStep(m: seq<Spt>, e: Event, gt: GuestMem, gmm: Gmm)
    requires Inv(m, gmm) && GmmOk(gmm) && AllAgree(m, gt, gmm) && (e.PageFault? ==> WalkFits(gt, e.v, e.g))
    ensures var o := Next(m, e, gmm); o.Mapped? ==> AllAgree(o.m, gt, gmm)
  {
    if Enabled(m, e, gmm) {
      if e.Boot? {
        FreshAgrees(e.s, gt, gmm);
      } else if e.PageFault? {
        MapPageAgrees(m, e.c, e.v, e.g, e.a, gt, gmm);
      } else {
        LocalAgrees(m, e, gt, gmm);
      }
    }
  }

  lemma LocalAgrees(m: seq<Spt>, e: Event, gt: GuestMem, gmm: Gmm)
    requires AllSpt(m, gmm) && AllAgree(m, gt, gmm) && !e.Boot? && e.c < |m| && LocalEvent(m[e.c], e)
    ensures AllAgree(m[e.c := Local(m[e.c], e, gmm)], gt, gmm)
  {
    assert SptInv(m[e.c], gmm) && SptAgrees(m[e.c], gt, gmm);
    LocalFollows(m[e.c], e, gmm);
    AgreeOn(m[e.c], Local(m[e.c], e, gmm), gt, gmm);
  }

  /** A table that can be written is shadowed by no normal slot, so no slot can disagree. */
  lemma WriteAgrees(w: World, f: nat, i: nat, x: Entry, gmm: Gmm)
    requires WInv(w, gmm) && CanWrite(w.m, f, gmm)
    ensures AllAgree(w.m, Put(w.gt, f, i, x), gmm)
  {
    forall t | 0 <= t < |w.m| ensures SptAgrees(w.m[t], Put(w.gt, f, i, x), gmm) {
      var c := w.m[t].c1;
      assert SptAgrees(w.m[t], w.gt, gmm);
      NotShadowed(w.m, t, f, gmm);
      forall k, e | 0 <= k < |c.key| && St(c, k).Norm? && 0 <= e < |c.page[k]| ensures Faithful(c.page[k][e], St(c, k).key, e, Put(w.gt, f, i, x), gmm) {
        assert Faithful(c.page[k][e], St(c, k).key, e, w.gt, gmm);
      }
    }
  }

  lemma NotShadowed(m: seq<Spt>, t: nat, f: nat, gmm: Gmm)
    requires WriteProtected(m, gmm) && CanWrite(m, f, gmm) && t < |m|
    ensures forall k :: 0 <= k < |m[t].c1.key| && St(m[t].c1, k).Norm? && !St(m[t].c1, k).key.large ==> St(m[t].c1, k).key.gfn != f
  {
    var u :| 0 <= u < |m| && !NoWriters(m[u].c1.page, gmm.hp(f));
    assert !Shadows(m[t], f);
    forall k | 0 <= k < |m[t].c1.key| && St(m[t].c1, k).Norm? && !St(m[t].c1, k).key.large ensures St(m[t].c1, k).key.gfn != f {
      assert !ProtectsSt(St(m[t].c1, k), f);
    }
  }

  /** The same for the directories. */
  lemma WriteDirsAgree(w: World, f: nat, i: nat, x: Entry, gmm: Gmm)
    requires WInv(w, gmm) && CanWrite(w.m, f, gmm)
    ensures AllDirs(w.m, Put(w.gt, f, i, x))
  {
    forall t | 0 <= t < |w.m| ensures DirsAgree(w.m[t], Put(w.gt, f, i, x)) {
      var s := w.m[t];
      assert DirsAgree(s, w.gt);
      DirNotShadowed(w.m, t, f, gmm);
      OtherMemory(s, w.gt, Put(w.gt, f, i, x));
    }
  }

  lemma DirNotShadowed(m: seq<Spt>, t: nat, f: nat, gmm: Gmm)
    requires WriteProtected(m, gmm) && CanWrite(m, f, gmm) && t < |m|
    ensures forall k :: 0 <= k < |m[t].c2.key| && St(m[t].c2, k).Norm? && !St(m[t].c2, k).key.large ==> St(m[t].c2, k).key.gfn != f
  {
    var u :| 0 <= u < |m| && !NoWriters(m[u].c1.page, gmm.hp(f));
    assert !Shadows(m[t], f);
    forall k | 0 <= k < |m[t].c2.key| && St(m[t].c2, k).Norm? && !St(m[t].c2, k).key.large ensures St(m[t].c2, k).key.gfn != f {
      assert !ProtectsSt(St(m[t].c2, k), f);
    }
  }

  lemma DirtyDirs(w: World, f: nat, i: nat, gmm: Gmm)
    requires WInv(w, gmm)
    ensures AllDirs(w.m, Put(w.gt, f, i, w.gt(f, i).(dirty := true)))
  {
    forall t | 0 <= t < |w.m| ensures DirsAgree(w.m[t], Put(w.gt, f, i, w.gt(f, i).(dirty := true))) {
      assert DirsAgree(w.m[t], w.gt);
      OtherMemory(w.m[t], w.gt, Put(w.gt, f, i, w.gt(f, i).(dirty := true)));
    }
  }

  lemma DirtyAgrees(w: World, f: nat, i: nat, gmm: Gmm)
    requires WInv(w, gmm)
    ensures AllAgree(w.m, Put(w.gt, f, i, w.gt(f, i).(dirty := true)), gmm)
  {
    forall t | 0 <= t < |w.m| ensures SptAgrees(w.m[t], Put(w.gt, f, i, w.gt(f, i).(dirty := true)), gmm) {
      assert SptAgrees(w.m[t], w.gt, gmm);
    }
  }

  lemma StepInv(w: World, a: Act, gmm: Gmm)
    requires WInv(w, gmm) && GmmOk(gmm)
    ensures WInv(Step(w, a, gmm), gmm)
  {
    match a
    case Vmm(e) =>
      if !(e.PageFault? && !WalkFits(w.gt, e.v, e.g)) {
        NextSound(w.m, e, gmm);
        VmmStep(w.m, e, w.gt, gmm);
        VmmDirs(w.m, e, w.gt, gmm);
      }
    case GuestWrite(f, i, x) => 
      if CanWrite(w.m, f, gmm) {
        WriteAgrees(w, f, i, x, gmm);
        WriteDirsAgree(w, f, i, x, gmm);
      }
    case Dirtied(f, i) =>
      DirtyAgrees(w, f, i, gmm);
      DirtyDirs(w, f, i, gmm);
  }

  ghost function Run(w: World, acts: seq<Act>, gmm: Gmm): (d: World)
    requires WInv(w, gmm) && GmmOk(gmm)
    ensures WInv(d, gmm)
    decreases |acts|
  {
    if acts == [] then w
    else
      StepInv(w, acts[0], gmm);
      Run(Step(w, acts[0], gmm), acts[1..], gmm)
  }

  /** In every run of any number of vcpus in which the guest writes its tables wherever it has a
      writable translation: a present PTE of a normal shadow page table has the address of the
      guest's entry as it is now, or of the frame at its place in the guest's large page, and no
      right that the guest's entry does not give. */
  lemma TablesAgree(gt: GuestMem, acts: seq<Act>, gmm: Gmm, t: nat, i: nat, e: nat)
    requires GmmOk(gmm)
    requires var m := Run(World([], gt), acts, gmm).m; t < |m| && i < |m[t].c1.key| && e < ENTRIES && St(m[t].c1, i).Norm?
    ensures var w := Run(World([], gt), acts, gmm);
      && |w.m[t].c1.page| == |w.m[t].c1.key| && |w.m[t].c1.page[i]| == ENTRIES
      && Faithful(w.m[t].c1.page[i][e], w.m[t].c1.key[i], e, w.gt, gmm)
  {
    var w := Run(World([], gt), acts, gmm);
    assert SptInv(w.m[t], gmm) && SptAgrees(w.m[t], w.gt, gmm);
  }

  /** In every such run a PDE of a normal shadow page directory points at the table of the guest's
      directory entry as it is now, or of the 2 MiB at its place in the guest's 1 GiB page. */
  lemma DirectoriesAgree(gt: GuestMem, acts: seq<Act>, gmm: Gmm, t: nat, y: Ptr)
    requires GmmOk(gmm)
    requires var m := Run(World([], gt), acts, gmm).m;
      t < |m| && InPages(m[t].c2.page, y) && y.slot < |m[t].c2.key| && St(m[t].c2, y.slot).Norm? && Rd(m[t].c2.page, y).Pde?
    ensures var w := Run(World([], gt), acts, gmm); var s := w.m[t]; var d := Rd(s.c2.page, y);
      d.to < |s.c1.key| && d.to !in s.c1.freeL && DirFaithful(d, s.c1.key[d.to], s.c2.key[y.slot], y.idx, w.gt)
  {
    var w := Run(World([], gt), acts, gmm);
    assert SptInv(w.m[t], gmm) && DirsAgree(w.m[t], w.gt);
    assert DirOk(w.m[t], y, w.gt);
  }
}
