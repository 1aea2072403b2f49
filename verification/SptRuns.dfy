/** Runs of the shadow page table machine (cpu_mmu_spt.c, SPT_3): every step any vcpu or
    its hardware can take, and what holds after any number of them. */
module SptRuns {
  import opened Lists
  import opened Tables
  import opened LazyClear
  import opened ShadowCache
  import opened RwMap
  import opened BackRefs
  import opened Spt3
  import opened SptMap
  import opened SptUpper
  import opened SptFault

  datatype Event =
    | Boot(s: Spt)                                     // init_vcpu, up to the first MOV CR3
    | PageFault(c: nat, v: nat, g: Guest, a: Access)   // map_page
    | MovCr3(c: nat, levels: nat, wp: bool)            // update_cr3
    | Invlpg(c: nat)                                   // invalidate_page
    | FlushAll(c: nat)                                 // clear_all
    | TlbFlush(c: nat)                                 // spt_tlbflush
    | MmioClear(c: nat, lo: nat, hi: nat)              // extern_mapsearch on the current vcpu
    | Hardware(c: nat, y: Ptr, write: bool)            // the processor sets A and D

  // ------------------------------------------------------------- init_vcpu

  ghost predicate AllFree(n: nat, freeL: seq<nat>) {
    NoDup(freeL) && Below(freeL, n) && forall i :: 0 <= i < n ==> i in freeL
  }

  ghost predicate EmptyCache<E>(c: Cache<E>, zero: E) {
    && 0 < |c.key| == |c.modified| == |c.clear| == |c.page|
    && c.modL == [] && c.normL == [] && AllFree(|c.key|, c.freeL)
    && 0 < |c.hash| && (forall h :: 0 <= h < |c.hash| ==> c.hash[h] == [])
    && (forall i :: 0 <= i < |c.key| ==> c.clear[i] == NOTHING && c.page[i] == Zeros(zero))
  }

  ghost predicate EmptyRwmap(rw: Rwmap) {
    && 0 < |rw.gfn| == |rw.fail| == |rw.pte| == |rw.hphys|
    && rw.failL == [] && rw.normL == [] && AllFree(|rw.gfn|, rw.freeL)
    && 0 < |rw.hash| && (forall h :: 0 <= h < |rw.hash| ==> rw.hash[h] == [])
  }

  ghost predicate EmptyMap1(m: Map1, n: nat) {
    && 0 < |m.s1| == |m.pde| && m.listL == [] && AllFree(|m.s1|, m.freeL)
    && |m.refs| == n && (forall s :: 0 <= s < n ==> m.refs[s] == [])
  }

  ghost predicate Fresh(s: Spt) {
    && Shape(s) && s.cnt == 0 && (forall j :: 0 <= j < ENTRIES ==> s.top[j] == NoLink)
    && EmptyCache(s.c1, Zero) && EmptyCache(s.c2, NoPde) && EmptyRwmap(s.rw) && EmptyMap1(s.map1, |s.c1.key|)
  }

  lemma EmptyCacheInv<E>(c: Cache<E>, zero: E)
    requires EmptyCache(c, zero)
    ensures CacheInv(c, zero)
  {
    ShrZero(64);
  }

  lemma FreshSound(s: Spt, gmm: Gmm)
    requires Fresh(s)
    ensures SptInv(s, gmm) && (forall g: nat :: !Shadows(s, g)) && (forall h :: NoWriters(s.c1.page, h))
  {
    EmptyCacheInv(s.c1, Zero);
    EmptyCacheInv(s.c2, NoPde);
    forall y | InPages(s.c2.page, y) ensures Rd(s.c2.page, y) == NoPde {
    }
    forall y | InPages(s.c1.page, y) ensures Rd(s.c1.page, y) == Zero {
    }
  }

  lemma BootSound(m: seq<Spt>, s: Spt, gmm: Gmm)
    requires Inv(m, gmm) && Fresh(s)
    ensures Inv(m + [s], gmm)
  {
    FreshSound(s, gmm);
    var d := m + [s];
    forall t, u, g: nat | 0 <= t < |d| && 0 <= u < |d| && Shadows(d[t], g) ensures NoWriters(d[u].c1.page, gmm.hp(g)) {
      assert t < |m| && Shadows(m[t], g);
    }
  }

  // ------------------------------------------------------------- one vcpu at a time

  /** A step of one vcpu that adds no writable PTE and no protecting shadow. */
  ghost predicate Shrinks(r: Spt, s: Spt, gmm: Gmm) {
    SptInv(r, gmm) && FewerWriters(r.c1.page, s.c1.page) && FewerShadows(r, s)
  }

  lemma ShrinkKeeps(m: seq<Spt>, c: nat, r: Spt, gmm: Gmm)
    requires c < |m| && Inv(m, gmm) && Shrinks(r, m[c], gmm)
    ensures Inv(m[c := r], gmm)
  {
    KeepProtected(m, c, r, gmm);
  }

  lemma ShrinkTrans(a: Spt, b: Spt, c: Spt, gmm: Gmm)
    requires Shrinks(a, b, gmm) && FewerWriters(b.c1.page, c.c1.page) && FewerShadows(b, c)
    ensures Shrinks(a, c, gmm)
  {
  }

  /** spt_tlbflush: drain the failed reverse-map entries. */
  function FlushTlb(s: Spt, gmm: Gmm): Spt
    requires SptInv(s, gmm)
  {
    var d := Drain(s.c1.page, s.rw, gmm);
    s.(c1 := s.c1.(page := d.page), rw := d.rw)
  }

  lemma FlushTlbSound(s: Spt, gmm: Gmm)
    requires SptInv(s, gmm)
    ensures Shrinks(FlushTlb(s, gmm), s, gmm)
  {
    RegNowhere(s.c1.page, s.rw);
    DrainSound(s.c1.page, s.rw, Ptr(|s.c1.page|, 0), gmm);
    var d := Drain(s.c1.page, s.rw, gmm);
    RegNowhere(d.page, d.rw);
    WeakerCore(s, d.page, d.rw, gmm);
    WeakerFewer(d.page, s.c1.page);
    DemotedFewer(FlushTlb(s, gmm), s);
    SameStatusTop(s, FlushTlb(s, gmm));
  }

  /** The two calls of clean_modified_shadow with freeflag, after the root was cleared. */
  function FreeBoth(s: Spt, gmm: Gmm): Spt
    requires SptInv(s, gmm)
  {
    CleanFree1Sound(s, gmm);
    var r := CleanFree1(s, gmm);
    r.(c2 := FreeMods(r.c2, NoPde))
  }

  ghost predicate RootEmpty(s: Spt) {
    |s.top| == ENTRIES && s.cnt == 0 && forall j :: 0 <= j < (if s.levels == 3 then 4 else ENTRIES) ==> s.top[j] == NoLink
  }

  lemma FreeBothSound(s: Spt, gmm: Gmm)
    requires SptInv(s, gmm) && RootEmpty(s)
    ensures Shrinks(FreeBoth(s, gmm), s, gmm) && FreeBoth(s, gmm).c2.modL == []
  {
    CleanFree1Sound(s, gmm);
    var r := CleanFree1(s, gmm);
    CleanedSound(r, s, gmm);
    Free2Sound(r, gmm);
    ShrinkTrans(FreeBoth(s, gmm), r, s, gmm);
  }

  lemma Free2Sound(s: Spt, gmm: Gmm)
    requires SptInv(s, gmm) && RootEmpty(s)
    ensures Shrinks(s.(c2 := FreeMods(s.c2, NoPde)), s, gmm) && FreeMods(s.c2, NoPde).modL == []
  {
    FreeModsSound(s.c2, NoPde);
    var c := FreeMods(s.c2, NoPde);
    EachErased(c.page, s.c2.page, NoPde);
    ErasedFewer(c.page, s.c2.page);
    FewerDirs(s, c, gmm);
    DemotedFewer(s.(c2 := c), s);
  }

  lemma ClearTopSound(s: Spt, gmm: Gmm)
    requires Core(s, gmm)
    ensures Core(ClearTop(s), gmm) && RootEmpty(ClearTop(s)) && TopOk(ClearTop(s))
  {
  }

  /** update_cr3 */
  function UpdateCr3(s: Spt, levels: nat, wp: bool, gmm: Gmm): Spt
    requires SptInv(s, gmm) && (levels == 3 || levels == 4)
  {
    var r := s.(levels := levels, wp := wp);
    ClearTopSound(r, gmm);
    FlushTlbSound(ClearTop(r), gmm);
    FreeBoth(FlushTlb(ClearTop(r), gmm), gmm)
  }

  lemma UpdateCr3Sound(s: Spt, levels: nat, wp: bool, gmm: Gmm)
    requires SptInv(s, gmm) && (levels == 3 || levels == 4)
    ensures Shrinks(UpdateCr3(s, levels, wp, gmm), s, gmm)
  {
    var q := s.(levels := levels, wp := wp);
    assert Core(q, gmm);
    ClearTopSound(q, gmm);
    var r := ClearTop(q);
    DemotedFewer(r, s);
    FlushTlbSound(r, gmm);
    FreeBothSound(FlushTlb(r, gmm), gmm);
    ShrinkTrans(UpdateCr3(s, levels, wp, gmm), FlushTlb(r, gmm), s, gmm);
  }

  /** clear_all */
  function ClearAll(s: Spt, gmm: Gmm): Spt
    requires SptInv(s, gmm)
  {
    ClearTopSound(s, gmm);
    MarkedSound(ClearTop(s), gmm);
    FreeBoth(MarkEverything(ClearTop(s), gmm), gmm)
  }

  function MarkEverything(s: Spt, gmm: Gmm): Spt
    requires Core(s, gmm)
  {
    s.(c1 := MarkNormals(s.c1, Zero), c2 := MarkNormals(s.c2, NoPde))
  }

  lemma MarkedSound(s: Spt, gmm: Gmm)
    requires SptInv(s, gmm)
    ensures Shrinks(MarkEverything(s, gmm), s, gmm)
    ensures MarkEverything(s, gmm).c1.normL == [] && MarkEverything(s, gmm).c2.normL == []
  {
    MarkNormalsSound(s.c1, Zero);
    MarkNormalsSound(s.c2, NoPde);
    var r := MarkEverything(s, gmm);
    CoreC1(s, r.c1, gmm);
    FewerDirs(s.(c1 := r.c1), r.c2, gmm);
    DemotedFewer(r, s);
    SameFreeTop(s, r);
  }

  lemma ClearAllSound(s: Spt, gmm: Gmm)
    requires SptInv(s, gmm)
    ensures Shrinks(ClearAll(s, gmm), s, gmm)
  {
    ClearTopSound(s, gmm);
    var r := ClearTop(s);
    DemotedFewer(r, s);
    MarkedSound(r, gmm);
    FreeBothSound(MarkEverything(r, gmm), gmm);
    ShrinkTrans(MarkEverything(r, gmm), r, s, gmm);
    ShrinkTrans(ClearAll(s, gmm), MarkEverything(r, gmm), s, gmm);
  }

  /** invalidate_page: clear the modified pages, free nothing. */
  function Invalidate(s: Spt, gmm: Gmm): Spt
    requires SptInv(s, gmm)
  {
    s.(c1 := ClearMods(s.c1, s.c1.modL, Zero), c2 := ClearMods(s.c2, s.c2.modL, NoPde))
  }

  lemma InvalidateSound(s: Spt, gmm: Gmm)
    requires SptInv(s, gmm)
    ensures Shrinks(Invalidate(s, gmm), s, gmm)
  {
    ClearModsSound(s.c1, s.c1.modL, Zero);
    ClearModsSound(s.c2, s.c2.modL, NoPde);
    var r := Invalidate(s, gmm);
    EachErased(r.c1.page, s.c1.page, Zero);
    EachErased(r.c2.page, s.c2.page, NoPde);
    ErasedFewer(r.c2.page, s.c2.page);
    CoreC1(s, r.c1, gmm);
    FewerDirs(s.(c1 := r.c1), r.c2, gmm);
    ErasedKeeps(r.c1.page, s.c1.page, s.rw, gmm);
    DemotedFewer(r, s);
    SameStatusTop(s, r);
  }

  /** extern_mapsearch: zero the PTEs of pages in use that map frames lo..hi. */
  function UnmapRange(s: Spt, lo: nat, hi: nat, gmm: Gmm): Spt
    requires SptInv(s, gmm)
  {
    s.(c1 := s.c1.(page := seq(|s.c1.page|, i requires 0 <= i < |s.c1.page| =>
      if i in s.c1.freeL then s.c1.page[i] else UnmapPage(s.c1.page[i], lo, hi))))
  }

  function UnmapPage(t: seq<Pte>, lo: nat, hi: nat): (r: seq<Pte>)
    ensures |r| == |t|
    ensures forall e :: 0 <= e < |t| ==> r[e] == if t[e].Pte? && lo <= t[e].addr <= hi then Zero else t[e]
  {
    seq(|t|, e requires 0 <= e < |t| => if t[e].Pte? && lo <= t[e].addr <= hi then Zero else t[e])
  }

  lemma UnmapRangeSound(s: Spt, lo: nat, hi: nat, gmm: Gmm)
    requires SptInv(s, gmm)
    ensures Shrinks(UnmapRange(s, lo, hi, gmm), s, gmm)
    ensures forall i, e :: 0 <= i < |s.c1.key| && !St(s.c1, i).Free? && 0 <= e < ENTRIES ==>
      var x := UnmapRange(s, lo, hi, gmm).c1.page[i][e]; x.Pte? ==> !(lo <= x.addr <= hi)
  {
    var r := UnmapRange(s, lo, hi, gmm);
    assert Erased(r.c1.page, s.c1.page, Zero);
    ErasedCache(s.c1, r.c1.page);
    CoreC1(s, r.c1, gmm);
    ErasedKeeps(r.c1.page, s.c1.page, s.rw, gmm);
    DemotedFewer(r, s);
    SameStatusTop(s, r);
  }

  lemma ErasedCache(c: Cache<Pte>, r: Pages)
    requires CacheInv(c, Zero) && Erased(r, c.page, Zero)
    ensures CacheInv(c.(page := r), Zero)
  {
    forall i, e | 0 <= i < |r| && 0 <= e < |r[i]| && r[i][e] != Zero ensures Recorded(c.clear[i], e) {
      assert Rd(r, Ptr(i, e)) == Rd(c.page, Ptr(i, e));
    }
  }

  /** The processor uses a translation: A, and D if it writes through a writable PTE. */
  function UsePte(s: Spt, y: Ptr, write: bool): Spt
    requires InPages(s.c1.page, y)
  {
    var e := Rd(s.c1.page, y);
    if e.Zero? then s else WrPte(s, y, e.(acc := true, dirty := e.dirty || (write && e.rw)))
  }

  lemma UsePteSound(s: Spt, y: Ptr, write: bool, gmm: Gmm)
    requires SptInv(s, gmm) && InPages(s.c1.page, y)
    ensures Shrinks(UsePte(s, y, write), s, gmm)
  {
    var e := Rd(s.c1.page, y);
    if e.Pte? {
      var f := e.(acc := true, dirty := e.dirty || (write && e.rw));
      assert Recorded(s.c1.clear[y.slot], y.idx);
      WrPteCore(s, y, f, gmm);
      var r := WrPte(s, y, f);
      UsedWriters(s.c1.page, y, f, s.rw);
      DemotedFewer(r, s);
      SameStatusTop(s, r);
    }
  }

  /** A PTE replaced by one with the same address and rights. */
  lemma UsedWriters(page: Pages, y: Ptr, f: Pte, rw: Rwmap)
    requires InPages(page, y) && |rw.gfn| == |rw.pte| == |rw.hphys| && Reg(page, rw)
    requires Rd(page, y).Pte? && f.Pte? && f.addr == Rd(page, y).addr && f.rw == Rd(page, y).rw
    ensures FewerWriters(Wr(page, y, f), page) && Reg(Wr(page, y, f), rw)
  {
    var r := Wr(page, y, f);
    forall z | InPages(r, z) && Writable(Rd(r, z))
      ensures InPages(page, z) && Writable(Rd(page, z)) && Rd(r, z).addr == Rd(page, z).addr
    {
    }
  }

  // ------------------------------------------------------------- runs

  ghost predicate Enabled(m: seq<Spt>, e: Event, gmm: Gmm)
    requires Inv(m, gmm)
  {
    match e
    case Boot(s) => Fresh(s)
    case PageFault(c, v, _, _) => c < |m| && Linear(m[c], v)
    case MovCr3(c, levels, _) => c < |m| && (levels == 3 || levels == 4)
    case Hardware(c, y, _) => c < |m| && InPages(m[c].c1.page, y)
    case _ => e.c < |m|
  }

  /** One atomic step; an event that cannot happen leaves the machine alone. */
  ghost function Next(m: seq<Spt>, e: Event, gmm: Gmm): Outcome
    requires Inv(m, gmm) && GmmOk(gmm)
  {
    if !Enabled(m, e, gmm) then Mapped(m)
    else match e
      case Boot(s) => Mapped(m + [s])
      case PageFault(c, v, g, a) => MapPage(m, c, v, g, a, gmm)
      case _ => Mapped(m[e.c := Local(m[e.c], e, gmm)])
  }

  /** The events of one vcpu that touch only its own tables. */
  ghost predicate LocalEvent(s: Spt, e: Event) {
    match e
    case Boot(_) => false
    case PageFault(_, _, _, _) => false
    case MovCr3(_, levels, _) => levels == 3 || levels == 4
    case Hardware(_, y, _) => InPages(s.c1.page, y)
    case _ => true
  }

  ghost function Local(s: Spt, e: Event, gmm: Gmm): Spt
    requires SptInv(s, gmm) && LocalEvent(s, e)
  {
    match e
    case MovCr3(_, levels, wp) => UpdateCr3(s, levels, wp, gmm)
    case Invlpg(_) => Invalidate(s, gmm)
    case FlushAll(_) => ClearAll(s, gmm)
    case TlbFlush(_) => FlushTlb(s, gmm)
    case MmioClear(_, lo, hi) => UnmapRange(s, lo, hi, gmm)
    case Hardware(_, y, w) => UsePte(s, y, w)
  }

  lemma LocalSound(s: Spt, e: Event, gmm: Gmm)
    requires SptInv(s, gmm) && LocalEvent(s, e)
    ensures Shrinks(Local(s, e, gmm), s, gmm)
  {
    match e
    case MovCr3(_, levels, wp) => UpdateCr3Sound(s, levels, wp, gmm);
    case Invlpg(_) => InvalidateSound(s, gmm);
    case FlushAll(_) => ClearAllSound(s, gmm);
    case TlbFlush(_) => FlushTlbSound(s, gmm);
    case MmioClear(_, lo, hi) => UnmapRangeSound(s, lo, hi, gmm);
    case Hardware(_, y, w) => UsePteSound(s, y, w, gmm);
  }

  /** A fault the source itself refuses: an unknown level count, or a write to VMM memory. */
  predicate BadFault(e: Event, gmm: Gmm) {
    e.PageFault? && (!(1 <= e.g.glvl <= 4) || (gmm.rom(e.g.gfn0) && e.a.write))
  }

  lemma NextSound(m: seq<Spt>, e: Event, gmm: Gmm)
    requires Inv(m, gmm) && GmmOk(gmm)
    ensures Next(m, e, gmm).Mapped? ==> Inv(Next(m, e, gmm).m, gmm)
    ensures Next(m, e, gmm).Panic? ==> BadFault(e, gmm)
  {
    if Enabled(m, e, gmm) {
      if e.Boot? {
        BootSound(m, e.s, gmm);
      } else if e.PageFault? {
        FaultStep(m, e, gmm);
      } else {
        LocalStep(m, e, gmm);
      }
    }
  }

  lemma FaultStep(m: seq<Spt>, e: Event, gmm: Gmm)
    requires Inv(m, gmm) && GmmOk(gmm) && e.PageFault? && e.c < |m| && Linear(m[e.c], e.v)
    ensures var o := MapPage(m, e.c, e.v, e.g, e.a, gmm);
      (o.Mapped? ==> Inv(o.m, gmm)) && (o.Panic? ==> BadFault(e, gmm))
  {
    MapPageSound(m, e.c, e.v, e.g, e.a, gmm);
  }

  lemma LocalStep(m: seq<Spt>, e: Event, gmm: Gmm)
    requires Inv(m, gmm) && !e.Boot? && e.c < |m| && LocalEvent(m[e.c], e)
    ensures Inv(m[e.c := Local(m[e.c], e, gmm)], gmm)
  {
    LocalSound(m[e.c], e, gmm);
    ShrinkKeeps(m, e.c, Local(m[e.c], e, gmm), gmm);
  }

  /** The machine after a whole run from a sound state. */
  ghost function Exec(m: seq<Spt>, es: seq<Event>, gmm: Gmm): Outcome
    requires Inv(m, gmm) && GmmOk(gmm)
    decreases |es|
  {
    if es == [] then Mapped(m)
    else
      NextSound(m, es[0], gmm);
      var o := Next(m, es[0], gmm);
      if o.Panic? then o else Exec(o.m, es[1..], gmm)
  }

  lemma {:induction false} ExecSound(m: seq<Spt>, es: seq<Event>, gmm: Gmm)
    requires Inv(m, gmm) && GmmOk(gmm)
    ensures Exec(m, es, gmm).Mapped? ==> Inv(Exec(m, es, gmm).m, gmm)
    ensures Exec(m, es, gmm).Panic? ==> exists i :: 0 <= i < |es| && BadFault(es[i], gmm)
    decreases |es|
  {
    if es != [] {
      NextSound(m, es[0], gmm);
      var o := Next(m, es[0], gmm);
      if o.Mapped? {
        ExecSound(o.m, es[1..], gmm);
        if Exec(o.m, es[1..], gmm).Panic? {
          var i :| 0 <= i < |es[1..]| && BadFault(es[1..][i], gmm);
          assert es[i + 1] == es[1..][i];
        }
      }
    }
  }

  /** A run from the start: no vcpu yet. */
  ghost function RunFromBoot(es: seq<Event>, gmm: Gmm): (o: Outcome)
    requires GmmOk(gmm)
    ensures o.Mapped? ==> Inv(o.m, gmm)
  {
    assert Inv([], gmm);
    ExecSound([], es, gmm);
    Exec([], es, gmm)
  }

  /** The table shadowed by slot i of a cache is a guest table at host page h. */
  ghost predicate ShadowsHost<E>(c: Cache<E>, i: nat, h: nat, gmm: Gmm) {
    i < |c.key| && i in c.normL && !c.key[i].large && h == gmm.hp(c.key[i].gfn)
  }

  /** In every run, on any number of vcpus: while a guest frame is shadowed by a normal
      slot of some vcpu, no present shadow PTE of any vcpu maps its host page writable. */
  lemma ShadowedTablesAreReadOnly(es: seq<Event>, gmm: Gmm, t: nat, i: nat, u: nat, y: Ptr)
    requires GmmOk(gmm) && RunFromBoot(es, gmm).Mapped?
    requires var m := RunFromBoot(es, gmm).m;
      && t < |m| && u < |m| && InPages(m[u].c1.page, y) && Rd(m[u].c1.page, y).Pte?
      && (ShadowsHost(m[t].c1, i, Rd(m[u].c1.page, y).addr, gmm) || ShadowsHost(m[t].c2, i, Rd(m[u].c1.page, y).addr, gmm))
    ensures !Rd(RunFromBoot(es, gmm).m[u].c1.page, y).rw
  {
    var m := RunFromBoot(es, gmm).m;
    var s := m[t];
    assert SptInv(s, gmm);
    if ShadowsHost(s.c1, i, Rd(m[u].c1.page, y).addr, gmm) {
      assert ProtectsSt(St(s.c1, i), s.c1.key[i].gfn);
      assert Shadows(s, s.c1.key[i].gfn);
    } else {
      assert ProtectsSt(St(s.c2, i), s.c2.key[i].gfn);
      assert Shadows(s, s.c2.key[i].gfn);
    }
  }

  /** In every run, no present PDE points at a free shadow page table, and every present PDE has
      its back-reference ... */
  lemma NoDanglingEntries(es: seq<Event>, gmm: Gmm, t: nat, y: Ptr)
    requires GmmOk(gmm) && RunFromBoot(es, gmm).Mapped? && t < |RunFromBoot(es, gmm).m|
    requires var s := RunFromBoot(es, gmm).m[t]; InPages(s.c2.page, y) && Rd(s.c2.page, y).Pde?
    ensures var s := RunFromBoot(es, gmm).m[t]; var p := Rd(s.c2.page, y).to;
      && p < |s.c1.key| && p !in s.c1.freeL
      && p < |s.map1.refs| && exists k :: k in s.map1.refs[p] && k < |s.map1.pde| && s.map1.pde[k] == y
  {
    var s := RunFromBoot(es, gmm).m[t];
    assert SptInv(s, gmm);
    var p := Rd(s.c2.page, y).to;
    var k: nat :| RefBy(s.map1, k, p, y);
    assert k in s.map1.refs[p];
  }

  /** ... and no reachable PDPE points at a free shadow page directory. */
  lemma NoDanglingUpper(es: seq<Event>, gmm: Gmm, t: nat)
    requires GmmOk(gmm) && RunFromBoot(es, gmm).Mapped? && t < |RunFromBoot(es, gmm).m|
    ensures TopOk(RunFromBoot(es, gmm).m[t])
  {
    assert SptInv(RunFromBoot(es, gmm).m[t], gmm);
  }
}
