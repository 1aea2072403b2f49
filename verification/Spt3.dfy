/** The shadow page tables of all vcpus (cpu_mmu_spt.c, SPT_3): one state for each
    vcpu, and the operations on it as atomic steps over the whole machine. */
module Spt3 {
  import opened Lists
  import opened Tables
  import opened LazyClear
  import opened ShadowCache
  import opened RwMap
  import opened BackRefs

  /** An entry of an upper-level table: a pointer to a lower table or nothing. */
  datatype Link = NoLink | To(slot: nat)

  /** One vcpu.  `top` is cr3tbl (the PDPT for 3 levels, the PML4 for 4), `tbl` the pool
      of PDPTs for 4 levels of which `cnt` are used, `c1` and `c2` the shadow page tables
      and shadow page directories, `rw` the reverse map, `map1` the back-references. */
  datatype Spt = Spt(levels: nat, top: seq<Link>, tbl: seq<seq<Link>>, cnt: nat, wp: bool,
                     c1: Cache<Pte>, c2: Cache<Pde>, rw: Rwmap, map1: Map1)

  // ------------------------------------------------------------- invariants

  ghost predicate NoDangling(pd: Dirs, c1: Cache<Pte>) {
    forall y :: InPages(pd, y) && Rd(pd, y).Pde? ==> Rd(pd, y).to < |c1.key| && !St(c1, Rd(pd, y).to).Free?
  }

  ghost predicate LinksUsed(t: seq<Link>, n: nat, c2: Cache<Pde>) {
    forall j :: 0 <= j < |t| && j < n && t[j].To? ==> t[j].slot < |c2.key| && !St(c2, t[j].slot).Free?
  }

  /** No reachable upper-level entry points at a free shadow page directory. */
  ghost predicate TopOk(s: Spt) {
    if s.levels == 3 then LinksUsed(s.top, 4, s.c2)
    else
      && (forall j :: 0 <= j < |s.top| && s.top[j].To? ==> s.top[j].slot < s.cnt)
      && (forall k :: 0 <= k < s.cnt && k < |s.tbl| ==> LinksUsed(s.tbl[k], ENTRIES, s.c2))
  }

  ghost predicate Shape(s: Spt) {
    && (s.levels == 3 || s.levels == 4) && |s.top| == ENTRIES
    && 0 < |s.tbl| && s.cnt <= |s.tbl| && (forall k :: 0 <= k < |s.tbl| ==> |s.tbl[k]| == ENTRIES)
  }

  ghost predicate Core(s: Spt, gmm: Gmm) {
    && Shape(s)
    && CacheInv(s.c1, Zero) && CacheInv(s.c2, NoPde)
    && RwInv(s.rw, s.c1.page, gmm)
    && MapInv(s.map1, s.c2.page) && |s.map1.refs| == |s.c1.key|
    && Linked(s.c2.page, s.map1)
    && NoDangling(s.c2.page, s.c1)
  }

  ghost predicate SptInv(s: Spt, gmm: Gmm) {
    Core(s, gmm) && Reg(s.c1.page, s.rw) && TopOk(s)
  }

  /** Some normal (write-protecting) shadow of this vcpu shadows guest frame g. */
  ghost predicate Shadows(s: Spt, g: nat) {
    || (exists i :: 0 <= i < |s.c1.key| && ProtectsSt(St(s.c1, i), g))
    || (exists i :: 0 <= i < |s.c2.key| && ProtectsSt(St(s.c2, i), g))
  }

  /** Guest frames that are shadowed are not writable through any vcpu. */
  ghost predicate WriteProtected(m: seq<Spt>, gmm: Gmm) {
    forall t, u, g: nat :: 0 <= t < |m| && 0 <= u < |m| && Shadows(m[t], g) ==> NoWriters(m[u].c1.page, gmm.hp(g))
  }

  ghost predicate GmmOk(gmm: Gmm) {
    Injective(gmm) && forall g :: gmm.hp(g) < FRAMES36
  }

  ghost predicate AllSpt(m: seq<Spt>, gmm: Gmm) {
    forall t :: 0 <= t < |m| ==> SptInv(m[t], gmm)
  }

  ghost predicate Inv(m: seq<Spt>, gmm: Gmm) {
    AllSpt(m, gmm) && WriteProtected(m, gmm)
  }

  // ------------------------------------------------------------- frame lemmas

  ghost predicate FewerWriters(r: Pages, page: Pages) {
    forall h :: NoWriters(page, h) ==> NoWriters(r, h)
  }

  ghost predicate FewerShadows(a: Spt, b: Spt) {
    forall g: nat :: Shadows(a, g) ==> Shadows(b, g)
  }

  /** One vcpu changed, without gaining a writable PTE or a protecting shadow. */
  lemma KeepProtected(m: seq<Spt>, c: nat, s: Spt, gmm: Gmm)
    requires c < |m| && WriteProtected(m, gmm) && FewerWriters(s.c1.page, m[c].c1.page) && FewerShadows(s, m[c])
    ensures WriteProtected(m[c := s], gmm)
  {
    var d := m[c := s];
    forall t, u, g: nat | 0 <= t < |d| && 0 <= u < |d| && Shadows(d[t], g) ensures NoWriters(d[u].c1.page, gmm.hp(g)) {
      assert Shadows(m[t], g);
      assert NoWriters(m[u].c1.page, gmm.hp(g));
    }
  }

  lemma WeakerFewer(r: Pages, page: Pages)
    requires Weaker(r, page)
    ensures FewerWriters(r, page)
  {
    forall h | NoWriters(page, h) ensures NoWriters(r, h) { WeakerNoWriters(r, page, h); }
  }

  /** Statuses changed only away from Norm. */
  ghost predicate Demoted<E>(d: Cache<E>, c: Cache<E>) {
    |d.key| == |c.key| && forall k :: 0 <= k < |c.key| && St(d, k).Norm? ==> St(d, k) == St(c, k)
  }

  lemma DemotedFewer(a: Spt, b: Spt)
    requires Demoted(a.c1, b.c1) && Demoted(a.c2, b.c2)
    ensures FewerShadows(a, b)
  {
    forall g: nat | Shadows(a, g) ensures Shadows(b, g) {
      if i :| 0 <= i < |a.c1.key| && ProtectsSt(St(a.c1, i), g) {
        assert ProtectsSt(St(b.c1, i), g);
      } else {
        var i :| 0 <= i < |a.c2.key| && ProtectsSt(St(a.c2, i), g);
        assert ProtectsSt(St(b.c2, i), g);
      }
    }
  }

  /** Pages whose entries are the old ones or zero. */
  ghost predicate Erased<E>(r: seq<seq<E>>, page: seq<seq<E>>, zero: E) {
    SameShape(r, page) && forall y :: InPages(page, y) ==> Rd(r, y) == Rd(page, y) || Rd(r, y) == zero
  }

  lemma ErasedKeeps(r: Pages, page: Pages, rw: Rwmap, gmm: Gmm)
    requires Erased(r, page, Zero) && RwInv(rw, page, gmm)
    ensures RwInv(rw, r, gmm) && FewerWriters(r, page)
    ensures Reg(page, rw) ==> Reg(r, rw)
  {
    forall y | InPages(r, y) && Writable(Rd(r, y)) ensures InPages(page, y) && Rd(r, y) == Rd(page, y) {
    }
  }

  lemma ZerosErased<E>(page: seq<seq<E>>, i: nat, zero: E)
    requires i < |page| && |page[i]| == ENTRIES
    ensures Erased(page[i := Zeros(zero)], page, zero)
  {
    var r := page[i := Zeros(zero)];
    forall y | InPages(page, y) ensures Rd(r, y) == Rd(page, y) || Rd(r, y) == zero {
    }
  }

  lemma EachErased<E>(r: seq<seq<E>>, page: seq<seq<E>>, zero: E)
    requires |r| == |page|
    requires forall k :: 0 <= k < |page| ==> |page[k]| == ENTRIES && (r[k] == page[k] || r[k] == Zeros(zero))
    ensures Erased(r, page, zero)
  {
    forall y | InPages(page, y) ensures Rd(r, y) == Rd(page, y) || Rd(r, y) == zero {
    }
  }

  lemma ErasedFewer(r: Dirs, pd: Dirs)
    requires Erased(r, pd, NoPde)
    ensures Fewer(r, pd)
  {
  }

  /** Erasing directory entries keeps everything that is known about them. */
  lemma FewerDirs(s: Spt, c2: Cache<Pde>, gmm: Gmm)
    requires Core(s, gmm) && CacheInv(c2, NoPde) && Fewer(c2.page, s.c2.page)
    ensures Core(s.(c2 := c2), gmm)
  {
    FewerLinked(c2.page, s.c2.page, s.map1);
  }

  lemma FewerCache(c: Cache<Pde>, r: Dirs)
    requires CacheInv(c, NoPde) && Fewer(r, c.page)
    ensures CacheInv(c.(page := r), NoPde) && SameStatus(c, c.(page := r))
  {
    forall i, e | 0 <= i < |r| && 0 <= e < |r[i]| && r[i][e] != NoPde ensures Recorded(c.clear[i], e) {
      assert Rd(r, Ptr(i, e)) == Rd(c.page, Ptr(i, e));
    }
  }

  lemma WeakerCache(c: Cache<Pte>, r: Pages)
    requires CacheInv(c, Zero) && Weaker(r, c.page)
    ensures CacheInv(c.(page := r), Zero) && SameStatus(c, c.(page := r))
  {
    forall i, e | 0 <= i < |r| && 0 <= e < |r[i]| && r[i][e] != Zero ensures Recorded(c.clear[i], e) {
      assert LessPerm(Rd(r, Ptr(i, e)), Rd(c.page, Ptr(i, e)));
      assert c.page[i][e] != Zero;
    }
  }

  /** Write-protecting PTEs keeps the vcpu's invariant. */
  lemma WeakerCore(s: Spt, r: Pages, rw: Rwmap, gmm: Gmm)
    requires Core(s, gmm) && Weaker(r, s.c1.page) && RwInv(rw, r, gmm)
    ensures Core(s.(c1 := s.c1.(page := r), rw := rw), gmm)
    ensures SameStatus(s.c1, s.c1.(page := r))
  {
    WeakerCache(s.c1, r);
  }

  /** A page-table cache that frees nothing keeps the vcpu's core invariant. */
  lemma CoreC1(s: Spt, c: Cache<Pte>, gmm: Gmm)
    requires Core(s, gmm) && CacheInv(c, Zero) && |c.key| == |s.c1.key| && SameShape(c.page, s.c1.page)
    requires forall k :: 0 <= k < |c.key| && St(c, k).Free? ==> St(s.c1, k).Free?
    ensures Core(s.(c1 := c), gmm)
  {
    var pd := s.c2.page;
    forall y | InPages(pd, y) && Rd(pd, y).Pde? ensures Rd(pd, y).to < |c.key| && !St(c, Rd(pd, y).to).Free? {
    }
  }

  // ------------------------------------------------------------- cleaning

  /** clean_modified_shadow1 (cspt, true), one round. */
  function FreeShadow1(s: Spt, gmm: Gmm): (r: Spt)
    requires Core(s, gmm) && s.c1.modL != []
    ensures |r.c1.modL| < |s.c1.modL|
  {
    var d := DropRefs(s.c2.page, s.map1, s.c1.modL[0]);
    s.(c1 := FreeFirst(s.c1, Zero), c2 := s.c2.(page := d.0), map1 := d.1)
  }

  lemma FreeShadow1Sound(s: Spt, gmm: Gmm)
    requires Core(s, gmm) && s.c1.modL != []
    ensures var r := FreeShadow1(s, gmm);
      && Core(r, gmm) && Changed(s.c1, r.c1, s.c1.modL[0], Free) && SameStatus(s.c2, r.c2)
      && Erased(r.c1.page, s.c1.page, Zero) && Fewer(r.c2.page, s.c2.page)
      && r.c1.modL == s.c1.modL[1..] && r.c1.freeL != []
  {
    var p := s.c1.modL[0];
    assert p in s.c1.modL;
    FreeFirstSound(s.c1, Zero);
    ZerosErased(s.c1.page, p, Zero);
    ErasedKeeps(FreeFirst(s.c1, Zero).page, s.c1.page, s.rw, gmm);
    DropRefsSound(s.c2.page, s.map1, p);
    var d := DropRefs(s.c2.page, s.map1, p);
    FewerCache(s.c2, d.0);
    NoneLeft(s.c2.page, d.0, s.c1, FreeFirst(s.c1, Zero), p);
  }

  /** With the PDEs of page p gone, p may be freed. */
  lemma NoneLeft(pd: Dirs, d: Dirs, c: Cache<Pte>, r: Cache<Pte>, p: nat)
    requires NoDangling(pd, c) && Fewer(d, pd) && Changed(c, r, p, Free)
    requires forall y :: InPages(d, y) ==> !PointsTo(Rd(d, y), p)
    ensures NoDangling(d, r)
  {
    forall y | InPages(d, y) && Rd(d, y).Pde? ensures Rd(d, y).to < |r.key| && !St(r, Rd(d, y).to).Free? {
      assert Rd(d, y) == Rd(pd, y);
      assert !PointsTo(Rd(d, y), p);
    }
  }

  /** clean_modified_shadow1 (cspt, true) */
  function CleanFree1(s: Spt, gmm: Gmm): Spt
    requires Core(s, gmm)
    decreases |s.c1.modL|
  {
    if s.c1.modL == [] then s
    else
      FreeShadow1Sound(s, gmm);
      CleanFree1(FreeShadow1(s, gmm), gmm)
  }

  /** What cleaning may do to a vcpu: free modified page tables, erase entries. */
  ghost predicate Cleaned(r: Spt, s: Spt) {
    && r.levels == s.levels && r.top == s.top && r.tbl == s.tbl && r.cnt == s.cnt && r.wp == s.wp
    && |r.c1.key| == |s.c1.key| && SameStatus(s.c2, r.c2)
    && (forall k :: 0 <= k < |s.c1.key| ==> St(r.c1, k) == (if St(s.c1, k).Mod? then Free else St(s.c1, k)))
    && Erased(r.c1.page, s.c1.page, Zero) && Fewer(r.c2.page, s.c2.page) && r.c2.clear == s.c2.clear
    && r.rw == s.rw
  }

  lemma {:induction false} CleanFree1Sound(s: Spt, gmm: Gmm)
    requires Core(s, gmm)
    ensures var r := CleanFree1(s, gmm);
      Core(r, gmm) && Cleaned(r, s) && (s.c1.modL != [] || s.c1.freeL != [] ==> r.c1.freeL != [])
    decreases |s.c1.modL|
  {
    if s.c1.modL == [] {
      CleanedRefl(s);
    } else {
      FreeShadow1Sound(s, gmm);
      CleanFree1Sound(FreeShadow1(s, gmm), gmm);
      CleanedStep(CleanFree1(s, gmm), FreeShadow1(s, gmm), s);
    }
  }

  lemma CleanedRefl(s: Spt)
    requires s.c1.modL == []
    ensures Cleaned(s, s)
  {
  }

  lemma CleanedStep(r: Spt, q: Spt, s: Spt)
    requires Cleaned(r, q) && s.c1.modL != [] && q.rw == s.rw && q.c2.clear == s.c2.clear
    requires Changed(s.c1, q.c1, s.c1.modL[0], Free) && SameStatus(s.c2, q.c2)
    requires q.levels == s.levels && q.top == s.top && q.tbl == s.tbl && q.cnt == s.cnt && q.wp == s.wp
    requires s.c1.modL[0] !in s.c1.freeL
    requires Erased(q.c1.page, s.c1.page, Zero) && Fewer(q.c2.page, s.c2.page)
    ensures Cleaned(r, s)
  {
    assert s.c1.modL[0] in s.c1.modL;
    FewerTrans(r.c2.page, q.c2.page, s.c2.page);
  }

  /** A cleaned vcpu is still sound, provided its upper tables still are. */
  lemma CleanedSound(r: Spt, s: Spt, gmm: Gmm)
    requires Core(s, gmm) && Cleaned(r, s)
    ensures Reg(s.c1.page, s.rw) ==> Reg(r.c1.page, r.rw)
    ensures TopOk(s) ==> TopOk(r)
    ensures FewerWriters(r.c1.page, s.c1.page) && FewerShadows(r, s)
  {
    ErasedKeeps(r.c1.page, s.c1.page, s.rw, gmm);
    DemotedFewer(r, s);
    if TopOk(s) { SameStatusTop(s, r); }
  }

  lemma SameStatusTop(s: Spt, r: Spt)
    requires TopOk(s) && SameStatus(s.c2, r.c2)
    requires r.levels == s.levels && r.top == s.top && r.tbl == s.tbl && r.cnt == s.cnt
    ensures TopOk(r)
  {
  }
}
