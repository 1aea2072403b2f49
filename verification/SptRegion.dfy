/** The shadow walk against the guest's own walk (cpu_mmu_spt.c, SPT_3): through normal shadow tables
    every address of the GiB of a fault reaches the frame that the guest's tables give it now. */
module SptRegion {
  import opened Lists
  import opened Tables
  import opened LazyClear
  import opened ShadowCache
  import opened RwMap
  import opened BackRefs
  import opened Spt3
  import opened SptMap
  import opened SptUpper
  import opened SptFault
  import opened SptGuest
  import opened SptCoherent
  import opened SptDirs
  import opened SptDirAgree
  import opened SptAgree

  // ------------------------------------------------------------- the guest's walk

  datatype GuestPage = NoPage | GuestPage(frame: nat, rw: bool, us: bool, nx: bool)

  /** The guest's translation of u from its page directory in frame `dir` down. */
  function GuestBelow(gt: GuestMem, dir: nat, glvl: nat, u: nat): GuestPage {
    var x := gt(dir, GuestDirIndex(glvl, u));
    if !x.present then NoPage
    else if x.large then GuestPage(x.base + u / 0x1000 % Span(glvl), x.rw, x.us, x.nx)
    else
      var y := gt(x.frame, GuestIndex(glvl, u));
      if !y.present then NoPage else GuestPage(y.frame, x.rw && y.rw, x.us && y.us, x.nx || y.nx)
  }

  /** The shadow leads from u to the frame of p, with no more rights. */
  ghost predicate Matches(x: Xlat, p: GuestPage, wp0: bool, gmm: Gmm) {
    x.Xlat? && p.GuestPage? && x.addr == gmm.hp(p.frame) && Bounded(x.rw, x.us, x.nx, wp0, p.rw, p.us, p.nx)
  }

  // ------------------------------------------------------------- the shadow walk

  /** The shadow walk of u goes through a normal directory and a normal table. */
  ghost predicate Normal(s: Spt, u: nat)
    requires |s.top| == ENTRIES && Linear(s, u) && Walk(s, u).Xlat?
  {
    var j := RdPdpe(s, u).slot;
    && j < |s.c2.key| && St(s.c2, j).Norm?
    && (var t := Rd(s.c2.page, Ptr(j, I2(u))).to; t < |s.c1.key| && St(s.c1, t).Norm?)
  }

  /** What the two entries on the way say together. */
  ghost predicate Steps(d: Pde, e: Pte, t: Key, key: Key, u: nat, gt: GuestMem, gmm: Gmm) {
    d.Pde? && e.Pte? && DirFaithful(d, t, key, I2(u), gt) && Faithful(e, t, I1(u), gt, gmm)
  }

  lemma WalkSteps(s: Spt, u: nat, gt: GuestMem, gmm: Gmm)
    requires SptInv(s, gmm) && SptAgrees(s, gt, gmm) && DirsAgree(s, gt) && Linear(s, u) && Walk(s, u).Xlat? && Normal(s, u)
    ensures var j := RdPdpe(s, u).slot; var d := Rd(s.c2.page, Ptr(j, I2(u))); var e := Rd(s.c1.page, Ptr(d.to, I1(u)));
      Steps(d, e, s.c1.key[d.to], s.c2.key[j], u, gt, gmm)
  {
    var j := RdPdpe(s, u).slot;
    assert Present(s, Ptr(j, I2(u))) && DirOk(s, Ptr(j, I2(u)), gt);
  }

  /** Through a directory for a page of 1 GiB, or without paging. */
  lemma StepsLarge(d: Pde, e: Pte, t: Key, key: Key, u: nat, gt: GuestMem, gmm: Gmm)
    requires Steps(d, e, t, key, u, gt, gmm) && key.large
    ensures e.addr == gmm.hp(key.gfn + u / 0x1000 % 0x4_0000)
  {
    TwoIndices(u);
    assert t.gfn + I1(u) == key.gfn + u / 0x1000 % 0x4_0000;
  }

  /** Through the shadow of a guest directory. */
  lemma StepsBelow(d: Pde, e: Pte, t: Key, key: Key, u: nat, gt: GuestMem, gmm: Gmm)
    requires Steps(d, e, t, key, u, gt, gmm) && !key.large && (key.glvl == 2 ==> key.to3 == u / 0x4000_0000 % 4)
    ensures var p := GuestBelow(gt, key.gfn, key.glvl, u);
      && p.GuestPage? && e.addr == gmm.hp(p.frame)
      && Bounded(d.rw && e.rw, d.us && e.us, d.nx || e.nx, key.wp0, p.rw || t.large, p.us || t.large, p.nx && !t.large)
      && (t.large ==> Bounded(d.rw, d.us, d.nx, key.wp0, p.rw, p.us, p.nx))
  {
    DirIndexIs(u);
    IndexIs(u);
    assert DirIndex(key, I2(u)) == GuestDirIndex(key.glvl, u);
  }

  /** The rights of both entries together. */
  lemma BothBound(d: Pde, e: Pte, t: Key, key: Key, p: GuestPage)
    requires d.Pde? && e.Pte? && p.GuestPage?
    requires Bounded(d.rw && e.rw, d.us && e.us, d.nx || e.nx, key.wp0, p.rw || t.large, p.us || t.large, p.nx && !t.large)
    requires t.large ==> Bounded(d.rw, d.us, d.nx, key.wp0, p.rw, p.us, p.nx)
    ensures Bounded(d.rw && e.rw, d.us && e.us, d.nx || e.nx, key.wp0, p.rw, p.us, p.nx)
  {
  }

  /** What the shadow walk of u gives through the directory with this key. */
  ghost predicate KeyGives(x: Xlat, key: Key, u: nat, gt: GuestMem, gmm: Gmm) {
    && x.Xlat? && Bounded(x.rw, x.us, x.nx, key.wp0, !key.rw0, !key.us0, key.nx)
    && (if key.large then x.addr == gmm.hp(key.gfn + u / 0x1000 % 0x4_0000)
        else (key.glvl == 2 ==> key.to3 == u / 0x4000_0000 % 4) ==> Matches(x, GuestBelow(gt, key.gfn, key.glvl, u), key.wp0, gmm))
  }

  /** A walk through normal tables ends where the guest's walk from the same directory ends. */
  lemma WalkMatches(s: Spt, u: nat, gt: GuestMem, gmm: Gmm)
    requires SptInv(s, gmm) && SptAgrees(s, gt, gmm) && DirsAgree(s, gt) && Linear(s, u) && Walk(s, u).Xlat? && Normal(s, u)
    ensures KeyGives(Walk(s, u), s.c2.key[RdPdpe(s, u).slot], u, gt, gmm)
  {
    WalkSteps(s, u, gt, gmm);
    var j := RdPdpe(s, u).slot;
    var d := Rd(s.c2.page, Ptr(j, I2(u)));
    StepsGive(d, Rd(s.c1.page, Ptr(d.to, I1(u))), s.c1.key[d.to], s.c2.key[j], u, gt, gmm);
  }

  lemma StepsGive(d: Pde, e: Pte, t: Key, key: Key, u: nat, gt: GuestMem, gmm: Gmm)
    requires Steps(d, e, t, key, u, gt, gmm)
    ensures KeyGives(Xlat(e.addr, d.rw && e.rw, d.us && e.us, d.nx || e.nx, e.pwt, e.pcd, e.pat), key, u, gt, gmm)
  {
    if key.large {
      StepsLarge(d, e, t, key, u, gt, gmm);
    } else if key.glvl == 2 ==> key.to3 == u / 0x4000_0000 % 4 {
      StepsBelow(d, e, t, key, u, gt, gmm);
      BothBound(d, e, t, key, GuestBelow(gt, key.gfn, key.glvl, u));
    }
  }

  /** In every run, with the guest writing its tables: the shadow walk of every address that goes
      through a normal directory and a normal table ends where the guest's tables lead now. */
  lemma RunsMatch(gt: GuestMem, acts: seq<Act>, gmm: Gmm, t: nat, u: nat)
    requires GmmOk(gmm)
    requires var m := Run(World([], gt), acts, gmm).m;
      t < |m| && |m[t].top| == ENTRIES && Linear(m[t], u) && Walk(m[t], u).Xlat? && Normal(m[t], u)
    ensures var w := Run(World([], gt), acts, gmm);
      KeyGives(Walk(w.m[t], u), w.m[t].c2.key[RdPdpe(w.m[t], u).slot], u, w.gt, gmm)
  {
    var w := Run(World([], gt), acts, gmm);
    assert SptInv(w.m[t], gmm) && SptAgrees(w.m[t], w.gt, gmm) && DirsAgree(w.m[t], w.gt);
    WalkMatches(w.m[t], u, w.gt, gmm);
  }

  // ------------------------------------------------------------- after a fault

  /** What the guest's tables give u, for a fault that found g in the same GiB: the walk from the
      directory, within the rights of the levels above; or a place in a page of 1 GiB; without
      paging, the address itself. */
  ghost predicate GuestGives(x: Xlat, g: Guest, wp: bool, u: nat, gt: GuestMem, gmm: Gmm) {
    && x.Xlat?
    && (g.glvl != 1 ==> Bounded(x.rw, x.us, x.nx, !wp, g.m2.rw, g.m2.us, g.m2.nx))
    && (if g.glvl != 1 && g.gfn2.Some? then Matches(x, GuestBelow(gt, g.gfn2.value, g.glvl, u), !wp, gmm)
        else x.addr == gmm.hp(g.gfn0 - g.gfn0 % 0x4_0000 + u / 0x1000 % 0x4_0000))
  }

  lemma SameRegion(u: nat, v: nat)
    requires u / 0x4000_0000 == v / 0x4000_0000
    ensures I3(u) == I3(v) && I4(u) == I4(v)
  {
    Shift9(u, u / 0x4000_0000);
    Shift9(v, v / 0x4000_0000);
  }

  lemma Shift9(u: nat, x: nat)
    requires x == u / 0x4000_0000
    ensures u / 0x80_0000_0000 == x / 512
  {
    assert 0x4000_0000 * x <= u < 0x4000_0000 * x + 0x4000_0000 && 512 * (x / 512) <= x < 512 * (x / 512) + 512;
  }

  /** The key of a fault says what the guest's tables give. */
  lemma FaultKey(x: Xlat, s: Spt, g: Guest, v: nat, u: nat, gt: GuestMem, gmm: Gmm)
    requires KeyGives(x, KeyPd(s, g, v), u, gt, gmm) && u / 0x4000_0000 == v / 0x4000_0000 && 1 <= g.glvl <= 4
    ensures GuestGives(x, g, s.wp, u, gt, gmm)
  {
  }

  /** After map_page has served a fault at v, the shadow walk of every address u of the same GiB,
      where it goes through a normal directory and a normal table, is the guest's own walk. */
  lemma RegionMatches(m: seq<Spt>, c: nat, v: nat, g: Guest, a: Access, gt: GuestMem, gmm: Gmm, u: nat)
    requires c < |m| && Inv(m, gmm) && GmmOk(gmm) && Linear(m[c], v) && AllAgree(m, gt, gmm) && AllDirs(m, gt) && WalkFits(gt, v, g)
    requires MapPage(m, c, v, g, a, gmm).Mapped? && u / 0x4000_0000 == v / 0x4000_0000
    ensures var r := MapPage(m, c, v, g, a, gmm).m;
      && c < |r| && |r[c].top| == ENTRIES && Linear(r[c], u)
      && (Walk(r[c], u).Xlat? && Normal(r[c], u) ==> GuestGives(Walk(r[c], u), g, m[c].wp, u, gt, gmm))
  {
    var s := Served(m, c, v, g, a, gt, gmm);
    SameRegion(u, v);
    SameLinear(s, u, v);
    LedWalk(s, m[c], g, v, u, gt, gmm);
  }

  /** The vcpu after the fault. */
  lemma Served(m: seq<Spt>, c: nat, v: nat, g: Guest, a: Access, gt: GuestMem, gmm: Gmm) returns (s: Spt)
    requires c < |m| && Inv(m, gmm) && GmmOk(gmm) && Linear(m[c], v) && AllAgree(m, gt, gmm) && AllDirs(m, gt) && WalkFits(gt, v, g)
    requires MapPage(m, c, v, g, a, gmm).Mapped?
    ensures var r := MapPage(m, c, v, g, a, gmm).m; c < |r| && r[c] == s
    ensures SptInv(s, gmm) && SptAgrees(s, gt, gmm) && DirsAgree(s, gt) && Leads(s, v, KeyPd(m[c], g, v)) && Linear(s, v) && 1 <= g.glvl <= 4
  {
    assert SptAgrees(m[c], gt, gmm);
    MapPageAgrees(m, c, v, g, a, gt, gmm);
    MapPageDirs(m, c, v, g, a, gt, gmm);
    MapPageSound(m, c, v, g, a, gmm);
    s := MapPage(m, c, v, g, a, gmm).m[c];
  }

  lemma SameLinear(s: Spt, u: nat, v: nat)
    requires Linear(s, v) && u / 0x4000_0000 == v / 0x4000_0000
    ensures Linear(s, u)
  {
  }

  lemma LedWalk(s: Spt, o: Spt, g: Guest, v: nat, u: nat, gt: GuestMem, gmm: Gmm)
    requires SptInv(s, gmm) && SptAgrees(s, gt, gmm) && DirsAgree(s, gt) && Leads(s, v, KeyPd(o, g, v)) && 1 <= g.glvl <= 4
    requires u / 0x4000_0000 == v / 0x4000_0000 && I3(u) == I3(v) && I4(u) == I4(v) && Linear(s, u)
    ensures Walk(s, u).Xlat? && Normal(s, u) ==> GuestGives(Walk(s, u), g, o.wp, u, gt, gmm)
  {
    if Walk(s, u).Xlat? && Normal(s, u) {
      WalkMatches(s, u, gt, gmm);
      assert RdPdpe(s, u) == RdPdpe(s, v);
      FaultKey(Walk(s, u), o, g, v, u, gt, gmm);
    }
  }
}
