/** Agreement of the shadow page directories with guest memory (cpu_mmu_spt.c, SPT_3): every PDE of a
    normal directory points at the table of the guest's directory entry. */
module SptDirs {
  import opened Lists
  import opened Tables
  import opened LazyClear
  import opened ShadowCache
  import opened RwMap
  import opened BackRefs
  import opened Spt3
  import opened SptMap
  import opened SptUpper
  import opened SptFault
  import opened SptRuns
  import opened SptGuest
  import opened SptCoherent

  ghost predicate Sized(s: Spt) {
    |s.c2.page| == |s.c2.key|
  }

  /** y holds a PDE of a normal directory. */
  ghost predicate Present(s: Spt, y: Ptr)
    requires Sized(s)
  {
    InPages(s.c2.page, y) && Rd(s.c2.page, y).Pde? && St(s.c2, y.slot).Norm?
  }

  ghost predicate DirOk(s: Spt, y: Ptr, gt: GuestMem)
    requires Sized(s)
  {
    Present(s, y) ==>
      var d := Rd(s.c2.page, y);
      d.to < |s.c1.key| && DirFaithful(d, s.c1.key[d.to], St(s.c2, y.slot).key, y.idx, gt)
  }

  ghost predicate Empty(c: Cache<Pde>, i: nat)
    requires i < |c.page|
  {
    forall e :: 0 <= e < |c.page[i]| ==> c.page[i][e].NoPde?
  }

  /** Free directories hold nothing. */
  ghost predicate FreeEmpty(c: Cache<Pde>)
    requires |c.page| == |c.key|
  {
    forall i :: 0 <= i < |c.key| && St(c, i).Free? ==> Empty(c, i)
  }

  ghost predicate DirsAgree(s: Spt, gt: GuestMem) {
    Sized(s) && FreeEmpty(s.c2) && forall y :: DirOk(s, y, gt)
  }

  ghost predicate AllDirs(m: seq<Spt>, gt: GuestMem) {
    forall t :: 0 <= t < |m| ==> DirsAgree(m[t], gt)
  }

  // ------------------------------------------------------------- PDEs that only go away

  /** Slots in use keep their keys. */
  ghost predicate KeysKept(d: Cache<Pte>, c: Cache<Pte>) {
    |d.key| == |c.key| && forall k :: 0 <= k < |c.key| && !St(d, k).Free? ==> d.key[k] == c.key[k]
  }

  /** A PDE of a normal directory was there before, in the same directory for the same table. */
  ghost predicate DirKept(r: Spt, s: Spt, y: Ptr)
    requires Sized(r) && Sized(s) && |r.c2.key| == |s.c2.key|
  {
    Present(r, y) ==>
      && InPages(s.c2.page, y) && Rd(s.c2.page, y) == Rd(r.c2.page, y) && St(s.c2, y.slot) == St(r.c2, y.slot)
      && (var t := Rd(r.c2.page, y).to; t < |r.c1.key| == |s.c1.key| && r.c1.key[t] == s.c1.key[t])
  }

  ghost predicate DirFollows(r: Spt, s: Spt) {
    && Sized(r) && Sized(s) && |r.c2.key| == |s.c2.key|
    && (forall y :: DirKept(r, s, y)) && (FreeEmpty(s.c2) ==> FreeEmpty(r.c2))
  }

  lemma DirFollowsAgree(r: Spt, s: Spt, gt: GuestMem)
    requires DirFollows(r, s) && DirsAgree(s, gt)
    ensures DirsAgree(r, gt)
  {
    forall y ensures DirOk(r, y, gt) {
      assert DirKept(r, s, y) && DirOk(s, y, gt);
    }
  }

  lemma DirFollowsTrans(a: Spt, b: Spt, c: Spt)
    requires DirFollows(a, b) && DirFollows(b, c)
    ensures DirFollows(a, c)
  {
    forall y ensures DirKept(a, c, y) {
      assert DirKept(a, b, y) && DirKept(b, c, y);
    }
  }

  /** Entries erased, directories no longer normal, tables freed whose PDEs are gone. */
  lemma FewerFollows(r: Spt, s: Spt)
    requires Sized(r) && Sized(s) && NoDangling(r.c2.page, r.c1)
    requires Fewer(r.c2.page, s.c2.page) && Demoted(r.c2, s.c2) && KeysKept(r.c1, s.c1)
    requires forall i :: 0 <= i < |r.c2.key| && St(r.c2, i).Free? ==> St(s.c2, i).Free? || Empty(r.c2, i)
    ensures DirFollows(r, s)
  {
    forall y ensures DirKept(r, s, y) {
      if Present(r, y) { assert Rd(r.c2.page, y) == Rd(s.c2.page, y); }
    }
    if FreeEmpty(s.c2) {
      forall i | 0 <= i < |r.c2.key| && St(r.c2, i).Free? ensures Empty(r.c2, i) {
        if St(s.c2, i).Free? { StillEmpty(r.c2, s.c2, i); }
      }
    }
  }

  lemma StillEmpty(d: Cache<Pde>, c: Cache<Pde>, i: nat)
    requires Fewer(d.page, c.page) && i < |c.page| && Empty(c, i)
    ensures Empty(d, i)
  {
    forall e | 0 <= e < |d.page[i]| ensures d.page[i][e].NoPde? {
      assert Rd(c.page, Ptr(i, e)).NoPde?;
      assert Rd(d.page, Ptr(i, e)).NoPde?;
    }
  }

  lemma SameFewer(pd: Dirs)
    ensures Fewer(pd, pd)
  {
  }

  /** The directories did not change, and the tables kept their keys. */
  lemma SameDirs(r: Spt, s: Spt)
    requires Sized(s) && r.c2 == s.c2 && KeysKept(r.c1, s.c1) && NoDangling(r.c2.page, r.c1)
    ensures DirFollows(r, s)
  {
    SameFewer(s.c2.page);
    FewerFollows(r, s);
  }

  lemma StatusKeys(d: Cache<Pte>, c: Cache<Pte>)
    requires |d.key| == |c.key|
    requires forall k :: 0 <= k < |c.key| ==> St(d, k).Free? || St(d, k) == St(c, k) || (St(c, k).Norm? && St(d, k) == Mod(St(c, k).key))
    ensures KeysKept(d, c)
  {
  }

  ghost predicate DirsFollow(n: seq<Spt>, m: seq<Spt>) {
    |n| == |m| && forall t :: 0 <= t < |m| ==> DirFollows(n[t], m[t])
  }

  lemma AllDirsOn(m: seq<Spt>, n: seq<Spt>, gt: GuestMem)
    requires DirsFollow(n, m) && AllDirs(m, gt)
    ensures AllDirs(n, gt)
  {
    forall t | 0 <= t < |n| ensures DirsAgree(n[t], gt) { DirFollowsAgree(n[t], m[t], gt); }
  }

  lemma AllDirsTrans(a: seq<Spt>, b: seq<Spt>, c: seq<Spt>)
    requires DirsFollow(a, b) && DirsFollow(b, c)
    ensures DirsFollow(a, c)
  {
    forall t | 0 <= t < |c| ensures DirFollows(a[t], c[t]) { DirFollowsTrans(a[t], b[t], c[t]); }
  }

  lemma SelfFollows(s: Spt, gmm: Gmm)
    requires Core(s, gmm)
    ensures DirFollows(s, s)
  {
    SameDirs(s, s);
  }

  lemma OneDirFollows(m: seq<Spt>, c: nat, s: Spt, gmm: Gmm)
    requires c < |m| && DirFollows(s, m[c]) && AllCore(m, gmm)
    ensures DirsFollow(m[c := s], m)
  {
    forall t | 0 <= t < |m| && t != c ensures DirFollows(m[t], m[t]) { SelfFollows(m[t], gmm); }
  }

  /** Guest memory changed, but not in what a directory entry says. */
  lemma OtherMemory(s: Spt, gt: GuestMem, gu: GuestMem)
    requires DirsAgree(s, gt)
    requires forall k, i: nat :: 0 <= k < |s.c2.key| && St(s.c2, k).Norm? && !St(s.c2, k).key.large ==>
      gu(St(s.c2, k).key.gfn, i).(dirty := true) == gt(St(s.c2, k).key.gfn, i).(dirty := true)
    ensures DirsAgree(s, gu)
  {
    forall y ensures DirOk(s, y, gu) {
      assert DirOk(s, y, gt);
      if Present(s, y) {
        var key := St(s.c2, y.slot).key;
        if !key.large { assert gu(key.gfn, DirIndex(key, y.idx)).(dirty := true) == gt(key.gfn, DirIndex(key, y.idx)).(dirty := true); }
      }
    }
  }

  // ------------------------------------------------------------- the end of setpde and setpdpe

  lemma WeakenedDirs(r: Spt, s: Spt, gmm: Gmm)
    requires Core(r, gmm) && Core(s, gmm) && Weakened(r, s)
    ensures DirFollows(r, s)
  {
    StatusKeys(r.c1, s.c1);
    SameDirs(r, s);
  }

  lemma MarkDirs(s: Spt, lvl: nat, i: nat, key: Key, gmm: Gmm)
    requires Core(s, gmm) && NormAt(s, lvl, i, key)
    ensures DirFollows(Mark(s, lvl, i), s)
  {
    MarkSound(s, lvl, i, key, gmm);
    var r := Mark(s, lvl, i);
    SameFewer(s.c2.page);
    assert r.c1.key == s.c1.key;
    FewerFollows(r, s);
  }

  lemma FinishDirs(q: seq<Spt>, c: nat, lvl: nat, i: nat, key: Key, gfnw: Option<nat>, gmm: Gmm)
    requires c < |q| && Good(q, c, gmm) && GmmOk(gmm) && NormAt(q[c], lvl, i, key)
    ensures DirsFollow(Finish(q, c, lvl, i, key, gfnw, gmm), q)
  {
    if WritesTable(gfnw, key) {
      MarkDirs(q[c], lvl, i, key, gmm);
      OneDirFollows(q, c, Mark(q[c], lvl, i), gmm);
    } else {
      MakeRdOnlySound(q, c, key, gmm);
      var w := MakeRdOnly(q, c, key, gmm);
      ProtectDirs(q, w.0, c, gmm);
      if !w.1 {
        assert Weakened(w.0[c], q[c]);
        MarkedDirs(q, w.0, c, lvl, i, key, gmm);
      }
    }
  }

  lemma ProtectDirs(q: seq<Spt>, w: seq<Spt>, c: nat, gmm: Gmm)
    requires |w| == |q| && Good(q, c, gmm) && Good(w, c, gmm) && forall t :: 0 <= t < |q| ==> Weakened(w[t], q[t])
    ensures DirsFollow(w, q)
  {
    forall t | 0 <= t < |q| ensures DirFollows(w[t], q[t]) { WeakenedDirs(w[t], q[t], gmm); }
  }

  lemma MarkedDirs(q: seq<Spt>, w: seq<Spt>, c: nat, lvl: nat, i: nat, key: Key, gmm: Gmm)
    requires c < |w| && DirsFollow(w, q) && Good(w, c, gmm) && NormAt(w[c], lvl, i, key)
    ensures DirsFollow(w[c := Mark(w[c], lvl, i)], q)
  {
    MarkDirs(w[c], lvl, i, key, gmm);
    OneDirFollows(w, c, Mark(w[c], lvl, i), gmm);
    AllDirsTrans(w[c := Mark(w[c], lvl, i)], w, q);
  }

  // ------------------------------------------------------------- new tables

  lemma Room1Dirs(s: Spt, gmm: Gmm)
    requires Core(s, gmm)
    ensures DirFollows(Room1(s, gmm), s)
  {
    Room1Sound(s, gmm);
    var q := Room1(s, gmm);
    StatusKeys(q.c1, s.c1);
    FewerFollows(q, s);
  }

  /** A free table gets a key; no PDE points at it. */
  lemma InstallDirs(q: Spt, key: Key, e: nat, gmm: Gmm)
    requires Core(q, gmm) && q.c1.freeL != [] && q.c1.freeL[0] < |q.c1.key|
    ensures DirFollows(q.(c1 := RecordAt(Install(q.c1, key), q.c1.freeL[0], e)), q)
  {
    var i := q.c1.freeL[0];
    var r := q.(c1 := RecordAt(Install(q.c1, key), i, e));
    assert i in q.c1.freeL && St(q.c1, i).Free?;
    forall y ensures DirKept(r, q, y) {
    }
  }

  lemma NewShadow1Dirs(s: Spt, key: Key, e: nat, gmm: Gmm)
    requires Core(s, gmm) && e < ENTRIES && (var f := Find(s.c1, key); f.Some? ==> s.c1.modified[f.value])
    ensures DirFollows(NewShadow1(s, key, e, gmm).0, s)
  {
    var f := Find(s.c1, key);
    FindExact(s.c1, key, Zero);
    if f.Some? {
      ReviveCase(s, f.value, e, gmm);
      SameDirs(s.(c1 := RecordAt(Revive(s.c1, f.value, Zero), f.value, e)), s);
    } else {
      Room1Sound(s, gmm);
      Room1Dirs(s, gmm);
      var q := Room1(s, gmm);
      InstallDirs(q, key, e, gmm);
      DirFollowsTrans(q.(c1 := RecordAt(Install(q.c1, key), q.c1.freeL[0], e)), q, s);
    }
  }

  // ------------------------------------------------------------- setpde

  /** The same but for the PDE at x. */
  ghost predicate DirFollowsBut(r: Spt, s: Spt, x: Ptr) {
    && Sized(r) && Sized(s) && |r.c2.key| == |s.c2.key|
    && (forall y :: y != x ==> DirKept(r, s, y))
    && (FreeEmpty(s.c2) ==> forall i :: 0 <= i < |r.c2.key| && i != x.slot && St(r.c2, i).Free? ==> Empty(r.c2, i))
  }

  lemma ButTrans(a: Spt, b: Spt, c: Spt, x: Ptr)
    requires DirFollowsBut(a, b, x) && DirFollows(b, c)
    ensures DirFollowsBut(a, c, x)
  {
    forall y | y != x ensures DirKept(a, c, y) {
      assert DirKept(a, b, y) && DirKept(b, c, y);
    }
  }

  lemma WriteDirs(r: Spt, q: Spt, x: Ptr, e: Pde)
    requires Sized(q) && NoDangling(q.c2.page, q.c1) && InPages(q.c2.page, x)
    requires r.c2 == q.c2.(page := Wr(q.c2.page, x, e)) && r.c1.key == q.c1.key
    ensures DirFollowsBut(r, q, x)
  {
    forall y | y != x ensures DirKept(r, q, y) {
    }
    if FreeEmpty(q.c2) {
      forall i | 0 <= i < |r.c2.key| && i != x.slot && St(r.c2, i).Free? ensures Empty(r.c2, i) {
        assert Empty(q.c2, i) && r.c2.page[i] == q.c2.page[i];
      }
    }
  }

  lemma AttachDirs(s: Spt, i: nat, y: Ptr, key: Key, p: Perm, gmm: Gmm)
    requires Core(s, gmm) && i < |s.c1.key| && InPages(s.c2.page, y)
    ensures DirFollowsBut(Attach1(s, i, y, key, p, gmm), s, y)
  {
    var a := AddRef(s.c2.page, s.map1, i, y);
    AddRefSound(s.c2.page, s.map1, i, y);
    FewerCache(s.c2, a.0);
    var q := s.(c2 := s.c2.(page := a.0));
    FewerDangling(a.0, s.c2.page, s.c1);
    FewerFollows(q, s);
    var r := Attach1(s, i, y, key, p, gmm);
    WriteDirs(r, q, y, Pde(i, p.rw, p.us, p.nx, key.large));
    ButTrans(r, q, s, y);
  }

  lemma FewerDangling(r: Dirs, pd: Dirs, c1: Cache<Pte>)
    requires NoDangling(pd, c1) && Fewer(r, pd)
    ensures NoDangling(r, c1)
  {
    forall y | InPages(r, y) && Rd(r, y).Pde? ensures Rd(r, y).to < |c1.key| && !St(c1, Rd(r, y).to).Free? {
      assert Rd(r, y) == Rd(pd, y);
    }
  }

  lemma LinkPdeDirs(s: Spt, y: Ptr, key: Key, e: nat, p: Perm, gmm: Gmm)
    requires Core(s, gmm) && InPages(s.c2.page, y) && Recorded(s.c2.clear[y.slot], y.idx) && e < ENTRIES
    ensures DirFollowsBut(LinkPde(s, y, key, e, p, gmm).s, s, y)
  {
    var f := Find(s.c1, key);
    FindExact(s.c1, key, Zero);
    var r := LinkPde(s, y, key, e, p, gmm).s;
    if PdeGood(s, y, f) {
      WriteDirs(r, s, y, Rd(s.c2.page, y).(rw := p.rw, us := p.us, nx := p.nx));
    } else if f.Some? && !s.c1.modified[f.value] {
      HitDirs(s, f.value, y, key, e, p, gmm);
    } else {
      MissDirs(s, y, key, e, p, gmm);
    }
  }

  lemma MissDirs(s: Spt, y: Ptr, key: Key, e: nat, p: Perm, gmm: Gmm)
    requires Core(s, gmm) && InPages(s.c2.page, y) && e < ENTRIES && (var f := Find(s.c1, key); f.Some? ==> s.c1.modified[f.value])
    ensures var n := NewShadow1(s, key, e, gmm);
      Core(n.0, gmm) && n.1 < |n.0.c1.key| && InPages(n.0.c2.page, y) && DirFollowsBut(Attach1(n.0, n.1, y, key, p, gmm), s, y)
  {
    NewShadow1Sound(s, key, e, gmm);
    NewShadow1Dirs(s, key, e, gmm);
    var n := NewShadow1(s, key, e, gmm);
    AttachDirs(n.0, n.1, y, key, p, gmm);
    ButTrans(Attach1(n.0, n.1, y, key, p, gmm), n.0, s, y);
  }

  lemma HitDirs(s: Spt, i: nat, y: Ptr, key: Key, e: nat, p: Perm, gmm: Gmm)
    requires Core(s, gmm) && InPages(s.c2.page, y) && i < |s.c1.key| && i in s.c1.normL && e < ENTRIES
    ensures var q := s.(c1 := RecordAt(Touch(s.c1, i), i, e)); Core(q, gmm) && DirFollowsBut(Attach1(q, i, y, key, p, gmm), s, y)
  {
    TouchedCore(s, i, e, gmm);
    var q := s.(c1 := RecordAt(Touch(s.c1, i), i, e));
    SameDirs(q, s);
    AttachDirs(q, i, y, key, p, gmm);
    ButTrans(Attach1(q, i, y, key, p, gmm), q, s, y);
  }

  /** What may be linked at y: in a normal directory, the table of the guest's entry. */
  ghost predicate MayLink(c: Cache<Pde>, y: Ptr, key: Key, p: Perm, gt: GuestMem) {
    && y.slot < |c.key| && !St(c, y.slot).Free?
    && (St(c, y.slot).Norm? ==> forall i, large :: DirFaithful(Pde(i, p.rw, p.us, p.nx, large), key, St(c, y.slot).key, y.idx, gt))
  }

  lemma LinkedAgrees(s: Spt, r: Spt, y: Ptr, i: nat, key: Key, p: Perm, gt: GuestMem)
    requires DirsAgree(s, gt) && DirFollowsBut(r, s, y) && MayLink(s.c2, y, key, p, gt) && SameStatus(s.c2, r.c2)
    requires InPages(r.c2.page, y) && Keyed(r.c1, i, key)
    requires var d := Rd(r.c2.page, y); d.Pde? && d.to == i && d.rw == p.rw && d.us == p.us && d.nx == p.nx
    ensures DirsAgree(r, gt)
  {
    forall x ensures DirOk(r, x, gt) {
      if x == y {
        var d := Rd(r.c2.page, y);
        assert d == Pde(i, p.rw, p.us, p.nx, d.large);
        assert r.c1.key[i] == key;
      } else {
        assert DirKept(r, s, x) && DirOk(s, x, gt);
      }
    }
  }

  lemma LinkPdeAgrees(s: Spt, y: Ptr, key: Key, e: nat, p: Perm, gt: GuestMem, gmm: Gmm)
    requires Core(s, gmm) && InPages(s.c2.page, y) && Recorded(s.c2.clear[y.slot], y.idx) && e < ENTRIES
    requires FreeBlank(s.c1) && DirsAgree(s, gt) && MayLink(s.c2, y, key, p, gt)
    ensures DirsAgree(LinkPde(s, y, key, e, p, gmm).s, gt)
  {
    LinkPdeSound(s, y, key, e, p, gmm);
    LinkPdeFollows(s, y, key, e, p, gmm);
    LinkPdeDirs(s, y, key, e, p, gmm);
    var l := LinkPde(s, y, key, e, p, gmm);
    LinkedAgrees(s, l.s, y, l.i, key, p, gt);
  }

  lemma SetPdeDirs(m: seq<Spt>, c: nat, y: Ptr, key: Key, gfnw: Option<nat>, e: nat, p: Perm, gt: GuestMem, gmm: Gmm)
    requires c < |m| && Good(m, c, gmm) && GmmOk(gmm) && FreeBlank(m[c].c1) && AllDirs(m, gt)
    requires InPages(m[c].c2.page, y) && Recorded(m[c].c2.clear[y.slot], y.idx) && e < ENTRIES
    requires MayLink(m[c].c2, y, key, p, gt)
    ensures AllDirs(SetPde(m, c, y, key, gfnw, e, p, gmm), gt)
  {
    var l := LinkPde(m[c], y, key, e, p, gmm);
    LinkPdeGood(m, c, y, key, e, p, gmm);
    assert DirsAgree(m[c], gt);
    LinkPdeAgrees(m[c], y, key, e, p, gt, gmm);
    OneAgrees(m, c, l.s, gt);
    if l.isNew { FinishedAgree(m[c := l.s], c, 1, l.i, key, gfnw, gt, gmm); }
  }

  lemma OneAgrees(m: seq<Spt>, c: nat, s: Spt, gt: GuestMem)
    requires c < |m| && AllDirs(m, gt) && DirsAgree(s, gt)
    ensures AllDirs(m[c := s], gt)
  {
  }

  lemma FinishedAgree(q: seq<Spt>, c: nat, lvl: nat, i: nat, key: Key, gfnw: Option<nat>, gt: GuestMem, gmm: Gmm)
    requires c < |q| && Good(q, c, gmm) && GmmOk(gmm) && NormAt(q[c], lvl, i, key) && AllDirs(q, gt)
    ensures AllDirs(Finish(q, c, lvl, i, key, gfnw, gmm), gt)
  {
    FinishDirs(q, c, lvl, i, key, gfnw, gmm);
    AllDirsOn(q, Finish(q, c, lvl, i, key, gfnw, gmm), gt);
  }

  // ------------------------------------------------------------- setpdpe

  /** A slot that becomes normal has nothing in it. */
  lemma NewDirs(r: Spt, s: Spt, i: nat)
    requires Sized(r) && Sized(s) && |r.c2.key| == |s.c2.key| && r.c1 == s.c1 && NoDangling(r.c2.page, r.c1)
    requires Fewer(r.c2.page, s.c2.page) && i < |r.c2.key| && Empty(r.c2, i)
    requires forall k :: 0 <= k < |s.c2.key| && k != i ==> St(r.c2, k) == St(s.c2, k)
    ensures DirFollows(r, s)
  {
    forall y ensures DirKept(r, s, y) {
      if Present(r, y) {
        assert Rd(r.c2.page, y) == Rd(s.c2.page, y);
        assert y.slot != i;
      }
    }
    if FreeEmpty(s.c2) {
      forall k | 0 <= k < |r.c2.key| && St(r.c2, k).Free? ensures Empty(r.c2, k) {
        if k != i { StillEmpty(r.c2, s.c2, k); }
      }
    }
  }

  lemma LinkPdpeDirs(s: Spt, v: nat, key: Key, gmm: Gmm)
    requires Core(s, gmm) && HasPdpt(s, v) && FreeEmpty(s.c2)
    ensures var l := LinkPdpe(s, v, key, gmm);
      DirFollows(l.s, s) && (l.ok ==> Dir(l.s.c2, l.i, key))
  {
    var f := Find(s.c2, key);
    FindExact(s.c2, key, NoPde);
    if f.Some? {
      LinkHitDirs(s, v, key, f.value, gmm);
    } else if s.c2.freeL == [] {
      FullDirs(s, gmm);
    } else {
      InstallSound(s.c2, key, NoPde);
      var i, d := s.c2.freeL[0], Install(s.c2, key);
      assert i in s.c2.freeL && St(s.c2, i).Free? && Empty(s.c2, i);
      RecordAtSound(d, i, I2(v), NoPde);
      UsedDirs(s, v, RecordAt(d, i, I2(v)), i, gmm);
    }
  }

  /** The PDPE is pointed at slot i, which is empty if it became normal. */
  lemma UsedDirs(s: Spt, v: nat, c: Cache<Pde>, i: nat, gmm: Gmm)
    requires Core(s, gmm) && HasPdpt(s, v) && CacheInv(c, NoPde) && |c.key| == |s.c2.key| && i < |c.key| && Fewer(c.page, s.c2.page)
    requires forall k :: 0 <= k < |c.key| && k != i ==> St(c, k) == St(s.c2, k)
    requires St(c, i) == St(s.c2, i) || Empty(c, i)
    ensures DirFollows(WrPdpe(s.(c2 := c), v, To(i)), s) && DirFollows(s.(c2 := c), s)
  {
    var q, r := s.(c2 := c), WrPdpe(s.(c2 := c), v, To(i));
    FewerDangling(c.page, s.c2.page, s.c1);
    assert r.c1 == s.c1 && r.c2 == c;
    if St(c, i) == St(s.c2, i) {
      FewerFollows(q, s);
      FewerFollows(r, s);
    } else {
      NewDirs(q, s, i);
      NewDirs(r, s, i);
    }
  }

  /** Slot i has the key, normal or modified. */
  ghost predicate Dir(c: Cache<Pde>, i: nat, key: Key) {
    i < |c.key| && (St(c, i) == Norm(key) || St(c, i) == Mod(key))
  }

  lemma LinkHitDirs(s: Spt, v: nat, key: Key, i: nat, gmm: Gmm)
    requires Core(s, gmm) && HasPdpt(s, v) && i < |s.c2.key|
    requires s.c2.key[i] == key && (if s.c2.modified[i] then i in s.c2.modL else i in s.c2.normL)
    ensures var l := LinkHit(s, v, i, gmm); DirFollows(l.s, s) && Dir(l.s.c2, l.i, key)
  {
    var e := I2(v);
    if s.c2.modified[i] && !(RdPdpe(s, v) == To(i) && s.c2.clear[i].n != 0) {
      var c := RevivedDir(s.c2, i, e);
      UsedDirs(s, v, c, i, gmm);
    } else {
      var c := TouchedDir(s.c2, i, e);
      UsedDirs(s, v, c, i, gmm);
    }
  }

  lemma TouchedDir(c: Cache<Pde>, i: nat, e: nat) returns (d: Cache<Pde>)
    requires CacheInv(c, NoPde) && i < |c.key| && e < ENTRIES && (if c.modified[i] then i in c.modL else i in c.normL)
    ensures d == RecordAt(if c.modified[i] then c else Touch(c, i), i, e)
    ensures CacheInv(d, NoPde) && SameStatus(c, d) && Fewer(d.page, c.page) && Dir(d, i, c.key[i])
  {
    if !c.modified[i] { TouchSound(c, i, NoPde); }
    d := if c.modified[i] then c else Touch(c, i);
    RecordAtSound(d, i, e, NoPde);
    SameFewer(c.page);
    d := RecordAt(d, i, e);
  }

  lemma RevivedDir(c: Cache<Pde>, i: nat, e: nat) returns (d: Cache<Pde>)
    requires CacheInv(c, NoPde) && i < |c.key| && e < ENTRIES && i in c.modL
    ensures d == RecordAt(Revive(c, i, NoPde), i, e)
    ensures CacheInv(d, NoPde) && Fewer(d.page, c.page) && Dir(d, i, c.key[i]) && Empty(d, i)
    ensures |d.key| == |c.key| && forall k :: 0 <= k < |c.key| && k != i ==> St(d, k) == St(c, k)
  {
    Revived2(c, i);
    ReviveSound(c, i, NoPde);
    RecordAtSound(Revive(c, i, NoPde), i, e, NoPde);
    d := RecordAt(Revive(c, i, NoPde), i, e);
  }

  lemma FullDirs(s: Spt, gmm: Gmm)
    requires Core(s, gmm) && s.c2.freeL == []
    ensures CacheInv(MakeRoom(s.c2, NoPde), NoPde)
    ensures DirFollows(s.(c2 := FreeMods(MakeRoom(s.c2, NoPde), NoPde)), s)
  {
    MakeRoomSound(s.c2, NoPde);
    var d := MakeRoom(s.c2, NoPde);
    var c := RoomMade(s.c2, d);
    FreeModsSound(d, NoPde);
    FewerDangling(c.page, s.c2.page, s.c1);
    FewerFollows(s.(c2 := c), s);
  }

  lemma FinishStatus2(q: seq<Spt>, c: nat, i: nat, key: Key, gfnw: Option<nat>, gmm: Gmm)
    requires c < |q| && Good(q, c, gmm) && GmmOk(gmm) && NormAt(q[c], 2, i, key)
    ensures var r := Finish(q, c, 2, i, key, gfnw, gmm);
      |r| == |q| && Dir(r[c].c2, i, key)
  {
    if WritesTable(gfnw, key) {
      Mark2(q[c], i, key, gmm);
    } else {
      MakeRdOnlySound(q, c, key, gmm);
      var w := MakeRdOnly(q, c, key, gmm);
      assert Weakened(w.0[c], q[c]);
      if !w.1 { Mark2(w.0[c], i, key, gmm); }
    }
  }

  lemma Mark2(s: Spt, i: nat, key: Key, gmm: Gmm)
    requires Core(s, gmm) && NormAt(s, 2, i, key)
    ensures Dir(Mark(s, 2, i).c2, i, key)
  {
    MarkSound(s, 2, i, key, gmm);
  }

  /** The PDPE of v points at a directory with the key. */
  ghost predicate Leads(s: Spt, v: nat, key: Key) {
    HasPdpt(s, v) && RdPdpe(s, v).To? && Dir(s.c2, RdPdpe(s, v).slot, key)
  }

  lemma SetPdpeDirs(m: seq<Spt>, c: nat, v: nat, key: Key, gfnw: Option<nat>, gt: GuestMem, gmm: Gmm)
    requires c < |m| && Good(m, c, gmm) && GmmOk(gmm) && HasPdpt(m[c], v) && AllDirs(m, gt)
    ensures var (r, ok) := SetPdpe(m, c, v, key, gfnw, gmm); |r| == |m| && AllDirs(r, gt) && (ok ==> Leads(r[c], v, key))
  {
    var l := LinkPdpe(m[c], v, key, gmm);
    LinkPdpeGood(m, c, v, key, gmm);
    assert DirsAgree(m[c], gt);
    LinkPdpeDirs(m[c], v, key, gmm);
    var q := m[c := l.s];
    DirFollowsAgree(l.s, m[c], gt);
    OneAgrees(m, c, l.s, gt);
    if l.isNew {
      FinishStatus2(q, c, l.i, key, gfnw, gmm);
      FinishGood(q, c, 2, l.i, key, gfnw, gmm);
      FinishedAgree(q, c, 2, l.i, key, gfnw, gt, gmm);
      FinishedLeads(Finish(q, c, 2, l.i, key, gfnw, gmm)[c], l.s, v);
    }
  }

  lemma FinishedLeads(r: Spt, s: Spt, v: nat)
    requires Finished(r, s, 2) && HasPdpt(s, v)
    ensures HasPdpt(r, v) && RdPdpe(r, v) == RdPdpe(s, v)
  {
  }

  // ------------------------------------------------------------- the PTE

  /** Only shadow page tables changed, and their keys did not. */
  lemma TablesOnly(r: Spt, s: Spt, gmm: Gmm)
    requires Core(r, gmm) && r.c2 == s.c2 && SameStatus(s.c1, r.c1)
    ensures DirFollows(r, s)
  {
    StatusKeys(r.c1, s.c1);
    SameDirs(r, s);
  }

  lemma MarkBothDirs(s: Spt, g: nat, gmm: Gmm)
    requires Core(s, gmm)
    ensures DirFollows(MarkBoth(s, g, gmm), s)
  {
    MarkBothSound(s, g, gmm);
    MarkAllSound(s.c1, g, Zero);
    MarkAllSound(s.c2, g, NoPde);
    var r := MarkBoth(s, g, gmm);
    StatusKeys(r.c1, s.c1);
    SameFewer(s.c2.page);
    FewerFollows(r, s);
  }

  lemma ForgetDirs(s: Spt, g: nat, y: Ptr, gmm: Gmm)
    requires Core(s, gmm) && InPages(s.c1.page, y)
    ensures var f := Forget(s.c1.page, s.rw, g, y); DirFollows(s.(c1 := s.c1.(page := f.0), rw := f.1), s)
  {
    var f := Forget(s.c1.page, s.rw, g, y);
    SameDirs(s.(c1 := s.c1.(page := f.0), rw := f.1), s);
  }

  lemma UpdateShadowDirs(n: seq<Spt>, c: nat, g: nat, y: Ptr, needrw: bool, gt: GuestMem, gmm: Gmm)
    requires c < |n| && AllCore(n, gmm) && InPages(n[c].c1.page, y) && AllDirs(n, gt)
    ensures AllDirs(UpdateShadow(n, c, g, y, needrw, gmm), gt)
  {
    if needrw {
      var r := UpdateShadow(n, c, g, y, needrw, gmm);
      forall t | 0 <= t < |n| ensures DirsAgree(r[t], gt) {
        MarkBothDirs(n[t], g, gmm);
        DirFollowsAgree(r[t], n[t], gt);
      }
    } else {
      assert DirsAgree(n[c], gt);
      ForgetDirs(n[c], g, y, gmm);
      var f := Forget(n[c].c1.page, n[c].rw, g, y);
      var s := n[c].(c1 := n[c].c1.(page := f.0), rw := f.1);
      DirFollowsAgree(s, n[c], gt);
      OneAgrees(n, c, s, gt);
    }
  }

  lemma SetPteDirs(m: seq<Spt>, c: nat, y: Ptr, g: nat, p: Perm, a: Access, gt: GuestMem, gmm: Gmm)
    requires c < |m| && Inv(m, gmm) && GmmOk(gmm) && AllDirs(m, gt)
    requires InPages(m[c].c1.page, y) && Recorded(m[c].c1.clear[y.slot], y.idx)
    ensures Good(m, c, gmm) && AllDirs(SetPte(m, c, y, g, p, a, gmm), gt)
  {
    var e := NewPte(p, a, gmm.hp(g), gmm.rom(g));
    InvGood(m, c, gmm);
    assert DirsAgree(m[c], gt) && SptInv(m[c], gmm);
    if !SameButAD(Rd(m[c].c1.page, y), e) {
      if !e.rw {
        WrittenDirs(m[c], y, e, gt, gmm);
        OneAgrees(m, c, WrPte(m[c], y, e), gt);
      } else {
        WritableDirs(m, c, y, g, e, a.write, gt, gmm);
      }
    }
  }

  lemma WritableDirs(m: seq<Spt>, c: nat, y: Ptr, g: nat, e: Pte, needrw: bool, gt: GuestMem, gmm: Gmm)
    requires c < |m| && AllCore(m, gmm) && Reg(m[c].c1.page, m[c].rw) && AllDirs(m, gt)
    requires InPages(m[c].c1.page, y) && Recorded(m[c].c1.clear[y.slot], y.idx)
    requires e.Pte? && e.addr == gmm.hp(g) && !gmm.rom(g)
    ensures var s := Registered(m[c], y, g, e, gmm);
      && AllCore(m[c := s], gmm) && InPages(s.c1.page, y)
      && AllDirs(UpdateShadow(m[c := s], c, g, y, needrw, gmm), gt)
  {
    RegisterCore(m[c], y, g, e, gmm);
    assert DirsAgree(m[c], gt);
    RegisteredDirs(m[c], y, g, e, gt, gmm);
    var s := Registered(m[c], y, g, e, gmm);
    OneAgrees(m, c, s, gt);
    UpdateShadowDirs(m[c := s], c, g, y, needrw, gt, gmm);
  }

  lemma WrittenDirs(s: Spt, y: Ptr, e: Pte, gt: GuestMem, gmm: Gmm)
    requires Core(s, gmm) && DirsAgree(s, gt) && InPages(s.c1.page, y) && Recorded(s.c1.clear[y.slot], y.idx)
    ensures DirsAgree(WrPte(s, y, e), gt)
  {
    WrPteCore(s, y, e, gmm);
    TablesOnly(WrPte(s, y, e), s, gmm);
    DirFollowsAgree(WrPte(s, y, e), s, gt);
  }

  lemma RegisteredDirs(s: Spt, y: Ptr, g: nat, e: Pte, gt: GuestMem, gmm: Gmm)
    requires Core(s, gmm) && Reg(s.c1.page, s.rw) && DirsAgree(s, gt) && InPages(s.c1.page, y) && Recorded(s.c1.clear[y.slot], y.idx)
    requires e.Pte? && e.addr == gmm.hp(g) && !gmm.rom(g)
    ensures DirsAgree(Registered(s, y, g, e, gmm), gt)
  {
    RegisterCore(s, y, g, e, gmm);
    var r := Registered(s, y, g, e, gmm);
    TablesOnly(r, s, gmm);
    DirFollowsAgree(r, s, gt);
  }

  // ------------------------------------------------------------- map_page

  /** The table that map_page links is that of the guest's directory entry. */
  lemma NewDirFaithful(s: Spt, g: Guest, v: nat, a: Access, gt: GuestMem, i: nat, large: bool)
    requires WalkFits(gt, v, g) && 1 <= g.glvl <= 4
    ensures var p := Perm1(s, g, a); DirFaithful(Pde(i, p.rw, p.us, p.nx, large), KeyPt(s, g, v), KeyPd(s, g, v), I2(v), gt)
  {
    var t, k := KeyPt(s, g, v), KeyPd(s, g, v);
    if k.large {
      LargeDir(g.gfn0, v);
    } else {
      DirIndexIs(v);
      assert DirIndex(k, I2(v)) == GuestDirIndex(g.glvl, v) && Half(k.glvl, I2(v)) == Half(g.glvl, v / 0x20_0000 % 2);
      if g.gfn1.None? { LargeTable(g.gfn0, gt(g.gfn2.value, GuestDirIndex(g.glvl, v)).base, g.glvl, v); }
    }
  }

  lemma LargeDir(f: nat, v: nat)
    requires f % 0x4_0000 == v / 0x1000 % 0x4_0000 && f % 512 == I1(v)
    ensures f - f % 512 == f - f % 0x4_0000 + 512 * I2(v) && (f - f % 0x4_0000) % 0x4_0000 == 0
  {
    TwoIndices(v);
  }

  lemma LargeTable(f: nat, base: nat, glvl: nat, v: nat)
    requires base % Span(glvl) == 0 && f == base + v / 0x1000 % Span(glvl)
    ensures f - f % 512 == base + Half(glvl, v / 0x20_0000 % 2) * 512
  {
    IndexIs(v);
    if glvl == 2 {
      LowPart(base / 1024 * 2 + v / 0x20_0000 % 2, v / 0x1000 % 512, f);
    } else {
      LowPart(base / 512, v / 0x1000 % 512, f);
    }
  }

  lemma LowPart(x: nat, i: nat, f: nat)
    requires f == 512 * x + i && i < 512
    ensures f % 512 == i
  {
  }
}
