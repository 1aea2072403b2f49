/** map_page and its parts (cpu_mmu_spt.c, SPT_3). */
module SptMap {
  import opened Lists
  import opened Tables
  import opened LazyClear
  import opened ShadowCache
  import opened RwMap
  import opened BackRefs
  import opened Spt3

  /** struct map_page_data2: what the guest tables above and including a level permit. */
  datatype Perm = Perm(rw: bool, us: bool, nx: bool)

  // ------------------------------------------------------------- new_shadow1

  /** Only slot i of c1 may have become protecting; entries were only erased; the rest
      of the vcpu is as before. */
  ghost predicate Grown1(r: Spt, s: Spt, i: nat, key: Key) {
    && r.levels == s.levels && r.top == s.top && r.tbl == s.tbl && r.cnt == s.cnt && r.wp == s.wp
    && |r.c1.key| == |s.c1.key| && SameStatus(s.c2, r.c2)
    && i < |s.c1.key| && St(r.c1, i) == Norm(key)
    && (forall k :: 0 <= k < |s.c1.key| && k != i && St(r.c1, k).Norm? ==> St(r.c1, k) == St(s.c1, k))
    && Erased(r.c1.page, s.c1.page, Zero) && Fewer(r.c2.page, s.c2.page) && r.c2.clear == s.c2.clear
    && r.rw == s.rw
  }

  /** The cache slot for a key that is not held by a normal slot (new_shadow1), with the
      entry about to be written recorded. */
  function NewShadow1(s: Spt, key: Key, e: nat, gmm: Gmm): (Spt, nat)
    requires Core(s, gmm) && e < ENTRIES && (var f := Find(s.c1, key); f.Some? ==> s.c1.modified[f.value])
  {
    var f := Find(s.c1, key);
    if f.Some? then
      (s.(c1 := RecordAt(Revive(s.c1, f.value, Zero), f.value, e)), f.value)
    else
      var q := Room1(s, gmm);
      Room1Sound(s, gmm);
      (q.(c1 := RecordAt(Install(q.c1, key), q.c1.freeL[0], e)), q.c1.freeL[0])
  }

  /** Make sure that the free list of shadow page tables is not empty. */
  function Room1(s: Spt, gmm: Gmm): Spt
    requires Core(s, gmm)
  {
    if s.c1.freeL != [] then s
    else
      MakeRoomSound(s.c1, Zero);
      CleanFree1(s.(c1 := MakeRoom(s.c1, Zero)), gmm)
  }

  lemma Room1Sound(s: Spt, gmm: Gmm)
    requires Core(s, gmm)
    ensures var q := Room1(s, gmm);
      && Core(q, gmm) && q.c1.freeL != [] && q.c1.freeL[0] < |q.c1.key|
      && q.levels == s.levels && q.top == s.top && q.tbl == s.tbl && q.cnt == s.cnt && q.wp == s.wp
      && |q.c1.key| == |s.c1.key| && SameStatus(s.c2, q.c2) && q.rw == s.rw && q.c2.clear == s.c2.clear
      && (forall k :: 0 <= k < |s.c1.key| ==> St(q.c1, k) == Free || St(q.c1, k) == St(s.c1, k))
      && Erased(q.c1.page, s.c1.page, Zero) && Fewer(q.c2.page, s.c2.page)
  {
    if s.c1.freeL == [] {
      MakeRoomSound(s.c1, Zero);
      var r := s.(c1 := MakeRoom(s.c1, Zero));
      CleanFree1Sound(r, gmm);
    }
  }

  lemma NewShadow1Sound(s: Spt, key: Key, e: nat, gmm: Gmm)
    requires Core(s, gmm) && e < ENTRIES && (var f := Find(s.c1, key); f.Some? ==> s.c1.modified[f.value])
    ensures var (r, i) := NewShadow1(s, key, e, gmm);
      Core(r, gmm) && Grown1(r, s, i, key) && Recorded(r.c1.clear[i], e)
  {
    var f := Find(s.c1, key);
    FindExact(s.c1, key, Zero);
    if f.Some? {
      ReviveCase(s, f.value, e, gmm);
    } else {
      Room1Sound(s, gmm);
      var q := Room1(s, gmm);
      NoKeyKept(q.c1, s.c1, key);
      InstallCase(q, key, e, gmm);
      GrownAfter(s, q, NewShadow1(s, key, e, gmm).0, q.c1.freeL[0], key);
    }
  }

  lemma ReviveCase(s: Spt, i: nat, e: nat, gmm: Gmm)
    requires Core(s, gmm) && e < ENTRIES && i < |s.c1.key| && i in s.c1.modL
    ensures var r := s.(c1 := RecordAt(Revive(s.c1, i, Zero), i, e));
      Core(r, gmm) && Grown1(r, s, i, s.c1.key[i]) && Recorded(r.c1.clear[i], e)
  {
    var c := Revive(s.c1, i, Zero);
    ReviveSound(s.c1, i, Zero);
    RecordAtSound(c, i, e, Zero);
    ZerosErased(s.c1.page, i, Zero);
    CoreC1(s, RecordAt(c, i, e), gmm);
  }

  lemma InstallCase(q: Spt, key: Key, e: nat, gmm: Gmm)
    requires Core(q, gmm) && e < ENTRIES && q.c1.freeL != [] && q.c1.freeL[0] < |q.c1.key|
    requires forall k :: 0 <= k < |q.c1.key| && k !in q.c1.freeL ==> q.c1.key[k] != key
    ensures var i := q.c1.freeL[0]; var r := q.(c1 := RecordAt(Install(q.c1, key), i, e));
      Core(r, gmm) && Changed(q.c1, r.c1, i, Norm(key)) && r.c1.page == q.c1.page && Recorded(r.c1.clear[i], e)
  {
    var i := q.c1.freeL[0];
    InstallSound(q.c1, key, Zero);
    RecordAtSound(Install(q.c1, key), i, e, Zero);
    CoreC1(q, RecordAt(Install(q.c1, key), i, e), gmm);
  }

  lemma GrownAfter(s: Spt, q: Spt, r: Spt, i: nat, key: Key)
    requires r == q.(c1 := r.c1) && Changed(q.c1, r.c1, i, Norm(key)) && r.c1.page == q.c1.page
    requires q.levels == s.levels && q.top == s.top && q.tbl == s.tbl && q.cnt == s.cnt && q.wp == s.wp
    requires |q.c1.key| == |s.c1.key| && SameStatus(s.c2, q.c2) && q.rw == s.rw && q.c2.clear == s.c2.clear
    requires forall k :: 0 <= k < |s.c1.key| ==> St(q.c1, k) == Free || St(q.c1, k) == St(s.c1, k)
    requires Erased(q.c1.page, s.c1.page, Zero) && Fewer(q.c2.page, s.c2.page)
    ensures Grown1(r, s, i, key)
  {
  }

  lemma NoKeyKept(q: Cache<Pte>, c: Cache<Pte>, key: Key)
    requires |q.key| == |c.key|
    requires forall i :: 0 <= i < |c.key| ==> i in c.freeL || c.key[i] != key
    requires forall k :: 0 <= k < |c.key| ==> St(q, k) == Free || St(q, k) == St(c, k)
    ensures forall k :: 0 <= k < |q.key| && k !in q.freeL ==> q.key[k] != key
  {
    forall k | 0 <= k < |q.key| && k !in q.freeL ensures q.key[k] != key {
      assert St(q, k) == St(c, k);
    }
  }

  // ------------------------------------------------------------- setpde, on the own vcpu

  datatype Linking = Linking(s: Spt, i: nat, isNew: bool)

  function WrPde(s: Spt, y: Ptr, e: Pde): Spt
    requires InPages(s.c2.page, y)
  {
    s.(c2 := s.c2.(page := Wr(s.c2.page, y, e)))
  }

  /** add_shadow1map then pmap_write */
  function Attach1(s: Spt, i: nat, y: Ptr, key: Key, p: Perm, gmm: Gmm): Spt
    requires Core(s, gmm) && i < |s.c1.key| && InPages(s.c2.page, y)
  {
    var a := AddRef(s.c2.page, s.map1, i, y);
    AddRefSound(s.c2.page, s.map1, i, y);
    s.(c2 := s.c2.(page := Wr(a.0, y, Pde(i, p.rw, p.us, p.nx, key.large))), map1 := a.1)
  }

  /** is_shadow1_pde_ok: the PDE already points at the slot of the key, which has not
      been cleared behind its back. */
  predicate PdeGood(s: Spt, y: Ptr, f: Option<nat>)
    requires InPages(s.c2.page, y) && (f.Some? ==> f.value < |s.c1.modified| && f.value < |s.c1.clear|)
  {
    f.Some? && PointsTo(Rd(s.c2.page, y), f.value) && (s.c1.modified[f.value] ==> s.c1.clear[f.value].n != 0)
  }

  /** setpde up to the write of the PDE. */
  function LinkPde(s: Spt, y: Ptr, key: Key, e: nat, p: Perm, gmm: Gmm): Linking
    requires Core(s, gmm) && InPages(s.c2.page, y) && e < ENTRIES
  {
    var f := Find(s.c1, key);
    FindExact(s.c1, key, Zero);
    if PdeGood(s, y, f) then
      var i := f.value;
      var c := if s.c1.modified[i] then s.c1 else Touch(s.c1, i);
      Linking(WrPde(s.(c1 := RecordAt(c, i, e)), y, Rd(s.c2.page, y).(rw := p.rw, us := p.us, nx := p.nx)), i, false)
    else if f.Some? && !s.c1.modified[f.value] then
      var i := f.value;
      TouchedCore(s, i, e, gmm);
      Linking(Attach1(s.(c1 := RecordAt(Touch(s.c1, i), i, e)), i, y, key, p, gmm), i, false)
    else
      NewShadow1Sound(s, key, e, gmm);
      var n := NewShadow1(s, key, e, gmm);
      Linking(Attach1(n.0, n.1, y, key, p, gmm), n.1, true)
  }

  lemma TouchedCore(s: Spt, i: nat, e: nat, gmm: Gmm)
    requires Core(s, gmm) && i < |s.c1.key| && i in s.c1.normL && e < ENTRIES
    ensures var c := RecordAt(Touch(s.c1, i), i, e);
      Core(s.(c1 := c), gmm) && SameStatus(s.c1, c) && Recorded(c.clear[i], e) && c.page == s.c1.page
  {
    TouchSound(s.c1, i, Zero);
    RecordAtSound(Touch(s.c1, i), i, e, Zero);
    CoreC1(s, RecordAt(Touch(s.c1, i), i, e), gmm);
  }

  /** Writing a PDE at a recorded entry that has its back-reference. */
  lemma WrPdeSound(s: Spt, y: Ptr, e: Pde, gmm: Gmm)
    requires Core(s, gmm) && InPages(s.c2.page, y) && Recorded(s.c2.clear[y.slot], y.idx)
    requires e.Pde? && e.to < |s.c1.key| && !St(s.c1, e.to).Free?
    requires exists k :: RefBy(s.map1, k, e.to, y)
    ensures Core(WrPde(s, y, e), gmm) && SameStatus(s.c2, WrPde(s, y, e).c2)
  {
    WritePdeLinked(s.c2.page, s.map1, y, e);
    WriteEntrySound(s.c2, y.slot, y.idx, e, NoPde);
    assert WrPde(s, y, e).c2 == WriteEntry(s.c2, y.slot, y.idx, e);
  }

  lemma Attach1Sound(s: Spt, i: nat, y: Ptr, key: Key, p: Perm, gmm: Gmm)
    requires Core(s, gmm) && i < |s.c1.key| && InPages(s.c2.page, y) && Recorded(s.c2.clear[y.slot], y.idx)
    requires !St(s.c1, i).Free?
    ensures var r := Attach1(s, i, y, key, p, gmm);
      && Core(r, gmm) && r.c1 == s.c1 && SameStatus(s.c2, r.c2) && r.c2.clear == s.c2.clear
      && Rd(r.c2.page, y) == Pde(i, p.rw, p.us, p.nx, key.large)
      && r == s.(c2 := r.c2, map1 := r.map1)
  {
    var a := AddRef(s.c2.page, s.map1, i, y);
    AddRefSound(s.c2.page, s.map1, i, y);
    FewerCache(s.c2, a.0);
    var q := s.(c2 := s.c2.(page := a.0), map1 := a.1);
    assert Core(q, gmm);
    WrPdeSound(q, y, Pde(i, p.rw, p.us, p.nx, key.large), gmm);
  }

  /** What setpde did to its own vcpu before makerdonly. */
  ghost predicate Linked1(l: Linking, s: Spt, y: Ptr, key: Key, e: nat, p: Perm, gmm: Gmm) {
    var r := l.s;
    && Core(r, gmm)
    && r.levels == s.levels && r.top == s.top && r.tbl == s.tbl && r.cnt == s.cnt && r.wp == s.wp && r.rw == s.rw
    && |r.c1.key| == |s.c1.key| && SameStatus(s.c2, r.c2)
    && l.i < |r.c1.key| && !St(r.c1, l.i).Free? && Recorded(r.c1.clear[l.i], e)
    && (forall k :: 0 <= k < |s.c1.key| && St(r.c1, k).Norm? ==>
          St(r.c1, k) == St(s.c1, k) || (l.isNew && k == l.i && St(r.c1, k) == Norm(key)))
    && (l.isNew ==> St(r.c1, l.i) == Norm(key))
    && Erased(r.c1.page, s.c1.page, Zero)
    && InPages(r.c2.page, y) && Rd(r.c2.page, y).Pde?
    && (var d := Rd(r.c2.page, y); d.to == l.i && d.rw == p.rw && d.us == p.us && d.nx == p.nx)
  }

  lemma LinkPdeSound(s: Spt, y: Ptr, key: Key, e: nat, p: Perm, gmm: Gmm)
    requires Core(s, gmm) && InPages(s.c2.page, y) && Recorded(s.c2.clear[y.slot], y.idx) && e < ENTRIES
    ensures Linked1(LinkPde(s, y, key, e, p, gmm), s, y, key, e, p, gmm)
  {
    var f := Find(s.c1, key);
    FindExact(s.c1, key, Zero);
    if PdeGood(s, y, f) {
      GoodPdeLinked(s, y, f.value, key, e, p, gmm);
    } else if f.Some? && !s.c1.modified[f.value] {
      HitSound(s, y, f.value, key, e, p, gmm);
    } else {
      MissSound(s, y, key, e, p, gmm);
    }
  }

  lemma GoodPdeLinked(s: Spt, y: Ptr, i: nat, key: Key, e: nat, p: Perm, gmm: Gmm)
    requires Core(s, gmm) && InPages(s.c2.page, y) && Recorded(s.c2.clear[y.slot], y.idx) && e < ENTRIES
    requires i < |s.c1.key| && PointsTo(Rd(s.c2.page, y), i)
    requires if s.c1.modified[i] then i in s.c1.modL else i in s.c1.normL
    ensures
      var c := if s.c1.modified[i] then s.c1 else Touch(s.c1, i);
      var r := WrPde(s.(c1 := RecordAt(c, i, e)), y, Rd(s.c2.page, y).(rw := p.rw, us := p.us, nx := p.nx));
      Linked1(Linking(r, i, false), s, y, key, e, p, gmm)
  {
    GoodPdeSound(s, y, i, e, p, gmm);
  }

  lemma HitSound(s: Spt, y: Ptr, i: nat, key: Key, e: nat, p: Perm, gmm: Gmm)
    requires Core(s, gmm) && InPages(s.c2.page, y) && Recorded(s.c2.clear[y.slot], y.idx) && e < ENTRIES
    requires i < |s.c1.key| && i in s.c1.normL
    ensures var q := s.(c1 := RecordAt(Touch(s.c1, i), i, e));
      Core(q, gmm) && Linked1(Linking(Attach1(q, i, y, key, p, gmm), i, false), s, y, key, e, p, gmm)
  {
    TouchedCore(s, i, e, gmm);
    Attach1Sound(s.(c1 := RecordAt(Touch(s.c1, i), i, e)), i, y, key, p, gmm);
  }

  lemma MissSound(s: Spt, y: Ptr, key: Key, e: nat, p: Perm, gmm: Gmm)
    requires Core(s, gmm) && InPages(s.c2.page, y) && Recorded(s.c2.clear[y.slot], y.idx) && e < ENTRIES
    requires var f := Find(s.c1, key); f.Some? ==> s.c1.modified[f.value]
    ensures var n := NewShadow1(s, key, e, gmm);
      && Core(n.0, gmm) && n.1 < |n.0.c1.key| && InPages(n.0.c2.page, y)
      && Linked1(Linking(Attach1(n.0, n.1, y, key, p, gmm), n.1, true), s, y, key, e, p, gmm)
  {
    NewShadow1Sound(s, key, e, gmm);
    var n := NewShadow1(s, key, e, gmm);
    Attach1Sound(n.0, n.1, y, key, p, gmm);
  }

  lemma GoodPdeSound(s: Spt, y: Ptr, i: nat, e: nat, p: Perm, gmm: Gmm)
    requires Core(s, gmm) && InPages(s.c2.page, y) && Recorded(s.c2.clear[y.slot], y.idx) && e < ENTRIES
    requires i < |s.c1.key| && PointsTo(Rd(s.c2.page, y), i)
    requires if s.c1.modified[i] then i in s.c1.modL else i in s.c1.normL
    ensures
      var c := if s.c1.modified[i] then s.c1 else Touch(s.c1, i);
      var r := WrPde(s.(c1 := RecordAt(c, i, e)), y, Rd(s.c2.page, y).(rw := p.rw, us := p.us, nx := p.nx));
      && Core(r, gmm) && SameStatus(s.c1, r.c1) && SameStatus(s.c2, r.c2) && Recorded(r.c1.clear[i], e)
      && !St(r.c1, i).Free?
  {
    var c := if s.c1.modified[i] then s.c1 else Touch(s.c1, i);
    if !s.c1.modified[i] { TouchSound(s.c1, i, Zero); }
    RecordAtSound(c, i, e, Zero);
    var q := s.(c1 := RecordAt(c, i, e));
    CoreC1(s, q.c1, gmm);
    WrPdeSound(q, y, Rd(s.c2.page, y).(rw := p.rw, us := p.us, nx := p.nx), gmm);
  }

  // ------------------------------------------------------------- makerdonly

  function ProtectSpt(s: Spt, g: nat, own: bool, gmm: Gmm): Spt
    requires Core(s, gmm)
  {
    var r := Protect(s.c1.page, s.rw, g, own, gmm);
    s.(c1 := s.c1.(page := r.page), rw := r.rw)
  }

  ghost predicate AllCore(m: seq<Spt>, gmm: Gmm) {
    forall t :: 0 <= t < |m| ==> Core(m[t], gmm)
  }

  /** Everything but the upper tables of vcpu c is sound. */
  ghost predicate Good(m: seq<Spt>, c: nat, gmm: Gmm) {
    forall t :: 0 <= t < |m| ==> Core(m[t], gmm) && Reg(m[t].c1.page, m[t].rw) && (t != c ==> TopOk(m[t]))
  }

  /** makerdonly: over all vcpus; it fails if another vcpu may hold a dirty mapping. */
  function MakeRdOnly(m: seq<Spt>, c: nat, key: Key, gmm: Gmm): (seq<Spt>, bool)
    requires AllCore(m, gmm)
  {
    if key.large then (m, true)
    else (seq(|m|, t requires 0 <= t < |m| => ProtectSpt(m[t], key.gfn, t == c, gmm)),
          forall t :: 0 <= t < |m| ==> Protect(m[t].c1.page, m[t].rw, key.gfn, t == c, gmm).ok)
  }

  /** Only permissions were taken away. */
  ghost predicate Weakened(r: Spt, s: Spt) {
    && r == s.(c1 := s.c1.(page := r.c1.page), rw := r.rw)
    && Weaker(r.c1.page, s.c1.page) && SameStatus(s.c1, r.c1)
  }

  lemma ProtectSptSound(s: Spt, g: nat, own: bool, gmm: Gmm)
    requires Core(s, gmm) && Reg(s.c1.page, s.rw) && GmmOk(gmm)
    ensures var r := ProtectSpt(s, g, own, gmm); var p := Protect(s.c1.page, s.rw, g, own, gmm);
      && Core(r, gmm) && Reg(r.c1.page, r.rw) && Weakened(r, s)
      && (own ==> p.ok) && (p.ok ==> NoWriters(r.c1.page, gmm.hp(g)))
  {
    ProtectSound(s.c1.page, s.rw, g, own, gmm);
    var p := Protect(s.c1.page, s.rw, g, own, gmm);
    WeakerCore(s, p.page, p.rw, gmm);
  }

  lemma MakeRdOnlySound(m: seq<Spt>, c: nat, key: Key, gmm: Gmm)
    requires Good(m, c, gmm) && GmmOk(gmm)
    ensures AllCore(m, gmm)
    ensures var r := MakeRdOnly(m, c, key, gmm);
      && |r.0| == |m| && Good(r.0, c, gmm)
      && (forall t :: 0 <= t < |m| ==> Weakened(r.0[t], m[t]))
      && (r.1 && !key.large ==> forall u :: 0 <= u < |m| ==> NoWriters(r.0[u].c1.page, gmm.hp(key.gfn)))
      && (key.large ==> r.1)
      && (|m| == 1 && c == 0 ==> r.1)
  {
    var r := MakeRdOnly(m, c, key, gmm);
    if !key.large {
      forall t | 0 <= t < |m|
        ensures Core(r.0[t], gmm) && Reg(r.0[t].c1.page, r.0[t].rw) && Weakened(r.0[t], m[t])
        ensures r.1 ==> NoWriters(r.0[t].c1.page, gmm.hp(key.gfn))
        ensures t == c ==> Protect(m[t].c1.page, m[t].rw, key.gfn, t == c, gmm).ok
        ensures t != c ==> TopOk(r.0[t])
      {
        ProtectSptSound(m[t], key.gfn, t == c, gmm);
        if t != c { SameStatusTop(m[t], r.0[t]); }
      }
    }
  }

  /** Pointwise: no new writable PTE, and protecting shadows only of frames without writers. */
  lemma KeepAll(m: seq<Spt>, d: seq<Spt>, gmm: Gmm)
    requires |d| == |m| && WriteProtected(m, gmm)
    requires forall u :: 0 <= u < |m| ==> FewerWriters(d[u].c1.page, m[u].c1.page)
    requires forall t, g: nat :: 0 <= t < |m| && Shadows(d[t], g) ==>
      Shadows(m[t], g) || forall u :: 0 <= u < |d| ==> NoWriters(d[u].c1.page, gmm.hp(g))
    ensures WriteProtected(d, gmm)
  {
    forall t, u, g: nat | 0 <= t < |d| && 0 <= u < |d| && Shadows(d[t], g) ensures NoWriters(d[u].c1.page, gmm.hp(g)) {
      if Shadows(m[t], g) { assert NoWriters(m[u].c1.page, gmm.hp(g)); }
    }
  }

  // ------------------------------------------------------------- the end of setpde and setpdpe

  /** modified_shadow1 and modified_shadow2 */
  function Mark(s: Spt, lvl: nat, i: nat): Spt
    requires if lvl == 1 then i < |s.c1.modified| else i < |s.c2.modified|
  {
    if lvl == 1 then (if s.c1.modified[i] then s else s.(c1 := MarkModified(s.c1, i)))
    else (if s.c2.modified[i] then s else s.(c2 := MarkModified(s.c2, i)))
  }

  /** Slot i at level lvl protects the table named by key. */
  ghost predicate NormAt(s: Spt, lvl: nat, i: nat, key: Key) {
    if lvl == 1 then i < |s.c1.key| && St(s.c1, i) == Norm(key) else i < |s.c2.key| && St(s.c2, i) == Norm(key)
  }

  /** Besides slot i at level lvl (for key), nothing became protecting. */
  ghost predicate OnlyNew(r: Spt, s: Spt, lvl: nat, i: nat, key: Key) {
    && |r.c1.key| == |s.c1.key| && |r.c2.key| == |s.c2.key|
    && (forall k :: 0 <= k < |s.c1.key| && St(r.c1, k).Norm? ==>
          St(r.c1, k) == St(s.c1, k) || (lvl == 1 && k == i && St(r.c1, k) == Norm(key)))
    && (forall k :: 0 <= k < |s.c2.key| && St(r.c2, k).Norm? ==>
          St(r.c2, k) == St(s.c2, k) || (lvl != 1 && k == i && St(r.c2, k) == Norm(key)))
  }

  /** What marking changed: slot i at level lvl is no longer protecting. */
  ghost predicate Marked(r: Spt, s: Spt, lvl: nat, i: nat) {
    && |r.c1.key| == |s.c1.key| && |r.c2.key| == |s.c2.key|
    && r.levels == s.levels && r.top == s.top && r.tbl == s.tbl && r.cnt == s.cnt && r.wp == s.wp
    && r.c1.page == s.c1.page && r.c1.clear == s.c1.clear && r.c2.page == s.c2.page && r.c2.clear == s.c2.clear
    && (forall k :: 0 <= k < |s.c1.key| ==> St(r.c1, k) == St(s.c1, k) || (lvl == 1 && k == i && St(r.c1, k).Mod?))
    && (forall k :: 0 <= k < |s.c2.key| ==> St(r.c2, k) == St(s.c2, k) || (lvl != 1 && k == i && St(r.c2, k).Mod?))
    && (if lvl == 1 then i < |s.c1.key| && St(r.c1, i).Mod? else i < |s.c2.key| && St(r.c2, i).Mod?)
  }

  lemma MarkSound(s: Spt, lvl: nat, i: nat, key: Key, gmm: Gmm)
    requires Core(s, gmm) && NormAt(s, lvl, i, key)
    ensures Core(Mark(s, lvl, i), gmm) && Marked(Mark(s, lvl, i), s, lvl, i)
    ensures Mark(s, lvl, i).rw == s.rw
  {
    if lvl == 1 {
      assert i in s.c1.normL;
      MarkModifiedSound(s.c1, i, Zero);
      CoreC1(s, MarkModified(s.c1, i), gmm);
    } else {
      assert i in s.c2.normL;
      MarkModifiedSound(s.c2, i, NoPde);
      FewerDirs(s, MarkModified(s.c2, i), gmm);
    }
  }

  lemma MarkGood(m: seq<Spt>, c: nat, lvl: nat, i: nat, key: Key, gmm: Gmm)
    requires c < |m| && Good(m, c, gmm) && NormAt(m[c], lvl, i, key)
    ensures Good(m[c := Mark(m[c], lvl, i)], c, gmm) && Marked(Mark(m[c], lvl, i), m[c], lvl, i)
  {
    MarkSound(m[c], lvl, i, key, gmm);
  }

  /** gfnw names the frame that this fault writes: is it the shadowed table itself? */
  predicate WritesTable(gfnw: Option<nat>, key: Key) {
    gfnw.Some? && !key.large && gfnw.value == key.gfn
  }

  /** A new shadow of a guest table: protect the table everywhere, or admit that the
      shadow may be out of date. */
  function Finish(q: seq<Spt>, c: nat, lvl: nat, i: nat, key: Key, gfnw: Option<nat>, gmm: Gmm): seq<Spt>
    requires c < |q| && Good(q, c, gmm) && GmmOk(gmm) && NormAt(q[c], lvl, i, key)
  {
    if WritesTable(gfnw, key) then q[c := Mark(q[c], lvl, i)]
    else
      MakeRdOnlySound(q, c, key, gmm);
      var w := MakeRdOnly(q, c, key, gmm);
      assert Weakened(w.0[c], q[c]);
      if w.1 then w.0 else w.0[c := Mark(w.0[c], lvl, i)]
  }

  /** What Finish leaves of the current vcpu. */
  ghost predicate Finished(r: Spt, s: Spt, lvl: nat) {
    && r.levels == s.levels && r.top == s.top && r.tbl == s.tbl && r.cnt == s.cnt && r.wp == s.wp
    && |r.c1.key| == |s.c1.key| && |r.c2.key| == |s.c2.key|
    && r.c1.clear == s.c1.clear && r.c2.page == s.c2.page && r.c2.clear == s.c2.clear
    && (forall k :: 0 <= k < |s.c1.key| ==> St(r.c1, k) == St(s.c1, k) || (lvl == 1 && !St(r.c1, k).Free?))
    && (forall k :: 0 <= k < |s.c2.key| ==> St(r.c2, k) == St(s.c2, k) || (lvl != 1 && !St(r.c2, k).Free?))
    && Weaker(r.c1.page, s.c1.page)
  }

  lemma FinishGood(q: seq<Spt>, c: nat, lvl: nat, i: nat, key: Key, gfnw: Option<nat>, gmm: Gmm)
    requires c < |q| && Good(q, c, gmm) && GmmOk(gmm) && NormAt(q[c], lvl, i, key)
    ensures var r := Finish(q, c, lvl, i, key, gfnw, gmm);
      |r| == |q| && Good(r, c, gmm) && Finished(r[c], q[c], lvl)
  {
    if WritesTable(gfnw, key) {
      MarkGood(q, c, lvl, i, key, gmm);
      MarkedFinished(Mark(q[c], lvl, i), q[c], q[c], lvl, i);
    } else {
      MakeRdOnlySound(q, c, key, gmm);
      var w := MakeRdOnly(q, c, key, gmm);
      assert Weakened(w.0[c], q[c]);
      if !w.1 {
        MarkGood(w.0, c, lvl, i, key, gmm);
        MarkedFinished(Mark(w.0[c], lvl, i), w.0[c], q[c], lvl, i);
      }
    }
  }

  lemma MarkedFinished(r: Spt, w: Spt, s: Spt, lvl: nat, i: nat)
    requires Marked(r, w, lvl, i) && (w == s || Weakened(w, s))
    ensures Finished(r, s, lvl)
  {
  }

  /** Finish keeps guest tables write-protected, given that only the new shadow is new. */
  lemma FinishProtected(m: seq<Spt>, q: seq<Spt>, c: nat, lvl: nat, i: nat, key: Key, gfnw: Option<nat>, gmm: Gmm)
    requires c < |q| == |m| && Good(q, c, gmm) && GmmOk(gmm) && NormAt(q[c], lvl, i, key)
    requires WriteProtected(m, gmm) && q == m[c := q[c]]
    requires FewerWriters(q[c].c1.page, m[c].c1.page) && OnlyNew(q[c], m[c], lvl, i, key)
    ensures WriteProtected(Finish(q, c, lvl, i, key, gfnw, gmm), gmm)
  {
    if WritesTable(gfnw, key) {
      MarkGood(q, c, lvl, i, key, gmm);
      MarkedKeeps(m, q, q, c, lvl, i, key, gmm);
    } else {
      MakeRdOnlySound(q, c, key, gmm);
      var w := MakeRdOnly(q, c, key, gmm);
      assert Weakened(w.0[c], q[c]);
      if w.1 {
        ProtectedAfter(m, c, lvl, i, key, q, w.0, gmm);
      } else {
        MarkGood(w.0, c, lvl, i, key, gmm);
        MarkedKeeps(m, q, w.0, c, lvl, i, key, gmm);
      }
    }
  }

  /** The new shadow's table was protected on all vcpus. */
  lemma ProtectedAfter(m: seq<Spt>, c: nat, lvl: nat, i: nat, key: Key, q: seq<Spt>, w: seq<Spt>, gmm: Gmm)
    requires c < |m| == |w| == |q| && WriteProtected(m, gmm) && q == m[c := q[c]]
    requires forall t :: 0 <= t < |m| ==> Weakened(w[t], q[t])
    requires !key.large ==> forall u :: 0 <= u < |m| ==> NoWriters(w[u].c1.page, gmm.hp(key.gfn))
    requires FewerWriters(q[c].c1.page, m[c].c1.page) && OnlyNew(q[c], m[c], lvl, i, key)
    ensures WriteProtected(w, gmm)
  {
    forall u | 0 <= u < |m| ensures FewerWriters(w[u].c1.page, m[u].c1.page) {
      WeakerFewer(w[u].c1.page, q[u].c1.page);
    }
    forall t, g: nat | 0 <= t < |m| && Shadows(w[t], g)
      ensures Shadows(m[t], g) || forall u :: 0 <= u < |w| ==> NoWriters(w[u].c1.page, gmm.hp(g))
    {
      WeakenedShadows(w[t], q[t], g);
      if t == c && (g != key.gfn || key.large) { ShadowsOld(q[c], m[c], lvl, i, key, g); }
    }
    KeepAll(m, w, gmm);
  }

  lemma WeakenedShadows(r: Spt, s: Spt, g: nat)
    requires Weakened(r, s)
    ensures Shadows(r, g) <==> Shadows(s, g)
  {
    DemotedFewer(r, s);
    DemotedFewer(s, r);
  }

  /** The new shadow was marked modified, so nothing new is protecting. */
  lemma MarkedKeeps(m: seq<Spt>, q: seq<Spt>, w: seq<Spt>, c: nat, lvl: nat, i: nat, key: Key, gmm: Gmm)
    requires c < |m| == |w| == |q| && WriteProtected(m, gmm) && q == m[c := q[c]]
    requires w == q || forall t :: 0 <= t < |m| ==> Weakened(w[t], q[t])
    requires FewerWriters(q[c].c1.page, m[c].c1.page) && OnlyNew(q[c], m[c], lvl, i, key)
    requires if lvl == 1 then i < |w[c].c1.modified| else i < |w[c].c2.modified|
    requires Marked(Mark(w[c], lvl, i), w[c], lvl, i)
    ensures WriteProtected(w[c := Mark(w[c], lvl, i)], gmm)
  {
    var d := w[c := Mark(w[c], lvl, i)];
    forall u | 0 <= u < |m| ensures FewerWriters(d[u].c1.page, m[u].c1.page) {
      if w != q { WeakerFewer(w[u].c1.page, q[u].c1.page); }
    }
    forall t, g: nat | 0 <= t < |m| && Shadows(d[t], g) ensures Shadows(m[t], g) {
      if t == c {
        assert w == q || Weakened(w[c], q[c]);
        DemotedFewer(d[c], m[c]);
      } else if w != q {
        WeakenedShadows(w[t], q[t], g);
      }
    }
    KeepAll(m, d, gmm);
  }

  /** A new protecting slot for `key` does not shadow any other frame. */
  lemma ShadowsOld(r: Spt, s: Spt, lvl: nat, i: nat, key: Key, g: nat)
    requires OnlyNew(r, s, lvl, i, key) && Shadows(r, g) && (g != key.gfn || key.large)
    ensures Shadows(s, g)
  {
    if k :| 0 <= k < |r.c1.key| && ProtectsSt(St(r.c1, k), g) {
      assert ProtectsSt(St(s.c1, k), g);
    } else {
      var k :| 0 <= k < |r.c2.key| && ProtectsSt(St(r.c2, k), g);
      assert ProtectsSt(St(s.c2, k), g);
    }
  }

  // ------------------------------------------------------------- setpde

  /** setpde; it always succeeds. */
  function SetPde(m: seq<Spt>, c: nat, y: Ptr, key: Key, gfnw: Option<nat>, e: nat, p: Perm, gmm: Gmm): seq<Spt>
    requires c < |m| && Good(m, c, gmm) && GmmOk(gmm)
    requires InPages(m[c].c2.page, y) && Recorded(m[c].c2.clear[y.slot], y.idx) && e < ENTRIES
  {
    var l := LinkPde(m[c], y, key, e, p, gmm);
    LinkPdeGood(m, c, y, key, e, p, gmm);
    var q := m[c := l.s];
    if l.isNew then Finish(q, c, 1, l.i, key, gfnw, gmm) else q
  }

  lemma LinkPdeGood(m: seq<Spt>, c: nat, y: Ptr, key: Key, e: nat, p: Perm, gmm: Gmm)
    requires c < |m| && Good(m, c, gmm)
    requires InPages(m[c].c2.page, y) && Recorded(m[c].c2.clear[y.slot], y.idx) && e < ENTRIES
    ensures var l := LinkPde(m[c], y, key, e, p, gmm);
      && Linked1(l, m[c], y, key, e, p, gmm) && Good(m[c := l.s], c, gmm)
      && FewerWriters(l.s.c1.page, m[c].c1.page)
  {
    var l := LinkPde(m[c], y, key, e, p, gmm);
    LinkPdeSound(m[c], y, key, e, p, gmm);
    ErasedKeeps(l.s.c1.page, m[c].c1.page, m[c].rw, gmm);
  }

  /** After setpde the PDE for the faulting address points at a page table in use whose
      entry for the address is recorded; the upper levels are untouched. */
  ghost predicate PdeSet(r: Spt, s: Spt, y: Ptr, e: nat, p: Perm) {
    && r.levels == s.levels && r.top == s.top && r.tbl == s.tbl && r.cnt == s.cnt && r.wp == s.wp
    && SameStatus(s.c2, r.c2)
    && InPages(r.c2.page, y) && Rd(r.c2.page, y).Pde?
    && (var d := Rd(r.c2.page, y);
        && d.rw == p.rw && d.us == p.us && d.nx == p.nx
        && d.to < |r.c1.key| && d.to < |r.c1.clear| && Recorded(r.c1.clear[d.to], e))
  }

  lemma SetPdeSound(m: seq<Spt>, c: nat, y: Ptr, key: Key, gfnw: Option<nat>, e: nat, p: Perm, gmm: Gmm)
    requires c < |m| && Good(m, c, gmm) && GmmOk(gmm) && WriteProtected(m, gmm)
    requires InPages(m[c].c2.page, y) && Recorded(m[c].c2.clear[y.slot], y.idx) && e < ENTRIES
    ensures var r := SetPde(m, c, y, key, gfnw, e, p, gmm);
      |r| == |m| && Good(r, c, gmm) && WriteProtected(r, gmm) && PdeSet(r[c], m[c], y, e, p)
  {
    var l := LinkPde(m[c], y, key, e, p, gmm);
    LinkPdeGood(m, c, y, key, e, p, gmm);
    var q := m[c := l.s];
    if l.isNew {
      FinishGood(q, c, 1, l.i, key, gfnw, gmm);
      FinishProtected(m, q, c, 1, l.i, key, gfnw, gmm);
      PdeSetAfter(m[c], l, Finish(q, c, 1, l.i, key, gfnw, gmm)[c], y, key, e, p, gmm);
    } else {
      DemotedFewer(l.s, m[c]);
      KeepProtected(m, c, l.s, gmm);
    }
  }

  lemma PdeSetAfter(s: Spt, l: Linking, r: Spt, y: Ptr, key: Key, e: nat, p: Perm, gmm: Gmm)
    requires Linked1(l, s, y, key, e, p, gmm) && Finished(r, l.s, 1)
    ensures PdeSet(r, s, y, e, p)
  {
  }
}
