/** Agreement of the shadow page tables with guest memory (cpu_mmu_spt.c, SPT_3): what a normal
    shadow page table holds is what the guest table that it shadows says now. */
module SptCoherent {
  import opened Lists
  import opened Tables
  import opened LazyClear
  import opened ShadowCache
  import opened RwMap
  import opened BackRefs
  import opened Spt3
  import opened SptMap
  import opened SptUpper
  import opened SptFault
  import opened SptRuns
  import opened SptGuest

  ghost predicate Agrees(c: Cache<Pte>, gt: GuestMem, gmm: Gmm) {
    && |c.page| == |c.key|
    && (forall i, e :: 0 <= i < |c.key| && St(c, i).Norm? && 0 <= e < |c.page[i]| ==> Faithful(c.page[i][e], St(c, i).key, e, gt, gmm))
  }

  // ------------------------------------------------------------- entries that only lose

  /** f is nothing, or e with less write access. */
  predicate Sub(f: Pte, e: Pte) {
    f.Pte? ==> e.Pte? && f.addr == e.addr && (f.rw ==> e.rw) && f.us == e.us && f.nx == e.nx
  }

  ghost predicate Lesser(r: Pages, page: Pages) {
    SameShape(r, page) && forall y :: InPages(page, y) ==> Sub(Rd(r, y), Rd(page, y))
  }

  lemma WeakerLesser(r: Pages, page: Pages)
    requires Weaker(r, page)
    ensures Lesser(r, page)
  {
    forall y | InPages(page, y) ensures Sub(Rd(r, y), Rd(page, y)) { assert LessPerm(Rd(r, y), Rd(page, y)); }
  }

  lemma ErasedLesser(r: Pages, page: Pages)
    requires Erased(r, page, Zero)
    ensures Lesser(r, page)
  {
  }

  ghost predicate Blank(c: Cache<Pte>, i: nat)
    requires i < |c.page|
  {
    forall e :: 0 <= e < |c.page[i]| ==> c.page[i][e].Zero?
  }

  /** Free pages hold nothing. */
  ghost predicate FreeBlank(c: Cache<Pte>) {
    |c.page| == |c.key| && forall i :: 0 <= i < |c.key| && St(c, i).Free? ==> Blank(c, i)
  }

  ghost predicate SubPage(d: Cache<Pte>, c: Cache<Pte>, i: nat)
    requires i < |d.page| && i < |c.page|
  {
    |d.page[i]| == |c.page[i]| && forall e :: 0 <= e < |c.page[i]| ==> Sub(d.page[i][e], c.page[i][e])
  }

  /** Whatever a normal slot holds afterwards it held before with the same key. */
  ghost predicate Follows(d: Cache<Pte>, c: Cache<Pte>) {
    && |d.key| == |c.key| == |d.page| == |c.page|
    && (forall i :: 0 <= i < |c.key| && St(d, i).Norm? ==> Blank(d, i) || (St(d, i) == St(c, i) && SubPage(d, c, i)))
    && (FreeBlank(c) ==> FreeBlank(d))
  }

  lemma FollowsAgrees(d: Cache<Pte>, c: Cache<Pte>, gt: GuestMem, gmm: Gmm)
    requires Follows(d, c) && Agrees(c, gt, gmm)
    ensures Agrees(d, gt, gmm)
  {
    forall i, e | 0 <= i < |d.key| && St(d, i).Norm? && 0 <= e < |d.page[i]| ensures Faithful(d.page[i][e], St(d, i).key, e, gt, gmm) {
      if !Blank(d, i) {
        assert St(c, i).Norm? && Sub(d.page[i][e], c.page[i][e]);
        assert Faithful(c.page[i][e], St(c, i).key, e, gt, gmm);
      }
    }
  }

  lemma FollowsTrans(a: Cache<Pte>, b: Cache<Pte>, c: Cache<Pte>)
    requires Follows(a, b) && Follows(b, c)
    ensures Follows(a, c)
  {
    forall i | 0 <= i < |c.key| && St(a, i).Norm? ensures Blank(a, i) || (St(a, i) == St(c, i) && SubPage(a, c, i)) {
      if !Blank(a, i) {
        assert SubPage(a, b, i);
        var e :| 0 <= e < |a.page[i]| && a.page[i][e].Pte?;
        assert Sub(a.page[i][e], b.page[i][e]);
        assert !Blank(b, i);
        SubTrans(a, b, c, i);
      }
    }
  }

  lemma SubTrans(a: Cache<Pte>, b: Cache<Pte>, c: Cache<Pte>, i: nat)
    requires i < |a.page| && i < |b.page| && i < |c.page| && SubPage(a, b, i) && SubPage(b, c, i)
    ensures SubPage(a, c, i)
  {
    forall e | 0 <= e < |c.page[i]| ensures Sub(a.page[i][e], c.page[i][e]) {
      assert Sub(a.page[i][e], b.page[i][e]) && Sub(b.page[i][e], c.page[i][e]);
    }
  }

  lemma LesserPage(d: Cache<Pte>, c: Cache<Pte>, i: nat)
    requires Lesser(d.page, c.page) && i < |c.page|
    ensures SubPage(d, c, i) && (Blank(c, i) ==> Blank(d, i))
  {
    forall e | 0 <= e < |c.page[i]| ensures Sub(d.page[i][e], c.page[i][e]) {
      assert Sub(Rd(d.page, Ptr(i, e)), Rd(c.page, Ptr(i, e)));
    }
    if Blank(c, i) {
      forall e | 0 <= e < |d.page[i]| ensures d.page[i][e].Zero? { assert Sub(d.page[i][e], c.page[i][e]); }
    }
  }

  /** Statuses that only leave normal, entries that only lose, and pages cleared when freed. */
  lemma DemotedFollows(d: Cache<Pte>, c: Cache<Pte>)
    requires Demoted(d, c) && Lesser(d.page, c.page) && |c.page| == |c.key|
    requires forall i :: 0 <= i < |c.key| && St(d, i).Free? ==> St(c, i).Free? || Blank(d, i)
    ensures Follows(d, c)
  {
    forall i | 0 <= i < |c.key| ensures SubPage(d, c, i) && (Blank(c, i) ==> Blank(d, i)) { LesserPage(d, c, i); }
  }

  lemma SameStatusFollows(d: Cache<Pte>, c: Cache<Pte>)
    requires SameStatus(c, d) && Lesser(d.page, c.page) && |c.page| == |c.key|
    ensures Follows(d, c)
  {
    DemotedFollows(d, c);
  }

  lemma SamePagesLesser(page: Pages)
    ensures Lesser(page, page)
  {
  }

  // ------------------------------------------------------------- cleaning and new slots

  lemma ZerosBlank(c: Cache<Pte>, i: nat)
    requires i < |c.page| && c.page[i] == Zeros(Zero)
    ensures Blank(c, i)
  {
  }

  lemma FreeShadow1Follows(s: Spt, gmm: Gmm)
    requires Core(s, gmm) && s.c1.modL != []
    ensures Follows(FreeShadow1(s, gmm).c1, s.c1)
  {
    var p := s.c1.modL[0];
    assert p in s.c1.modL;
    FreeFirstSound(s.c1, Zero);
    ZerosErased(s.c1.page, p, Zero);
    ErasedLesser(FreeFirst(s.c1, Zero).page, s.c1.page);
    ZerosBlank(FreeFirst(s.c1, Zero), p);
    DemotedFollows(FreeFirst(s.c1, Zero), s.c1);
  }

  lemma {:induction false} CleanFree1Follows(s: Spt, gmm: Gmm)
    requires Core(s, gmm)
    ensures Follows(CleanFree1(s, gmm).c1, s.c1)
    decreases |s.c1.modL|
  {
    if s.c1.modL == [] {
      SamePagesLesser(s.c1.page);
      SameStatusFollows(s.c1, s.c1);
    } else {
      FreeShadow1Sound(s, gmm);
      FreeShadow1Follows(s, gmm);
      CleanFree1Follows(FreeShadow1(s, gmm), gmm);
      FollowsTrans(CleanFree1(s, gmm).c1, FreeShadow1(s, gmm).c1, s.c1);
    }
  }

  lemma Room1Follows(s: Spt, gmm: Gmm)
    requires Core(s, gmm)
    ensures Follows(Room1(s, gmm).c1, s.c1)
  {
    SamePagesLesser(s.c1.page);
    if s.c1.freeL != [] {
      SameStatusFollows(s.c1, s.c1);
    } else {
      MakeRoomSound(s.c1, Zero);
      var d := MakeRoom(s.c1, Zero);
      DemotedFollows(d, s.c1);
      CoreC1(s, d, gmm);
      CleanFree1Follows(s.(c1 := d), gmm);
      FollowsTrans(Room1(s, gmm).c1, d, s.c1);
    }
  }

  /** One slot became normal with a blank page; no other page changed. */
  lemma NewBlankFollows(d: Cache<Pte>, c: Cache<Pte>, i: nat, s: Status)
    requires Changed(c, d, i, s) && s.Norm? && |c.page| == |c.key| == |d.page| && Blank(d, i)
    requires forall k :: 0 <= k < |c.page| && k != i ==> d.page[k] == c.page[k]
    ensures Follows(d, c)
  {
    forall k | 0 <= k < |c.key| && k != i ensures SubPage(d, c, k) && (Blank(c, k) ==> Blank(d, k)) {
    }
  }

  /** What a slot is recorded for. */
  ghost predicate Keyed(c: Cache<Pte>, i: nat, key: Key) {
    i < |c.key| && (St(c, i) == Norm(key) || St(c, i) == Mod(key))
  }

  lemma NewShadow1Follows(s: Spt, key: Key, e: nat, gmm: Gmm)
    requires Core(s, gmm) && e < ENTRIES && FreeBlank(s.c1) && (var f := Find(s.c1, key); f.Some? ==> s.c1.modified[f.value])
    ensures var (r, i) := NewShadow1(s, key, e, gmm); Follows(r.c1, s.c1) && Keyed(r.c1, i, key)
  {
    var f := Find(s.c1, key);
    FindExact(s.c1, key, Zero);
    if f.Some? {
      var i := f.value;
      ReviveSound(s.c1, i, Zero);
      var d := Revive(s.c1, i, Zero);
      ZerosBlank(d, i);
      NewBlankFollows(d, s.c1, i, Norm(key));
      Recorded1(d, s.c1, i, e, key);
    } else {
      Room1Sound(s, gmm);
      Room1Follows(s, gmm);
      var q := Room1(s, gmm);
      NoKeyKept(q.c1, s.c1, key);
      InstallFollows(q.c1, s.c1, key, e);
    }
  }

  lemma InstallFollows(q: Cache<Pte>, c: Cache<Pte>, key: Key, e: nat)
    requires CacheInv(q, Zero) && q.freeL != [] && Follows(q, c) && FreeBlank(c) && e < ENTRIES
    requires forall k :: 0 <= k < |q.key| && k !in q.freeL ==> q.key[k] != key
    ensures q.freeL[0] < |q.key| && Follows(RecordAt(Install(q, key), q.freeL[0], e), c) && Keyed(RecordAt(Install(q, key), q.freeL[0], e), q.freeL[0], key)
  {
    InstallSound(q, key, Zero);
    var i, d := q.freeL[0], Install(q, key);
    assert i in q.freeL && St(q, i).Free? && Blank(q, i);
    assert d.page == q.page;
    NewBlankFollows(d, q, i, Norm(key));
    FollowsTrans(d, q, c);
    Recorded1(d, c, i, e, key);
  }

  /** update_clearinfo changes nothing here. */
  lemma Recorded1(d: Cache<Pte>, c: Cache<Pte>, i: nat, e: nat, key: Key)
    requires CacheInv(d, Zero) && Follows(d, c) && Keyed(d, i, key) && e < ENTRIES
    ensures Follows(RecordAt(d, i, e), c) && Keyed(RecordAt(d, i, e), i, key)
  {
    RecordAtSound(d, i, e, Zero);
    SamePagesLesser(d.page);
    SameStatusFollows(RecordAt(d, i, e), d);
    FollowsTrans(RecordAt(d, i, e), d, c);
  }

  // ------------------------------------------------------------- setpde

  lemma LinkPdeFollows(s: Spt, y: Ptr, key: Key, e: nat, p: Perm, gmm: Gmm)
    requires Core(s, gmm) && InPages(s.c2.page, y) && Recorded(s.c2.clear[y.slot], y.idx) && e < ENTRIES && FreeBlank(s.c1)
    ensures var l := LinkPde(s, y, key, e, p, gmm); Follows(l.s.c1, s.c1) && Keyed(l.s.c1, l.i, key)
  {
    var f := Find(s.c1, key);
    FindExact(s.c1, key, Zero);
    if PdeGood(s, y, f) {
      UsedSlot(s.c1, f.value, e, key);
    } else if f.Some? && !s.c1.modified[f.value] {
      UsedSlot(s.c1, f.value, e, key);
      TouchedCore(s, f.value, e, gmm);
      Attach1Same(s.(c1 := RecordAt(Touch(s.c1, f.value), f.value, e)), f.value, y, key, p, gmm);
    } else {
      NewShadow1Sound(s, key, e, gmm);
      NewShadow1Follows(s, key, e, gmm);
      var n := NewShadow1(s, key, e, gmm);
      Attach1Same(n.0, n.1, y, key, p, gmm);
    }
  }

  lemma Attach1Same(s: Spt, i: nat, y: Ptr, key: Key, p: Perm, gmm: Gmm)
    requires Core(s, gmm) && i < |s.c1.key| && InPages(s.c2.page, y)
    ensures Attach1(s, i, y, key, p, gmm).c1 == s.c1
  {
  }

  lemma UsedSlot(c: Cache<Pte>, i: nat, e: nat, key: Key)
    requires CacheInv(c, Zero) && i < |c.key| && e < ENTRIES && Keyed(c, i, key) && (if c.modified[i] then i in c.modL else i in c.normL)
    ensures var d := RecordAt(if c.modified[i] then c else Touch(c, i), i, e); Follows(d, c) && Keyed(d, i, key)
  {
    var d := if c.modified[i] then c else Touch(c, i);
    if !c.modified[i] { TouchSound(c, i, Zero); }
    SamePagesLesser(c.page);
    SameStatusFollows(d, c);
    Recorded1(d, c, i, e, key);
  }

  ghost predicate FollowsAll(n: seq<Spt>, m: seq<Spt>) {
    |n| == |m| && forall t :: 0 <= t < |m| ==> Follows(n[t].c1, m[t].c1)
  }

  lemma AllTrans(a: seq<Spt>, b: seq<Spt>, c: seq<Spt>)
    requires FollowsAll(a, b) && FollowsAll(b, c)
    ensures FollowsAll(a, c)
  {
    forall t | 0 <= t < |c| ensures Follows(a[t].c1, c[t].c1) { FollowsTrans(a[t].c1, b[t].c1, c[t].c1); }
  }

  lemma OneFollows(m: seq<Spt>, c: nat, s: Spt)
    requires c < |m| && Follows(s.c1, m[c].c1) && forall t :: 0 <= t < |m| ==> |m[t].c1.page| == |m[t].c1.key|
    ensures FollowsAll(m[c := s], m)
  {
    forall t | 0 <= t < |m| && t != c ensures Follows(m[t].c1, m[t].c1) {
      SamePagesLesser(m[t].c1.page);
      SameStatusFollows(m[t].c1, m[t].c1);
    }
  }

  lemma MarkFollows(s: Spt, lvl: nat, i: nat, key: Key, gmm: Gmm)
    requires Core(s, gmm) && NormAt(s, lvl, i, key)
    ensures Follows(Mark(s, lvl, i).c1, s.c1)
  {
    MarkSound(s, lvl, i, key, gmm);
    SamePagesLesser(s.c1.page);
    DemotedFollows(Mark(s, lvl, i).c1, s.c1);
  }

  lemma FinishFollows(q: seq<Spt>, c: nat, lvl: nat, i: nat, key: Key, gfnw: Option<nat>, gmm: Gmm)
    requires c < |q| && Good(q, c, gmm) && GmmOk(gmm) && NormAt(q[c], lvl, i, key)
    ensures FollowsAll(Finish(q, c, lvl, i, key, gfnw, gmm), q)
  {
    if WritesTable(gfnw, key) {
      MarkFollows(q[c], lvl, i, key, gmm);
      OneFollows(q, c, Mark(q[c], lvl, i));
    } else {
      MakeRdOnlySound(q, c, key, gmm);
      var w := MakeRdOnly(q, c, key, gmm);
      ProtectFollows(q, w.0);
      if !w.1 {
        assert Weakened(w.0[c], q[c]);
        MarkedFollows(q, w.0, c, lvl, i, key, gmm);
      }
    }
  }

  lemma MarkedFollows(q: seq<Spt>, w: seq<Spt>, c: nat, lvl: nat, i: nat, key: Key, gmm: Gmm)
    requires c < |w| && FollowsAll(w, q) && Good(w, c, gmm) && NormAt(w[c], lvl, i, key)
    ensures FollowsAll(w[c := Mark(w[c], lvl, i)], q)
  {
    MarkFollows(w[c], lvl, i, key, gmm);
    OneFollows(w, c, Mark(w[c], lvl, i));
    AllTrans(w[c := Mark(w[c], lvl, i)], w, q);
  }

  lemma ProtectFollows(q: seq<Spt>, w: seq<Spt>)
    requires |w| == |q| && forall t :: 0 <= t < |q| ==> Weakened(w[t], q[t]) && |q[t].c1.page| == |q[t].c1.key|
    ensures FollowsAll(w, q)
  {
    forall t | 0 <= t < |q| ensures Follows(w[t].c1, q[t].c1) {
      WeakerLesser(w[t].c1.page, q[t].c1.page);
      SameStatusFollows(w[t].c1, q[t].c1);
    }
  }

  /** Marking at the end of setpde leaves the slot normal with its key, or modified. */
  lemma FinishStatus(q: seq<Spt>, c: nat, i: nat, key: Key, gfnw: Option<nat>, gmm: Gmm)
    requires c < |q| && Good(q, c, gmm) && GmmOk(gmm) && NormAt(q[c], 1, i, key)
    ensures var r := Finish(q, c, 1, i, key, gfnw, gmm);
      |r| == |q| && |r[c].c1.key| == |q[c].c1.key| && (St(r[c].c1, i).Norm? ==> St(r[c].c1, i) == Norm(key))
  {
    if WritesTable(gfnw, key) {
      MarkSound(q[c], 1, i, key, gmm);
    } else {
      MakeRdOnlySound(q, c, key, gmm);
      var w := MakeRdOnly(q, c, key, gmm);
      assert Weakened(w.0[c], q[c]);
      if !w.1 { MarkSound(w.0[c], 1, i, key, gmm); }
    }
  }

  /** setpde: nothing that is normal gains an entry, and the table that the PDE points at has the
      key or is not normal. */
  lemma SetPdeFollows(m: seq<Spt>, c: nat, y: Ptr, key: Key, gfnw: Option<nat>, e: nat, p: Perm, gmm: Gmm)
    requires c < |m| && Good(m, c, gmm) && GmmOk(gmm) && WriteProtected(m, gmm) && FreeBlank(m[c].c1)
    requires InPages(m[c].c2.page, y) && Recorded(m[c].c2.clear[y.slot], y.idx) && e < ENTRIES
    ensures var r := SetPde(m, c, y, key, gfnw, e, p, gmm);
      && FollowsAll(r, m) && PdeSet(r[c], m[c], y, e, p)
      && (var i := Rd(r[c].c2.page, y).to; St(r[c].c1, i).Norm? ==> St(r[c].c1, i) == Norm(key))
  {
    SetPdeSound(m, c, y, key, gfnw, e, p, gmm);
    var l := LinkPde(m[c], y, key, e, p, gmm);
    LinkPdeGood(m, c, y, key, e, p, gmm);
    LinkPdeFollows(m[c], y, key, e, p, gmm);
    var q := m[c := l.s];
    OneFollows(m, c, l.s);
    if l.isNew {
      FinishGood(q, c, 1, l.i, key, gfnw, gmm);
      FinishFollows(q, c, 1, l.i, key, gfnw, gmm);
      FinishStatus(q, c, l.i, key, gfnw, gmm);
      AllTrans(Finish(q, c, 1, l.i, key, gfnw, gmm), q, m);
    }
  }

  lemma SetPdpeFollows(m: seq<Spt>, c: nat, v: nat, key: Key, gfnw: Option<nat>, gmm: Gmm)
    requires c < |m| && Good(m, c, gmm) && GmmOk(gmm) && HasPdpt(m[c], v)
    ensures FollowsAll(SetPdpe(m, c, v, key, gfnw, gmm).0, m)
  {
    var l := LinkPdpe(m[c], v, key, gmm);
    LinkPdpeGood(m, c, v, key, gmm);
    var q := m[c := l.s];
    SamePagesLesser(m[c].c1.page);
    SameStatusFollows(l.s.c1, m[c].c1);
    OneFollows(m, c, l.s);
    if l.isNew {
      FinishFollows(q, c, 2, l.i, key, gfnw, gmm);
      AllTrans(Finish(q, c, 2, l.i, key, gfnw, gmm), q, m);
    }
  }
}
