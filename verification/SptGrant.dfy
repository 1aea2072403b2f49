/** How much a write fault is granted (cpu_mmu_spt.c, SPT_3, map_page): with nothing pending on
    the vcpu's fail list, a write fault gets exactly the write access the guest allows. */
module SptGrant {
  import opened Lists
  import opened Tables
  import opened LazyClear
  import opened ShadowCache
  import opened RwMap
  import opened BackRefs
  import opened Spt3
  import opened SptMap
  import opened SptUpper
  import opened SptFault

  // ------------------------------------------------------------- update_rwmap keeps the new PTE

  lemma {:induction false} FindPteComplete(pte: seq<Ptr>, todo: seq<nat>, y: Ptr, i: nat)
    requires Below(todo, |pte|) && i in todo && i < |pte| && pte[i] == y
    ensures FindPte(pte, todo, y) >= 0
  {
    if todo != [] && todo[0] != i {
      assert todo == [todo[0]] + todo[1..];
      FindPteComplete(pte, todo[1..], y, i);
    }
  }

  /** An earlier registration of this PTE with this frame waits on the fail list. */
  ghost predicate Waiting(rw: Rwmap, y: Ptr, h: nat) {
    exists i :: i in rw.failL && i < |rw.pte| && i < |rw.hphys| && rw.pte[i] == y && rw.hphys[i] == h
  }

  /** The drain write-protects a PTE exactly if it is pending with the frame it holds. */
  lemma {:induction false} DrainAt(page: Pages, rw: Rwmap, y: Ptr, h: nat, gmm: Gmm)
    requires RwInv(rw, page, gmm) && InPages(page, y) && Addr(Rd(page, y)) == h
    ensures var d := Drain(page, rw, gmm);
      InPages(d.page, y) && Rd(d.page, y) == if Waiting(rw, y, h) then Ro(Rd(page, y)) else Rd(page, y)
    decreases |rw.failL|
  {
    if rw.failL != [] {
      var i := rw.failL[0];
      assert i in rw.failL;
      DropSound(rw, i, page, gmm);
      var p := Weaken(page, rw.pte[i], rw.hphys[i], false);
      WeakenWeaker(page, rw.pte[i], rw.hphys[i], false);
      RwInvShape(Drop(rw, i), page, p, gmm);
      DrainAt(p, Drop(rw, i), y, h, gmm);
      WaitingStep(rw, i, y, h);
    }
  }

  lemma WaitingStep(rw: Rwmap, i: nat, y: Ptr, h: nat)
    requires NoDup(rw.failL) && rw.failL != [] && i == rw.failL[0] && i < |rw.gfn| == |rw.pte| == |rw.hphys| && |rw.hash| > 0
    ensures Waiting(rw, y, h) <==> (rw.pte[i] == y && rw.hphys[i] == h) || Waiting(Drop(rw, i), y, h)
  {
    DelNoDup(rw.failL, i);
    if k :| k in rw.failL && k < |rw.pte| && rw.pte[k] == y && rw.hphys[k] == h && k != i {
      assert k in Drop(rw, i).failL;
    }
    if k :| k in Drop(rw, i).failL && k < |rw.pte| && rw.pte[k] == y && rw.hphys[k] == h {
      assert k in rw.failL;
    }
    assert i in rw.failL;
  }

  /** Placing a PTE in a slot does not take the rights away that it was just given: a slot that
      names it with this frame would have been found in the bucket. */
  lemma PlaceKeepsPte(d: Drained, g: nat, y: Ptr, h: nat, gmm: Gmm)
    requires RwInv(d.rw, d.page, gmm) && d.rw.failL == [] && InPages(d.page, y) && Injective(gmm)
    requires h == gmm.hp(g) && !gmm.rom(g) && Addr(Rd(d.page, y)) == h
    ensures var u := Place(d, g, y, h, gmm); InPages(u.page, y) && Rd(u.page, y) == Rd(d.page, y)
  {
    var rw := d.rw;
    var b := rw.hash[g % |rw.hash|];
    if FindPte(rw.pte, b, y) < 0 && rw.freeL == [] {
      NormalLeft(rw, d.page, gmm);
      var i := rw.normL[0];
      if rw.pte[i] == y && rw.hphys[i] == h {
        assert rw.gfn[i] == g && i in b;
        FindPteComplete(rw.pte, b, y, i);
      }
    }
  }

  /** Registering a PTE takes away the write access it was just given if and only if the same PTE
      with the same frame is still on the fail list. */
  lemma UpdateExact(page: Pages, rw: Rwmap, g: nat, y: Ptr, h: nat, gmm: Gmm)
    requires RwInv(rw, page, gmm) && InPages(page, y) && Injective(gmm)
    requires h == gmm.hp(g) && !gmm.rom(g) && Addr(Rd(page, y)) == h
    ensures var u := Update(page, rw, g, y, h, gmm);
      InPages(u.page, y) && Rd(u.page, y) == if Waiting(rw, y, h) then Ro(Rd(page, y)) else Rd(page, y)
  {
    DrainAt(page, rw, y, h, gmm);
    DrainShape(page, rw, gmm);
    PlaceKeepsPte(Drain(page, rw, gmm), g, y, h, gmm);
  }

  // ------------------------------------------------------------- the own fail list stays empty

  lemma {:induction false} ProtectInCalm(page: Pages, rw: Rwmap, todo: seq<nat>, g: nat, gmm: Gmm)
    requires RwInv(rw, page, gmm) && Live(rw, todo) && rw.failL == []
    ensures ProtectIn(page, rw, todo, g, true, gmm).rw.failL == []
    decreases |todo|
  {
    if todo != [] {
      if rw.gfn[todo[0]] != g {
        ProtectInCalm(page, rw, todo[1..], g, gmm);
      } else {
        var i := todo[0];
        var m := MoveToFail(rw, i);
        MoveToFailSound(rw, i, page, gmm);
        DropSound(m, i, page, gmm);
        var p := Weaken(page, rw.pte[i], rw.hphys[i], true);
        WeakenWeaker(page, rw.pte[i], rw.hphys[i], true);
        RwInvShape(Drop(m, i), page, p, gmm);
        LiveTail(rw, todo, Drop(m, i));
        OneOff(rw, i);
        ProtectInCalm(p, Drop(m, i), todo[1..], g, gmm);
      }
    }
  }

  lemma OneOff(rw: Rwmap, i: nat)
    requires rw.failL == [] && i < |rw.gfn| && i < |rw.fail| && |rw.hash| > 0
    ensures Drop(MoveToFail(rw, i), i).failL == []
  {
  }

  /** Nothing is pending on the fail list of the vcpu. */
  predicate Calm(s: Spt) {
    s.rw.failL == []
  }

  lemma FinishCalm(q: seq<Spt>, c: nat, lvl: nat, i: nat, key: Key, gfnw: Option<nat>, gmm: Gmm)
    requires c < |q| && Good(q, c, gmm) && GmmOk(gmm) && NormAt(q[c], lvl, i, key) && Calm(q[c])
    ensures |Finish(q, c, lvl, i, key, gfnw, gmm)| == |q| && Calm(Finish(q, c, lvl, i, key, gfnw, gmm)[c])
  {
    if !WritesTable(gfnw, key) && !key.large {
      BucketLive(q[c].rw, q[c].c1.page, key.gfn, gmm);
      ProtectInCalm(q[c].c1.page, q[c].rw, q[c].rw.hash[key.gfn % |q[c].rw.hash|], key.gfn, gmm);
    }
    FinishGood(q, c, lvl, i, key, gfnw, gmm);
  }

  lemma SetPdpeCalm(m: seq<Spt>, c: nat, v: nat, key: Key, gfnw: Option<nat>, gmm: Gmm)
    requires c < |m| && Good(m, c, gmm) && GmmOk(gmm) && HasPdpt(m[c], v) && Calm(m[c])
    ensures var r := SetPdpe(m, c, v, key, gfnw, gmm).0; |r| == |m| && Calm(r[c])
  {
    var l := LinkPdpe(m[c], v, key, gmm);
    LinkPdpeGood(m, c, v, key, gmm);
    if l.isNew { FinishCalm(m[c := l.s], c, 2, l.i, key, gfnw, gmm); }
  }

  lemma SetPdeCalm(m: seq<Spt>, c: nat, y: Ptr, key: Key, gfnw: Option<nat>, e: nat, p: Perm, gmm: Gmm)
    requires c < |m| && Good(m, c, gmm) && GmmOk(gmm) && Calm(m[c])
    requires InPages(m[c].c2.page, y) && Recorded(m[c].c2.clear[y.slot], y.idx) && e < ENTRIES
    ensures var r := SetPde(m, c, y, key, gfnw, e, p, gmm); |r| == |m| && Calm(r[c])
  {
    var l := LinkPde(m[c], y, key, e, p, gmm);
    LinkPdeGood(m, c, y, key, e, p, gmm);
    if l.isNew { FinishCalm(m[c := l.s], c, 1, l.i, key, gfnw, gmm); }
  }

  // ------------------------------------------------------------- the PTE

  lemma SetPteGrants(m: seq<Spt>, c: nat, y: Ptr, g: nat, p: Perm, a: Access, gmm: Gmm)
    requires c < |m| && Inv(m, gmm) && GmmOk(gmm) && Calm(m[c]) && a.write
    requires InPages(m[c].c1.page, y) && Recorded(m[c].c1.clear[y.slot], y.idx)
    ensures Good(m, c, gmm)
    ensures var r := SetPte(m, c, y, g, p, a, gmm);
      |r| == |m| && InPages(r[c].c1.page, y) && Rd(r[c].c1.page, y).Pte? && Rd(r[c].c1.page, y).rw == (p.rw && !gmm.rom(g))
  {
    var pte := NewPte(p, a, gmm.hp(g), gmm.rom(g));
    InvGood(m, c, gmm);
    if !SameButAD(Rd(m[c].c1.page, y), pte) && pte.rw { WrittenKept(m, c, y, g, pte, gmm); }
  }

  lemma WrittenKept(m: seq<Spt>, c: nat, y: Ptr, g: nat, e: Pte, gmm: Gmm)
    requires c < |m| && Inv(m, gmm) && GmmOk(gmm) && Calm(m[c])
    requires InPages(m[c].c1.page, y) && Recorded(m[c].c1.clear[y.slot], y.idx)
    requires e.Pte? && e.addr == gmm.hp(g) && !gmm.rom(g) && e.rw
    ensures var s := Registered(m[c], y, g, e, gmm);
      && AllCore(m[c := s], gmm) && InPages(s.c1.page, y)
      && var r := UpdateShadow(m[c := s], c, g, y, true, gmm);
      |r| == |m| && InPages(r[c].c1.page, y) && Rd(r[c].c1.page, y) == e
  {
    RegisteredSpt(m, c, y, g, e, gmm);
    RegisteredKeeps(m[c], y, g, e, gmm);
    MarkedAll(m, c, y, g, e, Registered(m[c], y, g, e, gmm), gmm);
  }

  lemma RegisteredKeeps(s: Spt, y: Ptr, g: nat, e: Pte, gmm: Gmm)
    requires Core(s, gmm) && GmmOk(gmm) && Calm(s) && InPages(s.c1.page, y) && Recorded(s.c1.clear[y.slot], y.idx)
    requires e.Pte? && e.addr == gmm.hp(g) && !gmm.rom(g)
    ensures var r := Registered(s, y, g, e, gmm); InPages(r.c1.page, y) && Rd(r.c1.page, y) == e
  {
    WrPteCore(s, y, e, gmm);
    var q := WrPte(s, y, e);
    UpdateExact(q.c1.page, q.rw, g, y, gmm.hp(g), gmm);
  }

  // ------------------------------------------------------------- map_page

  lemma WalkRights(s: Spt, n: Spt, r: Spt, v: nat, y2: Ptr, y1: Ptr, p1: Perm, pte: Pte)
    requires HasPdpt(s, v) && Linear(s, v) && RdPdpe(s, v) == To(y2.slot) && y2.idx == I2(v)
    requires PdeSet(n, s, y2, I1(v), p1) && y1 == Ptr(Rd(n.c2.page, y2).to, I1(v)) && PteSet(r, n, y1, pte)
    ensures Linear(r, v) && |r.top| == ENTRIES && Walk(r, v).Xlat? && Walk(r, v).rw == (p1.rw && Rd(r.c1.page, y1).rw)
  {
  }

  /** What was mapped can be written iff rw. */
  ghost predicate Gives(o: Outcome, c: nat, v: nat, rw: bool) {
    o.Mapped? ==>
      && c < |o.m| && Linear(o.m[c], v) && |o.m[c].top| == ENTRIES
      && Walk(o.m[c], v).Xlat? && Walk(o.m[c], v).rw == rw
  }

  /** The guest's permissions for the page and for its page table allow writing. */
  predicate Allowed(wp: bool, g: Guest, a: Access) {
    if wp then g.m1.rw && g.m0.rw else NoWp(g.m1, a).rw && NoWp(g.m0, a).rw
  }

  lemma MapBelowGrants(m: seq<Spt>, c: nat, v: nat, g: Guest, a: Access, gmm: Gmm)
    requires c < |m| && Inv(m, gmm) && GmmOk(gmm) && PdpeSet(m[c], v) && Linear(m[c], v) && Calm(m[c]) && a.write
    ensures Gives(MapBelow(m, c, v, g, a, gmm), c, v, Allowed(m[c].wp, g, a))
  {
    var gfnw := Some(g.gfn0);
    var y2 := Ptr(RdPdpe(m[c], v).slot, I2(v));
    var p1 := Perm1(m[c], g, a);
    PdeInv(m, c, y2, KeyPt(m[c], g, v), gfnw, I1(v), p1, gmm);
    SetPdeCalm(m, c, y2, KeyPt(m[c], g, v), gfnw, I1(v), p1, gmm);
    var n := SetPde(m, c, y2, KeyPt(m[c], g, v), gfnw, I1(v), p1, gmm);
    if !gmm.rom(g.gfn0) {
      LastGrants(m[c], n, c, v, y2, p1, Perm0(m[c], g, a), g.gfn0, a, gmm);
    }
  }

  lemma LastGrants(s: Spt, n: seq<Spt>, c: nat, v: nat, y2: Ptr, p1: Perm, p0: Perm, gfn: nat, a: Access, gmm: Gmm)
    requires c < |n| && Inv(n, gmm) && GmmOk(gmm) && HasPdpt(s, v) && Linear(s, v) && Calm(n[c]) && a.write && !gmm.rom(gfn)
    requires RdPdpe(s, v) == To(y2.slot) && y2.idx == I2(v) && PdeSet(n[c], s, y2, I1(v), p1)
    requires InPages(n[c].c1.page, Ptr(Rd(n[c].c2.page, y2).to, I1(v)))
    ensures Good(n, c, gmm)
    ensures var r := SetPte(n, c, Ptr(Rd(n[c].c2.page, y2).to, I1(v)), gfn, p0, a, gmm);
      c < |r| && Linear(r[c], v) && |r[c].top| == ENTRIES && Walk(r[c], v).Xlat? && Walk(r[c], v).rw == (p1.rw && p0.rw)
  {
    var y1 := Ptr(Rd(n[c].c2.page, y2).to, I1(v));
    SetPteSound(n, c, y1, gfn, p0, a, gmm);
    SetPteGrants(n, c, y1, gfn, p0, a, gmm);
    var r := SetPte(n, c, y1, gfn, p0, a, gmm);
    WalkRights(s, n[c], r[c], v, y2, y1, p1, NewPte(p0, a, gmm.hp(gfn), gmm.rom(gfn)));
  }

  /** A write fault that map_page serves, with nothing pending on the vcpu's fail list, can write
      if and only if the guest's permissions for the page and for its page table say so. */
  lemma MapPageGrants(m: seq<Spt>, c: nat, v: nat, g: Guest, a: Access, gmm: Gmm)
    requires c < |m| && Inv(m, gmm) && GmmOk(gmm) && Linear(m[c], v) && Calm(m[c]) && a.write
    ensures Gives(MapPage(m, c, v, g, a, gmm), c, v, Allowed(m[c].wp, g, a))
  {
    if 1 <= g.glvl <= 4 {
      MapTopInv(m, c, v, gmm);
      MapTopCalm(m[c], v);
      UpperGrants(m[c := MapTop(m[c], v).0], c, v, KeyPd(m[c], g, v), g, a, gmm);
    }
  }

  lemma MapTopCalm(s: Spt, v: nat)
    requires Shape(s)
    ensures MapTop(s, v).0.rw == s.rw
  {
  }

  lemma UpperGrants(m: seq<Spt>, c: nat, v: nat, key2: Key, g: Guest, a: Access, gmm: Gmm)
    requires c < |m| && Inv(m, gmm) && Good(m, c, gmm) && GmmOk(gmm) && HasPdpt(m[c], v) && Linear(m[c], v)
    requires Calm(m[c]) && a.write
    ensures Gives(MapUpper(m, c, v, key2, g, a, gmm), c, v, Allowed(m[c].wp, g, a))
  {
    PdpeInv(m, c, v, key2, Some(g.gfn0), gmm);
    SetPdpeCalm(m, c, v, key2, Some(g.gfn0), gmm);
    var d := SetPdpe(m, c, v, key2, Some(g.gfn0), gmm);
    if d.1 {
      MapBelowGrants(d.0, c, v, g, a, gmm);
    } else {
      AgainGrants(d.0, c, v, key2, g, a, gmm);
    }
  }

  /** The second attempt, after everything was cleared. */
  lemma AgainGrants(d: seq<Spt>, c: nat, v: nat, key2: Key, g: Guest, a: Access, gmm: Gmm)
    requires c < |d| && Good(d, c, gmm) && GmmOk(gmm) && WriteProtected(d, gmm) && Linear(d[c], v) && Calm(d[c]) && a.write
    requires d[c].c2.freeL != []
    ensures Gives(MapAgain(d, c, v, key2, g, a, gmm), c, v, Allowed(d[c].wp, g, a))
  {
    RetryInv(d, c, v, gmm);
    var m := d[c := Mapsub(d[c], v, true).0];
    PdpeInv(m, c, v, key2, Some(g.gfn0), gmm);
    SetPdpeCalm(m, c, v, key2, Some(g.gfn0), gmm);
    MapBelowGrants(SetPdpe(m, c, v, key2, Some(g.gfn0), gmm).0, c, v, g, a, gmm);
  }
}
