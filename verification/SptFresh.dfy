/** When a new shadow of a guest table is write-protecting (cpu_mmu_spt.c, SPT_3: makerdonly and the
    end of setpde and setpdpe), said of the translations of the other vcpus. */
module SptFresh {
  import opened Lists
  import opened Tables
  import opened LazyClear
  import opened ShadowCache
  import opened RwMap
  import opened BackRefs
  import opened Spt3
  import opened SptMap
  import opened SptUpper

  /** Record i is for guest frame g, and its PTE still maps the frame and is dirty. */
  ghost predicate DirtyAt(page: Pages, rw: Rwmap, i: nat, g: nat)
    requires |rw.gfn| == |rw.pte| == |rw.hphys|
  {
    && i < |rw.gfn| && i !in rw.freeL && rw.gfn[i] == g && InPages(page, rw.pte[i])
    && (var e := Rd(page, rw.pte[i]); e.Pte? && e.dirty && e.addr % FRAMES36 == rw.hphys[i])
  }

  /** The vcpu has written guest frame g through a translation that is still there. */
  ghost predicate HasDirty(s: Spt, g: nat)
    requires |s.rw.gfn| == |s.rw.pte| == |s.rw.hphys|
  {
    exists i :: DirtyAt(s.c1.page, s.rw, i, g)
  }

  ghost predicate NoneDirty(page: Pages, rw: Rwmap, todo: seq<nat>, g: nat)
    requires |rw.gfn| == |rw.pte| == |rw.hphys|
  {
    forall k :: 0 <= k < |todo| ==> !DirtyAt(page, rw, todo[k], g)
  }

  // ------------------------------------------------------------- makerdonly

  /** Protecting one PTE that is not dirty makes no other one dirty or clean. */
  lemma StillDirty(page: Pages, rw: Rwmap, p: Pages, d: Rwmap, i: nat, g: nat, h: nat, todo: seq<nat>)
    requires |rw.gfn| == |rw.pte| == |rw.hphys| && i < |rw.gfn| && InPages(page, rw.pte[i]) && rw.hphys[i] == h
    requires forall k :: 0 <= k < |rw.gfn| && k !in rw.freeL && rw.gfn[k] == g ==> rw.hphys[k] == h
    requires p == Weaken(page, rw.pte[i], h, true) && d.gfn == rw.gfn && d.pte == rw.pte && d.hphys == rw.hphys
    requires var e := Rd(page, rw.pte[i]); !(e.Pte? && e.dirty && e.addr % FRAMES36 == h)
    requires forall k :: 0 <= k < |todo| ==> todo[k] < |rw.gfn| && todo[k] !in rw.freeL && todo[k] !in d.freeL
    ensures NoneDirty(p, d, todo, g) <==> NoneDirty(page, rw, todo, g)
  {
    forall k | 0 <= k < |todo| ensures DirtyAt(p, d, todo[k], g) <==> DirtyAt(page, rw, todo[k], g) {
    }
  }

  lemma {:induction false} ProtectInOk(page: Pages, rw: Rwmap, todo: seq<nat>, g: nat, gmm: Gmm)
    requires RwInv(rw, page, gmm) && Live(rw, todo) && Reg(page, rw) && gmm.hp(g) < FRAMES36
    ensures ProtectIn(page, rw, todo, g, false, gmm).ok <==> NoneDirty(page, rw, todo, g)
    decreases |todo|
  {
    if todo != [] {
      var i := todo[0];
      NoneTail(page, rw, todo, g);
      if rw.gfn[i] != g {
        ProtectInOk(page, rw, todo[1..], g, gmm);
      } else if !Blocked(page, rw, i, false) {
        var m := MoveToFail(rw, i);
        MoveToFailSound(rw, i, page, gmm);
        ProtectStep(page, rw, i, gmm);
        var d, p := Drop(m, i), Weaken(page, rw.pte[i], rw.hphys[i], true);
        LiveTail(rw, todo, d);
        ProtectInOk(p, d, todo[1..], g, gmm);
        forall k | 0 <= k < |todo[1..]| ensures todo[1..][k] !in rw.freeL { assert todo[1..][k] == todo[k + 1]; }
        StillDirty(page, rw, p, d, i, g, gmm.hp(g), todo[1..]);
      }
    }
  }

  lemma NoneTail(page: Pages, rw: Rwmap, todo: seq<nat>, g: nat)
    requires |rw.gfn| == |rw.pte| == |rw.hphys| && todo != []
    ensures NoneDirty(page, rw, todo, g) <==> !DirtyAt(page, rw, todo[0], g) && NoneDirty(page, rw, todo[1..], g)
  {
    if NoneDirty(page, rw, todo, g) {
      forall k | 0 <= k < |todo[1..]| ensures !DirtyAt(page, rw, todo[1..][k], g) { assert todo[1..][k] == todo[k + 1]; }
    } else {
      var k :| 0 <= k < |todo| && DirtyAt(page, rw, todo[k], g);
      if k > 0 { assert todo[1..][k - 1] == todo[k]; }
    }
  }

  /** makerdonly fails on another vcpu if and only if that has a dirty translation to the frame. */
  lemma ProtectOk(s: Spt, g: nat, gmm: Gmm)
    requires Core(s, gmm) && Reg(s.c1.page, s.rw) && GmmOk(gmm)
    ensures Protect(s.c1.page, s.rw, g, false, gmm).ok <==> !HasDirty(s, g)
  {
    var b := s.rw.hash[g % |s.rw.hash|];
    BucketLive(s.rw, s.c1.page, g, gmm);
    ProtectInOk(s.c1.page, s.rw, b, g, gmm);
    forall i | DirtyAt(s.c1.page, s.rw, i, g) ensures !NoneDirty(s.c1.page, s.rw, b, g) {
      assert i in b;
    }
  }

  /** No other vcpu has a dirty translation to the table of the key. */
  ghost predicate OthersClean(m: seq<Spt>, c: nat, key: Key) {
    forall t :: 0 <= t < |m| && t != c ==> |m[t].rw.gfn| == |m[t].rw.pte| == |m[t].rw.hphys| && !HasDirty(m[t], key.gfn)
  }

  lemma MakeRdOnlyOk(m: seq<Spt>, c: nat, key: Key, gmm: Gmm)
    requires c < |m| && Good(m, c, gmm) && GmmOk(gmm)
    ensures MakeRdOnly(m, c, key, gmm).1 <==> key.large || OthersClean(m, c, key)
  {
    if !key.large {
      forall t | 0 <= t < |m|
        ensures Protect(m[t].c1.page, m[t].rw, key.gfn, t == c, gmm).ok <==> t == c || !HasDirty(m[t], key.gfn)
      {
        if t == c { ProtectSptSound(m[t], key.gfn, true, gmm); } else { ProtectOk(m[t], key.gfn, gmm); }
      }
    }
  }

  // ------------------------------------------------------------- new shadows

  /** A new shadow is normal at the end of setpde or setpdpe if and only if the fault does not write
      the guest's table itself and no other vcpu has a dirty translation to it. */
  lemma FinishNormal(q: seq<Spt>, c: nat, lvl: nat, i: nat, key: Key, gfnw: Option<nat>, gmm: Gmm)
    requires c < |q| && Good(q, c, gmm) && GmmOk(gmm) && NormAt(q[c], lvl, i, key)
    ensures var r := Finish(q, c, lvl, i, key, gfnw, gmm);
      c < |r| && (NormAt(r[c], lvl, i, key) <==> !WritesTable(gfnw, key) && (key.large || OthersClean(q, c, key)))
  {
    if WritesTable(gfnw, key) {
      MarkSound(q[c], lvl, i, key, gmm);
    } else {
      MakeRdOnlySound(q, c, key, gmm);
      MakeRdOnlyOk(q, c, key, gmm);
      var w := MakeRdOnly(q, c, key, gmm);
      assert Weakened(w.0[c], q[c]);
      if !w.1 { MarkSound(w.0[c], lvl, i, key, gmm); }
    }
  }

  /** setpde for a key that no slot has: the table that the PDE then points at. */
  lemma NewTableNormal(m: seq<Spt>, c: nat, y: Ptr, key: Key, gfnw: Option<nat>, e: nat, p: Perm, gmm: Gmm)
    requires c < |m| && Good(m, c, gmm) && GmmOk(gmm) && WriteProtected(m, gmm)
    requires InPages(m[c].c2.page, y) && Recorded(m[c].c2.clear[y.slot], y.idx) && e < ENTRIES
    requires forall i :: 0 <= i < |m[c].c1.key| ==> i in m[c].c1.freeL || m[c].c1.key[i] != key
    ensures var r := SetPde(m, c, y, key, gfnw, e, p, gmm);
      && c < |r| && PdeSet(r[c], m[c], y, e, p)
      && (NormAt(r[c], 1, Rd(r[c].c2.page, y).to, key) <==> !WritesTable(gfnw, key) && (key.large || OthersClean(m, c, key)))
  {
    SetPdeSound(m, c, y, key, gfnw, e, p, gmm);
    FindExact(m[c].c1, key, Zero);
    var l := LinkPde(m[c], y, key, e, p, gmm);
    LinkPdeGood(m, c, y, key, e, p, gmm);
    var q := m[c := l.s];
    FinishNormal(q, c, 1, l.i, key, gfnw, gmm);
    FinishGood(q, c, 1, l.i, key, gfnw, gmm);
    OthersSame(m, c, l.s, key);
  }

  lemma OthersSame(m: seq<Spt>, c: nat, s: Spt, key: Key)
    requires c < |m|
    ensures OthersClean(m[c := s], c, key) <==> OthersClean(m, c, key)
  {
    var q := m[c := s];
    forall t | 0 <= t < |m| && t != c ensures q[t] == m[t] {
    }
  }

  /** setpdpe for a key that no directory has, with a free one. */
  lemma NewDirNormal(m: seq<Spt>, c: nat, v: nat, key: Key, gfnw: Option<nat>, gmm: Gmm)
    requires c < |m| && Good(m, c, gmm) && GmmOk(gmm) && HasPdpt(m[c], v) && WriteProtected(m, gmm) && m[c].c2.freeL != []
    requires forall i :: 0 <= i < |m[c].c2.key| ==> i in m[c].c2.freeL || m[c].c2.key[i] != key
    ensures var (r, ok) := SetPdpe(m, c, v, key, gfnw, gmm);
      && ok && c < |r| && PdpeSet(r[c], v)
      && (NormAt(r[c], 2, RdPdpe(r[c], v).slot, key) <==> !WritesTable(gfnw, key) && (key.large || OthersClean(m, c, key)))
  {
    SetPdpeSound(m, c, v, key, gfnw, gmm);
    FindExact(m[c].c2, key, NoPde);
    var l := LinkPdpe(m[c], v, key, gmm);
    LinkPdpeGood(m, c, v, key, gmm);
    var q := m[c := l.s];
    FinishNormal(q, c, 2, l.i, key, gfnw, gmm);
    NewPdpe(m, q, c, l, v, key, gfnw, gmm);
    OthersSame(m, c, l.s, key);
  }
}
