/** One vcpu's shadow page tables as the source keeps them, lists and pages updated in place
    by loops (cpu_mmu_spt.c, SPT_3), each operation proved against its specification. */
module SptVcpu {
  import opened Lists
  import opened Tables
  import opened LazyClear
  import opened ShadowCache
  import opened RwMap
  import opened BackRefs
  import opened Spt3
  import opened SptMap
  import opened SptUpper
  import opened SptFault
  import opened SptRuns

  /** The drain loop of update_rwmap and spt_tlbflush. */
  method DrainLoop(page0: Pages, rw0: Rwmap, ghost gmm: Gmm) returns (page: Pages, rw: Rwmap, changed: bool)
    requires RwInv(rw0, page0, gmm)
    ensures Drain(page0, rw0, gmm) == Drained(page, rw, changed)
  {
    page, rw, changed := page0, rw0, false;
    while rw.failL != []
      invariant RwInv(rw, page, gmm)
      invariant var d := Drain(page, rw, gmm); Drain(page0, rw0, gmm) == d.(changed := changed || d.changed)
      decreases |rw.failL|
    {
      var i := rw.failL[0];
      assert i in rw.failL;
      DropSound(rw, i, page, gmm);
      WeakenWeaker(page, rw.pte[i], rw.hphys[i], false);
      var p := Weaken(page, rw.pte[i], rw.hphys[i], false);
      RwInvShape(Drop(rw, i), page, p, gmm);
      changed := changed || Addr(Rd(page, rw.pte[i])) == rw.hphys[i];
      page, rw := p, Drop(rw, i);
    }
  }

  /** The search of update_rwmap in the bucket of the frame. */
  method SearchPte(rw: Rwmap, b: seq<nat>, y: Ptr) returns (j: int)
    requires Below(b, |rw.pte|)
    ensures j == FindPte(rw.pte, b, y)
  {
    var k := 0;
    while k < |b|
      invariant 0 <= k <= |b| && FindPte(rw.pte, b[k..], y) == FindPte(rw.pte, b, y)
    {
      if rw.pte[b[k]] == y { return b[k]; }
      k := k + 1;
    }
    return -1;
  }

  /** makerdonly, the loop over the bucket of one vcpu. */
  method ProtectLoop(page0: Pages, rw0: Rwmap, g: nat, own: bool, ghost gmm: Gmm) returns (page: Pages, rw: Rwmap, ok: bool)
    requires RwInv(rw0, page0, gmm)
    ensures Protect(page0, rw0, g, own, gmm) == Protected(page, rw, ok)
  {
    page, rw, ok := page0, rw0, true;
    BucketLive(rw, page, g, gmm);
    var todo := rw.hash[g % |rw.hash|];
    while todo != []
      invariant RwInv(rw, page, gmm) && Live(rw, todo)
      invariant var r := ProtectIn(page, rw, todo, g, own, gmm); Protect(page0, rw0, g, own, gmm) == r.(ok := ok && r.ok)
      decreases |todo|
    {
      var i := todo[0];
      if rw.gfn[i] == g {
        var m := MoveToFail(rw, i);
        MoveToFailSound(rw, i, page, gmm);
        if Blocked(page, rw, i, own) {
          ok, rw := false, m;
        } else {
          DropSound(m, i, page, gmm);
          var p := Weaken(page, rw.pte[i], rw.hphys[i], true);
          WeakenWeaker(page, rw.pte[i], rw.hphys[i], true);
          RwInvShape(Drop(m, i), page, p, gmm);
          LiveTail(rw, todo, Drop(m, i));
          page, rw := p, Drop(m, i);
        }
      }
      todo := todo[1..];
    }
  }

  /** The loop over shadow1map_ref in clean_modified_shadow1. */
  method DropRefsLoop(pd0: Dirs, m0: Map1, s: nat) returns (pd: Dirs, m: Map1)
    requires MapInv(m0, pd0) && s < |m0.refs| && Linked(pd0, m0)
    ensures (pd, m) == DropRefs(pd0, m0, s)
  {
    pd, m := pd0, m0;
    while m.refs[s] != []
      invariant MapInv(m, pd) && s < |m.refs| && Linked(pd, m) && DropRefs(pd, m, s) == DropRefs(pd0, m0, s)
      decreases |m.refs[s]|
    {
      var k := m.refs[s][0];
      assert k in m.refs[s];
      ReleaseSound(m, k, pd);
      pd, m := Unlink(pd, m.pde[k], s), BackRefs.Release(m, k);
    }
  }

  /** update_shadow without needrw on one cache. */
  method AnyNormalLoop<E>(c: Cache<E>, g: nat) returns (r: bool)
    requires HashOk(c) && |c.modified| == |c.key|
    ensures r == AnyNormal(c, c.hash[g % |c.hash|], g)
  {
    var todo := c.hash[g % |c.hash|];
    while todo != []
      invariant Below(todo, |c.key|) && AnyNormal(c, todo, g) == AnyNormal(c, c.hash[g % |c.hash|], g)
      decreases |todo|
    {
      if Protects(c.key[todo[0]], c.modified[todo[0]], g) { return true; }
      todo := todo[1..];
    }
    return false;
  }

  /** update_shadow with needrw on one cache. */
  method MarkFrameLoop<E>(c0: Cache<E>, g: nat) returns (c: Cache<E>)
    requires HashOk(c0) && |c0.modified| == |c0.key|
    ensures c == MarkAll(c0, g)
  {
    c := c0;
    var todo := c.hash[g % |c.hash|];
    while todo != []
      invariant Below(todo, |c.key|) && |c.modified| == |c.key| && MarkBucket(c, todo, g) == MarkAll(c0, g)
      decreases |todo|
    {
      var i := todo[0];
      if Protects(c.key[i], c.modified[i], g) { c := MarkModified(c, i); }
      todo := todo[1..];
    }
  }

  /** The inner loop of extern_mapsearch: the entries of one page that map frames lo to hi are
      zeroed on the current vcpu, and reported on another one. */
  method SearchPage(t: seq<Pte>, lo: nat, hi: nat, own: bool) returns (r: seq<Pte>, found: bool)
    ensures own ==> r == UnmapPage(t, lo, hi) && !found
    ensures !own ==> r == t && (found <==> MapsIn(t, lo, hi))
  {
    r, found := t, false;
    var j := 0;
    while j < |t|
      invariant 0 <= j <= |t| == |r|
      invariant forall e :: 0 <= e < |t| ==> r[e] == if own && e < j then UnmapPage(t, lo, hi)[e] else t[e]
      invariant !own ==> forall e :: 0 <= e < j ==> !(t[e].Pte? && lo <= t[e].addr <= hi)
    {
      if t[j].Pte? && lo <= t[j].addr <= hi {
        if !own { return r, true; }
        r := r[j := Zero];
      }
      j := j + 1;
    }
  }

  /** The outer loop, over the pages of the lists. */
  method SearchPages(page0: Pages, todo: seq<nat>, lo: nat, hi: nat, own: bool) returns (page: Pages, found: bool)
    requires NoDup(todo) && Below(todo, |page0|)
    ensures own ==> !found && |page| == |page0|
    ensures own ==> forall i :: 0 <= i < |page0| ==> page[i] == if i in todo then UnmapPage(page0[i], lo, hi) else page0[i]
    ensures !own ==> page == page0 && (found <==> exists k :: 0 <= k < |todo| && MapsIn(page0[todo[k]], lo, hi))
  {
    page, found := page0, false;
    var k := 0;
    while k < |todo|
      invariant 0 <= k <= |todo| && |page| == |page0| && (!own ==> page == page0)
      invariant own ==> forall i :: 0 <= i < |page0| ==> page[i] == if i in todo[..k] then UnmapPage(page0[i], lo, hi) else page0[i]
      invariant !own ==> forall j :: 0 <= j < k ==> !MapsIn(page0[todo[j]], lo, hi)
    {
      var p := todo[k];
      assert todo[..k + 1] == todo[..k] + [p];
      assert p !in todo[..k];
      var r;
      r, found := SearchPage(page[p], lo, hi, own);
      if found { return; }
      page := page[p := r];
      k := k + 1;
    }
    assert todo[..k] == todo;
    found := false;
  }

  /** A page table maps a frame of the range. */
  ghost predicate MapsIn(t: seq<Pte>, lo: nat, hi: nat) {
    exists e :: 0 <= e < |t| && t[e].Pte? && lo <= t[e].addr <= hi
  }

  class Vcpu {
    var levels: nat
    var top: seq<Link>
    var tbl: seq<seq<Link>>
    var cnt: nat
    var wp: bool
    var c1: Cache<Pte>
    var c2: Cache<Pde>
    var rw: Rwmap
    var map1: Map1

    ghost function Value(): Spt
      reads this
    {
      Spt(levels, top, tbl, cnt, wp, c1, c2, rw, map1)
    }

    /** spt_tlbflush: must the TLB be flushed? */
    method TlbFlush(ghost gmm: Gmm) returns (flush: bool)
      requires SptInv(Value(), gmm)
      modifies this`c1, this`rw
      ensures SptInv(Value(), gmm) && Value() == FlushTlb(old(Value()), gmm)
      ensures flush == Drain(old(c1.page), old(rw), gmm).changed && (!flush ==> c1.page == old(c1.page))
    {
      ghost var s := Value();
      FlushTlbSound(s, gmm);
      RegNowhere(c1.page, rw);
      DrainSound(c1.page, rw, Ptr(|c1.page|, 0), gmm);
      var page;
      page, rw, flush := DrainLoop(c1.page, rw, gmm);
      c1 := c1.(page := page);
    }

    /** update_rwmap for the PTE just written. */
    method UpdateRwmap(g: nat, y: Ptr, h: nat, ghost gmm: Gmm)
      requires RwInv(rw, c1.page, gmm) && InPages(c1.page, y)
      modifies this`c1, this`rw
      ensures var u := Update(old(c1.page), old(rw), g, y, h, gmm); c1 == old(c1).(page := u.page) && rw == u.rw
    {
      DrainShape(c1.page, rw, gmm);
      var page, changed;
      page, rw, changed := DrainLoop(c1.page, rw, gmm);
      ghost var d := Drained(page, rw, changed);
      var j := SearchPte(rw, rw.hash[g % |rw.hash|], y);
      if j >= 0 {
        rw := Enroll(Drop(rw, j), j, g, y, h);
      } else if rw.freeL != [] {
        rw := Enroll(rw, rw.freeL[0], g, y, h);
      } else {
        NormalLeft(rw, page, gmm);
        var i := rw.normL[0];
        page := Weaken(page, rw.pte[i], rw.hphys[i], false);
        rw := Enroll(Drop(rw, i), i, g, y, h);
      }
      c1 := c1.(page := page);
      assert Place(d, g, y, h, gmm) == Drained(page, rw, changed);
    }

    /** makerdonly for this vcpu. */
    method ProtectFrame(g: nat, own: bool, ghost gmm: Gmm) returns (ok: bool)
      requires Core(Value(), gmm)
      modifies this`c1, this`rw
      ensures Value() == ProtectSpt(old(Value()), g, own, gmm)
      ensures ok == Protect(old(c1.page), old(rw), g, own, gmm).ok
    {
      var page;
      page, rw, ok := ProtectLoop(c1.page, rw, g, own, gmm);
      c1 := c1.(page := page);
    }

    /** clean_modified_shadow1 with freeflag. */
    method CleanModified1(ghost gmm: Gmm)
      requires Core(Value(), gmm)
      modifies this`c1, this`c2, this`map1
      ensures Core(Value(), gmm) && Value() == CleanFree1(old(Value()), gmm)
    {
      while c1.modL != []
        invariant Core(Value(), gmm) && CleanFree1(Value(), gmm) == CleanFree1(old(Value()), gmm)
        decreases |c1.modL|
      {
        FreeShadow1Sound(Value(), gmm);
        FreeOne1(gmm);
      }
    }

    /** One round: drop the back-references, then free the page. */
    method FreeOne1(ghost gmm: Gmm)
      requires Core(Value(), gmm) && c1.modL != []
      modifies this`c1, this`c2, this`map1
      ensures Value() == FreeShadow1(old(Value()), gmm)
    {
      assert c1.modL[0] in c1.modL;
      var pd;
      pd, map1 := DropRefsLoop(c2.page, map1, c1.modL[0]);
      c2 := c2.(page := pd);
      c1 := FreeFirst(c1, Zero);
    }

    /** clean_modified_shadow2 with freeflag. */
    method CleanModified2()
      requires CacheInv(c2, NoPde)
      modifies this`c2
      ensures c2 == FreeMods(old(c2), NoPde)
    {
      while c2.modL != []
        invariant CacheInv(c2, NoPde) && FreeMods(c2, NoPde) == FreeMods(old(c2), NoPde)
        decreases |c2.modL|
      {
        FreeFirstSound(c2, NoPde);
        c2 := FreeFirst(c2, NoPde);
      }
    }

    /** pmap_clear of the root. */
    method ClearRoot()
      requires |top| == ENTRIES
      modifies this`top, this`cnt
      ensures Value() == ClearTop(old(Value()))
    {
      var n := if levels == 3 then 4 else ENTRIES;
      var j := 0;
      while j < n
        invariant 0 <= j <= n <= ENTRIES && |top| == ENTRIES && cnt == old(cnt)
        invariant forall k :: 0 <= k < ENTRIES ==> top[k] == if k < j then NoLink else old(top)[k]
      {
        top := top[j := NoLink];
        j := j + 1;
      }
      cnt := 0;
      assert top == ClearTop(old(Value())).top;
    }

    /** update_cr3 */
    method MovCr3(newLevels: nat, newWp: bool, ghost gmm: Gmm)
      requires SptInv(Value(), gmm) && (newLevels == 3 || newLevels == 4)
      modifies this
      ensures SptInv(Value(), gmm) && Value() == UpdateCr3(old(Value()), newLevels, newWp, gmm)
    {
      UpdateCr3Sound(Value(), newLevels, newWp, gmm);
      SwitchMode(newLevels, newWp, gmm);
      var _ := TlbFlush(gmm);
      FreeModified(gmm);
    }

    method SwitchMode(newLevels: nat, newWp: bool, ghost gmm: Gmm)
      requires SptInv(Value(), gmm) && (newLevels == 3 || newLevels == 4)
      modifies this`levels, this`wp, this`top, this`cnt
      ensures SptInv(Value(), gmm) && Value() == ClearTop(old(Value()).(levels := newLevels, wp := newWp))
    {
      levels, wp := newLevels, newWp;
      ClearTopSound(Value(), gmm);
      ClearRoot();
    }

    method FreeModified(ghost gmm: Gmm)
      requires SptInv(Value(), gmm)
      modifies this`c1, this`c2, this`map1
      ensures Value() == FreeBoth(old(Value()), gmm)
    {
      CleanFree1Sound(Value(), gmm);
      CleanModified1(gmm);
      CleanModified2();
    }

    /** extern_mapsearch over the pages of both lists: on the current vcpu they are unmapped, on
        another one the answer is whether there is something to unmap. */
    method MapSearch(lo: nat, hi: nat, own: bool, ghost gmm: Gmm) returns (found: bool)
      requires SptInv(Value(), gmm)
      modifies this`c1
      ensures own ==> !found && Value() == UnmapRange(old(Value()), lo, hi, gmm)
      ensures !own ==> Value() == old(Value())
      ensures !own ==> (found <==> exists i :: 0 <= i < |c1.page| && i !in c1.freeL && MapsIn(c1.page[i], lo, hi))
    {
      ghost var c := c1;
      var todo := c1.modL + c1.normL;
      InUseListed(c, todo);
      var page;
      page, found := SearchPages(c1.page, todo, lo, hi, own);
      c1 := c1.(page := page);
      if own { assert page == UnmapRange(old(Value()), lo, hi, gmm).c1.page; }
    }

    /** update_shadow with needrw for this vcpu. */
    method MarkFrame(g: nat, ghost gmm: Gmm)
      requires Core(Value(), gmm)
      modifies this`c1, this`c2
      ensures Value() == MarkBoth(old(Value()), g, gmm)
    {
      c1 := MarkFrameLoop(c1, g);
      c2 := MarkFrameLoop(c2, g);
    }

    /** update_shadow without needrw for this vcpu. */
    method ShadowsFrame(g: nat, ghost gmm: Gmm) returns (r: bool)
      requires Core(Value(), gmm)
      ensures r == SptShadows(Value(), g, gmm)
    {
      r := AnyNormalLoop(c1, g);
      if !r { r := AnyNormalLoop(c2, g); }
    }

    /** The end of update_shadow: the registration just made is taken back, with its RW bit. */
    method ForgetPte(g: nat, y: Ptr, ghost gmm: Gmm)
      requires Core(Value(), gmm) && InPages(c1.page, y)
      modifies this`c1, this`rw
      ensures var f := Forget(old(c1.page), old(rw), g, y);
        Value() == old(Value()).(c1 := old(c1).(page := f.0), rw := f.1)
    {
      var f := Forget(c1.page, rw, g, y);
      c1, rw := c1.(page := f.0), f.1;
    }
  }

  /** The two lists together hold the slots in use, each once. */
  lemma InUseListed(c: Cache<Pte>, todo: seq<nat>)
    requires CacheInv(c, Zero) && todo == c.modL + c.normL
    ensures NoDup(todo) && Below(todo, |c.page|) && forall i :: 0 <= i < |c.page| ==> (i in todo <==> i !in c.freeL)
  {
    forall i, j | 0 <= i < j < |todo| ensures todo[i] != todo[j] {
      assert i < |c.modL| ==> c.modL[i] in c.modL;
      assert j >= |c.modL| ==> c.normL[j - |c.modL|] in c.normL;
    }
    forall i | 0 <= i < |todo| ensures todo[i] < |c.page| {
      assert todo[i] in c.modL || todo[i] in c.normL;
    }
  }

  /** The vcpus have these values. */
  ghost predicate Are(vs: seq<Vcpu>, m: seq<Spt>)
    reads vs
  {
    |vs| == |m| && forall t :: 0 <= t < |vs| ==> vs[t].Value() == m[t]
  }

  /** update_shadow over list1_spt: marks all shadows of the frame on every vcpu, or searches for
      one and then takes back the PTE of vcpu c. */
  method UpdateShadows(vs: seq<Vcpu>, c: nat, g: nat, y: Ptr, needrw: bool, ghost m: seq<Spt>, ghost gmm: Gmm)
    requires NoDup(vs) && c < |m| && Are(vs, m) && AllCore(m, gmm) && InPages(m[c].c1.page, y)
    modifies vs
    ensures Are(vs, UpdateShadow(m, c, g, y, needrw, gmm))
  {
    if needrw {
      MarkFrames(vs, g, m, gmm);
    } else {
      var found := SearchFrames(vs, g, m, gmm);
      if found { vs[c].ForgetPte(g, y, gmm); }
    }
  }

  method MarkFrames(vs: seq<Vcpu>, g: nat, ghost m: seq<Spt>, ghost gmm: Gmm)
    requires NoDup(vs) && Are(vs, m) && AllCore(m, gmm)
    modifies vs
    ensures Are(vs, seq(|m|, t requires 0 <= t < |m| => MarkBoth(m[t], g, gmm)))
  {
    var t := 0;
    while t < |vs|
      invariant 0 <= t <= |vs|
      invariant forall k :: 0 <= k < |vs| ==> vs[k].Value() == if k < t then MarkBoth(m[k], g, gmm) else m[k]
    {
      assert vs[t].Value() == m[t];
      vs[t].MarkFrame(g, gmm);
      t := t + 1;
    }
  }

  method SearchFrames(vs: seq<Vcpu>, g: nat, ghost m: seq<Spt>, ghost gmm: Gmm) returns (found: bool)
    requires Are(vs, m) && AllCore(m, gmm)
    ensures found <==> exists t :: 0 <= t < |m| && SptShadows(m[t], g, gmm)
  {
    var t := 0;
    while t < |vs|
      invariant 0 <= t <= |vs| && forall k :: 0 <= k < t ==> !SptShadows(m[k], g, gmm)
    {
      assert vs[t].Value() == m[t];
      found := vs[t].ShadowsFrame(g, gmm);
      if found { return; }
      t := t + 1;
    }
    found := false;
  }
}
