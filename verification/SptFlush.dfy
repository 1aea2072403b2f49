/** What the flushing operations leave behind (cpu_mmu_spt.c, SPT_3: update_cr3, clear_all,
    invalidate_page, spt_tlbflush). */
module SptFlush {
  import opened Lists
  import opened Tables
  import opened LazyClear
  import opened ShadowCache
  import opened RwMap
  import opened BackRefs
  import opened Spt3
  import opened SptMap
  import opened SptUpper
  import opened SptFault
  import opened SptRuns

  /** With an empty root the hardware finds no translation at all. */
  lemma EmptyRootFaults(s: Spt, v: nat)
    requires RootEmpty(s) && Shape(s) && Linear(s, v)
    ensures Walk(s, v) == Fault
  {
    if s.levels == 3 { assert I3(v) < 4; }
  }

  /** Draining empties the fail list and touches only PTEs and the reverse map. */
  lemma FlushTlbDrains(s: Spt, gmm: Gmm)
    requires SptInv(s, gmm)
    ensures var r := FlushTlb(s, gmm);
      r.rw.failL == [] && r == s.(c1 := s.c1.(page := r.c1.page), rw := r.rw) && Weaker(r.c1.page, s.c1.page)
  {
    DrainShape(s.c1.page, s.rw, gmm);
  }

  /** Exactly the modified slots have become free. */
  ghost predicate ModsFreed<E>(d: Cache<E>, c: Cache<E>) {
    |d.key| == |c.key| && forall k :: 0 <= k < |c.key| ==> St(d, k) == if St(c, k).Mod? then Free else St(c, k)
  }

  lemma FreeBothFrees(s: Spt, gmm: Gmm)
    requires SptInv(s, gmm) && RootEmpty(s)
    ensures var r := FreeBoth(s, gmm);
      && ModsFreed(r.c1, s.c1) && ModsFreed(r.c2, s.c2) && r.rw == s.rw
      && r.levels == s.levels && r.wp == s.wp && r.top == s.top && r.cnt == s.cnt
  {
    CleanFree1Sound(s, gmm);
    FreeModsSound(CleanFree1(s, gmm).c2, NoPde);
  }

  /** After MOV CR3 no translation is left, the modified shadows are free, normal ones are kept,
      nothing is pending on the fail list, and the new mode is in force. */
  lemma UpdateCr3Empties(s: Spt, levels: nat, wp: bool, gmm: Gmm, v: nat)
    requires SptInv(s, gmm) && (levels == 3 || levels == 4)
    ensures var r := UpdateCr3(s, levels, wp, gmm);
      && r.levels == levels && r.wp == wp && r.rw.failL == [] && ModsFreed(r.c1, s.c1) && ModsFreed(r.c2, s.c2)
      && Shape(r) && (Linear(r, v) ==> Walk(r, v) == Fault)
  {
    var q := s.(levels := levels, wp := wp);
    ClearTopSound(q, gmm);
    Cr3Parts(s, ClearTop(q), levels, wp, gmm);
    UpdateCr3Sound(s, levels, wp, gmm);
    var r := UpdateCr3(s, levels, wp, gmm);
    if Linear(r, v) { EmptyRootFaults(r, v); }
  }

  lemma Cr3Parts(s: Spt, t: Spt, levels: nat, wp: bool, gmm: Gmm)
    requires SptInv(t, gmm) && RootEmpty(t) && t.c1 == s.c1 && t.c2 == s.c2 && t.levels == levels && t.wp == wp
    ensures SptInv(FlushTlb(t, gmm), gmm)
    ensures var r := FreeBoth(FlushTlb(t, gmm), gmm);
      && r.levels == levels && r.wp == wp && r.rw.failL == [] && ModsFreed(r.c1, s.c1) && ModsFreed(r.c2, s.c2) && RootEmpty(r)
  {
    FlushTlbSound(t, gmm);
    FlushTlbDrains(t, gmm);
    FreeBothFrees(FlushTlb(t, gmm), gmm);
  }

  /** After clear_all no translation is left and every shadow page is free. */
  lemma ClearAllEmpties(s: Spt, gmm: Gmm, v: nat)
    requires SptInv(s, gmm)
    ensures var r := ClearAll(s, gmm);
      && AllFreed(r.c1, |s.c1.key|) && AllFreed(r.c2, |s.c2.key|) && Shape(r) && (Linear(r, v) ==> Walk(r, v) == Fault)
  {
    ClearTopSound(s, gmm);
    ClearParts(ClearTop(s), gmm);
    ClearAllSound(s, gmm);
    var r := ClearAll(s, gmm);
    if Linear(r, v) { EmptyRootFaults(r, v); }
  }

  /** No slot of the cache is in use. */
  ghost predicate AllFreed<E>(d: Cache<E>, n: nat) {
    |d.key| == n && forall k :: 0 <= k < n ==> St(d, k) == Free
  }

  lemma ClearParts(t: Spt, gmm: Gmm)
    requires SptInv(t, gmm) && RootEmpty(t)
    ensures SptInv(MarkEverything(t, gmm), gmm)
    ensures var r := FreeBoth(MarkEverything(t, gmm), gmm); AllFreed(r.c1, |t.c1.key|) && AllFreed(r.c2, |t.c2.key|) && RootEmpty(r)
  {
    MarkedSound(t, gmm);
    AllMarked(t, gmm);
    FreeBothFrees(MarkEverything(t, gmm), gmm);
  }

  lemma AllMarked(s: Spt, gmm: Gmm)
    requires SptInv(s, gmm)
    ensures var m := MarkEverything(s, gmm);
      && |m.c1.key| == |s.c1.key| && (forall k :: 0 <= k < |m.c1.key| ==> !St(m.c1, k).Norm?)
      && |m.c2.key| == |s.c2.key| && (forall k :: 0 <= k < |m.c2.key| ==> !St(m.c2, k).Norm?)
  {
    MarkNormalsSound(s.c1, Zero);
    MarkNormalsSound(s.c2, NoPde);
  }

  /** INVLPG empties exactly the modified shadow pages. */
  lemma InvalidateClears(s: Spt, gmm: Gmm, k: nat)
    requires SptInv(s, gmm)
    ensures var r := Invalidate(s, gmm);
      && |r.c1.page| == |s.c1.page| && |r.c2.page| == |s.c2.page|
      && (k < |s.c1.page| ==> r.c1.page[k] == if k in s.c1.modL then Zeros(Zero) else s.c1.page[k])
      && (k < |s.c2.page| ==> r.c2.page[k] == if k in s.c2.modL then Zeros(NoPde) else s.c2.page[k])
  {
    ClearModsSound(s.c1, s.c1.modL, Zero);
    ClearModsSound(s.c2, s.c2.modL, NoPde);
  }
}
