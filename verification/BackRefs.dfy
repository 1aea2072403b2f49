/** Back-references from a shadow page table to the PDEs that point at it
    (shadow1map in cpu_mmu_spt.c, SPT_3).  The pool of records is fixed and is
    recycled when it is full; a recycled record takes its PDE down with it. */
module BackRefs {
  import opened Lists
  import opened Tables

  /** A PDE of a shadow page directory; `to` is the slot of the shadow page table. */
  datatype Pde = NoPde | Pde(to: nat, rw: bool, us: bool, nx: bool, large: bool)

  type Dirs = seq<seq<Pde>>

  /** Records (shadow1, pde), the list of records in use, the free list, and for each
      shadow page table its shadow1map_ref list. */
  datatype Map1 = Map1(s1: seq<nat>, pde: seq<Ptr>, listL: seq<nat>, freeL: seq<nat>, refs: seq<seq<nat>>)

  predicate PointsTo(e: Pde, s: nat) {
    e.Pde? && e.to == s
  }

  ghost predicate RefLists(m: Map1) {
    && (forall s :: 0 <= s < |m.refs| ==> NoDup(m.refs[s]) && Below(m.refs[s], |m.s1|))
    && (forall s, k :: 0 <= s < |m.refs| && 0 <= k < |m.s1| ==>
          (k in m.refs[s] <==> k !in m.freeL && m.s1[k] == s))
  }

  ghost predicate MapInv(m: Map1, pd: Dirs) {
    && 0 < |m.s1| == |m.pde|
    && Parts(m.listL, [], m.freeL, |m.s1|)
    && RefLists(m)
    && (forall k :: 0 <= k < |m.s1| && k !in m.freeL ==> InPages(pd, m.pde[k]) && m.s1[k] < |m.refs|)
  }

  ghost predicate RefBy(m: Map1, k: nat, s: nat, y: Ptr)
    requires |m.s1| == |m.pde|
  {
    k < |m.s1| && k !in m.freeL && m.s1[k] == s && m.pde[k] == y
  }

  /** Every present PDE is recorded with the shadow page table it points at. */
  ghost predicate Linked(pd: Dirs, m: Map1)
    requires |m.s1| == |m.pde|
  {
    forall y :: InPages(pd, y) && Rd(pd, y).Pde? ==>
      Rd(pd, y).to < |m.refs| && exists k :: RefBy(m, k, Rd(pd, y).to, y)
  }

  /** PDEs only disappear. */
  ghost predicate Fewer(r: Dirs, pd: Dirs) {
    && SameShape(r, pd)
    && (forall y :: InPages(pd, y) ==> Rd(r, y) == Rd(pd, y) || Rd(r, y) == NoPde)
  }

  lemma FewerTrans(a: Dirs, b: Dirs, c: Dirs)
    requires Fewer(a, b) && Fewer(b, c)
    ensures Fewer(a, c)
  {
  }

  /** if ((*pde & PDE_ADDR_MASK64) == shadow1->phys) *pde = 0 */
  function Unlink(pd: Dirs, y: Ptr, s: nat): Dirs
    requires InPages(pd, y)
  {
    if PointsTo(Rd(pd, y), s) then Wr(pd, y, NoPde) else pd
  }

  /** Release record k: off both lists, onto the free list. */
  function Release(m: Map1, k: nat): Map1
    requires k < |m.s1| && m.s1[k] < |m.refs|
  {
    m.(listL := Del(m.listL, k), freeL := [k] + m.freeL, refs := m.refs[m.s1[k] := Del(m.refs[m.s1[k]], k)])
  }

  lemma ReleaseSound(m: Map1, k: nat, pd: Dirs)
    requires MapInv(m, pd) && k < |m.s1| && k !in m.freeL && Linked(pd, m)
    ensures MapInv(Release(m, k), Unlink(pd, m.pde[k], m.s1[k]))
    ensures Linked(Unlink(pd, m.pde[k], m.s1[k]), Release(m, k))
    ensures Fewer(Unlink(pd, m.pde[k], m.s1[k]), pd)
    ensures forall j :: 0 <= j < |m.s1| ==> (j in Release(m, k).freeL <==> j in m.freeL || j == k)
  {
    DelNoDup(m.listL, k); DelBelow(m.listL, k, |m.s1|);
    DelNoDup(m.refs[m.s1[k]], k); DelBelow(m.refs[m.s1[k]], k, |m.s1|);
    AddNoDup(m.freeL, k);
    var d := Release(m, k);
    var r := Unlink(pd, m.pde[k], m.s1[k]);
    assert RefLists(d);
    forall y | InPages(r, y) && Rd(r, y).Pde? ensures exists j :: RefBy(d, j, Rd(r, y).to, y) {
      assert Rd(r, y) == Rd(pd, y);
      var j :| RefBy(m, j, Rd(pd, y).to, y);
      assert j != k;
      assert RefBy(d, j, Rd(r, y).to, y);
    }
  }

  /** Take record k from the free list for (s, y). */
  function Attach(m: Map1, k: nat, s: nat, y: Ptr): Map1
    requires k < |m.s1| == |m.pde| && s < |m.refs|
  {
    m.(freeL := Del(m.freeL, k), listL := m.listL + [k], refs := m.refs[s := m.refs[s] + [k]],
       s1 := m.s1[k := s], pde := m.pde[k := y])
  }

  lemma AttachSound(m: Map1, k: nat, s: nat, y: Ptr, pd: Dirs)
    requires MapInv(m, pd) && k < |m.s1| && k in m.freeL && s < |m.refs| && InPages(pd, y) && Linked(pd, m)
    ensures MapInv(Attach(m, k, s, y), pd) && Linked(pd, Attach(m, k, s, y))
    ensures RefBy(Attach(m, k, s, y), k, s, y)
  {
    DelNoDup(m.freeL, k); DelBelow(m.freeL, k, |m.s1|);
    AddNoDup(m.listL, k);
    AddNoDup(m.refs[s], k);
    var d := Attach(m, k, s, y);
    assert RefLists(d);
    forall z | InPages(pd, z) && Rd(pd, z).Pde? ensures exists j :: RefBy(d, j, Rd(pd, z).to, z) {
      var j :| RefBy(m, j, Rd(pd, z).to, z);
      assert RefBy(d, j, Rd(pd, z).to, z);
    }
  }

  function FindRef(pde: seq<Ptr>, todo: seq<nat>, y: Ptr): (r: bool)
    requires Below(todo, |pde|)
    ensures r ==> exists i :: 0 <= i < |todo| && pde[todo[i]] == y
  {
    if todo == [] then false
    else if pde[todo[0]] == y then true
    else
      var r := FindRef(pde, todo[1..], y);
      assert forall i :: 0 <= i < |todo[1..]| ==> todo[1..][i] == todo[i + 1];
      r
  }

  /** add_shadow1map: record that PDE y is about to point at shadow page table s. */
  function AddRef(pd: Dirs, m: Map1, s: nat, y: Ptr): (Dirs, Map1)
    requires MapInv(m, pd) && s < |m.refs|
  {
    if FindRef(m.pde, m.refs[s], y) then (pd, m)
    else if m.freeL != [] then (pd, Attach(m, m.freeL[0], s, y))
    else
      InUse(m, pd);
      var k := m.listL[0];
      (Unlink(pd, m.pde[k], m.s1[k]), Attach(Release(m, k), k, s, y))
  }

  /** The POP of shadow1map_list after an empty free list never yields NULL. */
  lemma InUse(m: Map1, pd: Dirs)
    requires MapInv(m, pd) && m.freeL == []
    ensures m.listL != [] && m.listL[0] < |m.s1| && m.listL[0] !in m.freeL
  {
    assert 0 in m.listL;
  }

  /** After add_shadow1map the record exists and no other PDE lost its record, even
      when the pool overflowed. */
  lemma AddRefSound(pd: Dirs, m: Map1, s: nat, y: Ptr)
    requires MapInv(m, pd) && s < |m.refs| && InPages(pd, y) && Linked(pd, m)
    ensures var a := AddRef(pd, m, s, y);
      && MapInv(a.1, a.0) && Linked(a.0, a.1) && Fewer(a.0, pd) && |a.1.refs| == |m.refs|
      && exists k :: RefBy(a.1, k, s, y)
  {
    if FindRef(m.pde, m.refs[s], y) {
      var i :| 0 <= i < |m.refs[s]| && m.pde[m.refs[s][i]] == y;
      assert m.refs[s][i] in m.refs[s];
      assert RefBy(m, m.refs[s][i], s, y);
    } else if m.freeL != [] {
      assert m.freeL[0] in m.freeL;
      AttachSound(m, m.freeL[0], s, y, pd);
    } else {
      InUse(m, pd);
      var k := m.listL[0];
      ReleaseSound(m, k, pd);
      AttachSound(Release(m, k), k, s, y, Unlink(pd, m.pde[k], m.s1[k]));
    }
  }

  /** Writing a recorded PDE keeps every PDE recorded. */
  lemma WritePdeLinked(pd: Dirs, m: Map1, y: Ptr, e: Pde)
    requires MapInv(m, pd) && Linked(pd, m) && InPages(pd, y) && e.Pde? && e.to < |m.refs|
    requires exists k :: RefBy(m, k, e.to, y)
    ensures MapInv(m, Wr(pd, y, e)) && Linked(Wr(pd, y, e), m)
  {
    var r := Wr(pd, y, e);
    forall z | InPages(r, z) && Rd(r, z).Pde?
      ensures Rd(r, z).to < |m.refs| && exists k :: RefBy(m, k, Rd(r, z).to, z)
    {
      if z != y { assert Rd(r, z) == Rd(pd, z); }
    }
  }

  lemma FewerLinked(r: Dirs, pd: Dirs, m: Map1)
    requires MapInv(m, pd) && Linked(pd, m) && Fewer(r, pd)
    ensures MapInv(m, r) && Linked(r, m)
  {
    forall z | InPages(r, z) && Rd(r, z).Pde?
      ensures Rd(r, z).to < |m.refs| && exists k :: RefBy(m, k, Rd(r, z).to, z)
    {
      assert Rd(r, z) == Rd(pd, z);
    }
  }

  ghost predicate NoPointers(pd: Dirs, s: nat) {
    forall y :: InPages(pd, y) ==> !PointsTo(Rd(pd, y), s)
  }

  /** The loop over shadow1map_ref in clean_modified_shadow1. */
  function DropRefs(pd: Dirs, m: Map1, s: nat): (Dirs, Map1)
    requires MapInv(m, pd) && s < |m.refs| && Linked(pd, m)
    decreases |m.refs[s]|
  {
    if m.refs[s] == [] then (pd, m)
    else
      var k := m.refs[s][0];
      assert k in m.refs[s];
      ReleaseSound(m, k, pd);
      DropRefs(Unlink(pd, m.pde[k], s), Release(m, k), s)
  }

  /** Afterwards no PDE points at the shadow page table, so it can be freed. */
  lemma {:induction false} DropRefsSound(pd: Dirs, m: Map1, s: nat)
    requires MapInv(m, pd) && s < |m.refs| && Linked(pd, m)
    ensures var d := DropRefs(pd, m, s);
      MapInv(d.1, d.0) && Linked(d.0, d.1) && Fewer(d.0, pd) && |d.1.refs| == |m.refs| && NoPointers(d.0, s)
    decreases |m.refs[s]|
  {
    if m.refs[s] == [] {
    } else {
      var k := m.refs[s][0];
      assert k in m.refs[s];
      ReleaseSound(m, k, pd);
      var r := Unlink(pd, m.pde[k], s);
      DropRefsSound(r, Release(m, k), s);
      FewerTrans(DropRefs(r, Release(m, k), s).0, r, pd);
    }
  }
}
