/** From the guest's page-table entries to map_page (cpu_mmu_spt.c: set_m2, set_gfns,
    cpu_mmu_spt_pagefault): what the guest's own tables allow bounds what the shadow grants. */
module SptEntry {
  import opened Words
  import opened Pow2
  import opened Lists
  import PageCursor
  import GuestWalk
  import GuestRights
  import opened ShadowCache
  import opened SptMap
  import LazyClear
  import RwMap
  import Spt3
  import SptUpper
  import SptFault
  import SptGrant

  /** Every entry from level i up to the root has bit b. */
  ghost predicate AllHave(entries: seq<Word>, i: nat, levels: nat, b: nat)
    requires levels < |entries|
  {
    forall k :: i <= k <= levels ==> b in entries[k]
  }

  /** What the guest allows below level i: the entries from i up together, and a PTE that is
      not dirty allows no write yet. */
  ghost predicate Allows(p: Perm, entries: seq<Word>, i: nat, levels: nat)
    requires levels < |entries|
  {
    && (p.rw <==> AllHave(entries, i, levels, RW) && (i == 0 ==> D in entries[0]))
    && (p.us <==> AllHave(entries, i, levels, US))
    && (!p.nx <==> forall k :: i <= k <= levels ==> NX !in entries[k])
  }

  /** set_m2 */
  method SetM2(entries: seq<Word>, levels: nat) returns (m2: seq<Perm>)
    requires levels < |entries|
    ensures |m2| == |entries| && forall i :: 0 <= i <= levels ==> Allows(m2[i], entries, i, levels)
  {
    m2 := seq(|entries|, i => Perm(false, false, false));
    var rw, us, nx := true, true, false;
    var i := levels + 1;
    while i > 0
      invariant 0 <= i <= levels + 1 && |m2| == |entries|
      invariant rw <==> AllHave(entries, i, levels, RW)
      invariant us <==> AllHave(entries, i, levels, US)
      invariant !nx <==> forall k :: i <= k <= levels ==> NX !in entries[k]
      invariant forall k :: i <= k <= levels && k > 0 ==> Allows(m2[k], entries, k, levels)
      invariant i == 0 ==> m2[0] == Perm(rw, us, nx)
    {
      i := i - 1;
      var e := entries[i];
      if RW !in e { rw := false; }
      if US !in e { us := false; }
      if NX in e { nx := true; }
      m2 := m2[i := Perm(rw, us, nx)];
    }
    if D !in entries[0] {
      m2 := m2[0 := m2[0].(rw := false)];
    }
  }

  /** The same as a function. */
  function M2(entries: seq<Word>, i: nat, levels: nat): Perm
    requires levels < |entries| && i <= levels
    decreases levels - i
  {
    var up := if i == levels then Perm(true, true, false) else Above(entries, i + 1, levels);
    var e := entries[i];
    Perm(up.rw && RW in e && (i == 0 ==> D in e), up.us && US in e, up.nx || NX in e)
  }

  /** The accumulated permissions of levels i and up. */
  function Above(entries: seq<Word>, i: nat, levels: nat): Perm
    requires levels < |entries| && i <= levels
    decreases levels - i
  {
    var up := if i == levels then Perm(true, true, false) else Above(entries, i + 1, levels);
    Perm(up.rw && RW in entries[i], up.us && US in entries[i], up.nx || NX in entries[i])
  }

  lemma {:induction false} AboveAllows(entries: seq<Word>, i: nat, levels: nat)
    requires levels < |entries| && i <= levels
    ensures var p := Above(entries, i, levels);
      && (p.rw <==> AllHave(entries, i, levels, RW)) && (p.us <==> AllHave(entries, i, levels, US))
      && (!p.nx <==> forall k :: i <= k <= levels ==> NX !in entries[k])
    decreases levels - i
  {
    if i < levels { AboveAllows(entries, i + 1, levels); }
  }

  lemma M2Allows(entries: seq<Word>, i: nat, levels: nat)
    requires levels < |entries| && i <= levels
    ensures Allows(M2(entries, i, levels), entries, i, levels)
  {
    if i < levels { AboveAllows(entries, i + 1, levels); }
  }

  // ------------------------------------------------------------- set_gfns

  /** The number with the bits of w from n on. */
  function Num(w: Word, n: nat): nat
    decreases 64 - n, w
  {
    if n >= 64 then 0 else (if n in w then Pow(n) else 0) + Num(w, n + 1)
  }

  /** set_gfns for one level: the frame, or None (GFN_GLOBAL or GFN_UNUSED) for a large page;
      w is the physical address width. */
  function Gfn(e: Word, i: nat, w: nat): Option<nat>
    requires w > 0
  {
    if (i == 1 || i == 2) && PS in e then None else Some(Num(Down(e * Bits(12, w - 1), 12), 0))
  }

  method SetGfns(entries: seq<Word>, levels: nat, w: nat) returns (gfns: seq<Option<nat>>)
    requires levels < |entries| && w > 0
    ensures |gfns| == |entries| && forall i :: 0 <= i <= levels ==> gfns[i] == Gfn(entries[i], i, w)
  {
    gfns := seq(|entries|, i => None);
    var i := levels + 1;
    while i > 0
      invariant 0 <= i <= levels + 1 && |gfns| == |entries|
      invariant forall k :: i <= k <= levels ==> gfns[k] == Gfn(entries[k], k, w)
    {
      i := i - 1;
      var e := entries[i];
      if (i == 1 || i == 2) && PS in e {
        gfns := gfns[i := None];
      } else {
        gfns := gfns[i := Some(Num(Down(e * Bits(12, w - 1), 12), 0))];
      }
    }
  }

  /** What cpu_mmu_spt_pagefault passes to map_page. */
  function GuestOf(entries: seq<Word>, levels: nat, w: nat): SptFault.Guest
    requires 1 <= levels < |entries| && w > 0
  {
    var none := Perm(false, false, false);
    SptFault.Guest(Gfn(entries[0], 0, w).value, Gfn(entries[1], 1, w), if levels >= 2 then Gfn(entries[2], 2, w) else None,
                   M2(entries, 0, levels), M2(entries, 1, levels), if levels >= 2 then M2(entries, 2, levels) else none, levels)
  }

  /** The frame of a physical address. */
  function Frame(a: Word, w: nat): nat
    requires w > 0
  {
    Num(Down(a * Bits(12, w - 1), 12), 0)
  }

  // ------------------------------------------------------------- the page fault

  /** No more than the guest's own entries grant. */
  ghost predicate Within(x: SptFault.Xlat, entries: seq<Word>, levels: nat)
    requires levels < |entries|
  {
    && x.Xlat?
    && (x.us ==> AllHave(entries, 0, levels, US))
    && (x.rw ==> AllHave(entries, 0, levels, RW) && D in entries[0])
    && (!x.nx ==> forall k :: 0 <= k <= levels ==> NX !in entries[k])
  }

  /** If a page was mapped, the shadow tables of vcpu c lead from v to frame h, and grant no
      more than the guest's entries. */
  ghost predicate Grants(o: SptFault.Outcome, c: nat, v: nat, entries: seq<Word>, levels: nat, h: nat)
    requires levels < |entries|
  {
    o.Mapped? ==>
      && c < |o.m| && |o.m[c].top| == LazyClear.ENTRIES && SptUpper.Linear(o.m[c], v)
      && Within(SptFault.Walk(o.m[c], v), entries, levels) && SptFault.Walk(o.m[c], v).addr == h
  }

  /** With CR0.WP = 1, right after map_page the shadow tables lead to the guest's frame, grant
      user access only if every guest level does, and write access only if every guest level
      is writable and the guest PTE is dirty. */
  lemma FaultGrants(m: seq<Spt3.Spt>, c: nat, v: nat, entries: seq<Word>, levels: nat, w: nat, a: SptFault.Access, gmm: RwMap.Gmm)
    requires c < |m| && Spt3.Inv(m, gmm) && Spt3.GmmOk(gmm) && SptUpper.Linear(m[c], v) && m[c].wp
    requires 1 <= levels <= 4 && |entries| == 5 && w > 0
    ensures Grants(SptFault.MapPage(m, c, v, GuestOf(entries, levels, w), a, gmm), c, v, entries, levels, gmm.hp(Frame(entries[0], w)))
  {
    SptFault.MapPageSound(m, c, v, GuestOf(entries, levels, w), a, gmm);
    M2Allows(entries, 0, levels);
    M2Allows(entries, 1, levels);
  }

  /** And a write fault, with nothing pending on the vcpu's fail list, then can write if and only
      if every guest level is writable and the PTE dirty. */
  lemma WriteFaultExact(m: seq<Spt3.Spt>, c: nat, v: nat, entries: seq<Word>, levels: nat, w: nat, a: SptFault.Access, gmm: RwMap.Gmm)
    requires c < |m| && Spt3.Inv(m, gmm) && Spt3.GmmOk(gmm) && SptUpper.Linear(m[c], v) && m[c].wp
    requires 1 <= levels <= 4 && |entries| == 5 && w > 0 && a.write && SptGrant.Calm(m[c])
    ensures SptGrant.Gives(SptFault.MapPage(m, c, v, GuestOf(entries, levels, w), a, gmm), c, v,
                           AllHave(entries, 0, levels, RW) && D in entries[0])
  {
    SptGrant.MapPageGrants(m, c, v, GuestOf(entries, levels, w), a, gmm);
    BothLevels(entries, levels, w, a);
  }

  lemma BothLevels(entries: seq<Word>, levels: nat, w: nat, a: SptFault.Access)
    requires 1 <= levels < |entries| && w > 0
    ensures SptGrant.Allowed(true, GuestOf(entries, levels, w), a) <==> AllHave(entries, 0, levels, RW) && D in entries[0]
  {
    M2Allows(entries, 0, levels);
    M2Allows(entries, 1, levels);
  }

  // ------------------------------------------------------------- CR0.WP = 0

  /** The rows of the table that map_page follows with CR0.WP = 0: a page for the supervisor is
      writable; a read-only page of the user stays so, but a write of the supervisor turns it into a
      writable page of the supervisor. */
  lemma NoWpTable(p: Perm, a: SptFault.Access)
    ensures var q := SptFault.NoWp(p, a);
      && q.nx == p.nx
      && (!p.us ==> !q.us && q.rw)
      && (p.us && p.rw ==> q.us && q.rw)
      && (p.us && !p.rw && (a.user || !a.write) ==> q.us && !q.rw)
      && (p.us && !p.rw && !a.user && a.write ==> !q.us && q.rw)
  {
  }

  /** With CR0.WP = 0 the shadow lets the user in only if every guest level does, and lets the user
      write only if every guest level is also writable and the PTE dirty. */
  lemma NoWpGrants(m: seq<Spt3.Spt>, c: nat, v: nat, entries: seq<Word>, levels: nat, w: nat, a: SptFault.Access, gmm: RwMap.Gmm)
    requires c < |m| && Spt3.Inv(m, gmm) && Spt3.GmmOk(gmm) && SptUpper.Linear(m[c], v) && !m[c].wp
    requires 1 <= levels <= 4 && |entries| == 5 && w > 0
    ensures var o := SptFault.MapPage(m, c, v, GuestOf(entries, levels, w), a, gmm);
      o.Mapped? ==>
        && c < |o.m| && |o.m[c].top| == LazyClear.ENTRIES && SptUpper.Linear(o.m[c], v)
        && UserWithin(SptFault.Walk(o.m[c], v), entries, levels)
        && SptFault.Walk(o.m[c], v).addr == gmm.hp(Frame(entries[0], w))
  {
    SptFault.MapPageSound(m, c, v, GuestOf(entries, levels, w), a, gmm);
    M2Allows(entries, 0, levels);
    M2Allows(entries, 1, levels);
    NoWpTable(M2(entries, 0, levels), a);
    NoWpTable(M2(entries, 1, levels), a);
  }

  ghost predicate UserWithin(x: SptFault.Xlat, entries: seq<Word>, levels: nat)
    requires levels < |entries|
  {
    && x.Xlat?
    && (x.us ==> AllHave(entries, 0, levels, US))
    && (x.us && x.rw ==> AllHave(entries, 0, levels, RW) && D in entries[0])
    && (!x.nx ==> forall k :: 0 <= k <= levels ==> NX !in entries[k])
  }

  /** With CR0.WP = 0 a write of the supervisor is always served: the page can then be written. */
  lemma NoWpServes(m: seq<Spt3.Spt>, c: nat, v: nat, g: SptFault.Guest, a: SptFault.Access, gmm: RwMap.Gmm)
    requires c < |m| && Spt3.Inv(m, gmm) && Spt3.GmmOk(gmm) && SptUpper.Linear(m[c], v) && !m[c].wp
    requires a.write && !a.user && SptGrant.Calm(m[c])
    ensures SptGrant.Gives(SptFault.MapPage(m, c, v, g, a, gmm), c, v, true)
  {
    SptGrant.MapPageGrants(m, c, v, g, a, gmm);
    NoWpTable(g.m0, a);
    NoWpTable(g.m1, a);
  }

  /** r is get_pte_sub's answer for virt and p the hardware's. */
  ghost predicate Walked(r: GuestWalk.Result, p: GuestWalk.Arch, virt: Word, cr3: Word, d: GuestWalk.Req, w: nat, mem: PageCursor.Mem)
    requires 32 <= w && PageCursor.Linear(GuestWalk.Levels(d), virt)
  {
    && r == GuestWalk.GetPte(virt, cr3, d, w, mem)
    && p == GuestWalk.ArchWalk(mem, GuestWalk.Levels(d), GuestWalk.Root(cr3, d), GuestWalk.Levels(d) - 1, virt, GuestWalk.Mode(d), w, true)
  }

  lemma WalkedAgrees(r: GuestWalk.Result, p: GuestWalk.Arch, virt: Word, cr3: Word, d: GuestWalk.Req, w: nat, mem: PageCursor.Mem)
    requires d.pg && (d.pae || d.lme) && 32 <= w <= 52 && PageCursor.Linear(GuestWalk.Levels(d), virt)
    requires Walked(r, p, virt, cr3, d, w, mem)
    ensures GuestWalk.Agrees(r, p, virt)
  {
    GuestWalk.GetPteAgrees(virt, cr3, d, w, mem);
  }

  lemma AgreedFault(m: seq<Spt3.Spt>, c: nat, virt: Word, levels: nat, r: GuestWalk.Result, p: GuestWalk.Arch, w: nat,
                    a: SptFault.Access, gmm: RwMap.Gmm)
    requires c < |m| && Spt3.Inv(m, gmm) && Spt3.GmmOk(gmm) && m[c].wp && SptUpper.Linear(m[c], Num(virt, 0))
    requires 1 <= levels <= 4 && 32 <= w <= 52 && GuestWalk.Agrees(r, p, virt) && r.out == GuestWalk.Ok
    ensures p.Page? && |r.entries| == 5
    ensures Grants(SptFault.MapPage(m, c, Num(virt, 0), GuestOf(r.entries, levels, w), a, gmm),
                   c, Num(virt, 0), r.entries, levels, gmm.hp(Frame(p.addr, w)))
  {
    SameFrame(r.entries[0], p, virt, w);
    FaultGrants(m, c, Num(virt, 0), r.entries, levels, w, a, gmm);
  }

  /** The whole path of a fault that the guest's tables allow (PAE or four levels): the shadow
      leads to the host frame of the address the architecture gives. */
  lemma PageFaultReaches(m: seq<Spt3.Spt>, c: nat, virt: Word, cr3: Word, d: GuestWalk.Req, w: nat, mem: PageCursor.Mem,
                         a: SptFault.Access, gmm: RwMap.Gmm, r: GuestWalk.Result, p: GuestWalk.Arch)
    requires c < |m| && Spt3.Inv(m, gmm) && Spt3.GmmOk(gmm) && m[c].wp && SptUpper.Linear(m[c], Num(virt, 0))
    requires d.pg && (d.pae || d.lme) && 32 <= w <= 52 && PageCursor.Linear(GuestWalk.Levels(d), virt)
    requires Walked(r, p, virt, cr3, d, w, mem) && r.out == GuestWalk.Ok
    ensures p.Page? && |r.entries| == 5
    ensures var n := GuestWalk.Levels(d);
      Grants(SptFault.MapPage(m, c, Num(virt, 0), GuestOf(r.entries, n, w), a, gmm),
             c, Num(virt, 0), r.entries, n, gmm.hp(Frame(p.addr, w)))
  {
    WalkedAgrees(r, p, virt, cr3, d, w, mem);
    AgreedFault(m, c, virt, GuestWalk.Levels(d), r, p, w, a, gmm);
  }

  /** What the shadow grants afterwards, the guest's own tables grant: the walk of the SDM for the
      user, write and execute rights of the shadow succeeds. */
  lemma PageFaultRights(m: seq<Spt3.Spt>, c: nat, virt: Word, cr3: Word, d: GuestWalk.Req, w: nat, mem: PageCursor.Mem,
                        a: SptFault.Access, gmm: RwMap.Gmm, r: GuestWalk.Result, o: SptFault.Outcome)
    requires c < |m| && Spt3.Inv(m, gmm) && Spt3.GmmOk(gmm) && m[c].wp && SptUpper.Linear(m[c], Num(virt, 0))
    requires d.pg && d.wp && (d.pae || d.lme) && 32 <= w <= 52 && PageCursor.Linear(GuestWalk.Levels(d), virt)
    requires r == GuestWalk.GetPte(virt, cr3, d, w, mem) && r.out == GuestWalk.Ok && |r.entries| == 5
    requires o == SptFault.MapPage(m, c, Num(virt, 0), GuestOf(r.entries, GuestWalk.Levels(d), w), a, gmm) && o.Mapped?
    ensures c < |o.m| && |o.m[c].top| == LazyClear.ENTRIES && SptUpper.Linear(o.m[c], Num(virt, 0))
    ensures var x := SptFault.Walk(o.m[c], Num(virt, 0)); var n := GuestWalk.Levels(d);
      && x.Xlat?
      && GuestWalk.ArchWalk(mem, n, GuestWalk.Root(cr3, d), n - 1, virt,
                            GuestRights.Asked(GuestWalk.Mode(d), GuestRights.More(x.us, x.rw, !x.nx)), w, false).Page?
  {
    FaultGrants(m, c, Num(virt, 0), r.entries, GuestWalk.Levels(d), w, a, gmm);
    var x := SptFault.Walk(o.m[c], Num(virt, 0));
    EntriesAllow(x, r.entries, GuestWalk.Levels(d), GuestWalk.Mode(d));
    GuestRights.RightsExact(virt, cr3, d, w, mem, GuestRights.More(x.us, x.rw, !x.nx));
  }

  lemma EntriesAllow(x: SptFault.Xlat, entries: seq<Word>, levels: nat, d: GuestWalk.Req)
    requires levels < |entries| && Within(x, entries, levels)
    ensures GuestRights.AllAllow(entries, levels, d, GuestRights.More(x.us, x.rw, !x.nx))
  {
  }

  lemma SameFrame(e: Word, p: GuestWalk.Arch, va: Word, w: nat)
    requires GuestWalk.Describes(e, p, va) && 32 <= w <= 52
    ensures Frame(e, w) == Frame(p.addr, w)
  {
    var x, y := e * Bits(12, w - 1), p.addr * Bits(12, w - 1);
    forall b ensures b in x <==> b in y {
      assert b in PageCursor.PageAddr(e, va, 12) <==> b in p.addr;
    }
    assert x == y;
  }
}
