/** The reverse map of writable shadow PTEs of one vcpu (cpu_mmu_spt.c, SPT_3):
    which PTE maps which guest frame writable, so that a guest frame can be
    write-protected when it becomes a shadowed page table. */
module RwMap {
  import opened Lists
  import opened Tables

  /** A shadow PTE; `Zero` is the all-zero (not present) entry, `addr` a frame number. */
  datatype Pte = Zero | Pte(addr: nat, rw: bool, us: bool, nx: bool, dirty: bool, acc: bool, pwt: bool, pcd: bool, pat: bool)

  /** Guest-physical to host-physical frames (gp2hp); `rom` is the fakerom flag. */
  datatype Gmm = Gmm(hp: nat -> nat, rom: nat -> bool)

  /** PTE_ADDR_MASK64 keeps 36 address bits, so 24 bits of frame number. */
  const FRAMES36: nat := 0x100_0000

  datatype Rwmap = Rwmap(gfn: seq<nat>, fail: seq<bool>, pte: seq<Ptr>, hphys: seq<nat>,
                         failL: seq<nat>, normL: seq<nat>, freeL: seq<nat>, hash: seq<seq<nat>>)

  type Pages = seq<seq<Pte>>

  function Addr(e: Pte): nat {
    if e.Zero? then 0 else e.addr
  }

  predicate Writable(e: Pte) {
    e.Pte? && e.rw
  }

  /** e & ~(PTE_D_BIT | PTE_RW_BIT) */
  function Ro(e: Pte): Pte {
    if e.Zero? then Zero else e.(rw := false, dirty := false)
  }

  /** e & ~PTE_RW_BIT */
  function NoRw(e: Pte): Pte {
    if e.Zero? then Zero else e.(rw := false)
  }

  /** The only thing the reverse map ever does to a PTE: take the RW (and D) bit away. */
  predicate LessPerm(f: Pte, e: Pte) {
    f == e || f == NoRw(e) || f == Ro(e)
  }

  ghost predicate Weaker(r: Pages, page: Pages) {
    && SameShape(r, page)
    && (forall y :: InPages(page, y) ==> LessPerm(Rd(r, y), Rd(page, y)))
  }

  ghost predicate NoWriters(page: Pages, h: nat) {
    forall y :: InPages(page, y) && Writable(Rd(page, y)) ==> Addr(Rd(page, y)) != h
  }

  // ------------------------------------------------------------- invariants

  ghost predicate Bucketed(gfn: seq<nat>, freeL: seq<nat>, hash: seq<seq<nat>>) {
    && |hash| > 0
    && (forall h :: 0 <= h < |hash| ==> NoDup(hash[h]) && Below(hash[h], |gfn|))
    && (forall h, i :: 0 <= h < |hash| && 0 <= i < |gfn| ==>
          (i in hash[h] <==> i !in freeL && gfn[i] % |hash| == h))
  }

  ghost predicate RwFlags(failL: seq<nat>, normL: seq<nat>, fail: seq<bool>) {
    && (forall i :: 0 <= i < |fail| && i in failL ==> fail[i])
    && (forall i :: 0 <= i < |fail| && i in normL ==> !fail[i])
  }

  /** Shape of the reverse map: list partition, fail flag, hash buckets, pointers into
      pages, and recorded host frames that are those of the recorded guest frames. */
  ghost predicate RwInv(rw: Rwmap, page: Pages, gmm: Gmm) {
    && 0 < |rw.gfn| == |rw.fail| == |rw.pte| == |rw.hphys|
    && Parts(rw.failL, rw.normL, rw.freeL, |rw.gfn|)
    && RwFlags(rw.failL, rw.normL, rw.fail)
    && Bucketed(rw.gfn, rw.freeL, rw.hash)
    && (forall i :: 0 <= i < |rw.gfn| && i !in rw.freeL ==>
          InPages(page, rw.pte[i]) && rw.hphys[i] == gmm.hp(rw.gfn[i]) && !gmm.rom(rw.gfn[i]))
  }

  ghost predicate RegBy(rw: Rwmap, i: nat, y: Ptr, h: nat)
    requires |rw.gfn| == |rw.pte| == |rw.hphys|
  {
    i < |rw.gfn| && i !in rw.freeL && rw.pte[i] == y && rw.hphys[i] == h
  }

  /** Every writable PTE other than `x` is registered with its address. */
  ghost predicate RegEx(page: Pages, rw: Rwmap, x: Ptr)
    requires |rw.gfn| == |rw.pte| == |rw.hphys|
  {
    forall y :: InPages(page, y) && y != x && Writable(Rd(page, y)) ==>
      exists i :: RegBy(rw, i, y, Rd(page, y).addr)
  }

  ghost predicate Reg(page: Pages, rw: Rwmap)
    requires |rw.gfn| == |rw.pte| == |rw.hphys|
  {
    forall y :: InPages(page, y) && Writable(Rd(page, y)) ==> exists i :: RegBy(rw, i, y, Rd(page, y).addr)
  }

  lemma RegNowhere(page: Pages, rw: Rwmap)
    requires |rw.gfn| == |rw.pte| == |rw.hphys|
    ensures RegEx(page, rw, Ptr(|page|, 0)) <==> Reg(page, rw)
  {
  }

  // ------------------------------------------------------------- list moves

  /** Unlink from list and bucket, then PUSH on the free list. */
  function Drop(rw: Rwmap, i: nat): Rwmap
    requires i < |rw.gfn| && |rw.hash| > 0
  {
    var h := rw.gfn[i] % |rw.hash|;
    rw.(failL := Del(rw.failL, i), normL := Del(rw.normL, i), freeL := [i] + rw.freeL,
        hash := rw.hash[h := Del(rw.hash[h], i)])
  }

  lemma DropSound(rw: Rwmap, i: nat, page: Pages, gmm: Gmm)
    requires RwInv(rw, page, gmm) && i < |rw.gfn| && i !in rw.freeL
    ensures RwInv(Drop(rw, i), page, gmm)
    ensures forall k :: 0 <= k < |rw.gfn| ==> (k in Drop(rw, i).freeL <==> k in rw.freeL || k == i)
  {
    var h := rw.gfn[i] % |rw.hash|;
    DelNoDup(rw.failL, i); DelBelow(rw.failL, i, |rw.gfn|);
    DelNoDup(rw.normL, i); DelBelow(rw.normL, i, |rw.gfn|);
    DelNoDup(rw.hash[h], i); DelBelow(rw.hash[h], i, |rw.gfn|);
    AddNoDup(rw.freeL, i);
  }

  /** Take slot i from the free list and register (gfn, y, h) in it. */
  function Enroll(rw: Rwmap, i: nat, g: nat, y: Ptr, h: nat): Rwmap
    requires i < |rw.gfn| == |rw.fail| == |rw.pte| == |rw.hphys| && |rw.hash| > 0
  {
    var b := g % |rw.hash|;
    rw.(freeL := Del(rw.freeL, i), normL := rw.normL + [i], hash := rw.hash[b := [i] + rw.hash[b]],
        gfn := rw.gfn[i := g], fail := rw.fail[i := false], pte := rw.pte[i := y], hphys := rw.hphys[i := h])
  }

  lemma EnrollSound(rw: Rwmap, i: nat, g: nat, y: Ptr, h: nat, page: Pages, gmm: Gmm)
    requires RwInv(rw, page, gmm) && i < |rw.gfn| && i in rw.freeL
    requires InPages(page, y) && h == gmm.hp(g) && !gmm.rom(g)
    ensures RwInv(Enroll(rw, i, g, y, h), page, gmm)
    ensures forall k :: 0 <= k < |rw.gfn| ==> (k in Enroll(rw, i, g, y, h).freeL <==> k in rw.freeL && k != i)
  {
    var b := g % |rw.hash|;
    DelNoDup(rw.freeL, i); DelBelow(rw.freeL, i, |rw.gfn|);
    AddNoDup(rw.normL, i);
    AddNoDup(rw.hash[b], i);
  }

  lemma EnrollReg(page: Pages, rw: Rwmap, i: nat, g: nat, y: Ptr, h: nat, gmm: Gmm)
    requires RwInv(rw, page, gmm) && i < |rw.gfn| && i in rw.freeL && RegEx(page, rw, y)
    requires InPages(page, y) && (Writable(Rd(page, y)) ==> Addr(Rd(page, y)) == h)
    ensures Reg(page, Enroll(rw, i, g, y, h))
  {
    DelNoDup(rw.freeL, i);
    var d := Enroll(rw, i, g, y, h);
    forall z | InPages(page, z) && Writable(Rd(page, z)) ensures exists k :: RegBy(d, k, z, Rd(page, z).addr) {
      if z == y {
        assert RegBy(d, i, z, Rd(page, z).addr);
      } else {
        var k :| RegBy(rw, k, z, Rd(page, z).addr);
        assert RegBy(d, k, z, Rd(page, z).addr);
      }
    }
  }

  /** Write-protect the PTE recorded in slot i if it still holds the recorded frame;
      `frames` is the range of frame numbers the comparison mask can express. */
  function Weaken(page: Pages, y: Ptr, h: nat, masked: bool): Pages
    requires InPages(page, y)
  {
    var a := Addr(Rd(page, y));
    if (if masked then a % FRAMES36 else a) == h then Wr(page, y, Ro(Rd(page, y))) else page
  }

  lemma WeakenWeaker(page: Pages, y: Ptr, h: nat, masked: bool)
    requires InPages(page, y)
    ensures Weaker(Weaken(page, y, h, masked), page)
  {
  }

  /** Forgetting a slot is safe because its PTE is write-protected or holds another frame. */
  lemma DropReg(page: Pages, rw: Rwmap, i: nat, masked: bool, x: Ptr, gmm: Gmm)
    requires RwInv(rw, page, gmm) && i < |rw.gfn| && i !in rw.freeL && RegEx(page, rw, x)
    requires masked ==> rw.hphys[i] < FRAMES36
    ensures RegEx(Weaken(page, rw.pte[i], rw.hphys[i], masked), Drop(rw, i), x)
  {
    var r := Weaken(page, rw.pte[i], rw.hphys[i], masked);
    var d := Drop(rw, i);
    forall z | InPages(r, z) && z != x && Writable(Rd(r, z)) ensures exists k :: RegBy(d, k, z, Rd(r, z).addr) {
      assert Rd(r, z) == Rd(page, z);
      var k :| RegBy(rw, k, z, Rd(page, z).addr);
      assert k != i;
      assert RegBy(d, k, z, Rd(r, z).addr);
    }
  }

  /** RwInv only looks at the shape of the pages. */
  lemma RwInvShape(rw: Rwmap, page: Pages, r: Pages, gmm: Gmm)
    requires RwInv(rw, page, gmm) && Weaker(r, page)
    ensures RwInv(rw, r, gmm)
  {
  }

  lemma WeakerTrans(a: Pages, b: Pages, c: Pages)
    requires Weaker(a, b) && Weaker(b, c)
    ensures Weaker(a, c)
  {
  }

  lemma WeakerNoWriters(a: Pages, b: Pages, h: nat)
    requires Weaker(a, b) && NoWriters(b, h)
    ensures NoWriters(a, h)
  {
    forall y | InPages(a, y) && Writable(Rd(a, y)) ensures Addr(Rd(a, y)) != h {
      assert LessPerm(Rd(a, y), Rd(b, y));
    }
  }

  // ------------------------------------------------------------- update_rwmap

  datatype Drained = Drained(page: Pages, rw: Rwmap, changed: bool)

  /** The loop over rwmap_fail in update_rwmap. */
  function Drain(page: Pages, rw: Rwmap, gmm: Gmm): Drained
    requires RwInv(rw, page, gmm)
    decreases |rw.failL|
  {
    if rw.failL == [] then Drained(page, rw, false)
    else
      var i := rw.failL[0];
      assert i in rw.failL;
      DropSound(rw, i, page, gmm);
      var p := Weaken(page, rw.pte[i], rw.hphys[i], false);
      WeakenWeaker(page, rw.pte[i], rw.hphys[i], false);
      RwInvShape(Drop(rw, i), page, p, gmm);
      var d := Drain(p, Drop(rw, i), gmm);
      d.(changed := d.changed || Addr(Rd(page, rw.pte[i])) == rw.hphys[i])
  }

  /** Draining keeps everything registered, empties the fail list, and reports "nothing
      changed" (no TLB flush needed) only if no PTE was touched. */
  lemma {:induction false} DrainSound(page: Pages, rw: Rwmap, x: Ptr, gmm: Gmm)
    requires RwInv(rw, page, gmm) && RegEx(page, rw, x)
    ensures var d := Drain(page, rw, gmm);
      && RwInv(d.rw, d.page, gmm) && RegEx(d.page, d.rw, x) && Weaker(d.page, page)
      && d.rw.failL == [] && |d.rw.gfn| == |rw.gfn|
      && (!d.changed ==> d.page == page)
    decreases |rw.failL|
  {
    if rw.failL != [] {
      var i := rw.failL[0];
      assert i in rw.failL;
      DropSound(rw, i, page, gmm);
      DropReg(page, rw, i, false, x, gmm);
      var p := Weaken(page, rw.pte[i], rw.hphys[i], false);
      WeakenWeaker(page, rw.pte[i], rw.hphys[i], false);
      RwInvShape(Drop(rw, i), page, p, gmm);
      DrainSound(p, Drop(rw, i), x, gmm);
      WeakerTrans(Drain(p, Drop(rw, i), gmm).page, p, page);
    }
  }

  /** Search the bucket for a slot of this PTE. */
  function FindPte(pte: seq<Ptr>, todo: seq<nat>, y: Ptr): (r: int)
    requires Below(todo, |pte|)
    ensures r >= 0 ==> r < |pte| && r as nat in todo && pte[r] == y
  {
    if todo == [] then -1
    else if pte[todo[0]] == y then todo[0]
    else FindPte(pte, todo[1..], y)
  }

  /** update_rwmap (cspt, gfn, pte, hphys) with pte != NULL */
  function Update(page: Pages, rw: Rwmap, g: nat, y: Ptr, h: nat, gmm: Gmm): Drained
    requires RwInv(rw, page, gmm) && InPages(page, y)
  {
    DrainShape(page, rw, gmm);
    Place(Drain(page, rw, gmm), g, y, h, gmm)
  }

  /** update_rwmap once the fail list is empty: a slot of this PTE, else a free one, else
      the oldest normal one. */
  function Place(d: Drained, g: nat, y: Ptr, h: nat, gmm: Gmm): Drained
    requires RwInv(d.rw, d.page, gmm) && d.rw.failL == []
  {
    var j := FindPte(d.rw.pte, d.rw.hash[g % |d.rw.hash|], y);
    if j >= 0 then
      d.(rw := Enroll(Drop(d.rw, j), j, g, y, h))
    else if d.rw.freeL != [] then
      d.(rw := Enroll(d.rw, d.rw.freeL[0], g, y, h))
    else
      NormalLeft(d.rw, d.page, gmm);
      var i := d.rw.normL[0];
      d.(page := Weaken(d.page, d.rw.pte[i], d.rw.hphys[i], false), rw := Enroll(Drop(d.rw, i), i, g, y, h))
  }

  lemma {:induction false} DrainShape(page: Pages, rw: Rwmap, gmm: Gmm)
    requires RwInv(rw, page, gmm)
    ensures var d := Drain(page, rw, gmm); RwInv(d.rw, d.page, gmm) && Weaker(d.page, page) && d.rw.failL == []
    decreases |rw.failL|
  {
    if rw.failL != [] {
      var i := rw.failL[0];
      assert i in rw.failL;
      DropSound(rw, i, page, gmm);
      var p := Weaken(page, rw.pte[i], rw.hphys[i], false);
      WeakenWeaker(page, rw.pte[i], rw.hphys[i], false);
      RwInvShape(Drop(rw, i), page, p, gmm);
      DrainShape(p, Drop(rw, i), gmm);
      WeakerTrans(Drain(p, Drop(rw, i), gmm).page, p, page);
    }
  }

  /** The POP of rwmap_normal after an empty free list never yields NULL. */
  lemma NormalLeft(rw: Rwmap, page: Pages, gmm: Gmm)
    requires RwInv(rw, page, gmm) && rw.failL == [] && rw.freeL == []
    ensures rw.normL != [] && rw.normL[0] < |rw.gfn| && rw.normL[0] !in rw.freeL
  {
    assert 0 in rw.normL;
  }

  /** update_rwmap registers the PTE just written and loses no other registration,
      through eviction, reuse of a stale slot, and a full table. */
  lemma UpdateSound(page: Pages, rw: Rwmap, g: nat, y: Ptr, h: nat, gmm: Gmm)
    requires RwInv(rw, page, gmm) && InPages(page, y) && RegEx(page, rw, y)
    requires h == gmm.hp(g) && !gmm.rom(g) && Addr(Rd(page, y)) == h
    ensures var u := Update(page, rw, g, y, h, gmm); Updated(u.page, u.rw, page, g, y, gmm)
  {
    DrainSound(page, rw, y, gmm);
    PlaceSound(page, Drain(page, rw, gmm), g, y, h, gmm);
  }

  lemma PlaceSound(page: Pages, d: Drained, g: nat, y: Ptr, h: nat, gmm: Gmm)
    requires RwInv(d.rw, d.page, gmm) && d.rw.failL == [] && RegEx(d.page, d.rw, y) && Weaker(d.page, page)
    requires InPages(page, y) && Addr(Rd(page, y)) == h == gmm.hp(g) && !gmm.rom(g)
    ensures var u := Place(d, g, y, h, gmm); Updated(u.page, u.rw, page, g, y, gmm)
  {
    var b := d.rw.hash[g % |d.rw.hash|];
    var j := FindPte(d.rw.pte, b, y);
    if j >= 0 {
      var i: nat := j;
      assert i in b;
      ReuseSlot(page, d.page, d.rw, i, g, y, h, gmm);
    } else if d.rw.freeL != [] {
      assert d.rw.freeL[0] in d.rw.freeL;
      Register(page, d.page, d.rw, d.rw.freeL[0], g, y, h, gmm);
    } else {
      NormalLeft(d.rw, d.page, gmm);
      EvictSlot(page, d.page, d.rw, d.rw.normL[0], g, y, h, gmm);
    }
  }

  lemma ReuseSlot(page: Pages, p: Pages, rw: Rwmap, i: nat, g: nat, y: Ptr, h: nat, gmm: Gmm)
    requires RwInv(rw, p, gmm) && RegEx(p, rw, y) && Weaker(p, page) && i < |rw.gfn| && i !in rw.freeL && rw.pte[i] == y
    requires InPages(page, y) && Addr(Rd(page, y)) == h == gmm.hp(g) && !gmm.rom(g)
    ensures Updated(p, Enroll(Drop(rw, i), i, g, y, h), page, g, y, gmm)
  {
    DropSound(rw, i, p, gmm);
    DropPteReg(p, rw, i, y, gmm);
    Register(page, p, Drop(rw, i), i, g, y, h, gmm);
  }

  lemma EvictSlot(page: Pages, q: Pages, rw: Rwmap, i: nat, g: nat, y: Ptr, h: nat, gmm: Gmm)
    requires RwInv(rw, q, gmm) && RegEx(q, rw, y) && Weaker(q, page) && i < |rw.gfn| && i !in rw.freeL
    requires InPages(page, y) && Addr(Rd(page, y)) == h == gmm.hp(g) && !gmm.rom(g)
    ensures Updated(Weaken(q, rw.pte[i], rw.hphys[i], false), Enroll(Drop(rw, i), i, g, y, h), page, g, y, gmm)
  {
    var p := Weaken(q, rw.pte[i], rw.hphys[i], false);
    DropSound(rw, i, q, gmm);
    DropReg(q, rw, i, false, y, gmm);
    WeakenWeaker(q, rw.pte[i], rw.hphys[i], false);
    RwInvShape(Drop(rw, i), q, p, gmm);
    WeakerTrans(p, q, page);
    Register(page, p, Drop(rw, i), i, g, y, h, gmm);
  }

  /** PTE y is registered first in its bucket, and so is every other writable PTE. */
  ghost predicate Updated(p: Pages, rw: Rwmap, page: Pages, g: nat, y: Ptr, gmm: Gmm) {
    && RwInv(rw, p, gmm) && Reg(p, rw) && Weaker(p, page)
    && rw.hash[g % |rw.hash|] != []
    && (var q := rw.hash[g % |rw.hash|][0];
        q < |rw.gfn| && q !in rw.freeL && rw.gfn[q] == g && rw.pte[q] == y)
  }

  lemma Register(page: Pages, p: Pages, rw: Rwmap, i: nat, g: nat, y: Ptr, h: nat, gmm: Gmm)
    requires RwInv(rw, p, gmm) && RegEx(p, rw, y) && Weaker(p, page) && i < |rw.gfn| && i in rw.freeL
    requires InPages(page, y) && Addr(Rd(page, y)) == h == gmm.hp(g) && !gmm.rom(g)
    ensures Updated(p, Enroll(rw, i, g, y, h), page, g, y, gmm)
  {
    assert InPages(p, y) && LessPerm(Rd(p, y), Rd(page, y));
    EnrollSound(rw, i, g, y, h, p, gmm);
    EnrollReg(p, rw, i, g, y, h, gmm);
  }

  /** Dropping a slot of PTE y leaves every other PTE registered. */
  lemma DropPteReg(page: Pages, rw: Rwmap, i: nat, y: Ptr, gmm: Gmm)
    requires RwInv(rw, page, gmm) && i < |rw.gfn| && i !in rw.freeL && rw.pte[i] == y && RegEx(page, rw, y)
    ensures RegEx(page, Drop(rw, i), y)
  {
    var d := Drop(rw, i);
    forall z | InPages(page, z) && z != y && Writable(Rd(page, z)) ensures exists k :: RegBy(d, k, z, Rd(page, z).addr) {
      var k :| RegBy(rw, k, z, Rd(page, z).addr);
      assert RegBy(d, k, z, Rd(page, z).addr);
    }
  }

  // ------------------------------------------------------------- update_shadow, read-only case

  /** The tail of update_shadow: forget the slot at the head of the bucket if it is
      the one of this PTE, and take RW away from the PTE. */
  function Forget(page: Pages, rw: Rwmap, g: nat, y: Ptr): (Pages, Rwmap)
    requires InPages(page, y) && |rw.hash| > 0 && |rw.pte| == |rw.gfn|
    requires forall h :: 0 <= h < |rw.hash| ==> Below(rw.hash[h], |rw.gfn|)
  {
    var b := rw.hash[g % |rw.hash|];
    assert Below(b, |rw.gfn|);
    (Wr(page, y, NoRw(Rd(page, y))),
     if b != [] && rw.gfn[b[0]] == g && rw.pte[b[0]] == y then Drop(rw, b[0]) else rw)
  }

  lemma ForgetSound(page: Pages, rw: Rwmap, g: nat, y: Ptr, gmm: Gmm)
    requires RwInv(rw, page, gmm) && InPages(page, y) && Reg(page, rw)
    ensures var f := Forget(page, rw, g, y);
      RwInv(f.1, f.0, gmm) && Reg(f.0, f.1) && Weaker(f.0, page) && !Writable(Rd(f.0, y))
  {
    var b := rw.hash[g % |rw.hash|];
    var f := Forget(page, rw, g, y);
    if b != [] && rw.gfn[b[0]] == g && rw.pte[b[0]] == y {
      assert b[0] in b;
      DropSound(rw, b[0], page, gmm);
      DropPteReg(page, rw, b[0], y, gmm);
    }
    RwInvShape(f.1, page, f.0, gmm);
    forall z | InPages(f.0, z) && Writable(Rd(f.0, z)) ensures exists k :: RegBy(f.1, k, z, Rd(f.0, z).addr) {
      assert z != y && Rd(f.0, z) == Rd(page, z);
    }
  }

  // ------------------------------------------------------------- makerdonly

  /** LIST3_DEL from normal, LIST3_ADD to fail, gfn |= 1 */
  function MoveToFail(rw: Rwmap, i: nat): Rwmap
    requires i < |rw.fail|
  {
    if rw.fail[i] then rw
    else rw.(normL := Del(rw.normL, i), failL := rw.failL + [i], fail := rw.fail[i := true])
  }

  lemma MoveToFailSound(rw: Rwmap, i: nat, page: Pages, gmm: Gmm)
    requires RwInv(rw, page, gmm) && i < |rw.gfn| && i !in rw.freeL
    ensures RwInv(MoveToFail(rw, i), page, gmm)
  {
    if !rw.fail[i] {
      assert i in rw.normL;
      DelNoDup(rw.normL, i); DelBelow(rw.normL, i, |rw.gfn|);
      AddNoDup(rw.failL, i);
    }
  }

  datatype Protected = Protected(page: Pages, rw: Rwmap, ok: bool)

  ghost predicate Pending(page: Pages, rw: Rwmap, todo: seq<nat>, g: nat, h: nat)
    requires |rw.gfn| == |rw.pte| == |rw.hphys| && Below(todo, |rw.gfn|)
  {
    forall y :: InPages(page, y) && Writable(Rd(page, y)) && Addr(Rd(page, y)) == h ==>
      exists k :: 0 <= k < |todo| && RegBy(rw, todo[k], y, h) && rw.gfn[todo[k]] == g
  }

  ghost predicate Live(rw: Rwmap, todo: seq<nat>) {
    NoDup(todo) && Below(todo, |rw.gfn|) && forall k :: 0 <= k < |todo| ==> todo[k] !in rw.freeL
  }

  predicate Blocked(page: Pages, rw: Rwmap, i: nat, own: bool)
    requires i < |rw.pte| == |rw.hphys| && InPages(page, rw.pte[i])
  {
    var e := Rd(page, rw.pte[i]);
    !own && Addr(e) % FRAMES36 == rw.hphys[i] && e.Pte? && e.dirty
  }

  /** makerdonly on one vcpu: the loop over the bucket of g (own: is it the current vcpu's?). */
  function ProtectIn(page: Pages, rw: Rwmap, todo: seq<nat>, g: nat, own: bool, gmm: Gmm): Protected
    requires RwInv(rw, page, gmm) && Live(rw, todo)
    decreases |todo|
  {
    if todo == [] then Protected(page, rw, true)
    else if rw.gfn[todo[0]] != g then ProtectIn(page, rw, todo[1..], g, own, gmm)
    else
      var i := todo[0];
      var m := MoveToFail(rw, i);
      MoveToFailSound(rw, i, page, gmm);
      if Blocked(page, rw, i, own) then
        ProtectIn(page, m, todo[1..], g, own, gmm).(ok := false)
      else
        DropSound(m, i, page, gmm);
        var p := Weaken(page, rw.pte[i], rw.hphys[i], true);
        WeakenWeaker(page, rw.pte[i], rw.hphys[i], true);
        RwInvShape(Drop(m, i), page, p, gmm);
        ProtectIn(p, Drop(m, i), todo[1..], g, own, gmm)
  }

  lemma {:induction false} ProtectInSound(page: Pages, rw: Rwmap, todo: seq<nat>, g: nat, own: bool, gmm: Gmm)
    requires RwInv(rw, page, gmm) && Live(rw, todo) && Reg(page, rw) && gmm.hp(g) < FRAMES36
    ensures var r := ProtectIn(page, rw, todo, g, own, gmm);
      && RwInv(r.rw, r.page, gmm) && Reg(r.page, r.rw) && Weaker(r.page, page)
      && (own ==> r.ok)
      && (r.ok && Pending(page, rw, todo, g, gmm.hp(g)) ==> NoWriters(r.page, gmm.hp(g)))
    decreases |todo|
  {
    if todo == [] {
    } else if rw.gfn[todo[0]] != g {
      ProtectInSound(page, rw, todo[1..], g, own, gmm);
      PendingTail(page, rw, todo, g, gmm.hp(g), page, rw);
    } else {
      var i := todo[0];
      var m := MoveToFail(rw, i);
      MoveToFailSound(rw, i, page, gmm);
      if Blocked(page, rw, i, own) {
        RegCarry(page, rw, m);
        ProtectInSound(page, m, todo[1..], g, own, gmm);
      } else {
        var d := Drop(m, i);
        var p := Weaken(page, rw.pte[i], rw.hphys[i], true);
        ProtectStep(page, rw, i, gmm);
        LiveTail(rw, todo, d);
        ProtectInSound(p, d, todo[1..], g, own, gmm);
        PendingTail(page, rw, todo, g, gmm.hp(g), p, d);
        WeakerTrans(ProtectIn(p, d, todo[1..], g, own, gmm).page, p, page);
      }
    }
  }

  lemma RegCarry(page: Pages, rw: Rwmap, m: Rwmap)
    requires |rw.gfn| == |rw.pte| == |rw.hphys| && Reg(page, rw)
    requires m.gfn == rw.gfn && m.pte == rw.pte && m.hphys == rw.hphys && m.freeL == rw.freeL
    ensures Reg(page, m)
  {
    forall z | InPages(page, z) && Writable(Rd(page, z)) ensures exists k :: RegBy(m, k, z, Rd(page, z).addr) {
      var k :| RegBy(rw, k, z, Rd(page, z).addr);
      assert RegBy(m, k, z, Rd(page, z).addr);
    }
  }

  lemma ProtectStep(page: Pages, rw: Rwmap, i: nat, gmm: Gmm)
    requires RwInv(rw, page, gmm) && i < |rw.gfn| && i !in rw.freeL && Reg(page, rw) && rw.hphys[i] < FRAMES36
    ensures var m := MoveToFail(rw, i); var p := Weaken(page, rw.pte[i], rw.hphys[i], true);
      && RwInv(Drop(m, i), p, gmm) && Reg(p, Drop(m, i)) && Weaker(p, page)
      && (forall k :: 0 <= k < |rw.gfn| ==> (k in Drop(m, i).freeL <==> k in rw.freeL || k == i))
  {
    var m := MoveToFail(rw, i);
    MoveToFailSound(rw, i, page, gmm);
    RegCarry(page, rw, m);
    DropSound(m, i, page, gmm);
    var p := Weaken(page, rw.pte[i], rw.hphys[i], true);
    RegNowhere(page, m);
    DropReg(page, m, i, true, Ptr(|page|, 0), gmm);
    RegNowhere(p, Drop(m, i));
    WeakenWeaker(page, rw.pte[i], rw.hphys[i], true);
    RwInvShape(Drop(m, i), page, p, gmm);
  }

  lemma LiveTail(rw: Rwmap, todo: seq<nat>, d: Rwmap)
    requires Live(rw, todo) && todo != [] && |d.gfn| == |rw.gfn|
    requires forall k :: 0 <= k < |rw.gfn| ==> (k in d.freeL <==> k in rw.freeL || k == todo[0])
    ensures Live(d, todo[1..])
  {
    forall k | 0 <= k < |todo[1..]| ensures todo[1..][k] !in d.freeL {
      assert todo[1..][k] == todo[k + 1];
    }
  }

  /** What is still writable after the head of the bucket was handled is pending in the rest. */
  lemma PendingTail(page: Pages, rw: Rwmap, todo: seq<nat>, g: nat, h: nat, p: Pages, d: Rwmap)
    requires |rw.gfn| == |rw.pte| == |rw.hphys| && Live(rw, todo) && todo != [] && h < FRAMES36
    requires |d.gfn| == |d.pte| == |d.hphys| && Below(todo[1..], |d.gfn|)
    requires d.gfn == rw.gfn && d.pte == rw.pte && d.hphys == rw.hphys
    requires (p == page && d == rw && rw.gfn[todo[0]] != g)
          || (InPages(page, rw.pte[todo[0]]) && p == Weaken(page, rw.pte[todo[0]], rw.hphys[todo[0]], true)
              && forall k :: 0 <= k < |rw.gfn| ==> (k in d.freeL <==> k in rw.freeL || k == todo[0]))
    ensures Pending(page, rw, todo, g, h) ==> Pending(p, d, todo[1..], g, h)
  {
    if Pending(page, rw, todo, g, h) {
      forall y | InPages(p, y) && Writable(Rd(p, y)) && Addr(Rd(p, y)) == h
        ensures exists k :: 0 <= k < |todo[1..]| && RegBy(d, todo[1..][k], y, h) && d.gfn[todo[1..][k]] == g
      {
        assert Rd(p, y) == Rd(page, y);
        var k :| 0 <= k < |todo| && RegBy(rw, todo[k], y, h) && rw.gfn[todo[k]] == g;
        assert k != 0;
        assert todo[1..][k - 1] == todo[k];
        assert RegBy(d, todo[1..][k - 1], y, h);
      }
    }
  }

  function Protect(page: Pages, rw: Rwmap, g: nat, own: bool, gmm: Gmm): Protected
    requires RwInv(rw, page, gmm)
  {
    BucketLive(rw, page, g, gmm);
    ProtectIn(page, rw, rw.hash[g % |rw.hash|], g, own, gmm)
  }

  lemma BucketLive(rw: Rwmap, page: Pages, g: nat, gmm: Gmm)
    requires RwInv(rw, page, gmm)
    ensures Live(rw, rw.hash[g % |rw.hash|])
  {
    var b := rw.hash[g % |rw.hash|];
    forall k | 0 <= k < |b| ensures b[k] !in rw.freeL { assert b[k] in b; }
  }

  /** A host frame backs at most one guest frame that can be mapped writable. */
  ghost predicate Injective(gmm: Gmm) {
    forall a, b :: !gmm.rom(b) && gmm.hp(a) == gmm.hp(b) ==> a == b
  }

  /** makerdonly on one vcpu: if it reports success, no PTE of that vcpu maps the host
      page of g writable any more; on the current vcpu it always succeeds. */
  lemma ProtectSound(page: Pages, rw: Rwmap, g: nat, own: bool, gmm: Gmm)
    requires RwInv(rw, page, gmm) && Reg(page, rw) && Injective(gmm) && gmm.hp(g) < FRAMES36
    ensures var r := Protect(page, rw, g, own, gmm);
      && RwInv(r.rw, r.page, gmm) && Reg(r.page, r.rw) && Weaker(r.page, page)
      && (own ==> r.ok) && (r.ok ==> NoWriters(r.page, gmm.hp(g)))
  {
    BucketLive(rw, page, g, gmm);
    var b := rw.hash[g % |rw.hash|];
    ProtectInSound(page, rw, b, g, own, gmm);
    forall y | InPages(page, y) && Writable(Rd(page, y)) && Addr(Rd(page, y)) == gmm.hp(g)
      ensures exists k :: 0 <= k < |b| && RegBy(rw, b[k], y, gmm.hp(g)) && rw.gfn[b[k]] == g
    {
      var i: nat :| RegBy(rw, i, y, Rd(page, y).addr);
      assert rw.gfn[i] == g;
      assert i in b;
      var k :| 0 <= k < |b| && b[k] == i;
    }
  }

  // ------------------------------------------------------------- beyond 36 bits

  /** makerdonly compares the address through a 36-bit mask: a frame beyond it never matches,
      so its PTEs are left as they are and still forgotten. */
  lemma {:induction false} ProtectInHigh(page: Pages, rw: Rwmap, todo: seq<nat>, g: nat, own: bool, gmm: Gmm)
    requires RwInv(rw, page, gmm) && Live(rw, todo) && gmm.hp(g) >= FRAMES36
    ensures var r := ProtectIn(page, rw, todo, g, own, gmm); r.page == page && r.ok
    decreases |todo|
  {
    if todo != [] {
      if rw.gfn[todo[0]] != g {
        ProtectInHigh(page, rw, todo[1..], g, own, gmm);
      } else {
        var i := todo[0];
        var m := MoveToFail(rw, i);
        MoveToFailSound(rw, i, page, gmm);
        DropSound(m, i, page, gmm);
        LiveTail(rw, todo, Drop(m, i));
        HighUntouched(page, rw, i);
        ProtectInHigh(page, Drop(m, i), todo[1..], g, own, gmm);
      }
    }
  }

  lemma HighUntouched(page: Pages, rw: Rwmap, i: nat)
    requires i < |rw.pte| == |rw.hphys| && InPages(page, rw.pte[i]) && rw.hphys[i] >= FRAMES36
    ensures !Blocked(page, rw, i, true) && !Blocked(page, rw, i, false) && Weaken(page, rw.pte[i], rw.hphys[i], true) == page
  {
  }

  /** So the table's host page ends up without writers if and only if it lies below 2^36 or
      had none before. */
  lemma ProtectExact(page: Pages, rw: Rwmap, g: nat, gmm: Gmm)
    requires RwInv(rw, page, gmm) && Reg(page, rw) && Injective(gmm)
    ensures var r := Protect(page, rw, g, true, gmm);
      r.ok && (NoWriters(r.page, gmm.hp(g)) <==> gmm.hp(g) < FRAMES36 || NoWriters(page, gmm.hp(g)))
  {
    if gmm.hp(g) < FRAMES36 {
      ProtectSound(page, rw, g, true, gmm);
    } else {
      BucketLive(rw, page, g, gmm);
      ProtectInHigh(page, rw, rw.hash[g % |rw.hash|], g, true, gmm);
    }
  }

  /** A guest table at 2^36 that is mapped writable stays writable. */
  lemma HighFrameStaysWritable()
    ensures var gmm := Gmm(g => g + FRAMES36, g => false);
      var page := [[Pte(FRAMES36, true, true, false, false, true, false, false, false)]];
      var rw := Rwmap([0], [false], [Ptr(0, 0)], [FRAMES36], [], [0], [], [[0]]);
      && RwInv(rw, page, gmm) && Reg(page, rw) && Injective(gmm)
      && Protect(page, rw, 0, true, gmm).ok && !NoWriters(Protect(page, rw, 0, true, gmm).page, gmm.hp(0))
  {
    var gmm := Gmm(g => g + FRAMES36, g => false);
    var page := [[Pte(FRAMES36, true, true, false, false, true, false, false, false)]];
    var rw := Rwmap([0], [false], [Ptr(0, 0)], [FRAMES36], [], [0], [], [[0]]);
    OneWriter(page, rw, gmm);
    ProtectExact(page, rw, 0, gmm);
  }

  lemma OneWriter(page: Pages, rw: Rwmap, gmm: Gmm)
    requires gmm == Gmm(g => g + FRAMES36, g => false)
    requires page == [[Pte(FRAMES36, true, true, false, false, true, false, false, false)]]
    requires rw == Rwmap([0], [false], [Ptr(0, 0)], [FRAMES36], [], [0], [], [[0]])
    ensures RwInv(rw, page, gmm) && Reg(page, rw) && Injective(gmm) && !NoWriters(page, gmm.hp(0))
  {
    assert RegBy(rw, 0, Ptr(0, 0), FRAMES36);
    forall y | InPages(page, y) && Writable(Rd(page, y)) ensures exists i :: RegBy(rw, i, y, Rd(page, y).addr) {
      assert y == Ptr(0, 0);
    }
    assert InPages(page, Ptr(0, 0)) && Writable(Rd(page, Ptr(0, 0)));
  }
}
