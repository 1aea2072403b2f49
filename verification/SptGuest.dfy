/** The guest's page tables as the shadow tables see them (cpu_mmu_spt.c, SPT_3): what an entry of a
    shadow page table or directory with a key must say about guest memory. */
module SptGuest {
  import opened Lists
  import opened LazyClear
  import opened ShadowCache
  import opened RwMap
  import opened BackRefs
  import opened SptMap
  import opened SptUpper
  import opened SptFault

  /** An entry of a guest page table or page directory.  `large` says that as a directory entry it
      maps a large page, `base` is then the first frame of that page. */
  datatype Entry = Entry(present: bool, frame: nat, rw: bool, us: bool, nx: bool, dirty: bool, large: bool, base: nat)

  /** The entry at an index of the table in a guest frame. */
  type GuestMem = (nat, nat) -> Entry

  // ------------------------------------------------------------- shadow entries

  /** Rights of a shadow entry against one of the guest's: what the user may do the guest allows,
      and with CR0.WP = 1 nobody may write what the guest protects (with CR0.WP = 0 the supervisor
      may). */
  predicate Bounded(rw: bool, us: bool, nx: bool, wp0: bool, grw: bool, gus: bool, gnx: bool) {
    && (us ==> gus) && (rw && us ==> grw) && (!wp0 ==> (rw ==> grw)) && (!nx ==> !gnx)
  }

  /** A PTE at index e of a shadow page table: with a large key the frame is e frames after that of
      the key, otherwise address and rights are those of the guest's entry. */
  predicate Faithful(p: Pte, key: Key, e: nat, gt: GuestMem, gmm: Gmm) {
    p.Pte? ==>
      if key.large then key.gfn % 512 == 0 && p.addr == gmm.hp(key.gfn + e)
      else
        var x := gt(key.gfn, key.to3 * 512 + e);
        x.present && p.addr == gmm.hp(x.frame) && Bounded(p.rw, p.us, p.nx, key.wp0, x.rw && x.dirty, x.us, x.nx)
  }

  /** Frames in a large page of the guest. */
  function Span(glvl: nat): nat {
    if glvl == 2 then 1024 else 512
  }

  /** The index of the guest's directory entry behind entry e of a shadow page directory: two shadow
      entries share one of a 32-bit guest. */
  function DirIndex(key: Key, e: nat): nat {
    if key.glvl == 2 then key.to3 * 256 + e / 2 else e
  }

  /** Which half of the guest's table or large page entry e is for. */
  function Half(glvl: nat, e: nat): nat {
    if glvl == 2 then e % 2 else 0
  }

  /** The key of the table behind the guest's directory entry x. */
  predicate TableOf(t: Key, x: Entry, glvl: nat, e: nat) {
    if x.large then t.large && x.base % Span(glvl) == 0 && t.gfn == x.base + Half(glvl, e) * 512
    else !t.large && t.gfn == x.frame && t.to3 == Half(glvl, e)
  }

  /** A PDE at index e of a shadow page directory with this key, pointing at a table with key t: it
      is the table of the guest's directory entry, and the rights are within those of that entry and
      of the levels above, which are part of the key. */
  predicate DirFaithful(d: Pde, t: Key, key: Key, e: nat, gt: GuestMem) {
    d.Pde? ==>
      && t.wp0 == key.wp0 && Bounded(d.rw, d.us, d.nx, key.wp0, !key.rw0, !key.us0, key.nx)
      && if key.large then key.gfn % 0x4_0000 == 0 && t.large && t.gfn == key.gfn + 512 * e
         else
           var x := gt(key.gfn, DirIndex(key, e));
           x.present && Bounded(d.rw, d.us, d.nx, key.wp0, x.rw, x.us, x.nx) && TableOf(t, x, key.glvl, e)
  }

  // ------------------------------------------------------------- what a fault brings

  /** Index of v in the guest's page table, and in its page directory. */
  function GuestIndex(glvl: nat, v: nat): nat {
    if glvl == 2 then v / 0x1000 % 1024 else v / 0x1000 % 512
  }

  function GuestDirIndex(glvl: nat, v: nat): nat {
    if glvl == 2 then v / 0x40_0000 % 1024 else v / 0x20_0000 % 512
  }

  /** The guest's entry of v: frame and rights. */
  predicate PteFits(x: Entry, g: Guest) {
    x.present && x.frame == g.gfn0 && (g.m0.rw ==> x.rw && x.dirty) && (g.m0.us ==> x.us) && (!g.m0.nx ==> !x.nx)
  }

  /** The directory entry of v: a table, or a large page that v lies in. */
  predicate PdeFits(x: Entry, g: Guest, v: nat) {
    && x.present && (g.m1.rw ==> x.rw) && (g.m1.us ==> x.us) && (!g.m1.nx ==> !x.nx)
    && if g.gfn1.Some? then !x.large && x.frame == g.gfn1.value
       else x.large && x.base % Span(g.glvl) == 0 && g.gfn0 == x.base + v / 0x1000 % Span(g.glvl)
  }

  /** What map_page is given was read from guest memory. */
  ghost predicate WalkFits(gt: GuestMem, v: nat, g: Guest) {
    && (g.glvl != 1 ==> (g.m1.rw ==> g.m2.rw) && (g.m1.us ==> g.m2.us) && (!g.m1.nx ==> !g.m2.nx))
    && (g.glvl != 1 && g.gfn1.Some? ==> PteFits(gt(g.gfn1.value, GuestIndex(g.glvl, v)), g))
    && (g.glvl != 1 && g.gfn2.Some? ==> PdeFits(gt(g.gfn2.value, GuestDirIndex(g.glvl, v)), g, v))
    && (g.glvl == 1 || g.gfn2.None? ==> (g.glvl != 1 ==> g.gfn1.None?) && g.gfn0 % 0x4_0000 == v / 0x1000 % 0x4_0000)
    && (g.glvl == 1 || g.gfn1.None? ==> g.gfn0 % 0x200 == I1(v))
  }

  // ------------------------------------------------------------- indices

  lemma IndexIs(v: nat)
    ensures v / 0x20_0000 % 2 * 512 + v / 0x1000 % 512 == v / 0x1000 % 1024
  {
    var u := v / 0x1000;
    TwoShifts(v, u, u / 512);
    LastBits(u);
  }

  lemma TwoShifts(v: nat, u: nat, x: nat)
    requires u == v / 0x1000 && x == u / 512
    ensures v / 0x20_0000 == x
  {
    assert 0x1000 * u <= v < 0x1000 * u + 0x1000 && 512 * x <= u < 512 * x + 512;
  }

  lemma LastBits(u: nat)
    ensures u / 512 % 2 * 512 + u % 512 == u % 1024
  {
    var q, r := u / 1024, u % 1024;
    assert u == 1024 * q + r;
  }

  /** The two indices together are the frame within a GiB. */
  lemma TwoIndices(v: nat)
    ensures I2(v) * 512 + I1(v) == v / 0x1000 % 0x4_0000
  {
    var u := v / 0x1000;
    TwoShifts(v, u, u / 512);
    var q, r := u / 0x4_0000, u % 0x4_0000;
    assert u == 0x4_0000 * q + r;
    assert u / 512 == 512 * q + r / 512 && u % 512 == r % 512;
  }

  /** The shadow's indices of v are those of the guest's directory. */
  lemma DirIndexIs(v: nat)
    ensures v / 0x4000_0000 % 4 * 256 + I2(v) / 2 == v / 0x40_0000 % 1024
    ensures I2(v) % 2 == v / 0x20_0000 % 2
  {
    var u := v / 0x20_0000;
    DirShifts(v, u);
    DirBits(u);
  }

  lemma DirShifts(v: nat, u: nat)
    requires u == v / 0x20_0000
    ensures v / 0x40_0000 == u / 2 && v / 0x4000_0000 == u / 512
  {
    assert 0x20_0000 * u <= v < 0x20_0000 * u + 0x20_0000;
    assert 2 * (u / 2) <= u < 2 * (u / 2) + 2 && 512 * (u / 512) <= u < 512 * (u / 512) + 512;
  }

  lemma DirBits(u: nat)
    ensures u / 512 % 4 * 256 + u % 512 / 2 == u / 2 % 1024 && u % 512 % 2 == u % 2
  {
    var x, y := u / 512, u % 512;
    HalfOf(u, x, y);
    QuarterOf(x / 4, x % 4, y / 2, u / 2);
  }

  lemma HalfOf(u: nat, x: nat, y: nat)
    requires u == 512 * x + y && y < 512
    ensures u / 2 == 256 * x + y / 2 && u % 2 == y % 2
  {
  }

  lemma QuarterOf(q: nat, z: nat, h: nat, w: nat)
    requires w == 256 * (4 * q + z) + h && z < 4 && h < 256
    ensures w % 1024 == z * 256 + h
  {
    assert w == 1024 * q + (z * 256 + h);
  }
}
