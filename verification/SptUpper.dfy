/** The upper levels of the shadow tables: mapsub and setpdpe (cpu_mmu_spt.c, SPT_3). */
module SptUpper {
  import opened Lists
  import opened Tables
  import opened LazyClear
  import opened ShadowCache
  import opened RwMap
  import opened BackRefs
  import opened Spt3
  import opened SptMap

  function I1(v: nat): (i: nat) ensures i < ENTRIES { v / 0x1000 % ENTRIES }
  function I2(v: nat): (i: nat) ensures i < ENTRIES { v / 0x20_0000 % ENTRIES }
  function I3(v: nat): (i: nat) ensures i < ENTRIES { v / 0x4000_0000 % ENTRIES }
  function I4(v: nat): (i: nat) ensures i < ENTRIES { v / 0x80_0000_0000 % ENTRIES }

  /** A linear address the processor can fault on in the current mode. */
  predicate Linear(s: Spt, v: nat) {
    s.levels == 3 ==> v < 0x1_0000_0000
  }

  // ------------------------------------------------------------- mapsub

  /** pmap_clear of the root (four PDPTEs in the 3-level format), cnt = 0 */
  function ClearTop(s: Spt): Spt
    requires |s.top| == ENTRIES
  {
    var n := if s.levels == 3 then 4 else ENTRIES;
    s.(top := seq(ENTRIES, j requires 0 <= j < ENTRIES => if j < n then NoLink else s.top[j]), cnt := 0)
  }

  /** mapsub down to level 3; false when the pool of tables is used up. */
  function Mapsub(s: Spt, v: nat, clearall: bool): (Spt, bool)
    requires Shape(s)
  {
    AddPdpt(if clearall then ClearTop(s) else s, v)
  }

  function AddPdpt(q: Spt, v: nat): (Spt, bool)
    requires Shape(q)
  {
    if q.levels == 3 || q.top[I4(v)].To? then (q, true)
    else if q.cnt == |q.tbl| then (q, false)
    else (q.(top := q.top[I4(v) := To(q.cnt)], tbl := q.tbl[q.cnt := Zeros(NoLink)], cnt := q.cnt + 1), true)
  }

  /** The PDPT for v exists. */
  predicate HasPdpt(s: Spt, v: nat) {
    && |s.top| == ENTRIES
    && (s.levels == 3 ==> I3(v) < 4)
    && (s.levels != 3 ==> s.top[I4(v)].To? && s.top[I4(v)].slot < |s.tbl| && s.top[I4(v)].slot < s.cnt
                          && |s.tbl[s.top[I4(v)].slot]| == ENTRIES)
  }

  function RdPdpe(s: Spt, v: nat): Link
    requires HasPdpt(s, v)
  {
    if s.levels == 3 then s.top[I3(v)] else s.tbl[s.top[I4(v)].slot][I3(v)]
  }

  function WrPdpe(s: Spt, v: nat, l: Link): Spt
    requires HasPdpt(s, v)
  {
    if s.levels == 3 then s.(top := s.top[I3(v) := l])
    else var k := s.top[I4(v)].slot; s.(tbl := s.tbl[k := s.tbl[k][I3(v) := l]])
  }

  /** mapsub keeps the vcpu sound and, after clearing all, cannot fail. */
  lemma MapsubSound(s: Spt, v: nat, clearall: bool, gmm: Gmm)
    requires Core(s, gmm) && Linear(s, v) && (clearall || TopOk(s))
    ensures var (r, ok) := Mapsub(s, v, clearall);
      && Core(r, gmm) && TopOk(r) && r == s.(top := r.top, tbl := r.tbl, cnt := r.cnt)
      && (ok ==> HasPdpt(r, v)) && (clearall ==> ok)
  {
    MapsubReady(s, clearall, gmm);
    AddPdptSound(if clearall then ClearTop(s) else s, v, gmm);
  }

  lemma AddPdptSound(q: Spt, v: nat, gmm: Gmm)
    requires Core(q, gmm) && Linear(q, v) && TopOk(q)
    ensures var (r, ok) := AddPdpt(q, v);
      && Core(r, gmm) && TopOk(r) && r == q.(top := r.top, tbl := r.tbl, cnt := r.cnt)
      && (ok ==> HasPdpt(r, v)) && (q.cnt == 0 ==> ok)
  {
    if q.levels == 3 {
      assert I3(v) < 4;
    } else if q.top[I4(v)].NoLink? && q.cnt < |q.tbl| {
      NewPdpt(q, v, gmm);
    }
  }

  lemma MapsubReady(s: Spt, clearall: bool, gmm: Gmm)
    requires Core(s, gmm) && (clearall || TopOk(s))
    ensures var q := if clearall then ClearTop(s) else s;
      && Core(q, gmm) && TopOk(q) && (clearall ==> q.cnt == 0) && q == s.(top := q.top, cnt := q.cnt)
  {
  }

  /** A cleared table of the pool becomes the PDPT of v. */
  lemma NewPdpt(q: Spt, v: nat, gmm: Gmm)
    requires Core(q, gmm) && TopOk(q) && q.levels != 3 && q.cnt < |q.tbl| && q.top[I4(v)].NoLink?
    ensures var r := q.(top := q.top[I4(v) := To(q.cnt)], tbl := q.tbl[q.cnt := Zeros(NoLink)], cnt := q.cnt + 1);
      Core(r, gmm) && TopOk(r) && HasPdpt(r, v)
  {
    var r := q.(top := q.top[I4(v) := To(q.cnt)], tbl := q.tbl[q.cnt := Zeros(NoLink)], cnt := q.cnt + 1);
    forall k | 0 <= k < r.cnt && k < |r.tbl| ensures LinksUsed(r.tbl[k], ENTRIES, r.c2) {
      if k < q.cnt { assert LinksUsed(q.tbl[k], ENTRIES, q.c2); }
    }
  }

  // ------------------------------------------------------------- setpdpe, on the own vcpu

  datatype Linking2 = Linking2(s: Spt, i: nat, isNew: bool, ok: bool)

  /** setpdpe up to the write of the PDPE; not ok when no shadow2 slot was free, in which
      case all modified slots have been freed. */
  function LinkPdpe(s: Spt, v: nat, key: Key, gmm: Gmm): Linking2
    requires Core(s, gmm) && HasPdpt(s, v)
  {
    var f := Find(s.c2, key);
    FindExact(s.c2, key, NoPde);
    if f.Some? then LinkHit(s, v, f.value, gmm)
    else if s.c2.freeL == [] then
      MakeRoomSound(s.c2, NoPde);
      Linking2(s.(c2 := FreeMods(MakeRoom(s.c2, NoPde), NoPde)), 0, false, false)
    else
      var i := s.c2.freeL[0];
      Linking2(WrPdpe(s.(c2 := RecordAt(Install(s.c2, key), i, I2(v))), v, To(i)), i, true, true)
  }

  /** Slot i has the key. */
  function LinkHit(s: Spt, v: nat, i: nat, gmm: Gmm): Linking2
    requires Core(s, gmm) && HasPdpt(s, v) && i < |s.c2.key|
  {
    var e := I2(v);
    if RdPdpe(s, v) == To(i) && (s.c2.modified[i] ==> s.c2.clear[i].n != 0) then
      var c := if s.c2.modified[i] then s.c2 else Touch(s.c2, i);
      Linking2(s.(c2 := RecordAt(c, i, e)), i, false, true)
    else if !s.c2.modified[i] then
      Linking2(WrPdpe(s.(c2 := RecordAt(Touch(s.c2, i), i, e)), v, To(i)), i, false, true)
    else
      Linking2(WrPdpe(s.(c2 := RecordAt(Revive(s.c2, i, NoPde), i, e)), v, To(i)), i, true, true)
  }

  /** What setpdpe did to its own vcpu before makerdonly. */
  ghost predicate Linked2(l: Linking2, s: Spt, v: nat, key: Key, gmm: Gmm) {
    var r := l.s;
    && Core(r, gmm) && r.c1 == s.c1 && r.rw == s.rw && r.levels == s.levels && r.wp == s.wp
    && |r.c2.key| == |s.c2.key| && Fewer(r.c2.page, s.c2.page)
    && OnlyNew(r, s, 2, l.i, key)
    && (if l.isNew then NormAt(r, 2, l.i, key) else Demoted(r.c2, s.c2))
    && (l.ok ==> HasPdpt(r, v) && RdPdpe(r, v) == To(l.i) && l.i < |r.c2.key| && Recorded(r.c2.clear[l.i], I2(v)))
    && (l.ok && TopOk(s) ==> TopOk(r))
    && (!l.ok ==> r.c2.freeL != [] && !l.isNew && r == s.(c2 := r.c2))
  }

  lemma LinkPdpeSound(s: Spt, v: nat, key: Key, gmm: Gmm) returns (l: Linking2)
    requires Core(s, gmm) && HasPdpt(s, v)
    ensures l == LinkPdpe(s, v, key, gmm) && Linked2(l, s, v, key, gmm)
  {
    var f := Find(s.c2, key);
    FindExact(s.c2, key, NoPde);
    if f.Some? {
      l := LinkFound(s, v, key, f.value, gmm);
    } else if s.c2.freeL == [] {
      Full2(s, v, key, gmm);
      l := Linking2(s.(c2 := FreeMods(MakeRoom(s.c2, NoPde), NoPde)), 0, false, false);
    } else {
      InstallSound(s.c2, key, NoPde);
      var i := s.c2.freeL[0];
      Use2(s, v, key, Install(s.c2, key), i, true, gmm);
      l := Linking2(WrPdpe(s.(c2 := RecordAt(Install(s.c2, key), i, I2(v))), v, To(i)), i, true, true);
    }
  }

  /** A slot has the key: the PDPE is right, or is pointed at it, after clearing it if need be. */
  lemma LinkFound(s: Spt, v: nat, key: Key, i: nat, gmm: Gmm) returns (l: Linking2)
    requires Core(s, gmm) && HasPdpt(s, v) && i < |s.c2.key|
    requires s.c2.key[i] == key && (if s.c2.modified[i] then i in s.c2.modL else i in s.c2.normL)
    ensures l == LinkHit(s, v, i, gmm) && Linked2(l, s, v, key, gmm)
  {
    l := LinkHit(s, v, i, gmm);
    if RdPdpe(s, v) == To(i) && (s.c2.modified[i] ==> s.c2.clear[i].n != 0) {
      HitKept(s, v, key, i, gmm);
    } else if s.c2.modified[i] {
      Revived2(s.c2, i);
      Use2(s, v, key, Revive(s.c2, i, NoPde), i, true, gmm);
    } else {
      TouchSound(s.c2, i, NoPde);
      Use2(s, v, key, Touch(s.c2, i), i, false, gmm);
    }
  }

  lemma HitKept(s: Spt, v: nat, key: Key, i: nat, gmm: Gmm)
    requires Core(s, gmm) && HasPdpt(s, v) && i < |s.c2.key| && RdPdpe(s, v) == To(i) && (!s.c2.modified[i] ==> i in s.c2.normL)
    ensures var c := if s.c2.modified[i] then s.c2 else Touch(s.c2, i);
      Linked2(Linking2(s.(c2 := RecordAt(c, i, I2(v))), i, false, true), s, v, key, gmm)
  {
    if !s.c2.modified[i] { TouchSound(s.c2, i, NoPde); }
    Keep2(s, v, key, if s.c2.modified[i] then s.c2 else Touch(s.c2, i), i, gmm);
  }

  lemma Revived2(c: Cache<Pde>, i: nat)
    requires CacheInv(c, NoPde) && i < |c.key| && i in c.modL
    ensures var d := Revive(c, i, NoPde); CacheInv(d, NoPde) && Changed(c, d, i, Norm(c.key[i])) && Fewer(d.page, c.page)
  {
    ReviveSound(c, i, NoPde);
    ZerosErased(c.page, i, NoPde);
    ErasedFewer(Revive(c, i, NoPde).page, c.page);
  }

  /** The PDPE is already right. */
  lemma Keep2(s: Spt, v: nat, key: Key, c: Cache<Pde>, i: nat, gmm: Gmm)
    requires Core(s, gmm) && HasPdpt(s, v) && CacheInv(c, NoPde) && SameStatus(s.c2, c) && c.page == s.c2.page
    requires i < |c.key| && RdPdpe(s, v) == To(i)
    ensures Linked2(Linking2(s.(c2 := RecordAt(c, i, I2(v))), i, false, true), s, v, key, gmm)
  {
    var e := I2(v);
    RecordAtSound(c, i, e, NoPde);
    var r := s.(c2 := RecordAt(c, i, e));
    FewerDirs(s, r.c2, gmm);
    if TopOk(s) { SameStatusTop(s, r); }
  }

  /** The PDPE is pointed at slot i, which is in use. */
  lemma Use2(s: Spt, v: nat, key: Key, c: Cache<Pde>, i: nat, isNew: bool, gmm: Gmm)
    requires Core(s, gmm) && HasPdpt(s, v) && CacheInv(c, NoPde) && |c.key| == |s.c2.key| && i < |c.key|
    requires Fewer(c.page, s.c2.page)
    requires if isNew then Changed(s.c2, c, i, Norm(key)) else SameStatus(s.c2, c) && !St(c, i).Free?
    ensures Linked2(Linking2(WrPdpe(s.(c2 := RecordAt(c, i, I2(v))), v, To(i)), i, isNew, true), s, v, key, gmm)
  {
    var e := I2(v);
    RecordAtSound(c, i, e, NoPde);
    var q := s.(c2 := RecordAt(c, i, e));
    FewerDirs(s, q.c2, gmm);
    WrPdpeCore(q, v, i, gmm);
    if TopOk(s) { WrPdpeTop(s, q, v, i); }
  }

  lemma WrPdpeCore(q: Spt, v: nat, i: nat, gmm: Gmm)
    requires Core(q, gmm) && HasPdpt(q, v)
    ensures var r := WrPdpe(q, v, To(i));
      && Core(r, gmm) && r == q.(top := r.top, tbl := r.tbl) && HasPdpt(r, v) && RdPdpe(r, v) == To(i)
  {
  }

  lemma WrPdpeTop(s: Spt, q: Spt, v: nat, i: nat)
    requires TopOk(s) && Shape(s) && HasPdpt(s, v) && q == s.(c2 := q.c2) && |q.c2.key| == |s.c2.key|
    requires i < |q.c2.key| && !St(q.c2, i).Free?
    requires forall k :: 0 <= k < |s.c2.key| && St(q.c2, k).Free? ==> St(s.c2, k).Free?
    ensures TopOk(WrPdpe(q, v, To(i)))
  {
  }

  lemma Full2(s: Spt, v: nat, key: Key, gmm: Gmm)
    requires Core(s, gmm) && HasPdpt(s, v) && s.c2.freeL == []
    ensures CacheInv(MakeRoom(s.c2, NoPde), NoPde)
    ensures Linked2(Linking2(s.(c2 := FreeMods(MakeRoom(s.c2, NoPde), NoPde)), 0, false, false), s, v, key, gmm)
  {
    MakeRoomSound(s.c2, NoPde);
    var d := MakeRoom(s.c2, NoPde);
    var c := RoomMade(s.c2, d);
    FewerDirs(s, c, gmm);
  }

  lemma RoomMade(c: Cache<Pde>, d: Cache<Pde>) returns (r: Cache<Pde>)
    requires CacheInv(c, NoPde) && c.freeL == [] && d == MakeRoom(c, NoPde) && CacheInv(d, NoPde)
    ensures r == FreeMods(d, NoPde) && CacheInv(r, NoPde) && r.freeL != [] && Demoted(r, c) && Fewer(r.page, c.page)
  {
    MakeRoomSound(c, NoPde);
    FreeModsSound(d, NoPde);
    r := FreeMods(d, NoPde);
    EachErased(r.page, c.page, NoPde);
    ErasedFewer(r.page, c.page);
  }

  // ------------------------------------------------------------- setpdpe

  function SetPdpe(m: seq<Spt>, c: nat, v: nat, key: Key, gfnw: Option<nat>, gmm: Gmm): (seq<Spt>, bool)
    requires c < |m| && Good(m, c, gmm) && GmmOk(gmm) && HasPdpt(m[c], v)
  {
    var l := LinkPdpe(m[c], v, key, gmm);
    LinkPdpeGood(m, c, v, key, gmm);
    var q := m[c := l.s];
    (if l.isNew then Finish(q, c, 2, l.i, key, gfnw, gmm) else q, l.ok)
  }

  lemma LinkPdpeGood(m: seq<Spt>, c: nat, v: nat, key: Key, gmm: Gmm)
    requires c < |m| && Good(m, c, gmm) && HasPdpt(m[c], v)
    ensures var l := LinkPdpe(m[c], v, key, gmm); Linked2(l, m[c], v, key, gmm) && Good(m[c := l.s], c, gmm)
  {
    var l := LinkPdpeSound(m[c], v, key, gmm);
  }

  /** After setpdpe the PDPE points at a page directory whose entry for v is recorded. */
  ghost predicate PdpeSet(r: Spt, v: nat) {
    && HasPdpt(r, v) && RdPdpe(r, v).To? && RdPdpe(r, v).slot < |r.c2.key| && RdPdpe(r, v).slot < |r.c2.clear|
    && Recorded(r.c2.clear[RdPdpe(r, v).slot], I2(v))
  }

  lemma SetPdpeSound(m: seq<Spt>, c: nat, v: nat, key: Key, gfnw: Option<nat>, gmm: Gmm)
    requires c < |m| && Good(m, c, gmm) && GmmOk(gmm) && HasPdpt(m[c], v) && WriteProtected(m, gmm)
    ensures var (r, ok) := SetPdpe(m, c, v, key, gfnw, gmm);
      && |r| == |m| && Good(r, c, gmm) && WriteProtected(r, gmm)
      && r[c].levels == m[c].levels && r[c].wp == m[c].wp
      && (ok ==> PdpeSet(r[c], v)) && (ok && TopOk(m[c]) ==> TopOk(r[c]))
      && (!ok ==> r[c].c2.freeL != [])
      && (m[c].c2.freeL != [] ==> ok)
  {
    var l := LinkPdpe(m[c], v, key, gmm);
    LinkPdpeGood(m, c, v, key, gmm);
    var q := m[c := l.s];
    if l.isNew {
      NewPdpe(m, q, c, l, v, key, gfnw, gmm);
    } else {
      DemotedFewer(l.s, m[c]);
      KeepProtected(m, c, l.s, gmm);
    }
  }

  lemma NewPdpe(m: seq<Spt>, q: seq<Spt>, c: nat, l: Linking2, v: nat, key: Key, gfnw: Option<nat>, gmm: Gmm)
    requires c < |m| && GmmOk(gmm) && WriteProtected(m, gmm) && q == m[c := l.s] && Good(q, c, gmm)
    requires Linked2(l, m[c], v, key, gmm) && l.isNew
    ensures var r := Finish(q, c, 2, l.i, key, gfnw, gmm);
      && |r| == |m| && Good(r, c, gmm) && WriteProtected(r, gmm) && Finished(r[c], l.s, 2)
      && PdpeSet(r[c], v) && (TopOk(m[c]) ==> TopOk(r[c]))
  {
    FinishGood(q, c, 2, l.i, key, gfnw, gmm);
    FinishProtected(m, q, c, 2, l.i, key, gfnw, gmm);
    FinishedUpper(Finish(q, c, 2, l.i, key, gfnw, gmm)[c], q[c], v);
  }

  lemma FinishedUpper(r: Spt, s: Spt, v: nat)
    requires Finished(r, s, 2)
    ensures PdpeSet(s, v) ==> PdpeSet(r, v)
    ensures TopOk(s) ==> TopOk(r)
  {
    assert forall k :: 0 <= k < |s.c2.key| && St(r.c2, k).Free? ==> St(s.c2, k).Free?;
  }
}
