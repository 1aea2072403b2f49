/** The cache of shadow pages of one vcpu (cpu_mmu_spt.c, SPT_3).  The same
    structure serves shadow page tables (shadow1) and page directories (shadow2):
    a fixed pool of slots, each linked in exactly one of the modified, normal and
    free lists, and in the hash bucket of its key unless it is free. */
module ShadowCache {
  import opened Lists
  import opened LazyClear

  /** The 64-bit key, field by field; `to3` is the 2TO3 field, the flags are KEY_*. */
  datatype Key = Key(gfn: nat, to3: nat, glvl: nat, large: bool, wp0: bool, nx: bool, us0: bool, rw0: bool)

  /** Per slot: key, KEY_MODIFIED, the clearing record, and the memory of the page;
      then the three lists and the hash buckets, all holding slot numbers. */
  datatype Cache<E> = Cache(key: seq<Key>, modified: seq<bool>, clear: seq<ClearInfo>, page: seq<seq<E>>,
                            modL: seq<nat>, normL: seq<nat>, freeL: seq<nat>, hash: seq<seq<nat>>)

  /** What the rest of the system may know about a slot. */
  datatype Status = Free | Norm(key: Key) | Mod(key: Key)

  ghost function St<E>(c: Cache<E>, i: nat): Status
    requires i < |c.key|
  {
    if i in c.freeL then Free else if i in c.modL then Mod(c.key[i]) else Norm(c.key[i])
  }

  /** KEY_MODIFIED agrees with the lists. */
  ghost predicate Flags(modL: seq<nat>, normL: seq<nat>, modified: seq<bool>) {
    && (forall i :: 0 <= i < |modified| && i in modL ==> modified[i])
    && (forall i :: 0 <= i < |modified| && i in normL ==> !modified[i])
  }

  /** A slot is in its key's bucket, once, iff it is not free. */
  ghost predicate Hashed(key: seq<Key>, freeL: seq<nat>, hash: seq<seq<nat>>) {
    && |hash| > 0
    && (forall h :: 0 <= h < |hash| ==> NoDup(hash[h]) && Below(hash[h], |key|))
    && (forall h, i :: 0 <= h < |hash| && 0 <= i < |key| ==>
          (i in hash[h] <==> i !in freeL && key[i].gfn % |hash| == h))
  }

  /** At most one slot per key. */
  ghost predicate Unique(key: seq<Key>, freeL: seq<nat>) {
    forall i, j :: 0 <= i < |key| && 0 <= j < |key| && i !in freeL && j !in freeL && key[i] == key[j] ==> i == j
  }

  /** Every page has a well-formed record that covers its non-zero entries. */
  ghost predicate Pages<E>(clear: seq<ClearInfo>, page: seq<seq<E>>, zero: E) {
    && |clear| == |page|
    && (forall i :: 0 <= i < |page| ==> |page[i]| == ENTRIES && Valid(clear[i]) && Covered(clear[i], page[i], zero))
  }

  ghost predicate CacheInv<E>(c: Cache<E>, zero: E) {
    && 0 < |c.key| == |c.modified| == |c.page|
    && Parts(c.modL, c.normL, c.freeL, |c.key|)
    && Flags(c.modL, c.normL, c.modified)
    && Hashed(c.key, c.freeL, c.hash)
    && Unique(c.key, c.freeL)
    && Pages(c.clear, c.page, zero)
  }

  ghost predicate SameStatus<E>(c: Cache<E>, d: Cache<E>) {
    |c.key| == |d.key| && forall i :: 0 <= i < |c.key| ==> St(d, i) == St(c, i)
  }

  /** Only `i` changed status. */
  ghost predicate Changed<E>(c: Cache<E>, d: Cache<E>, i: nat, s: Status) {
    |c.key| == |d.key| && i < |c.key| &&
    forall k :: 0 <= k < |c.key| ==> St(d, k) == if k == i then s else St(c, k)
  }

  // ------------------------------------------------------------- list moves

  /** modified_shadow1/2 on a normal slot: also the eviction of the oldest normal slot. */
  function MarkModified<E>(c: Cache<E>, i: nat): Cache<E>
    requires i < |c.modified|
  {
    c.(normL := Del(c.normL, i), modL := c.modL + [i], modified := c.modified[i := true])
  }

  lemma MarkModifiedSound<E>(c: Cache<E>, i: nat, zero: E)
    requires CacheInv(c, zero) && i < |c.key| && i in c.normL
    ensures CacheInv(MarkModified(c, i), zero)
    ensures Changed(c, MarkModified(c, i), i, Mod(c.key[i]))
  {
    DelNoDup(c.normL, i);
    DelBelow(c.normL, i, |c.key|);
    AddNoDup(c.modL, i);
  }

  /** DEL then ADD on the normal list: the slot becomes the most recently used. */
  function Touch<E>(c: Cache<E>, i: nat): Cache<E> {
    c.(normL := Del(c.normL, i) + [i])
  }

  lemma TouchSound<E>(c: Cache<E>, i: nat, zero: E)
    requires CacheInv(c, zero) && i < |c.key| && i in c.normL
    ensures CacheInv(Touch(c, i), zero)
    ensures SameStatus(c, Touch(c, i))
  {
    DelNoDup(c.normL, i);
    DelBelow(c.normL, i, |c.key|);
    AddNoDup(Del(c.normL, i), i);
  }

  /** update_clearinfo on slot i */
  function RecordAt<E>(c: Cache<E>, i: nat, e: nat): Cache<E>
    requires i < |c.clear|
  {
    c.(clear := c.clear[i := Record(c.clear[i], e)])
  }

  lemma RecordAtSound<E>(c: Cache<E>, i: nat, e: nat, zero: E)
    requires CacheInv(c, zero) && i < |c.key| && e < ENTRIES
    ensures CacheInv(RecordAt(c, i, e), zero)
    ensures SameStatus(c, RecordAt(c, i, e))
    ensures Recorded(RecordAt(c, i, e).clear[i], e)
  {
    RecordSound(c.clear[i], e);
  }

  /** clear_shadow on slot i */
  function ClearSlot<E>(c: Cache<E>, i: nat, zero: E): Cache<E>
    requires i < |c.clear| == |c.page| && |c.page[i]| == ENTRIES && Valid(c.clear[i])
  {
    if c.clear[i].n == 0 then c
    else c.(page := c.page[i := Cleared(c.clear[i], c.page[i], zero)], clear := c.clear[i := NOTHING])
  }

  lemma ClearSlotSound<E>(c: Cache<E>, i: nat, zero: E)
    requires CacheInv(c, zero) && i < |c.key|
    ensures CacheInv(ClearSlot(c, i, zero), zero)
    ensures ClearSlot(c, i, zero) == c.(page := c.page[i := Zeros(zero)], clear := ClearSlot(c, i, zero).clear)
  {
    ClearedIsZero(c.clear[i], c.page[i], zero);
    if c.clear[i].n == 0 { assert c.page[i := Zeros(zero)] == c.page; }
  }

  /** new_shadow on a modified slot that already has the key. */
  function Revive<E>(c: Cache<E>, i: nat, zero: E): Cache<E>
    requires i < |c.clear| == |c.page| == |c.modified| && |c.page[i]| == ENTRIES && Valid(c.clear[i])
  {
    var d := ClearSlot(c, i, zero);
    d.(modL := Del(d.modL, i), normL := d.normL + [i], modified := d.modified[i := false])
  }

  lemma ReviveSound<E>(c: Cache<E>, i: nat, zero: E)
    requires CacheInv(c, zero) && i < |c.key| && i in c.modL
    ensures CacheInv(Revive(c, i, zero), zero)
    ensures Changed(c, Revive(c, i, zero), i, Norm(c.key[i]))
    ensures Revive(c, i, zero).page == c.page[i := Zeros(zero)]
  {
    ClearSlotSound(c, i, zero);
    DelNoDup(c.modL, i);
    DelBelow(c.modL, i, |c.key|);
    AddNoDup(c.normL, i);
  }

  /** new_shadow on the head of the free list. */
  function Install<E>(c: Cache<E>, key: Key): Cache<E>
    requires c.freeL != [] && c.freeL[0] < |c.key| == |c.modified| && |c.hash| > 0
  {
    var i := c.freeL[0];
    var h := key.gfn % |c.hash|;
    c.(freeL := c.freeL[1..], normL := c.normL + [i], hash := c.hash[h := c.hash[h] + [i]],
       key := c.key[i := key], modified := c.modified[i := false])
  }

  lemma InstallSound<E>(c: Cache<E>, key: Key, zero: E)
    requires CacheInv(c, zero) && c.freeL != []
    requires forall k :: 0 <= k < |c.key| && k !in c.freeL ==> c.key[k] != key
    ensures CacheInv(Install(c, key), zero)
    ensures Changed(c, Install(c, key), c.freeL[0], Norm(key))
  {
    var i := c.freeL[0];
    PopNoDup(c.freeL);
    assert i !in c.normL && i !in c.modL;
    AddNoDup(c.normL, i);
    HashInstall(c.key, c.freeL, c.hash, key);
    var d := Install(c, key);
    assert Parts(d.modL, d.normL, d.freeL, |d.key|);
  }

  lemma HashInstall(keys: seq<Key>, freeL: seq<nat>, hash: seq<seq<nat>>, key: Key)
    requires Hashed(keys, freeL, hash) && freeL != [] && NoDup(freeL) && Below(freeL, |keys|)
    ensures var h := key.gfn % |hash|;
      Hashed(keys[freeL[0] := key], freeL[1..], hash[h := hash[h] + [freeL[0]]])
  {
    var h := key.gfn % |hash|;
    PopNoDup(freeL);
    AddNoDup(hash[h], freeL[0]);
  }

  // ------------------------------------------------------------- freeing

  /** One round of clean_modified_shadow with freeflag: the modified head becomes free. */
  function FreeFirst<E>(c: Cache<E>, zero: E): (d: Cache<E>)
    requires c.modL != [] && c.modL[0] < |c.key| == |c.page| == |c.clear| && |c.hash| > 0
    requires |c.page[c.modL[0]]| == ENTRIES && Valid(c.clear[c.modL[0]])
    ensures |d.modL| < |c.modL|
  {
    var i := c.modL[0];
    var h := c.key[i].gfn % |c.hash|;
    ClearSlot(c, i, zero).(modL := c.modL[1..], freeL := [i] + c.freeL, hash := c.hash[h := Del(c.hash[h], i)])
  }

  lemma FreeFirstSound<E>(c: Cache<E>, zero: E)
    requires CacheInv(c, zero) && c.modL != []
    ensures CacheInv(FreeFirst(c, zero), zero)
    ensures Changed(c, FreeFirst(c, zero), c.modL[0], Free)
    ensures FreeFirst(c, zero).page == c.page[c.modL[0] := Zeros(zero)]
    ensures FreeFirst(c, zero).modL == c.modL[1..] && FreeFirst(c, zero).freeL != []
  {
    var i := c.modL[0];
    assert i in c.modL;
    ClearSlotSound(c, i, zero);
    PopNoDup(c.modL);
    AddNoDup(c.freeL, i);
    HashFree(c.key, c.freeL, c.hash, i);
    var d := FreeFirst(c, zero);
    assert Parts(d.modL, d.normL, d.freeL, |d.key|);
  }

  lemma HashFree(keys: seq<Key>, freeL: seq<nat>, hash: seq<seq<nat>>, i: nat)
    requires Hashed(keys, freeL, hash) && i < |keys| && i !in freeL
    ensures var h := keys[i].gfn % |hash|; Hashed(keys, [i] + freeL, hash[h := Del(hash[h], i)])
  {
    var h := keys[i].gfn % |hash|;
    DelNoDup(hash[h], i);
    DelBelow(hash[h], i, |keys|);
  }

  /** clean_modified_shadow with freeflag (as used for shadow2): all modified slots become free. */
  function FreeMods<E>(c: Cache<E>, zero: E): Cache<E>
    requires CacheInv(c, zero)
    decreases |c.modL|
  {
    if c.modL == [] then c
    else
      FreeFirstSound(c, zero);
      FreeMods(FreeFirst(c, zero), zero)
  }

  lemma {:induction false} FreeModsSound<E>(c: Cache<E>, zero: E)
    requires CacheInv(c, zero)
    ensures var d := FreeMods(c, zero);
      && CacheInv(d, zero) && |d.key| == |c.key| && d.modL == []
      && (c.modL != [] || c.freeL != [] ==> d.freeL != [])
      && (forall k :: 0 <= k < |c.key| ==> St(d, k) == (if St(c, k).Mod? then Free else St(c, k)))
      && (forall k :: 0 <= k < |c.key| ==> d.page[k] == (if St(c, k).Mod? then Zeros(zero) else c.page[k]))
    decreases |c.modL|
  {
    if c.modL != [] {
      FreeFirstSound(c, zero);
      assert c.modL[0] in c.modL;
      FreeModsSound(FreeFirst(c, zero), zero);
    }
  }

  /** clear_all: every normal slot becomes modified, oldest first. */
  function MarkNormals<E>(c: Cache<E>, zero: E): Cache<E>
    requires CacheInv(c, zero)
    decreases |c.normL|
  {
    if c.normL == [] then c
    else
      assert c.normL[0] in c.normL;
      MarkModifiedSound(c, c.normL[0], zero);
      MarkNormals(MarkModified(c, c.normL[0]), zero)
  }

  lemma {:induction false} MarkNormalsSound<E>(c: Cache<E>, zero: E)
    requires CacheInv(c, zero)
    ensures var d := MarkNormals(c, zero);
      && CacheInv(d, zero) && |d.key| == |c.key| && d.page == c.page && d.normL == []
      && (forall k :: 0 <= k < |c.key| ==> St(d, k) == (if St(c, k).Norm? then Mod(c.key[k]) else St(c, k)))
    decreases |c.normL|
  {
    if c.normL != [] {
      assert c.normL[0] in c.normL;
      MarkModifiedSound(c, c.normL[0], zero);
      MarkNormalsSound(MarkModified(c, c.normL[0]), zero);
    }
  }

  /** Something can be freed whenever no slot is free. */
  lemma SomeInUse<E>(c: Cache<E>, zero: E)
    requires CacheInv(c, zero) && c.freeL == []
    ensures c.modL == [] ==> c.normL != [] && c.normL[0] < |c.key| && c.normL[0] in c.normL
  {
    assert 0 in c.modL || 0 in c.normL;
  }

  /** Make room: evict the oldest normal slot if nothing is modified. */
  function MakeRoom<E>(c: Cache<E>, zero: E): Cache<E>
    requires CacheInv(c, zero) && c.freeL == []
  {
    SomeInUse(c, zero);
    if c.modL != [] then c else MarkModified(c, c.normL[0])
  }

  lemma MakeRoomSound<E>(c: Cache<E>, zero: E)
    requires CacheInv(c, zero) && c.freeL == []
    ensures var d := MakeRoom(c, zero);
      && CacheInv(d, zero) && |d.key| == |c.key| && d.page == c.page && d.modL != []
      && (forall k :: 0 <= k < |c.key| ==> St(d, k) == St(c, k) || (St(c, k).Norm? && St(d, k) == Mod(St(c, k).key)))
      && d.key == c.key && d.hash == c.hash && d.freeL == c.freeL
  {
    SomeInUse(c, zero);
    if c.modL == [] { MarkModifiedSound(c, c.normL[0], zero); }
  }

  /** clean_modified_shadow without freeflag: the modified pages are cleared and stay linked. */
  function ClearMods<E>(c: Cache<E>, todo: seq<nat>, zero: E): Cache<E>
    requires |c.clear| == |c.page| && Below(todo, |c.page|)
    requires forall i :: 0 <= i < |c.page| ==> |c.page[i]| == ENTRIES && Valid(c.clear[i])
    decreases |todo|
  {
    if todo == [] then c
    else
      ShrZero(64);
      ClearMods(ClearSlot(c, todo[0], zero), todo[1..], zero)
  }

  lemma {:induction false} ClearModsSound<E>(c: Cache<E>, todo: seq<nat>, zero: E)
    requires CacheInv(c, zero) && Below(todo, |c.key|)
    ensures CacheInv(ClearMods(c, todo, zero), zero)
    ensures SameStatus(c, ClearMods(c, todo, zero))
    ensures forall k :: 0 <= k < |c.key| ==>
      ClearMods(c, todo, zero).page[k] == (if k in todo then Zeros(zero) else c.page[k])
    decreases |todo|
  {
    if todo != [] {
      ClearSlotSound(c, todo[0], zero);
      ClearModsSound(ClearSlot(c, todo[0], zero), todo[1..], zero);
      assert todo == [todo[0]] + todo[1..];
    }
  }

  // ------------------------------------------------------------- searches

  /** find_shadow_from_hash */
  function FindIn(keys: seq<Key>, todo: seq<nat>, key: Key): (r: Option<nat>)
    requires Below(todo, |keys|)
    ensures r.Some? ==> r.value in todo && r.value < |keys| && keys[r.value] == key
    ensures r.None? ==> forall k :: 0 <= k < |todo| ==> keys[todo[k]] != key
  {
    if todo == [] then None
    else if keys[todo[0]] == key then Some(todo[0])
    else
      var r := FindIn(keys, todo[1..], key);
      assert r.None? ==> forall k :: 0 < k < |todo| ==> todo[k] == todo[1..][k - 1];
      r
  }

  ghost predicate HashOk<E>(c: Cache<E>) {
    |c.hash| > 0 && forall h :: 0 <= h < |c.hash| ==> Below(c.hash[h], |c.key|)
  }

  function Find<E>(c: Cache<E>, key: Key): Option<nat>
    requires HashOk(c)
  {
    FindIn(c.key, c.hash[key.gfn % |c.hash|], key)
  }

  /** The hash search is exact: it finds the slot with the key iff one is in use. */
  lemma FindExact<E>(c: Cache<E>, key: Key, zero: E)
    requires CacheInv(c, zero)
    ensures Find(c, key).Some? ==>
      var i := Find(c, key).value;
      i < |c.key| && c.key[i] == key && (if c.modified[i] then i in c.modL else i in c.normL)
        && St(c, i) == (if c.modified[i] then Mod(key) else Norm(key))
    ensures Find(c, key).None? <==> forall i :: 0 <= i < |c.key| ==> i in c.freeL || c.key[i] != key
  {
    var b := c.hash[key.gfn % |c.hash|];
    forall i | 0 <= i < |c.key| && i !in c.freeL && c.key[i].gfn == key.gfn ensures i in b {
    }
  }

  /** A slot that write-protects guest frame g. */
  predicate Protects(key: Key, modified: bool, g: nat) {
    !key.large && !modified && key.gfn == g
  }

  ghost predicate ProtectsSt(s: Status, g: nat) {
    s.Norm? && !s.key.large && s.key.gfn == g
  }

  /** update_shadow without needrw: is some normal slot shadowing g? */
  function AnyNormal<E>(c: Cache<E>, todo: seq<nat>, g: nat): (r: bool)
    requires Below(todo, |c.key|) && |c.modified| == |c.key|
    ensures r <==> exists k :: 0 <= k < |todo| && Protects(c.key[todo[k]], c.modified[todo[k]], g)
  {
    if todo == [] then false
    else if Protects(c.key[todo[0]], c.modified[todo[0]], g) then true
    else
      var r := AnyNormal(c, todo[1..], g);
      assert forall k :: 0 < k < |todo| ==> todo[k] == todo[1..][k - 1];
      r
  }

  lemma AnyNormalExact<E>(c: Cache<E>, g: nat, zero: E)
    requires CacheInv(c, zero)
    ensures AnyNormal(c, c.hash[g % |c.hash|], g) <==> exists i :: 0 <= i < |c.key| && ProtectsSt(St(c, i), g)
  {
    var b := c.hash[g % |c.hash|];
    if i :| 0 <= i < |c.key| && ProtectsSt(St(c, i), g) {
      assert i in b && Protects(c.key[i], c.modified[i], g);
    }
    if k :| 0 <= k < |b| && Protects(c.key[b[k]], c.modified[b[k]], g) {
      assert b[k] in b && ProtectsSt(St(c, b[k]), g);
    }
  }

  /** update_shadow with needrw: every normal slot shadowing g becomes modified. */
  function MarkBucket<E>(c: Cache<E>, todo: seq<nat>, g: nat): Cache<E>
    requires Below(todo, |c.key|) && |c.modified| == |c.key|
    decreases |todo|
  {
    if todo == [] then c
    else
      var i := todo[0];
      MarkBucket(if Protects(c.key[i], c.modified[i], g) then MarkModified(c, i) else c, todo[1..], g)
  }

  lemma {:induction false} MarkBucketSound<E>(c: Cache<E>, todo: seq<nat>, g: nat, zero: E)
    requires CacheInv(c, zero) && Below(todo, |c.key|)
    requires forall k :: 0 <= k < |todo| ==> todo[k] !in c.freeL
    ensures CacheInv(MarkBucket(c, todo, g), zero)
    ensures MarkBucket(c, todo, g).page == c.page && |MarkBucket(c, todo, g).key| == |c.key|
    ensures forall k :: 0 <= k < |c.key| ==>
      St(MarkBucket(c, todo, g), k) == (if k in todo && ProtectsSt(St(c, k), g) then Mod(St(c, k).key) else St(c, k))
    decreases |todo|
  {
    if todo != [] {
      var i := todo[0];
      assert todo == [i] + todo[1..];
      if Protects(c.key[i], c.modified[i], g) {
        assert i in c.normL;
        MarkModifiedSound(c, i, zero);
        MarkBucketSound(MarkModified(c, i), todo[1..], g, zero);
      } else {
        MarkBucketSound(c, todo[1..], g, zero);
      }
    }
  }

  function MarkAll<E>(c: Cache<E>, g: nat): Cache<E>
    requires HashOk(c) && |c.modified| == |c.key|
  {
    MarkBucket(c, c.hash[g % |c.hash|], g)
  }

  /** After update_shadow no slot of this cache protects g, and nothing else changed. */
  lemma MarkAllSound<E>(c: Cache<E>, g: nat, zero: E)
    requires CacheInv(c, zero)
    ensures CacheInv(MarkAll(c, g), zero)
    ensures MarkAll(c, g).page == c.page && |MarkAll(c, g).key| == |c.key|
    ensures forall k :: 0 <= k < |c.key| ==>
      St(MarkAll(c, g), k) == (if ProtectsSt(St(c, k), g) then Mod(St(c, k).key) else St(c, k))
  {
    var b := c.hash[g % |c.hash|];
    forall k | 0 <= k < |b| ensures b[k] !in c.freeL { assert b[k] in b; }
    MarkBucketSound(c, b, g, zero);
  }

  // ------------------------------------------------------------- page writes

  function WriteEntry<E>(c: Cache<E>, i: nat, e: nat, x: E): Cache<E>
    requires i < |c.page| && e < |c.page[i]|
  {
    c.(page := c.page[i := c.page[i][e := x]])
  }

  /** A write of a recorded entry, or of a zero, keeps the cache invariant. */
  lemma WriteEntrySound<E>(c: Cache<E>, i: nat, e: nat, x: E, zero: E)
    requires CacheInv(c, zero) && i < |c.key| && e < ENTRIES
    requires x == zero || Recorded(c.clear[i], e)
    ensures CacheInv(WriteEntry(c, i, e, x), zero)
    ensures SameStatus(c, WriteEntry(c, i, e, x))
  {
  }
}
