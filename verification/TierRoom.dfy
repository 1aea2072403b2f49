/** When alloc (mm.c) runs out of memory, said of the pages that are free and of the bits that are
    clear; and which addresses free accepts. */
module TierRoom {
  import opened Lists
  import opened Pow2
  import opened Buddy
  import opened BuddyCont
  import opened Sizing
  import opened Tiers
  import opened TierAlloc

  /** Every page with blocks of size k is full. */
  ghost predicate SmallFull(small: map<nat, SmallPage>, k: nat) {
    forall p :: p in small && small[p].size == k ==> Full(small[p].used, PerPage(k))
  }

  ghost predicate TinyFull(tiny: map<Slot, TinyBlock>, k: nat) {
    forall b :: b in tiny && tiny[b].size == k ==> Full(tiny[b].used, 32)
  }

  ghost predicate NoFreePage(s: Mem)
    requires |s.ord| == |s.typ|
  {
    forall j: nat :: j < |s.typ| ==> !FreeAt(s, j)
  }

  /** No block of size k can be had: every page of that size is full and no page is free. */
  ghost predicate NoSmall(t: Heap, k: nat)
    requires |t.pages.ord| == |t.pages.typ|
  {
    SmallFull(t.small, k) && NoFreePage(t.pages)
  }

  /** No piece of size k can be had: every block of that size is full, and no block for another. */
  ghost predicate NoTiny(t: Heap, k: nat)
    requires |t.pages.ord| == |t.pages.typ|
  {
    TinyFull(t.tiny, k) && NoSmall(t, k + 2)
  }

  /** The choice of get_alloc_pages_size cannot be had: it was refused, there is no such order, or
      no aligned run of free pages has the size. */
  ghost predicate NoRun(s: Mem, c: Choice)
    requires |s.ord| == |s.typ|
  {
    match c
    case Refused => true
    case One(i) => i >= |s.freeL| || forall p: nat :: Aligned(p, i) ==> !RunFree(s, p, i)
    case Two(i, j) => i >= |s.freeL| || forall p: nat :: !PairRun(s, p, i, j)
  }

  /** k is the least of the sizes that holds len bytes. */
  predicate LeastSmall(k: nat, len: nat) {
    k < 5 && len <= SmallSize(k) && (k > 0 ==> SmallSize(k - 1) < len)
  }

  predicate LeastTiny(k: nat, len: nat) {
    k < 3 && len <= TinySize(k) && (k > 0 ==> TinySize(k - 1) < len)
  }

  /** There is no room for len bytes. */
  ghost predicate NoRoom(t: Heap, len: nat)
    requires |t.pages.ord| == |t.pages.typ|
  {
    if len > 2048 then NoRun(t.pages, PagesSize((len + 4095) / 4096))
    else if len > 64 then exists k :: LeastSmall(k, len) && NoSmall(t, k)
    else exists k :: LeastTiny(k, len) && NoTiny(t, k)
  }

  // ------------------------------------------------------------- small and tiny

  lemma ListEmpty(t: Heap, k: nat)
    requires HInv(t) && k < 5
    ensures t.smallL[k] == [] <==> SmallFull(t.small, k)
  {
    assert SmallListed(t.smallL[k], t.small, k);
    if t.smallL[k] != [] { assert t.smallL[k][0] in t.smallL[k]; }
  }

  lemma TinyListEmpty(t: Heap, k: nat)
    requires HInv(t) && k < 3
    ensures t.tinyL[k] == [] <==> TinyFull(t.tiny, k)
  {
    assert TinyListed(t.tinyL[k], t.tiny, k);
    if t.tinyL[k] != [] { assert t.tinyL[k][0] in t.tinyL[k]; }
  }

  lemma PageRunsOut(s: Mem)
    requires Inv(s, {})
    ensures Alloc(s, 0).1.None? <==> NoFreePage(s)
  {
    AllocComplete(s, 0);
    forall j: nat ensures Aligned(j, 0) && (RunFree(s, j, 0) <==> j < |s.typ| && FreeAt(s, j)) {
      OnePage(s, j);
    }
  }

  lemma OnePage(s: Mem, j: nat)
    requires |s.ord| == |s.typ|
    ensures Aligned(j, 0) && (RunFree(s, j, 0) <==> j < |s.typ| && FreeAt(s, j))
  {
  }

  /** small_alloc fails iff no block of the size is free and no page is; it takes a new page only if
      no block of the size is free. */
  lemma SmallRunsOut(t: Heap, k: nat)
    requires HInv(t) && k < 5
    ensures SmallAlloc(t, k).1.None? <==> NoSmall(t, k)
    ensures SmallAlloc(t, k).1.Some? ==> (SmallAlloc(t, k).1.value.p in t.small <==> !SmallFull(t.small, k))
  {
    ListEmpty(t, k);
    PageRunsOut(t.pages);
    if SmallAlloc(t, k).1.Some? {
      if t.smallL[k] == [] { TakenAnew(t, k); } else { TakenFromList(t, k); }
    }
  }

  lemma TakenFromList(t: Heap, k: nat)
    requires HInv(t) && k < 5 && t.smallL[k] != []
    ensures TakeBit(t, k).1.p in t.small
  {
    assert SmallListed(t.smallL[k], t.small, k) && t.smallL[k][0] in t.smallL[k];
  }

  lemma TakenAnew(t: Heap, k: nat)
    requires HInv(t) && k < 5 && TakePage(t, k).1.Some?
    ensures TakePage(t, k).1.value.p !in t.small
  {
    AllocSound(t.pages, 0);
    BuddyKeeps.AllocSame(t.pages, 0);
    var p := Alloc(t.pages, 0).1.value;
    assert p in t.small ==> BuddyKeeps.InUse(t.pages, p);
  }

  /** tiny_alloc likewise. */
  lemma TinyRunsOut(t: Heap, k: nat)
    requires HInv(t) && k < 3
    ensures TinyAlloc(t, k).1.None? <==> NoTiny(t, k)
    ensures TinyAlloc(t, k).1.Some? && TinyAlloc(t, k).1.value.TinyUnit? ==>
      (TinyAlloc(t, k).1.value.b in t.tiny <==> !TinyFull(t.tiny, k))
  {
    TinyListEmpty(t, k);
    SmallRunsOut(t, k + 2);
    if t.tinyL[k] != [] {
      assert TinyListed(t.tinyL[k], t.tiny, k) && t.tinyL[k][0] in t.tinyL[k];
    } else if SmallAlloc(t, k + 2).1.Some? {
      SmallAllocSound(t, k + 2);
    }
  }

  // ------------------------------------------------------------- pages

  /** The second order is below the first. */
  lemma {:induction false} SecondBelow(sz: int, i: nat)
    requires i <= ORDERS
    ensures Choose(sz, i).Two? ==> Choose(sz, i).j < Choose(sz, i).i
    decreases ORDERS - i
  {
    if i < ORDERS { SecondBelow(sz, i + 1); }
  }

  lemma PagesRunOut(t: Heap, c: Choice)
    requires HInv(t) && (c.Two? ==> c.j <= c.i)
    ensures PagesAlloc(t, c).OutOfMemory? <==> NoRun(t.pages, c)
  {
    match c
    case Refused =>
    case One(i) =>
      if i < |t.pages.freeL| { AllocComplete(t.pages, i); } else { AllocSound(t.pages, i); }
    case Two(i, j) =>
      if i < |t.pages.freeL| { AllocContComplete(t.pages, i, j); }
  }

  // ------------------------------------------------------------- alloc

  lemma SmallSizes(len: nat, k: nat)
    requires LeastSmall(k, len)
    ensures SmallIndex(len) == k && forall l :: LeastSmall(l, len) ==> l == k
  {
  }

  lemma TinySizes(len: nat, k: nat)
    requires LeastTiny(k, len)
    ensures SmallIndex(len) == 0 && TinyIndex(len) == k && forall l :: LeastTiny(l, len) ==> l == k
  {
  }

  /** alloc runs out of memory if and only if there is no room: for a small size, no page of that
      size has a free block and no page is free; for a tiny size, no block of that size has a free
      piece and there is no room for a block; for pages, no aligned run of free pages has the size. */
  lemma RunsOutIff(t: Heap, len: nat)
    requires HInv(t)
    ensures AllocBytes(t, len).OutOfMemory? <==> NoRoom(t, len)
  {
    if len > 2048 {
      var n := (len + 4095) / 4096;
      SecondBelow(Int32(n * 4096), 0);
      PagesRunOut(t, PagesSize(n));
    } else if len > 64 {
      var k := SmallIndex(len);
      assert LeastSmall(k, len);
      SmallSizes(len, k);
      SmallRunsOut(t, k);
    } else {
      var k := TinyIndex(len);
      assert LeastTiny(k, len);
      TinySizes(len, k);
      TinyRunsOut(t, k);
    }
  }

  // ------------------------------------------------------------- free

  /** v is the address of block b of a small page. */
  predicate BlockStart(t: Heap, b: Slot, v: nat) {
    b.p in t.small && b.i in t.small[b.p].used && v == b.p * 4096 + b.i * SmallSize(t.small[b.p].size)
  }

  /** v is the address of piece j of tiny block b, and the piece is live. */
  ghost predicate PieceStart(t: Heap, b: Slot, j: nat, v: nat) {
    b.p in t.small && Live(t, TinyUnit(b, j)) && v == Start(t, TinyUnit(b, j))
  }

  /** v lies in the first page of a block of the page tier that is allocated or reserved. */
  predicate PageStart(s: Mem, v: nat) {
    v / 4096 < |s.typ| && (s.typ[v / 4096] == Allocated || s.typ[v / 4096] == Reserved)
  }

  lemma SmallAccepted(t: Heap, v: nat, p: nat, k: nat, i: nat)
    requires HInv(t) && p in t.small && p == v / 4096 && k == t.small[p].size && i == v % 4096 / SmallSize(k) && v % 4096 % SmallSize(k) == 0
    ensures FreeBytes(t, v).Done? <==> i in t.small[p].used
    ensures v == p * 4096 + i * SmallSize(k)
  {
    assert v % 4096 == i * SmallSize(k) by { assert k < 5; }
  }

  lemma TinyAccepted(t: Heap, v: nat, b: Slot, k: nat, o: nat)
    requires HInv(t) && b in t.tiny && b.p in t.small && k == t.tiny[b].size && t.small[b.p].size == k + 2
    requires b.p == v / 4096 && b.i == v % 4096 / SmallSize(k + 2) && o == v % 4096 % SmallSize(k + 2) && o > 0
    ensures FreeBytes(t, v).Done? <==> o % TinySize(k) == 0 && Live(t, TinyUnit(b, o / TinySize(k)))
    ensures v == b.p * 4096 + b.i * SmallSize(k + 2) + o
    ensures o % TinySize(k) == 0 ==> v == b.p * 4096 + b.i * SmallSize(k + 2) + o / TinySize(k) * TinySize(k)
  {
    assert k < 3;
  }

  /** free accepts the addresses of blocks and pieces in use, every address in the first page of a
      block of pages (for the first part of a two-part block see FreePair), and no other: any other
      address is a panic, a second free among them. */
  lemma AcceptedIff(t: Heap, v: nat)
    requires HInv(t) && (v / 4096 < |t.pages.typ| ==> t.pages.typ[v / 4096] != Cont)
    ensures FreeBytes(t, v).Done? <==>
      PageStart(t.pages, v) || (exists b :: BlockStart(t, b, v)) || (exists b, j :: PieceStart(t, b, j, v))
  {
    var p := v / 4096;
    forall b | BlockStart(t, b, v) ensures FreeBytes(t, v).Done? && b.p == p { BlockAccepted(t, b, v); }
    forall b, j | PieceStart(t, b, j, v) ensures FreeBytes(t, v).Done? {
      ClassifyExact(t, TinyUnit(b, j));
    }
    if p < |t.pages.typ| && t.pages.typ[p] != Small {
      FreeSubEffect(t.pages, p);
    } else if p < |t.pages.typ| && FreeBytes(t, v).Done? {
      InSmallPage(t, v, p);
    }
  }

  lemma BlockAccepted(t: Heap, b: Slot, v: nat)
    requires HInv(t) && BlockStart(t, b, v)
    ensures FreeBytes(t, v).Done? && b.p == v / 4096
  {
    var k := t.small[b.p].size;
    DecodeSmall(b.p, b.i, k);
    SmallAccepted(t, v, b.p, k, b.i);
  }

  lemma InSmallPage(t: Heap, v: nat, p: nat)
    requires HInv(t) && p == v / 4096 && p in t.small && FreeBytes(t, v).Done?
    ensures (exists b :: BlockStart(t, b, v)) || (exists b, j :: PieceStart(t, b, j, v))
  {
    var k := t.small[p].size;
    var b := Slot(p, v % 4096 / SmallSize(k));
    var o := v % 4096 % SmallSize(k);
    if o == 0 {
      SmallAccepted(t, v, p, k, b.i);
      assert BlockStart(t, b, v);
    } else {
      assert Hosted(t.small, b, t.tiny[b].size + 2);
      TinyAccepted(t, v, b, t.tiny[b].size, o);
      assert PieceStart(t, b, o / TinySize(t.tiny[b].size), v);
    }
  }
}
