/** The small and tiny tiers on top of the page allocator (mm.c: small_alloc, small_free,
    tiny_alloc, tiny_free, free). */
module Tiers {
  import opened Lists
  import opened Pow2
  import opened Buddy
  import opened BuddyCont
  import opened BuddyKeeps
  import opened Sizing

  /** struct page of type ALLOCATED_SMALL: small_allocsize, and small_bitmap as a set. */
  datatype SmallPage = SmallPage(size: nat, used: set<nat>)

  /** struct tiny_allocdata, the header of a tiny block: tiny_allocsize, and tiny_bitmap. */
  datatype TinyBlock = TinyBlock(size: nat, used: set<nat>)

  /** Block i of small page p. */
  datatype Slot = Slot(p: nat, i: nat)

  datatype Heap = Heap(pages: Mem, small: map<nat, SmallPage>, tiny: map<Slot, TinyBlock>,
                       smallL: seq<seq<nat>>, tinyL: seq<seq<Slot>>)

  /** Blocks in a small page of size k. */
  function PerPage(k: nat): nat {
    if k == 0 then 32 else if k == 1 then 16 else if k == 2 then 8 else if k == 3 then 4 else 2
  }

  /** The bits of a tiny block that its header takes. */
  function Header(k: nat): set<nat> {
    if k == 0 then {0, 1} else {0}
  }

  /** All n bits are set. */
  predicate Full(used: set<nat>, n: nat) {
    forall i :: 0 <= i < n ==> i in used
  }

  /** FIND_NEXT_BIT: the lowest bit from i on that is not set; n if there is none. */
  function Lowest(used: set<nat>, i: nat, n: nat): (r: nat)
    requires i <= n
    ensures i <= r <= n && (r < n ==> r !in used) && forall j :: i <= j < r ==> j in used
    decreases n - i
  {
    if i == n || i !in used then i else Lowest(used, i + 1, n)
  }

  // ------------------------------------------------------------- invariant

  ghost predicate Typed(t: Heap) {
    && |t.pages.ord| == |t.pages.typ|
    && (forall p :: p in t.small ==> p < |t.pages.typ| && t.pages.typ[p] == Small && t.pages.ord[p] == 0)
    && (forall p :: 0 <= p < |t.pages.typ| && t.pages.typ[p] == Small ==> p in t.small)
  }

  ghost predicate SmallOk(small: map<nat, SmallPage>) {
    forall p :: p in small ==> small[p].size < 5 && small[p].used != {} && forall i :: i in small[p].used ==> i < PerPage(small[p].size)
  }

  /** List k has exactly the pages of that size that are not full. */
  ghost predicate SmallListed(l: seq<nat>, small: map<nat, SmallPage>, k: nat) {
    NoDup(l) && forall p :: p in l <==> p in small && small[p].size == k && !Full(small[p].used, PerPage(k))
  }

  ghost predicate SmallLists(smallL: seq<seq<nat>>, small: map<nat, SmallPage>) {
    |smallL| == 5 && forall k :: 0 <= k < 5 ==> SmallListed(smallL[k], small, k)
  }

  /** Slot b is a block in use of a small page of size k. */
  ghost predicate Hosted(small: map<nat, SmallPage>, b: Slot, k: nat) {
    b.p in small && small[b.p].size == k && b.i in small[b.p].used
  }

  ghost predicate TinyOk(tiny: map<Slot, TinyBlock>, small: map<nat, SmallPage>) {
    forall b :: b in tiny ==>
      && tiny[b].size < 3 && Hosted(small, b, tiny[b].size + 2)
      && Header(tiny[b].size) < tiny[b].used && forall j :: j in tiny[b].used ==> j < 32
  }

  ghost predicate TinyListed(l: seq<Slot>, tiny: map<Slot, TinyBlock>, k: nat) {
    NoDup(l) && forall b :: b in l <==> b in tiny && tiny[b].size == k && !Full(tiny[b].used, 32)
  }

  ghost predicate TinyLists(tinyL: seq<seq<Slot>>, tiny: map<Slot, TinyBlock>) {
    |tinyL| == 3 && forall k :: 0 <= k < 3 ==> TinyListed(tinyL[k], tiny, k)
  }

  ghost predicate HInv(t: Heap) {
    && Inv(t.pages, {}) && Typed(t) && SmallOk(t.small) && SmallLists(t.smallL, t.small)
    && TinyOk(t.tiny, t.small) && TinyLists(t.tinyL, t.tiny)
  }

  // ------------------------------------------------------------- live allocations

  /** A page-tier block, a block of a small page, or a piece of a tiny block. */
  datatype Unit = Block(p: nat) | SmallUnit(b: Slot) | TinyUnit(b: Slot, j: nat)

  ghost predicate Live(t: Heap, u: Unit) {
    match u
    case Block(p) => p < |t.pages.typ| && (t.pages.typ[p] == Allocated || t.pages.typ[p] == Cont)
    case SmallUnit(b) => b.p in t.small && b.i in t.small[b.p].used && b !in t.tiny
    case TinyUnit(b, j) => b in t.tiny && j in t.tiny[b].used && j !in Header(t.tiny[b].size)
  }

  /** Live, with all that says where. */
  ghost predicate Placed(t: Heap, u: Unit) {
    Live(t, u) && if u.Block? then u.p < |t.pages.ord| else u.b.p in t.small
  }

  /** First byte and length. */
  ghost function Start(t: Heap, u: Unit): nat
    requires Placed(t, u)
  {
    match u
    case Block(p) => p * 4096
    case SmallUnit(b) => b.p * 4096 + b.i * SmallSize(t.small[b.p].size)
    case TinyUnit(b, j) => b.p * 4096 + b.i * SmallSize(t.small[b.p].size) + j * TinySize(t.tiny[b].size)
  }

  ghost function Len(t: Heap, u: Unit): nat
    requires Placed(t, u)
  {
    match u
    case Block(p) => Pow(t.pages.ord[p]) * 4096
    case SmallUnit(b) => SmallSize(t.small[b.p].size)
    case TinyUnit(b, j) => TinySize(t.tiny[b].size)
  }

  /** The slot of a small page a unit lies in, and its bytes within that slot. */
  lemma SlotBytes(k: nat, i: nat, i': nat)
    requires k < 5 && i < PerPage(k) && i' < PerPage(k)
    ensures i < i' ==> i * SmallSize(k) + SmallSize(k) <= i' * SmallSize(k)
    ensures i * SmallSize(k) + SmallSize(k) <= 4096
  {
  }

  lemma PieceBytes(k: nat, j: nat, j': nat)
    requires k < 3 && j < 32 && j' < 32
    ensures j < j' ==> j * TinySize(k) + TinySize(k) <= j' * TinySize(k)
    ensures j * TinySize(k) + TinySize(k) <= SmallSize(k + 2)
  {
  }

  lemma InSlot(t: Heap, u: Unit)
    requires HInv(t) && Live(t, u) && !u.Block?
    ensures Placed(t, u) && t.small[u.b.p].size < 5 && u.b.i < PerPage(t.small[u.b.p].size)
    ensures var s := u.b.p * 4096 + u.b.i * SmallSize(t.small[u.b.p].size);
      s <= Start(t, u) && Start(t, u) + Len(t, u) <= s + SmallSize(t.small[u.b.p].size)
  {
    if u.TinyUnit? {
      assert Hosted(t.small, u.b, t.tiny[u.b].size + 2);
      PieceBytes(t.tiny[u.b].size, u.j, u.j);
    }
  }

  ghost predicate Apart(t: Heap, u: Unit, v: Unit) {
    Placed(t, u) && Placed(t, v) &&
    (Start(t, u) + Len(t, u) <= Start(t, v) || Start(t, v) + Len(t, v) <= Start(t, u))
  }

  /** Any two live allocations of the three tiers occupy disjoint bytes. */
  lemma LiveDisjoint(t: Heap, u: Unit, v: Unit)
    requires HInv(t) && Live(t, u) && Live(t, v) && u != v
    ensures Apart(t, u, v)
  {
    if u.Block? {
      BlockApart(t, u, v);
    } else if v.Block? {
      BlockApart(t, v, u);
    } else if u.b == v.b {
      SameSlotApart(t, u, v);
    } else {
      OtherSlotApart(t, u, v);
    }
  }

  lemma SameSlotApart(t: Heap, u: Unit, v: Unit)
    requires HInv(t) && Live(t, u) && Live(t, v) && u != v && !u.Block? && !v.Block? && u.b == v.b
    ensures Apart(t, u, v)
  {
    PieceBytes(t.tiny[u.b].size, u.j, v.j);
    PieceBytes(t.tiny[u.b].size, v.j, u.j);
  }

  lemma OtherSlotApart(t: Heap, u: Unit, v: Unit)
    requires HInv(t) && Live(t, u) && Live(t, v) && !u.Block? && !v.Block? && u.b != v.b
    ensures Apart(t, u, v)
  {
    InSlot(t, u);
    InSlot(t, v);
    SlotsApart(u.b, t.small[u.b.p].size, v.b, t.small[v.b.p].size);
  }

  /** The bytes of different blocks of small pages. */
  lemma SlotsApart(b: Slot, k: nat, c: Slot, l: nat)
    requires k < 5 && l < 5 && b.i < PerPage(k) && c.i < PerPage(l) && b != c && (b.p == c.p ==> k == l)
    ensures var x, y := b.p * 4096 + b.i * SmallSize(k), c.p * 4096 + c.i * SmallSize(l);
      x + SmallSize(k) <= y || y + SmallSize(l) <= x
  {
    SlotBytes(k, b.i, b.i);
    SlotBytes(l, c.i, c.i);
    if b.p == c.p {
      SlotBytes(k, b.i, c.i);
      SlotBytes(k, c.i, b.i);
    }
  }

  /** A page-tier block meets no other unit. */
  lemma BlockApart(t: Heap, u: Unit, v: Unit)
    requires HInv(t) && Live(t, u) && Live(t, v) && u.Block? && u != v
    ensures Apart(t, u, v)
  {
    var s := t.pages;
    var q := if v.Block? then v.p else v.b.p;
    if !v.Block? {
      InSlot(t, v);
      SlotBytes(t.small[q].size, v.b.i, v.b.i);
    }
    BlocksApart(s, u.p, q);
  }

  lemma BlocksApart(s: Mem, p: nat, q: nat)
    requires Inv(s, {}) && p < |s.typ| && q < |s.typ| && Head(s, p) && Head(s, q) && p != q
    ensures p + Pow(s.ord[p]) <= q || q + Pow(s.ord[q]) <= p
  {
    assert BlockAt(s, p) && BlockAt(s, q);
  }

  // ------------------------------------------------------------- list lemmas

  /** Page x gets descriptor sp of size k, and list k is l. */
  lemma SmallChange(smallL: seq<seq<nat>>, small: map<nat, SmallPage>, x: nat, sp: SmallPage, l: seq<nat>)
    requires SmallLists(smallL, small) && sp.size < 5 && (x in small ==> small[x].size == sp.size) && NoDup(l)
    requires forall q :: q in l <==> if q == x then !Full(sp.used, PerPage(sp.size)) else q in smallL[sp.size]
    ensures SmallLists(smallL[sp.size := l], small[x := sp])
  {
    var ls, ps := smallL[sp.size := l], small[x := sp];
    forall k | 0 <= k < 5 ensures SmallListed(ls[k], ps, k) {
      assert SmallListed(smallL[k], small, k);
    }
  }

  lemma SmallDrop(smallL: seq<seq<nat>>, small: map<nat, SmallPage>, x: nat, l: seq<nat>)
    requires SmallLists(smallL, small) && x in small && small[x].size < 5 && NoDup(l)
    requires forall q :: q in l <==> q != x && q in smallL[small[x].size]
    ensures SmallLists(smallL[small[x].size := l], small - {x})
  {
    var ls, ps := smallL[small[x].size := l], small - {x};
    forall k | 0 <= k < 5 ensures SmallListed(ls[k], ps, k) {
      assert SmallListed(smallL[k], small, k);
    }
  }

  lemma TinyChange(tinyL: seq<seq<Slot>>, tiny: map<Slot, TinyBlock>, x: Slot, tb: TinyBlock, l: seq<Slot>)
    requires TinyLists(tinyL, tiny) && tb.size < 3 && (x in tiny ==> tiny[x].size == tb.size) && NoDup(l)
    requires forall q :: q in l <==> if q == x then !Full(tb.used, 32) else q in tinyL[tb.size]
    ensures TinyLists(tinyL[tb.size := l], tiny[x := tb])
  {
    var ls, bs := tinyL[tb.size := l], tiny[x := tb];
    forall k | 0 <= k < 3 ensures TinyListed(ls[k], bs, k) {
      assert TinyListed(tinyL[k], tiny, k);
    }
  }

  lemma TinyDrop(tinyL: seq<seq<Slot>>, tiny: map<Slot, TinyBlock>, x: Slot, l: seq<Slot>)
    requires TinyLists(tinyL, tiny) && x in tiny && tiny[x].size < 3 && NoDup(l)
    requires forall q :: q in l <==> q != x && q in tinyL[tiny[x].size]
    ensures TinyLists(tinyL[tiny[x].size := l], tiny - {x})
  {
    var ls, bs := tinyL[tiny[x].size := l], tiny - {x};
    forall k | 0 <= k < 3 ensures TinyListed(ls[k], bs, k) {
      assert TinyListed(tinyL[k], tiny, k);
    }
  }

  lemma NotFull(used: set<nat>, n: nat, i: nat)
    requires i < n && i !in used
    ensures !Full(used, n)
  {
  }

  // ------------------------------------------------------------- small_alloc

  /** small_alloc when list k has page p first. */
  function TakeBit(t: Heap, k: nat): (r: (Heap, Slot))
    requires HInv(t) && k < 5 && t.smallL[k] != []
  {
    var p := t.smallL[k][0];
    assert SmallListed(t.smallL[k], t.small, k) && p in t.smallL[k];
    var i := Lowest(t.small[p].used, 0, PerPage(k));
    var used := t.small[p].used + {i};
    var l := if Full(used, PerPage(k)) then Del(t.smallL[k], p) else t.smallL[k];
    (t.(small := t.small[p := SmallPage(k, used)], smallL := t.smallL[k := l]), Slot(p, i))
  }

  /** small_alloc when list k is empty: a page of its own; None is the page allocator's panic. */
  function TakePage(t: Heap, k: nat): (Heap, Option<Slot>)
    requires HInv(t) && k < 5
  {
    var (m, p) := Alloc(t.pages, 0);
    if p.None? then (t, None)
    else
      AllocSound(t.pages, 0);
      (t.(pages := Retype(m, p.value, Small), small := t.small[p.value := SmallPage(k, {0})],
          smallL := t.smallL[k := [p.value] + t.smallL[k]]), Some(Slot(p.value, 0)))
  }

  /** small_alloc */
  function SmallAlloc(t: Heap, k: nat): (Heap, Option<Slot>)
    requires HInv(t) && k < 5
  {
    if t.smallL[k] == [] then TakePage(t, k) else (TakeBit(t, k).0, Some(TakeBit(t, k).1))
  }

  /** Slot b of size k was taken; it was not in use; nothing else changed but the page tier's
      free blocks. */
  ghost predicate Got(t: Heap, d: Heap, k: nat, b: Slot) {
    && d.tiny == t.tiny && d.tinyL == t.tinyL && b !in t.tiny
    && b.p in d.small && d.small[b.p].size == k && b.i in d.small[b.p].used
    && (b.p in t.small ==> t.small[b.p].size == k && b.i !in t.small[b.p].used && d.small == t.small[b.p := SmallPage(k, t.small[b.p].used + {b.i})])
    && (b.p !in t.small ==> d.small == t.small[b.p := SmallPage(k, {b.i})] && !Live(t, Block(b.p)))
    && |d.pages.typ| == |t.pages.typ| && |t.pages.ord| == |t.pages.typ| && SameBut(t.pages, d.pages, b.p, b.p)
    && b.p < |d.pages.typ| && d.pages.typ[b.p] == Small
  }

  lemma TakeBitSound(t: Heap, k: nat)
    requires HInv(t) && k < 5 && t.smallL[k] != []
    ensures var (d, b) := TakeBit(t, k); HInv(d) && Got(t, d, k, b)
  {
    var (d, b) := TakeBit(t, k);
    var p, l := b.p, d.smallL[k];
    assert SmallListed(t.smallL[k], t.small, k) && p in t.smallL[k];
    DelNoDup(t.smallL[k], p);
    SmallChange(t.smallL, t.small, p, d.small[p], l);
    TakeBitRest(t, d, k, b);
  }

  lemma TakeBitRest(t: Heap, d: Heap, k: nat, b: Slot)
    requires HInv(t) && k < 5 && b.p in t.small && t.small[b.p].size == k && b.i < PerPage(k) && b.i !in t.small[b.p].used
    requires d == t.(small := t.small[b.p := SmallPage(k, t.small[b.p].used + {b.i})], smallL := d.smallL)
    requires SmallLists(d.smallL, d.small)
    ensures HInv(d) && Got(t, d, k, b)
  {
    forall x | x in d.tiny ensures Hosted(d.small, x, d.tiny[x].size + 2) {
      assert Hosted(t.small, x, t.tiny[x].size + 2);
    }
  }

  lemma TakePageSound(t: Heap, k: nat)
    requires HInv(t) && k < 5 && t.smallL[k] == [] && TakePage(t, k).1.Some?
    ensures var (d, b) := TakePage(t, k); HInv(d) && Got(t, d, k, b.value)
  {
    var (d, b) := TakePage(t, k);
    var p := b.value.p;
    AllocSound(t.pages, 0);
    AllocSame(t.pages, 0);
    var m := Alloc(t.pages, 0).0;
    RetypeAny(m, p, Small);
    assert p in t.small ==> InUse(t.pages, p);
    assert d.smallL[k] == [p];
    NotFull({0}, PerPage(k), 1);
    SmallChange(t.smallL, t.small, p, SmallPage(k, {0}), [p]);
    TakePageRest(t, m, d, k, p);
  }

  lemma TakePageRest(t: Heap, m: Mem, d: Heap, k: nat, p: nat)
    requires Typed(t) && SmallOk(t.small) && TinyOk(t.tiny, t.small) && TinyLists(t.tinyL, t.tiny)
    requires k < 5 && p !in t.small && !InUse(t.pages, p) && SameBut(t.pages, m, p, p)
    requires p < |m.typ| && m.ord[p] == 0 && Inv(Retype(m, p, Small), {})
    requires d == t.(pages := Retype(m, p, Small), small := t.small[p := SmallPage(k, {0})], smallL := d.smallL)
    requires SmallLists(d.smallL, d.small)
    ensures HInv(d) && Got(t, d, k, Slot(p, 0))
  {
    NewPageOk(t.small, p, k);
    TakePageTyped(t, m, d, p);
    TinyOnSmall(t.tiny, t.small, p, SmallPage(k, {0}));
    TakePageGot(t, m, d, k, p);
  }

  lemma TinyOnSmall(tiny: map<Slot, TinyBlock>, small: map<nat, SmallPage>, p: nat, sp: SmallPage)
    requires TinyOk(tiny, small) && p !in small
    ensures TinyOk(tiny, small[p := sp]) && forall x :: x in tiny ==> x.p != p
  {
    forall x | x in tiny ensures x.p != p && Hosted(small[p := sp], x, tiny[x].size + 2) {
      assert Hosted(small, x, tiny[x].size + 2);
    }
  }

  lemma NewPageOk(small: map<nat, SmallPage>, p: nat, k: nat)
    requires SmallOk(small) && k < 5
    ensures SmallOk(small[p := SmallPage(k, {0})])
  {
    assert 0 in SmallPage(k, {0}).used;
  }

  lemma TakePageGot(t: Heap, m: Mem, d: Heap, k: nat, p: nat)
    requires |t.pages.ord| == |t.pages.typ| && Slot(p, 0) !in t.tiny && p !in t.small && !InUse(t.pages, p)
    requires SameBut(t.pages, m, p, p) && p < |m.typ|
    requires d == t.(pages := Retype(m, p, Small), small := t.small[p := SmallPage(k, {0})], smallL := d.smallL)
    ensures Got(t, d, k, Slot(p, 0))
  {
    assert !Live(t, Block(p));
    assert d.small[p].used == {0};
    RetypeSame(m, p, Small);
    SameTrans(t.pages, m, d.pages, p, p);
  }

  lemma TakePageTyped(t: Heap, m: Mem, d: Heap, p: nat)
    requires Typed(t) && p !in t.small && SameBut(t.pages, m, p, p) && p < |m.typ| && m.ord[p] == 0
    requires d.pages == Retype(m, p, Small) && d.small.Keys == t.small.Keys + {p}
    ensures Typed(d)
  {
    forall q | q in d.small ensures q < |d.pages.typ| && d.pages.typ[q] == Small && d.pages.ord[q] == 0 {
      if q != p { assert InUse(t.pages, q); }
    }
    forall q | 0 <= q < |d.pages.typ| && d.pages.typ[q] == Small ensures q in d.small {
      if q != p { assert InUse(m, q) && InUse(t.pages, q); }
    }
  }

  lemma SmallAllocSound(t: Heap, k: nat)
    requires HInv(t) && k < 5 && SmallAlloc(t, k).1.Some?
    ensures var (d, b) := SmallAlloc(t, k); HInv(d) && Got(t, d, k, b.value)
  {
    if t.smallL[k] == [] { TakePageSound(t, k); } else { TakeBitSound(t, k); }
  }

  /** What stays in place keeps its size ... */
  ghost predicate SameSizes(t: Heap, d: Heap) {
    && (forall p :: p in t.small && p in d.small ==> d.small[p].size == t.small[p].size)
    && (forall b :: b in t.tiny && b in d.tiny ==> d.tiny[b].size == t.tiny[b].size)
    && (forall p: nat :: Placed(t, Block(p)) && Placed(d, Block(p)) ==>
          d.pages.ord[p] == t.pages.ord[p] && d.pages.typ[p] == t.pages.typ[p])
  }

  /** ... so an allocation that survives keeps its first byte and its length. */
  ghost predicate Kept(t: Heap, d: Heap) {
    forall u :: Placed(t, u) && Placed(d, u) ==> Start(d, u) == Start(t, u) && Len(d, u) == Len(t, u)
  }

  lemma SizesKeep(t: Heap, d: Heap)
    requires SameSizes(t, d)
    ensures Kept(t, d)
  {
    forall u | Placed(t, u) && Placed(d, u) ensures Start(d, u) == Start(t, u) && Len(d, u) == Len(t, u) {
      match u
      case Block(p) => assert d.pages.ord[p] == t.pages.ord[p];
      case SmallUnit(b) => assert d.small[b.p].size == t.small[b.p].size;
      case TinyUnit(b, j) => assert d.small[b.p].size == t.small[b.p].size && d.tiny[b].size == t.tiny[b].size;
    }
  }

  /** Blocks in use of the page tier keep their order, but for p and q, which come or go. */
  lemma PagesSameSizes(t: Heap, d: Heap, p: nat, q: nat)
    requires SameBut(t.pages, d.pages, p, q) && !(Live(t, Block(p)) && Live(d, Block(p))) && !(Live(t, Block(q)) && Live(d, Block(q)))
    requires forall q :: q in t.small && q in d.small ==> d.small[q].size == t.small[q].size
    requires forall b :: b in t.tiny && b in d.tiny ==> d.tiny[b].size == t.tiny[b].size
    ensures SameSizes(t, d)
  {
    forall x: nat | Placed(t, Block(x)) && Placed(d, Block(x)) ensures d.pages.ord[x] == t.pages.ord[x] && d.pages.typ[x] == t.pages.typ[x] {
      assert InUse(t.pages, x);
    }
  }

  lemma GotSizes(t: Heap, d: Heap, k: nat, b: Slot)
    requires Typed(t) && Typed(d) && Got(t, d, k, b)
    ensures SameSizes(t, d)
  {
    PagesSameSizes(t, d, b.p, b.p);
  }

  lemma GoneSizes(t: Heap, d: Heap, b: Slot)
    requires Typed(t) && Gone(t, d, b)
    ensures SameSizes(t, d)
  {
    PagesSameSizes(t, d, b.p, b.p);
  }

  /** Exactly the new unit is live besides those that were. */
  ghost predicate Added(t: Heap, d: Heap, n: Unit) {
    !Live(t, n) && forall u :: Live(d, u) <==> Live(t, u) || u == n
  }

  lemma GotAdds(t: Heap, d: Heap, k: nat, b: Slot)
    requires Typed(t) && Typed(d) && TinyOk(t.tiny, t.small) && Got(t, d, k, b)
    ensures Added(t, d, SmallUnit(b))
  {
    forall u ensures Live(d, u) <==> Live(t, u) || u == SmallUnit(b) {
      if u.Block? && u.p < |t.pages.typ| && u.p != b.p {
        assert InUse(t.pages, u.p) <==> InUse(d.pages, u.p);
      }
    }
  }

  // ------------------------------------------------------------- small_free

  /** The list of page p, with p on it: a full page is pushed. */
  function WithPage(t: Heap, p: nat): seq<nat>
    requires p in t.small && t.small[p].size < |t.smallL|
  {
    var k := t.small[p].size;
    if Full(t.small[p].used, PerPage(k)) then [p] + t.smallL[k] else t.smallL[k]
  }

  /** small_free of block b, whose bit is set. */
  function SmallFree(t: Heap, b: Slot): Heap
    requires HInv(t) && b.p in t.small && b.i in t.small[b.p].used
  {
    var k, used := t.small[b.p].size, t.small[b.p].used;
    var l := WithPage(t, b.p);
    if used - {b.i} == {} then
      DropReady(t.pages, b.p);
      t.(pages := Release(Retype(t.pages, b.p, Allocated), b.p), small := t.small - {b.p}, smallL := t.smallL[k := Del(l, b.p)])
    else t.(small := t.small[b.p := SmallPage(k, used - {b.i})], smallL := t.smallL[k := l])
  }

  /** The page goes back to the page tier: its type is ALLOCATED again, then it is freed. */
  lemma DropReady(s: Mem, p: nat)
    requires Inv(s, {}) && InUse(s, p)
    ensures var a := Retype(s, p, Allocated);
      && Inv(a, {}) && InUse(a, p) && a.ord[p] < |a.freeL| && Inv(Release(a, p), {}) && SameBut(s, Release(a, p), p, p) && !InUse(Release(a, p), p)
  {
    RetypeAny(s, p, Allocated);
    RetypeSame(s, p, Allocated);
    var a := Retype(s, p, Allocated);
    ReleaseSame(a, p);
    ReleaseSound(a, p);
    SameTrans(s, a, Release(a, p), p, p);
  }

  /** Block b is given back, and with it the page if it was the last one; nothing else
      changed. */
  ghost predicate Gone(t: Heap, d: Heap, b: Slot) {
    && d.tiny == t.tiny && d.tinyL == t.tinyL && b.p in t.small && b.i in t.small[b.p].used
    && SameBut(t.pages, d.pages, b.p, b.p)
    && (if t.small[b.p].used == {b.i} then d.small == t.small - {b.p} && !InUse(d.pages, b.p)
        else d.small == t.small[b.p := SmallPage(t.small[b.p].size, t.small[b.p].used - {b.i})] && d.pages == t.pages)
  }

  /** The list of p's size with p on it for sure. */
  lemma Pushed(t: Heap, p: nat)
    requires HInv(t) && p in t.small
    ensures t.small[p].size < 5 && NoDup(WithPage(t, p)) && forall q :: q in WithPage(t, p) <==> q == p || q in t.smallL[t.small[p].size]
  {
    var k := t.small[p].size;
    assert SmallListed(t.smallL[k], t.small, k);
    if Full(t.small[p].used, PerPage(k)) { AddNoDup(t.smallL[k], p); }
  }

  /** b is not hosting a tiny block. */
  lemma SmallFreeSound(t: Heap, b: Slot)
    requires HInv(t) && b.p in t.small && b.i in t.small[b.p].used && b !in t.tiny
    ensures HInv(SmallFree(t, b)) && Gone(t, SmallFree(t, b), b)
  {
    Pushed(t, b.p);
    if t.small[b.p].used - {b.i} == {} {
      assert t.small[b.p].used == {b.i};
      LastGone(t, b);
    } else {
      assert t.small[b.p].used != {b.i};
      BitGone(t, b);
    }
  }

  lemma BitGone(t: Heap, b: Slot)
    requires HInv(t) && b.p in t.small && b.i in t.small[b.p].used && b !in t.tiny && t.small[b.p].used - {b.i} != {}
    ensures HInv(SmallFree(t, b)) && Gone(t, SmallFree(t, b), b)
  {
    var d := SmallFree(t, b);
    var k, used := t.small[b.p].size, t.small[b.p].used;
    Pushed(t, b.p);
    NotFull(used - {b.i}, PerPage(k), b.i);
    SmallChange(t.smallL, t.small, b.p, SmallPage(k, used - {b.i}), d.smallL[k]);
    BitParts(t, d, b);
  }

  lemma BitParts(t: Heap, d: Heap, b: Slot)
    requires HInv(t) && b.p in t.small && b.i in t.small[b.p].used && b !in t.tiny && t.small[b.p].used - {b.i} != {}
    requires d == t.(small := t.small[b.p := SmallPage(t.small[b.p].size, t.small[b.p].used - {b.i})], smallL := d.smallL)
    requires SmallLists(d.smallL, d.small)
    ensures HInv(d) && Gone(t, d, b)
  {
    assert t.small[b.p].used != {b.i};
    assert SmallOk(d.small);
    forall x | x in t.tiny ensures Hosted(d.small, x, t.tiny[x].size + 2) {
      assert Hosted(t.small, x, t.tiny[x].size + 2);
    }
  }

  lemma LastGone(t: Heap, b: Slot)
    requires HInv(t) && b.p in t.small && b !in t.tiny && t.small[b.p].used == {b.i}
    ensures HInv(SmallFree(t, b)) && Gone(t, SmallFree(t, b), b)
  {
    Pushed(t, b.p);
    DelNoDup(WithPage(t, b.p), b.p);
    SmallDrop(t.smallL, t.small, b.p, Del(WithPage(t, b.p), b.p));
    DropReady(t.pages, b.p);
    NoTinyOn(t.tiny, t.small, b);
    LastParts(t, SmallFree(t, b), b);
  }

  /** The only block of a page hosts no tiny block, so none is lost with the page. */
  lemma NoTinyOn(tiny: map<Slot, TinyBlock>, small: map<nat, SmallPage>, b: Slot)
    requires TinyOk(tiny, small) && b.p in small && b !in tiny && small[b.p].used == {b.i}
    ensures TinyOk(tiny, small - {b.p})
  {
    forall x | x in tiny ensures Hosted(small - {b.p}, x, tiny[x].size + 2) {
      assert Hosted(small, x, tiny[x].size + 2);
      assert x.p == b.p && x.i == b.i ==> x == b;
    }
  }

  lemma LastParts(t: Heap, d: Heap, b: Slot)
    requires Typed(t) && SmallOk(t.small) && b.p in t.small && t.small[b.p].used == {b.i} && TinyLists(t.tinyL, t.tiny)
    requires d == t.(pages := d.pages, small := t.small - {b.p}, smallL := d.smallL)
    requires Inv(d.pages, {}) && SameBut(t.pages, d.pages, b.p, b.p) && !InUse(d.pages, b.p)
    requires SmallLists(d.smallL, d.small) && TinyOk(d.tiny, d.small)
    ensures HInv(d) && Gone(t, d, b)
  {
    DropTyped(t, d, b.p);
  }

  lemma DropTyped(t: Heap, d: Heap, p: nat)
    requires Typed(t) && p in t.small && SameBut(t.pages, d.pages, p, p) && !InUse(d.pages, p)
    requires d.small == t.small - {p}
    ensures Typed(d)
  {
    forall q | q in d.small ensures q < |d.pages.typ| && d.pages.typ[q] == Small && d.pages.ord[q] == 0 {
      assert InUse(t.pages, q);
    }
    forall q | 0 <= q < |d.pages.typ| && d.pages.typ[q] == Small ensures q in d.small {
      assert InUse(d.pages, q) && InUse(t.pages, q);
    }
  }

  /** Exactly the given unit is no longer live. */
  ghost predicate Removed(t: Heap, d: Heap, n: Unit) {
    Live(t, n) && forall u :: Live(d, u) <==> Live(t, u) && u != n
  }

  lemma GoneRemoves(t: Heap, d: Heap, b: Slot)
    requires Typed(t) && Typed(d) && TinyOk(t.tiny, t.small) && Gone(t, d, b) && b !in t.tiny
    ensures Removed(t, d, SmallUnit(b))
  {
    forall u ensures Live(d, u) <==> Live(t, u) && u != SmallUnit(b) {
      if u.Block? && u.p < |t.pages.typ| {
        assert u.p != b.p ==> (InUse(t.pages, u.p) <==> InUse(d.pages, u.p));
      }
    }
  }

  // ------------------------------------------------------------- tiny_alloc

  /** tiny_alloc when list k has block b first. */
  function TakePiece(t: Heap, k: nat): (Heap, Unit)
    requires HInv(t) && k < 3 && t.tinyL[k] != []
  {
    var b := t.tinyL[k][0];
    assert TinyListed(t.tinyL[k], t.tiny, k) && b in t.tinyL[k];
    var j := Lowest(t.tiny[b].used, 0, 32);
    var used := t.tiny[b].used + {j};
    var l := if Full(used, 32) then Del(t.tinyL[k], b) else t.tinyL[k];
    (t.(tiny := t.tiny[b := TinyBlock(k, used)], tinyL := t.tinyL[k := l]), TinyUnit(b, j))
  }

  /** The small block that becomes a tiny block: its header, and one piece in use. */
  function NewTiny(d: Heap, k: nat, b: Slot): (Heap, Unit)
    requires k < |d.tinyL|
  {
    var j := Lowest(Header(k), 0, 32);
    (d.(tiny := d.tiny[b := TinyBlock(k, Header(k) + {j})], tinyL := d.tinyL[k := [b] + d.tinyL[k]]), TinyUnit(b, j))
  }

  /** tiny_alloc */
  function TinyAlloc(t: Heap, k: nat): (Heap, Option<Unit>)
    requires HInv(t) && k < 3
  {
    if t.tinyL[k] != [] then (TakePiece(t, k).0, Some(TakePiece(t, k).1))
    else
      var (d, b) := SmallAlloc(t, k + 2);
      if b.None? then (t, None)
      else
        SmallAllocSound(t, k + 2);
        (NewTiny(d, k, b.value).0, Some(NewTiny(d, k, b.value).1))
  }

  lemma TakePieceSound(t: Heap, k: nat)
    requires HInv(t) && k < 3 && t.tinyL[k] != []
    ensures var (d, u) := TakePiece(t, k); HInv(d) && u.TinyUnit? && Added(t, d, u) && d.tiny[u.b].size == k
  {
    var (d, u) := TakePiece(t, k);
    var b := u.b;
    assert TinyListed(t.tinyL[k], t.tiny, k) && b in t.tinyL[k];
    DelNoDup(t.tinyL[k], b);
    TinyChange(t.tinyL, t.tiny, b, d.tiny[b], d.tinyL[k]);
    assert Header(k) < t.tiny[b].used && t.tiny[b].used < d.tiny[b].used;
    PieceAdds(t, d, u);
  }

  lemma PieceAdds(t: Heap, d: Heap, u: Unit)
    requires u.TinyUnit? && u.b in t.tiny && u.j !in t.tiny[u.b].used && u.j !in Header(t.tiny[u.b].size)
    requires d == t.(tiny := t.tiny[u.b := TinyBlock(t.tiny[u.b].size, t.tiny[u.b].used + {u.j})], tinyL := d.tinyL)
    ensures Added(t, d, u)
  {
  }

  lemma HeaderBits(k: nat)
    ensures var j := Lowest(Header(k), 0, 32); j == (if k == 0 then 2 else 1) && j !in Header(k) && Header(k) < Header(k) + {j}
    ensures !Full(Header(k) + {Lowest(Header(k), 0, 32)}, 32)
  {
    var j := Lowest(Header(k), 0, 32);
    assert 0 in Header(k) && (1 in Header(k) <==> k == 0) && 2 !in Header(k);
    assert j == if k == 0 then 2 else 1;
    NotFull(Header(k) + {j}, 32, 3);
  }

  lemma NewTinySound(d: Heap, k: nat, b: Slot)
    requires HInv(d) && k < 3 && Hosted(d.small, b, k + 2) && b !in d.tiny && d.tinyL[k] == []
    ensures HInv(NewTiny(d, k, b).0)
  {
    var e := NewTiny(d, k, b).0;
    HeaderBits(k);
    assert e.tinyL[k] == [b];
    TinyChange(d.tinyL, d.tiny, b, e.tiny[b], [b]);
  }

  /** The block is no longer a small unit, its first piece is a tiny one. */
  lemma NewTinyAdds(t: Heap, d: Heap, k: nat, b: Slot)
    requires k < |d.tinyL| && Added(t, d, SmallUnit(b)) && d.tiny == t.tiny && b !in t.tiny
    ensures Added(t, NewTiny(d, k, b).0, NewTiny(d, k, b).1)
  {
    HeaderBits(k);
    var (e, n) := NewTiny(d, k, b);
    assert !Live(t, SmallUnit(b));
    forall u ensures Live(e, u) <==> Live(t, u) || u == n {
      assert Live(d, u) <==> Live(t, u) || u == SmallUnit(b);
    }
  }

  lemma TinyAllocSizes(t: Heap, k: nat)
    requires HInv(t) && k < 3 && TinyAlloc(t, k).1.Some?
    ensures SameSizes(t, TinyAlloc(t, k).0)
  {
    if t.tinyL[k] != [] {
      var (d, u) := TakePiece(t, k);
      assert TinyListed(t.tinyL[k], t.tiny, k) && u.b in t.tinyL[k];
      BlockSizes(t, t, d, u.b, k);
    } else {
      SmallAllocSound(t, k + 2);
      var (d, b) := SmallAlloc(t, k + 2);
      GotSizes(t, d, k + 2, b.value);
      BlockSizes(t, d, NewTiny(d, k, b.value).0, b.value, k);
    }
  }

  /** A tiny block is added, or its bitmap changes. */
  lemma BlockSizes(t: Heap, d: Heap, e: Heap, b: Slot, k: nat)
    requires SameSizes(t, d) && d.tiny == t.tiny && (b in t.tiny ==> t.tiny[b].size == k)
    requires e.pages == d.pages && e.small == d.small && b in e.tiny && e.tiny == d.tiny[b := e.tiny[b]] && e.tiny[b].size == k
    ensures SameSizes(t, e)
  {
  }

  /** Allocating a tiny piece adds exactly that piece. */
  lemma TinyAllocSound(t: Heap, k: nat)
    requires HInv(t) && k < 3 && TinyAlloc(t, k).1.Some?
    ensures var (d, u) := TinyAlloc(t, k);
      HInv(d) && u.value.TinyUnit? && Added(t, d, u.value) && u.value.b in d.tiny && d.tiny[u.value.b].size == k
  {
    if t.tinyL[k] != [] {
      TakePieceSound(t, k);
    } else {
      SmallAllocSound(t, k + 2);
      var (d, b) := SmallAlloc(t, k + 2);
      GotAdds(t, d, k + 2, b.value);
      NewTinySound(d, k, b.value);
      NewTinyAdds(t, d, k, b.value);
    }
  }

  // ------------------------------------------------------------- tiny_free

  function WithBlock(t: Heap, b: Slot): seq<Slot>
    requires b in t.tiny && t.tiny[b].size < |t.tinyL|
  {
    var k := t.tiny[b].size;
    if Full(t.tiny[b].used, 32) then [b] + t.tinyL[k] else t.tinyL[k]
  }

  /** tiny_free of piece j of block b, whose bit is set. */
  function TinyFree(t: Heap, b: Slot, j: nat): Heap
    requires HInv(t) && Live(t, TinyUnit(b, j))
  {
    var k, used := t.tiny[b].size, t.tiny[b].used;
    if used - {j} == Header(k) then
      DissolveSound(t, b);
      SmallFree(Dissolve(t, b), b)
    else t.(tiny := t.tiny[b := TinyBlock(k, used - {j})], tinyL := t.tinyL[k := WithBlock(t, b)])
  }

  /** The tiny block is a small block again. */
  function Dissolve(t: Heap, b: Slot): Heap
    requires b in t.tiny && t.tiny[b].size < |t.tinyL|
  {
    t.(tiny := t.tiny - {b}, tinyL := t.tinyL[t.tiny[b].size := Del(WithBlock(t, b), b)])
  }

  lemma PushedBlock(t: Heap, b: Slot)
    requires TinyOk(t.tiny, t.small) && TinyLists(t.tinyL, t.tiny) && b in t.tiny
    ensures t.tiny[b].size < 3 && NoDup(WithBlock(t, b)) && forall q :: q in WithBlock(t, b) <==> q == b || q in t.tinyL[t.tiny[b].size]
  {
    var k := t.tiny[b].size;
    assert TinyListed(t.tinyL[k], t.tiny, k);
    if Full(t.tiny[b].used, 32) { AddNoDup(t.tinyL[k], b); }
  }

  lemma DissolveSound(t: Heap, b: Slot)
    requires HInv(t) && b in t.tiny
    ensures var d := Dissolve(t, b);
      HInv(d) && b.p in d.small && b.i in d.small[b.p].used && b !in d.tiny && d.small == t.small && d.pages == t.pages
  {
    PushedBlock(t, b);
    DelNoDup(WithBlock(t, b), b);
    TinyDrop(t.tinyL, t.tiny, b, Del(WithBlock(t, b), b));
    assert Hosted(t.small, b, t.tiny[b].size + 2);
  }

  lemma PieceGone(t: Heap, b: Slot, j: nat)
    requires HInv(t) && Live(t, TinyUnit(b, j)) && t.tiny[b].used - {j} != Header(t.tiny[b].size)
    ensures HInv(TinyFree(t, b, j)) && Removed(t, TinyFree(t, b, j), TinyUnit(b, j))
  {
    var d := TinyFree(t, b, j);
    var k, used := t.tiny[b].size, t.tiny[b].used;
    PushedBlock(t, b);
    assert j < 32;
    NotFull(used - {j}, 32, j);
    TinyChange(t.tinyL, t.tiny, b, TinyBlock(k, used - {j}), WithBlock(t, b));
    assert Header(k) < used - {j};
    PieceOk(t.tiny, t.small, b, TinyBlock(k, used - {j}));
    PieceRemoves(t, d, b, j);
  }

  /** Another bitmap for a tiny block. */
  lemma PieceOk(tiny: map<Slot, TinyBlock>, small: map<nat, SmallPage>, b: Slot, tb: TinyBlock)
    requires TinyOk(tiny, small) && b in tiny && tb.size == tiny[b].size
    requires Header(tb.size) < tb.used && tb.used <= tiny[b].used
    ensures TinyOk(tiny[b := tb], small)
  {
  }

  lemma PieceRemoves(t: Heap, d: Heap, b: Slot, j: nat)
    requires b in t.tiny && Live(t, TinyUnit(b, j))
    requires d == t.(tiny := t.tiny[b := TinyBlock(t.tiny[b].size, t.tiny[b].used - {j})], tinyL := d.tinyL)
    ensures Removed(t, d, TinyUnit(b, j))
  {
  }

  /** When the last piece goes, the block goes too. */
  lemma LastPieceGone(t: Heap, b: Slot, j: nat)
    requires HInv(t) && Live(t, TinyUnit(b, j)) && t.tiny[b].used - {j} == Header(t.tiny[b].size)
    ensures HInv(TinyFree(t, b, j)) && Removed(t, TinyFree(t, b, j), TinyUnit(b, j))
  {
    DissolveSound(t, b);
    var d := Dissolve(t, b);
    SmallFreeSound(d, b);
    GoneRemoves(d, SmallFree(d, b), b);
    forall u ensures Live(d, u) <==> (Live(t, u) && u != TinyUnit(b, j)) || u == SmallUnit(b) {
      DissolvedLive(t, d, b, j, u);
    }
  }

  lemma DissolvedLive(t: Heap, d: Heap, b: Slot, j: nat, u: Unit)
    requires b in t.tiny && Hosted(t.small, b, t.tiny[b].size + 2) && t.tiny[b].used - {j} == Header(t.tiny[b].size) && j in t.tiny[b].used
    requires d.pages == t.pages && d.small == t.small && d.tiny == t.tiny - {b}
    ensures Live(d, u) <==> (Live(t, u) && u != TinyUnit(b, j)) || u == SmallUnit(b)
  {
    if u.TinyUnit? && u.b == b && u.j != j {
      assert u.j in t.tiny[b].used ==> u.j in t.tiny[b].used - {j};
    }
  }

  /** Freeing a tiny piece removes exactly that piece. */
  lemma TinyFreeSound(t: Heap, b: Slot, j: nat)
    requires HInv(t) && Live(t, TinyUnit(b, j))
    ensures HInv(TinyFree(t, b, j)) && Removed(t, TinyFree(t, b, j), TinyUnit(b, j))
  {
    if t.tiny[b].used - {j} == Header(t.tiny[b].size) { LastPieceGone(t, b, j); } else { PieceGone(t, b, j); }
  }

  lemma TinyFreeSizes(t: Heap, b: Slot, j: nat)
    requires HInv(t) && Live(t, TinyUnit(b, j))
    ensures SameSizes(t, TinyFree(t, b, j))
  {
    if t.tiny[b].used - {j} == Header(t.tiny[b].size) {
      DissolveSound(t, b);
      var d := Dissolve(t, b);
      SmallFreeSound(d, b);
      GoneSizes(d, SmallFree(d, b), b);
      DissolvedSizes(t, d, SmallFree(d, b), b);
    } else {
      BlockSizes(t, t, TinyFree(t, b, j), b, t.tiny[b].size);
    }
  }

  lemma DissolvedSizes(t: Heap, d: Heap, e: Heap, b: Slot)
    requires d.pages == t.pages && d.small == t.small && d.tiny == t.tiny - {b} && SameSizes(d, e)
    requires e.tiny == d.tiny
    ensures SameSizes(t, e)
  {
    forall p: nat | Placed(t, Block(p)) && Placed(e, Block(p)) ensures e.pages.ord[p] == t.pages.ord[p] && e.pages.typ[p] == t.pages.typ[p] {
      assert Placed(d, Block(p));
    }
  }
}
