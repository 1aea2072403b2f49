/** alloc, free and get_alloc_len over the three tiers (mm.c). */
module TierAlloc {
  import opened Lists
  import opened Pow2
  import opened Buddy
  import opened BuddyCont
  import opened BuddyKeeps
  import opened Sizing
  import opened Tiers

  // ------------------------------------------------------------- addresses

  /** An address is taken apart into the page, the small block and the piece it was made of. */
  lemma DecodeSmall(p: nat, i: nat, k: nat)
    requires k < 5 && i < PerPage(k)
    ensures var v := p * 4096 + i * SmallSize(k); var o := v % 4096;
      v / 4096 == p && o / SmallSize(k) == i && o % SmallSize(k) == 0
  {
    assert i * SmallSize(k) < 4096;
    SplitAddress(p, i * SmallSize(k));
  }

  lemma SplitAddress(p: nat, o: nat)
    requires o < 4096
    ensures (p * 4096 + o) / 4096 == p && (p * 4096 + o) % 4096 == o
  {
  }

  lemma DecodeTiny(p: nat, i: nat, k: nat, j: nat)
    requires k < 3 && i < PerPage(k + 2) && 0 < j < 32
    ensures var v := p * 4096 + i * SmallSize(k + 2) + j * TinySize(k); var o := v % 4096; var r := o % SmallSize(k + 2);
      v / 4096 == p && o / SmallSize(k + 2) == i && r > 0 && r / TinySize(k) == j && r % TinySize(k) == 0
  {
    PieceBytes(k, j, j);
    SlotBytes(k + 2, i, i);
    SplitAddress(p, i * SmallSize(k + 2) + j * TinySize(k));
    WithinSlot(k, i, j);
  }

  lemma WithinSlot(k: nat, i: nat, j: nat)
    requires k < 3 && i < PerPage(k + 2) && 0 < j < 32
    ensures var o := i * SmallSize(k + 2) + j * TinySize(k); var r := o % SmallSize(k + 2);
      o / SmallSize(k + 2) == i && r == j * TinySize(k) && r / TinySize(k) == j && r % TinySize(k) == 0
  {
  }

  // ------------------------------------------------------------- page tier steps

  /** A step of the page tier that touches no small page. */
  lemma PagesStep(t: Heap, m: Mem, p: nat, q: nat)
    requires HInv(t) && Inv(m, {}) && SameBut(t.pages, m, p, q)
    requires forall i :: 0 <= i < |m.typ| && (i == p || i == q) ==> m.typ[i] != Small && t.pages.typ[i] != Small
    ensures HInv(t.(pages := m))
    ensures forall u :: u != Block(p) && u != Block(q) ==> (Live(t.(pages := m), u) <==> Live(t, u))
  {
    var d := t.(pages := m);
    StepTyped(t, m, p, q);
    forall u | u != Block(p) && u != Block(q) ensures Live(d, u) <==> Live(t, u) {
      if u.Block? && u.p < |m.typ| {
        assert InUse(t.pages, u.p) <==> InUse(m, u.p);
      }
    }
  }

  /** ... and moves no block that stays in use. */
  lemma PagesUndisturbed(t: Heap, m: Mem, p: nat, q: nat)
    requires SameBut(t.pages, m, p, q)
    requires var d := t.(pages := m); !(Live(t, Block(p)) && Live(d, Block(p))) && !(Live(t, Block(q)) && Live(d, Block(q)))
    ensures Undisturbed(t, t.(pages := m))
  {
    PagesSameSizes(t, t.(pages := m), p, q);
    SizesKeep(t, t.(pages := m));
  }

  lemma StepTyped(t: Heap, m: Mem, p: nat, q: nat)
    requires Typed(t) && SameBut(t.pages, m, p, q)
    requires forall i :: 0 <= i < |m.typ| && (i == p || i == q) ==> m.typ[i] != Small && t.pages.typ[i] != Small
    ensures Typed(t.(pages := m))
  {
    forall x | x in t.small ensures x < |m.typ| && m.typ[x] == Small && m.ord[x] == 0 {
      assert InUse(t.pages, x);
    }
    forall x | 0 <= x < |m.typ| && m.typ[x] == Small ensures x in t.small {
      assert InUse(m, x) && InUse(t.pages, x);
    }
  }

  // ------------------------------------------------------------- alloc

  /** The units of one allocation: a second block follows the first in a two-part one. */
  datatype Allocation = OutOfMemory | Got(t: Heap, u: Unit) | GotTwo(t: Heap, p: nat, q: nat)

  /** alloc_pages, after get_alloc_pages_size; a refused size is a panic, like running out. */
  function PagesAlloc(t: Heap, c: Choice): Allocation
    requires HInv(t)
  {
    match c
    case Refused => OutOfMemory
    case One(i) =>
      var (m, p) := Alloc(t.pages, i);
      if p.None? then OutOfMemory else Allocation.Got(t.(pages := m), Block(p.value))
    case Two(i, j) =>
      if i < |t.pages.freeL| && j <= i then
        var (m, p) := AllocCont(t.pages, i, j);
        if p.None? then OutOfMemory else GotTwo(t.(pages := m), p.value, p.value + Pow(i))
      else OutOfMemory
  }

  /** alloc */
  function AllocBytes(t: Heap, len: nat): Allocation
    requires HInv(t)
  {
    var small := SmallIndex(len);
    if small < 0 then PagesAlloc(t, PagesSize((len + 4095) / 4096))
    else
      var tiny := if small == 0 then TinyIndex(len) else -1;
      if tiny < 0 then
        var (d, b) := SmallAlloc(t, small);
        if b.None? then OutOfMemory else Allocation.Got(d, SmallUnit(b.value))
      else
        var (d, u) := TinyAlloc(t, tiny);
        if u.None? then OutOfMemory else Allocation.Got(d, u.value)
  }

  /** Exactly the new block or blocks are live besides the units that were. */
  ghost predicate AddedTwo(t: Heap, d: Heap, p: nat, q: nat) {
    && p != q && !Live(t, Block(p)) && !Live(t, Block(q)) && Live(d, Block(p)) && Live(d, Block(q))
    && (forall u :: u != Block(p) && u != Block(q) ==> (Live(d, u) <==> Live(t, u)))
  }

  lemma OneBlock(t: Heap, i: nat)
    requires HInv(t) && Alloc(t.pages, i).1.Some?
    ensures var (m, p) := Alloc(t.pages, i); var d := t.(pages := m);
      HInv(d) && Undisturbed(t, d) && Added(t, d, Block(p.value)) && Len(d, Block(p.value)) == Pow(i) * 4096
  {
    AllocSound(t.pages, i);
    AllocSame(t.pages, i);
    var (m, p) := Alloc(t.pages, i);
    assert t.pages.typ[p.value] != Small;
    PagesStep(t, m, p.value, p.value);
    assert !Live(t, Block(p.value));
    PagesUndisturbed(t, m, p.value, p.value);
  }

  /** Two adjacent blocks of the page tier came into use. */
  lemma TwoFrom(t: Heap, m: Mem, p: nat, q: nat, i: nat, j: nat)
    requires HInv(t) && Inv(m, {}) && TookTwo(t.pages, m, p, q) && p < q < |m.typ|
    requires m.typ[p] == Cont && m.ord[p] == i && m.typ[q] == Allocated && m.ord[q] == j
    ensures var d := t.(pages := m);
      && HInv(d) && Undisturbed(t, d) && AddedTwo(t, d, p, q) && Placed(d, Block(p)) && Placed(d, Block(q))
      && Len(d, Block(p)) == Pow(i) * 4096 && Len(d, Block(q)) == Pow(j) * 4096
  {
    PagesStep(t, m, p, q);
    PagesUndisturbed(t, m, p, q);
  }

  lemma TwoBlocks(t: Heap, i: nat, j: nat) returns (m: Mem, p: nat, q: nat)
    requires HInv(t) && i < |t.pages.freeL| && j <= i && AllocCont(t.pages, i, j).1.Some?
    ensures (m, Some(p)) == AllocCont(t.pages, i, j) && q == p + Pow(i)
    ensures Inv(m, {}) && TookTwo(t.pages, m, p, q) && p < q < |m.typ|
    ensures m.typ[p] == Cont && m.ord[p] == i && m.typ[q] == Allocated && m.ord[q] == j
  {
    m, p, q := TwoPages(t.pages, i, j);
  }

  lemma TwoPages(s: Mem, i: nat, j: nat) returns (m: Mem, p: nat, q: nat)
    requires Inv(s, {}) && i < |s.freeL| && j <= i && AllocCont(s, i, j).1.Some?
    ensures (m, Some(p)) == AllocCont(s, i, j) && q == p + Pow(i)
    ensures Inv(m, {}) && TookTwo(s, m, p, q) && ContAt(m, p, i, j)
    ensures p < q < |m.typ| && m.typ[p] == Cont && m.ord[p] == i && m.typ[q] == Allocated && m.ord[q] == j
  {
    var o;
    m, o := AllocContSame(s, i, j);
    p, q := o.value, o.value + Pow(i);
  }

  /** What is live before and after keeps its place and its size. */
  ghost predicate Undisturbed(t: Heap, d: Heap) {
    SameSizes(t, d) && Kept(t, d)
  }

  ghost predicate Sound(t: Heap, a: Allocation, size: nat) {
    match a
    case OutOfMemory => true
    case Got(d, u) => HInv(d) && Undisturbed(t, d) && Added(t, d, u) && Placed(d, u) && Len(d, u) == size
    case GotTwo(d, p, q) =>
      && HInv(d) && Undisturbed(t, d) && AddedTwo(t, d, p, q) && Placed(d, Block(p)) && Placed(d, Block(q))
      && Len(d, Block(p)) + Len(d, Block(q)) == size && Start(d, Block(q)) == Start(d, Block(p)) + Len(d, Block(p))
  }

  lemma PagesAllocSound(t: Heap, c: Choice)
    requires HInv(t)
    ensures Sound(t, PagesAlloc(t, c), Pages(c) * 4096)
  {
    match c
    case Refused =>
    case One(i) => if Alloc(t.pages, i).1.Some? { OneBlock(t, i); }
    case Two(i, j) =>
      if i < |t.pages.freeL| && j <= i && AllocCont(t.pages, i, j).1.Some? { PairSound(t, i, j); }
  }

  lemma PairSound(t: Heap, i: nat, j: nat)
    requires HInv(t) && i < |t.pages.freeL| && j <= i && AllocCont(t.pages, i, j).1.Some?
    ensures Sound(t, PagesAlloc(t, Two(i, j)), (Pow(i) + Pow(j)) * 4096)
  {
    var m, p, q := TwoBlocks(t, i, j);
    TwoFrom(t, m, p, q, i, j);
    assert PagesAlloc(t, Two(i, j)) == GotTwo(t.(pages := m), p, q);
    PairSize(t.(pages := m), p, q, i, j);
  }

  lemma PairSize(d: Heap, p: nat, q: nat, i: nat, j: nat)
    requires Placed(d, Block(p)) && Placed(d, Block(q)) && q == p + Pow(i)
    requires Len(d, Block(p)) == Pow(i) * 4096 && Len(d, Block(q)) == Pow(j) * 4096
    ensures Len(d, Block(p)) + Len(d, Block(q)) == (Pow(i) + Pow(j)) * 4096
    ensures Start(d, Block(q)) == Start(d, Block(p)) + Len(d, Block(p))
  {
  }

  /** alloc makes exactly one new allocation live, of the size get_actual_allocate_size gives,
      and disturbs no other. */
  lemma AllocBytesSound(t: Heap, len: nat)
    requires HInv(t)
    ensures Sound(t, AllocBytes(t, len), ActualSize(len))
  {
    var small := SmallIndex(len);
    if small < 0 {
      PagesAllocSound(t, PagesSize((len + 4095) / 4096));
    } else {
      var tiny := if small == 0 then TinyIndex(len) else -1;
      if tiny < 0 {
        if SmallAlloc(t, small).1.Some? {
          SmallAllocSound(t, small);
          var (d, b) := SmallAlloc(t, small);
          GotAdds(t, d, small, b.value);
          GotSizes(t, d, small, b.value);
          SizesKeep(t, d);
        }
      } else if TinyAlloc(t, tiny).1.Some? {
        TinyAllocSound(t, tiny);
        var (d, u) := TinyAlloc(t, tiny);
        TinyAllocSizes(t, tiny);
        SizesKeep(t, d);
        InSlot(d, u.value);
      }
    }
  }

  // ------------------------------------------------------------- free

  /** What free does with an address. */
  datatype FreeWay = AsTiny(b: Slot, j: nat) | AsSmall(b: Slot) | AsPages(p: nat) | Bad

  /** free, up to the call of the tier's own function: by the page type and the offset in the
      small block alone; Bad where an assertion fails. */
  function Classify(t: Heap, v: nat): FreeWay
    requires HInv(t)
  {
    var p := v / 4096;
    if p >= |t.pages.typ| then Bad
    else if t.pages.typ[p] != Small then AsPages(p)
    else
      var s := SmallSize(t.small[p].size);
      var o := v % 4096;
      var b := Slot(p, o / s);
      if o % s == 0 then AsSmall(b)
      else if b !in t.tiny || o % s % TinySize(t.tiny[b].size) != 0 then Bad
      else AsTiny(b, o % s / TinySize(t.tiny[b].size))
  }

  function Way(u: Unit): FreeWay {
    match u
    case Block(p) => AsPages(p)
    case SmallUnit(b) => AsSmall(b)
    case TinyUnit(b, j) => AsTiny(b, j)
  }

  /** free finds the tier, block and piece of every live pointer. */
  lemma ClassifyExact(t: Heap, u: Unit)
    requires HInv(t) && Live(t, u)
    ensures Placed(t, u) && Classify(t, Start(t, u)) == Way(u)
  {
    match u
    case Block(p) =>
    case SmallUnit(b) => ClassifySmall(t, u);
    case TinyUnit(b, j) => ClassifyTiny(t, u);
  }

  lemma ClassifySmall(t: Heap, u: Unit)
    requires HInv(t) && Live(t, u) && u.SmallUnit?
    ensures Placed(t, u) && Classify(t, Start(t, u)) == Way(u)
  {
    InSlot(t, u);
    DecodeSmall(u.b.p, u.b.i, t.small[u.b.p].size);
  }

  lemma ClassifyTiny(t: Heap, u: Unit)
    requires HInv(t) && Live(t, u) && u.TinyUnit?
    ensures Placed(t, u) && Classify(t, Start(t, u)) == Way(u)
  {
    InSlot(t, u);
    var k := t.tiny[u.b].size;
    assert Hosted(t.small, u.b, k + 2) && 0 in Header(k);
    DecodeTiny(u.b.p, u.b.i, k, u.j);
  }

  datatype Freed = Done(t: Heap) | Panicked

  /** free */
  function FreeBytes(t: Heap, v: nat): Freed
    requires HInv(t)
  {
    match Classify(t, v)
    case Bad => Panicked
    case AsTiny(b, j) =>
      if j in t.tiny[b].used && j !in Header(t.tiny[b].size) then Done(TinyFree(t, b, j)) else Panicked
    case AsSmall(b) => if b.i in t.small[b.p].used then Done(SmallFree(t, b)) else Panicked
    case AsPages(p) =>
      var (m, e) := FreeSub(t.pages, p);
      if e == NoErr then Done(t.(pages := m)) else Panicked
  }

  /** Freeing a live small, tiny or one-block allocation removes exactly that. */
  lemma FreeExact(t: Heap, u: Unit)
    requires HInv(t) && Live(t, u) && (u.Block? ==> t.pages.typ[u.p] == Allocated)
    ensures Placed(t, u) && FreeBytes(t, Start(t, u)).Done?
    ensures var d := FreeBytes(t, Start(t, u)).t; HInv(d) && Removed(t, d, u) && Undisturbed(t, d)
  {
    ClassifyExact(t, u);
    match u
    case Block(p) => FreeBlock(t, p);
    case SmallUnit(b) =>
      SmallFreeSound(t, b);
      GoneRemoves(t, SmallFree(t, b), b);
      GoneSizes(t, SmallFree(t, b), b);
      SizesKeep(t, SmallFree(t, b));
    case TinyUnit(b, j) =>
      TinyFreeSound(t, b, j);
      TinyFreeSizes(t, b, j);
      SizesKeep(t, TinyFree(t, b, j));
  }

  lemma FreeBlock(t: Heap, p: nat)
    requires HInv(t) && Live(t, Block(p)) && t.pages.typ[p] == Allocated
    ensures var (m, e) := FreeSub(t.pages, p); e == NoErr && HInv(t.(pages := m)) && Removed(t, t.(pages := m), Block(p)) && Undisturbed(t, t.(pages := m))
  {
    ReleaseSame(t.pages, p);
    FreeOneIs(t.pages, p);
    var m := FreeSub(t.pages, p).0;
    PagesStep(t, m, p, p);
    PagesUndisturbed(t, m, p, p);
  }

  lemma FreePages(t: Heap, p: nat)
    requires HInv(t) && Live(t, Block(p))
    ensures Placed(t, Block(p)) && FreeBytes(t, Start(t, Block(p)))
      == if FreeSub(t.pages, p).1 == NoErr then Done(t.(pages := FreeSub(t.pages, p).0)) else Panicked
  {
    ClassifyExact(t, Block(p));
  }

  /** Freeing a two-part allocation removes its two blocks. */
  lemma FreePair(t: Heap, p: nat, n: nat, m: nat) returns (d: Heap, q: nat)
    requires HInv(t) && ContAt(t.pages, p, n, m)
    ensures Placed(t, Block(p)) && FreeBytes(t, Start(t, Block(p))) == Done(d)
    ensures q == p + Pow(n) && HInv(d) && AddedTwo(d, t, p, q) && Undisturbed(t, d)
  {
    q := p + Pow(n);
    ContFacts(t.pages, p, n, m, q);
    var s := FreedPair(t.pages, p, n, m, q);
    d := PairFreed(t, s, p, q);
  }

  lemma ContFacts(s: Mem, p: nat, n: nat, m: nat, q: nat)
    requires |s.ord| == |s.typ| && ContAt(s, p, n, m) && q == p + Pow(n)
    ensures p < q < |s.typ| && s.typ[p] == Cont && s.typ[q] == Allocated
  {
  }

  lemma PairFreed(t: Heap, s: Mem, p: nat, q: nat) returns (d: Heap)
    requires HInv(t) && p < q < |t.pages.typ| && t.pages.typ[p] == Cont && t.pages.typ[q] == Allocated
    requires FreeSub(t.pages, p) == (s, NoErr) && Inv(s, {}) && LeftTwo(t.pages, s, p, q)
    ensures Placed(t, Block(p)) && FreeBytes(t, Start(t, Block(p))) == Done(d) && HInv(d) && AddedTwo(d, t, p, q) && Undisturbed(t, d)
  {
    FreePages(t, p);
    PairFrom(t, s, p, q);
    d := t.(pages := s);
  }

  lemma FreedPair(s: Mem, p: nat, n: nat, m: nat, q: nat) returns (d: Mem)
    requires Inv(s, {}) && ContAt(s, p, n, m) && q == p + Pow(n)
    ensures FreeSub(s, p) == (d, NoErr) && Inv(d, {}) && LeftTwo(s, d, p, q)
  {
    var a, b;
    a, b, d := FreeContSteps(s, p, n, m, q);
    RetypeSame(s, p, Allocated);
    StepsSame(s, p, q, a, b, d);
  }

  lemma PairFrom(t: Heap, m: Mem, p: nat, q: nat)
    requires HInv(t) && Inv(m, {}) && LeftTwo(t.pages, m, p, q) && p < q < |m.typ|
    requires t.pages.typ[p] == Cont && t.pages.typ[q] == Allocated
    ensures HInv(t.(pages := m)) && AddedTwo(t.(pages := m), t, p, q) && Undisturbed(t, t.(pages := m))
  {
    PagesStep(t, m, p, q);
    PagesUndisturbed(t, m, p, q);
  }

  // ------------------------------------------------------------- get_alloc_len

  /** get_alloc_len */
  function AllocLen(t: Heap, v: nat): int
    requires HInv(t)
  {
    match Classify(t, v)
    case Bad => -1
    case AsTiny(b, j) => TinySize(t.tiny[b].size)
    case AsSmall(b) => SmallSize(t.small[b.p].size)
    case AsPages(p) =>
      var n := Pow(t.pages.ord[p]) * 4096;
      if t.pages.typ[p] == Cont && p + Pow(t.pages.ord[p]) < |t.pages.ord| then n + Pow(t.pages.ord[p + Pow(t.pages.ord[p])]) * 4096 else n
  }
}
