/** The small and tiny tiers as written (mm.c: small_alloc, small_free, tiny_alloc, tiny_free,
    alloc, free): 32-bit bitmaps and lists updated in place, on top of the page allocator. */
module TierHeap {
  import opened Lists
  import opened Pow2
  import opened Bits
  import opened Bitmap
  import opened Buddy
  import opened BuddyCont
  import opened BuddyKeeps
  import opened PageAllocator
  import opened Sizing
  import opened Tiers
  import opened TierAlloc
  import opened TierRuns
  import opened TierRoom

  /** small_allocsize and small_bitmap of struct page, or the two fields of struct tiny_allocdata. */
  datatype Desc = Desc(size: nat, bitmap: nat)

  /** The descriptors stand for these pages ... */
  ghost predicate SmallIs(small: map<nat, Desc>, v: map<nat, SmallPage>) {
    small.Keys == v.Keys && forall p :: p in small ==> WordIs(small[p], v[p].size, v[p].used)
  }

  /** ... and these tiny blocks. */
  ghost predicate TinyIs(tiny: map<Slot, Desc>, v: map<Slot, TinyBlock>) {
    tiny.Keys == v.Keys && forall b :: b in tiny ==> WordIs(tiny[b], v[b].size, v[b].used)
  }

  predicate WordIs(d: Desc, size: nat, used: set<nat>) {
    d.size == size && d.bitmap < Pow(32) && Members(d.bitmap, 32) == used
  }

  // ------------------------------------------------------------- words

  /** All members are below n. */
  predicate Within(used: set<nat>, n: nat) {
    forall i :: i in used ==> i < n
  }

  /** The word with the n lowest bits. */
  lemma OnesMembers(n: nat, x: nat)
    requires n <= 32 && x == Pow(n) - 1
    ensures x < Pow(32) && forall i: nat :: i in Members(x, 32) <==> i < n
  {
    PowMono(n, 32);
    forall i: nat | i < 32 ensures Bit(x, i) <==> i < n {
      if i < n { AllOnes(n, i); } else { NoHighBit(x, n, i); }
    }
  }

  lemma {:induction false} NoHighBit(x: nat, n: nat, i: nat)
    requires x < Pow(n) && n <= i
    ensures !Bit(x, i)
  {
    if n == 0 { NoBit(i); } else { NoHighBit(x / 2, n - 1, i - 1); }
  }

  /** Comparing with `full` asks whether the page is full. */
  lemma FullTest(b: nat, n: nat)
    requires b < Pow(32) && 0 < n <= 32 && Within(Members(b, 32), n)
    ensures b == FullWord(n) <==> Full(Members(b, 32), n)
  {
    FullWordIs(n);
    OnesMembers(n, Pow(n) - 1);
    if Full(Members(b, 32), n) {
      assert Members(b, 32) == Members(Pow(n) - 1, 32);
      SameWord(b, Pow(n) - 1, 32);
    }
  }

  /** BIT_TO_INDEX (FIND_NEXT_BIT (b)) is the lowest free block. */
  lemma FindTest(b: nat, n: nat)
    requires b < Pow(32) && n <= 32 && !Full(Members(b, 32), n)
    ensures NextBit(b, 32) > 0
    ensures var i := Ffs(NextBit(b, 32)) - 1;
      && i == Lowest(Members(b, 32), 0, n) && 0 <= i < n && !Bit(b, i) && NextBit(b, 32) == Pow(i)
  {
    var i := NextBitIs(b, 32);
    LowestIs(Members(b, 32), n, i);
    FfsPow(i);
  }

  lemma LowestIs(used: set<nat>, n: nat, i: nat)
    requires !Full(used, n) && i !in used && forall j: nat :: j < i ==> j in used
    ensures Lowest(used, 0, n) == i < n
  {
    var r := Lowest(used, 0, n);
    assert r < i ==> r in used;
    assert i < r ==> i in used;
  }

  /** empty_bitmap */
  function EmptyWord(k: nat): nat {
    if k == 0 then 3 else 1
  }

  lemma EmptyMembers(k: nat)
    ensures EmptyWord(k) < Pow(32) && Members(EmptyWord(k), 32) == Header(k)
  {
    assert Pow(1) == 2 && Pow(2) == 4;
    if k == 0 { OnesMembers(2, 3); } else { OnesMembers(1, 1); }
    assert Members(EmptyWord(k), 32) == Header(k);
  }

  class Manager {
    const alloc: Allocator
    var small: map<nat, Desc>
    var tiny: map<Slot, Desc>
    var smallL: seq<seq<nat>>
    var tinyL: seq<seq<Slot>>
    /** The heap that the fields stand for. */
    ghost var heap: Heap

    ghost predicate Tied()
      reads this, alloc
    {
      && heap.pages == alloc.S() && heap.smallL == smallL && heap.tinyL == tinyL
      && SmallIs(small, heap.small) && TinyIs(tiny, heap.tiny)
    }

    ghost predicate Valid()
      reads this, alloc
    {
      Tied() && HInv(heap)
    }

    /** mm_init_global: the lists are empty. */
    constructor (pages: Allocator)
      requires Booted(pages.S())
      ensures Valid() && alloc == pages && heap == Boot(pages.S()).t
    {
      alloc := pages;
      small, tiny := map[], map[];
      smallL, tinyL := [[], [], [], [], []], [[], [], []];
      heap := Boot(pages.S()).t;
    }

    // ----------------------------------------------------------- small blocks

    /** small_alloc (None is the panic of the page allocator) */
    method TakeSmall(k: nat) returns (b: Option<Slot>)
      requires Valid() && k < 5
      modifies this`small, this`smallL, this`heap, alloc
      ensures Valid() && (heap, b) == SmallAlloc(old(heap), k)
    {
      ghost var t := heap;
      if smallL[k] != [] {
        var s := SetBit(k);
        b := Some(s);
        TakeBitSound(t, k);
      } else {
        b := NewPage(k);
        if b.Some? { TakePageSound(t, k); }
      }
    }

    /** The first page of the list has a free block. */
    method SetBit(k: nat) returns (b: Slot)
      requires Valid() && k < 5 && smallL[k] != []
      modifies this`small, this`smallL, this`heap
      ensures Tied() && (heap, b) == TakeBit(old(heap), k)
    {
      var p := smallL[k][0];
      FirstOfList(heap, k, p);
      var i, now := TakeFirst(small[p].bitmap, PerPage(k));
      var l := if now == FullWord(PerPage(k)) then Del(smallL[k], p) else smallL[k];
      PutSmall(p, Desc(k, now), l);
      b := Slot(p, i);
    }

    /** New contents for a descriptor and its list. */
    method PutSmall(p: nat, d: Desc, l: seq<nat>)
      requires Tied() && d.bitmap < Pow(32) && d.size < |smallL|
      modifies this`small, this`smallL, this`heap
      ensures Tied() && heap == old(heap).(small := old(heap).small[p := SmallPage(d.size, Members(d.bitmap, 32))], smallL := old(heap).smallL[d.size := l])
    {
      heap := heap.(small := heap.small[p := SmallPage(d.size, Members(d.bitmap, 32))], smallL := heap.smallL[d.size := l]);
      small := small[p := d];
      smallL := smallL[d.size := l];
    }

    /** The same for a tiny block. */
    method PutTiny(b: Slot, d: Desc, l: seq<Slot>)
      requires Tied() && d.bitmap < Pow(32) && d.size < |tinyL|
      modifies this`tiny, this`tinyL, this`heap
      ensures Tied() && heap == old(heap).(tiny := old(heap).tiny[b := TinyBlock(d.size, Members(d.bitmap, 32))], tinyL := old(heap).tinyL[d.size := l])
    {
      heap := heap.(tiny := heap.tiny[b := TinyBlock(d.size, Members(d.bitmap, 32))], tinyL := heap.tinyL[d.size := l]);
      tiny := tiny[b := d];
      tinyL := tinyL[d.size := l];
    }

    /** A page of the page tier becomes a small page. */
    method NewPage(k: nat) returns (b: Option<Slot>)
      requires Valid() && k < 5
      modifies this`small, this`smallL, this`heap, alloc
      ensures Tied() && (heap, b) == TakePage(old(heap), k)
    {
      var p := TakeFresh();
      if p.None? { return None; }
      FirstBit();
      PutSmall(p.value, Desc(k, 1), [p.value] + smallL[k]);
      b := Some(Slot(p.value, 0));
    }

    /** mm_page_alloc (0), and the page's new type */
    method TakeFresh() returns (p: Option<nat>)
      requires Tied() && alloc.Valid()
      modifies this`heap, alloc
      ensures Tied() && p == Alloc(old(heap).pages, 0).1
      ensures p.None? ==> heap == old(heap)
      ensures p.Some? ==> var m := Alloc(old(heap).pages, 0).0;
        p.value < |m.typ| && heap == old(heap).(pages := Retype(m, p.value, Small))
    {
      AllocSound(alloc.S(), 0);
      p := alloc.AllocPages(0);
      if p.Some? { alloc.typ := alloc.typ[p.value := Small]; }
      heap := heap.(pages := alloc.S());
    }

    /** small_free of block i; false is the panic on a double free. */
    method GiveSmall(p: nat, i: nat) returns (ok: bool)
      requires Valid() && p in small && i < PerPage(small[p].size)
      modifies this`small, this`smallL, this`heap, alloc
      ensures ok <==> i in old(heap).small[p].used
      ensures ok ==> heap == SmallFree(old(heap), Slot(p, i)) && Tied()
      ensures ok && Slot(p, i) !in tiny ==> Valid()
    {
      ghost var t := heap;
      SizeOk(heap, p);
      var k, word := small[p].size, small[p].bitmap;
      var n, now := TurnOver(word, i);
      if And(now, n) != 0 { return false; }
      FullTest(word, PerPage(k));
      ZeroIff(now, 32);
      var l := if word == FullWord(PerPage(k)) then [p] + smallL[k] else smallL[k];
      FreedIs(t, Slot(p, i), l);
      if now == 0 {
        DropPage(p, k, Del(l, p));
      } else {
        PutSmall(p, Desc(k, now), l);
      }
      if Slot(p, i) !in tiny { SmallFreeSound(t, Slot(p, i)); }
      return true;
    }

    /** The page is ALLOCATED again and goes back to the page tier. */
    method DropPage(p: nat, k: nat, l: seq<nat>)
      requires Tied() && alloc.Valid() && InUse(alloc.S(), p) && k < |smallL|
      modifies this`small, this`smallL, this`heap, alloc
      ensures Tied() && Inv(Retype(old(heap).pages, p, Allocated), {}) && InUse(Retype(old(heap).pages, p, Allocated), p) && old(heap).pages.ord[p] < |old(heap).pages.freeL|
      ensures heap == old(heap).(pages := Release(Retype(old(heap).pages, p, Allocated), p), small := old(heap).small - {p}, smallL := old(heap).smallL[k := l])
    {
      small := small - {p};
      smallL := smallL[k := l];
      DropReady(alloc.S(), p);
      alloc.typ := alloc.typ[p := Allocated];
      FreeSubEffect(alloc.S(), p);
      var e := alloc.FreePages(p);
      heap := heap.(pages := alloc.S(), small := heap.small - {p}, smallL := heap.smallL[k := l]);
    }

    // ----------------------------------------------------------- tiny pieces

    /** tiny_alloc */
    method TakeTiny(k: nat) returns (u: Option<Unit>)
      requires Valid() && k < 3
      modifies this, alloc
      ensures Valid() && (heap, u) == TinyAlloc(old(heap), k) && (u.Some? ==> u.value.TinyUnit?)
    {
      ghost var t := heap;
      if tinyL[k] != [] {
        var s := SetTinyBit(k);
        u := Some(s);
        TakePieceSound(t, k);
      } else {
        var b := TakeSmall(k + 2);
        if b.None? { return None; }
        SmallAllocSound(t, k + 2);
        ghost var d := heap;
        var s := NewBlock(k, b.value);
        NewTinySound(d, k, b.value);
        u := Some(s);
      }
    }

    /** The small block becomes a tiny block with one piece in use. */
    method NewBlock(k: nat, b: Slot) returns (u: Unit)
      requires Tied() && k < |tinyL|
      modifies this`tiny, this`tinyL, this`heap
      ensures Tied() && (heap, u) == NewTiny(old(heap), k, b)
    {
      EmptyMembers(k);
      HeaderBits(k);
      NotFull(Header(k), 32, 3);
      var j, word := TakeFirst(EmptyWord(k), 32);
      PutTiny(b, Desc(k, word), [b] + tinyL[k]);
      u := TinyUnit(b, j);
    }

    /** The first block of the list has a free piece. */
    method SetTinyBit(k: nat) returns (u: Unit)
      requires Valid() && k < 3 && tinyL[k] != []
      modifies this`tiny, this`tinyL, this`heap
      ensures Tied() && (heap, u) == TakePiece(old(heap), k)
    {
      var b := tinyL[k][0];
      FirstOfTinyList(heap, k, b);
      var j, now := TakeFirst(tiny[b].bitmap, 32);
      AllSet(now);
      PutTiny(b, Desc(k, now), if Not(now, 32) == 0 then Del(tinyL[k], b) else tinyL[k]);
      u := TinyUnit(b, j);
    }

    /** tiny_free of piece j; false is the ASSERT on the header's pieces or the panic on a double
        free. */
    method GiveTiny(b: Slot, j: nat) returns (ok: bool)
      requires Valid() && b in tiny && j < 32
      modifies this, alloc
      ensures ok <==> old(Live(heap, TinyUnit(b, j)))
      ensures ok ==> Valid() && heap == TinyFree(old(heap), b, j)
    {
      ghost var t := heap;
      var k, word := tiny[b].size, tiny[b].bitmap;
      NotHeader(k, j);
      if And(EmptyWord(k), Pow(j)) != 0 { return false; }
      var n, now := TurnOver(word, j);
      if And(now, n) != 0 { return false; }
      TinyFreeSound(t, b, j);
      AllSet(word);
      HeaderTest(now, k);
      var l := if Not(word, 32) == 0 then [b] + tinyL[k] else tinyL[k];
      if now == EmptyWord(k) {
        DissolveSound(t, b);
        CutTiny(b, k, Del(l, b));
        ok := GiveSmall(b.p, b.i);
      } else {
        PutTiny(b, Desc(k, now), l);
      }
      return true;
    }

    // ----------------------------------------------------------- alloc and free

    /** alloc: a new pointer u of the size the request gets, at address v; every allocation that
        was live still is, where it was. None is a panic, exactly when there is no room. */
    method AllocVirt(len: nat) returns (v: Option<nat>, ghost u: Unit)
      requires Valid()
      modifies this, alloc
      ensures Valid() && (v.None? <==> NoRoom(old(heap), len)) && (v.None? <==> AllocBytes(old(heap), len).OutOfMemory?)
      ensures v.Some? ==> heap == AllocBytes(old(heap), len).t
      ensures v.Some? ==> Whole(heap, u) && v.value == Start(heap, u) && Bytes(heap, u) == ActualSize(len)
      ensures v.Some? ==> !Live(old(heap), u) && Undisturbed(old(heap), heap) && forall w :: Live(old(heap), w) ==> Live(heap, w)
    {
      ghost var t := heap;
      var small := GetSmallAllocsize(len);
      if small < 0 {
        v, u := AllocPages(len);
      } else {
        var tiny := if small == 0 then TinyIndex(len) else -1;
        if tiny < 0 {
          v, u := AllocSmall(len, small);
        } else {
          v, u := AllocTiny(len, tiny);
        }
      }
      RunsOutIff(t, len);
      if v.Some? { AllocWhole(t, len); }
    }

    method AllocSmall(len: nat, small: nat) returns (v: Option<nat>, ghost u: Unit)
      requires Valid() && SmallIndex(len) == small && (small == 0 ==> TinyIndex(len) < 0)
      modifies this, alloc
      ensures Valid() && Answers(AllocBytes(old(heap), len), old(heap), heap, v, u)
    {
      ghost var t := heap;
      var b := TakeSmall(small);
      v, u := None, Block(0);
      if b.Some? { v, u := Some(BlockAddress(b.value, small)), SmallUnit(b.value); }
      SmallAnswers(t, heap, len, small, b, v, u);
    }

    method AllocTiny(len: nat, tiny: nat) returns (v: Option<nat>, ghost u: Unit)
      requires Valid() && SmallIndex(len) == 0 && TinyIndex(len) == tiny
      modifies this, alloc
      ensures Valid() && Answers(AllocBytes(old(heap), len), old(heap), heap, v, u)
    {
      ghost var t := heap;
      var w := TakeTiny(tiny);
      v, u := None, Block(0);
      if w.Some? {
        var b := w.value.b;
        v, u := Some(PieceAddress(b, tiny, w.value.j)), w.value;
      }
      TinyAnswers(t, heap, len, tiny, w, v, u);
    }

    /** alloc_pages */
    method AllocPages(len: nat) returns (v: Option<nat>, ghost u: Unit)
      requires Valid() && SmallIndex(len) < 0
      modifies this`heap, alloc
      ensures Valid() && Answers(AllocBytes(old(heap), len), old(heap), heap, v, u)
    {
      ghost var t := heap;
      var n := (len + 4095) / 4096;
      var p := TakePages(n);
      v, u := None, Block(0);
      if p.Some? { v, u := Some(p.value * 4096), Block(p.value); }
      PagesAnswers(t, heap, len, PagesSize(n), p, v, u);
    }

    method TakePages(n: int) returns (p: Option<nat>)
      requires Valid()
      modifies this`heap, alloc
      ensures Tied() && Chosen(PagesAlloc(old(heap), PagesSize(n)), old(heap), heap, p)
    {
      var i, j := GetAllocPagesSize(n);
      PickedIs(PagesSize(n), i, j);
      if i < 0 {
        p := None;
      } else if j < 0 {
        p := TakeOne(i);
      } else {
        p := TakeTwo(i, j);
      }
    }

    method TakeOne(i: nat) returns (p: Option<nat>)
      requires Valid()
      modifies this`heap, alloc
      ensures Tied() && Chosen(PagesAlloc(old(heap), One(i)), old(heap), heap, p)
    {
      AllocSound(heap.pages, i);
      p := alloc.AllocPages(i);
      heap := heap.(pages := alloc.S());
    }

    method TakeTwo(i: nat, j: nat) returns (p: Option<nat>)
      requires Valid()
      modifies this`heap, alloc
      ensures Tied() && Chosen(PagesAlloc(old(heap), Two(i, j)), old(heap), heap, p)
    {
      if i >= |alloc.freeL| || j > i { return None; }
      AllocContSound(heap.pages, i, j);
      p := alloc.AllocContPages(i, j);
      heap := heap.(pages := alloc.S());
    }

    /** free: false is a panic. The pointer of an allocation is always accepted, and exactly its
        parts stop being live. */
    method FreeVirt(v: nat) returns (ok: bool)
      requires Valid()
      modifies this, alloc
      ensures ok <==> FreeBytes(old(heap), v).Done?
      ensures ok ==> Tied() && heap == FreeBytes(old(heap), v).t
      ensures forall u :: Whole(old(heap), u) && v == Start(old(heap), u) ==>
        ok && Valid() && Ended(old(heap), heap, PartsOf(old(heap), u)) && Undisturbed(old(heap), heap)
    {
      ghost var t := heap;
      ok := Dispatch(v);
      forall u | Whole(t, u) && v == Start(t, u)
        ensures ok && Valid() && Ended(t, heap, PartsOf(t, u)) && Undisturbed(t, heap)
      {
        var d := FreeWhole(t, u);
      }
    }

    /** The body of free. */
    method Dispatch(v: nat) returns (ok: bool)
      requires Valid()
      modifies this, alloc
      ensures ok <==> FreeBytes(old(heap), v).Done?
      ensures ok ==> Tied() && heap == FreeBytes(old(heap), v).t
    {
      var p := v / 4096;
      if p >= |alloc.typ| { return false; }
      if alloc.typ[p] == Small {
        ok := FreeInSmall(v, p);
      } else {
        var e := alloc.FreePages(p);
        heap := heap.(pages := alloc.S());
        return e == NoErr;
      }
    }

    /** The same for an address in a small page. */
    method FreeInSmall(v: nat, p: nat) returns (ok: bool)
      requires Valid() && p == v / 4096 && p < |alloc.typ| && alloc.typ[p] == Small
      modifies this, alloc
      ensures ok <==> FreeBytes(old(heap), v).Done?
      ensures ok ==> Tied() && heap == FreeBytes(old(heap), v).t
    {
      SizeOk(heap, p);
      var s := SmallSize(small[p].size);
      var off := v % 4096;
      var b := Slot(p, off / s);
      InPage(small[p].size, off);
      WayIs(heap, v, b, off % s);
      if off % s == 0 {
        ok := GiveSmall(p, off / s);
      } else if b !in tiny || off % s % TinySize(tiny[b].size) != 0 {
        ok := false;
      } else {
        ok := GiveTiny(b, off % s / TinySize(tiny[b].size));
      }
    }

    method CutTiny(b: Slot, k: nat, l: seq<Slot>)
      requires Tied() && k < |tinyL|
      modifies this`tiny, this`tinyL, this`heap
      ensures Tied() && heap == old(heap).(tiny := old(heap).tiny - {b}, tinyL := old(heap).tinyL[k := l])
    {
      heap := heap.(tiny := heap.tiny - {b}, tinyL := heap.tinyL[k := l]);
      tiny := tiny - {b};
      tinyL := tinyL[k := l];
    }
  }

  /** n = FIND_NEXT_BIT (b); b |= n; i = BIT_TO_INDEX (n) */
  method TakeFirst(b: nat, bits: nat) returns (i: nat, now: nat)
    requires b < Pow(32) && bits <= 32 && Within(Members(b, 32), bits) && !Full(Members(b, 32), bits)
    ensures i == Lowest(Members(b, 32), 0, bits) && i < bits && now < Pow(32)
    ensures Members(now, 32) == Members(b, 32) + {i}
    ensures now == FullWord(bits) <==> Full(Members(now, 32), bits)
  {
    FindTest(b, bits);
    var n := NextBit(b, 32);
    i := Ffs(n) - 1;
    OrSets(b, i, 32);
    now := Or(b, n);
    FullTest(now, bits);
  }

  /** n = 1 << i; b ^ n */
  method TurnOver(b: nat, i: nat) returns (n: nat, now: nat)
    requires b < Pow(32) && i < 32
    ensures n == Pow(i) && now < Pow(32) && (And(now, n) == 0 <==> i in Members(b, 32))
    ensures And(now, n) == 0 ==> Members(now, 32) == Members(b, 32) - {i}
  {
    n := Pow(i);
    XorFlips(b, i, 32);
    now := Xor(b, n);
    AndPow(now, i);
    assert Bit(now, i) <==> i in Members(now, 32);
    assert Bit(b, i) <==> i in Members(b, 32);
  }

  /** page_to_virt (p) + SMALL_ALLOCSIZE (k) * i */
  function BlockAddress(b: Slot, k: nat): nat {
    b.p * 4096 + b.i * SmallSize(k)
  }

  /** Piece j of a tiny block of size k. */
  function PieceAddress(b: Slot, k: nat, j: nat): nat {
    BlockAddress(b, k + 2) + j * TinySize(k)
  }

  /** The address returned is where the new allocation starts. */
  ghost predicate Answers(a: Allocation, t: Heap, d: Heap, v: Option<nat>, u: Unit) {
    if a.OutOfMemory? then v == None && d == t
    else d == a.t && u == Pointer(a) && Placed(d, u) && v == Some(Start(d, u))
  }

  lemma SmallAnswers(t: Heap, d: Heap, len: nat, k: nat, b: Option<Slot>, v: Option<nat>, u: Unit)
    requires HInv(t) && SmallIndex(len) == k && (k == 0 ==> TinyIndex(len) < 0) && SmallAlloc(t, k) == (d, b)
    requires b.Some? ==> v == Some(BlockAddress(b.value, k)) && u == SmallUnit(b.value)
    requires b.None? ==> v == None
    ensures Answers(AllocBytes(t, len), t, d, v, u)
  {
    if b.Some? {
      SmallAllocSound(t, k);
      GotAt(t, d, k, b.value);
    }
  }

  lemma GotAt(t: Heap, d: Heap, k: nat, b: Slot)
    requires Tiers.Got(t, d, k, b)
    ensures Placed(d, SmallUnit(b)) && Start(d, SmallUnit(b)) == BlockAddress(b, k)
  {
  }

  lemma TinyAnswers(t: Heap, d: Heap, len: nat, k: nat, w: Option<Unit>, v: Option<nat>, u: Unit)
    requires HInv(t) && SmallIndex(len) == 0 && TinyIndex(len) == k && TinyAlloc(t, k) == (d, w)
    requires w.Some? ==> u == w.value && u.TinyUnit?
    requires w.Some? ==> v == Some(PieceAddress(u.b, k, u.j))
    requires w.None? ==> v == None
    ensures Answers(AllocBytes(t, len), t, d, v, u)
  {
    if w.Some? {
      TinyAllocSound(t, k);
      TinyAt(d, u, k);
    }
  }

  lemma TinyAt(d: Heap, u: Unit, k: nat)
    requires TinyOk(d.tiny, d.small) && u.TinyUnit? && Live(d, u) && d.tiny[u.b].size == k
    ensures Placed(d, u) && Start(d, u) == PieceAddress(u.b, k, u.j)
  {
    assert Hosted(d.small, u.b, k + 2);
  }

  /** The first page of what the page tier gave, or none. */
  ghost predicate Chosen(a: Allocation, t: Heap, d: Heap, p: Option<nat>) {
    match a
    case OutOfMemory => p == None && d == t
    case Got(h, w) => d == h && p.Some? && w == Block(p.value)
    case GotTwo(h, q, _) => d == h && p == Some(q)
  }

  lemma PickedIs(c: Choice, i: int, j: int)
    requires Picked(c, i, j)
    ensures c == if i < 0 then Refused else if j < 0 then One(i) else Two(i, j)
  {
  }

  lemma PagesAnswers(t: Heap, d: Heap, len: nat, c: Choice, p: Option<nat>, v: Option<nat>, u: Unit)
    requires HInv(t) && SmallIndex(len) < 0 && c == PagesSize((len + 4095) / 4096) && Chosen(PagesAlloc(t, c), t, d, p)
    requires p.Some? ==> v == Some(p.value * 4096) && u == Block(p.value)
    requires p.None? ==> v == None
    ensures HInv(d) && Answers(AllocBytes(t, len), t, d, v, u)
  {
    PagesAllocSound(t, c);
  }

  /** What free does with an address in a small page. */
  lemma WayIs(t: Heap, v: nat, b: Slot, r: nat)
    requires HInv(t) && b.p == v / 4096 && b.p < |t.pages.typ| && t.pages.typ[b.p] == Small
    requires var s := SmallSize(t.small[b.p].size); b.i == v % 4096 / s && r == v % 4096 % s
    ensures r == 0 ==> FreeBytes(t, v) == if b.i in t.small[b.p].used then Done(SmallFree(t, b)) else Panicked
    ensures r != 0 && (b !in t.tiny || r % TinySize(t.tiny[b].size) != 0) ==> FreeBytes(t, v) == Panicked
    ensures r != 0 && b in t.tiny && r % TinySize(t.tiny[b].size) == 0 ==>
      var j := r / TinySize(t.tiny[b].size);
      j < 32 && FreeBytes(t, v) == if Live(t, TinyUnit(b, j)) then Done(TinyFree(t, b, j)) else Panicked
  {
    if b in t.tiny { HostSize(t, b, r); }
  }

  lemma InPage(k: nat, off: nat)
    requires k < 5 && off < 4096
    ensures off / SmallSize(k) < PerPage(k)
  {
  }

  lemma HostSize(t: Heap, b: Slot, r: nat)
    requires HInv(t) && b in t.tiny && b.p in t.small && r < SmallSize(t.small[b.p].size)
    ensures r / TinySize(t.tiny[b].size) < 32
  {
    assert Hosted(t.small, b, t.tiny[b].size + 2);
  }

  lemma FirstOfList(t: Heap, k: nat, p: nat)
    requires HInv(t) && k < 5 && t.smallL[k] != [] && p == t.smallL[k][0]
    ensures p in t.small && t.small[p].size == k && 0 < PerPage(k) <= 32
    ensures Within(t.small[p].used, PerPage(k)) && !Full(t.small[p].used, PerPage(k))
  {
    assert SmallListed(t.smallL[k], t.small, k) && p in t.smallL[k];
  }

  lemma FirstOfTinyList(t: Heap, k: nat, b: Slot)
    requires HInv(t) && k < 3 && t.tinyL[k] != [] && b == t.tinyL[k][0]
    ensures b in t.tiny && t.tiny[b].size == k && Within(t.tiny[b].used, 32) && !Full(t.tiny[b].used, 32)
  {
    assert TinyListed(t.tinyL[k], t.tiny, k) && b in t.tinyL[k];
  }

  /** What small_free leaves, by whether it was the last block. */
  lemma FreedIs(t: Heap, b: Slot, l: seq<nat>)
    requires HInv(t) && b.p in t.small && b.i in t.small[b.p].used && l == WithPage(t, b.p)
    ensures var k, used := t.small[b.p].size, t.small[b.p].used;
      && InUse(t.pages, b.p) && k < |t.smallL|
      && (used - {b.i} != {} ==> SmallFree(t, b) == t.(small := t.small[b.p := SmallPage(k, used - {b.i})], smallL := t.smallL[k := l]))
  {
    Pushed(t, b.p);
  }

  /** !~b */
  lemma AllSet(b: nat)
    requires b < Pow(32)
    ensures Not(b, 32) == 0 <==> Full(Members(b, 32), 32)
  {
    FullIff(b, 32);
  }

  lemma HeaderTest(b: nat, k: nat)
    requires b < Pow(32)
    ensures b == EmptyWord(k) <==> Members(b, 32) == Header(k)
  {
    EmptyMembers(k);
    if Members(b, 32) == Header(k) { SameWord(b, EmptyWord(k), 32); }
  }

  lemma FirstBit()
    ensures 1 < Pow(32) && Members(1, 32) == {0}
  {
    assert Pow(1) == 2;
    OnesMembers(1, 1);
  }

  lemma SizeOk(t: Heap, p: nat)
    requires HInv(t) && p in t.small
    ensures InUse(t.pages, p) && t.small[p].size < 5 && PerPage(t.small[p].size) <= 32 && Within(t.small[p].used, PerPage(t.small[p].size))
  {
  }

  /** ASSERT (!(empty_bitmap & n)): the piece is not one the header takes. */
  lemma NotHeader(k: nat, j: nat)
    requires j < 32
    ensures And(EmptyWord(k), Pow(j)) == 0 <==> j !in Header(k)
  {
    AndPow(EmptyWord(k), j);
    EmptyMembers(k);
    assert Bit(EmptyWord(k), j) <==> j in Members(EmptyWord(k), 32);
  }
}
