/** The page allocator as the VMM runs it (mm.c): descriptors and lists updated in place,
    each operation proved against its specification in Buddy and BuddyCont; and what
    holds over every run. */
module PageAllocator {
  import opened Lists
  import opened Pow2
  import opened Buddy
  import opened BuddyCont

  class Allocator {
    var typ: seq<PType>
    var ord: seq<nat>
    var freeL: seq<seq<nat>>

    ghost function S(): Mem
      reads this
    {
      Mem(typ, ord, freeL)
    }

    ghost predicate Valid()
      reads this
    {
      Inv(S(), {})
    }

    /** mm_init_global before the first mm_page_free: every page is RESERVED, order 0. */
    constructor (pages: nat, orders: nat)
      requires 0 < orders && Aligned(pages, orders)
      ensures Valid() && S() == Initial(pages, orders)
    {
      typ := seq(pages, i => Reserved);
      ord := seq(pages, i => 0);
      freeL := seq(orders, i => []);
      new;
      InitialSound(pages, orders);
    }

    /** mm_page_free_2ndhalf */
    method Free2ndHalf(p: nat) returns (q: nat)
      requires p < |ord| == |typ| && 0 < ord[p] <= |freeL| && p + Pow(ord[p] - 1) < |typ|
      modifies this
      ensures S() == Split(old(S()), p) && q == p + Pow(old(ord[p]) - 1)
    {
      var n := ord[p] - 1;
      ord := ord[p := n];
      q := p + Pow(n);
      typ := typ[q := Free];
      freeL := freeL[n := freeL[n] + [q]];
    }

    /** while (p->allocsize > n) mm_page_free_2ndhalf (p); */
    method CutDown(p: nat, n: nat, ghost held: set<nat>)
      requires Inv(S(), held) && p in held
      modifies this
      ensures S() == SplitDown(old(S()), held, p, n)
    {
      while ord[p] > n
        invariant Inv(S(), held)
        invariant SplitDown(S(), held, p, n) == SplitDown(old(S()), held, p, n)
        decreases ord[p]
      {
        SplitSound(S(), held, p);
        var _ := Free2ndHalf(p);
      }
    }

    /** mm_page_alloc_sub */
    method TakeBlock(n: nat) returns (p: Option<nat>)
      requires Valid()
      modifies this
      ensures (S(), p) == AllocSub(old(S()), n)
    {
      var i := n;
      while i < |freeL|
        invariant n <= i && S() == old(S())
        invariant FirstFree(freeL, n) == FirstFree(freeL, i)
      {
        if freeL[i] != [] {
          PopSound(S(), {}, i);
          var q := freeL[i][0];
          freeL := freeL[i := freeL[i][1..]];
          assert {} + {q} == {q};
          CutDown(q, n, {q});
          return Some(q);
        }
        i := i + 1;
      }
      return None;
    }

    /** mm_page_alloc (the caller panics on None) */
    method AllocPages(n: nat) returns (p: Option<nat>)
      requires Valid()
      modifies this
      ensures Valid() && (S(), p) == Alloc(old(S()), n)
    {
      AllocSubSound(S(), n);
      AllocSound(S(), n);
      p := TakeBlock(n);
      if p.Some? { typ := typ[p.value := Allocated]; }
    }

    /** mm_page_alloc_cont (the caller panics on None); a second order above the first is cut
        to the first. */
    method AllocContPages(n: nat, m: nat) returns (p: Option<nat>)
      requires Valid() && n < |freeL| && m < |freeL|
      modifies this
      ensures Valid() && (S(), p) == AllocCont(old(S()), n, SecondOrder(n, m))
    {
      AllocContSound(S(), n, SecondOrder(n, m));
      p := GatherPair(n, m);
      if p.Some? {
        ClaimAbove(S(), p.value, n, m);
        ClaimPair(p.value, n, m);
      }
    }

    /** Up to the label found: an adjacent free pair, or a larger block cut in two. */
    method GatherPair(n: nat, m: nat) returns (p: Option<nat>)
      requires Valid() && n < |freeL| && m < |freeL|
      modifies this
      ensures (S(), p) == Gather(old(S()), n, SecondOrder(n, m))
    {
      SearchAbove(S(), n, m);
      p := SearchPair(n, m);
      if p.Some? {
        GatherFound(S(), p.value, n, SecondOrder(n, m));
        var q: nat := p.value + Pow(n);
        var k := ord[q];
        freeL := freeL[n := Del(freeL[n], p.value)];
        freeL := freeL[k := Del(freeL[k], q)];
      } else {
        p := HalveBlock(n, SecondOrder(n, m));
      }
    }

    method HalveBlock(n: nat, ghost m: nat) returns (p: Option<nat>)
      requires Valid() && n < |freeL| && m <= n
      modifies this
      ensures (S(), p) == HalveLarger(old(S()), n, m)
    {
      AllocSubSound(S(), n + 1);
      p := TakeBlock(n + 1);
      if p.Some? { HalveHeld(p.value, n, m, old(S())); }
    }

    method HalveHeld(p: nat, n: nat, ghost m: nat, ghost s: Mem)
      requires |s.ord| == |s.typ| && Inv(S(), {p}) && typ[p] == Free && ord[p] == n + 1 && m <= n
      requires SameFree(s, S()) && |freeL| == |s.freeL|
      modifies this
      ensures S() == Halve(s, old(S()), p, n, m)
    {
      HalveSound(s, S(), p, n, m);
      var q := Free2ndHalf(p);
      freeL := freeL[n := Del(freeL[n], q)];
    }

    /** From the label found: retype both blocks, cut the second one down. */
    method ClaimPair(p: nat, n: nat, m: nat)
      requires TwoHeld(S(), p, n)
      modifies this
      ensures S() == Claim(old(S()), p, n, m)
    {
      var q := p + Pow(n);
      RetypeSound(S(), {p, q}, p, Cont);
      assert {p, q} - {p} == {q};
      typ := typ[p := Cont];
      CutDown(q, m, {q});
      if q < |typ| { typ := typ[q := Allocated]; }
    }

    /** The LIST1_FOREACH loop of mm_page_alloc_cont. */
    method SearchPair(n: nat, m: nat) returns (p: Option<nat>)
      requires Valid() && n < |freeL|
      ensures p == FindPair(S(), freeL[n], n, m)
    {
      var i := 0;
      while i < |freeL[n]|
        invariant 0 <= i <= |freeL[n]|
        invariant FindPair(S(), freeL[n], n, m) == FindPair(S(), freeL[n][i..], n, m)
      {
        var v := freeL[n][i];
        if !Aligned(v, n + 1) { return None; }
        EvenRange(S(), v, n);
        var q := v + Pow(n);
        if typ[q] == Free && ord[q] >= m { return Some(v); }
        i := i + 1;
      }
      return None;
    }

    /** mm_page_free_sub */
    method FreePages(p: nat) returns (e: FreeErr)
      requires Valid() && p < |typ|
      modifies this
      ensures Valid() && (S(), e) == FreeSub(old(S()), p)
      decreases |typ| - p
    {
      FreeSubInv(S(), p);
      if typ[p] == Cont && ord[p] < |freeL| {
        if !Aligned(p, ord[p] + 1) { return BadAddress; }
        var q := p + Pow(ord[p]);
        ContSound(S(), p);
        FreeSubCont(S(), p, Retype(S(), p, Allocated), q);
        typ := typ[p := Allocated];
        var _ := FreePages(q);
      }
      e := FreeHead(p);
    }

    /** mm_page_free_sub after the ALLOCATED_CONT case. */
    method FreeHead(p: nat) returns (e: FreeErr)
      requires Valid() && p < |typ|
      modifies this
      ensures (S(), e) == FreeOne(old(S()), p)
    {
      if ord[p] >= |freeL| { return BadOrder; }
      match typ[p] {
        case Free => return DoubleFree;
        case NotHead => return NotHeadFree;
        case Cont => return BadType;
        case Small => return BadType;
        case Allocated => Give(p); return NoErr;
        case Reserved => Give(p); return NoErr;
      }
    }

    /** The rest of mm_page_free_sub: put the block on its list and merge buddies. */
    method Give(p: nat)
      requires Valid() && p < |typ| && ord[p] < |freeL| && Head(S(), p) && typ[p] != Free
      modifies this
      ensures Valid() && S() == Release(old(S()), p)
    {
      ReleaseSound(S(), p);
      PutFreeSound(S(), p);
      ghost var put := PutFree(S(), p);
      var n := ord[p];
      typ := typ[p := Free];
      freeL := freeL[n := Insert(freeL[n], p, n)];
      var v: nat := p;
      while CanMerge(Mem(typ, ord, freeL), v)
        invariant v < |typ| == |ord| && Base(S(), {}) && NoPairsBut(S(), v) && typ[v] == Free
        invariant FreeLoop(S(), v) == FreeLoop(put, p)
        decreases |freeL| - ord[v]
      {
        MergeSound(S(), v);
        v := MergeOnce(v);
      }
    }

    /** One round of the merge loop. */
    method MergeOnce(v: nat) returns (lo: nat)
      requires v < |typ| == |ord| && ord[v] + 1 < |freeL| && LowHalf(v, ord[v]) >= 0
      requires LowHalf(v, ord[v]) + Pow(ord[v]) < |typ|
      modifies this
      ensures lo == LowHalf(v, old(ord[v])) && S() == Merge(old(S()), lo, old(ord[v]))
    {
      var n := ord[v];
      lo := LowHalf(v, n);
      var up: nat := lo + Pow(n);
      freeL := freeL[n := Del2(freeL[n], lo, up)];
      typ := typ[up := NotHead];
      ord := ord[lo := n + 1];
      freeL := freeL[n + 1 := Insert(freeL[n + 1], lo, n + 1)];
    }
  }

  // ------------------------------------------------------------- runs

  function Initial(pages: nat, orders: nat): Mem {
    Mem(seq(pages, i => Reserved), seq(pages, i => 0), seq(orders, i => []))
  }

  lemma InitialSound(pages: nat, orders: nat)
    requires 0 < orders && Aligned(pages, orders)
    ensures Inv(Initial(pages, orders), {})
  {
    var s := Initial(pages, orders);
    forall i | 0 <= i < |s.typ| ensures BlockAt(s, i) && Owned(s, i) {
      assert Covers(s, i, i);
    }
  }

  datatype Op = AllocOp(n: nat) | AllocContOp(n: nat, m: nat) | FreeOp(p: nat)

  /** One call, with any arguments the source's own assertions let through; what fails them is the
      end of the VMM and changes nothing here. */
  function Do(s: Mem, op: Op): (d: Mem)
    requires Inv(s, {})
    ensures Inv(d, {}) && |d.typ| == |s.typ|
  {
    match op
    case AllocOp(n) => AllocSound(s, n); Alloc(s, n).0
    case AllocContOp(n, m) =>
      if n < |s.freeL| && m < |s.freeL| then
        AllocContSound(s, n, SecondOrder(n, m));
        AllocCont(s, n, SecondOrder(n, m)).0
      else s
    case FreeOp(p) => if p < |s.typ| then FreeSubInv(s, p); FreeSub(s, p).0 else s
  }

  function Run(s: Mem, ops: seq<Op>): (d: Mem)
    requires Inv(s, {})
    ensures Inv(d, {}) && |d.typ| == |s.typ|
    decreases |ops|
  {
    if ops == [] then s else Run(Do(s, ops[0]), ops[1..])
  }

  /** After every run of allocations and frees from boot: pages are partitioned into
      aligned blocks, each free block is on exactly its own list, no two buddies below the
      top order are both free, and a page that heads no block stores the number of
      trailing zeros of its index. */
  lemma RunInvariant(pages: nat, orders: nat, ops: seq<Op>, i: nat)
    requires 0 < orders && Aligned(pages, orders) && i < pages
    ensures Inv(Initial(pages, orders), {}) && |Run(Initial(pages, orders), ops).typ| == pages
    ensures var s := Run(Initial(pages, orders), ops);
      && |s.ord| == pages
      && (exists h: nat :: h <= i < h + Pow(s.ord[h]) && h < pages && s.typ[h] != NotHead && Aligned(h, s.ord[h])
            && (forall k: nat :: k <= i && k < pages && s.typ[k] != NotHead && i < k + Pow(s.ord[k]) ==> k == h))
      && (s.typ[i] == NotHead ==> i > 0 && s.ord[i] == Tz(i))
      && (forall k :: 0 <= k < |s.freeL| ==> (i in s.freeL[k] <==> s.typ[i] == Free && s.ord[i] == k))
      && (s.typ[i] == Free && s.ord[i] + 1 < |s.freeL| ==>
            var b := BuddyOf(i, s.ord[i]); 0 <= b < pages && !(s.typ[b] == Free && s.ord[b] == s.ord[i]))
  {
    InitialSound(pages, orders);
    var s := Run(Initial(pages, orders), ops);
    assert Owned(s, i);
    var h: nat :| Covers(s, h, i);
    assert BlockAt(s, h);
    forall k: nat | k <= i && k < pages && s.typ[k] != NotHead && i < k + Pow(s.ord[k]) ensures k == h {
      assert Covers(s, k, i);
      OneCover(s, h, k, i);
    }
    if s.typ[i] == Free && s.ord[i] + 1 < |s.freeL| {
      assert BlockAt(s, i);
      BuddyTwice(i, s.ord[i]);
      BuddyRange(s, i);
      assert !Pair(s, {}, i);
    }
  }

  lemma BuddyRange(s: Mem, i: nat)
    requires Inv(s, {}) && i < |s.typ| && s.typ[i] == Free && s.ord[i] + 1 < |s.freeL|
    ensures 0 <= BuddyOf(i, s.ord[i]) < |s.typ|
  {
    var n := s.ord[i];
    assert BlockAt(s, i);
    BuddyTwice(i, n);
    if Aligned(i, n + 1) { EvenRange(s, i, n); }
  }
}
