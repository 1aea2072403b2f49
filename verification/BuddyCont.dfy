/** Contiguous two-part blocks of the page allocator (mm.c, mm_page_alloc_cont). */
module BuddyCont {
  import opened Lists
  import opened Pow2
  import opened Buddy

  /** The page after a first half is in range. */
  lemma EvenRange(s: Mem, p: nat, n: nat)
    requires Sized(s) && n < |s.freeL| && p < |s.typ| && Aligned(p, n + 1)
    ensures p + Pow(n + 1) <= |s.typ|
  {
    AlignedLess(|s.typ|, n + 1, |s.freeL|);
    Nested(p, n + 1, |s.typ|, n + 1);
  }

  /** A first half of order n followed by a free block of order m or more. */
  ghost predicate PairAt(s: Mem, p: nat, n: nat, m: nat)
    requires |s.ord| == |s.typ|
  {
    && p < |s.typ| && Aligned(p, n + 1) && p + Pow(n) < |s.typ|
    && s.typ[p + Pow(n)] == Free && s.ord[p + Pow(n)] >= m
  }

  /** The search over list1_freepage[n]: it gives up at the first second half. */
  function FindPair(s: Mem, l: seq<nat>, n: nat, m: nat): (r: Option<nat>)
    requires Sized(s) && n < |s.freeL| && Below(l, |s.typ|)
    ensures r.Some? ==> r.value in l && PairAt(s, r.value, n, m)
  {
    if l == [] || !Aligned(l[0], n + 1) then None
    else
      EvenRange(s, l[0], n);
      if s.typ[l[0] + Pow(n)] == Free && s.ord[l[0] + Pow(n)] >= m then Some(l[0])
      else FindPair(s, l[1..], n, m)
  }

  /** Because first halves come first, giving up early misses nothing. */
  lemma {:induction false} FindPairComplete(s: Mem, l: seq<nat>, n: nat, m: nat, p: nat)
    requires Sized(s) && n < |s.freeL| && Below(l, |s.typ|) && EvensFirst(l, n)
    requires p in l && PairAt(s, p, n, m)
    ensures FindPair(s, l, n, m).Some?
  {
    if l[0] != p {
      assert l == [l[0]] + l[1..];
      var i :| 0 <= i < |l| && l[i] == p;
      FindPairComplete(s, l[1..], n, m, p);
    }
  }

  /** Two adjacent free blocks, off the lists: order n at p and some order at p + 2^n. */
  ghost predicate TwoHeld(s: Mem, p: nat, n: nat) {
    var q := p + Pow(n);
    && Inv(s, {p, q}) && s.typ[p] == Free && s.ord[p] == n && s.typ[q] == Free
  }

  lemma ClaimFirst(s: Mem, p: nat, n: nat)
    requires TwoHeld(s, p, n)
    ensures Inv(Retype(s, p, Cont), {p + Pow(n)})
  {
    RetypeSound(s, {p, p + Pow(n)}, p, Cont);
    SecondLeft(p, p + Pow(n));
  }

  lemma SecondLeft(p: nat, q: nat)
    requires p < q
    ensures {p, q} - {p} == {q}
  {
  }

  /** p and q are marked ALLOCATED_CONT and ALLOCATED, q after being cut down to order m. */
  function Claim(s: Mem, p: nat, n: nat, m: nat): Mem
    requires TwoHeld(s, p, n)
  {
    var q := p + Pow(n);
    ClaimFirst(s, p, n);
    var d := SplitDown(Retype(s, p, Cont), {q}, q, m);
    if q < |d.typ| then Retype(d, q, Allocated) else d
  }

  /** A live two-part allocation. */
  ghost predicate ContAt(d: Mem, p: nat, n: nat, m: nat)
    requires |d.ord| == |d.typ|
  {
    && p + Pow(n) < |d.typ| && Aligned(p, n + 1) && d.typ[p] == Cont && d.ord[p] == n
    && d.typ[p + Pow(n)] == Allocated && d.ord[p + Pow(n)] == m
  }

  /** The pair is claimed, and exactly its pages stop being free. */
  ghost predicate Claimed(s: Mem, d: Mem, p: nat, n: nat, m: nat)
    requires |s.ord| == |s.typ|
  {
    && Inv(d, {}) && ContAt(d, p, n, m) && |d.typ| == |s.typ| && |d.freeL| == |s.freeL|
    && FreeMinus(s, d, p, Pow(n) + Pow(m))
  }

  lemma ClaimSound(s: Mem, p: nat, n: nat, m: nat) returns (d: Mem)
    requires TwoHeld(s, p, n) && Aligned(p, n + 1) && m <= s.ord[p + Pow(n)]
    ensures d == Claim(s, p, n, m) && Claimed(s, d, p, n, m)
  {
    var q := p + Pow(n);
    ClaimFirst(s, p, n);
    RetypeMinus(s, p, Cont);
    d := ClaimRest(s, Retype(s, p, Cont), p, n, m, q);
  }

  lemma ClaimRest(s: Mem, a: Mem, p: nat, n: nat, m: nat, q: nat) returns (d: Mem)
    requires |s.ord| == |s.typ| && Inv(a, {q}) && q == p + Pow(n) && q < |a.typ| == |s.typ| && |a.freeL| == |s.freeL|
    requires a.typ[p] == Cont && a.ord[p] == n && a.typ[q] == Free && m <= a.ord[q] && Aligned(p, n + 1)
    requires FreeMinus(s, a, p, Pow(n))
    ensures q < |SplitDown(a, {q}, q, m).typ| && d == Retype(SplitDown(a, {q}, q, m), q, Allocated) && Claimed(s, d, p, n, m)
  {
    var b := ClaimSecond(a, p, q, m);
    d := Retype(b, q, Allocated);
    MinusTwice(s, a, b, d, p, Pow(n), Pow(m));
  }

  /** q is cut down and retyped; the block at p stays. */
  lemma ClaimSecond(a: Mem, p: nat, q: nat, m: nat) returns (b: Mem)
    requires Inv(a, {q}) && p < q < |a.typ| && a.typ[p] == Cont && a.typ[q] == Free && m <= a.ord[q]
    ensures b == SplitDown(a, {q}, q, m) && q < |b.typ| == |a.typ| && |b.ord| == |b.typ| && |b.freeL| == |a.freeL|
    ensures SameFree(a, b) && FreeMinus(b, Retype(b, q, Allocated), q, Pow(m))
    ensures var d := Retype(b, q, Allocated);
      && Inv(d, {}) && d.typ[p] == Cont && d.ord[p] == a.ord[p] && d.typ[q] == Allocated && d.ord[q] == m
  {
    SplitDownSound(a, {q}, q, m);
    b := SplitDown(a, {q}, q, m);
    assert Head(a, p);
    RetypeLast(b, q);
    RetypeMinus(b, q, Allocated);
  }

  lemma RetypeLast(b: Mem, q: nat)
    requires Inv(b, {q}) && q < |b.typ| && b.typ[q] == Free
    ensures Inv(Retype(b, q, Allocated), {})
  {
    RetypeSound(b, {q}, q, Allocated);
    assert {q} - {q} == {};
  }

  /** The pages p .. p + len - 1 stopped being free, and no other did. */
  ghost predicate FreeMinus(s: Mem, d: Mem, p: nat, len: nat)
    requires |s.ord| == |s.typ| && |d.ord| == |d.typ|
  {
    |d.typ| == |s.typ| && forall j: nat :: j < |s.typ| ==> (FreeAt(d, j) <==> FreeAt(s, j) && !(p <= j < p + len))
  }

  lemma RetypeMinus(s: Mem, p: nat, t: PType)
    requires Sized(s) && Blocks(s) && Orders(s) && p < |s.typ| && Head(s, p) && t != NotHead && t != Free
    ensures FreeMinus(s, Retype(s, p, t), p, Pow(s.ord[p]))
  {
    RetypeFree(s, p, t);
  }

  lemma MinusTwice(s: Mem, a: Mem, b: Mem, d: Mem, p: nat, x: nat, y: nat)
    requires |s.ord| == |s.typ| && |a.ord| == |a.typ| && |b.ord| == |b.typ| && |d.ord| == |d.typ|
    requires FreeMinus(s, a, p, x) && SameFree(a, b) && FreeMinus(b, d, p + x, y)
    ensures FreeMinus(s, d, p, x + y)
  {
  }

  lemma ClaimedPages(s: Mem, p: nat, n: nat, m: nat, q: nat)
    requires Sized(s) && Blocks(s) && q == p + Pow(n) && q < |s.typ| && s.typ[p] == Free && s.typ[q] == Free
    requires s.ord[p] == n && m <= s.ord[q]
    ensures p + (Pow(n) + Pow(m)) <= |s.typ| && forall j: nat :: p <= j < p + (Pow(n) + Pow(m)) ==> FreeAt(s, j)
  {
    PowMono(m, s.ord[q]);
    ClaimedRuns(s, p, n, q, Pow(m));
  }

  lemma ClaimedRuns(s: Mem, p: nat, n: nat, q: nat, y: nat)
    requires Sized(s) && Blocks(s) && q == p + Pow(n) && q < |s.typ| && s.typ[p] == Free && s.typ[q] == Free
    requires s.ord[p] == n && y <= Pow(s.ord[q])
    ensures p + (Pow(n) + y) <= |s.typ| && forall j: nat :: p <= j < p + (Pow(n) + y) ==> FreeAt(s, j)
  {
    HeldPages(s, p);
    HeldPages(s, q);
    TwoRuns(s, p, Pow(n), y);
  }

  lemma TwoRuns(s: Mem, p: nat, x: nat, y: nat)
    requires |s.ord| == |s.typ| && p + x + y <= |s.typ|
    requires forall j: nat :: p <= j < p + x ==> FreeAt(s, j)
    requires forall j: nat :: p + x <= j < p + x + y ==> FreeAt(s, j)
    ensures forall j: nat :: p <= j < p + (x + y) ==> FreeAt(s, j)
  {
  }

  lemma HeldPages(s: Mem, p: nat)
    requires Sized(s) && Blocks(s) && p < |s.typ| && s.typ[p] == Free
    ensures p + Pow(s.ord[p]) <= |s.typ| && forall j: nat :: p <= j < p + Pow(s.ord[p]) ==> FreeAt(s, j)
  {
    BlockIsRun(s, p);
  }

  /** Take the free block at q as well. */
  lemma TakeSecond(s: Mem, p: nat, q: nat)
    requires Inv(s, {p}) && p != q && q < |s.typ| && s.typ[q] == Free && s.typ[p] == Free
    ensures s.ord[q] < |s.freeL| && Inv(Take(s, s.ord[q], q), {p, q})
    ensures SameFree(s, Take(s, s.ord[q], q))
  {
    assert Head(s, q) && BlockAt(s, q);
    assert Avail(s, {p}, q);
    TakeSound(s, {p}, s.ord[q], q);
    assert {p} + {q} == {p, q};
    SameOwners(s, Take(s, s.ord[q], q));
  }

  /** Take an adjacent pair off the lists. */
  function TakePair(s: Mem, p: nat, n: nat): Mem
    requires n < |s.freeL| && p + Pow(n) < |s.ord| && s.ord[p + Pow(n)] < |s.freeL|
  {
    Take(Take(s, n, p), s.ord[p + Pow(n)], p + Pow(n))
  }

  /** The two blocks that mm_page_alloc_cont takes off the lists: an adjacent pair, or the
      halves of a larger block. */
  function Gather(s: Mem, n: nat, m: nat): (r: (Mem, Option<nat>))
    requires Inv(s, {}) && n < |s.freeL| && m <= n
    ensures |r.0.ord| == |r.0.typ| && (r.1.None? ==> r.0 == s)
    ensures r.1.Some? ==> Gathered(s, r.0, r.1.value, n, m)
  {
    var f := FindPair(s, s.freeL[n], n, m);
    if f.Some? then
      GatherFound(s, f.value, n, m);
      (TakePair(s, f.value, n), f)
    else HalveLarger(s, n, m)
  }

  /** The halves of a larger block (mm_page_alloc_sub (n + 1), then a split). */
  function HalveLarger(s: Mem, n: nat, m: nat): (r: (Mem, Option<nat>))
    requires Inv(s, {}) && n < |s.freeL| && m <= n
    ensures |r.0.ord| == |r.0.typ| && (r.1.None? ==> r.0 == s)
    ensures r.1.Some? ==> Gathered(s, r.0, r.1.value, n, m)
  {
    AllocSubSound(s, n + 1);
    var r := AllocSub(s, n + 1);
    if r.1.None? then (s, None) else (Halve(s, r.0, r.1.value, n, m), r.1)
  }

  /** Split a held block of order n + 1 and hold both halves. */
  function Halve(s: Mem, r: Mem, p: nat, n: nat, m: nat): (d: Mem)
    requires |s.ord| == |s.typ| && Inv(r, {p}) && r.typ[p] == Free && r.ord[p] == n + 1 && m <= n
    requires SameFree(s, r) && |r.freeL| == |s.freeL|
    ensures |d.ord| == |d.typ| && Gathered(s, d, p, n, m)
  {
    HalveSound(s, r, p, n, m);
    Take(Split(r, p), n, p + Pow(n))
  }

  /** What Gather promises about the pair it found. */
  ghost predicate Gathered(s: Mem, d: Mem, p: nat, n: nat, m: nat)
    requires |s.ord| == |s.typ| && |d.ord| == |d.typ|
  {
    && |d.freeL| == |s.freeL| && SameFree(s, d)
    && TwoHeld(d, p, n) && Aligned(p, n + 1) && m <= d.ord[p + Pow(n)]
  }

  lemma GatherFound(s: Mem, p: nat, n: nat, m: nat)
    requires Inv(s, {}) && n < |s.freeL| && m <= n && p in s.freeL[n] && PairAt(s, p, n, m)
    ensures s.ord[p + Pow(n)] < |s.freeL| && |TakePair(s, p, n).ord| == |TakePair(s, p, n).typ|
    ensures Gathered(s, TakePair(s, p, n), p, n, m)
  {
    TakeSound(s, {}, n, p);
    assert {} + {p} == {p};
    var t := Take(s, n, p);
    SameOwners(s, t);
    TakeSecond(t, p, p + Pow(n));
  }

  lemma HalveSound(s: Mem, r: Mem, p: nat, n: nat, m: nat)
    requires |s.ord| == |s.typ| && Inv(r, {p}) && r.typ[p] == Free && r.ord[p] == n + 1 && m <= n
    requires SameFree(s, r) && |r.freeL| == |s.freeL|
    ensures p + Pow(n) < |r.typ| && n < |r.freeL|
    ensures var d := Take(Split(r, p), n, p + Pow(n)); |d.ord| == |d.typ| && Gathered(s, d, p, n, m)
  {
    SplitGeometry(r, p);
    SplitSound(r, {p}, p);
    SplitFree(r, p);
    assert BlockAt(r, p);
    TakeSecond(Split(r, p), p, p + Pow(n));
  }

  /** mm_page_alloc_cont: None is the "Out of memory" panic. */
  function AllocCont(s: Mem, n: nat, m: nat): (Mem, Option<nat>)
    requires Inv(s, {}) && n < |s.freeL| && m <= n
  {
    var g := Gather(s, n, m);
    if g.1.None? then (s, None) else (Claim(g.0, g.1.value, n, m), g.1)
  }

  lemma AllocContSound(s: Mem, n: nat, m: nat)
    requires Inv(s, {}) && n < |s.freeL| && m <= n
    ensures var (d, p) := AllocCont(s, n, m);
      && Inv(d, {}) && |d.typ| == |s.typ|
      && (p.None? ==> d == s)
      && (p.Some? ==> ContAt(d, p.value, n, m) && Took(s, d, p.value, Pow(n) + Pow(m)))
  {
    var (g, p) := Gather(s, n, m);
    if p.Some? { ClaimFrom(s, g, p.value, n, m); }
  }

  lemma ClaimFrom(s: Mem, g: Mem, p: nat, n: nat, m: nat)
    requires |s.ord| == |s.typ| && |g.ord| == |g.typ| && Gathered(s, g, p, n, m)
    ensures var d := Claim(g, p, n, m);
      Inv(d, {}) && |d.typ| == |s.typ| && ContAt(d, p, n, m) && Took(s, d, p, Pow(n) + Pow(m))
  {
    var d := ClaimSound(g, p, n, m);
    var q: nat := p + Pow(n);
    HeldReady(g, p, n, q);
    ClaimedPages(g, p, n, m, q);
    TookFrom(s, g, d, p, Pow(n) + Pow(m));
  }

  lemma HeldReady(s: Mem, p: nat, n: nat, q: nat)
    requires TwoHeld(s, p, n) && q == p + Pow(n)
    ensures Sized(s) && Blocks(s) && q < |s.typ|
  {
    var held := {p, q};
    assert q in held;
  }

  lemma TookFrom(s: Mem, g: Mem, d: Mem, p: nat, len: nat)
    requires |s.ord| == |s.typ| && |g.ord| == |g.typ| && |d.ord| == |d.typ| && |d.freeL| == |s.freeL|
    requires SameFree(s, g) && FreeMinus(g, d, p, len)
    requires p + len <= |g.typ| && forall j: nat :: p <= j < p + len ==> FreeAt(g, j)
    ensures Took(s, d, p, len)
  {
  }

  /** The second order that mm_page_alloc_cont (n, m) can give. */
  function SecondOrder(n: nat, m: nat): nat {
    if m <= n then m else n
  }

  /** A free block behind a first half of order n has at most that order. */
  lemma SecondBound(s: Mem, p: nat, n: nat, q: nat)
    requires Sized(s) && Blocks(s) && Aligned(p, n + 1) && q == p + Pow(n) && q < |s.typ| && Head(s, q)
    ensures s.ord[q] <= n
  {
    assert BlockAt(s, q);
    AlignedDown(p, n);
    BuddyTwice(p, n);
    if s.ord[q] > n { AlignedLess(q, n + 1, s.ord[q]); }
  }

  /** With m > n the search finds nothing, and neither does the one with n: two free buddies of
      order n below the top would be one block. */
  lemma {:induction false} NoPairAbove(s: Mem, l: seq<nat>, n: nat, m: nat)
    requires Inv(s, {}) && n < m < |s.freeL| && Below(l, |s.typ|)
    requires forall p :: p in l ==> s.typ[p] == Free && s.ord[p] == n
    ensures FindPair(s, l, n, m) == None == FindPair(s, l, n, n)
  {
    if l != [] && Aligned(l[0], n + 1) {
      EvenRange(s, l[0], n);
      var q: nat := l[0] + Pow(n);
      if s.typ[q] == Free {
        SecondBound(s, l[0], n, q);
        assert l[0] in l && !Pair(s, {}, l[0]);
      }
      NoPairAbove(s, l[1..], n, m);
    }
  }

  /** So mm_page_alloc_cont (n, m) with m > n does what (n, n) does. */
  lemma SearchAbove(s: Mem, n: nat, m: nat)
    requires Inv(s, {}) && n < |s.freeL| && m < |s.freeL|
    ensures FindPair(s, s.freeL[n], n, m) == FindPair(s, s.freeL[n], n, SecondOrder(n, m))
  {
    ListIsFree(s, n);
    if m > n { NoPairAbove(s, s.freeL[n], n, m); }
  }

  lemma ListIsFree(s: Mem, n: nat)
    requires |s.ord| == |s.typ| && Listed(s, {}) && n < |s.freeL|
    ensures Below(s.freeL[n], |s.typ|) && forall p :: p in s.freeL[n] ==> s.typ[p] == Free && s.ord[p] == n
  {
    forall p | p in s.freeL[n] ensures s.typ[p] == Free && s.ord[p] == n {
      assert Avail(s, {}, p);
    }
  }

  lemma ClaimAbove(s: Mem, p: nat, n: nat, m: nat)
    requires TwoHeld(s, p, n) && Aligned(p, n + 1)
    ensures Claim(s, p, n, m) == Claim(s, p, n, SecondOrder(n, m))
  {
    if m > n {
      SecondBound(s, p, n, p + Pow(n));
      ClaimFirst(s, p, n);
    }
  }

  /** 2^n + 2^m free pages from an address aligned to 2^(n+1). */
  ghost predicate PairRun(s: Mem, i: nat, n: nat, m: nat)
    requires |s.ord| == |s.typ|
  {
    && Aligned(i, n + 1) && i + Pow(n) + Pow(m) <= |s.typ|
    && (forall j: nat :: i <= j < i + Pow(n) + Pow(m) ==> FreeAt(s, j))
  }

  /** mm_page_alloc_cont runs out of memory only when no such run exists. */
  lemma AllocContComplete(s: Mem, n: nat, m: nat)
    requires Inv(s, {}) && n < |s.freeL| && m <= n
    ensures AllocCont(s, n, m).1.None? <==> forall i: nat :: !PairRun(s, i, n, m)
  {
    AllocContSound(s, n, m);
    if AllocCont(s, n, m).1.None? {
      forall i: nat | PairRun(s, i, n, m) ensures false {
        RunFound(s, i, n, m);
      }
    } else {
      var p := AllocCont(s, n, m).1.value;
      assert PairRun(s, p, n, m);
    }
  }

  lemma RunFound(s: Mem, i: nat, n: nat, m: nat)
    requires Inv(s, {}) && n < |s.freeL| && m <= n && PairRun(s, i, n, m)
    ensures Gather(s, n, m).1.Some?
  {
    AllocSubSound(s, n + 1);
    AlignedDown(i, n);
    var h := RunInBlock(s, i, n);
    assert BlockAt(s, h);
    if s.ord[h] == n {
      assert h == i && i in s.freeL[n];
      var q := i + Pow(n);
      AlignedLess(q, m, n);
      assert RunFree(s, q, m);
      var k := RunInBlock(s, q, m);
      assert BlockAt(s, k) && Covers(s, k, q);
      NotInOther(s, k, q);
      assert k == q;
      FindPairComplete(s, s.freeL[n], n, m, i);
    }
  }

  /** The states mm_page_free_sub goes through on a two-part allocation: p retyped, q freed, p
      freed. */
  ghost predicate FreeSteps(s: Mem, p: nat, q: nat, a: Mem, b: Mem, d: Mem) {
    && p < q < |s.typ| && a == Retype(s, p, Allocated)
    && Inv(a, {}) && q < |a.typ| && a.typ[q] == Allocated && a.ord[q] < |a.freeL| && b == Release(a, q)
    && Inv(b, {}) && p < |b.typ| && b.typ[p] == Allocated && b.ord[p] == a.ord[p] < |b.freeL| && d == Release(b, p)
  }

  lemma {:induction false} FreeContSteps(s: Mem, p: nat, n: nat, m: nat, q: nat) returns (a: Mem, b: Mem, d: Mem)
    requires Inv(s, {}) && ContAt(s, p, n, m) && q == p + Pow(n)
    ensures FreeSteps(s, p, q, a, b, d) && FreeSub(s, p) == (d, NoErr) && Inv(d, {})
  {
    ContReady(s, p, n, m, q);
    a := Retype(s, p, Allocated);
    b := SecondFreed(a, p, q);
    FreeOneIs(b, p);
    d := Release(b, p);
    FreeSubCont(s, p, a, q);
  }

  lemma ContReady(s: Mem, p: nat, n: nat, m: nat, q: nat)
    requires Inv(s, {}) && ContAt(s, p, n, m) && q == p + Pow(n)
    ensures p < q < |s.typ| && s.typ[p] == Cont && s.ord[p] == n < |s.freeL| && Aligned(p, n + 1)
    ensures s.typ[q] == Allocated && Inv(Retype(s, p, Allocated), {})
  {
    assert Head(s, p) && BlockAt(s, p);
    ContSound(s, p);
  }

  lemma {:induction false} SecondFreed(a: Mem, p: nat, q: nat) returns (b: Mem)
    requires Inv(a, {}) && p < q < |a.typ| && a.typ[q] == Allocated && a.typ[p] == Allocated
    ensures a.ord[q] < |a.freeL| && b == Release(a, q) && FreeSub(a, q) == (b, NoErr)
    ensures Inv(b, {}) && p < |b.typ| && b.typ[p] == Allocated && b.ord[p] == a.ord[p]
  {
    ReleaseSound(a, q);
    FreeOneIs(a, q);
    b := Release(a, q);
  }

  lemma {:induction false} FreeOneIs(s: Mem, p: nat)
    requires Inv(s, {}) && p < |s.typ| && s.typ[p] == Allocated
    ensures s.ord[p] < |s.freeL| && FreeSub(s, p) == FreeOne(s, p) == (Release(s, p), NoErr) && Inv(Release(s, p), {})
  {
    ReleaseSound(s, p);
  }

  /** Freeing a two-part allocation gives back exactly its pages. */
  lemma {:induction false} FreeCont(s: Mem, p: nat, n: nat, m: nat)
    requires Inv(s, {}) && ContAt(s, p, n, m)
    ensures var (d, e) := FreeSub(s, p); e == NoErr && Gave(s, d, p, Pow(n) + Pow(m))
  {
    var q := p + Pow(n);
    RetypeAny(s, p, Allocated);
    var a, b, d := FreeContSteps(s, p, n, m, q);
    GaveBoth(s, a, b, d, p, q);
  }

  lemma GaveBoth(s: Mem, a: Mem, b: Mem, d: Mem, p: nat, q: nat)
    requires |s.ord| == |s.typ| && FreeSteps(s, p, q, a, b, d) && SameFree(s, a) && q == p + Pow(s.ord[p])
    ensures |d.ord| == |d.typ| && Gave(s, d, p, Pow(s.ord[p]) + Pow(s.ord[q]))
  {
    ReleaseSound(a, q);
    ReleaseSound(b, p);
    GaveTwice(s, a, b, d, p, Pow(s.ord[p]), Pow(s.ord[q]));
  }

  lemma GaveTwice(s: Mem, a: Mem, b: Mem, d: Mem, p: nat, x: nat, y: nat)
    requires |s.ord| == |s.typ| && |a.ord| == |a.typ| && |b.ord| == |b.typ| && |d.ord| == |d.typ| && |a.freeL| == |s.freeL|
    requires SameFree(s, a) && Gave(a, b, p + x, y) && Gave(b, d, p, x)
    ensures Gave(s, d, p, x + y)
  {
  }

  /** Allocating a two-part block and freeing it restores the same free blocks. */
  lemma AllocContFree(s: Mem, n: nat, m: nat)
    requires Inv(s, {}) && n < |s.freeL| && m <= n && AllocCont(s, n, m).1.Some?
    ensures var (d, p) := AllocCont(s, n, m);
      && Inv(d, {}) && p.value < |d.typ|
      && var (f, e) := FreeSub(d, p.value);
      && e == NoErr && Inv(f, {}) && |f.typ| == |s.typ| && SameFreeBlocks(s, f)
  {
    AllocContSound(s, n, m);
    var (d, p) := AllocCont(s, n, m);
    FreeCont(d, p.value, n, m);
    FreeSubInv(d, p.value);
    var f := FreeSub(d, p.value).0;
    GaveBack(s, d, f, p.value, Pow(n) + Pow(m));
    Canonical(s, f);
  }

  lemma GaveBack(s: Mem, d: Mem, f: Mem, p: nat, len: nat)
    requires |s.ord| == |s.typ| && |d.ord| == |d.typ| && |f.ord| == |f.typ| && Took(s, d, p, len) && Gave(d, f, p, len)
    ensures |f.typ| == |s.typ| && forall j: nat :: j < |s.typ| ==> (FreeAt(f, j) <==> FreeAt(s, j))
  {
  }
}
