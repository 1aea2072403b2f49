/** The buddy page allocator of the VMM (mm.c, mm_page_*): page descriptors with a type
    and an order, and one free list for each order. */
module Buddy {
  import opened Lists
  import opened Pow2

  datatype PType = Free | NotHead | Allocated | Cont | Small | Reserved

  /** pagestruct[].type and .allocsize, and list1_freepage[]; page numbers are
      (virt - VMM_START_VIRT) >> 12 and VMM_START_VIRT is aligned to the top order. */
  datatype Mem = Mem(typ: seq<PType>, ord: seq<nat>, freeL: seq<seq<nat>>)

  // ------------------------------------------------------------- invariant

  predicate Head(s: Mem, i: nat)
    requires i < |s.typ|
  {
    s.typ[i] != NotHead
  }

  ghost predicate Sized(s: Mem) {
    |s.ord| == |s.typ| && 0 < |s.freeL| && Aligned(|s.typ|, |s.freeL|)
  }

  /** Page h heads the block that contains page j. */
  ghost predicate Covers(s: Mem, h: nat, j: nat)
    requires |s.ord| == |s.typ|
  {
    h <= j < |s.typ| && Head(s, h) && j < h + Pow(s.ord[h])
  }

  ghost predicate Owned(s: Mem, j: nat)
    requires |s.ord| == |s.typ|
  {
    exists h: nat :: Covers(s, h, j)
  }

  ghost predicate BlockAt(s: Mem, i: nat)
    requires |s.ord| == |s.typ| && i < |s.typ|
  {
    && s.ord[i] < |s.freeL| && Aligned(i, s.ord[i]) && i + Pow(s.ord[i]) <= |s.typ|
    && (forall j :: i < j < i + Pow(s.ord[i]) ==> s.typ[j] == NotHead)
  }

  /** The heads partition the pages into aligned blocks. */
  ghost predicate Blocks(s: Mem)
    requires |s.ord| == |s.typ|
  {
    && (forall i :: 0 <= i < |s.typ| && Head(s, i) ==> BlockAt(s, i))
    && (forall j :: 0 <= j < |s.typ| ==> Owned(s, j))
  }

  /** A page that heads no block remembers the order it has as an upper half. */
  ghost predicate Orders(s: Mem)
    requires |s.ord| == |s.typ|
  {
    forall j :: 0 <= j < |s.typ| && !Head(s, j) ==> j > 0 && s.ord[j] == Tz(j)
  }

  /** A free block that the allocator may hand out; `held` are blocks an operation has
      taken off the lists but not yet retyped. */
  ghost predicate Avail(s: Mem, held: set<nat>, i: int) {
    0 <= i < |s.typ| && s.typ[i] == Free && i !in held
  }

  ghost predicate Listed(s: Mem, held: set<nat>)
    requires |s.ord| == |s.typ|
  {
    && (forall k :: 0 <= k < |s.freeL| ==> NoDup(s.freeL[k]) && Below(s.freeL[k], |s.typ|))
    && (forall k, i :: 0 <= k < |s.freeL| && 0 <= i < |s.typ| ==>
          (i in s.freeL[k] <==> Avail(s, held, i) && s.ord[i] == k))
  }

  /** i and its buddy are both available with the same order. */
  ghost predicate Pair(s: Mem, held: set<nat>, i: nat)
    requires |s.ord| == |s.typ|
  {
    && Avail(s, held, i) && s.ord[i] + 1 < |s.freeL|
    && (var b := BuddyOf(i, s.ord[i]); Avail(s, held, b) && s.ord[b] == s.ord[i])
  }

  ghost predicate NoPairs(s: Mem, held: set<nat>)
    requires |s.ord| == |s.typ|
  {
    forall i :: 0 <= i < |s.typ| ==> !Pair(s, held, i)
  }

  /** First halves come before second halves in every list. */
  ghost predicate EvensFirst(l: seq<nat>, k: nat) {
    forall a, b :: 0 <= a < b < |l| && Aligned(l[b], k + 1) ==> Aligned(l[a], k + 1)
  }

  ghost predicate Sorted(s: Mem) {
    forall k :: 0 <= k < |s.freeL| ==> EvensFirst(s.freeL[k], k)
  }

  ghost predicate HeldOk(s: Mem, held: set<nat>) {
    forall i :: i in held ==> i < |s.typ| && Head(s, i)
  }

  ghost predicate Base(s: Mem, held: set<nat>) {
    Sized(s) && Blocks(s) && Orders(s) && Listed(s, held) && Sorted(s) && HeldOk(s, held)
  }

  ghost predicate Inv(s: Mem, held: set<nat>) {
    Base(s, held) && NoPairs(s, held)
  }

  // ------------------------------------------------------------- geometry

  lemma BuddyTwice(i: nat, n: nat)
    requires Aligned(i, n)
    ensures BuddyOf(i, n) >= 0 && Aligned(BuddyOf(i, n), n) && BuddyOf(BuddyOf(i, n), n) == i && BuddyOf(i, n) != i
    ensures Aligned(BuddyOf(i, n), n + 1) <==> !Aligned(i, n + 1)
  {
    if Aligned(i, n + 1) {
      AlignedDown(i, n);
    } else {
      SecondHalf(i, n);
      AlignedDown(i - Pow(n), n);
    }
  }

  lemma OneCover(s: Mem, h: nat, k: nat, j: nat)
    requires Sized(s) && Blocks(s) && Covers(s, h, j) && Covers(s, k, j)
    ensures h == k
  {
    assert BlockAt(s, h) && BlockAt(s, k);
  }

  /** A page inside a block is inside no other. */
  lemma NotInOther(s: Mem, p: nat, q: nat)
    requires Sized(s) && Blocks(s) && p < |s.typ| && Head(s, p) && p <= q < p + Pow(s.ord[p])
    ensures forall i :: 0 <= i < |s.typ| && Head(s, i) && i != p ==> !(i <= q < i + Pow(s.ord[i]))
  {
    assert BlockAt(s, p);
    forall i | 0 <= i < |s.typ| && Head(s, i) && i != p ensures !(i <= q < i + Pow(s.ord[i])) {
      assert BlockAt(s, i);
    }
  }

  // ------------------------------------------------------------- split

  /** mm_page_free_2ndhalf: the upper half becomes a free block; its order is not set. */
  function Split(s: Mem, p: nat): Mem
    requires p < |s.ord| == |s.typ| && 0 < s.ord[p] <= |s.freeL| && p + Pow(s.ord[p] - 1) < |s.typ|
  {
    var n := s.ord[p] - 1;
    var q := p + Pow(n);
    s.(ord := s.ord[p := n], typ := s.typ[q := Free], freeL := s.freeL[n := s.freeL[n] + [q]])
  }

  lemma SplitGeometry(s: Mem, p: nat)
    requires Sized(s) && Blocks(s) && Orders(s) && p < |s.typ| && Head(s, p) && s.ord[p] > 0
    ensures var n := s.ord[p] - 1; var q := p + Pow(n);
      && n < |s.freeL| && q + Pow(n) == p + Pow(n + 1) <= |s.typ|
      && s.typ[q] == NotHead && s.ord[q] == n && Aligned(q, n) && !Aligned(q, n + 1) && BuddyOf(q, n) == p
      && Aligned(p, n) && BuddyOf(p, n) == q
  {
    var n := s.ord[p] - 1;
    assert BlockAt(s, p);
    AlignedDown(p, n);
    TzUpper(p, n);
  }

  lemma SplitBlocks(s: Mem, p: nat)
    requires Sized(s) && Blocks(s) && Orders(s) && p < |s.typ| && Head(s, p) && s.ord[p] > 0
    ensures p + Pow(s.ord[p] - 1) < |s.typ| && s.ord[p] <= |s.freeL|
    ensures Blocks(Split(s, p)) && Orders(Split(s, p))
  {
    SplitGeometry(s, p);
    var d := Split(s, p);
    SplitHeads(s, p);
    forall j | 0 <= j < |d.typ| && !Head(d, j) ensures j > 0 && d.ord[j] == Tz(j) {
      assert !Head(s, j);
    }
    forall j | 0 <= j < |d.typ| ensures Owned(d, j) {
      var _, _ := SplitOwner(s, p, j);
    }
  }

  lemma SplitHeads(s: Mem, p: nat)
    requires Sized(s) && Blocks(s) && Orders(s) && p < |s.typ| && Head(s, p) && s.ord[p] > 0
    requires p + Pow(s.ord[p] - 1) < |s.typ| && s.ord[p] <= |s.freeL|
    ensures var d := Split(s, p); forall i :: 0 <= i < |d.typ| && Head(d, i) ==> BlockAt(d, i)
  {
    SplitGeometry(s, p);
    var q := p + Pow(s.ord[p] - 1);
    var d := Split(s, p);
    NotInOther(s, p, q);
    assert BlockAt(s, p);
    forall i | 0 <= i < |d.typ| && Head(d, i) ensures BlockAt(d, i) {
      if i != p && i != q { assert BlockAt(s, i); }
    }
  }

  /** The block that page j is in after the split. */
  lemma SplitOwner(s: Mem, p: nat, j: nat) returns (h: nat, k: nat)
    requires Sized(s) && Blocks(s) && Orders(s) && p < |s.typ| && Head(s, p) && s.ord[p] > 0 && j < |s.typ|
    requires p + Pow(s.ord[p] - 1) < |s.typ| && s.ord[p] <= |s.freeL|
    ensures Covers(s, h, j) && Covers(Split(s, p), k, j)
    ensures k == if h == p && p + Pow(s.ord[p] - 1) <= j then p + Pow(s.ord[p] - 1) else h
  {
    SplitGeometry(s, p);
    assert Owned(s, j);
    h :| Covers(s, h, j);
    k := if h == p && p + Pow(s.ord[p] - 1) <= j then p + Pow(s.ord[p] - 1) else h;
  }

  /** Splitting a held block: the stored order of the NOT_HEAD page is already right. */
  lemma SplitSound(s: Mem, held: set<nat>, p: nat)
    requires Inv(s, held) && p in held && s.ord[p] > 0
    ensures p + Pow(s.ord[p] - 1) < |s.typ| && s.ord[p] <= |s.freeL|
    ensures Inv(Split(s, p), held)
    ensures var q := p + Pow(s.ord[p] - 1); Avail(Split(s, p), held, q) && Split(s, p).ord[q] == s.ord[p] - 1
  {
    SplitGeometry(s, p);
    SplitBlocks(s, p);
    var n := s.ord[p] - 1;
    var q := p + Pow(n);
    SplitListed(s, held, p, n, q);
    SplitSorted(s, p, n, q);
    SplitNoPairs(s, held, p, n, q);
  }

  lemma SplitListed(s: Mem, held: set<nat>, p: nat, n: nat, q: nat)
    requires |s.ord| == |s.typ| && Listed(s, held) && HeldOk(s, held) && p in held && s.ord[p] == n + 1 && n < |s.freeL|
    requires q == p + Pow(n) && q < |s.typ| && s.typ[q] == NotHead && s.ord[q] == n
    ensures Listed(Split(s, p), held)
  {
    var d := Split(s, p);
    assert q !in s.freeL[n];
    AddNoDup(s.freeL[n], q);
    forall k | 0 <= k < |d.freeL| ensures NoDup(d.freeL[k]) && Below(d.freeL[k], |d.typ|) {
      assert NoDup(s.freeL[k]) && Below(s.freeL[k], |s.typ|);
    }
    forall k, i | 0 <= k < |d.freeL| && 0 <= i < |d.typ| ensures i in d.freeL[k] <==> Avail(d, held, i) && d.ord[i] == k {
      assert i in s.freeL[k] <==> Avail(s, held, i) && s.ord[i] == k;
    }
  }

  lemma SplitSorted(s: Mem, p: nat, n: nat, q: nat)
    requires Sorted(s) && p < |s.ord| == |s.typ| && s.ord[p] == n + 1 && n < |s.freeL| && q == p + Pow(n) && q < |s.typ| && !Aligned(q, n + 1)
    ensures Sorted(Split(s, p))
  {
    var d := Split(s, p);
    forall k | 0 <= k < |d.freeL| ensures EvensFirst(d.freeL[k], k) {
      assert EvensFirst(s.freeL[k], k);
    }
  }

  lemma SplitNoPairs(s: Mem, held: set<nat>, p: nat, n: nat, q: nat)
    requires Sized(s) && Blocks(s) && NoPairs(s, held) && p in held && p < |s.typ| && s.ord[p] == n + 1 && n < |s.freeL|
    requires q == p + Pow(n) && q < |s.typ| && s.typ[q] == NotHead && s.ord[q] == n && BuddyOf(q, n) == p && BuddyOf(p, n) == q
    ensures NoPairs(Split(s, p), held)
  {
    var d := Split(s, p);
    forall i | 0 <= i < |d.typ| ensures !Pair(d, held, i) {
      if Avail(d, held, i) && i != q {
        assert BlockAt(s, i);
        BuddyTwice(i, d.ord[i]);
        assert !Pair(s, held, i);
      }
    }
  }

  // ------------------------------------------------------------- free pages

  /** Page j belongs to a free block. */
  ghost predicate FreeAt(s: Mem, j: nat)
    requires |s.ord| == |s.typ|
  {
    exists h: nat :: Covers(s, h, j) && s.typ[h] == Free
  }

  ghost predicate SameFree(s: Mem, d: Mem)
    requires |s.ord| == |s.typ| && |d.ord| == |d.typ|
  {
    |s.typ| == |d.typ| && forall j: nat :: j < |s.typ| ==> (FreeAt(d, j) <==> FreeAt(s, j))
  }

  lemma FreeByOwner(s: Mem, h: nat, j: nat)
    requires Sized(s) && Blocks(s) && Covers(s, h, j)
    ensures FreeAt(s, j) <==> s.typ[h] == Free
  {
    if FreeAt(s, j) {
      var f: nat :| Covers(s, f, j) && s.typ[f] == Free;
      OneCover(s, f, h, j);
    }
  }

  lemma SplitFree(s: Mem, p: nat)
    requires Sized(s) && Blocks(s) && Orders(s) && p < |s.typ| && s.typ[p] == Free && s.ord[p] > 0
    ensures p + Pow(s.ord[p] - 1) < |s.typ| && s.ord[p] <= |s.freeL|
    ensures SameFree(s, Split(s, p))
  {
    SplitGeometry(s, p);
    SplitBlocks(s, p);
    var d := Split(s, p);
    forall j: nat | j < |s.typ| ensures FreeAt(d, j) <==> FreeAt(s, j) {
      var h, k := SplitOwner(s, p, j);
      FreeByOwner(s, h, j);
      FreeByOwner(d, k, j);
    }
  }

  // ------------------------------------------------------------- allocation

  /** while (p->allocsize > n) mm_page_free_2ndhalf (p); */
  function SplitDown(s: Mem, held: set<nat>, p: nat, n: nat): Mem
    requires Inv(s, held) && p in held
    decreases s.ord[p]
  {
    if s.ord[p] > n then
      SplitSound(s, held, p);
      SplitDown(Split(s, p), held, p, n)
    else s
  }

  lemma {:induction false} SplitDownSound(s: Mem, held: set<nat>, p: nat, n: nat)
    requires Inv(s, held) && p in held && s.typ[p] == Free && n <= s.ord[p]
    ensures var d := SplitDown(s, held, p, n);
      && Inv(d, held) && |d.typ| == |s.typ| && |d.freeL| == |s.freeL|
      && d.typ[p] == Free && d.ord[p] == n && SameFree(s, d)
      && (forall i :: 0 <= i < |s.typ| && Head(s, i) && i != p ==> d.typ[i] == s.typ[i] && d.ord[i] == s.ord[i])
    decreases s.ord[p]
  {
    if s.ord[p] > n {
      SplitSound(s, held, p);
      SplitFree(s, p);
      SplitGeometry(s, p);
      SplitDownSound(Split(s, p), held, p, n);
    }
  }

  /** The first order from n on with a non-empty free list. */
  function FirstFree(freeL: seq<seq<nat>>, n: nat): (k: nat)
    ensures k <= |freeL| || k == n
    ensures k < |freeL| ==> freeL[k] != []
    ensures n <= k && forall i :: n <= i < k && i < |freeL| ==> freeL[i] == []
    decreases |freeL| - n
  {
    if n >= |freeL| || freeL[n] != [] then n else FirstFree(freeL, n + 1)
  }

  /** LIST1_POP of list k */
  function Pop(s: Mem, k: nat): Mem
    requires k < |s.freeL| && s.freeL[k] != []
  {
    s.(freeL := s.freeL[k := s.freeL[k][1..]])
  }

  lemma PopSound(s: Mem, held: set<nat>, k: nat)
    requires Inv(s, held) && k < |s.freeL| && s.freeL[k] != []
    ensures var p := s.freeL[k][0];
      && p < |s.typ| && Avail(s, held, p) && s.ord[p] == k && Inv(Pop(s, k), held + {p})
  {
    var p := s.freeL[k][0];
    assert p in s.freeL[k];
    TakeSound(s, held, k, p);
    DelHead(s.freeL[k]);
  }

  /** LIST1_DEL of a free block from its list: it is now held. */
  function Take(s: Mem, k: nat, p: nat): Mem
    requires k < |s.freeL|
  {
    s.(freeL := s.freeL[k := Del(s.freeL[k], p)])
  }

  lemma TakeSound(s: Mem, held: set<nat>, k: nat, p: nat)
    requires Inv(s, held) && k < |s.freeL| && p < |s.typ| && p in s.freeL[k]
    ensures Avail(s, held, p) && s.ord[p] == k && Inv(Take(s, k, p), held + {p})
  {
    var d := Take(s, k, p);
    DelNoDup(s.freeL[k], p);
    DelBelow(s.freeL[k], p, |s.typ|);
    DelSorted(s.freeL[k], p, k);
    forall i | 0 <= i < |d.typ| ensures Avail(d, held + {p}, i) <==> Avail(s, held, i) && i != p {
    }
    assert Avail(s, held, p);
    assert Listed(d, held + {p});
    ListsOnly(s, d);
    forall i | 0 <= i < |d.typ| ensures !Pair(d, held + {p}, i) {
      assert !Pair(s, held, i);
    }
  }

  lemma {:induction false} DelSorted(l: seq<nat>, x: nat, k: nat)
    requires EvensFirst(l, k)
    ensures EvensFirst(Del(l, x), k)
  {
    if l == [] || l[0] == x {
    } else {
      DelSorted(l[1..], x, k);
      var r := Del(l[1..], x);
      forall b | 0 < b <= |r| && Aligned(([l[0]] + r)[b], k + 1) ensures Aligned(l[0], k + 1) {
        assert r[b - 1] in r && r[b - 1] in l[1..];
        var c :| 0 <= c < |l[1..]| && l[1..][c] == r[b - 1];
        assert l[c + 1] == r[b - 1];
      }
    }
  }

  /** mm_page_alloc_sub */
  function AllocSub(s: Mem, n: nat): (Mem, Option<nat>)
    requires Inv(s, {})
  {
    var k := FirstFree(s.freeL, n);
    if k >= |s.freeL| then (s, None)
    else
      PopSound(s, {}, k);
      var p := s.freeL[k][0];
      assert {} + {p} == {p};
      (SplitDown(Pop(s, k), {p}, p, n), Some(p))
  }

  /** The block obtained is free, of the requested order, and off the lists; it fails only
      if every list from that order on is empty. */
  lemma AllocSubSound(s: Mem, n: nat)
    requires Inv(s, {})
    ensures var (d, p) := AllocSub(s, n);
      && |d.typ| == |s.typ| && |d.freeL| == |s.freeL| && |d.ord| == |d.typ|
      && (p.Some? ==> p.value < |s.typ| && Inv(d, {p.value}) && d.typ[p.value] == Free && d.ord[p.value] == n
                      && SameFree(s, d) && n < |s.freeL|)
      && (p.None? ==> d == s)
      && (p.None? <==> forall i :: 0 <= i < |s.typ| ==> !(s.typ[i] == Free && s.ord[i] >= n))
  {
    var k := FirstFree(s.freeL, n);
    if k < |s.freeL| {
      PopSound(s, {}, k);
      var p := s.freeL[k][0];
      var q := Pop(s, k);
      assert {} + {p} == {p};
      SameOwners(s, q);
      SplitDownSound(q, {p}, p, n);
      assert s.typ[p] == Free && s.ord[p] >= n;
    } else {
      forall i | 0 <= i < |s.typ| && s.typ[i] == Free ensures s.ord[i] < n {
        assert Head(s, i) && BlockAt(s, i);
        assert i in s.freeL[s.ord[i]];
      }
    }
  }

  /** Only the lists changed. */
  lemma SameOwners(s: Mem, d: Mem)
    requires |s.ord| == |s.typ| && d.typ == s.typ && d.ord == s.ord
    ensures SameFree(s, d)
  {
    forall j: nat | j < |s.typ| ensures FreeAt(d, j) <==> FreeAt(s, j) {
      if FreeAt(s, j) {
        var h: nat :| Covers(s, h, j) && s.typ[h] == Free;
        assert Covers(d, h, j);
      }
      if FreeAt(d, j) {
        var h: nat :| Covers(d, h, j) && d.typ[h] == Free;
        assert Covers(s, h, j);
      }
    }
  }

  /** p->type = t, for a block that is off the lists. */
  function Retype(s: Mem, p: nat, t: PType): Mem
    requires p < |s.typ|
  {
    s.(typ := s.typ[p := t])
  }

  lemma RetypeSound(s: Mem, held: set<nat>, p: nat, t: PType)
    requires Inv(s, held) && p in held && t != Free && t != NotHead
    ensures Inv(Retype(s, p, t), held - {p})
  {
    var d := Retype(s, p, t);
    RetypeBlocks(s, p, t);
    forall i | 0 <= i < |d.typ| ensures Avail(d, held - {p}, i) <==> Avail(s, held, i) {
    }
    assert Listed(d, held - {p});
    forall i | 0 <= i < |d.typ| ensures !Pair(d, held - {p}, i) {
      assert !Pair(s, held, i);
    }
  }

  lemma RetypeBlocks(s: Mem, p: nat, t: PType)
    requires Sized(s) && Blocks(s) && Orders(s) && p < |s.typ| && Head(s, p) && t != NotHead
    ensures Blocks(Retype(s, p, t)) && Orders(Retype(s, p, t))
  {
    var d := Retype(s, p, t);
    forall j | 0 <= j < |d.typ| ensures Owned(d, j) {
      assert Owned(s, j);
      var h: nat :| Covers(s, h, j);
      assert Covers(d, h, j);
    }
    forall i | 0 <= i < |d.typ| && Head(d, i) ensures BlockAt(d, i) {
      assert BlockAt(s, i);
    }
    forall j | 0 <= j < |d.typ| && !Head(d, j) ensures j > 0 && d.ord[j] == Tz(j) {
      assert !Head(s, j);
    }
  }

  /** Retyping a block changes the freeness of exactly its pages. */
  lemma RetypeFree(s: Mem, p: nat, t: PType)
    requires Sized(s) && Blocks(s) && Orders(s) && p < |s.typ| && Head(s, p) && t != NotHead
    ensures forall j: nat :: j < |s.typ| ==>
      (FreeAt(Retype(s, p, t), j) <==> if p <= j < p + Pow(s.ord[p]) then t == Free else FreeAt(s, j))
  {
    var d := Retype(s, p, t);
    RetypeBlocks(s, p, t);
    assert BlockAt(s, p);
    forall j: nat | j < |s.typ|
      ensures FreeAt(d, j) <==> if p <= j < p + Pow(s.ord[p]) then t == Free else FreeAt(s, j)
    {
      assert Owned(s, j);
      var h: nat :| Covers(s, h, j);
      assert Covers(d, h, j);
      FreeByOwner(s, h, j);
      FreeByOwner(d, h, j);
      if p <= j < p + Pow(s.ord[p]) {
        assert Covers(s, p, j);
        OneCover(s, h, p, j);
      }
    }
  }

  /** mm_page_alloc: None is the "Out of memory" panic. */
  function Alloc(s: Mem, n: nat): (Mem, Option<nat>)
    requires Inv(s, {})
  {
    var r := AllocSub(s, n);
    AllocSubSound(s, n);
    if r.1.None? then (s, None) else (Retype(r.0, r.1.value, Allocated), r.1)
  }

  /** The pages of the new block were free and no longer are; nothing else changed. */
  ghost predicate Took(s: Mem, d: Mem, p: nat, len: nat)
    requires |s.ord| == |s.typ| && |d.ord| == |d.typ|
  {
    && |d.typ| == |s.typ| && |d.freeL| == |s.freeL|
    && p + len <= |s.typ| && (forall j: nat :: p <= j < p + len ==> FreeAt(s, j))
    && (forall j: nat :: j < |s.typ| ==> (FreeAt(d, j) <==> FreeAt(s, j) && !(p <= j < p + len)))
  }

  lemma AllocSound(s: Mem, n: nat)
    requires Inv(s, {})
    ensures var (d, p) := Alloc(s, n);
      && Inv(d, {}) && |d.typ| == |s.typ|
      && (p.None? ==> d == s)
      && (p.Some? ==> p.value < |s.typ| && d.typ[p.value] == Allocated && d.ord[p.value] == n && n < |s.freeL|
                      && Aligned(p.value, n) && Took(s, d, p.value, Pow(n)))
  {
    var r := AllocSub(s, n);
    AllocSubSound(s, n);
    if r.1.Some? {
      var p := r.1.value;
      RetypeSound(r.0, {p}, p, Allocated);
      assert {p} - {p} == {};
      RetypeFree(r.0, p, Allocated);
      assert Head(r.0, p) && BlockAt(r.0, p);
      forall j: nat | p <= j < p + Pow(n) ensures FreeAt(s, j) {
        assert Covers(r.0, p, j);
        FreeByOwner(r.0, p, j);
      }
    }
  }

  // ------------------------------------------------------------- canonical form

  /** All 2^k pages from i on are free. */
  ghost predicate RunFree(s: Mem, i: int, k: nat)
    requires |s.ord| == |s.typ|
  {
    0 <= i && i + Pow(k) <= |s.typ| && forall j: nat :: i <= j < i + Pow(k) ==> FreeAt(s, j)
  }

  lemma BlockContains(h: nat, a: nat, i: nat, k: nat, j: nat)
    requires k <= a && Aligned(h, a) && Aligned(i, k) && h <= j < h + Pow(a) && i <= j < i + Pow(k)
    ensures h <= i && i + Pow(k) <= h + Pow(a)
  {
    Nested(i, k, h, a);
  }

  /** An aligned run of free pages lies inside one free block. */
  lemma {:induction false} RunInBlock(s: Mem, i: nat, k: nat) returns (h: nat)
    requires Inv(s, {}) && Aligned(i, k) && k < |s.freeL| && RunFree(s, i, k)
    ensures h < |s.typ| && s.typ[h] == Free && k <= s.ord[h] && h <= i && i + Pow(k) <= h + Pow(s.ord[h])
    decreases k
  {
    if k == 0 {
      assert FreeAt(s, i);
      h :| Covers(s, h, i) && s.typ[h] == Free;
    } else {
      var w := Pow(k - 1);
      AlignedDown(i, k - 1);
      var a := RunInBlock(s, i, k - 1);
      var b := RunInBlock(s, i + w, k - 1);
      h := JoinRuns(s, i, k, w, a, b);
    }
  }

  /** Two runs side by side: were each a whole block, they would be buddies. */
  lemma JoinRuns(s: Mem, i: nat, k: nat, w: nat, a: nat, b: nat) returns (h: nat)
    requires Sized(s) && Blocks(s) && NoPairs(s, {}) && 0 < k < |s.freeL| && Aligned(i, k) && Aligned(i, k - 1) && w == Pow(k - 1)
    requires a < |s.typ| && s.typ[a] == Free && k - 1 <= s.ord[a] && a <= i && i + w <= a + Pow(s.ord[a])
    requires b < |s.typ| && s.typ[b] == Free && k - 1 <= s.ord[b] && b <= i + w && i + w + w <= b + Pow(s.ord[b])
    ensures h < |s.typ| && s.typ[h] == Free && k <= s.ord[h] && h <= i && i + Pow(k) <= h + Pow(s.ord[h])
  {
    assert Head(s, a) && Head(s, b) && BlockAt(s, a) && BlockAt(s, b);
    if s.ord[a] >= k {
      h := a;
      BlockContains(a, s.ord[a], i, k, i);
    } else if s.ord[b] >= k {
      h := b;
      BlockContains(b, s.ord[b], i, k, i + w);
    } else {
      assert a == i && b == i + w;
      assert Pair(s, {}, i);
      assert false;
    }
  }

  lemma BlockIsRun(s: Mem, h: nat)
    requires Sized(s) && Blocks(s) && h < |s.typ| && s.typ[h] == Free
    ensures RunFree(s, h, s.ord[h])
  {
    assert BlockAt(s, h);
    forall j: nat | h <= j < h + Pow(s.ord[h]) ensures FreeAt(s, j) {
      assert Covers(s, h, j);
    }
  }

  /** mm_page_alloc runs out of memory only when no aligned run of 2^n free pages exists. */
  lemma AllocComplete(s: Mem, n: nat)
    requires Inv(s, {}) && n < |s.freeL|
    ensures Alloc(s, n).1.None? <==> forall i: nat :: Aligned(i, n) ==> !RunFree(s, i, n)
  {
    AllocSubSound(s, n);
    AllocSound(s, n);
    if Alloc(s, n).1.None? {
      forall i: nat | Aligned(i, n) && RunFree(s, i, n) ensures false {
        var h := RunInBlock(s, i, n);
      }
    } else {
      var p := Alloc(s, n).1.value;
      assert RunFree(s, p, n);
    }
  }

  function Parent(i: nat, k: nat): int {
    if Aligned(i, k + 1) then i else i - Pow(k)
  }

  /** The free blocks are a function of the free pages alone: the maximal aligned runs. */
  lemma FreeBlockIff(s: Mem, i: nat, k: nat)
    requires Inv(s, {}) && i < |s.typ| && k < |s.freeL|
    ensures s.typ[i] == Free && s.ord[i] == k <==>
      Aligned(i, k) && RunFree(s, i, k) && (k + 1 == |s.freeL| || !RunFree(s, Parent(i, k), k + 1))
  {
    if s.typ[i] == Free && s.ord[i] == k {
      BlockIsRun(s, i);
      assert BlockAt(s, i);
      if k + 1 < |s.freeL| && RunFree(s, Parent(i, k), k + 1) {
        if !Aligned(i, k + 1) { SecondHalf(i, k); }
        var h := RunInBlock(s, Parent(i, k), k + 1);
        assert Covers(s, h, i) && Covers(s, i, i);
        OneCover(s, h, i, i);
      }
    }
    if Aligned(i, k) && RunFree(s, i, k) && (k + 1 == |s.freeL| || !RunFree(s, Parent(i, k), k + 1)) {
      var h := RunInBlock(s, i, k);
      assert BlockAt(s, h);
      if s.ord[h] > k {
        if !Aligned(i, k + 1) { SecondHalf(i, k); }
        BlockContains(h, s.ord[h], Parent(i, k), k + 1, i);
        BlockIsRun(s, h);
        assert RunFree(s, Parent(i, k), k + 1);
      }
      assert s.ord[h] == k;
    }
  }

  ghost predicate SameFreeBlocks(s: Mem, d: Mem)
    requires |s.ord| == |s.typ| == |d.typ| == |d.ord|
  {
    forall i :: 0 <= i < |s.typ| ==>
      (s.typ[i] == Free <==> d.typ[i] == Free) && (s.typ[i] == Free ==> s.ord[i] == d.ord[i])
  }

  lemma RunSame(s: Mem, d: Mem, i: int, k: nat)
    requires |s.ord| == |s.typ| && |d.ord| == |d.typ| && SameFree(s, d)
    ensures RunFree(s, i, k) <==> RunFree(d, i, k)
  {
  }

  /** Canonicity: equal free pages, equal free blocks. */
  lemma Canonical(s: Mem, d: Mem)
    requires Inv(s, {}) && Inv(d, {}) && SameFree(s, d) && |s.freeL| == |d.freeL|
    ensures SameFreeBlocks(s, d)
  {
    forall i | 0 <= i < |s.typ|
      ensures (s.typ[i] == Free <==> d.typ[i] == Free) && (s.typ[i] == Free ==> s.ord[i] == d.ord[i])
    {
      if s.typ[i] == Free { CanonicalAt(s, d, i, s.ord[i]); }
      if d.typ[i] == Free { CanonicalAt(s, d, i, d.ord[i]); }
    }
  }

  lemma CanonicalAt(s: Mem, d: Mem, i: nat, k: nat)
    requires Inv(s, {}) && Inv(d, {}) && SameFree(s, d) && |s.freeL| == |d.freeL| && i < |s.typ|
    requires (s.typ[i] == Free && s.ord[i] == k) || (d.typ[i] == Free && d.ord[i] == k)
    ensures s.typ[i] == d.typ[i] == Free && s.ord[i] == d.ord[i] == k
  {
    if s.typ[i] == Free { assert BlockAt(s, i); }
    if d.typ[i] == Free { assert BlockAt(d, i); }
    FreeBlockIff(s, i, k);
    FreeBlockIff(d, i, k);
    RunSame(s, d, i, k);
    RunSame(s, d, Parent(i, k), k + 1);
  }

  // ------------------------------------------------------------- free

  /** Second halves at the tail, first halves at the head. */
  function Insert(l: seq<nat>, p: nat, k: nat): seq<nat> {
    if Aligned(p, k + 1) then [p] + l else l + [p]
  }

  function PutFree(s: Mem, p: nat): Mem
    requires p < |s.ord| == |s.typ| && s.ord[p] < |s.freeL|
  {
    var k := s.ord[p];
    s.(typ := s.typ[p := Free], freeL := s.freeL[k := Insert(s.freeL[k], p, k)])
  }

  /** No two buddies are free, except that p may have a free buddy. */
  ghost predicate NoPairsBut(s: Mem, p: nat)
    requires |s.ord| == |s.typ|
  {
    forall i :: 0 <= i < |s.typ| && i != p && BuddyOf(i, s.ord[i]) != p ==> !Pair(s, {}, i)
  }

  lemma PutFreeSound(s: Mem, p: nat)
    requires Inv(s, {}) && p < |s.typ| && Head(s, p) && s.typ[p] != Free
    ensures s.ord[p] < |s.freeL|
    ensures Base(PutFree(s, p), {}) && NoPairsBut(PutFree(s, p), p)
    ensures forall j: nat :: j < |s.typ| ==>
      (FreeAt(PutFree(s, p), j) <==> FreeAt(s, j) || p <= j < p + Pow(s.ord[p]))
  {
    assert BlockAt(s, p);
    var k := s.ord[p];
    var r := Retype(s, p, Free);
    RetypeBlocks(s, p, Free);
    RetypeFree(s, p, Free);
    var d := PutFree(s, p);
    SameOwners(r, d);
    ListsOnly(r, d);
    AddNoDup(s.freeL[k], p);
    forall i | 0 <= i < |d.typ| ensures Avail(d, {}, i) <==> Avail(s, {}, i) || i == p {
    }
    assert Listed(d, {});
    forall i | 0 <= i < |d.typ| && i != p && BuddyOf(i, d.ord[i]) != p ensures !Pair(d, {}, i) {
      assert !Pair(s, {}, i);
    }
  }

  /** Blocks and Orders do not look at the lists. */
  lemma ListsOnly(s: Mem, d: Mem)
    requires Sized(s) && Blocks(s) && Orders(s) && d.typ == s.typ && d.ord == s.ord && |d.freeL| == |s.freeL|
    ensures Blocks(d) && Orders(d)
  {
    forall j | 0 <= j < |d.typ| ensures Owned(d, j) {
      assert Owned(s, j);
      var h: nat :| Covers(s, h, j);
      assert Covers(d, h, j);
    }
    forall i | 0 <= i < |d.typ| && Head(d, i) ensures BlockAt(d, i) {
      assert Head(s, i) && BlockAt(s, i);
    }
    forall j | 0 <= j < |d.typ| && !Head(d, j) ensures j > 0 && d.ord[j] == Tz(j) {
      assert !Head(s, j);
    }
  }

  predicate CanMerge(s: Mem, p: nat)
    requires p < |s.ord| == |s.typ|
  {
    var b := BuddyOf(p, s.ord[p]);
    s.ord[p] + 1 < |s.freeL| && 0 <= b < |s.typ| && s.typ[b] == Free && s.ord[b] == s.ord[p]
  }

  /** Two free halves of an aligned block of order n + 1. */
  ghost predicate Halves(s: Mem, lo: nat, n: nat) {
    && Base(s, {}) && n + 1 < |s.freeL| && Aligned(lo, n + 1) && lo + Pow(n + 1) <= |s.typ|
    && s.typ[lo] == Free && s.ord[lo] == n && s.typ[lo + Pow(n)] == Free && s.ord[lo + Pow(n)] == n
  }

  function Del2(l: seq<nat>, a: nat, b: nat): seq<nat> {
    Del<nat>(Del<nat>(l, a), b)
  }

  lemma Del2Sound(l: seq<nat>, a: nat, b: nat, n: nat, k: nat)
    requires NoDup(l) && Below(l, n) && EvensFirst(l, k)
    ensures var d := Del2(l, a, b); NoDup(d) && Below(d, n) && EvensFirst(d, k)
    ensures forall i: nat :: i in Del2(l, a, b) <==> i in l && i != a && i != b
  {
    var m: seq<nat> := Del<nat>(l, a);
    DelNoDup<nat>(l, a); DelBelow(l, a, n); DelSorted(l, a, k);
    DelNoDup<nat>(m, b); DelBelow(m, b, n); DelSorted(m, b, k);
  }

  /** One round of the merge loop: the halves become one block of the next order. */
  function Merge(s: Mem, lo: nat, n: nat): Mem
    requires lo + Pow(n) < |s.ord| == |s.typ| && n + 1 < |s.freeL|
  {
    var up: nat := lo + Pow(n);
    s.(typ := s.typ[up := NotHead], ord := s.ord[lo := n + 1],
       freeL := s.freeL[n := Del2(s.freeL[n], lo, up)][n + 1 := Insert(s.freeL[n + 1], lo, n + 1)])
  }

  function LowHalf(p: nat, n: nat): int {
    if Aligned(p, n + 1) then p else p - Pow(n)
  }

  lemma MergeHalves(s: Mem, p: nat)
    requires Base(s, {}) && p < |s.typ| && s.typ[p] == Free && CanMerge(s, p)
    ensures var lo := LowHalf(p, s.ord[p]);
      && lo >= 0 && Halves(s, lo, s.ord[p])
      && ((lo == p && BuddyOf(p, s.ord[p]) == lo + Pow(s.ord[p]))
          || (lo == BuddyOf(p, s.ord[p]) && p == lo + Pow(s.ord[p])))
  {
    var n := s.ord[p];
    assert Head(s, p) && BlockAt(s, p);
    BuddyTwice(p, n);
    var b: nat := BuddyOf(p, n);
    assert Head(s, b) && BlockAt(s, b);
    if !Aligned(p, n + 1) { SecondHalf(p, n); }
  }

  lemma MergeBlocks(s: Mem, lo: nat, n: nat)
    requires Halves(s, lo, n)
    ensures Blocks(Merge(s, lo, n)) && Orders(Merge(s, lo, n))
  {
    var d := Merge(s, lo, n);
    var up := lo + Pow(n);
    TzUpper(lo, n);
    assert BlockAt(s, lo) && BlockAt(s, up);
    forall i | 0 <= i < |d.typ| && Head(d, i) ensures BlockAt(d, i) {
      if i != lo { assert Head(s, i) && BlockAt(s, i); }
    }
    forall j | 0 <= j < |d.typ| && !Head(d, j) ensures j > 0 && d.ord[j] == Tz(j) {
      if j != up { assert !Head(s, j); }
    }
    forall j | 0 <= j < |d.typ| ensures Owned(d, j) {
      var _, _ := MergeOwner(s, lo, n, j);
    }
  }

  lemma MergeFree(s: Mem, lo: nat, n: nat)
    requires Halves(s, lo, n)
    ensures SameFree(s, Merge(s, lo, n))
  {
    var d := Merge(s, lo, n);
    MergeBlocks(s, lo, n);
    forall j: nat | j < |s.typ| ensures FreeAt(d, j) <==> FreeAt(s, j) {
      var h, k := MergeOwner(s, lo, n, j);
      FreeByOwner(s, h, j);
      FreeByOwner(d, k, j);
    }
  }

  lemma MergeOwner(s: Mem, lo: nat, n: nat, j: nat) returns (h: nat, k: nat)
    requires Halves(s, lo, n) && j < |s.typ|
    ensures Covers(s, h, j) && Covers(Merge(s, lo, n), k, j)
    ensures k == if h == lo + Pow(n) then lo else h
  {
    assert Owned(s, j);
    h :| Covers(s, h, j);
    k := if h == lo + Pow(n) then lo else h;
  }

  lemma MergeLists(s: Mem, lo: nat, n: nat)
    requires Halves(s, lo, n)
    ensures var d := Merge(s, lo, n); Listed(d, {}) && Sorted(d)
  {
    var d := Merge(s, lo, n);
    var up: nat := lo + Pow(n);
    Del2Sound(s.freeL[n], lo, up, |s.typ|, n);
    AddNoDup(s.freeL[n + 1], lo);
    InsertSorted(s.freeL[n + 1], lo, n + 1);
    assert d.freeL[n] == Del2(s.freeL[n], lo, up);
    assert d.freeL[n + 1] == Insert(s.freeL[n + 1], lo, n + 1);
    forall k | 0 <= k < |d.freeL|
      ensures NoDup(d.freeL[k]) && Below(d.freeL[k], |d.typ|) && EvensFirst(d.freeL[k], k)
    {
      if k != n && k != n + 1 { assert d.freeL[k] == s.freeL[k]; }
    }
    forall k, i | 0 <= k < |d.freeL| && 0 <= i < |d.typ|
      ensures i in d.freeL[k] <==> Avail(d, {}, i) && d.ord[i] == k
    {
      MergeMember(s, lo, n, k, i);
    }
  }

  lemma MergeMember(s: Mem, lo: nat, n: nat, k: nat, i: nat)
    requires Halves(s, lo, n) && k < |s.freeL| && i < |s.typ|
    ensures var d := Merge(s, lo, n); i in d.freeL[k] <==> Avail(d, {}, i) && d.ord[i] == k
  {
    var d := Merge(s, lo, n);
    var up: nat := lo + Pow(n);
    assert i in s.freeL[k] <==> Avail(s, {}, i) && s.ord[i] == k;
    if k == n {
      Del2Sound(s.freeL[n], lo, up, |s.typ|, n);
      assert d.freeL[n] == Del2(s.freeL[n], lo, up);
    } else if k == n + 1 {
      InsertSorted(s.freeL[n + 1], lo, n + 1);
      assert d.freeL[k] == Insert(s.freeL[k], lo, k);
    } else {
      assert d.freeL[k] == s.freeL[k];
    }
  }

  lemma InsertSorted(l: seq<nat>, p: nat, k: nat)
    requires EvensFirst(l, k)
    ensures EvensFirst(Insert(l, p, k), k)
    ensures forall i :: i in Insert(l, p, k) <==> i in l || i == p
  {
  }

  /** Blocks that are in use are not touched. */
  ghost predicate OthersKept(s: Mem, d: Mem)
    requires |s.ord| == |s.typ| && |d.ord| == |d.typ|
  {
    |d.typ| == |s.typ| &&
    forall i :: 0 <= i < |s.typ| && Head(s, i) && s.typ[i] != Free ==> d.typ[i] == s.typ[i] && d.ord[i] == s.ord[i]
  }

  lemma MergeSound(s: Mem, p: nat)
    requires Base(s, {}) && NoPairsBut(s, p) && p < |s.typ| && s.typ[p] == Free && CanMerge(s, p)
    ensures LowHalf(p, s.ord[p]) >= 0 && Halves(s, LowHalf(p, s.ord[p]), s.ord[p])
    ensures var lo: nat := LowHalf(p, s.ord[p]); var d := Merge(s, lo, s.ord[p]);
      && Base(d, {}) && NoPairsBut(d, lo) && SameFree(s, d) && |d.freeL| == |s.freeL|
      && lo < |d.typ| && d.typ[lo] == Free && d.ord[lo] == s.ord[p] + 1 && OthersKept(s, d)
  {
    MergeHalves(s, p);
    var n := s.ord[p];
    var lo: nat := LowHalf(p, n);
    MergeBlocks(s, lo, n);
    MergeFree(s, lo, n);
    MergeLists(s, lo, n);
    var d := Merge(s, lo, n);
    forall i | 0 <= i < |d.typ| && i != lo && BuddyOf(i, d.ord[i]) != lo ensures !Pair(d, {}, i) {
      if i != p && BuddyOf(i, s.ord[i]) != p { assert !Pair(s, {}, i); }
    }
  }

  /** The merge loop of mm_page_free_sub. */
  function FreeLoop(s: Mem, p: nat): (d: Mem)
    requires p < |s.ord| == |s.typ|
    ensures SameShape(s, d)
    decreases |s.freeL| - s.ord[p]
  {
    if CanMerge(s, p) then FreeLoop(Merge(s, LowHalf(p, s.ord[p]), s.ord[p]), LowHalf(p, s.ord[p])) else s
  }

  predicate SameShape(s: Mem, d: Mem) {
    |d.ord| == |d.typ| == |s.typ| && |d.freeL| == |s.freeL|
  }

  lemma {:induction false} FreeLoopSound(s: Mem, p: nat)
    requires Base(s, {}) && NoPairsBut(s, p) && p < |s.typ| && s.typ[p] == Free
    ensures var d := FreeLoop(s, p); Inv(d, {}) && SameFree(s, d) && |d.freeL| == |s.freeL| && OthersKept(s, d)
    decreases |s.freeL| - s.ord[p]
  {
    if CanMerge(s, p) {
      MergeSound(s, p);
      FreeLoopSound(Merge(s, LowHalf(p, s.ord[p]), s.ord[p]), LowHalf(p, s.ord[p]));
    } else {
      forall i | 0 <= i < |s.typ| ensures !Pair(s, {}, i) {
        if s.typ[i] == Free {
          assert BlockAt(s, i);
          BuddyTwice(i, s.ord[i]);
        }
      }
    }
  }

  /** BadOrder is the assertion in mm_page_get_allocsize; the other errors are those returned. */
  datatype FreeErr = NoErr | BadOrder | BadAddress | DoubleFree | NotHeadFree | BadType

  /** mm_page_free_sub */
  function FreeSub(s: Mem, p: nat): (r: (Mem, FreeErr))
    requires p < |s.ord| == |s.typ|
    ensures SameShape(s, r.0)
    decreases |s.typ| - p, 1
  {
    if s.typ[p] == Cont && s.ord[p] < |s.freeL| then
      if !Aligned(p, s.ord[p] + 1) then (s, BadAddress)
      else FreeOne(FreeSecond(s, p), p)
    else FreeOne(s, p)
  }

  /** The ALLOCATED_CONT case: the second part is freed first, and what that returns ignored. */
  function FreeSecond(s: Mem, p: nat): (d: Mem)
    requires p < |s.ord| == |s.typ|
    ensures SameShape(s, d)
    decreases |s.typ| - p, 0
  {
    var a := Retype(s, p, Allocated);
    if p + Pow(s.ord[p]) < |s.typ| then FreeSub(a, p + Pow(s.ord[p])).0 else a
  }

  /** mm_page_free_sub after the ALLOCATED_CONT case. */
  function FreeOne(s: Mem, p: nat): (r: (Mem, FreeErr))
    requires p < |s.ord| == |s.typ|
    ensures SameShape(s, r.0)
  {
    if s.ord[p] >= |s.freeL| then (s, BadOrder)
    else
      match s.typ[p]
      case Free => (s, DoubleFree)
      case NotHead => (s, NotHeadFree)
      case Allocated => (Release(s, p), NoErr)
      case Reserved => (Release(s, p), NoErr)
      case _ => (s, BadType)
  }

  function Release(s: Mem, p: nat): (d: Mem)
    requires p < |s.ord| == |s.typ| && s.ord[p] < |s.freeL|
    ensures SameShape(s, d)
  {
    FreeLoop(PutFree(s, p), p)
  }

  lemma {:induction false} FreeSubCont(s: Mem, p: nat, a: Mem, q: nat)
    requires p < |s.ord| == |s.typ| && s.typ[p] == Cont && s.ord[p] < |s.freeL| && Aligned(p, s.ord[p] + 1)
    requires a == Retype(s, p, Allocated) && q == p + Pow(s.ord[p]) && q < |s.typ|
    ensures FreeSub(s, p) == FreeOne(FreeSub(a, q).0, p)
  {
    assert FreeSecond(s, p) == FreeSub(a, q).0;
  }

  /** Freeing any page number whatsoever keeps the invariant. */
  lemma {:induction false} FreeSubInv(s: Mem, p: nat)
    requires Inv(s, {}) && p < |s.typ|
    ensures Inv(FreeSub(s, p).0, {})
    decreases |s.typ| - p
  {
    if s.typ[p] == Cont && s.ord[p] < |s.freeL| && Aligned(p, s.ord[p] + 1) {
      ContSound(s, p);
      FreeSubInv(Retype(s, p, Allocated), p + Pow(s.ord[p]));
      FreeOneInv(FreeSecond(s, p), p);
    } else {
      FreeOneInv(s, p);
    }
  }

  lemma FreeOneInv(s: Mem, p: nat)
    requires Inv(s, {}) && p < |s.typ|
    ensures Inv(FreeOne(s, p).0, {})
  {
    if s.typ[p] == Allocated || s.typ[p] == Reserved { ReleaseSound(s, p); }
  }

  /** Exactly these pages became free. */
  ghost predicate Gave(s: Mem, d: Mem, p: nat, len: nat)
    requires |s.ord| == |s.typ| && |d.ord| == |d.typ|
  {
    && |d.typ| == |s.typ| && |d.freeL| == |s.freeL|
    && (forall j: nat :: j < |s.typ| ==> (FreeAt(d, j) <==> FreeAt(s, j) || p <= j < p + len))
  }

  lemma ReleaseSound(s: Mem, p: nat)
    requires Inv(s, {}) && p < |s.typ| && Head(s, p) && s.typ[p] != Free
    ensures s.ord[p] < |s.freeL|
    ensures var d := Release(s, p);
      && Inv(d, {}) && Gave(s, d, p, Pow(s.ord[p]))
      && (forall i :: 0 <= i < |s.typ| && Head(s, i) && s.typ[i] != Free && i != p ==>
            d.typ[i] == s.typ[i] && d.ord[i] == s.ord[i])
  {
    assert BlockAt(s, p);
    PutFreeSound(s, p);
    FreeLoopSound(PutFree(s, p), p);
  }

  /** The second part of a contiguous block is in range. */
  lemma ContSound(s: Mem, p: nat)
    requires Inv(s, {}) && p < |s.typ| && s.typ[p] == Cont && Aligned(p, s.ord[p] + 1)
    ensures p + Pow(s.ord[p]) < |s.typ| && Inv(Retype(s, p, Allocated), {})
  {
    assert Head(s, p) && BlockAt(s, p);
    AlignedLess(|s.typ|, s.ord[p] + 1, |s.freeL|);
    Nested(p, s.ord[p] + 1, |s.typ|, s.ord[p] + 1);
    RetypeAny(s, p, Allocated);
  }

  lemma RetypeAny(s: Mem, p: nat, t: PType)
    requires Inv(s, {}) && p < |s.typ| && Head(s, p) && s.typ[p] != Free && t != Free && t != NotHead
    ensures Inv(Retype(s, p, t), {})
    ensures SameFree(s, Retype(s, p, t))
  {
    var d := Retype(s, p, t);
    RetypeBlocks(s, p, t);
    RetypeFree(s, p, t);
    forall i | 0 <= i < |d.typ| ensures Avail(d, {}, i) <==> Avail(s, {}, i) {
    }
    forall i | 0 <= i < |d.typ| ensures !Pair(d, {}, i) {
      assert !Pair(s, {}, i);
    }
    forall j: nat | j < |s.typ| ensures FreeAt(d, j) <==> FreeAt(s, j) {
      if p <= j < p + Pow(s.ord[p]) {
        assert BlockAt(s, p) && Covers(s, p, j);
        FreeByOwner(s, p, j);
      }
    }
  }

  /** Freeing an allocated or reserved block gives back exactly its pages, and anything that is
      neither that nor a contiguous pair is refused without effect. */
  lemma FreeSubEffect(s: Mem, p: nat)
    requires Inv(s, {}) && p < |s.typ| && s.typ[p] != Cont
    ensures var (d, e) := FreeSub(s, p);
      && (e == NoErr <==> s.typ[p] == Allocated || s.typ[p] == Reserved)
      && (if e == NoErr then Gave(s, d, p, Pow(s.ord[p])) else d == s)
  {
    if s.typ[p] == Allocated || s.typ[p] == Reserved { ReleaseSound(s, p); }
  }

  /** Allocating a block and freeing it restores the same free blocks. */
  lemma AllocFree(s: Mem, n: nat)
    requires Inv(s, {}) && Alloc(s, n).1.Some?
    ensures var (d, p) := Alloc(s, n);
      && Inv(d, {}) && p.value < |d.typ|
      && var (f, e) := FreeSub(d, p.value);
      && e == NoErr && Inv(f, {}) && |f.typ| == |s.typ| && SameFreeBlocks(s, f)
  {
    AllocSound(s, n);
    var (d, p) := Alloc(s, n);
    FreeSubEffect(d, p.value);
    FreeSubInv(d, p.value);
    var f := FreeSub(d, p.value).0;
    forall j: nat | j < |s.typ| ensures FreeAt(f, j) <==> FreeAt(s, j) {
    }
    Canonical(s, f);
  }
}
