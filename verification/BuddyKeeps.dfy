/** What the page allocator leaves alone: every block that is in use and is not the one
    asked for keeps its type and its order (mm.c, mm_page_*). */
module BuddyKeeps {
  import opened Lists
  import opened Pow2
  import opened Buddy
  import opened BuddyCont

  /** Page p heads a block that is in use. */
  predicate InUse(s: Mem, p: nat) {
    p < |s.typ| && s.typ[p] != Free && s.typ[p] != NotHead
  }

  /** Blocks in use are the same before and after, but for p and q (-1 for none). */
  ghost predicate SameBut(s: Mem, d: Mem, p: int, q: int) {
    && |d.typ| == |s.typ| && |s.ord| == |s.typ| && |d.ord| == |d.typ|
    && (forall i :: 0 <= i < |s.typ| && i != p && i != q && InUse(s, i) ==>
          InUse(d, i) && d.typ[i] == s.typ[i] && d.ord[i] == s.ord[i])
    && (forall i :: 0 <= i < |s.typ| && i != p && i != q && InUse(d, i) ==> InUse(s, i))
  }

  lemma SplitSame(s: Mem, held: set<nat>, p: nat)
    requires Inv(s, held) && p in held && s.typ[p] == Free && s.ord[p] > 0
    ensures p + Pow(s.ord[p] - 1) < |s.typ| && s.ord[p] <= |s.freeL|
    ensures SameBut(s, Split(s, p), -1, -1)
  {
    SplitSound(s, held, p);
    SplitGeometry(s, p);
    assert BlockAt(s, p);
  }

  lemma {:induction false} SplitDownSame(s: Mem, held: set<nat>, p: nat, n: nat)
    requires Inv(s, held) && p in held && s.typ[p] == Free && n <= s.ord[p]
    ensures SameBut(s, SplitDown(s, held, p, n), -1, -1)
    decreases s.ord[p]
  {
    if s.ord[p] > n {
      SplitSame(s, held, p);
      SplitSound(s, held, p);
      SplitGeometry(s, p);
      SplitDownSame(Split(s, p), held, p, n);
    }
  }

  lemma AllocSubSame(s: Mem, n: nat)
    requires Inv(s, {})
    ensures SameBut(s, AllocSub(s, n).0, -1, -1)
    ensures AllocSub(s, n).1.Some? ==> AllocSub(s, n).1.value < |s.typ| && !InUse(s, AllocSub(s, n).1.value)
  {
    var k := FirstFree(s.freeL, n);
    if k < |s.freeL| {
      PopSound(s, {}, k);
      var p := s.freeL[k][0];
      assert {} + {p} == {p};
      SplitDownSame(Pop(s, k), {p}, p, n);
    }
  }

  /** mm_page_alloc puts exactly one new block in use. */
  lemma AllocSame(s: Mem, n: nat)
    requires Inv(s, {})
    ensures var (d, p) := Alloc(s, n);
      && (p.None? ==> d == s)
      && (p.Some? ==> p.value < |s.typ| && !InUse(s, p.value) && InUse(d, p.value) && SameBut(s, d, p.value, p.value))
  {
    AllocSubSame(s, n);
    AllocSubSound(s, n);
    AllocSound(s, n);
  }

  /** mm_page_free_sub of an allocated block takes exactly that block out of use. */
  lemma ReleaseSame(s: Mem, p: nat)
    requires Inv(s, {}) && p < |s.typ| && InUse(s, p)
    ensures s.ord[p] < |s.freeL| && SameBut(s, Release(s, p), p, p) && !InUse(Release(s, p), p)
  {
    ReleaseSound(s, p);
    PutFreeSound(s, p);
    FreeLoopSame(PutFree(s, p), p);
  }

  lemma {:induction false} FreeLoopSame(s: Mem, p: nat)
    requires Base(s, {}) && NoPairsBut(s, p) && p < |s.typ| && s.typ[p] == Free
    ensures SameBut(s, FreeLoop(s, p), -1, -1) && !InUse(FreeLoop(s, p), p)
    decreases |s.freeL| - s.ord[p]
  {
    if CanMerge(s, p) {
      MergeSound(s, p);
      var lo: nat := LowHalf(p, s.ord[p]);
      MergeSame(s, lo, s.ord[p]);
      FreeLoopSame(Merge(s, lo, s.ord[p]), lo);
    }
  }

  lemma MergeSame(s: Mem, lo: nat, n: nat)
    requires |s.ord| == |s.typ| && Halves(s, lo, n) && n + 1 < |s.freeL|
    ensures SameBut(s, Merge(s, lo, n), -1, -1)
  {
  }

  // ------------------------------------------------------------- two-part blocks

  lemma ListsOnlySame(s: Mem, d: Mem)
    requires |s.ord| == |s.typ| && d.typ == s.typ && d.ord == s.ord
    ensures SameBut(s, d, -1, -1)
  {
  }

  lemma SameTrans(a: Mem, b: Mem, c: Mem, p: int, q: int)
    requires SameBut(a, b, p, q) && SameBut(b, c, p, q)
    ensures SameBut(a, c, p, q)
  {
  }

  lemma NoneThenNone(a: Mem, b: Mem, c: Mem)
    requires SameBut(a, b, -1, -1) && SameBut(b, c, -1, -1)
    ensures SameBut(a, c, -1, -1)
  {
    SameTrans(a, b, c, -1, -1);
  }

  lemma NotBefore(s: Mem, g: Mem, p: nat)
    requires SameBut(s, g, -1, -1) && !InUse(g, p)
    ensures !InUse(s, p)
  {
  }

  lemma HalveSame(s: Mem, r: Mem, p: nat, n: nat, m: nat)
    requires |s.ord| == |s.typ| && Inv(r, {p}) && r.typ[p] == Free && r.ord[p] == n + 1 && m <= n
    requires SameFree(s, r) && |r.freeL| == |s.freeL| && SameBut(s, r, -1, -1)
    ensures SameBut(s, Halve(s, r, p, n, m), -1, -1)
  {
    SplitSame(r, {p}, p);
    HalveSound(s, r, p, n, m);
    ListsOnlySame(Split(r, p), Halve(s, r, p, n, m));
    NoneThenNone(s, r, Split(r, p));
    NoneThenNone(s, Split(r, p), Halve(s, r, p, n, m));
  }

  lemma HalveLargerSame(s: Mem, n: nat, m: nat)
    requires Inv(s, {}) && n < |s.freeL| && m <= n
    ensures SameBut(s, HalveLarger(s, n, m).0, -1, -1)
  {
    AllocSubSame(s, n + 1);
    AllocSubSound(s, n + 1);
    var (r, p) := AllocSub(s, n + 1);
    if p.Some? { HalveSame(s, r, p.value, n, m); }
  }

  /** Gathering two adjacent free blocks disturbs no block in use. */
  lemma GatherSame(s: Mem, n: nat, m: nat)
    requires Inv(s, {}) && n < |s.freeL| && m <= n
    ensures SameBut(s, Gather(s, n, m).0, -1, -1)
  {
    var f := FindPair(s, s.freeL[n], n, m);
    if f.Some? {
      GatherFound(s, f.value, n, m);
      ListsOnlySame(s, TakePair(s, f.value, n));
    } else {
      HalveLargerSame(s, n, m);
    }
  }

  lemma RetypeSame(s: Mem, p: nat, t: PType)
    requires |s.ord| == |s.typ| && p < |s.typ|
    ensures SameBut(s, Retype(s, p, t), p, p)
  {
  }

  lemma ClaimSame(s: Mem, p: nat, n: nat, m: nat, q: nat)
    requires q == p + Pow(n) && TwoHeld(s, p, n) && m <= s.ord[q]
    ensures SameBut(s, Claim(s, p, n, m), p, q)
  {
    SecondReady(s, p, q);
    SecondSame(s, Retype(s, p, Cont), p, q, m);
  }

  lemma SecondReady(s: Mem, p: nat, q: nat)
    requires Inv(s, {p, q}) && p < q && s.typ[q] == Free
    ensures var a := Retype(s, p, Cont); Inv(a, {q}) && q < |a.typ| && a.typ[q] == Free && a.ord[q] == s.ord[q]
  {
    RetypeSound(s, {p, q}, p, Cont);
    SecondLeft(p, q);
  }

  lemma SecondSame(s: Mem, a: Mem, p: nat, q: nat, m: nat)
    requires |s.ord| == |s.typ| && p < |s.typ| && a == Retype(s, p, Cont)
    requires Inv(a, {q}) && q < |a.typ| && a.typ[q] == Free && m <= a.ord[q]
    ensures var b := SplitDown(a, {q}, q, m); q < |b.typ| && SameBut(s, Retype(b, q, Allocated), p, q)
  {
    var b := SplitDown(a, {q}, q, m);
    RetypeSame(s, p, Cont);
    SplitDownSame(a, {q}, q, m);
    SplitDownSound(a, {q}, q, m);
    RetypeSame(b, q, Allocated);
    ThreeSteps(s, a, b, Retype(b, q, Allocated), p, q);
  }

  lemma ThreeSteps(s: Mem, a: Mem, b: Mem, d: Mem, p: int, q: int)
    requires SameBut(s, a, p, p) && SameBut(a, b, -1, -1) && SameBut(b, d, q, q)
    ensures SameBut(s, d, p, q)
  {
    SameTrans(s, a, b, p, q);
    SameTrans(s, b, d, p, q);
  }

  /** Two blocks came into use, and nothing else changed. */
  ghost predicate TookTwo(s: Mem, d: Mem, p: nat, q: nat) {
    !InUse(s, p) && !InUse(s, q) && SameBut(s, d, p, q)
  }

  /** mm_page_alloc_cont puts exactly two new blocks in use. */
  lemma AllocContSame(s: Mem, n: nat, m: nat) returns (d: Mem, p: Option<nat>)
    requires Inv(s, {}) && n < |s.freeL| && m <= n
    ensures (d, p) == AllocCont(s, n, m) && |d.ord| == |d.typ|
    ensures p.Some? ==> Inv(d, {}) && ContAt(d, p.value, n, m) && TookTwo(s, d, p.value, p.value + Pow(n))
  {
    var (g, f) := Gather(s, n, m);
    d, p := s, f;
    if f.Some? {
      GatherSame(s, n, m);
      ClaimedFrom(s, g, f.value, n, m, f.value + Pow(n));
      d := ClaimSound(g, f.value, n, m);
    }
  }

  lemma ClaimedFrom(s: Mem, g: Mem, p: nat, n: nat, m: nat, q: nat)
    requires |s.ord| == |s.typ| && |g.ord| == |g.typ| && Gathered(s, g, p, n, m) && SameBut(s, g, -1, -1) && q == p + Pow(n)
    ensures TookTwo(s, Claim(g, p, n, m), p, q)
  {
    ClaimedSame(s, g, p, n, m, q);
  }

  lemma ClaimedSame(s: Mem, g: Mem, p: nat, n: nat, m: nat, q: nat)
    requires q == p + Pow(n) && TwoHeld(g, p, n) && m <= g.ord[q] && SameBut(s, g, -1, -1)
    ensures TookTwo(s, Claim(g, p, n, m), p, q)
  {
    ClaimSame(g, p, n, m, q);
    TookFromGathered(s, g, Claim(g, p, n, m), p, q);
  }

  lemma TookFromGathered(s: Mem, g: Mem, d: Mem, p: nat, q: nat)
    requires SameBut(s, g, -1, -1) && SameBut(g, d, p, q) && !InUse(g, p) && !InUse(g, q)
    ensures TookTwo(s, d, p, q)
  {
    SameTrans(s, g, d, p, q);
    NotBefore(s, g, p);
    NotBefore(s, g, q);
  }

  /** Two blocks went out of use, and nothing else changed. */
  ghost predicate LeftTwo(s: Mem, d: Mem, p: nat, q: nat) {
    SameBut(s, d, p, q) && !InUse(d, p) && !InUse(d, q)
  }

  /** Freeing a two-part block takes exactly its two blocks out of use. */
  lemma FreeContSame(s: Mem, p: nat, n: nat, m: nat) returns (d: Mem)
    requires Inv(s, {}) && ContAt(s, p, n, m)
    ensures d == FreeSub(s, p).0 && LeftTwo(s, d, p, p + Pow(n))
  {
    var q := p + Pow(n);
    var a, b;
    a, b, d := FreeContSteps(s, p, n, m, q);
    RetypeSame(s, p, Allocated);
    StepsSame(s, p, q, a, b, d);
  }

  lemma StepsSame(s: Mem, p: nat, q: nat, a: Mem, b: Mem, d: Mem)
    requires FreeSteps(s, p, q, a, b, d) && SameBut(s, a, p, p)
    ensures LeftTwo(s, d, p, q)
  {
    ReleaseSame(a, q);
    ReleaseSame(b, p);
    SameTwice(s, a, b, d, p, q);
  }

  lemma SameTwice(s: Mem, a: Mem, b: Mem, d: Mem, p: nat, q: nat)
    requires SameBut(s, a, p, p) && SameBut(a, b, q, q) && SameBut(b, d, p, p) && !InUse(b, q) && p != q
    ensures SameBut(s, d, p, q) && !InUse(d, q)
  {
    SameTrans(s, a, b, p, q);
    SameTrans(s, b, d, p, q);
    assert InUse(d, q) ==> InUse(b, q);
  }
}
