/** Reference-counted stacks with shared tails, as the AML parser keeps them for paths,
    buffers and package limits (acpi_dsdt.c: addpathlist, addbuflist, pushpkgend, the pop
    sequences, parsefree*list). */
module SharedStack {
  import opened Lists

  /** A list node; `depth` is its height above the end of the list, which the source never
      stores but which is fixed when the node is made. */
  datatype Node<T> = Node(val: T, next: Option<nat>, ref: nat, depth: nat)

  type Heap<T> = map<nat, Node<T>>

  /** Next pointers lead to live nodes, downwards. */
  ghost predicate Wf<T>(h: Heap<T>) {
    forall n :: n in h && h[n].next.Some? ==> h[n].next.value in h && h[h[n].next.value].depth < h[n].depth
  }

  predicate Points<T>(h: Heap<T>, p: Option<nat>) {
    p.Some? ==> p.value in h
  }

  /** The list a head pointer denotes. */
  ghost function Stack<T>(h: Heap<T>, p: Option<nat>): seq<T>
    requires Wf(h) && Points(h, p)
    decreases if p.None? then 0 else h[p.value].depth + 1
  {
    if p.None? then [] else [h[p.value].val] + Stack(h, h[p.value].next)
  }

  /** Nodes whose next pointer is n. */
  ghost function Preds<T>(h: Heap<T>, n: nat): set<nat> {
    set m | m in h && h[m].next == Some(n)
  }

  /** The head pointer p as a multiset of node addresses (empty for NULL). */
  ghost function One(p: Option<nat>): multiset<nat> {
    if p.None? then multiset{} else multiset{p.value}
  }

  /** Each count is the number of head pointers and next pointers to the node, and is
      positive; `hs` are all head pointers there are. */
  ghost predicate Counted<T>(h: Heap<T>, hs: multiset<nat>) {
    forall n :: n in h ==> h[n].ref == hs[n] + |Preds(h, n)| && h[n].ref > 0
  }

  ghost predicate Inv<T>(h: Heap<T>, hs: multiset<nat>) {
    Wf(h) && Counted(h, hs) && forall n :: n in hs ==> n in h
  }

  /** The same lists hang off the nodes that are left. */
  ghost predicate SameStacks<T>(h: Heap<T>, d: Heap<T>) {
    forall n :: n in d && n in h ==> d[n].val == h[n].val && d[n].next == h[n].next && d[n].depth == h[n].depth
  }

  lemma {:induction false} StackKept<T>(h: Heap<T>, d: Heap<T>, p: Option<nat>)
    requires Wf(h) && Wf(d) && SameStacks(h, d) && Points(h, p) && Points(d, p)
    ensures Stack(d, p) == Stack(h, p)
    decreases if p.None? then 0 else h[p.value].depth + 1
  {
    if p.Some? { StackKept(h, d, h[p.value].next); }
  }

  lemma HeadLive<T>(h: Heap<T>, hs: multiset<nat>, p: Option<nat>)
    requires Inv(h, hs + One(p))
    ensures Points(h, p)
  {
    if p.Some? { assert p.value in hs + One(p); }
  }

  /** Only counts differ. */
  ghost predicate OnlyRefs<T>(h: Heap<T>, d: Heap<T>) {
    d.Keys == h.Keys && SameStacks(h, d)
  }

  lemma RefsOnly<T>(h: Heap<T>, d: Heap<T>)
    requires Wf(h) && OnlyRefs(h, d)
    ensures Wf(d) && forall n :: Preds(d, n) == Preds(h, n)
  {
    forall n ensures Preds(d, n) == Preds(h, n) {
      forall m ensures m in Preds(d, n) <==> m in Preds(h, n) {
      }
    }
  }

  // ------------------------------------------------------------- push

  function Depth<T>(h: Heap<T>, p: Option<nat>): nat
    requires Points(h, p)
  {
    if p.None? then 0 else h[p.value].depth + 1
  }

  /** addpathlist, addbuflist, pushpkgend: a new node at address a takes over the head. */
  function Push<T>(h: Heap<T>, p: Option<nat>, v: T, a: nat): Heap<T>
    requires Points(h, p)
  {
    h[a := Node(v, p, 1, Depth(h, p))]
  }

  lemma PushSound<T>(h: Heap<T>, hs: multiset<nat>, p: Option<nat>, v: T, a: nat)
    requires Inv(h, hs + One(p)) && a !in h && Points(h, p)
    ensures var d := Push(h, p, v, a);
      && Inv(d, hs + multiset{a}) && SameStacks(h, d) && h.Keys <= d.Keys && Stack(d, Some(a)) == [v] + Stack(h, p)
  {
    PushInv(h, hs, p, v, a);
    StackKept(h, Push(h, p, v, a), p);
  }

  lemma PushInv<T>(h: Heap<T>, hs: multiset<nat>, p: Option<nat>, v: T, a: nat)
    requires Inv(h, hs + One(p)) && a !in h && Points(h, p)
    ensures Inv(Push(h, p, v, a), hs + multiset{a})
  {
    var d := Push(h, p, v, a);
    assert (hs + One(p))[a] == 0;
    forall n | n in d ensures d[n].ref == (hs + multiset{a})[n] + |Preds(d, n)| && d[n].ref > 0 {
      PushPreds(h, p, v, a, n);
    }
    forall n | n in hs + multiset{a} ensures n in d {
      if n != a { assert n in hs + One(p); }
    }
  }

  lemma PushPreds<T>(h: Heap<T>, p: Option<nat>, v: T, a: nat, n: nat)
    requires Wf(h) && a !in h && Points(h, p)
    ensures |Preds(Push(h, p, v, a), n)| == (if n == a then 0 else if p == Some(n) then |Preds(h, n)| + 1 else |Preds(h, n)|)
  {
    var d := Push(h, p, v, a);
    if n == a {
      assert Preds(d, a) == {};
    } else if p == Some(n) {
      assert Preds(d, n) == Preds(h, n) + {a};
    } else {
      assert Preds(d, n) == Preds(h, n);
    }
  }

  // ------------------------------------------------------------- share

  /** q->head = cur->head; if (q->head) q->head->ref++ */
  function Share<T>(h: Heap<T>, p: Option<nat>): Heap<T>
    requires Points(h, p)
  {
    if p.None? then h else h[p.value := h[p.value].(ref := h[p.value].ref + 1)]
  }

  lemma ShareSound<T>(h: Heap<T>, hs: multiset<nat>, p: Option<nat>)
    requires Inv(h, hs) && Points(h, p)
    ensures Inv(Share(h, p), hs + One(p)) && OnlyRefs(h, Share(h, p))
  {
    RefsOnly(h, Share(h, p));
  }

  /** ref-- on a node that stays. */
  function Unshare<T>(h: Heap<T>, n: nat): Heap<T>
    requires n in h && h[n].ref > 0
  {
    h[n := h[n].(ref := h[n].ref - 1)]
  }

  lemma UnshareSound<T>(h: Heap<T>, hs: multiset<nat>, n: nat)
    requires Inv(h, hs + multiset{n}) && n in h && h[n].ref > 1
    ensures Inv(Unshare(h, n), hs) && OnlyRefs(h, Unshare(h, n))
  {
    var d := Unshare(h, n);
    RefsOnly(h, d);
    forall k | k in hs ensures k in d { assert k in hs + multiset{n}; }
  }

  // ------------------------------------------------------------- pop

  /** The pop sequence: the node is freed when its last reference goes, otherwise the node
      below gains one. */
  function Pop<T>(h: Heap<T>, n: nat): Heap<T>
    requires n in h && h[n].ref > 0 && Points(h, h[n].next)
  {
    if h[n].ref == 1 then h - {n} else Share(Unshare(h, n), h[n].next)
  }

  lemma PopSound<T>(h: Heap<T>, hs: multiset<nat>, n: nat)
    requires Inv(h, hs + multiset{n}) && n in h && h[n].ref > 0 && Points(h, h[n].next)
    ensures Inv(Pop(h, n), hs + One(h[n].next)) && SameStacks(h, Pop(h, n))
    ensures Pop(h, n).Keys <= h.Keys && Pop(h, n).Keys >= h.Keys - {n}
  {
    if h[n].ref == 1 {
      FreeTop(h, hs, n);
    } else {
      UnshareSound(h, hs, n);
      ShareSound(Unshare(h, n), hs, h[n].next);
    }
  }

  /** Freeing a node nobody else refers to. */
  lemma FreeTop<T>(h: Heap<T>, hs: multiset<nat>, n: nat)
    requires Inv(h, hs + multiset{n}) && n in h && h[n].ref == 1
    ensures Inv(h - {n}, hs + One(h[n].next)) && SameStacks(h, h - {n})
  {
    var d := h - {n};
    var p := h[n].next;
    assert |Preds(h, n)| == 0;
    assert hs[n] == 0 && Preds(h, n) == {};
    forall m | m in d && d[m].next.Some? ensures d[m].next.value in d {
      assert m !in Preds(h, n);
    }
    forall k | k in d ensures d[k].ref == (hs + One(p))[k] + |Preds(d, k)| && d[k].ref > 0 {
      FreePreds(h, n, k);
    }
    forall k | k in hs + One(p) ensures k in d {
      if k in hs { assert k in hs + multiset{n}; }
    }
  }

  lemma FreePreds<T>(h: Heap<T>, n: nat, k: nat)
    requires n in h
    ensures |Preds(h, k)| == |Preds(h - {n}, k)| + (if h[n].next == Some(k) then 1 else 0)
  {
    var d := h - {n};
    if h[n].next == Some(k) {
      assert Preds(h, k) == Preds(d, k) + {n};
    } else {
      assert Preds(h, k) == Preds(d, k);
    }
  }

  // ------------------------------------------------------------- drop

  /** parsefreepathlist, parsefreebuflist, parsefreelimitlist; `hs` are the other heads. */
  function Drop<T>(h: Heap<T>, p: Option<nat>, ghost hs: multiset<nat>): Heap<T>
    requires Inv(h, hs + One(p))
    decreases |h|
  {
    HeadLive(h, hs, p);
    if p.None? then h
    else if h[p.value].ref == 1 then
      FreeTop(h, hs, p.value);
      FreeShrinks(h, p.value);
      Drop(h - {p.value}, h[p.value].next, hs)
    else Unshare(h, p.value)
  }

  lemma FreeShrinks<T>(h: Heap<T>, n: nat)
    requires n in h
    ensures |h - {n}| == |h| - 1
  {
    assert (h - {n}).Keys == h.Keys - {n};
  }

  lemma {:induction false} DropSound<T>(h: Heap<T>, hs: multiset<nat>, p: Option<nat>)
    requires Inv(h, hs + One(p))
    ensures Inv(Drop(h, p, hs), hs) && SameStacks(h, Drop(h, p, hs)) && Drop(h, p, hs).Keys <= h.Keys
    decreases |h|
  {
    HeadLive(h, hs, p);
    if p.None? {
      assert hs + One(p) == hs;
    } else if h[p.value].ref == 1 {
      FreeTop(h, hs, p.value);
      FreeShrinks(h, p.value);
      DropSound(h - {p.value}, hs, h[p.value].next);
    } else {
      UnshareSound(h, hs, p.value);
    }
  }

  // ------------------------------------------------------------- what is freed

  /** The nodes of the list that a head pointer denotes. */
  ghost function Chain<T>(h: Heap<T>, p: Option<nat>): set<nat>
    requires Wf(h) && Points(h, p)
    decreases if p.None? then 0 else h[p.value].depth + 1
  {
    if p.None? then {} else {p.value} + Chain(h, h[p.value].next)
  }

  /** Node n is on the list of one of the heads. */
  ghost predicate Reached<T>(h: Heap<T>, hs: multiset<nat>, n: nat)
    requires Wf(h)
  {
    exists q :: q in hs && q in h && n in Chain(h, Some(q))
  }

  lemma {:induction false} ChainNext<T>(h: Heap<T>, p: Option<nat>, m: nat)
    requires Wf(h) && Points(h, p) && m in Chain(h, p)
    ensures m in h && (h[m].next.Some? ==> h[m].next.value in Chain(h, p))
    decreases if p.None? then 0 else h[p.value].depth + 1
  {
    if m != p.value { ChainNext(h, h[p.value].next, m); }
  }

  lemma {:induction false} ChainKept<T>(h: Heap<T>, d: Heap<T>, p: Option<nat>)
    requires Wf(h) && Wf(d) && SameStacks(h, d) && Points(h, p) && Points(d, p)
    ensures Chain(d, p) == Chain(h, p) && Chain(d, p) <= d.Keys
    decreases if p.None? then 0 else h[p.value].depth + 1
  {
    if p.Some? { ChainKept(h, d, h[p.value].next); }
  }

  /** Every node is on the list of some head: counts are positive, and a node that points at it
      is farther up. */
  lemma {:induction false} NodeReached<T>(h: Heap<T>, hs: multiset<nat>, n: nat, top: nat)
    requires Inv(h, hs) && n in h && forall m :: m in h ==> h[m].depth <= top
    ensures Reached(h, hs, n)
    decreases top - h[n].depth
  {
    if hs[n] > 0 {
      assert n in Chain(h, Some(n));
    } else {
      assert |Preds(h, n)| > 0;
      var m :| m in Preds(h, n);
      NodeReached(h, hs, m, top);
      var q :| q in hs && q in h && m in Chain(h, Some(q));
      ChainNext(h, Some(q), m);
    }
  }

  /** parsefree*list frees exactly the nodes that are on no other list. */
  lemma DropFrees<T>(h: Heap<T>, hs: multiset<nat>, p: Option<nat>)
    requires Inv(h, hs + One(p))
    ensures forall n :: n in Drop(h, p, hs) <==> n in h && Reached(h, hs, n)
  {
    DropSound(h, hs, p);
    var d := Drop(h, p, hs);
    forall n | n in d ensures n in h && Reached(h, hs, n) {
      var k := Deepest(d);
      NodeReached(d, hs, n, d[k].depth);
      var q :| q in hs && q in d && n in Chain(d, Some(q));
      ChainKept(h, d, Some(q));
    }
    forall n | n in h && Reached(h, hs, n) ensures n in d {
      var q :| q in hs && q in h && n in Chain(h, Some(q));
      ChainKept(h, d, Some(q));
    }
  }

  // ------------------------------------------------------------- no leaks

  lemma Deepest<T>(h: Heap<T>) returns (n: nat)
    requires h != map[]
    ensures n in h && forall m :: m in h ==> h[m].depth <= h[n].depth
    decreases |h|
  {
    var k :| k in h;
    var rest := h - {k};
    FreeShrinks(h, k);
    forall m | m in h && m != k ensures m in rest {
    }
    if rest == map[] {
      n := k;
    } else {
      var r := Deepest(rest);
      n := if h[k].depth > h[r].depth then k else r;
    }
  }

  /** When the last head pointer is gone, so is every node. */
  lemma NoLeak<T>(h: Heap<T>)
    requires Inv(h, multiset{})
    ensures h == map[]
  {
    if h != map[] {
      var n := Deepest(h);
      DeepestHasNoPreds(h, n);
    }
  }

  lemma DeepestHasNoPreds<T>(h: Heap<T>, n: nat)
    requires Wf(h) && n in h && forall m :: m in h ==> h[m].depth <= h[n].depth
    ensures |Preds(h, n)| == 0
  {
    assert Preds(h, n) == {};
  }
}
