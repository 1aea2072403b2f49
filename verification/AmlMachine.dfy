/** The parser's loops over the shared lists, as the source runs them: parsefree*list, err,
    addbufsub and the end of parsemain and parser. */
module AmlMachine {
  import opened Lists
  import opened SharedStack
  import opened AmlParser

  /** What remains to be dropped: configurations on the two lists. */
  ghost function Waiting(s: Parse): nat {
    |s.work| + |s.ok|
  }

  lemma Done(s: Parse)
    requires PInv(s) && s.work == [] && s.ok == [] && s.cur.None? && s.found.None?
    ensures s.heap == [map[], map[], map[]]
  {
    assert Others(s) == [];
    forall k | 0 <= k < 3 ensures s.heap[k] == map[] {
      assert Heads(Others(s), k) + CurHead(s, k) == multiset{};
      NoLeak(s.heap[k]);
    }
  }

  /** The loop of parsefree*list: it walks down while the counts drop to zero. */
  method FreeNodes<T>(list: Heap<T>, head: Option<nat>, ghost hs: multiset<nat>) returns (h: Heap<T>)
    requires Inv(list, hs + One(head))
    ensures h == Drop(list, head, hs)
  {
    var p := head;
    h := list;
    HeadLive(h, hs, p);
    while p.Some? && h[p.value].ref == 1
      invariant Inv(h, hs + One(p)) && Points(h, p) && Drop(h, p, hs) == Drop(list, head, hs)
      decreases |h|
    {
      FreeTop(h, hs, p.value);
      FreeShrinks(h, p.value);
      h, p := h - {p.value}, h[p.value].next;
      HeadLive(h, hs, p);
    }
    if p.Some? {
      h := h[p.value := h[p.value].(ref := h[p.value].ref - 1)];
    }
  }

  /** The loop of addbufsub, on the copy q; t is the parse with the copy as the current one. */
  method PushAll(heap: seq<Heap<int>>, q0: Config, tmp: seq<int>, addrs: seq<nat>, ghost t: Parse)
    returns (hs: seq<Heap<int>>, q: Config)
    requires PInv(t) && t.cur == Some(q0) && t.heap == heap && |addrs| == |tmp| && FreshAddrs(heap[BUF], addrs)
    ensures PushTmp(t, tmp, addrs) == t.(heap := hs, cur := Some(q))
  {
    hs, q := heap, q0;
    var i: nat := |tmp|;
    assert tmp[..i] == tmp && addrs[..i] == addrs;
    ghost var u := t;
    while i > 0
      invariant i <= |tmp| && PInv(u) && u == t.(heap := hs, cur := Some(q))
      invariant FreshAddrs(hs[BUF], addrs[..i]) && PushTmp(u, tmp[..i], addrs[..i]) == PushTmp(t, tmp, addrs)
    {
      i := i - 1;
      PushTmpStep(u, tmp, addrs, i);
      u := PushCur(u, BUF, tmp[i], addrs[i]);
      hs := hs[BUF := Push(hs[BUF], q.head[BUF], tmp[i], addrs[i])];
      q := q.(head := q.head[BUF := Some(addrs[i])]);
    }
  }

  /** addbufsub on the copy: the path entry if one is due, then the buffer list. */
  method ExpandCopy(heap: seq<Heap<int>>, q0: Config, tmp: seq<int>, pa: nat, addrs: seq<nat>, ghost t: Parse)
    returns (hs: seq<Heap<int>>, q: Config)
    requires PInv(t) && t.cur == Some(q0) && t.heap == heap && |addrs| == |tmp| + 1
    requires pa !in heap[PATH] && FreshAddrs(heap[BUF], addrs)
    ensures Expand(t, tmp, pa, addrs) == t.(heap := hs, cur := Some(q))
  {
    hs, q := heap, q0;
    CurLive(t, PATH);
    if q.head[PATH].None? || hs[PATH][q.head[PATH].value].val != q.element {
      ghost var u := PushCur(t, PATH, q.element, pa);
      PathStep(t, pa, addrs);
      hs := hs[PATH := Push(hs[PATH], q.head[PATH], q.element, pa)];
      q := q.(head := q.head[PATH := Some(pa)]);
      hs, q := PushAll(hs, q, tmp + [OK], addrs, u);
    } else {
      hs, q := PushAll(hs, q, tmp, addrs[..|tmp|], t);
    }
  }

  lemma PushTmpStep(u: Parse, tmp: seq<int>, addrs: seq<nat>, i: nat)
    requires PInv(u) && u.cur.Some? && i < |tmp| == |addrs| && FreshAddrs(u.heap[BUF], addrs[..i + 1])
    ensures Points(u.heap[BUF], u.cur.value.head[BUF])
    ensures var q := PushCur(u, BUF, tmp[i], addrs[i]);
      && PInv(q) && FreshAddrs(q.heap[BUF], addrs[..i])
      && PushTmp(q, tmp[..i], addrs[..i]) == PushTmp(u, tmp[..i + 1], addrs[..i + 1])
  {
    assert tmp[..i + 1][..i] == tmp[..i] && addrs[..i + 1][..i] == addrs[..i];
    PushStep(u, tmp[i], addrs[..i + 1]);
    CurLive(u, BUF);
  }

  ghost predicate Shareable(heap: seq<Heap<int>>, q: Config) {
    |heap| == |q.head| == 3 && forall k :: 0 <= k < 3 ==> Points(heap[k], q.head[k])
  }

  /** The lists of d->cur, each with one more reference. */
  method ShareAll(heap: seq<Heap<int>>, q: Config) returns (hs: seq<Heap<int>>)
    requires Shareable(heap, q)
    ensures |hs| == 3 && forall k :: 0 <= k < 3 ==> hs[k] == Share(heap[k], q.head[k])
  {
    hs := [Share(heap[PATH], q.head[PATH]), Share(heap[BUF], q.head[BUF]), Share(heap[LIMIT], q.head[LIMIT])];
  }

  lemma CopyHeap(s: Parse, hs: seq<Heap<int>>)
    requires PInv(s) && s.cur.Some? && Shareable(s.heap, s.cur.value)
    requires |hs| == 3 && forall k :: 0 <= k < 3 ==> hs[k] == Share(s.heap[k], s.cur.value.head[k])
    ensures Copy(s) == s.(work := [s.cur.value] + s.work, heap := hs)
  {
    assert Copy(s).heap == hs;
  }

  lemma CurShareable(s: Parse)
    requires PInv(s) && s.cur.Some?
    ensures Shareable(s.heap, s.cur.value)
  {
    forall k | 0 <= k < 3 ensures Points(s.heap[k], s.cur.value.head[k]) { CurLive(s, k); }
  }

  lemma CopyReady(s: Parse, pa: nat, addrs: seq<nat>)
    requires PInv(s) && s.cur.Some? && pa !in s.heap[PATH] && FreshAddrs(s.heap[BUF], addrs)
    ensures var t := Copy(s);
      PInv(t) && t.cur == s.cur && |t.heap| == 3 && pa !in t.heap[PATH] && FreshAddrs(t.heap[BUF], addrs)
  {
    CopySound(s);
    CopyKeys(s);
  }

  /** The pop sequence on one list: the node is freed with its last reference, otherwise the node
      below gains one. */
  method PopNode(h0: Heap<int>, n: nat) returns (v: int, next: Option<nat>, h: Heap<int>)
    requires n in h0 && h0[n].ref > 0 && Points(h0, h0[n].next) && h0[n].next != Some(n)
    ensures v == h0[n].val && next == h0[n].next && h == Pop(h0, n)
  {
    h := h0;
    v, next := h[n].val, h[n].next;
    h := h[n := h[n].(ref := h[n].ref - 1)];
    if h[n].ref == 0 {
      h := h - {n};
      assert h == h0 - {n};
    } else if next.Some? {
      h := h[next.value := h[next.value].(ref := h[next.value].ref + 1)];
    }
  }

  /** The node on top of a list of the current configuration can be popped. */
  lemma PoppedNode(s: Parse, k: nat, n: nat)
    requires PInv(s) && s.cur.Some? && k < 3 && s.cur.value.head[k] == Some(n) && n in s.heap[k]
    ensures var h := s.heap[k]; h[n].ref > 0 && Points(h, h[n].next) && h[n].next != Some(n)
  {
    assert SharedStack.Inv(s.heap[k], Heads(Others(s), k) + One(s.cur.value.head[k]));
  }

  class Machine {
    var work: seq<Config>
    var cur: Option<Config>
    var ok: seq<Config>
    var found: Option<Config>
    var heap: seq<Heap<int>>

    ghost function State(): Parse
      reads this
    {
      Parse(work, cur, ok, found, heap)
    }

    ghost predicate Valid()
      reads this
    {
      PInv(State())
    }

    /** parser: one configuration with the start element on its buffer list, at address a. */
    constructor (code: int, a: nat)
      ensures Valid() && State() == Start(code, a)
    {
      StartSound(code, a);
      work, cur, ok, found := [Config([None, Some(a), None], OK)], None, [], None;
      heap := [map[], map[a := Node(code, None, 1, 0)], map[]];
    }

    /** parsefreepathlist, parsefreebuflist, parsefreelimitlist on d->cur. */
    method FreeList(k: nat)
      requires Valid() && cur.Some? && k < 3
      modifies this
      ensures Valid() && State() == ReleaseCur(old(State()), k)
      ensures Undisturbed(old(State()), State(), Others(old(State())))
    {
      ReleaseCurSound(State(), k);
      var h := FreeNodes(heap[k], cur.value.head[k], Heads(Others(State()), k));
      heap := heap[k := h];
      cur := Some(cur.value.(head := cur.value.head[k := None]));
    }

    /** err */
    method Err()
      requires Valid() && cur.Some?
      modifies this
      ensures Valid() && State() == DropCur(old(State())) && cur.None?
      ensures work == old(work) && ok == old(ok) && found == old(found)
      ensures Undisturbed(old(State()), State(), Others(old(State())))
    {
      ghost var s := State();
      DropCurSound(s);
      var k := 0;
      while k < 3
        invariant k <= 3 && Valid() && cur.Some? && ReleaseFrom(State(), k) == ReleaseFrom(s, 0)
        invariant work == s.work && ok == s.ok && found == s.found
      {
        ReleaseCurSound(State(), k);
        FreeList(k);
        k := k + 1;
      }
      cur := None;
    }

    /** getbuf */
    method GetBuf() returns (some: bool)
      requires Valid() && cur.None?
      modifies this
      ensures Valid() && State() == Take(old(State())) && some == cur.Some? && heap == old(heap) && found == old(found)
      ensures some ==> Waiting(State()) < Waiting(old(State()))
      ensures !some ==> work == [] && ok == []
    {
      TakeSound(State());
      if work == [] {
        work, ok := ok, [];
      }
      if work != [] {
        cur, work := Some(work[0]), work[1..];
      }
      some := cur.Some?;
    }

    /** Pop one list of d->cur: bufhead at loop2, pathhead for OK, limithead in poppkgend. */
    method PopList(k: nat) returns (v: int)
      requires Valid() && cur.Some? && k < 3 && cur.value.head[k].Some?
      modifies this
      ensures Valid() && State() == PopCur(old(State()), k)
      ensures Undisturbed(old(State()), State(), Others(old(State())))
      ensures View(old(State()), old(State()).cur.value, k) == [v] + View(State(), cur.value, k)
    {
      ghost var s := State();
      PopCurSound(s, k);
      CurLive(s, k);
      PoppedNode(s, k, cur.value.head[k].value);
      var h, next;
      v, next, h := PopNode(heap[k], cur.value.head[k].value);
      heap := heap[k := h];
      cur := Some(cur.value.(head := cur.value.head[k := next]));
    }

    /** addbufsub: a copy of d->cur with tmp[0..n) on its buffer list, put on d->head. */
    method AddBufSub(tmp: seq<int>, pa: nat, addrs: seq<nat>)
      requires Valid() && cur.Some? && |addrs| == |tmp| + 1 && pa !in heap[PATH] && FreshAddrs(heap[BUF], addrs)
      modifies this
      ensures Valid() && State() == Fork(old(State()), tmp, pa, addrs)
    {
      ghost var s := State();
      CopyReady(s, pa, addrs);
      var q := cur.value;
      CurShareable(s);
      var hs := ShareAll(heap, q);
      CopyHeap(s, hs);
      hs, q := ExpandCopy(hs, q, tmp, pa, addrs, Copy(s));
      ForkSound(s, tmp, pa, addrs);
      heap, work := hs, [q] + work;
    }

    /** parsemain once r is set, then parser: every other configuration is dropped, then r;
        whatever happened before, not one path, buffer or limit node is left. */
    method Finish()
      requires Valid() && cur.None?
      modifies this
      ensures Valid() && heap == [map[], map[], map[]]
    {
      var more := GetBuf();
      while more
        invariant Valid() && more == cur.Some? && (!more ==> work == [] && ok == [])
        decreases Waiting(State()) + if more then 1 else 0
      {
        Err();
        more := GetBuf();
      }
      ReclaimSound(State());
      cur, found := found, None;
      if cur.Some? {
        Err();
      }
      Done(State());
    }
  }
}
