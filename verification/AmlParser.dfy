/** The forking AML parser (acpi_dsdt.c, addbufsub, getbuf, parsemain, parser): parse
    configurations that share their path, buffer and limit stacks.  Which step is taken is
    left open (the grammar decides it), so what is proved holds for every table. */
module AmlParser {
  import opened Lists
  import opened SharedStack

  /** The element that ends a production (OK in the source's element list). */
  const OK: int := -1

  /** The three kinds of stack. */
  const PATH: nat := 0
  const BUF: nat := 1
  const LIMIT: nat := 2

  /** struct parsedatalist: the heads pathhead, bufhead, limithead, and pathelement. */
  datatype Config = Config(head: seq<Option<nat>>, element: int)

  /** struct parsedata: d->head, d->cur, d->ok, the result r of parsemain, and the nodes of
      each kind. */
  datatype Parse = Parse(work: seq<Config>, cur: Option<Config>, ok: seq<Config>, found: Option<Config>,
                         heap: seq<Heap<int>>)

  function Opt(c: Option<Config>): seq<Config> {
    if c.None? then [] else [c.value]
  }

  /** Every configuration other than the current one. */
  function Others(s: Parse): seq<Config> {
    s.work + s.ok + Opt(s.found)
  }

  ghost predicate Shaped(cs: seq<Config>) {
    forall i :: 0 <= i < |cs| ==> |cs[i].head| == 3
  }

  /** The head pointers of kind k in a list of configurations. */
  ghost function Heads(cs: seq<Config>, k: nat): multiset<nat>
    requires Shaped(cs) && k < 3
  {
    if cs == [] then multiset{} else One(cs[0].head[k]) + Heads(cs[1..], k)
  }

  lemma {:induction false} HeadsAppend(a: seq<Config>, b: seq<Config>, k: nat)
    requires Shaped(a) && Shaped(b) && k < 3
    ensures Shaped(a + b) && Heads(a + b, k) == Heads(a, k) + Heads(b, k)
  {
    if a == [] {
      assert a + b == b;
    } else {
      assert (a + b)[1..] == a[1..] + b;
      HeadsAppend(a[1..], b, k);
    }
  }

  lemma {:induction false} HeadIn(cs: seq<Config>, k: nat, i: nat)
    requires Shaped(cs) && k < 3 && i < |cs|
    ensures cs[i].head[k].Some? ==> cs[i].head[k].value in Heads(cs, k)
  {
    if i > 0 { HeadIn(cs[1..], k, i - 1); }
  }

  lemma HeadsOne(c: Config, k: nat)
    requires |c.head| == 3 && k < 3
    ensures Heads([c], k) == One(c.head[k])
  {
    assert Heads([c][1..], k) == multiset{};
  }

  /** Every heap counts exactly the references from the configurations and the nodes. */
  ghost predicate PInv(s: Parse) {
    && |s.heap| == 3 && Shaped(Others(s)) && (s.cur.Some? ==> |s.cur.value.head| == 3)
    && (forall k :: 0 <= k < 3 ==> Inv(s.heap[k], Heads(Others(s), k) + CurHead(s, k)))
  }

  ghost function CurHead(s: Parse, k: nat): multiset<nat>
    requires k < 3 && (s.cur.Some? ==> |s.cur.value.head| == 3)
  {
    if s.cur.None? then multiset{} else One(s.cur.value.head[k])
  }

  /** The stack of kind k that configuration c sees. */
  ghost function View(s: Parse, c: Config, k: nat): seq<int>
    requires k < |s.heap| && k < |c.head|
  {
    if Wf(s.heap[k]) && Points(s.heap[k], c.head[k]) then Stack(s.heap[k], c.head[k]) else []
  }

  /** Configuration c has all its stacks, and sees them unchanged. */
  ghost predicate SameView(s: Parse, d: Parse, c: Config) {
    && |s.heap| == |d.heap| == |c.head| == 3
    && (forall k :: 0 <= k < 3 ==> Points(s.heap[k], c.head[k]) && Points(d.heap[k], c.head[k]) && View(d, c, k) == View(s, c, k))
  }

  ghost predicate Undisturbed(s: Parse, d: Parse, cs: seq<Config>) {
    forall i :: 0 <= i < |cs| ==> SameView(s, d, cs[i])
  }

  /** A step that keeps values and links, and the other configurations, disturbs none of them. */
  lemma KeepsOthers(s: Parse, d: Parse)
    requires PInv(s) && PInv(d) && Others(d) == Others(s)
    requires forall k :: 0 <= k < 3 ==> SameStacks(s.heap[k], d.heap[k])
    ensures Undisturbed(s, d, Others(s))
  {
    forall i | 0 <= i < |Others(s)| ensures SameView(s, d, Others(s)[i]) {
      forall k | 0 <= k < 3
        ensures Points(s.heap[k], Others(s)[i].head[k]) && Points(d.heap[k], Others(s)[i].head[k])
        ensures View(d, Others(s)[i], k) == View(s, Others(s)[i], k)
      {
        KeepsOther(s, d, i, k);
      }
    }
  }

  lemma KeepsOther(s: Parse, d: Parse, i: nat, k: nat)
    requires PInv(s) && PInv(d) && Others(d) == Others(s) && k < 3 && SameStacks(s.heap[k], d.heap[k])
    requires i < |Others(s)|
    ensures var c := Others(s)[i];
      Points(s.heap[k], c.head[k]) && Points(d.heap[k], c.head[k]) && View(d, c, k) == View(s, c, k)
  {
    var p := Others(s)[i].head[k];
    HeadIn(Others(s), k, i);
    if p.Some? {
      assert p.value in Heads(Others(s), k) + CurHead(s, k);
      assert p.value in Heads(Others(s), k) + CurHead(d, k);
    }
    StackKept(s.heap[k], d.heap[k], p);
  }

  // ------------------------------------------------------------- steps of the current configuration

  /** The current configuration replaces one of its heads, and the heap behind it. */
  function SetCur(s: Parse, k: nat, h: Heap<int>, p: Option<nat>): Parse
    requires s.cur.Some? && k < 3 && |s.heap| == 3 && |s.cur.value.head| == 3
  {
    s.(heap := s.heap[k := h], cur := Some(s.cur.value.(head := s.cur.value.head[k := p])))
  }

  lemma SetCurSound(s: Parse, k: nat, h: Heap<int>, p: Option<nat>)
    requires PInv(s) && s.cur.Some? && k < 3 && Inv(h, Heads(Others(s), k) + One(p)) && SameStacks(s.heap[k], h)
    ensures var d := SetCur(s, k, h, p); PInv(d) && Others(d) == Others(s) && Undisturbed(s, d, Others(s))
  {
    KeepsOthers(s, SetCur(s, k, h, p));
  }

  lemma CurLive(s: Parse, k: nat)
    requires PInv(s) && s.cur.Some? && k < 3
    ensures Points(s.heap[k], s.cur.value.head[k])
  {
    HeadLive(s.heap[k], Heads(Others(s), k), s.cur.value.head[k]);
  }

  /** Pop one of the current configuration's stacks: bufhead at loop2, pathhead for OK,
      limithead in poppkgend. */
  function PopCur(s: Parse, k: nat): Parse
    requires PInv(s) && s.cur.Some? && k < 3 && s.cur.value.head[k].Some?
  {
    CurLive(s, k);
    var n := s.cur.value.head[k].value;
    SetCur(s, k, Pop(s.heap[k], n), s.heap[k][n].next)
  }

  /** Popping gives the current configuration the rest of its stack and disturbs no other. */
  lemma PopCurSound(s: Parse, k: nat)
    requires PInv(s) && s.cur.Some? && k < 3 && s.cur.value.head[k].Some?
    ensures var d := PopCur(s, k);
      && PInv(d) && Others(d) == Others(s) && Undisturbed(s, d, Others(s)) && d.cur.Some?
      && s.cur.value.head[k].value in s.heap[k]
      && View(s, s.cur.value, k) == [s.heap[k][s.cur.value.head[k].value].val] + View(d, d.cur.value, k)
  {
    CurLive(s, k);
    var n := s.cur.value.head[k].value;
    var h := s.heap[k];
    PopSound(h, Heads(Others(s), k), n);
    SetCurSound(s, k, Pop(h, n), h[n].next);
    CurLive(PopCur(s, k), k);
    StackKept(h, Pop(h, n), h[n].next);
  }

  /** pushpkgend */
  function PushCur(s: Parse, k: nat, v: int, a: nat): Parse
    requires PInv(s) && s.cur.Some? && k < 3
  {
    CurLive(s, k);
    SetCur(s, k, Push(s.heap[k], s.cur.value.head[k], v, a), Some(a))
  }

  lemma PushCurSound(s: Parse, k: nat, v: int, a: nat)
    requires PInv(s) && s.cur.Some? && k < 3 && a !in s.heap[k]
    ensures var d := PushCur(s, k, v, a);
      && PInv(d) && Others(d) == Others(s) && Undisturbed(s, d, Others(s)) && d.cur.Some?
      && View(d, d.cur.value, k) == [v] + View(s, s.cur.value, k)
  {
    CurLive(s, k);
    PushSound(s.heap[k], Heads(Others(s), k), s.cur.value.head[k], v, a);
    SetCurSound(s, k, Push(s.heap[k], s.cur.value.head[k], v, a), Some(a));
  }

  /** parsefreepathlist, parsefreebuflist or parsefreelimitlist on the current configuration. */
  function ReleaseCur(s: Parse, k: nat): Parse
    requires PInv(s) && s.cur.Some? && k < 3
  {
    SetCur(s, k, Drop(s.heap[k], s.cur.value.head[k], Heads(Others(s), k)), None)
  }

  lemma ReleaseCurSound(s: Parse, k: nat)
    requires PInv(s) && s.cur.Some? && k < 3
    ensures var d := ReleaseCur(s, k);
      && PInv(d) && Others(d) == Others(s) && Undisturbed(s, d, Others(s)) && d.cur.Some?
      && d.cur.value.head == s.cur.value.head[k := None]
  {
    DropSound(s.heap[k], Heads(Others(s), k), s.cur.value.head[k]);
    assert Heads(Others(s), k) + One(None) == Heads(Others(s), k);
    SetCurSound(s, k, Drop(s.heap[k], s.cur.value.head[k], Heads(Others(s), k)), None);
  }

  lemma UndisturbedTrans(a: Parse, b: Parse, c: Parse, cs: seq<Config>)
    requires Undisturbed(a, b, cs) && Undisturbed(b, c, cs)
    ensures Undisturbed(a, c, cs)
  {
    forall i | 0 <= i < |cs| ensures SameView(a, c, cs[i]) {
      assert SameView(a, b, cs[i]) && SameView(b, c, cs[i]);
    }
  }

  /** The three parsefree*list calls, from kind k on. */
  function ReleaseFrom(s: Parse, k: nat): Parse
    requires PInv(s) && s.cur.Some? && k <= 3
    decreases 3 - k
  {
    if k == 3 then s
    else
      ReleaseCurSound(s, k);
      ReleaseFrom(ReleaseCur(s, k), k + 1)
  }

  lemma {:induction false} ReleaseFromSound(s: Parse, k: nat)
    requires PInv(s) && s.cur.Some? && k <= 3
    ensures var d := ReleaseFrom(s, k);
      && PInv(d) && Others(d) == Others(s) && Undisturbed(s, d, Others(s)) && d.cur.Some?
      && (forall j :: 0 <= j < 3 ==> d.cur.value.head[j] == if j < k then s.cur.value.head[j] else None)
    decreases 3 - k
  {
    if k < 3 {
      ReleaseCurSound(s, k);
      ReleaseFromSound(ReleaseCur(s, k), k + 1);
      UndisturbedTrans(s, ReleaseCur(s, k), ReleaseFrom(s, k), Others(s));
    } else {
      KeepsOthers(s, s);
    }
  }

  /** err: the three lists are released and the configuration is freed. */
  function DropCur(s: Parse): Parse
    requires PInv(s) && s.cur.Some?
  {
    ReleaseFrom(s, 0).(cur := None)
  }

  /** Dropping a configuration disturbs no other. */
  lemma DropCurSound(s: Parse)
    requires PInv(s) && s.cur.Some?
    ensures var d := DropCur(s); PInv(d) && Others(d) == Others(s) && Undisturbed(s, d, Others(s))
  {
    ReleaseFromSound(s, 0);
    var c := ReleaseFrom(s, 0);
    ForgetCur(c);
    UndisturbedTrans(s, c, c.(cur := None), Others(s));
  }

  /** free (d->cur), once its heads are NULL. */
  lemma ForgetCur(s: Parse)
    requires PInv(s) && s.cur.Some? && forall j :: 0 <= j < 3 ==> s.cur.value.head[j] == None
    ensures var d := s.(cur := None); PInv(d) && Undisturbed(s, d, Others(s))
  {
    var d := s.(cur := None);
    assert Others(d) == Others(s);
    forall k | 0 <= k < 3 ensures Inv(d.heap[k], Heads(Others(d), k) + CurHead(d, k)) {
      assert CurHead(d, k) == CurHead(s, k);
    }
    KeepsOthers(s, d);
  }

  // ------------------------------------------------------------- forking

  /** addbufsub, first half: a copy of the current configuration that shares its stacks.
      The copy is worked on as the current one; the original waits at the head of work. */
  function Copy(s: Parse): Parse
    requires PInv(s) && s.cur.Some?
  {
    s.(work := [s.cur.value] + s.work,
       heap := seq(3, k requires 0 <= k < 3 => CurLive(s, k); Share(s.heap[k], s.cur.value.head[k])))
  }

  lemma CopySound(s: Parse)
    requires PInv(s) && s.cur.Some?
    ensures var d := Copy(s);
      && PInv(d) && Others(d) == [s.cur.value] + Others(s) && d.cur == s.cur && Undisturbed(s, d, Others(d))
  {
    var d := Copy(s);
    var c := s.cur.value;
    assert Others(d) == [c] + Others(s);
    forall k | 0 <= k < 3
      ensures Inv(d.heap[k], Heads(Others(d), k) + CurHead(d, k)) && SameStacks(s.heap[k], d.heap[k])
    {
      CurLive(s, k);
      ShareSound(s.heap[k], Heads(Others(s), k) + CurHead(s, k), c.head[k]);
      HeadsAppend([c], Others(s), k);
      HeadsOne(c, k);
      assert Heads(Others(d), k) + CurHead(d, k) == Heads(Others(s), k) + CurHead(s, k) + One(c.head[k]);
    }
    forall i | 0 <= i < |Others(d)| ensures SameView(s, d, Others(d)[i]) {
      CopyView(s, d, i);
    }
  }

  lemma CopyView(s: Parse, d: Parse, i: nat)
    requires PInv(s) && PInv(d) && s.cur.Some? && Others(d) == [s.cur.value] + Others(s) && i < |Others(d)|
    requires forall k :: 0 <= k < 3 ==> SameStacks(s.heap[k], d.heap[k])
    ensures SameView(s, d, Others(d)[i])
  {
    var c := Others(d)[i];
    forall k | 0 <= k < 3
      ensures Points(s.heap[k], c.head[k]) && Points(d.heap[k], c.head[k]) && View(d, c, k) == View(s, c, k)
    {
      HeadIn(Others(d), k, i);
      if c.head[k].Some? {
        assert c.head[k].value in Heads(Others(d), k) + CurHead(d, k);
        if i > 0 { HeadIn(Others(s), k, i - 1); }
        assert c.head[k].value in Heads(Others(s), k) + CurHead(s, k);
      }
      StackKept(s.heap[k], d.heap[k], c.head[k]);
    }
  }

  /** The original becomes the current configuration again, the copy the head of work. */
  function Swap(s: Parse): Parse
    requires s.cur.Some? && s.work != []
  {
    s.(cur := Some(s.work[0]), work := [s.cur.value] + s.work[1..])
  }

  lemma SwapSound(s: Parse)
    requires PInv(s) && s.cur.Some? && s.work != []
    ensures PInv(Swap(s))
  {
    var d := Swap(s);
    var rest := s.work[1..] + s.ok + Opt(s.found);
    assert Others(s) == [s.work[0]] + rest;
    assert Others(d) == [s.cur.value] + rest;
    assert Shaped(rest) by { assert forall i :: 0 <= i < |rest| ==> rest[i] == Others(s)[i + 1]; }
    assert |s.work[0].head| == 3 by { assert Others(s)[0] == s.work[0]; }
    forall k | 0 <= k < 3 ensures Inv(d.heap[k], Heads(Others(d), k) + CurHead(d, k)) {
      HeadsAppend([s.work[0]], rest, k);
      HeadsAppend([s.cur.value], rest, k);
      HeadsOne(s.work[0], k);
      HeadsOne(s.cur.value, k);
      assert Heads(Others(d), k) + CurHead(d, k) == Heads(Others(s), k) + CurHead(s, k);
    }
  }

  ghost predicate FreshAddrs(h: Heap<int>, addrs: seq<nat>) {
    && (forall i :: 0 <= i < |addrs| ==> addrs[i] !in h)
    && (forall i, j :: 0 <= i < j < |addrs| ==> addrs[i] != addrs[j])
  }

  /** for (i = n; i > 0; i--) addbuflist (&q->bufhead, tmp[i - 1]) */
  function PushTmp(s: Parse, tmp: seq<int>, addrs: seq<nat>): Parse
    requires PInv(s) && s.cur.Some? && |addrs| == |tmp| && FreshAddrs(s.heap[BUF], addrs)
    decreases |tmp|
  {
    if tmp == [] then s
    else
      var n := |tmp| - 1;
      PushStep(s, tmp[n], addrs);
      PushTmp(PushCur(s, BUF, tmp[n], addrs[n]), tmp[..n], addrs[..n])
  }

  /** A step of the current configuration that leaves the rest of the parse alone. */
  ghost predicate Kept(s: Parse, d: Parse) {
    && PInv(d) && d.work == s.work && d.ok == s.ok && d.found == s.found && d.cur.Some?
    && Undisturbed(s, d, Others(s))
  }

  lemma KeptTrans(a: Parse, b: Parse, c: Parse)
    requires Kept(a, b) && Kept(b, c)
    ensures Kept(a, c)
  {
    assert Others(a) == Others(b);
    UndisturbedTrans(a, b, c, Others(a));
  }

  lemma PushCurKept(s: Parse, k: nat, v: int, a: nat)
    requires PInv(s) && s.cur.Some? && k < 3 && a !in s.heap[k]
    ensures Kept(s, PushCur(s, k, v, a))
  {
    PushCurSound(s, k, v, a);
  }

  /** The current configuration sees v on its stack of kind k. */
  ghost predicate CurSees(s: Parse, k: nat, v: seq<int>) {
    && |s.heap| == 3 && s.cur.Some? && |s.cur.value.head| == 3 && k < 3
    && View(s, s.cur.value, k) == v
  }

  lemma PushCurView(s: Parse, k: nat, v: int, a: nat, j: nat, w: seq<int>)
    requires PInv(s) && s.cur.Some? && k < 3 && a !in s.heap[k] && CurSees(s, j, w)
    ensures CurSees(PushCur(s, k, v, a), j, if j == k then [v] + w else w)
  {
    if j == k { PushCurSound(s, k, v, a); }
  }

  lemma PushStep(s: Parse, v: int, addrs: seq<nat>)
    requires PInv(s) && s.cur.Some? && addrs != [] && FreshAddrs(s.heap[BUF], addrs)
    ensures var n := |addrs| - 1; var q := PushCur(s, BUF, v, addrs[n]);
      PInv(q) && q.cur.Some? && Kept(s, q) && FreshAddrs(q.heap[BUF], addrs[..n])
  {
    PushCurKept(s, BUF, v, addrs[|addrs| - 1]);
    assert forall i :: 0 <= i < |addrs| - 1 ==> addrs[..|addrs| - 1][i] == addrs[i];
  }

  lemma {:induction false} PushTmpSound(s: Parse, tmp: seq<int>, addrs: seq<nat>)
    requires PInv(s) && s.cur.Some? && |addrs| == |tmp| && FreshAddrs(s.heap[BUF], addrs)
    ensures Kept(s, PushTmp(s, tmp, addrs))
    decreases |tmp|
  {
    if tmp == [] {
      KeepsOthers(s, s);
    } else {
      var n := |tmp| - 1;
      PushStep(s, tmp[n], addrs);
      var q := PushCur(s, BUF, tmp[n], addrs[n]);
      PushTmpSound(q, tmp[..n], addrs[..n]);
      KeptTrans(s, q, PushTmp(q, tmp[..n], addrs[..n]));
    }
  }

  lemma TopLast(tmp: seq<int>, w: seq<int>)
    requires tmp != []
    ensures tmp[..|tmp| - 1] + ([tmp[|tmp| - 1]] + w) == tmp + w
  {
  }

  /** Pushing tmp puts it on top of the buffer stack, first element uppermost. */
  lemma {:induction false} PushTmpView(s: Parse, tmp: seq<int>, addrs: seq<nat>, j: nat, w: seq<int>)
    requires PInv(s) && s.cur.Some? && |addrs| == |tmp| && FreshAddrs(s.heap[BUF], addrs) && CurSees(s, j, w)
    ensures CurSees(PushTmp(s, tmp, addrs), j, if j == BUF then tmp + w else w)
    decreases |tmp|
  {
    if tmp == [] {
      assert tmp + w == w;
    } else {
      var n := |tmp| - 1;
      var q := PushCur(s, BUF, tmp[n], addrs[n]);
      var u := if j == BUF then [tmp[n]] + w else w;
      assert CurSees(q, j, u) by { PushCurView(s, BUF, tmp[n], addrs[n], j, w); }
      PushStep(s, tmp[n], addrs);
      PushTmpView(q, tmp[..n], addrs[..n], j, u);
      TopLast(tmp, w);
    }
  }

  /** Does the copy need a new path entry? */
  predicate NewPath(s: Parse)
    requires s.cur.Some? && |s.heap| == 3 && |s.cur.value.head| == 3 && Points(s.heap[PATH], s.cur.value.head[PATH])
  {
    var p := s.cur.value.head[PATH];
    p.None? || s.heap[PATH][p.value].val != s.cur.value.element
  }

  /** addbufsub, second half, on the copy: perhaps a path entry and its OK, then tmp. */
  function Expand(s: Parse, tmp: seq<int>, pa: nat, addrs: seq<nat>): Parse
    requires PInv(s) && s.cur.Some? && |addrs| == |tmp| + 1 && pa !in s.heap[PATH] && FreshAddrs(s.heap[BUF], addrs)
  {
    CurLive(s, PATH);
    if NewPath(s) then
      PathStep(s, pa, addrs);
      PushTmp(PushCur(s, PATH, s.cur.value.element, pa), tmp + [OK], addrs)
    else PushTmp(s, tmp, addrs[..|tmp|])
  }

  /** addbufsub */
  function Fork(s: Parse, tmp: seq<int>, pa: nat, addrs: seq<nat>): Parse
    requires PInv(s) && s.cur.Some? && |addrs| == |tmp| + 1 && pa !in s.heap[PATH] && FreshAddrs(s.heap[BUF], addrs)
  {
    CopySound(s);
    CopyKeys(s);
    ExpandSound(Copy(s), tmp, pa, addrs);
    Swap(Expand(Copy(s), tmp, pa, addrs))
  }

  lemma CopyKeys(s: Parse)
    requires PInv(s) && s.cur.Some?
    ensures forall k :: 0 <= k < 3 ==> Copy(s).heap[k].Keys == s.heap[k].Keys
  {
    forall k | 0 <= k < 3 ensures Copy(s).heap[k].Keys == s.heap[k].Keys {
      CurLive(s, k);
      ShareSound(s.heap[k], Heads(Others(s), k) + CurHead(s, k), s.cur.value.head[k]);
    }
  }

  lemma PathStep(s: Parse, pa: nat, addrs: seq<nat>)
    requires PInv(s) && s.cur.Some? && pa !in s.heap[PATH] && FreshAddrs(s.heap[BUF], addrs)
    ensures var q := PushCur(s, PATH, s.cur.value.element, pa);
      PInv(q) && q.cur.Some? && Kept(s, q) && FreshAddrs(q.heap[BUF], addrs)
  {
    PushCurKept(s, PATH, s.cur.value.element, pa);
  }

  lemma ExpandSound(s: Parse, tmp: seq<int>, pa: nat, addrs: seq<nat>)
    requires PInv(s) && s.cur.Some? && |addrs| == |tmp| + 1 && pa !in s.heap[PATH] && FreshAddrs(s.heap[BUF], addrs)
    ensures Kept(s, Expand(s, tmp, pa, addrs))
  {
    CurLive(s, PATH);
    if NewPath(s) {
      var q := PushCur(s, PATH, s.cur.value.element, pa);
      PathStep(s, pa, addrs);
      PushTmpSound(q, tmp + [OK], addrs);
      KeptTrans(s, q, PushTmp(q, tmp + [OK], addrs));
    } else {
      PushTmpSound(s, tmp, addrs[..|tmp|]);
    }
  }

  /** What the expansion pushes on each stack. */
  function Pushed(isNew: bool, element: int, tmp: seq<int>, k: nat): seq<int> {
    if k == PATH then (if isNew then [element] else [])
    else if k == BUF then tmp + (if isNew then [OK] else [])
    else []
  }

  lemma PushedAbove(el: int, tmp: seq<int>, j: nat, w: seq<int>)
    ensures (if j == BUF then (tmp + [OK]) + w else if j == PATH then [el] + w else w) == Pushed(true, el, tmp, j) + w
    ensures (if j == BUF then tmp + w else w) == Pushed(false, el, tmp, j) + w
  {
    assert [] + w == w && tmp + [] == tmp;
  }

  lemma ExpandView(s: Parse, tmp: seq<int>, pa: nat, addrs: seq<nat>, j: nat, w: seq<int>)
    requires PInv(s) && s.cur.Some? && |addrs| == |tmp| + 1 && pa !in s.heap[PATH] && FreshAddrs(s.heap[BUF], addrs)
    requires CurSees(s, j, w)
    ensures Points(s.heap[PATH], s.cur.value.head[PATH])
    ensures CurSees(Expand(s, tmp, pa, addrs), j, Pushed(NewPath(s), s.cur.value.element, tmp, j) + w)
  {
    CurLive(s, PATH);
    var el := s.cur.value.element;
    if NewPath(s) {
      var q := PushCur(s, PATH, el, pa);
      var u := if j == PATH then [el] + w else w;
      assert CurSees(q, j, u) by { PushCurView(s, PATH, el, pa, j, w); }
      PathStep(s, pa, addrs);
      PushTmpView(q, tmp + [OK], addrs, j, u);
    } else {
      PushTmpView(s, tmp, addrs[..|tmp|], j, w);
    }
    PushedAbove(el, tmp, j, w);
  }

  lemma CopiedCur(s: Parse)
    requires PInv(s) && s.cur.Some?
    ensures PInv(Copy(s))
    ensures forall k :: 0 <= k < 3 ==> View(Copy(s), s.cur.value, k) == View(s, s.cur.value, k)
    ensures Points(s.heap[PATH], s.cur.value.head[PATH]) && Points(Copy(s).heap[PATH], s.cur.value.head[PATH])
    ensures NewPath(Copy(s)) == NewPath(s)
  {
    CopySound(s);
    CurLive(s, PATH);
    assert SameView(s, Copy(s), Others(Copy(s))[0]);
  }

  /** Forking leaves the current configuration and all others as they are. */
  lemma ForkSound(s: Parse, tmp: seq<int>, pa: nat, addrs: seq<nat>)
    requires PInv(s) && s.cur.Some? && |addrs| == |tmp| + 1 && pa !in s.heap[PATH] && FreshAddrs(s.heap[BUF], addrs)
    ensures var d := Fork(s, tmp, pa, addrs);
      && PInv(d) && d.cur == s.cur && |d.work| == |s.work| + 1 && d.work[1..] == s.work
      && d.ok == s.ok && d.found == s.found && Undisturbed(s, d, [s.cur.value] + Others(s))
  {
    CopySound(s);
    CopyKeys(s);
    var c := Copy(s);
    ExpandSound(c, tmp, pa, addrs);
    var e := Expand(c, tmp, pa, addrs);
    SwapSound(e);
    UndisturbedTrans(s, c, e, Others(c));
    SameHeap(s, e, Swap(e), Others(c));
  }

  lemma SameHeap(s: Parse, e: Parse, d: Parse, cs: seq<Config>)
    requires Undisturbed(s, e, cs) && d.heap == e.heap
    ensures Undisturbed(s, d, cs)
  {
    forall i | 0 <= i < |cs| ensures SameView(s, d, cs[i]) {
      assert SameView(s, e, cs[i]);
    }
  }

  /** A new path entry is needed unless the element is on top of the path already. */
  lemma NewPathIs(s: Parse)
    requires PInv(s) && s.cur.Some?
    ensures Points(s.heap[PATH], s.cur.value.head[PATH])
    ensures var v := View(s, s.cur.value, PATH); NewPath(s) <==> v == [] || v[0] != s.cur.value.element
  {
    CurLive(s, PATH);
  }

  /** The new configuration at the head of work sees the expansion on top of the stacks of
      the one it was forked from, and with it the element and its OK unless the element is on top of
      the path already. */
  lemma ForkView(s: Parse, tmp: seq<int>, pa: nat, addrs: seq<nat>, j: nat)
    requires PInv(s) && s.cur.Some? && |addrs| == |tmp| + 1 && pa !in s.heap[PATH] && FreshAddrs(s.heap[BUF], addrs)
    requires j < 3
    ensures var path, el := View(s, s.cur.value, PATH), s.cur.value.element;
      Sees(Fork(s, tmp, pa, addrs), j, Pushed(path == [] || path[0] != el, el, tmp, j) + View(s, s.cur.value, j))
  {
    NewPathIs(s);
    CopiedCur(s);
    CopyKeys(s);
    ExpandView(Copy(s), tmp, pa, addrs, j, View(s, s.cur.value, j));
    ExpandSound(Copy(s), tmp, pa, addrs);
    SwapView(Expand(Copy(s), tmp, pa, addrs), j);
  }

  /** The configuration at the head of work sees v on its stack of kind k. */
  ghost predicate Sees(s: Parse, k: nat, v: seq<int>) {
    |s.heap| == 3 && s.work != [] && |s.work[0].head| == 3 && k < 3 && View(s, s.work[0], k) == v
  }

  lemma SwapView(e: Parse, j: nat)
    requires e.cur.Some? && e.work != [] && |e.heap| == 3 && |e.cur.value.head| == 3 && j < 3
    ensures Sees(Swap(e), j, View(e, e.cur.value, j))
  {
  }

  // ------------------------------------------------------------- the work lists

  /** getbuf: the next configuration, starting over with the ok list when work is empty. */
  function Take(s: Parse): Parse
    requires s.cur.None?
  {
    var q := if s.work == [] then s.(work := s.ok, ok := []) else s;
    if q.work == [] then q else q.(cur := Some(q.work[0]), work := q.work[1..])
  }

  /** ok: the current configuration waits for the next byte. */
  function Accept(s: Parse): Parse
    requires s.cur.Some?
  {
    s.(ok := [s.cur.value] + s.ok, cur := None)
  }

  /** r = d->cur */
  function Result(s: Parse): Parse
    requires s.cur.Some? && s.found.None?
  {
    s.(found := s.cur, cur := None)
  }

  /** parser: the result is taken up again to be freed. */
  function Reclaim(s: Parse): Parse
    requires s.cur.None?
  {
    s.(cur := s.found, found := None)
  }

  /** The same configurations, differently arranged. */
  lemma Rearrange(s: Parse, d: Parse)
    requires PInv(s) && d.heap == s.heap && Shaped(Others(d)) && (d.cur.Some? ==> |d.cur.value.head| == 3)
    requires forall k :: 0 <= k < 3 ==> Heads(Others(d), k) + CurHead(d, k) == Heads(Others(s), k) + CurHead(s, k)
    ensures PInv(d)
  {
  }

  lemma TakeSound(s: Parse)
    requires PInv(s) && s.cur.None?
    ensures PInv(Take(s))
  {
    var q := if s.work == [] then s.(work := s.ok, ok := []) else s;
    assert Others(q) == Others(s);
    var d := Take(s);
    if q.work != [] {
      assert Others(q) == [q.work[0]] + Others(d);
      assert Shaped(Others(d)) by { assert forall i :: 0 <= i < |Others(d)| ==> Others(d)[i] == Others(q)[i + 1]; }
      assert |q.work[0].head| == 3 by { assert Others(q)[0] == q.work[0]; }
      forall k | 0 <= k < 3 ensures Heads(Others(d), k) + CurHead(d, k) == Heads(Others(s), k) + CurHead(s, k) {
        HeadsAppend([q.work[0]], Others(d), k);
        HeadsOne(q.work[0], k);
      }
    } else {
      assert Others(d) == Others(s);
    }
    Rearrange(s, d);
  }

  /** The current configuration c is put among the others, after prefix a and before b. */
  lemma PutBack(s: Parse, d: Parse, a: seq<Config>, b: seq<Config>)
    requires PInv(s) && s.cur.Some? && d.cur.None? && d.heap == s.heap
    requires Others(s) == a + b && Others(d) == a + [s.cur.value] + b
    ensures PInv(d)
  {
    var c := s.cur.value;
    assert Shaped(a) by { assert forall i :: 0 <= i < |a| ==> a[i] == Others(s)[i]; }
    assert Shaped(b) by { assert forall i :: 0 <= i < |b| ==> b[i] == Others(s)[|a| + i]; }
    forall k | 0 <= k < 3 ensures Heads(Others(d), k) + CurHead(d, k) == Heads(Others(s), k) + CurHead(s, k) {
      HeadsAppend(a, b, k);
      HeadsAppend(a, [c], k);
      HeadsAppend(a + [c], b, k);
      HeadsOne(c, k);
    }
    Rearrange(s, d);
  }

  lemma AcceptSound(s: Parse)
    requires PInv(s) && s.cur.Some?
    ensures PInv(Accept(s))
  {
    var d := Accept(s);
    assert Others(d) == s.work + [s.cur.value] + (s.ok + Opt(s.found));
    PutBack(s, d, s.work, s.ok + Opt(s.found));
  }

  lemma ResultSound(s: Parse)
    requires PInv(s) && s.cur.Some? && s.found.None?
    ensures PInv(Result(s))
  {
    PutBack(s, Result(s), s.work + s.ok, []);
  }

  lemma ReclaimSound(s: Parse)
    requires PInv(s) && s.cur.None?
    ensures PInv(Reclaim(s))
  {
    var d := Reclaim(s);
    if s.found.Some? {
      assert Others(s) == Others(d) + [s.found.value];
      assert Shaped(Others(d)) by { assert forall i :: 0 <= i < |Others(d)| ==> Others(d)[i] == Others(s)[i]; }
      assert |s.found.value.head| == 3 by { assert Others(s)[|Others(d)|] == s.found.value; }
      forall k | 0 <= k < 3 ensures Heads(Others(d), k) + CurHead(d, k) == Heads(Others(s), k) + CurHead(s, k) {
        HeadsAppend(Others(d), [s.found.value], k);
        HeadsOne(s.found.value, k);
      }
    } else {
      assert Others(d) == Others(s);
    }
    Rearrange(s, d);
  }

  // ------------------------------------------------------------- runs

  datatype Event =
    | TakeEv                                            // getbuf
    | PopEv(k: nat)                                     // loop2, OK, poppkgend
    | SetElement(e: int)                                // d->cur->pathelement = element
    | PushLimitEv(v: int, a: nat)                       // pushpkgend
    | ForkEv(tmp: seq<int>, pa: nat, addrs: seq<nat>)   // addbufsub
    | AcceptEv                                          // ok
    | ErrEv                                             // err
    | ResultEv                                          // r = d->cur
    | ReclaimEv                                         // parser, freeing r

  ghost predicate Enabled(s: Parse, e: Event)
    requires PInv(s)
  {
    match e
    case TakeEv => s.cur.None?
    case PopEv(k) => s.cur.Some? && k < 3 && s.cur.value.head[k].Some?
    case SetElement(_) => s.cur.Some?
    case PushLimitEv(_, a) => s.cur.Some? && a !in s.heap[LIMIT]
    case ForkEv(tmp, pa, addrs) =>
      s.cur.Some? && |addrs| == |tmp| + 1 && pa !in s.heap[PATH] && FreshAddrs(s.heap[BUF], addrs)
    case AcceptEv => s.cur.Some?
    case ErrEv => s.cur.Some?
    case ResultEv => s.cur.Some? && s.found.None?
    case ReclaimEv => s.cur.None?
  }

  ghost function Next(s: Parse, e: Event): Parse
    requires PInv(s)
  {
    if !Enabled(s, e) then s
    else match e
      case TakeEv => Take(s)
      case PopEv(k) => PopCur(s, k)
      case SetElement(el) => s.(cur := Some(s.cur.value.(element := el)))
      case PushLimitEv(v, a) => PushCur(s, LIMIT, v, a)
      case ForkEv(tmp, pa, addrs) => Fork(s, tmp, pa, addrs)
      case AcceptEv => Accept(s)
      case ErrEv => DropCur(s)
      case ResultEv => Result(s)
      case ReclaimEv => Reclaim(s)
  }

  lemma NextSound(s: Parse, e: Event)
    requires PInv(s)
    ensures PInv(Next(s, e))
  {
    if Enabled(s, e) {
      match e
      case TakeEv => TakeSound(s);
      case PopEv(k) => PopCurSound(s, k);
      case SetElement(el) =>
        Rearrange(s, Next(s, e));
      case PushLimitEv(v, a) => PushCurSound(s, LIMIT, v, a);
      case ForkEv(tmp, pa, addrs) => ForkSound(s, tmp, pa, addrs);
      case AcceptEv => AcceptSound(s);
      case ErrEv => DropCurSound(s);
      case ResultEv => ResultSound(s);
      case ReclaimEv => ReclaimSound(s);
    }
  }

  ghost function Run(s: Parse, es: seq<Event>): (d: Parse)
    requires PInv(s)
    ensures PInv(d)
    decreases |es|
  {
    if es == [] then s
    else
      NextSound(s, es[0]);
      Run(Next(s, es[0]), es[1..])
  }

  /** parser: one configuration with AML_AMLCode on its buffer stack. */
  function Start(code: int, a: nat): Parse {
    Parse([Config([None, Some(a), None], OK)], None, [], None, [map[], map[a := Node(code, None, 1, 0)], map[]])
  }

  lemma StartSound(code: int, a: nat)
    ensures PInv(Start(code, a))
  {
    var s := Start(code, a);
    var c := s.work[0];
    assert Others(s) == [c];
    forall k | 0 <= k < 3 ensures Inv(s.heap[k], Heads(Others(s), k) + CurHead(s, k)) {
      HeadsOne(c, k);
      if k == 1 { assert Preds(s.heap[1], a) == {}; }
    }
  }

  /** In every run each node's count is the number of heads and next pointers to it; and
      when no configuration is left, no node is. */
  lemma RunSound(code: int, a: nat, es: seq<Event>)
    ensures PInv(Start(code, a))
    ensures var s := Run(Start(code, a), es);
      && (forall k, n :: 0 <= k < 3 && n in s.heap[k] ==>
            s.heap[k][n].ref == (Heads(Others(s), k) + CurHead(s, k))[n] + |Preds(s.heap[k], n)|)
      && (s.work == [] && s.ok == [] && s.cur.None? && s.found.None? ==> s.heap == [map[], map[], map[]])
  {
    StartSound(code, a);
    var s := Run(Start(code, a), es);
    if s.work == [] && s.ok == [] && s.cur.None? && s.found.None? {
      assert Others(s) == [];
      forall k | 0 <= k < 3 ensures s.heap[k] == map[] {
        assert Heads(Others(s), k) + CurHead(s, k) == multiset{};
        NoLeak(s.heap[k]);
      }
    }
  }

  // ------------------------------------------------------------- one byte at a time

  /** getbuf finds no work left: the next byte is read. */
  predicate StartsOver(s: Parse, e: Event) {
    e.TakeEv? && s.cur.None? && s.work == []
  }

  ghost predicate EndsWith(xs: seq<Config>, ys: seq<Config>) {
    |ys| <= |xs| && xs[|xs| - |ys|..] == ys
  }

  /** An accepted configuration goes to the ok list and not back to work; it leaves that list only
      when no work is left, and then all of them become work. */
  lemma StepWaits(s: Parse, e: Event)
    requires PInv(s)
    ensures !StartsOver(s, e) ==> EndsWith(Next(s, e).ok, s.ok)
    ensures StartsOver(s, e) ==> var d := Next(s, e); d.ok == [] && Opt(d.cur) + d.work == s.ok
    ensures e.AcceptEv? && s.cur.Some? ==> var d := Next(s, e); d.ok == [s.cur.value] + s.ok && d.work == s.work && d.cur.None?
    ensures e.TakeEv? && s.cur.None? && s.work != [] ==> var d := Next(s, e); d.ok == s.ok && Opt(d.cur) + d.work == s.work
  {
    if Enabled(s, e) {
      match e
      case TakeEv => TakenFirst(s);
      case PopEv(k) => PopCurSound(s, k);
      case ForkEv(tmp, pa, addrs) => ForkSound(s, tmp, pa, addrs);
      case ErrEv => DropCurSound(s);
      case _ =>
    }
  }

  lemma TakenFirst(s: Parse)
    requires s.cur.None?
    ensures var d := Take(s); if s.work == [] then d.ok == [] && Opt(d.cur) + d.work == s.ok else d.ok == s.ok && Opt(d.cur) + d.work == s.work
  {
  }

  /** No step of the run starts over. */
  ghost predicate SameByte(s: Parse, es: seq<Event>)
    requires PInv(s)
    decreases |es|
  {
    es == [] || (!StartsOver(s, es[0]) && PInv(Next(s, es[0])) && SameByte(Next(s, es[0]), es[1..]))
  }

  /** While one byte is read, what was accepted for it waits: no configuration reads it twice. */
  lemma {:induction false} RunWaits(s: Parse, es: seq<Event>)
    requires PInv(s) && SameByte(s, es)
    ensures EndsWith(Run(s, es).ok, s.ok)
    decreases |es|
  {
    if es != [] {
      StepWaits(s, es[0]);
      NextSound(s, es[0]);
      RunWaits(Next(s, es[0]), es[1..]);
      EndsTwice(Run(s, es).ok, Next(s, es[0]).ok, s.ok);
    }
  }

  lemma EndsTwice(xs: seq<Config>, ys: seq<Config>, zs: seq<Config>)
    requires EndsWith(xs, ys) && EndsWith(ys, zs)
    ensures EndsWith(xs, zs)
  {
    forall i | 0 <= i < |zs| ensures xs[|xs| - |zs| + i] == zs[i] {
      assert ys[|ys| - |zs|..][i] == ys[|ys| - |zs| + i] == xs[|xs| - |ys|..][|ys| - |zs| + i];
    }
  }
}
