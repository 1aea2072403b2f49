/** Runs of alloc, free and realloc (mm.c): what every pointer that a caller holds keeps. */
module TierRuns {
  import opened Lists
  import opened Pow2
  import opened Buddy
  import opened BuddyCont
  import opened BuddyKeeps
  import opened Sizing
  import opened Tiers
  import opened TierAlloc

  /** The heap, and the pointers callers hold with the lengths they asked for. The pointer of a
      two-part allocation is that of its first block. */
  datatype State = State(t: Heap, own: map<Unit, nat>)

  // ------------------------------------------------------------- pointers

  function Partner(s: Mem, p: nat): nat
    requires p < |s.ord|
  {
    p + Pow(s.ord[p])
  }

  /** Block p and its partner are the two parts of one allocation. */
  ghost predicate Paired(s: Mem, p: nat) {
    && p < |s.ord| == |s.typ| && Partner(s, p) < |s.ord|
    && ContAt(s, p, s.ord[p], s.ord[Partner(s, p)])
  }

  /** A live unit that alloc can have returned. */
  ghost predicate Whole(t: Heap, u: Unit) {
    && Placed(t, u) && |t.pages.ord| == |t.pages.typ|
    && (u.Block? ==> t.pages.typ[u.p] == Allocated || Paired(t.pages, u.p))
  }

  /** Bytes of the allocation, both parts together. */
  ghost function Bytes(t: Heap, u: Unit): nat
    requires Whole(t, u)
  {
    if u.Block? && Paired(t.pages, u.p) then Len(t, u) + Len(t, Block(Partner(t.pages, u.p))) else Len(t, u)
  }

  /** A pointer that is held is whole, has the size that its request gets, and its second part is
      not held by anyone else. */
  ghost predicate HeldOk(s: State, u: Unit) {
    && u in s.own && Whole(s.t, u) && Accepted(s.own[u]) && Bytes(s.t, u) == ActualSize(s.own[u])
    && (u.Block? && Paired(s.t.pages, u.p) ==> Block(Partner(s.t.pages, u.p)) !in s.own)
  }

  ghost predicate SInv(s: State) {
    HInv(s.t) && forall u :: u in s.own ==> HeldOk(s, u)
  }

  /** get_alloc_len gives that size. */
  lemma LenIs(t: Heap, u: Unit)
    requires HInv(t) && Whole(t, u)
    ensures AllocLen(t, Start(t, u)) == Bytes(t, u)
  {
    ClassifyExact(t, u);
    if u.TinyUnit? { InSlot(t, u); }
  }

  /** A step that disturbs nothing leaves a pointer that is still live as it was. */
  lemma Survives(t: Heap, d: Heap, u: Unit)
    requires Whole(t, u) && SameSizes(t, d) && Kept(t, d) && |d.pages.ord| == |d.pages.typ|
    requires Placed(d, u) && (u.Block? && Paired(t.pages, u.p) ==> Live(d, Block(Partner(t.pages, u.p))))
    ensures Whole(d, u) && Bytes(d, u) == Bytes(t, u) && Start(d, u) == Start(t, u)
    ensures u.Block? ==> d.pages.ord[u.p] == t.pages.ord[u.p] && (Paired(d.pages, u.p) <==> Paired(t.pages, u.p))
  {
    if u.Block? && Paired(t.pages, u.p) {
      var q := Partner(t.pages, u.p);
      assert Placed(t, Block(q)) && Placed(d, Block(q));
      assert d.pages.ord[q] == t.pages.ord[q];
    }
  }

  // ------------------------------------------------------------- alloc

  function Pointer(a: Allocation): Unit
    requires !a.OutOfMemory?
  {
    if a.Got? then a.u else Block(a.p)
  }

  /** alloc returns a whole pointer of the size get_actual_allocate_size gives. */
  lemma AllocWhole(t: Heap, len: nat)
    requires HInv(t) && !AllocBytes(t, len).OutOfMemory?
    ensures var a := AllocBytes(t, len); var u := Pointer(a);
      && HInv(a.t) && Undisturbed(t, a.t) && Whole(a.t, u) && Bytes(a.t, u) == ActualSize(len)
      && !Live(t, u) && (forall v :: Live(t, v) ==> Live(a.t, v)) && Accepted(len)
      && (u.Block? && Paired(a.t.pages, u.p) ==> !Live(t, Block(Partner(a.t.pages, u.p))))
  {
    AllocBytesSound(t, len);
    var a := AllocBytes(t, len);
    PagesKind(t, len);
    match a
    case Got(d, u) =>
    case GotTwo(d, p, q) => assert Paired(d.pages, p) && Partner(d.pages, p) == q;
  }

  lemma PagesKind(t: Heap, len: nat)
    requires HInv(t) && !AllocBytes(t, len).OutOfMemory?
    ensures Accepted(len)
    ensures var a := AllocBytes(t, len);
      && (a.Got? && a.u.Block? ==> a.u.p < |a.t.pages.typ| && a.t.pages.typ[a.u.p] == Allocated)
      && (a.GotTwo? ==> Paired(a.t.pages, a.p) && a.q == Partner(a.t.pages, a.p))
  {
    if SmallIndex(len) < 0 {
      PagesKindOf(t, PagesSize((len + 4095) / 4096));
    } else if SmallIndex(len) == 0 && TinyIndex(len) >= 0 {
      TinyAllocSound(t, TinyIndex(len));
    }
  }

  lemma PagesKindOf(t: Heap, c: Choice)
    requires HInv(t) && !PagesAlloc(t, c).OutOfMemory?
    ensures var a := PagesAlloc(t, c);
      && (a.Got? && a.u.Block? ==> a.u.p < |a.t.pages.typ| && a.t.pages.typ[a.u.p] == Allocated)
      && (a.GotTwo? ==> Paired(a.t.pages, a.p) && a.q == Partner(a.t.pages, a.p))
  {
    match c
    case One(i) => AllocSound(t.pages, i);
    case Two(i, j) => PairKind(t.pages, i, j);
  }

  lemma PairKind(s: Mem, i: nat, j: nat)
    requires Inv(s, {}) && i < |s.freeL| && j <= i && AllocCont(s, i, j).1.Some?
    ensures var (m, p) := AllocCont(s, i, j); Paired(m, p.value) && Partner(m, p.value) == p.value + Pow(i)
  {
    var m, p, q := TwoPages(s, i, j);
  }

  datatype Step = Ok(s: State, u: Unit) | Gone(s: State) | OutOfMemory | AssertFailed

  /** alloc */
  ghost function AllocStep(s: State, len: nat): Step
    requires SInv(s)
  {
    var a := AllocBytes(s.t, len);
    if a.OutOfMemory? then Step.OutOfMemory else Ok(State(a.t, s.own[Pointer(a) := len]), Pointer(a))
  }

  /** Nothing that was held and is not u has moved, changed its size or its owner. */
  ghost predicate OthersKept(s: State, d: State, u: Unit) {
    forall v :: v in s.own && v != u ==> Same(s, d, v)
  }

  ghost predicate Same(s: State, d: State, v: Unit) {
    && v in s.own && v in d.own && d.own[v] == s.own[v] && Whole(s.t, v) && Whole(d.t, v)
    && Start(d.t, v) == Start(s.t, v) && Bytes(d.t, v) == Bytes(s.t, v)
  }

  lemma AllocKeeps(s: State, len: nat)
    requires SInv(s) && AllocStep(s, len).Ok?
    ensures var r := AllocStep(s, len);
      && SInv(r.s) && r.u !in s.own && r.u in r.s.own && r.s.own == s.own[r.u := len] && OthersKept(s, r.s, r.u)
  {
    var r := AllocStep(s, len);
    AllocWhole(s.t, len);
    forall v | v in s.own ensures v != r.u && HeldOk(r.s, v) && Same(s, r.s, v) {
      assert HeldOk(s, v);
      LivePlaced(r.s.t, v);
      AllocKeepsOne(s, r.s, r.u, v);
    }
    NewHeld(s, r.s, r.u);
  }

  lemma NewHeld(s: State, d: State, u: Unit)
    requires (forall v :: v in s.own ==> HeldOk(s, v)) && u in d.own && d.own == s.own[u := d.own[u]]
    requires Whole(d.t, u) && Bytes(d.t, u) == ActualSize(d.own[u]) && Accepted(d.own[u])
    requires u.Block? && Paired(d.t.pages, u.p) ==> !Live(s.t, Block(Partner(d.t.pages, u.p)))
    ensures HeldOk(d, u)
  {
    assert forall v :: v in s.own ==> Live(s.t, v);
  }

  lemma AllocKeepsOne(s: State, d: State, u: Unit, v: Unit)
    requires HeldOk(s, v) && Placed(d.t, v) && |d.t.pages.ord| == |d.t.pages.typ| && Undisturbed(s.t, d.t) && !Live(s.t, u)
    requires u in d.own && d.own == s.own[u := d.own[u]] && forall x :: Live(s.t, x) ==> Live(d.t, x)
    ensures v != u && HeldOk(d, v) && Same(s, d, v)
  {
    PartnerLive(s.t, v);
    Survives(s.t, d.t, v);
    HeldAgain(s, d, v);
  }

  lemma HeldAgain(s: State, d: State, v: Unit)
    requires HeldOk(s, v) && Whole(d.t, v) && Bytes(d.t, v) == Bytes(s.t, v) && Start(d.t, v) == Start(s.t, v)
    requires v in d.own && d.own[v] == s.own[v]
    requires v.Block? && Paired(d.t.pages, v.p) ==>
      && Paired(s.t.pages, v.p) && d.t.pages.ord[v.p] == s.t.pages.ord[v.p] && Block(Partner(s.t.pages, v.p)) !in d.own
    ensures HeldOk(d, v) && Same(s, d, v)
  {
  }

  lemma PartnerLive(t: Heap, u: Unit)
    requires Whole(t, u)
    ensures u.Block? && Paired(t.pages, u.p) ==> Live(t, Block(Partner(t.pages, u.p)))
  {
  }

  lemma LivePlaced(t: Heap, u: Unit)
    requires HInv(t) && Live(t, u)
    ensures Placed(t, u)
  {
    if !u.Block? { InSlot(t, u); }
  }

  // ------------------------------------------------------------- free

  /** The parts of an allocation. */
  ghost function PartsOf(t: Heap, u: Unit): set<Unit>
    requires Whole(t, u)
  {
    if u.Block? && Paired(t.pages, u.p) then {u, Block(Partner(t.pages, u.p))} else {u}
  }

  /** free of a whole pointer succeeds and ends the life of exactly its parts. */
  lemma FreeWhole(t: Heap, u: Unit) returns (d: Heap)
    requires HInv(t) && Whole(t, u)
    ensures FreeBytes(t, Start(t, u)) == Done(d) && HInv(d) && Undisturbed(t, d)
    ensures Ended(t, d, PartsOf(t, u))
  {
    if u.Block? && Paired(t.pages, u.p) {
      d := FreeWholePair(t, u.p);
    } else {
      d := FreeOne(t, u);
    }
  }

  /** Exactly these units are no longer live. */
  ghost predicate Ended(t: Heap, d: Heap, us: set<Unit>) {
    forall v :: Live(d, v) <==> Live(t, v) && v !in us
  }

  lemma FreeOne(t: Heap, u: Unit) returns (d: Heap)
    requires HInv(t) && Placed(t, u) && (u.Block? ==> t.pages.typ[u.p] == Allocated)
    ensures FreeBytes(t, Start(t, u)) == Done(d) && HInv(d) && Undisturbed(t, d)
    ensures Ended(t, d, {u})
  {
    FreeExact(t, u);
    d := FreeBytes(t, Start(t, u)).t;
  }

  lemma FreeWholePair(t: Heap, p: nat) returns (d: Heap)
    requires HInv(t) && Paired(t.pages, p)
    ensures Placed(t, Block(p)) && FreeBytes(t, Start(t, Block(p))) == Done(d) && HInv(d) && Undisturbed(t, d)
    ensures Ended(t, d, {Block(p), Block(Partner(t.pages, p))})
  {
    d := FreeBoth(t, p, t.pages.ord[p], t.pages.ord[Partner(t.pages, p)], Partner(t.pages, p));
  }

  lemma FreeBoth(t: Heap, p: nat, n: nat, m: nat, q: nat) returns (d: Heap)
    requires HInv(t) && ContAt(t.pages, p, n, m) && q == p + Pow(n)
    ensures Placed(t, Block(p)) && FreeBytes(t, Start(t, Block(p))) == Done(d) && HInv(d) && Undisturbed(t, d)
    ensures Ended(t, d, {Block(p), Block(q)})
  {
    ContFacts(t.pages, p, n, m, q);
    var s := FreedPair(t.pages, p, n, m, q);
    d := PairFreed(t, s, p, q);
    EndedTwo(t, d, p, q);
  }

  lemma EndedTwo(t: Heap, d: Heap, p: nat, q: nat)
    requires AddedTwo(d, t, p, q)
    ensures Ended(t, d, {Block(p), Block(q)})
  {
  }

  /** free, by a holder */
  ghost function FreeStep(s: State, u: Unit): Step
    requires SInv(s) && u in s.own
  {
    assert HeldOk(s, u);
    match FreeBytes(s.t, Start(s.t, u))
    case Done(d) => Gone(State(d, s.own - {u}))
    case Panicked => AssertFailed
  }

  /** The parts of different pointers are different. */
  lemma PartsApart(s: State, u: Unit, v: Unit)
    requires SInv(s) && u in s.own && v in s.own && u != v
    ensures HeldOk(s, u) && HeldOk(s, v) && PartsDiffer(s.t, u, v)
  {
    assert HeldOk(s, u) && HeldOk(s, v);
    if u.Block? && v.Block? && Paired(s.t.pages, u.p) && Paired(s.t.pages, v.p) {
      BlocksApart(s.t.pages, u.p, v.p);
    }
    HeldDiffer(s, u, v);
  }

  ghost predicate PartsDiffer(t: Heap, u: Unit, v: Unit) {
    && Whole(t, u) && Whole(t, v) && v !in PartsOf(t, u)
    && (v.Block? && Paired(t.pages, v.p) ==> Block(Partner(t.pages, v.p)) !in PartsOf(t, u))
  }

  lemma HeldDiffer(s: State, u: Unit, v: Unit)
    requires HeldOk(s, u) && HeldOk(s, v) && u != v
    requires u.Block? && v.Block? && Paired(s.t.pages, u.p) && Paired(s.t.pages, v.p) ==>
      Partner(s.t.pages, u.p) != Partner(s.t.pages, v.p)
    ensures PartsDiffer(s.t, u, v)
  {
  }

  lemma FreeKeeps(s: State, u: Unit)
    requires SInv(s) && u in s.own
    ensures var r := FreeStep(s, u); r.Gone? && SInv(r.s) && r.s.own == s.own - {u} && OthersKept(s, r.s, u)
  {
    assert HeldOk(s, u);
    var d := FreeWhole(s.t, u);
    var r := FreeStep(s, u);
    forall v | v in s.own && v != u ensures HeldOk(r.s, v) && Same(s, r.s, v) {
      PartsApart(s, u, v);
      assert Live(d, v);
      LivePlaced(d, v);
      FreeKeepsOne(s, r.s, u, v);
    }
  }

  lemma FreeKeepsOne(s: State, d: State, u: Unit, v: Unit)
    requires Placed(d.t, v) && |d.t.pages.ord| == |d.t.pages.typ| && Undisturbed(s.t, d.t) && d.own == s.own - {u} && v != u && HeldOk(s, v)
    requires PartsDiffer(s.t, u, v) && Ended(s.t, d.t, PartsOf(s.t, u))
    ensures HeldOk(d, v) && Same(s, d, v)
  {
    PartnerLive(s.t, v);
    Survives(s.t, d.t, v);
    HeldAgain(s, d, v);
  }

  // ------------------------------------------------------------- realloc

  /** alloc followed by free of the old pointer. */
  ghost function MoveStep(s: State, u: Unit, len: nat): Step
    requires SInv(s) && u in s.own
  {
    var a := AllocStep(s, len);
    if !a.Ok? then a
    else
      AllocKeeps(s, len);
      match FreeStep(a.s, u)
      case Gone(d) => Ok(d, a.u)
      case other => other
  }

  /** realloc of a pointer that is held */
  ghost function ReallocStep(s: State, u: Unit, len: nat): Step
    requires SInv(s) && u in s.own
  {
    assert HeldOk(s, u);
    var oldlen := AllocLen(s.t, Start(s.t, u));
    if len == 0 then FreeStep(s, u)
    else if oldlen < 0 then AssertFailed
    else match ReallocPlan(oldlen, len)
      case AssertFails => AssertFailed
      case Keep => Ok(State(s.t, s.own[u := len]), u)
      case Copy(_, _) => MoveStep(s, u, len)
  }

  /** Pointer u was given up for r.u, which is held with length len, or for nothing. */
  ghost predicate Exchanged(s: State, r: Step, u: Unit, len: nat) {
    && !r.AssertFailed?
    && (r.Ok? || r.Gone? ==> SInv(r.s) && OthersKept(s, r.s, u))
    && (r.Gone? ==> r.s.own == s.own - {u})
    && (r.Ok? ==> r.s.own == (s.own - {u})[r.u := len] && (r.u == u || r.u !in s.own))
  }

  /** The assertion in realloc never fails, and no other pointer is disturbed. */
  lemma ReallocKeeps(s: State, u: Unit, len: nat) returns (r: Step)
    requires SInv(s) && u in s.own
    ensures r == ReallocStep(s, u, len) && Exchanged(s, r, u, len) && (r.Gone? <==> len == 0)
  {
    if len == 0 {
      FreeKeeps(s, u);
      r := FreeStep(s, u);
    } else {
      var plan := PlanIs(s, u, len);
      if plan.Keep? {
        RenewKeeps(s, u, len);
        r := Ok(State(s.t, s.own[u := len]), u);
      } else {
        r := MoveKeeps(s, u, len);
      }
    }
  }

  lemma PlanIs(s: State, u: Unit, len: nat) returns (plan: Realloc)
    requires SInv(s) && u in s.own && len > 0
    ensures HeldOk(s, u) && plan == ReallocPlan(Bytes(s.t, u), len) && AllocLen(s.t, Start(s.t, u)) == Bytes(s.t, u)
    ensures plan.Keep? ==> ActualSize(len) == Bytes(s.t, u) && Accepted(len)
    ensures plan.Keep? || plan.Copy?
  {
    assert HeldOk(s, u);
    LenIs(s.t, u);
    Idempotent(s.own[u]);
    plan := ReallocPlan(Bytes(s.t, u), len);
    ReallocSafe(Bytes(s.t, u), len);
    if plan.Keep? { AcceptedActual(len); }
  }

  lemma MoveKeeps(s: State, u: Unit, len: nat) returns (r: Step)
    requires SInv(s) && u in s.own
    ensures r == MoveStep(s, u, len) && Exchanged(s, r, u, len) && !r.Gone?
  {
    r := AllocStep(s, len);
    if r.Ok? {
      AllocKeeps(s, len);
      FreeKeeps(r.s, u);
      var f := FreeStep(r.s, u);
      MovedSo(s, r, f, u, len);
      r := Ok(f.s, r.u);
    }
  }

  lemma MovedSo(s: State, a: Step, f: Step, u: Unit, len: nat)
    requires a.Ok? && f.Gone? && SInv(f.s) && u in s.own && a.u !in s.own && a.s.own == s.own[a.u := len]
    requires f.s.own == a.s.own - {u} && OthersKept(s, a.s, a.u) && OthersKept(a.s, f.s, u)
    ensures Exchanged(s, Ok(f.s, a.u), u, len)
  {
    OthersTrans(s, a.s, f.s, a.u, u);
    OwnMoved(s.own, u, a.u, len);
  }

  lemma OwnMoved(own: map<Unit, nat>, u: Unit, n: Unit, len: nat)
    requires u in own && n !in own
    ensures own[n := len] - {u} == (own - {u})[n := len]
  {
  }

  lemma RenewKeeps(s: State, u: Unit, len: nat)
    requires SInv(s) && u in s.own && Accepted(len) && Bytes(s.t, u) == ActualSize(len)
    ensures Exchanged(s, Ok(State(s.t, s.own[u := len]), u), u, len)
  {
    var d := State(s.t, s.own[u := len]);
    forall v | v in d.own ensures HeldOk(d, v) && (v != u ==> Same(s, d, v)) {
      assert HeldOk(s, v);
      Renewed(s, d, u, v);
    }
    RenewedSo(s, d, u, len);
  }

  lemma Renewed(s: State, d: State, u: Unit, v: Unit)
    requires HeldOk(s, v) && u in s.own && d.t == s.t && u in d.own && d.own == s.own[u := d.own[u]]
    requires v == u ==> Accepted(d.own[u]) && Bytes(s.t, u) == ActualSize(d.own[u])
    ensures HeldOk(d, v) && (v != u ==> Same(s, d, v))
  {
  }

  lemma RenewedSo(s: State, d: State, u: Unit, len: nat)
    requires HInv(d.t) && (forall v :: v in d.own ==> HeldOk(d, v)) && u in s.own && d.own == s.own[u := len]
    requires forall v :: v in s.own && v != u ==> Same(s, d, v)
    ensures Exchanged(s, Ok(d, u), u, len)
  {
    assert d.own == (s.own - {u})[u := len];
  }

  lemma OthersTrans(s: State, a: State, d: State, n: Unit, u: Unit)
    requires OthersKept(s, a, n) && OthersKept(a, d, u) && n !in s.own
    ensures OthersKept(s, d, u)
  {
    forall v | v in s.own && v != u ensures Same(s, d, v) {
      assert Same(s, a, v) && Same(a, d, v);
    }
  }

  // ------------------------------------------------------------- runs

  datatype Event = AllocEv(len: nat) | FreeEv(u: Unit) | ReallocEv(u: Unit, len: nat)

  /** One call; a caller passes only pointers it holds. */
  ghost function Next(s: State, e: Event): Step
    requires SInv(s)
  {
    match e
    case AllocEv(len) => AllocStep(s, len)
    case FreeEv(u) => if u in s.own then FreeStep(s, u) else Gone(s)
    case ReallocEv(u, len) => if u in s.own then ReallocStep(s, u, len) else Gone(s)
  }

  /** The pointer a call gives up. */
  predicate Names(e: Event, u: Unit) {
    match e
    case AllocEv(_) => false
    case FreeEv(x) => x == u
    case ReallocEv(x, _) => x == u
  }

  /** Running out of memory is the end of the VMM; here the state stays. */
  ghost function After(s: State, e: Event): State
    requires SInv(s)
  {
    var r := Next(s, e);
    if r.Ok? || r.Gone? then r.s else s
  }

  lemma NextKeeps(s: State, e: Event, v: Unit)
    requires SInv(s)
    ensures !Next(s, e).AssertFailed? && SInv(After(s, e))
    ensures v in s.own && !Names(e, v) ==> Same(s, After(s, e), v)
  {
    assert v in s.own ==> HeldOk(s, v);
    match e
    case AllocEv(len) => if AllocStep(s, len).Ok? { AllocKeeps(s, len); }
    case FreeEv(u) => if u in s.own { FreeKeeps(s, u); }
    case ReallocEv(u, len) => if u in s.own { var _ := ReallocKeeps(s, u, len); }
  }

  ghost function Run(s: State, es: seq<Event>): (d: State)
    requires SInv(s)
    ensures SInv(d)
    decreases |es|
  {
    if es == [] then s
    else
      NextKeeps(s, es[0], Block(0));
      Run(After(s, es[0]), es[1..])
  }

  /** The page tier after boot: blocks of any kind but small pages. */
  ghost predicate Booted(pages: Mem) {
    Inv(pages, {}) && forall p :: 0 <= p < |pages.typ| ==> pages.typ[p] != Small
  }

  /** The state after boot: no small page, and no pointer held. */
  ghost function Boot(pages: Mem): (s: State)
    requires Booted(pages)
    ensures SInv(s)
  {
    State(Heap(pages, map[], map[], [[], [], [], [], []], [[], [], []]), map[])
  }

  /** In every run of alloc, free and realloc from boot, a pointer that is held has the length
      that its last request gets, free finds its tier, block and piece and would end the life of
      exactly its parts, no realloc of it fails the assertion, and no two pointers share a byte. */
  lemma RunSafe(pages: Mem, es: seq<Event>, u: Unit, v: Unit, len: nat)
    requires Booted(pages) && u in Run(Boot(pages), es).own
    ensures var s := Run(Boot(pages), es);
      && Whole(s.t, u) && AllocLen(s.t, Start(s.t, u)) == ActualSize(s.own[u])
      && Classify(s.t, Start(s.t, u)) == Way(u) && FreeStep(s, u).Gone? && !ReallocStep(s, u, len).AssertFailed?
      && (v in s.own && v != u ==> BytesApart(s.t, u, v))
  {
    var s := Run(Boot(pages), es);
    HeldSafe(s, u, len);
    if v in s.own && v != u { HeldApart(s, u, v); }
  }

  lemma HeldSafe(s: State, u: Unit, len: nat)
    requires SInv(s) && u in s.own
    ensures Whole(s.t, u) && AllocLen(s.t, Start(s.t, u)) == ActualSize(s.own[u])
    ensures Classify(s.t, Start(s.t, u)) == Way(u) && FreeStep(s, u).Gone? && !ReallocStep(s, u, len).AssertFailed?
  {
    assert HeldOk(s, u);
    LenIs(s.t, u);
    ClassifyExact(s.t, u);
    FreeKeeps(s, u);
    var _ := ReallocKeeps(s, u, len);
  }

  /** Two allocations have no byte in common. */
  ghost predicate BytesApart(t: Heap, u: Unit, v: Unit) {
    && Whole(t, u) && Whole(t, v)
    && (Start(t, u) + Bytes(t, u) <= Start(t, v) || Start(t, v) + Bytes(t, v) <= Start(t, u))
  }

  lemma HeldApart(s: State, u: Unit, v: Unit)
    requires SInv(s) && u in s.own && v in s.own && u != v
    ensures BytesApart(s.t, u, v)
  {
    PartsApart(s, u, v);
    PartsApart(s, v, u);
    WholesApart(s.t, u, v);
  }

  lemma WholesApart(t: Heap, u: Unit, v: Unit)
    requires HInv(t) && PartsDiffer(t, u, v) && PartsDiffer(t, v, u)
    ensures BytesApart(t, u, v)
  {
    var us := if u.Block? && Paired(t.pages, u.p) then Block(Partner(t.pages, u.p)) else u;
    var vs := if v.Block? && Paired(t.pages, v.p) then Block(Partner(t.pages, v.p)) else v;
    LastPart(t, u, us);
    LastPart(t, v, vs);
    LiveDisjoint(t, u, v);
    LiveDisjoint(t, us, v);
    LiveDisjoint(t, u, vs);
    LiveDisjoint(t, us, vs);
    FourApart(t, u, us, v, vs);
  }

  /** The last part of an allocation ends where the allocation ends. */
  lemma LastPart(t: Heap, u: Unit, q: Unit)
    requires Whole(t, u) && q == if u.Block? && Paired(t.pages, u.p) then Block(Partner(t.pages, u.p)) else u
    ensures Placed(t, q) && q in PartsOf(t, u) && Ends(t, u, q)
  {
  }

  ghost predicate Ends(t: Heap, u: Unit, q: Unit) {
    && Whole(t, u) && Placed(t, q) && Start(t, u) + Bytes(t, u) == Start(t, q) + Len(t, q)
    && (q == u || Start(t, q) == Start(t, u) + Len(t, u))
  }

  lemma FourApart(t: Heap, u: Unit, us: Unit, v: Unit, vs: Unit)
    requires Ends(t, u, us) && Ends(t, v, vs)
    requires Apart(t, u, v) && Apart(t, us, v) && Apart(t, u, vs) && Apart(t, us, vs)
    ensures BytesApart(t, u, v)
  {
    Positive(t, u);
    Positive(t, us);
    Positive(t, v);
    Positive(t, vs);
  }

  lemma Positive(t: Heap, u: Unit)
    requires Placed(t, u)
    ensures Len(t, u) > 0
  {
  }

  /** While no call names it, a pointer that is held stays where it is, with the same length. */
  lemma {:induction false} RunKeeps(s: State, es: seq<Event>, v: Unit)
    requires SInv(s) && v in s.own && forall i :: 0 <= i < |es| ==> !Names(es[i], v)
    ensures Same(s, Run(s, es), v)
    decreases |es|
  {
    assert HeldOk(s, v);
    if es != [] {
      NextKeeps(s, es[0], v);
      var a := After(s, es[0]);
      RunKeeps(a, es[1..], v);
      SameTwo(s, a, Run(a, es[1..]), v);
    }
  }

  lemma SameTwo(s: State, a: State, d: State, v: Unit)
    requires Same(s, a, v) && Same(a, d, v)
    ensures Same(s, d, v)
  {
  }

  /** After every run a small page or tiny block is on the free list of its size iff it is not
      full, and none is empty. */
  lemma RunLists(s: State, es: seq<Event>)
    requires SInv(s)
    ensures var d := Run(s, es).t;
      && |d.smallL| == 5 && |d.tinyL| == 3
      && (forall k, p :: 0 <= k < 5 ==> (p in d.smallL[k] <==> p in d.small && d.small[p].size == k && !Full(d.small[p].used, PerPage(k))))
      && (forall k, b :: 0 <= k < 3 ==> (b in d.tinyL[k] <==> b in d.tiny && d.tiny[b].size == k && !Full(d.tiny[b].used, 32)))
      && (forall p :: p in d.small ==> d.small[p].used != {})
      && (forall b :: b in d.tiny ==> d.tiny[b].used != Header(d.tiny[b].size))
  {
    var d := Run(s, es).t;
    assert forall k :: 0 <= k < 5 ==> SmallListed(d.smallL[k], d.small, k);
    assert forall k :: 0 <= k < 3 ==> TinyListed(d.tinyL[k], d.tiny, k);
  }
}
