/** The ring buffers of shadow pages (cpu_mmu_spt.c, SPT_2), seen from the first modified
    slot: modified slots, then normal ones, then free ones, at least one of them. */
module SptRing {

  datatype Key = Key(gfn: nat, large: bool, low: nat)

  /** struct cpu_mmu_spt_shadow; phys stands for the page itself. */
  datatype Shadow = Shadow(phys: nat, key: Key, cleared: bool)

  /** r[..p] is modified, r[p..q] normal, r[q..] free. */
  datatype Ring = Ring(r: seq<Shadow>, p: nat, q: nat)

  predicate Ok(s: Ring) {
    s.p <= s.q < |s.r|
  }

  function Mod(s: Ring): seq<Shadow>
    requires Ok(s)
  {
    s.r[..s.p]
  }

  function Norm(s: Ring): seq<Shadow>
    requires Ok(s)
  {
    s.r[s.p..s.q]
  }

  function Spare(s: Ring): seq<Shadow>
    requires Ok(s)
  {
    s.r[s.q..]
  }

  /** swap_shadow */
  function Swap(r: seq<Shadow>, i: nat, j: nat): seq<Shadow>
    requires i < |r| && j < |r|
  {
    r[i := r[j]][j := r[i]]
  }

  /** The first slot becomes the last: an index has moved past it. */
  function Rot(r: seq<Shadow>): seq<Shadow>
    requires r != []
  {
    r[1..] + [r[0]]
  }

  /** The first slot from i on, before n, that holds key; n if there is none. */
  function Search(r: seq<Shadow>, i: nat, n: nat, key: Key): (k: nat)
    requires i <= n <= |r|
    ensures i <= k <= n && (k < n ==> r[k].key == key) && forall t :: i <= t < k ==> r[t].key != key
    decreases n - i
  {
    if i == n || r[i].key == key then i else Search(r, i + 1, n, key)
  }

  function Unclear(r: seq<Shadow>, i: nat): seq<Shadow>
    requires i < |r|
  {
    r[i := r[i].(cleared := false)]
  }

  // ------------------------------------------------------------- find_shadow

  /** find_shadow: a hit moves to the young end of the normal slots, by three swaps. */
  function Find(s: Ring, key: Key): (Ring, bool)
    requires Ok(s)
  {
    var i := Search(s.r, s.p, s.q, key);
    if i == s.q then (s, false)
    else (Hit(s, i), true)
  }

  /** The rest of the normal slots when slot i is taken out from the front. */
  function TakeOut(l: seq<Shadow>, i: nat): seq<Shadow>
    requires i < |l|
  {
    l[i := l[0]][1..]
  }

  function Turned(l: seq<Shadow>): seq<Shadow> {
    if l == [] then [] else l[1..] + [l[0]]
  }

  /** Normal slot i went to the young end; the others keep their regions. */
  ghost predicate Moved(s: Ring, d: Ring, i: nat)
    requires Ok(s) && s.p <= i < s.q
  {
    && Ok(d) && |d.r| == |s.r| && d.p == s.p && d.q == s.q
    && Norm(d) == TakeOut(Norm(s), i - s.p) + [s.r[i].(cleared := false)]
    && Mod(d) == Turned(Mod(s)) && Spare(d) == Turned(Spare(s))
  }

  ghost predicate HasKey(l: seq<Shadow>, key: Key) {
    exists i :: 0 <= i < |l| && l[i].key == key
  }

  /** Exactly the wanted slot moves, within its region. */
  lemma FindMoves(s: Ring, key: Key)
    requires Ok(s)
    ensures Find(s, key).1 <==> HasKey(Norm(s), key)
    ensures !Find(s, key).1 ==> Find(s, key).0 == s
    ensures Find(s, key).1 ==> Moved(s, Find(s, key).0, Search(s.r, s.p, s.q, key))
  {
    var i := Search(s.r, s.p, s.q, key);
    if i < s.q {
      assert Norm(s)[i - s.p].key == key;
      HitMoves(s, i);
    }
  }

  /** The ring after the three swaps for normal slot i. */
  function Hit(s: Ring, i: nat): (d: Ring)
    requires Ok(s) && s.p <= i < s.q
    ensures Ok(d)
  {
    Ring(Rot(Unclear(Swap(Swap(Swap(s.r, i, s.p), s.p, 0), 0, s.q), s.q)), s.p, s.q)
  }

  /** Where the swaps leave everything. */
  lemma HitAt(s: Ring, i: nat, t: nat)
    requires Ok(s) && s.p <= i < s.q && t < |s.r|
    ensures Hit(s, i).r[t] ==
      if t + 1 == |s.r| then s.r[s.q]
      else if t + 1 == s.q then s.r[i].(cleared := false)
      else if t + 1 == s.p then s.r[0]
      else if t + 1 == i then s.r[s.p]
      else s.r[t + 1]
  {
  }

  lemma HitMoves(s: Ring, i: nat)
    requires Ok(s) && s.p <= i < s.q
    ensures Moved(s, Hit(s, i), i)
  {
    var d := Hit(s, i);
    forall t | 0 <= t < |s.r|
      ensures d.r[t] ==
        if t + 1 == |s.r| then s.r[s.q]
        else if t + 1 == s.q then s.r[i].(cleared := false)
        else if t + 1 == s.p then s.r[0]
        else if t + 1 == i then s.r[s.p]
        else s.r[t + 1]
    {
      HitAt(s, i, t);
    }
    SameNorm(s, d, i);
    SameEnds(s, d);
  }

  lemma SameNorm(s: Ring, d: Ring, i: nat)
    requires Ok(s) && Ok(d) && |d.r| == |s.r| && d.p == s.p && d.q == s.q && s.p <= i < s.q
    requires forall t :: s.p <= t < s.q ==>
      d.r[t] == if t + 1 == s.q then s.r[i].(cleared := false) else if t + 1 == i then s.r[s.p] else s.r[t + 1]
    ensures Norm(d) == TakeOut(Norm(s), i - s.p) + [s.r[i].(cleared := false)]
  {
    var l, r := Norm(d), TakeOut(Norm(s), i - s.p) + [s.r[i].(cleared := false)];
    forall t | 0 <= t < |l| ensures l[t] == r[t] {
      assert l[t] == d.r[s.p + t];
    }
  }

  lemma SameEnds(s: Ring, d: Ring)
    requires Ok(s) && Ok(d) && |d.r| == |s.r| && d.p == s.p && d.q == s.q && s.p < s.q
    requires forall t :: 0 <= t < s.p ==> d.r[t] == if t + 1 == s.p then s.r[0] else s.r[t + 1]
    requires forall t :: s.q <= t < |s.r| ==> d.r[t] == if t + 1 == |s.r| then s.r[s.q] else s.r[t + 1]
    ensures Mod(d) == Turned(Mod(s)) && Spare(d) == Turned(Spare(s))
  {
    forall t | 0 <= t < s.p ensures Mod(d)[t] == Turned(Mod(s))[t] {
      assert Mod(d)[t] == d.r[t];
    }
    forall t | 0 <= t < |s.r| - s.q ensures Spare(d)[t] == Turned(Spare(s))[t] {
      assert Spare(d)[t] == d.r[s.q + t];
    }
  }

  // ------------------------------------------------------------- clean_modified and new_shadow

  /** clear_shadow on every slot of a list. */
  function Cleared(l: seq<Shadow>): seq<Shadow> {
    seq(|l|, i requires 0 <= i < |l| => l[i].(cleared := true))
  }

  /** clean_modified_shadow */
  function Clean(s: Ring, free: bool): Ring
    requires Ok(s)
  {
    var m := Cleared(Mod(s));
    if free then Ring(s.r[s.p..] + m, 0, s.q - s.p) else s.(r := m + s.r[s.p..])
  }

  datatype New = Panic | Full(s: Ring) | Made(s: Ring)

  /** Modified slot i, cleared, becomes the youngest normal one, by two swaps. */
  function Revived(s: Ring, i: nat): Ring
    requires Ok(s) && i < s.p
  {
    var r := Swap(Swap(s.r[i := s.r[i].(cleared := true)], i, 0), 0, s.q);
    Ring(Rot(Unclear(r, s.q)), s.p - 1, s.q)
  }

  /** The oldest normal slot, if any, counts as modified. */
  function Aged(s: Ring): (t: Ring)
    requires Ok(s)
    ensures Ok(t) && t.r == s.r && t.q == s.q && (t.p == 0 <==> s.q == 0)
  {
    if s.p != s.q then s.(p := s.p + 1) else s
  }

  /** new_shadow; the slot made is the last normal one. */
  function NewShadow(s: Ring, key: Key): New
    requires Ok(s)
  {
    var i := Search(s.r, 0, s.p, key);
    if i < s.p then Made(Revived(s, i))
    else if s.q + 1 == |s.r| then
      var d := Clean(Aged(s), true);
      if d.q + 1 == |d.r| then Panic else Full(d)
    else Made(s.(r := s.r[s.q := s.r[s.q].(key := key, cleared := false)], q := s.q + 1))
  }

  /** A modified slot that holds the key is revived: it leaves the modified region, joins the
      normal one, and no other slot changes region. */
  lemma ReviveMoves(s: Ring, key: Key)
    requires Ok(s) && Search(s.r, 0, s.p, key) < s.p
    ensures var i := Search(s.r, 0, s.p, key); var n := NewShadow(s, key);
      && n.Made? && Ok(n.s) && |n.s.r| == |s.r|
      && Mod(n.s) == TakeOut(Mod(s), i) && Norm(n.s) == Norm(s) + [s.r[i].(cleared := false)]
      && Spare(n.s) == Turned(Spare(s))
  {
    var i := Search(s.r, 0, s.p, key);
    var d := NewShadow(s, key).s;
    forall t | 0 <= t < |s.r| ensures |d.r| == |s.r| && Shifted(s, d, i, t) {
      ReviveAt(s, key, t);
    }
    ReviveLists(s, d, i);
  }

  /** Where the two swaps for modified slot i leave slot t. */
  ghost predicate Shifted(s: Ring, d: Ring, i: nat, t: nat)
    requires Ok(s) && i < s.p && |d.r| == |s.r| && t < |s.r|
  {
    d.r[t] == (
      if t + 1 == |s.r| then s.r[s.q]
      else if t + 1 == s.q then s.r[i].(cleared := false)
      else if t + 1 == i then s.r[0]
      else s.r[t + 1])
  }

  lemma ReviveAt(s: Ring, key: Key, t: nat)
    requires Ok(s) && Search(s.r, 0, s.p, key) < s.p && t < |s.r|
    ensures var i := Search(s.r, 0, s.p, key); var n := NewShadow(s, key);
      n.Made? && |n.s.r| == |s.r| && Shifted(s, n.s, i, t)
  {
  }

  lemma ReviveLists(s: Ring, d: Ring, i: nat)
    requires Ok(s) && i < s.p && |d.r| == |s.r| && d.p == s.p - 1 && d.q == s.q
    requires forall t :: 0 <= t < |s.r| ==> Shifted(s, d, i, t)
    ensures Mod(d) == TakeOut(Mod(s), i) && Norm(d) == Norm(s) + [s.r[i].(cleared := false)] && Spare(d) == Turned(Spare(s))
  {
    var m, n, f := TakeOut(Mod(s), i), Norm(s) + [s.r[i].(cleared := false)], Turned(Spare(s));
    assert |m| == |Mod(d)| && |n| == |Norm(d)| && |f| == |Spare(d)|;
    forall t | 0 <= t < |m| ensures Mod(d)[t] == m[t] { assert Shifted(s, d, i, t); }
    forall t | 0 <= t < |n| ensures Norm(d)[t] == n[t] { assert Shifted(s, d, i, d.p + t); }
    forall t | 0 <= t < |f| ensures Spare(d)[t] == f[t] { assert Shifted(s, d, i, s.q + t); }
  }

  /** A free slot is taken: the first one, and only its key changes. */
  lemma TakeMoves(s: Ring, key: Key)
    requires Ok(s) && Search(s.r, 0, s.p, key) == s.p && s.q + 1 < |s.r|
    ensures var n := NewShadow(s, key);
      && n.Made? && Ok(n.s) && Mod(n.s) == Mod(s)
      && Norm(n.s) == Norm(s) + [Shadow(s.r[s.q].phys, key, false)] && Spare(n.s) == Spare(s)[1..]
  {
  }

  lemma CleanAll(t: Ring)
    requires Ok(t) && t.q + 1 == |t.r|
    ensures var d := Clean(t, true);
      && Ok(d) && |d.r| == |t.r| && (d.q + 1 == |d.r| <==> t.p == 0)
      && Mod(d) == [] && Norm(d) == Norm(t) && Spare(d) == Spare(t) + Cleared(Mod(t))
  {
    CleanRegions(t, true);
  }

  /** A full ring: the oldest normal slot is given up with the modified ones, all cleared, so
      there is room; the panic cannot be reached unless the ring has a single slot. */
  lemma FullMakesRoom(s: Ring, key: Key)
    requires Ok(s) && Search(s.r, 0, s.p, key) == s.p && s.q + 1 == |s.r|
    ensures var n := NewShadow(s, key); var t := Aged(s);
      && (n.Panic? <==> |s.r| == 1)
      && (!n.Panic? ==>
            && n.Full? && Ok(n.s) && |n.s.r| == |s.r| && Mod(n.s) == [] && n.s.q + 1 < |n.s.r|
            && Norm(n.s) == Norm(t) && Spare(n.s) == Spare(s) + Cleared(Mod(t)))
  {
    CleanAll(Aged(s));
  }

  /** The attempt after a full ring succeeds, whatever the key. */
  lemma NextAttemptSucceeds(s: Ring, key: Key, key2: Key)
    requires Ok(s) && NewShadow(s, key).Full?
    ensures NewShadow(NewShadow(s, key).s, key2).Made?
  {
    assert Search(s.r, 0, s.p, key) == s.p;
    FullMakesRoom(s, key);
  }

  // ------------------------------------------------------------- modified_shadow and update_shadow

  /** modified_shadow: normal slot i becomes the youngest modified one. */
  function MarkModified(s: Ring, i: nat): Ring
    requires Ok(s) && s.p <= i < s.q
  {
    Ring(Swap(s.r, i, s.p), s.p + 1, s.q)
  }

  lemma MarkModifiedMoves(s: Ring, i: nat)
    requires Ok(s) && s.p <= i < s.q
    ensures var d := MarkModified(s, i);
      Ok(d) && Mod(d) == Mod(s) + [s.r[i]] && Norm(d) == TakeOut(Norm(s), i - s.p) && Spare(d) == Spare(s)
  {
    var d := MarkModified(s, i);
    assert Mod(d) == Mod(s) + [s.r[i]];
    assert Norm(d) == TakeOut(Norm(s), i - s.p);
  }

  /** The slots update_shadow looks for. */
  predicate Shadows(x: Shadow, g: nat) {
    !x.key.large && x.key.gfn == g
  }

  /** update_shadow with needrw: every normal shadow of frame g becomes modified; i is the
      slot under inspection. */
  function MarkFrame(s: Ring, i: nat, g: nat): Ring
    requires Ok(s) && s.p <= i <= s.q
    decreases s.q - i
  {
    if i == s.q then s
    else if Shadows(s.r[i], g) then MarkFrame(MarkModified(s, i), i + 1, g)
    else MarkFrame(s, i + 1, g)
  }

  function Filter(l: seq<Shadow>, g: nat, keep: bool): seq<Shadow> {
    if l == [] then []
    else (if Shadows(l[0], g) == keep then [l[0]] else []) + Filter(l[1..], g, keep)
  }

  /** The normal shadows of g from slot i on went to the modified region, in order; the
      others stayed normal, and the free slots are untouched. */
  ghost predicate FrameMoved(s: Ring, d: Ring, i: nat, g: nat)
    requires Ok(s) && s.p <= i <= s.q
  {
    && Ok(d) && |d.r| == |s.r| && d.q == s.q && Spare(d) == Spare(s)
    && Mod(d) == Mod(s) + Filter(s.r[i..s.q], g, true)
    && multiset(Norm(d)) == multiset(s.r[s.p..i]) + multiset(Filter(s.r[i..s.q], g, false))
  }

  lemma {:induction false} MarkFrameMoves(s: Ring, i: nat, g: nat)
    requires Ok(s) && s.p <= i <= s.q
    ensures FrameMoved(s, MarkFrame(s, i, g), i, g)
    decreases s.q - i
  {
    if i == s.q {
      NothingLeft(s, g);
    } else if Shadows(s.r[i], g) {
      MarkModifiedMoves(s, i);
      MarkFrameMoves(MarkModified(s, i), i + 1, g);
      FrontMoved(s, i);
      MatchStep(s, i, g, MarkModified(s, i), MarkFrame(s, i, g));
    } else {
      MarkFrameMoves(s, i + 1, g);
      SkipStep(s, i, g, MarkFrame(s, i, g));
    }
  }

  lemma MatchStep(s: Ring, i: nat, g: nat, k: Ring, d: Ring)
    requires Ok(s) && s.p <= i < s.q && Shadows(s.r[i], g)
    requires Ok(k) && k.p == s.p + 1 && k.q == s.q && |k.r| == |s.r| && Mod(k) == Mod(s) + [s.r[i]] && Spare(k) == Spare(s)
    requires multiset(k.r[k.p..i + 1]) == multiset(s.r[s.p..i]) && k.r[i + 1..s.q] == s.r[i + 1..s.q]
    requires FrameMoved(k, d, i + 1, g)
    ensures FrameMoved(s, d, i, g)
  {
    var l := s.r[i..s.q];
    assert l[0] == s.r[i] && l[1..] == s.r[i + 1..s.q];
    FilterHead(l, g);
  }

  lemma FilterHead(l: seq<Shadow>, g: nat)
    requires l != []
    ensures Filter(l, g, true) == (if Shadows(l[0], g) then [l[0]] else []) + Filter(l[1..], g, true)
    ensures Filter(l, g, false) == (if Shadows(l[0], g) then [] else [l[0]]) + Filter(l[1..], g, false)
  {
  }

  lemma SkipStep(s: Ring, i: nat, g: nat, d: Ring)
    requires Ok(s) && s.p <= i < s.q && !Shadows(s.r[i], g) && FrameMoved(s, d, i + 1, g)
    ensures FrameMoved(s, d, i, g)
  {
    var l, rest := s.r[i..s.q], s.r[i + 1..s.q];
    assert l[0] == s.r[i] && l[1..] == rest;
    FilterHead(l, g);
    assert Filter(l, g, true) == Filter(rest, g, true);
    FrontGrows(s.r, s.p, i);
    assert multiset(Filter(l, g, false)) == multiset{s.r[i]} + multiset(Filter(rest, g, false));
  }

  lemma FrontGrows(r: seq<Shadow>, p: nat, i: nat)
    requires p <= i < |r|
    ensures multiset(r[p..i + 1]) == multiset(r[p..i]) + multiset{r[i]}
  {
    assert r[p..i + 1] == r[p..i] + [r[i]];
  }

  lemma {:induction false} FilterIn(l: seq<Shadow>, g: nat, keep: bool, x: Shadow)
    ensures x in Filter(l, g, keep) <==> x in l && Shadows(x, g) == keep
  {
    if l != [] {
      assert l == [l[0]] + l[1..];
      FilterIn(l[1..], g, keep, x);
    }
  }

  /** After update_shadow no normal slot shadows g, and nothing else left the normal region. */
  lemma FrameNotNormal(s: Ring, g: nat, x: Shadow)
    requires Ok(s)
    ensures Ok(MarkFrame(s, s.p, g))
    ensures x in Norm(MarkFrame(s, s.p, g)) <==> x in Norm(s) && !Shadows(x, g)
    ensures x in Mod(MarkFrame(s, s.p, g)) <==> x in Mod(s) || (x in Norm(s) && Shadows(x, g))
  {
    var d := MarkFrame(s, s.p, g);
    MarkFrameMoves(s, s.p, g);
    FilterIn(Norm(s), g, false, x);
    FilterIn(Norm(s), g, true, x);
    assert s.r[s.p..s.p] == [];
    assert multiset(Norm(d)) == multiset(Filter(Norm(s), g, false));
    assert x in Norm(d) <==> x in multiset(Norm(d));
    assert x in Filter(Norm(s), g, false) <==> x in multiset(Filter(Norm(s), g, false));
  }

  lemma NothingLeft(s: Ring, g: nat)
    requires Ok(s)
    ensures FrameMoved(s, s, s.q, g)
  {
    assert s.r[s.q..s.q] == [];
    assert Mod(s) + [] == Mod(s) && s.r[s.p..s.q] == Norm(s);
  }

  /** The swap in MarkModified shifts the front of the normal region by one. */
  lemma FrontMoved(s: Ring, i: nat)
    requires Ok(s) && s.p <= i < s.q
    ensures multiset(MarkModified(s, i).r[s.p + 1..i + 1]) == multiset(s.r[s.p..i])
    ensures MarkModified(s, i).r[i + 1..s.q] == s.r[i + 1..s.q]
  {
    var d := MarkModified(s, i);
    if i > s.p {
      assert d.r[s.p + 1..i + 1] == s.r[s.p + 1..i] + [s.r[s.p]];
      assert s.r[s.p..i] == [s.r[s.p]] + s.r[s.p + 1..i];
    }
  }

  // ------------------------------------------------------------- pages and keys over runs

  /** What is counted: slots with a given page, or with a given key. */
  datatype Want = Page(x: nat) | Holds(k: Key)

  predicate Is(s: Shadow, w: Want) {
    match w
    case Page(x) => s.phys == x
    case Holds(k) => s.key == k
  }

  function One(s: Shadow, w: Want): nat {
    if Is(s, w) then 1 else 0
  }

  function Count(l: seq<Shadow>, w: Want): nat {
    if l == [] then 0 else One(l[0], w) + Count(l[1..], w)
  }

  lemma {:induction false} Joined(a: seq<Shadow>, b: seq<Shadow>, w: Want)
    ensures Count(a + b, w) == Count(a, w) + Count(b, w)
  {
    if a == [] {
      assert a + b == b;
    } else {
      assert (a + b)[1..] == a[1..] + b;
      Joined(a[1..], b, w);
    }
  }

  lemma Single(x: Shadow, w: Want)
    ensures Count([x], w) == One(x, w)
  {
    assert [x][1..] == [];
  }

  lemma Appended(l: seq<Shadow>, x: Shadow, w: Want)
    ensures Count(l + [x], w) == Count(l, w) + One(x, w)
  {
    Joined(l, [x], w);
    Single(x, w);
  }

  lemma TurnedAlike(l: seq<Shadow>, w: Want)
    ensures Count(Turned(l), w) == Count(l, w)
  {
    if l != [] { Appended(l[1..], l[0], w); }
  }

  lemma Replaced(l: seq<Shadow>, i: nat, x: Shadow, w: Want)
    requires i < |l|
    ensures Count(l[i := x], w) == Count(l, w) - One(l[i], w) + One(x, w)
  {
    assert l[i := x] == (l[..i] + [x]) + l[i + 1..] && l == (l[..i] + [l[i]]) + l[i + 1..];
    Joined(l[..i] + [x], l[i + 1..], w);
    Joined(l[..i] + [l[i]], l[i + 1..], w);
    Appended(l[..i], x, w);
    Appended(l[..i], l[i], w);
  }

  lemma TakeOutAlike(l: seq<Shadow>, i: nat, w: Want)
    requires i < |l|
    ensures Count(TakeOut(l, i), w) == Count(l, w) - One(l[i], w)
  {
    Replaced(l, i, l[0], w);
  }

  lemma {:induction false} ClearedAlike(l: seq<Shadow>, w: Want)
    ensures Count(Cleared(l), w) == Count(l, w)
  {
    if l != [] {
      assert Cleared(l)[1..] == Cleared(l[1..]);
      ClearedAlike(l[1..], w);
    }
  }

  /** Slots in use with w, and all slots with w. */
  function InUse(s: Ring, w: Want): nat
    requires Ok(s)
  {
    Count(Mod(s), w) + Count(Norm(s), w)
  }

  lemma Regions(s: Ring, w: Want)
    requires Ok(s)
    ensures Count(s.r, w) == InUse(s, w) + Count(Spare(s), w)
  {
    assert s.r == (Mod(s) + Norm(s)) + Spare(s);
    Joined(Mod(s) + Norm(s), Spare(s), w);
    Joined(Mod(s), Norm(s), w);
  }

  /** No two slots in use hold the same key. */
  ghost predicate Distinct(s: Ring)
    requires Ok(s)
  {
    forall k :: InUse(s, Holds(k)) <= 1
  }

  /** Every page is in as many slots as before; a key other than `key` is held at most as
      often as before. */
  ghost predicate SamePages(d: Ring, s: Ring) {
    |d.r| == |s.r| && forall x :: Count(d.r, Page(x)) == Count(s.r, Page(x))
  }

  ghost predicate NoMore(d: Ring, s: Ring)
    requires Ok(s) && Ok(d)
  {
    forall k :: InUse(d, Holds(k)) <= InUse(s, Holds(k))
  }

  lemma HitCounts(s: Ring, i: nat, d: Ring, w: Want)
    requires Ok(s) && s.p <= i < s.q && Moved(s, d, i)
    ensures Count(d.r, w) == Count(s.r, w) && InUse(d, w) == InUse(s, w)
  {
    Regions(s, w);
    Regions(d, w);
    assert Count(Mod(d), w) == Count(Mod(s), w) by { TurnedAlike(Mod(s), w); }
    assert Count(Spare(d), w) == Count(Spare(s), w) by { TurnedAlike(Spare(s), w); }
    assert Count(Norm(d), w) == Count(Norm(s), w) by { BackAgain(Norm(s), i - s.p, s.r[i].(cleared := false), w); }
  }

  lemma BackAgain(l: seq<Shadow>, i: nat, x: Shadow, w: Want)
    requires i < |l| && x == l[i].(cleared := false)
    ensures Count(TakeOut(l, i) + [x], w) == Count(l, w)
  {
    TakeOutAlike(l, i, w);
    Appended(TakeOut(l, i), x, w);
  }

  lemma FindConserves(s: Ring, key: Key)
    requires Ok(s)
    ensures var d := Find(s, key).0; Ok(d) && SamePages(d, s) && NoMore(d, s)
  {
    FindMoves(s, key);
    if Find(s, key).1 {
      var i, d := Search(s.r, s.p, s.q, key), Find(s, key).0;
      forall x ensures Count(d.r, Page(x)) == Count(s.r, Page(x)) { HitCounts(s, i, d, Page(x)); }
      forall k ensures InUse(d, Holds(k)) == InUse(s, Holds(k)) { HitCounts(s, i, d, Holds(k)); }
    }
  }

  lemma ReviveCounts(s: Ring, key: Key, w: Want)
    requires Ok(s) && Search(s.r, 0, s.p, key) < s.p
    ensures var d := NewShadow(s, key).s; Ok(d) && Count(d.r, w) == Count(s.r, w) && InUse(d, w) == InUse(s, w)
  {
    var i := Search(s.r, 0, s.p, key);
    ReviveMoves(s, key);
    Regions(s, w);
    Regions(NewShadow(s, key).s, w);
    TurnedAlike(Spare(s), w);
    TakeOutAlike(Mod(s), i, w);
    Appended(Norm(s), s.r[i].(cleared := false), w);
  }

  lemma TakeCounts(s: Ring, key: Key, w: Want)
    requires Ok(s) && Search(s.r, 0, s.p, key) == s.p && s.q + 1 < |s.r|
    ensures var d := NewShadow(s, key).s;
      && Ok(d) && (w.Page? ==> Count(d.r, w) == Count(s.r, w))
      && (w.Holds? ==> InUse(d, w) == InUse(s, w) + if w.k == key then 1 else 0)
  {
    TakeMoves(s, key);
    Regions(s, w);
    Regions(NewShadow(s, key).s, w);
    Appended(Norm(s), Shadow(s.r[s.q].phys, key, false), w);
    assert Spare(s)[0] == s.r[s.q];
  }

  lemma MarkCounts(s: Ring, i: nat, w: Want)
    requires Ok(s) && s.p <= i < s.q
    ensures var d := MarkModified(s, i); Ok(d) && Count(d.r, w) == Count(s.r, w) && InUse(d, w) == InUse(s, w)
  {
    MarkModifiedMoves(s, i);
    Regions(s, w);
    Regions(MarkModified(s, i), w);
    Appended(Mod(s), s.r[i], w);
    TakeOutAlike(Norm(s), i - s.p, w);
  }

  lemma MarkConserves(s: Ring, i: nat)
    requires Ok(s) && s.p <= i < s.q
    ensures var d := MarkModified(s, i); Ok(d) && SamePages(d, s) && NoMore(d, s)
  {
    var d := MarkModified(s, i);
    forall x ensures Count(d.r, Page(x)) == Count(s.r, Page(x)) { MarkCounts(s, i, Page(x)); }
    forall k ensures InUse(d, Holds(k)) == InUse(s, Holds(k)) { MarkCounts(s, i, Holds(k)); }
  }

  lemma {:induction false} FrameConserves(s: Ring, i: nat, g: nat)
    requires Ok(s) && s.p <= i <= s.q
    ensures var d := MarkFrame(s, i, g); Ok(d) && SamePages(d, s) && NoMore(d, s)
    decreases s.q - i
  {
    if i < s.q {
      if Shadows(s.r[i], g) {
        MarkConserves(s, i);
        FrameConserves(MarkModified(s, i), i + 1, g);
      } else {
        FrameConserves(s, i + 1, g);
      }
    }
  }

  lemma CleanCounts(s: Ring, free: bool, w: Want)
    requires Ok(s)
    ensures var d := Clean(s, free); Ok(d) && Count(d.r, w) == Count(s.r, w) && InUse(d, w) <= InUse(s, w)
  {
    Regions(s, w);
    Regions(Clean(s, free), w);
    CleanRegions(s, free);
    ClearedAlike(Mod(s), w);
    if free { Joined(Spare(s), Cleared(Mod(s)), w); }
  }

  lemma CleanRegions(s: Ring, free: bool)
    requires Ok(s)
    ensures var d := Clean(s, free);
      && Ok(d) && Norm(d) == Norm(s) && Mod(d) == (if free then [] else Cleared(Mod(s)))
      && Spare(d) == if free then Spare(s) + Cleared(Mod(s)) else Spare(s)
  {
  }

  lemma FullCounts(s: Ring, key: Key, w: Want)
    requires Ok(s) && Search(s.r, 0, s.p, key) == s.p && s.q + 1 == |s.r| && |s.r| > 1
    ensures var d := NewShadow(s, key).s; Ok(d) && Count(d.r, w) == Count(s.r, w) && InUse(d, w) <= InUse(s, w)
  {
    FullMakesRoom(s, key);
    var t := Aged(s);
    Regions(s, w);
    Regions(t, w);
    CleanCounts(t, true, w);
  }

  lemma CleanConserves(s: Ring, free: bool)
    requires Ok(s)
    ensures var d := Clean(s, free); Ok(d) && SamePages(d, s) && NoMore(d, s)
  {
    var d := Clean(s, free);
    forall x ensures Count(d.r, Page(x)) == Count(s.r, Page(x)) { CleanCounts(s, free, Page(x)); }
    forall k ensures InUse(d, Holds(k)) <= InUse(s, Holds(k)) { CleanCounts(s, free, Holds(k)); }
  }

  /** What the rest of SPT_2 does to a ring: look a key up and make a shadow if there is none
      (setpde, setpdpe), mark a normal slot, mark a frame's shadows (update_shadow), clean
      (invalidate and the like), or give up all normal slots (shadow_normal = shadow_free). */
  datatype Event = Look(key: Key) | MarkEv(i: nat) | FrameEv(g: nat) | CleanEv(free: bool) | AllModified

  /** The ring after an event, or None for the panic. */
  datatype After = Dead | Live(s: Ring)

  function Next(s: Ring, e: Event): After
    requires Ok(s)
  {
    match e
    case Look(key) =>
      if Find(s, key).1 then Live(Find(s, key).0)
      else (match NewShadow(s, key) case Panic => Dead case Full(d) => Live(d) case Made(d) => Live(d))
    case MarkEv(i) => if s.p <= i < s.q then Live(MarkModified(s, i)) else Live(s)
    case FrameEv(g) => Live(MarkFrame(s, s.p, g))
    case CleanEv(free) => Live(Clean(s, free))
    case AllModified => Live(s.(p := s.q))
  }

  /** A sound successor: same pages, no key twice. */
  ghost predicate Sound(d: Ring, s: Ring) {
    Ok(d) && SamePages(d, s) && Distinct(d)
  }

  lemma NextConserves(s: Ring, e: Event)
    requires Ok(s) && |s.r| > 1 && Distinct(s)
    ensures Next(s, e).Live? && Sound(Next(s, e).s, s)
  {
    match e
    case Look(key) =>
      FindMoves(s, key);
      if Find(s, key).1 { FindConserves(s, key); } else { LookConserves(s, key); }
    case MarkEv(i) => if s.p <= i < s.q { MarkConserves(s, i); }
    case FrameEv(g) => FrameConserves(s, s.p, g);
    case CleanEv(free) => CleanConserves(s, free);
    case AllModified => AllConserves(s);
  }

  lemma AllConserves(s: Ring)
    requires Ok(s) && Distinct(s)
    ensures Sound(s.(p := s.q), s)
  {
    var d := s.(p := s.q);
    forall k ensures InUse(d, Holds(k)) == InUse(s, Holds(k)) {
      Regions(s, Holds(k));
      Regions(d, Holds(k));
    }
  }

  lemma LookConserves(s: Ring, key: Key)
    requires Ok(s) && |s.r| > 1 && Distinct(s) && !HasKey(Norm(s), key)
    ensures !NewShadow(s, key).Panic? && Sound(NewShadow(s, key).s, s)
  {
    if Search(s.r, 0, s.p, key) == s.p && s.q + 1 == |s.r| { FullMakesRoom(s, key); }
    var d := NewShadow(s, key).s;
    forall x ensures Ok(d) && Count(d.r, Page(x)) == Count(s.r, Page(x)) { LookCounts(s, key, Page(x)); }
    forall k ensures InUse(d, Holds(k)) <= 1 {
      LookCounts(s, key, Holds(k));
      assert InUse(s, Holds(k)) <= 1;
    }
  }

  lemma LookCounts(s: Ring, key: Key, w: Want)
    requires Ok(s) && |s.r| > 1 && !HasKey(Norm(s), key)
    ensures !NewShadow(s, key).Panic?
    ensures var d := NewShadow(s, key).s;
      && Ok(d) && |d.r| == |s.r| && (w.Page? ==> Count(d.r, w) == Count(s.r, w))
      && (w.Holds? ==> InUse(d, w) <= InUse(s, w) || InUse(d, w) == 1)
  {
    var i := Search(s.r, 0, s.p, key);
    if i < s.p {
      ReviveMoves(s, key);
      ReviveCounts(s, key, w);
    } else if s.q + 1 == |s.r| {
      FullMakesRoom(s, key);
      FullCounts(s, key, w);
    } else {
      TakeMoves(s, key);
      TakeCounts(s, key, w);
      NoKey(Mod(s), key);
      NoKey(Norm(s), key);
    }
  }

  lemma {:induction false} NoKey(l: seq<Shadow>, key: Key)
    requires !HasKey(l, key)
    ensures Count(l, Holds(key)) == 0
  {
    if l != [] {
      assert l[0].key != key;
      forall i | 0 <= i < |l[1..]| ensures l[1..][i].key != key { assert l[1..][i] == l[i + 1]; }
      NoKey(l[1..], key);
    }
  }

  function Run(s: Ring, es: seq<Event>): After
    requires Ok(s) && |s.r| > 1 && Distinct(s)
    decreases |es|
  {
    if es == [] then Live(s)
    else
      NextConserves(s, es[0]);
      Run(Next(s, es[0]).s, es[1..])
  }

  /** In every run of a ring of two or more slots the panic is not reached, the regions stay
      in order with a free slot left, every page stays in exactly one slot, and no key is held
      twice. */
  lemma {:induction false} RunConserves(s: Ring, es: seq<Event>)
    requires Ok(s) && |s.r| > 1 && Distinct(s)
    ensures Run(s, es).Live? && Sound(Run(s, es).s, s)
    decreases |es|
  {
    if es != [] {
      NextConserves(s, es[0]);
      RunConserves(Next(s, es[0]).s, es[1..]);
    }
  }
}
