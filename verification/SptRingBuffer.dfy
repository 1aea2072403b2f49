/** The ring buffers as written: an array, three indices, and arithmetic modulo its length
    (cpu_mmu_spt.c, SPT_2). */
module SptRingBuffer {
  import opened SptRing

  /** The slot shadows a table at frame g. */
  predicate OfFrame(s: Shadow, g: nat) {
    !s.key.large && s.key.gfn == g
  }

  /** How far slot x is past slot m. */
  function Off(m: nat, x: nat, n: nat): nat {
    if x >= m then x - m else if x + n >= m then x + n - m else 0
  }

  function Inc(i: nat, n: nat): nat
    requires n > 0
  {
    (i + 1) % n
  }

  function From(s: seq<Shadow>, m: nat): seq<Shadow>
    requires m <= |s|
  {
    s[m..] + s[..m]
  }

  lemma IncIs(i: nat, n: nat)
    requires i < n
    ensures Inc(i, n) == (if i + 1 == n then 0 else i + 1)
  {
  }

  /** Seen from m, slot x is at Off(m, x). */
  lemma FromAt(s: seq<Shadow>, m: nat, x: nat)
    requires m < |s| && x < |s|
    ensures Off(m, x, |s|) < |s| && From(s, m)[Off(m, x, |s|)] == s[x]
  {
  }

  lemma FromUpdate(s: seq<Shadow>, m: nat, x: nat, v: Shadow)
    requires m < |s| && x < |s|
    ensures From(s[x := v], m) == From(s, m)[Off(m, x, |s|) := v]
  {
  }

  lemma FromSwap(s: seq<Shadow>, m: nat, x: nat, y: nat)
    requires m < |s| && x < |s| && y < |s|
    ensures From(Swap(s, x, y), m) == Swap(From(s, m), Off(m, x, |s|), Off(m, y, |s|))
  {
    FromUpdate(s, m, x, s[y]);
    FromUpdate(s[x := s[y]], m, y, s[x]);
    FromAt(s, m, x);
    FromAt(s, m, y);
  }

  lemma FromInc(s: seq<Shadow>, m: nat)
    requires m < |s|
    ensures From(s, Inc(m, |s|)) == Rot(From(s, m))
  {
    IncIs(m, |s|);
    if m + 1 == |s| {
      assert From(s, 0) == s && From(s, m) == [s[m]] + s[..m];
      assert s == s[..m] + [s[m]];
    } else {
      assert From(s, m)[1..] == s[m + 1..] + s[..m];
      assert s[..m + 1] == s[..m] + [s[m]];
    }
  }

  class Buffer {
    const a: array<Shadow>
    var modified: nat
    var normal: nat
    var free: nat

    ghost predicate Valid()
      reads this, a
    {
      && modified < a.Length && normal < a.Length && free < a.Length
      && Off(modified, normal, a.Length) <= Off(modified, free, a.Length)
    }

    ghost function View(): (s: Ring)
      requires Valid()
      reads this, a
      ensures Ok(s) && |s.r| == a.Length
    {
      Ring(From(a[..], modified), Off(modified, normal, a.Length), Off(modified, free, a.Length))
    }

    constructor (pages: seq<nat>, none: Key)
      requires |pages| > 0
      ensures Valid() && fresh(a) && a.Length == |pages| && View().p == View().q == 0
    {
      a := new Shadow[|pages|](i requires 0 <= i < |pages| => Shadow(pages[i], none, false));
      modified, normal, free := 0, 0, 0;
    }

    /** swap_shadow */
    method SwapSlots(i: nat, j: nat)
      requires i < a.Length && j < a.Length
      modifies a
      ensures a[..] == Swap(old(a[..]), i, j)
    {
      a[i], a[j] := a[j], a[i];
    }

    /** if (i != j) swap_shadow (a, i, j) */
    method SwapUnlessSame(i: nat, j: nat)
      requires i < a.Length && j < a.Length
      modifies a
      ensures a[..] == Swap(old(a[..]), i, j)
    {
      if i != j { SwapSlots(i, j); }
    }

    /** The swaps of find_shadow, and the mark on the slot. */
    method SwapThree(i: nat, k: nat, j: nat, l: nat)
      requires i < a.Length && k < a.Length && j < a.Length && l < a.Length
      modifies a
      ensures var r := Swap(Swap(Swap(old(a[..]), i, k), k, j), j, l); a[..] == r[l := r[l].(cleared := false)]
    {
      SwapUnlessSame(i, k);
      SwapUnlessSame(k, j);
      SwapSlots(j, l);
      a[l] := a[l].(cleared := false);
    }

    /** The same, seen from the first modified slot. */
    method MoveThree(i: nat, k: nat, j: nat, l: nat)
      requires i < a.Length && k < a.Length && j < a.Length && l < a.Length
      requires Off(j, k, a.Length) <= Off(j, i, a.Length) < Off(j, l, a.Length) < a.Length
      modifies a
      ensures var n := a.Length;
        && From(a[..], Inc(j, n)) == Hit(Ring(From(old(a[..]), j), Off(j, k, n), Off(j, l, n)), Off(j, i, n)).r
        && Off(Inc(j, n), Inc(k, n), n) == Off(j, k, n) && Off(Inc(j, n), Inc(l, n), n) == Off(j, l, n)
        && Off(Inc(j, n), l, n) + 1 == Off(j, l, n)
    {
      ghost var s := a[..];
      SwapThree(i, k, j, l);
      HitSeen(s, a[..], j, k, l, i);
    }

    /** The search loop: the first slot with the key from slot `from` on, before slot `to`. */
    method SearchSlots(from: nat, to: nat, key: Key) returns (i: nat)
      requires Valid() && from < a.Length && to < a.Length
      requires Off(modified, from, a.Length) <= Off(modified, to, a.Length)
      ensures i < a.Length && Off(modified, i, a.Length) == Search(View().r, Off(modified, from, a.Length), Off(modified, to, a.Length), key)
      ensures i == to <==> Off(modified, i, a.Length) == Off(modified, to, a.Length)
    {
      i := from;
      ghost var r := View().r;
      ghost var n := a.Length;
      while i != to
        invariant i < a.Length && Off(modified, i, n) <= Off(modified, to, n)
        invariant Search(r, Off(modified, i, n), Off(modified, to, n), key) == Search(r, Off(modified, from, n), Off(modified, to, n), key)
        decreases Off(modified, to, n) - Off(modified, i, n)
      {
        FromAt(a[..], modified, i);
        if a[i].key == key { return; }
        IncIs(i, n);
        i := Inc(i, a.Length);
      }
    }

    /** find_shadow1, find_shadow2 */
    method FindShadow(key: Key) returns (found: bool, i: nat)
      requires Valid()
      modifies this, a
      ensures Valid() && (View(), found) == Find(old(View()), key)
      ensures found ==> i < a.Length && Off(modified, i, a.Length) + 1 == View().q
    {
      i := SearchSlots(normal, free, key);
      if i == free { return false, 0; }
      found := true;
      i := MakeYoung(i);
    }

    /** The swaps of find_shadow once slot i is found. */
    method MakeYoung(i: nat) returns (l: nat)
      requires Valid() && i < a.Length && View().p <= Off(modified, i, a.Length) < View().q
      modifies this, a
      ensures Valid() && View() == Hit(old(View()), Off(old(modified), i, a.Length))
      ensures l < a.Length && Off(modified, l, a.Length) + 1 == View().q
    {
      var j, k := modified, normal;
      l := free;
      MoveThree(i, k, j, l);
      modified, normal, free := Inc(j, a.Length), Inc(k, a.Length), Inc(l, a.Length);
    }

    /** new_shadow1, new_shadow2, the case of a modified slot that holds the key: the swaps. */
    method SwapTwo(i: nat, j: nat, l: nat)
      requires i < a.Length && j < a.Length && l < a.Length
      modifies a
      ensures var s := old(a[..]); var r := Swap(Swap(s[i := s[i].(cleared := true)], i, j), j, l);
        a[..] == r[l := r[l].(cleared := false)]
    {
      if !a[i].cleared { a[i] := a[i].(cleared := true); }
      SwapUnlessSame(i, j);
      SwapSlots(j, l);
      a[l] := a[l].(cleared := false);
    }

    method MoveTwo(i: nat, j: nat, k: nat, l: nat)
      requires i < a.Length && k < a.Length && j < a.Length && l < a.Length
      requires Off(j, i, a.Length) < Off(j, k, a.Length) <= Off(j, l, a.Length) < a.Length
      modifies a
      ensures var n := a.Length;
        && From(a[..], Inc(j, n)) == Revived(Ring(From(old(a[..]), j), Off(j, k, n), Off(j, l, n)), Off(j, i, n)).r
        && Off(Inc(j, n), k, n) == Off(j, k, n) - 1 && Off(Inc(j, n), Inc(l, n), n) == Off(j, l, n)
        && Off(Inc(j, n), l, n) + 1 == Off(j, l, n)
    {
      ghost var s := a[..];
      SwapTwo(i, j, l);
      RevivedSeen(s, a[..], j, k, l, i);
    }

    method ReviveSlot(i: nat) returns (l: nat)
      requires Valid() && i < a.Length && Off(modified, i, a.Length) < View().p
      modifies this, a
      ensures Valid() && View() == Revived(old(View()), Off(old(modified), i, a.Length))
      ensures l < a.Length && Off(modified, l, a.Length) + 1 == View().q
    {
      var j := modified;
      l := free;
      MoveTwo(i, j, normal, l);
      modified, free := Inc(j, a.Length), Inc(l, a.Length);
    }

    /** new_shadow1, new_shadow2 */
    method MakeShadow(key: Key) returns (made: bool, panicked: bool, i: nat)
      requires Valid()
      modifies this, a
      ensures Valid() && i < a.Length
      ensures var n := NewShadow(old(View()), key);
        && (panicked <==> n.Panic?) && (made <==> n.Made?) && (!panicked ==> View() == n.s)
      ensures made ==> Off(modified, i, a.Length) + 1 == View().q
    {
      made, panicked := true, false;
      i := SearchSlots(modified, normal, key);
      if i != normal {
        i := ReviveSlot(i);
      } else {
        i := free;
        OffLast(modified, free, a.Length);
        if Inc(free, a.Length) == modified {
          made := false;
          panicked := GiveUp();
        } else {
          TakeFree(key);
        }
      }
    }

    /** The ring is full. */
    method GiveUp() returns (panicked: bool)
      requires Valid() && View().q + 1 == a.Length
      modifies this, a
      ensures Valid() && View() == Clean(Aged(old(View())), true) && panicked == (View().q + 1 == a.Length)
    {
      var l := Inc(free, a.Length);
      AgeOldest();
      CleanModified(true);
      OffLast(modified, free, a.Length);
      panicked := l == modified;
    }

    /** The oldest normal slot, if any, becomes a modified one. */
    method AgeOldest()
      requires Valid()
      modifies this`normal
      ensures Valid() && View() == Aged(old(View()))
    {
      if normal != free {
        OffNext(modified, normal, a.Length);
        normal := Inc(normal, a.Length);
      }
    }

    /** The first free slot gets the key. */
    method TakeFree(key: Key)
      requires Valid() && View().q + 1 < a.Length
      modifies this, a
      ensures Valid() && modified == old(modified) && Off(modified, old(free), a.Length) + 1 == View().q
      ensures var s := old(View()); View() == s.(r := s.r[s.q := s.r[s.q].(key := key, cleared := false)], q := s.q + 1)
    {
      var i := free;
      OffNext(modified, i, a.Length);
      FromAt(a[..], modified, i);
      FromUpdate(a[..], modified, i, a[i].(key := key, cleared := false));
      a[i] := a[i].(key := key, cleared := false);
      free := Inc(i, a.Length);
    }

    /** modified_shadow1, modified_shadow2 */
    method ModifiedShadow(i: nat)
      requires Valid() && i < a.Length && View().p <= Off(modified, i, a.Length) < View().q
      modifies this`normal, a
      ensures Valid() && View() == MarkModified(old(View()), Off(old(modified), i, a.Length))
    {
      var j := normal;
      FromSwap(a[..], modified, i, j);
      SwapUnlessSame(i, j);
      OffNext(modified, j, a.Length);
      normal := Inc(j, a.Length);
    }

    /** update_shadow on this ring: marks the shadows of the frame, or tells whether it has none. */
    method UpdateShadow(g: nat, needrw: bool) returns (rw: bool)
      requires Valid()
      modifies this`normal, a
      ensures Valid() && View() == if needrw then MarkFrame(old(View()), old(View()).p, g) else old(View())
      ensures rw <==> needrw || forall k :: View().p <= k < View().q ==> !OfFrame(View().r[k], g)
    {
      rw := true;
      if needrw {
        MarkShadows(g);
      } else {
        rw := NoShadow(g);
      }
    }

    method NoShadow(g: nat) returns (rw: bool)
      requires Valid()
      ensures rw <==> forall k :: View().p <= k < View().q ==> !OfFrame(View().r[k], g)
    {
      rw := true;
      var i: nat := normal;
      while i != free
        invariant i < a.Length && View().p <= Off(modified, i, a.Length) <= View().q
        invariant rw <==> forall k :: View().p <= k < Off(modified, i, a.Length) ==> !OfFrame(View().r[k], g)
        decreases View().q - Off(modified, i, a.Length)
      {
        FromAt(a[..], modified, i);
        OffNext(modified, i, a.Length);
        if OfFrame(a[i], g) { rw := false; }
        i := Inc(i, a.Length);
      }
    }

    method MarkShadows(g: nat)
      requires Valid()
      modifies this`normal, a
      ensures Valid() && View() == MarkFrame(old(View()), old(View()).p, g)
    {
      ghost var s, o := View(), View().p;
      var i: nat := normal;
      while i != free
        invariant Valid() && i < a.Length && o == Off(modified, i, a.Length) && View().p <= o <= View().q
        invariant MarkFrame(View(), o, g) == MarkFrame(s, s.p, g) && View().q == s.q
        decreases s.q - o
      {
        MarkNext(View(), o, g);
        OffNext(modified, i, a.Length);
        MarkOne(i, g);
        i, o := Inc(i, a.Length), o + 1;
      }
    }

    method MarkOne(i: nat, g: nat)
      requires Valid() && i < a.Length && View().p <= Off(modified, i, a.Length) < View().q
      modifies this`normal, a
      ensures Valid() && View() == var s := old(View()); var o := Off(modified, i, a.Length);
        if OfFrame(s.r[o], g) then MarkModified(s, o) else s
    {
      FromAt(a[..], modified, i);
      if OfFrame(a[i], g) { ModifiedShadow(i); }
    }

    /** clean_modified_shadow: clear what is not clear yet, and perhaps free it all. */
    method CleanModified(freeflag: bool)
      requires Valid()
      modifies this`modified, a
      ensures Valid() && View() == Clean(old(View()), freeflag)
      ensures freeflag ==> modified == normal
    {
      ghost var s, n, old_a := View(), a.Length, a[..];
      var i: nat := modified;
      while i != normal
        invariant i < n && modified == old(modified) && normal == old(normal) && free == old(free) && |old_a| == n
        invariant Off(modified, i, n) <= s.p
        invariant forall x :: 0 <= x < n ==>
          a[x] == if Off(modified, x, n) < Off(modified, i, n) then old_a[x].(cleared := true) else old_a[x]
        decreases s.p - Off(modified, i, n)
      {
        OffNext(modified, i, n);
        if !a[i].cleared {
          a[i] := a[i].(cleared := true);
        }
        i := Inc(i, a.Length);
      }
      CleanSeen(old_a, a[..], modified, s.p, s.q);
      if freeflag {
        FromPast(a[..], modified, i);
        OffPast(modified, i, free, n);
        modified := i;
      }
    }
  }

  /** Off moves with both indices ... */
  lemma OffInc(m: nat, x: nat, n: nat)
    requires m < n && x < n
    ensures Off(Inc(m, n), Inc(x, n), n) == Off(m, x, n)
  {
    IncIs(m, n);
    IncIs(x, n);
  }

  /** ... grows with the second ... */
  lemma {:induction false} MarkNext(s: Ring, i: nat, g: nat)
    requires Ok(s) && s.p <= i < s.q
    ensures MarkFrame(s, i, g) == MarkFrame(if OfFrame(s.r[i], g) then MarkModified(s, i) else s, i + 1, g)
  {
  }

  lemma OffNext(m: nat, x: nat, n: nat)
    requires m < n && x < n
    ensures Off(m, x, n) + 1 < n ==> Off(m, Inc(x, n), n) == Off(m, x, n) + 1
  {
    IncIs(x, n);
  }

  lemma OffBefore(m: nat, l: nat, n: nat)
    requires m < n && l < n && 0 < Off(m, Inc(l, n), n)
    ensures Off(m, l, n) + 1 == Off(m, Inc(l, n), n)
  {
    IncIs(l, n);
  }

  /** ... and shrinks when the first moves up. */
  lemma OffPast(m: nat, i: nat, x: nat, n: nat)
    requires m < n && i < n && x < n && Off(m, i, n) <= Off(m, x, n)
    ensures Off(i, x, n) == Off(m, x, n) - Off(m, i, n)
  {
  }

  lemma FromPast(s: seq<Shadow>, m: nat, i: nat)
    requires m < |s| && i < |s|
    ensures From(s, i) == From(s, m)[Off(m, i, |s|)..] + From(s, m)[..Off(m, i, |s|)]
  {
    var l, r, o := From(s, i), From(s, m), Off(m, i, |s|);
    forall k | 0 <= k < |s| ensures l[k] == (r[o..] + r[..o])[k] {
      assert l[k] == if i + k < |s| then s[i + k] else s[i + k - |s|];
    }
  }

  /** The three swaps of find_shadow, seen from the first modified slot. */
  lemma ThreeSwaps(s: seq<Shadow>, i: nat, k: nat, j: nat, l: nat)
    requires i < |s| && k < |s| && j < |s| && l < |s|
    ensures var n := |s|; var r := Swap(Swap(Swap(s, i, k), k, j), j, l);
      From(r[l := r[l].(cleared := false)], Inc(j, n))
        == Rot(Unclear(Swap(Swap(Swap(From(s, j), Off(j, i, n), Off(j, k, n)), Off(j, k, n), 0), 0, Off(j, l, n)), Off(j, l, n)))
  {
    var n := |s|;
    FromSwap(s, j, i, k);
    FromSwap(Swap(s, i, k), j, k, j);
    FromSwap(Swap(Swap(s, i, k), k, j), j, j, l);
    var r := Swap(Swap(Swap(s, i, k), k, j), j, l);
    FromAt(r, j, l);
    FromUpdate(r, j, l, r[l].(cleared := false));
    FromInc(r[l := r[l].(cleared := false)], j);
  }

  lemma HitSeen(s: seq<Shadow>, d: seq<Shadow>, j: nat, k: nat, l: nat, i: nat)
    requires i < |s| == |d| && k < |s| && j < |s| && l < |s|
    requires Off(j, k, |s|) <= Off(j, i, |s|) < Off(j, l, |s|)
    requires var r := Swap(Swap(Swap(s, i, k), k, j), j, l); d == r[l := r[l].(cleared := false)]
    ensures var n := |s|;
      && Inc(j, n) < n && Off(Inc(j, n), Inc(k, n), n) == Off(j, k, n) && Off(Inc(j, n), Inc(l, n), n) == Off(j, l, n)
      && Off(j, l, n) < n && From(d, Inc(j, n)) == Hit(Ring(From(s, j), Off(j, k, n), Off(j, l, n)), Off(j, i, n)).r
      && Off(Inc(j, n), l, n) + 1 == Off(j, l, n)
  {
    ThreeSwaps(s, i, k, j, l);
    OffInc(j, k, |s|);
    OffInc(j, l, |s|);
    IncIs(j, |s|);
    OffBefore(Inc(j, |s|), l, |s|);
  }

  lemma OffLast(m: nat, x: nat, n: nat)
    requires m < n && x < n
    ensures Inc(x, n) == m <==> Off(m, x, n) + 1 == n
  {
    IncIs(x, n);
  }

  lemma RevivedSeen(s: seq<Shadow>, d: seq<Shadow>, j: nat, k: nat, l: nat, i: nat)
    requires i < |s| == |d| && k < |s| && j < |s| && l < |s|
    requires Off(j, i, |s|) < Off(j, k, |s|) <= Off(j, l, |s|) < |s|
    requires var r := Swap(Swap(s[i := s[i].(cleared := true)], i, j), j, l); d == r[l := r[l].(cleared := false)]
    ensures var n := |s|;
      && Inc(j, n) < n && Off(Inc(j, n), k, n) == Off(j, k, n) - 1 && Off(Inc(j, n), Inc(l, n), n) == Off(j, l, n)
      && From(d, Inc(j, n)) == Revived(Ring(From(s, j), Off(j, k, n), Off(j, l, n)), Off(j, i, n)).r
      && Off(Inc(j, n), l, n) + 1 == Off(j, l, n)
  {
    var n := |s|;
    var s1 := s[i := s[i].(cleared := true)];
    FromAt(s, j, i);
    FromUpdate(s, j, i, s[i].(cleared := true));
    FromSwap(s1, j, i, j);
    FromSwap(Swap(s1, i, j), j, j, l);
    var r := Swap(Swap(s1, i, j), j, l);
    FromAt(r, j, l);
    FromUpdate(r, j, l, r[l].(cleared := false));
    FromInc(d, j);
    OffInc(j, l, n);
    IncIs(j, n);
    OffBefore(Inc(j, n), l, n);
    OffPast(j, Inc(j, n), k, n);
    OffNext(j, j, n);
  }

  lemma CleanSeen(s: seq<Shadow>, d: seq<Shadow>, m: nat, p: nat, q: nat)
    requires m < |s| == |d| && p <= q < |s|
    requires forall x :: 0 <= x < |s| ==> d[x] == if Off(m, x, |s|) < p then s[x].(cleared := true) else s[x]
    ensures From(d, m) == Cleared(From(s, m)[..p]) + From(s, m)[p..]
  {
  }
}
