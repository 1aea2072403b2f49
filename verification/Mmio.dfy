/** The MMIO index (mmio.c): registered ranges, kept in a list and in seventeen sorted
    buckets, must behave like one flat set of disjoint ranges. */
module Mmio {
  import opened Lists
  import opened MmioRange

  // ------------------------------------------------------------- state

  ghost predicate ListOk(l: seq<nat>, tab: map<nat, Range>) {
    NoDup(l) && forall k :: 0 <= k < |l| ==> l[k] in tab && Proper(tab[l[k]].gphys, tab[l[k]].len)
  }

  ghost predicate SortedBy(b: seq<nat>, tab: map<nat, Range>)
    requires forall k :: 0 <= k < |b| ==> b[k] in tab
  {
    forall j, k :: 0 <= j < k < |b| ==> tab[b[j]].gphys <= tab[b[k]].gphys
  }

  /** Handle id belongs in bucket i. */
  predicate Spans(h: Range, i: nat)
    requires 0 < h.len
  {
    BucketOf(h.gphys) <= i <= BucketOf(h.gphys + h.len - 1)
  }

  /** Bucket i holds exactly the registered handles that reach into it, by start address. */
  ghost predicate BucketOk(b: seq<nat>, i: nat, handleL: seq<nat>, tab: map<nat, Range>) {
    && ListOk(b, tab) && SortedBy(b, tab)
    && (forall id :: id in b ==> id in handleL && Spans(tab[id], i))
    && (forall id :: id in handleL && id in tab && 0 < tab[id].len && Spans(tab[id], i) ==> id in b)
  }

  ghost predicate Disjoint(handleL: seq<nat>, tab: map<nat, Range>)
    requires ListOk(handleL, tab)
  {
    forall j, k :: 0 <= j < |handleL| && 0 <= k < |handleL| && j != k ==>
      var a, b := tab[handleL[j]], tab[handleL[k]];
      a.dead || b.dead || !Meet(a.gphys, a.len, b.gphys, b.len)
  }

  ghost predicate IndexInv(handleL: seq<nat>, bucket: seq<seq<nat>>, tab: map<nat, Range>) {
    && ListOk(handleL, tab) && Disjoint(handleL, tab)
    && |bucket| == 17 && (forall i :: 0 <= i < 17 ==> BucketOk(bucket[i], i, handleL, tab))
  }

  /** The flat view: some live registered range has a byte in [g, g + len). */
  ghost predicate Touched(handleL: seq<nat>, tab: map<nat, Range>, g: nat, len: nat) {
    exists id :: id in handleL && id in tab && !tab[id].dead && Meet(tab[id].gphys, tab[id].len, g, len)
  }

  // ------------------------------------------------------------- list surgery

  /** add: before the first handle with a larger start, else at the tail. */
  function InsertSorted(b: seq<nat>, id: nat, tab: map<nat, Range>): (r: seq<nat>)
    requires id in tab && forall k :: 0 <= k < |b| ==> b[k] in tab
    ensures |r| == |b| + 1
    ensures forall x :: x in r <==> x in b || x == id
  {
    if b == [] then [id]
    else if tab[b[0]].gphys > tab[id].gphys then [id] + b
    else
      assert b == [b[0]] + b[1..];
      [b[0]] + InsertSorted(b[1..], id, tab)
  }

  lemma {:induction false} InsertSortedSound(b: seq<nat>, id: nat, tab: map<nat, Range>)
    requires ListOk(b, tab) && SortedBy(b, tab) && id in tab && id !in b && Proper(tab[id].gphys, tab[id].len)
    ensures var r := InsertSorted(b, id, tab); ListOk(r, tab) && SortedBy(r, tab)
  {
    if b != [] && tab[b[0]].gphys <= tab[id].gphys {
      var t := b[1..];
      assert b == [b[0]] + t;
      InsertSortedSound(t, id, tab);
      var u := InsertSorted(t, id, tab);
      forall k | 0 <= k < |u| ensures u[k] != b[0] && tab[b[0]].gphys <= tab[u[k]].gphys {
        assert u[k] in u;
      }
      ConsSorted(b[0], u, tab);
    } else {
      ConsSorted(id, b, tab);
    }
  }

  /** A new head that starts no later than the rest. */
  lemma ConsSorted(x: nat, u: seq<nat>, tab: map<nat, Range>)
    requires ListOk(u, tab) && SortedBy(u, tab) && x in tab && Proper(tab[x].gphys, tab[x].len) && x !in u
    requires forall k :: 0 <= k < |u| ==> tab[x].gphys <= tab[u[k]].gphys
    ensures ListOk([x] + u, tab) && SortedBy([x] + u, tab)
  {
    var r := [x] + u;
    forall k | 0 <= k < |r| ensures r[k] in tab && Proper(tab[r[k]].gphys, tab[r[k]].len) {
      if 0 < k { assert r[k] == u[k - 1]; }
    }
    forall j, k | 0 <= j < k < |r| ensures r[j] != r[k] && tab[r[j]].gphys <= tab[r[k]].gphys {
      assert r[k] == u[k - 1] && u[k - 1] in u;
      if 0 < j { assert r[j] == u[j - 1]; }
    }
  }

  lemma {:induction false} DelKeeps(b: seq<nat>, id: nat, tab: map<nat, Range>)
    requires ListOk(b, tab) && SortedBy(b, tab)
    ensures var r := Del(b, id); ListOk(r, tab) && SortedBy(r, tab)
  {
    DelNoDup(b, id);
    if b != [] && b[0] != id {
      var t := b[1..];
      DelKeeps(t, id, tab);
      var u := Del(t, id);
      forall k | 0 <= k < |u| ensures tab[b[0]].gphys <= tab[u[k]].gphys {
        assert u[k] in u && u[k] in t;
      }
    }
  }

  // ------------------------------------------------------------- accesses

  /** Who serves a piece: plain memory, a handler, plain memory after a handler declined,
      or a handler that is called after the lock is released. */
  datatype By = Direct | Handler(id: nat) | Declined(id: nat) | Deferred(id: nat)

  datatype Piece = Piece(addr: nat, off: nat, len: nat, who: By)

  /** The pieces tile [lo, hi) in order. */
  ghost predicate Tiles(p: seq<Piece>, lo: nat, hi: nat) {
    if p == [] then lo == hi
    else
      var z := p[|p| - 1];
      0 < z.len && z.addr + z.len == hi && lo <= z.addr && Tiles(p[..|p| - 1], lo, z.addr)
  }

  predicate Covers(z: Piece, x: nat) {
    z.addr <= x < z.addr + z.len
  }

  /** Tiling means that every byte is served exactly once. */
  lemma {:induction false} TilesOnce(p: seq<Piece>, lo: nat, hi: nat, x: nat)
    requires Tiles(p, lo, hi) && lo <= x < hi
    ensures exists k :: 0 <= k < |p| && Covers(p[k], x) && forall j :: 0 <= j < |p| && Covers(p[j], x) ==> j == k
    decreases |p|
  {
    if p != [] {
      var n := |p| - 1;
      TilesBound(p[..n], lo, p[n].addr);
      if x < p[n].addr {
        TilesOnce(p[..n], lo, p[n].addr, x);
        var k :| 0 <= k < n && Covers(p[..n][k], x) && forall j :: 0 <= j < n && Covers(p[..n][j], x) ==> j == k;
        assert Covers(p[k], x);
        forall j | 0 <= j < |p| && Covers(p[j], x) ensures j == k {
          assert j < n ==> p[..n][j] == p[j];
        }
      } else {
        assert Covers(p[n], x);
        assert forall j :: 0 <= j < n ==> p[..n][j] == p[j];
      }
    }
  }

  lemma {:induction false} TilesBound(p: seq<Piece>, lo: nat, hi: nat)
    requires Tiles(p, lo, hi)
    ensures lo <= hi && forall j :: 0 <= j < |p| ==> lo <= p[j].addr && p[j].addr + p[j].len <= hi && 0 < p[j].len
    decreases |p|
  {
    if p != [] {
      var n := |p| - 1;
      TilesBound(p[..n], lo, p[n].addr);
      forall j | 0 <= j < |p| ensures lo <= p[j].addr && p[j].addr + p[j].len <= hi && 0 < p[j].len {
        if j < n { assert p[..n][j] == p[j]; }
      }
    }
  }

  /** A piece is served rightly: at the right buffer offset, by the live handler that owns
      all of it, or directly where no live range reaches or its handler declined. */
  ghost predicate Right(z: Piece, g: nat, handleL: seq<nat>, tab: map<nat, Range>, handles: nat -> bool) {
    && z.off == z.addr - g
    && match z.who
       case Direct => !Touched(handleL, tab, z.addr, z.len)
       case Handler(id) => Owns(handleL, tab, id, z) && !tab[id].unlocked && handles(id)
       case Declined(id) => Owns(handleL, tab, id, z) && !tab[id].unlocked && !handles(id)
       case Deferred(id) => Owns(handleL, tab, id, z) && tab[id].unlocked
  }

  ghost predicate Owns(handleL: seq<nat>, tab: map<nat, Range>, id: nat, z: Piece) {
    && id in handleL && id in tab && !tab[id].dead
    && tab[id].gphys <= z.addr && z.addr + z.len <= tab[id].gphys + tab[id].len
  }

  ghost predicate AllRight(p: seq<Piece>, g: nat, handleL: seq<nat>, tab: map<nat, Range>, handles: nat -> bool) {
    forall k :: 0 <= k < |p| ==> Right(p[k], g, handleL, tab, handles)
  }

  /** Handles already seen by the access loop: those of earlier buckets and the first k of bucket i. */
  ghost predicate Seen(bucket: seq<seq<nat>>, i0: nat, i: nat, k: nat, id: nat)
    requires i <= |bucket| && (i < |bucket| ==> k <= |bucket[i]|)
  {
    (exists b :: i0 <= b < i && id in bucket[b]) || (i < |bucket| && id in bucket[i][..k])
  }

  /** No live handle seen so far reaches into what is left of the access. */
  ghost predicate DoneWith(bucket: seq<seq<nat>>, tab: map<nat, Range>, i0: nat, i: nat, k: nat, cur: nat, end: nat)
    requires i <= |bucket| && (i < |bucket| ==> k <= |bucket[i]|) && cur <= end
  {
    forall id :: id in tab && Seen(bucket, i0, i, k, id) && !tab[id].dead ==>
      !Meet(tab[id].gphys, tab[id].len, cur, end - cur)
  }

  /** A live range with byte x in an examined bucket has been seen. */
  lemma ByteSeen(handleL: seq<nat>, bucket: seq<seq<nat>>, tab: map<nat, Range>,
                 i0: nat, i: nat, k: nat, id: nat, x: nat)
    requires IndexInv(handleL, bucket, tab) && i <= 17 && (i < 17 ==> k <= |bucket[i]|)
    requires id in handleL && id in tab && InRange(tab[id], x) && i0 <= BucketOf(x)
    requires BucketOf(x) < i || (BucketOf(x) == i && k < |bucket[i]| && x < tab[bucket[i][k]].gphys)
    ensures Seen(bucket, i0, i, k, id)
  {
    var b := BucketOf(x);
    InList(handleL, tab, id);
    BucketMono(tab[id].gphys, x);
    BucketMono(x, tab[id].gphys + tab[id].len - 1);
    assert BucketOk(bucket[b], b, handleL, tab);
    if b == i {
      var j :| 0 <= j < |bucket[i]| && bucket[i][j] == id;
      assert bucket[i][..k][j] == id;
    }
  }

  /** A byte shared by a range and a non-empty interval. */
  function SharedByte(h: Range, cur: nat): nat {
    if h.gphys < cur then cur else h.gphys
  }

  lemma MeetsSeen(handleL: seq<nat>, bucket: seq<seq<nat>>, tab: map<nat, Range>,
                  i0: nat, i: nat, k: nat, cur: nat, hi: nat)
    requires IndexInv(handleL, bucket, tab) && i <= 17 && (i < 17 ==> k <= |bucket[i]|)
    requires cur < hi ==> i0 <= BucketOf(cur)
    requires cur < hi ==> BucketOf(hi - 1) < i || (i < 17 && k < |bucket[i]| && hi <= tab[bucket[i][k]].gphys)
    ensures forall id :: id in handleL && id in tab && cur < hi && Meet(tab[id].gphys, tab[id].len, cur, hi - cur) ==>
      Seen(bucket, i0, i, k, id)
  {
    forall id | id in handleL && id in tab && cur < hi && Meet(tab[id].gphys, tab[id].len, cur, hi - cur)
      ensures Seen(bucket, i0, i, k, id)
    {
      var x := SharedByte(tab[id], cur);
      BucketMono(cur, x);
      BucketMono(x, hi - 1);
      if BucketOf(hi - 1) >= i {
        assert bucket[i][k] in bucket[i];
        BucketMono(x, tab[bucket[i][k]].gphys);
      }
      ByteSeen(handleL, bucket, tab, i0, i, k, id, x);
    }
  }

  /** Whatever is left of the access below the next handle of the bucket is untouched. */
  lemma GapUntouched(handleL: seq<nat>, bucket: seq<seq<nat>>, tab: map<nat, Range>,
                     i0: nat, i: nat, k: nat, cur: nat, end: nat, hi: nat)
    requires IndexInv(handleL, bucket, tab) && i < 17 && k < |bucket[i]| && cur <= hi <= end
    requires DoneWith(bucket, tab, i0, i, k, cur, end) && i0 <= BucketOf(cur)
    requires hi <= tab[bucket[i][k]].gphys
    ensures cur < hi ==> !Touched(handleL, tab, cur, hi - cur)
  {
    MeetsSeen(handleL, bucket, tab, i0, i, k, cur, hi);
  }

  lemma InList(l: seq<nat>, tab: map<nat, Range>, id: nat)
    requires ListOk(l, tab) && id in l
    ensures id in tab && Proper(tab[id].gphys, tab[id].len)
  {
    var k :| 0 <= k < |l| && l[k] == id;
  }

  /** After the last bucket nothing live is left in the access. */
  lemma RestUntouched(handleL: seq<nat>, bucket: seq<seq<nat>>, tab: map<nat, Range>, i0: nat, i: nat, cur: nat, end: nat)
    requires IndexInv(handleL, bucket, tab) && i <= 17 && cur < end
    requires DoneWith(bucket, tab, i0, i, 0, cur, end) && i0 <= BucketOf(cur) && BucketOf(end - 1) < i
    ensures !Touched(handleL, tab, cur, end - cur)
  {
    MeetsSeen(handleL, bucket, tab, i0, i, 0, cur, end);
  }

  /** The outcome of an access: refused (no live range), served, or the panic on two
      unlocked handlers in one access. */
  datatype Outcome = NotMine | Served(pieces: seq<Piece>) | TwoUnlocked

  predicate IsDeferred(z: Piece) { z.who.Deferred? }

  /** A touched access that ends at the top of the address space: Index.Access refuses it. */
  lemma TopAccessTouched(tab: map<nat, Range>, bucket: seq<seq<nat>>)
    requires tab == map[0 := Range(TWO64 - 4096, 4096, false, false)]
    requires |bucket| == 17 && bucket[16] == [0] && forall i :: 0 <= i < 16 ==> bucket[i] == []
    ensures IndexInv([0], bucket, tab) && Touched([0], tab, TWO64 - 8, 8)
  {
    var l := [0];
    assert l[0] in tab && Meet(tab[l[0]].gphys, tab[l[0]].len, TWO64 - 8, 8);
    forall i | 0 <= i < 17 ensures BucketOk(bucket[i], i, l, tab) {
      assert !(i == 16) ==> !Spans(tab[0], i);
    }
  }

  class Index {
    var handleL: seq<nat>
    var bucket: seq<seq<nat>>
    var tab: map<nat, Range>

    ghost predicate Valid()
      reads this
    {
      IndexInv(handleL, bucket, tab)
    }

    /** mmio_init */
    constructor ()
      ensures Valid() && handleL == []
    {
      handleL := [];
      bucket := seq(17, i => []);
      tab := map[];
    }

    /** mmio_register_internal; `clr` is whether mmioclr_clear_gmap succeeded and `id` the
        address of the new handle. */
    method Register(id: nat, g: nat, len: nat, unlocked: bool, clr: bool) returns (ok: bool)
      requires Valid() && g < TWO64 && len < FOURG && id !in handleL
      modifies this
      ensures Valid() <==> !ok || Proper(g, len)
      ensures ok <==> clr && !old(Caught(handleL, tab, g, len))
      ensures Proper(g, len) ==> (ok <==> clr && !old(Touched(handleL, tab, g, len)))
      ensures ok ==> handleL == old(handleL) + [id] && tab == old(tab)[id := Range(g, len, false, unlocked)]
      ensures !ok ==> handleL == old(handleL) && tab == old(tab) && bucket == old(bucket)
    {
      if Proper(g, len) { CaughtTouched(handleL, tab, g, len); }
      var k := 0;
      while k < |handleL|
        invariant 0 <= k <= |handleL|
        invariant forall j :: 0 <= j < k ==> RangeCheck(tab[handleL[j]], g, len).Miss?
        modifies {}
      {
        if RangeCheck(tab[handleL[k]], g, len).Hit? { return false; }
        k := k + 1;
      }
      if !clr { return false; }
      tab := tab[id := Range(g, len, false, unlocked)];
      handleL := handleL + [id];
      ScanAdd(id, ScanFirst(g), ScanLast(g, len));
      if Proper(g, len) {
        RegisterKeeps(old(handleL), old(bucket), old(tab), id, handleL, bucket, tab);
      } else {
        assert handleL[|handleL| - 1] == id;
      }
      return true;
    }

    /** scan (gphys, len, add, p) */
    method ScanAdd(id: nat, s: nat, e: nat)
      requires |bucket| == 17 && s <= 16 && e <= 16 && id in tab && (forall i, x :: 0 <= i < 17 && x in bucket[i] ==> x in tab)
      modifies this`bucket
      ensures |bucket| == 17
      ensures forall i :: 0 <= i < 17 ==> bucket[i] == AddTo(old(bucket)[i], id, tab, s <= i <= e)
    {
      var i := s;
      while i <= e
        invariant s <= i && (i <= e + 1 || i == s) && |bucket| == 17
        invariant forall j :: 0 <= j < 17 ==> bucket[j] == AddTo(old(bucket)[j], id, tab, s <= j < i)
      {
        bucket := bucket[i := InsertSorted(bucket[i], id, tab)];
        i := i + 1;
      }
    }

    /** mmio_unregister when the lock is free */
    method Unregister(id: nat)
      requires Valid() && id in handleL
      modifies this
      ensures Valid() && tab == old(tab) && handleL == Del(old(handleL), id)
    {
      ghost var oldL := handleL;
      InList(handleL, tab, id);
      handleL := Del(handleL, id);
      var h := tab[id];
      ScanExact(h.gphys, h.len);
      var s, e := ScanFirst(h.gphys), ScanLast(h.gphys, h.len);
      BucketMono(h.gphys, h.gphys + h.len - 1);
      DelNoDup(oldL, id);
      forall j | 0 <= j < 17 && !(s <= j <= e) ensures BucketOk(bucket[j], j, handleL, tab) {
        BucketDel(bucket[j], j, oldL, id, tab);
        assert BucketOk(bucket[j], j, oldL, tab);
        assert id !in bucket[j];
        assert Del(bucket[j], id) == bucket[j];
      }
      var i := s;
      while i <= e
        invariant s <= i <= e + 1 && |bucket| == 17 && handleL == Del(oldL, id) && tab == old(tab)
        invariant forall j :: 0 <= j < 17 && (j < i || j > e) ==> BucketOk(bucket[j], j, handleL, tab)
        invariant forall j :: i <= j <= e ==> bucket[j] == old(bucket)[j]
      {
        assert BucketOk(old(bucket)[i], i, oldL, tab);
        BucketDel(bucket[i], i, oldL, id, tab);
        bucket := bucket[i := Del(bucket[i], id)];
        i := i + 1;
      }
      HandleDel(oldL, id, tab);
    }

    /** mmio_unregister when the lock is taken: the handle only stops answering. */
    method MarkUnregistered(id: nat)
      requires Valid() && id in handleL
      modifies this`tab
      ensures Valid() && id in old(tab) && tab == old(tab)[id := old(tab)[id].(dead := true)]
    {
      InList(handleL, tab, id);
      tab := tab[id := tab[id].(dead := true)];
      forall i | 0 <= i < 17 ensures BucketOk(bucket[i], i, handleL, tab) {
        BucketDead(bucket[i], i, handleL, old(tab), id, tab);
      }
    }

    /** mmio_access_memory: `handles (id)` is whether the handler of id takes the access.
        Below the top of the address space the result is 0 iff no live range is touched, the
        panic is reached iff two unlocked ranges are, and otherwise the pieces tile the access
        and each is served rightly, at most one of them deferred. An access that ends at or
        past the top is never served, because the end is 0 or small in 64 bits. */
    method Access(g: nat, len: nat, handles: nat -> bool) returns (o: Outcome)
      requires Valid() && g < TWO64 && len < FOURG
      ensures o.NotMine? <==> len == 0 || TWO64 <= g + len || !Touched(handleL, tab, g, len)
      ensures o.TwoUnlocked? <==> g + len < TWO64 && TwoMeet(handleL, tab, g, len)
      ensures o.Served? ==> Tiles(o.pieces, g, g + len) && AllRight(o.pieces, g, handleL, tab, handles)
      ensures o.Served? ==> OneDeferred(o.pieces)
    {
      var i0, j := BucketOf(g), BucketOf(W(g + len - 1));
      if len == 0 { return NotMine; }
      var end := g + len;
      if TWO64 <= end {
        o := AccessTop(i0, j, end);
        return;
      }
      WrapSmall(end - 1);
      o := AccessBelow(g, end, i0, j, handles);
    }

    /** The loops over the buckets when gphysaddr + len fits into 64 bits. */
    method AccessBelow(g: nat, end: nat, i0: nat, j: nat, handles: nat -> bool) returns (o: Outcome)
      requires Valid() && g < end < TWO64 && i0 == BucketOf(g) && j == BucketOf(end - 1)
      ensures o.NotMine? <==> !Touched(handleL, tab, g, end - g)
      ensures o.TwoUnlocked? <==> TwoMeet(handleL, tab, g, end - g)
      ensures o.Served? ==> Tiles(o.pieces, g, end) && AllRight(o.pieces, g, handleL, tab, handles)
      ensures o.Served? ==> OneDeferred(o.pieces)
    {
      BucketMono(g, end - 1);
      var st, stop := Scan([], g, false, false), Go;
      var i := i0;
      assert DoneWith(bucket, tab, i0, i, 0, g, end);
      while i <= j && stop == Go
        invariant i0 <= i <= j + 1
        invariant Scanned(st, stop, i0, i, g, end, handleL, bucket, tab, handles)
      {
        st, stop := ScanBucket(i0, i, g, end, st, handles);
        i := i + 1;
      }
      if stop == TwoFound {
        TwoTouched(handleL, tab, g, end - g);
        return TwoUnlocked;
      }
      if stop == Go {
        BucketMono(g, st.cur);
        RestUntouched(handleL, bucket, tab, i0, i, st.cur, end);
      }
      if !st.r {
        assert st.cur == g && !Touched(handleL, tab, g, end - g);
        TwoTouched(handleL, tab, g, end - g);
        return NotMine;
      }
      var p := Close(st, g, end, handles);
      return Served(p);
    }

    /** What is left after the loop is served directly. */
    method Close(st: Scan, g: nat, end: nat, handles: nat -> bool) returns (p: seq<Piece>)
      requires Valid() && g < end && st.cur <= end && Progress(st, g, handleL, tab, handles) && st.r
      requires st.cur == end || !Touched(handleL, tab, st.cur, end - st.cur)
      ensures Tiles(p, g, end) && AllRight(p, g, handleL, tab, handles) && OneDeferred(p)
      ensures !TwoMeet(handleL, tab, g, end - g)
    {
      p := st.p;
      if st.cur < end {
        var z := Piece(st.cur, st.cur - g, end - st.cur, Direct);
        Snoc(st, z, g, handleL, tab, handles);
        p := p + [z];
      }
      NotTwo(p, g, end, handleL, tab, handles);
    }

    /** The same loops when gphysaddr + len does not fit into 64 bits: the first handle met
        starts at or above the wrapped end, if a bucket is visited at all. */
    method AccessTop(i0: nat, j: nat, end: nat) returns (o: Outcome)
      requires Valid() && i0 <= 16 && j <= 16 && TWO64 <= end < TWO64 + FOURG
      requires end == TWO64 || j < i0
      ensures o == NotMine
    {
      var i := i0;
      while i <= j
        invariant i <= 17
      {
        if 0 < |bucket[i]| {
          assert W(end) == 0;
          if tab[bucket[i][0]].gphys >= W(end) { return NotMine; }
        }
        i := i + 1;
      }
      return NotMine;
    }

    /** The LIST1_FOREACH loop over one bucket. */
    method ScanBucket(i0: nat, i: nat, g: nat, end: nat, st0: Scan, handles: nat -> bool) returns (st: Scan, stop: Stop)
      requires Valid() && i0 <= i < 17 && g < end < TWO64 && i0 == BucketOf(g)
      requires Scanned(st0, Go, i0, i, g, end, handleL, bucket, tab, handles)
      ensures Scanned(st, stop, i0, i + 1, g, end, handleL, bucket, tab, handles)
    {
      st, stop := st0, Go;
      var k := 0;
      while k < |bucket[i]|
        invariant 0 <= k <= |bucket[i]| && g <= st.cur < end && stop == Go
        invariant DoneWith(bucket, tab, i0, i, k, st.cur, end)
        invariant Progress(st, g, handleL, tab, handles) && (st.r ==> Touched(handleL, tab, g, end - g))
        invariant st.found ==> OneMet(handleL, tab, g, st.cur)
      {
        st, stop := ScanEntry(i0, i, k, g, end, st, handles);
        if stop != Go { return; }
        k := k + 1;
      }
      SeenBucket(bucket, tab, i0, i, st.cur, end);
    }

    /** The body of that loop, for entry k of the bucket. */
    method ScanEntry(i0: nat, i: nat, k: nat, g: nat, end: nat, st0: Scan, handles: nat -> bool)
      returns (st: Scan, stop: Stop)
      requires Valid() && i0 <= i < 17 && g < end < TWO64 && i0 == BucketOf(g) && k < |bucket[i]|
      requires g <= st0.cur < end && DoneWith(bucket, tab, i0, i, k, st0.cur, end)
      requires Progress(st0, g, handleL, tab, handles) && (st0.r ==> Touched(handleL, tab, g, end - g))
      requires st0.found ==> OneMet(handleL, tab, g, st0.cur)
      ensures stop == Go ==> g <= st.cur < end && DoneWith(bucket, tab, i0, i, k + 1, st.cur, end)
      ensures stop == Go ==> Progress(st, g, handleL, tab, handles) && (st.r ==> Touched(handleL, tab, g, end - g))
      ensures stop == Go && st.found ==> OneMet(handleL, tab, g, st.cur)
      ensures stop != Go ==> Scanned(st, stop, i0, i + 1, g, end, handleL, bucket, tab, handles)
    {
      st, stop := st0, Go;
      var id := bucket[i][k];
      assert BucketOk(bucket[i], i, handleL, tab) && id in bucket[i];
      BucketMono(g, st.cur);
      WrapSmall(end);
      if tab[id].gphys >= W(end) {
        GapUntouched(handleL, bucket, tab, i0, i, k, st.cur, end, end);
        return st, Out;
      }
      var hit := RangeCheck(tab[id], st.cur, end - st.cur);
      HitOwned(handleL, tab, id, g, st.cur, end, hit);
      if hit.Hit? {
        if hit.g > st.cur { GapUntouched(handleL, bucket, tab, i0, i, k, st.cur, end, hit.g); }
        if tab[id].unlocked && st.found {
          SecondMet(handleL, tab, g, st.cur, end, id);
          return st, TwoFound;
        }
        st := Extend(st, g, hit.g, hit.len, id, handles);
        if st.cur == end { return st, Out; }
        FoundStep(handleL, tab, g, st0, st, id);
      }
      SeenStep(bucket, tab, i0, i, k, st0.cur, st.cur, end);
    }

    /** One hit: the gap before it directly, then the handler's part. */
    method Extend(st: Scan, g: nat, at: nat, n: nat, id: nat, handles: nat -> bool) returns (q: Scan)
      requires g <= st.cur <= at && 0 < n && Progress(st, g, handleL, tab, handles)
      requires st.cur < at ==> !Touched(handleL, tab, st.cur, at - st.cur)
      requires Owns(handleL, tab, id, Piece(at, at - g, n, Direct)) && !(tab[id].unlocked && st.found)
      ensures Progress(q, g, handleL, tab, handles) && q.r && q.cur == at + n
      ensures q.found == (st.found || tab[id].unlocked)
    {
      q := st.(r := true);
      if st.cur < at {
        var gap := Piece(st.cur, st.cur - g, at - st.cur, Direct);
        Snoc(q, gap, g, handleL, tab, handles);
        q := q.(p := q.p + [gap], cur := at);
      }
      var who := if tab[id].unlocked then Deferred(id) else if handles(id) then Handler(id) else Declined(id);
      var z := Piece(at, at - g, n, who);
      Snoc(q, z, g, handleL, tab, handles);
      q := q.(p := q.p + [z], cur := at + n, found := q.found || tab[id].unlocked);
    }
  }

  /** The locals of mmio_access_memory: pieces so far, gphysaddr, r, unlocked_handler.found. */
  datatype Scan = Scan(p: seq<Piece>, cur: nat, r: bool, found: bool)

  datatype Stop = Go | Out | TwoFound

  /** What the access loop has done so far. */
  ghost predicate Progress(st: Scan, g: nat, handleL: seq<nat>, tab: map<nat, Range>, handles: nat -> bool) {
    && g <= st.cur && Tiles(st.p, g, st.cur) && AllRight(st.p, g, handleL, tab, handles)
    && (!st.r ==> st.cur == g && !st.found)
    && (forall j :: 0 <= j < |st.p| && IsDeferred(st.p[j]) ==> st.found)
    && OneDeferred(st.p)
  }

  lemma Snoc(st: Scan, z: Piece, g: nat, handleL: seq<nat>, tab: map<nat, Range>, handles: nat -> bool)
    requires Progress(st, g, handleL, tab, handles) && st.r && z.addr == st.cur && 0 < z.len
    requires Right(z, g, handleL, tab, handles) && !(IsDeferred(z) && st.found)
    ensures Progress(Scan(st.p + [z], z.addr + z.len, true, st.found || IsDeferred(z)), g, handleL, tab, handles)
  {
    var q := st.p + [z];
    assert q[..|st.p|] == st.p;
    forall k | 0 <= k < |q| ensures Right(q[k], g, handleL, tab, handles) {
    }
  }

  /** After the buckets before i: go on, leave the loop because nothing more can be hit, or
      panic. */
  ghost predicate Scanned(st: Scan, stop: Stop, i0: nat, i: nat, g: nat, end: nat,
                          handleL: seq<nat>, bucket: seq<seq<nat>>, tab: map<nat, Range>, handles: nat -> bool) {
    && i <= |bucket| && Progress(st, g, handleL, tab, handles) && st.cur <= end && g < end
    && (st.r ==> Touched(handleL, tab, g, end - g))
    && (stop == Go ==> st.cur < end && DoneWith(bucket, tab, i0, i, 0, st.cur, end))
    && (stop == Out ==> st.cur == end || !Touched(handleL, tab, st.cur, end - st.cur))
    && (stop == Go && st.found ==> OneMet(handleL, tab, g, st.cur))
    && (stop == TwoFound ==> st.r && TwoMeet(handleL, tab, g, end - g))
  }

  ghost predicate OneDeferred(p: seq<Piece>) {
    forall j, k :: 0 <= j < |p| && 0 <= k < |p| && IsDeferred(p[j]) && IsDeferred(p[k]) ==> j == k
  }

  lemma SeenStep(bucket: seq<seq<nat>>, tab: map<nat, Range>, i0: nat, i: nat, k: nat, cur: nat, next: nat, end: nat)
    requires i < |bucket| && k < |bucket[i]| && cur <= next <= end && bucket[i][k] in tab
    requires DoneWith(bucket, tab, i0, i, k, cur, end)
    requires var h := tab[bucket[i][k]]; h.dead || !Meet(h.gphys, h.len, next, end - next)
    ensures DoneWith(bucket, tab, i0, i, k + 1, next, end)
  {
    assert bucket[i][..k + 1] == bucket[i][..k] + [bucket[i][k]];
    forall id | id in tab && Seen(bucket, i0, i, k + 1, id) && !tab[id].dead
      ensures !Meet(tab[id].gphys, tab[id].len, next, end - next)
    {
      if id != bucket[i][k] { assert Seen(bucket, i0, i, k, id); }
    }
  }

  lemma SeenBucket(bucket: seq<seq<nat>>, tab: map<nat, Range>, i0: nat, i: nat, cur: nat, end: nat)
    requires i0 <= i < |bucket| && cur <= end && DoneWith(bucket, tab, i0, i, |bucket[i]|, cur, end)
    ensures DoneWith(bucket, tab, i0, i + 1, 0, cur, end)
  {
    assert bucket[i][..|bucket[i]|] == bucket[i];
    forall id | id in tab && Seen(bucket, i0, i + 1, 0, id) && !tab[id].dead
      ensures !Meet(tab[id].gphys, tab[id].len, cur, end - cur)
    {
      assert Seen(bucket, i0, i, |bucket[i]|, id);
    }
  }

  // ------------------------------------------------------------- unlocked handlers

  /** A live unlocked handle has a byte in [g, g + len). */
  predicate Unlocked(handleL: seq<nat>, tab: map<nat, Range>, id: nat, g: nat, len: nat) {
    id in handleL && id in tab && !tab[id].dead && tab[id].unlocked && Meet(tab[id].gphys, tab[id].len, g, len)
  }

  ghost predicate TwoMeet(handleL: seq<nat>, tab: map<nat, Range>, g: nat, len: nat) {
    exists a, b :: a != b && Unlocked(handleL, tab, a, g, len) && Unlocked(handleL, tab, b, g, len)
  }

  /** An unlocked handle was met, and lies below cur. */
  ghost predicate OneMet(handleL: seq<nat>, tab: map<nat, Range>, g: nat, cur: nat)
    requires g <= cur
  {
    exists a :: Unlocked(handleL, tab, a, g, cur - g) && tab[a].gphys + tab[a].len <= cur
  }

  /** What rangecheck reports of a registered handle. */
  lemma HitOwned(handleL: seq<nat>, tab: map<nat, Range>, id: nat, g: nat, cur: nat, end: nat, hit: Hit)
    requires id in handleL && ListOk(handleL, tab) && id in tab && g <= cur < end <= TWO64
    requires hit == RangeCheck(tab[id], cur, end - cur)
    ensures hit.Hit? <==> !tab[id].dead && Meet(tab[id].gphys, tab[id].len, cur, end - cur)
    ensures hit.Hit? ==> Touched(handleL, tab, g, end - g) && cur <= hit.g && hit.g + hit.len <= end && 0 < hit.len
    ensures hit.Hit? ==> Owns(handleL, tab, id, Piece(hit.g, hit.g - g, hit.len, Direct))
    ensures hit.Hit? && cur < hit.g ==> hit.g == tab[id].gphys
    ensures hit.Hit? && hit.g + hit.len < end ==> hit.g + hit.len == tab[id].gphys + tab[id].len
  {
    InList(handleL, tab, id);
    RangeCheckExact(tab[id], cur, end - cur);
  }

  lemma TwoTouched(handleL: seq<nat>, tab: map<nat, Range>, g: nat, len: nat)
    ensures TwoMeet(handleL, tab, g, len) ==> Touched(handleL, tab, g, len)
  {
    if a, b :| a != b && Unlocked(handleL, tab, a, g, len) && Unlocked(handleL, tab, b, g, len) {
      assert Touched(handleL, tab, g, len);
    }
  }

  lemma SecondMet(handleL: seq<nat>, tab: map<nat, Range>, g: nat, cur: nat, end: nat, id: nat)
    requires g <= cur < end && OneMet(handleL, tab, g, cur) && Unlocked(handleL, tab, id, cur, end - cur)
    ensures TwoMeet(handleL, tab, g, end - g)
  {
    var a :| Unlocked(handleL, tab, a, g, cur - g) && tab[a].gphys + tab[a].len <= cur;
    assert a != id && Unlocked(handleL, tab, a, g, end - g) && Unlocked(handleL, tab, id, g, end - g);
  }

  lemma FoundStep(handleL: seq<nat>, tab: map<nat, Range>, g: nat, st: Scan, q: Scan, id: nat)
    requires g <= st.cur < q.cur && id in handleL && id in tab && !tab[id].dead && q.cur == tab[id].gphys + tab[id].len
    requires 0 < tab[id].len && q.found == (st.found || tab[id].unlocked)
    requires st.found ==> OneMet(handleL, tab, g, st.cur)
    ensures q.found ==> OneMet(handleL, tab, g, q.cur)
  {
    if st.found {
      var a :| Unlocked(handleL, tab, a, g, st.cur - g) && tab[a].gphys + tab[a].len <= st.cur;
      assert Unlocked(handleL, tab, a, g, q.cur - g);
    } else if q.found {
      assert Unlocked(handleL, tab, id, g, q.cur - g);
    }
  }

  /** Where the pieces are right, a live unlocked handle that is met has a deferred piece. */
  lemma HasPiece(p: seq<Piece>, g: nat, end: nat, handleL: seq<nat>, tab: map<nat, Range>, handles: nat -> bool, a: nat)
      returns (k: nat)
    requires g < end && Tiles(p, g, end) && AllRight(p, g, handleL, tab, handles)
    requires ListOk(handleL, tab) && Disjoint(handleL, tab) && Unlocked(handleL, tab, a, g, end - g)
    ensures k < |p| && p[k].who == Deferred(a)
  {
    InList(handleL, tab, a);
    var x := SharedByte(tab[a], g);
    TilesOnce(p, g, end, x);
    k :| 0 <= k < |p| && Covers(p[k], x);
    assert Right(p[k], g, handleL, tab, handles);
    assert Meet(tab[a].gphys, tab[a].len, p[k].addr, p[k].len);
    if !p[k].who.Direct? {
      var id := p[k].who.id;
      InList(handleL, tab, id);
      var m :| 0 <= m < |handleL| && handleL[m] == a;
      var n :| 0 <= n < |handleL| && handleL[n] == id;
      assert Meet(tab[a].gphys, tab[a].len, tab[id].gphys, tab[id].len);
    }
  }

  lemma NotTwo(p: seq<Piece>, g: nat, end: nat, handleL: seq<nat>, tab: map<nat, Range>, handles: nat -> bool)
    requires g < end && Tiles(p, g, end) && AllRight(p, g, handleL, tab, handles) && OneDeferred(p)
    requires ListOk(handleL, tab) && Disjoint(handleL, tab)
    ensures !TwoMeet(handleL, tab, g, end - g)
  {
    if TwoMeet(handleL, tab, g, end - g) {
      var a, b :| a != b && Unlocked(handleL, tab, a, g, end - g) && Unlocked(handleL, tab, b, g, end - g);
      var j := HasPiece(p, g, end, handleL, tab, handles, a);
      var k := HasPiece(p, g, end, handleL, tab, handles, b);
      assert IsDeferred(p[j]) && IsDeferred(p[k]);
    }
  }

  // ------------------------------------------------------------- registration lemmas

  lemma BucketKept(b: seq<nat>, i: nat, oldL: seq<nat>, oldTab: map<nat, Range>, id: nat, tab: map<nat, Range>)
    requires BucketOk(b, i, oldL, oldTab) && id !in oldL && id in tab && tab == oldTab[id := tab[id]]
    requires 0 < tab[id].len && !Spans(tab[id], i)
    ensures BucketOk(b, i, oldL + [id], tab)
  {
    forall k | 0 <= k < |b| ensures b[k] != id { assert b[k] in b; }
  }

  lemma BucketAdd(b: seq<nat>, i: nat, oldL: seq<nat>, oldTab: map<nat, Range>, id: nat, tab: map<nat, Range>)
    requires BucketOk(b, i, oldL, oldTab) && id !in oldL && id in tab && tab == oldTab[id := tab[id]]
    requires Proper(tab[id].gphys, tab[id].len) && Spans(tab[id], i)
    ensures forall k :: 0 <= k < |b| ==> b[k] in tab
    ensures BucketOk(InsertSorted(b, id, tab), i, oldL + [id], tab)
  {
    forall k | 0 <= k < |b| ensures b[k] != id && b[k] in tab && tab[b[k]] == oldTab[b[k]] { assert b[k] in b; }
    InsertSortedSound(b, id, tab);
  }

  /** What scan with add does to one bucket. */
  function AddTo(b: seq<nat>, id: nat, tab: map<nat, Range>, here: bool): seq<nat>
    requires id in tab && forall x :: x in b ==> x in tab
  {
    if here then InsertSorted(b, id, tab) else b
  }

  /** rangecheck refuses the new range. */
  ghost predicate Caught(handleL: seq<nat>, tab: map<nat, Range>, g: nat, len: nat) {
    exists k :: 0 <= k < |handleL| && handleL[k] in tab && RangeCheck(tab[handleL[k]], g, len).Hit?
  }

  lemma CaughtTouched(handleL: seq<nat>, tab: map<nat, Range>, g: nat, len: nat)
    requires ListOk(handleL, tab) && Proper(g, len)
    ensures Caught(handleL, tab, g, len) <==> Touched(handleL, tab, g, len)
  {
    if k :| 0 <= k < |handleL| && RangeCheck(tab[handleL[k]], g, len).Hit? {
      RangeCheckExact(tab[handleL[k]], g, len);
      assert handleL[k] in handleL;
    }
    if id :| id in handleL && id in tab && !tab[id].dead && Meet(tab[id].gphys, tab[id].len, g, len) {
      var k :| 0 <= k < |handleL| && handleL[k] == id;
      RangeCheckExact(tab[handleL[k]], g, len);
    }
  }

  /** The index after a proper range was registered. */
  lemma RegisterKeeps(oldL: seq<nat>, oldB: seq<seq<nat>>, oldTab: map<nat, Range>, id: nat,
                      handleL: seq<nat>, bucket: seq<seq<nat>>, tab: map<nat, Range>)
    requires IndexInv(oldL, oldB, oldTab) && id !in oldL && handleL == oldL + [id]
    requires id in tab && tab == oldTab[id := tab[id]] && Proper(tab[id].gphys, tab[id].len)
    requires !Touched(oldL, oldTab, tab[id].gphys, tab[id].len)
    requires |bucket| == 17 && forall i, x :: 0 <= i < 17 && x in oldB[i] ==> x in tab
    requires var s, e := ScanFirst(tab[id].gphys), ScanLast(tab[id].gphys, tab[id].len);
      forall i :: 0 <= i < 17 ==> bucket[i] == AddTo(oldB[i], id, tab, s <= i <= e)
    ensures IndexInv(handleL, bucket, tab)
  {
    var h := tab[id];
    ScanExact(h.gphys, h.len);
    forall i | 0 <= i < 17 ensures BucketOk(bucket[i], i, handleL, tab) {
      assert BucketOk(oldB[i], i, oldL, oldTab);
      if Spans(h, i) {
        BucketAdd(oldB[i], i, oldL, oldTab, id, tab);
      } else {
        BucketKept(oldB[i], i, oldL, oldTab, id, tab);
      }
    }
    forall j | 0 <= j < |oldL| ensures oldTab[oldL[j]].dead || !Meet(oldTab[oldL[j]].gphys, oldTab[oldL[j]].len, h.gphys, h.len) {
      assert oldL[j] in oldL;
    }
    HandleAdd(oldL, oldTab, id, tab);
  }

  lemma HandleAdd(oldL: seq<nat>, oldTab: map<nat, Range>, id: nat, tab: map<nat, Range>)
    requires ListOk(oldL, oldTab) && Disjoint(oldL, oldTab) && id !in oldL && id in tab && tab == oldTab[id := tab[id]]
    requires Proper(tab[id].gphys, tab[id].len)
    requires forall j :: 0 <= j < |oldL| ==>
      oldTab[oldL[j]].dead || !Meet(oldTab[oldL[j]].gphys, oldTab[oldL[j]].len, tab[id].gphys, tab[id].len)
    ensures ListOk(oldL + [id], tab) && Disjoint(oldL + [id], tab)
  {
  }

  lemma BucketDel(b: seq<nat>, i: nat, oldL: seq<nat>, id: nat, tab: map<nat, Range>)
    requires BucketOk(b, i, oldL, tab) && NoDup(oldL)
    ensures BucketOk(Del(b, id), i, Del(oldL, id), tab)
  {
    DelNoDup(b, id);
    DelNoDup(oldL, id);
    DelKeeps(b, id, tab);
  }

  lemma BucketDead(b: seq<nat>, i: nat, l: seq<nat>, oldTab: map<nat, Range>, id: nat, tab: map<nat, Range>)
    requires BucketOk(b, i, l, oldTab) && id in oldTab && tab == oldTab[id := oldTab[id].(dead := true)]
    ensures BucketOk(b, i, l, tab)
  {
  }

  lemma HandleDel(oldL: seq<nat>, id: nat, tab: map<nat, Range>)
    requires ListOk(oldL, tab) && Disjoint(oldL, tab)
    ensures ListOk(Del(oldL, id), tab) && Disjoint(Del(oldL, id), tab)
  {
    var d := Del(oldL, id);
    DelNoDup(oldL, id);
    forall k | 0 <= k < |d| ensures d[k] in tab && Proper(tab[d[k]].gphys, tab[d[k]].len) {
      assert d[k] in d && d[k] in oldL;
      InList(oldL, tab, d[k]);
    }
    forall j, k | 0 <= j < |d| && 0 <= k < |d| && j != k
      ensures tab[d[j]].dead || tab[d[k]].dead || !Meet(tab[d[j]].gphys, tab[d[j]].len, tab[d[k]].gphys, tab[d[k]].len)
    {
      assert d[j] in d && d[k] in d && d[j] in oldL && d[k] in oldL;
      var a :| 0 <= a < |oldL| && oldL[a] == d[j];
      var b :| 0 <= b < |oldL| && oldL[b] == d[k];
    }
  }
}
