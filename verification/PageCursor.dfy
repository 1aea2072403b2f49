/** The caching page-table cursor (mm.c, pmap_t): a walk that keeps the entries it has read
    and resumes from the deepest one that still applies. */
module PageCursor {
  import opened Words

  /** Physical memory, by the address of the entry; what was never written is zero. */
  type Mem = map<Word, Word>

  function Rd(mem: Mem, a: Word): Word {
    if a in mem then mem[a] else {}
  }

  /** An entry has 32 bits with two levels. */
  function Cut(levels: nat, e: Word): Word {
    if levels == 2 then e * Bits(0, 31) else e
  }

  // ------------------------------------------------------------- one step of a walk

  /** The index part of the address of the entry at level l (0 is the page table). */
  function Index(levels: nat, va: Word, l: nat): Word {
    if levels == 2 then Down(va, 10 + 10 * l) * Bits(2, 11) else Down(va, 9 + 9 * l) * Bits(3, 11)
  }

  /** Where the table is that an entry of level k points at. */
  function Table(levels: nat, k: nat, e: Word): Word {
    if levels == 3 && k == 3 then e * Bits(5, 31) else e * Bits(12, 47)
  }

  /** The address of the entry at level l, below entry e of level l + 1. */
  function Cell(levels: nat, e: Word, va: Word, l: nat): Word {
    Table(levels, l + 1, e) + Index(levels, va, l)
  }

  /** A 2 MiB entry made from a 1 GiB entry. */
  function Split1G(e: Word, va: Word): Word {
    (e - Bits(21, 29)) + va * Bits(21, 29)
  }

  /** A 4 KiB entry made from a 2 MiB entry, or a 4 MiB entry with two levels. */
  function SplitPde(levels: nat, e: Word, va: Word): Word {
    var t := e - {PS};
    var u := if LARGE_PAT in t then (t + {PAT}) - {LARGE_PAT} else t;
    if levels == 2 then
      var w := u + Up(Down(u * Bits(13, 20), 13), 32);
      (w - Bits(12, 21)) + va * Bits(12, 21)
    else (u - Bits(12, 20)) + va * Bits(12, 20)
  }

  /** Does entry e of level k map a large page? */
  predicate Large(e: Word, k: nat) {
    PS in e && (k == 1 || k == 2)
  }

  /** The entry of level k - 1 that entry e of level k leads to. */
  function Step(mem: Mem, levels: nat, e: Word, va: Word, k: nat): Word
    requires k > 0
  {
    if P !in e then {}
    else if PS in e && k == 2 then Split1G(e, va)
    else if PS in e && k == 1 then SplitPde(levels, e, va)
    else Cut(levels, Rd(mem, Cell(levels, e, va, k - 1)))
  }

  /** The entry of level l that entry e of level k leads to: the walk without a cache. */
  ghost function Walk(mem: Mem, levels: nat, e: Word, va: Word, k: nat, l: nat): Word
    requires l <= k
    decreases k
  {
    if l == k then e else Walk(mem, levels, Step(mem, levels, e, va, k), va, k - 1, l)
  }

  lemma {:induction false} WalkNothing(mem: Mem, levels: nat, e: Word, va: Word, k: nat, l: nat)
    requires l < k && P !in e
    ensures Walk(mem, levels, e, va, k, l) == {}
    decreases k
  {
    if l < k - 1 { WalkNothing(mem, levels, {}, va, k - 1, l); }
  }

  lemma {:induction false} WalkSplit(mem: Mem, levels: nat, e: Word, va: Word, k: nat, m: nat, l: nat)
    requires l <= m <= k
    ensures Walk(mem, levels, e, va, k, l) == Walk(mem, levels, Walk(mem, levels, e, va, k, m), va, m, l)
    decreases k
  {
    if m < k { WalkSplit(mem, levels, Step(mem, levels, e, va, k), va, k - 1, m, l); }
  }

  // ------------------------------------------------------------- large pages

  /** The physical address of va in a page of 2^s bytes mapped by e. */
  function PageAddr(e: Word, va: Word, s: nat): Word {
    e * Bits(s, 51) + (if s == 0 then {} else va * Bits(0, s - 1))
  }

  /** The same for a 4 MiB page, whose entry has address bits 32 to 39 in bits 13 to 20. */
  function PageAddr4M(e: Word, va: Word): Word {
    e * Bits(22, 31) + Up(Down(e * Bits(13, 20), 13), 32) + va * Bits(0, 21)
  }

  /** A split 1 GiB entry maps every address in it to the same place with the same type. */
  lemma Split1GExact(e: Word, va: Word)
    ensures var f := Split1G(e, va);
      && PageAddr(f, va, 21) == PageAddr(e, va, 30)
      && f * (Bits(0, 20) + Bits(52, 63)) == e * (Bits(0, 20) + Bits(52, 63))
  {
    var f := Split1G(e, va);
    forall i ensures i in PageAddr(f, va, 21) <==> i in PageAddr(e, va, 30) {
    }
  }

  /** A split 2 MiB entry maps every address in it to the same place with the same type, and
      keeps all other attributes. */
  lemma Split2MExact(levels: nat, e: Word, va: Word)
    requires levels != 2
    ensures var f := SplitPde(levels, e, va);
      && PageAddr(f, va, 12) == PageAddr(e, va, 21) && (PAT in f <==> LARGE_PAT in e)
      && f * (Bits(0, 6) + Bits(8, 11) + Bits(52, 63)) == e * (Bits(0, 6) + Bits(8, 11) + Bits(52, 63))
  {
    var f := SplitPde(levels, e, va);
    forall i ensures i in PageAddr(f, va, 12) <==> i in PageAddr(e, va, 21) {
    }
  }

  /** The same for a 4 MiB entry, a word of 32 bits. */
  lemma Split4MExact(e: Word, va: Word)
    requires e <= Bits(0, 31)
    ensures var f := SplitPde(2, e, va);
      && PageAddr(f, va, 12) == PageAddr4M(e, va) && (PAT in f <==> LARGE_PAT in e)
      && f * (Bits(0, 6) + Bits(8, 11)) == e * (Bits(0, 6) + Bits(8, 11))
  {
    var t := e - {PS};
    var u := if LARGE_PAT in t then (t + {PAT}) - {LARGE_PAT} else t;
    assert u * Bits(13, 20) == e * Bits(13, 20);
    var hi := Up(Down(e * Bits(13, 20), 13), 32);
    forall i: nat ensures i in hi <==> 32 <= i <= 39 && i - 19 in e {
      UpIn(Down(e * Bits(13, 20), 13), 32, i);
      if i >= 32 { DownIn(e * Bits(13, 20), 13, i - 32); }
    }
    var f := SplitPde(2, e, va);
    assert f == ((u + hi) - Bits(12, 21)) + va * Bits(12, 21);
    forall i ensures i in PageAddr(f, va, 12) <==> i in PageAddr4M(e, va) {
    }
  }

  // ------------------------------------------------------------- the cursor

  /** pmap_t without the cache contents' owner: entry[levels] is the root. */
  datatype Cursor = Cursor(levels: nat, readlevel: nat, curlevel: nat, entry: seq<Word>, entryaddr: seq<Word>, curaddr: Word)

  predicate Shaped(c: Cursor) {
    && 2 <= c.levels <= 4 && c.readlevel <= c.levels && c.curlevel <= c.levels && |c.entry| == 5 && |c.entryaddr| == 5
    && Linear(c.levels, c.curaddr)
  }

  /** Linear addresses of 32 bits below four levels. */
  predicate Linear(levels: nat, va: Word) {
    levels < 4 ==> va <= Bits(0, 31)
  }

  /** What the cursor holds is what a walk for its address finds in memory. */
  ghost predicate Fits(c: Cursor, mem: Mem) {
    Shaped(c) && forall l :: c.readlevel <= l < c.levels ==> FitsAt(c, mem, l)
  }

  /** Entry l was read from the table that entry l + 1 points at. */
  ghost predicate FitsAt(c: Cursor, mem: Mem, l: nat)
    requires Shaped(c) && l < c.levels
  {
    && P in c.entry[l + 1] && !Large(c.entry[l + 1], l + 1)
    && c.entryaddr[l] == Cell(c.levels, c.entry[l + 1], c.curaddr, l)
    && c.entry[l] == Cut(c.levels, Rd(mem, c.entryaddr[l]))
  }

  lemma {:induction false} FitsWalk(c: Cursor, mem: Mem, l: nat)
    requires Fits(c, mem) && c.readlevel <= l <= c.levels
    ensures Walk(mem, c.levels, c.entry[c.levels], c.curaddr, c.levels, l) == c.entry[l]
    decreases c.levels - l
  {
    if l < c.levels {
      FitsWalk(c, mem, l + 1);
      WalkSplit(mem, c.levels, c.entry[c.levels], c.curaddr, c.levels, l + 1, l);
      assert FitsAt(c, mem, l);
    }
  }

  /** The address bits that select the entries from level l up. */
  function SeekMask(levels: nat, l: nat): Word {
    if levels == 2 then Bits(12 + 10 * l, 31) else Bits(12 + 9 * l, if levels == 3 then 31 else 47)
  }

  /** Addresses that agree on the mask of level l have the same indices from there up. */
  lemma SameIndex(levels: nat, a: Word, b: Word, l: nat, m: nat)
    requires 2 <= levels <= 4 && l <= m < levels && Linear(levels, a) && Linear(levels, b)
    requires a * SeekMask(levels, l) == b * SeekMask(levels, l)
    ensures Index(levels, a, m) == Index(levels, b, m)
  {
    var k := if levels == 2 then 10 + 10 * m else 9 + 9 * m;
    forall i: nat | i <= 11 && i >= (if levels == 2 then 2 else 3)
      ensures i in Down(a, k) <==> i in Down(b, k)
    {
      DownIn(a, k, i);
      DownIn(b, k, i);
      assert i + k in a * SeekMask(levels, l) <==> i + k in b * SeekMask(levels, l);
    }
    forall i ensures i in Index(levels, a, m) <==> i in Index(levels, b, m) {
    }
  }

  /** And the other way round. */
  lemma IndexSame(levels: nat, a: Word, b: Word, l: nat)
    requires 2 <= levels <= 4 && l < levels && forall m :: l <= m < levels ==> Index(levels, a, m) == Index(levels, b, m)
    ensures a * SeekMask(levels, l) == b * SeekMask(levels, l)
  {
    forall i: nat | i in SeekMask(levels, l) ensures i in a <==> i in b {
      var m := if levels == 2 then (i - 12) / 10 else (i - 12) / 9;
      assert l <= m < levels;
      IndexBit(levels, a, m, i);
      IndexBit(levels, b, m, i);
    }
    forall i ensures i in a * SeekMask(levels, l) <==> i in b * SeekMask(levels, l) {
    }
  }

  /** Bit i of an address, in the index of its level. */
  lemma IndexBit(levels: nat, a: Word, m: nat, i: nat)
    requires 2 <= levels <= 4 && 12 <= i < 64 && m == if levels == 2 then (i - 12) / 10 else (i - 12) / 9
    ensures var k := if levels == 2 then 10 + 10 * m else 9 + 9 * m; i >= k && (i - k in Index(levels, a, m) <==> i in a)
  {
    var k := if levels == 2 then 10 + 10 * m else 9 + 9 * m;
    DownIn(a, k, i - k);
  }

  // ------------------------------------------------------------- open, seek, read

  /** pmap_open_guest: the root entry. */
  function RootGuest(cr3: Word, levels: nat): Word {
    cr3 * ((if levels == 3 then Bits(5, 63) else Bits(12, 63)) + {PWT, PCD}) + {P}
  }

  function Open(root: Word, levels: nat): Cursor {
    Cursor(levels, levels, if levels > 0 then levels - 1 else 0,
           seq(5, l => if l == levels then root else {}), seq(5, l => {}), {})
  }

  lemma OpenFits(root: Word, levels: nat, mem: Mem)
    requires 2 <= levels <= 4
    ensures Fits(Open(root, levels), mem) && Open(root, levels).entry[levels] == root
  {
  }

  /** The loop of pmap_seek: the deepest level whose entry also serves va. */
  function Raise(c: Cursor, va: Word): (r: nat)
    requires Shaped(c)
    ensures c.readlevel <= r <= c.levels
    ensures r < c.levels ==> c.curaddr * SeekMask(c.levels, r) == va * SeekMask(c.levels, r)
    ensures forall l :: c.readlevel <= l < r ==> c.curaddr * SeekMask(c.levels, l) != va * SeekMask(c.levels, l)
    decreases c.levels - c.readlevel
  {
    if c.readlevel < c.levels && c.curaddr * SeekMask(c.levels, c.readlevel) != va * SeekMask(c.levels, c.readlevel)
    then Raise(c.(readlevel := c.readlevel + 1), va)
    else c.readlevel
  }

  /** pmap_seek */
  function Seek(c: Cursor, va: Word, level: nat): Cursor
    requires Shaped(c) && 1 <= level <= c.levels + 1
  {
    c.(curlevel := level - 1, readlevel := Raise(c, va), curaddr := va)
  }

  /** Entry l of the cursor serves va as well: from there up both addresses select the same
      entries. */
  ghost predicate Serves(c: Cursor, va: Word, l: nat) {
    forall m :: l <= m < c.levels ==> Index(c.levels, c.curaddr, m) == Index(c.levels, va, m)
  }

  /** After a seek the cursor is right for the new address, and of the entries it held it keeps
      exactly those that serve that address. */
  lemma SeekFits(c: Cursor, mem: Mem, va: Word, level: nat)
    requires Fits(c, mem) && 1 <= level <= c.levels + 1 && Linear(c.levels, va)
    ensures Fits(Seek(c, va, level), mem)
    ensures forall l :: c.readlevel <= l < c.levels ==> (Seek(c, va, level).readlevel <= l <==> Serves(c, va, l))
  {
    var d := Seek(c, va, level);
    forall l | d.readlevel <= l < d.levels ensures FitsAt(d, mem, l) && Serves(c, va, l) {
      assert FitsAt(c, mem, l);
      forall m | l <= m < c.levels ensures Index(c.levels, c.curaddr, m) == Index(c.levels, va, m) {
        SameIndex(c.levels, c.curaddr, va, d.readlevel, m);
      }
    }
    forall l | c.readlevel <= l < d.readlevel ensures !Serves(c, va, l) {
      if Serves(c, va, l) { IndexSame(c.levels, c.curaddr, va, l); }
    }
  }

  /** One turn of the loop of pmap_read: go down a level. */
  function Descend(c: Cursor, mem: Mem): Cursor
    requires Shaped(c) && c.readlevel > 0
  {
    var l := c.readlevel - 1;
    var a := Cell(c.levels, c.entry[l + 1], c.curaddr, l);
    c.(readlevel := l, entryaddr := c.entryaddr[l := a], entry := c.entry[l := Cut(c.levels, Rd(mem, a))])
  }

  /** pmap_read: the cursor afterwards and the entry. */
  function Read(c: Cursor, mem: Mem): (Cursor, Word)
    requires Shaped(c)
    decreases c.readlevel
  {
    if c.readlevel <= c.curlevel then (c, c.entry[c.curlevel])
    else
      var e := c.entry[c.readlevel];
      if P !in e then (c, {})
      else if c.readlevel == 2 && PS in e then
        (c, if c.curlevel == 0 then SplitPde(c.levels, Split1G(e, c.curaddr), c.curaddr) else Split1G(e, c.curaddr))
      else if c.readlevel == 1 && PS in e then (c, SplitPde(c.levels, e, c.curaddr))
      else Read(Descend(c, mem), mem)
  }

  /** What reading keeps of the cursor, and what it adds. */
  ghost predicate Deeper(r: Cursor, c: Cursor, mem: Mem) {
    && Shaped(r) && Shaped(c) && r.levels == c.levels && r.curlevel == c.curlevel && r.curaddr == c.curaddr
    && r.readlevel <= c.readlevel
    && (forall l :: c.readlevel <= l < 5 ==> r.entry[l] == c.entry[l] && r.entryaddr[l] == c.entryaddr[l])
    && (forall l :: r.readlevel <= l < c.readlevel ==> FitsAt(r, mem, l))
  }

  lemma DescendFits(c: Cursor, mem: Mem)
    requires Shaped(c) && c.readlevel > 0 && P in c.entry[c.readlevel] && !Large(c.entry[c.readlevel], c.readlevel)
    ensures var d := Descend(c, mem);
      && Shaped(d) && d.readlevel == c.readlevel - 1 && FitsAt(d, mem, d.readlevel)
      && d.entry[d.readlevel] == Step(mem, c.levels, c.entry[c.readlevel], c.curaddr, c.readlevel)
  {
  }

  /** pmap_read continues the walk from the deepest entry it holds. */
  lemma {:induction false} ReadExact(c: Cursor, mem: Mem)
    requires Shaped(c)
    ensures var (r, e) := Read(c, mem);
      && Deeper(r, c, mem)
      && (c.curlevel < c.readlevel ==> e == Walk(mem, c.levels, c.entry[c.readlevel], c.curaddr, c.readlevel, c.curlevel))
      && (c.readlevel <= c.curlevel ==> e == c.entry[c.curlevel] && r == c)
      && (r.readlevel <= c.curlevel ==> e == r.entry[c.curlevel])
      && (c.curlevel <= c.readlevel ==> c.curlevel <= r.readlevel)
    decreases c.readlevel
  {
    if c.readlevel > c.curlevel {
      var e := c.entry[c.readlevel];
      if P !in e {
        WalkNothing(mem, c.levels, e, c.curaddr, c.readlevel, c.curlevel);
      } else if c.readlevel == 2 && PS in e {
        var f := Split1G(e, c.curaddr);
        assert P in f && PS in f;
        if c.curlevel == 0 { assert Walk(mem, c.levels, f, c.curaddr, 1, 0) == SplitPde(c.levels, f, c.curaddr); }
      } else if c.readlevel == 1 && PS in e {
      } else {
        var d := Descend(c, mem);
        DescendFits(c, mem);
        ReadExact(d, mem);
        DeeperTrans(Read(d, mem).0, d, c, mem);
      }
    }
  }

  lemma DeeperTrans(r: Cursor, d: Cursor, c: Cursor, mem: Mem)
    requires Shaped(c) && c.readlevel > 0 && d == Descend(c, mem) && Deeper(r, d, mem)
    requires P in c.entry[c.readlevel] && !Large(c.entry[c.readlevel], c.readlevel)
    ensures Deeper(r, c, mem)
  {
    forall l | r.readlevel <= l < c.readlevel ensures FitsAt(r, mem, l) {
      if l == d.readlevel { assert r.entry[l] == d.entry[l] && r.entry[l + 1] == d.entry[l + 1]; }
    }
  }

  lemma ReadFits(c: Cursor, mem: Mem)
    requires Fits(c, mem)
    ensures var (r, e) := Read(c, mem);
      && Fits(r, mem) && r.entry[c.levels] == c.entry[c.levels]
      && e == Walk(mem, c.levels, c.entry[c.levels], c.curaddr, c.levels, c.curlevel)
  {
    var r := Read(c, mem).0;
    ReadExact(c, mem);
    forall l | r.readlevel <= l < r.levels ensures FitsAt(r, mem, l) {
      if l >= c.readlevel { assert FitsAt(c, mem, l); }
    }
    if c.readlevel <= c.curlevel {
      FitsWalk(c, mem, c.curlevel);
    } else {
      FitsWalk(c, mem, c.readlevel);
      WalkSplit(mem, c.levels, c.entry[c.levels], c.curaddr, c.levels, c.readlevel, c.curlevel);
    }
  }

  /** A used cursor finds what a freshly opened one finds, which is what the tables say. */
  lemma CursorRefines(c: Cursor, mem: Mem, va: Word, level: nat)
    requires Fits(c, mem) && 1 <= level <= c.levels + 1 && Linear(c.levels, va)
    ensures var root := c.entry[c.levels];
      Read(Seek(c, va, level), mem).1 == Read(Seek(Open(root, c.levels), va, level), mem).1
        == Walk(mem, c.levels, root, va, c.levels, level - 1)
  {
    var root := c.entry[c.levels];
    SeekFits(c, mem, va, level);
    ReadFits(Seek(c, va, level), mem);
    OpenFits(root, c.levels, mem);
    SeekFits(Open(root, c.levels), mem, va, level);
    ReadFits(Seek(Open(root, c.levels), va, level), mem);
  }

  // ------------------------------------------------------------- write and clear

  /** The value pmap_write stores: attributes outside the mask get their defaults. */
  function Stored(c: Cursor, e: Word, attrmask: Word): Word {
    var def := if c.levels == 3 && c.curlevel == 2 then {}
      else {RW, US, A} + (if c.curlevel == 0 then {D} else {});
    (e - (Bits(0, 11) - attrmask)) + (def - attrmask)
  }

  /** Bit b of an entry after pmap_write: the caller's where it is an address bit or in the mask,
      else the default of the level, of which a PDPTE of three levels has none. */
  predicate WrittenBit(levels: nat, l: nat, e: Word, attrmask: Word, b: nat) {
    if b >= 12 || b in attrmask then b in e
    else if levels == 3 && l == 2 then false
    else b == RW || b == US || b == A || (b == D && l == 0)
  }

  lemma StoredBits(c: Cursor, e: Word, attrmask: Word, b: nat)
    ensures b in Stored(c, e, attrmask) <==> if b < 64 then WrittenBit(c.levels, c.curlevel, e, attrmask, b) else b in e
  {
  }

  /** The stored entry, bit by bit. */
  ghost predicate StoredAs(x: Word, levels: nat, l: nat, e: Word, attrmask: Word) {
    forall b: nat :: b < 64 ==> (b in x <==> WrittenBit(levels, l, e, attrmask, b))
  }

  datatype Written = Written(c: Cursor, mem: Mem, fail: bool)

  /** pmap_write; an atomic write fails when the entry is not the one that was read. */
  function Write(c: Cursor, mem: Mem, e: Word, attrmask: Word, atomic: bool): Written
    requires Shaped(c) && c.readlevel <= c.curlevel < c.levels
  {
    var l, s := c.curlevel, Stored(c, e, attrmask);
    var a := c.entryaddr[l];
    var now := Cut(c.levels, Rd(mem, a));
    if atomic && now != Cut(c.levels, c.entry[l]) then
      Written(c.(entry := c.entry[l := now], readlevel := l), mem, true)
    else Written(c.(entry := c.entry[l := s]), mem[a := Cut(c.levels, s)], false)
  }

  /** No other entry held was read from the address about to be written. */
  ghost predicate Apart(c: Cursor)
    requires Shaped(c) && c.curlevel < c.levels
  {
    forall m :: c.readlevel <= m < c.levels && m != c.curlevel ==> c.entryaddr[m] != c.entryaddr[c.curlevel]
  }

  /** The entry s, in place of the current one, leads to the same entry below. */
  predicate StillLeads(c: Cursor, s: Word)
    requires Shaped(c) && 0 < c.curlevel
  {
    P in s && !Large(s, c.curlevel) && Cell(c.levels, s, c.curaddr, c.curlevel - 1) == c.entryaddr[c.curlevel - 1]
  }

  /** A write is what later walks find.  It keeps the cursor right if and only if it is at the
      deepest level read, or what was read below still hangs off the new entry: a successful
      pmap_write forgets nothing. */
  lemma WriteFits(c: Cursor, mem: Mem, e: Word, attrmask: Word, atomic: bool)
    requires Fits(c, mem) && c.readlevel <= c.curlevel < c.levels && (c.levels == 2 ==> e <= Bits(0, 31)) && Apart(c)
    ensures var w := Write(c, mem, e, attrmask, atomic);
      && !w.fail && w.mem == mem[c.entryaddr[c.curlevel] := Stored(c, e, attrmask)] && w.c.entry[c.levels] == c.entry[c.levels]
      && (Fits(w.c, w.mem) <==> (c.readlevel < c.curlevel ==> StillLeads(c, Stored(c, e, attrmask))))
      && Walk(w.mem, c.levels, c.entry[c.levels], c.curaddr, c.levels, c.curlevel) == Stored(c, e, attrmask)
      && StoredAs(w.mem[c.entryaddr[c.curlevel]], c.levels, c.curlevel, e, attrmask)
  {
    var w := Write(c, mem, e, attrmask, atomic);
    forall b: nat | b < 64 ensures b in Stored(c, e, attrmask) <==> WrittenBit(c.levels, c.curlevel, e, attrmask, b) {
      StoredBits(c, e, attrmask, b);
    }
    var l := c.curlevel;
    assert FitsAt(c, mem, l);
    if c.levels == 2 {
      assert Stored(c, e, attrmask) * Bits(0, 31) == Stored(c, e, attrmask);
    }
    WriteFitsAt(c, mem, w.c, w.mem, Stored(c, e, attrmask));
    FitsWalk(w.c.(readlevel := l), w.mem, l);
  }

  lemma WriteFitsAt(c: Cursor, mem: Mem, d: Cursor, m: Mem, s: Word)
    requires Fits(c, mem) && c.readlevel <= c.curlevel < c.levels && Apart(c) && Cut(c.levels, s) == s
    requires d == c.(entry := c.entry[c.curlevel := s]) && m == mem[c.entryaddr[c.curlevel] := s]
    ensures Fits(d, m) <==> (c.readlevel < c.curlevel ==> StillLeads(c, s))
    ensures Fits(d.(readlevel := c.curlevel), m)
  {
    var l := c.curlevel;
    assert FitsAt(c, mem, l);
    forall k | c.readlevel <= k < c.levels && k + 1 != l ensures FitsAt(d, m, k) && FitsAt(d.(readlevel := l), m, k) {
      assert FitsAt(c, mem, k);
    }
    if c.readlevel < l {
      assert FitsAt(c, mem, l - 1);
      assert FitsAt(d, m, l - 1) <==> StillLeads(c, s);
    }
  }

  /** So clearing an entry above the deepest level read leaves the cursor with a stale entry. */
  lemma StaleAfterClear(c: Cursor, mem: Mem)
    requires Fits(c, mem) && c.readlevel < c.curlevel < c.levels && Apart(c)
    ensures var w := Write(c, mem, {}, Bits(0, 11), false); !Fits(w.c, w.mem)
  {
    WriteFits(c, mem, {}, Bits(0, 11), false);
  }

  /** Addresses of the entries of the table at `page` (four entries in the top table of the
      three-level format). */
  predicate InTable(levels: nat, l: nat, page: Word, a: Word) {
    a - Bits(if levels == 2 then 2 else 3, if levels == 3 && l == 2 then 4 else 11) == page
  }

  function Without(mem: Mem, levels: nat, l: nat, page: Word): Mem {
    map a | a in mem && !InTable(levels, l, page, a) :: mem[a]
  }

  /** pmap_clear */
  function Clear(c: Cursor, mem: Mem): (Cursor, Mem)
    requires Shaped(c) && c.curlevel < c.levels
  {
    (c.(readlevel := c.curlevel + 1),
     Without(mem, c.levels, c.curlevel, c.entry[c.curlevel + 1] - Bits(0, 11)))
  }

  /** The assertions of pmap_clear, and that it is a table the entry points at. */
  ghost predicate MayClear(c: Cursor)
    requires Shaped(c)
  {
    && c.curlevel < c.levels && c.readlevel <= c.curlevel + 1
    && P in c.entry[c.curlevel + 1] && !Large(c.entry[c.curlevel + 1], c.curlevel + 1)
    && Table(c.levels, c.curlevel + 1, c.entry[c.curlevel + 1]) == c.entry[c.curlevel + 1] - Bits(0, 11)
  }

  /** No entry above was read from the table about to be cleared. */
  ghost predicate ApartTable(c: Cursor)
    requires Shaped(c) && c.curlevel < c.levels
  {
    var page := c.entry[c.curlevel + 1] - Bits(0, 11);
    forall m :: c.curlevel < m < c.levels ==> !InTable(c.levels, c.curlevel, page, c.entryaddr[m])
  }

  /** Every address then finds an empty entry in the cleared table. */
  lemma ClearFits(c: Cursor, mem: Mem, va: Word)
    requires Fits(c, mem) && MayClear(c) && ApartTable(c) && Linear(c.levels, va)
    ensures var (d, m) := Clear(c, mem);
      && Fits(d, m) && d.entry == c.entry
      && Walk(m, c.levels, c.entry[c.curlevel + 1], va, c.curlevel + 1, c.curlevel) == {}
  {
    var (d, m) := Clear(c, mem);
    forall l | d.readlevel <= l < d.levels ensures FitsAt(d, m, l) {
      assert FitsAt(c, mem, l);
    }
    var l := c.curlevel;
    var e := c.entry[l + 1];
    CellInTable(c.levels, e, va, l);
    assert Step(m, c.levels, e, va, l + 1) == Cut(c.levels, Rd(m, Cell(c.levels, e, va, l)));
  }

  lemma CellInTable(levels: nat, e: Word, va: Word, l: nat)
    requires 2 <= levels <= 4 && l < levels && Table(levels, l + 1, e) == e - Bits(0, 11) && Linear(levels, va)
    ensures InTable(levels, l, e - Bits(0, 11), Cell(levels, e, va, l))
  {
    var idx := Index(levels, va, l);
    if levels == 3 && l == 2 {
      forall i | i in idx ensures i <= 4 { DownIn(va, 27, i); }
    }
  }

  // ------------------------------------------------------------- runs

  datatype Op = SeekOp(va: Word, level: nat) | ReadOp | WriteOp(e: Word, attrmask: Word, atomic: bool) | ClearOp

  ghost predicate Legal(c: Cursor, op: Op)
    requires Shaped(c)
  {
    match op
    case SeekOp(va, level) => 1 <= level <= c.levels + 1 && Linear(c.levels, va)
    case ReadOp => true
    case WriteOp(e, am, _) =>
      && c.readlevel <= c.curlevel < c.levels && Apart(c) && (c.levels == 2 ==> e <= Bits(0, 31))
      && (c.readlevel < c.curlevel ==> StillLeads(c, Stored(c, e, am)))
    case ClearOp => MayClear(c) && ApartTable(c)
  }

  ghost function Do(c: Cursor, mem: Mem, op: Op): (Cursor, Mem)
    requires Shaped(c) && Legal(c, op)
  {
    match op
    case SeekOp(va, level) => (Seek(c, va, level), mem)
    case ReadOp => (Read(c, mem).0, mem)
    case WriteOp(e, am, atomic) => var w := Write(c, mem, e, am, atomic); (w.c, w.mem)
    case ClearOp => Clear(c, mem)
  }

  lemma DoFits(c: Cursor, mem: Mem, op: Op)
    requires Fits(c, mem) && Legal(c, op)
    ensures var (d, m) := Do(c, mem, op); Fits(d, m) && d.levels == c.levels && d.entry[c.levels] == c.entry[c.levels]
  {
    match op
    case SeekOp(va, level) => SeekFits(c, mem, va, level);
    case ReadOp => ReadFits(c, mem); ReadExact(c, mem);
    case WriteOp(e, am, atomic) => WriteFits(c, mem, e, am, atomic);
    case ClearOp => ClearFits(c, mem, {});
  }

  /** A run of operations, each legal when its turn comes. */
  ghost predicate Runs(c: Cursor, mem: Mem, ops: seq<Op>, d: Cursor, m: Mem)
    decreases |ops|
  {
    if ops == [] then d == c && m == mem
    else Shaped(c) && Legal(c, ops[0]) && var (c', mem') := Do(c, mem, ops[0]); Runs(c', mem', ops[1..], d, m)
  }

  /** After any run from a fresh cursor, seeking and reading gives what a fresh cursor gives. */
  lemma {:induction false} RunRefines(c: Cursor, mem: Mem, ops: seq<Op>, d: Cursor, m: Mem, va: Word, level: nat)
    requires Fits(c, mem) && Runs(c, mem, ops, d, m) && 1 <= level <= c.levels + 1 && Linear(c.levels, va)
    ensures Fits(d, m) && d.levels == c.levels && d.entry[c.levels] == c.entry[c.levels]
    ensures var root := c.entry[c.levels];
      Read(Seek(d, va, level), m).1 == Read(Seek(Open(root, c.levels), va, level), m).1
        == Walk(m, c.levels, root, va, c.levels, level - 1)
    decreases |ops|
  {
    if ops == [] {
      CursorRefines(c, mem, va, level);
    } else {
      DoFits(c, mem, ops[0]);
      var (c', mem') := Do(c, mem, ops[0]);
      RunRefines(c', mem', ops[1..], d, m, va, level);
    }
  }

  // ------------------------------------------------------------- as written

  /** The cursor over VMM or guest memory. */
  class Pmap {
    var levels: nat
    var readlevel: nat
    var curlevel: nat
    var entry: seq<Word>
    var entryaddr: seq<Word>
    var curaddr: Word
    var mem: Mem

    ghost function State(): Cursor
      reads this
    {
      Cursor(levels, readlevel, curlevel, entry, entryaddr, curaddr)
    }

    ghost predicate Valid()
      reads this
    {
      Fits(State(), mem)
    }

    constructor (root: Word, levels: nat, mem: Mem)
      requires 2 <= levels <= 4
      ensures Valid() && this.mem == mem && State() == Open(root, levels)
    {
      this.levels, readlevel, curlevel, this.mem := levels, levels, levels - 1, mem;
      entry := seq(5, l => if l == levels then root else {});
      entryaddr := seq(5, l => {});
      curaddr := {};
      new;
      assert State() == Open(root, levels);
      OpenFits(root, levels, mem);
    }

    /** pmap_seek */
    method SeekTo(va: Word, level: nat)
      requires Valid() && 1 <= level <= levels + 1 && Linear(levels, va)
      modifies this`curlevel, this`readlevel, this`curaddr
      ensures Valid() && State() == Seek(old(State()), va, level)
    {
      SeekFits(State(), mem, va, level);
      ghost var c := State();
      curlevel := level - 1;
      while readlevel < levels && curaddr * SeekMask(levels, readlevel) != va * SeekMask(levels, readlevel)
        invariant readlevel <= levels && curaddr == c.curaddr && curlevel == level - 1
        invariant Raise(c.(readlevel := readlevel), va) == Raise(c, va)
        decreases levels - readlevel
      {
        readlevel := readlevel + 1;
      }
      curaddr := va;
    }

    /** pmap_read: the entry is the one the tables in memory give. */
    method ReadEntry() returns (e: Word)
      requires Valid()
      modifies this`readlevel, this`entry, this`entryaddr
      ensures Valid() && State() == Read(old(State()), mem).0 && e == Read(old(State()), mem).1
      ensures entry[levels] == old(entry[levels])
      ensures e == Walk(mem, levels, entry[levels], curaddr, levels, curlevel)
    {
      ghost var c := State();
      ReadFits(c, mem);
      ReadExact(c, mem);
      while readlevel > curlevel
        invariant Shaped(State()) && levels == c.levels && curlevel == c.curlevel && curaddr == c.curaddr
        invariant Read(State(), mem) == Read(c, mem)
        decreases readlevel
      {
        var tmp := entry[readlevel];
        if P !in tmp { return {}; }
        if readlevel == 2 && PS in tmp {
          tmp := Split1G(tmp, curaddr);
          if curlevel == 0 { tmp := SplitPde(levels, tmp, curaddr); }
          return tmp;
        }
        if readlevel == 1 && PS in tmp { return SplitPde(levels, tmp, curaddr); }
        readlevel := readlevel - 1;
        var a := Cell(levels, tmp, curaddr, readlevel);
        entryaddr := entryaddr[readlevel := a];
        entry := entry[readlevel := Cut(levels, Rd(mem, a))];
      }
      return entry[curlevel];
    }

    /** pmap_write; the cursor stays right where WriteFits says so. */
    method WriteEntry(e: Word, attrmask: Word, atomic: bool) returns (fail: bool)
      requires Valid() && readlevel <= curlevel < levels && Apart(State()) && (levels == 2 ==> e <= Bits(0, 31))
      modifies this`entry, this`readlevel, this`mem
      ensures !fail && Shaped(State()) && mem == old(mem)[entryaddr[curlevel] := Stored(old(State()), e, attrmask)]
      ensures Valid() <==> (readlevel < curlevel ==> StillLeads(old(State()), Stored(old(State()), e, attrmask)))
      ensures Walk(mem, levels, entry[levels], curaddr, levels, curlevel) == Stored(old(State()), e, attrmask)
      ensures StoredAs(mem[entryaddr[curlevel]], levels, curlevel, e, attrmask)
    {
      ghost var c, m := State(), mem;
      var def: Word := if levels == 3 && curlevel == 2 then {} else if curlevel == 0 then {RW, US, A, D} else {RW, US, A};
      var s := (e - (Bits(0, 11) - attrmask)) + (def - attrmask);
      assert s == Stored(State(), e, attrmask);
      var a := entryaddr[curlevel];
      var now := Cut(levels, Rd(mem, a));
      fail := atomic && now != Cut(levels, entry[curlevel]);
      mem := if fail then mem else mem[a := Cut(levels, s)];
      entry := entry[curlevel := if fail then now else s];
      if fail { readlevel := curlevel; }
      WriteFits(c, m, e, attrmask, atomic);
    }

    /** pmap_clear */
    method ClearTable()
      requires Valid() && MayClear(State()) && ApartTable(State())
      modifies this`readlevel, this`mem
      ensures Valid() && readlevel == curlevel + 1
      ensures mem == Without(old(mem), levels, curlevel, entry[curlevel + 1] - Bits(0, 11))
      ensures forall va :: Linear(levels, va) ==> Walk(mem, levels, entry[curlevel + 1], va, curlevel + 1, curlevel) == {}
    {
      ghost var c, m := State(), mem;
      mem := Without(mem, levels, curlevel, entry[curlevel + 1] - Bits(0, 11));
      readlevel := curlevel + 1;
      ClearFits(c, m, {});
      forall va | Linear(levels, va) ensures Walk(mem, levels, entry[curlevel + 1], va, curlevel + 1, curlevel) == {} {
        ClearFits(c, m, va);
      }
    }
  }
}
