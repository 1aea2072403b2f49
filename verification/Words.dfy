/** 64-bit words as sets of bit positions, for code that only masks, merges and shifts them:
    x & y is x * y, x | y is x + y, x & ~y is x - y. */
module Words {

  type Word = set<nat>

  predicate Position(i: nat) {
    i < 64
  }

  /** Bits lo to hi. */
  function Bits(lo: nat, hi: nat): Word {
    set i: nat | Position(i) && lo <= i <= hi
  }

  /** w >> k */
  function Down(w: Word, k: nat): Word {
    set i | i in w && i >= k :: i - k
  }

  /** w << k */
  function Up(w: Word, k: nat): Word {
    set i | i in w :: i + k
  }

  lemma DownIn(w: Word, k: nat, i: nat)
    ensures i in Down(w, k) <==> i + k in w
  {
    if i + k in w { assert i + k - k in Down(w, k); }
  }

  lemma UpIn(w: Word, k: nat, i: nat)
    ensures i in Up(w, k) <==> i >= k && i - k in w
  {
    if i >= k && i - k in w { assert i - k + k in Up(w, k); }
  }

  // Bits of a page-table entry.
  const P: nat := 0
  const RW: nat := 1
  const US: nat := 2
  const PWT: nat := 3
  const PCD: nat := 4
  const A: nat := 5
  const D: nat := 6
  const PS: nat := 7
  const PAT: nat := 7
  const LARGE_PAT: nat := 12
  const NX: nat := 63
}
