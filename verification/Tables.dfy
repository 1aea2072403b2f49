/** Memory of a pool of page tables, addressed by (table, entry). */
module Tables {

  /** Address of an entry: entry `idx` of the table in slot `slot`. */
  datatype Ptr = Ptr(slot: nat, idx: nat)

  predicate InPages<E>(page: seq<seq<E>>, x: Ptr) {
    x.slot < |page| && x.idx < |page[x.slot]|
  }

  function Rd<E>(page: seq<seq<E>>, x: Ptr): E
    requires InPages(page, x)
  {
    page[x.slot][x.idx]
  }

  function Wr<E>(page: seq<seq<E>>, x: Ptr, e: E): (r: seq<seq<E>>)
    requires InPages(page, x)
    ensures SameShape(r, page)
    ensures forall y :: InPages(page, y) ==> Rd(r, y) == if y == x then e else Rd(page, y)
  {
    page[x.slot := page[x.slot][x.idx := e]]
  }

  ghost predicate SameShape<E>(r: seq<seq<E>>, page: seq<seq<E>>) {
    |r| == |page| && forall i :: 0 <= i < |page| ==> |r[i]| == |page[i]|
  }
}
