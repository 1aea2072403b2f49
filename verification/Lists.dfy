/** Sequences used as the intrusive linked lists of the VMM: PUSH is `[x] + s`,
    ADD is `s + [x]`, POP takes `s[0]`, and DEL unlinks one element.
    A slot is linked at most once in a list, which `NoDup` records. */
module Lists {

  datatype Option<+T> = None | Some(value: T)

  ghost predicate NoDup<T>(s: seq<T>) {
    forall i, j :: 0 <= i < j < |s| ==> s[i] != s[j]
  }

  /** Every element is a valid slot number. */
  ghost predicate Below(s: seq<nat>, n: nat) {
    forall k :: 0 <= k < |s| ==> s[k] < n
  }

  /** Three lists partition the slots 0..n-1. */
  ghost predicate Parts(la: seq<nat>, lb: seq<nat>, lc: seq<nat>, n: nat) {
    && NoDup(la) && NoDup(lb) && NoDup(lc)
    && Below(la, n) && Below(lb, n) && Below(lc, n)
    && (forall i :: 0 <= i < n && i in la ==> i !in lb && i !in lc)
    && (forall i :: 0 <= i < n && i in lb ==> i !in lc)
    && (forall i :: 0 <= i < n ==> i in la || i in lb || i in lc)
  }

  /** LIST*_DEL: the list without (the first occurrence of) `x`. */
  function Del<T(==)>(s: seq<T>, x: T): (r: seq<T>)
    ensures x !in s ==> r == s
    ensures x in s ==> |r| == |s| - 1
    ensures forall y :: y in r ==> y in s
    ensures forall y :: y in s && y != x ==> y in r
  {
    if s == [] then []
    else if s[0] == x then
      assert forall y :: y in s && y != x ==> y in s[1..];
      s[1..]
    else
      assert s == [s[0]] + s[1..];
      [s[0]] + Del(s[1..], x)
  }

  lemma {:induction false} DelNoDup<T>(s: seq<T>, x: T)
    requires NoDup(s)
    ensures NoDup(Del(s, x))
    ensures x !in Del(s, x)
    ensures forall y :: y in Del(s, x) <==> y in s && y != x
  {
    if s == [] {
    } else if s[0] == x {
    } else {
      var t := s[1..];
      assert s == [s[0]] + t;
      DelNoDup(t, x);
      assert s[0] !in t;
    }
  }

  lemma DelBelow(s: seq<nat>, x: nat, n: nat)
    requires Below(s, n)
    ensures Below(Del(s, x), n)
  {
    var r := Del(s, x);
    forall k | 0 <= k < |r| ensures r[k] < n {
      assert r[k] in r && r[k] in s;
    }
  }

  lemma DelHead<T>(s: seq<T>)
    requires s != []
    ensures Del(s, s[0]) == s[1..]
  {
  }

  lemma AddNoDup<T>(s: seq<T>, x: T)
    requires NoDup(s) && x !in s
    ensures NoDup(s + [x]) && NoDup([x] + s)
    ensures forall y :: y in s + [x] <==> y in s || y == x
    ensures forall y :: y in [x] + s <==> y in s || y == x
  {
  }

  lemma PopNoDup<T>(s: seq<T>)
    requires NoDup(s) && s != []
    ensures NoDup(s[1..]) && s[0] !in s[1..]
    ensures forall y :: y in s <==> y == s[0] || y in s[1..]
  {
    assert s == [s[0]] + s[1..];
  }
}
