/** The processor barrier (ap.c, sync_all_processors) under every interleaving: each
    processor's call is cut at every access to the lock, sync_id or sync_count. */
module Barrier {

  const U32: nat := 0x1_0000_0000

  /** Where a processor is: outside; before spinlock_lock; holding the lock before reading
      sync_id; before sync_count++; before the comparison; before the increment of sync_id;
      before spinlock_unlock; in the loop.  `ret` is the local variable of that name. */
  datatype Pc = Idle | Enter | Held | Read | Counted | Reset | Leave(ret: bool) | Spin(ret: bool)

  datatype Lock = Free | By(p: nat)

  /** id, count and lock are the shared variables, seen the local `id` of each processor.
      rounds (calls a processor has returned from) and epoch (increments of sync_id so far)
      are history: no step reads them. */
  datatype State = State(id: nat, count: nat, lock: Lock, pc: seq<Pc>, seen: seq<nat>, rounds: seq<nat>, epoch: nat)

  function Init(n: nat): State {
    State(0, 0, Free, seq(n, i => Idle), seq(n, i => 0), seq(n, i => 0), 0)
  }

  predicate Sized(s: State) {
    |s.pc| == |s.seen| == |s.rounds| && 0 < |s.pc| < U32
  }

  function At(s: State, p: nat, c: Pc): State
    requires p < |s.pc|
  {
    s.(pc := s.pc[p := c])
  }

  /** One step of processor p; a wait (for the lock, or in the loop) changes nothing. */
  function Next(s: State, p: nat): State
    requires Sized(s) && p < |s.pc|
  {
    match s.pc[p]
    case Idle => At(s, p, Enter)
    case Enter => if s.lock == Free then At(s, p, Held).(lock := By(p)) else s
    case Held => At(s, p, Read).(seen := s.seen[p := s.id])
    case Read => At(s, p, Counted).(count := (s.count + 1) % U32)
    case Counted => if s.count == |s.pc| then At(s, p, Reset).(count := 0) else At(s, p, Leave(false))
    case Reset => At(s, p, Leave(true)).(id := (s.id + 1) % U32, epoch := s.epoch + 1)
    case Leave(r) => At(s, p, Spin(r)).(lock := Free)
    case Spin(r) =>
      if r then At(s, p, Idle).(rounds := s.rounds[p := s.rounds[p] + 1])
      else if s.id != s.seen[p] then At(s, p, Spin(true))
      else s
  }

  /** Calls processor p has begun. */
  function Entered(s: State, p: nat): nat
    requires Sized(s) && p < |s.pc|
  {
    s.rounds[p] + if s.pc[p] == Idle then 0 else 1
  }

  // ------------------------------------------------------------- the invariant

  predicate Inside(c: Pc) {
    c == Held || c == Read || c == Counted || c == Reset || c.Leave?
  }

  /** What one processor's position says about the round it is in. */
  predicate Local(c: Pc, seen: nat, rounds: nat, epoch: nat) {
    match c
    case Idle => rounds == epoch
    case Enter => rounds == epoch
    case Held => rounds == epoch
    case Read => rounds == epoch && seen == rounds % U32
    case Counted => rounds == epoch && seen == rounds % U32
    case Reset => rounds == epoch && seen == rounds % U32
    case Leave(r) => rounds == (if r then epoch - 1 else epoch) && seen == rounds % U32
    case Spin(r) => (rounds == epoch - 1 || (rounds == epoch && !r)) && seen == rounds % U32
  }

  /** Has p been counted in the current round? */
  predicate In(s: State, p: nat)
    requires Sized(s) && p < |s.pc|
  {
    s.rounds[p] == s.epoch && s.pc[p] in {Counted, Reset, Leave(false), Spin(false)}
  }

  ghost function Ins(s: State): set<nat>
    requires Sized(s)
  {
    set p | 0 <= p < |s.pc| && In(s, p)
  }

  /** Is the holder of the lock at c? */
  predicate Holds(s: State, c: Pc)
    requires Sized(s)
  {
    s.lock.By? && s.lock.p < |s.pc| && s.pc[s.lock.p] == c
  }

  ghost predicate Locked(s: State)
    requires Sized(s)
  {
    && (s.lock.By? ==> s.lock.p < |s.pc|)
    && (forall p :: 0 <= p < |s.pc| ==> (Inside(s.pc[p]) <==> s.lock == By(p)))
  }

  ghost predicate Locals(s: State)
    requires Sized(s)
  {
    forall p :: 0 <= p < |s.pc| ==> Local(s.pc[p], s.seen[p], s.rounds[p], s.epoch)
  }

  /** sync_count counts the round's arrivals, except between its reset and the increment of
      sync_id; all are in only while the last one holds the lock. */
  ghost predicate Count(s: State)
    requires Sized(s)
  {
    && (if Holds(s, Reset) then s.count == 0 && |Ins(s)| == |s.pc| else s.count == |Ins(s)|)
    && (|Ins(s)| == |s.pc| ==> Holds(s, Reset) || Holds(s, Counted))
  }

  ghost predicate Inv(s: State) {
    Sized(s) && s.id == s.epoch % U32 && Locked(s) && Locals(s) && Count(s)
  }

  lemma InitInv(n: nat)
    requires 0 < n < U32
    ensures Inv(Init(n))
  {
    assert Ins(Init(n)) == {};
  }

  ghost function Range(n: nat): set<nat> {
    if n == 0 then {} else Range(n - 1) + {n - 1}
  }

  lemma {:induction false} RangeSize(n: nat)
    ensures |Range(n)| == n && forall p :: p in Range(n) <==> 0 <= p < n
  {
    if n > 0 { RangeSize(n - 1); }
  }

  lemma SubsetSize(a: set<nat>, b: set<nat>)
    requires a <= b
    ensures |a| <= |b| && (|a| == |b| ==> a == b)
  {
    assert b == a + (b - a);
    if |a| == |b| { assert |b - a| == 0; }
  }

  /** Everyone is in exactly when the count says so. */
  lemma Full(s: State)
    requires Sized(s)
    ensures |Ins(s)| <= |s.pc| && (|Ins(s)| == |s.pc| <==> forall p :: 0 <= p < |s.pc| ==> In(s, p))
  {
    RangeSize(|s.pc|);
    SubsetSize(Ins(s), Range(|s.pc|));
    if forall p :: 0 <= p < |s.pc| ==> In(s, p) {
      assert Ins(s) == Range(|s.pc|);
    } else {
      var p :| 0 <= p < |s.pc| && !In(s, p);
      assert p in Range(|s.pc|) && p !in Ins(s);
    }
  }

  lemma OutSize(s: State, p: nat)
    requires Sized(s) && p < |s.pc| && !In(s, p)
    ensures |Ins(s)| < |s.pc| && |Ins(s) + {p}| == |Ins(s)| + 1
  {
    Full(s);
  }

  lemma IdStep(e: nat)
    ensures (e % U32 + 1) % U32 == (e + 1) % U32 && (e + 1) % U32 != e % U32
  {
  }

  lemma NextInv(s: State, p: nat)
    requires Inv(s) && p < |s.pc|
    ensures Inv(Next(s, p))
  {
    NextLocked(s, p);
    NextLocals(s, p);
    NextCount(s, p);
    if s.pc[p] == Reset { IdStep(s.epoch); }
  }

  lemma NextLocked(s: State, p: nat)
    requires Sized(s) && Locked(s) && p < |s.pc|
    ensures Locked(Next(s, p))
  {
  }

  lemma NextLocals(s: State, p: nat)
    requires Inv(s) && p < |s.pc|
    ensures Locals(Next(s, p))
  {
    assert Local(s.pc[p], s.seen[p], s.rounds[p], s.epoch);
    if s.pc[p] == Reset {
      ReleasesAll(s, p);
    } else if s.pc[p] == Spin(false) {
      SpinExits(s, p);
    }
  }

  /** A step at none of the counting points leaves the arrivals alone. */
  lemma SameIns(s: State, p: nat)
    requires Inv(s) && p < |s.pc| && s.pc[p] != Read && s.pc[p] != Reset
    ensures Ins(Next(s, p)) == Ins(s)
  {
    var d := Next(s, p);
    assert Local(s.pc[p], s.seen[p], s.rounds[p], s.epoch);
    if s.pc[p] == Spin(false) { SpinExits(s, p); }
    assert In(d, p) == In(s, p);
  }

  lemma ReadCount(s: State, p: nat)
    requires Inv(s) && p < |s.pc| && s.pc[p] == Read
    ensures Count(Next(s, p))
  {
    OutSize(s, p);
    assert s.lock == By(p);
    assert Ins(Next(s, p)) == Ins(s) + {p};
  }

  lemma NextCount(s: State, p: nat)
    requires Inv(s) && p < |s.pc|
    ensures Count(Next(s, p))
  {
    assert Inside(s.pc[p]) <==> s.lock == By(p);
    if s.pc[p] == Read {
      ReadCount(s, p);
    } else if s.pc[p] == Reset {
      ReleasesAll(s, p);
    } else {
      SameIns(s, p);
    }
  }

  /** The increment of sync_id ends the round for everyone at once. */
  lemma ReleasesAll(s: State, p: nat)
    requires Inv(s) && p < |s.pc| && s.pc[p] == Reset
    ensures var d := Next(s, p); Locals(d) && Ins(d) == {}
  {
    Full(s);
    var d := Next(s, p);
    assert forall q :: 0 <= q < |s.pc| ==> In(s, q);
    forall q | 0 <= q < |s.pc|
      ensures Local(d.pc[q], d.seen[q], d.rounds[q], d.epoch) && !In(d, q)
    {
      assert In(s, q) && Local(s.pc[q], s.seen[q], s.rounds[q], s.epoch) && (q != p ==> !Inside(s.pc[q]));
    }
  }

  /** The 32-bit comparison sees the round end, however often sync_id has wrapped. */
  lemma SpinExits(s: State, p: nat)
    requires Sized(s) && Locals(s) && s.id == s.epoch % U32 && p < |s.pc| && s.pc[p] == Spin(false)
    ensures s.id != s.seen[p] <==> s.rounds[p] < s.epoch
  {
    assert Local(s.pc[p], s.seen[p], s.rounds[p], s.epoch);
    if s.rounds[p] < s.epoch { IdStep(s.rounds[p]); }
  }

  // ------------------------------------------------------------- runs

  predicate Schedule(sched: seq<nat>, n: nat) {
    forall i :: 0 <= i < |sched| ==> sched[i] < n
  }

  function Run(s: State, sched: seq<nat>): (d: State)
    requires Sized(s) && Schedule(sched, |s.pc|)
    ensures Sized(d) && |d.pc| == |s.pc|
    decreases |sched|
  {
    if sched == [] then s else Run(Next(s, sched[0]), sched[1..])
  }

  lemma {:induction false} RunInv(s: State, sched: seq<nat>)
    requires Inv(s) && Schedule(sched, |s.pc|)
    ensures Inv(Run(s, sched))
    decreases |sched|
  {
    if sched != [] {
      NextInv(s, sched[0]);
      RunInv(Next(s, sched[0]), sched[1..]);
    }
  }

  /** No processor has returned from its k-th call before all have begun theirs, and none is
      more than one round ahead of another. */
  lemma NoneReturnsEarly(n: nat, sched: seq<nat>, p: nat, q: nat, k: nat)
    requires 0 < n < U32 && Schedule(sched, n) && p < n && q < n
    ensures var s := Run(Init(n), sched);
      && (s.rounds[p] >= k ==> Entered(s, q) >= k)
      && s.rounds[p] <= s.rounds[q] + 1 && Entered(s, p) <= Entered(s, q) + 1
  {
    InitInv(n);
    RunInv(Init(n), sched);
    var s := Run(Init(n), sched);
    assert Local(s.pc[p], s.seen[p], s.rounds[p], s.epoch) && Local(s.pc[q], s.seen[q], s.rounds[q], s.epoch);
  }

  /** Once a processor in the loop could leave it, it still can after any steps of the others. */
  lemma {:induction false} ExitStable(s: State, sched: seq<nat>, p: nat)
    requires Inv(s) && p < |s.pc| && s.pc[p] == Spin(false) && s.id != s.seen[p]
    requires Schedule(sched, |s.pc|) && forall i :: 0 <= i < |sched| ==> sched[i] != p
    ensures var d := Run(s, sched); d.pc[p] == Spin(false) && d.id != d.seen[p] && Next(d, p).pc[p] == Spin(true)
    decreases |sched|
  {
    if sched != [] {
      NextInv(s, sched[0]);
      StillExits(s, sched[0], p);
      ExitStable(Next(s, sched[0]), sched[1..], p);
    }
  }

  lemma OthersStay(s: State, q: nat, p: nat)
    requires Sized(s) && p < |s.pc| && q < |s.pc| && q != p
    ensures var d := Next(s, q);
      && Sized(d) && |d.pc| == |s.pc| && d.pc[p] == s.pc[p] && d.rounds[p] == s.rounds[p] && d.seen[p] == s.seen[p]
      && d.epoch >= s.epoch
  {
  }

  lemma StillExits(s: State, q: nat, p: nat)
    requires Inv(s) && p < |s.pc| && q < |s.pc| && q != p && s.pc[p] == Spin(false) && s.id != s.seen[p]
    ensures var d := Next(s, q); d.pc[p] == Spin(false) && d.id != d.seen[p]
  {
    var d := Next(s, q);
    assert Sized(d) && Locals(d) && d.id == d.epoch % U32 by { NextInv(s, q); }
    OthersStay(s, q, p);
    SpinExits(s, p);
    SpinExits(d, p);
  }

  // ------------------------------------------------------------- progress

  /** Steps a processor still has to take before it is outside again. */
  function Left(c: Pc): nat {
    match c
    case Idle => 0
    case Enter => 8
    case Held => 7
    case Read => 6
    case Counted => 5
    case Reset => 4
    case Leave(r) => 3
    case Spin(r) => if r then 1 else 2
  }

  function Work(pc: seq<Pc>): nat {
    if pc == [] then 0 else Left(pc[0]) + Work(pc[1..])
  }

  lemma {:induction false} WorkAt(pc: seq<Pc>, p: nat, c: Pc)
    requires p < |pc|
    ensures Work(pc[p := c]) == Work(pc) - Left(pc[p]) + Left(c)
  {
    if p > 0 {
      WorkAt(pc[1..], p - 1, c);
      assert pc[p := c][1..] == pc[1..][p - 1 := c];
    }
  }

  lemma {:induction false} NoWork(pc: seq<Pc>, p: nat)
    requires p < |pc| && Work(pc) == 0
    ensures pc[p] == Idle
  {
    if p > 0 { NoWork(pc[1..], p - 1); }
  }

  /** All processors have begun their k-th call, or are already out of it. */
  predicate AllIn(s: State, k: nat) {
    Sized(s) && forall p :: 0 <= p < |s.pc| ==> Entered(s, p) == k
  }

  /** Nobody is left waiting: while a processor is inside, one of those inside has a step
      that does something. */
  lemma SomeoneCanMove(s: State, k: nat) returns (p: nat)
    requires Inv(s) && AllIn(s, k) && exists q :: 0 <= q < |s.pc| && s.pc[q] != Idle
    ensures p < |s.pc| && s.pc[p] != Idle && Next(s, p) != s
  {
    Full(s);
    if s.lock.By? {
      p := s.lock.p;
      assert Inside(s.pc[p]);
      assert Next(s, p).pc[p] != s.pc[p];
    } else if q :| 0 <= q < |s.pc| && s.pc[q] == Enter {
      p := q;
      assert Next(s, p).pc[p] != s.pc[p];
    } else {
      // everyone is outside or in the loop, and not everyone is counted
      var r :| 0 <= r < |s.pc| && s.pc[r] != Idle;
      assert Local(s.pc[r], s.seen[r], s.rounds[r], s.epoch) && !Inside(s.pc[r]);
      var q :| 0 <= q < |s.pc| && !In(s, q);
      assert Local(s.pc[q], s.seen[q], s.rounds[q], s.epoch) && !Inside(s.pc[q]);
      assert Entered(s, q) == Entered(s, r) == k;
      p := if s.pc[q] == Idle then r else q;
      if s.pc[p] == Spin(false) { SpinExits(s, p); }
      assert Next(s, p).pc[p] != s.pc[p];
    }
  }

  /** All processors have begun their k-th call; some may be out of it, or in the next. */
  predicate AllBegun(s: State, k: nat) {
    Sized(s) && forall p :: 0 <= p < |s.pc| ==> Entered(s, p) >= k
  }

  /** The positions of those that have not returned from it. */
  function Behind(s: State, k: nat): seq<Pc>
    requires Sized(s)
  {
    seq(|s.pc|, p requires 0 <= p < |s.pc| => if s.rounds[p] < k then s.pc[p] else Idle)
  }

  /** Steps of a schedule by a processor that has not returned from its k-th call, if they change
      the state. */
  function Moves(s: State, sched: seq<nat>, k: nat): nat
    requires Sized(s) && Schedule(sched, |s.pc|)
    decreases |sched|
  {
    if sched == [] then 0
    else (if s.rounds[sched[0]] < k && Next(s, sched[0]) != s then 1 else 0) + Moves(Next(s, sched[0]), sched[1..], k)
  }

  /** Whatever step is taken, the work left does not grow, and a move of a processor that is behind
      makes it smaller. */
  lemma StepBehind(s: State, p: nat, k: nat)
    requires AllBegun(s, k) && p < |s.pc|
    ensures var d := Next(s, p);
      && AllBegun(d, k)
      && Work(Behind(d, k)) + (if s.rounds[p] < k && d != s then 1 else 0) <= Work(Behind(s, k))
  {
    var d := Next(s, p);
    forall q | 0 <= q < |s.pc| ensures Entered(d, q) >= k { assert Entered(s, q) >= k; }
    assert Entered(s, p) >= k;
    var b := Behind(s, k);
    assert Behind(d, k) == b[p := Behind(d, k)[p]];
    WorkAt(b, p, Behind(d, k)[p]);
  }

  lemma {:induction false} BoundedMoves(s: State, sched: seq<nat>, k: nat)
    requires AllBegun(s, k) && Schedule(sched, |s.pc|)
    ensures AllBegun(Run(s, sched), k) && Moves(s, sched, k) + Work(Behind(Run(s, sched), k)) <= Work(Behind(s, k))
    decreases |sched|
  {
    if sched != [] {
      StepBehind(s, sched[0], k);
      BoundedMoves(Next(s, sched[0]), sched[1..], k);
    }
  }

  /** While a processor has not returned from its k-th call, one of those can move: when none has
      returned yet, because not all wait for each other, and otherwise because the round is over. */
  lemma OneBehindMoves(s: State, k: nat) returns (p: nat)
    requires Inv(s) && AllBegun(s, k) && exists q :: 0 <= q < |s.pc| && s.rounds[q] < k
    ensures p < |s.pc| && s.rounds[p] < k && Next(s, p) != s
  {
    if r :| 0 <= r < |s.pc| && s.rounds[r] >= k {
      assert Local(s.pc[r], s.seen[r], s.rounds[r], s.epoch);
      p :| 0 <= p < |s.pc| && s.rounds[p] < k;
      assert Local(s.pc[p], s.seen[p], s.rounds[p], s.epoch) && Entered(s, p) >= k;
      if s.pc[p] == Spin(false) { SpinExits(s, p); }
      assert Next(s, p).pc[p] != s.pc[p];
    } else {
      forall q | 0 <= q < |s.pc| ensures Entered(s, q) == k { assert Entered(s, q) >= k; }
      var q :| 0 <= q < |s.pc| && s.rounds[q] < k;
      assert Entered(s, q) == k && s.pc[q] != Idle;
      p := SomeoneCanMove(s, k);
    }
  }

  /** Once all have begun their k-th call, under every schedule, whether or not processors that are
      out begin the next one: those still in it have at most eight moves each left, when these
      are made all have returned from it, and as long as one has not, one of those can move. So
      every schedule that does not starve a processor that can move lets all of them out. */
  lemma AllReturn(n: nat, before: seq<nat>, after: seq<nat>, k: nat) returns (p: nat)
    requires 0 < n < U32 && Schedule(before, n) && Schedule(after, n) && AllBegun(Run(Init(n), before), k)
    ensures var s := Run(Init(n), before); var d := Run(s, after);
      && Moves(s, after, k) <= Work(Behind(s, k)) <= 8 * n && p < n
      && (Moves(s, after, k) == Work(Behind(s, k)) ==> forall q :: 0 <= q < n ==> d.rounds[q] >= k)
      && ((exists q :: 0 <= q < n && d.rounds[q] < k) ==> d.rounds[p] < k && Next(d, p) != d)
  {
    InitInv(n);
    RunInv(Init(n), before);
    var s := Run(Init(n), before);
    RunInv(s, after);
    BoundedMoves(s, after, k);
    WorkBound(Behind(s, k));
    var d := Run(s, after);
    p := 0;
    if exists q :: 0 <= q < n && d.rounds[q] < k { p := OneBehindMoves(d, k); }
    if Moves(s, after, k) == Work(Behind(s, k)) {
      forall q | 0 <= q < n ensures d.rounds[q] >= k {
        NoWork(Behind(d, k), q);
        assert Entered(d, q) >= k;
      }
    }
  }

  lemma {:induction false} WorkBound(pc: seq<Pc>)
    ensures Work(pc) <= 8 * |pc|
  {
    if pc != [] { WorkBound(pc[1..]); }
  }
}
