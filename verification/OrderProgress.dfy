/**
  Progress of the order lock: who waits and for whom, that some thread can always move, and that every call enters its
  guarded section and returns.
 */
module OrderProgress {
  import opened Base
  import opened OrderLock

  /** Thread i can take its next step. */
  predicate Moveable(s: Locks, i: Tid) {
    LockStep(s, i, None) != s
  }

  lemma LockerAdvances(s: Locks, i: Tid)
    requires Locking(s.PcOf(i)) && s.PcOf(i) != Idle && !s.PcOf(i).LockWait?
    ensures Moveable(s, i) <==> !(s.PcOf(i).LockCreate? && s.createLock.Some?)
  {
    var s' := LockStep(s, i, None);
    if !(s.PcOf(i).LockCreate? && s.createLock.Some?) { assert s'.PcOf(i) != s.PcOf(i); }
  }

  lemma UnlockerAdvances(s: Locks, i: Tid)
    requires !Locking(s.PcOf(i))
    ensures Moveable(s, i) <==> !(s.PcOf(i).UnlockCreate? && s.createLock.Some?)
  {
    var s' := LockStep(s, i, None);
    if !(s.PcOf(i).UnlockCreate? && s.createLock.Some?) { assert s'.PcOf(i) != s.PcOf(i); }
  }

  lemma WaiterAdvances(s: Locks, i: Tid)
    requires Inv(s) && s.PcOf(i).LockWait?
    ensures Moveable(s, i) <==> Entry(s, s.PcOf(i).t).holder == None
  {
    assert ThreadOk(s, i) && EntryOk(s, s.PcOf(i).t);
    if Entry(s, s.PcOf(i).t).holder == None { assert LockStep(s, i, None).PcOf(i) != s.PcOf(i); }
  }

  /** createLock is taken exactly while a thread is inside a section it guards. */
  lemma CreateHolder(s: Locks)
    requires Inv(s)
    ensures s.createLock.Some? <==> exists j: Tid :: InCreate(s.PcOf(j))
  {
    if s.createLock.Some? { assert ThreadOk(s, s.createLock.value); }
    forall j: Tid | InCreate(s.PcOf(j)) ensures s.createLock.Some? { assert ThreadOk(s, j); }
  }

  /** An order's mutex is taken exactly while a thread is between LockOrder and UnlockOrder. */
  lemma MutexHolder(s: Locks, t: TradeNo)
    requires Inv(s) && t in s.table
    ensures Entry(s, t).holder.Some? <==> exists j: Tid :: Holds(s.PcOf(j), t)
  {
    assert EntryOk(s, t);
    forall j: Tid | Holds(s.PcOf(j), t) ensures Entry(s, t).holder.Some? { assert ThreadOk(s, j); }
  }

  /** Whom a thread waits for: at createLock the thread inside it, at an order's mutex the thread that holds it. */
  ghost predicate Blocked(s: Locks, i: Tid) {
    match s.PcOf(i)
    case LockCreate(_) => exists j: Tid :: InCreate(s.PcOf(j))
    case UnlockCreate(_, _) => exists j: Tid :: InCreate(s.PcOf(j))
    case LockWait(t, _) => exists j: Tid :: Holds(s.PcOf(j), t)
    case _ => false
  }

  /** A thread inside a call stands still exactly while another thread is inside what it waits for. */
  lemma MovesUnlessBlocked(s: Locks, i: Tid)
    requires Inv(s) && s.PcOf(i) != Idle
    ensures Moveable(s, i) <==> !Blocked(s, i)
  {
    CreateHolder(s);
    var pc := s.PcOf(i);
    if pc.LockWait? {
      assert ThreadOk(s, i);
      MutexHolder(s, pc.t);
      WaiterAdvances(s, i);
    } else if Locking(pc) {
      LockerAdvances(s, i);
    } else {
      UnlockerAdvances(s, i);
    }
  }

  /** Chains of waiting end: behind a waiter stands a holder, behind a holder at most the thread inside createLock. */
  lemma SomeoneMoves(s: Locks, i: Tid)
    requires Inv(s) && s.PcOf(i) != Idle
    ensures exists j: Tid :: Moveable(s, j)
  {
    MovesUnlessBlocked(s, i);
    if Blocked(s, i) {
      if s.PcOf(i).LockWait? {
        var j: Tid :| Holds(s.PcOf(j), s.PcOf(i).t);
        MovesUnlessBlocked(s, j);
      } else {
        var j: Tid :| InCreate(s.PcOf(j));
        MovesUnlessBlocked(s, j);
      }
    }
  }

  /** In every interleaving: while some call has not returned, some thread can move, and none stands unless blocked. */
  lemma NoDeadlock(sched: Schedule, i: Tid)
    requires Run(sched).PcOf(i) != Idle
    ensures exists j: Tid :: LockStep(Run(sched), j, None) != Run(sched)
    ensures LockStep(Run(sched), i, None) == Run(sched) <==> Blocked(Run(sched), i)
  {
    RunHasInv(sched);
    MovesUnlessBlocked(Run(sched), i);
    SomeoneMoves(Run(sched), i);
    var j: Tid :| Moveable(Run(sched), j);
  }

  // ---------------------------------------------------------------- how far a call has come

  /** Steps a call has left at most. */
  function Rank(pc: Pc): (n: nat) {
    match pc
    case Idle => 0
    case UnlockRelease(_) => 1
    case UnlockDelete(_, _) => 2
    case UnlockCount(_, _) => 3
    case UnlockCreate(_, _) => 4
    case UnlockMutex(_, _) => 5
    case UnlockLoad(_) => 6
    case Critical(_) => 7
    case LockWait(_, _) => 8
    case LockRelease(_, _) => 9
    case LockCount(_, _) => 10
    case LockStore(_) => 11
    case LockLookup(_) => 12
    case LockCreate(_) => 13
  }

  /** The trade number of the call a thread is in. */
  function OrderOf(pc: Pc): (t: Option<TradeNo>) {
    if pc == Idle then None else Some(pc.t)
  }

  /** A call stays with its order, reaches UnlockOrder only through the guarded section, and ends in its last step. */
  predicate Follows(pc: Pc, next: Pc) {
    || next == pc
    || (&& Rank(next) < Rank(pc)
        && (if next == Idle then pc.UnlockRelease? else OrderOf(next) == OrderOf(pc))
        && (Locking(pc) ==> Locking(next) || next == Critical(pc.t)))
  }

  lemma LockerFollows(s: Locks, i: Tid)
    requires Locking(s.PcOf(i)) && s.PcOf(i) != Idle
    ensures Follows(s.PcOf(i), LockStep(s, i, None).PcOf(i))
    ensures Moveable(s, i) ==> LockStep(s, i, None).PcOf(i) != s.PcOf(i)
  {
  }

  lemma UnlockerFollows(s: Locks, i: Tid)
    requires ThreadOk(s, i) && !Locking(s.PcOf(i))
    ensures Follows(s.PcOf(i), LockStep(s, i, None).PcOf(i))
    ensures Moveable(s, i) ==> LockStep(s, i, None).PcOf(i) != s.PcOf(i)
  {
  }

  /** A thread that can move comes closer to the end of its call, and the others stay where they are. */
  lemma StepFollows(s: Locks, i: Tid, j: Tid)
    requires Inv(s)
    ensures Follows(s.PcOf(j), LockStep(s, i, None).PcOf(j))
    ensures Moveable(s, i) ==> Rank(LockStep(s, i, None).PcOf(i)) < Rank(s.PcOf(i))
  {
    assert ThreadOk(s, i);
    if s.PcOf(i) != Idle {
      if Locking(s.PcOf(i)) { LockerFollows(s, i); } else { UnlockerFollows(s, i); }
    }
    if i != j { OtherPc(s, i, None, j); }
  }

  // ---------------------------------------------------------------- every call returns

  /** The steps the threads of a set have left in all. */
  ghost function Left(rank: Tid -> nat, ids: set<Tid>): (n: nat) {
    if ids == {} then 0 else var i :| i in ids; Left(rank, ids - {i}) + rank(i)
  }

  lemma {:induction false} LeftTake(rank: Tid -> nat, ids: set<Tid>, x: Tid)
    requires x in ids
    ensures Left(rank, ids) == Left(rank, ids - {x}) + rank(x)
    decreases |ids|
  {
    var i :| i in ids && Left(rank, ids) == Left(rank, ids - {i}) + rank(i);
    if i != x {
      LeftTake(rank, ids - {i}, x);
      LeftTake(rank, ids - {x}, i);
      assert ids - {i} - {x} == ids - {x} - {i};
    }
  }

  lemma {:induction false} LeftSame(rank: Tid -> nat, rank': Tid -> nat, ids: set<Tid>)
    requires forall i :: i in ids ==> rank'(i) == rank(i)
    ensures Left(rank', ids) == Left(rank, ids)
    decreases |ids|
  {
    if ids != {} {
      var i :| i in ids;
      LeftSame(rank, rank', ids - {i});
      LeftTake(rank, ids, i);
      LeftTake(rank', ids, i);
    }
  }

  lemma {:induction false} LeftBound(rank: Tid -> nat, ids: set<Tid>)
    requires forall i :: i in ids ==> rank(i) <= 16
    ensures Left(rank, ids) <= 16 * |ids|
    decreases |ids|
  {
    if ids != {} {
      var i :| i in ids;
      LeftBound(rank, ids - {i});
      LeftTake(rank, ids, i);
    }
  }

  /** One thread has fewer steps left and the others as many as before. */
  lemma LeftLess(rank: Tid -> nat, rank': Tid -> nat, ids: set<Tid>, x: Tid)
    requires x in ids && rank'(x) < rank(x) && forall i :: i != x ==> rank'(i) == rank(i)
    ensures Left(rank', ids) < Left(rank, ids)
  {
    LeftTake(rank, ids, x);
    LeftTake(rank', ids, x);
    LeftSame(rank, rank', ids - {x});
  }

  function Ranks(s: Locks): (rank: Tid -> nat) {
    (i: Tid) => Rank(s.PcOf(i))
  }

  lemma StepLeaves(s: Locks, i: Tid)
    requires Inv(s) && Moveable(s, i)
    ensures i in s.threads && LockStep(s, i, None).threads.Keys == s.threads.Keys
    ensures Left(Ranks(LockStep(s, i, None)), s.threads.Keys) < Left(Ranks(s), s.threads.Keys)
  {
    var s' := LockStep(s, i, None);
    StepFollows(s, i, i);
    if Locking(s.PcOf(i)) { LockerMoves(s, i, None); } else { UnlockerMoves(s, i, None); }
    forall j: Tid | j != i ensures s'.PcOf(j) == s.PcOf(j) { OtherPc(s, i, None, j); }
    LeftLess(Ranks(s), Ranks(s'), s.threads.Keys, i);
  }

  /** The threads take these turns, and none starts a new call. */
  function Proceed(s: Locks, turns: seq<Tid>): (r: Locks) {
    if turns == [] then s else LockStep(Proceed(s, turns[..|turns| - 1]), turns[|turns| - 1], None)
  }

  /** No turn is wasted on a thread that cannot move. */
  predicate Busy(s: Locks, turns: seq<Tid>) {
    turns != [] ==>
      Busy(s, turns[..|turns| - 1]) && Moveable(Proceed(s, turns[..|turns| - 1]), turns[|turns| - 1])
  }

  lemma {:induction false} BusyTurns(s: Locks, turns: seq<Tid>)
    requires Inv(s) && Busy(s, turns)
    ensures var r := Proceed(s, turns);
            && Inv(r) && r.threads.Keys == s.threads.Keys
            && |turns| + Left(Ranks(r), s.threads.Keys) <= Left(Ranks(s), s.threads.Keys)
  {
    if turns != [] {
      var mid, i := Proceed(s, turns[..|turns| - 1]), turns[|turns| - 1];
      BusyTurns(s, turns[..|turns| - 1]);
      StepKeepsInv(mid, i, None);
      StepLeaves(mid, i);
    }
  }

  lemma NobodyMoves(s: Locks)
    requires Inv(s) && forall j: Tid :: !Moveable(s, j)
    ensures (forall j: Tid :: s.PcOf(j) == Idle) && s.table == map[] && s.createLock == None
  {
    forall j: Tid ensures s.PcOf(j) == Idle {
      if s.PcOf(j) != Idle { SomeoneMoves(s, j); }
    }
    IdleIsEmpty(s);
  }

  lemma BusyBound(s: Locks, turns: seq<Tid>)
    requires Inv(s) && Busy(s, turns)
    ensures |turns| <= 16 * |s.threads.Keys|
  {
    BusyTurns(s, turns);
    LeftBound(Ranks(s), s.threads.Keys);
  }

  /**
    After any interleaving, once no new calls start: as long as the turns go to threads that can move, n threads need at
    most 16 n of them, and when none can move every call has returned and no lock is left behind.
   */
  lemma EveryCallReturns(sched: Schedule, turns: seq<Tid>)
    requires Busy(Run(sched), turns)
    ensures |turns| <= 16 * |Run(sched).threads.Keys|
    ensures var r := Proceed(Run(sched), turns);
            (forall j: Tid :: !Moveable(r, j)) ==>
              (forall j: Tid :: r.PcOf(j) == Idle) && r.table == map[] && r.createLock == None
  {
    RunHasInv(sched);
    BusyBound(Run(sched), turns);
    BusyTurns(Run(sched), turns);
    if forall j: Tid :: !Moveable(Proceed(Run(sched), turns), j) { NobodyMoves(Proceed(Run(sched), turns)); }
  }

  // ---------------------------------------------------------------- every call enters its guarded section

  lemma RunSnoc(sched: Schedule, x: (Tid, Option<TradeNo>))
    ensures Run(sched + [x]) == LockStep(Run(sched), x.0, x.1)
  {
    assert (sched + [x])[..|sched|] == sched;
  }

  lemma CallerFollows(s: Locks, i: Tid, call: Option<TradeNo>, j: Tid)
    requires Inv(s) && s.PcOf(j) != Idle
    ensures Follows(s.PcOf(j), LockStep(s, i, call).PcOf(j))
  {
    if i == j { StepFollows(s, i, i); } else { OtherPc(s, i, call, j); }
  }

  /** After some more steps a call is still waiting for its guarded section, or was inside it. */
  lemma {:induction false} CallEnters(sched: Schedule, after: Schedule, i: Tid, t: TradeNo)
    requires var pc := Run(sched).PcOf(i); pc != Idle && Locking(pc) && pc.t == t
    ensures var next := Run(sched + after).PcOf(i);
            || (next != Idle && Locking(next) && next.t == t)
            || exists k :: 0 <= k <= |after| && Run(sched + after[..k]).PcOf(i) == Critical(t)
  {
    if after == [] {
      assert sched + after == sched;
    } else {
      var n := |after| - 1;
      var before, x := after[..n], after[n];
      CallEnters(sched, before, i, t);
      assert sched + after == (sched + before) + [x] && after[..|after|] == after;
      RunSnoc(sched + before, x);
      RunHasInv(sched + before);
      if k :| 0 <= k <= n && Run(sched + before[..k]).PcOf(i) == Critical(t) {
        assert before[..k] == after[..k];
      } else {
        CallerFollows(Run(sched + before), x.0, x.1, i);
      }
    }
  }

  /** Whatever happens around it, a call of LockOrder that has returned was inside the guarded section of its order. */
  lemma EveryCallEnters(sched: Schedule, after: Schedule, i: Tid, t: TradeNo)
    requires Run(sched).PcOf(i) == Idle && Run(sched + [(i, Some(t))] + after).PcOf(i) == Idle
    ensures exists k :: 0 <= k <= |after| && Run(sched + [(i, Some(t))] + after[..k]).PcOf(i) == Critical(t)
  {
    RunSnoc(sched, (i, Some(t)));
    CallEnters(sched + [(i, Some(t))], after, i, t);
  }
}
