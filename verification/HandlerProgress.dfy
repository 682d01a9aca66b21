/** Progress of the handlers on top of the order lock: some thread can always move, and every handler returns. */
module HandlerProgress {
  import opened Base
  import opened OrderLock
  import opened OrderProgress
  import opened OrderCredit

  predicate CanMove(s: State, i: Tid, rate: Rate) {
    Step(s, i, Go(true), rate) != s
  }

  /** What is left inside the guarded section. */
  function WorkLeft(w: Work): (n: nat) {
    match w
    case Enter(_) => 3
    case SaveRow(_) => 2
    case AddQuota(_) => 1
  }

  /** Steps a call has left at most, its database calls included. */
  function StepsLeft(s: State, i: Tid): (n: nat) {
    var pc := s.locks.PcOf(i);
    if pc == Idle then 0
    else if Locking(pc) then Rank(pc) + 3
    else if Working(s, i) then Rank(pc) + WorkLeft(s.work[i])
    else Rank(pc)
  }

  function Remaining(s: State): (rank: Tid -> nat) {
    (i: Tid) => StepsLeft(s, i)
  }

  /** A handler goes on to a later call, or leaves. */
  lemma DecisionAdvances(s: State, i: Tid, c: Choice, rate: Rate)
    requires PlansOk(s) && WorkOk(s, i) && Working(s, i)
    ensures var next := Decision(s, i, c, rate).1; next.Some? ==> WorkLeft(next.value) < WorkLeft(s.work[i])
  {
    DecisionOk(s, i, c, rate);
  }

  lemma WorkerAdvances(s: State, i: Tid, c: Choice, rate: Rate)
    requires PlansOk(s) && WorkOk(s, i) && Working(s, i)
    ensures StepsLeft(Step(s, i, c, rate), i) < StepsLeft(s, i)
  {
    DecisionAdvances(s, i, c, rate);
    PerformAdds(s, s.locks.PcOf(i).t, Decision(s, i, c, rate).0, rate);
  }

  lemma WaiterAdvances(s: State, i: Tid, rate: Rate)
    requires Inv(s.locks) && s.locks.PcOf(i) != Idle && !Working(s, i)
    ensures CanMove(s, i, rate) <==> Moveable(s.locks, i)
    ensures CanMove(s, i, rate) ==> StepsLeft(Step(s, i, Go(true), rate), i) < StepsLeft(s, i)
  {
    StepFollows(s.locks, i, i);
  }

  /** A thread that can move has fewer steps left afterwards, and only a lock can keep it from moving. */
  lemma MoverAdvances(s0: State, s: State, i: Tid, rate: Rate)
    requires CInv(s0, s, rate)
    ensures CanMove(s, i, rate) ==> StepsLeft(Step(s, i, Go(true), rate), i) < StepsLeft(s, i)
    ensures CanMove(s, i, rate) <==> s.locks.PcOf(i) != Idle && !Blocked(s.locks, i)
  {
    assert WorkOk(s, i);
    if s.locks.PcOf(i) != Idle {
      if Working(s, i) {
        WorkerAdvances(s, i, Go(true), rate);
      } else {
        WaiterAdvances(s, i, rate);
        MovesUnlessBlocked(s.locks, i);
      }
    }
  }

  lemma OthersRemain(s: State, i: Tid, rate: Rate, j: Tid)
    requires j != i
    ensures StepsLeft(Step(s, i, Go(true), rate), j) == StepsLeft(s, j)
  {
    OthersStand(s, i, Go(true), rate, j);
  }

  lemma SameThreads(s: State, i: Tid, rate: Rate)
    requires CanMove(s, i, rate)
    ensures i in s.locks.threads && Step(s, i, Go(true), rate).locks.threads.Keys == s.locks.threads.Keys
  {
    if Working(s, i) { PerformAdds(s, s.locks.PcOf(i).t, Decision(s, i, Go(true), rate).0, rate); }
    else if Locking(s.locks.PcOf(i)) { LockerMoves(s.locks, i, None); }
    else { UnlockerMoves(s.locks, i, None); }
  }

  lemma MoveLeaves(s0: State, s: State, i: Tid, rate: Rate)
    requires CInv(s0, s, rate) && CanMove(s, i, rate)
    ensures var s', ids := Step(s, i, Go(true), rate), s.locks.threads.Keys;
            s'.locks.threads.Keys == ids && Left(Remaining(s'), ids) < Left(Remaining(s), ids)
  {
    var s' := Step(s, i, Go(true), rate);
    MoverAdvances(s0, s, i, rate);
    SameThreads(s, i, rate);
    forall j: Tid | j != i ensures Remaining(s')(j) == Remaining(s)(j) { OthersRemain(s, i, rate, j); }
    LeftLess(Remaining(s), Remaining(s'), s.locks.threads.Keys, i);
  }

  lemma SomeoneCan(s0: State, s: State, i: Tid, rate: Rate)
    requires CInv(s0, s, rate) && s.locks.PcOf(i) != Idle
    ensures exists j: Tid :: CanMove(s, j, rate)
  {
    SomeoneMoves(s.locks, i);
    var j: Tid :| Moveable(s.locks, j);
    MovesUnlessBlocked(s.locks, j);
    MoverAdvances(s0, s, j, rate);
  }

  /** In every interleaving of handlers: while one has not returned, some thread can move; none waits for a database. */
  lemma NoDeadlock(s0: State, sched: OrderCredit.Schedule, rate: Rate, i: Tid)
    requires Init(s0) && OrderCredit.Run(s0, sched, rate).locks.PcOf(i) != Idle
    ensures var s := OrderCredit.Run(s0, sched, rate);
            && (exists j: Tid :: Step(s, j, Go(true), rate) != s)
            && (Step(s, i, Go(true), rate) == s <==> Blocked(s.locks, i))
  {
    var s := OrderCredit.Run(s0, sched, rate);
    RunHasCInv(s0, sched, rate);
    SomeoneCan(s0, s, i, rate);
    MoverAdvances(s0, s, i, rate);
    var j: Tid :| CanMove(s, j, rate);
  }

  // ---------------------------------------------------------------- every handler returns

  /** The threads take these turns with a database that answers, and none starts a new call. */
  function Proceed(s: State, turns: seq<Tid>, rate: Rate): (r: State) {
    if turns == [] then s else Step(Proceed(s, turns[..|turns| - 1], rate), turns[|turns| - 1], Go(true), rate)
  }

  predicate Busy(s: State, turns: seq<Tid>, rate: Rate) {
    turns != [] ==>
      && Busy(s, turns[..|turns| - 1], rate)
      && CanMove(Proceed(s, turns[..|turns| - 1], rate), turns[|turns| - 1], rate)
  }

  lemma {:induction false} BusyTurns(s0: State, s: State, turns: seq<Tid>, rate: Rate)
    requires CInv(s0, s, rate) && Busy(s, turns, rate)
    ensures var r, ids := Proceed(s, turns, rate), s.locks.threads.Keys;
            && CInv(s0, r, rate) && r.locks.threads.Keys == ids
            && |turns| + Left(Remaining(r), ids) <= Left(Remaining(s), ids)
  {
    if turns != [] {
      var mid, i := Proceed(s, turns[..|turns| - 1], rate), turns[|turns| - 1];
      BusyTurns(s0, s, turns[..|turns| - 1], rate);
      StepKeepsCInv(s0, mid, i, Go(true), rate);
      MoveLeaves(s0, mid, i, rate);
    }
  }

  lemma AtMost(s: State, ids: set<Tid>)
    ensures Left(Remaining(s), ids) <= 16 * |ids|
  {
    LeftBound(Remaining(s), ids);
  }

  lemma BusyBound(s0: State, s: State, turns: seq<Tid>, rate: Rate)
    requires CInv(s0, s, rate) && Busy(s, turns, rate)
    ensures |turns| <= 16 * |s.locks.threads.Keys|
  {
    BusyTurns(s0, s, turns, rate);
    AtMost(s, s.locks.threads.Keys);
  }

  /**
    After any interleaving, once no new calls start: as long as the turns go to threads that can move, n threads need at
    most 16 n of them, and when none can move every handler has returned.
   */
  lemma EveryHandlerReturns(s0: State, sched: OrderCredit.Schedule, turns: seq<Tid>, rate: Rate)
    requires Init(s0) && Busy(OrderCredit.Run(s0, sched, rate), turns, rate)
    ensures var s := OrderCredit.Run(s0, sched, rate);
            var r := Proceed(s, turns, rate);
            && |turns| <= 16 * |s.locks.threads.Keys|
            && ((forall j: Tid :: !CanMove(r, j, rate)) ==> forall j: Tid :: r.locks.PcOf(j) == Idle)
  {
    var s := OrderCredit.Run(s0, sched, rate);
    var r := Proceed(s, turns, rate);
    RunHasCInv(s0, sched, rate);
    BusyBound(s0, s, turns, rate);
    BusyTurns(s0, s, turns, rate);
    if forall j: Tid :: !CanMove(r, j, rate) {
      forall j: Tid ensures r.locks.PcOf(j) == Idle {
        if r.locks.PcOf(j) != Idle { SomeoneCan(s0, r, j, rate); }
      }
    }
  }
}
