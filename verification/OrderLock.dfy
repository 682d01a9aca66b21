/**
  LockOrder and UnlockOrder of controller/topup.go as a small-step concurrent system. A step is one atomic action of
  one thread: one Lock, Unlock, Load, Store or Delete, or one counter update. Any number of threads, any interleaving.
 */
module OrderLock {
  import opened Base

  type Tid = nat
  type TradeNo = string
  type MutexId = nat

  datatype Pc =
    | Idle
    // LockOrder
    | LockCreate(t: TradeNo)
    | LockLookup(t: TradeNo)
    | LockStore(t: TradeNo)
    | LockCount(t: TradeNo, m: MutexId)
    | LockRelease(t: TradeNo, m: MutexId)
    | LockWait(t: TradeNo, m: MutexId)
    // between LockOrder and UnlockOrder: the code keeps the trade number, not the mutex
    | Critical(t: TradeNo)
    // UnlockOrder
    | UnlockLoad(t: TradeNo)
    | UnlockMutex(t: TradeNo, m: MutexId)
    | UnlockCreate(t: TradeNo, m: MutexId)
    | UnlockCount(t: TradeNo, m: MutexId)
    | UnlockDelete(t: TradeNo, m: MutexId)
    | UnlockRelease(t: TradeNo)

  /** refCountedMutex. Unlocking never looks at the holder, just as sync.Mutex does not. */
  datatype Mutex = Mutex(holder: Option<Tid>, refCount: int)

  datatype Locks = Locks(
    table: map<TradeNo, MutexId>,   // orderLocks
    mutexes: seq<Mutex>,            // every refCountedMutex ever allocated
    createLock: Option<Tid>,
    threads: map<Tid, Pc>)
  {
    function PcOf(i: Tid): (pc: Pc) {
      if i in threads then threads[i] else Idle
    }

    function At(i: Tid, pc: Pc): (s: Locks) {
      this.(threads := threads[i := pc])
    }

    function AddCount(m: MutexId, delta: int): (s: Locks) {
      if m < |mutexes| then this.(mutexes := mutexes[m := mutexes[m].(refCount := mutexes[m].refCount + delta)]) else this
    }

    function SetHolder(m: MutexId, h: Option<Tid>): (s: Locks) {
      if m < |mutexes| then this.(mutexes := mutexes[m := mutexes[m].(holder := h)]) else this
    }
  }

  const NO_LOCKS := Locks(map[], [], None, map[])

  /**
    One atomic step of thread i. An idle thread calls LockOrder when `call` names an order; a thread inside the
    guarded section calls UnlockOrder; a thread waiting for a lock that is taken does not move.
   */
  function LockStep(s: Locks, i: Tid, call: Option<TradeNo>): (s': Locks) {
    match s.PcOf(i)
    case Idle => if call.Some? then s.At(i, LockCreate(call.value)) else s
    case LockCreate(t) =>
      if s.createLock != None then s else s.(createLock := Some(i)).At(i, LockLookup(t))
    case LockLookup(t) =>
      if t in s.table then s.At(i, LockCount(t, s.table[t])) else s.At(i, LockStore(t))
    case LockStore(t) =>
      s.(table := s.table[t := |s.mutexes|], mutexes := s.mutexes + [Mutex(None, 0)]).At(i, LockCount(t, |s.mutexes|))
    case LockCount(t, m) => s.AddCount(m, 1).At(i, LockRelease(t, m))
    case LockRelease(t, m) => s.(createLock := None).At(i, LockWait(t, m))
    case LockWait(t, m) =>
      if m >= |s.mutexes| || s.mutexes[m].holder != None then s else s.SetHolder(m, Some(i)).At(i, Critical(t))
    case Critical(t) => s.At(i, UnlockLoad(t))
    case UnlockLoad(t) =>
      // outside createLock; a miss returns and leaves the mutex locked
      if t in s.table then s.At(i, UnlockMutex(t, s.table[t])) else s.At(i, Idle)
    case UnlockMutex(t, m) => s.SetHolder(m, None).At(i, UnlockCreate(t, m))
    case UnlockCreate(t, m) =>
      if s.createLock != None then s else s.(createLock := Some(i)).At(i, UnlockCount(t, m))
    case UnlockCount(t, m) => s.AddCount(m, -1).At(i, UnlockDelete(t, m))
    case UnlockDelete(t, m) =>
      if m < |s.mutexes| && s.mutexes[m].refCount == 0
      then s.(table := s.table - {t}).At(i, UnlockRelease(t)) else s.At(i, UnlockRelease(t))
    case UnlockRelease(t) => s.(createLock := None).At(i, Idle)
  }

  /** Counted in refCount: from the increment in LockOrder up to the decrement in UnlockOrder. */
  predicate Registered(pc: Pc, t: TradeNo) {
    && (pc.LockRelease? || pc.LockWait? || pc.Critical? || pc.UnlockLoad? ||
        pc.UnlockMutex? || pc.UnlockCreate? || pc.UnlockCount?)
    && pc.t == t
  }

  /** Between taking the order's mutex and releasing it. */
  predicate Holds(pc: Pc, t: TradeNo) {
    (pc.Critical? || pc.UnlockLoad? || pc.UnlockMutex?) && pc.t == t
  }

  /** Inside a section guarded by createLock. */
  predicate InCreate(pc: Pc) {
    pc.LockLookup? || pc.LockStore? || pc.LockCount? || pc.LockRelease? ||
    pc.UnlockCount? || pc.UnlockDelete? || pc.UnlockRelease?
  }

  /** The two moments, both under createLock, at which an entry of the table may have no registered thread. */
  predicate Settling(pc: Pc, t: TradeNo) {
    (pc.LockCount? || pc.UnlockDelete?) && pc.t == t
  }

  /** The thread has a pointer to a mutex object. */
  predicate HasPointer(pc: Pc) {
    pc.LockCount? || pc.LockRelease? || pc.LockWait? || pc.UnlockMutex? || pc.UnlockCreate? ||
    pc.UnlockCount? || pc.UnlockDelete?
  }

  ghost function Users(threads: map<Tid, Pc>, t: TradeNo): (r: set<Tid>) {
    set i | i in threads && Registered(threads[i], t)
  }

  /** The mutex behind an order's entry; an arbitrary free one when there is none. */
  function Entry(s: Locks, t: TradeNo): (m: Mutex) {
    if t in s.table && s.table[t] < |s.mutexes| then s.mutexes[s.table[t]] else Mutex(None, 0)
  }

  ghost predicate ThreadOk(s: Locks, i: Tid) {
    var pc := s.PcOf(i);
    && (InCreate(pc) <==> s.createLock == Some(i))
    && (pc.LockStore? ==> pc.t !in s.table)
    && (HasPointer(pc) ==> pc.t in s.table && s.table[pc.t] == pc.m)
    && (pc.Critical? || pc.UnlockLoad? ==> pc.t in s.table)
    && (pc.Critical? || pc.UnlockLoad? || pc.UnlockMutex? ==> Entry(s, pc.t).holder == Some(i))
  }

  ghost predicate EntryOk(s: Locks, t: TradeNo)
    requires t in s.table
  {
    && s.table[t] < |s.mutexes|
    && (Entry(s, t).holder.Some? ==> Holds(s.PcOf(Entry(s, t).holder.value), t))
    && Entry(s, t).refCount == |Users(s.threads, t)|
    && (Users(s.threads, t) != {} || (s.createLock.Some? && Settling(s.PcOf(s.createLock.value), t)))
  }

  ghost predicate Injective(s: Locks) {
    forall t, t' :: t in s.table && t' in s.table && s.table[t] == s.table[t'] ==> t == t'
  }

  ghost predicate Inv(s: Locks) {
    && (forall i: Tid :: ThreadOk(s, i))
    && (forall t :: t in s.table ==> EntryOk(s, t))
    && Injective(s)
  }

  lemma UsersMove(threads: map<Tid, Pc>, i: Tid, pc: Pc, t: TradeNo)
    ensures var before := Users(threads, t);
            var after := Users(threads[i := pc], t);
            && (Registered(pc, t) ==> after == before + {i})
            && (!Registered(pc, t) ==> after == before - {i})
            && (i in before <==> i in threads && Registered(threads[i], t))
  {
  }

  /** The mover's own facts after its step. */
  lemma MoverOk(s: Locks, i: Tid, call: Option<TradeNo>)
    requires ThreadOk(s, i)
    requires HasPointer(s.PcOf(i)) ==> EntryOk(s, s.PcOf(i).t)
    ensures ThreadOk(LockStep(s, i, call), i)
  {
    if Locking(s.PcOf(i)) { LockerOk(s, i, call); } else { UnlockerOk(s, i, call); }
  }

  lemma LockerOk(s: Locks, i: Tid, call: Option<TradeNo>)
    requires ThreadOk(s, i) && Locking(s.PcOf(i))
    requires HasPointer(s.PcOf(i)) ==> EntryOk(s, s.PcOf(i).t)
    ensures ThreadOk(LockStep(s, i, call), i)
  {
  }

  lemma UnlockerOk(s: Locks, i: Tid, call: Option<TradeNo>)
    requires ThreadOk(s, i) && !Locking(s.PcOf(i))
    ensures ThreadOk(LockStep(s, i, call), i)
  {
  }

  /** Only the thread inside createLock changes the table, and it never drops an entry another thread relies on. */
  lemma OtherTable(s: Locks, i: Tid, call: Option<TradeNo>, j: Tid, t: TradeNo)
    requires Inv(s) && j != i
    requires s.PcOf(j) != Idle && !s.PcOf(j).LockCreate? && !s.PcOf(j).UnlockRelease? && t == s.PcOf(j).t
    ensures var s' := LockStep(s, i, call);
            && (t in s'.table <==> t in s.table)
            && (t in s.table ==> s'.table[t] == s.table[t])
  {
    assert ThreadOk(s, i) && ThreadOk(s, j);
    var pc := s.PcOf(i);
    if pc.UnlockDelete? && pc.t == t {
      assert EntryOk(s, t);
      if !InCreate(s.PcOf(j)) { assert j in Users(s.threads, t); }
    }
  }

  /** No other thread's step changes the mutex a thread holds. */
  lemma OtherHolder(s: Locks, i: Tid, call: Option<TradeNo>, j: Tid, t: TradeNo)
    requires Inv(s) && j != i && Holds(s.PcOf(j), t)
    ensures Entry(LockStep(s, i, call), t).holder == Some(j)
  {
    assert ThreadOk(s, i) && ThreadOk(s, j);
    assert EntryOk(s, t);
    OtherTable(s, i, call, j, t);
    var pc := s.PcOf(i);
    if HasPointer(pc) { assert EntryOk(s, pc.t); }
  }

  lemma OtherPc(s: Locks, i: Tid, call: Option<TradeNo>, j: Tid)
    requires j != i
    ensures LockStep(s, i, call).PcOf(j) == s.PcOf(j)
  {
  }

  /** createLock passes only between its holder and nobody. */
  lemma OtherCreate(s: Locks, i: Tid, call: Option<TradeNo>, j: Tid)
    requires ThreadOk(s, i) && j != i
    ensures LockStep(s, i, call).createLock == Some(j) <==> s.createLock == Some(j)
  {
  }

  lemma OtherFacts(s: Locks, s': Locks, j: Tid)
    requires ThreadOk(s, j) && s'.PcOf(j) == s.PcOf(j)
    requires s'.createLock == Some(j) <==> s.createLock == Some(j)
    requires var pc := s.PcOf(j); pc != Idle && !pc.LockCreate? && !pc.UnlockRelease? ==>
               && (pc.t in s'.table <==> pc.t in s.table)
               && (pc.t in s.table ==> s'.table[pc.t] == s.table[pc.t])
               && (Holds(pc, pc.t) ==> Entry(s', pc.t).holder == Some(j))
    ensures ThreadOk(s', j)
  {
  }

  lemma OtherOk(s: Locks, i: Tid, call: Option<TradeNo>, j: Tid)
    requires Inv(s) && j != i
    ensures ThreadOk(LockStep(s, i, call), j)
  {
    assert ThreadOk(s, i) && ThreadOk(s, j);
    var pc := s.PcOf(j);
    if pc != Idle && !pc.LockCreate? && !pc.UnlockRelease? {
      OtherTable(s, i, call, j, pc.t);
      if Holds(pc, pc.t) { OtherHolder(s, i, call, j, pc.t); }
    }
    OtherPc(s, i, call, j);
    OtherCreate(s, i, call, j);
    OtherFacts(s, LockStep(s, i, call), j);
  }

  /** What a step needs to know about order t, the mover's own order and their entries. */
  ghost predicate LocalInv(s: Locks, i: Tid, t: TradeNo) {
    var pc := s.PcOf(i);
    && ThreadOk(s, i)
    && (t in s.table ==> EntryOk(s, t))
    && (t !in s.table ==> Users(s.threads, t) == {})
    && (HasPointer(pc) ==> EntryOk(s, pc.t))
    && (HasPointer(pc) && t in s.table && s.table[t] == pc.m ==> t == pc.t)
  }

  lemma InvIsLocal(s: Locks, i: Tid, t: TradeNo)
    requires Inv(s)
    ensures LocalInv(s, i, t)
  {
    assert ThreadOk(s, i);
    forall j | j in s.threads && Registered(s.threads[j], t) ensures t in s.table { assert ThreadOk(s, j); }
  }

  /** Only thread i moves. */
  predicate Moves(threads: map<Tid, Pc>, threads': map<Tid, Pc>, i: Tid) {
    threads' == threads || (i in threads' && threads' == threads[i := threads'[i]])
  }

  lemma LockerMoves(s: Locks, i: Tid, call: Option<TradeNo>)
    requires Locking(s.PcOf(i))
    ensures Moves(s.threads, LockStep(s, i, call).threads, i)
  {
  }

  lemma UnlockerMoves(s: Locks, i: Tid, call: Option<TradeNo>)
    requires !Locking(s.PcOf(i))
    ensures Moves(s.threads, LockStep(s, i, call).threads, i)
  {
  }

  /** Inside LockOrder, or about to call it. */
  predicate Locking(pc: Pc) {
    pc.Idle? || pc.LockCreate? || pc.LockLookup? || pc.LockStore? || pc.LockCount? || pc.LockRelease? || pc.LockWait?
  }

  lemma LockingStep(s: Locks, i: Tid, call: Option<TradeNo>, t: TradeNo)
    requires Locking(s.PcOf(i))
    ensures var next, pc := LockStep(s, i, call).PcOf(i), s.PcOf(i);
            if pc.LockCount? then pc.t == t ==> Registered(next, t) else Registered(next, t) == Registered(pc, t)
  {
  }

  lemma UnlockingStep(s: Locks, i: Tid, call: Option<TradeNo>, t: TradeNo)
    requires !Locking(s.PcOf(i))
    ensures var next, pc := LockStep(s, i, call).PcOf(i), s.PcOf(i);
            if pc.UnlockCount? then pc.t == t ==> !Registered(next, t)
            else !(pc.UnlockLoad? && pc.t !in s.table) ==> Registered(next, t) == Registered(pc, t)
  {
  }

  lemma CountOther(s: Locks, i: Tid, call: Option<TradeNo>, t: TradeNo)
    requires (s.PcOf(i).LockCount? || s.PcOf(i).UnlockCount?) && s.PcOf(i).t != t
    ensures Registered(LockStep(s, i, call).PcOf(i), t) == Registered(s.PcOf(i), t)
  {
  }

  /** LockOrder's increment and UnlockOrder's decrement are the only steps that change who is registered. */
  lemma StepUsers(s: Locks, i: Tid, call: Option<TradeNo>, t: TradeNo)
    requires ThreadOk(s, i)
    ensures var pc := s.PcOf(i);
            var before := Users(s.threads, t);
            var after := Users(LockStep(s, i, call).threads, t);
            if pc.LockCount? && pc.t == t then i !in before && after == before + {i}
            else if pc.UnlockCount? && pc.t == t then i in before && after == before - {i}
            else after == before
  {
    var pc := s.PcOf(i);
    if Locking(pc) {
      LockerMoves(s, i, call);
      LockingStep(s, i, call, t);
    } else {
      UnlockerMoves(s, i, call);
      UnlockingStep(s, i, call, t);
    }
    if (pc.LockCount? || pc.UnlockCount?) && pc.t != t { CountOther(s, i, call, t); }
    UsersMove(s.threads, i, LockStep(s, i, call).PcOf(i), t);
  }

  /** The counters change in the same two steps. */
  lemma StepCount(s: Locks, i: Tid, call: Option<TradeNo>, t: TradeNo)
    requires LocalInv(s, i, t) && t in LockStep(s, i, call).table
    ensures var pc := s.PcOf(i);
            var s' := LockStep(s, i, call);
            && s'.table[t] < |s'.mutexes|
            && Entry(s', t).refCount == Entry(s, t).refCount
                 + (if pc.LockCount? && pc.t == t then 1 else if pc.UnlockCount? && pc.t == t then -1 else 0)
  {
    if Locking(s.PcOf(i)) { LockerCount(s, i, call, t); } else { UnlockerCount(s, i, call, t); }
  }

  lemma LockerCount(s: Locks, i: Tid, call: Option<TradeNo>, t: TradeNo)
    requires LocalInv(s, i, t) && t in LockStep(s, i, call).table && Locking(s.PcOf(i))
    ensures var s', pc := LockStep(s, i, call), s.PcOf(i);
            && s'.table[t] < |s'.mutexes|
            && Entry(s', t).refCount == Entry(s, t).refCount + if pc.LockCount? && pc.t == t then 1 else 0
  {
  }

  lemma UnlockerCount(s: Locks, i: Tid, call: Option<TradeNo>, t: TradeNo)
    requires LocalInv(s, i, t) && t in LockStep(s, i, call).table && !Locking(s.PcOf(i))
    ensures var s', pc := LockStep(s, i, call), s.PcOf(i);
            && s'.table[t] < |s'.mutexes|
            && Entry(s', t).refCount == Entry(s, t).refCount - if pc.UnlockCount? && pc.t == t then 1 else 0
  {
  }

  lemma CountKept(s: Locks, i: Tid, call: Option<TradeNo>, t: TradeNo)
    requires LocalInv(s, i, t) && t in LockStep(s, i, call).table
    ensures var s' := LockStep(s, i, call);
            s'.table[t] < |s'.mutexes| && Entry(s', t).refCount == |Users(s'.threads, t)|
  {
    StepUsers(s, i, call, t);
    StepCount(s, i, call, t);
  }

  lemma HolderKept(s: Locks, i: Tid, call: Option<TradeNo>, t: TradeNo)
    requires LocalInv(s, i, t) && t in LockStep(s, i, call).table
    ensures HolderOk(LockStep(s, i, call), t)
  {
    if Locking(s.PcOf(i)) { HolderWhileLocking(s, i, call, t); } else { HolderWhileUnlocking(s, i, call, t); }
  }

  /** Who holds the mutex of order t is inside its guarded section. */
  ghost predicate HolderOk(s: Locks, t: TradeNo) {
    Entry(s, t).holder.Some? ==> Holds(s.PcOf(Entry(s, t).holder.value), t)
  }

  lemma HolderWhileLocking(s: Locks, i: Tid, call: Option<TradeNo>, t: TradeNo)
    requires LocalInv(s, i, t) && t in LockStep(s, i, call).table && Locking(s.PcOf(i))
    ensures HolderOk(LockStep(s, i, call), t)
  {
  }

  lemma HolderWhileUnlocking(s: Locks, i: Tid, call: Option<TradeNo>, t: TradeNo)
    requires LocalInv(s, i, t) && t in LockStep(s, i, call).table && !Locking(s.PcOf(i))
    ensures HolderOk(LockStep(s, i, call), t)
  {
  }

  /** An entry without registered threads belongs to the thread inside createLock. */
  lemma UsedKept(s: Locks, i: Tid, call: Option<TradeNo>, t: TradeNo)
    requires LocalInv(s, i, t) && t in LockStep(s, i, call).table
    ensures var s' := LockStep(s, i, call);
            Users(s'.threads, t) != {} || (s'.createLock.Some? && Settling(s'.PcOf(s'.createLock.value), t))
  {
    StepUsers(s, i, call, t);
    var pc := s.PcOf(i);
    if pc.LockCount? && pc.t == t { assert i in Users(LockStep(s, i, call).threads, t); }
  }

  lemma EntryKept(s: Locks, i: Tid, call: Option<TradeNo>, t: TradeNo)
    requires Inv(s) && t in LockStep(s, i, call).table
    ensures EntryOk(LockStep(s, i, call), t)
  {
    InvIsLocal(s, i, t);
    CountKept(s, i, call, t);
    HolderKept(s, i, call, t);
    UsedKept(s, i, call, t);
  }

  lemma ThreadKept(s: Locks, i: Tid, call: Option<TradeNo>, j: Tid)
    requires Inv(s)
    ensures ThreadOk(LockStep(s, i, call), j)
  {
    assert ThreadOk(s, i);
    if j == i { MoverOk(s, i, call); } else { OtherOk(s, i, call, j); }
  }

  lemma InjectiveKept(s: Locks, i: Tid, call: Option<TradeNo>)
    requires Injective(s) && forall t :: t in s.table ==> s.table[t] < |s.mutexes|
    ensures Injective(LockStep(s, i, call))
  {
  }

  /** Every atomic step of every thread keeps the invariant. */
  lemma StepKeepsInv(s: Locks, i: Tid, call: Option<TradeNo>)
    requires Inv(s)
    ensures Inv(LockStep(s, i, call))
  {
    forall j: Tid ensures ThreadOk(LockStep(s, i, call), j) { ThreadKept(s, i, call, j); }
    forall t | t in LockStep(s, i, call).table ensures EntryOk(LockStep(s, i, call), t) { EntryKept(s, i, call, t); }
    forall t | t in s.table ensures s.table[t] < |s.mutexes| { assert EntryOk(s, t); }
    InjectiveKept(s, i, call);
  }

  /** An interleaving: which thread moves next and, if it is idle, which order it locks. */
  type Schedule = seq<(Tid, Option<TradeNo>)>

  function Run(sched: Schedule): (s: Locks) {
    if sched == [] then NO_LOCKS
    else LockStep(Run(sched[..|sched| - 1]), sched[|sched| - 1].0, sched[|sched| - 1].1)
  }

  lemma {:induction false} RunHasInv(sched: Schedule)
    ensures Inv(Run(sched))
  {
    if sched != [] {
      RunHasInv(sched[..|sched| - 1]);
      StepKeepsInv(Run(sched[..|sched| - 1]), sched[|sched| - 1].0, sched[|sched| - 1].1);
    }
  }

  lemma HoldersAgree(s: Locks, i: Tid, j: Tid, t: TradeNo)
    requires Inv(s) && Holds(s.PcOf(i), t) && Holds(s.PcOf(j), t)
    ensures i == j
  {
    assert ThreadOk(s, i) && ThreadOk(s, j);
  }

  /** No interleaving lets two threads be between LockOrder and UnlockOrder for the same trade number. */
  lemma MutualExclusion(sched: Schedule, i: Tid, j: Tid, t: TradeNo)
    requires Holds(Run(sched).PcOf(i), t) && Holds(Run(sched).PcOf(j), t)
    ensures i == j
  {
    RunHasInv(sched);
    HoldersAgree(Run(sched), i, j, t);
  }

  /**
    The table in every reachable state: an order has an entry exactly when some thread is registered on it, apart
    from the two moments under createLock; the count is the number of registered threads.
   */
  lemma TableIsExact(sched: Schedule, t: TradeNo)
    ensures var s := Run(sched);
            var users := Users(s.threads, t);
            && (users != {} ==> t in s.table)
            && (t in s.table && users == {} ==> s.createLock.Some? && Settling(s.PcOf(s.createLock.value), t))
            && (t in s.table ==> s.table[t] < |s.mutexes| && s.mutexes[s.table[t]].refCount == |users|)
  {
    RunHasInv(sched);
    InvIsLocal(Run(sched), 0, t);
  }

  /**
    In every reachable state a pointer a thread kept is still the table's mutex, so all threads on an order share
    one object; the Load in UnlockOrder finds that object; and the mutex a thread is about to unlock is its own.
   */
  lemma PointersAreFresh(sched: Schedule, i: Tid)
    ensures var s := Run(sched);
            var pc := s.PcOf(i);
            && (HasPointer(pc) ==> pc.t in s.table && s.table[pc.t] == pc.m)
            && (pc.Critical? || pc.UnlockLoad? || pc.UnlockMutex? ==>
                  && pc.t in s.table && s.table[pc.t] < |s.mutexes|
                  && s.mutexes[s.table[pc.t]].holder == Some(i))
  {
    RunHasInv(sched);
    assert ThreadOk(Run(sched), i);
    var pc := Run(sched).PcOf(i);
    if HasPointer(pc) || pc.UnlockLoad? || pc.Critical? { assert EntryOk(Run(sched), pc.t); }
  }

  lemma IdleIsEmpty(s: Locks)
    requires Inv(s) && forall i: Tid :: s.PcOf(i) == Idle
    ensures s.table == map[] && s.createLock == None
  {
    forall i: Tid ensures s.createLock != Some(i) { assert ThreadOk(s, i) && s.PcOf(i) == Idle; }
    forall t ensures t !in s.table {
      forall i: Tid ensures i !in Users(s.threads, t) { assert s.PcOf(i) == Idle; }
      assert Users(s.threads, t) == {};
      InvIsLocal(s, 0, t);
    }
  }

  /** When every call has returned no entry is left behind. */
  lemma QuiescentTableIsEmpty(sched: Schedule)
    requires forall i: Tid :: Run(sched).PcOf(i) == Idle
    ensures Run(sched).table == map[] && Run(sched).createLock == None
  {
    RunHasInv(sched);
    IdleIsEmpty(Run(sched));
  }
}
