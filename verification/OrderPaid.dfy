/**
  The promise the lock and the handlers are for: an order whose provider reports the payment any number of times, to any
  number of threads, is credited once.
 */
module OrderPaid {
  import opened Base
  import opened OrderLock
  import opened OrderCredit
  import OrderProgress
  import opened OrderOutcome

  /** The handler is a success callback that credits such an order. */
  predicate Pays(h: Handler, order: Order, rate: Rate) {
    var o := Promised(Some(order), None, h, rate);
    o.Credited? && !o.manual
  }

  /** Which handlers pay depends on nothing a run can change while the order is pending. */
  lemma PaysAlike(h: Handler, a: Order, b: Order, rate: Rate)
    requires SameOrder(a, b) && a.status == b.status
    ensures Pays(h, a, rate) <==> Pays(h, b, rate)
    ensures Pays(h, a, rate) ==>
              Promised(Some(a), None, h, rate).amount == Promised(Some(b), None, h, rate).amount
  {
  }

  /** A turn brings order t nothing but success callbacks, and no failure. */
  predicate PaysOnly(c: Choice, t: TradeNo, order: Order, rate: Rate) {
    match c
    case Call(u, h) => u == t ==> Pays(h, order, rate)
    case FailWaffo(u) => u != t
    case _ => true
  }

  /** A row of the order whose amount IncreaseUserQuota does not refuse. */
  predicate Addable(row: Order, order: Order, rate: Rate) {
    SameOrder(order, row) && row.provider == Epay && rate.units(row.amount as real) >= 0
  }

  /** The work of a thread that was called for the order. */
  predicate PaidWork(w: Work, order: Order, rate: Rate) {
    match w
    case Enter(h) => Pays(h, order, rate)
    case SaveRow(row) => row.status == Success && Addable(row, order, rate)
    case AddQuota(row) => Addable(row, order, rate)
  }

  /** Thread i was called for t and has not finished its work. */
  predicate OnOrder(s: State, i: Tid, t: TradeNo) {
    var pc := s.locks.PcOf(i);
    pc != Idle && (Locking(pc) || pc.Critical?) && pc.t == t && i in s.work
  }

  predicate Untroubled(s: State, t: TradeNo, order: Order) {
    && t in s.orders && SameOrder(order, s.orders[t])
    && (s.orders[t].status == Pending || s.orders[t].status == Success)
    && t !in s.plans && t !in s.lost
  }

  ghost predicate NoManual(s: State, t: TradeNo) {
    forall c :: c in s.credits && c.t == t ==> !c.manual
  }

  ghost predicate Paying(s: State, t: TradeNo, order: Order, rate: Rate) {
    && Untroubled(s, t, order) && NoManual(s, t)
    && forall i: Tid :: OnOrder(s, i, t) ==> PaidWork(s.work[i], order, rate)
  }

  // ---------------------------------------------------------------- every turn keeps it

  /** What a thread with such work does to the order. */
  predicate PaidEffect(e: Effect, order: Order) {
    match e
    case Nothing => true
    case Write(row) => SameOrder(order, row) && row.status == Success
    case Pay(row, manual) => SameOrder(order, row) && row.status == Success && !manual
    case Increase(_) => true
    case _ => false
  }

  lemma EnterPays(s: State, t: TradeNo, order: Order, h: Handler, rate: Rate)
    requires PlansOk(s) && Untroubled(s, t, order) && order.status == Pending && Pays(h, order, rate)
    ensures var d := Decide(s, t, Enter(h), true, rate);
            PaidEffect(d.0, order) && (d.1.Some? ==> PaidWork(d.1.value, order, rate))
  {
    BeginDelivers(s, t, h, rate);
    if s.orders[t].status == Pending { PaysAlike(h, order, s.orders[t], rate); }
  }

  lemma WorkPays(s: State, t: TradeNo, order: Order, w: Work, rate: Rate)
    requires PlansOk(s) && Untroubled(s, t, order) && order.status == Pending && PaidWork(w, order, rate)
    ensures var d := Decide(s, t, w, true, rate);
            PaidEffect(d.0, order) && (d.1.Some? ==> PaidWork(d.1.value, order, rate))
  {
    if w.Enter? { EnterPays(s, t, order, w.handler, rate); }
  }

  lemma EffectKeeps(s: State, t: TradeNo, order: Order, e: Effect, rate: Rate)
    requires Untroubled(s, t, order) && NoManual(s, t) && PaidEffect(e, order)
    ensures var s' := Perform(s, t, e, rate); Untroubled(s', t, order) && NoManual(s', t)
  {
  }

  lemma ElsewhereKeeps(s: State, u: TradeNo, e: Effect, t: TradeNo, order: Order, rate: Rate)
    requires Untroubled(s, t, order) && NoManual(s, t) && u != t
    ensures var s' := Perform(s, u, e, rate); Untroubled(s', t, order) && NoManual(s', t)
  {
  }

  lemma OutsideKeeps(s: State, i: Tid, c: Choice, t: TradeNo, order: Order, rate: Rate)
    requires Untroubled(s, t, order) && NoManual(s, t) && PaysOnly(c, t, order, rate) && !Working(s, i)
    ensures var s' := Step(s, i, c, rate); Untroubled(s', t, order) && NoManual(s', t)
  {
  }

  lemma DataKept(s0: State, s: State, i: Tid, c: Choice, t: TradeNo, order: Order, rate: Rate)
    requires CInv(s0, s, rate) && Paying(s, t, order, rate) && order.status == Pending
    requires PaysOnly(c, t, order, rate) && (Working(s, i) ==> c == Go(true))
    ensures var s' := Step(s, i, c, rate); Untroubled(s', t, order) && NoManual(s', t)
  {
    if Working(s, i) {
      var u := s.locks.PcOf(i).t;
      StepGuarded(s, i, c, rate);
      if u == t {
        assert OnOrder(s, i, t);
        WorkPays(s, t, order, s.work[i], rate);
        EffectKeeps(s, t, order, Decision(s, i, c, rate).0, rate);
      } else {
        ElsewhereKeeps(s, u, Decision(s, i, c, rate).0, t, order, rate);
      }
    } else {
      OutsideKeeps(s, i, c, t, order, rate);
    }
  }

  lemma WorkerPays(s: State, i: Tid, t: TradeNo, order: Order, rate: Rate)
    requires PlansOk(s) && Untroubled(s, t, order) && order.status == Pending && Working(s, i)
    requires s.locks.PcOf(i).t == t ==> PaidWork(s.work[i], order, rate)
    ensures var s' := Step(s, i, Go(true), rate); OnOrder(s', i, t) ==> PaidWork(s'.work[i], order, rate)
  {
    var u := s.locks.PcOf(i).t;
    PerformAdds(s, u, Decision(s, i, Go(true), rate).0, rate);
    if u == t { WorkPays(s, t, order, s.work[i], rate); }
  }

  lemma WaiterPays(s: State, i: Tid, c: Choice, t: TradeNo, order: Order, rate: Rate)
    requires Inv(s.locks) && !Working(s, i) && PaysOnly(c, t, order, rate)
    requires OnOrder(s, i, t) ==> PaidWork(s.work[i], order, rate)
    ensures var s' := Step(s, i, c, rate); OnOrder(s', i, t) ==> PaidWork(s'.work[i], order, rate)
  {
    if s.locks.PcOf(i) != Idle { OrderProgress.StepFollows(s.locks, i, i); }
  }

  lemma OwnWorkPays(s0: State, s: State, i: Tid, c: Choice, t: TradeNo, order: Order, rate: Rate)
    requires CInv(s0, s, rate) && Paying(s, t, order, rate) && order.status == Pending
    requires PaysOnly(c, t, order, rate) && (Working(s, i) ==> c == Go(true))
    ensures var s' := Step(s, i, c, rate); OnOrder(s', i, t) ==> PaidWork(s'.work[i], order, rate)
  {
    assert OnOrder(s, i, t) ==> PaidWork(s.work[i], order, rate);
    if Working(s, i) { WorkerPays(s, i, t, order, rate); } else { WaiterPays(s, i, c, t, order, rate); }
  }

  lemma PayingStep(s0: State, s: State, i: Tid, c: Choice, t: TradeNo, order: Order, rate: Rate)
    requires CInv(s0, s, rate) && Paying(s, t, order, rate) && order.status == Pending
    requires PaysOnly(c, t, order, rate) && (Working(s, i) ==> c == Go(true))
    ensures Paying(Step(s, i, c, rate), t, order, rate)
  {
    var s' := Step(s, i, c, rate);
    DataKept(s0, s, i, c, t, order, rate);
    forall j: Tid | OnOrder(s', j, t) ensures PaidWork(s'.work[j], order, rate) {
      if j == i {
        OwnWorkPays(s0, s, i, c, t, order, rate);
      } else {
        OthersStand(s, i, c, rate, j);
        assert OnOrder(s, j, t);
      }
    }
  }

  // ---------------------------------------------------------------- a call that came is not forgotten

  predicate Succeeded(s: State, t: TradeNo) {
    t in s.orders && s.orders[t].status == Success
  }

  /** The order is successful, or the thread that was called is on its way to make it so. */
  predicate Armed(s: State, i: Tid, t: TradeNo) {
    Succeeded(s, t) || OnOrder(s, i, t)
  }

  /** The next call of a thread on a pending order makes it successful or prepares that. */
  lemma PendingWork(s: State, t: TradeNo, order: Order, w: Work, rate: Rate)
    requires PlansOk(s) && Untroubled(s, t, order) && order.status == Pending && PaidWork(w, order, rate)
    requires WorkFor(s, t, w) && s.orders[t].status == Pending
    ensures var d := Decide(s, t, w, true, rate); d.1.Some? || Succeeded(Perform(s, t, d.0, rate), t)
  {
    if w.Enter? {
      BeginDelivers(s, t, w.handler, rate);
      PaysAlike(w.handler, order, s.orders[t], rate);
    }
  }

  lemma OwnArmed(s0: State, s: State, i: Tid, c: Choice, t: TradeNo, order: Order, rate: Rate)
    requires CInv(s0, s, rate) && Paying(s, t, order, rate) && order.status == Pending
    requires OnOrder(s, i, t) && !Succeeded(s, t) && (Working(s, i) ==> c == Go(true))
    ensures var s' := Step(s, i, c, rate); OnOrder(s', i, t) || Succeeded(s', t)
  {
    if Working(s, i) {
      assert WorkOk(s, i) && PaidWork(s.work[i], order, rate);
      PendingWork(s, t, order, s.work[i], rate);
      StepGuarded(s, i, c, rate);
      PerformAdds(s, t, Decision(s, i, c, rate).0, rate);
    } else {
      OrderProgress.StepFollows(s.locks, i, i);
    }
  }

  lemma ArmedStep(s0: State, s: State, j: Tid, c: Choice, i: Tid, t: TradeNo, order: Order, rate: Rate)
    requires CInv(s0, s, rate) && Paying(s, t, order, rate) && order.status == Pending && Armed(s, i, t)
    requires Working(s, j) ==> c == Go(true)
    ensures Armed(Step(s, j, c, rate), i, t)
  {
    assert WorkOk(s, j);
    if Succeeded(s, t) {
      FinalStep(s, j, c, rate, t);
    } else if j == i {
      OwnArmed(s0, s, i, c, t, order, rate);
    } else {
      OthersStand(s, j, c, rate, i);
    }
  }

  // ---------------------------------------------------------------- the theorem

  /** In the first n turns every database call succeeds, and order t gets nothing but success callbacks. */
  predicate GoodRun(s: State, sched: Turns, n: nat, t: TradeNo, order: Order, rate: Rate)
    requires n <= |sched|
  {
    n > 0 ==>
      && GoodRun(s, sched, n - 1, t, order, rate)
      && GoodTurn(After(s, sched, n - 1, rate), sched[n - 1].0, sched[n - 1].1, t, order, rate)
  }

  predicate GoodTurn(s: State, i: Tid, c: Choice, t: TradeNo, order: Order, rate: Rate) {
    PaysOnly(c, t, order, rate) && (Working(s, i) ==> c == Go(true))
  }

  /** The order as it was placed: pending, a top-up and not a subscription, and nobody was called for it yet. */
  ghost predicate Placed(s: State, t: TradeNo, order: Order) {
    && t in s.orders && s.orders[t] == order && order.status == Pending && t !in s.plans
    && forall i: Tid :: !OnOrder(s, i, t)
  }

  lemma PlacedPaying(s0: State, before: Turns, t: TradeNo, order: Order, rate: Rate)
    requires Init(s0) && Placed(OrderCredit.Run(s0, before, rate), t, order)
    ensures var s := OrderCredit.Run(s0, before, rate); CInv(s0, s, rate) && Paying(s, t, order, rate)
    ensures !Succeeded(s0, t)
  {
    var s := OrderCredit.Run(s0, before, rate);
    RunHasCInv(s0, before, rate);
    RunHasCInv(s0, [], rate);
    if t in s0.orders { FinalRun(s0, s0, before, rate, t); }
    PendingUnpaid(s, rate, t);
    forall c | c in s.credits ensures c.t != t {
      var k :| 0 <= k < |s.credits| && s.credits[k] == c;
    }
  }

  /** The turn at which the call comes is a good one. */
  lemma {:induction false} GoodAt(s: State, sched: Turns, k: nat, n: nat, t: TradeNo, order: Order, rate: Rate)
    requires k < n <= |sched| && GoodRun(s, sched, n, t, order, rate)
    ensures GoodRun(s, sched, k, t, order, rate)
    ensures GoodTurn(After(s, sched, k, rate), sched[k].0, sched[k].1, t, order, rate)
  {
    if k < n - 1 { GoodAt(s, sched, k, n - 1, t, order, rate); }
  }

  /** What holds before a turn; once the call has come, the order is armed. */
  ghost predicate Carried(s0: State, s: State, i: Tid, t: TradeNo, order: Order, rate: Rate, called: bool) {
    CInv(s0, s, rate) && Paying(s, t, order, rate) && (called ==> Armed(s, i, t))
  }

  lemma TurnCarries(s0: State, s: State, j: Tid, c: Choice, i: Tid, h: Handler, t: TradeNo, order: Order, rate: Rate,
                    called: bool, calls: bool)
    requires Carried(s0, s, i, t, order, rate, called) && order.status == Pending && GoodTurn(s, j, c, t, order, rate)
    requires calls ==> j == i && c == Call(t, h) && s.locks.PcOf(i) == Idle
    ensures Carried(s0, Step(s, j, c, rate), i, t, order, rate, called || calls)
  {
    StepKeepsCInv(s0, s, j, c, rate);
    PayingStep(s0, s, j, c, t, order, rate);
    if calls { CallWaits(s, i, t, h, rate); } else if called { ArmedStep(s0, s, j, c, i, t, order, rate); }
  }

  lemma {:induction false} CarriedRun(s0: State, s: State, sched: Turns, k: nat, n: nat, i: Tid, h: Handler, t: TradeNo,
                                      order: Order, rate: Rate)
    requires n <= |sched| && GoodRun(s, sched, n, t, order, rate) && CalledAt(s, sched, k, i, h, t, rate)
    requires Carried(s0, s, i, t, order, rate, false) && order.status == Pending
    ensures Carried(s0, After(s, sched, n, rate), i, t, order, rate, k < n)
  {
    if n > 0 {
      CarriedRun(s0, s, sched, k, n - 1, i, h, t, order, rate);
      TurnCarries(s0, After(s, sched, n - 1, rate), sched[n - 1].0, sched[n - 1].1, i, h, t, order, rate, k < n - 1,
                  k == n - 1);
    }
  }

  lemma SucceededIsCredited(s0: State, s: State, t: TradeNo, order: Order, rate: Rate)
    requires CInv(s0, s, rate) && Paying(s, t, order, rate) && Succeeded(s, t)
    requires !Succeeded(s0, t) && forall i: Tid :: s.locks.PcOf(i) == Idle
    ensures exists c :: OnlyCredit(s.credits, c) && c.t == t && c.user == order.user && !c.manual
              && c.amount == Due(s.orders[t], rate, false)
  {
    assert Accounted(s0, s, t);
    assert !CreditPending(s, t) by {
      forall i: Tid ensures s.locks.PcOf(i) != Critical(t) { assert s.locks.PcOf(i) == Idle; }
    }
    var k :| 0 <= k < |s.credits| && s.credits[k].t == t;
    var c := s.credits[k];
    assert c in s.credits && CreditOk(s, c, rate);
    assert OnlyCredit(s.credits, c);
  }

  lemma DueIs(h: Handler, order: Order, row: Order, rate: Rate)
    requires Pays(h, order, rate) && SameOrder(order, row)
    ensures Due(row, rate, false) == Promised(Some(order), None, h, rate).amount
  {
  }

  lemma PayingReturned(s0: State, s: State, h: Handler, t: TradeNo, order: Order, rate: Rate)
    requires CInv(s0, s, rate) && Paying(s, t, order, rate) && Succeeded(s, t) && Pays(h, order, rate)
    requires !Succeeded(s0, t) && forall i: Tid :: s.locks.PcOf(i) == Idle
    ensures OnlyCredit(s.credits, Credit(t, order.user, Promised(Some(order), None, h, rate).amount, false))
  {
    SucceededIsCredited(s0, s, t, order, rate);
    DueIs(h, order, s.orders[t], rate);
  }

  /** Thread i, idle, is called for order t at turn k. */
  predicate CalledAt(s: State, sched: Turns, k: nat, i: Tid, h: Handler, t: TradeNo, rate: Rate) {
    k < |sched| && sched[k] == (i, Call(t, h)) && After(s, sched, k, rate).locks.PcOf(i) == Idle
  }

  lemma CalledPays(s: State, sched: Turns, k: nat, i: Tid, h: Handler, t: TradeNo, order: Order, rate: Rate)
    requires GoodRun(s, sched, |sched|, t, order, rate) && CalledAt(s, sched, k, i, h, t, rate)
    ensures Pays(h, order, rate)
  {
    GoodAt(s, sched, k, |sched|, t, order, rate);
  }

  /**
    From any reachable state: a pending order of any provider, any number of success callbacks for it among whatever else
    is going on, every database call answered. Once all calls have returned the order is successful and its user was
    credited for it exactly once, by the amount the provider's handler promises.
   */
  lemma PaidOrderIsCreditedOnce(s0: State, before: Turns, sched: Turns, k: nat, i: Tid, h: Handler, t: TradeNo,
                                order: Order, rate: Rate)
    requires Init(s0)
    requires var s := OrderCredit.Run(s0, before, rate);
             && Placed(s, t, order) && GoodRun(s, sched, |sched|, t, order, rate) && CalledAt(s, sched, k, i, h, t, rate)
             && forall j: Tid :: After(s, sched, |sched|, rate).locks.PcOf(j) == Idle
    ensures var r := After(OrderCredit.Run(s0, before, rate), sched, |sched|, rate);
            && Succeeded(r, t)
            && Pays(h, order, rate)
            && OnlyCredit(r.credits, Credit(t, order.user, Promised(Some(order), None, h, rate).amount, false))
  {
    PlacedPaying(s0, before, t, order, rate);
    CalledReturned(s0, OrderCredit.Run(s0, before, rate), sched, k, i, h, t, order, rate);
  }

  lemma CalledReturned(s0: State, s: State, sched: Turns, k: nat, i: Tid, h: Handler, t: TradeNo, order: Order,
                       rate: Rate)
    requires CInv(s0, s, rate) && Paying(s, t, order, rate) && order.status == Pending && !Succeeded(s0, t)
    requires GoodRun(s, sched, |sched|, t, order, rate) && CalledAt(s, sched, k, i, h, t, rate)
    requires forall j: Tid :: After(s, sched, |sched|, rate).locks.PcOf(j) == Idle
    ensures var r := After(s, sched, |sched|, rate);
            && Succeeded(r, t) && Pays(h, order, rate)
            && OnlyCredit(r.credits, Credit(t, order.user, Promised(Some(order), None, h, rate).amount, false))
  {
    CalledPays(s, sched, k, i, h, t, order, rate);
    CarriedRun(s0, s, sched, k, |sched|, i, h, t, order, rate);
    PayingReturned(s0, After(s, sched, |sched|, rate), h, t, order, rate);
  }
}
