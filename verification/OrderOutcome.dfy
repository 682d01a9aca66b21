/**
  What a callback does: whatever runs beside it, a handler whose database calls succeed leaves the order it was called
  for in the state its provider promises, and credits the order by what its row says.
 */
module OrderOutcome {
  import opened Base
  import opened OrderLock
  import opened OrderProgress
  import opened OrderCredit

  /** What a handler is to leave behind. */
  datatype Outcome =
    | Unchanged
    | Credited(row: Order, amount: int, manual: bool)
    | Uncredited(row: Order)               // marked successful, but an amount below zero is never added
    | Closed(row: Order)                   // failed or expired
    | Started(row: Order, plan: Order)     // a subscription runs
    | PlanClosed(plan: Order)

  predicate Open(o: Option<Order>, provider: Provider) {
    o.Some? && o.value.status == Pending && o.value.provider == provider
  }

  /** The subscription order decides: an open one of the provider starts the subscription. */
  function PlanOutcome(plan: Order, provider: Provider, paidBy: string): (o: Outcome) {
    if plan.status != Pending || plan.provider != provider then Unchanged
    else Started(Order(plan.user, 0, plan.money, OtherProvider, plan.payMethod, Success),
                 plan.(status := Success, payMethod := if paidBy == "" then plan.payMethod else paidBy))
  }

  /**
    The promise of each handler, from the rows it finds. Epay, Waffo and Waffo Pancake credit the amount times the rate,
    Stripe the money as the database rounds it, Creem the amount as it stands; the administrator completes an order of
    any provider, by its money for Stripe and by its amount times the rate otherwise.
   */
  function Promised(row: Option<Order>, plan: Option<Order>, h: Handler, rate: Rate): (o: Outcome) {
    match h
    case EpayNotify(payType) =>
      if !Open(row, Epay) then Unchanged
      else
        var paid, due := row.value.(payMethod := payType, status := Success), rate.units(row.value.amount as real);
        if due >= 0 then Credited(paid, due, false) else Uncredited(paid)
    case StripeAsyncFailed => if Open(row, Stripe) then Closed(row.value.(status := Failed)) else Unchanged
    case StripeFulfill =>
      if plan.Some? then PlanOutcome(plan.value, Stripe, "")
      else if Open(row, Stripe) then Credited(row.value.(status := Success), rate.sql(row.value.money), false)
      else Unchanged
    case StripeExpired =>
      if plan.Some? then
        if Open(plan, Stripe) then PlanClosed(plan.value.(status := Expired)) else Unchanged
      else if Open(row, Stripe) then Closed(row.value.(status := Expired))
      else Unchanged
    case CreemWebhook =>
      if plan.Some? then PlanOutcome(plan.value, Creem, "")
      else if Open(row, Creem) then Credited(row.value.(status := Success), row.value.amount, false)
      else Unchanged
    case WaffoWebhook =>
      if Open(row, Waffo) && rate.units(row.value.amount as real) > 0
      then Credited(row.value.(status := Success), rate.units(row.value.amount as real), false) else Unchanged
    case PancakeWebhook =>
      if Open(row, WaffoPancake) && rate.units(row.value.amount as real) > 0
      then Credited(row.value.(status := Success), rate.units(row.value.amount as real), false) else Unchanged
    case AdminComplete =>
      if row.Some? && row.value.status == Pending then
        var due := if row.value.provider == Stripe then rate.units(row.value.money)
                   else rate.units(row.value.amount as real);
        if due > 0 then Credited(row.value.(status := Success), due, true) else Unchanged
      else Unchanged
    case EpaySubscription(payType) => if plan.Some? then PlanOutcome(plan.value, Epay, payType) else Unchanged
    case PancakeSubscription => if plan.Some? then PlanOutcome(plan.value, WaffoPancake, "") else Unchanged
  }

  /** The order has this row, and a state it never leaves. */
  predicate RowIs(s: State, t: TradeNo, row: Order) {
    t in s.orders && s.orders[t] == row && row.status != Pending
  }

  predicate PlanIs(s: State, t: TradeNo, plan: Order) {
    t in s.plans && s.plans[t] == plan && plan.status != Pending
  }

  /** The outcome is in the database. */
  ghost predicate Reached(s: State, t: TradeNo, o: Outcome) {
    match o
    case Unchanged => true
    case Credited(row, amount, manual) => RowIs(s, t, row) && Credit(t, row.user, amount, manual) in s.credits
    case Uncredited(row) => RowIs(s, t, row) && t in s.lost
    case Closed(row) => RowIs(s, t, row) && row.status != Success
    case Started(row, plan) => RowIs(s, t, row) && PlanIs(s, t, plan) && t in s.granted
    case PlanClosed(plan) => PlanIs(s, t, plan) && plan.status != Success
  }

  // ---------------------------------------------------------------- between the calls of one handler

  predicate WorksOn(s: State, i: Tid, t: TradeNo, w: Work) {
    s.locks.PcOf(i) == Critical(t) && i in s.work && s.work[i] == w
  }

  /** What a handler that saves and credits in separate calls still has to do. */
  predicate Underway(s: State, i: Tid, t: TradeNo, o: Outcome, rate: Rate) {
    match o
    case Credited(row, amount, manual) =>
      && (WorksOn(s, i, t, SaveRow(row)) || WorksOn(s, i, t, AddQuota(row)))
      && row.status == Success && row.provider == Epay && amount == rate.units(row.amount as real) >= 0 && !manual
    case Uncredited(row) =>
      && (WorksOn(s, i, t, SaveRow(row)) || WorksOn(s, i, t, AddQuota(row)))
      && row.status == Success && row.provider == Epay && rate.units(row.amount as real) < 0
    case Closed(row) => WorksOn(s, i, t, SaveRow(row)) && row.status == Failed
    case _ => false
  }

  /** A subscription takes over a top-up row it finds, unless that was paid by another method. */
  lemma TakenOver(row: Order, plan: Order)
    ensures GrantedRow(Some(row), plan) == None <==> row.payMethod !in {"", plan.payMethod}
    ensures row.payMethod in {"", plan.payMethod} ==>
              var r := GrantedRow(Some(row), plan).value;
              && SameOrder(r, row.(money := plan.money)) && r.payMethod == plan.payMethod && r.status == Success
  {
  }

  /** The decision of a handler does everything, or starts what the promise needs. */
  predicate Delivers(d: (Effect, Option<Work>), o: Outcome, rate: Rate) {
    match o
    case Unchanged => d == (Nothing, None)
    case Credited(row, amount, manual) =>
      || (d == (Pay(row, manual), None) && amount == Due(row, rate, manual))
      || (&& d == (Nothing, Some(SaveRow(row))) && row.provider == Epay
          && amount == rate.units(row.amount as real) >= 0 && !manual)
    case Uncredited(row) =>
      d == (Nothing, Some(SaveRow(row))) && row.provider == Epay && rate.units(row.amount as real) < 0
    case Closed(row) => d == (Write(row), None) || (d == (Nothing, Some(SaveRow(row))) && row.status == Failed)
    case Started(row, plan) => d == (Grant(row, plan), None)
    case PlanClosed(plan) => d == (ClosePlan(plan), None)
  }

  lemma BeginOrderDelivers(o: Order, h: Handler, rate: Rate)
    requires o.status == Pending
    ensures Delivers(BeginOrder(o, h, true, rate), Promised(Some(o), None, h, rate), rate)
  {
  }

  lemma BeginPlanDelivers(plan: Order, h: Handler, rate: Rate)
    requires TriesPlan(h)
    ensures Delivers((BeginPlan(None, plan, h, true), None), Promised(None, Some(plan), h, rate), rate)
  {
  }

  lemma BeginClosedDelivers(row: Option<Order>, plan: Order, h: Handler, rate: Rate)
    requires TriesPlan(h) && plan.status != Pending
    ensures Promised(row, Some(plan), h, rate) == Unchanged && BeginPlan(row, plan, h, true) == Nothing
  {
  }

  lemma PlanIgnored(row: Option<Order>, plan: Option<Order>, h: Handler, rate: Rate)
    requires !TriesPlan(h)
    ensures Promised(row, plan, h, rate) == Promised(row, None, h, rate)
  {
  }

  lemma NothingToDo(row: Option<Order>, h: Handler, rate: Rate)
    requires row.None? || row.value.status != Pending
    ensures Promised(row, None, h, rate) == Unchanged
  {
  }

  lemma BeginDelivers(s: State, t: TradeNo, h: Handler, rate: Rate)
    requires PlansOk(s)
    ensures Delivers(Begin(s.Row(t), s.Plan(t), h, true, rate), Promised(s.Row(t), s.Plan(t), h, rate), rate)
  {
    var row, plan := s.Row(t), s.Plan(t);
    if TriesPlan(h) && plan.Some? {
      assert plan.value.status != Success ==> row == None;
      if plan.value.status == Pending { BeginPlanDelivers(plan.value, h, rate); }
      else { BeginClosedDelivers(row, plan.value, h, rate); }
    } else {
      if !TriesPlan(h) { PlanIgnored(row, plan, h, rate); }
      if row.Some? && row.value.status == Pending { BeginOrderDelivers(row.value, h, rate); }
      else { NothingToDo(row, h, rate); }
    }
  }

  predicate Final(o: Outcome) {
    match o
    case Unchanged => true
    case Credited(row, _, _) => row.status == Success
    case Uncredited(row) => row.status == Success
    case Closed(row) => row.status == Failed || row.status == Expired
    case Started(row, plan) => row.status == Success && plan.status == Success
    case PlanClosed(plan) => plan.status == Expired
  }

  lemma PromisedFinal(row: Option<Order>, plan: Option<Order>, h: Handler, rate: Rate)
    ensures Final(Promised(row, plan, h, rate))
  {
  }

  lemma DeliveredPay(s: State, t: TradeNo, d: (Effect, Option<Work>), o: Outcome, rate: Rate)
    requires Delivers(d, o, rate) && Final(o) && !d.0.Nothing?
    ensures Reached(Perform(s, t, d.0, rate), t, o)
  {
    var s' := Perform(s, t, d.0, rate);
    if d.0.Pay? { assert s'.credits[|s.credits|] in s'.credits; }
    if d.0.Grant? { assert s'.granted[|s.granted|] in s'.granted; }
  }

  lemma SameReached(a: State, b: State, t: TradeNo, o: Outcome)
    requires SameData(a, b)
    ensures Reached(a, t, o) <==> Reached(b, t, o)
  {
  }

  /** The first call does everything, or starts what the promise needs. */
  lemma FirstCall(s: State, i: Tid, t: TradeNo, h: Handler, rate: Rate)
    requires PlansOk(s) && WorksOn(s, i, t, Enter(h))
    ensures var s', o := Step(s, i, Go(true), rate), Promised(s.Row(t), s.Plan(t), h, rate);
            if o.Unchanged? then SameData(s', s) && s'.locks.PcOf(i) == UnlockLoad(t)
            else Reached(s', t, o) || Underway(s', i, t, o, rate)
  {
    var s', o := Step(s, i, Go(true), rate), Promised(s.Row(t), s.Plan(t), h, rate);
    var d := Decision(s, i, Go(true), rate);
    BeginDelivers(s, t, h, rate);
    PromisedFinal(s.Row(t), s.Plan(t), h, rate);
    StepGuarded(s, i, Go(true), rate);
    PerformAdds(s, t, d.0, rate);
    if !d.0.Nothing? {
      DeliveredPay(s, t, d, o, rate);
      SameReached(s', Perform(s, t, d.0, rate), t, o);
    }
  }

  lemma SaveCall(s: State, i: Tid, t: TradeNo, row: Order, rate: Rate)
    requires WorksOn(s, i, t, SaveRow(row))
    ensures var s' := Step(s, i, Go(true), rate);
            && t in s'.orders && s'.orders[t] == row
            && (row.status == Success ==> WorksOn(s', i, t, AddQuota(row)))
  {
    StepGuarded(s, i, Go(true), rate);
  }

  lemma AddCall(s: State, i: Tid, t: TradeNo, row: Order, rate: Rate)
    requires WorksOn(s, i, t, AddQuota(row)) && row.provider == Epay
    ensures var s', due := Step(s, i, Go(true), rate), rate.units(row.amount as real);
            && s'.orders == s.orders
            && (due >= 0 ==> Credit(t, row.user, due, false) in s'.credits)
            && (due < 0 ==> t in s'.lost)
  {
    StepGuarded(s, i, Go(true), rate);
    var s', due := Step(s, i, Go(true), rate), rate.units(row.amount as real);
    if due >= 0 { assert s'.credits[|s.credits|] == Credit(t, row.user, due, false); }
    else { assert s'.lost[|s.lost|] == t; }
  }

  /** Its own later calls carry on. */
  lemma OwnCall(s: State, i: Tid, t: TradeNo, o: Outcome, rate: Rate)
    requires WorkOk(s, i) && Underway(s, i, t, o, rate)
    ensures var s' := Step(s, i, Go(true), rate); Reached(s', t, o) || Underway(s', i, t, o, rate)
  {
    if WorksOn(s, i, t, SaveRow(o.row)) { SaveCall(s, i, t, o.row, rate); } else { AddCall(s, i, t, o.row, rate); }
  }

  lemma OtherCall(s: State, i: Tid, t: TradeNo, o: Outcome, rate: Rate, j: Tid, c: Choice)
    requires Underway(s, i, t, o, rate) && j != i
    ensures Underway(Step(s, j, c, rate), i, t, o, rate)
  {
    OthersStand(s, j, c, rate, i);
  }

  /** What is reached stays: rows are final and the logs only grow. */
  lemma ReachedStays(s0: State, s: State, t: TradeNo, o: Outcome, rate: Rate, j: Tid, c: Choice)
    requires CInv(s0, s, rate) && Reached(s, t, o)
    ensures Reached(Step(s, j, c, rate), t, o)
  {
    var s' := Step(s, j, c, rate);
    assert WorkOk(s, j);
    LogsGrow(s, j, c, rate);
    if t in s.orders { FinalStep(s, j, c, rate, t); }
    if t in s.plans { FinalPlanStep(s, j, c, rate, t); }
    assert forall x :: x in s.credits ==> x in s'.credits;
  }

  // ---------------------------------------------------------------- from the call to its return

  /** The call has not begun its work: it is waiting for the order, or has just got it. */
  predicate Waiting(s: State, i: Tid, t: TradeNo, h: Handler) {
    var pc := s.locks.PcOf(i);
    pc != Idle && (Locking(pc) || pc.Critical?) && pc.t == t && i in s.work && s.work[i] == Enter(h)
  }

  lemma CallWaits(s: State, i: Tid, t: TradeNo, h: Handler, rate: Rate)
    requires s.locks.PcOf(i) == Idle
    ensures Waiting(Step(s, i, Call(t, h), rate), i, t, h)
  {
  }

  lemma WaitsOn(s: State, i: Tid, t: TradeNo, h: Handler, rate: Rate, j: Tid, c: Choice)
    requires Inv(s.locks) && Waiting(s, i, t, h) && !(j == i && s.locks.PcOf(i).Critical?)
    ensures Waiting(Step(s, j, c, rate), i, t, h)
  {
    if j == i { StepFollows(s.locks, i, i); } else { OthersStand(s, j, c, rate, i); }
  }

  /** The call has done its work, or is doing it, on the rows `at` held. */
  ghost predicate Doing(at: State, next: State, s: State, i: Tid, t: TradeNo, h: Handler, rate: Rate) {
    var o := Promised(at.Row(t), at.Plan(t), h, rate);
    && WorksOn(at, i, t, Enter(h))
    && (o.Unchanged? ==> SameData(next, at) && next.locks.PcOf(i) == UnlockLoad(t))
    && (!o.Unchanged? ==> Reached(s, t, o) || Underway(s, i, t, o, rate))
  }

  lemma FirstTurn(s: State, i: Tid, t: TradeNo, h: Handler, rate: Rate)
    requires PlansOk(s) && Waiting(s, i, t, h) && s.locks.PcOf(i).Critical?
    ensures var s' := Step(s, i, Go(true), rate); Doing(s, s', s', i, t, h, rate)
  {
    FirstCall(s, i, t, h, rate);
  }

  lemma NextTurn(s0: State, at: State, next: State, s: State, i: Tid, t: TradeNo, h: Handler, rate: Rate,
                 j: Tid, c: Choice)
    requires CInv(s0, s, rate) && Doing(at, next, s, i, t, h, rate) && (j == i ==> c == Go(true))
    ensures Doing(at, next, Step(s, j, c, rate), i, t, h, rate)
  {
    var o := Promised(at.Row(t), at.Plan(t), h, rate);
    if !o.Unchanged? {
      assert WorkOk(s, i);
      if Reached(s, t, o) { ReachedStays(s0, s, t, o, rate, j, c); }
      else if j == i { OwnCall(s, i, t, o, rate); }
      else { OtherCall(s, i, t, o, rate, j, c); }
    }
  }

  type Turns = seq<(Tid, Choice)>

  /** The state after n turns. */
  function After(s: State, sched: Turns, n: nat, rate: Rate): (r: State)
    requires n <= |sched|
  {
    if n == 0 then s else Step(After(s, sched, n - 1, rate), sched[n - 1].0, sched[n - 1].1, rate)
  }

  lemma {:induction false} AfterKeepsCInv(s0: State, s: State, sched: Turns, n: nat, rate: Rate)
    requires CInv(s0, s, rate) && n <= |sched|
    ensures CInv(s0, After(s, sched, n, rate), rate)
  {
    if n > 0 {
      AfterKeepsCInv(s0, s, sched, n - 1, rate);
      StepKeepsCInv(s0, After(s, sched, n - 1, rate), sched[n - 1].0, sched[n - 1].1, rate);
    }
  }

  /** Thread i makes this call first, and from then on only has database calls that succeed. */
  predicate CallsOnce(sched: Turns, i: Tid, t: TradeNo, h: Handler) {
    && sched != [] && sched[0] == (i, Call(t, h))
    && forall k :: 0 < k < |sched| && sched[k].0 == i ==> sched[k].1 == Go(true)
  }

  /** At turn k the call began its work, and after n turns it has done it or is doing it. */
  ghost predicate BeganAt(s: State, sched: Turns, k: nat, n: nat, i: Tid, t: TradeNo, h: Handler, rate: Rate)
    requires n <= |sched|
  {
    0 < k < n && sched[k].0 == i &&
    Doing(After(s, sched, k, rate), After(s, sched, k + 1, rate), After(s, sched, n, rate), i, t, h, rate)
  }

  lemma WaitingTurn(s0: State, s: State, sched: Turns, n: nat, i: Tid, t: TradeNo, h: Handler, rate: Rate)
    requires CallsOnce(sched, i, t, h) && 0 < n < |sched|
    requires CInv(s0, After(s, sched, n, rate), rate) && Waiting(After(s, sched, n, rate), i, t, h)
    ensures Waiting(After(s, sched, n + 1, rate), i, t, h) || BeganAt(s, sched, n, n + 1, i, t, h, rate)
  {
    var mid, j, c := After(s, sched, n, rate), sched[n].0, sched[n].1;
    if j == i && mid.locks.PcOf(i).Critical? {
      FirstTurn(mid, i, t, h, rate);
    } else {
      WaitsOn(mid, i, t, h, rate, j, c);
    }
  }

  lemma DoingTurn(s0: State, s: State, sched: Turns, k: nat, n: nat, i: Tid, t: TradeNo, h: Handler, rate: Rate)
    requires CallsOnce(sched, i, t, h) && n < |sched|
    requires CInv(s0, After(s, sched, n, rate), rate) && BeganAt(s, sched, k, n, i, t, h, rate)
    ensures BeganAt(s, sched, k, n + 1, i, t, h, rate)
  {
    NextTurn(s0, After(s, sched, k, rate), After(s, sched, k + 1, rate), After(s, sched, n, rate), i, t, h, rate,
             sched[n].0, sched[n].1);
  }

  ghost predicate Began(s: State, sched: Turns, n: nat, i: Tid, t: TradeNo, h: Handler, rate: Rate)
    requires n <= |sched|
  {
    exists k: nat :: BeganAt(s, sched, k, n, i, t, h, rate)
  }

  lemma CallTurn(s0: State, s: State, sched: Turns, n: nat, i: Tid, t: TradeNo, h: Handler, rate: Rate)
    requires CallsOnce(sched, i, t, h) && 0 < n < |sched| && CInv(s0, After(s, sched, n, rate), rate)
    requires Waiting(After(s, sched, n, rate), i, t, h) || Began(s, sched, n, i, t, h, rate)
    ensures Waiting(After(s, sched, n + 1, rate), i, t, h) || Began(s, sched, n + 1, i, t, h, rate)
  {
    if Began(s, sched, n, i, t, h, rate) {
      var k: nat :| BeganAt(s, sched, k, n, i, t, h, rate);
      DoingTurn(s0, s, sched, k, n, i, t, h, rate);
    } else {
      WaitingTurn(s0, s, sched, n, i, t, h, rate);
    }
  }

  lemma {:induction false} CallRuns(s0: State, s: State, sched: Turns, n: nat, i: Tid, t: TradeNo, h: Handler,
                                    rate: Rate)
    requires CInv(s0, s, rate) && s.locks.PcOf(i) == Idle && CallsOnce(sched, i, t, h) && 0 < n <= |sched|
    ensures Waiting(After(s, sched, n, rate), i, t, h) || Began(s, sched, n, i, t, h, rate)
  {
    if n == 1 {
      assert After(s, sched, 1, rate) == Step(After(s, sched, 0, rate), i, Call(t, h), rate);
      CallWaits(s, i, t, h, rate);
    } else {
      CallRuns(s0, s, sched, n - 1, i, t, h, rate);
      AfterKeepsCInv(s0, s, sched, n - 1, rate);
      CallTurn(s0, s, sched, n - 1, i, t, h, rate);
    }
  }

  /** The outcome, and no credit besides. */
  ghost predicate Settled(s: State, t: TradeNo, o: Outcome) {
    && Reached(s, t, o)
    && (o.Credited? ==> OnlyCredit(s.credits, Credit(t, o.row.user, o.amount, o.manual)))
    && (!o.Unchanged? && !o.Credited? ==> !CreditedIn(s.credits, t))
  }

  /** c is in the log, and it is the only credit of its order. */
  ghost predicate OnlyCredit(credits: seq<Credit>, c: Credit) {
    && c in credits
    && forall k, k' :: 0 <= k < |credits| && 0 <= k' < |credits| && credits[k].t == credits[k'].t == c.t ==> k == k'
  }

  lemma ReachedSettled(s0: State, s: State, t: TradeNo, o: Outcome, rate: Rate)
    requires CInv(s0, s, rate) && Reached(s, t, o)
    ensures Settled(s, t, o)
  {
    if CreditedIn(s.credits, t) { CreditedSucceeded(s, rate, t); }
  }

  /** The call, its work begun at turn k, ends with what its handler promises for the rows found there. */
  ghost predicate Answered(s: State, sched: Turns, k: nat, i: Tid, t: TradeNo, h: Handler, rate: Rate) {
    && 0 < k < |sched| && sched[k] == (i, Go(true))
    && var at := After(s, sched, k, rate);
    && at.locks.PcOf(i) == Critical(t)
    && var o := Promised(at.Row(t), at.Plan(t), h, rate);
    if o.Unchanged? then SameData(After(s, sched, k + 1, rate), at)
    else Settled(After(s, sched, |sched|, rate), t, o)
  }

  lemma ReturnedAnswered(s0: State, s: State, sched: Turns, k: nat, i: Tid, t: TradeNo, h: Handler, rate: Rate)
    requires CallsOnce(sched, i, t, h) && BeganAt(s, sched, k, |sched|, i, t, h, rate)
    requires var end := After(s, sched, |sched|, rate); CInv(s0, end, rate) && end.locks.PcOf(i) == Idle
    ensures Answered(s, sched, k, i, t, h, rate)
  {
    var at := After(s, sched, k, rate);
    var o := Promised(at.Row(t), at.Plan(t), h, rate);
    if !o.Unchanged? { ReachedSettled(s0, After(s, sched, |sched|, rate), t, o, rate); }
  }

  /**
    For every reachable state, every handler and whatever the other threads do meanwhile: a call whose own database calls
    succeed and that has returned began its work at some turn k, as the holder of its order; and in the end the rows it
    found then have the outcome the handler promises, with exactly that credit or with none.
   */
  lemma CallbackOutcome(s0: State, before: Turns, sched: Turns, i: Tid, t: TradeNo, h: Handler, rate: Rate)
    requires Init(s0) && CallsOnce(sched, i, t, h)
    requires var s := OrderCredit.Run(s0, before, rate);
             s.locks.PcOf(i) == Idle && After(s, sched, |sched|, rate).locks.PcOf(i) == Idle
    ensures exists k: nat :: Answered(OrderCredit.Run(s0, before, rate), sched, k, i, t, h, rate)
  {
    var s := OrderCredit.Run(s0, before, rate);
    RunHasCInv(s0, before, rate);
    AfterKeepsCInv(s0, s, sched, |sched|, rate);
    CallRuns(s0, s, sched, |sched|, i, t, h, rate);
    var k: nat :| BeganAt(s, sched, k, |sched|, i, t, h, rate);
    ReturnedAnswered(s0, s, sched, k, i, t, h, rate);
  }

  /** A failing database call changes nothing and ends the handler; only a failing credit of a saved success is lost. */
  lemma FailedCall(s: State, i: Tid, c: Choice, rate: Rate)
    requires OrderCredit.Working(s, i) && c != Go(true)
    ensures var s', t := Step(s, i, c, rate), s.locks.PcOf(i).t;
            && s'.locks.PcOf(i) == UnlockLoad(t) && i !in s'.work
            && SameData(s', s.(lost := if s.work[i].AddQuota? then s.lost + [t] else s.lost))
  {
    StepGuarded(s, i, c, rate);
    PerformAdds(s, s.locks.PcOf(i).t, Decision(s, i, c, rate).0, rate);
  }

  /** Outside the lock: a new pending order or subscription order is stored, and a pending Waffo order can fail. */
  lemma OutsideTheLock(s: State, i: Tid, t: TradeNo, order: Order, rate: Rate)
    requires s.locks.PcOf(i) == Idle && order.status == Pending
    ensures t !in s.orders && t !in s.plans ==> Step(s, i, Insert(t, order), rate) == s.(orders := s.orders[t := order])
    ensures t !in s.orders && t !in s.plans ==> Step(s, i, InsertPlan(t, order), rate) == s.(plans := s.plans[t := order])
    ensures t in s.orders || t in s.plans ==>
              Step(s, i, Insert(t, order), rate) == Step(s, i, InsertPlan(t, order), rate) == s
    ensures Step(s, i, FailWaffo(t), rate) ==
              if Open(s.Row(t), Waffo) then s.(orders := s.orders[t := s.orders[t].(status := Failed)]) else s
  {
  }
}
