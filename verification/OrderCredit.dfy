/**
  The handlers that run under the order lock (EpayNotify, the Stripe, Creem, Waffo and Waffo Pancake webhooks, the
  subscription callbacks, the admin's manual completion) on top of the lock itself: who may change an order, and how
  often it is credited.
 */
module OrderCredit {
  import opened Base
  import opened OrderLock

  datatype Status = Pending | Success | Failed | Expired
  datatype Provider = Epay | Stripe | Creem | Waffo | WaffoPancake | OtherProvider
  datatype Order = Order(user: nat, amount: int, money: real, provider: Provider, payMethod: string, status: Status)

  datatype Handler =
    | EpayNotify(payType: string)
    | EpaySubscription(payType: string)
    | StripeAsyncFailed
    | StripeFulfill
    | StripeExpired
    | CreemWebhook
    | WaffoWebhook
    | PancakeWebhook
    | PancakeSubscription
    | AdminComplete

  /** What a thread has left to do inside the guarded section. */
  datatype Work =
    | Enter(handler: Handler)
    | SaveRow(row: Order)   // the row was read as pending; `row` is about to be written back
    | AddQuota(row: Order)  // `row` was saved as successful; the user is not credited yet

  /** A quota increase; `manual` tells the admin's completion from the providers' callbacks. */
  datatype Credit = Credit(t: TradeNo, user: nat, amount: int, manual: bool)

  /** What one database call does to the order its thread holds. */
  datatype Effect =
    | Nothing
    | Write(row: Order)               // the row is saved
    | Pay(row: Order, manual: bool)   // the row is saved and the user credited, in one transaction
    | Increase(row: Order)            // IncreaseUserQuota
    | Lose                            // IncreaseUserQuota failed
    | Grant(row: Order, plan: Order)  // a subscription starts: its order is closed and a successful row written
    | ClosePlan(plan: Order)          // a subscription order expires

  datatype State = State(
    locks: Locks,
    work: map<Tid, Work>,
    orders: map<TradeNo, Order>,    // the top_ups table
    plans: map<TradeNo, Order>,     // the subscription_orders table
    quota: map<nat, int>,           // users.quota
    credits: seq<Credit>,           // the quota increases that took effect, in order
    lost: seq<TradeNo>,             // orders marked successful whose quota increase failed
    granted: seq<TradeNo>)          // subscription orders that were completed
  {
    function QuotaOf(u: nat): (q: int) {
      if u in quota then quota[u] else 0
    }

    /** The row GetTopUpByTradeNo finds. */
    function Row(t: TradeNo): (o: Option<Order>) {
      if t in orders then Some(orders[t]) else None
    }

    function Plan(t: TradeNo): (o: Option<Order>) {
      if t in plans then Some(plans[t]) else None
    }
  }

  /** What the environment decides: the call an idle thread makes, a new pending order, the database's answer. */
  datatype Choice =
    | Call(t: TradeNo, h: Handler)
    | Insert(t: TradeNo, order: Order)
    | InsertPlan(t: TradeNo, plan: Order)
    | FailWaffo(t: TradeNo)           // Waffo reports a failed payment; this handler does not take the lock
    | Go(ok: bool)

  /**
    How much quota an amount of money buys: in decimal arithmetic, and as the database rounds a float that the Stripe
    webhook lets it add. The protocol works for any two functions; the system's first one is QuotaFor.
   */
  datatype Rate = Rate(units: real -> int, sql: real -> int)

  function QuotaFor(quotaPerUnit: real): (r: real -> int) {
    (x: real) => Truncate(Times(x, quotaPerUnit))
  }

  /**
    Quota due for an order: Money for Stripe orders, Amount for all others, and an Amount that already counts quota for
    Creem orders. The manual completion does not make the exception for Creem.
   */
  function Due(o: Order, rate: Rate, manual: bool): (q: int) {
    if o.provider == Stripe then if manual then rate.units(o.money) else rate.sql(o.money)
    else if o.provider == Creem && !manual then o.amount
    else rate.units(o.amount as real)
  }

  /** The handlers that look for a subscription order first, or only for one. */
  predicate TriesPlan(h: Handler) {
    h.EpaySubscription? || h.StripeFulfill? || h.StripeExpired? || h.CreemWebhook? || h.PancakeSubscription?
  }

  function PlanProvider(h: Handler): (p: Provider) {
    match h
    case EpaySubscription(_) => Epay
    case CreemWebhook => Creem
    case PancakeSubscription => WaffoPancake
    case _ => Stripe
  }

  /** The top-up row that upsertSubscriptionTopUpTx leaves; None when an existing row was paid by another method. */
  function GrantedRow(cur: Option<Order>, plan: Order): (r: Option<Order>) {
    match cur
    case None => Some(Order(plan.user, 0, plan.money, OtherProvider, plan.payMethod, Success))
    case Some(row) =>
      if row.payMethod != "" && row.payMethod != plan.payMethod then None
      else Some(row.(money := plan.money, payMethod := plan.payMethod, status := Success))
  }

  /** CompleteSubscriptionOrder or ExpireSubscriptionOrder on the subscription order found. */
  function BeginPlan(cur: Option<Order>, plan: Order, h: Handler, ok: bool): (e: Effect) {
    if !ok || plan.status != Pending || plan.provider != PlanProvider(h) then Nothing
    else if h.StripeExpired? then ClosePlan(plan.(status := Expired))
    else if GrantedRow(cur, plan) == None then Nothing
    else
      var paidBy := if h.EpaySubscription? && h.payType != "" then h.payType else plan.payMethod;
      Grant(GrantedRow(cur, plan).value, plan.(status := Success, payMethod := paidBy))
  }

  /** The first call on a pending top-up order: a read, or a whole transaction for the handlers that use one. */
  function BeginOrder(o: Order, h: Handler, ok: bool, rate: Rate): (r: (Effect, Option<Work>)) {
    match h
    case EpayNotify(payType) =>
      if !ok || o.provider != Epay then (Nothing, None)
      else (Nothing, Some(SaveRow(o.(payMethod := payType, status := Success))))
    case StripeAsyncFailed =>
      if !ok || o.provider != Stripe then (Nothing, None) else (Nothing, Some(SaveRow(o.(status := Failed))))
    case StripeFulfill =>
      if !ok || o.provider != Stripe then (Nothing, None) else (Pay(o.(status := Success), false), None)
    case StripeExpired =>
      if !ok || o.provider != Stripe then (Nothing, None) else (Write(o.(status := Expired)), None)
    case CreemWebhook =>
      if !ok || o.provider != Creem then (Nothing, None) else (Pay(o.(status := Success), false), None)
    case WaffoWebhook =>
      if !ok || o.provider != Waffo || Due(o, rate, false) <= 0 then (Nothing, None)
      else (Pay(o.(status := Success), false), None)
    case PancakeWebhook =>
      if !ok || o.provider != WaffoPancake || Due(o, rate, false) <= 0 then (Nothing, None)
      else (Pay(o.(status := Success), false), None)
    case AdminComplete =>
      if !ok || Due(o, rate, true) <= 0 then (Nothing, None) else (Pay(o.(status := Success), true), None)
    case EpaySubscription(_) => (Nothing, None)
    case PancakeSubscription => (Nothing, None)
  }

  function Begin(cur: Option<Order>, plan: Option<Order>, h: Handler, ok: bool, rate: Rate)
    : (r: (Effect, Option<Work>))
  {
    if TriesPlan(h) && plan.Some? then (BeginPlan(cur, plan.value, h, ok), None)
    else if cur == None || cur.value.status != Pending then (Nothing, None)
    else BeginOrder(cur.value, h, ok, rate)
  }

  /** One database call inside the guarded section, and what is left to do; None means the deferred unlock runs. */
  function Decide(s: State, t: TradeNo, w: Work, ok: bool, rate: Rate): (r: (Effect, Option<Work>)) {
    match w
    case Enter(h) => Begin(s.Row(t), s.Plan(t), h, ok, rate)
    case SaveRow(row) =>
      if !ok then (Nothing, None) else (Write(row), if row.status == Success then Some(AddQuota(row)) else None)
    case AddQuota(row) =>
      // IncreaseUserQuota refuses a negative amount
      (if !ok || Due(row, rate, false) < 0 then Lose else Increase(row), None)
  }

  function Perform(s: State, t: TradeNo, e: Effect, rate: Rate): (s': State) {
    match e
    case Nothing => s
    case Write(row) => s.(orders := s.orders[t := row])
    case Pay(row, manual) => AddCredit(s.(orders := s.orders[t := row]), t, row, rate, manual)
    case Increase(row) => AddCredit(s, t, row, rate, false)
    case Lose => s.(lost := s.lost + [t])
    case Grant(row, plan) =>
      s.(orders := s.orders[t := row], plans := s.plans[t := plan], granted := s.granted + [t])
    case ClosePlan(plan) => s.(plans := s.plans[t := plan])
  }

  function AddCredit(s: State, t: TradeNo, o: Order, rate: Rate, manual: bool): (s': State) {
    s.(quota := s.quota[o.user := s.QuotaOf(o.user) + Due(o, rate, manual)],
       credits := s.credits + [Credit(t, o.user, Due(o, rate, manual), manual)])
  }

  /** Go on with the rest of the work, or leave: the deferred UnlockOrder starts. */
  function Continue(s: State, i: Tid, t: TradeNo, next: Option<Work>): (s': State) {
    if next.Some? then s.(work := s.work[i := next.value])
    else s.(locks := s.locks.At(i, UnlockLoad(t)), work := s.work - {i})
  }

  /** A thread that holds order t performs the effect decided on and goes on. */
  function Guarded(s: State, i: Tid, t: TradeNo, d: (Effect, Option<Work>), rate: Rate): (s': State) {
    Continue(Perform(s, t, d.0, rate), i, t, d.1)
  }

  /** An idle thread: it calls a handler, inserts an order, or marks a Waffo order as failed in one transaction. */
  function IdleStep(s: State, i: Tid, c: Choice): (s': State) {
    match c
    case Call(t, h) => s.(locks := LockStep(s.locks, i, Some(t)), work := s.work[i := Enter(h)])
    case Insert(t, o) =>
      if t in s.orders || t in s.plans || o.status != Pending then s else s.(orders := s.orders[t := o])
    case InsertPlan(t, p) =>
      if t in s.orders || t in s.plans || p.status != Pending then s else s.(plans := s.plans[t := p])
    case FailWaffo(t) =>
      if t in s.orders && s.orders[t].provider == Waffo && s.orders[t].status == Pending
      then s.(orders := s.orders[t := s.orders[t].(status := Failed)]) else s
    case Go(_) => s
  }

  /** Thread i is inside the guarded section with work to do. */
  predicate Working(s: State, i: Tid) {
    s.locks.PcOf(i).Critical? && i in s.work
  }

  function Decision(s: State, i: Tid, c: Choice, rate: Rate): (d: (Effect, Option<Work>))
    requires Working(s, i)
  {
    Decide(s, s.locks.PcOf(i).t, s.work[i], c.Go? && c.ok, rate)
  }

  /** One atomic step of thread i of the whole system. */
  function Step(s: State, i: Tid, c: Choice, rate: Rate): (s': State) {
    if s.locks.PcOf(i) == Idle then IdleStep(s, i, c)
    else if Working(s, i) then Guarded(s, i, s.locks.PcOf(i).t, Decision(s, i, c, rate), rate)
    else s.(locks := LockStep(s.locks, i, None))
  }

  type Schedule = seq<(Tid, Choice)>

  function Run(s0: State, sched: Schedule, rate: Rate): (s: State) {
    if sched == [] then s0
    else Step(Run(s0, sched[..|sched| - 1], rate), sched[|sched| - 1].0, sched[|sched| - 1].1, rate)
  }

  /** A process that has just started, on a database in which no open subscription order shares its number. */
  ghost predicate Init(s: State) {
    && s.locks == NO_LOCKS && s.work == map[] && s.credits == [] && s.lost == [] && s.granted == []
    && PlansOk(s)
  }

  predicate CreditedIn(credits: seq<Credit>, t: TradeNo) {
    exists k :: 0 <= k < |credits| && credits[k].t == t
  }

  /** Everything about an order except its status and payment method. */
  predicate SameOrder(a: Order, b: Order) {
    a.user == b.user && a.amount == b.amount && a.money == b.money && a.provider == b.provider
  }

  // ---------------------------------------------------------------- invariant

  /** Nothing was paid for t yet, in any of the three ways. */
  predicate Unpaid(s: State, t: TradeNo) {
    !CreditedIn(s.credits, t) && t !in s.lost && t !in s.granted
  }

  /** A thread between its database calls still sees the row it read. */
  predicate WorkFor(s: State, t: TradeNo, w: Work) {
    match w
    case Enter(_) => true
    case SaveRow(row) =>
      && t in s.orders && s.orders[t].status == Pending && row.status != Pending && SameOrder(s.orders[t], row)
      && (row.provider == Epay || row.provider == Stripe)
    case AddQuota(row) => t in s.orders && s.orders[t] == row && row.status == Success && Unpaid(s, t)
  }

  ghost predicate WorkOk(s: State, i: Tid) {
    i in s.work && !s.work[i].Enter? ==> s.locks.PcOf(i).Critical? && WorkFor(s, s.locks.PcOf(i).t, s.work[i])
  }

  /** A credit is what its order, a successful one, is due. */
  ghost predicate CreditOk(s: State, c: Credit, rate: Rate) {
    && c.t in s.orders && s.orders[c.t].status == Success
    && c.user == s.orders[c.t].user && c.amount == Due(s.orders[c.t], rate, c.manual)
  }

  ghost predicate CreditsOk(s: State, rate: Rate) {
    && (forall c :: c in s.credits ==> CreditOk(s, c, rate))
    && (forall k, k' :: 0 <= k < k' < |s.credits| ==> s.credits[k].t != s.credits[k'].t)
    && (forall t :: t in s.lost || t in s.granted ==> t in s.orders && s.orders[t].status == Success)
    && (forall t :: t in s.lost || t in s.granted ==> !CreditedIn(s.credits, t))
    && (forall t :: t in s.lost ==> t !in s.granted)
  }

  /** An open subscription order has no top-up row yet, and was not completed. */
  ghost predicate PlansOk(s: State) {
    && (forall t :: t in s.plans && s.plans[t].status != Success ==> t !in s.orders)
    && (forall t :: t in s.granted ==> t in s.plans && s.plans[t].status == Success)
    && (forall k, k' :: 0 <= k < k' < |s.granted| ==> s.granted[k] != s.granted[k'])
  }

  /** The thread that marked t successful has not credited it yet. */
  ghost predicate CreditPending(s: State, t: TradeNo) {
    exists i: Tid :: s.locks.PcOf(i) == Critical(t) && i in s.work && s.work[i].AddQuota?
  }

  /** Since start-up t became successful. */
  predicate Newly(s0: State, s: State, t: TradeNo) {
    t in s.orders && s.orders[t].status == Success && !(t in s0.orders && s0.orders[t].status == Success)
  }

  /** No success is forgotten: a newly successful order is credited, being credited, lost, or a subscription. */
  ghost predicate Accounted(s0: State, s: State, t: TradeNo) {
    Newly(s0, s, t) ==> !Unpaid(s, t) || CreditPending(s, t)
  }

  ghost predicate CInv(s0: State, s: State, rate: Rate) {
    && Inv(s.locks)
    && (forall i: Tid :: WorkOk(s, i))
    && CreditsOk(s, rate) && PlansOk(s)
    && (forall t :: Accounted(s0, s, t))
  }

  // ---------------------------------------------------------------- what a handler may decide

  /** Orders are written while pending, credited while successful and unpaid, granted while they do not exist. */
  ghost predicate EffectOk(s: State, t: TradeNo, e: Effect) {
    match e
    case Nothing => true
    case Write(row) => Leaves(s, t, row)
    case Pay(row, _) => Leaves(s, t, row) && row.status == Success
    case Increase(row) => t in s.orders && s.orders[t] == row && row.status == Success && Unpaid(s, t)
    case Lose => t in s.orders && s.orders[t].status == Success && Unpaid(s, t)
    case Grant(row, plan) =>
      && t !in s.orders && t in s.plans && s.plans[t].status == Pending && row.status == Success
      && plan.status == Success
    case ClosePlan(plan) => t !in s.orders && t in s.plans && s.plans[t].status == Pending && plan.status == Expired
  }

  /** The row of t leaves pending and keeps everything but status and payment method. */
  predicate Leaves(s: State, t: TradeNo, row: Order) {
    t in s.orders && s.orders[t].status == Pending && row.status != Pending && SameOrder(s.orders[t], row)
  }

  /** What is left to do fits what was done: a success that was only written is credited next. */
  predicate NextOk(e: Effect, next: Option<Work>) {
    if e.Write? && e.row.status == Success then next == Some(AddQuota(e.row))
    else if e.Nothing? then next.Some? ==> next.value.SaveRow?
    else next == None
  }

  lemma BeginOk(s: State, t: TradeNo, h: Handler, ok: bool, rate: Rate)
    requires PlansOk(s)
    ensures var d := Begin(s.Row(t), s.Plan(t), h, ok, rate);
            EffectOk(s, t, d.0) && NextOk(d.0, d.1) && (d.1.Some? ==> d.0.Nothing? && WorkFor(s, t, d.1.value))
  {
    if TriesPlan(h) && t in s.plans {
      assert s.plans[t].status != Success ==> t !in s.orders;
    }
  }

  lemma DecideOk(s: State, t: TradeNo, w: Work, ok: bool, rate: Rate)
    requires PlansOk(s) && WorkFor(s, t, w)
    ensures var d := Decide(s, t, w, ok, rate);
            EffectOk(s, t, d.0) && NextOk(d.0, d.1) && (d.1.Some? && d.0.Nothing? ==> WorkFor(s, t, d.1.value))
  {
    if w.Enter? { BeginOk(s, t, w.handler, ok, rate); }
  }

  lemma DecisionOk(s: State, i: Tid, c: Choice, rate: Rate)
    requires PlansOk(s) && WorkOk(s, i) && Working(s, i)
    ensures var d, t := Decision(s, i, c, rate), s.locks.PcOf(i).t;
            EffectOk(s, t, d.0) && NextOk(d.0, d.1) && (d.1.Some? && d.0.Nothing? ==> WorkFor(s, t, d.1.value))
  {
    DecideOk(s, s.locks.PcOf(i).t, s.work[i], c.Go? && c.ok, rate);
  }

  // ---------------------------------------------------------------- what an effect does

  /** Performing an effect touches neither locks nor threads, and only adds to the logs. */
  lemma PerformAdds(s: State, t: TradeNo, e: Effect, rate: Rate)
    ensures var s' := Perform(s, t, e, rate);
            && s'.locks == s.locks && s'.work == s.work
            && s.credits <= s'.credits && s.lost <= s'.lost && s.granted <= s'.granted
  {
  }

  /** Nothing about t depends on what is done to another order. */
  ghost predicate Untouched(s: State, s': State, t: TradeNo) {
    && (t in s'.orders <==> t in s.orders) && (t in s.orders ==> s'.orders[t] == s.orders[t])
    && (Unpaid(s', t) <==> Unpaid(s, t))
  }

  lemma PerformElsewhere(s: State, t': TradeNo, e: Effect, rate: Rate, t: TradeNo)
    requires t != t'
    ensures Untouched(s, Perform(s, t', e, rate), t)
  {
    var s' := Perform(s, t', e, rate);
    assert s.credits <= s'.credits && |s'.credits| <= |s.credits| + 1;
    assert |s'.credits| > |s.credits| ==> s'.credits[|s.credits|].t != t;
  }

  lemma PerformFinal(s: State, t: TradeNo, e: Effect, rate: Rate, u: TradeNo)
    requires EffectOk(s, t, e) && u in s.orders
    ensures var s' := Perform(s, t, e, rate);
            && u in s'.orders && SameOrder(s.orders[u], s'.orders[u])
            && (s.orders[u].status != Pending ==> s'.orders[u] == s.orders[u])
  {
  }

  lemma PendingUnpaid(s: State, rate: Rate, t: TradeNo)
    requires CreditsOk(s, rate) && (t in s.orders ==> s.orders[t].status == Pending)
    ensures Unpaid(s, t)
  {
    if CreditedIn(s.credits, t) { CreditedSucceeded(s, rate, t); }
  }

  lemma CreditedSucceeded(s: State, rate: Rate, t: TradeNo)
    requires CreditsOk(s, rate) && CreditedIn(s.credits, t)
    ensures t in s.orders && s.orders[t].status == Success
  {
    var k :| 0 <= k < |s.credits| && s.credits[k].t == t;
    assert s.credits[k] in s.credits;
  }

  /** An effect that credits nobody keeps the credits in order. */
  lemma UncreditedKeeps(s: State, t: TradeNo, e: Effect, rate: Rate)
    requires CreditsOk(s, rate) && EffectOk(s, t, e) && (e.Nothing? || e.Write? || e.Lose? || e.Grant? || e.ClosePlan?)
    ensures CreditsOk(Perform(s, t, e, rate), rate)
  {
    var s' := Perform(s, t, e, rate);
    if e.Write? || e.Grant? { PendingUnpaid(s, rate, t); }
    forall c | c in s'.credits ensures CreditOk(s', c, rate) {
      assert CreditOk(s, c, rate);
      PerformFinal(s, t, e, rate, c.t);
    }
  }

  lemma CreditKeeps(s: State, t: TradeNo, e: Effect, rate: Rate)
    requires CreditsOk(s, rate) && EffectOk(s, t, e) && (e.Pay? || e.Increase?)
    ensures CreditsOk(Perform(s, t, e, rate), rate)
  {
    var s' := Perform(s, t, e, rate);
    if e.Pay? { PendingUnpaid(s, rate, t); }
    var n := |s.credits|;
    assert s'.credits[..n] == s.credits && |s'.credits| == n + 1 && s'.credits[n].t == t;
    forall c | c in s'.credits ensures CreditOk(s', c, rate) {
      if c in s.credits {
        assert CreditOk(s, c, rate);
        PerformFinal(s, t, e, rate, c.t);
      }
    }
    forall k, k' | 0 <= k < k' < |s'.credits| ensures s'.credits[k].t != s'.credits[k'].t {
      assert s'.credits[k] == s.credits[k];
    }
    forall u | u in s'.lost || u in s'.granted ensures !CreditedIn(s'.credits, u) {
      assert u != t && !CreditedIn(s.credits, u);
    }
  }

  lemma PlansKeep(s: State, t: TradeNo, e: Effect, rate: Rate)
    requires PlansOk(s) && EffectOk(s, t, e)
    ensures PlansOk(Perform(s, t, e, rate))
  {
  }

  /** The work decided on fits the state after the effect. */
  lemma NextWork(s: State, t: TradeNo, d: (Effect, Option<Work>), rate: Rate)
    requires CreditsOk(s, rate) && EffectOk(s, t, d.0) && NextOk(d.0, d.1) && d.1.Some?
    requires d.0.Nothing? ==> WorkFor(s, t, d.1.value)
    ensures WorkFor(Perform(s, t, d.0, rate), t, d.1.value)
  {
    if d.0.Write? { PendingUnpaid(s, rate, t); }
  }

  // ---------------------------------------------------------------- what a step does

  /** To the locks, a step of the system is no step or a step of the lock protocol. */
  lemma StepLocks(s: State, i: Tid, c: Choice, rate: Rate)
    ensures var l := Step(s, i, c, rate).locks;
            l == s.locks || l == LockStep(s.locks, i, None) || (c.Call? && l == LockStep(s.locks, i, Some(c.t)))
  {
    if Working(s, i) { PerformAdds(s, s.locks.PcOf(i).t, Decision(s, i, c, rate).0, rate); }
  }

  lemma LocksKept(s: State, i: Tid, c: Choice, rate: Rate)
    requires Inv(s.locks)
    ensures Inv(Step(s, i, c, rate).locks)
  {
    StepLocks(s, i, c, rate);
    StepKeepsInv(s.locks, i, None);
    if c.Call? { StepKeepsInv(s.locks, i, Some(c.t)); }
  }

  lemma StepWork(s: State, i: Tid, c: Choice, rate: Rate, j: Tid)
    requires j != i
    ensures var work := Step(s, i, c, rate).work;
            (j in work <==> j in s.work) && (j in s.work ==> work[j] == s.work[j])
  {
    if Working(s, i) { PerformAdds(s, s.locks.PcOf(i).t, Decision(s, i, c, rate).0, rate); }
  }

  /** A step moves only its own thread. */
  lemma OthersStand(s: State, i: Tid, c: Choice, rate: Rate, j: Tid)
    requires j != i
    ensures var s' := Step(s, i, c, rate);
            && s'.locks.PcOf(j) == s.locks.PcOf(j)
            && (j in s'.work <==> j in s.work) && (j in s.work ==> s'.work[j] == s.work[j])
  {
    StepLocks(s, i, c, rate);
    StepWork(s, i, c, rate, j);
    OtherPc(s.locks, i, None, j);
    if c.Call? { OtherPc(s.locks, i, Some(c.t), j); }
  }

  /** Outside the guarded section a thread inserts pending orders and fails pending Waffo orders, and that is all. */
  ghost predicate Outside(s: State, s': State) {
    && s'.credits == s.credits && s'.lost == s.lost && s'.granted == s.granted && s'.quota == s.quota
    && (forall t :: t in s.orders ==> t in s'.orders && OutsideRow(s.orders[t], s'.orders[t]))
    && (forall t :: t in s'.orders && t !in s.orders ==> s'.orders[t].status == Pending)
  }

  predicate OutsideRow(a: Order, b: Order) {
    a == b || (a.status == Pending && a.provider == Waffo && b == a.(status := Failed))
  }

  lemma IdleOutside(s: State, i: Tid, c: Choice)
    ensures Outside(s, IdleStep(s, i, c))
  {
  }

  lemma IdlePlans(s: State, i: Tid, c: Choice)
    requires PlansOk(s)
    ensures PlansOk(IdleStep(s, i, c))
  {
  }

  lemma StepOutside(s: State, i: Tid, c: Choice, rate: Rate)
    requires !Working(s, i)
    ensures Outside(s, Step(s, i, c, rate))
  {
    if s.locks.PcOf(i) == Idle { IdleOutside(s, i, c); }
  }

  /** A guarded step does to the database what its effect does. */
  ghost predicate SameData(a: State, b: State) {
    && a.orders == b.orders && a.plans == b.plans && a.quota == b.quota
    && a.credits == b.credits && a.lost == b.lost && a.granted == b.granted
  }

  lemma StepGuarded(s: State, i: Tid, c: Choice, rate: Rate)
    requires Working(s, i)
    ensures SameData(Step(s, i, c, rate), Perform(s, s.locks.PcOf(i).t, Decision(s, i, c, rate).0, rate))
  {
  }

  lemma SameWorkFor(a: State, b: State, t: TradeNo, w: Work)
    requires SameData(a, b)
    ensures WorkFor(a, t, w) <==> WorkFor(b, t, w)
  {
  }

  /** A thread's unfinished work survives the steps of the others: they do not hold its order. */
  lemma OtherWorkKept(s: State, i: Tid, c: Choice, rate: Rate, j: Tid)
    requires Inv(s.locks) && WorkOk(s, j) && j != i
    ensures WorkOk(Step(s, i, c, rate), j)
  {
    OthersStand(s, i, c, rate, j);
    var pc := s.locks.PcOf(j);
    if j in s.work && !s.work[j].Enter? {
      if Working(s, i) {
        if s.locks.PcOf(i).t == pc.t { HoldersAgree(s.locks, i, j, pc.t); }
        StepGuarded(s, i, c, rate);
        PerformElsewhere(s, s.locks.PcOf(i).t, Decision(s, i, c, rate).0, rate, pc.t);
      } else {
        StepOutside(s, i, c, rate);
        assert OutsideRow(s.orders[pc.t], Step(s, i, c, rate).orders[pc.t]);
      }
    }
  }

  lemma OwnWorkKept(s: State, i: Tid, c: Choice, rate: Rate)
    requires WorkOk(s, i) && CreditsOk(s, rate) && PlansOk(s)
    ensures WorkOk(Step(s, i, c, rate), i)
  {
    if Working(s, i) {
      var t, d := s.locks.PcOf(i).t, Decision(s, i, c, rate);
      DecisionOk(s, i, c, rate);
      StepGuarded(s, i, c, rate);
      PerformAdds(s, t, d.0, rate);
      if d.1.Some? {
        NextWork(s, t, d, rate);
        SameWorkFor(Step(s, i, c, rate), Perform(s, t, d.0, rate), t, d.1.value);
      }
    }
  }

  /** An order that has left `pending` is never written again, and no order loses its amount, user or provider. */
  lemma FinalStep(s: State, i: Tid, c: Choice, rate: Rate, t: TradeNo)
    requires WorkOk(s, i) && PlansOk(s) && t in s.orders
    ensures var s' := Step(s, i, c, rate);
            && t in s'.orders && SameOrder(s.orders[t], s'.orders[t])
            && (s.orders[t].status != Pending ==> s'.orders[t] == s.orders[t])
  {
    if Working(s, i) {
      DecisionOk(s, i, c, rate);
      StepGuarded(s, i, c, rate);
      PerformFinal(s, s.locks.PcOf(i).t, Decision(s, i, c, rate).0, rate, t);
    } else {
      StepOutside(s, i, c, rate);
      assert OutsideRow(s.orders[t], Step(s, i, c, rate).orders[t]);
    }
  }

  lemma PerformFinalPlan(s: State, t: TradeNo, e: Effect, rate: Rate, u: TradeNo)
    requires EffectOk(s, t, e) && u in s.plans
    ensures var s' := Perform(s, t, e, rate);
            u in s'.plans && (s.plans[u].status != Pending ==> s'.plans[u] == s.plans[u])
  {
  }

  /** A subscription order that has left `pending` is never written again. */
  lemma FinalPlanStep(s: State, i: Tid, c: Choice, rate: Rate, t: TradeNo)
    requires WorkOk(s, i) && PlansOk(s) && t in s.plans
    ensures var s' := Step(s, i, c, rate);
            t in s'.plans && (s.plans[t].status != Pending ==> s'.plans[t] == s.plans[t])
  {
    if Working(s, i) {
      DecisionOk(s, i, c, rate);
      StepGuarded(s, i, c, rate);
      PerformFinalPlan(s, s.locks.PcOf(i).t, Decision(s, i, c, rate).0, rate, t);
    }
  }

  lemma SameCredits(a: State, b: State, rate: Rate)
    requires SameData(a, b) && CreditsOk(b, rate)
    ensures CreditsOk(a, rate)
  {
    forall c | c in a.credits ensures CreditOk(a, c, rate) { assert CreditOk(b, c, rate); }
  }

  lemma OutsideCredits(s: State, s': State, rate: Rate)
    requires Outside(s, s') && CreditsOk(s, rate)
    ensures CreditsOk(s', rate)
  {
    forall c | c in s'.credits ensures CreditOk(s', c, rate) {
      assert CreditOk(s, c, rate) && OutsideRow(s.orders[c.t], s'.orders[c.t]);
    }
    forall t | t in s'.lost || t in s'.granted ensures t in s'.orders && s'.orders[t].status == Success {
      assert t in s.orders && OutsideRow(s.orders[t], s'.orders[t]);
    }
  }

  /** Credits, losses and subscriptions stay exclusive, and each credit stays what its order is due. */
  lemma CreditsKept(s: State, i: Tid, c: Choice, rate: Rate)
    requires WorkOk(s, i) && CreditsOk(s, rate) && PlansOk(s)
    ensures CreditsOk(Step(s, i, c, rate), rate) && PlansOk(Step(s, i, c, rate))
  {
    if Working(s, i) {
      var t, e := s.locks.PcOf(i).t, Decision(s, i, c, rate).0;
      DecisionOk(s, i, c, rate);
      StepGuarded(s, i, c, rate);
      if e.Pay? || e.Increase? { CreditKeeps(s, t, e, rate); } else { UncreditedKeeps(s, t, e, rate); }
      PlansKeep(s, t, e, rate);
      SameCredits(Step(s, i, c, rate), Perform(s, t, e, rate), rate);
    } else {
      StepOutside(s, i, c, rate);
      OutsideCredits(s, Step(s, i, c, rate), rate);
      if s.locks.PcOf(i) == Idle { IdlePlans(s, i, c); }
    }
  }

  // ---------------------------------------------------------------- no success is forgotten

  /** The logs only grow. */
  lemma LogsGrow(s: State, i: Tid, c: Choice, rate: Rate)
    ensures var s' := Step(s, i, c, rate);
            s.credits <= s'.credits && s.lost <= s'.lost && s.granted <= s'.granted
  {
    if Working(s, i) {
      StepGuarded(s, i, c, rate);
      PerformAdds(s, s.locks.PcOf(i).t, Decision(s, i, c, rate).0, rate);
    } else {
      StepOutside(s, i, c, rate);
    }
  }

  lemma PaidStays(s: State, i: Tid, c: Choice, rate: Rate, t: TradeNo)
    requires !Unpaid(s, t)
    ensures !Unpaid(Step(s, i, c, rate), t)
  {
    LogsGrow(s, i, c, rate);
    if CreditedIn(s.credits, t) {
      var k :| 0 <= k < |s.credits| && s.credits[k].t == t;
      assert Step(s, i, c, rate).credits[k].t == t;
    }
  }

  /** An effect on t pays it, starts the credit, or leaves no new success behind. */
  lemma EffectPays(s: State, t: TradeNo, d: (Effect, Option<Work>), rate: Rate)
    requires EffectOk(s, t, d.0) && NextOk(d.0, d.1) && Unpaid(s, t)
    ensures var s' := Perform(s, t, d.0, rate);
            || !Unpaid(s', t)
            || (d.1.Some? && d.1.value.AddQuota?)
            || (t in s'.orders && s'.orders[t].status == Success ==> t in s.orders && s'.orders[t] == s.orders[t])
  {
    var s' := Perform(s, t, d.0, rate);
    if d.0.Pay? || d.0.Increase? { assert s'.credits[|s.credits|].t == t; }
  }

  /** The thread that holds t: it credits what it marks successful, is about to, or records the loss. */
  lemma OwnAccounted(s0: State, s: State, i: Tid, c: Choice, rate: Rate, t: TradeNo)
    requires Accounted(s0, s, t) && Working(s, i) && s.locks.PcOf(i).t == t && Unpaid(s, t)
    requires WorkOk(s, i) && PlansOk(s) && (CreditPending(s, t) ==> s.work[i].AddQuota?)
    ensures Accounted(s0, Step(s, i, c, rate), t)
  {
    var s', d := Step(s, i, c, rate), Decision(s, i, c, rate);
    DecisionOk(s, i, c, rate);
    StepGuarded(s, i, c, rate);
    PerformAdds(s, t, d.0, rate);
    EffectPays(s, t, d, rate);
    if d.1.Some? && d.1.value.AddQuota? {
      assert s'.locks.PcOf(i) == Critical(t) && s'.work[i].AddQuota?;
    } else if s.work[i].AddQuota? {
      AddQuotaPays(s, i, c, rate, t);
    }
  }

  /** Adding the quota ends in a credit or a loss. */
  lemma AddQuotaPays(s: State, i: Tid, c: Choice, rate: Rate, t: TradeNo)
    requires Working(s, i) && s.locks.PcOf(i).t == t && s.work[i].AddQuota?
    ensures !Unpaid(Step(s, i, c, rate), t)
  {
    var s', d := Step(s, i, c, rate), Decision(s, i, c, rate);
    StepGuarded(s, i, c, rate);
    if d.0.Increase? { assert s'.credits[|s.credits|].t == t; } else { assert s'.lost[|s.lost|] == t; }
  }

  lemma OtherAccounted(s0: State, s: State, i: Tid, c: Choice, rate: Rate, t: TradeNo)
    requires Accounted(s0, s, t) && Unpaid(s, t) && (Working(s, i) ==> s.locks.PcOf(i).t != t)
    ensures Accounted(s0, Step(s, i, c, rate), t)
  {
    var s' := Step(s, i, c, rate);
    if Working(s, i) {
      StepGuarded(s, i, c, rate);
      PerformElsewhere(s, s.locks.PcOf(i).t, Decision(s, i, c, rate).0, rate, t);
    } else {
      StepOutside(s, i, c, rate);
      assert t in s.orders ==> OutsideRow(s.orders[t], s'.orders[t]);
    }
    if Newly(s0, s', t) {
      assert CreditPending(s, t);
      PendingStays(s, i, c, rate, t);
    }
  }

  lemma PendingStays(s: State, i: Tid, c: Choice, rate: Rate, t: TradeNo)
    requires CreditPending(s, t) && (Working(s, i) ==> s.locks.PcOf(i).t != t)
    ensures CreditPending(Step(s, i, c, rate), t)
  {
    var j: Tid :| s.locks.PcOf(j) == Critical(t) && j in s.work && s.work[j].AddQuota?;
    assert j != i;
    OthersStand(s, i, c, rate, j);
  }

  lemma AccountedKept(s0: State, s: State, i: Tid, c: Choice, rate: Rate, t: TradeNo)
    requires CInv(s0, s, rate)
    ensures Accounted(s0, Step(s, i, c, rate), t)
  {
    assert WorkOk(s, i) && Accounted(s0, s, t);
    if !Unpaid(s, t) {
      PaidStays(s, i, c, rate, t);
    } else if Working(s, i) && s.locks.PcOf(i).t == t {
      if CreditPending(s, t) {
        var j: Tid :| s.locks.PcOf(j) == Critical(t) && j in s.work && s.work[j].AddQuota?;
        HoldersAgree(s.locks, i, j, t);
      }
      OwnAccounted(s0, s, i, c, rate, t);
    } else {
      OtherAccounted(s0, s, i, c, rate, t);
    }
  }

  lemma StepKeepsCInv(s0: State, s: State, i: Tid, c: Choice, rate: Rate)
    requires CInv(s0, s, rate)
    ensures CInv(s0, Step(s, i, c, rate), rate)
  {
    LocksKept(s, i, c, rate);
    assert WorkOk(s, i);
    CreditsKept(s, i, c, rate);
    forall j: Tid ensures WorkOk(Step(s, i, c, rate), j) {
      assert WorkOk(s, j);
      if j == i { OwnWorkKept(s, i, c, rate); } else { OtherWorkKept(s, i, c, rate, j); }
    }
    forall t ensures Accounted(s0, Step(s, i, c, rate), t) { AccountedKept(s0, s, i, c, rate, t); }
  }

  // ---------------------------------------------------------------- theorems

  lemma {:induction false} RunKeepsCInv(s0: State, s: State, sched: Schedule, rate: Rate)
    requires CInv(s0, s, rate)
    ensures CInv(s0, Run(s, sched, rate), rate)
  {
    if sched != [] {
      var prefix := sched[..|sched| - 1];
      RunKeepsCInv(s0, s, prefix, rate);
      StepKeepsCInv(s0, Run(s, prefix, rate), sched[|sched| - 1].0, sched[|sched| - 1].1, rate);
    }
  }

  lemma RunHasCInv(s0: State, sched: Schedule, rate: Rate)
    requires Init(s0)
    ensures CInv(s0, Run(s0, sched, rate), rate)
  {
    assert forall i: Tid :: s0.locks.PcOf(i) == Idle;
    OrderLock.RunHasInv([]);
    assert forall t :: Accounted(s0, s0, t);
    RunKeepsCInv(s0, s0, sched, rate);
  }

  lemma {:induction false} RunSplit(s0: State, a: Schedule, b: Schedule, rate: Rate)
    ensures Run(s0, a + b, rate) == Run(Run(s0, a, rate), b, rate)
  {
    if b == [] {
      assert a + b == a;
    } else {
      var last := |b| - 1;
      assert (a + b)[..|a + b| - 1] == a + b[..last];
      RunSplit(s0, a, b[..last], rate);
    }
  }

  lemma {:induction false} FinalRun(s0: State, s: State, sched: Schedule, rate: Rate, t: TradeNo)
    requires CInv(s0, s, rate) && t in s.orders
    ensures var later := Run(s, sched, rate).orders;
            && t in later && SameOrder(s.orders[t], later[t])
            && (s.orders[t].status != Pending ==> later[t] == s.orders[t])
  {
    if sched != [] {
      var mid := Run(s, sched[..|sched| - 1], rate);
      FinalRun(s0, s, sched[..|sched| - 1], rate, t);
      RunKeepsCInv(s0, s, sched[..|sched| - 1], rate);
      assert WorkOk(mid, sched[|sched| - 1].0);
      FinalStep(mid, sched[|sched| - 1].0, sched[|sched| - 1].1, rate, t);
    }
  }

  /**
    For any schedule `before` and any continuation `after`: an order that has left `pending` keeps its whole row, so it
    leaves `pending` at most once; and no order ever changes its user, amount, money or provider.
   */
  lemma LeavesPendingOnce(s0: State, before: Schedule, after: Schedule, rate: Rate, t: TradeNo)
    requires Init(s0) && t in Run(s0, before, rate).orders
    ensures var row := Run(s0, before, rate).orders[t];
            var later := Run(s0, before + after, rate).orders;
            && t in later && SameOrder(row, later[t])
            && (row.status != Pending ==> later[t] == row)
  {
    RunHasCInv(s0, before, rate);
    FinalRun(s0, Run(s0, before, rate), after, rate, t);
    RunSplit(s0, before, after, rate);
  }

  /**
    Whatever the interleaving of callbacks, failures, expiries and manual completions: no order is credited twice, no
    subscription is started twice, only successful orders are credited, and each credit is what the order is due.
   */
  lemma CreditedAtMostOnce(s0: State, sched: Schedule, rate: Rate)
    requires Init(s0)
    ensures var s := Run(s0, sched, rate);
            && (forall k, k' :: 0 <= k < k' < |s.credits| ==> s.credits[k].t != s.credits[k'].t)
            && (forall k, k' :: 0 <= k < k' < |s.granted| ==> s.granted[k] != s.granted[k'])
            && (forall c :: c in s.credits ==> CreditOk(s, c, rate))
  {
    RunHasCInv(s0, sched, rate);
  }

  /**
    Once every call has returned, each order that became successful was credited, or its credit failed, or it is a
    subscription that was started; always exactly one of the three.
   */
  lemma SuccessIsAccountedFor(s0: State, sched: Schedule, rate: Rate, t: TradeNo)
    requires Init(s0)
    requires forall i: Tid :: Run(s0, sched, rate).locks.PcOf(i) == Idle
    requires Newly(s0, Run(s0, sched, rate), t)
    ensures var s := Run(s0, sched, rate);
            var credited, lost, granted := CreditedIn(s.credits, t), t in s.lost, t in s.granted;
            (credited || lost || granted) && !(credited && lost) && !(credited && granted) && !(lost && granted)
  {
    RunHasCInv(s0, sched, rate);
    var s := Run(s0, sched, rate);
    assert Accounted(s0, s, t);
    assert !CreditPending(s, t) by {
      forall i: Tid ensures s.locks.PcOf(i) != Critical(t) { assert s.locks.PcOf(i) == Idle; }
    }
  }

  function SumFor(credits: seq<Credit>, u: nat): (q: int) {
    if credits == [] then 0
    else
      var last := credits[|credits| - 1];
      SumFor(credits[..|credits| - 1], u) + if last.user == u then last.amount else 0
  }

  /** Conservation: a user's quota grows by exactly the credits of that user's orders. */
  lemma {:induction false} QuotaIsConserved(s0: State, sched: Schedule, rate: Rate, u: nat)
    requires Init(s0)
    ensures var s := Run(s0, sched, rate); s.QuotaOf(u) == s0.QuotaOf(u) + SumFor(s.credits, u)
  {
    if sched != [] {
      var prefix := sched[..|sched| - 1];
      var s := Run(s0, prefix, rate);
      var s' := Run(s0, sched, rate);
      QuotaIsConserved(s0, prefix, rate, u);
      QuotaStep(s, sched[|sched| - 1].0, sched[|sched| - 1].1, rate, u);
      if s'.credits != s.credits {
        assert s'.credits[..|s'.credits| - 1] == s.credits;
      }
    }
  }

  /** A quota increase and its entry in the log are one and the same. */
  lemma QuotaStep(s: State, i: Tid, c: Choice, rate: Rate, u: nat)
    ensures LogsQuota(s, Step(s, i, c, rate), u)
  {
    if Working(s, i) {
      StepGuarded(s, i, c, rate);
      PerformLogs(s, s.locks.PcOf(i).t, Decision(s, i, c, rate).0, rate, u);
    } else {
      StepOutside(s, i, c, rate);
    }
  }

  ghost predicate LogsQuota(s: State, s': State, u: nat) {
    || (s'.credits == s.credits && s'.quota == s.quota)
    || (&& |s'.credits| == |s.credits| + 1 && s'.credits[..|s.credits|] == s.credits
        && var last := s'.credits[|s.credits|];
        s'.QuotaOf(u) == s.QuotaOf(u) + if last.user == u then last.amount else 0)
  }

  lemma PerformLogs(s: State, t: TradeNo, e: Effect, rate: Rate, u: nat)
    ensures LogsQuota(s, Perform(s, t, e, rate), u)
  {
  }
}
