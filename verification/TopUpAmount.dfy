/** From a requested amount to the quota credited for it (controller/topup.go), in both display modes. */
module TopUpAmount {
  import opened Base
  import opened OrderCredit
  import OrderLock
  import OrderOutcome
  import OrderPaid

  /** getMinTopup. */
  function MinTopUp(minTopUp: int, quotaPerUnit: real, tokens: bool): (m: int) {
    if tokens then Truncate(Times(minTopUp as real, quotaPerUnit)) else minTopUp
  }

  const PRECISION := 10_000_000_000_000_000

  /** A decimal division keeps 16 digits after the point and rounds halves away from zero. */
  function Rounded(x: real): (r: real) {
    if x >= 0.0 then (x * PRECISION as real + 0.5).Floor as real / PRECISION as real
    else -((0.5 - x * PRECISION as real).Floor as real / PRECISION as real)
  }

  /** The Amount that RequestEpay stores: units, also when the request counts tokens. */
  function StoredAmount(requested: int, quotaPerUnit: real, tokens: bool): (a: int)
    requires quotaPerUnit > 0.0
  {
    if tokens then Truncate(Rounded(requested as real / quotaPerUnit)) else requested
  }

  /** The whole units in a number of tokens. */
  function UnitsIn(requested: int, q: real): (k: int)
    requires q > 0.0
  {
    (requested as real / q).Floor
  }

  /** What is missing to the next whole unit. */
  function Missing(requested: int, q: real): (gap: real)
    requires q > 0.0
  {
    Times((UnitsIn(requested, q) + 1) as real, q) - requested as real
  }

  /** So little is missing to the next unit that the division rounds up to it. */
  predicate RoundsUp(requested: int, q: real)
    requires q > 0.0
  {
    2.0 * PRECISION as real * Missing(requested, q) <= q
  }

  /** The order RequestEpay inserts; None when the request or the price is below its minimum. */
  function RequestEpay(user: nat, requested: int, payMoney: real, payMethod: string,
                       minTopUp: int, quotaPerUnit: real, tokens: bool): (o: Option<Order>)
    requires quotaPerUnit > 0.0
  {
    if requested < MinTopUp(minTopUp, quotaPerUnit, tokens) || payMoney < 0.01 then None
    else Some(Order(user, StoredAmount(requested, quotaPerUnit, tokens), payMoney, Epay, payMethod, Pending))
  }

  /** Multiplication by a positive number keeps order, and one unit more is q more. */
  lemma Scale(a: int, b: int, q: real)
    requires q > 0.0
    ensures a <= b ==> Times(a as real, q) <= Times(b as real, q)
    ensures a < b ==> Times(a as real, q) <= Times(b as real, q) - q
    ensures a == 0 ==> Times(a as real, q) == 0.0
  {
    if a < b {
      var d := (b - a) as real - 1.0;
      assert Times(b as real, q) - Times(a as real, q) - q == d * q;
      assert d * q >= 0.0;
    }
  }

  lemma UnitsAround(x: real, k: real, q: real)
    requires q > 0.0 && k <= x < k + 1.0
    ensures Times(k, q) <= Times(x, q) < Times(k, q) + q
  {
    var above, below := x - k, k + 1.0 - x;
    assert Times(x, q) - Times(k, q) == above * q && above * q >= 0.0;
    assert Times(k, q) + q - Times(x, q) == below * q && below * q > 0.0;
  }

  lemma Quotient(r: real, q: real)
    requires q > 0.0 && r >= 0.0
    ensures Times(r / q, q) == r && r / q >= 0.0
  {
    var x := r / q;
    assert x < 0.0 ==> (-x) * q > 0.0;
    assert x * q == r;
  }

  /** Rounding to 16 digits reaches the next integer only from half a unit of the last digit below it. */
  lemma RoundedFloor(x: real, k: int)
    requires x >= 0.0 && k as real <= x < k as real + 1.0
    ensures Truncate(Rounded(x)) == if (k as real + 1.0 - x) * PRECISION as real <= 0.5 then k + 1 else k
  {
    var n := (x * PRECISION as real + 0.5).Floor;
    assert k * PRECISION <= n <= (k + 1) * PRECISION;
  }

  /** Rounding moves a quotient of either sign by at most half a unit of the last digit, and treats the signs alike. */
  lemma RoundedNear(x: real)
    ensures -1.0 <= 2.0 * PRECISION as real * (Rounded(x) - x) <= 1.0
    ensures Rounded(-x) == -Rounded(x)
  {
  }

  lemma ScaledGap(d: real, q: real)
    requires q > 0.0
    ensures d * PRECISION as real <= 0.5 <==> 2.0 * PRECISION as real * Times(d, q) <= q
  {
    var e := 2.0 * PRECISION as real * d;
    SameSign(1.0 - e, q);
    assert Times(1.0 - e, q) == q - 2.0 * PRECISION as real * Times(d, q);
  }

  lemma SameSign(x: real, q: real)
    requires q > 0.0
    ensures x >= 0.0 <==> Times(x, q) >= 0.0
  {
    if x >= 0.0 { assert x * q >= 0.0; } else { assert (-x) * q > 0.0; }
  }

  /** The stored amount is the number of whole units, or one more exactly when the division rounds up. */
  lemma StoredUnits(requested: int, q: real)
    requires requested >= 0 && q > 0.0
    ensures StoredAmount(requested, q, true) == UnitsIn(requested, q) + if RoundsUp(requested, q) then 1 else 0
  {
    Quotient(requested as real, q);
    var x, k := requested as real / q, UnitsIn(requested, q);
    RoundedFloor(x, k);
    GapTimes(k, x, q);
    ScaledGap(k as real + 1.0 - x, q);
  }

  lemma GapTimes(k: int, x: real, q: real)
    ensures Times(k as real + 1.0 - x, q) == Times((k + 1) as real, q) - Times(x, q)
  {
  }

  lemma FloorUnits(requested: int, q: real)
    requires requested >= 0 && q > 0.0
    ensures var k := UnitsIn(requested, q);
            k >= 0 && Times(k as real, q) <= requested as real < Times(k as real, q) + q
    ensures 0.0 < Missing(requested, q) <= q
  {
    Quotient(requested as real, q);
    UnitsAround(requested as real / q, UnitsIn(requested, q) as real, q);
    NextUnit(UnitsIn(requested, q), q);
  }

  lemma NextUnit(k: int, q: real)
    ensures Times((k + 1) as real, q) == Times(k as real, q) + q
  {
  }

  /** The stored units fit into the requested tokens, and one more does not, exactly when the division rounds down. */
  lemma WholeUnits(requested: int, q: real)
    requires requested >= 0 && q > 0.0
    ensures var k := StoredAmount(requested, q, true);
            k >= 0 &&
            (Times(k as real, q) <= requested as real < Times(k as real, q) + q <==> !RoundsUp(requested, q))
  {
    StoredUnits(requested, q);
    FloorUnits(requested, q);
  }

  /** The linear core: `kq` and `mq` are the credited and the minimal amounts before their fractions are dropped. */
  lemma Bounds(requested: int, k: int, kq: real, m: int, mq: real, q: real)
    requires 0.0 <= kq <= requested as real < kq + q && 0.0 <= mq && q > 0.0
    requires if k >= m then kq >= mq else kq <= mq - q
    ensures Truncate(kq) <= requested && requested as real < Truncate(kq) as real + q + 1.0
    ensures requested as real >= mq ==> Truncate(kq) >= Truncate(mq)
    ensures q >= 1.0 && Truncate(kq) >= Truncate(mq) ==> requested as real >= mq
  {
  }

  /**
    Token display mode, any positive QuotaPerUnit, a division that rounds down: a credited request of `requested` tokens
    receives at most what was asked for and loses less than one unit (plus the fraction of a token); it receives the
    advertised minimum when, and for QuotaPerUnit >= 1 only when, the request reaches the unrounded minimum. A division
    that rounds up credits at least what was asked for.
   */
  lemma TokenCredit(user: nat, requested: int, pay: real, payMethod: string, minTopUp: int, q: real, sql: real -> int)
    requires q > 0.0 && minTopUp >= 0
    requires RequestEpay(user, requested, pay, payMethod, minTopUp, q, true).Some?
    ensures var o := RequestEpay(user, requested, pay, payMethod, minTopUp, q, true).value;
            var credited := Due(o, Rate(QuotaFor(q), sql), false);
            if RoundsUp(requested, q) then credited >= requested
            else
              && credited <= requested && requested as real < credited as real + q + 1.0
              && (requested as real >= Times(minTopUp as real, q) ==> credited >= MinTopUp(minTopUp, q, true))
              && (q >= 1.0 && credited >= MinTopUp(minTopUp, q, true) ==>
                    requested as real >= Times(minTopUp as real, q))
  {
    var k := StoredAmount(requested, q, true);
    Scale(0, minTopUp, q);
    StoredUnits(requested, q);
    FloorUnits(requested, q);
    if !RoundsUp(requested, q) {
      Scale(0, k, q);
      Scale(minTopUp, k, q);
      Scale(k, minTopUp, q);
      Bounds(requested, k, Times(k as real, q), minTopUp, Times(minTopUp as real, q), q);
    }
  }

  lemma IntegralProduct(a: int, q: nat)
    ensures Times(a as real, q as real) == (a * q) as real
  {
  }

  /** Tokens missing to the next whole unit, for an integral QuotaPerUnit. */
  function MissingTokens(requested: int, q: nat): (gap: int)
    requires q > 0
  {
    q - requested % q
  }

  lemma MissingIs(requested: int, q: nat)
    requires requested >= 0 && q > 0
    ensures Missing(requested, q as real) == MissingTokens(requested, q) as real
  {
    var k := UnitsIn(requested, q as real);
    IntegralUnits(requested, q);
    IntegralProduct(k + 1, q);
    EuclidQuotient(requested, q, k);
    assert (k + 1) * q == k * q + q;
  }

  lemma IntegralUnits(requested: int, q: nat)
    requires requested >= 0 && q > 0
    ensures var k := UnitsIn(requested, q as real); k * q <= requested < k * q + q
  {
    FloorUnits(requested, q as real);
    IntegralProduct(UnitsIn(requested, q as real), q);
  }

  lemma EuclidQuotient(a: int, q: nat, k: int)
    requires q > 0 && k * q <= a < k * q + q
    ensures a % q == a - k * q
  {
    var d := a / q;
    assert a == q * d + a % q;
    assert q * (d - k) == q * d - k * q;
    OnlyZeroFits(d - k, q);
  }

  lemma OnlyZeroFits(x: int, q: int)
    requires 0 - q < q * x < q
    ensures x == 0
  {
    AtLeastOnce(x, q);
    AtLeastOnce(-x, q);
  }

  lemma AtLeastOnce(x: int, q: int)
    ensures q >= 0 && x >= 1 ==> q * x >= q
  {
    if q >= 0 && x >= 1 { assert q * (x - 1) >= 0; }
  }

  /**
    The same for an integral QuotaPerUnit: minimum <= credited <= requested < credited + QuotaPerUnit holds exactly when
    the tokens missing to the next unit are more than the 16 digits of the division can hide.
   */
  lemma TokenCreditIntegral(user: nat, requested: int, pay: real, payMethod: string, minTopUp: int, q: nat,
                            sql: real -> int)
    requires q > 0 && minTopUp >= 0
    requires RequestEpay(user, requested, pay, payMethod, minTopUp, q as real, true).Some?
    ensures var o := RequestEpay(user, requested, pay, payMethod, minTopUp, q as real, true).value;
            var credited := Due(o, Rate(QuotaFor(q as real), sql), false);
            minTopUp * q <= credited <= requested < credited + q <==> 2 * PRECISION * MissingTokens(requested, q) > q
  {
    var k := StoredAmount(requested, q as real, true);
    IntegralProduct(minTopUp, q);
    IntegralProduct(k, q);
    Scale(0, minTopUp, q as real);
    WholeUnits(requested, q as real);
    MissingIs(requested, q);
    TokenCredit(user, requested, pay, payMethod, minTopUp, q as real, sql);
  }

  /** So it holds for every request below a QuotaPerUnit of 2 * 10^16. */
  lemma TokenCreditInPractice(requested: int, q: nat)
    requires 0 < q < 2 * PRECISION
    ensures 2 * PRECISION * MissingTokens(requested, q) > q
  {
  }

  lemma OneShort(minTopUp: nat, q: nat)
    requires q > 0
    ensures var r := (minTopUp + 1) * q - 1; r >= 0 && r >= minTopUp * q && MissingTokens(r, q) == 1
  {
    var r := (minTopUp + 1) * q - 1;
    assert (minTopUp + 1) * q == minTopUp * q + q;
    EuclidQuotient(r, q, minTopUp);
  }

  /**
    From there on, whatever the minimum, an accepted request of one token less than a whole number of units is credited
    with the whole number: one token more than was asked for.
   */
  lemma HugeUnitsRoundUp(user: nat, pay: real, payMethod: string, minTopUp: nat, q: nat, sql: real -> int)
    requires q >= 2 * PRECISION && pay >= 0.01
    ensures var r := (minTopUp + 1) * q - 1;
            var o := RequestEpay(user, r, pay, payMethod, minTopUp, q as real, true);
            o.Some? && Due(o.value, Rate(QuotaFor(q as real), sql), false) == r + 1
  {
    var r := (minTopUp + 1) * q - 1;
    OneShort(minTopUp, q);
    IntegralProduct(minTopUp, q);
    IntegralProduct(minTopUp + 1, q);
    MissingIs(r, q);
    StoredUnits(r, q as real);
    IntegralUnits(r, q);
    SameUnits(r, q, UnitsIn(r, q as real), minTopUp);
  }

  lemma SameUnits(r: int, q: nat, k: int, m: int)
    requires q > 0 && k * q <= r < k * q + q && m * q <= r < m * q + q
    ensures k == m
  {
    assert q * (k - m) == k * q - m * q;
    OnlyZeroFits(k - m, q);
  }

  // ---------------------------------------------------------------- what is accepted, and the currency display

  /** A request is accepted from the minimum on, in units or in the tokens they stand for, with a price of a cent. */
  lemma AcceptedRequest(user: nat, requested: int, pay: real, payMethod: string, minTopUp: int, q: nat, tokens: bool)
    requires q > 0
    ensures var o := RequestEpay(user, requested, pay, payMethod, minTopUp, q as real, tokens);
            && (o.Some? <==> pay >= 0.01 && requested >= if tokens then minTopUp * q else minTopUp)
            && (o.Some? ==>
                  && o.value.user == user && o.value.money == pay && o.value.payMethod == payMethod
                  && o.value.provider == Epay && o.value.status == Pending)
  {
    IntegralProduct(minTopUp, q);
  }

  /** Currency display: a request is credited with exactly its units' worth, less the fraction of a token. */
  lemma CurrencyCredit(user: nat, requested: int, pay: real, payMethod: string, minTopUp: int, q: real,
                       sql: real -> int)
    requires q > 0.0 && minTopUp >= 0
    requires RequestEpay(user, requested, pay, payMethod, minTopUp, q, false).Some?
    ensures var o := RequestEpay(user, requested, pay, payMethod, minTopUp, q, false).value;
            var credited := Due(o, Rate(QuotaFor(q), sql), false);
            && requested >= minTopUp && o.amount == requested
            && credited as real <= requested as real * q < credited as real + 1.0
  {
    Scale(0, requested, q);
  }

  /** A whole number of tokens per unit loses nothing. */
  lemma CurrencyCreditIntegral(user: nat, requested: int, pay: real, payMethod: string, minTopUp: int, q: nat,
                               sql: real -> int)
    requires q > 0 && minTopUp >= 0
    requires RequestEpay(user, requested, pay, payMethod, minTopUp, q as real, false).Some?
    ensures var o := RequestEpay(user, requested, pay, payMethod, minTopUp, q as real, false).value;
            Due(o, Rate(QuotaFor(q as real), sql), false) == requested * q >= minTopUp * q
  {
    IntegralProduct(requested, q);
    assert (requested - minTopUp) * q >= 0;
  }

  // ---------------------------------------------------------------- from the request to the credit

  /**
    The whole way in token display: an accepted request whose order is paid, any number of callbacks at once, is credited
    once, with no more than was asked for, at least the minimum, and less than one unit short.
   */
  lemma PaidRequestIsCredited(s0: State, before: OrderOutcome.Turns, sched: OrderOutcome.Turns, k: nat,
                              i: nat, h: Handler, t: string, order: Order, user: nat, requested: int, pay: real,
                              payMethod: string, minTopUp: int, q: nat, sql: real -> int)
    requires 0 < q < 2 * PRECISION && minTopUp >= 0
    requires RequestEpay(user, requested, pay, payMethod, minTopUp, q as real, true) == Some(order)
    requires OrderCredit.Init(s0)
    requires var rate := Rate(QuotaFor(q as real), sql);
             var s := OrderCredit.Run(s0, before, rate);
             && OrderPaid.Placed(s, t, order) && OrderPaid.GoodRun(s, sched, |sched|, t, order, rate)
             && OrderPaid.CalledAt(s, sched, k, i, h, t, rate)
             && forall j: nat :: OrderOutcome.After(s, sched, |sched|, rate).locks.PcOf(j) == OrderLock.Idle
    ensures var rate := Rate(QuotaFor(q as real), sql);
            var r := OrderOutcome.After(OrderCredit.Run(s0, before, rate), sched, |sched|, rate);
            exists amount :: OrderOutcome.OnlyCredit(r.credits, Credit(t, user, amount, false)) &&
                             minTopUp * q <= amount <= requested < amount + q
  {
    var rate := Rate(QuotaFor(q as real), sql);
    var s := OrderCredit.Run(s0, before, rate);
    OrderPaid.PaidOrderIsCreditedOnce(s0, before, sched, k, i, h, t, order, rate);
    OrderPaid.DueIs(h, order, order, rate);
    TokenCreditInPractice(requested, q);
    TokenCreditIntegral(user, requested, pay, payMethod, minTopUp, q, sql);
    AcceptedRequest(user, requested, pay, payMethod, minTopUp, q, true);
    var amount := Due(order, rate, false);
    assert OrderOutcome.OnlyCredit(OrderOutcome.After(s, sched, |sched|, rate).credits, Credit(t, user, amount, false));
  }
}
