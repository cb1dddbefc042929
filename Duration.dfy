/** Bond pricing and duration engine (src/utils/duration.ts).
    Numbers are modelled exactly over `real`; a division that could produce NaN or
    Infinity in the original becomes a precondition. */
module Duration {

  /** The input record of every engine operation. */
  datatype BondParams = BondParams(
    faceValue: real,
    couponRate: real,        // annual coupon rate as a fraction
    yearsToMaturity: real,
    ytm: real,               // annual yield to maturity as a fraction
    frequency: real)         // coupon payments per year

  /** One row of the cash-flow schedule. */
  datatype CashFlow = CashFlow(
    period: nat,
    time: real,
    payment: real,
    presentValue: real,
    weightedPV: real)

  datatype DurationResults = DurationResults(
    price: real,
    macaulayDuration: real,
    modifiedDuration: real,
    dollarDuration: real,
    convexity: real,
    cashFlows: seq<CashFlow>)

  /** `Math.pow` with a natural exponent. */
  function Pow(x: real, n: nat): (r: real)
    ensures x != 0.0 ==> r != 0.0
    ensures x > 0.0 ==> r > 0.0
  {
    if n == 0 then 1.0 else x * Pow(x, n - 1)
  }

  function PeriodicCoupon(p: BondParams): real
    requires p.frequency > 0.0
  {
    p.faceValue * p.couponRate / p.frequency
  }

  /** The per-period discount base `1 + ytm/frequency`. */
  function Growth(p: BondParams): real
    requires p.frequency > 0.0
  {
    1.0 + p.ytm / p.frequency
  }

  /** The periodic yield i = g - 1 of a growth factor g. */
  function Rate(g: real): real
  {
    g - 1.0
  }

  function TotalPeriods(p: BondParams): real
  {
    p.yearsToMaturity * p.frequency
  }

  /** Number of iterations of `for (t = 1; t <= totalPeriods; t++)`. */
  function LoopCount(p: BondParams): (n: nat)
    ensures n == 0 || n as real <= TotalPeriods(p)
    ensures TotalPeriods(p) < n as real + 1.0
  {
    if TotalPeriods(p) < 1.0 then 0 else TotalPeriods(p).Floor
  }

  /** The period count is a whole, non-negative number. */
  predicate WholePeriods(p: BondParams)
  {
    TotalPeriods(p) >= 0.0 && TotalPeriods(p).Floor as real == TotalPeriods(p)
  }

  /** Parameters for which every discount factor is defined. */
  predicate Discountable(p: BondParams)
  {
    p.frequency > 0.0 && Growth(p) != 0.0
  }

  /** The payment of period `t`: the coupon, plus the face value when `t` equals the
      period count exactly. */
  function Payment(p: BondParams, t: nat): real
    requires p.frequency > 0.0
  {
    if t as real == TotalPeriods(p) then PeriodicCoupon(p) + p.faceValue else PeriodicCoupon(p)
  }

  function PresentValue(p: BondParams, t: nat): real
    requires Discountable(p)
  {
    Payment(p, t) / Pow(Growth(p), t)
  }

  function Flow(p: BondParams, t: nat): CashFlow
    requires Discountable(p)
  {
    var time := t as real / p.frequency;
    CashFlow(t, time, Payment(p, t), PresentValue(p, t), time * PresentValue(p, t))
  }

  /** The flows of periods 1..k in period order. */
  function Flows(p: BondParams, k: nat): seq<CashFlow>
    requires Discountable(p)
  {
    if k == 0 then [] else Flows(p, k - 1) + [Flow(p, k)]
  }

  /** Sum of present values of periods 1..k. */
  function SumPV(p: BondParams, k: nat): real
    requires Discountable(p)
  {
    if k == 0 then 0.0 else SumPV(p, k - 1) + Flow(p, k).presentValue
  }

  /** Sum of time-weighted present values of periods 1..k. */
  function SumWeighted(p: BondParams, k: nat): real
    requires Discountable(p)
  {
    if k == 0 then 0.0 else SumWeighted(p, k - 1) + Flow(p, k).weightedPV
  }

  /** The contribution of one flow to the convexity accumulator. */
  function ConvexityTerm(cf: CashFlow, frequency: real): real
    requires frequency > 0.0
  {
    cf.time * (cf.time + 1.0 / frequency) * cf.presentValue
  }

  /** The convexity accumulator over periods 1..k. */
  function SumConvexity(p: BondParams, k: nat): real
    requires Discountable(p)
  {
    if k == 0 then 0.0 else SumConvexity(p, k - 1) + ConvexityTerm(Flow(p, k), p.frequency)
  }

  /** The price `calculateDuration` accumulates. */
  function SchedulePrice(p: BondParams): real
    requires Discountable(p)
  {
    SumPV(p, LoopCount(p))
  }

  /** Parameters for which `calculateDuration` returns finite numbers. */
  predicate Priceable(p: BondParams)
  {
    Discountable(p) && SchedulePrice(p) != 0.0
  }

  /** The metrics `calculateDuration` derives from its three accumulators once the loop is
      done: Macaulay duration, modified duration, dollar duration and convexity. */
  function Derive(price: real, weightedPVSum: real, convexitySum: real, growth: real,
                  cashFlows: seq<CashFlow>): DurationResults
    requires price != 0.0 && growth != 0.0
  {
    var macaulay := weightedPVSum / price;
    var modified := macaulay / growth;
    DurationResults(
      price,
      macaulay,
      modified,
      modified * price / 100.0,
      convexitySum / (price * Pow(growth, 2)),
      cashFlows)
  }

  /** The value `calculateDuration` returns. */
  function Results(p: BondParams): DurationResults
    requires Priceable(p)
  {
    var n := LoopCount(p);
    Derive(SumPV(p, n), SumWeighted(p, n), SumConvexity(p, n), Growth(p), Flows(p, n))
  }

  /** Present value of the coupons of periods 1..k. */
  function CouponPV(p: BondParams, k: nat): real
    requires Discountable(p)
  {
    if k == 0 then 0.0 else CouponPV(p, k - 1) + PeriodicCoupon(p) / Pow(Growth(p), k)
  }

  function WholeCount(p: BondParams): nat
    requires WholePeriods(p)
  {
    TotalPeriods(p).Floor
  }

  /** The value `calculateBondPrice` returns: coupons plus the discounted face value. */
  function BondPrice(p: BondParams): real
    requires Discountable(p) && WholePeriods(p)
  {
    var n := WholeCount(p);
    CouponPV(p, n) + p.faceValue / Pow(Growth(p), n)
  }

  /** The same bond re-priced at another yield. */
  function WithYtm(p: BondParams, ytm: real): (r: BondParams)
    ensures TotalPeriods(r) == TotalPeriods(p)
  {
    p.(ytm := ytm)
  }

  /** calculateBondPrice: one loop over the coupon periods, then the face value. */
  method CalculateBondPrice(p: BondParams) returns (price: real)
    requires Discountable(p) && WholePeriods(p)
    ensures price == BondPrice(p)
  {
    var periodicCoupon := PeriodicCoupon(p);
    var growth := Growth(p);
    var totalPeriods := TotalPeriods(p);
    price := 0.0;
    var t: nat := 1;
    while t as real <= totalPeriods
      invariant 1 <= t <= LoopCount(p) + 1
      invariant price == CouponPV(p, t - 1)
      decreases LoopCount(p) + 1 - t
    {
      LoopGuard(p, t);
      assert CouponPV(p, t) == CouponPV(p, t - 1) + PeriodicCoupon(p) / Pow(Growth(p), t);
      price := price + periodicCoupon / Pow(growth, t);
      t := t + 1;
    }
    LoopGuard(p, t);
    LoopCountOfWhole(p);
    price := price + p.faceValue / Pow(growth, totalPeriods.Floor);
  }

  /** calculateDuration: a single pass that emits the schedule and accumulates the price,
      the time-weighted present value and the convexity sum. */
  method CalculateDuration(p: BondParams) returns (r: DurationResults)
    requires Priceable(p)
    ensures r == Results(p)
    ensures |r.cashFlows| == LoopCount(p)
  {
    var periodicCoupon := PeriodicCoupon(p);
    var growth := Growth(p);
    var totalPeriods := TotalPeriods(p);
    var cashFlows: seq<CashFlow> := [];
    var price, weightedPVSum, convexitySum := 0.0, 0.0, 0.0;
    var t: nat := 1;
    while t as real <= totalPeriods
      invariant 1 <= t <= LoopCount(p) + 1
      invariant cashFlows == Flows(p, t - 1)
      invariant price == SumPV(p, t - 1)
      invariant weightedPVSum == SumWeighted(p, t - 1)
      invariant convexitySum == SumConvexity(p, t - 1)
      decreases LoopCount(p) + 1 - t
    {
      LoopGuard(p, t);
      var timeInYears := t as real / p.frequency;
      var payment := if t as real == totalPeriods then periodicCoupon + p.faceValue else periodicCoupon;
      var discountFactor := Pow(growth, t);
      var pv := payment / discountFactor;
      var flow := CashFlow(t, timeInYears, payment, pv, timeInYears * pv);
      assert flow == Flow(p, t);
      AccumulatorStep(p, t);
      cashFlows := cashFlows + [flow];
      price := price + flow.presentValue;
      weightedPVSum := weightedPVSum + flow.weightedPV;
      convexitySum := convexitySum + ConvexityTerm(flow, p.frequency);
      t := t + 1;
    }
    LoopGuard(p, t);
    r := Derive(price, weightedPVSum, convexitySum, growth, cashFlows);
    FlowsLength(p, LoopCount(p));
  }

  /** The loop test `t <= totalPeriods` holds exactly while t has not passed the loop count. */
  lemma LoopGuard(p: BondParams, t: nat)
    requires 1 <= t <= LoopCount(p) + 1
    ensures t as real <= TotalPeriods(p) <==> t <= LoopCount(p)
  {
  }

  /** For a whole period count the loop runs `totalPeriods` times. */
  lemma LoopCountOfWhole(p: BondParams)
    requires WholePeriods(p)
    ensures LoopCount(p) == WholeCount(p) == TotalPeriods(p).Floor
  {
  }

  /** One iteration of the loop of `calculateDuration`, unfolded. */
  lemma AccumulatorStep(p: BondParams, t: nat)
    requires Discountable(p) && t >= 1
    ensures Flows(p, t) == Flows(p, t - 1) + [Flow(p, t)]
    ensures SumPV(p, t) == SumPV(p, t - 1) + Flow(p, t).presentValue
    ensures SumWeighted(p, t) == SumWeighted(p, t - 1) + Flow(p, t).weightedPV
    ensures SumConvexity(p, t) == SumConvexity(p, t - 1) + ConvexityTerm(Flow(p, t), p.frequency)
  {
  }

  lemma {:induction false} FlowsLength(p: BondParams, k: nat)
    requires Discountable(p)
    ensures |Flows(p, k)| == k
  {
    if k > 0 { FlowsLength(p, k - 1); }
  }
}
