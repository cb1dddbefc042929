/** Properties of the duration engine: the shape of the cash-flow schedule, agreement of the
    two pricing routines, the metric identities and the bounds on Macaulay duration. */
module DurationProperties {
  import opened Duration

  /** Sum of the `presentValue` column of a schedule. */
  function TotalPV(flows: seq<CashFlow>): real
  {
    if flows == [] then 0.0 else TotalPV(flows[..|flows| - 1]) + flows[|flows| - 1].presentValue
  }

  /** Sum of the `weightedPV` column of a schedule. */
  function TotalWeighted(flows: seq<CashFlow>): real
  {
    if flows == [] then 0.0 else TotalWeighted(flows[..|flows| - 1]) + flows[|flows| - 1].weightedPV
  }

  lemma {:induction false} FlowAt(p: BondParams, k: nat, i: nat)
    requires Discountable(p) && i < k
    ensures |Flows(p, k)| == k && Flows(p, k)[i] == Flow(p, i + 1)
  {
    FlowsLength(p, k - 1);
    if i < k - 1 {
      FlowAt(p, k - 1, i);
    }
  }

  /** The schedule has one row per loop iteration; row i is period i+1, at time (i+1)/frequency,
      discounted over i+1 periods, with weightedPV = time * presentValue. */
  lemma ScheduleShape(p: BondParams)
    requires Priceable(p)
    ensures |Results(p).cashFlows| == LoopCount(p)
    ensures forall i :: 0 <= i < LoopCount(p) ==>
      var cf := Results(p).cashFlows[i];
      && cf.period == i + 1
      && cf.time == (i + 1) as real / p.frequency
      && cf.presentValue == cf.payment / Pow(Growth(p), i + 1)
      && cf.weightedPV == cf.time * cf.presentValue
  {
    var n := LoopCount(p);
    forall i | 0 <= i < n
      ensures |Results(p).cashFlows| == n && Results(p).cashFlows[i] == Flow(p, i + 1)
    {
      FlowAt(p, n, i);
    }
    FlowsLength(p, n);
  }

  /** For a whole number n >= 1 of periods the loop runs exactly n times. */
  lemma WholeLoopCount(p: BondParams)
    requires WholePeriods(p) && TotalPeriods(p) >= 1.0
    ensures LoopCount(p) == WholeCount(p) && LoopCount(p) as real == TotalPeriods(p)
  {
  }

  /** Every payment is the periodic coupon, except the last one of a whole-period bond,
      which is coupon plus face value. */
  lemma PaymentSchedule(p: BondParams)
    requires Priceable(p) && WholePeriods(p)
    ensures |Results(p).cashFlows| == LoopCount(p)
    ensures forall i :: 0 <= i < LoopCount(p) - 1 ==>
      Results(p).cashFlows[i].payment == PeriodicCoupon(p)
    ensures LoopCount(p) >= 1 ==>
      Results(p).cashFlows[LoopCount(p) - 1].payment == PeriodicCoupon(p) + p.faceValue
  {
    ScheduleShape(p);
    var n := LoopCount(p);
    if n >= 1 {
      WholeLoopCount(p);
      FlowAt(p, n, n - 1);
    }
    forall i | 0 <= i < n - 1
      ensures Results(p).cashFlows[i].payment == PeriodicCoupon(p)
    {
      FlowAt(p, n, i);
      WholeLoopCount(p);
    }
  }

  /** When yearsToMaturity * frequency is not a whole number the loop test `t === totalPeriods`
      never holds, so no flow carries the face value. */
  lemma FractionalPeriodsDropFace(p: BondParams)
    requires Priceable(p) && !WholePeriods(p)
    ensures forall i :: 0 <= i < |Results(p).cashFlows| ==>
      Results(p).cashFlows[i].payment == PeriodicCoupon(p)
  {
    ScheduleShape(p);
    var n := LoopCount(p);
    forall i | 0 <= i < n
      ensures Results(p).cashFlows[i].payment == PeriodicCoupon(p)
    {
      FlowAt(p, n, i);
      assert (i + 1) as real != TotalPeriods(p);
    }
  }

  /** A quarter-year point priced semi-annually (the 3M maturity of the treasury table) gives
      half a period: the loop never runs and the accumulated price is 0, so every ratio the
      engine derives divides by zero. */
  lemma QuarterYearSemiAnnualIsEmpty(face: real, coupon: real, ytm: real)
    requires 1.0 + ytm / 2.0 != 0.0
    ensures var p := BondParams(face, coupon, 0.25, ytm, 2.0);
      LoopCount(p) == 0 && Flows(p, 0) == [] && SchedulePrice(p) == 0.0 && !Priceable(p)
  {
  }

  lemma {:induction false} TotalsOfFlows(p: BondParams, k: nat)
    requires Discountable(p)
    ensures TotalPV(Flows(p, k)) == SumPV(p, k)
    ensures TotalWeighted(Flows(p, k)) == SumWeighted(p, k)
  {
    if k > 0 {
      TotalsOfFlows(p, k - 1);
      var fs := Flows(p, k);
      assert fs[..|fs| - 1] == Flows(p, k - 1);
    }
  }

  /** The price is the sum of the schedule's present values, and the Macaulay, modified and
      dollar durations and the convexity obey their defining identities. */
  lemma MetricIdentities(p: BondParams)
    requires Priceable(p)
    ensures Identities(Results(p), SumConvexity(p, LoopCount(p)), Growth(p))
  {
    var n := LoopCount(p);
    TotalsOfFlows(p, n);
    DeriveFields(Results(p), SumPV(p, n), SumWeighted(p, n), SumConvexity(p, n), Growth(p), Flows(p, n));
  }

  /** The defining identities of a result record whose convexity sum is cs and whose discount
      base is g. */
  predicate Identities(r: DurationResults, cs: real, g: real)
  {
    && r.price == TotalPV(r.cashFlows)
    && r.price != 0.0 && g != 0.0
    && r.macaulayDuration == TotalWeighted(r.cashFlows) / r.price
    && r.modifiedDuration == r.macaulayDuration / g
    && r.dollarDuration == r.modifiedDuration * r.price / 100.0
    && r.convexity == cs / (r.price * g * g)
  }

  /** The fields Derive computes from the accumulators. */
  lemma DeriveFields(r: DurationResults, price: real, w: real, cs: real, g: real, flows: seq<CashFlow>)
    requires price != 0.0 && g != 0.0 && r == Derive(price, w, cs, g, flows)
    requires TotalPV(flows) == price && TotalWeighted(flows) == w
    ensures Identities(r, cs, g)
  {
    assert Pow(g, 1) == g;
    assert Pow(g, 2) == g * g;
    assert price * Pow(g, 2) == price * g * g;
  }
}
