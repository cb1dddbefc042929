/** Properties of bond prices: agreement of `calculateBondPrice` with the price accumulated by
    `calculateDuration`, the par-bond identity, monotonicity in the yield and the bounds on
    Macaulay duration. */
module PriceProperties {
  import opened Duration
  import opened DurationProperties

  /** Before the final period every present value is a discounted coupon. */
  lemma {:induction false} CouponPrefix(p: BondParams, k: nat)
    requires Discountable(p) && k as real < TotalPeriods(p)
    ensures SumPV(p, k) == CouponPV(p, k)
  {
    if k > 0 {
      CouponPrefix(p, k - 1);
      assert Payment(p, k) == PeriodicCoupon(p);
    }
  }

  lemma SplitQuotient(a: real, b: real, d: real)
    requires d != 0.0
    ensures (a + b) / d == a / d + b / d
  {
  }

  /** For a whole number n >= 1 of periods, both pricing routines return the same price. */
  lemma {:induction false} PricesAgree(p: BondParams)
    requires Discountable(p) && WholePeriods(p) && TotalPeriods(p) >= 1.0
    ensures SchedulePrice(p) == BondPrice(p)
  {
    WholeLoopCount(p);
    var n := LoopCount(p);
    CouponPrefix(p, n - 1);
    assert Payment(p, n) == PeriodicCoupon(p) + p.faceValue;
    SplitQuotient(PeriodicCoupon(p), p.faceValue, Pow(Growth(p), n));
  }

  /** With a zero period count the two routines disagree: calculateBondPrice returns the
      undiscounted face value while calculateDuration accumulates nothing. */
  lemma ZeroPeriodsDisagree(p: BondParams)
    requires Discountable(p) && p.yearsToMaturity == 0.0
    ensures WholePeriods(p) && BondPrice(p) == p.faceValue && SchedulePrice(p) == 0.0
  {
  }

  // ---------------------------------------------------------------------------------------
  // Geometric series

  /** Sum of 1/g^t for t = 1..k. */
  function Annuity(g: real, k: nat): real
    requires g != 0.0
  {
    if k == 0 then 0.0 else Annuity(g, k - 1) + 1.0 / Pow(g, k)
  }

  /** (g - 1) * sum_{t=1..k} g^-t == 1 - g^-k. */
  lemma {:induction false} AnnuityClosedForm(g: real, k: nat)
    requires g != 0.0
    ensures Rate(g) * Annuity(g, k) == 1.0 - 1.0 / Pow(g, k)
  {
    if k > 0 {
      AnnuityClosedForm(g, k - 1);
      var q := Pow(g, k - 1);
      assert Pow(g, k) == g * q;
      AnnuityStep(g, q, Annuity(g, k - 1), Annuity(g, k));
    }
  }

  /** One term of the geometric series, over plain values. */
  lemma AnnuityStep(g: real, q: real, a0: real, a1: real)
    requires g != 0.0 && q != 0.0
    requires Rate(g) * a0 == 1.0 - 1.0 / q && a1 == a0 + 1.0 / (g * q)
    ensures Rate(g) * a1 == 1.0 - 1.0 / (g * q)
  {
    var i := Rate(g);
    assert i * a1 == i * a0 + i / (g * q);
    assert i / (g * q) == 1.0 / q - 1.0 / (g * q);
  }

  /** The coupon leg is the periodic coupon times the annuity factor. */
  lemma {:induction false} CouponLeg(p: BondParams, k: nat)
    requires Discountable(p)
    ensures CouponPV(p, k) == PeriodicCoupon(p) * Annuity(Growth(p), k)
  {
    if k > 0 {
      CouponLeg(p, k - 1);
      LegStep(PeriodicCoupon(p), Pow(Growth(p), k), Annuity(Growth(p), k - 1), CouponPV(p, k - 1));
    }
  }

  /** c a + c / q == c (a + 1 / q) */
  lemma LegStep(c: real, q: real, a: real, s: real)
    requires q != 0.0 && s == c * a
    ensures s + c / q == c * (a + 1.0 / q)
  {
    assert c / q == c * (1.0 / q);
  }

  /** A bond whose coupon rate equals its yield prices at par. */
  lemma ParBondPrice(p: BondParams)
    requires Discountable(p) && WholePeriods(p) && p.couponRate == p.ytm
    ensures BondPrice(p) == p.faceValue
  {
    var n := WholeCount(p);
    var g := Growth(p);
    CouponLeg(p, n);
    AnnuityClosedForm(g, n);
    ParPeriodicCoupon(p);
    ParSum(p.faceValue, g, Pow(g, n), Annuity(g, n), PeriodicCoupon(p));
  }

  /** The periodic coupon of a par bond is face * (g - 1). */
  lemma ParPeriodicCoupon(p: BondParams)
    requires p.frequency > 0.0 && p.couponRate == p.ytm
    ensures PeriodicCoupon(p) == p.faceValue * Rate(Growth(p))
  {
    assert p.faceValue * p.couponRate / p.frequency == p.faceValue * (p.ytm / p.frequency);
  }

  /** c a + face / q == face whenever c == face i and i a == 1 - 1/q. */
  lemma ParSum(face: real, g: real, q: real, a: real, c: real)
    requires q != 0.0 && c == face * Rate(g) && Rate(g) * a == 1.0 - 1.0 / q
    ensures c * a + face / q == face
  {
    assert c * a == face * (Rate(g) * a);
    assert face / q == face * (1.0 / q);
  }

  /** The engine's schedule of a par bond also prices at par. */
  lemma ParBondSchedulePrice(p: BondParams)
    requires Discountable(p) && WholePeriods(p) && TotalPeriods(p) >= 1.0 && p.couponRate == p.ytm
    ensures SchedulePrice(p) == p.faceValue
  {
    PricesAgree(p);
    ParBondPrice(p);
  }

  // ---------------------------------------------------------------------------------------
  // Monotonicity in the yield

  lemma {:induction false} PowStrictlyIncreasing(a: real, b: real, n: nat)
    requires 0.0 < a < b && n >= 1
    ensures Pow(a, n) < Pow(b, n)
  {
    var pa, pb := Pow(a, n - 1), Pow(b, n - 1);
    if n > 1 {
      PowStrictlyIncreasing(a, b, n - 1);
    }
    ProductIncreasing(a, b, pa, pb);
  }

  /** a pa < b pb for 0 < a < b and 0 < pa <= pb. */
  lemma ProductIncreasing(a: real, b: real, pa: real, pb: real)
    requires 0.0 < a < b && 0.0 < pa <= pb
    ensures a * pa < b * pb
  {
    assert a * pa < b * pa;
    assert b * pa <= b * pb;
  }

  /** Dividing a positive number by a larger positive denominator gives less. */
  lemma DivideByLarger(c: real, pa: real, pb: real)
    requires 0.0 < pa < pb && c > 0.0
    ensures c / pb < c / pa
  {
    var qa, qb := c / pa, c / pb;
    assert qa * pa == c && qb * pb == c;
    assert qb * pa < qb * pb;
  }

  lemma DiscountDecreases(c: real, a: real, b: real, n: nat)
    requires 0.0 < a < b && n >= 1 && c >= 0.0
    ensures c / Pow(b, n) <= c / Pow(a, n)
    ensures c > 0.0 ==> c / Pow(b, n) < c / Pow(a, n)
  {
    PowStrictlyIncreasing(a, b, n);
    if c > 0.0 {
      DivideByLarger(c, Pow(a, n), Pow(b, n));
    }
  }

  lemma QuotientIncreasing(a: real, b: real, d: real)
    requires a < b && d > 0.0
    ensures a / d < b / d
  {
    assert b / d - a / d == (b - a) / d;
  }

  /** Re-pricing at another yield keeps the period count. */
  lemma WithYtmPeriods(p: BondParams, y: real)
    ensures TotalPeriods(WithYtm(p, y)) == TotalPeriods(p)
    ensures WholePeriods(WithYtm(p, y)) == WholePeriods(p)
    ensures WholePeriods(p) ==> WholeCount(WithYtm(p, y)) == WholeCount(p)
    ensures LoopCount(WithYtm(p, y)) == LoopCount(p)
  {
  }

  lemma {:induction false} CouponPVDecreases(p: BondParams, y1: real, y2: real, k: nat)
    requires p.frequency > 0.0 && p.faceValue * p.couponRate >= 0.0
    requires y1 < y2 && 1.0 + y1 / p.frequency > 0.0
    ensures Discountable(WithYtm(p, y1)) && Discountable(WithYtm(p, y2))
    ensures CouponPV(WithYtm(p, y2), k) <= CouponPV(WithYtm(p, y1), k)
  {
    QuotientIncreasing(y1, y2, p.frequency);
    if k > 0 {
      CouponPVDecreases(p, y1, y2, k - 1);
      CouponTermDecreases(p, y1, y2, k);
      assert PeriodicCoupon(WithYtm(p, y1)) == PeriodicCoupon(p) == PeriodicCoupon(WithYtm(p, y2));
    }
  }

  /** The coupon of period k is worth less at the higher yield. */
  lemma CouponTermDecreases(p: BondParams, y1: real, y2: real, k: nat)
    requires p.frequency > 0.0 && p.faceValue * p.couponRate >= 0.0
    requires y1 < y2 && 1.0 + y1 / p.frequency > 0.0 && k >= 1
    ensures Discountable(WithYtm(p, y1)) && Discountable(WithYtm(p, y2))
    ensures PeriodicCoupon(p) / Pow(Growth(WithYtm(p, y2)), k)
      <= PeriodicCoupon(p) / Pow(Growth(WithYtm(p, y1)), k)
  {
    var c := PeriodicCoupon(p);
    assert c >= 0.0 by {
      assert c == (p.faceValue * p.couponRate) / p.frequency;
    }
    QuotientIncreasing(y1, y2, p.frequency);
    DiscountDecreases(c, Growth(WithYtm(p, y1)), Growth(WithYtm(p, y2)), k);
  }

  /** calculateBondPrice is strictly decreasing in the yield for a bond with positive face
      value, non-negative coupons and at least one period. */
  lemma PriceDecreasesInYield(p: BondParams, y1: real, y2: real)
    requires p.frequency > 0.0 && WholePeriods(p) && TotalPeriods(p) >= 1.0
    requires p.faceValue > 0.0 && p.couponRate >= 0.0
    requires y1 < y2 && 1.0 + y1 / p.frequency > 0.0
    ensures Discountable(WithYtm(p, y1)) && Discountable(WithYtm(p, y2))
    ensures BondPrice(WithYtm(p, y2)) < BondPrice(WithYtm(p, y1))
  {
    var p1, p2 := WithYtm(p, y1), WithYtm(p, y2);
    WithYtmPeriods(p, y1);
    WithYtmPeriods(p, y2);
    assert p.faceValue * p.couponRate >= 0.0;
    CouponPVDecreases(p, y1, y2, WholeCount(p));
    QuotientIncreasing(y1, y2, p.frequency);
    DiscountDecreases(p.faceValue, Growth(p1), Growth(p2), WholeCount(p));
  }

  /** Non-strict form, also covering equal yields. */
  lemma PriceNonIncreasingInYield(p: BondParams, y1: real, y2: real)
    requires p.frequency > 0.0 && WholePeriods(p) && TotalPeriods(p) >= 1.0
    requires p.faceValue > 0.0 && p.couponRate >= 0.0
    requires y1 <= y2 && 1.0 + y1 / p.frequency > 0.0
    ensures Discountable(WithYtm(p, y1)) && Discountable(WithYtm(p, y2))
    ensures BondPrice(WithYtm(p, y2)) <= BondPrice(WithYtm(p, y1))
  {
    WithYtmPeriods(p, y1);
    WithYtmPeriods(p, y2);
    if y1 < y2 {
      PriceDecreasesInYield(p, y1, y2);
    }
  }

  // ---------------------------------------------------------------------------------------
  // Bounds on Macaulay duration

  /** Conditions under which every cash flow is non-negative. */
  predicate NonNegativeFlows(p: BondParams)
  {
    Discountable(p) && Growth(p) > 0.0 && p.faceValue >= 0.0 && p.couponRate >= 0.0
  }

  lemma FlowNonNegative(p: BondParams, t: nat)
    requires NonNegativeFlows(p)
    ensures PeriodicCoupon(p) >= 0.0
    ensures Flow(p, t).presentValue >= 0.0
  {
    var fc := p.faceValue * p.couponRate;
    assert fc >= 0.0;
    assert PeriodicCoupon(p) == fc / p.frequency;
    var d := Pow(Growth(p), t);
    assert d > 0.0;
    assert Payment(p, t) >= 0.0;
    assert Flow(p, t).presentValue == Payment(p, t) / d;
  }

  /** (1/f) * SumPV(k) <= SumWeighted(k) <= (k/f) * SumPV(k): every flow of periods 1..k lies
      between 1/f and k/f years. */
  lemma {:induction false} WeightedBounds(p: BondParams, k: nat)
    requires NonNegativeFlows(p)
    ensures WeightBounds(SumPV(p, k), SumWeighted(p, k), p.frequency, k)
  {
    if k > 0 {
      WeightedBounds(p, k - 1);
      FlowNonNegative(p, k);
      var f := p.frequency;
      var pv := Flow(p, k).presentValue;
      assert SumPV(p, k) == SumPV(p, k - 1) + pv;
      assert SumWeighted(p, k) == SumWeighted(p, k - 1) + (k as real / f) * pv;
      BoundsStep(SumPV(p, k - 1), SumWeighted(p, k - 1), pv, f, k, SumPV(p, k), SumWeighted(p, k));
    }
  }

  /** The two bounds of WeightedBounds over plain values. */
  predicate WeightBounds(s: real, w: real, f: real, k: nat)
    requires f > 0.0
  {
    s >= 0.0 && s / f <= w && w <= (k as real / f) * s
  }

  /** Adding period k's flow, of present value pv >= 0 and time k/f, keeps the bounds. */
  lemma BoundsStep(s: real, w: real, pv: real, f: real, k: nat, s1: real, w1: real)
    requires f > 0.0 && k >= 1 && pv >= 0.0 && WeightBounds(s, w, f, k - 1)
    requires s1 == s + pv && w1 == w + (k as real / f) * pv
    ensures WeightBounds(s1, w1, f, k)
  {
    var time := k as real / f;
    var prev := (k - 1) as real / f;
    QuotientNonDecreasing(1.0, k as real, f);
    QuotientNonDecreasing((k - 1) as real, k as real, f);
    LowerStep(s, w, pv, f, time);
    UpperStep(s, w, pv, prev, time);
  }

  /** Adding a flow of present value pv at time >= 1/f keeps s/f <= w. */
  lemma LowerStep(s: real, w: real, pv: real, f: real, time: real)
    requires f > 0.0 && pv >= 0.0 && 1.0 / f <= time && s / f <= w
    ensures (s + pv) / f <= w + time * pv
  {
    assert (s + pv) / f == s / f + pv / f;
    assert pv / f == (1.0 / f) * pv;
    assert (1.0 / f) * pv <= time * pv;
  }

  /** Adding a flow at time >= prev keeps w <= time s. */
  lemma UpperStep(s: real, w: real, pv: real, prev: real, time: real)
    requires s >= 0.0 && prev <= time && w <= prev * s
    ensures w + time * pv <= time * (s + pv)
  {
    assert prev * s <= time * s;
  }

  lemma QuotientNonDecreasing(a: real, b: real, d: real)
    requires a <= b && d > 0.0
    ensures a / d <= b / d
  {
    if a < b {
      QuotientIncreasing(a, b, d);
    }
  }

  /** lo <= x/d <= hi follows from d*lo <= x <= d*hi for a positive d. */
  lemma QuotientBetween(lo: real, x: real, hi: real, d: real)
    requires d > 0.0 && lo * d <= x <= hi * d
    ensures lo <= x / d <= hi
  {
    assert x / d - lo == (x - lo * d) / d;
    assert hi - x / d == (hi * d - x) / d;
  }

  /** The arithmetic step of the bounds: from s/f <= w <= (n/f)*s and n <= years*f. */
  lemma RatioBounds(s: real, w: real, n: real, f: real, years: real)
    requires s > 0.0 && f > 0.0 && n <= years * f
    requires s / f <= w <= (n / f) * s
    ensures 1.0 / f <= w / s <= years
  {
    assert s / f == (1.0 / f) * s;
    assert n / f <= years by {
      QuotientNonDecreasing(n, years * f, f);
      assert (years * f) / f == years;
    }
    assert (n / f) * s <= years * s;
    QuotientBetween(1.0 / f, w, years, s);
  }

  /** With non-negative cash flows, Macaulay duration lies between one period (1/frequency)
      and the maturity. */
  lemma MacaulayBounds(p: BondParams)
    requires Priceable(p) && NonNegativeFlows(p)
    ensures 1.0 / p.frequency <= Results(p).macaulayDuration <= p.yearsToMaturity
  {
    var n := LoopCount(p);
    WeightedBounds(p, n);
    var s, w := SumPV(p, n), SumWeighted(p, n);
    assert Results(p).macaulayDuration == w / s;
    RatioBounds(s, w, n as real, p.frequency, p.yearsToMaturity);
  }

  /** Before the final period a zero-coupon bond pays nothing. */
  lemma {:induction false} ZeroCouponPrefix(p: BondParams, k: nat)
    requires Discountable(p) && p.couponRate == 0.0 && k as real < TotalPeriods(p)
    ensures SumPV(p, k) == 0.0 && SumWeighted(p, k) == 0.0
  {
    if k > 0 {
      ZeroCouponPrefix(p, k - 1);
      assert PeriodicCoupon(p) == 0.0;
      assert Payment(p, k) == 0.0;
    }
  }

  /** The accumulators of a zero-coupon bond hold only the final flow. */
  lemma ZeroCouponSums(p: BondParams)
    requires Discountable(p) && WholePeriods(p) && TotalPeriods(p) >= 1.0
    requires p.couponRate == 0.0
    ensures LoopCount(p) >= 1
    ensures SumPV(p, LoopCount(p)) == p.faceValue / Pow(Growth(p), LoopCount(p))
    ensures SumWeighted(p, LoopCount(p)) == p.yearsToMaturity * SumPV(p, LoopCount(p))
  {
    WholeLoopCount(p);
    var n := LoopCount(p);
    var f := p.frequency;
    ZeroCouponPrefix(p, n - 1);
    assert PeriodicCoupon(p) == 0.0;
    assert Payment(p, n) == p.faceValue;
    var time := n as real / f;
    assert time == p.yearsToMaturity by {
      assert n as real == p.yearsToMaturity * f;
    }
    assert Flow(p, n).weightedPV == time * Flow(p, n).presentValue;
  }

  /** A zero-coupon bond with a whole number of periods has Macaulay duration equal to its
      maturity, and modified duration maturity / (1 + ytm/frequency). */
  lemma ZeroCouponMacaulay(p: BondParams)
    requires Discountable(p) && WholePeriods(p) && TotalPeriods(p) >= 1.0
    requires p.couponRate == 0.0 && p.faceValue != 0.0
    ensures Priceable(p)
    ensures Results(p).macaulayDuration == p.yearsToMaturity
    ensures Results(p).modifiedDuration == p.yearsToMaturity / Growth(p)
  {
    ZeroCouponSums(p);
    var n := LoopCount(p);
    var v := SumPV(p, n);
    assert v != 0.0;
    assert (p.yearsToMaturity * v) / v == p.yearsToMaturity;
  }
}
