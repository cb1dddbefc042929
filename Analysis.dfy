/** The derived analyses of src/utils/duration.ts: price change for a yield shock, the
    price-yield curve, bond comparison, key-rate and effective duration, portfolio duration,
    zero-coupon duration, the duration gap and immunisation. */
module DurationAnalysis {
  import opened Duration
  import opened DurationProperties
  import opened PriceProperties

  // ---------------------------------------------------------------------------------------
  // calculatePriceChange

  datatype PriceChangeResult = PriceChangeResult(
    newPrice: real,
    percentChange: real,
    dollarChange: real,
    durationApprox: real,
    withConvexity: real)

  /** A change in basis points as a decimal yield change. */
  function YieldChange(bps: real): real
  {
    bps / 10000.0
  }

  /** The bond can be analysed and re-priced after a shock of `bps` basis points. */
  predicate Shockable(p: BondParams, bps: real)
  {
    Priceable(p) && WholePeriods(p) && Discountable(WithYtm(p, p.ytm + YieldChange(bps)))
  }

  function PriceChange(p: BondParams, bps: real): (r: PriceChangeResult)
    requires Shockable(p, bps)
    ensures r.dollarChange == r.newPrice - Results(p).price
    ensures r.percentChange * Results(p).price == r.dollarChange * 100.0
  {
    var results := Results(p);
    var dy := YieldChange(bps);
    var newPrice := BondPrice(WithYtm(p, p.ytm + dy));
    var durationApprox := results.price * (-results.modifiedDuration * dy);
    var withConvexity := results.price *
      (-results.modifiedDuration * dy + 0.5 * results.convexity * Pow(dy, 2));
    var dollarChange := newPrice - results.price;
    PriceChangeResult(newPrice, dollarChange / results.price * 100.0, dollarChange,
                      durationApprox, withConvexity)
  }

  /** A zero-basis-point shock changes nothing: the re-priced bond is the bond itself and every
      change and approximation is zero. */
  lemma PriceChangeAtZero(p: BondParams)
    requires Priceable(p) && WholePeriods(p) && TotalPeriods(p) >= 1.0
    ensures Shockable(p, 0.0)
    ensures var r := PriceChange(p, 0.0);
      && r.newPrice == Results(p).price
      && r.dollarChange == 0.0 && r.percentChange == 0.0
      && r.durationApprox == 0.0 && r.withConvexity == 0.0
  {
    assert WithYtm(p, p.ytm + YieldChange(0.0)) == p;
    PricesAgree(p);
    assert Pow(0.0, 2) == 0.0;
  }

  /** A rise in yield loses money and a fall gains money, for a bond with positive face value,
      non-negative coupons and at least one period. */
  lemma PriceChangeSign(p: BondParams, bps: real)
    requires Shockable(p, bps) && TotalPeriods(p) >= 1.0
    requires p.faceValue > 0.0 && p.couponRate >= 0.0 && Growth(p) > 0.0
    requires Growth(WithYtm(p, p.ytm + YieldChange(bps))) > 0.0
    ensures bps > 0.0 ==> PriceChange(p, bps).dollarChange < 0.0
    ensures bps < 0.0 ==> PriceChange(p, bps).dollarChange > 0.0
  {
    PricesAgree(p);
    var y := p.ytm + YieldChange(bps);
    assert WithYtm(p, p.ytm) == p;
    if bps > 0.0 {
      PriceDecreasesInYield(p, p.ytm, y);
    } else if bps < 0.0 {
      assert 1.0 + y / p.frequency == Growth(WithYtm(p, y));
      PriceDecreasesInYield(p, y, p.ytm);
    }
  }

  // ---------------------------------------------------------------------------------------
  // generatePriceYieldCurve

  /** One point of the price-yield chart; `yieldPct` is in percent. */
  datatype PriceYieldPoint = PriceYieldPoint(yieldPct: real, price: real, durationApproxPrice: real)

  const Steps: nat := 50

  /** The default `yieldRange` of `generatePriceYieldCurve`: 4 percentage points either side
      of the yield, the range the price-yield chart uses. */
  const DefaultYieldRange: real := 0.04

  /** With the default range, the chart of every priceable bond with a whole number of periods
      and a non-negative yield is defined. */
  lemma DefaultCurveDefined(p: BondParams)
    requires Priceable(p) && WholePeriods(p) && p.ytm >= 0.0
    ensures CurveDefined(p, DefaultYieldRange)
  {
    assert MaxYield(p, DefaultYieldRange) / p.frequency > 0.0;
  }

  function MinYield(p: BondParams, yieldRange: real): real
  {
    if 0.001 >= p.ytm - yieldRange then 0.001 else p.ytm - yieldRange
  }

  function MaxYield(p: BondParams, yieldRange: real): real
  {
    p.ytm + yieldRange
  }

  function StepSize(p: BondParams, yieldRange: real): real
  {
    (MaxYield(p, yieldRange) - MinYield(p, yieldRange)) / Steps as real
  }

  /** The yield of sample `i`. */
  function CurveYield(p: BondParams, yieldRange: real, i: nat): real
  {
    MinYield(p, yieldRange) + i as real * StepSize(p, yieldRange)
  }

  /** Every sampled yield can be discounted: the lowest yield is positive and the highest one
      keeps `1 + y/frequency` positive. */
  predicate CurveDefined(p: BondParams, yieldRange: real)
  {
    Priceable(p) && WholePeriods(p) && 1.0 + MaxYield(p, yieldRange) / p.frequency > 0.0
  }

  /** Each sampled yield lies between the minimum and the maximum yield. */
  lemma CurveYieldBetween(p: BondParams, yieldRange: real, i: nat)
    requires i <= Steps
    ensures var y := CurveYield(p, yieldRange, i);
      var lo, hi := MinYield(p, yieldRange), MaxYield(p, yieldRange);
      (lo <= hi ==> lo <= y <= hi) && (hi < lo ==> hi <= y <= lo)
  {
    var lo, hi := MinYield(p, yieldRange), MaxYield(p, yieldRange);
    var x := i as real;
    assert i as real * StepSize(p, yieldRange) == (x / 50.0) * (hi - lo);
    assert 0.0 <= x / 50.0 <= 1.0;
    var u := x / 50.0;
    assert lo + u * (hi - lo) == (1.0 - u) * lo + u * hi;
    if lo <= hi {
      assert u * lo <= u * hi;
      assert (1.0 - u) * lo <= (1.0 - u) * hi;
    } else {
      assert u * hi <= u * lo;
      assert (1.0 - u) * hi <= (1.0 - u) * lo;
    }
  }

  lemma CurveYieldDiscountable(p: BondParams, yieldRange: real, i: nat)
    requires CurveDefined(p, yieldRange) && i <= Steps
    ensures Growth(WithYtm(p, CurveYield(p, yieldRange, i))) > 0.0
    ensures Discountable(WithYtm(p, CurveYield(p, yieldRange, i)))
    ensures WholePeriods(WithYtm(p, CurveYield(p, yieldRange, i)))
  {
    CurveYieldBetween(p, yieldRange, i);
    var y := CurveYield(p, yieldRange, i);
    var lo, hi := MinYield(p, yieldRange), MaxYield(p, yieldRange);
    var f := p.frequency;
    if lo <= hi {
      assert y > 0.0;
      assert y / f > 0.0;
    } else {
      QuotientNonDecreasing(hi, y, f);
    }
  }

  /** A chart point at yield `y`: the exact price and the first-order estimate from the
      duration at the bond's own yield `ytm`. */
  function MakePoint(y: real, price: real, results: DurationResults, ytm: real): PriceYieldPoint
  {
    PriceYieldPoint(y * 100.0, price, results.price * (1.0 - results.modifiedDuration * (y - ytm)))
  }

  /** Sample `i` of the chart. */
  function CurvePointAt(p: BondParams, yieldRange: real, i: nat): PriceYieldPoint
    requires CurveDefined(p, yieldRange) && i <= Steps
  {
    CurveYieldDiscountable(p, yieldRange, i);
    var y := CurveYield(p, yieldRange, i);
    MakePoint(y, BondPrice(WithYtm(p, y)), Results(p), p.ytm)
  }

  /** generatePriceYieldCurve: 51 samples from the minimum to the maximum yield. */
  method GeneratePriceYieldCurve(p: BondParams, yieldRange: real) returns (data: seq<PriceYieldPoint>)
    requires CurveDefined(p, yieldRange)
    ensures |data| == Steps + 1
    ensures forall i :: 0 <= i <= Steps ==> data[i] == CurvePointAt(p, yieldRange, i)
  {
    var results := CalculateDuration(p);
    data := [];
    var i: nat := 0;
    while i <= Steps
      invariant i <= Steps + 1
      invariant |data| == i
      invariant forall j :: 0 <= j < i ==> data[j] == CurvePointAt(p, yieldRange, j)
    {
      var newYtm := CurveYield(p, yieldRange, i);
      CurveYieldDiscountable(p, yieldRange, i);
      var newPrice := CalculateBondPrice(WithYtm(p, newYtm));
      var point := MakePoint(newYtm, newPrice, results, p.ytm);
      assert point == CurvePointAt(p, yieldRange, i);
      data := data + [point];
      i := i + 1;
    }
  }

  /** The chart starts at the minimum yield, ends at the maximum yield and its yields are
      evenly spaced. */
  lemma CurveYieldsEvenlySpaced(p: BondParams, yieldRange: real)
    requires CurveDefined(p, yieldRange)
    ensures CurvePointAt(p, yieldRange, 0).yieldPct == MinYield(p, yieldRange) * 100.0
    ensures CurvePointAt(p, yieldRange, Steps).yieldPct == MaxYield(p, yieldRange) * 100.0
    ensures forall i :: 0 <= i < Steps ==>
      CurvePointAt(p, yieldRange, i + 1).yieldPct - CurvePointAt(p, yieldRange, i).yieldPct
        == StepSize(p, yieldRange) * 100.0
  {
    CurveEnds(p, yieldRange);
    forall i | 0 <= i < Steps
      ensures CurvePointAt(p, yieldRange, i + 1).yieldPct - CurvePointAt(p, yieldRange, i).yieldPct
        == StepSize(p, yieldRange) * 100.0
    {
      CurveStep(p, yieldRange, i);
    }
  }

  /** The first sampled yield is the minimum and the last one the maximum. */
  lemma CurveEnds(p: BondParams, yieldRange: real)
    ensures CurveYield(p, yieldRange, 0) == MinYield(p, yieldRange)
    ensures CurveYield(p, yieldRange, Steps) == MaxYield(p, yieldRange)
  {
    var s := StepSize(p, yieldRange);
    assert 50.0 * s == MaxYield(p, yieldRange) - MinYield(p, yieldRange);
  }

  /** Consecutive sampled yields are one step apart. */
  lemma CurveStep(p: BondParams, yieldRange: real, i: nat)
    ensures CurveYield(p, yieldRange, i + 1) == CurveYield(p, yieldRange, i) + StepSize(p, yieldRange)
  {
    var s := StepSize(p, yieldRange);
    assert (i + 1) as real * s == i as real * s + s;
  }

  /** When the yields ascend, the chart's exact prices never rise from one sample to the next. */
  lemma CurveMonotone(p: BondParams, yieldRange: real, i: nat)
    requires CurveDefined(p, yieldRange) && i < Steps
    requires TotalPeriods(p) >= 1.0 && p.faceValue > 0.0 && p.couponRate >= 0.0
    requires MinYield(p, yieldRange) <= MaxYield(p, yieldRange)
    ensures CurvePointAt(p, yieldRange, i + 1).price <= CurvePointAt(p, yieldRange, i).price
  {
    var y0, y1 := CurveYield(p, yieldRange, i), CurveYield(p, yieldRange, i + 1);
    CurveYieldDiscountable(p, yieldRange, i);
    CurveYieldDiscountable(p, yieldRange, i + 1);
    CurveStep(p, yieldRange, i);
    PriceNonIncreasingInYield(p, y0, y1);
  }

  // ---------------------------------------------------------------------------------------
  // compareBonds

  predicate AllPriceable(bonds: seq<BondParams>)
  {
    forall i :: 0 <= i < |bonds| ==> Priceable(bonds[i])
  }

  /** compareBonds: the duration results of each bond, in the order given. */
  function CompareBonds(bonds: seq<BondParams>): (rs: seq<DurationResults>)
    requires AllPriceable(bonds)
    ensures |rs| == |bonds|
    ensures forall i :: 0 <= i < |bonds| ==> rs[i] == Results(bonds[i])
  {
    if bonds == [] then [] else [Results(bonds[0])] + CompareBonds(bonds[1..])
  }

  // ---------------------------------------------------------------------------------------
  // calculateKeyRateDuration and calculateEffectiveDuration

  /** The bond and its two shifted copies can all be priced, and the base price is non-zero. */
  predicate Bumpable(p: BondParams, bump: real)
  {
    && Discountable(p) && WholePeriods(p)
    && Discountable(WithYtm(p, p.ytm + bump)) && Discountable(WithYtm(p, p.ytm - bump))
    && BondPrice(p) != 0.0
  }

  /** calculateEffectiveDuration: the central difference (down - up) / (2 * bump * base). */
  function EffectiveDuration(p: BondParams, bump: real): real
    requires Bumpable(p, bump) && bump != 0.0
  {
    var priceUp := BondPrice(WithYtm(p, p.ytm + bump));
    var priceDown := BondPrice(WithYtm(p, p.ytm - bump));
    (priceDown - priceUp) / (2.0 * bump * BondPrice(p))
  }

  /** The one-basis-point bump `calculateKeyRateDuration` fixes. */
  const KeyRateBump: real := 0.0001

  /** The default `bumpSize` of `calculateEffectiveDuration`: 100 basis points. */
  const DefaultBump: real := 0.01

  /** With the default bump, every bond with a whole number of periods, a non-negative yield,
      at least one payment a year and a non-zero price has an effective duration. */
  lemma DefaultBumpable(p: BondParams)
    requires WholePeriods(p) && p.frequency >= 1.0 && p.ytm >= 0.0 && BondPrice(p) != 0.0
    ensures Bumpable(p, DefaultBump) && DefaultBump != 0.0
  {
    assert (p.ytm - DefaultBump) / p.frequency >= -DefaultBump / p.frequency >= -DefaultBump;
  }

  /** calculateKeyRateDuration: the key rate is ignored and every yield moves by one basis
      point. */
  function KeyRateDuration(p: BondParams, keyRate: real): real
    requires Bumpable(p, KeyRateBump)
  {
    var priceUp := BondPrice(WithYtm(p, p.ytm + KeyRateBump));
    var priceDown := BondPrice(WithYtm(p, p.ytm - KeyRateBump));
    -(priceUp - priceDown) / (2.0 * KeyRateBump * BondPrice(p))
  }

  /** Key-rate duration does not depend on the key rate and equals effective duration with a
      one-basis-point bump. */
  lemma KeyRateIsEffective(p: BondParams, keyRate: real)
    requires Bumpable(p, KeyRateBump)
    ensures KeyRateDuration(p, keyRate) == EffectiveDuration(p, KeyRateBump)
  {
    var up := BondPrice(WithYtm(p, p.ytm + KeyRateBump));
    var down := BondPrice(WithYtm(p, p.ytm - KeyRateBump));
    assert -(up - down) == down - up;
  }

  /** A bond with positive face value, non-negative coupons and positive discount bases prices
      above zero. */
  lemma BondPricePositive(p: BondParams)
    requires Discountable(p) && WholePeriods(p) && Growth(p) > 0.0
    requires p.faceValue > 0.0 && p.couponRate >= 0.0
    ensures BondPrice(p) > 0.0
  {
    var n := WholeCount(p);
    CouponPVNonNegative(p, n);
    assert p.faceValue / Pow(Growth(p), n) > 0.0;
  }

  lemma {:induction false} CouponPVNonNegative(p: BondParams, k: nat)
    requires NonNegativeFlows(p)
    ensures CouponPV(p, k) >= 0.0
  {
    if k > 0 {
      CouponPVNonNegative(p, k - 1);
      FlowNonNegative(p, k);
      assert PeriodicCoupon(p) / Pow(Growth(p), k) >= 0.0;
    }
  }

  /** For an ordinary bond effective duration is positive: the price falls as the yield rises. */
  lemma EffectiveDurationPositive(p: BondParams, bump: real)
    requires Bumpable(p, bump) && bump > 0.0 && TotalPeriods(p) >= 1.0
    requires p.faceValue > 0.0 && p.couponRate >= 0.0
    requires Growth(WithYtm(p, p.ytm - bump)) > 0.0
    ensures EffectiveDuration(p, bump) > 0.0
  {
    var lo := p.ytm - bump;
    assert 1.0 + lo / p.frequency == Growth(WithYtm(p, lo));
    PriceDecreasesInYield(p, lo, p.ytm + bump);
    PriceDecreasesInYield(p, lo, p.ytm);
    assert WithYtm(p, p.ytm) == p;
    BondPricePositive(p);
    EffectiveDurationSign(p, bump);
  }

  /** The central difference is positive when the price at the lower yield exceeds the price
      at the higher one. */
  lemma EffectiveDurationSign(p: BondParams, bump: real)
    requires Bumpable(p, bump) && bump > 0.0 && BondPrice(p) > 0.0
    requires BondPrice(WithYtm(p, p.ytm + bump)) < BondPrice(WithYtm(p, p.ytm - bump))
    ensures EffectiveDuration(p, bump) > 0.0
  {
    var up, down, base := BondPrice(WithYtm(p, p.ytm + bump)), BondPrice(WithYtm(p, p.ytm - bump)), BondPrice(p);
    var den := 2.0 * bump * base;
    assert den > 0.0;
    assert (down - up) / den > 0.0;
  }

  // ---------------------------------------------------------------------------------------
  // calculatePortfolioDuration

  /** One position of a portfolio. */
  datatype Holding = Holding(params: BondParams, weight: real)

  predicate AllHoldingsPriceable(bonds: seq<Holding>)
  {
    forall i :: 0 <= i < |bonds| ==> Priceable(bonds[i].params)
  }

  function Weights(bonds: seq<Holding>): (ws: seq<real>)
    ensures |ws| == |bonds| && forall i :: 0 <= i < |bonds| ==> ws[i] == bonds[i].weight
  {
    seq(|bonds|, i requires 0 <= i < |bonds| => bonds[i].weight)
  }

  /** The modified duration `calculateDuration` gives each holding. */
  function Durations(bonds: seq<Holding>): (ds: seq<real>)
    requires AllHoldingsPriceable(bonds)
    ensures |ds| == |bonds|
    ensures forall i :: 0 <= i < |bonds| ==> ds[i] == Results(bonds[i].params).modifiedDuration
  {
    seq(|bonds|, i requires 0 <= i < |bonds| => Results(bonds[i].params).modifiedDuration)
  }

  /** sum of ws[i] * ds[i], accumulated from the front. */
  function Dot(ws: seq<real>, ds: seq<real>): real
    requires |ws| == |ds|
  {
    if ws == [] then 0.0 else Dot(ws[..|ws| - 1], ds[..|ds| - 1]) + ws[|ws| - 1] * ds[|ds| - 1]
  }

  function Sum(xs: seq<real>): real
  {
    if xs == [] then 0.0 else Sum(xs[..|xs| - 1]) + xs[|xs| - 1]
  }

  /** The portfolio's modified duration: sum of weight * modifiedDuration over the holdings. */
  function WeightedDuration(bonds: seq<Holding>): real
    requires AllHoldingsPriceable(bonds)
  {
    Dot(Weights(bonds), Durations(bonds))
  }

  /** calculatePortfolioDuration: accumulates weight * modifiedDuration over the holdings. */
  method CalculatePortfolioDuration(bonds: seq<Holding>) returns (portfolioDuration: real)
    requires AllHoldingsPriceable(bonds)
    ensures portfolioDuration == WeightedDuration(bonds)
  {
    ghost var ws, ds := Weights(bonds), Durations(bonds);
    portfolioDuration := 0.0;
    var i := 0;
    while i < |bonds|
      invariant 0 <= i <= |bonds|
      invariant portfolioDuration == Dot(ws[..i], ds[..i])
    {
      var results := CalculateDuration(bonds[i].params);
      var weight, duration := bonds[i].weight, results.modifiedDuration;
      DotStep(ws, ds, i, portfolioDuration, weight, duration);
      portfolioDuration := portfolioDuration + weight * duration;
      i := i + 1;
    }
    assert ws[..i] == ws && ds[..i] == ds;
  }

  /** Adding entry i to Dot over the first i entries gives Dot over the first i + 1. */
  lemma DotStep(ws: seq<real>, ds: seq<real>, i: nat, acc: real, w: real, d: real)
    requires |ws| == |ds| && i < |ws| && w == ws[i] && d == ds[i]
    requires acc == Dot(ws[..i], ds[..i])
    ensures acc + w * d == Dot(ws[..i + 1], ds[..i + 1])
  {
    assert ws[..i + 1][..i] == ws[..i] && ds[..i + 1][..i] == ds[..i];
  }

  /** lo * s <= x <= hi * s: x lies between lo and hi times s. */
  predicate Between(lo: real, hi: real, s: real, x: real)
  {
    lo * s <= x <= hi * s
  }

  /** With non-negative weights and every duration in [lo, hi], the weighted sum lies between
      lo and hi times the total weight. */
  lemma {:induction false} DotBounds(ws: seq<real>, ds: seq<real>, lo: real, hi: real)
    requires |ws| == |ds|
    requires forall i :: 0 <= i < |ws| ==> ws[i] >= 0.0
    requires forall i :: 0 <= i < |ds| ==> lo <= ds[i] <= hi
    ensures Between(lo, hi, Sum(ws), Dot(ws, ds))
  {
    if ws != [] {
      var n := |ws| - 1;
      var ws', ds' := ws[..n], ds[..n];
      DotBounds(ws', ds', lo, hi);
      var s, x, w, d := Sum(ws'), Dot(ws', ds'), ws[n], ds[n];
      var s1, x1 := Sum(ws), Dot(ws, ds);
      AddPosition(lo, hi, s, x, w, d, s1, x1);
    }
  }

  /** Adding a position of weight w >= 0 and duration d in [lo, hi] keeps the bounds. */
  lemma AddPosition(lo: real, hi: real, s: real, x: real, w: real, d: real, s1: real, x1: real)
    requires Between(lo, hi, s, x) && w >= 0.0 && lo <= d <= hi
    requires s1 == s + w && x1 == x + w * d
    ensures Between(lo, hi, s1, x1)
  {
    assert w * lo <= w * d <= w * hi;
  }

  /** With non-negative weights, the portfolio duration lies between the total weight times the
      smallest and times the largest modified duration of its holdings; with weights summing
      to one it is a weighted average of them. */
  lemma PortfolioDurationBounds(bonds: seq<Holding>, lo: real, hi: real)
    requires AllHoldingsPriceable(bonds)
    requires forall i :: 0 <= i < |bonds| ==> bonds[i].weight >= 0.0
    requires forall i :: 0 <= i < |bonds| ==> lo <= Results(bonds[i].params).modifiedDuration <= hi
    ensures Between(lo, hi, Sum(Weights(bonds)), WeightedDuration(bonds))
  {
    DotBounds(Weights(bonds), Durations(bonds), lo, hi);
  }

  /** The weighted sum over a concatenation is the sum of the two weighted sums. */
  lemma {:induction false} DotAppend(ws1: seq<real>, ds1: seq<real>, ws2: seq<real>, ds2: seq<real>)
    requires |ws1| == |ds1| && |ws2| == |ds2|
    ensures Dot(ws1 + ws2, ds1 + ds2) == Dot(ws1, ds1) + Dot(ws2, ds2)
  {
    if ws2 == [] {
      assert ws1 + ws2 == ws1 && ds1 + ds2 == ds1;
    } else {
      var n := |ws2| - 1;
      assert (ws1 + ws2)[..|ws1| + n] == ws1 + ws2[..n];
      assert (ds1 + ds2)[..|ds1| + n] == ds1 + ds2[..n];
      DotAppend(ws1, ds1, ws2[..n], ds2[..n]);
    }
  }

  /** The duration of a combined portfolio is the sum of the two portfolios' durations. */
  lemma WeightedDurationAppend(a: seq<Holding>, b: seq<Holding>)
    requires AllHoldingsPriceable(a) && AllHoldingsPriceable(b)
    ensures AllHoldingsPriceable(a + b)
    ensures WeightedDuration(a + b) == WeightedDuration(a) + WeightedDuration(b)
  {
    assert Weights(a + b) == Weights(a) + Weights(b);
    assert Durations(a + b) == Durations(a) + Durations(b);
    DotAppend(Weights(a), Durations(a), Weights(b), Durations(b));
  }

  // ---------------------------------------------------------------------------------------
  // calculateZeroCouponDuration

  datatype ZeroCouponResult = ZeroCouponResult(macaulay: real, modified: real, ytm: real)

  /** calculateZeroCouponDuration: both durations are the maturity; the yield is a placeholder 0. */
  function ZeroCouponDuration(yearsToMaturity: real): ZeroCouponResult
  {
    ZeroCouponResult(yearsToMaturity, yearsToMaturity, 0.0)
  }

  /** For a zero-coupon bond the engine's Macaulay duration equals the shortcut's, while the
      engine's modified duration equals the shortcut's only at a zero yield. */
  lemma ZeroCouponAgreement(p: BondParams)
    requires Discountable(p) && WholePeriods(p) && TotalPeriods(p) >= 1.0
    requires p.couponRate == 0.0 && p.faceValue != 0.0
    ensures Priceable(p)
    ensures Results(p).macaulayDuration == ZeroCouponDuration(p.yearsToMaturity).macaulay
    ensures Results(p).modifiedDuration == ZeroCouponDuration(p.yearsToMaturity).modified
      <==> p.ytm == 0.0
  {
    ZeroCouponMacaulay(p);
    var years, g := p.yearsToMaturity, Growth(p);
    assert years > 0.0 by {
      assert years * p.frequency >= 1.0;
    }
    if years / g == years {
      assert years == years * g;
      assert g == 1.0;
    }
  }

  // ---------------------------------------------------------------------------------------
  // calculateDurationGap and calculateImmunizationDuration

  /** calculateDurationGap: assets duration minus leverage times liabilities duration. */
  function DurationGap(assetsDuration: real, liabilitiesDuration: real,
                       assetsValue: real, liabilitiesValue: real): real
    requires assetsValue != 0.0
  {
    var leverageRatio := liabilitiesValue / assetsValue;
    assetsDuration - leverageRatio * liabilitiesDuration
  }

  /** For positive assets the gap has the sign of assetsDuration * assetsValue -
      liabilitiesValue * liabilitiesDuration: it is zero exactly when the dollar durations of
      the two sides match. */
  lemma DurationGapSign(aDur: real, lDur: real, aVal: real, lVal: real)
    requires aVal > 0.0
    ensures DurationGap(aDur, lDur, aVal, lVal) * aVal == aDur * aVal - lVal * lDur
    ensures DurationGap(aDur, lDur, aVal, lVal) == 0.0 <==> aDur * aVal == lVal * lDur
    ensures DurationGap(aDur, lDur, aVal, lVal) > 0.0 <==> aDur * aVal > lVal * lDur
  {
    var gap := DurationGap(aDur, lDur, aVal, lVal);
    var r := lVal / aVal;
    assert r * aVal == lVal;
    assert gap * aVal == aDur * aVal - r * lDur * aVal;
    assert r * lDur * aVal == lVal * lDur;
    if gap > 0.0 {
      assert gap * aVal > 0.0;
    }
    if gap * aVal > 0.0 {
      assert gap > 0.0;
    }
  }

  datatype Immunization = Immunization(isImmunized: bool, durationGap: real)

  function Abs(x: real): real
  {
    if x < 0.0 then -x else x
  }

  /** calculateImmunizationDuration: the gap between current duration and horizon, immunised
      when it is under 0.1 years either way. */
  function ImmunizationDuration(targetHorizon: real, currentDuration: real): Immunization
  {
    var gap := currentDuration - targetHorizon;
    Immunization(Abs(gap) < 0.1, gap)
  }

  lemma ImmunizationWindow(targetHorizon: real, currentDuration: real)
    ensures var r := ImmunizationDuration(targetHorizon, currentDuration);
      && targetHorizon + r.durationGap == currentDuration
      && (r.isImmunized <==> targetHorizon - 0.1 < currentDuration < targetHorizon + 0.1)
  {
  }
}
