/** The table of historical Treasury curves and the closed-form curve metrics of
    src/utils/historical-data.ts. Rates are percentages, as in the table. */
module HistoricalData {
  import opened Duration
  import opened DurationProperties
  import opened ParBond
  import opened DurationAnalysis
  import opened Wrappers

  /** One point of a curve: a maturity label, its length in years and its yield in percent. */
  datatype CurvePoint = CurvePoint(maturity: string, years: real, rate: real)

  /** One dated snapshot of the curve with the market event it illustrates. */
  datatype HistoricalYieldCurve = HistoricalYieldCurve(
    date: string,
    description: string,
    event: string,
    curves: seq<CurvePoint>)

  // ---------------------------------------------------------------------------------------
  // The snapshot table

  /** A snapshot lists the six standard maturities in order, with strictly increasing
      lengths and non-negative rates. */
  predicate WellShaped(c: HistoricalYieldCurve)
  {
    var cs := c.curves;
    && |cs| == 6
    && cs[0].maturity == "3M" && cs[1].maturity == "1Y" && cs[2].maturity == "2Y"
    && cs[3].maturity == "5Y" && cs[4].maturity == "10Y" && cs[5].maturity == "30Y"
    && cs[0].years < cs[1].years < cs[2].years < cs[3].years < cs[4].years < cs[5].years
    && cs[0].rate >= 0.0 && cs[1].rate >= 0.0 && cs[2].rate >= 0.0
    && cs[3].rate >= 0.0 && cs[4].rate >= 0.0 && cs[5].rate >= 0.0
  }

  /** `historicalYieldCurves`: sixteen snapshots from 2000 to 2024, oldest first. */
  const Table: seq<HistoricalYieldCurve> := [
    HistoricalYieldCurve(
      "2000-01-03", "Dot-Com Peak",
      "Tech bubble peak, Y2K fears subsided, Fed tightening cycle",
      [ CurvePoint("3M", 0.25, 5.46),
        CurvePoint("1Y", 1.0, 6.12),
        CurvePoint("2Y", 2.0, 6.54),
        CurvePoint("5Y", 5.0, 6.58),
        CurvePoint("10Y", 10.0, 6.58),
        CurvePoint("30Y", 30.0, 6.48) ]),
    HistoricalYieldCurve(
      "2001-09-17", "Post-9/11 Crisis",
      "First trading day after September 11 attacks, Fed emergency cuts",
      [ CurvePoint("3M", 0.25, 2.90),
        CurvePoint("1Y", 1.0, 2.89),
        CurvePoint("2Y", 2.0, 3.20),
        CurvePoint("5Y", 5.0, 4.18),
        CurvePoint("10Y", 10.0, 4.83),
        CurvePoint("30Y", 30.0, 5.47) ]),
    HistoricalYieldCurve(
      "2003-06-25", "Fed Funds 1% Bottom",
      "Fed cuts to 1%, lowest in 45 years, deflation fears",
      [ CurvePoint("3M", 0.25, 0.92),
        CurvePoint("1Y", 1.0, 1.08),
        CurvePoint("2Y", 2.0, 1.39),
        CurvePoint("5Y", 5.0, 2.84),
        CurvePoint("10Y", 10.0, 3.58),
        CurvePoint("30Y", 30.0, 4.56) ]),
    HistoricalYieldCurve(
      "2006-06-29", "Fed Ends Tightening",
      "Fed Funds peak at 5.25%, 17 consecutive hikes complete",
      [ CurvePoint("3M", 0.25, 5.11),
        CurvePoint("1Y", 1.0, 5.22),
        CurvePoint("2Y", 2.0, 5.18),
        CurvePoint("5Y", 5.0, 5.15),
        CurvePoint("10Y", 10.0, 5.24),
        CurvePoint("30Y", 30.0, 5.20) ]),
    HistoricalYieldCurve(
      "2007-06-01", "Pre-Financial Crisis",
      "Housing market peak, before subprime mortgage crisis",
      [ CurvePoint("3M", 0.25, 4.82),
        CurvePoint("1Y", 1.0, 4.94),
        CurvePoint("2Y", 2.0, 4.87),
        CurvePoint("5Y", 5.0, 4.86),
        CurvePoint("10Y", 10.0, 5.03),
        CurvePoint("30Y", 30.0, 5.07) ]),
    HistoricalYieldCurve(
      "2008-09-15", "Lehman Brothers Collapse",
      "Peak of financial crisis, flight to safety",
      [ CurvePoint("3M", 0.25, 1.62),
        CurvePoint("1Y", 1.0, 1.96),
        CurvePoint("2Y", 2.0, 2.15),
        CurvePoint("5Y", 5.0, 3.05),
        CurvePoint("10Y", 10.0, 3.72),
        CurvePoint("30Y", 30.0, 4.21) ]),
    HistoricalYieldCurve(
      "2009-03-01", "Crisis Bottom",
      "Fed cuts rates to near zero, QE begins",
      [ CurvePoint("3M", 0.25, 0.25),
        CurvePoint("1Y", 1.0, 0.58),
        CurvePoint("2Y", 2.0, 0.98),
        CurvePoint("5Y", 5.0, 1.90),
        CurvePoint("10Y", 10.0, 2.87),
        CurvePoint("30Y", 30.0, 3.62) ]),
    HistoricalYieldCurve(
      "2013-05-22", "Taper Tantrum",
      "Fed signals QE tapering, rates spike",
      [ CurvePoint("3M", 0.25, 0.03),
        CurvePoint("1Y", 1.0, 0.13),
        CurvePoint("2Y", 2.0, 0.29),
        CurvePoint("5Y", 5.0, 1.13),
        CurvePoint("10Y", 10.0, 2.01),
        CurvePoint("30Y", 30.0, 3.17) ]),
    HistoricalYieldCurve(
      "2016-07-08", "Post-Brexit Low",
      "Global uncertainty pushes rates to record lows",
      [ CurvePoint("3M", 0.25, 0.29),
        CurvePoint("1Y", 1.0, 0.49),
        CurvePoint("2Y", 2.0, 0.59),
        CurvePoint("5Y", 5.0, 1.00),
        CurvePoint("10Y", 10.0, 1.37),
        CurvePoint("30Y", 30.0, 2.13) ]),
    HistoricalYieldCurve(
      "2019-08-14", "Yield Curve Inversion",
      "2Y-10Y spread inverts, recession signal",
      [ CurvePoint("3M", 0.25, 2.09),
        CurvePoint("1Y", 1.0, 1.78),
        CurvePoint("2Y", 2.0, 1.58),
        CurvePoint("5Y", 5.0, 1.47),
        CurvePoint("10Y", 10.0, 1.56),
        CurvePoint("30Y", 30.0, 2.01) ]),
    HistoricalYieldCurve(
      "2020-03-09", "COVID-19 Crisis",
      "Pandemic panic, extreme flight to safety",
      [ CurvePoint("3M", 0.25, 0.50),
        CurvePoint("1Y", 1.0, 0.49),
        CurvePoint("2Y", 2.0, 0.50),
        CurvePoint("5Y", 5.0, 0.61),
        CurvePoint("10Y", 10.0, 0.54),
        CurvePoint("30Y", 30.0, 1.03) ]),
    HistoricalYieldCurve(
      "2021-03-31", "Recovery Steepening",
      "Vaccine rollout, inflation expectations rise",
      [ CurvePoint("3M", 0.25, 0.01),
        CurvePoint("1Y", 1.0, 0.07),
        CurvePoint("2Y", 2.0, 0.16),
        CurvePoint("5Y", 5.0, 0.94),
        CurvePoint("10Y", 10.0, 1.74),
        CurvePoint("30Y", 30.0, 2.41) ]),
    HistoricalYieldCurve(
      "2022-06-15", "Fed Hiking Cycle",
      "75bp rate hike, aggressive inflation fight",
      [ CurvePoint("3M", 0.25, 1.58),
        CurvePoint("1Y", 1.0, 2.79),
        CurvePoint("2Y", 2.0, 3.37),
        CurvePoint("5Y", 5.0, 3.48),
        CurvePoint("10Y", 10.0, 3.47),
        CurvePoint("30Y", 30.0, 3.44) ]),
    HistoricalYieldCurve(
      "2023-03-13", "Bank Crisis",
      "SVB collapse, flight to safety returns",
      [ CurvePoint("3M", 0.25, 4.81),
        CurvePoint("1Y", 1.0, 4.64),
        CurvePoint("2Y", 2.0, 4.01),
        CurvePoint("5Y", 5.0, 3.57),
        CurvePoint("10Y", 10.0, 3.55),
        CurvePoint("30Y", 30.0, 3.72) ]),
    HistoricalYieldCurve(
      "2023-10-19", "Higher for Longer",
      "10Y hits 5%, market pricing extended high rates",
      [ CurvePoint("3M", 0.25, 5.46),
        CurvePoint("1Y", 1.0, 5.46),
        CurvePoint("2Y", 2.0, 5.19),
        CurvePoint("5Y", 5.0, 4.89),
        CurvePoint("10Y", 10.0, 4.98),
        CurvePoint("30Y", 30.0, 5.09) ]),
    HistoricalYieldCurve(
      "2024-09-18", "Fed Pivot",
      "First rate cut after hiking cycle",
      [ CurvePoint("3M", 0.25, 4.85),
        CurvePoint("1Y", 1.0, 4.18),
        CurvePoint("2Y", 2.0, 3.62),
        CurvePoint("5Y", 5.0, 3.50),
        CurvePoint("10Y", 10.0, 3.71),
        CurvePoint("30Y", 30.0, 4.03) ])
  ]

  /** Every snapshot of the table is well shaped. */
  lemma TableShape()
    ensures |Table| == 16
    ensures forall k :: 0 <= k < |Table| ==> WellShaped(Table[k])
  {
  }

  // ---------------------------------------------------------------------------------------
  // Looking up a maturity

  /** The index of the first point with the given maturity, or |curve| when there is none:
      the position `curve.find(c => c.maturity === maturity)` stops at. */
  function FirstIndex(curve: seq<CurvePoint>, maturity: string): (i: nat)
    ensures i <= |curve|
    ensures forall j :: 0 <= j < i ==> curve[j].maturity != maturity
    ensures i < |curve| ==> curve[i].maturity == maturity
  {
    if curve == [] then 0
    else if curve[0].maturity == maturity then 0
    else 1 + FirstIndex(curve[1..], maturity)
  }

  /** `curve.find(c => c.maturity === maturity)`. */
  function Find(curve: seq<CurvePoint>, maturity: string): (r: Option<CurvePoint>)
    ensures r.None? <==> forall j :: 0 <= j < |curve| ==> curve[j].maturity != maturity
    ensures r.Some? ==> r.value in curve && r.value.maturity == maturity
  {
    var i := FirstIndex(curve, maturity);
    if i < |curve| then Some(curve[i]) else None
  }

  /** `curve.find(...)?.rate || 0`: the rate of the first point with the maturity, and 0 when
      the maturity is missing. (A rate of 0 maps to 0 either way.) */
  function RateOf(curve: seq<CurvePoint>, maturity: string): (r: real)
    ensures (forall j :: 0 <= j < |curve| ==> curve[j].maturity != maturity) ==> r == 0.0
    ensures forall i ::
      (0 <= i < |curve| && curve[i].maturity == maturity &&
       forall j :: 0 <= j < i ==> curve[j].maturity != maturity) ==> r == curve[i].rate
  {
    match Find(curve, maturity)
    case Some(c) => c.rate
    case None => 0.0
  }

  /** In a well-shaped snapshot the maturities the metrics read are found at their own slots. */
  lemma WellShapedRates(c: HistoricalYieldCurve)
    requires WellShaped(c)
    ensures RateOf(c.curves, "2Y") == c.curves[2].rate && RateOf(c.curves, "5Y") == c.curves[3].rate
    ensures RateOf(c.curves, "10Y") == c.curves[4].rate && RateOf(c.curves, "30Y") == c.curves[5].rate
  {
    var cs := c.curves;
    assert "3M" != "2Y" && "1Y" != "2Y" && "5Y" != "10Y" && "30Y" != "10Y";
    assert forall j :: 0 <= j < 2 ==> cs[j].maturity != "2Y";
    assert forall j :: 0 <= j < 3 ==> cs[j].maturity != "5Y";
    assert forall j :: 0 <= j < 4 ==> cs[j].maturity != "10Y";
    assert forall j :: 0 <= j < 5 ==> cs[j].maturity != "30Y";
  }

  // ---------------------------------------------------------------------------------------
  // The closed-form metrics

  /** The growth factor 1 + y/2 of a semi-annual yield of `rate` percent is non-zero. */
  predicate RateUsable(rate: real)
  {
    rate != -200.0
  }

  /** `calcModDuration`: the modified duration of a semi-annual par bond of `years` whole
      years at `rate` percent, (1 - (1 + y/2)^(-2 years)) / (y/2) / 2 with y = rate/100, and
      `years` when the rate is zero. */
  function CalcModDuration(years: nat, rate: real): real
    requires RateUsable(rate)
  {
    var y := rate / 100.0;
    if y == 0.0 then years as real
    else (1.0 - 1.0 / Pow(1.0 + y / 2.0, 2 * years)) / (y / 2.0) / 2.0
  }

  /** 1 - (1+y)^-n - n y / (1+y)^(n+1): the bracket of `calcConvexity`. */
  function Bracket(y: real, n: nat): real
    requires 1.0 + y != 0.0
  {
    1.0 - 1.0 / Pow(1.0 + y, n) - n as real * y / Pow(1.0 + y, n + 1)
  }

  /** `calcConvexity` as written: (2/y^2)(1 - (1+y)^-n - n y/(1+y)^(n+1)) with y = rate/200 and
      n = 2 years, and years (years + 0.5) when the rate is zero. The non-zero branch is a
      convexity in periods squared; the zero branch is in years squared. */
  function CalcConvexityAsWritten(years: nat, rate: real): real
    requires RateUsable(rate)
  {
    var y := rate / 100.0 / 2.0;
    var n := 2 * years;
    if y == 0.0 then years as real * (years as real + 0.5)
    else (2.0 / (y * y)) * Bracket(y, n)
  }

  /** The convexity of a semi-annual par bond in years squared: the non-zero branch of
      `calcConvexity` divided by frequency^2 = 4, so that both branches share the unit of the
      zero branch and of `calculateDuration`. */
  function CalcConvexity(years: nat, rate: real): real
    requires RateUsable(rate)
  {
    var y := rate / 100.0 / 2.0;
    var n := 2 * years;
    if y == 0.0 then years as real * (years as real + 0.5)
    else (2.0 / (4.0 * y * y)) * Bracket(y, n)
  }

  /** DV01 per 100 of face value: (duration * 100) / 10000. */
  function Dv01(duration: real): (r: real)
    ensures r * 100.0 == duration
  {
    (duration * 100.0) / 10000.0
  }

  datatype CurveMetrics = CurveMetrics(
    spread2Y10Y: real,
    spread5Y30Y: real,
    duration2Y: real,
    duration5Y: real,
    duration10Y: real,
    duration30Y: real,
    convexity10Y: real,
    convexity30Y: real,
    dv01_10Y: real,
    dv01_30Y: real,
    avgRate: real)

  /** The rates the metrics read can all be used as semi-annual yields. */
  predicate MetricsDefined(curve: seq<CurvePoint>)
  {
    && RateUsable(RateOf(curve, "2Y")) && RateUsable(RateOf(curve, "5Y"))
    && RateUsable(RateOf(curve, "10Y")) && RateUsable(RateOf(curve, "30Y"))
  }

  /** `calculateMetricsForCurve`: spreads, par-bond durations and convexities, DV01 and the
      average of the 2Y, 5Y, 10Y and 30Y rates. The convexities are those of `calcConvexity` as
      written. */
  function CalculateMetricsForCurve(curve: seq<CurvePoint>): (m: CurveMetrics)
    requires MetricsDefined(curve)
    ensures m.spread2Y10Y < 0.0 <==> RateOf(curve, "10Y") < RateOf(curve, "2Y")
    ensures m.spread5Y30Y < 0.0 <==> RateOf(curve, "30Y") < RateOf(curve, "5Y")
    ensures m.dv01_10Y * 100.0 == m.duration10Y && m.dv01_30Y * 100.0 == m.duration30Y
    ensures 4.0 * m.avgRate == RateOf(curve, "2Y") + RateOf(curve, "5Y")
      + RateOf(curve, "10Y") + RateOf(curve, "30Y")
  {
    var rate2Y, rate5Y := RateOf(curve, "2Y"), RateOf(curve, "5Y");
    var rate10Y, rate30Y := RateOf(curve, "10Y"), RateOf(curve, "30Y");
    var duration10Y, duration30Y := CalcModDuration(10, rate10Y), CalcModDuration(30, rate30Y);
    CurveMetrics(
      rate10Y - rate2Y,
      rate30Y - rate5Y,
      CalcModDuration(2, rate2Y),
      CalcModDuration(5, rate5Y),
      duration10Y,
      duration30Y,
      CalcConvexityAsWritten(10, rate10Y),
      CalcConvexityAsWritten(30, rate30Y),
      Dv01(duration10Y),
      Dv01(duration30Y),
      (rate2Y + rate5Y + rate10Y + rate30Y) / 4.0)
  }

  /** The metrics with the corrected convexity in place of `calcConvexity` as written. */
  function CorrectedMetricsForCurve(curve: seq<CurvePoint>): CurveMetrics
    requires MetricsDefined(curve)
  {
    CalculateMetricsForCurve(curve).(
      convexity10Y := CalcConvexity(10, RateOf(curve, "10Y")),
      convexity30Y := CalcConvexity(30, RateOf(curve, "30Y")))
  }

  /** Every snapshot of the table has rates the metrics can use. */
  lemma TableMetricsDefined()
    ensures forall k :: 0 <= k < |Table| ==> MetricsDefined(Table[k].curves)
  {
    TableShape();
    forall k | 0 <= k < |Table|
      ensures MetricsDefined(Table[k].curves)
    {
      WellShapedRates(Table[k]);
    }
  }

  // ---------------------------------------------------------------------------------------
  // Agreement with calculateDuration

  /** A semi-annual bond of `years` whole years whose coupon rate and yield are both
      rate/100, that is a bond priced at par. */
  function ParBondAt(face: real, years: nat, rate: real): (p: BondParams)
    ensures p.frequency == 2.0 && p.couponRate == p.ytm && TotalPeriods(p) == (2 * years) as real
  {
    BondParams(face, rate / 100.0, years as real, rate / 100.0, 2.0)
  }

  lemma HalveQuotient(a: real, h: real)
    requires h != 0.0
    ensures a / h / 2.0 == a / (2.0 * h)
  {
  }

  /** `calcModDuration` is the modified duration `calculateDuration` reports for the par bond
      it describes, at every usable rate including zero. */
  lemma ModDurationMatchesEngine(face: real, years: nat, rate: real)
    requires face != 0.0 && years >= 1 && RateUsable(rate)
    ensures Priceable(ParBondAt(face, years, rate))
    ensures Results(ParBondAt(face, years, rate)).modifiedDuration == CalcModDuration(years, rate)
  {
    var p := ParBondAt(face, years, rate);
    var n := 2 * years;
    if rate == 0.0 {
      ZeroCouponAgreement(p);
    } else {
      ParBondModifiedDuration(p, n);
      var g := Growth(p);
      HalveQuotient(1.0 - Discount(g, n), Rate(g));
    }
  }

  /** With y the periodic rate of g, the bracket of `calcConvexity` is the engine's. */
  lemma BracketIsEngine(g: real, y: real, n: nat)
    requires y == Rate(g) && g != 0.0
    ensures Bracket(y, n) == ConvexityBracket(g, n as real, Discount(g, n))
  {
    var q := Pow(g, n);
    assert Pow(g, n + 1) == g * q;
    assert n as real * y / (g * q) == n as real * y * (1.0 / q) / g;
  }

  /** (f i)^2 = 4 y^2 at frequency 2 with y the periodic rate. */
  lemma SemiAnnualScale(g: real, y: real)
    requires y == Rate(g)
    ensures ParScale(2.0, g) == 4.0 * y * y
  {
    assert Pow(2.0 * Rate(g), 1) == 2.0 * Rate(g);
  }

  /** The corrected convexity is the convexity `calculateDuration` reports for the par bond,
      at every usable rate including zero. */
  lemma ConvexityMatchesEngine(face: real, years: nat, rate: real)
    requires face != 0.0 && years >= 1 && RateUsable(rate)
    ensures Priceable(ParBondAt(face, years, rate))
    ensures Results(ParBondAt(face, years, rate)).convexity == CalcConvexity(years, rate)
  {
    var p := ParBondAt(face, years, rate);
    var n := 2 * years;
    if rate == 0.0 {
      ZeroCouponConvexity(p, n);
    } else {
      ParBondConvexity(p, n);
      var g := Growth(p);
      var y := rate / 100.0 / 2.0;
      CalcConvexityAt(years, rate, y, g, n);
      BracketIsEngine(g, y, n);
      SemiAnnualScale(g, y);
    }
  }

  /** The corrected convexity off the zero rate, over the growth factor g = 1 + y. */
  lemma CalcConvexityAt(years: nat, rate: real, y: real, g: real, n: nat)
    requires RateUsable(rate) && rate != 0.0 && y == rate / 100.0 / 2.0 && g == 1.0 + y
    requires n == 2 * years
    ensures y == Rate(g) && y != 0.0 && g != 0.0
    ensures CalcConvexity(years, rate) == (2.0 / (4.0 * y * y)) * Bracket(y, n)
    ensures CalcConvexityAsWritten(years, rate) == (2.0 / (y * y)) * Bracket(y, n)
  {
  }

  lemma QuarterOf(y: real, b: real)
    requires y != 0.0
    ensures (2.0 / (y * y)) * b == 4.0 * ((2.0 / (4.0 * y * y)) * b)
  {
  }

  /** Off the zero rate `calcConvexity` as written reports four times the engine's convexity
      of the same par bond; at the zero rate it reports the engine's value. */
  lemma ConvexityAsWrittenFourfold(face: real, years: nat, rate: real)
    requires face != 0.0 && years >= 1 && RateUsable(rate)
    ensures Priceable(ParBondAt(face, years, rate))
    ensures rate != 0.0 ==>
      CalcConvexityAsWritten(years, rate) == 4.0 * Results(ParBondAt(face, years, rate)).convexity
    ensures rate == 0.0 ==>
      CalcConvexityAsWritten(years, rate) == Results(ParBondAt(face, years, rate)).convexity
  {
    ConvexityMatchesEngine(face, years, rate);
    if rate != 0.0 {
      var y := rate / 100.0 / 2.0;
      CalcConvexityAt(years, rate, y, 1.0 + y, 2 * years);
      QuarterOf(y, Bracket(y, 2 * years));
    }
  }

  /** A one-year bond at 100 percent: the formula as written gives 56/27 where the engine gives
      14/27. */
  lemma ConvexityAsWrittenCounterexample()
    ensures Priceable(ParBondAt(100.0, 1, 100.0))
    ensures CalcConvexityAsWritten(1, 100.0) == 56.0 / 27.0
    ensures Results(ParBondAt(100.0, 1, 100.0)).convexity == 14.0 / 27.0
  {
    ConvexityMatchesEngine(100.0, 1, 100.0);
    assert Pow(1.5, 2) == 2.25 && Pow(1.5, 3) == 3.375;
  }

  /** 1^k == 1 */
  lemma {:induction false} PowOne(k: nat)
    ensures Pow(1.0, k) == 1.0
  {
    if k > 0 {
      PowOne(k - 1);
    }
  }

  /** For 100 of face value the engine prices the par bond at 100, so its dollar duration is
      100 times the DV01 the metrics report for the same bond. */
  lemma Dv01MatchesDollarDuration(years: nat, rate: real)
    requires years >= 1 && RateUsable(rate)
    ensures Priceable(ParBondAt(100.0, years, rate))
    ensures Results(ParBondAt(100.0, years, rate)).price == 100.0
    ensures Results(ParBondAt(100.0, years, rate)).dollarDuration
      == 100.0 * Dv01(CalcModDuration(years, rate))
  {
    var p := ParBondAt(100.0, years, rate);
    var n := 2 * years;
    ModDurationMatchesEngine(100.0, years, rate);
    if rate == 0.0 {
      ZeroCouponPrice(p, n);
      PowOne(n);
    } else {
      ParPrice(p, n);
    }
    WholeResults(p, n);
    MetricIdentities(p);
  }

  /** Each duration of the metrics is the modified duration `calculateDuration` reports for a
      par bond of 100 at that maturity's rate, and each DV01 is that bond's dollar duration
      over 100. Each convexity is four times the engine's convexity of that bond, except at a
      zero rate, where it is the engine's. */
  lemma MetricsMatchEngine(curve: seq<CurvePoint>)
    requires MetricsDefined(curve)
    ensures var r2, r5, r10, r30 := RateOf(curve, "2Y"), RateOf(curve, "5Y"),
                                    RateOf(curve, "10Y"), RateOf(curve, "30Y");
      && Priceable(ParBondAt(100.0, 2, r2)) && Priceable(ParBondAt(100.0, 5, r5))
      && Priceable(ParBondAt(100.0, 10, r10)) && Priceable(ParBondAt(100.0, 30, r30))
      && var m := CalculateMetricsForCurve(curve);
      && m.duration2Y == Results(ParBondAt(100.0, 2, r2)).modifiedDuration
      && m.duration5Y == Results(ParBondAt(100.0, 5, r5)).modifiedDuration
      && m.duration10Y == Results(ParBondAt(100.0, 10, r10)).modifiedDuration
      && m.duration30Y == Results(ParBondAt(100.0, 30, r30)).modifiedDuration
      && m.convexity10Y == ConvexityScale(r10) * Results(ParBondAt(100.0, 10, r10)).convexity
      && m.convexity30Y == ConvexityScale(r30) * Results(ParBondAt(100.0, 30, r30)).convexity
      && 100.0 * m.dv01_10Y == Results(ParBondAt(100.0, 10, r10)).dollarDuration
      && 100.0 * m.dv01_30Y == Results(ParBondAt(100.0, 30, r30)).dollarDuration
  {
    var r2, r5, r10, r30 := RateOf(curve, "2Y"), RateOf(curve, "5Y"),
                            RateOf(curve, "10Y"), RateOf(curve, "30Y");
    ModDurationMatchesEngine(100.0, 2, r2);
    ModDurationMatchesEngine(100.0, 5, r5);
    ModDurationMatchesEngine(100.0, 10, r10);
    ModDurationMatchesEngine(100.0, 30, r30);
    ConvexityAsWrittenFourfold(100.0, 10, r10);
    ConvexityAsWrittenFourfold(100.0, 30, r30);
    Dv01MatchesDollarDuration(10, r10);
    Dv01MatchesDollarDuration(30, r30);
  }

  /** The factor by which `calcConvexity` as written exceeds the engine's convexity: 4 off the
      zero rate, 1 at it. */
  function ConvexityScale(rate: real): real
  {
    if rate == 0.0 then 1.0 else 4.0
  }

  /** The corrected metrics agree with the program's everywhere except the convexities, which
      are the engine's convexity of the par bond at that maturity's rate. */
  lemma CorrectedMetricsMatchEngine(curve: seq<CurvePoint>)
    requires MetricsDefined(curve)
    ensures var r10, r30 := RateOf(curve, "10Y"), RateOf(curve, "30Y");
      && Priceable(ParBondAt(100.0, 10, r10)) && Priceable(ParBondAt(100.0, 30, r30))
      && var m, c := CalculateMetricsForCurve(curve), CorrectedMetricsForCurve(curve);
      && c.(convexity10Y := m.convexity10Y, convexity30Y := m.convexity30Y) == m
      && c.convexity10Y == Results(ParBondAt(100.0, 10, r10)).convexity
      && c.convexity30Y == Results(ParBondAt(100.0, 30, r30)).convexity
      && m.convexity10Y == ConvexityScale(r10) * c.convexity10Y
      && m.convexity30Y == ConvexityScale(r30) * c.convexity30Y
  {
    var r10, r30 := RateOf(curve, "10Y"), RateOf(curve, "30Y");
    ConvexityMatchesEngine(100.0, 10, r10);
    ConvexityMatchesEngine(100.0, 30, r30);
    ConvexityAsWrittenFourfold(100.0, 10, r10);
    ConvexityAsWrittenFourfold(100.0, 30, r30);
  }
}
