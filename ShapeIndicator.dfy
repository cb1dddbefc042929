/** The yield-curve shape indicator (src/components/YieldCurveShapeIndicator.tsx): the 2s10s and
    3m30y spreads of a curve and the label chosen from the 2s10s spread. */
module ShapeIndicator {
  import opened Wrappers
  import opened HistoricalData

  /** The four labels, in the order the indicator tests them. */
  datatype Label = Inverted | Flat | Steep | Normal

  /** The curve's two key spreads, in percentage points. */
  datatype Spreads = Spreads(spread2s10s: real, spread3m30y: real)

  /** The 10Y rate minus the 2Y rate and the 30Y rate minus the 3M rate, a maturity that is
      absent from the curve being read as 0. */
  function KeySpreads(curve: seq<CurvePoint>): (s: Spreads)
    ensures (forall j :: 0 <= j < |curve| ==> curve[j].maturity != "2Y") ==>
      s.spread2s10s == RateOf(curve, "10Y")
    ensures (forall j :: 0 <= j < |curve| ==> curve[j].maturity != "3M") ==>
      s.spread3m30y == RateOf(curve, "30Y")
    ensures forall i, k ::
      (0 <= i < |curve| && curve[i].maturity == "2Y" && FirstWith(curve, "2Y", i) &&
       0 <= k < |curve| && curve[k].maturity == "10Y" && FirstWith(curve, "10Y", k)) ==>
      s.spread2s10s == curve[k].rate - curve[i].rate
  {
    Spreads(RateOf(curve, "10Y") - RateOf(curve, "2Y"), RateOf(curve, "30Y") - RateOf(curve, "3M"))
  }

  /** No point before index i carries the maturity. */
  predicate FirstWith(curve: seq<CurvePoint>, maturity: string, i: nat)
  {
    forall j :: 0 <= j < i && j < |curve| ==> curve[j].maturity != maturity
  }

  predicate IsInverted(spread: real)
  {
    spread < 0.0
  }

  /** `Math.abs(spread) < 0.25`. */
  predicate IsFlat(spread: real)
  {
    -0.25 < spread < 0.25
  }

  predicate IsSteep(spread: real)
  {
    spread > 1.0
  }

  /** `getShapeInfo`'s choice: inverted first, then flat, then steep, otherwise normal. */
  function ShapeLabel(spread: real): (l: Label)
    ensures l == Inverted <==> spread < 0.0
    ensures l == Flat <==> 0.0 <= spread < 0.25
    ensures l == Steep <==> spread > 1.0
    ensures l == Normal <==> 0.25 <= spread <= 1.0
  {
    if IsInverted(spread) then Inverted
    else if IsFlat(spread) then Flat
    else if IsSteep(spread) then Steep
    else Normal
  }

  /** The text the card shows for a label: its name, description and warning line. */
  datatype ShapeInfo = ShapeInfo(title: string, description: string, warning: string)

  function InfoOf(l: Label): ShapeInfo
  {
    match l
    case Inverted =>
      ShapeInfo("INVERTED", "Short-term rates exceed long-term rates",
                "Historically a recession warning signal")
    case Flat =>
      ShapeInfo("FLAT", "Minimal difference between short and long-term rates",
                "Economic uncertainty")
    case Steep =>
      ShapeInfo("STEEP", "Strong upward slope from short to long-term",
                "Typical of economic expansion expectations")
    case Normal =>
      ShapeInfo("NORMAL", "Healthy upward slope", "Normal market conditions")
  }

  /** The warning line under the label: rendered exactly when the label is INVERTED, and then
      it is the recession warning. */
  function RenderedWarning(spread: real): (w: Option<string>)
    ensures w.Some? <==> ShapeLabel(spread) == Inverted
    ensures w.Some? ==> w.value == "Historically a recession warning signal"
  {
    if IsInverted(spread) then Some(InfoOf(ShapeLabel(spread)).warning) else None
  }
}
