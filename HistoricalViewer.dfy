/** The historical yield-curve viewer (src/components/HistoricalYieldCurveViewer.tsx): the
    snapshot of the selected date, its shape label, and the timeline controls over the rows the
    historical route returns. */
module HistoricalViewer {
  import opened Wrappers
  import opened HistoricalData
  import opened HistoricalSeries
  import ShapeIndicator
  import opened Timeline

  /** The curve of one date, reduced to the maturities the row has, with its spread and flags. */
  datatype Snapshot = Snapshot(
    date: int,
    curve: seq<CurvePoint>,
    spread2s10s: real,
    isInverted: bool,
    isFlat: bool,
    isSteep: bool)

  /** `point.spread2s10s || 0`. */
  function SpreadOrZero(spread: Option<real>): real
  {
    if spread.Some? then spread.value else 0.0
  }

  /** The point a present rate contributes to the curve. */
  function Entry(maturity: string, years: real, rate: Option<real>): (e: seq<CurvePoint>)
    ensures rate.None? ==> e == []
    ensures rate.Some? ==> e == [CurvePoint(maturity, years, rate.value)]
  {
    if rate.Some? then [CurvePoint(maturity, years, rate.value)] else []
  }

  /** The snapshot curve: the 2Y, 10Y and 30Y points, in that order, each only when the row
      has that rate. */
  function SnapshotCurve(p: HistoricalPoint): (c: seq<CurvePoint>)
    ensures |c| <= 3
  {
    Entry("2Y", 2.0, p.y2) + Entry("10Y", 10.0, p.y10) + Entry("30Y", 30.0, p.y30)
  }

  /** The snapshot curve lists at most the 2Y, 10Y and 30Y points, by increasing years, and
      each carries the row's rate for its maturity. */
  lemma SnapshotCurvePoints(p: HistoricalPoint)
    ensures var c := SnapshotCurve(p);
      && (forall i, j :: 0 <= i < j < |c| ==> c[i].years < c[j].years)
      && (forall k :: 0 <= k < |c| ==>
            || (c[k] == CurvePoint("2Y", 2.0, c[k].rate) && p.y2 == Some(c[k].rate))
            || (c[k] == CurvePoint("10Y", 10.0, c[k].rate) && p.y10 == Some(c[k].rate))
            || (c[k] == CurvePoint("30Y", 30.0, c[k].rate) && p.y30 == Some(c[k].rate)))
  {
    var a, b, d := Entry("2Y", 2.0, p.y2), Entry("10Y", 10.0, p.y10), Entry("30Y", 30.0, p.y30);
    var c := a + b + d;
    assert c == SnapshotCurve(p);
    assert forall k :: 0 <= k < |c| ==> c[k] in a || c[k] in b || c[k] in d;
  }

  /** Each maturity is listed exactly when the row has its rate. */
  lemma SnapshotCurvePresence(p: HistoricalPoint)
    ensures var c := SnapshotCurve(p);
      && (p.y2.Some? <==> exists k :: 0 <= k < |c| && c[k].maturity == "2Y")
      && (p.y10.Some? <==> exists k :: 0 <= k < |c| && c[k].maturity == "10Y")
      && (p.y30.Some? <==> exists k :: 0 <= k < |c| && c[k].maturity == "30Y")
  {
    var a, b, d := Entry("2Y", 2.0, p.y2), Entry("10Y", 10.0, p.y10), Entry("30Y", 30.0, p.y30);
    var c := a + b + d;
    assert c == SnapshotCurve(p);
    SnapshotCurvePoints(p);
    assert p.y2.Some? ==> c[0] == a[0];
    assert p.y10.Some? ==> c[|a|] == b[0];
    assert p.y30.Some? ==> c[|a| + |b|] == d[0];
  }

  /** The flags agree with the spread: inverted below 0, flat within 0.25 of 0, steep above 1. */
  predicate FlagsMatch(s: Snapshot)
  {
    && s.isInverted == ShapeIndicator.IsInverted(s.spread2s10s)
    && s.isFlat == ShapeIndicator.IsFlat(s.spread2s10s)
    && s.isSteep == ShapeIndicator.IsSteep(s.spread2s10s)
  }

  /** The snapshot of one row. */
  function SnapshotOf(p: HistoricalPoint): (s: Snapshot)
    ensures s.date == p.date && s.curve == SnapshotCurve(p)
    ensures s.spread2s10s == (if p.spread2s10s.Some? then p.spread2s10s.value else 0.0)
    ensures FlagsMatch(s)
  {
    var spread := SpreadOrZero(p.spread2s10s);
    Snapshot(p.date, SnapshotCurve(p), spread, spread < 0.0, -0.25 < spread < 0.25, spread > 1.0)
  }

  /** `selectedSnapshot`: none without data or past the end; otherwise the selected row's
      curve, built by conditional pushes, with its spread and flags. */
  method SelectedSnapshot(historicalData: seq<HistoricalPoint>, selectedIndex: int)
    returns (snapshot: Option<Snapshot>)
    requires |historicalData| == 0 || selectedIndex >= 0
    ensures snapshot.None? <==> |historicalData| == 0 || selectedIndex >= |historicalData|
    ensures snapshot.Some? ==> snapshot.value == SnapshotOf(historicalData[selectedIndex])
  {
    if |historicalData| == 0 || selectedIndex >= |historicalData| {
      return None;
    }
    var point := historicalData[selectedIndex];
    var spread := if point.spread2s10s.Some? then point.spread2s10s.value else 0.0;
    var curve: seq<CurvePoint> := [];
    if point.y2.Some? {
      curve := curve + [CurvePoint("2Y", 2.0, point.y2.value)];
    }
    if point.y10.Some? {
      curve := curve + [CurvePoint("10Y", 10.0, point.y10.value)];
    }
    if point.y30.Some? {
      curve := curve + [CurvePoint("30Y", 30.0, point.y30.value)];
    }
    var abs := if spread < 0.0 then -spread else spread;
    snapshot := Some(Snapshot(point.date, curve, spread, spread < 0.0, abs < 0.25, spread > 1.0));
  }

  /** `getShapeLabel`: INVERTED, then FLAT, then STEEP from the flags, otherwise NORMAL. For a
      snapshot whose flags come from its spread this is the indicator's label of that spread. */
  function ShapeLabelOf(s: Snapshot): (l: ShapeIndicator.Label)
    ensures FlagsMatch(s) ==> l == ShapeIndicator.ShapeLabel(s.spread2s10s)
  {
    if s.isInverted then ShapeIndicator.Inverted
    else if s.isFlat then ShapeIndicator.Flat
    else if s.isSteep then ShapeIndicator.Steep
    else ShapeIndicator.Normal
  }

  /** The viewer's label of every row is the indicator's label of the row's spread (a missing
      spread read as 0). */
  lemma ViewerMatchesIndicator(p: HistoricalPoint)
    ensures ShapeLabelOf(SnapshotOf(p)) == ShapeIndicator.ShapeLabel(SpreadOrZero(p.spread2s10s))
  {
    var s := SnapshotOf(p);
    assert FlagsMatch(s);
  }

  /** The viewer's state: the loaded rows, the selected index and whether the timeline
      plays. */
  class Viewer {
    var historicalData: seq<HistoricalPoint>
    var selectedIndex: int
    var isPlaying: bool

    /** With data, the selected index is one of its rows. */
    predicate Valid()
      reads this
    {
      |historicalData| > 0 ==> InRange(selectedIndex, |historicalData|)
    }

    constructor()
      ensures historicalData == [] && selectedIndex == 0 && !isPlaying && Valid()
    {
      historicalData := [];
      selectedIndex := 0;
      isPlaying := false;
    }

    /** A successful load: the rows arrive and the most recent one is selected. */
    method Load(data: seq<HistoricalPoint>)
      modifies this
      ensures historicalData == data && selectedIndex == |data| - 1
      ensures isPlaying == old(isPlaying) && Valid()
    {
      historicalData := data;
      selectedIndex := |data| - 1;
    }

    /** The skip-back button. */
    method SkipBack()
      modifies this
      ensures selectedIndex == 0
      ensures historicalData == old(historicalData) && isPlaying == old(isPlaying)
      ensures Valid()
    {
      selectedIndex := 0;
    }

    /** The Prev button: one row back, the play state untouched. */
    method Prev()
      modifies this
      ensures selectedIndex == StepBack(old(selectedIndex))
      ensures historicalData == old(historicalData) && isPlaying == old(isPlaying)
      ensures old(Valid()) ==> Valid()
    {
      selectedIndex := StepBack(selectedIndex);
    }

    /** The Play/Pause button. */
    method PlayPause()
      modifies this
      ensures Playback(selectedIndex, isPlaying)
        == Timeline.PlayPause(Playback(old(selectedIndex), old(isPlaying)), |historicalData|)
      ensures historicalData == old(historicalData)
      ensures old(Valid()) ==> Valid()
    {
      if selectedIndex >= |historicalData| - 1 {
        selectedIndex := 0;
      }
      isPlaying := !isPlaying;
    }

    /** The Next button: one row forward, the play state untouched. */
    method Next()
      modifies this
      ensures selectedIndex == StepForward(old(selectedIndex), |historicalData|)
      ensures historicalData == old(historicalData) && isPlaying == old(isPlaying)
      ensures old(Valid()) ==> Valid()
    {
      selectedIndex := StepForward(selectedIndex, |historicalData|);
    }

    /** The skip-forward button. */
    method SkipForward()
      modifies this
      ensures selectedIndex == |historicalData| - 1
      ensures historicalData == old(historicalData) && isPlaying == old(isPlaying)
      ensures Valid()
    {
      selectedIndex := |historicalData| - 1;
    }

    /** The slider, whose values run from 0 to the last index: stops playing and selects. */
    method Slide(v: int)
      requires InRange(v, |historicalData|)
      modifies this
      ensures selectedIndex == v && !isPlaying
      ensures historicalData == old(historicalData) && Valid()
    {
      isPlaying := false;
      selectedIndex := v;
    }

    /** One tick of the 500 ms interval, which runs only while playing with data. */
    method Tick()
      modifies this
      ensures old(isPlaying) && |historicalData| > 0 ==>
        Playback(selectedIndex, isPlaying)
          == Timeline.Tick(Playback(old(selectedIndex), old(isPlaying)), |historicalData|)
      ensures !(old(isPlaying) && |historicalData| > 0) ==>
        selectedIndex == old(selectedIndex) && isPlaying == old(isPlaying)
      ensures historicalData == old(historicalData)
      ensures old(Valid()) ==> Valid()
    {
      if isPlaying && |historicalData| > 0 {
        if selectedIndex >= |historicalData| - 1 {
          isPlaying := false;
        } else {
          selectedIndex := selectedIndex + 1;
        }
      }
    }

    /** The snapshot shown for the current state. */
    method Current() returns (snapshot: Option<Snapshot>)
      requires Valid()
      ensures snapshot.None? <==> |historicalData| == 0
      ensures snapshot.Some? ==> snapshot.value == SnapshotOf(historicalData[selectedIndex])
    {
      snapshot := SelectedSnapshot(historicalData, selectedIndex);
    }
  }
}
