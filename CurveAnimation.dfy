/** The yield-curve animation (src/components/YieldCurveAnimation.tsx): its own shape rule
    and the controls that move through the sixteen dated curves of the historical table. */
module CurveAnimation {
  import opened HistoricalData
  import ShapeIndicator
  import opened Timeline

  /** The animation's four shapes. */
  datatype Shape = Inverted | Flat | Normal | Steep

  /** The thresholds of `getCurveShape`, checked in the order Inverted, Flat, Normal. */
  function ShapeOfSpread(spread: real): (s: Shape)
    ensures s == Inverted <==> spread < -0.1
    ensures s == Flat <==> -0.1 <= spread < 0.2
    ensures s == Normal <==> 0.2 <= spread < 1.0
    ensures s == Steep <==> spread >= 1.0
  {
    if spread < -0.1 then Inverted
    else if spread < 0.2 then Flat
    else if spread < 1.0 then Normal
    else Steep
  }

  /** `getCurveShape`: the shape of the 10Y rate minus the 2Y rate, a missing rate read as 0. */
  function GetCurveShape(curve: seq<CurvePoint>): Shape
  {
    ShapeOfSpread(ShapeIndicator.KeySpreads(curve).spread2s10s)
  }

  /** The animation and the indicator classify some spreads differently: a spread between
      -0.1 and 0 is Flat here and INVERTED there, one between 0.2 and 0.25 is Normal here and
      FLAT there, and a spread of exactly 1 is Steep here and NORMAL there. An inverted
      animation curve is always an inverted indicator curve. */
  lemma ClassifiersDiffer(spread: real)
    ensures ShapeOfSpread(-0.05) == Flat && ShapeIndicator.ShapeLabel(-0.05) == ShapeIndicator.Inverted
    ensures ShapeOfSpread(1.0) == Steep && ShapeIndicator.ShapeLabel(1.0) == ShapeIndicator.Normal
    ensures ShapeOfSpread(spread) == Inverted ==> ShapeIndicator.ShapeLabel(spread) == ShapeIndicator.Inverted
    ensures ShapeOfSpread(spread) == Flat && ShapeIndicator.ShapeLabel(spread) == ShapeIndicator.Inverted
      <==> -0.1 <= spread < 0.0
  {
  }

  /** The number of frames: the entries of the historical table. */
  function Frames(): nat
  {
    |Table|
  }

  /** The animation's state: the frame shown and whether it plays. */
  class Animation {
    var currentIndex: int
    var isPlaying: bool

    /** The frame shown is an entry of the table. */
    predicate Valid()
      reads this
    {
      InRange(currentIndex, Frames())
    }

    constructor()
      ensures currentIndex == 0 && !isPlaying && Valid()
    {
      currentIndex := 0;
      isPlaying := false;
    }

    /** `handlePlayPause`. */
    method HandlePlayPause()
      modifies this
      ensures Playback(currentIndex, isPlaying)
        == Timeline.PlayPause(Playback(old(currentIndex), old(isPlaying)), Frames())
      ensures old(Valid()) ==> Valid()
    {
      if currentIndex >= Frames() - 1 {
        currentIndex := 0;
      }
      isPlaying := !isPlaying;
    }

    /** `handleReset`. */
    method HandleReset()
      modifies this
      ensures currentIndex == 0 && !isPlaying && Valid()
    {
      isPlaying := false;
      currentIndex := 0;
    }

    /** `handlePrev`: stops playing and steps back. */
    method HandlePrev()
      modifies this
      ensures currentIndex == StepBack(old(currentIndex)) && !isPlaying
      ensures old(Valid()) ==> Valid()
    {
      isPlaying := false;
      currentIndex := StepBack(currentIndex);
    }

    /** `handleNext`: stops playing and steps forward. */
    method HandleNext()
      modifies this
      ensures currentIndex == StepForward(old(currentIndex), Frames()) && !isPlaying
      ensures old(Valid()) ==> Valid()
    {
      isPlaying := false;
      currentIndex := StepForward(currentIndex, Frames());
    }

    /** The timeline slider, whose values run from 0 to the last frame. */
    method Slide(v: int)
      requires InRange(v, Frames())
      modifies this
      ensures currentIndex == v && !isPlaying && Valid()
    {
      isPlaying := false;
      currentIndex := v;
    }

    /** One tick of the interval, which runs only while playing. */
    method Tick()
      modifies this
      ensures old(isPlaying) ==>
        Playback(currentIndex, isPlaying)
          == Timeline.Tick(Playback(old(currentIndex), old(isPlaying)), Frames())
      ensures !old(isPlaying) ==> currentIndex == old(currentIndex) && !isPlaying
      ensures old(Valid()) ==> Valid()
    {
      if isPlaying {
        if currentIndex >= Frames() - 1 {
          isPlaying := false;
        } else {
          currentIndex := currentIndex + 1;
        }
      }
    }
  }
}
