/** The index arithmetic the two timeline components share
    (src/components/HistoricalYieldCurveViewer.tsx and src/components/YieldCurveAnimation.tsx):
    stepping back and forward with clamping, the play/pause toggle and the interval tick, over
    a list of `len` frames. */
module Timeline {

  /** The selected frame and whether the animation runs. */
  datatype Playback = Playback(index: int, playing: bool)

  /** The frame index lies in the list. */
  predicate InRange(i: int, len: nat)
  {
    0 <= i < len
  }

  /** `Math.max(0, i - 1)`: one frame back, never before the first. */
  function StepBack(i: int): (j: int)
    ensures j >= 0
    ensures i >= 1 ==> j == i - 1
    ensures i <= 1 ==> j == 0
    ensures forall len: nat :: InRange(i, len) ==> InRange(j, len)
  {
    if i - 1 > 0 then i - 1 else 0
  }

  /** `Math.min(len - 1, i + 1)`: one frame forward, never past the last. */
  function StepForward(i: int, len: nat): (j: int)
    ensures j <= len - 1
    ensures i < len - 1 ==> j == i + 1
    ensures i >= len - 1 ==> j == len - 1
    ensures InRange(i, len) ==> InRange(j, len)
  {
    if len - 1 < i + 1 then len - 1 else i + 1
  }

  /** The play button: from the last frame (or beyond) it rewinds to the first, then the
      running flag flips. */
  function PlayPause(s: Playback, len: nat): (t: Playback)
    ensures t.playing == !s.playing
    ensures s.index >= len - 1 ==> t.index == 0
    ensures s.index < len - 1 ==> t.index == s.index
    ensures len >= 1 && InRange(s.index, len) ==> InRange(t.index, len)
  {
    Playback(if s.index >= len - 1 then 0 else s.index, !s.playing)
  }

  /** One interval tick: advance by one frame, or, from the last frame, stay and stop. */
  function Tick(s: Playback, len: nat): (t: Playback)
    ensures s.index >= len - 1 ==> t == Playback(s.index, false)
    ensures s.index < len - 1 ==> t == Playback(s.index + 1, s.playing)
    ensures InRange(s.index, len) ==> InRange(t.index, len)
  {
    if s.index >= len - 1 then s.(playing := false) else s.(index := s.index + 1)
  }

  /** The state after k ticks. */
  function Ticks(s: Playback, len: nat, k: nat): Playback
  {
    if k == 0 then s else Tick(Ticks(s, len, k - 1), len)
  }

  /** Started on frame i of a list of len frames, the animation plays every later frame in
      turn: after k ticks, k <= len - 1 - i, it shows frame i + k and still runs. */
  lemma {:induction false} TicksAdvance(s: Playback, len: nat, k: nat)
    requires InRange(s.index, len) && s.playing && k <= len - 1 - s.index
    ensures Ticks(s, len, k) == Playback(s.index + k, true)
  {
    if k > 0 {
      TicksAdvance(s, len, k - 1);
    }
  }

  /** Once the last frame is reached, the next tick stops the animation there, and further
      ticks change nothing. */
  lemma {:induction false} TicksStopAtEnd(s: Playback, len: nat, k: nat)
    requires InRange(s.index, len) && s.playing && k > len - 1 - s.index
    ensures Ticks(s, len, k) == Playback(len - 1, false)
  {
    var n := len - 1 - s.index;
    if k == n + 1 {
      TicksAdvance(s, len, n);
    } else {
      TicksStopAtEnd(s, len, k - 1);
    }
  }
}
