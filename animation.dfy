/**
  The animation policy of a capture: the bar ramps from 0 to the captured
  percentage over a ramp whose length grows with the percentage, then holds
  the target until the fixed 20-second clip ends. The day count is never
  animated. Everything here is a function of the captured targets and of the
  time elapsed since the session started.
 */
module CaptureAnimation {
  import opened Numbers

  /** Length of every clip, in seconds. */
  const TotalVideoSeconds: real := 20.0

  /** Bounds on the ramp length, in seconds. */
  const MinRampSeconds: real := 6.0
  const MaxRampSeconds: real := 14.0

  /** Canvas and bar geometry, in pixels. */
  const CanvasWidth: real := 1080.0
  const BarWidth: real := 840.0

  /** What one draw puts on the canvas that depends on the session. */
  datatype Frame = Frame(percentage: real, days: int, fillWidth: real)

  /** Ramp length in seconds: 6 plus 8 per 100 percent, clamped to [6, 14]. */
  function RampDuration(target: real): (d: real)
    ensures MinRampSeconds <= d <= MaxRampSeconds
  {
    Max(MinRampSeconds, Min(MaxRampSeconds, (target / 100.0) * 8.0 + 6.0))
  }

  /** For a percentage in [0, 100] neither clamp of the ramp length is active. */
  lemma RampDurationUnclamped(target: real)
    requires 0.0 <= target <= 100.0
    ensures RampDuration(target) == (target / 100.0) * 8.0 + 6.0
  {
  }

  /** A larger target never gets a shorter ramp. */
  lemma RampDurationMonotone(target1: real, target2: real)
    requires target1 <= target2
    ensures RampDuration(target1) <= RampDuration(target2)
  {
  }

  /**
    The percentage shown `elapsed` seconds into the session: the linear
    ramp `elapsed / ramp * target` up to the end of the ramp, then the
    target itself.
   */
  function AnimatedProgress(target: real, elapsed: real): (p: real)
    ensures elapsed >= RampDuration(target) ==> p == target
    ensures 0.0 <= elapsed && 0.0 <= target ==> 0.0 <= p <= target
  {
    var duration := RampDuration(target);
    if elapsed <= duration then RampValue(elapsed, duration, target) else target
  }

  /** The fraction of the ramp that has elapsed lies in [0, 1] during the ramp. */
  lemma RampFractionBounds(elapsed: real, duration: real)
    requires duration > 0.0
    ensures elapsed == duration ==> elapsed / duration == 1.0
    ensures 0.0 <= elapsed <= duration ==> 0.0 <= elapsed / duration <= 1.0
  {
    if 0.0 <= elapsed <= duration {
      assert (duration - elapsed) / duration >= 0.0;
      assert elapsed / duration + (duration - elapsed) / duration == 1.0;
    }
  }

  /**
    The ramp formula: the elapsed fraction of the ramp times the target. It
    ends exactly at the target and stays within [0, target] on the way.
   */
  function RampValue(elapsed: real, duration: real, target: real): (v: real)
    requires duration > 0.0
    ensures elapsed == duration ==> v == target
    ensures 0.0 <= elapsed <= duration && 0.0 <= target ==> 0.0 <= v <= target
  {
    RampFractionBounds(elapsed, duration);
    ScaleWithin(elapsed / duration, target);
    (elapsed / duration) * target
  }

  /** Scaling a non-negative value by a fraction in [0, 1] keeps it between 0 and itself. */
  lemma ScaleWithin(fraction: real, value: real)
    ensures 0.0 <= fraction <= 1.0 && 0.0 <= value ==> 0.0 <= fraction * value <= value
  {
    assert value - fraction * value == (1.0 - fraction) * value;
  }

  /** The product of two non-negative reals is non-negative. */
  lemma MulNonNegative(x: real, y: real)
    requires 0.0 <= x && 0.0 <= y
    ensures 0.0 <= x * y
  {
  }

  /** For a non-negative target the shown percentage never goes down as time passes. */
  lemma AnimatedProgressMonotone(target: real, elapsed1: real, elapsed2: real)
    requires 0.0 <= target
    requires 0.0 <= elapsed1 <= elapsed2
    ensures AnimatedProgress(target, elapsed1) <= AnimatedProgress(target, elapsed2)
  {
    var d := RampDuration(target);
    if elapsed2 <= d {
      var f1, f2 := elapsed1 / d, elapsed2 / d;
      assert f1 <= f2 by {
        assert f2 - f1 == (elapsed2 - elapsed1) / d;
        assert (elapsed2 - elapsed1) / d >= 0.0;
      }
      assert f2 * target - f1 * target == (f2 - f1) * target;
      MulNonNegative(f2 - f1, target);
      assert AnimatedProgress(target, elapsed1) == RampValue(elapsed1, d, target) == f1 * target;
      assert AnimatedProgress(target, elapsed2) == RampValue(elapsed2, d, target) == f2 * target;
    } else if elapsed1 <= d {
      assert AnimatedProgress(target, elapsed1) == RampValue(elapsed1, d, target);
    }
  }

  /** Since every ramp ends by 14 s, the last seconds of the 20-second clip hold the target. */
  lemma HoldBeforeClipEnds(target: real, elapsed: real)
    requires MaxRampSeconds <= elapsed
    ensures AnimatedProgress(target, elapsed) == target
    ensures AnimatedProgress(target, TotalVideoSeconds) == target
  {
  }

  /** Width of the bar's white fill for a shown percentage. */
  function FillWidth(percentage: real): (w: real)
    ensures 0.0 <= percentage <= 100.0 ==> 0.0 <= w <= BarWidth
    ensures percentage == 100.0 ==> w == BarWidth
  {
    (BarWidth * percentage) / 100.0
  }

  /**
    Left edge of the bar, centring it on the canvas. A standalone geometry
    fact: frames record only what varies between them, so `Frame` carries
    the fill's width and not this fixed left edge.
   */
  function BarLeft(): (x: real)
    ensures x + BarWidth + x == CanvasWidth
  {
    (CanvasWidth - BarWidth) / 2.0
  }

  /**
    What the frame drawn `elapsedMs` milliseconds into the session shows: the
    animated percentage, the unanimated day count, and a fill that stays
    inside the bar for a target in [0, 100].
   */
  function FrameAt(target: real, targetDays: int, elapsedMs: int): (f: Frame)
    ensures f.days == targetDays
    ensures f.percentage == AnimatedProgress(target, elapsedMs as real / 1000.0)
    ensures 0 <= elapsedMs && 0.0 <= target <= 100.0 ==> 0.0 <= f.fillWidth <= BarWidth
    ensures elapsedMs as real >= 1000.0 * RampDuration(target) ==> f.percentage == target
  {
    var shown := AnimatedProgress(target, elapsedMs as real / 1000.0);
    Frame(shown, targetDays, FillWidth(shown))
  }

  /** A session capturing 40 % ramps for 9.2 s and shows exactly 40 % at its end. */
  lemma FortyPercentRamp()
    ensures RampDuration(40.0) == 9.2
    ensures AnimatedProgress(40.0, 9.2) == 40.0
  {
  }
}
