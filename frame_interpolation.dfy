/** `FrameInterpolation::advance_frame` (hl1_frame_interpolation.cpp): the frame clock. */
module FrameClock {
  import opened MathFunctions

  /** `0.1f`, the largest time step one call applies, as the exact single-precision value. */
  const MAX_FRAME_TIME: real := 0.100000001490116119384765625

  /** The new cursor and the `sequence_finished` out-flag. */
  datatype Advance = Advance(frame: real, finished: bool)

  /** The cursor after the clamped step, before any wrap. */
  function Advanced(fps: real, frame: real, playbackRate: real, deltaTime: real): real
  {
    frame + (if deltaTime > MAX_FRAME_TIME then MAX_FRAME_TIME else deltaTime) * fps * playbackRate
  }

  /** Multiplying both sides by a positive number keeps the order. */
  lemma MulMonotone(a: real, b: real, m: real)
    requires a <= b && m > 0.0
    ensures a * m <= b * m
  {
  }

  /** How many whole times m fits into x, rounding down. */
  function FloorDiv(x: real, m: real): int
    requires m > 0.0
  {
    (x / m).Floor
  }

  /** `FloorDiv(x, m)` whole steps of m stay at or below x, and one more step passes it. */
  lemma FloorDivBounds(x: real, m: real)
    requires m > 0.0
    ensures FloorDiv(x, m) as real * m <= x < FloorDiv(x, m) as real * m + m
  {
    var q := x / m;
    var k := q.Floor;
    assert q * m == x;
    MulMonotone(k as real, q, m);
    MulMonotone(q, k as real + 1.0, m);
  }

  /** `x mod m` on reals: the value in [0, m) that differs from x by a whole multiple of m. */
  function RealMod(x: real, m: real): (r: real)
    requires m > 0.0
    ensures 0.0 <= r < m
    ensures x - r == FloorDiv(x, m) as real * m
  {
    FloorDivBounds(x, m);
    x - FloorDiv(x, m) as real * m
  }

  /**
   * `advance_frame(sequence, frame, playback_rate, delta_time, &finished)`: a static
   * sequence (at most one frame) always gives frame 0 unfinished; otherwise the step is
   * clamped to 0.1, added, and a cursor that reaches `num_frames - 1` is wrapped with
   * `frame -= (int)(frame / (num_frames - 1)) * (num_frames - 1)` and reports finished.
   */
  function AdvanceFrame(numFrames: int, fps: real, frame: real, playbackRate: real, deltaTime: real): (r: Advance)
    ensures numFrames <= 1 ==> r == Advance(0.0, false)
    ensures numFrames > 1 ==>
      var step := Advanced(fps, frame, playbackRate, deltaTime);
      var loopLength := (numFrames - 1) as real;
      && (r.finished <==> step >= loopLength)
      && (!r.finished ==> r.frame == step)
      && (r.finished ==> r.frame == RealMod(step, loopLength) && 0.0 <= r.frame < loopLength)
  {
    if numFrames <= 1 then
      Advance(0.0, false)
    else
      var f := Advanced(fps, frame, playbackRate, deltaTime);
      var loopLength := (numFrames - 1) as real;
      if f >= loopLength then
        WrapIsRealMod(f, loopLength);
        Advance(f - TruncToInt(f / loopLength) as real * loopLength, true)
      else
        Advance(f, false)
  }

  /** In the wrap branch the cursor is positive, so the C++ truncation is the floor and the result is `f mod L`. */
  lemma WrapIsRealMod(f: real, loopLength: real)
    requires loopLength >= 1.0 && f >= loopLength
    ensures f - TruncToInt(f / loopLength) as real * loopLength == RealMod(f, loopLength)
  {
    assert f / loopLength >= 0.0;
  }

  /** A time step above 0.1 has exactly the effect of a step of 0.1. */
  lemma LargeStepsClamped(numFrames: int, fps: real, frame: real, playbackRate: real, deltaTime: real)
    requires deltaTime > MAX_FRAME_TIME
    ensures AdvanceFrame(numFrames, fps, frame, playbackRate, deltaTime)
         == AdvanceFrame(numFrames, fps, frame, playbackRate, MAX_FRAME_TIME)
  {
  }

  /**
   * Playing forward keeps the cursor in [0, max(1, num_frames - 1)): the range the
   * pose evaluator relies on when it reads key frames `frame` and `frame + 1`.
   */
  lemma {:induction false} AdvanceKeepsCursorInRange(numFrames: int, fps: real, frame: real, playbackRate: real, deltaTime: real)
    requires numFrames > 1 ==> 0.0 <= frame < (numFrames - 1) as real
    requires fps >= 0.0 && playbackRate >= 0.0 && deltaTime >= 0.0
    ensures var r := AdvanceFrame(numFrames, fps, frame, playbackRate, deltaTime);
      0.0 <= r.frame && (r.frame < (numFrames - 1) as real || (numFrames <= 1 && r.frame == 0.0))
  {
    var dt := if deltaTime > MAX_FRAME_TIME then MAX_FRAME_TIME else deltaTime;
    assert dt * fps * playbackRate >= 0.0 by {
      assert dt * fps >= 0.0;
    }
  }

  /** The frame after `ticks` calls with the same step, and how many of them reported finished. */
  function Play(numFrames: int, fps: real, frame: real, playbackRate: real, deltaTime: real, ticks: nat): (real, nat)
    decreases ticks
  {
    if ticks == 0 then (frame, 0)
    else
      var a := AdvanceFrame(numFrames, fps, frame, playbackRate, deltaTime);
      var (f, n) := Play(numFrames, fps, a.frame, playbackRate, deltaTime, ticks - 1);
      (f, n + if a.finished then 1 else 0)
  }

  /** Euclidean quotient and remainder are determined by any decomposition a = q*m + r with 0 <= r < m. */
  lemma DivModUnique(a: int, m: int, q: int, r: int)
    requires m > 0 && a == q * m + r && 0 <= r < m
    ensures a / m == q && a % m == r
  {
    var q', r' := a / m, a % m;
    assert a == q' * m + r' && 0 <= r' < m;
    if q' < q {
      assert q' * m + m <= q * m by { MulMonotoneInt(q' + 1, q, m); }
    } else if q' > q {
      assert q * m + m <= q' * m by { MulMonotoneInt(q + 1, q', m); }
    }
  }

  lemma MulMonotoneInt(a: int, b: int, m: int)
    requires a <= b && m > 0
    ensures a * m <= b * m
  {
  }

  /** One whole-frame step from integer frame k moves to k + 1, wrapping to 0 (finished) at the loop end. */
  lemma WholeStep(numFrames: int, fps: real, playbackRate: real, deltaTime: real, k: nat)
    requires numFrames >= 2 && k < numFrames - 1
    requires deltaTime <= MAX_FRAME_TIME && deltaTime * fps * playbackRate == 1.0
    ensures AdvanceFrame(numFrames, fps, k as real, playbackRate, deltaTime)
         == Advance(if k + 1 == numFrames - 1 then 0.0 else (k + 1) as real, k + 1 == numFrames - 1)
  {
    var loopLength := (numFrames - 1) as real;
    var f := Advanced(fps, k as real, playbackRate, deltaTime);
    assert f == (k + 1) as real;
    if k + 1 == numFrames - 1 {
      assert f / loopLength == 1.0;
      assert TruncToInt(f / loopLength) == 1;
    }
  }

  /** One tick of `Play`, named so that the induction below does not unfold `AdvanceFrame`. */
  lemma PlayStep(numFrames: int, fps: real, frame: real, playbackRate: real, deltaTime: real, ticks: nat, a: Advance)
    requires ticks > 0 && a == AdvanceFrame(numFrames, fps, frame, playbackRate, deltaTime)
    ensures Play(numFrames, fps, frame, playbackRate, deltaTime, ticks)
         == (Play(numFrames, fps, a.frame, playbackRate, deltaTime, ticks - 1).0,
             Play(numFrames, fps, a.frame, playbackRate, deltaTime, ticks - 1).1 + if a.finished then 1 else 0)
  {
  }

  /** Wrapping from the last frame: (L + m) splits as one more loop and the same remainder. */
  lemma WrapCount(loopLength: int, n: nat)
    requires loopLength > 0 && n > 0
    ensures (loopLength - 1 + n) % loopLength == (n - 1) % loopLength
    ensures (loopLength - 1 + n) / loopLength == (n - 1) / loopLength + 1
  {
    var q, r := (n - 1) / loopLength, (n - 1) % loopLength;
    assert loopLength - 1 + n == (q + 1) * loopLength + r;
    DivModUnique(loopLength - 1 + n, loopLength, q + 1, r);
  }

  /**
   * Whole-frame steps from integer frame k: after n ticks the cursor is (k + n) mod
   * (num_frames - 1), and finished was reported once per completed loop.
   */
  lemma {:induction false} PlayWholeSteps(numFrames: int, fps: real, playbackRate: real, deltaTime: real, k: nat, n: nat)
    requires numFrames >= 2 && k < numFrames - 1
    requires deltaTime <= MAX_FRAME_TIME && deltaTime * fps * playbackRate == 1.0
    ensures Play(numFrames, fps, k as real, playbackRate, deltaTime, n)
         == (((k + n) % (numFrames - 1)) as real, (k + n) / (numFrames - 1))
    decreases n
  {
    var loopLength := numFrames - 1;
    if n == 0 {
      DivModUnique(k, loopLength, 0, k);
    } else {
      var wraps := k + 1 == loopLength;
      var next: nat := if wraps then 0 else k + 1;
      var a := Advance(next as real, wraps);
      WholeStep(numFrames, fps, playbackRate, deltaTime, k);
      PlayStep(numFrames, fps, k as real, playbackRate, deltaTime, n, a);
      PlayWholeSteps(numFrames, fps, playbackRate, deltaTime, next, n - 1);
      if wraps {
        WrapCount(loopLength, n);
      }
    }
  }

  /**
   * 30 frames at 30 fps, rate 1, ticked thirty times by 1/30: finished is reported
   * exactly once and playback restarts, ending one frame past the start.
   */
  lemma ThirtyTicksFinishOnce()
    ensures Play(30, 30.0, 0.0, 1.0, 1.0 / 30.0, 30) == (1.0, 1)
  {
    assert 1.0 / 30.0 * 30.0 * 1.0 == 1.0;
    PlayWholeSteps(30, 30.0, 1.0, 1.0 / 30.0, 0, 30);
    assert (0 + 30) % 29 == 1 && (0 + 30) / 29 == 1;
  }
}
