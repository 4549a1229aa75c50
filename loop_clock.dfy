/**
 * The loop clock shared by the canvas views (tension curve, counterpoint weave,
 * Tonnetz pathway, motif constellation): a start time latched on the first
 * frame, `elapsed = time - start`, and `progress = (elapsed % LOOP) / LOOP`.
 * The throttled views also drop every frame that comes sooner than
 * `1000 / targetFPS` milliseconds after the last accepted one.
 *
 * Times are milliseconds as `real`; JavaScript's `%` is the truncating
 * remainder, written out below.
 */
module LoopClock {
  import opened Js

  /** `Math.trunc`: rounds toward zero. */
  function Trunc(r: real): (n: int)
    ensures r >= 0.0 ==> n as real <= r < n as real + 1.0
    ensures r < 0.0 ==> n as real - 1.0 < r <= n as real
  {
    if r >= 0.0 then r.Floor else -((-r).Floor)
  }

  /** JavaScript's `x % m` for a positive modulus: the sign follows `x`. */
  function JsRem(x: real, m: real): real
    requires m > 0.0
  {
    x - m * Trunc(x / m) as real
  }

  /** For a non-negative dividend the remainder lies in `[0, m)`. */
  lemma JsRemBounds(x: real, m: real)
    requires m > 0.0 && x >= 0.0
    ensures 0.0 <= JsRem(x, m) < m
  {
    var q := x / m;
    assert q >= 0.0;
    var n := Trunc(q) as real;
    assert n <= q < n + 1.0;
    assert x == m * q;
    assert JsRem(x, m) == x - m * n;
    MulLeftMonotone(m, n, q);
    MulLeftStrict(m, q, n + 1.0);
    assert m * (n + 1.0) == m * n + m;
    assert m * q < m * (n + 1.0);
    assert x - m * n < m;
  }

  lemma MulLeftMonotone(m: real, a: real, b: real)
    requires m > 0.0 && a <= b
    ensures m * a <= m * b
  {
    assert m * b - m * a == m * (b - a);
  }

  lemma MulLeftStrict(m: real, a: real, b: real)
    requires m > 0.0 && a < b
    ensures m * a < m * b
  {
    assert m * b - m * a == m * (b - a);
  }

  /** Adding one whole period to a non-negative dividend leaves the remainder
      unchanged. */
  lemma JsRemPeriodic(x: real, m: real)
    requires m > 0.0 && x >= 0.0
    ensures JsRem(x + m, m) == JsRem(x, m)
  {
    assert (x + m) / m == x / m + m / m;
    assert m / m == 1.0;
    assert Trunc((x + m) / m) == Trunc(x / m) + 1;
    var n := Trunc(x / m) as real;
    assert m * (n + 1.0) == m * n + m;
  }

  /** `(elapsed % loop) / loop`. */
  function Progress(elapsed: real, loop: real): real
    requires loop > 0.0
  {
    JsRem(elapsed, loop) / loop
  }

  /** The invariant of the loop clock: once time has started to run, progress
      stays in `[0, 1)`. */
  lemma ProgressInUnitInterval(elapsed: real, loop: real)
    requires loop > 0.0 && elapsed >= 0.0
    ensures 0.0 <= Progress(elapsed, loop) < 1.0
  {
    JsRemBounds(elapsed, loop);
    var r := JsRem(elapsed, loop);
    assert r / loop < loop / loop by {
      assert r < loop;
      assert r / loop == r * (1.0 / loop);
      assert loop / loop == loop * (1.0 / loop);
      MulLeftStrict(1.0 / loop, r, loop);
    }
  }

  /** Progress wraps: one full loop later the animation is at the same place. */
  lemma ProgressPeriodic(elapsed: real, loop: real)
    requires loop > 0.0 && elapsed >= 0.0
    ensures Progress(elapsed + loop, loop) == Progress(elapsed, loop)
  {
    JsRemPeriodic(elapsed, loop);
  }

  /** `segmentIndex = Math.floor(progress * formSegments.length)`. */
  function SegmentIndex(progress: real, len: nat): int {
    (progress * len as real).Floor
  }

  /** With progress in `[0, 1)` the index always names a segment. */
  lemma SegmentIndexInRange(progress: real, len: nat)
    requires 0.0 <= progress < 1.0 && len > 0
    ensures 0 <= SegmentIndex(progress, len) < len
  {
    MulLeftMonotone(len as real, 0.0, progress);
    MulLeftStrict(len as real, progress, 1.0);
  }

  /** The segment state moves only to a different index naming an existing
      segment. */
  predicate SegmentChanges(current: int, index: int, len: nat) {
    index != current && 0 <= index < len
  }

  /** `if (startTimeRef.current === 0) startTimeRef.current = time`. */
  function LatchStart(start: real, time: real): (r: real)
    ensures start == 0.0 ==> r == time
    ensures start != 0.0 ==> r == start
  {
    if start == 0.0 then time else start
  }

  /** The start reference after frames at the given times. */
  function LatchedAfter(start: real, times: seq<real>): real
    decreases |times|
  {
    if times == [] then start else LatchedAfter(LatchStart(start, times[0]), times[1..])
  }

  /** The start reference is latched once: a non-zero reference never
      changes again, and from 0 the first frame with a non-zero time sets it
      for good. */
  lemma {:induction false} LatchOnce(start: real, times: seq<real>)
    ensures start != 0.0 ==> LatchedAfter(start, times) == start
    ensures start == 0.0 && |times| > 0 && times[0] != 0.0 ==> LatchedAfter(start, times) == times[0]
    decreases |times|
  {
    if times != [] {
      LatchOnce(LatchStart(start, times[0]), times[1..]);
    }
  }

  /** `isEmbed ? 30 : 60`. */
  function TargetFps(isEmbed: bool): (fps: real)
    ensures fps > 0.0
    ensures isEmbed ==> fps == 30.0
    ensures !isEmbed ==> fps == 60.0
  {
    if isEmbed then 30.0 else 60.0
  }

  /** An embedded view waits twice as long between accepted frames as the
      full-size view. */
  lemma EmbedFrameIntervalDoubles()
    ensures 1000.0 / TargetFps(true) == 2.0 * (1000.0 / TargetFps(false))
  {
    assert 1000.0 / 30.0 == 2.0 * (1000.0 / 60.0);
  }

  /** The frame-throttled clock of `animate`: `lastFrameTime` and the latched
      start time. */
  class FrameClock {
    const frameInterval: real
    const loopDuration: real
    var lastFrameTime: real
    var startTime: real

    /** Accepted frames are at least one interval apart and the start time is
        the first accepted frame's time, so no accepted frame lies before it. */
    ghost predicate Valid()
      reads this
    {
      && frameInterval > 0.0
      && loopDuration > 0.0
      && 0.0 <= startTime <= lastFrameTime
      && (startTime == 0.0 ==> lastFrameTime == 0.0)
    }

    /** `let lastFrameTime = 0; const frameInterval = 1000 / targetFPS;` with the
        start reference still at 0. */
    constructor (targetFps: real, loop: real)
      requires targetFps > 0.0 && loop > 0.0
      ensures Valid()
      ensures frameInterval == 1000.0 / targetFps && loopDuration == loop
      ensures lastFrameTime == 0.0 && startTime == 0.0
    {
      frameInterval := 1000.0 / targetFps;
      loopDuration := loop;
      lastFrameTime := 0.0;
      startTime := 0.0;
    }

    /** One animation-frame callback. A frame sooner than `frameInterval`
        after the last accepted one is skipped and changes nothing; an accepted
        frame records its time, latches the start time if it is still 0, and
        yields the loop progress. */
    method Tick(time: real) returns (progress: Option<real>)
      requires Valid()
      modifies this
      ensures Valid()
      ensures progress.Some? <==> time - old(lastFrameTime) >= frameInterval
      ensures progress.None? ==> lastFrameTime == old(lastFrameTime) && startTime == old(startTime)
      ensures progress.Some? ==> lastFrameTime == time && startTime == LatchStart(old(startTime), time)
      ensures progress.Some? ==> time >= startTime
      ensures progress.Some? ==> progress.value == Progress(time - startTime, loopDuration)
      ensures progress.Some? ==> 0.0 <= progress.value < 1.0
    {
      if time - lastFrameTime < frameInterval {
        return None;
      }
      lastFrameTime := time;
      if startTime == 0.0 {
        startTime := time;
      }
      var elapsed := time - startTime;
      ProgressInUnitInterval(elapsed, loopDuration);
      progress := Some(Progress(elapsed, loopDuration));
    }
  }
}
