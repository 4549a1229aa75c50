/**
 * The tension canvas: the per-measure tension curve of the fugue, revealed
 * from left to right as a 90-second loop sweeps a playhead from the first
 * measure to the last, with thickness and brightness growing with tension.
 */
module TensionCanvas {
  import opened Js
  import opened LoopClock

  const LoopDuration: real := 90000.0

  /** `WIDTH` and `HEIGHT`: 1080p in embed mode, 4K otherwise. */
  function Width(isEmbed: bool): real {
    if isEmbed then 1920.0 else 3840.0
  }

  function Height(isEmbed: bool): real {
    if isEmbed then 1080.0 else 2160.0
  }

  const PadLeft: real := 200.0
  const PadRight: real := 200.0
  const PadTop: real := 200.0
  const PadBottom: real := 300.0

  /** The width left between the paddings: 1520 in embed mode, 3440
      otherwise. */
  function ChartWidth(isEmbed: bool): (w: real)
    ensures w > 0.0
    ensures w == if isEmbed then 1520.0 else 3440.0
  {
    Width(isEmbed) - PadLeft - PadRight
  }

  /** The height left between the paddings: 580 in embed mode, 1660
      otherwise. */
  function ChartHeight(isEmbed: bool): (h: real)
    ensures h > 0.0
    ensures h == if isEmbed then 580.0 else 1660.0
  {
    Height(isEmbed) - PadTop - PadBottom
  }

  /** `normalize`. The division has no guard, so the model requires the
      tensions not to be all equal. */
  function Normalize(v: real, minTension: real, maxTension: real): real
    requires maxTension != minTension
  {
    (v - minTension) / (maxTension - minTension)
  }

  /** The lowest tension maps to 0, the highest to 1, and any tension between
      them into `[0, 1]`. */
  lemma NormalizeSpan(v: real, minTension: real, maxTension: real)
    requires minTension < maxTension
    ensures Normalize(minTension, minTension, maxTension) == 0.0
    ensures Normalize(maxTension, minTension, maxTension) == 1.0
    ensures minTension <= v <= maxTension ==> 0.0 <= Normalize(v, minTension, maxTension) <= 1.0
  {
    var span := maxTension - minTension;
    assert span / span == 1.0;
    if minTension <= v <= maxTension {
      var t := (v - minTension) / span;
      assert t * span == v - minTension;
      if t > 1.0 {
        MulLeftStrict(span, 1.0, t);
      }
      if t < 0.0 {
        MulLeftStrict(span, t, 0.0);
      }
    }
  }

  /** `xScale`: measure 1 at the left padding, measure `len` at the right
      one. The division has no guard, so a one-measure curve is excluded. */
  function XScale(measure: real, len: int, isEmbed: bool): real
    requires len != 1
  {
    PadLeft + (measure - 1.0) / (len - 1) as real * ChartWidth(isEmbed)
  }

  lemma XScaleSpan(len: int, isEmbed: bool, m1: real, m2: real)
    requires len > 1
    ensures XScale(1.0, len, isEmbed) == PadLeft
    ensures XScale(len as real, len, isEmbed) == Width(isEmbed) - PadRight
    ensures m1 <= m2 ==> XScale(m1, len, isEmbed) <= XScale(m2, len, isEmbed)
  {
    var d := (len - 1) as real;
    assert (len as real - 1.0) / d == 1.0;
    if m1 <= m2 {
      var t1 := (m1 - 1.0) / d;
      var t2 := (m2 - 1.0) / d;
      assert t1 * d == m1 - 1.0 && t2 * d == m2 - 1.0;
      if t1 > t2 {
        MulLeftStrict(d, t2, t1);
      }
      MulLeftMonotone(ChartWidth(isEmbed), t1, t2);
    }
  }

  /** `yScale`: tension 0 at the bottom of the chart, 1 at the top. */
  function YScale(normalized: real, isEmbed: bool): real {
    PadTop + ChartHeight(isEmbed) - normalized * ChartHeight(isEmbed)
  }

  lemma YScaleInChart(normalized: real, isEmbed: bool)
    requires 0.0 <= normalized <= 1.0
    ensures PadTop <= YScale(normalized, isEmbed) <= PadTop + ChartHeight(isEmbed)
  {
    MulLeftMonotone(ChartHeight(isEmbed), normalized, 1.0);
    MulLeftMonotone(ChartHeight(isEmbed), 0.0, normalized);
  }

  /** `currentMeasure = 1 + progress * (len - 1)`. */
  function CurrentMeasure(progress: real, len: int): real {
    1.0 + progress * (len - 1) as real
  }

  /** `currentIndex = Math.floor(currentMeasure - 1)`. */
  function CurrentIndex(currentMeasure: real): int {
    (currentMeasure - 1.0).Floor
  }

  /** The indicator is drawn when the index names a measure. */
  predicate IndicatorShown(currentMeasure: real, len: int) {
    0 <= CurrentIndex(currentMeasure) < len
  }

  /** With at least two measures the playhead stays in `[1, len)` and the
      indicator is always drawn, on a measure before the last. */
  lemma CurrentMeasureInRange(progress: real, len: int)
    requires 0.0 <= progress < 1.0 && len >= 2
    ensures 1.0 <= CurrentMeasure(progress, len) < len as real
    ensures IndicatorShown(CurrentMeasure(progress, len), len)
    ensures CurrentIndex(CurrentMeasure(progress, len)) < len - 1
  {
    var d := (len - 1) as real;
    MulLeftMonotone(d, 0.0, progress);
    MulLeftStrict(d, progress, 1.0);
  }

  /** How a curve segment between two consecutive measures is drawn. */
  datatype Stroke = Hidden | Full | Partial(fraction: real)

  /** The reveal gate: nothing before the playhead reaches `m1`, the whole
      segment once it has reached `m2`, and otherwise the part up to the
      playhead, `(currentMeasure - m1) / (m2 - m1)` clamped to `[0, 1]`. */
  function StrokeOf(m1: real, m2: real, currentMeasure: real): (s: Stroke)
    ensures s.Hidden? <==> currentMeasure < m1
    ensures s.Full? <==> m1 <= currentMeasure && m2 <= currentMeasure
    ensures s.Partial? ==> 0.0 <= s.fraction <= 1.0
  {
    if currentMeasure < m1 then Hidden
    else if m2 <= currentMeasure then Full
    else Partial(SegmentProgress(m1, m2, currentMeasure))
  }

  /** `Math.min(1, Math.max(0, (currentMeasure - m1) / (m2 - m1)))`. */
  function SegmentProgress(m1: real, m2: real, currentMeasure: real): (f: real)
    requires m1 != m2
    ensures 0.0 <= f <= 1.0
  {
    var raw := (currentMeasure - m1) / (m2 - m1);
    var low := if raw >= 0.0 then raw else 0.0;
    if low <= 1.0 then low else 1.0
  }

  /** A segment with the playhead inside it is drawn up to the playhead. */
  lemma PartialReachesPlayhead(m1: real, m2: real, currentMeasure: real)
    requires m1 <= currentMeasure < m2
    ensures StrokeOf(m1, m2, currentMeasure) == Partial((currentMeasure - m1) / (m2 - m1))
  {
    var d := m2 - m1;
    var t := (currentMeasure - m1) / d;
    assert t * d == currentMeasure - m1;
    if t > 1.0 {
      MulLeftStrict(d, 1.0, t);
    }
    if t < 0.0 {
      MulLeftStrict(d, t, 0.0);
    }
  }

  /** The curve loop of `animate`: one stroke per pair of consecutive
      measures. */
  method CurveStrokes(measures: seq<real>, currentMeasure: real) returns (strokes: seq<Stroke>)
    ensures |measures| <= 1 ==> strokes == []
    ensures |measures| > 1 ==> |strokes| == |measures| - 1
    ensures forall i :: 0 <= i < |strokes| ==> strokes[i] == StrokeOf(measures[i], measures[i + 1], currentMeasure)
  {
    strokes := [];
    var i := 0;
    while i < |measures| - 1
      invariant 0 <= i && (|measures| > 1 ==> i <= |measures| - 1)
      invariant |measures| <= 1 ==> i == 0
      invariant |strokes| == i
      invariant forall k :: 0 <= k < i ==> strokes[k] == StrokeOf(measures[k], measures[k + 1], currentMeasure)
    {
      var m1 := measures[i];
      var m2 := measures[i + 1];
      var s := Hidden;
      if m1 <= currentMeasure {
        if m2 <= currentMeasure {
          s := Full;
        } else {
          var raw := (currentMeasure - m1) / (m2 - m1);
          var low := if raw >= 0.0 then raw else 0.0;
          s := Partial(if low <= 1.0 then low else 1.0);
        }
      }
      strokes := strokes + [s];
      i := i + 1;
    }
  }

  predicate Ascending(ms: seq<real>) {
    forall i, j :: 0 <= i < j < |ms| ==> ms[i] <= ms[j]
  }

  /** Over ascending measures the revealed strokes form a prefix: once one
      segment is hidden, every later one is too, and at most one segment is
      partly drawn. */
  lemma RevealIsPrefix(measures: seq<real>, currentMeasure: real, i: int, j: int)
    requires Ascending(measures)
    requires 0 <= i < j < |measures| - 1
    ensures StrokeOf(measures[i], measures[i + 1], currentMeasure).Hidden? ==>
              StrokeOf(measures[j], measures[j + 1], currentMeasure).Hidden?
    ensures StrokeOf(measures[i], measures[i + 1], currentMeasure).Partial? ==>
              StrokeOf(measures[j], measures[j + 1], currentMeasure).Hidden?
    ensures !StrokeOf(measures[j], measures[j + 1], currentMeasure).Hidden? ==>
              StrokeOf(measures[i], measures[i + 1], currentMeasure).Full?
  {
    assert measures[i] <= measures[j];
    assert measures[i + 1] <= measures[j];
  }

  /** `avgTension` of two normalised tensions stays in `[0, 1]`. */
  function AvgTension(n1: real, n2: real): real {
    (n1 + n2) / 2.0
  }

  /** `baseThickness = 2 + avgTension * 13`. */
  function Thickness(avgTension: real): real {
    2.0 + avgTension * 13.0
  }

  /** `brightness = Math.floor(100 + avgTension * 155)`. */
  function Brightness(avgTension: real): int {
    (100.0 + avgTension * 155.0).Floor
  }

  /** For tensions normalised into `[0, 1]` the stroke is 2 to 15 wide and its
      brightness 100 to 255, and both grow with tension. */
  lemma StrokeStyleBounds(n1: real, n2: real, a: real, b: real)
    requires 0.0 <= n1 <= 1.0 && 0.0 <= n2 <= 1.0
    ensures 0.0 <= AvgTension(n1, n2) <= 1.0
    ensures 2.0 <= Thickness(AvgTension(n1, n2)) <= 15.0
    ensures 100 <= Brightness(AvgTension(n1, n2)) <= 255
    ensures a <= b ==> Thickness(a) <= Thickness(b) && Brightness(a) <= Brightness(b)
  {
  }

  /** What one accepted frame hands to the drawing code. */
  datatype Frame = Frame(elapsed: real, progress: real, currentMeasure: real)

  /** One `animate` callback: the throttled loop clock, then the playhead. */
  method AnimateFrame(clock: FrameClock, len: int, time: real) returns (frame: Option<Frame>)
    requires clock.Valid() && clock.loopDuration == LoopDuration
    modifies clock
    ensures clock.Valid()
    ensures frame.Some? <==> time - old(clock.lastFrameTime) >= clock.frameInterval
    ensures frame.None? ==> clock.lastFrameTime == old(clock.lastFrameTime) && clock.startTime == old(clock.startTime)
    ensures frame.Some? ==> clock.lastFrameTime == time && clock.startTime == LatchStart(old(clock.startTime), time)
    ensures frame.Some? ==> frame.value.elapsed == time - clock.startTime >= 0.0
    ensures frame.Some? ==> frame.value.progress == Progress(frame.value.elapsed, LoopDuration)
    ensures frame.Some? ==> frame.value.currentMeasure == CurrentMeasure(frame.value.progress, len)
    ensures frame.Some? && len >= 2 ==> 1.0 <= frame.value.currentMeasure < len as real
  {
    var progress := clock.Tick(time);
    if progress.None? {
      return None;
    }
    var elapsed := time - clock.startTime;
    var cm := 1.0 + progress.value * (len - 1) as real;
    if len >= 2 {
      CurrentMeasureInRange(progress.value, len);
    }
    frame := Some(Frame(elapsed, progress.value, cm));
  }
}
