/**
 * The Tonnetz pathway: the Tonnetz lattice drawn on a canvas under a camera
 * that eases toward a target. A 90-second throttled loop clock picks the form
 * segment and the score time; nodes near the score time glow, and link styles
 * follow the P/R/L kind.
 *
 * The `Pathway` class is one run of the animation effect. The effect depends
 * on the current segment index, so a segment change ends the run: the next
 * run starts with the camera and its target back at the initial camera and
 * a closure that already holds the new index. The camera therefore never
 * glides toward a segment's triads for more than the one frame that detects
 * the change (`RestartHoldsCamera`).
 */
module TonnetzPathway {
  import opened Js
  import opened Seqs
  import opened LoopClock
  import opened TonnetzGraph

  const LoopDuration: real := 90000.0

  /** A form segment of `form_timeline.json`: its measure range. */
  datatype FormSegment = FormSegment(start: real, end: real)

  /** The largest occurrence of any node, never below 0: the forEach loop
      over `Math.max(...occurrences_qL)` starting from `maxTime = 0`. */
  method MaxTime(nodes: seq<Node>) returns (maxTime: real)
    ensures maxTime >= 0.0
    ensures forall i, j :: 0 <= i < |nodes| && 0 <= j < |nodes[i].occurrences| ==> nodes[i].occurrences[j] <= maxTime
    ensures maxTime == 0.0 || exists i, j :: 0 <= i < |nodes| && 0 <= j < |nodes[i].occurrences| && nodes[i].occurrences[j] == maxTime
  {
    maxTime := 0.0;
    for i := 0 to |nodes|
      invariant maxTime >= 0.0
      invariant forall k, j :: 0 <= k < i && 0 <= j < |nodes[k].occurrences| ==> nodes[k].occurrences[j] <= maxTime
      invariant maxTime == 0.0 || exists k, j :: 0 <= k < i && 0 <= j < |nodes[k].occurrences| && nodes[k].occurrences[j] == maxTime
    {
      var occ := nodes[i].occurrences;
      if |occ| > 0 {
        var lastOccurrence := SeqMax(occ);
        if lastOccurrence > maxTime {
          var j :| 0 <= j < |occ| && occ[j] == lastOccurrence;
          maxTime := lastOccurrence;
        }
      }
    }
  }

  /** `occurrences_qL.some(t => t >= start * 10 && t <= end * 10)`. */
  predicate InSegment(seg: FormSegment, n: Node) {
    exists i :: 0 <= i < |n.occurrences| && seg.start * 10.0 <= n.occurrences[i] <= seg.end * 10.0
  }

  function ActiveNodes(nodes: seq<Node>, seg: FormSegment): seq<Node> {
    Filter(nodes, n => InSegment(seg, n))
  }

  /** A node is active in a segment iff one of its occurrences lies in the
      segment's range scaled by 10; active nodes keep their order. */
  lemma ActiveNodesSpec(nodes: seq<Node>, seg: FormSegment, n: Node)
    ensures n in ActiveNodes(nodes, seg) <==> n in nodes && InSegment(seg, n)
    ensures IsSubsequence(ActiveNodes(nodes, seg), nodes)
  {
    FilterMembership(nodes, m => InSegment(seg, m), n);
    FilterIsSubsequence(nodes, m => InSegment(seg, m));
  }

  /** `reduce((sum, v) => sum + v, 0)`. */
  function Sum(xs: seq<real>): real
    decreases |xs|
  {
    if xs == [] then 0.0 else Sum(xs[..|xs| - 1]) + xs[|xs| - 1]
  }

  lemma {:induction false} SumBounds(xs: seq<real>, lo: real, hi: real)
    requires forall i :: 0 <= i < |xs| ==> lo <= xs[i] <= hi
    ensures |xs| as real * lo <= Sum(xs) <= |xs| as real * hi
    decreases |xs|
  {
    if xs != [] {
      SumBounds(xs[..|xs| - 1], lo, hi);
    }
  }

  function Mean(xs: seq<real>): real
    requires |xs| > 0
  {
    Sum(xs) / |xs| as real
  }

  /** A total of `n` values between `lo` and `hi`, divided by `n`, lies
      between `lo` and `hi`. */
  lemma QuotientBetween(s: real, n: real, lo: real, hi: real)
    requires n > 0.0 && n * lo <= s <= n * hi
    ensures lo <= s / n <= hi
  {
    var q := s / n;
    assert q * n == s;
    if q < lo {
      MulLeftStrict(n, q, lo);
    }
    if q > hi {
      MulLeftStrict(n, hi, q);
    }
  }

  /** A mean lies between the smallest and the largest value. */
  lemma {:induction false} MeanWithin(xs: seq<real>)
    requires |xs| > 0
    ensures SeqMin(xs) <= Mean(xs) <= SeqMax(xs)
  {
    MeanBetween(xs, SeqMin(xs), SeqMax(xs));
  }

  lemma MeanBetween(xs: seq<real>, lo: real, hi: real)
    requires |xs| > 0
    requires forall i :: 0 <= i < |xs| ==> lo <= xs[i] <= hi
    ensures lo <= Mean(xs) <= hi
  {
    SumBounds(xs, lo, hi);
    QuotientBetween(Sum(xs), |xs| as real, lo, hi);
  }

  function Xs(nodes: seq<Node>): (r: seq<real>)
    ensures |r| == |nodes| && forall i :: 0 <= i < |nodes| ==> r[i] == nodes[i].x
  {
    seq(|nodes|, i requires 0 <= i < |nodes| => nodes[i].x)
  }

  function Ys(nodes: seq<Node>): (r: seq<real>)
    ensures |r| == |nodes| && forall i :: 0 <= i < |nodes| ==> r[i] == nodes[i].y
  {
    seq(|nodes|, i requires 0 <= i < |nodes| => nodes[i].y)
  }

  /** A camera position on the lattice and its zoom. */
  datatype Camera = Camera(x: real, y: real, zoom: real)

  const InitialCamera := Camera(0.0, 0.0, 1.5)
  const FocusZoom: real := 2.0

  /** The new camera target on a segment change: the mean position of the
      active nodes at zoom 2, or the old target when no node is active. */
  function Retarget(target: Camera, active: seq<Node>): Camera {
    if |active| > 0 then Camera(Mean(Xs(active)), Mean(Ys(active)), FocusZoom) else target
  }

  /** The new target lies inside the bounding box of the active nodes. */
  lemma RetargetInsideActive(target: Camera, active: seq<Node>)
    requires |active| > 0
    ensures SeqMin(Xs(active)) <= Retarget(target, active).x <= SeqMax(Xs(active))
    ensures SeqMin(Ys(active)) <= Retarget(target, active).y <= SeqMax(Ys(active))
    ensures Retarget(target, active).zoom == FocusZoom
  {
    MeanWithin(Xs(active));
    MeanWithin(Ys(active));
  }

  /** `c += (target - c) * 0.02`. */
  function Ease(c: real, t: real): (r: real)
    ensures c <= t ==> c <= r <= t
    ensures t <= c ==> t <= r <= c
    ensures t - r == (t - c) * 0.98
  {
    c + (t - c) * 0.02
  }

  function EaseCamera(c: Camera, t: Camera): Camera {
    Camera(Ease(c.x, t.x), Ease(c.y, t.y), Ease(c.zoom, t.zoom))
  }

  /** Each frame closes 2% of the gap and never overshoots: after `k` frames
      toward a fixed target the remaining gap is `0.98^k` of the first. */
  function EaseSteps(c: real, t: real, k: nat): real
    decreases k
  {
    if k == 0 then c else Ease(EaseSteps(c, t, k - 1), t)
  }

  function Pow98(k: nat): real {
    if k == 0 then 1.0 else Pow98(k - 1) * 0.98
  }

  lemma {:induction false} EaseStepsGap(c: real, t: real, k: nat)
    ensures t - EaseSteps(c, t, k) == (t - c) * Pow98(k)
    ensures c <= t ==> c <= EaseSteps(c, t, k) <= t
    ensures t <= c ==> t <= EaseSteps(c, t, k) <= c
    decreases k
  {
    if k > 0 {
      EaseStepsGap(c, t, k - 1);
    }
  }

  /** `k` frames of easing on all three camera coordinates. */
  function CameraSteps(c: Camera, t: Camera, k: nat): Camera {
    Camera(EaseSteps(c.x, t.x, k), EaseSteps(c.y, t.y, k), EaseSteps(c.zoom, t.zoom, k))
  }

  /** After a re-run of the effect the camera and its target are both the
      initial camera and the closure's segment index is the segment under the
      playhead, so no frame inside that segment re-aims: any number of frames
      leave the camera exactly where it starts. The frame that sees the next
      segment re-aims and moves the camera a single 2% step toward the new
      target before the next re-run puts it back. */
  lemma RestartHoldsCamera(k: nat, next: Camera)
    ensures CameraSteps(InitialCamera, InitialCamera, k) == InitialCamera
    ensures EaseCamera(InitialCamera, next)
         == Camera(next.x * 0.02, next.y * 0.02, 1.5 + (next.zoom - 1.5) * 0.02)
  {
    EaseStepsGap(0.0, 0.0, k);
    EaseStepsGap(1.5, 1.5, k);
  }

  /** `tonnetzToScreen`: the camera point sits at the canvas centre, lattice x
      grows to the right and lattice y grows upward. */
  function TonnetzToScreen(cam: Camera, isEmbed: bool, tx: real, ty: real): (real, real) {
    var scale := 700.0 * cam.zoom;
    (Width(isEmbed) / 2.0 + Offset(tx, cam.x, scale), Height(isEmbed) / 2.0 - Offset(ty, cam.y, scale))
  }

  /** A lattice coordinate's distance from the camera, in pixels. */
  function Offset(t: real, c: real, scale: real): real {
    (t - c) * scale
  }

  function Width(isEmbed: bool): real {
    if isEmbed then 1920.0 else 3840.0
  }

  function Height(isEmbed: bool): real {
    if isEmbed then 1080.0 else 2160.0
  }

  lemma TonnetzToScreenOrientation(cam: Camera, isEmbed: bool, x1: real, y1: real, x2: real, y2: real)
    requires cam.zoom > 0.0
    ensures TonnetzToScreen(cam, isEmbed, cam.x, cam.y) == (Width(isEmbed) / 2.0, Height(isEmbed) / 2.0)
    ensures x1 < x2 ==> TonnetzToScreen(cam, isEmbed, x1, y1).0 < TonnetzToScreen(cam, isEmbed, x2, y2).0
    ensures y1 < y2 ==> TonnetzToScreen(cam, isEmbed, x1, y1).1 > TonnetzToScreen(cam, isEmbed, x2, y2).1
  {
    var scale := 700.0 * cam.zoom;
    AxisOffsetZero(cam.x, scale);
    AxisOffsetZero(cam.y, scale);
    if x1 < x2 {
      AxisOffsetStrict(cam.x, x1, x2, scale);
    }
    if y1 < y2 {
      AxisOffsetStrict(cam.y, y1, y2, scale);
    }
  }

  /** The camera coordinate itself is offset by nothing. */
  lemma AxisOffsetZero(c: real, scale: real)
    ensures Offset(c, c, scale) == 0.0
  {
    var d := c - c;
    assert d == 0.0;
    assert d * scale == 0.0 * scale;
  }

  /** With a positive scale, offsets from the camera keep their order. */
  lemma AxisOffsetStrict(c: real, t1: real, t2: real, scale: real)
    requires scale > 0.0 && t1 < t2
    ensures Offset(t1, c, scale) < Offset(t2, c, scale)
  {
    MulLeftStrict(scale, t1 - c, t2 - c);
  }

  /** `occurrences_qL.some(t => Math.abs(t - currentTime) < 50)`. */
  predicate NodeActiveAt(n: Node, currentTime: real) {
    exists i :: 0 <= i < |n.occurrences| && -50.0 < n.occurrences[i] - currentTime < 50.0
  }

  /** A node glows at each of its own occurrences. */
  lemma NodeActiveAtOwnOccurrences(n: Node, i: int)
    requires 0 <= i < |n.occurrences|
    ensures NodeActiveAt(n, n.occurrences[i])
  {
    assert -50.0 < n.occurrences[i] - n.occurrences[i] < 50.0;
  }

  /** A node with no occurrences never glows, whatever the score time. */
  lemma NoOccurrencesNeverActive(n: Node)
    requires |n.occurrences| == 0
    ensures forall t :: !NodeActiveAt(n, t)
  {
  }

  /** The colour, opacity and width of a link kind. */
  datatype LinkStyle = LinkStyle(color: string, opacity: real, width: real)

  const OtherStyle := LinkStyle("#444444", 0.3, 2.0)

  /** `TRANSFORM_COLORS[kind] || TRANSFORM_COLORS.other`, and likewise for
      opacity and width: every table entry is truthy, so a kind outside the
      table takes the "other" style. */
  function StyleOf(kind: string): (s: LinkStyle)
    ensures kind !in {"P", "R", "L"} ==> s == OtherStyle
    ensures kind in {"P", "R", "L"} ==> s.opacity == 0.9 && s.width == 6.0
  {
    match kind
    case "P" => LinkStyle("#FF6B6B", 0.9, 6.0)
    case "R" => LinkStyle("#4ECDC4", 0.9, 6.0)
    case "L" => LinkStyle("#FFE66D", 0.9, 6.0)
    case _ => OtherStyle
  }

  /** What an accepted frame hands to the drawing code. */
  datatype PathFrame = PathFrame(progress: real, currentTime: real)

  predicate ZoomLevel(z: real) {
    z == InitialCamera.zoom || z == FocusZoom
  }

  /** The animation state of one effect run: the throttled clock, the current
      segment, the camera and its target. */
  class Pathway {
    const clock: FrameClock
    var segmentIndex: int
    var camera: Camera
    var target: Camera

    /** The clock is valid, the target zoom is one of the two levels and the
        camera zoom never leaves the range between them. */
    ghost predicate Valid()
      reads this, clock
    {
      && clock.Valid() && clock.loopDuration == LoopDuration
      && ZoomLevel(target.zoom)
      && InitialCamera.zoom <= camera.zoom <= FocusZoom
    }

    constructor (isEmbed: bool)
      ensures Valid() && fresh(clock)
      ensures clock.frameInterval == 1000.0 / TargetFps(isEmbed)
      ensures clock.lastFrameTime == 0.0 && clock.startTime == 0.0
      ensures segmentIndex == 0 && camera == InitialCamera && target == InitialCamera
    {
      clock := new FrameClock(TargetFps(isEmbed), LoopDuration);
      segmentIndex := 0;
      camera := InitialCamera;
      target := InitialCamera;
    }

    /** One `animate` callback. A throttled frame changes nothing. An accepted
        frame moves the segment state to the segment under the playhead when
        that differs and exists, re-aims the camera at that segment's active
        nodes, and moves the camera 2% of the way to its target. */
    method AnimateFrame(time: real, nodes: seq<Node>, segments: seq<FormSegment>, maxTime: real)
      returns (frame: Option<PathFrame>)
      requires Valid()
      modifies this, clock
      ensures Valid()
      ensures frame.Some? <==> time - old(clock.lastFrameTime) >= clock.frameInterval
      ensures frame.None? ==> && segmentIndex == old(segmentIndex) && camera == old(camera) && target == old(target)
                              && clock.lastFrameTime == old(clock.lastFrameTime) && clock.startTime == old(clock.startTime)
      ensures frame.Some? ==> clock.lastFrameTime == time && clock.startTime == LatchStart(old(clock.startTime), time)
      ensures frame.Some? ==> && frame.value.progress == Progress(time - clock.startTime, LoopDuration)
                              && 0.0 <= frame.value.progress < 1.0
                              && frame.value.currentTime == frame.value.progress * maxTime
      ensures frame.Some? ==>
                var idx := SegmentIndex(frame.value.progress, |segments|);
                && (SegmentChanges(old(segmentIndex), idx, |segments|) ==>
                      segmentIndex == idx && target == Retarget(old(target), ActiveNodes(nodes, segments[idx])))
                && (!SegmentChanges(old(segmentIndex), idx, |segments|) ==>
                      segmentIndex == old(segmentIndex) && target == old(target))
      ensures frame.Some? ==> camera == EaseCamera(old(camera), target)
    {
      var progress := clock.Tick(time);
      if progress.None? {
        return None;
      }
      var p := progress.value;
      var currentTime := p * maxTime;
      var idx := (p * |segments| as real).Floor;
      if idx != segmentIndex && 0 <= idx < |segments| {
        segmentIndex := idx;
        var active := ActiveNodes(nodes, segments[idx]);
        if |active| > 0 {
          target := Camera(Mean(Xs(active)), Mean(Ys(active)), FocusZoom);
        }
      }
      camera := EaseCamera(camera, target);
      frame := Some(PathFrame(p, currentTime));
    }
  }
}
