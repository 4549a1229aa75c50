/**
 * The form timeline: the fugue's form segments as bands over a measure axis,
 * with an optional tension curve through the segment midpoints whose heights
 * are the segment scores normalised into [0, 1].
 */
module FormTimeline {
  import opened Js
  import opened Seqs
  import opened LoopClock

  /** `clamp(n, a, b) = Math.max(a, Math.min(b, n))`. */
  function Clamp(n: real, a: real, b: real): (r: real)
    ensures r >= a
    ensures a <= b ==> a <= r <= b
    ensures a <= n <= b ==> r == n
  {
    var low := if b <= n then b else n;
    if a >= low then a else low
  }

  /** Clamping is idempotent whenever the range is not empty. */
  lemma ClampIdempotent(n: real, a: real, b: real)
    requires a <= b
    ensures Clamp(Clamp(n, a, b), a, b) == Clamp(n, a, b)
  {
  }

  /** A form segment: its measure range and an optional tension score. */
  datatype Segment = Segment(startMeasure: real, endMeasure: real, score: Option<real>)

  /** A segment of `form_timeline.json` before parsing. */
  datatype RawSegment = RawSegment(startMeasure: real, endMeasure: real, score: RawValue)

  /** The loader's `map`: the score survives only when it is a number. */
  function ParseSegment(r: RawSegment): (s: Segment)
    ensures s.startMeasure == r.startMeasure && s.endMeasure == r.endMeasure
    ensures s.score.Some? <==> r.score.Num?
    ensures s.score.Some? ==> s.score.value == r.score.x
  {
    Segment(r.startMeasure, r.endMeasure, NumberOrUndefined(r.score))
  }

  function ParseSegments(rs: seq<RawSegment>): (ss: seq<Segment>)
    ensures |ss| == |rs|
    ensures forall i :: 0 <= i < |rs| ==> ss[i] == ParseSegment(rs[i])
  {
    seq(|rs|, i requires 0 <= i < |rs| => ParseSegment(rs[i]))
  }

  datatype Domain = Domain(minM: real, maxM: real)

  function Starts(segs: seq<Segment>): (r: seq<real>)
    ensures |r| == |segs| && forall i :: 0 <= i < |segs| ==> r[i] == segs[i].startMeasure
  {
    seq(|segs|, i requires 0 <= i < |segs| => segs[i].startMeasure)
  }

  function Ends(segs: seq<Segment>): (r: seq<real>)
    ensures |r| == |segs| && forall i :: 0 <= i < |segs| ==> r[i] == segs[i].endMeasure
  {
    seq(|segs|, i requires 0 <= i < |segs| => segs[i].endMeasure)
  }

  /** `domain`: `{0, 1}` with no segments, else the smallest start and the
      largest end. */
  function MeasureDomain(segs: seq<Segment>): (d: Domain)
    ensures segs == [] ==> d == Domain(0.0, 1.0)
    ensures segs != [] ==> exists i :: 0 <= i < |segs| && segs[i].startMeasure == d.minM
    ensures segs != [] ==> forall i :: 0 <= i < |segs| ==> d.minM <= segs[i].startMeasure
    ensures segs != [] ==> exists i :: 0 <= i < |segs| && segs[i].endMeasure == d.maxM
    ensures segs != [] ==> forall i :: 0 <= i < |segs| ==> segs[i].endMeasure <= d.maxM
  {
    if segs == [] then Domain(0.0, 1.0)
    else Domain(SeqMin(Starts(segs)), SeqMax(Ends(segs)))
  }

  /** The drawing box: 1000 wide, the given height, the padding on both sides. */
  datatype Dims = Dims(w: real, h: real, innerW: real, innerH: real)

  function MakeDims(height: real, padding: real): (d: Dims)
    ensures d.w == 1000.0 && d.innerW + 2.0 * padding == d.w
  {
    Dims(1000.0, height, 1000.0 - padding * 2.0, height - 80.0)
  }

  /** `scaleX`: measures to x, the domain spread over the inner width; a
      degenerate domain puts everything at the left padding. */
  function ScaleX(d: Domain, padding: real, innerW: real, m: real): real {
    if d.maxM == d.minM then padding
    else padding + ((m - d.minM) / (d.maxM - d.minM)) * innerW
  }

  /** The domain's ends land on the two edges of the inner area, a degenerate
      domain lands everywhere on the left edge, and with a proper domain and
      a non-negative width the mapping never reverses order. */
  lemma ScaleXSpan(d: Domain, padding: real, innerW: real, m1: real, m2: real)
    ensures d.maxM == d.minM ==> ScaleX(d, padding, innerW, m1) == padding
    ensures d.maxM != d.minM ==> ScaleX(d, padding, innerW, d.minM) == padding
    ensures d.maxM != d.minM ==> ScaleX(d, padding, innerW, d.maxM) == padding + innerW
    ensures d.minM < d.maxM && innerW >= 0.0 && m1 <= m2 ==>
              ScaleX(d, padding, innerW, m1) <= ScaleX(d, padding, innerW, m2)
  {
    if d.maxM != d.minM {
      assert (d.maxM - d.minM) / (d.maxM - d.minM) == 1.0;
    }
    if d.minM < d.maxM && innerW >= 0.0 && m1 <= m2 {
      var span := d.maxM - d.minM;
      var t1 := (m1 - d.minM) / span;
      var t2 := (m2 - d.minM) / span;
      assert t1 * span == m1 - d.minM;
      assert t2 * span == m2 - d.minM;
      assert t1 <= t2 by {
        if t1 > t2 {
          MulLeftStrict(span, t2, t1);
        }
      }
      if innerW > 0.0 {
        MulLeftMonotone(innerW, t1, t2);
      }
    }
  }

  /** A point of the tension curve: measure position and height. */
  datatype Point = Point(x: real, y: real)

  /** The un-normalised point of a segment: its midpoint and its score, 0
      when the score is missing. */
  function RawPoint(s: Segment): Point {
    Point((s.startMeasure + s.endMeasure) / 2.0, s.score.GetOr(0.0))
  }

  function Heights(segs: seq<Segment>): (ys: seq<real>)
    ensures |ys| == |segs| && forall i :: 0 <= i < |segs| ==> ys[i] == RawPoint(segs[i]).y
  {
    seq(|segs|, i requires 0 <= i < |segs| => RawPoint(segs[i]).y)
  }

  /** `maxY - minY || 1`: a zero span falls back to 1. */
  function Span(minY: real, maxY: real): (s: real)
    ensures maxY - minY == 0.0 ==> s == 1.0
    ensures maxY - minY != 0.0 ==> s == maxY - minY
    ensures s != 0.0
    ensures minY <= maxY ==> s > 0.0
  {
    if maxY - minY == 0.0 then 1.0 else maxY - minY
  }

  /** `(y - minY) / span`. */
  function NormalizeY(y: real, minY: real, maxY: real): real {
    (y - minY) / Span(minY, maxY)
  }

  /** A height between the extremes lands in `[0, 1]`, the lowest on 0 and,
      when the extremes differ, the highest on 1. */
  lemma NormalizeYBounds(y: real, minY: real, maxY: real)
    requires minY <= y <= maxY
    ensures 0.0 <= NormalizeY(y, minY, maxY) <= 1.0
    ensures y == minY ==> NormalizeY(y, minY, maxY) == 0.0
    ensures y == maxY && minY != maxY ==> NormalizeY(y, minY, maxY) == 1.0
  {
    var span := Span(minY, maxY);
    if maxY - minY != 0.0 {
      var t := (y - minY) / span;
      assert t * span == y - minY;
      if t < 0.0 {
        MulLeftStrict(span, t, 0.0);
      }
      if t > 1.0 {
        MulLeftStrict(span, 1.0, t);
      }
      assert span / span == 1.0;
    }
  }

  /** `tensionPoints`. */
  function TensionPoints(segs: seq<Segment>): (pts: seq<Point>)
    ensures |pts| == |segs|
  {
    if segs == [] then []
    else
      var ys := Heights(segs);
      var minY := SeqMin(ys);
      var maxY := SeqMax(ys);
      seq(|segs|, i requires 0 <= i < |segs| => Point(RawPoint(segs[i]).x, NormalizeY(RawPoint(segs[i]).y, minY, maxY)))
  }

  /** Every point sits at its segment's midpoint, in segment order; its height
      lies in `[0, 1]`; the lowest score maps to 0 and, unless all scores are
      equal, the highest maps to 1; equal scores all map to 0. */
  lemma TensionPointsSpec(segs: seq<Segment>, i: int)
    requires 0 <= i < |segs|
    ensures TensionPoints(segs)[i].x == (segs[i].startMeasure + segs[i].endMeasure) / 2.0
    ensures 0.0 <= TensionPoints(segs)[i].y <= 1.0
    ensures RawPoint(segs[i]).y == SeqMin(Heights(segs)) ==> TensionPoints(segs)[i].y == 0.0
    ensures (RawPoint(segs[i]).y == SeqMax(Heights(segs)) && SeqMin(Heights(segs)) != SeqMax(Heights(segs)))
            ==> TensionPoints(segs)[i].y == 1.0
    ensures (forall j :: 0 <= j < |segs| ==> RawPoint(segs[j]).y == RawPoint(segs[0]).y)
            ==> TensionPoints(segs)[i].y == 0.0
  {
    var ys := Heights(segs);
    var minY := SeqMin(ys);
    var maxY := SeqMax(ys);
    NormalizeYBounds(ys[i], minY, maxY);
    if forall j :: 0 <= j < |segs| ==> RawPoint(segs[j]).y == RawPoint(segs[0]).y {
      var b :| 0 <= b < |ys| && ys[b] == minY;
      assert ys[i] == ys[b];
    }
  }

  /** The band of a segment is at least 2 wide: `Math.max(2, x2 - x1)`. */
  function BandWidth(x1: real, x2: real): (w: real)
    ensures w >= 2.0 && w >= x2 - x1
    ensures x2 - x1 >= 2.0 ==> w == x2 - x1
  {
    if 2.0 >= x2 - x1 then 2.0 else x2 - x1
  }
}
