/**
 * The cross-linked Tonnetz and form-segment viewer. Score offsets (quarter
 * lengths) are mapped to measure numbers through "anchors", one per measure,
 * holding the offset at which the measure starts; hovering over or clicking
 * a form segment selects it, and the selected segment highlights the triads that occur inside its measure range and the links
 * between two highlighted triads.
 */
module TonnetzSync {
  import opened Js
  import Seqs
  import opened ScoreTime
  import opened TonnetzGraph

  /** A row of `events.json`. `measure` and `offset` are `Some` exactly when
      the JSON value is a number; `ql` is the optional quarter length. */
  datatype EventsRow = EventsRow(measure: Option<int>, offset: Option<real>, ql: Option<real>)

  /** Rows without a numeric measure or offset are skipped. */
  predicate IsTimed(r: EventsRow) {
    r.measure.Some? && r.offset.Some?
  }

  /** What one row contributes to the measure table: nothing, or its measure,
      offset and quarter length (`ql || 0`). */
  function RowTimings(r: EventsRow): (ts: seq<Timed>)
    ensures |ts| <= 1
    ensures |ts| == 1 <==> IsTimed(r)
  {
    if IsTimed(r) then [Timed(r.measure.value, r.offset.value, r.ql.GetOr(0.0))] else []
  }

  /** The timed events of a list of rows, in order. */
  function Timings(rows: seq<EventsRow>): seq<Timed>
    decreases |rows|
  {
    if rows == [] then [] else RowTimings(rows[0]) + Timings(rows[1..])
  }

  lemma {:induction false} TimingsAppend(a: seq<EventsRow>, b: seq<EventsRow>)
    ensures Timings(a + b) == Timings(a) + Timings(b)
    decreases |a|
  {
    if a == [] {
      assert a + b == b;
    } else {
      assert (a + b)[1..] == a[1..] + b;
      TimingsAppend(a[1..], b);
    }
  }

  /** A row without a numeric measure or offset contributes nothing, wherever it
      stands among the rows. */
  lemma InvalidRowIgnored(a: seq<EventsRow>, r: EventsRow, b: seq<EventsRow>)
    requires !IsTimed(r)
    ensures Timings(a + [r] + b) == Timings(a + b)
  {
    TimingsAppend(a + [r], b);
    TimingsAppend(a, [r]);
    TimingsAppend(a, b);
    assert [r][1..] == [];
    assert Timings([r]) == [];
    assert Timings(a + [r]) == Timings(a);
  }

  /** The measures that have timed events are exactly the measures of the rows
      that carry a numeric measure and offset. */
  lemma {:induction false} TimingsMeasures(rows: seq<EventsRow>, m: int)
    ensures (exists k :: 0 <= k < |Timings(rows)| && Timings(rows)[k].measure == m)
        <==> (exists i :: 0 <= i < |rows| && IsTimed(rows[i]) && rows[i].measure.value == m)
    decreases |rows|
  {
    if rows != [] {
      TimingsMeasures(rows[1..], m);
      var ts := Timings(rows);
      var head := RowTimings(rows[0]);
      var tail := Timings(rows[1..]);
      assert ts == head + tail;
      if exists i :: 0 <= i < |rows| && IsTimed(rows[i]) && rows[i].measure.value == m {
        var i :| 0 <= i < |rows| && IsTimed(rows[i]) && rows[i].measure.value == m;
        if i == 0 {
          assert ts[0].measure == m;
        } else {
          assert rows[1..][i - 1] == rows[i];
          var k :| 0 <= k < |tail| && tail[k].measure == m;
          assert ts[|head| + k] == tail[k];
        }
      }
      if exists k :: 0 <= k < |ts| && ts[k].measure == m {
        var k :| 0 <= k < |ts| && ts[k].measure == m;
        if k < |head| {
          assert IsTimed(rows[0]) && rows[0].measure.value == m;
        } else {
          assert tail[k - |head|].measure == m;
          var i :| 0 <= i < |rows[1..]| && IsTimed(rows[1..][i]) && rows[1..][i].measure.value == m;
          assert rows[i + 1] == rows[1..][i];
        }
      }
    }
  }

  /** A measure anchor: the measure number and the offset where it starts. */
  datatype Anchor = Anchor(measure: int, offset: real)

  function Measures(anchors: seq<Anchor>): (ms: seq<int>)
    ensures |ms| == |anchors|
    ensures forall i :: 0 <= i < |anchors| ==> ms[i] == anchors[i].measure
  {
    seq(|anchors|, i requires 0 <= i < |anchors| => anchors[i].measure)
  }

  /** `anchors` lists every measure of the table `ends` once, in ascending
      order, each at the sum of the lengths of the measures before it. */
  ghost predicate AnchorsOf(anchors: seq<Anchor>, ends: map<int, real>) {
    && AscendingKeysOf(Measures(anchors), ends)
    && forall i :: 0 <= i < |anchors| ==> anchors[i].offset == StartOf(ends, anchors[i].measure)
  }

  /** `buildMeasureAnchors`: tallies each measure's largest event end, then
      walks the measures in ascending order with a running total. */
  method BuildMeasureAnchors(rows: seq<EventsRow>) returns (anchors: seq<Anchor>)
    ensures AnchorsOf(anchors, MaxEnds(Timings(rows)))
  {
    var measuresData := TallyMeasures(rows);
    anchors := CumulativeAnchors(measuresData);
  }

  /** The first loop of `buildMeasureAnchors`: the `measuresData` record. */
  method TallyMeasures(rows: seq<EventsRow>) returns (measuresData: map<int, real>)
    ensures measuresData == MaxEnds(Timings(rows))
  {
    measuresData := map[];
    var i := 0;
    while i < |rows|
      invariant 0 <= i <= |rows|
      invariant measuresData == MaxEnds(Timings(rows[..i]))
    {
      var r := rows[i];
      assert rows[..i + 1] == rows[..i] + [r];
      TallyRowStep(rows[..i], r);
      if r.measure.Some? && r.offset.Some? {
        var m := r.measure.value;
        var o := r.offset.value;
        ghost var table := measuresData;
        if m !in measuresData {
          measuresData := measuresData[m := 0.0];
        }
        var ql := r.ql.GetOr(0.0);
        var eventEnd := o + ql;
        measuresData := measuresData[m := Max(measuresData[m], eventEnd)];
        assert measuresData == table[m := Max(if m in table then table[m] else 0.0, eventEnd)];
      }
      i := i + 1;
    }
    assert rows[..|rows|] == rows;
  }

  /** What one more row does to the measure table: nothing when it is not
      timed, otherwise its measure's entry becomes the larger of the old
      entry (0 when absent) and the row's end. */
  lemma TallyRowStep(rows: seq<EventsRow>, r: EventsRow)
    ensures !IsTimed(r) ==> MaxEnds(Timings(rows + [r])) == MaxEnds(Timings(rows))
    ensures IsTimed(r) ==>
              var table := MaxEnds(Timings(rows));
              var m := r.measure.value;
              MaxEnds(Timings(rows + [r]))
                == table[m := Max(if m in table then table[m] else 0.0, r.offset.value + r.ql.GetOr(0.0))]
  {
    TimingsSnoc(rows, r);
    if IsTimed(r) {
      MaxEndsSnoc(Timings(rows), Timed(r.measure.value, r.offset.value, r.ql.GetOr(0.0)));
    } else {
      assert Timings(rows) + RowTimings(r) == Timings(rows);
    }
  }

  lemma TimingsSnoc(rows: seq<EventsRow>, r: EventsRow)
    ensures Timings(rows + [r]) == Timings(rows) + RowTimings(r)
  {
    TimingsAppend(rows, [r]);
    assert Timings([r]) == RowTimings(r) + Timings([]);
  }

  /** The second loop of `buildMeasureAnchors`: one anchor per measure in
      ascending order, at the running total of the measures before it. */
  method CumulativeAnchors(measuresData: map<int, real>) returns (anchors: seq<Anchor>)
    ensures AnchorsOf(anchors, measuresData)
  {
    var keys := AscendingKeys(measuresData);
    anchors := [];
    var cumulative := 0.0;
    if |keys| > 0 {
      StartOfFirst(measuresData, keys);
    }
    var j := 0;
    while j < |keys|
      invariant 0 <= j <= |keys|
      invariant |anchors| == j
      invariant forall k :: 0 <= k < j ==> anchors[k] == Anchor(keys[k], StartOf(measuresData, keys[k]))
      invariant j < |keys| ==> cumulative == StartOf(measuresData, keys[j])
    {
      assert keys[j] in keys;
      anchors := anchors + [Anchor(keys[j], cumulative)];
      if j + 1 < |keys| {
        StartOfNext(measuresData, keys, j);
      }
      cumulative := cumulative + measuresData[keys[j]];
      j := j + 1;
    }
    assert Measures(anchors) == keys;
  }

  /** There is an anchor for measure `m` exactly when some row has a numeric
      measure `m` and a numeric offset. */
  lemma AnchorMeasures(anchors: seq<Anchor>, rows: seq<EventsRow>, m: int)
    requires AnchorsOf(anchors, MaxEnds(Timings(rows)))
    ensures m in Measures(anchors) <==> exists i :: 0 <= i < |rows| && IsTimed(rows[i]) && rows[i].measure.value == m
  {
    MaxEndsCharacterized(Timings(rows), m);
    TimingsMeasures(rows, m);
  }

  /** The first anchor is at offset 0. */
  lemma AnchorsStartAtZero(anchors: seq<Anchor>, ends: map<int, real>)
    requires AnchorsOf(anchors, ends) && |anchors| > 0
    ensures anchors[0].offset == 0.0
  {
    StartOfFirst(ends, Measures(anchors));
  }

  /** Each later anchor sits at the previous anchor's offset plus the previous
      measure's largest event end. */
  lemma AnchorsStep(anchors: seq<Anchor>, ends: map<int, real>, i: int)
    requires AnchorsOf(anchors, ends) && 0 <= i < |anchors| - 1
    ensures anchors[i].measure in ends
    ensures anchors[i + 1].offset == anchors[i].offset + ends[anchors[i].measure]
  {
    assert anchors[i].measure == Measures(anchors)[i];
    StartOfNext(ends, Measures(anchors), i);
  }

  predicate OffsetsSorted(anchors: seq<Anchor>) {
    forall i, j :: 0 <= i <= j < |anchors| ==> anchors[i].offset <= anchors[j].offset
  }

  /** The anchors built from any rows have non-decreasing offsets, because no
      measure's length is negative. */
  lemma AnchorOffsetsSorted(anchors: seq<Anchor>, rows: seq<EventsRow>)
    requires AnchorsOf(anchors, MaxEnds(Timings(rows)))
    ensures OffsetsSorted(anchors)
  {
    var ends := MaxEnds(Timings(rows));
    MaxEndsNonNegative(Timings(rows));
    forall k | 0 <= k < |anchors| - 1
      ensures anchors[k].offset <= anchors[k + 1].offset
    {
      AnchorsStep(anchors, ends, k);
    }
    forall i, j | 0 <= i <= j < |anchors|
      ensures anchors[i].offset <= anchors[j].offset
    {
      OffsetsGrow(anchors, i, j);
    }
  }

  /** Offsets that grow from each anchor to the next grow along the whole list. */
  lemma {:induction false} OffsetsGrow(anchors: seq<Anchor>, i: int, j: int)
    requires forall k :: 0 <= k < |anchors| - 1 ==> anchors[k].offset <= anchors[k + 1].offset
    requires 0 <= i <= j < |anchors|
    ensures anchors[i].offset <= anchors[j].offset
    decreases j - i
  {
    if i < j {
      OffsetsGrow(anchors, i + 1, j);
    }
  }

  /** Two strictly increasing lists with the same elements are equal. */
  lemma {:induction false} SortedUnique(a: seq<int>, b: seq<int>)
    requires StrictlyIncreasing(a) && StrictlyIncreasing(b)
    requires forall x :: x in a <==> x in b
    ensures a == b
    decreases |a|
  {
    if a == [] {
      if b != [] {
        var y := Seqs.ElementAt(b, 0);
        assert false;
      }
    } else {
      assert a[0] in a;
      assert a[0] in b;
      assert b[0] in b;
      assert b[0] in a;
      assert a[0] == b[0];
      forall x
        ensures x in a[1..] <==> x in b[1..]
      {
        if x in a[1..] {
          assert x in a && x != a[0];
        }
        if x in b[1..] {
          assert x in b && x != b[0];
        }
      }
      SortedUnique(a[1..], b[1..]);
      assert a == [a[0]] + a[1..];
      assert b == [b[0]] + b[1..];
    }
  }

  /** The anchors are determined by the measure table: any two lists that meet
      the anchor description are the same list. */
  lemma AnchorsUnique(a1: seq<Anchor>, a2: seq<Anchor>, ends: map<int, real>)
    requires AnchorsOf(a1, ends) && AnchorsOf(a2, ends)
    ensures a1 == a2
  {
    SortedUnique(Measures(a1), Measures(a2));
    assert |a1| == |a2|;
    forall i | 0 <= i < |a1|
      ensures a1[i] == a2[i]
    {
      assert a1[i].measure == Measures(a1)[i] == Measures(a2)[i] == a2[i].measure;
    }
  }

  /** The index of the last anchor whose offset is at most `t`, or 0 when
      every anchor lies after `t` (a linear scan from the end). */
  function LastAtOrBefore(anchors: seq<Anchor>, t: real): (k: nat)
    requires |anchors| > 0
    ensures k < |anchors|
    ensures anchors[k].offset <= t ==> forall j :: k < j < |anchors| ==> anchors[j].offset > t
    ensures anchors[k].offset > t ==> k == 0 && forall j :: 0 <= j < |anchors| ==> anchors[j].offset > t
    decreases |anchors|
  {
    if |anchors| == 1 then 0
    else if anchors[|anchors| - 1].offset <= t then |anchors| - 1
    else LastAtOrBefore(anchors[..|anchors| - 1], t)
  }

  /** The measure an offset falls in. */
  function MeasureOf(anchors: seq<Anchor>, t: real): int
    requires |anchors| > 0
  {
    anchors[LastAtOrBefore(anchors, t)].measure
  }

  /** `approxMeasureOfOffset`: a binary search for the last anchor at or before
      `t`. Without anchors there is no measure; on sorted anchors the result is
      the measure `t` falls in. */
  method ApproxMeasureOfOffset(anchors: seq<Anchor>, t: real) returns (r: Option<int>)
    ensures r.None? <==> |anchors| == 0
    ensures r.Some? ==> r.value in Measures(anchors)
    ensures r.Some? && OffsetsSorted(anchors) ==> r.value == MeasureOf(anchors, t)
  {
    if |anchors| == 0 {
      return None;
    }
    var lo, hi, ans := 0, |anchors| - 1, 0;
    while lo <= hi
      invariant 0 <= lo <= hi + 1 <= |anchors|
      invariant 0 <= ans < |anchors|
      invariant lo == 0 ==> ans == 0
      invariant lo > 0 ==> ans == lo - 1 && anchors[ans].offset <= t
      invariant OffsetsSorted(anchors) ==> forall j :: 0 <= j < lo ==> anchors[j].offset <= t
      invariant OffsetsSorted(anchors) ==> forall j :: hi < j < |anchors| ==> anchors[j].offset > t
      decreases hi - lo
    {
      var mid := (lo + hi) / 2;
      if anchors[mid].offset <= t {
        ans := mid;
        lo := mid + 1;
      } else {
        hi := mid - 1;
      }
    }
    var k := if ans < |anchors| - 1 then ans else |anchors| - 1;
    k := if 0 < k then k else 0;
    assert Measures(anchors)[k] == anchors[k].measure;
    r := Some(anchors[k].measure);
  }

  /** A form segment as the view parses it. */
  datatype Segment = Segment(startMeasure: real, endMeasure: real, score: Option<real>)

  /** `activeRange`: the measure range of the active segment, if a segment is
      active and exists. */
  function ActiveRange(activeSeg: Option<int>, segments: seq<Segment>): (r: Option<(real, real)>)
    ensures r.None? <==> activeSeg.None? || !(0 <= activeSeg.value < |segments|)
    ensures r.Some? ==> r.value.0 == segments[activeSeg.value].startMeasure
    ensures r.Some? ==> r.value.1 == segments[activeSeg.value].endMeasure
  {
    if activeSeg.None? || !(0 <= activeSeg.value < |segments|) then None
    else Some((segments[activeSeg.value].startMeasure, segments[activeSeg.value].endMeasure))
  }

  /** A click on segment `i`: deselects it when it is the active one, otherwise
      makes it active. */
  function ToggleSegment(active: Option<int>, i: int): (r: Option<int>)
    ensures r == Some(i) <==> active != Some(i)
    ensures r.Some? ==> r.value == i
  {
    if active == Some(i) then None else Some(i)
  }

  /** Clicking the same segment twice from a state where it or nothing is
      selected returns to that state. */
  lemma ToggleTwice(active: Option<int>, i: int)
    requires active == None || active == Some(i)
    ensures ToggleSegment(ToggleSegment(active, i), i) == active
  {
  }

  /** A pointer event on the segment list: entering segment `i`, leaving a
      segment, or clicking segment `i`. */
  datatype SegmentEvent = Enter(i: int) | Leave | Click(i: int)

  /** The segment buttons' handlers: entering selects the segment, leaving
      clears the selection, and a click toggles it. */
  function SegmentStep(active: Option<int>, ev: SegmentEvent): (r: Option<int>)
    ensures ev.Enter? ==> r == Some(ev.i)
    ensures ev.Leave? ==> r == None
    ensures ev.Click? ==> r == ToggleSegment(active, ev.i)
  {
    match ev
    case Enter(i) => Some(i)
    case Leave => None
    case Click(i) => ToggleSegment(active, i)
  }

  /** The selection after a sequence of pointer events. */
  function SelectionAfter(active: Option<int>, evs: seq<SegmentEvent>): Option<int>
    decreases |evs|
  {
    if evs == [] then active else SelectionAfter(SegmentStep(active, evs[0]), evs[1..])
  }

  /** A pointer has to enter a segment before clicking it, and entering has
      already selected it, so that click deselects it. */
  lemma HoverThenClickDeselects(active: Option<int>, i: int)
    ensures SelectionAfter(active, [Enter(i), Click(i)]) == None
  {
    var evs := [Enter(i), Click(i)];
    assert evs[1..] == [Click(i)] && [Click(i)][1..] == [];
    assert SelectionAfter(active, evs) == SelectionAfter(Some(i), [Click(i)]);
    assert SelectionAfter(Some(i), [Click(i)]) == SelectionAfter(None, []);
  }

  /** After a non-empty sequence of events, a selected segment is the one the
      last event touched, and that event was not a leave. */
  lemma {:induction false} SelectionFollowsLastEvent(active: Option<int>, evs: seq<SegmentEvent>)
    requires |evs| > 0
    ensures SelectionAfter(active, evs).Some? ==>
              !evs[|evs| - 1].Leave? && SelectionAfter(active, evs).value == evs[|evs| - 1].i
    decreases |evs|
  {
    var next := SegmentStep(active, evs[0]);
    assert SelectionAfter(active, evs) == SelectionAfter(next, evs[1..]);
    if |evs| > 1 {
      SelectionFollowsLastEvent(next, evs[1..]);
      assert evs[1..][|evs| - 2] == evs[|evs| - 1];
    } else {
      assert evs[1..] == [];
      assert SelectionAfter(active, evs) == next;
    }
  }

  /** Occurrence `t` falls in a measure of the range `[a, b]`. */
  predicate InMeasureRange(anchors: seq<Anchor>, t: real, a: real, b: real)
    requires |anchors| > 0
  {
    a <= MeasureOf(anchors, t) as real <= b
  }

  /** Some occurrence of the node falls in a measure of `[a, b]`. */
  predicate NodeHit(anchors: seq<Anchor>, n: Node, a: real, b: real)
    requires |anchors| > 0
  {
    exists j :: 0 <= j < |n.occurrences| && InMeasureRange(anchors, n.occurrences[j], a, b)
  }

  /** The `highlighted` memo: the ids of nodes with an occurrence inside the
      active range, and the indices of links whose two ends are such nodes.
      Nothing is highlighted without an active range or without anchors. */
  method Highlight(range: Option<(real, real)>, anchors: seq<Anchor>, nodes: seq<Node>, links: seq<Link>)
    returns (hitNodes: set<string>, hitLinks: set<int>)
    ensures range.None? || |anchors| == 0 ==> hitNodes == {}
    ensures range.Some? && |anchors| > 0 && OffsetsSorted(anchors) ==>
              forall id :: id in hitNodes <==>
                exists k :: 0 <= k < |nodes| && nodes[k].id == id && NodeHit(anchors, nodes[k], range.value.0, range.value.1)
    ensures forall i :: i in hitLinks <==> 0 <= i < |links| && links[i].source in hitNodes && links[i].target in hitNodes
  {
    hitNodes := {};
    hitLinks := {};
    if range.None? || |anchors| == 0 {
      return;
    }
    var a, b := range.value.0, range.value.1;
    var k := 0;
    while k < |nodes|
      invariant 0 <= k <= |nodes|
      invariant OffsetsSorted(anchors) ==>
                  forall id :: id in hitNodes <==>
                    exists q :: 0 <= q < k && nodes[q].id == id && NodeHit(anchors, nodes[q], a, b)
    {
      var occ := nodes[k].occurrences;
      var hit := false;
      var j := 0;
      while j < |occ|
        invariant 0 <= j <= |occ|
        invariant OffsetsSorted(anchors) ==> forall q :: 0 <= q < j ==> !InMeasureRange(anchors, occ[q], a, b)
      {
        var m := ApproxMeasureOfOffset(anchors, occ[j]);
        if m.Some? && a <= m.value as real <= b {
          hit := true;
          break;
        }
        j := j + 1;
      }
      assert OffsetsSorted(anchors) ==> (hit <==> NodeHit(anchors, nodes[k], a, b));
      if hit {
        hitNodes := hitNodes + {nodes[k].id};
      }
      k := k + 1;
    }
    var i := 0;
    while i < |links|
      invariant 0 <= i <= |links|
      invariant forall x :: x in hitLinks <==> 0 <= x < i && links[x].source in hitNodes && links[x].target in hitNodes
    {
      if links[i].source in hitNodes && links[i].target in hitNodes {
        hitLinks := hitLinks + {i};
      }
      i := i + 1;
    }
  }

  /** Zoom is kept within `[0.5, 3]`. */
  predicate ZoomInRange(z: real) {
    0.5 <= z <= 3.0
  }

  /** `Math.max(0.5, Math.min(3, z))`. */
  function ClampZoom(z: real): (r: real)
    ensures ZoomInRange(r)
    ensures ZoomInRange(z) ==> r == z
  {
    if z < 0.5 then 0.5 else if z > 3.0 then 3.0 else z
  }

  /** The wheel handler: scrolling down zooms out by 0.9, up zooms in by 1.1,
      and the result is clamped into range. */
  function WheelZoom(prev: real, deltaY: real): (z: real)
    ensures ZoomInRange(z)
    ensures ZoomInRange(prev) && deltaY > 0.0 ==> z <= prev
    ensures ZoomInRange(prev) && deltaY <= 0.0 ==> z >= prev
  {
    ClampZoom(prev * (if deltaY > 0.0 then 0.9 else 1.1))
  }

  /** The "+" button: `Math.min(3, prev * 1.2)`. */
  function ZoomIn(prev: real): (z: real)
    ensures z <= 3.0
    ensures ZoomInRange(prev) ==> ZoomInRange(z) && z >= prev
  {
    if prev * 1.2 < 3.0 then prev * 1.2 else 3.0
  }

  /** The "−" button: `Math.max(0.5, prev / 1.2)`. */
  function ZoomOut(prev: real): (z: real)
    ensures z >= 0.5
    ensures ZoomInRange(prev) ==> ZoomInRange(z) && z <= prev
  {
    if prev / 1.2 > 0.5 then prev / 1.2 else 0.5
  }

  /** Away from the clamps, "−" undoes "+". */
  lemma ZoomOutUndoesZoomIn(z: real)
    requires 0.5 <= z && z * 1.2 <= 3.0
    ensures ZoomOut(ZoomIn(z)) == z
  {
    if z * 1.2 == 3.0 {
      assert ZoomIn(z) == 3.0;
      assert 3.0 / 1.2 == z;
    } else {
      assert (z * 1.2) / 1.2 == z;
    }
  }

  /** Away from the clamps, "+" undoes "−". */
  lemma ZoomInUndoesZoomOut(z: real)
    requires z <= 3.0 && z / 1.2 >= 0.5
    ensures ZoomIn(ZoomOut(z)) == z
  {
    if z / 1.2 == 0.5 {
      assert ZoomOut(z) == 0.5;
      assert 0.5 * 1.2 == z;
    } else {
      assert (z / 1.2) * 1.2 == z;
    }
  }

  /** The zoom and pan of the view. */
  datatype ViewState = ViewState(zoom: real, panX: real, panY: real)

  /** The user's view controls. `Drag` carries the pan captured when the button
      went down and the pointer's travel since then. */
  datatype ViewAction =
    | Wheel(deltaY: real)
    | ZoomInClick
    | ZoomOutClick
    | Slide(value: real)
    | ResetClick
    | Drag(originX: real, originY: real, dx: real, dy: real)

  const InitialView := ViewState(1.0, 0.0, 0.0)

  /** One view-control event. The slider is an `<input type="range">` with
      bounds 0.5 and 3, whose value the browser keeps within those bounds. */
  function StepView(v: ViewState, a: ViewAction): (r: ViewState)
    ensures a.Wheel? || a.ZoomInClick? || a.ZoomOutClick? || a.Slide? ==> r.panX == v.panX && r.panY == v.panY
    ensures a.ResetClick? ==> r == InitialView
    ensures a.Drag? ==> r.zoom == v.zoom && r.panX - a.originX == a.dx && r.panY - a.originY == a.dy
  {
    match a
    case Wheel(d) => v.(zoom := WheelZoom(v.zoom, d))
    case ZoomInClick => v.(zoom := ZoomIn(v.zoom))
    case ZoomOutClick => v.(zoom := ZoomOut(v.zoom))
    case Slide(x) => v.(zoom := ClampZoom(x))
    case ResetClick => InitialView
    case Drag(ox, oy, dx, dy) => v.(panX := ox + dx, panY := oy + dy)
  }

  /** Zoom stays within `[0.5, 3]` from the initial view on, under every
      sequence of view controls. */
  lemma {:induction false} ZoomStaysInRange(v: ViewState, actions: seq<ViewAction>)
    requires ZoomInRange(v.zoom)
    ensures ZoomInRange(RunView(v, actions).zoom)
    decreases |actions|
  {
    if actions != [] {
      ZoomStaysInRange(StepView(v, actions[0]), actions[1..]);
    }
  }

  function RunView(v: ViewState, actions: seq<ViewAction>): ViewState
    decreases |actions|
  {
    if actions == [] then v else RunView(StepView(v, actions[0]), actions[1..])
  }
}
