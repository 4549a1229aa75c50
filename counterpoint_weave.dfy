/**
 * The counterpoint weave: the four string parts of the fugue drawn as threads
 * along a time axis in quarter lengths. Each note's start is its measure's
 * cumulative start plus its offset; a note is coloured by the mean interval
 * dissonance against the notes of the other parts that sound with it, and the
 * playhead sweeps the whole piece once per 60-second loop.
 */
module CounterpointWeave {
  import opened Js
  import Seqs
  import opened ScoreTime
  import opened LoopClock

  /** The parts, in drawing order. */
  const PartOrder: seq<string> := ["Violin 1", "Violin 2", "Viola", "Violoncello"]

  const LoopDuration: real := 60000.0

  /** A note or rest of `events.json`. */
  datatype MusicEvent = MusicEvent(part: string, measure: int, offset: real, ql: real, midi: int, isRest: bool)

  /** `Array.from(data).filter(e => e && !e.isRest)`: missing entries and rests
      are dropped, the rest keep their order. */
  function LoadedEvents(data: seq<Option<MusicEvent>>): (r: seq<MusicEvent>)
    ensures |r| <= |data|
    ensures forall i :: 0 <= i < |r| ==> !r[i].isRest
    decreases |data|
  {
    if data == [] then []
    else (if data[0].Some? && !data[0].value.isRest then [data[0].value] else []) + LoadedEvents(data[1..])
  }

  /** An event is loaded exactly when it is present in the data and is not a
      rest. */
  lemma {:induction false} LoadedEventsMembership(data: seq<Option<MusicEvent>>, e: MusicEvent)
    ensures e in LoadedEvents(data) <==> Some(e) in data && !e.isRest
    decreases |data|
  {
    if data != [] {
      LoadedEventsMembership(data[1..], e);
      assert data == [data[0]] + data[1..];
    }
  }

  /** The loaded events, each wrapped back into the entry it came from. */
  function Wrapped(es: seq<MusicEvent>): (r: seq<Option<MusicEvent>>)
    ensures |r| == |es| && forall i :: 0 <= i < |es| ==> r[i] == Some(es[i])
  {
    seq(|es|, i requires 0 <= i < |es| => Some(es[i]))
  }

  /** Loading keeps the order of the data: the loaded events are an
      order-preserving subsequence of the entries. */
  lemma {:induction false} LoadedEventsKeepOrder(data: seq<Option<MusicEvent>>)
    ensures Seqs.IsSubsequence(Wrapped(LoadedEvents(data)), data)
    decreases |data|
  {
    if data != [] {
      LoadedEventsKeepOrder(data[1..]);
      var rest := Wrapped(LoadedEvents(data[1..]));
      if data[0].Some? && !data[0].value.isRest {
        assert LoadedEvents(data) == [data[0].value] + LoadedEvents(data[1..]);
        assert Wrapped(LoadedEvents(data))[1..] == rest;
      } else {
        assert LoadedEvents(data) == LoadedEvents(data[1..]);
        assert rest != [] ==> rest[0] != data[0];
      }
    }
  }

  function EventTiming(e: MusicEvent): Timed {
    Timed(e.measure, e.offset, e.ql)
  }

  function EventTimings(events: seq<MusicEvent>): (ts: seq<Timed>)
    ensures |ts| == |events|
    ensures forall i :: 0 <= i < |events| ==> ts[i] == EventTiming(events[i])
  {
    seq(|events|, i requires 0 <= i < |events| => EventTiming(events[i]))
  }

  /** The measure table of the loaded events. */
  function EventEnds(events: seq<MusicEvent>): map<int, real> {
    MaxEnds(EventTimings(events))
  }

  /** The `measuresData` loop: each measure's largest event end, from 0. */
  method TallyEvents(events: seq<MusicEvent>) returns (measuresData: map<int, real>)
    ensures measuresData == EventEnds(events)
  {
    measuresData := map[];
    var i := 0;
    while i < |events|
      invariant 0 <= i <= |events|
      invariant measuresData == MaxEnds(EventTimings(events[..i]))
    {
      var e := events[i];
      ghost var table := measuresData;
      if e.measure !in measuresData {
        measuresData := measuresData[e.measure := 0.0];
      }
      var eventEnd := e.offset + e.ql;
      measuresData := measuresData[e.measure := Max(measuresData[e.measure], eventEnd)];
      assert EventTimings(events[..i + 1]) == EventTimings(events[..i]) + [EventTiming(e)];
      MaxEndsSnoc(EventTimings(events[..i]), EventTiming(e));
      assert measuresData == table[e.measure := Max(if e.measure in table then table[e.measure] else 0.0, eventEnd)];
      i := i + 1;
    }
    assert events[..|events|] == events;
  }

  /** The `measureStarts` loop: every measure of the table at the running
      total of the measures before it, and the total as `maxTime`. */
  method CumulativeStarts(measuresData: map<int, real>) returns (measureStarts: map<int, real>, maxTime: real)
    ensures measureStarts.Keys == measuresData.Keys
    ensures forall m :: m in measureStarts ==> measureStarts[m] == StartOf(measuresData, m)
    ensures maxTime == Total(measuresData)
  {
    var keys := AscendingKeys(measuresData);
    measureStarts := map[];
    var cumulative := 0.0;
    TotalIsLastEnd(measuresData, keys);
    if |keys| > 0 {
      StartOfFirst(measuresData, keys);
    }
    var j := 0;
    while j < |keys|
      invariant 0 <= j <= |keys|
      invariant forall k :: 0 <= k < j ==> keys[k] in measureStarts
      invariant measureStarts.Keys <= measuresData.Keys
      invariant forall m :: m in measureStarts ==> measureStarts[m] == StartOf(measuresData, m)
      invariant j < |keys| ==> cumulative == StartOf(measuresData, keys[j])
      invariant j == |keys| ==> cumulative == Total(measuresData)
    {
      var m := keys[j];
      assert m in keys;
      measureStarts := measureStarts[m := cumulative];
      if j + 1 < |keys| {
        StartOfNext(measuresData, keys, j);
      }
      cumulative := cumulative + measuresData[m];
      j := j + 1;
    }
    AllKeysListed(measuresData, keys, measureStarts);
    maxTime := cumulative;
  }

  /** A table that holds every listed measure and nothing outside the measure
      table holds exactly the measures of the table. */
  lemma AllKeysListed(ends: map<int, real>, keys: seq<int>, starts: map<int, real>)
    requires AscendingKeysOf(keys, ends)
    requires forall k :: 0 <= k < |keys| ==> keys[k] in starts
    requires starts.Keys <= ends.Keys
    ensures starts.Keys == ends.Keys
  {
    forall m | m in ends.Keys
      ensures m in starts.Keys
    {
      assert m in keys;
    }
  }

  /** The start of every measure and the length of the piece. */
  method MeasureStarts(events: seq<MusicEvent>) returns (measureStarts: map<int, real>, maxTime: real)
    ensures measureStarts.Keys == EventEnds(events).Keys
    ensures forall m :: m in measureStarts ==> measureStarts[m] == StartOf(EventEnds(events), m)
    ensures maxTime == Total(EventEnds(events))
  {
    var measuresData := TallyEvents(events);
    measureStarts, maxTime := CumulativeStarts(measuresData);
  }

  /** Every event has a measure start, and every event ends by `maxTime`: the
      playhead, which runs from 0 to `maxTime`, passes over all of the piece. */
  lemma EventWithinPiece(events: seq<MusicEvent>, i: int)
    requires 0 <= i < |events|
    ensures events[i].measure in EventEnds(events)
    ensures StartOf(EventEnds(events), events[i].measure) + events[i].offset + events[i].ql <= Total(EventEnds(events))
  {
    var ts := EventTimings(events);
    var m := events[i].measure;
    assert ts[i].measure == m;
    MaxEndsCharacterized(ts, m);
    MaxEndsNonNegative(ts);
    MeasureWithinTotal(EventEnds(events), m);
  }

  /** The length of the piece is never negative. */
  lemma MaxTimeNonNegative(events: seq<MusicEvent>)
    ensures Total(EventEnds(events)) >= 0.0
  {
    MaxEndsNonNegative(EventTimings(events));
    SumOverNonNegative(EventEnds(events), EventEnds(events).Keys);
  }

  /** An event together with its start time on the piece's axis. */
  datatype Placed = Placed(start: real, event: MusicEvent)

  function EndOf(p: Placed): real {
    p.start + p.event.ql
  }

  /** Each event at `measureStarts[measure] + offset`. */
  function Place(events: seq<MusicEvent>, starts: map<int, real>): (ps: seq<Placed>)
    requires forall i :: 0 <= i < |events| ==> events[i].measure in starts
    ensures |ps| == |events|
    ensures forall i :: 0 <= i < |events| ==> ps[i] == Placed(starts[events[i].measure] + events[i].offset, events[i])
  {
    seq(|events|, i requires 0 <= i < |events| => Placed(starts[events[i].measure] + events[i].offset, events[i]))
  }

  predicate SortedByStart(ps: seq<Placed>) {
    forall i, j :: 0 <= i < j < |ps| ==> ps[i].start <= ps[j].start
  }

  /** Puts `p` before the first element that does not start earlier. */
  function Insert(p: Placed, ps: seq<Placed>): seq<Placed>
    decreases |ps|
  {
    if ps == [] || p.start <= ps[0].start then [p] + ps else [ps[0]] + Insert(p, ps[1..])
  }

  /** `sort((a, b) => aTime - bTime)`: a stable sort by start time. */
  function SortByStart(ps: seq<Placed>): seq<Placed>
    decreases |ps|
  {
    if ps == [] then [] else Insert(ps[0], SortByStart(ps[1..]))
  }

  lemma {:induction false} InsertPermutes(p: Placed, ps: seq<Placed>)
    ensures multiset(Insert(p, ps)) == multiset(ps) + multiset{p}
    decreases |ps|
  {
    if ps != [] && p.start > ps[0].start {
      InsertPermutes(p, ps[1..]);
      assert ps == [ps[0]] + ps[1..];
    }
  }

  lemma {:induction false} InsertSorted(p: Placed, ps: seq<Placed>)
    requires SortedByStart(ps)
    ensures SortedByStart(Insert(p, ps))
    decreases |ps|
  {
    if ps != [] && p.start > ps[0].start {
      InsertSorted(p, ps[1..]);
      InsertPermutes(p, ps[1..]);
      var r := Insert(p, ps[1..]);
      forall k | 0 <= k < |r|
        ensures ps[0].start <= r[k].start
      {
        var x := Seqs.ElementAt(r, k);
        assert x in multiset(r);
        assert x in multiset(ps[1..]) || x == p;
        if x != p {
          assert x in ps[1..];
          var j :| 0 <= j < |ps[1..]| && ps[1..][j] == x;
          assert ps[j + 1] == x;
        }
      }
    }
  }

  /** The sorted list is ordered by start time. */
  lemma {:induction false} SortByStartSorted(ps: seq<Placed>)
    ensures SortedByStart(SortByStart(ps))
    decreases |ps|
  {
    if ps != [] {
      SortByStartSorted(ps[1..]);
      InsertSorted(ps[0], SortByStart(ps[1..]));
    }
  }

  /** The sorted list holds exactly the input's elements. */
  lemma {:induction false} SortByStartPermutes(ps: seq<Placed>)
    ensures multiset(SortByStart(ps)) == multiset(ps)
    decreases |ps|
  {
    if ps != [] {
      SortByStartPermutes(ps[1..]);
      InsertPermutes(ps[0], SortByStart(ps[1..]));
      assert ps == [ps[0]] + ps[1..];
    }
  }

  function StartsAt(k: real): Placed -> bool {
    (p: Placed) => p.start == k
  }

  lemma {:induction false} InsertStable(p: Placed, ps: seq<Placed>, k: real)
    ensures Seqs.Filter(Insert(p, ps), StartsAt(k))
         == (if p.start == k then [p] else []) + Seqs.Filter(ps, StartsAt(k))
    decreases |ps|
  {
    if ps == [] || p.start <= ps[0].start {
      assert ([p] + ps)[1..] == ps;
    } else {
      InsertStable(p, ps[1..], k);
      assert ([ps[0]] + Insert(p, ps[1..]))[1..] == Insert(p, ps[1..]);
    }
  }

  /** The sort is stable: the events that start at the same time keep their
      input order. */
  lemma {:induction false} SortByStartStable(ps: seq<Placed>, k: real)
    ensures Seqs.Filter(SortByStart(ps), StartsAt(k)) == Seqs.Filter(ps, StartsAt(k))
    decreases |ps|
  {
    if ps != [] {
      SortByStartStable(ps[1..], k);
      InsertStable(ps[0], SortByStart(ps[1..]), k);
    }
  }

  function InPart(part: string): MusicEvent -> bool {
    (e: MusicEvent) => e.part == part
  }

  /** `eventsByPart[part]`: the part's events, sorted by start time. */
  function PartEvents(events: seq<MusicEvent>, starts: map<int, real>, part: string): seq<Placed>
    requires forall i :: 0 <= i < |events| ==> events[i].measure in starts
  {
    var own := Seqs.Filter(events, InPart(part));
    forall i | 0 <= i < |own| ensures own[i].measure in starts {
      Seqs.FilterMembership(events, InPart(part), own[i]);
    }
    SortByStart(Place(own, starts))
  }

  /** A part receives exactly its own events, each at its start time, sorted
      by start time; events of every other part are dropped. */
  lemma PartEventsSpec(events: seq<MusicEvent>, starts: map<int, real>, part: string, p: Placed)
    requires forall i :: 0 <= i < |events| ==> events[i].measure in starts
    ensures SortedByStart(PartEvents(events, starts, part))
    ensures p in PartEvents(events, starts, part) <==>
              p.event in events && p.event.part == part && p.start == starts[p.event.measure] + p.event.offset
  {
    var own := Seqs.Filter(events, InPart(part));
    forall i | 0 <= i < |own| ensures own[i].measure in starts {
      Seqs.FilterMembership(events, InPart(part), own[i]);
    }
    var placed := Place(own, starts);
    SortByStartSorted(placed);
    SortByStartPermutes(placed);
    assert p in PartEvents(events, starts, part) <==> p in multiset(placed);
    Seqs.FilterMembership(events, InPart(part), p.event);
    PlaceMembership(own, starts, p);
  }

  /** An event is placed exactly at its measure's start plus its offset. */
  lemma PlaceMembership(own: seq<MusicEvent>, starts: map<int, real>, p: Placed)
    requires forall i :: 0 <= i < |own| ==> own[i].measure in starts
    ensures p in Place(own, starts) <==>
              p.event in own && p.start == starts[p.event.measure] + p.event.offset
  {
    var placed := Place(own, starts);
    if p in placed {
      var i :| 0 <= i < |placed| && placed[i] == p;
      assert own[i] == p.event;
    }
    if p.event in own && p.start == starts[p.event.measure] + p.event.offset {
      var i :| 0 <= i < |own| && own[i] == p.event;
      assert placed[i] == p;
    }
  }

  /** The interval-class dissonance table, indexed by semitones modulo 12. */
  const DissonanceTable: seq<real> := [0.0, 0.9, 0.7, 0.3, 0.2, 0.4, 0.8, 0.1, 0.2, 0.3, 0.7, 0.8]

  function Abs(x: int): nat {
    if x < 0 then -x else x
  }

  /** `calculateDissonance`: the table entry of `|midi1 - midi2| % 12`. */
  function Dissonance(midi1: int, midi2: int): (d: real)
    ensures 0.0 <= d <= 0.9
  {
    DissonanceTable[Abs(midi1 - midi2) % 12]
  }

  /** The dissonance of two pitches does not depend on their order. */
  lemma DissonanceSymmetric(m1: int, m2: int)
    ensures Dissonance(m1, m2) == Dissonance(m2, m1)
  {
    assert Abs(m1 - m2) == Abs(m2 - m1);
  }

  /** Transposing both pitches together leaves the dissonance unchanged. */
  lemma DissonanceTranspose(m1: int, m2: int, t: int)
    ensures Dissonance(m1 + t, m2 + t) == Dissonance(m1, m2)
  {
    assert (m1 + t) - (m2 + t) == m1 - m2;
  }

  /** Unisons and octaves, and only they, are fully consonant. */
  lemma DissonanceZero(m1: int, m2: int)
    ensures Dissonance(m1, m2) == 0.0 <==> Abs(m1 - m2) % 12 == 0
  {
  }

  /** Any two pitches some whole number of octaves apart are fully consonant. */
  lemma OctavesConsonant(m: int, k: int)
    ensures Dissonance(m, m + 12 * k) == 0.0
  {
    assert Abs(m - (m + 12 * k)) == 12 * Abs(k);
  }

  /** The minor second, and only it, is the most dissonant interval class. */
  lemma DissonanceMax(m1: int, m2: int)
    ensures Dissonance(m1, m2) == 0.9 <==> Abs(m1 - m2) % 12 == 1
  {
  }

  /** `Math.max(s1, s2) < Math.min(e1, e2)`. */
  predicate Overlaps(s1: real, e1: real, s2: real, e2: real) {
    Max(s1, s2) < Min(e1, e2)
  }

  function Min(a: real, b: real): (r: real)
    ensures r <= a && r <= b && (r == a || r == b)
  {
    if a <= b then a else b
  }

  /** Two intervals overlap exactly when each starts before the other ends and
      each is non-empty; notes that only touch do not overlap. */
  lemma OverlapsIff(s1: real, e1: real, s2: real, e2: real)
    ensures Overlaps(s1, e1, s2, e2) <==> s1 < e2 && s2 < e1 && s1 < e1 && s2 < e2
    ensures Overlaps(s1, e1, s2, e2) == Overlaps(s2, e2, s1, e1)
    ensures e1 == s2 ==> !Overlaps(s1, e1, s2, e2)
  {
  }

  predicate Sound(p: Placed, q: Placed) {
    Overlaps(p.start, EndOf(p), q.start, EndOf(q))
  }

  /** The summed dissonance of `p` against the notes of `xs` it overlaps. */
  function OverlapSum(p: Placed, xs: seq<Placed>): (s: real)
    ensures 0.0 <= s <= 0.9 * OverlapCount(p, xs) as real
    decreases |xs|
  {
    if xs == [] then 0.0
    else
      var q := xs[|xs| - 1];
      OverlapSum(p, xs[..|xs| - 1]) + (if Sound(p, q) then Dissonance(p.event.midi, q.event.midi) else 0.0)
  }

  /** How many notes of `xs` overlap `p`. */
  function OverlapCount(p: Placed, xs: seq<Placed>): nat
    decreases |xs|
  {
    if xs == [] then 0
    else OverlapCount(p, xs[..|xs| - 1]) + (if Sound(p, xs[|xs| - 1]) then 1 else 0)
  }

  /** The sums over the first `n` parts other than part `own`. */
  function PartsSum(p: Placed, byPart: seq<seq<Placed>>, own: int, n: int): (s: real)
    requires 0 <= n <= |byPart|
    ensures 0.0 <= s <= 0.9 * PartsCount(p, byPart, own, n) as real
  {
    if n == 0 then 0.0
    else PartsSum(p, byPart, own, n - 1) + (if n - 1 == own then 0.0 else OverlapSum(p, byPart[n - 1]))
  }

  function PartsCount(p: Placed, byPart: seq<seq<Placed>>, own: int, n: int): nat
    requires 0 <= n <= |byPart|
  {
    if n == 0 then 0
    else PartsCount(p, byPart, own, n - 1) + (if n - 1 == own then 0 else OverlapCount(p, byPart[n - 1]))
  }

  /** The mean dissonance against overlapping notes of the other parts, or 0
      when no such note sounds. */
  function MeanDissonance(p: Placed, byPart: seq<seq<Placed>>, own: int): real {
    var n := PartsCount(p, byPart, own, |byPart|);
    if n == 0 then 0.0 else PartsSum(p, byPart, own, |byPart|) / n as real
  }

  /** A mean of values in `[0, 0.9]` lies in `[0, 0.9]`. */
  lemma MeanBounded(s: real, n: nat)
    requires n > 0 && 0.0 <= s <= 0.9 * n as real
    ensures 0.0 <= s / n as real <= 0.9
  {
    var nr := n as real;
    assert (s / nr) * nr == s;
  }

  /** `avgDissonance` of one note: loops over the other parts and their notes,
      summing the dissonance and counting the overlapping ones. */
  method AverageDissonance(p: Placed, byPart: seq<seq<Placed>>, own: int) returns (avg: real)
    ensures avg == MeanDissonance(p, byPart, own)
    ensures 0.0 <= avg <= 0.9
  {
    var total := 0.0;
    var count := 0;
    var q := 0;
    while q < |byPart|
      invariant 0 <= q <= |byPart|
      invariant total == PartsSum(p, byPart, own, q)
      invariant count == PartsCount(p, byPart, own, q)
    {
      if q != own {
        var others := byPart[q];
        var k := 0;
        ghost var sum0 := total;
        ghost var count0 := count;
        while k < |others|
          invariant 0 <= k <= |others|
          invariant total == sum0 + OverlapSum(p, others[..k])
          invariant count == count0 + OverlapCount(p, others[..k])
        {
          var o := others[k];
          assert others[..k + 1][..k] == others[..k];
          if Max(p.start, o.start) < Min(EndOf(p), EndOf(o)) {
            total := total + Dissonance(p.event.midi, o.event.midi);
            count := count + 1;
          }
          k := k + 1;
        }
        assert others[..|others|] == others;
      }
      q := q + 1;
    }
    avg := total;
    if count > 0 {
      MeanBounded(total, count);
      avg := total / count as real;
    }
  }

  /** `if (startTime > currentTime) return;`: only notes that have begun are
      drawn. */
  predicate Drawn(p: Placed, currentTime: real) {
    p.start <= currentTime
  }

  /** A note is active while the playhead is between its start and its end. */
  predicate Active(p: Placed, currentTime: real) {
    p.start <= currentTime <= EndOf(p)
  }

  /** An active note is always a drawn one. */
  lemma ActiveIsDrawn(p: Placed, currentTime: real)
    requires Active(p, currentTime)
    ensures Drawn(p, currentTime)
  {
  }

  /** An entry of `activeNotes`. */
  datatype ActiveNote = ActiveNote(part: string, midi: int, time: real)

  function ActiveOf(part: string, ps: seq<Placed>, currentTime: real): seq<ActiveNote>
    decreases |ps|
  {
    if ps == [] then []
    else
      var p := ps[|ps| - 1];
      ActiveOf(part, ps[..|ps| - 1], currentTime)
        + (if Active(p, currentTime) then [ActiveNote(part, p.event.midi, p.start)] else [])
  }

  /** The active notes of the first `n` parts, part by part. */
  function ActiveUpTo(byPart: seq<seq<Placed>>, n: int, currentTime: real): seq<ActiveNote>
    requires 0 <= n <= |byPart| <= |PartOrder|
  {
    if n == 0 then [] else ActiveUpTo(byPart, n - 1, currentTime) + ActiveOf(PartOrder[n - 1], byPart[n - 1], currentTime)
  }

  /** A note is listed as active for a part iff one of the part's notes is
      active and has that pitch and start. */
  lemma {:induction false} ActiveOfMembership(part: string, ps: seq<Placed>, currentTime: real, a: ActiveNote)
    ensures a in ActiveOf(part, ps, currentTime) <==>
              a.part == part && exists i :: 0 <= i < |ps| && Active(ps[i], currentTime)
                                              && a.midi == ps[i].event.midi && a.time == ps[i].start
    decreases |ps|
  {
    if ps != [] {
      var init := ps[..|ps| - 1];
      ActiveOfMembership(part, init, currentTime, a);
      assert forall i :: 0 <= i < |init| ==> init[i] == ps[i];
      var p := ps[|ps| - 1];
      if a.part == part && Active(p, currentTime) && a.midi == p.event.midi && a.time == p.start {
        assert a in [ActiveNote(part, p.event.midi, p.start)];
      }
    }
  }

  /** The loop that collects `activeNotes` for the current frame, part by part
      in `PART_ORDER` and note by note. */
  method CollectActive(byPart: seq<seq<Placed>>, currentTime: real) returns (activeNotes: seq<ActiveNote>)
    requires |byPart| == |PartOrder|
    ensures activeNotes == ActiveUpTo(byPart, |byPart|, currentTime)
  {
    activeNotes := [];
    var q := 0;
    while q < |byPart|
      invariant 0 <= q <= |byPart|
      invariant activeNotes == ActiveUpTo(byPart, q, currentTime)
    {
      var part := PartOrder[q];
      var ps := byPart[q];
      ghost var before := activeNotes;
      var k := 0;
      while k < |ps|
        invariant 0 <= k <= |ps|
        invariant activeNotes == before + ActiveOf(part, ps[..k], currentTime)
      {
        var p := ps[k];
        assert ps[..k + 1][..k] == ps[..k];
        if p.start <= currentTime && currentTime <= EndOf(p) {
          activeNotes := activeNotes + [ActiveNote(part, p.event.midi, p.start)];
        }
        k := k + 1;
      }
      assert ps[..|ps|] == ps;
      q := q + 1;
    }
  }

  /** `currentTime = progress * maxTime`. */
  function CurrentTime(progress: real, maxTime: real): real {
    progress * maxTime
  }

  /** With progress in `[0, 1)` the playhead stays inside the piece, and it
      never reaches the end of a non-empty piece. */
  lemma CurrentTimeBounds(progress: real, maxTime: real)
    requires 0.0 <= progress < 1.0 && maxTime >= 0.0
    ensures 0.0 <= CurrentTime(progress, maxTime) <= maxTime
    ensures maxTime > 0.0 ==> CurrentTime(progress, maxTime) < maxTime
  {
    if maxTime > 0.0 {
      MulLeftMonotone(maxTime, 0.0, progress);
      MulLeftStrict(maxTime, progress, 1.0);
    }
  }

  /** One animation frame of the weave: the throttled clock, then the
      playhead's position in the piece. */
  method AnimateFrame(clock: FrameClock, maxTime: real, time: real) returns (currentTime: Option<real>)
    requires clock.Valid() && clock.loopDuration == LoopDuration && maxTime >= 0.0
    modifies clock
    ensures clock.Valid()
    ensures currentTime.Some? <==> time - old(clock.lastFrameTime) >= clock.frameInterval
    ensures currentTime.None? ==> clock.lastFrameTime == old(clock.lastFrameTime) && clock.startTime == old(clock.startTime)
    ensures currentTime.Some? ==> currentTime.value == CurrentTime(Progress(time - clock.startTime, LoopDuration), maxTime)
    ensures currentTime.Some? ==> 0.0 <= currentTime.value <= maxTime
  {
    var progress := clock.Tick(time);
    if progress.None? {
      return None;
    }
    CurrentTimeBounds(progress.value, maxTime);
    currentTime := Some(CurrentTime(progress.value, maxTime));
  }

  /** The canvas width: 1920 in embed mode, 3840 otherwise. */
  function Width(isEmbed: bool): real {
    if isEmbed then 1920.0 else 3840.0
  }

  const PaddingLeft: real := 150.0
  const PaddingRight: real := 150.0

  /** The width left between the paddings: 1620 in embed mode, 3540
      otherwise. */
  function ChartWidth(isEmbed: bool): (w: real)
    ensures w > 0.0
    ensures w == if isEmbed then 1620.0 else 3540.0
  {
    Width(isEmbed) - PaddingLeft - PaddingRight
  }

  /** `timeToX`. The division by `maxTime` has no guard in the view, so an
      empty piece is excluded here. */
  function TimeToX(time: real, maxTime: real, isEmbed: bool): real
    requires maxTime != 0.0
  {
    PaddingLeft + (time / maxTime) * ChartWidth(isEmbed)
  }

  /** The time axis runs from the left padding at time 0 to the right padding
      at `maxTime`, and later times lie further right. */
  lemma TimeToXSpan(maxTime: real, isEmbed: bool, t1: real, t2: real)
    requires maxTime > 0.0
    ensures TimeToX(0.0, maxTime, isEmbed) == PaddingLeft
    ensures TimeToX(maxTime, maxTime, isEmbed) == Width(isEmbed) - PaddingRight
    ensures t1 <= t2 ==> TimeToX(t1, maxTime, isEmbed) <= TimeToX(t2, maxTime, isEmbed)
  {
    assert maxTime / maxTime == 1.0;
    if t1 <= t2 {
      assert t1 / maxTime <= t2 / maxTime by {
        assert t1 / maxTime == t1 * (1.0 / maxTime);
        assert t2 / maxTime == t2 * (1.0 / maxTime);
        MulLeftMonotone(1.0 / maxTime, t1, t2);
      }
      MulLeftMonotone(ChartWidth(isEmbed), t1 / maxTime, t2 / maxTime);
    }
  }
}
