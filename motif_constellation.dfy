/**
 * The motif constellation: the motif graph as a 3-D force layout whose node
 * sizes follow the motif counts and whose link widths follow similarity. An
 * unthrottled 60-second loop clock walks through the form segments; on every
 * change of segment the motifs occurring in it glow and the keywords of the
 * segment's first narrative float over the scene.
 */
module MotifConstellation {
  import opened Js
  import opened Seqs
  import opened LoopClock

  const LoopDuration: real := 60000.0

  /** A node of `motif_graph.json`, reduced to the fields the view reads. */
  datatype MotifNode = MotifNode(id: string, part: string, count: real, occurrences: seq<real>)

  /** A form segment of `form_timeline.json`: its title and measure range. */
  datatype FormSegment = FormSegment(title: string, start: real, end: real)

  /** An entry of `narratives.json`: its measure, its Korean text and the
      optional keyword list. */
  datatype Narrative = Narrative(measure: real, narrativeKr: string, keywords: Option<seq<string>>)

  // ---------------------------------------------------------------------
  // Keyword extraction

  /** The separator class `[\s,、，]` of the keyword split. */
  predicate IsKeywordSep(c: char) {
    IsWs(c) || c == ',' || c == '\U{3001}' || c == '\U{FF0C}'
  }

  predicate SepFree(w: string) {
    forall j :: 0 <= j < |w| ==> !IsKeywordSep(w[j])
  }

  /** The leading run of separators removed. */
  function DropSeps(s: string): (r: string)
    ensures |r| <= |s|
    ensures r == [] || !IsKeywordSep(r[0])
    ensures s != [] && IsKeywordSep(s[0]) ==> |r| < |s|
    ensures s == [] || !IsKeywordSep(s[0]) ==> r == s
    decreases |s|
  {
    if s != [] && IsKeywordSep(s[0]) then DropSeps(s[1..]) else s
  }

  /** `s.split(/[\s,、，]+/)`: the pieces between maximal runs of separators;
      a separator run at either end yields an empty piece there, and the
      empty string splits into one empty piece. */
  function Split(s: string): (pieces: seq<string>)
    ensures |pieces| >= 1
    ensures forall i :: 0 <= i < |pieces| ==> SepFree(pieces[i])
    decreases |s|
  {
    if s == [] then [""]
    else if IsKeywordSep(s[0]) then [""] + Split(DropSeps(s))
    else
      var rest := Split(s[1..]);
      [[s[0]] + rest[0]] + rest[1..]
  }

  /** A single word splits into itself. */
  lemma {:induction false} SplitWord(w: string)
    requires SepFree(w)
    ensures Split(w) == [w]
    decreases |w|
  {
    if w != [] {
      SplitWord(w[1..]);
      assert [w[0]] + w[1..] == w;
    }
  }

  /** A word followed by a separator splits off as the first piece, provided
      the text after the separator does not start with another one. */
  lemma {:induction false} SplitAfterWord(w: string, c: char, t: string)
    requires SepFree(w) && IsKeywordSep(c)
    requires t == [] || !IsKeywordSep(t[0])
    ensures Split(w + [c] + t) == [w] + Split(t)
    decreases |w|
  {
    if w == [] {
      assert w + [c] + t == [c] + t;
      assert DropSeps([c] + t) == DropSeps(t);
    } else {
      SplitAfterWord(w[1..], c, t);
      assert (w + [c] + t)[1..] == w[1..] + [c] + t;
      assert [w[0]] + w[1..] == w;
    }
  }

  /** Splitting undoes joining with single spaces: words without separators
      that are not empty come back exactly as they were joined. */
  lemma {:induction false} SplitJoin(words: seq<string>)
    requires |words| >= 1
    requires forall i :: 0 <= i < |words| ==> |words[i]| > 0 && SepFree(words[i])
    ensures Split(Join(" ", words)) == words
    decreases |words|
  {
    if |words| == 1 {
      SplitWord(words[0]);
    } else {
      var rest := words[1..];
      SplitJoin(rest);
      JoinFirstChar(" ", rest);
      SplitAfterWord(words[0], ' ', Join(" ", rest));
      assert words[0] + " " + Join(" ", rest) == words[0] + [' '] + Join(" ", rest);
      assert [words[0]] + rest == words;
    }
  }

  /** `w.length > 2`. */
  function LongWord(): string -> bool {
    (w: string) => |w| > 2
  }

  /** `extractKeywords`: the narrative's own keywords when it has a non-empty
      list; otherwise the first five tokens of its Korean text, split on
      whitespace and commas, that are longer than two characters. */
  function ExtractKeywords(n: Narrative): (ks: seq<string>)
    ensures n.keywords.Some? && |n.keywords.value| > 0 ==> ks == n.keywords.value
    ensures !(n.keywords.Some? && |n.keywords.value| > 0) ==> |ks| <= 5
    ensures !(n.keywords.Some? && |n.keywords.value| > 0) ==>
              forall i :: 0 <= i < |ks| ==> |ks[i]| > 2 && SepFree(ks[i])
  {
    if n.keywords.Some? && |n.keywords.value| > 0 then n.keywords.value
    else
      Prefix(Filter(Split(n.narrativeKr), LongWord()), 5)
  }

  /** A narrative without keywords whose text is a sentence of words joined
      by spaces yields its long words in order, at most five of them; when
      every word is long, the first five words themselves. */
  lemma KeywordsOfSentence(n: Narrative, words: seq<string>)
    requires n.keywords.None? || n.keywords == Some([])
    requires |words| >= 1
    requires forall i :: 0 <= i < |words| ==> |words[i]| > 0 && SepFree(words[i])
    requires n.narrativeKr == Join(" ", words)
    ensures ExtractKeywords(n) == Prefix(Filter(words, LongWord()), 5)
    ensures (forall i :: 0 <= i < |words| ==> |words[i]| > 2) ==> ExtractKeywords(n) == Prefix(words, 5)
  {
    SplitJoin(words);
    if forall i :: 0 <= i < |words| ==> |words[i]| > 2 {
      FilterAll(words, LongWord());
    }
  }

  // ---------------------------------------------------------------------
  // Segment contents

  /** `n.measure >= segment.start && n.measure <= segment.end`. */
  function InSegment(seg: FormSegment): Narrative -> bool {
    (n: Narrative) => seg.start <= n.measure <= seg.end
  }

  /** `segmentNarratives`. */
  function SegmentNarratives(narratives: seq<Narrative>, seg: FormSegment): seq<Narrative> {
    Filter(narratives, InSegment(seg))
  }

  /** The keywords a segment change floats: those of the first narrative in
      the segment, and none when the segment has no narrative. */
  function SegmentKeywords(narratives: seq<Narrative>, seg: FormSegment): Option<seq<string>> {
    var inSeg := SegmentNarratives(narratives, seg);
    if inSeg == [] then None else Some(ExtractKeywords(inSeg[0]))
  }

  /** A segment has keywords exactly when one of its narratives lies in its
      range, and they come from the first such narrative. */
  lemma SegmentKeywordsSpec(narratives: seq<Narrative>, seg: FormSegment)
    ensures SegmentKeywords(narratives, seg).None? <==>
              forall i :: 0 <= i < |narratives| ==> !(seg.start <= narratives[i].measure <= seg.end)
    ensures SegmentKeywords(narratives, seg).Some? ==>
              exists k :: 0 <= k < |narratives|
                          && seg.start <= narratives[k].measure <= seg.end
                          && SegmentKeywords(narratives, seg).value == ExtractKeywords(narratives[k])
                          && forall j :: 0 <= j < k ==> !(seg.start <= narratives[j].measure <= seg.end)
  {
    FilterFirst(narratives, InSegment(seg));
  }

  /** `occurrences.some(occ => occ >= segment.start && occ <= segment.end)`. */
  predicate HasOccurrence(n: MotifNode, seg: FormSegment) {
    exists j :: 0 <= j < |n.occurrences| && seg.start <= n.occurrences[j] <= seg.end
  }

  /** `id` belongs to a node that occurs in the segment. */
  predicate Highlighted(nodes: seq<MotifNode>, seg: FormSegment, id: string) {
    exists i :: 0 <= i < |nodes| && nodes[i].id == id && HasOccurrence(nodes[i], seg)
  }

  /** The `forEach` filling `nodesInSegment`: exactly the ids of the nodes
      with an occurrence in the segment, never more than there are nodes. */
  method CollectHighlighted(nodes: seq<MotifNode>, seg: FormSegment) returns (s: set<string>)
    ensures forall id :: id in s <==> Highlighted(nodes, seg, id)
    ensures |s| <= |nodes|
  {
    s := {};
    for i := 0 to |nodes|
      invariant forall id :: id in s <==> exists k :: 0 <= k < i && nodes[k].id == id && HasOccurrence(nodes[k], seg)
      invariant |s| <= i
    {
      var node := nodes[i];
      if HasOccurrence(node, seg) {
        s := s + {node.id};
      }
    }
  }

  // ---------------------------------------------------------------------
  // Node size and link look

  /** `val = 5 + (count - minCount) / (maxCount - minCount) * 25`. When every
      node has the same count the division is `0 / 0`, a NaN, written `None`. */
  function NodeVal(count: real, minCount: real, maxCount: real): Option<real> {
    if maxCount == minCount then None
    else Some(5.0 + (count - minCount) / (maxCount - minCount) * 25.0)
  }

  /** `motifNode.val || 5`: a NaN (or zero) size falls back to 5. */
  function Radius(val: Option<real>): real {
    if val.None? || val.value == 0.0 then 5.0 else val.value
  }

  function Counts(nodes: seq<MotifNode>): (cs: seq<real>)
    ensures |cs| == |nodes| && forall i :: 0 <= i < |nodes| ==> cs[i] == nodes[i].count
  {
    seq(|nodes|, i requires 0 <= i < |nodes| => nodes[i].count)
  }

  /** The loader's `map` over the nodes, with `Math.min`/`Math.max` of the
      counts. */
  function NodeVals(nodes: seq<MotifNode>): (vals: seq<Option<real>>)
    ensures |vals| == |nodes|
  {
    if nodes == [] then []
    else
      var lo := SeqMin(Counts(nodes));
      var hi := SeqMax(Counts(nodes));
      seq(|nodes|, i requires 0 <= i < |nodes| => NodeVal(nodes[i].count, lo, hi))
  }

  /** Between the extremes the size lies in `[5, 30]`. */
  lemma ValBetween(c: real, lo: real, hi: real)
    requires lo < hi && lo <= c <= hi
    ensures NodeVal(c, lo, hi).Some? && 5.0 <= NodeVal(c, lo, hi).value <= 30.0
    ensures c == lo ==> NodeVal(c, lo, hi).value == 5.0
    ensures c == hi ==> NodeVal(c, lo, hi).value == 30.0
  {
    var span := hi - lo;
    var t := (c - lo) / span;
    assert t * span == c - lo;
    assert 0.0 <= t <= 1.0 by {
      if t < 0.0 {
        MulLeftStrict(span, t, 0.0);
      }
      if t > 1.0 {
        MulLeftStrict(span, 1.0, t);
      }
    }
    assert span / span == 1.0;
  }

  /** Between the extremes the size grows with the count. */
  lemma ValMonotone(c1: real, c2: real, lo: real, hi: real)
    requires lo < hi && c1 <= c2
    ensures NodeVal(c1, lo, hi).Some? && NodeVal(c2, lo, hi).Some?
    ensures NodeVal(c1, lo, hi).value <= NodeVal(c2, lo, hi).value
  {
    var span := hi - lo;
    var t1 := (c1 - lo) / span;
    var t2 := (c2 - lo) / span;
    assert t1 * span == c1 - lo;
    assert t2 * span == c2 - lo;
    assert t1 <= t2 by {
      if t1 > t2 {
        MulLeftStrict(span, t2, t1);
      }
    }
  }

  /** Every drawn node has a radius from 5 to 30: the least frequent motif is
      5 and, unless all counts are equal, the most frequent 30; when all
      counts are equal every size is NaN and every radius 5. */
  lemma NodeSizeBounds(nodes: seq<MotifNode>, i: int)
    requires 0 <= i < |nodes|
    ensures 5.0 <= Radius(NodeVals(nodes)[i]) <= 30.0
    ensures nodes[i].count == SeqMin(Counts(nodes)) ==> Radius(NodeVals(nodes)[i]) == 5.0
    ensures nodes[i].count == SeqMax(Counts(nodes)) && SeqMin(Counts(nodes)) != SeqMax(Counts(nodes)) ==>
              Radius(NodeVals(nodes)[i]) == 30.0
    ensures SeqMin(Counts(nodes)) == SeqMax(Counts(nodes)) ==> NodeVals(nodes)[i].None?
  {
    var cs := Counts(nodes);
    var lo := SeqMin(cs);
    var hi := SeqMax(cs);
    assert NodeVals(nodes)[i] == NodeVal(cs[i], lo, hi);
    if lo != hi {
      ValBetween(cs[i], lo, hi);
    }
  }

  /** Radii never shrink as counts grow. */
  lemma NodeSizeMonotone(nodes: seq<MotifNode>, i: int, j: int)
    requires 0 <= i < |nodes| && 0 <= j < |nodes|
    requires nodes[i].count <= nodes[j].count
    ensures Radius(NodeVals(nodes)[i]) <= Radius(NodeVals(nodes)[j])
  {
    var cs := Counts(nodes);
    var lo := SeqMin(cs);
    var hi := SeqMax(cs);
    assert NodeVals(nodes)[i] == NodeVal(cs[i], lo, hi);
    assert NodeVals(nodes)[j] == NodeVal(cs[j], lo, hi);
    if lo != hi {
      ValBetween(cs[i], lo, hi);
      ValBetween(cs[j], lo, hi);
      ValMonotone(cs[i], cs[j], lo, hi);
    }
  }

  /** A link's `width` and the alpha of its `rgba` colour. */
  datatype LinkLook = LinkLook(width: real, alpha: real)

  /** `width = weight * 3`, `alpha = weight * 0.3`. */
  function LinkLookOf(weight: real): (l: LinkLook)
    ensures l.width == 10.0 * l.alpha
    ensures 0.0 <= weight <= 1.0 ==> 0.0 <= l.width <= 3.0 && 0.0 <= l.alpha <= 0.3
  {
    LinkLook(weight * 3.0, weight * 0.3)
  }

  /** `motifLink.width || 1`. */
  function DrawnWidth(l: LinkLook): real {
    if l.width == 0.0 then 1.0 else l.width
  }

  /** Drawn links are never invisible: a similarity in `(0, 1]` is drawn
      proportionally, and a zero similarity falls back to width 1, wider than
      any similarity below one third. */
  lemma DrawnWidthBounds(weight: real)
    requires 0.0 <= weight <= 1.0
    ensures 0.0 < DrawnWidth(LinkLookOf(weight)) <= 3.0
    ensures weight > 0.0 ==> DrawnWidth(LinkLookOf(weight)) == 3.0 * weight
    ensures weight == 0.0 ==> DrawnWidth(LinkLookOf(weight)) == 1.0
    ensures 0.0 < weight < 1.0 / 3.0 ==> DrawnWidth(LinkLookOf(weight)) < DrawnWidth(LinkLookOf(0.0))
  {
  }

  // ---------------------------------------------------------------------
  // The animation state

  /** The loaded view: the data, the latched start time, the current segment,
      the glowing motifs and the floating keywords. */
  class Constellation {
    const nodes: seq<MotifNode>
    const segments: seq<FormSegment>
    const narratives: seq<Narrative>
    var startTime: real
    var currentSegmentIndex: int
    var highlighted: set<string>
    var floatingKeywords: seq<string>

    /** The index names a segment (or is the initial 0); glowing motifs are
        those of the current segment; floating keywords are the keywords of
        some narrative. */
    ghost predicate Valid()
      reads this
    {
      && 0 <= currentSegmentIndex
      && (currentSegmentIndex == 0 || currentSegmentIndex < |segments|)
      && |highlighted| <= |nodes|
      && (highlighted != {} ==> currentSegmentIndex < |segments|)
      && (highlighted != {} ==>
            forall id :: id in highlighted <==> Highlighted(nodes, segments[currentSegmentIndex], id))
      && (floatingKeywords != [] ==>
            exists k :: 0 <= k < |narratives| && floatingKeywords == ExtractKeywords(narratives[k]))
    }

    /** The state once loading has finished: nothing glows, no keywords, the
        first segment current and the start time not yet latched. */
    constructor (nodes: seq<MotifNode>, segments: seq<FormSegment>, narratives: seq<Narrative>)
      ensures Valid()
      ensures this.nodes == nodes && this.segments == segments && this.narratives == narratives
      ensures startTime == 0.0 && currentSegmentIndex == 0
      ensures highlighted == {} && floatingKeywords == []
    {
      this.nodes := nodes;
      this.segments := segments;
      this.narratives := narratives;
      startTime := 0.0;
      currentSegmentIndex := 0;
      highlighted := {};
      floatingKeywords := [];
    }

    /** One `animate` callback. Without nodes the animation never starts.
        Otherwise the start time is latched, the loop progress computed, and
        when the segment index moves to another existing segment the glowing
        motifs and (if the segment has a narrative) the keywords follow it;
        every other frame leaves the segment state alone. */
    method AnimateFrame(time: real) returns (progress: Option<real>)
      requires Valid()
      modifies this
      ensures Valid()
      ensures progress.None? <==> nodes == []
      ensures progress.None? ==> startTime == old(startTime)
      ensures progress.Some? ==> startTime == LatchStart(old(startTime), time)
      ensures progress.Some? ==> progress.value == Progress(time - startTime, LoopDuration)
      ensures progress.Some? && time >= startTime ==> 0.0 <= progress.value < 1.0
      ensures progress.Some? && time >= startTime && |segments| > 0 ==>
                0 <= SegmentIndex(progress.value, |segments|) < |segments|
      ensures !(progress.Some? && SegmentChanges(old(currentSegmentIndex), SegmentIndex(progress.value, |segments|), |segments|)) ==>
                currentSegmentIndex == old(currentSegmentIndex) && highlighted == old(highlighted)
      ensures !(progress.Some? && SegmentChanges(old(currentSegmentIndex), SegmentIndex(progress.value, |segments|), |segments|)) ==>
                floatingKeywords == old(floatingKeywords)
      ensures progress.Some? && SegmentChanges(old(currentSegmentIndex), SegmentIndex(progress.value, |segments|), |segments|) ==>
                currentSegmentIndex == SegmentIndex(progress.value, |segments|)
      ensures progress.Some? && SegmentChanges(old(currentSegmentIndex), SegmentIndex(progress.value, |segments|), |segments|) ==>
                forall id :: id in highlighted <==> Highlighted(nodes, segments[currentSegmentIndex], id)
      ensures progress.Some? && SegmentChanges(old(currentSegmentIndex), SegmentIndex(progress.value, |segments|), |segments|) ==>
                floatingKeywords == SegmentKeywords(narratives, segments[currentSegmentIndex]).GetOr(old(floatingKeywords))
    {
      if |nodes| == 0 {
        return None;
      }
      if startTime == 0.0 {
        startTime := time;
      }
      var elapsed := time - startTime;
      var p := Progress(elapsed, LoopDuration);
      if elapsed >= 0.0 {
        ProgressInUnitInterval(elapsed, LoopDuration);
        if |segments| > 0 {
          SegmentIndexInRange(p, |segments|);
        }
      }
      var segmentIndex := SegmentIndex(p, |segments|);
      if segmentIndex != currentSegmentIndex && 0 <= segmentIndex < |segments| {
        currentSegmentIndex := segmentIndex;
        var segment := segments[segmentIndex];
        var segmentNarratives := SegmentNarratives(narratives, segment);
        highlighted := CollectHighlighted(nodes, segment);
        if |segmentNarratives| > 0 {
          SegmentKeywordsSpec(narratives, segment);
          floatingKeywords := ExtractKeywords(segmentNarratives[0]);
        }
      }
      progress := Some(p);
    }
  }
}
