/**
 * The narratives page: the cluster and segment narratives of `narratives.json`
 * as two card lists, both narrowed by one case-insensitive search box, with
 * each cluster card listing its first representative measures.
 */
module Narratives {
  import opened Js
  import opened Seqs

  /** A motif cluster: its id, its two narratives (either may be missing)
      and its optional representative measures. */
  datatype Cluster = Cluster(clusterId: int, narrativeKo: Option<string>, narrativeEn: Option<string>,
                             representativeMeasures: Option<seq<int>>)

  /** A form segment: its optional index and id, its measure range and its two
      narratives. */
  datatype Segment = Segment(segmentIndex: Option<int>, segmentId: Option<int>, firstMeasure: int, lastMeasure: int,
                             narrativeKo: Option<string>, narrativeEn: Option<string>)

  datatype NarrativesData = NarrativesData(clusters: seq<Cluster>, segments: seq<Segment>)

  /** `(text?.toLowerCase() || '')`: a missing narrative reads as empty. */
  function Searchable(text: Option<string>): string {
    if text.None? then "" else ToLower(text.value)
  }

  /** The search test shared by both lists: the lower-cased term occurs in
      the lower-cased Korean or English narrative. */
  predicate NarrativeMatches(ko: Option<string>, en: Option<string>, s: string) {
    Includes(Searchable(ko), s) || Includes(Searchable(en), s)
  }

  function ClusterTest(s: string): Cluster -> bool {
    (c: Cluster) => NarrativeMatches(c.narrativeKo, c.narrativeEn, s)
  }

  function SegmentTest(s: string): Segment -> bool {
    (g: Segment) => NarrativeMatches(g.narrativeKo, g.narrativeEn, s)
  }

  /** `filteredClusters`: nothing before the data has loaded, every cluster
      for a blank term, otherwise the clusters whose narratives match the
      lower-cased (untrimmed) term. */
  function FilteredClusters(data: Option<NarrativesData>, searchTerm: string): seq<Cluster> {
    if data.None? then []
    else if IsBlank(searchTerm) then data.value.clusters
    else Filter(data.value.clusters, ClusterTest(ToLower(searchTerm)))
  }

  /** `filteredSegments`, by the same rule. */
  function FilteredSegments(data: Option<NarrativesData>, searchTerm: string): seq<Segment> {
    if data.None? then []
    else if IsBlank(searchTerm) then data.value.segments
    else Filter(data.value.segments, SegmentTest(ToLower(searchTerm)))
  }

  /** No data shows no cards; a blank term shows every cluster; any other
      term keeps, in order, exactly the clusters whose Korean or English
      narrative contains it regardless of letter case. */
  lemma FilteredClustersSpec(data: Option<NarrativesData>, searchTerm: string, c: Cluster)
    ensures data.None? ==> FilteredClusters(data, searchTerm) == []
    ensures data.Some? && IsBlank(searchTerm) ==> FilteredClusters(data, searchTerm) == data.value.clusters
    ensures data.Some? && !IsBlank(searchTerm) ==>
              (c in FilteredClusters(data, searchTerm) <==>
                 c in data.value.clusters && NarrativeMatches(c.narrativeKo, c.narrativeEn, ToLower(searchTerm)))
    ensures data.Some? ==> IsSubsequence(FilteredClusters(data, searchTerm), data.value.clusters)
  {
    if data.Some? {
      var test := ClusterTest(ToLower(searchTerm));
      FilterMembership(data.value.clusters, test, c);
      FilterIsSubsequence(data.value.clusters, test);
      if IsBlank(searchTerm) {
        SubsequenceRefl(data.value.clusters);
      }
    }
  }

  /** The same three cases for the segment list. */
  lemma FilteredSegmentsSpec(data: Option<NarrativesData>, searchTerm: string, g: Segment)
    ensures data.None? ==> FilteredSegments(data, searchTerm) == []
    ensures data.Some? && IsBlank(searchTerm) ==> FilteredSegments(data, searchTerm) == data.value.segments
    ensures data.Some? && !IsBlank(searchTerm) ==>
              (g in FilteredSegments(data, searchTerm) <==>
                 g in data.value.segments && NarrativeMatches(g.narrativeKo, g.narrativeEn, ToLower(searchTerm)))
    ensures data.Some? ==> IsSubsequence(FilteredSegments(data, searchTerm), data.value.segments)
  {
    if data.Some? {
      var test := SegmentTest(ToLower(searchTerm));
      FilterMembership(data.value.segments, test, g);
      FilterIsSubsequence(data.value.segments, test);
      if IsBlank(searchTerm) {
        SubsequenceRefl(data.value.segments);
      }
    }
  }

  /** A cluster and a segment with the same narratives are kept or dropped
      together: the two lists share one rule. */
  lemma SameRuleForBoth(c: Cluster, g: Segment, searchTerm: string)
    requires c.narrativeKo == g.narrativeKo && c.narrativeEn == g.narrativeEn
    ensures ClusterTest(ToLower(searchTerm))(c) == SegmentTest(ToLower(searchTerm))(g)
  {
  }

  /** A card with neither narrative never matches a non-blank term. */
  lemma MissingNarrativesNeverMatch(ko: Option<string>, en: Option<string>, searchTerm: string)
    requires ko.None? && en.None? && !IsBlank(searchTerm)
    ensures !NarrativeMatches(ko, en, ToLower(searchTerm))
  {
    ToLowerIdempotent(searchTerm);
    assert |ToLower(searchTerm)| > 0;
  }

  /** The search ignores letter case: a term and its lower-cased form select
      the same cards. */
  lemma SearchIgnoresCase(data: Option<NarrativesData>, searchTerm: string)
    ensures FilteredClusters(data, ToLower(searchTerm)) == FilteredClusters(data, searchTerm)
    ensures FilteredSegments(data, ToLower(searchTerm)) == FilteredSegments(data, searchTerm)
  {
    ToLowerIdempotent(searchTerm);
  }

  /** A card that matches a term also matches every part of that term. */
  lemma MatchNarrows(ko: Option<string>, en: Option<string>, longer: string, shorter: string)
    requires Includes(longer, shorter)
    requires NarrativeMatches(ko, en, ToLower(longer))
    ensures NarrativeMatches(ko, en, ToLower(shorter))
  {
    IncludesToLower(longer, shorter);
    if Includes(Searchable(ko), ToLower(longer)) {
      IncludesTrans(Searchable(ko), ToLower(longer), ToLower(shorter));
    } else {
      IncludesTrans(Searchable(en), ToLower(longer), ToLower(shorter));
    }
  }

  /** A term that contains a non-blank term is not blank itself. */
  lemma IncludesBlank(longer: string, shorter: string)
    requires Includes(longer, shorter) && !IsBlank(shorter)
    ensures !IsBlank(longer)
  {
    var i :| 0 <= i <= |longer| - |shorter| && OccursAt(longer, shorter, i);
    var k :| 0 <= k < |shorter| && !IsWs(shorter[k]);
    assert longer[i + k] == shorter[k];
  }

  /** Typing more never brings a card back: when the new term contains the
      old one, the clusters shown are an order-preserving subsequence of
      those shown before. */
  lemma SearchNarrowsClusters(data: Option<NarrativesData>, longer: string, shorter: string)
    requires Includes(longer, shorter)
    ensures IsSubsequence(FilteredClusters(data, longer), FilteredClusters(data, shorter))
  {
    if data.None? {
      SubsequenceRefl(FilteredClusters(data, shorter));
    } else if IsBlank(shorter) {
      FilterIsSubsequence(data.value.clusters, ClusterTest(ToLower(longer)));
      SubsequenceRefl(data.value.clusters);
    } else {
      IncludesBlank(longer, shorter);
      var p := ClusterTest(ToLower(longer));
      var q := ClusterTest(ToLower(shorter));
      forall x: Cluster | p(x)
        ensures q(x)
      {
        MatchNarrows(x.narrativeKo, x.narrativeEn, longer, shorter);
      }
      FilterStronger(data.value.clusters, p, q);
      FilterIsSubsequence(Filter(data.value.clusters, q), p);
    }
  }

  /** The same for the segment list. */
  lemma SearchNarrowsSegments(data: Option<NarrativesData>, longer: string, shorter: string)
    requires Includes(longer, shorter)
    ensures IsSubsequence(FilteredSegments(data, longer), FilteredSegments(data, shorter))
  {
    if data.None? {
      SubsequenceRefl(FilteredSegments(data, shorter));
    } else if IsBlank(shorter) {
      FilterIsSubsequence(data.value.segments, SegmentTest(ToLower(longer)));
      SubsequenceRefl(data.value.segments);
    } else {
      IncludesBlank(longer, shorter);
      var p := SegmentTest(ToLower(longer));
      var q := SegmentTest(ToLower(shorter));
      forall x: Segment | p(x)
        ensures q(x)
      {
        MatchNarrows(x.narrativeKo, x.narrativeEn, longer, shorter);
      }
      FilterStronger(data.value.segments, p, q);
      FilterIsSubsequence(Filter(data.value.segments, q), p);
    }
  }

  /** `s.segment_index ?? s.segment_id ?? 0`: the index when present (even
      when it is 0), else the id, else 0. */
  function SegId(g: Segment): (id: int)
    ensures g.segmentIndex.Some? ==> id == g.segmentIndex.value
    ensures g.segmentIndex.None? && g.segmentId.Some? ==> id == g.segmentId.value
    ensures g.segmentIndex.None? && g.segmentId.None? ==> id == 0
  {
    g.segmentIndex.GetOr(g.segmentId.GetOr(0))
  }

  /** The same chain written with `||`, which also skips a present 0. */
  function SegIdWithOr(g: Segment): int {
    if g.segmentIndex.Some? && g.segmentIndex.value != 0 then g.segmentIndex.value
    else if g.segmentId.Some? && g.segmentId.value != 0 then g.segmentId.value
    else 0
  }

  /** `??` and `||` disagree exactly when the index is present and 0 while
      the id is present and not 0: the card keeps index 0. */
  lemma SegIdKeepsZeroIndex(g: Segment)
    ensures SegId(g) != SegIdWithOr(g) <==>
              g.segmentIndex == Some(0) && g.segmentId.Some? && g.segmentId.value != 0
    ensures g.segmentIndex == Some(0) ==> SegId(g) == 0
  {
  }

  const MaxShownMeasures: nat := 16

  /** The representative-measure line of a cluster card: absent for a
      missing or empty list; otherwise the first sixteen measures joined by
      commas, followed by `" …"` when some were cut off. */
  function MeasuresLine(measures: Option<seq<int>>): Option<string> {
    if measures.None? || |measures.value| == 0 then None
    else
      var ms := measures.value;
      Some("measures: " + Join(", ", Decimals(Prefix(ms, MaxShownMeasures)))
           + (if |ms| > MaxShownMeasures then " \U{2026}" else ""))
  }

  /** The line is shown exactly for a non-empty list; it ends with the
      ellipsis exactly when the list has more than sixteen measures. */
  lemma MeasuresLineSpec(measures: Option<seq<int>>)
    ensures MeasuresLine(measures).Some? <==> measures.Some? && |measures.value| > 0
    ensures MeasuresLine(measures).Some? ==>
              var line := MeasuresLine(measures).value;
              |line| > 0 && (line[|line| - 1] == '\U{2026}' <==> |measures.value| > MaxShownMeasures)
  {
    if measures.Some? && |measures.value| > 0 {
      var ms := measures.value;
      ShownEndsInDigit(ms);
      LineEnding(Join(", ", Decimals(Prefix(ms, MaxShownMeasures))), |ms| > MaxShownMeasures);
    }
  }

  /** The joined list of shown measures ends in a digit. */
  lemma ShownEndsInDigit(ms: seq<int>)
    requires |ms| > 0
    ensures var j := Join(", ", Decimals(Prefix(ms, MaxShownMeasures)));
            |j| > 0 && IsDigit(j[|j| - 1])
  {
    var shown := Decimals(Prefix(ms, MaxShownMeasures));
    JoinLastChar(", ", shown);
  }

  /** A line whose list ends in a digit ends with the ellipsis exactly when
      it is appended. */
  lemma LineEnding(j: string, more: bool)
    requires |j| > 0 && IsDigit(j[|j| - 1])
    ensures var line := "measures: " + j + (if more then " \U{2026}" else "");
            line[|line| - 1] == '\U{2026}' <==> more
  {
    if !more {
      assert "measures: " + j + "" == "measures: " + j;
    }
  }

  /** The measures listed are the first sixteen, in order: each listed
      decimal is that of the measure at the same position. */
  lemma MeasuresShown(ms: seq<int>, i: int)
    requires 0 <= i < |ms| && i < MaxShownMeasures
    ensures |Prefix(ms, MaxShownMeasures)| > i
    ensures Decimals(Prefix(ms, MaxShownMeasures))[i] == IntToDecimal(ms[i])
  {
  }
}
