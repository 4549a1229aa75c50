/**
 * The motif network: motif nodes of the four parts and similarity links
 * between them, normalised when the JSON is loaded and then filtered by the
 * control panel (minimum count, minimum weight, enabled link kinds and the
 * per-part switches) before the 3D force graph draws them.
 */
module MotifGraphPro {
  import opened Js
  import Seqs

  /** A JSON identifier as it may arrive: `String(...)` turns each into text. */
  datatype RawId = IdText(s: string) | IdNumber(n: int) | IdBool(b: bool) | IdNull | IdUndefined

  /** `String(v)`. */
  function IdString(v: RawId): (r: string)
    ensures v.IdText? ==> r == v.s
    ensures v.IdNumber? ==> r == IntToDecimal(v.n)
  {
    match v
    case IdText(s) => s
    case IdNumber(n) => IntToDecimal(n)
    case IdBool(b) => if b then "true" else "false"
    case IdNull => "null"
    case IdUndefined => "undefined"
  }

  /** Two numeric identifiers stringify to the same id only if they are equal. */
  lemma NumericIdsStayDistinct(a: int, b: int)
    requires IdString(IdNumber(a)) == IdString(IdNumber(b))
    ensures a == b
  {
    IntToDecimalInjective(a, b);
  }

  /** A node of `motif_graph.json` before normalisation; `None` is a missing or
      `null` field, and `pattern`/`occurrences` are `None` when not arrays.
      `labelText` is the JSON field `label`. */
  datatype RawNode = RawNode(
    id: RawId, part: Option<string>, n: Option<real>, pattern: Option<seq<int>>,
    count: Option<real>, occurrences: Option<seq<int>>, labelText: Option<string>, group: RawValue)

  datatype RawLink = RawLink(source: RawId, target: RawId, weight: RawValue, kind: Option<string>)

  /** A node after normalisation: `part` and `count` always present. */
  datatype MotifNode = MotifNode(
    id: string, part: string, n: real, pattern: Option<seq<int>>,
    count: real, occurrences: Option<seq<int>>, labelText: Option<string>, group: Option<real>)

  datatype MotifLink = MotifLink(source: string, target: string, weight: Option<real>, kind: Option<string>)

  datatype Graph = Graph(nodes: seq<MotifNode>, links: seq<MotifLink>)

  /** The node `map` of the loader. */
  function NormalizeNode(r: RawNode): (m: MotifNode)
    ensures m.id == IdString(r.id)
    ensures r.part.None? ==> m.part == ""
    ensures r.part.Some? ==> m.part == r.part.value
    ensures r.count.None? ==> m.count == 1.0
    ensures r.count.Some? ==> m.count == r.count.value
    ensures m.group.Some? <==> r.group.Num?
  {
    MotifNode(IdString(r.id), r.part.GetOr(""), r.n.GetOr(0.0), r.pattern,
              r.count.GetOr(1.0), r.occurrences, r.labelText, NumberOrUndefined(r.group))
  }

  /** The link `map` of the loader: a weight survives only when it is a number. */
  function NormalizeLink(r: RawLink): (m: MotifLink)
    ensures m.source == IdString(r.source) && m.target == IdString(r.target)
    ensures m.weight.Some? <==> r.weight.Num?
    ensures m.weight.Some? ==> m.weight.value == r.weight.x
    ensures m.kind == r.kind
  {
    MotifLink(IdString(r.source), IdString(r.target), NumberOrUndefined(r.weight), r.kind)
  }

  function Normalize(nodes: seq<RawNode>, links: seq<RawLink>): (g: Graph)
    ensures |g.nodes| == |nodes| && |g.links| == |links|
    ensures forall i :: 0 <= i < |nodes| ==> g.nodes[i] == NormalizeNode(nodes[i])
    ensures forall i :: 0 <= i < |links| ==> g.links[i] == NormalizeLink(links[i])
  {
    Graph(seq(|nodes|, i requires 0 <= i < |nodes| => NormalizeNode(nodes[i])),
          seq(|links|, i requires 0 <= i < |links| => NormalizeLink(links[i])))
  }

  /** The part-filter initialisation: every distinct non-empty part, switched
      on. */
  method InitPartFilter(nodes: seq<MotifNode>) returns (init: map<string, bool>)
    ensures forall p :: p in init <==> p != "" && exists i :: 0 <= i < |nodes| && nodes[i].part == p
    ensures forall p :: p in init ==> init[p]
  {
    init := map[];
    for i := 0 to |nodes|
      invariant forall p :: p in init <==> p != "" && exists k :: 0 <= k < i && nodes[k].part == p
      invariant forall p :: p in init ==> init[p]
    {
      var p := nodes[i].part;
      if p != "" {
        init := init[p := true];
      }
    }
  }

  /** The control-panel state the filter reads. */
  datatype Settings = Settings(
    minCount: real, minWeight: real,
    showTranspose: bool, showInvert: bool, showSimilar: bool,
    partFilter: map<string, bool>)

  /** `allowedKinds`: the switched-on kinds among transpose, invert, similar. */
  function AllowedKinds(s: Settings): (k: set<string>)
    ensures k <= {"transpose", "invert", "similar"}
  {
    (if s.showTranspose then {"transpose"} else {})
    + (if s.showInvert then {"invert"} else {})
    + (if s.showSimilar then {"similar"} else {})
  }

  /** `partFilter[part] !== false`: a part is hidden only by an explicit
      `false`; unknown parts stay visible. */
  predicate PartEnabled(partFilter: map<string, bool>, part: string) {
    !(part in partFilter && !partFilter[part])
  }

  predicate KeepNode(s: Settings, n: MotifNode) {
    n.count >= s.minCount && (n.part != "" ==> PartEnabled(s.partFilter, n.part))
  }

  function Ids(nodes: seq<MotifNode>): set<string> {
    set i | 0 <= i < |nodes| :: nodes[i].id
  }

  /** The weight test: a link without a weight is never dropped by it. */
  predicate WeightPasses(s: Settings, l: MotifLink) {
    !(l.weight.Some? && l.weight.value < s.minWeight)
  }

  /** The kind test: a link without a kind, or with an empty one, bypasses it. */
  predicate KindPasses(s: Settings, l: MotifLink) {
    !(l.kind.Some? && l.kind.value != "" && l.kind.value !in AllowedKinds(s))
  }

  predicate KeepLink(s: Settings, ids: set<string>, l: MotifLink) {
    WeightPasses(s, l) && KindPasses(s, l) && l.source in ids && l.target in ids
  }

  /** The `data` memo. */
  function FilterGraph(raw: Graph, s: Settings): Graph {
    var nodes := Seqs.Filter(raw.nodes, n => KeepNode(s, n));
    var ids := Ids(nodes);
    Graph(nodes, Seqs.Filter(raw.links, l => KeepLink(s, ids, l)))
  }

  /** Kept nodes are exactly those with enough occurrences whose part is not
      switched off, in their original order. */
  lemma FilterGraphNodes(raw: Graph, s: Settings, n: MotifNode)
    ensures n in FilterGraph(raw, s).nodes <==> n in raw.nodes && KeepNode(s, n)
    ensures Seqs.IsSubsequence(FilterGraph(raw, s).nodes, raw.nodes)
  {
    Seqs.FilterMembership(raw.nodes, x => KeepNode(s, x), n);
    Seqs.FilterIsSubsequence(raw.nodes, x => KeepNode(s, x));
  }

  /** Kept links are exactly those that pass the weight and kind tests and
      join two kept nodes, in their original order. */
  lemma FilterGraphLinks(raw: Graph, s: Settings, l: MotifLink)
    ensures l in FilterGraph(raw, s).links <==>
              l in raw.links && WeightPasses(s, l) && KindPasses(s, l)
              && l.source in Ids(FilterGraph(raw, s).nodes) && l.target in Ids(FilterGraph(raw, s).nodes)
    ensures Seqs.IsSubsequence(FilterGraph(raw, s).links, raw.links)
  {
    var ids := Ids(FilterGraph(raw, s).nodes);
    Seqs.FilterMembership(raw.links, x => KeepLink(s, ids, x), l);
    Seqs.FilterIsSubsequence(raw.links, x => KeepLink(s, ids, x));
  }

  /** The filtered graph never has a dangling link: both ends of every kept
      link are kept nodes. */
  lemma NoDanglingLinks(raw: Graph, s: Settings, i: int)
    requires 0 <= i < |FilterGraph(raw, s).links|
    ensures exists a :: 0 <= a < |FilterGraph(raw, s).nodes| && FilterGraph(raw, s).nodes[a].id == FilterGraph(raw, s).links[i].source
    ensures exists b :: 0 <= b < |FilterGraph(raw, s).nodes| && FilterGraph(raw, s).nodes[b].id == FilterGraph(raw, s).links[i].target
  {
    var g := FilterGraph(raw, s);
    var l := Seqs.ElementAt(g.links, i);
    FilterGraphLinks(raw, s, l);
  }

  /** A link of any kind other than transpose, invert and similar is always
      dropped, whatever the switches say. */
  lemma UnknownKindDropped(raw: Graph, s: Settings, l: MotifLink)
    requires l.kind.Some? && l.kind.value !in {"", "transpose", "invert", "similar"}
    ensures l !in FilterGraph(raw, s).links
  {
    FilterGraphLinks(raw, s, l);
  }

  /** With the initial part filter every part is switched on, so every node
      with enough occurrences is kept. */
  lemma InitialPartFilterKeepsAll(raw: Graph, s: Settings)
    requires forall p :: p in s.partFilter ==> s.partFilter[p]
    requires forall i :: 0 <= i < |raw.nodes| ==> raw.nodes[i].count >= s.minCount
    ensures FilterGraph(raw, s).nodes == raw.nodes
  {
    Seqs.FilterAll(raw.nodes, n => KeepNode(s, n));
  }

  /** Raising the minimum count never brings back a node. */
  lemma MinCountMonotone(raw: Graph, s: Settings, t: Settings)
    requires s.minCount <= t.minCount && s.partFilter == t.partFilter
    ensures Seqs.Filter(FilterGraph(raw, s).nodes, n => KeepNode(t, n)) == FilterGraph(raw, t).nodes
  {
    Seqs.FilterStronger(raw.nodes, n => KeepNode(t, n), n => KeepNode(s, n));
  }

  /** `nodeVal`: one and a half times the count, clamped into `[4, 18]`. */
  function NodeVal(count: real): (v: real)
    ensures 4.0 <= v <= 18.0
    ensures 4.0 <= count * 1.5 <= 18.0 ==> v == count * 1.5
    ensures count * 1.5 < 4.0 ==> v == 4.0
    ensures count * 1.5 > 18.0 ==> v == 18.0
  {
    var scaled := count * 1.5;
    var capped := if scaled <= 18.0 then scaled else 18.0;
    if capped >= 4.0 then capped else 4.0
  }

  /** A more frequent motif is never drawn smaller. */
  lemma NodeValMonotone(c1: real, c2: real)
    requires c1 <= c2
    ensures NodeVal(c1) <= NodeVal(c2)
  {
  }

  const ViolinColor := "#c084fc"
  const ViolinIIColor := "#a78bfa"
  const ViolaColor := "#60a5fa"
  const CelloColor := "#34d399"
  const DefaultColor := "#93c5fd"

  /** `PART_COLORS`. */
  const PartColors: map<string, string> :=
    map["Violin" := ViolinColor, "Violin I" := ViolinColor, "Violin II" := ViolinIIColor,
        "Viola" := ViolaColor, "Cello" := CelloColor]

  /** `/pattern/i.test(part)`. */
  predicate MatchesIgnoringCase(part: string, pattern: string) {
    Includes(ToLower(part), pattern)
  }

  /** `nodeColor`: the exact part first, then the first of /violin/i, /viola/i,
      /cello|violoncello/i that matches, then the default. */
  function NodeColor(part: string): (c: string)
    ensures c in {ViolinColor, ViolinIIColor, ViolaColor, CelloColor, DefaultColor}
    ensures part == "" ==> c == DefaultColor
    ensures part in PartColors ==> c == PartColors[part]
  {
    if part != "" && part in PartColors then PartColors[part]
    else if part != "" && MatchesIgnoringCase(part, "violin") then PartColors["Violin"]
    else if part != "" && MatchesIgnoringCase(part, "viola") then PartColors["Viola"]
    else if part != "" && (MatchesIgnoringCase(part, "cello") || MatchesIgnoringCase(part, "violoncello")) then PartColors["Cello"]
    else DefaultColor
  }

  /** The `violoncello` alternative adds nothing: every string that contains
      it contains `cello`. */
  lemma VioloncelloAlternativeRedundant(part: string)
    requires MatchesIgnoringCase(part, "violoncello")
    ensures MatchesIgnoringCase(part, "cello")
  {
    assert OccursAt("violoncello", "cello", 6);
    IncludesTrans(ToLower(part), "violoncello", "cello");
  }

  /** A part that is not in the table and mentions neither violin nor viola
      but mentions cello in any letter case is drawn in the cello colour. */
  lemma CelloParts(part: string)
    requires part !in PartColors
    requires !MatchesIgnoringCase(part, "violin") && !MatchesIgnoringCase(part, "viola")
    requires MatchesIgnoringCase(part, "cello")
    ensures NodeColor(part) == CelloColor
  {
    assert part != "";
  }

  /** A part mentioning violin in any letter case, unless it is listed
      exactly, takes the violin colour, before the viola and cello tests. */
  lemma ViolinPartsFirst(part: string)
    requires part !in PartColors && MatchesIgnoringCase(part, "violin")
    ensures NodeColor(part) == ViolinColor
  {
    assert part != "";
  }

  /** A part that is not in the table and does not mention violin but does
      mention viola in any letter case is drawn in the viola colour. */
  lemma ViolaParts(part: string)
    requires part !in PartColors
    requires !MatchesIgnoringCase(part, "violin") && MatchesIgnoringCase(part, "viola")
    ensures NodeColor(part) == ViolaColor
  {
    assert part != "";
  }

  /** A part that is not in the table and mentions none of violin, viola and
      cello falls back to the default colour; the `violoncello` alternative
      cannot catch it. */
  lemma UnmatchedDefault(part: string)
    requires part !in PartColors
    requires !MatchesIgnoringCase(part, "violin") && !MatchesIgnoringCase(part, "viola")
    requires !MatchesIgnoringCase(part, "cello")
    ensures NodeColor(part) == DefaultColor
  {
    if MatchesIgnoringCase(part, "violoncello") {
      VioloncelloAlternativeRedundant(part);
    }
  }

  const TransposeColor := "rgba(255,255,255,0.45)"
  const InvertColor := "rgba(120,180,255,0.7)"
  const SimilarColor := "rgba(190,140,255,0.7)"
  const OtherLinkColor := "rgba(255,255,255,0.25)"

  /** `linkColor`: one colour per known kind, a faint default otherwise. */
  function LinkColor(kind: Option<string>): (c: string)
    ensures c in {TransposeColor, InvertColor, SimilarColor, OtherLinkColor}
    ensures c == OtherLinkColor <==> kind.None? || kind.value !in {"transpose", "invert", "similar"}
  {
    match kind
    case Some("transpose") => TransposeColor
    case Some("invert") => InvertColor
    case Some("similar") => SimilarColor
    case _ => OtherLinkColor
  }

  /** `fmtPattern`: the intervals in parentheses, or `(pattern)` when there are
      none. */
  function FmtPattern(p: Option<seq<int>>): string {
    if p.Some? && |p.value| > 0 then "(" + Join(", ", Decimals(p.value)) + ")" else "(pattern)"
  }

  /** The placeholder appears exactly for a missing or empty pattern: a real
      pattern starts with a digit or a minus sign, never with `p`. */
  lemma FmtPatternPlaceholder(p: Option<seq<int>>)
    ensures FmtPattern(p) == "(pattern)" <==> p.None? || |p.value| == 0
    ensures FmtPattern(p)[0] == '(' && FmtPattern(p)[|FmtPattern(p)| - 1] == ')'
  {
    if p.Some? && |p.value| > 0 {
      var parts := Decimals(p.value);
      JoinFirstChar(", ", parts);
      var r := FmtPattern(p);
      assert r[1] == parts[0][0];
      assert "(pattern)"[1] == 'p';
    }
  }
}
