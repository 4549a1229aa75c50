/**
 * The Tonnetz graph as the Tonnetz map and the Tonnetz/timeline sync view read
 * it: triad nodes placed on lattice coordinates, each with the score offsets
 * (in quarter lengths) where it occurs, and transition links labelled P, R, L
 * or "other".
 */
module TonnetzGraph {
  import opened Js
  import Seqs

  /** A triad node. A missing `occurrences_qL` list is the empty list. */
  datatype Node = Node(id: string, chord: string, x: real, y: real, occurrences: seq<real>)

  /** A transition link; `kind` and `weight` are optional. */
  datatype Link = Link(source: string, target: string, kind: Option<string>, weight: Option<real>)

  /** `l.kind && l.kind !== 'other'`: the kind is present, non-empty and not
      "other". */
  predicate KindShown(kind: Option<string>) {
    kind.Some? && kind.value != "" && kind.value != "other"
  }

  predicate LinkVisible(showOther: bool, l: Link) {
    showOther || KindShown(l.kind)
  }

  /** `links.filter(l => showOther || (l.kind && l.kind !== 'other'))`. */
  function VisibleLinks(links: seq<Link>, showOther: bool): (r: seq<Link>)
    ensures |r| <= |links|
    ensures !showOther ==> forall i :: 0 <= i < |r| ==> KindShown(r[i].kind)
  {
    Seqs.Filter(links, l => LinkVisible(showOther, l))
  }

  /** With "other" links shown, every link stays, in its place. */
  lemma VisibleLinksAll(links: seq<Link>)
    ensures VisibleLinks(links, true) == links
  {
    Seqs.FilterAll(links, l => LinkVisible(true, l));
  }

  /** With "other" links hidden, a link stays iff its kind is present, non-empty
      and not "other", and the survivors keep their order. */
  lemma VisibleLinksHidden(links: seq<Link>, l: Link)
    ensures l in VisibleLinks(links, false) <==> l in links && KindShown(l.kind)
    ensures Seqs.IsSubsequence(VisibleLinks(links, false), links)
  {
    Seqs.FilterMembership(links, x => LinkVisible(false, x), l);
    Seqs.FilterIsSubsequence(links, x => LinkVisible(false, x));
  }

  /** `nodes.find(n => n.id === id)`: the first node with that id. */
  function FindNode(nodes: seq<Node>, id: string): (r: Option<Node>)
    ensures r.None? <==> forall i :: 0 <= i < |nodes| ==> nodes[i].id != id
    ensures r.Some? ==> exists i :: 0 <= i < |nodes| && nodes[i] == r.value && r.value.id == id
                                    && forall j :: 0 <= j < i ==> nodes[j].id != id
    decreases |nodes|
  {
    if nodes == [] then None
    else if nodes[0].id == id then Some(nodes[0])
    else
      var r := FindNode(nodes[1..], id);
      if r.Some? then
        var i :| 0 <= i < |nodes[1..]| && nodes[1..][i] == r.value && r.value.id == id
                 && forall j :: 0 <= j < i ==> nodes[1..][j].id != id;
        assert nodes[i + 1] == r.value;
        r
      else r
  }

  /** The two end nodes a link is drawn between, or `None` when either end is
      not among the nodes (the link is then not drawn). */
  function LinkEnds(nodes: seq<Node>, l: Link): (r: Option<(Node, Node)>)
    ensures r.None? <==> FindNode(nodes, l.source).None? || FindNode(nodes, l.target).None?
    ensures r.Some? ==> r.value.0.id == l.source && r.value.1.id == l.target
  {
    match (FindNode(nodes, l.source), FindNode(nodes, l.target))
    case (Some(a), Some(b)) => Some((a, b))
    case _ => None
  }

  /** A view box: width, height and padding. */
  datatype View = View(w: real, h: real, pad: real)

  /** The view box both Tonnetz views use. */
  const TonnetzView := View(1200.0, 800.0, 60.0)

  /** `toXY`: lattice coordinates to view coordinates. */
  function ToXY(v: View, scale: real, x: real, y: real): (p: (real, real))
  {
    (v.pad + x * scale + v.w / 2.0, v.pad + y * scale + v.h / 2.0)
  }

  /** The inverse placement: from view coordinates back to the lattice. */
  function FromXY(v: View, scale: real, p: (real, real)): (real, real)
    requires scale != 0.0
  {
    ((p.0 - v.pad - v.w / 2.0) / scale, (p.1 - v.pad - v.h / 2.0) / scale)
  }

  /** `toXY` is an affine bijection for every non-zero scale: placing a node and
      reading the position back gives its lattice coordinates. */
  lemma ToXYRoundTrip(v: View, scale: real, x: real, y: real)
    requires scale != 0.0
    ensures FromXY(v, scale, ToXY(v, scale, x, y)) == (x, y)
  {
    var p := ToXY(v, scale, x, y);
    assert p.0 - v.pad - v.w / 2.0 == x * scale;
    assert p.1 - v.pad - v.h / 2.0 == y * scale;
    assert (x * scale) / scale == x;
    assert (y * scale) / scale == y;
  }

  /** Two lattice points are placed on the same view point only if they are
      the same point. */
  lemma ToXYInjective(v: View, scale: real, x1: real, y1: real, x2: real, y2: real)
    requires scale != 0.0
    requires ToXY(v, scale, x1, y1) == ToXY(v, scale, x2, y2)
    ensures x1 == x2 && y1 == y2
  {
    ToXYRoundTrip(v, scale, x1, y1);
    ToXYRoundTrip(v, scale, x2, y2);
  }

  /** `occurrences_qL?.length || 1`: an empty or missing list counts as 1. */
  function OccurrenceWeight(occurrences: seq<real>): (w: nat)
    ensures w >= 1
    ensures |occurrences| > 0 ==> w == |occurrences|
  {
    if |occurrences| == 0 then 1 else |occurrences|
  }

  /** `Math.min(22, nodeSize + growth)`, where `growth` stands for the
      logarithmic term the view adds to the slider's node size. */
  function CappedRadius(nodeSize: real, growth: real): (r: real)
    ensures r <= 22.0
    ensures r == 22.0 || r == nodeSize + growth
    ensures nodeSize + growth <= 22.0 ==> r == nodeSize + growth
  {
    if nodeSize + growth <= 22.0 then nodeSize + growth else 22.0
  }
}
