/**
 * The Tonnetz map: triads on the lattice, sized by a degree that starts from
 * their occurrence count and grows with every visible transition touching
 * them. The link filter, node lookup, placement and radius cap are shared with
 * the sync view and live in `TonnetzGraph`.
 */
module TonnetzMap {
  import opened TonnetzGraph

  /** The first `forEach`: every node's id mapped to its occurrence weight; a
      later node with the same id overwrites an earlier one. */
  function NodeWeights(nodes: seq<Node>): map<string, int>
    decreases |nodes|
  {
    if nodes == [] then map[]
    else
      var n := nodes[|nodes| - 1];
      NodeWeights(nodes[..|nodes| - 1])[n.id := OccurrenceWeight(n.occurrences)]
  }

  /** `d[k] = (d[k] || 1) + 1`: a missing (or zero) entry counts as 1. */
  function Bump(d: map<string, int>, k: string): map<string, int> {
    d[k := (if k in d && d[k] != 0 then d[k] else 1) + 1]
  }

  /** The second `forEach`: every link bumps its source, then its target. */
  function Tally(d: map<string, int>, links: seq<Link>): map<string, int>
    decreases |links|
  {
    if links == [] then d
    else
      var l := links[|links| - 1];
      Bump(Bump(Tally(d, links[..|links| - 1]), l.source), l.target)
  }

  /** How many link ends among `links` are at `k`; a self-loop at `k` counts
      twice. */
  function EndpointCount(links: seq<Link>, k: string): nat
    decreases |links|
  {
    if links == [] then 0
    else
      var l := links[|links| - 1];
      EndpointCount(links[..|links| - 1], k) + (if l.source == k then 1 else 0) + (if l.target == k then 1 else 0)
  }

  /** The degree table is keyed by exactly the node ids, each mapped to the
      occurrence weight of the last node with that id. */
  lemma {:induction false} NodeWeightsCharacterized(nodes: seq<Node>, k: string)
    ensures k in NodeWeights(nodes) <==> exists i :: 0 <= i < |nodes| && nodes[i].id == k
    ensures k in NodeWeights(nodes) ==>
              exists i :: 0 <= i < |nodes| && nodes[i].id == k
                          && NodeWeights(nodes)[k] == OccurrenceWeight(nodes[i].occurrences)
                          && forall j :: i < j < |nodes| ==> nodes[j].id != k
    decreases |nodes|
  {
    if nodes != [] {
      var init := nodes[..|nodes| - 1];
      NodeWeightsCharacterized(init, k);
      assert forall i :: 0 <= i < |init| ==> init[i] == nodes[i];
      if nodes[|nodes| - 1].id == k {
        assert nodes[|nodes| - 1].id == k;
      }
    }
  }

  predicate AllPositive(d: map<string, int>) {
    forall k :: k in d ==> d[k] >= 1
  }

  lemma NodeWeightsPositive(nodes: seq<Node>)
    ensures AllPositive(NodeWeights(nodes))
  {
    forall k | k in NodeWeights(nodes)
      ensures NodeWeights(nodes)[k] >= 1
    {
      NodeWeightsCharacterized(nodes, k);
    }
  }

  /** Each link adds exactly 1 to its source's degree and 1 to its target's,
      starting from 1 for an id that is not yet in the table. */
  lemma {:induction false} TallyCounts(d: map<string, int>, links: seq<Link>, k: string)
    requires AllPositive(d)
    ensures AllPositive(Tally(d, links))
    ensures k in Tally(d, links) <==> k in d || EndpointCount(links, k) > 0
    ensures k in Tally(d, links) ==>
              Tally(d, links)[k] == (if k in d then d[k] else 1) + EndpointCount(links, k)
    decreases |links|
  {
    if links != [] {
      var init := links[..|links| - 1];
      TallyCounts(d, init, k);
    }
  }

  /** The `degree` memo: the occurrence weights, then one per link end. */
  method Degree(nodes: seq<Node>, links: seq<Link>) returns (d: map<string, int>)
    ensures d == Tally(NodeWeights(nodes), links)
  {
    d := map[];
    for i := 0 to |nodes|
      invariant d == NodeWeights(nodes[..i])
    {
      var n := nodes[i];
      assert nodes[..i + 1][..i] == nodes[..i];
      d := d[n.id := OccurrenceWeight(n.occurrences)];
    }
    assert nodes[..|nodes|] == nodes;
    for j := 0 to |links|
      invariant d == Tally(NodeWeights(nodes), links[..j])
    {
      var l := links[j];
      assert links[..j + 1][..j] == links[..j];
      d := d[l.source := (if l.source in d && d[l.source] != 0 then d[l.source] else 1) + 1];
      d := d[l.target := (if l.target in d && d[l.target] != 0 then d[l.target] else 1) + 1];
    }
    assert links[..|links|] == links;
  }

  /** A node's degree is the occurrence weight of the last node with its id
      plus the number of visible link ends at it; an id that only occurs as a
      link end has 1 plus that number; and every degree is at least 1. */
  lemma DegreeSpec(nodes: seq<Node>, links: seq<Link>, k: string)
    ensures k in Tally(NodeWeights(nodes), links) <==>
              (exists i :: 0 <= i < |nodes| && nodes[i].id == k) || EndpointCount(links, k) > 0
    ensures k in Tally(NodeWeights(nodes), links) ==> Tally(NodeWeights(nodes), links)[k] >= 1
    ensures k in NodeWeights(nodes) ==>
              && k in Tally(NodeWeights(nodes), links)
              && Tally(NodeWeights(nodes), links)[k] == NodeWeights(nodes)[k] + EndpointCount(links, k)
    ensures k !in NodeWeights(nodes) && EndpointCount(links, k) > 0 ==>
              && k in Tally(NodeWeights(nodes), links)
              && Tally(NodeWeights(nodes), links)[k] == 1 + EndpointCount(links, k)
  {
    NodeWeightsPositive(nodes);
    NodeWeightsCharacterized(nodes, k);
    TallyCounts(NodeWeights(nodes), links, k);
  }

  /** A self-loop adds two to its node's degree. */
  lemma SelfLoopCountsTwice(links: seq<Link>, l: Link)
    requires l.source == l.target
    ensures EndpointCount(links + [l], l.source) == EndpointCount(links, l.source) + 2
  {
    assert (links + [l])[..|links|] == links;
  }
}
