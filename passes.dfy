/** The passes that run over an assembled graph before it is returned:
    the crown filter, duplicate-edge merging and gravity orientation
    (src/graph/assembly.py). Each pass is a method on the mutable graph,
    proved equal to a function on graph values, and the properties the
    pass promises are proved about that function. */
module Passes {
  import opened Wrappers
  import opened Strings
  import opened Numeric
  import opened Ordering
  import opened Schemas
  import opened Graph
  import opened Assembly

  /** The crown filter and the orientation pass run only for storm and
      sanitary sewer graphs. */
  predicate Gravity(utility: string) {
    Upper(utility) == "SD" || Upper(utility) == "SS"
  }

  const CrownSpreadBufferFt := 0.5
  const CrownRatioThreshold := 10.0
  const InvertTolerance := 0.01

  // ---------------------------------------------------------------------------
  // Crown filter, pass 1: one structure's inverts

  /** The pipe diameters, in feet, of the inverts whose size text has one. */
  function Diameters(inverts: seq<Invert>): (r: seq<real>)
    ensures forall i :: 0 <= i < |r| ==> r[i] >= 0.0
    ensures |r| == 0 <==> forall i :: 0 <= i < |inverts| ==> PipeDiameterFt(inverts[i].pipeSize).None?
  {
    if |inverts| == 0 then []
    else
      var rest := Diameters(inverts[1..]);
      assert forall i :: 0 < i < |inverts| ==> inverts[i] == inverts[1..][i - 1];
      match PipeDiameterFt(inverts[0].pipeSize)
      case Some(d) => [d] + rest
      case None => rest
  }

  /** The cut-off above which an invert is a crown suspect, when the spread
      check fires: at least two inverts, some pipe diameter, and a spread of
      elevations wider than the largest diameter plus the buffer. */
  function CrownCutoff(inverts: seq<Invert>): Option<real> {
    if |inverts| < 2 then None
    else
      var ds := Diameters(inverts);
      if |ds| == 0 then None
      else
        var es := Elevations(inverts);
        var lo, hi := MinOf(es), MaxOf(es);
        var threshold := MaxOf(ds) + CrownSpreadBufferFt;
        if hi - lo <= threshold then None else Some(lo + threshold)
  }

  /** When the check fires, some invert lies above the cut-off and the
      lowest invert lies at least the buffer below it. */
  lemma CrownCutoffRule(inverts: seq<Invert>)
    ensures CrownCutoff(inverts).Some? ==>
      |inverts| >= 2
      && (exists i :: 0 <= i < |inverts| && inverts[i].elevation > CrownCutoff(inverts).value)
      && (exists i :: 0 <= i < |inverts| && inverts[i].elevation + CrownSpreadBufferFt <= CrownCutoff(inverts).value)
  {
    if CrownCutoff(inverts).Some? {
      var es := Elevations(inverts);
      var ds := Diameters(inverts);
      var lo, hi := MinOf(es), MaxOf(es);
      assert MaxOf(ds) >= 0.0 by { assert ds[0] >= 0.0; }
      var i :| 0 <= i < |es| && es[i] == hi;
      var j :| 0 <= j < |es| && es[j] == lo;
      assert inverts[i].elevation == hi && inverts[j].elevation == lo;
    }
  }

  /** The inverts strictly above the cut-off, in order. */
  function Above(inverts: seq<Invert>, cutoff: real): (r: seq<Invert>)
    ensures forall v :: v in r <==> v in inverts && v.elevation > cutoff
  {
    if |inverts| == 0 then []
    else (if inverts[0].elevation > cutoff then [inverts[0]] else []) + Above(inverts[1..], cutoff)
  }

  /** The inverts at or below the cut-off, in order. */
  function AtOrBelow(inverts: seq<Invert>, cutoff: real): (r: seq<Invert>)
    ensures forall v :: v in r <==> v in inverts && v.elevation <= cutoff
  {
    if |inverts| == 0 then []
    else (if inverts[0].elevation <= cutoff then [inverts[0]] else []) + AtOrBelow(inverts[1..], cutoff)
  }

  /** Every invert goes to exactly one side of the cut-off. */
  lemma {:induction false} SplitPreserves(inverts: seq<Invert>, cutoff: real)
    ensures multiset(Above(inverts, cutoff)) + multiset(AtOrBelow(inverts, cutoff)) == multiset(inverts)
  {
    if |inverts| > 0 {
      SplitPreserves(inverts[1..], cutoff);
      assert inverts == [inverts[0]] + inverts[1..];
    }
  }

  /** Pass 1 of `_filter_suspect_crowns` on one node: the inverts above the
      cut-off move to the crown suspects and the representative invert is
      recomputed from the rest. */
  function FilterNodeCrowns(n: Node): Node {
    if !n.StructureNode? then n
    else match CrownCutoff(n.item.inverts)
      case None => n
      case Some(cutoff) =>
        var suspects := Above(n.item.inverts, cutoff);
        if |suspects| == 0 then n
        else
          var keep := AtOrBelow(n.item.inverts, cutoff);
          n.(item := n.item.(inverts := keep),
             crownSuspects := n.crownSuspects + suspects,
             representativeInvert := RepresentativeInvert(keep))
  }

  /** The filter only ever moves inverts: none is lost or invented, the
      suspects found are appended to the earlier ones, and the node keeps
      everything else. Orphans, and structures with fewer than two inverts,
      are left alone. */
  lemma FilterNodeCrownsMoves(n: Node)
    ensures var r := FilterNodeCrowns(n);
      && r.StructureNode? == n.StructureNode?
      && (!n.StructureNode? || |n.item.inverts| < 2 ==> r == n)
      && (r.StructureNode? ==>
            && r.item.(inverts := n.item.inverts) == n.item
            && r.suspectCrown == n.suspectCrown
            && |n.crownSuspects| <= |r.crownSuspects|
            && r.crownSuspects[..|n.crownSuspects|] == n.crownSuspects
            && multiset(r.crownSuspects[|n.crownSuspects|..]) + multiset(r.item.inverts) == multiset(n.item.inverts))
  {
    if n.StructureNode? && CrownCutoff(n.item.inverts).Some? {
      var invs := n.item.inverts;
      var cutoff := CrownCutoff(invs).value;
      SplitPreserves(invs, cutoff);
      var suspects := Above(invs, cutoff);
      var r := FilterNodeCrowns(n);
      if |suspects| > 0 {
        assert r.crownSuspects == n.crownSuspects + suspects;
        assert r.crownSuspects[|n.crownSuspects|..] == suspects;
      }
    }
  }

  /** A sub-list that keeps a lowest invert has the same lowest elevation. */
  lemma {:induction false} SameLowest(invs: seq<Invert>, keep: seq<Invert>, k: nat)
    requires forall v :: v in keep ==> v in invs
    requires k < |invs| && invs[k] in keep && RepresentativeInvert(invs) == Some(invs[k].elevation)
    ensures RepresentativeInvert(keep) == RepresentativeInvert(invs)
  {
    var mk := RepresentativeInvert(keep);
    var t :| 0 <= t < |keep| && keep[t].elevation == mk.value;
    assert keep[t] in invs;
  }

  /** Splitting below an invert that is on the low side keeps the lowest
      elevation. */
  lemma {:induction false} KeepLowest(invs: seq<Invert>, cutoff: real, j: nat)
    requires j < |invs| && invs[j].elevation <= cutoff
    ensures RepresentativeInvert(AtOrBelow(invs, cutoff)) == RepresentativeInvert(invs)
  {
    var keep := AtOrBelow(invs, cutoff);
    var m := RepresentativeInvert(invs);
    var k :| 0 <= k < |invs| && invs[k].elevation == m.value;
    assert invs[k].elevation <= invs[j].elevation;
    assert invs[k] in keep;
    SameLowest(invs, keep, k);
  }

  /** An invert on each side of the cut-off leaves both sides non-empty. */
  lemma {:induction false} SplitSizes(invs: seq<Invert>, cutoff: real, i: nat, j: nat)
    requires i < |invs| && j < |invs| && invs[i].elevation > cutoff && invs[j].elevation <= cutoff
    ensures 0 < |AtOrBelow(invs, cutoff)| < |invs|
  {
    var a, b := Above(invs, cutoff), AtOrBelow(invs, cutoff);
    SplitPreserves(invs, cutoff);
    assert |multiset(a)| + |multiset(b)| == |multiset(invs)|;
    assert |a| + |b| == |invs|;
    assert invs[i] in a && invs[j] in b;
  }

  /** When the filter changes a node it moves at least one invert and keeps
      at least one; the lowest invert is always kept, so a node whose
      representative invert was its lowest invert keeps the same one. */
  lemma FilterNodeCrownsKeepsLowest(n: Node)
    requires n.StructureNode?
    ensures var r := FilterNodeCrowns(n);
      && (r != n ==> 0 < |r.item.inverts| < |n.item.inverts|)
      && (n.representativeInvert == RepresentativeInvert(n.item.inverts) ==>
            r.representativeInvert == n.representativeInvert)
  {
    var invs := n.item.inverts;
    var c := CrownCutoff(invs);
    if c.Some? {
      CrownCutoffRule(invs);
      var i :| 0 <= i < |invs| && invs[i].elevation > c.value;
      var j :| 0 <= j < |invs| && invs[j].elevation + CrownSpreadBufferFt <= c.value;
      KeepLowest(invs, c.value, j);
      SplitSizes(invs, c.value, i, j);
    }
  }

  /** Pass 1 on the whole graph: every node filtered, nothing else touched. */
  function CrownNodes(g: GraphState): GraphState {
    g.(nodes := map id | id in g.nodes :: FilterNodeCrowns(g.nodes[id]))
  }

  /** The loop of pass 1 over the node ids `ids`, first to last. */
  function CrownNodesOver(h: GraphState, ids: seq<string>): GraphState
    decreases |ids|
  {
    if |ids| == 0 then h
    else
      var id := ids[0];
      CrownNodesOver(if id in h.nodes then SetNode(h, id, FilterNodeCrowns(h.nodes[id])) else h, ids[1..])
  }

  lemma {:induction false} CrownNodesOverRule(g: GraphState, h: GraphState, ids: seq<string>, done: set<string>)
    requires h == g.(nodes := h.nodes) && h.nodes.Keys == g.nodes.Keys
    requires Distinct(ids) && forall k :: 0 <= k < |ids| ==> ids[k] !in done
    requires forall id :: id in g.nodes ==>
      h.nodes[id] == if id in done then FilterNodeCrowns(g.nodes[id]) else g.nodes[id]
    ensures var r := CrownNodesOver(h, ids);
      && r == g.(nodes := r.nodes) && r.nodes.Keys == g.nodes.Keys
      && forall id :: id in g.nodes ==>
           r.nodes[id] == if id in done || id in ids then FilterNodeCrowns(g.nodes[id]) else g.nodes[id]
    decreases |ids|
  {
    if |ids| > 0 {
      var id := ids[0];
      var h1 := if id in h.nodes then SetNode(h, id, FilterNodeCrowns(h.nodes[id])) else h;
      assert forall k :: 0 <= k < |ids[1..]| ==> ids[1..][k] == ids[k + 1];
      assert forall x :: x in ids <==> x == id || x in ids[1..];
      CrownNodesOverRule(g, h1, ids[1..], done + {id});
    }
  }

  /** Over the node order of a well formed graph, the loop filters every
      node once. */
  lemma CrownNodesOverAll(g: GraphState)
    requires Valid(g)
    ensures CrownNodesOver(g, g.nodeOrder) == CrownNodes(g)
  {
    CrownNodesOverRule(g, g, g.nodeOrder, {});
    var r := CrownNodesOver(g, g.nodeOrder);
    assert r.nodes == CrownNodes(g).nodes;
  }

  /** The loop of pass 1, over the nodes in order. */
  method FilterCrownNodes(graph: DiGraph)
    modifies graph
    ensures graph.State() == CrownNodesOver(old(graph.State()), old(graph.nodeOrder))
  {
    ghost var g0 := graph.State();
    var ids := graph.nodeOrder;
    var i := 0;
    while i < |ids|
      invariant 0 <= i <= |ids|
      invariant CrownNodesOver(graph.State(), ids[i..]) == CrownNodesOver(g0, ids)
    {
      var id := ids[i];
      assert ids[i..][0] == id && ids[i..][1..] == ids[i + 1..];
      if id in graph.nodes {
        graph.SetNodeAt(id, FilterNodeCrowns(graph.nodes[id]));
      }
      i := i + 1;
    }
  }

  // ---------------------------------------------------------------------------
  // Crown filter, pass 2: edges whose invert drop is far above the labelled
  // slope

  /** The drop between the two ends' representative inverts exceeds ten
      times the drop the labelled slope and length give, and 2 ft. */
  predicate CrownDrop(e: Edge, a: Node, b: Node) {
    && e.slope.Some? && e.length.Some? && e.length.value > 0.0
    && a.StructureNode? && b.StructureNode?
    && RepInvert(a).Some? && RepInvert(b).Some?
    && var expected := Abs(e.slope.value) * e.length.value;
       var actual := Abs(RepInvert(a).value - RepInvert(b).value);
       actual > expected * CrownRatioThreshold && actual > 2.0
  }

  /** The end suspected of a crown reading: the one with the higher invert
      (the source end on a tie). */
  function SuspectEnd(p: Pair, a: Node, b: Node): (s: string)
    requires RepInvert(a).Some? && RepInvert(b).Some?
    ensures s == p.0 || s == p.1
  {
    if RepInvert(a).value >= RepInvert(b).value then p.0 else p.1
  }

  function MarkSuspect(n: Node): Node {
    if n.StructureNode? then n.(suspectCrown := true) else n
  }

  function MarkCandidate(e: Edge): Edge {
    e.(crownCandidate := Some(true))
  }

  /** The edge `p` of `h` meets the crown-drop test. */
  predicate Flagged(h: GraphState, p: Pair) {
    p in h.edges && p.0 in h.nodes && p.1 in h.nodes && CrownDrop(h.edges[p], h.nodes[p.0], h.nodes[p.1])
  }

  /** One iteration of pass 2. */
  function CrownEdgeStep(h: GraphState, p: Pair): GraphState {
    if Flagged(h, p) then
      var s := SuspectEnd(p, h.nodes[p.0], h.nodes[p.1]);
      h.(edges := h.edges[p := MarkCandidate(h.edges[p])], nodes := h.nodes[s := MarkSuspect(h.nodes[s])])
    else h
  }

  /** Pass 2 over the edges `es`, first to last. */
  function CrownEdges(h: GraphState, es: seq<Pair>): GraphState
    decreases |es|
  {
    if |es| == 0 then h else CrownEdges(CrownEdgeStep(h, es[0]), es[1..])
  }

  /** The flagged edges among `es`. */
  function FlaggedIn(g: GraphState, es: seq<Pair>): (r: set<Pair>)
    ensures forall p :: p in r <==> p in es && Flagged(g, p)
  {
    if |es| == 0 then {}
    else (if Flagged(g, es[0]) then {es[0]} else {}) + FlaggedIn(g, es[1..])
  }

  /** The suspect ends of the flagged edges among `es`. */
  function SuspectsIn(g: GraphState, es: seq<Pair>): set<string> {
    if |es| == 0 then {}
    else
      var p := es[0];
      (if Flagged(g, p) then {SuspectEnd(p, g.nodes[p.0], g.nodes[p.1])} else {}) + SuspectsIn(g, es[1..])
  }

  /** A node is a suspect exactly when some flagged edge names it. */
  lemma {:induction false} SuspectsInRule(g: GraphState, es: seq<Pair>, id: string)
    ensures id in SuspectsIn(g, es) <==>
      exists k :: 0 <= k < |es| && Flagged(g, es[k]) && SuspectEnd(es[k], g.nodes[es[k].0], g.nodes[es[k].1]) == id
  {
    if |es| > 0 {
      SuspectsInRule(g, es[1..], id);
      assert forall k :: 0 < k < |es| ==> es[k] == es[1..][k - 1];
      if id in SuspectsIn(g, es[1..]) {
        var k :| 0 <= k < |es[1..]| && Flagged(g, es[1..][k])
          && SuspectEnd(es[1..][k], g.nodes[es[1..][k].0], g.nodes[es[1..][k].1]) == id;
        assert es[k + 1] == es[1..][k];
      }
    }
  }

  /** `h` is `g` with the edges of `f` marked as crown candidates and the
      nodes of `s` marked as suspects. */
  ghost predicate MarkedFrom(g: GraphState, h: GraphState, f: set<Pair>, s: set<string>) {
    && h.utility == g.utility && h.nodeOrder == g.nodeOrder && h.edgeOrder == g.edgeOrder
    && h.quality == g.quality
    && h.nodes.Keys == g.nodes.Keys && h.edges.Keys == g.edges.Keys
    && (forall p :: p in g.edges ==> h.edges[p] == if p in f then MarkCandidate(g.edges[p]) else g.edges[p])
    && (forall id :: id in g.nodes ==> h.nodes[id] == if id in s then MarkSuspect(g.nodes[id]) else g.nodes[id])
  }

  /** Marks do not change what the crown-drop test reads. */
  lemma MarkedFlagged(g: GraphState, h: GraphState, f: set<Pair>, s: set<string>, p: Pair)
    requires MarkedFrom(g, h, f, s)
    ensures Flagged(h, p) == Flagged(g, p)
    ensures Flagged(g, p) ==>
      SuspectEnd(p, h.nodes[p.0], h.nodes[p.1]) == SuspectEnd(p, g.nodes[p.0], g.nodes[p.1])
  {
  }

  lemma CrownEdgeStepMarks(g: GraphState, h: GraphState, f: set<Pair>, s: set<string>, p: Pair)
    requires MarkedFrom(g, h, f, s)
    ensures MarkedFrom(g, CrownEdgeStep(h, p),
                       f + (if Flagged(g, p) then {p} else {}),
                       s + (if Flagged(g, p) then {SuspectEnd(p, g.nodes[p.0], g.nodes[p.1])} else {}))
  {
    MarkedFlagged(g, h, f, s, p);
  }

  lemma {:induction false} CrownEdgesMarks(g: GraphState, h: GraphState, f: set<Pair>, s: set<string>, es: seq<Pair>)
    requires MarkedFrom(g, h, f, s)
    ensures MarkedFrom(g, CrownEdges(h, es), f + FlaggedIn(g, es), s + SuspectsIn(g, es))
    decreases |es|
  {
    if |es| > 0 {
      var p := es[0];
      var f' := f + (if Flagged(g, p) then {p} else {});
      var s' := s + (if Flagged(g, p) then {SuspectEnd(p, g.nodes[p.0], g.nodes[p.1])} else {});
      CrownEdgeStepMarks(g, h, f, s, p);
      CrownEdgesMarks(g, CrownEdgeStep(h, p), f', s', es[1..]);
      MarksUnion(g, f, s, es);
    }
  }

  lemma MarksUnion(g: GraphState, f: set<Pair>, s: set<string>, es: seq<Pair>)
    requires |es| > 0
    ensures var p := es[0];
      && f + (if Flagged(g, p) then {p} else {}) + FlaggedIn(g, es[1..]) == f + FlaggedIn(g, es)
      && s + (if Flagged(g, p) then {SuspectEnd(p, g.nodes[p.0], g.nodes[p.1])} else {}) + SuspectsIn(g, es[1..])
         == s + SuspectsIn(g, es)
  {
  }

  /** `_filter_suspect_crowns`: for a gravity utility, pass 1 on every node
      and then pass 2 over the edges in iteration order; other utilities are
      left alone. */
  function CrownFiltered(g: GraphState): GraphState {
    if !Gravity(g.utility) then g
    else
      var g1 := CrownNodesOver(g, g.nodeOrder);
      CrownEdges(g1, EdgeList(g1))
  }

  /** Pass 2 marks exactly the edges that meet the crown-drop test after
      pass 1, and exactly the nodes some such edge names as its suspect end;
      the order in which the edges are visited does not matter, and nothing
      else changes. */
  lemma CrownFilteredRule(g: GraphState)
    requires Valid(g)
    ensures var h := CrownFiltered(g);
      var g1 := CrownNodes(g);
      && (!Gravity(g.utility) ==> h == g)
      && Valid(h) && h.utility == g.utility && h.quality == g.quality
      && (Gravity(g.utility) ==>
            && h.nodeOrder == g.nodeOrder && h.edgeOrder == g.edgeOrder
            && h.nodes.Keys == g.nodes.Keys && h.edges.Keys == g.edges.Keys
            && (forall p :: p in g.edges ==>
                  h.edges[p] == if Flagged(g1, p) then MarkCandidate(g.edges[p]) else g.edges[p])
            && (forall id :: id in g.nodes ==>
                  h.nodes[id] == if id in SuspectsIn(g1, EdgeList(g1)) then MarkSuspect(g1.nodes[id]) else g1.nodes[id]))
  {
    if Gravity(g.utility) {
      CrownNodesOverAll(g);
      var g1 := CrownNodes(g);
      EdgeListMembers(g);
      assert MarkedFrom(g1, g1, {}, {});
      CrownEdgesMarks(g1, g1, {}, {}, EdgeList(g1));
    }
  }

  /** The loop of pass 2, over the edges in iteration order. */
  method FlagCrownEdges(graph: DiGraph)
    modifies graph
    ensures graph.State() == CrownEdges(old(graph.State()), EdgeList(old(graph.State())))
  {
    ghost var g0 := graph.State();
    var es := EdgesBySource(graph.nodeOrder, graph.edgeOrder);
    var i := 0;
    while i < |es|
      invariant 0 <= i <= |es|
      invariant CrownEdges(graph.State(), es[i..]) == CrownEdges(g0, es)
    {
      var p := es[i];
      assert es[i..][0] == p && es[i..][1..] == es[i + 1..];
      ghost var h := graph.State();
      if p in graph.edges && p.0 in graph.nodes && p.1 in graph.nodes
        && CrownDrop(graph.edges[p], graph.nodes[p.0], graph.nodes[p.1])
      {
        graph.SetEdgeAt(p, MarkCandidate(graph.edges[p]));
        var s := SuspectEnd(p, graph.nodes[p.0], graph.nodes[p.1]);
        graph.SetNodeAt(s, MarkSuspect(graph.nodes[s]));
      }
      assert graph.State() == CrownEdgeStep(h, p);
      i := i + 1;
    }
  }

  /** `_filter_suspect_crowns`, as the code runs it. */
  method FilterSuspectCrowns(graph: DiGraph)
    modifies graph
    ensures graph.State() == CrownFiltered(old(graph.State()))
  {
    if !Gravity(graph.utility) {
      return;
    }
    FilterCrownNodes(graph);
    FlagCrownEdges(graph);
  }

  // ---------------------------------------------------------------------------
  // Duplicate pipe edges

  /** The same pair of nodes in the other direction. */
  function Reverse(p: Pair): Pair {
    (p.1, p.0)
  }

  /** `_deduplicate_pipe_edges` for the group of the edge `p`. A directed
      graph holds at most the two edges `p` and its reverse between two
      nodes; when both are there and alike, the one with the higher rank
      (the first one on a tie, as `max` keeps the first maximum) takes over
      the provenance of the other, which is removed. */
  function DedupPair(h: GraphState, p: Pair): GraphState {
    var q := Reverse(p);
    if p.0 == p.1 || p !in h.edges || q !in h.edges then h
    else
      var a, b := h.edges[p], h.edges[q];
      if !EdgesAreSimilar(a, b) then h
      else if KeyLess(EdgeRank(a), EdgeRank(b)) then AddEdge(RemoveEdge(h, p), q, MergeEdgeProvenance(b, a))
      else AddEdge(RemoveEdge(h, q), p, MergeEdgeProvenance(a, b))
  }

  /** The groups of the edges `es`, first to last. */
  function DedupEdges(h: GraphState, es: seq<Pair>): GraphState
    decreases |es|
  {
    if |es| == 0 then h else DedupEdges(DedupPair(h, es[0]), es[1..])
  }

  /** `_deduplicate_pipe_edges`: every group, in the order the edges are
      iterated. */
  function Deduplicated(g: GraphState): GraphState {
    DedupEdges(g, EdgeList(g))
  }

  /** The two edges of a pair are both present and alike. */
  predicate SimilarOpposites(h: GraphState, p: Pair) {
    p.0 != p.1 && p in h.edges && Reverse(p) in h.edges && EdgesAreSimilar(h.edges[p], h.edges[Reverse(p)])
  }

  /** One group: the graph stays well formed with the same nodes, no edge
      appears, an edge is removed only while its reverse stays, the pair is
      left without two alike edges, and every other pair is untouched. */
  lemma DedupPairRule(h: GraphState, r: Pair)
    requires Valid(h)
    ensures var h' := DedupPair(h, r);
      && Valid(h') && h' == h.(edgeOrder := h'.edgeOrder, edges := h'.edges)
      && h'.edges.Keys <= h.edges.Keys
      && (forall p :: p in h.edges ==> p in h'.edges || Reverse(p) in h'.edges)
      && !SimilarOpposites(h', r) && !SimilarOpposites(h', Reverse(r))
      && (forall p :: p != r && p != Reverse(r) && p in h.edges ==> p in h'.edges && h'.edges[p] == h.edges[p])
  {
    var q := Reverse(r);
    if r.0 != r.1 && r in h.edges && q in h.edges {
      var a, b := h.edges[r], h.edges[q];
      EdgesAreSimilarSymmetric(a, b);
      if EdgesAreSimilar(a, b) {
        if KeyLess(EdgeRank(a), EdgeRank(b)) {
          ReplaceRule(h, r, MergeEdgeProvenance(b, a));
        } else {
          ReplaceRule(h, q, MergeEdgeProvenance(a, b));
        }
      }
    }
  }

  /** Removing one edge of a pair and updating the other. */
  lemma ReplaceRule(h: GraphState, gone: Pair, e: Edge)
    requires Valid(h) && gone.0 != gone.1 && gone in h.edges && Reverse(gone) in h.edges
    ensures var h' := AddEdge(RemoveEdge(h, gone), Reverse(gone), e);
      && Valid(h') && h' == h.(edgeOrder := h'.edgeOrder, edges := h'.edges)
      && h'.edges.Keys == h.edges.Keys - {gone}
      && (forall p :: p in h.edges ==> p in h'.edges || Reverse(p) in h'.edges)
      && (forall p :: p != gone && p != Reverse(gone) && p in h.edges ==> h'.edges[p] == h.edges[p])
  {
    RemoveEdgeValid(h, gone);
    AddEdgeValid(RemoveEdge(h, gone), Reverse(gone), e);
  }

  lemma {:induction false} DedupEdgesRule(h: GraphState, done: set<Pair>, es: seq<Pair>)
    requires Valid(h)
    requires forall p :: p in done ==> !SimilarOpposites(h, p)
    ensures var h' := DedupEdges(h, es);
      && Valid(h') && h' == h.(edgeOrder := h'.edgeOrder, edges := h'.edges) && h'.edges.Keys <= h.edges.Keys
      && (forall p :: p in h.edges ==> p in h'.edges || Reverse(p) in h'.edges)
      && (forall p :: p in done || p in es ==> !SimilarOpposites(h', p))
    decreases |es|
  {
    if |es| > 0 {
      var r := es[0];
      var h1 := DedupPair(h, r);
      DedupPairRule(h, r);
      var done' := done + {r, Reverse(r)};
      forall p | p in done'
        ensures !SimilarOpposites(h1, p)
      {
        if p != r && p != Reverse(r) {
          assert Reverse(p) != r && Reverse(p) != Reverse(r);
        }
      }
      DedupEdgesRule(h1, done', es[1..]);
      var h' := DedupEdges(h, es);
      forall p | p in h.edges
        ensures p in h'.edges || Reverse(p) in h'.edges
      {
        assert Reverse(Reverse(p)) == p;
      }
      forall p | p in es
        ensures p == r || p in es[1..]
      {
      }
    }
  }

  /** `_deduplicate_pipe_edges` keeps the graph well formed and its nodes,
      never adds an edge, never removes both edges between two nodes, and
      leaves no two alike edges in opposite directions between two nodes. */
  lemma DeduplicatedRule(g: GraphState)
    requires Valid(g)
    ensures var h := Deduplicated(g);
      && Valid(h) && h == g.(edgeOrder := h.edgeOrder, edges := h.edges)
      && h.edges.Keys <= g.edges.Keys && |h.edges| <= |g.edges|
      && (forall p :: p in g.edges ==> p in h.edges || Reverse(p) in h.edges)
      && (forall p :: !SimilarOpposites(h, p))
  {
    EdgeListMembers(g);
    DedupEdgesRule(g, {}, EdgeList(g));
    KeysCard(Deduplicated(g).edges, g.edges);
  }

  /** The loop of `_deduplicate_pipe_edges`. */
  method DeduplicatePipeEdges(graph: DiGraph)
    modifies graph
    ensures graph.State() == Deduplicated(old(graph.State()))
  {
    ghost var g0 := graph.State();
    var es := EdgesBySource(graph.nodeOrder, graph.edgeOrder);
    var i := 0;
    while i < |es|
      invariant 0 <= i <= |es|
      invariant DedupEdges(graph.State(), es[i..]) == DedupEdges(g0, es)
    {
      var p := es[i];
      assert es[i..][0] == p && es[i..][1..] == es[i + 1..];
      ghost var h := graph.State();
      var q := Reverse(p);
      if p.0 != p.1 && p in graph.edges && q in graph.edges {
        var a, b := graph.edges[p], graph.edges[q];
        if EdgesAreSimilar(a, b) {
          if KeyLess(EdgeRank(a), EdgeRank(b)) {
            graph.RemoveEdgeAt(p);
            graph.AddEdgeAt(q, MergeEdgeProvenance(b, a));
          } else {
            graph.RemoveEdgeAt(q);
            graph.AddEdgeAt(p, MergeEdgeProvenance(a, b));
          }
        }
      }
      assert graph.State() == DedupPair(h, p);
      i := i + 1;
    }
  }

  // ---------------------------------------------------------------------------
  // Gravity orientation

  /** Both ends are structures with representative inverts, and the source
      end lies more than the tolerance below the target end: the edge runs
      uphill. */
  predicate Uphill(nodes: map<string, Node>, p: Pair) {
    && p.0 in nodes && p.1 in nodes
    && nodes[p.0].StructureNode? && nodes[p.1].StructureNode?
    && RepInvert(nodes[p.0]).Some? && RepInvert(nodes[p.1]).Some?
    && RepInvert(nodes[p.0]).value < RepInvert(nodes[p.1]).value - InvertTolerance
  }

  /** An edge and its reverse are never both uphill. */
  lemma UphillAsymmetric(nodes: map<string, Node>, p: Pair)
    ensures !(Uphill(nodes, p) && Uphill(nodes, Reverse(p)))
  {
  }

  /** One entry of `edges_to_flip`: the edge and a copy of its attributes. */
  type Flip = (Pair, Edge)

  /** The uphill edges among `es`, in order, with their attributes. */
  function FlipsOf(nodes: map<string, Node>, edges: map<Pair, Edge>, es: seq<Pair>): (r: seq<Flip>)
    ensures forall k :: 0 <= k < |r| ==> r[k].0 in es && Uphill(nodes, r[k].0)
    ensures forall k :: 0 <= k < |r| ==> r[k].0 in edges && r[k].1 == edges[r[k].0]
  {
    if |es| == 0 then []
    else
      var p := es[|es| - 1];
      FlipsOf(nodes, edges, es[..|es| - 1]) + (if p in edges && Uphill(nodes, p) then [(p, edges[p])] else [])
  }

  lemma {:induction false} FlipsOfComplete(nodes: map<string, Node>, edges: map<Pair, Edge>, es: seq<Pair>, p: Pair)
    requires p in es && p in edges && Uphill(nodes, p)
    ensures Listed(FlipsOf(nodes, edges, es), p)
  {
    var f := FlipsOf(nodes, edges, es);
    if es[|es| - 1] != p {
      var init := es[..|es| - 1];
      assert p in init by { assert es == init + [es[|es| - 1]]; }
      FlipsOfComplete(nodes, edges, init, p);
      var r := FlipsOf(nodes, edges, init);
      var k :| 0 <= k < |r| && r[k].0 == p;
      assert f[k] == r[k];
    } else {
      assert f[|f| - 1].0 == p;
    }
  }

  /** The attributes of a flipped edge: stations, hints and endpoint
      confidences swap ends, the original ends are recorded unless already
      there, and the edge is marked as oriented by gravity. */
  function Flipped(p: Pair, e: Edge): Edge {
    e.(fromStation := e.toStation, toStation := e.fromStation,
       fromHint := e.toHint, toHint := e.fromHint,
       fromConf := e.toConf, toConf := e.fromConf,
       originalFrom := Some(if e.originalFrom.Some? then e.originalFrom.value else p.0),
       originalTo := Some(if e.originalTo.Some? then e.originalTo.value else p.1),
       oriented := Some(true))
  }

  /** Flipping an edge twice restores its ends' attributes. */
  lemma FlippedTwice(p: Pair, e: Edge)
    ensures var e2 := Flipped(Reverse(p), Flipped(p, e));
      && e2.fromStation == e.fromStation && e2.toStation == e.toStation
      && e2.fromHint == e.fromHint && e2.toHint == e.toHint
      && e2.fromConf == e.fromConf && e2.toConf == e.toConf
      && e2.originalFrom == Flipped(p, e).originalFrom
  {
  }

  /** One entry of the flip loop: skipped when the edge is gone, otherwise
      removed and added back reversed (an update, if the reverse is there). */
  function ApplyFlip(h: GraphState, f: Flip): GraphState {
    var (p, e) := f;
    if p !in h.edges then h
    else AddEdge(RemoveEdge(h, p), Reverse(p), Flipped(p, e))
  }

  function ApplyFlips(h: GraphState, fs: seq<Flip>): GraphState
    decreases |fs|
  {
    if |fs| == 0 then h else ApplyFlips(ApplyFlip(h, fs[0]), fs[1..])
  }

  /** `_orient_gravity_edges` with the default tolerance: for a gravity
      utility, the uphill edges found in iteration order are flipped one by
      one; other utilities are left alone. */
  function Oriented(g: GraphState): GraphState {
    if !Gravity(g.utility) then g else ApplyFlips(g, FlipsOf(g.nodes, g.edges, EdgeList(g)))
  }

  /** `p` is the edge of one of the entries `fs`. */
  predicate Listed(fs: seq<Flip>, p: Pair) {
    exists k :: 0 <= k < |fs| && fs[k].0 == p
  }

  /** One flip touches only the edges, and never adds one. */
  lemma ApplyFlipFrame(h: GraphState, f: Flip)
    ensures var h' := ApplyFlip(h, f);
      h' == h.(edgeOrder := h'.edgeOrder, edges := h'.edges) && |h'.edges| <= |h.edges|
  {
    var p := f.0;
    if p in h.edges {
      var h' := ApplyFlip(h, f);
      assert h.edges.Keys == (h.edges.Keys - {p}) + {p};
      assert h'.edges.Keys <= (h.edges.Keys - {p}) + {Reverse(p)};
    }
  }

  lemma ApplyFlipRule(h: GraphState, f: Flip)
    requires Valid(h) && Uphill(h.nodes, f.0)
    ensures var h' := ApplyFlip(h, f);
      && Valid(h') && h'.nodes == h.nodes && h'.nodeOrder == h.nodeOrder
      && (forall p :: p in h'.edges ==> p in h.edges || (p == Reverse(f.0) && f.0 in h.edges))
      && (forall p :: p in h.edges ==> p in h'.edges || (p == f.0 && Reverse(p) in h'.edges))
      && f.0 !in h'.edges
  {
    var p := f.0;
    if p in h.edges {
      RemoveEdgeValid(h, p);
      AddEdgeValid(RemoveEdge(h, p), Reverse(p), Flipped(p, f.1));
      UphillAsymmetric(h.nodes, p);
    }
  }

  lemma {:induction false} ApplyFlipsRule(h: GraphState, fs: seq<Flip>)
    requires Valid(h)
    requires forall k :: 0 <= k < |fs| ==> Uphill(h.nodes, fs[k].0)
    requires forall p :: p in h.edges && Uphill(h.nodes, p) ==> Listed(fs, p)
    ensures var h' := ApplyFlips(h, fs);
      && Valid(h') && h'.nodes == h.nodes && h'.nodeOrder == h.nodeOrder
      && (forall p :: p in h'.edges ==> !Uphill(h'.nodes, p))
      && (forall p :: p in h'.edges ==> p in h.edges || Reverse(p) in h.edges)
      && (forall p :: p in h.edges ==> p in h'.edges || Reverse(p) in h'.edges)
    decreases |fs|
  {
    if |fs| == 0 {
      assert forall p :: !Listed(fs, p);
    } else {
      var f := fs[0];
      var h1 := ApplyFlip(h, f);
      ApplyFlipRule(h, f);
      forall p | p in h1.edges && Uphill(h1.nodes, p)
        ensures Listed(fs[1..], p)
      {
        UphillAsymmetric(h.nodes, f.0);
        assert p in h.edges;
        var k :| 0 <= k < |fs| && fs[k].0 == p;
        assert k != 0;
        assert fs[1..][k - 1].0 == p;
      }
      assert forall k :: 0 <= k < |fs[1..]| ==> fs[1..][k] == fs[k + 1];
      ApplyFlipsRule(h1, fs[1..]);
      var h' := ApplyFlips(h, fs);
      forall p | p in h'.edges
        ensures p in h.edges || Reverse(p) in h.edges
      {
        assert Reverse(Reverse(p)) == p;
      }
      forall p | p in h.edges
        ensures p in h'.edges || Reverse(p) in h'.edges
      {
        assert Reverse(Reverse(p)) == p;
      }
    }
  }

  /** Flipping touches only the edges, and never adds one. */
  lemma {:induction false} ApplyFlipsFrame(h: GraphState, fs: seq<Flip>)
    ensures var h' := ApplyFlips(h, fs);
      h' == h.(edgeOrder := h'.edgeOrder, edges := h'.edges) && |h'.edges| <= |h.edges|
    decreases |fs|
  {
    if |fs| > 0 {
      ApplyFlipFrame(h, fs[0]);
      ApplyFlipsFrame(ApplyFlip(h, fs[0]), fs[1..]);
    }
  }

  /** After `_orient_gravity_edges` on a gravity utility no edge runs
      uphill; the graph stays well formed with the same nodes, and every
      edge joins the same two nodes as an edge of the input, in one
      direction or the other. */
  lemma OrientedRule(g: GraphState)
    requires Valid(g)
    ensures var h := Oriented(g);
      && Valid(h) && h == g.(edgeOrder := h.edgeOrder, edges := h.edges) && |h.edges| <= |g.edges|
      && (!Gravity(g.utility) ==> h == g)
      && (Gravity(g.utility) ==> forall p :: p in h.edges ==> !Uphill(h.nodes, p))
      && (forall p :: p in h.edges ==> p in g.edges || Reverse(p) in g.edges)
      && (forall p :: p in g.edges ==> p in h.edges || Reverse(p) in h.edges)
  {
    if Gravity(g.utility) {
      var es := EdgeList(g);
      EdgeListMembers(g);
      var fs := FlipsOf(g.nodes, g.edges, es);
      forall p | p in g.edges && Uphill(g.nodes, p)
        ensures Listed(fs, p)
      {
        FlipsOfComplete(g.nodes, g.edges, es, p);
      }
      ApplyFlipsRule(g, fs);
      ApplyFlipsFrame(g, fs);
    }
  }

  /** `_orient_gravity_edges`, as the code runs it: first collect the uphill
      edges with copies of their attributes, then flip them one by one. */
  method OrientGravityEdges(graph: DiGraph)
    modifies graph
    ensures graph.State() == Oriented(old(graph.State()))
  {
    if !Gravity(graph.utility) {
      return;
    }
    ghost var g0 := graph.State();
    var es := EdgesBySource(graph.nodeOrder, graph.edgeOrder);
    var flips := CollectFlips(graph.nodes, graph.edges, es);
    var i := 0;
    while i < |flips|
      invariant 0 <= i <= |flips|
      invariant ApplyFlips(graph.State(), flips[i..]) == ApplyFlips(g0, flips)
    {
      var (p, e) := flips[i];
      assert flips[i..][0] == flips[i] && flips[i..][1..] == flips[i + 1..];
      ghost var h := graph.State();
      if p in graph.edges {
        graph.RemoveEdgeAt(p);
        graph.AddEdgeAt(Reverse(p), Flipped(p, e));
      }
      assert graph.State() == ApplyFlip(h, flips[i]);
      i := i + 1;
    }
  }

  /** The loop collecting `edges_to_flip`. */
  method CollectFlips(nodes: map<string, Node>, edges: map<Pair, Edge>, es: seq<Pair>) returns (flips: seq<Flip>)
    ensures flips == FlipsOf(nodes, edges, es)
  {
    flips := [];
    var i := 0;
    while i < |es|
      invariant 0 <= i <= |es|
      invariant flips == FlipsOf(nodes, edges, es[..i])
    {
      var p := es[i];
      assert es[..i + 1][..i] == es[..i] && es[..i + 1][i] == p;
      if p in edges && Uphill(nodes, p) {
        flips := flips + [(p, edges[p])];
      }
      i := i + 1;
    }
    assert es[..i] == es;
  }
}
