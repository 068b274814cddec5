/** `build_utility_graph`: one directed graph per utility, with a node per
    merged structure, an edge per pipe of the utility whose ends are matched
    to structures (or to orphan anchors standing in for unmatched ends),
    then the crown filter, duplicate merging and gravity orientation, and
    the tile-quality summary (src/graph/assembly.py). */
module Build {
  import opened Wrappers
  import opened Strings
  import opened Ordering
  import opened Parsing
  import opened Schemas
  import opened Merge
  import opened Graph
  import opened Assembly
  import opened Passes

  /** `utility_type.upper().strip()` */
  function UtilityOf(utilityType: string): string {
    Strip(Upper(utilityType))
  }

  /** `_pipe_matches_utility` */
  predicate PipeMatches(p: Pipe, utility: string) {
    Strip(Upper(p.pipeType)) == Strip(Upper(utility))
  }

  // ---------------------------------------------------------------------------
  // Structure nodes

  /** The node for a merged structure: no crown suspects yet, and the
      lowest invert as its representative invert. */
  function StructureNodeOf(item: MergedStructure): Node {
    StructureNode(item, RepresentativeInvert(item.inverts), [], false)
  }

  /** `graph.add_node` for each merged structure, in order. */
  function AddStructures(g: GraphState, items: seq<MergedStructure>): GraphState
    decreases |items|
  {
    if |items| == 0 then g
    else AddStructures(AddNode(g, items[0].nodeId, StructureNodeOf(items[0])), items[1..])
  }

  /** Adding the structures keeps the graph well formed, adds no edge, adds
      a node for every structure and no other node. */
  lemma {:induction false} AddStructuresRule(g: GraphState, items: seq<MergedStructure>)
    requires Valid(g)
    ensures var h := AddStructures(g, items);
      && Valid(h) && h.edges == g.edges && h.utility == g.utility && h.quality == g.quality
      && g.nodes.Keys <= h.nodes.Keys
      && (forall k :: 0 <= k < |items| ==> items[k].nodeId in h.nodes)
      && (forall id :: id in h.nodes ==> id in g.nodes || exists k :: 0 <= k < |items| && items[k].nodeId == id)
      && (forall id :: id in h.nodes ==> h.nodes[id].StructureNode? || (id in g.nodes && h.nodes[id] == g.nodes[id]))
    decreases |items|
  {
    if |items| > 0 {
      var g1 := AddNode(g, items[0].nodeId, StructureNodeOf(items[0]));
      AddNodeValid(g, items[0].nodeId, StructureNodeOf(items[0]));
      AddStructuresRule(g1, items[1..]);
      AddStructuresFrom(g.nodes.Keys, AddStructures(g1, items[1..]).nodes.Keys, items);
    }
  }

  /** The node ids after one more structure, from those after the rest. */
  lemma AddStructuresFrom(before: set<string>, after: set<string>, items: seq<MergedStructure>)
    requires |items| > 0 && before + {items[0].nodeId} <= after
    requires forall k :: 0 <= k < |items[1..]| ==> items[1..][k].nodeId in after
    requires forall id :: id in after ==>
      id in before + {items[0].nodeId} || exists k :: 0 <= k < |items[1..]| && items[1..][k].nodeId == id
    ensures forall k :: 0 <= k < |items| ==> items[k].nodeId in after
    ensures forall id :: id in after ==> id in before || exists k :: 0 <= k < |items| && items[k].nodeId == id
  {
    assert forall k :: 0 < k < |items| ==> items[k] == items[1..][k - 1];
    forall id | id in after && id !in before
      ensures exists k :: 0 <= k < |items| && items[k].nodeId == id
    {
      if id != items[0].nodeId {
        var k :| 0 <= k < |items[1..]| && items[1..][k].nodeId == id;
        assert items[k + 1].nodeId == id;
      }
    }
  }

  /** The loop adding the structure nodes. */
  method AddStructureNodes(graph: DiGraph, items: seq<MergedStructure>)
    modifies graph
    ensures graph.State() == AddStructures(old(graph.State()), items)
  {
    ghost var g0 := graph.State();
    var i := 0;
    while i < |items|
      invariant 0 <= i <= |items|
      invariant AddStructures(graph.State(), items[i..]) == AddStructures(g0, items)
    {
      assert items[i..][0] == items[i] && items[i..][1..] == items[i + 1..];
      graph.AddNodeAt(items[i].nodeId, StructureNodeOf(items[i]));
      i := i + 1;
    }
  }

  // ---------------------------------------------------------------------------
  // Match candidates

  /** The structure nodes in node order, each with its attributes. */
  function Candidates(ids: seq<string>, nodes: map<string, Node>): (r: seq<Candidate>)
    ensures forall k :: 0 <= k < |r| ==> r[k].0 in nodes && r[k].1 == nodes[r[k].0] && r[k].1.StructureNode?
    ensures forall k :: 0 <= k < |r| ==> r[k].0 in ids
  {
    if |ids| == 0 then []
    else
      var id := ids[|ids| - 1];
      Candidates(ids[..|ids| - 1], nodes)
      + (if id in nodes && nodes[id].StructureNode? then [(id, nodes[id])] else [])
  }

  /** Every structure node is a candidate. */
  lemma {:induction false} CandidatesComplete(ids: seq<string>, nodes: map<string, Node>, id: string)
    requires id in ids && id in nodes && nodes[id].StructureNode?
    ensures exists k :: 0 <= k < |Candidates(ids, nodes)| && Candidates(ids, nodes)[k].0 == id
  {
    var r := Candidates(ids, nodes);
    if ids[|ids| - 1] == id {
      assert r[|r| - 1].0 == id;
    } else {
      var init := ids[..|ids| - 1];
      assert id in init by { assert ids == init + [ids[|ids| - 1]]; }
      CandidatesComplete(init, nodes, id);
      var k :| 0 <= k < |Candidates(init, nodes)| && Candidates(init, nodes)[k].0 == id;
      assert r[k] == Candidates(init, nodes)[k];
    }
  }

  /** The loop collecting `all_candidates`. */
  method CollectCandidates(ids: seq<string>, nodes: map<string, Node>) returns (cands: seq<Candidate>)
    ensures cands == Candidates(ids, nodes)
  {
    cands := [];
    var i := 0;
    while i < |ids|
      invariant 0 <= i <= |ids|
      invariant cands == Candidates(ids[..i], nodes)
    {
      var id := ids[i];
      assert ids[..i + 1][..i] == ids[..i] && ids[..i + 1][i] == id;
      if id in nodes && nodes[id].StructureNode? {
        cands := cands + [(id, nodes[id])];
      }
      i := i + 1;
    }
    assert ids[..i] == ids;
  }

  /** The page a candidate's structure was drawn on. */
  function PageOf(c: Candidate): int {
    if c.1.StructureNode? then c.1.item.page else c.1.page
  }

  /** `node_candidates_by_page[page]`: the candidates on the page, in order. */
  function PageCandidates(cands: seq<Candidate>, page: int): (r: seq<Candidate>)
    ensures forall k :: 0 <= k < |r| ==> r[k] in cands && PageOf(r[k]) == page
    ensures |r| == 0 <==> forall k :: 0 <= k < |cands| ==> PageOf(cands[k]) != page
  {
    if |cands| == 0 then []
    else
      var rest := PageCandidates(cands[1..], page);
      assert forall k :: 0 < k < |cands| ==> cands[k] == cands[1..][k - 1];
      (if PageOf(cands[0]) == page then [cands[0]] else []) + rest
  }

  /** `node_candidates_by_page.get(page) or all_candidates`: the structures
      of the pipe's own page, or every structure when the page has none. */
  function CandidatesFor(cands: seq<Candidate>, page: int): (r: seq<Candidate>)
    ensures forall k :: 0 <= k < |r| ==> r[k] in cands
  {
    var onPage := PageCandidates(cands, page);
    if |onPage| > 0 then onPage else cands
  }

  // ---------------------------------------------------------------------------
  // Pipe ends

  /** The station of one end: the parsed station text when there is one,
      otherwise whatever station the structure hint holds. */
  function StationOf(station: Option<string>, hint: Option<string>): (r: Option<real>)
    ensures Given(station) && ParseStation(station.value).Some? ==> r == ParseStation(station.value)
  {
    var s := if Given(station) then ParseStation(station.value) else None;
    if s.Some? then s else ParseStation(TextOr(hint))
  }

  /** The matched ends of a pipe and their confidences. */
  datatype Ends = Ends(from: Option<string>, fromConf: Confidence, to: Option<string>, toConf: Confidence)

  /** `_best_node_match` for an end that has a hint or a station, and no
      match otherwise. */
  function MatchEnd(cands: seq<Candidate>, station: Option<real>, hint: Option<string>,
                    exclude: Option<string>): (Option<string>, Confidence)
  {
    if Given(hint) || station.Some? then BestNodeMatch(cands, station, hint, exclude) else (None, CNone)
  }

  /** The inferred end replaces the unmatched one only when there is one. */
  function InferEnd(cands: seq<Candidate>, anchor: string, length: Option<real>,
                    current: (Option<string>, Confidence)): (Option<string>, Confidence)
  {
    var inferred := InferOtherEndpoint(cands, anchor, length);
    if inferred.0.Some? then inferred else current
  }

  /** Both ends: the from end first, then the to end with the from match
      excluded, then one end inferred from the other by the pipe length. */
  function ResolveEnds(cands: seq<Candidate>, p: Pipe): Ends {
    var from := MatchEnd(cands, StationOf(p.fromStation, p.fromHint), p.fromHint, None);
    var to := MatchEnd(cands, StationOf(p.toStation, p.toHint), p.toHint, from.0);
    var to' := if from.0.Some? && to.0.None? then InferEnd(cands, from.0.value, p.length, to) else to;
    var from' := if to'.0.Some? && from.0.None? then InferEnd(cands, to'.0.value, p.length, from) else from;
    Ends(from'.0, from'.1, to'.0, to'.1)
  }

  /** `id` names a candidate. */
  predicate IsCandidate(cands: seq<Candidate>, id: string) {
    exists k :: 0 <= k < |cands| && cands[k].0 == id
  }

  lemma MatchEndIsCandidate(cands: seq<Candidate>, station: Option<real>, hint: Option<string>,
                            exclude: Option<string>)
    ensures var m := MatchEnd(cands, station, hint, exclude);
      m.0.Some? ==> IsCandidate(cands, m.0.value)
  {
    var m := MatchEnd(cands, station, hint, exclude);
    if m.0.Some? {
      var keys, vals := MatchKeys(cands, station, ScoreBy(hint)), Eligible(cands, exclude);
      var b := LeastWith(keys, vals).value;
      assert cands[b].0 == m.0.value;
    }
  }

  lemma InferEndIsCandidate(cands: seq<Candidate>, anchor: string, length: Option<real>,
                            current: (Option<string>, Confidence))
    requires current.0.Some? ==> IsCandidate(cands, current.0.value)
    ensures var m := InferEnd(cands, anchor, length, current);
      m.0.Some? ==> IsCandidate(cands, m.0.value)
  {
    InferOtherEndpointRule(cands, anchor, length);
  }

  /** Every matched end is one of the candidates. */
  lemma ResolveEndsRule(cands: seq<Candidate>, p: Pipe)
    ensures var e := ResolveEnds(cands, p);
      && (e.from.Some? ==> IsCandidate(cands, e.from.value))
      && (e.to.Some? ==> IsCandidate(cands, e.to.value))
  {
    var from := MatchEnd(cands, StationOf(p.fromStation, p.fromHint), p.fromHint, None);
    MatchEndIsCandidate(cands, StationOf(p.fromStation, p.fromHint), p.fromHint, None);
    var to := MatchEnd(cands, StationOf(p.toStation, p.toHint), p.toHint, from.0);
    MatchEndIsCandidate(cands, StationOf(p.toStation, p.toHint), p.toHint, from.0);
    if from.0.Some? && to.0.None? {
      InferEndIsCandidate(cands, from.0.value, p.length, to);
    }
    var to' := if from.0.Some? && to.0.None? then InferEnd(cands, from.0.value, p.length, to) else to;
    if to'.0.Some? && from.0.None? {
      InferEndIsCandidate(cands, to'.0.value, p.length, from);
    }
  }

  // ---------------------------------------------------------------------------
  // Pipe edges

  /** `f"{utility}:e{edge_counter}:{tile_id}"` */
  function EdgeIdOf(utility: string, k: nat, tileId: string): string {
    utility + ":e" + NatToString(k) + ":" + tileId
  }

  /** `f"orphan:{utility_type}:{pipe_edge_id}:{side}"` */
  function OrphanId(utility: string, edgeId: string, side: string): string {
    "orphan:" + utility + ":" + edgeId + ":" + side
  }

  /** `_ensure_orphan_anchor`: the anchor is added unless already there. */
  function EnsureOrphan(g: GraphState, utility: string, edgeId: string, side: string, page: int): GraphState {
    var id := OrphanId(utility, edgeId, side);
    if id in g.nodes then g else AddNode(g, id, OrphanAnchor(utility, page))
  }

  /** The attributes `add_edge` gives a pipe. */
  function PipeEdge(utility: string, edgeId: string, x: TileExtraction, p: Pipe,
                    fromConf: Confidence, toConf: Confidence, sanitized: bool, referenceOnly: bool): Edge
  {
    Edge(edgeId, utility, p.pipeType, p.size, p.material, p.length, p.slope,
         p.fromStation, p.toStation, p.fromHint, p.toHint, p.notes,
         WorseConfidence(fromConf, toConf), fromConf, toConf,
         [x.tileId], [x.page], UniqueInts(p.textIds), sanitized, referenceOnly,
         None, None, None, None)
  }

  /** What every pipe of one run shares: the utility, the tile metadata, the
      reference-only pages and all match candidates. */
  datatype Context = Context(utility: string, meta: TileMeta, referencePages: set<int>, cands: seq<Candidate>)

  /** A tile is reference-only when its sheet is a signing and striping
      sheet or its page is reference-only. */
  predicate ReferenceTile(ctx: Context, x: TileExtraction) {
    SheetTypeOf(x) == "signing_striping" || x.page in ctx.referencePages
  }

  /** One end of the edge: the matched node, or the pipe's orphan anchor. */
  function PlaceEnd(g: GraphState, ctx: Context, edgeId: string, side: string, page: int,
                    matched: Option<string>): (GraphState, string)
  {
    if matched.Some? then (g, matched.value)
    else (EnsureOrphan(g, ctx.utility, edgeId, side, page), OrphanId(ctx.utility, edgeId, side))
  }

  /** One pipe of one tile; `k` is the edge counter. */
  function AddPipe(g: GraphState, ctx: Context, x: TileExtraction, p: Pipe, k: nat): (GraphState, nat) {
    if !PipeMatches(p, ctx.utility) then (g, k)
    else
      var edgeId := EdgeIdOf(ctx.utility, k, x.tileId);
      var ends := ResolveEnds(CandidatesFor(ctx.cands, x.page), p);
      var (g1, u) := PlaceEnd(g, ctx, edgeId, "from", x.page, ends.from);
      var (g2, v) := PlaceEnd(g1, ctx, edgeId, "to", x.page, ends.to);
      var fromConf := if ends.from.Some? then ends.fromConf else CNone;
      var toConf := if ends.to.Some? then ends.toConf else CNone;
      var e := PipeEdge(ctx.utility, edgeId, x, p, fromConf, toConf,
                        MetaSanitized(ctx.meta, x.tileId), ReferenceTile(ctx, x));
      (AddEdge(g2, (u, v), e), k + 1)
  }

  /** The pipes `ps` of the tile `x`, first to last. */
  function AddPipes(g: GraphState, ctx: Context, x: TileExtraction, ps: seq<Pipe>, k: nat): (GraphState, nat)
    decreases |ps|
  {
    if |ps| == 0 then (g, k)
    else
      var (g1, k1) := AddPipe(g, ctx, x, ps[0], k);
      AddPipes(g1, ctx, x, ps[1..], k1)
  }

  /** The pipes of every tile, tile by tile. */
  function AddExtractions(g: GraphState, ctx: Context, xs: seq<TileExtraction>, k: nat): (GraphState, nat)
    decreases |xs|
  {
    if |xs| == 0 then (g, k)
    else
      var (g1, k1) := AddPipes(g, ctx, xs[0], xs[0].pipes, k);
      AddExtractions(g1, ctx, xs[1..], k1)
  }

  /** `build_utility_graph`. `hash` stands for the digest the node ids are
      made from. */
  function UtilityGraph(xs: seq<TileExtraction>, utilityType: string, meta: TileMeta,
                        hash: string -> string): GraphState
  {
    var utility := UtilityOf(utilityType);
    var g0 := AddStructures(EmptyGraph(utility), MergeStructures(xs, utility, meta, hash));
    var ctx := Context(utility, meta, ReferenceOnlyPages(xs), Candidates(g0.nodeOrder, g0.nodes));
    var g1 := AddExtractions(g0, ctx, xs, 0).0;
    Oriented(Deduplicated(CrownFiltered(g1))).(quality := Some(QualityOf(xs, meta)))
  }

  // ---------------------------------------------------------------------------
  // Properties

  /** The number of pipes of the utility among `ps`. */
  function MatchingPipes(ps: seq<Pipe>, utility: string): nat {
    if |ps| == 0 then 0 else (if PipeMatches(ps[0], utility) then 1 else 0) + MatchingPipes(ps[1..], utility)
  }

  /** The number of pipes of the utility in all tiles. */
  function MatchingPipesIn(xs: seq<TileExtraction>, utility: string): nat {
    if |xs| == 0 then 0 else MatchingPipes(xs[0].pipes, utility) + MatchingPipesIn(xs[1..], utility)
  }

  /** What the pipe loop keeps: the graph is well formed, its nodes are
      only ever added (orphan anchors), edges only ever added or updated,
      and every candidate stays a node. */
  ghost predicate Grows(g: GraphState, h: GraphState, ctx: Context) {
    && Valid(h) && h.utility == g.utility && h.quality == g.quality
    && (forall id :: id in g.nodes ==> id in h.nodes && h.nodes[id] == g.nodes[id])
    && (forall id :: id in h.nodes && id !in g.nodes ==> h.nodes[id].OrphanAnchor?)
    && (forall k :: 0 <= k < |ctx.cands| ==> ctx.cands[k].0 in h.nodes)
  }

  /** One pipe adds at most one edge, and only if it belongs to the
      utility; the counter counts exactly those pipes. */
  lemma AddPipeRule(g: GraphState, ctx: Context, x: TileExtraction, p: Pipe, k: nat)
    requires Valid(g) && forall c :: 0 <= c < |ctx.cands| ==> ctx.cands[c].0 in g.nodes
    ensures var (h, k') := AddPipe(g, ctx, x, p, k);
      && Grows(g, h, ctx)
      && k' == k + (if PipeMatches(p, ctx.utility) then 1 else 0)
      && |h.edges| <= |g.edges| + (k' - k)
  {
    if PipeMatches(p, ctx.utility) {
      var edgeId := EdgeIdOf(ctx.utility, k, x.tileId);
      var cands := CandidatesFor(ctx.cands, x.page);
      var ends := ResolveEnds(cands, p);
      ResolveEndsRule(cands, p);
      var (g1, u) := PlaceEnd(g, ctx, edgeId, "from", x.page, ends.from);
      PlaceEndRule(g, ctx, cands, edgeId, "from", x.page, ends.from);
      var (g2, v) := PlaceEnd(g1, ctx, edgeId, "to", x.page, ends.to);
      PlaceEndRule(g1, ctx, cands, edgeId, "to", x.page, ends.to);
      var e := PipeEdge(ctx.utility, edgeId, x, p, if ends.from.Some? then ends.fromConf else CNone,
                        if ends.to.Some? then ends.toConf else CNone,
                        MetaSanitized(ctx.meta, x.tileId), ReferenceTile(ctx, x));
      var h := AddEdge(g2, (u, v), e);
      assert AddPipe(g, ctx, x, p, k) == (h, k + 1);
      AddEdgeValid(g2, (u, v), e);
      EdgeCount(g2, (u, v), e);
      GrowsTrans(g, g1, g2, ctx);
      assert Grows(g2, h, ctx);
      GrowsTrans(g, g2, h, ctx);
    }
  }

  /** Placing one end keeps the graph well formed and names a node. */
  lemma PlaceEndRule(g: GraphState, ctx: Context, cands: seq<Candidate>, edgeId: string, side: string,
                     page: int, matched: Option<string>)
    requires Valid(g) && forall c :: 0 <= c < |ctx.cands| ==> ctx.cands[c].0 in g.nodes
    requires forall c :: 0 <= c < |cands| ==> cands[c] in ctx.cands
    requires matched.Some? ==> IsCandidate(cands, matched.value)
    ensures var (h, id) := PlaceEnd(g, ctx, edgeId, side, page, matched);
      && Grows(g, h, ctx) && id in h.nodes && h.edges == g.edges
  {
    if matched.Some? {
      var c :| 0 <= c < |cands| && cands[c].0 == matched.value;
      var j :| 0 <= j < |ctx.cands| && ctx.cands[j] == cands[c];
    } else {
      var id := OrphanId(ctx.utility, edgeId, side);
      if id !in g.nodes {
        AddNodeValid(g, id, OrphanAnchor(ctx.utility, page));
      }
    }
  }

  /** Adding an edge adds at most one key. */
  lemma EdgeCount(g: GraphState, p: Pair, e: Edge)
    ensures |AddEdge(g, p, e).edges| <= |g.edges| + 1
  {
    if p !in g.edges {
      assert AddEdge(g, p, e).edges.Keys == g.edges.Keys + {p};
    } else {
      assert AddEdge(g, p, e).edges.Keys == g.edges.Keys;
    }
  }

  lemma GrowsTrans(a: GraphState, b: GraphState, c: GraphState, ctx: Context)
    requires Grows(a, b, ctx) && Grows(b, c, ctx)
    ensures Grows(a, c, ctx)
  {
  }

  /** The pipes of one tile: the counter advances by the pipes of the
      utility, and each adds at most one edge. */
  lemma {:induction false} AddPipesRule(g: GraphState, ctx: Context, x: TileExtraction, ps: seq<Pipe>, k: nat)
    requires Valid(g) && forall c :: 0 <= c < |ctx.cands| ==> ctx.cands[c].0 in g.nodes
    ensures var (h, k') := AddPipes(g, ctx, x, ps, k);
      && Grows(g, h, ctx)
      && k' == k + MatchingPipes(ps, ctx.utility)
      && |h.edges| <= |g.edges| + MatchingPipes(ps, ctx.utility)
    decreases |ps|
  {
    if |ps| > 0 {
      AddPipeRule(g, ctx, x, ps[0], k);
      var (g1, k1) := AddPipe(g, ctx, x, ps[0], k);
      AddPipesRule(g1, ctx, x, ps[1..], k1);
      GrowsTrans(g, g1, AddPipes(g1, ctx, x, ps[1..], k1).0, ctx);
    }
  }

  /** All tiles: the counter ends at the number of pipes of the utility,
      which bounds the number of edges added. */
  lemma {:induction false} AddExtractionsRule(g: GraphState, ctx: Context, xs: seq<TileExtraction>, k: nat)
    requires Valid(g) && forall c :: 0 <= c < |ctx.cands| ==> ctx.cands[c].0 in g.nodes
    ensures var (h, k') := AddExtractions(g, ctx, xs, k);
      && Grows(g, h, ctx)
      && k' == k + MatchingPipesIn(xs, ctx.utility)
      && |h.edges| <= |g.edges| + MatchingPipesIn(xs, ctx.utility)
    decreases |xs|
  {
    if |xs| > 0 {
      AddPipesRule(g, ctx, xs[0], xs[0].pipes, k);
      var (g1, k1) := AddPipes(g, ctx, xs[0], xs[0].pipes, k);
      AddExtractionsRule(g1, ctx, xs[1..], k1);
      GrowsTrans(g, g1, AddExtractions(g1, ctx, xs[1..], k1).0, ctx);
    }
  }

  /** The three passes keep the graph well formed, keep every node and
      never add an edge; after them a gravity graph has no uphill edge. */
  lemma PassesRule(g: GraphState)
    requires Valid(g)
    ensures var h := Oriented(Deduplicated(CrownFiltered(g)));
      && Valid(h) && h.utility == g.utility && h.quality == g.quality
      && h.nodes.Keys == g.nodes.Keys && |h.edges| <= |g.edges|
      && (Gravity(g.utility) ==> forall p :: p in h.edges ==> !Uphill(h.nodes, p))
  {
    var g1 := CrownFiltered(g);
    CrownFilteredRule(g);
    assert |g1.edges| == |g.edges| by {
      assert g1.edges.Keys == g.edges.Keys || g1 == g;
      assert |g1.edges.Keys| == |g1.edges| && |g.edges.Keys| == |g.edges|;
    }
    DeduplicatedRule(g1);
    OrientedRule(Deduplicated(g1));
  }

  /** `build_utility_graph`: the graph is well formed and tagged with the
      utility and its tile-quality summary; every merged structure is a
      node; there are no more edges than pipes of the utility; and a gravity
      graph has no uphill edge. */
  lemma UtilityGraphRule(xs: seq<TileExtraction>, utilityType: string, meta: TileMeta, hash: string -> string)
    ensures var h := UtilityGraph(xs, utilityType, meta, hash);
      var utility := UtilityOf(utilityType);
      && Valid(h) && h.utility == utility && h.quality == Some(QualityOf(xs, meta))
      && (forall item :: item in MergeStructures(xs, utility, meta, hash) ==> item.nodeId in h.nodes)
      && |h.edges| <= MatchingPipesIn(xs, utility)
      && (Gravity(utility) ==> forall p :: p in h.edges ==> !Uphill(h.nodes, p))
  {
    var utility := UtilityOf(utilityType);
    var items := MergeStructures(xs, utility, meta, hash);
    var g0 := AddStructures(EmptyGraph(utility), items);
    AddStructuresRule(EmptyGraph(utility), items);
    var ctx := Context(utility, meta, ReferenceOnlyPages(xs), Candidates(g0.nodeOrder, g0.nodes));
    AddExtractionsRule(g0, ctx, xs, 0);
    var g1 := AddExtractions(g0, ctx, xs, 0).0;
    PassesRule(g1);
    forall item | item in items
      ensures item.nodeId in g1.nodes
    {
      var k :| 0 <= k < |items| && items[k] == item;
    }
  }

  // ---------------------------------------------------------------------------
  // The loops of `build_utility_graph`

  /** One end on the graph object: the matched node, or the orphan anchor,
      added if it is not there yet. */
  method PlaceEndAt(graph: DiGraph, ctx: Context, edgeId: string, side: string, page: int,
                    matched: Option<string>) returns (id: string)
    modifies graph
    ensures (graph.State(), id) == PlaceEnd(old(graph.State()), ctx, edgeId, side, page, matched)
  {
    if matched.Some? {
      return matched.value;
    }
    id := OrphanId(ctx.utility, edgeId, side);
    if id !in graph.nodes {
      graph.AddNodeAt(id, OrphanAnchor(ctx.utility, page));
    }
  }

  /** The body of the pipe loop; returns the new edge counter. */
  method AddPipeTo(graph: DiGraph, ctx: Context, x: TileExtraction, p: Pipe, k: nat) returns (k': nat)
    modifies graph
    ensures (graph.State(), k') == AddPipe(old(graph.State()), ctx, x, p, k)
  {
    if !PipeMatches(p, ctx.utility) {
      return k;
    }
    var edgeId := EdgeIdOf(ctx.utility, k, x.tileId);
    var ends := ResolveEnds(CandidatesFor(ctx.cands, x.page), p);
    var u := PlaceEndAt(graph, ctx, edgeId, "from", x.page, ends.from);
    var v := PlaceEndAt(graph, ctx, edgeId, "to", x.page, ends.to);
    var fromConf := if ends.from.Some? then ends.fromConf else CNone;
    var toConf := if ends.to.Some? then ends.toConf else CNone;
    graph.AddEdgeAt((u, v), PipeEdge(ctx.utility, edgeId, x, p, fromConf, toConf,
                                     MetaSanitized(ctx.meta, x.tileId), ReferenceTile(ctx, x)));
    k' := k + 1;
  }

  /** The loop over the tiles and their pipes. */
  method AddExtractionsTo(graph: DiGraph, ctx: Context, xs: seq<TileExtraction>) returns (count: nat)
    modifies graph
    ensures (graph.State(), count) == AddExtractions(old(graph.State()), ctx, xs, 0)
  {
    ghost var g0 := graph.State();
    count := 0;
    var i := 0;
    while i < |xs|
      invariant 0 <= i <= |xs|
      invariant AddExtractions(graph.State(), ctx, xs[i..], count) == AddExtractions(g0, ctx, xs, 0)
    {
      assert xs[i..][0] == xs[i] && xs[i..][1..] == xs[i + 1..];
      var x := xs[i];
      ghost var gi, ki := graph.State(), count;
      var j := 0;
      while j < |x.pipes|
        invariant 0 <= j <= |x.pipes|
        invariant AddPipes(graph.State(), ctx, x, x.pipes[j..], count) == AddPipes(gi, ctx, x, x.pipes, ki)
      {
        assert x.pipes[j..][0] == x.pipes[j] && x.pipes[j..][1..] == x.pipes[j + 1..];
        count := AddPipeTo(graph, ctx, x, x.pipes[j], count);
        j := j + 1;
      }
      i := i + 1;
    }
  }

  /** `build_utility_graph` on the graph object. */
  method BuildUtilityGraph(xs: seq<TileExtraction>, utilityType: string, meta: TileMeta,
                           hash: string -> string) returns (graph: DiGraph)
    ensures graph.State() == UtilityGraph(xs, utilityType, meta, hash)
  {
    var utility := UtilityOf(utilityType);
    graph := new DiGraph(utility);
    var items := MergeStructuresLoop(xs, utility, meta, hash);
    AddStructureNodes(graph, items);
    var cands := CollectCandidates(graph.nodeOrder, graph.nodes);
    var pages := FindReferenceOnlyPages(xs);
    var ctx := Context(utility, meta, pages, cands);
    var _ := AddExtractionsTo(graph, ctx, xs);
    FilterSuspectCrowns(graph);
    DeduplicatePipeEdges(graph);
    OrientGravityEdges(graph);
    var q := BuildQualitySummary(xs, meta);
    graph.SetQuality(q);
  }
}
