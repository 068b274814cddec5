/** The directed utility graph the assembly step builds and the checks read:
    nodes and edges keep their insertion order, there is at most one edge per
    ordered pair of nodes, and adding an edge that is already there updates
    its attributes in place (the behaviour of a networkx `DiGraph`). */
module Graph {
  import opened Wrappers
  import opened Schemas
  import opened Merge

  // ---------------------------------------------------------------------------
  // Attribute values

  /** The endpoint-match confidence ladder. */
  datatype Confidence = CNone | Low | Medium | High

  /** `_CONFIDENCE_ORDER` */
  function Level(c: Confidence): (n: nat)
    ensures n <= 3
  {
    match c
    case CNone => 0
    case Low => 1
    case Medium => 2
    case High => 3
  }

  /** Each level names exactly one confidence. */
  lemma LevelInjective(a: Confidence, b: Confidence)
    ensures Level(a) == Level(b) <==> a == b
  {
  }

  datatype Grade = GradeA | GradeB | GradeC | GradeD

  /** The tile-quality summary stored on the graph. */
  datatype QualitySummary = QualitySummary(
    totalTiles: nat,
    okTiles: nat,
    sanitizedTiles: nat,
    skippedTiles: nat,
    grade: Grade,
    warnings: seq<string>)

  /** A node: a merged structure with the attributes the crown filter adds
      (`crown_suspects` absent is the empty list, `suspect_crown` absent is
      false), or an anchor standing in for an unmatched pipe end. */
  datatype Node =
    | StructureNode(item: MergedStructure, representativeInvert: Option<real>,
                    crownSuspects: seq<Invert>, suspectCrown: bool)
    | OrphanAnchor(utility: string, page: int)

  /** `station_ft` */
  function StationFt(n: Node): Option<real> {
    if n.StructureNode? then n.item.parsedStation else None
  }

  /** `signed_offset_ft` */
  function SignedOffsetFt(n: Node): Option<real> {
    if n.StructureNode? then n.item.signedOffset else None
  }

  /** `representative_invert` */
  function RepInvert(n: Node): Option<real> {
    if n.StructureNode? then n.representativeInvert else None
  }

  /** `inverts`, the empty list when the node has none. */
  function NodeInverts(n: Node): seq<Invert> {
    if n.StructureNode? then n.item.inverts else []
  }

  /** `source_page_numbers` */
  function NodePages(n: Node): seq<int> {
    if n.StructureNode? then n.item.pages else [n.page]
  }

  /** `source_text_ids` */
  function NodeTextIds(n: Node): seq<int> {
    if n.StructureNode? then n.item.textIds else []
  }

  /** `rim_elevation_values` */
  function NodeRims(n: Node): seq<real> {
    if n.StructureNode? then n.item.rims else []
  }

  /** The attributes of one pipe edge. The last four are set only by the
      passes after assembly; `None` stands for a key the edge does not have. */
  datatype Edge = Edge(
    edgeId: string,
    utility: string,
    pipeType: string,
    size: string,
    material: Option<string>,
    length: Option<real>,
    slope: Option<real>,
    fromStation: Option<string>,
    toStation: Option<string>,
    fromHint: Option<string>,
    toHint: Option<string>,
    notes: Option<string>,
    matched: Confidence,
    fromConf: Confidence,
    toConf: Confidence,
    tileIds: seq<string>,
    pages: seq<int>,
    textIds: seq<int>,
    sanitized: bool,
    referenceOnly: bool,
    crownCandidate: Option<bool>,
    originalFrom: Option<string>,
    originalTo: Option<string>,
    oriented: Option<bool>)

  /** Python's `dict.update`: every key of `e` replaces the old value, and a
      key `e` lacks keeps the old one. */
  function Overlay(old_: Edge, e: Edge): (r: Edge)
    ensures r.crownCandidate == (if e.crownCandidate.Some? then e.crownCandidate else old_.crownCandidate)
    ensures r.originalFrom == (if e.originalFrom.Some? then e.originalFrom else old_.originalFrom)
    ensures r.originalTo == (if e.originalTo.Some? then e.originalTo else old_.originalTo)
    ensures r.oriented == (if e.oriented.Some? then e.oriented else old_.oriented)
    ensures r.(crownCandidate := e.crownCandidate, originalFrom := e.originalFrom,
               originalTo := e.originalTo, oriented := e.oriented) == e
  {
    e.(crownCandidate := if e.crownCandidate.Some? then e.crownCandidate else old_.crownCandidate,
       originalFrom := if e.originalFrom.Some? then e.originalFrom else old_.originalFrom,
       originalTo := if e.originalTo.Some? then e.originalTo else old_.originalTo,
       oriented := if e.oriented.Some? then e.oriented else old_.oriented)
  }

  /** An update with a record that has every key is a replacement. */
  lemma OverlayComplete(old_: Edge, e: Edge)
    requires e.crownCandidate.Some? && e.originalFrom.Some? && e.originalTo.Some? && e.oriented.Some?
    ensures Overlay(old_, e) == e
  {
  }

  /** An edge is named by its (from, to) node pair. */
  type Pair = (string, string)

  // ---------------------------------------------------------------------------
  // Graph values

  /** The whole graph: the utility it was built for, nodes and edges in
      insertion order with their attributes, and the quality summary once it
      has been stored. */
  datatype GraphState = GraphState(
    utility: string,
    nodeOrder: seq<string>,
    nodes: map<string, Node>,
    edgeOrder: seq<Pair>,
    edges: map<Pair, Edge>,
    quality: Option<QualitySummary>)

  predicate Distinct<T(==)>(s: seq<T>) {
    forall i, j :: 0 <= i < j < |s| ==> s[i] != s[j]
  }

  /** The orders list the keys exactly once, and every edge joins two nodes. */
  ghost predicate Valid(g: GraphState) {
    (forall id :: id in g.nodes <==> id in g.nodeOrder) && Distinct(g.nodeOrder)
    && (forall p :: p in g.edges <==> p in g.edgeOrder) && Distinct(g.edgeOrder)
    && (forall p :: p in g.edges ==> p.0 in g.nodes && p.1 in g.nodes)
  }

  function EmptyGraph(utility: string): (g: GraphState)
    ensures Valid(g) && g.nodes == map[] && g.edges == map[]
  {
    GraphState(utility, [], map[], [], map[], None)
  }

  /** `add_node`: a new node goes last; an existing one keeps its place and
      takes the new attributes. */
  function AddNode(g: GraphState, id: string, n: Node): GraphState {
    if id in g.nodes then g.(nodes := g.nodes[id := n])
    else g.(nodeOrder := g.nodeOrder + [id], nodes := g.nodes[id := n])
  }

  /** `add_edge(u, v, **attrs)` between existing nodes: a new edge goes last;
      an existing one keeps its place and is updated with `attrs`. */
  function AddEdge(g: GraphState, p: Pair, e: Edge): GraphState {
    if p in g.edges then g.(edges := g.edges[p := Overlay(g.edges[p], e)])
    else g.(edgeOrder := g.edgeOrder + [p], edges := g.edges[p := e])
  }

  /** The sequence without any occurrence of `x`. */
  function Without(s: seq<Pair>, x: Pair): (r: seq<Pair>)
    ensures forall y :: y in r <==> y in s && y != x
  {
    if |s| == 0 then [] else (if s[0] == x then [] else [s[0]]) + Without(s[1..], x)
  }

  lemma {:induction false} WithoutDistinct(s: seq<Pair>, x: Pair)
    requires Distinct(s)
    ensures Distinct(Without(s, x))
  {
    if |s| > 0 {
      WithoutDistinct(s[1..], x);
      assert s[0] !in s[1..];
    }
  }

  /** `remove_edge` */
  function RemoveEdge(g: GraphState, p: Pair): GraphState {
    g.(edgeOrder := Without(g.edgeOrder, p), edges := g.edges - {p})
  }

  /** Writing node attributes in place. */
  function SetNode(g: GraphState, id: string, n: Node): GraphState {
    g.(nodes := g.nodes[id := n])
  }

  /** Writing edge attributes in place. */
  function SetEdge(g: GraphState, p: Pair, e: Edge): GraphState {
    g.(edges := g.edges[p := e])
  }

  /** Adding a node keeps the graph well formed and never loses a node. */
  lemma AddNodeValid(g: GraphState, id: string, n: Node)
    requires Valid(g)
    ensures var h := AddNode(g, id, n);
      Valid(h) && h.nodes.Keys == g.nodes.Keys + {id} && h.nodes[id] == n && h.edges == g.edges
  {
    var h := AddNode(g, id, n);
    if id !in g.nodes {
      assert forall i :: 0 <= i < |g.nodeOrder| ==> g.nodeOrder[i] != id;
    }
  }

  /** Adding an edge between nodes of the graph keeps it well formed; the
      edge then holds the new attributes except for keys they lack. */
  lemma AddEdgeValid(g: GraphState, p: Pair, e: Edge)
    requires Valid(g) && p.0 in g.nodes && p.1 in g.nodes
    ensures var h := AddEdge(g, p, e);
      Valid(h) && h.edges.Keys == g.edges.Keys + {p} && h.nodes == g.nodes
      && (p !in g.edges ==> h.edges[p] == e)
      && (p in g.edges ==> h.edges[p] == Overlay(g.edges[p], e))
  {
    if p !in g.edges {
      assert forall i :: 0 <= i < |g.edgeOrder| ==> g.edgeOrder[i] != p;
    }
  }

  lemma KeysCard(a: map<Pair, Edge>, b: map<Pair, Edge>)
    requires a.Keys <= b.Keys
    ensures |a| <= |b|
  {
    assert b.Keys == a.Keys + (b.Keys - a.Keys);
    assert |a.Keys| == |a| && |b.Keys| == |b|;
  }

  /** Removing an edge keeps the graph well formed and removes only it. */
  lemma RemoveEdgeValid(g: GraphState, p: Pair)
    requires Valid(g)
    ensures var h := RemoveEdge(g, p);
      Valid(h) && h.edges.Keys == g.edges.Keys - {p} && h.nodes == g.nodes
  {
    WithoutDistinct(g.edgeOrder, p);
  }

  // ---------------------------------------------------------------------------
  // Edge iteration

  /** The edges leaving `u`, in the order they were added. */
  function OutEdges(edgeOrder: seq<Pair>, u: string): (r: seq<Pair>)
    ensures forall p :: p in r <==> p in edgeOrder && p.0 == u
  {
    if |edgeOrder| == 0 then []
    else (if edgeOrder[0].0 == u then [edgeOrder[0]] else []) + OutEdges(edgeOrder[1..], u)
  }

  function EdgesBySource(nodeOrder: seq<string>, edgeOrder: seq<Pair>): seq<Pair> {
    if |nodeOrder| == 0 then []
    else OutEdges(edgeOrder, nodeOrder[0]) + EdgesBySource(nodeOrder[1..], edgeOrder)
  }

  lemma {:induction false} EdgesBySourceMembers(nodeOrder: seq<string>, edgeOrder: seq<Pair>)
    ensures forall p :: p in EdgesBySource(nodeOrder, edgeOrder) <==> p in edgeOrder && p.0 in nodeOrder
  {
    if |nodeOrder| > 0 {
      EdgesBySourceMembers(nodeOrder[1..], edgeOrder);
      assert forall x :: x in nodeOrder <==> x == nodeOrder[0] || x in nodeOrder[1..];
    }
  }

  /** `graph.edges(data=True)`: source nodes in node order, and the edges
      of each source in the order they were added. */
  function EdgeList(g: GraphState): seq<Pair> {
    EdgesBySource(g.nodeOrder, g.edgeOrder)
  }

  /** Iterating the edges visits exactly the edges of the graph. */
  lemma EdgeListMembers(g: GraphState)
    requires Valid(g)
    ensures forall p :: p in EdgeList(g) <==> p in g.edges
  {
    EdgesBySourceMembers(g.nodeOrder, g.edgeOrder);
  }

  /** `graph.degree(id) != 0`: some edge starts or ends at the node. */
  predicate Touched(g: GraphState, id: string) {
    exists p :: p in g.edges && (p.0 == id || p.1 == id)
  }

  // ---------------------------------------------------------------------------
  // The graph object

  /** The mutable graph. Its methods are the networkx operations the
      assembly step uses, each specified by the value operation above. */
  class DiGraph {
    var utility: string
    var nodeOrder: seq<string>
    var nodes: map<string, Node>
    var edgeOrder: seq<Pair>
    var edges: map<Pair, Edge>
    var quality: Option<QualitySummary>

    function State(): GraphState
      reads this
    {
      GraphState(utility, nodeOrder, nodes, edgeOrder, edges, quality)
    }

    /** `nx.DiGraph(utility_type=utility)` */
    constructor (utility: string)
      ensures State() == EmptyGraph(utility)
    {
      this.utility := utility;
      nodeOrder := [];
      nodes := map[];
      edgeOrder := [];
      edges := map[];
      quality := None;
    }

    method AddNodeAt(id: string, n: Node)
      modifies this
      ensures State() == AddNode(old(State()), id, n)
    {
      if id !in nodes {
        nodeOrder := nodeOrder + [id];
      }
      nodes := nodes[id := n];
    }

    method AddEdgeAt(p: Pair, e: Edge)
      modifies this
      ensures State() == AddEdge(old(State()), p, e)
    {
      if p in edges {
        edges := edges[p := Overlay(edges[p], e)];
      } else {
        edgeOrder := edgeOrder + [p];
        edges := edges[p := e];
      }
    }

    method RemoveEdgeAt(p: Pair)
      modifies this
      ensures State() == RemoveEdge(old(State()), p)
    {
      edgeOrder := Without(edgeOrder, p);
      edges := edges - {p};
    }

    method SetNodeAt(id: string, n: Node)
      modifies this
      ensures State() == SetNode(old(State()), id, n)
    {
      nodes := nodes[id := n];
    }

    method SetEdgeAt(p: Pair, e: Edge)
      modifies this
      ensures State() == SetEdge(old(State()), p, e)
    {
      edges := edges[p := e];
    }

    method SetQuality(q: QualitySummary)
      modifies this
      ensures State() == old(State()).(quality := Some(q))
    {
      quality := Some(q);
    }
  }
}
