/** Read-only consistency checks over an assembled utility graph: slope,
    pipe size across plan and profile sheets, rim elevation, connectivity
    and gravity flow direction, each emitting findings in a fixed order
    (src/graph/checks.py). */
module Checks {
  import opened Wrappers
  import opened Strings
  import opened Numeric
  import opened Ordering
  import opened Parsing
  import opened Schemas
  import opened Graph
  import opened Assembly
  import opened Passes

  /** The kinds of finding; `TypeName` gives each its name in the report. */
  datatype FindingType =
    | SlopeMismatch | SizeInconsistency | ElevationMismatch | ConnectivityUnverifiable
    | OrphanNode | OrphanNodeCheckSuppressed | UnanchoredPipe | DeadEndPipe | FlowDirectionError

  function TypeName(t: FindingType): string {
    match t
    case SlopeMismatch => "slope_mismatch"
    case SizeInconsistency => "size_inconsistency"
    case ElevationMismatch => "elevation_mismatch"
    case ConnectivityUnverifiable => "connectivity_unverifiable"
    case OrphanNode => "orphan_node"
    case OrphanNodeCheckSuppressed => "orphan_node_check_suppressed"
    case UnanchoredPipe => "unanchored_pipe"
    case DeadEndPipe => "dead_end_pipe"
    case FlowDirectionError => "flow_direction_error"
  }

  datatype Severity = Info | Warning | Error

  function SeverityName(s: Severity): string {
    match s
    case Info => "info"
    case Warning => "warning"
    case Error => "error"
  }

  /** One finding. `None` stands for an expected or actual value left unset. */
  datatype Finding = Finding(
    findingType: FindingType,
    severity: Severity,
    description: string,
    sourceSheets: seq<int>,
    sourceTextIds: seq<int>,
    nodeIds: seq<string>,
    edgeIds: seq<string>,
    expected: Option<string>,
    actual: Option<string>)

  const SlopeTolerance: real := 0.0002
  const RimTolerance: real := 0.10
  const DegradedRatio: real := 0.30

  /** `_edge_id`: the edge's id, or `"u->v"` when it has none. */
  function EdgeIdText(p: Pair, e: Edge): (r: string)
    ensures |e.edgeId| > 0 ==> r == e.edgeId
  {
    if |e.edgeId| > 0 then e.edgeId else p.0 + "->" + p.1
  }

  // ---------------------------------------------------------------------------
  // Directional inverts

  const East: set<string> := {"E", "NE", "SE"}
  const West: set<string> := {"W", "NW", "SW"}
  const North: set<string> := {"N", "NE", "NW"}
  const South: set<string> := {"S", "SE", "SW"}

  /** The compass directions facing the other node: east or west when the
      other station lies more than half a foot ahead or behind, otherwise
      north or south when the other node is farther from or nearer to the
      centerline, and no preference when neither decides. */
  function PreferredDirs(node: Node, other: Node): Option<set<string>> {
    var my, theirs := StationFt(node), StationFt(other);
    var byStation :=
      if my.Some? && theirs.Some? then
        (if theirs.value - my.value > 0.5 then Some(East)
         else if theirs.value - my.value < -0.5 then Some(West)
         else None)
      else None;
    if byStation.Some? then byStation
    else
      var myOff, theirOff := SignedOffsetFt(node), SignedOffsetFt(other);
      if myOff.Some? && theirOff.Some? then
        (if Abs(theirOff.value) > Abs(myOff.value) then Some(North)
         else if Abs(theirOff.value) < Abs(myOff.value) then Some(South)
         else None)
      else None
  }

  /** The two ends of a pipe look at each other: when one end prefers east
      (or north) the other prefers west (or south), and back. */
  lemma PreferredDirsOpposite(a: Node, b: Node)
    ensures PreferredDirs(a, b) == Some(East) <==> PreferredDirs(b, a) == Some(West)
    ensures PreferredDirs(a, b) == Some(North) <==> PreferredDirs(b, a) == Some(South)
    ensures PreferredDirs(a, b).None? <==> PreferredDirs(b, a).None?
  {
    assert East != West && East != North && East != South by { assert "E" in East && "E" !in West && "E" !in North && "E" !in South; }
    assert West != North && West != South by { assert "W" in West && "W" !in North && "W" !in South; }
    assert North != South by { assert "N" in North && "N" !in South; }
  }

  /** The invert faces one of `dirs` and, when a size is given, has it. */
  predicate Faces(inv: Invert, dirs: set<string>, size: Option<string>) {
    Upper(inv.direction) in dirs && (size.None? || NormalizeSize(inv.pipeSize) == size.value)
  }

  /** The elevation of the first invert that faces `dirs`. */
  function FirstFacing(inverts: seq<Invert>, dirs: set<string>, size: Option<string>): (r: Option<real>)
    ensures r.None? <==> forall k :: 0 <= k < |inverts| ==> !Faces(inverts[k], dirs, size)
    ensures r.Some? ==> exists k :: 0 <= k < |inverts| && Faces(inverts[k], dirs, size)
                                    && r.value == inverts[k].elevation
                                    && forall j :: 0 <= j < k ==> !Faces(inverts[j], dirs, size)
  {
    if |inverts| == 0 then None
    else if Faces(inverts[0], dirs, size) then Some(inverts[0].elevation)
    else
      var r := FirstFacing(inverts[1..], dirs, size);
      assert forall k :: 0 < k < |inverts| ==> inverts[k] == inverts[1..][k - 1];
      r
  }

  /** `_get_directional_invert`: the first invert facing the other node
      with the pipe's size, else the first facing it at all, else the
      representative invert. */
  function DirectionalInvert(node: Node, other: Node, pipeSize: string): Option<real> {
    var inverts := NodeInverts(node);
    var dirs := PreferredDirs(node, other);
    var norm := if |pipeSize| > 0 then NormalizeSize(pipeSize) else "";
    if |inverts| == 0 || dirs.None? then RepInvert(node)
    else
      var sized := if |norm| > 0 then FirstFacing(inverts, dirs.value, Some(norm)) else None;
      if sized.Some? then sized
      else
        var any := FirstFacing(inverts, dirs.value, None);
        if any.Some? then any else RepInvert(node)
  }

  /** The invert chosen for a pipe end: the representative invert when the
      node has no inverts or no preferred direction; otherwise the first
      invert facing the other node with the pipe's size when there is one,
      else the first invert facing the other node when there is one, else
      the representative invert. */
  lemma DirectionalInvertRule(node: Node, other: Node, pipeSize: string)
    ensures var r := DirectionalInvert(node, other, pipeSize);
      var inverts, dirs := NodeInverts(node), PreferredDirs(node, other);
      var norm := NormalizeSize(pipeSize);
      && (|inverts| == 0 || dirs.None? ==> r == RepInvert(node))
      && (dirs.Some? && |pipeSize| > 0 && |norm| > 0 && (exists k :: 0 <= k < |inverts| && Faces(inverts[k], dirs.value, Some(norm))) ==>
            exists k :: 0 <= k < |inverts| && Faces(inverts[k], dirs.value, Some(norm)) && r == Some(inverts[k].elevation)
                        && forall j :: 0 <= j < k ==> !Faces(inverts[j], dirs.value, Some(norm)))
      && (dirs.Some? && (exists k :: 0 <= k < |inverts| && Faces(inverts[k], dirs.value, None)) ==>
            exists k :: 0 <= k < |inverts| && Faces(inverts[k], dirs.value, None) && r == Some(inverts[k].elevation))
      && (dirs.Some? && (exists k :: 0 <= k < |inverts| && Faces(inverts[k], dirs.value, None))
          && (|pipeSize| == 0 || |norm| == 0 || forall k :: 0 <= k < |inverts| ==> !Faces(inverts[k], dirs.value, Some(norm))) ==>
            exists k :: 0 <= k < |inverts| && Faces(inverts[k], dirs.value, None) && r == Some(inverts[k].elevation)
                        && forall j :: 0 <= j < k ==> !Faces(inverts[j], dirs.value, None))
      && (dirs.Some? && (forall k :: 0 <= k < |inverts| ==> !Faces(inverts[k], dirs.value, None)) ==> r == RepInvert(node))
  {
    var inverts, dirs := NodeInverts(node), PreferredDirs(node, other);
    if |inverts| > 0 && dirs.Some? {
      var norm := if |pipeSize| > 0 then NormalizeSize(pipeSize) else "";
      var sized := if |norm| > 0 then FirstFacing(inverts, dirs.value, Some(norm)) else None;
      if sized.Some? {
        var k :| 0 <= k < |inverts| && Faces(inverts[k], dirs.value, Some(norm)) && sized.value == inverts[k].elevation;
        assert Faces(inverts[k], dirs.value, None);
      }
    }
  }

  // ---------------------------------------------------------------------------
  // Per-edge checks

  /** The three checks that visit every edge. */
  datatype EdgeCheck = SlopeCheck | FlowCheck | UnresolvedCheck

  /** The invert at the source end, looking at the target, and back. */
  function Upstream(g: GraphState, p: Pair): Option<real>
    requires p.0 in g.nodes && p.1 in g.nodes && p in g.edges
  {
    DirectionalInvert(g.nodes[p.0], g.nodes[p.1], g.edges[p].size)
  }

  function Downstream(g: GraphState, p: Pair): Option<real>
    requires p.0 in g.nodes && p.1 in g.nodes && p in g.edges
  {
    DirectionalInvert(g.nodes[p.1], g.nodes[p.0], g.edges[p].size)
  }

  /** The slope drawn from the two end inverts over the pipe's length. */
  function CalculatedSlope(up: real, down: real, length: real): real
    requires length > 0.0
  {
    Abs(up - down) / length
  }

  /** Some station or structure hint is given at either end. */
  predicate HasAnchorData(e: Edge) {
    Given(e.fromStation) || Given(e.toStation) || Given(e.fromHint) || Given(e.toHint)
  }

  /** The edge's ends are not both resolved to structures. */
  predicate UnresolvedEnds(g: GraphState, p: Pair)
    requires p.0 in g.nodes && p.1 in g.nodes && p in g.edges
  {
    g.edges[p].matched == CNone || g.nodes[p.0].OrphanAnchor? || g.nodes[p.1].OrphanAnchor?
  }

  /** When each check reports an edge. Slope: a positive length, a slope
      and both end inverts, and a calculated slope off the labelled one by
      more than the tolerance. Flow: two structure ends with inverts, the
      downstream one more than the invert tolerance above the upstream one.
      Unresolved: an unmatched end or an orphan anchor. */
  predicate Flags(kind: EdgeCheck, g: GraphState, p: Pair)
    requires p.0 in g.nodes && p.1 in g.nodes && p in g.edges
  {
    var e := g.edges[p];
    var up, down := Upstream(g, p), Downstream(g, p);
    match kind
    case SlopeCheck =>
      && e.length.Some? && e.length.value > 0.0 && e.slope.Some? && up.Some? && down.Some?
      && Abs(CalculatedSlope(up.value, down.value, e.length.value) - e.slope.value) > SlopeTolerance
    case FlowCheck =>
      && !g.nodes[p.0].OrphanAnchor? && !g.nodes[p.1].OrphanAnchor?
      && up.Some? && down.Some? && down.value > up.value + InvertTolerance
    case UnresolvedCheck =>
      UnresolvedEnds(g, p)
  }

  /** The finding type an edge check emits for an edge. */
  function EdgeFindingType(kind: EdgeCheck, e: Edge): FindingType {
    match kind
    case SlopeCheck => SlopeMismatch
    case FlowCheck => FlowDirectionError
    case UnresolvedCheck => if HasAnchorData(e) then DeadEndPipe else UnanchoredPipe
  }

  /** The severity each finding type carries. */
  function SeverityOf(t: FindingType): Severity {
    match t
    case FlowDirectionError => Error
    case UnanchoredPipe | ConnectivityUnverifiable | OrphanNodeCheckSuppressed => Info
    case _ => Warning
  }

  /** The finding an edge check emits for an edge it flags. */
  function EdgeReport(kind: EdgeCheck, g: GraphState, p: Pair): (f: Finding)
    requires p.0 in g.nodes && p.1 in g.nodes && p in g.edges && Flags(kind, g, p)
    ensures f.nodeIds == [p.0, p.1] && f.edgeIds == [EdgeIdText(p, g.edges[p])]
    ensures f.findingType == EdgeFindingType(kind, g.edges[p]) && f.severity == SeverityOf(f.findingType)
  {
    var e := g.edges[p];
    var u, v := g.nodes[p.0], g.nodes[p.1];
    var id := EdgeIdText(p, e);
    if kind == SlopeCheck then
      var calculated := CalculatedSlope(Upstream(g, p).value, Downstream(g, p).value, e.length.value);
      Finding(SlopeMismatch, Warning,
              "Slope mismatch on edge " + id + ": labeled " + FormatFixed(e.slope.value, 4, false)
              + ", calculated " + FormatFixed(calculated, 4, false) + ".",
              UniqueInts(e.pages + NodePages(u) + NodePages(v)),
              UniqueInts(e.textIds + NodeTextIds(u) + NodeTextIds(v)),
              [p.0, p.1], [id],
              Some(FormatFixed(e.slope.value, 4, false)), Some(FormatFixed(calculated, 4, false)))
    else if kind == FlowCheck then
      var up, down := Upstream(g, p).value, Downstream(g, p).value;
      Finding(FlowDirectionError, Error,
              "Backfall on edge " + id + ": upstream=" + FormatFixed(up, 2, false)
              + ", downstream=" + FormatFixed(down, 2, false) + ".",
              UniqueInts(e.pages),
              UniqueInts(e.textIds + NodeTextIds(u) + NodeTextIds(v)),
              [p.0, p.1], [id],
              Some("downstream <= " + FormatFixed(up, 2, false)), Some(FormatFixed(down, 2, false)))
    else if HasAnchorData(e) then
      Finding(DeadEndPipe, Warning, "Pipe " + id + " has unresolved endpoint matching.",
              UniqueInts(e.pages), UniqueInts(e.textIds), [p.0, p.1], [id], None, None)
    else
      Finding(UnanchoredPipe, Info,
              "Pipe " + id + " has no station/hint endpoint metadata; connection could not be verified.",
              UniqueInts(e.pages), UniqueInts(e.textIds), [p.0, p.1], [id], None, None)
  }

  /** What one edge check emits for one edge. */
  function EdgeFinding(kind: EdgeCheck, g: GraphState, p: Pair): (r: Option<Finding>)
    requires p.0 in g.nodes && p.1 in g.nodes && p in g.edges
    ensures r.Some? <==> Flags(kind, g, p)
    ensures r.Some? ==> r.value == EdgeReport(kind, g, p)
  {
    if Flags(kind, g, p) then Some(EdgeReport(kind, g, p)) else None
  }

  /** The values present among `os`, in order: a check appending a
      finding whenever its test emits one. */
  function Somes<T>(os: seq<Option<T>>): seq<T> {
    if |os| == 0 then []
    else Somes(os[..|os| - 1]) + (if os[|os| - 1].Some? then [os[|os| - 1].value] else [])
  }

  lemma {:induction false} SomesMembers<T>(os: seq<Option<T>>)
    ensures forall x :: x in Somes(os) <==> exists k :: 0 <= k < |os| && os[k] == Some(x)
  {
    if |os| > 0 {
      var init := os[..|os| - 1];
      SomesMembers(init);
      assert forall k :: 0 <= k < |init| ==> init[k] == os[k];
    }
  }

  /** A present value is kept. */
  lemma SomesHas<T>(os: seq<Option<T>>, k: nat)
    requires k < |os| && os[k].Some?
    ensures os[k].value in Somes(os)
  {
    SomesMembers(os);
  }

  /** Each kept value comes from some present option. */
  lemma SomesFrom<T>(os: seq<Option<T>>, x: T) returns (k: nat)
    requires x in Somes(os)
    ensures k < |os| && os[k] == Some(x)
  {
    SomesMembers(os);
    k :| 0 <= k < |os| && os[k] == Some(x);
  }

  /** One more option, appended or not. */
  lemma SomesStep<T>(os: seq<Option<T>>, i: nat)
    requires i < |os|
    ensures Somes(os[..i + 1]) == Somes(os[..i]) + (if os[i].Some? then [os[i].value] else [])
  {
    assert os[..i + 1][..i] == os[..i] && os[..i + 1][i] == os[i];
  }

  /** The edges `es` all belong to the graph and join two of its nodes. */
  predicate EdgesIn(g: GraphState, es: seq<Pair>) {
    forall k :: 0 <= k < |es| ==> es[k] in g.edges && es[k].0 in g.nodes && es[k].1 in g.nodes
  }

  /** Every edge of the graph joins two of its nodes. */
  predicate EdgesJoinNodes(g: GraphState) {
    forall p :: p in g.edges ==> p.0 in g.nodes && p.1 in g.nodes
  }

  /** What one edge check emits for each of the edges `es`. */
  function EdgeOptions(kind: EdgeCheck, g: GraphState, es: seq<Pair>): (os: seq<Option<Finding>>)
    requires EdgesIn(g, es)
    ensures |os| == |es| && forall k :: 0 <= k < |es| ==> os[k] == EdgeFinding(kind, g, es[k])
  {
    seq(|es|, k requires 0 <= k < |es| => EdgeFinding(kind, g, es[k]))
  }

  /** The graph's edges in iteration order, all of them well placed. */
  lemma EdgeListIn(g: GraphState)
    requires Valid(g)
    ensures EdgesIn(g, EdgeList(g))
    ensures forall p :: p in EdgeList(g) <==> p in g.edges
  {
    EdgeListMembers(g);
    forall k | 0 <= k < |EdgeList(g)|
      ensures EdgeList(g)[k] in g.edges && EdgeList(g)[k].0 in g.nodes && EdgeList(g)[k].1 in g.nodes
    {
      assert EdgeList(g)[k] in EdgeList(g);
    }
  }

  /** One edge check over the whole graph, edge by edge in iteration order. */
  function EdgeCheckAll(kind: EdgeCheck, g: GraphState): seq<Finding>
    requires Valid(g)
  {
    EdgeListIn(g);
    Somes(EdgeOptions(kind, g, EdgeList(g)))
  }

  /** An edge check reports an edge exactly when it flags it, with the
      finding type its kind gives; every finding names one edge. */
  lemma EdgeCheckRule(kind: EdgeCheck, g: GraphState)
    requires Valid(g)
    ensures forall f :: f in EdgeCheckAll(kind, g) ==>
      exists p :: p in g.edges && Flags(kind, g, p) && f.nodeIds == [p.0, p.1]
                  && f.edgeIds == [EdgeIdText(p, g.edges[p])]
                  && f.findingType == EdgeFindingType(kind, g.edges[p]) && f.severity == SeverityOf(f.findingType)
    ensures forall p :: p in g.edges ==>
      (Flags(kind, g, p) <==> exists f :: f in EdgeCheckAll(kind, g) && f.nodeIds == [p.0, p.1])
  {
    EdgeListIn(g);
    EdgeFindingsSound(kind, g, EdgeList(g));
    EdgeFindingsComplete(kind, g, EdgeList(g));
    EdgeFindingsOnly(kind, g, EdgeList(g));
  }

  /** Each finding over `es` reports one flagged edge among them. */
  lemma EdgeFindingsSound(kind: EdgeCheck, g: GraphState, es: seq<Pair>)
    requires EdgesIn(g, es) && EdgesJoinNodes(g)
    ensures forall f: Finding :: f in Somes(EdgeOptions(kind, g, es)) ==>
      exists p :: p in g.edges && Flags(kind, g, p) && f.nodeIds == [p.0, p.1]
                  && f.edgeIds == [EdgeIdText(p, g.edges[p])]
                  && f.findingType == EdgeFindingType(kind, g.edges[p]) && f.severity == SeverityOf(f.findingType)
  {
    var os := EdgeOptions(kind, g, es);
    forall f: Finding | f in Somes(os)
      ensures exists p :: p in g.edges && Flags(kind, g, p) && f.nodeIds == [p.0, p.1]
                          && f.edgeIds == [EdgeIdText(p, g.edges[p])]
                          && f.findingType == EdgeFindingType(kind, g.edges[p]) && f.severity == SeverityOf(f.findingType)
    {
      var k := SomesFrom(os, f);
      assert es[k] in g.edges;
    }
  }

  /** Each flagged edge among `es` is reported. */
  lemma EdgeFindingsComplete(kind: EdgeCheck, g: GraphState, es: seq<Pair>)
    requires EdgesIn(g, es)
    ensures forall p: Pair :: p in es && Flags(kind, g, p) ==>
      exists f :: f in Somes(EdgeOptions(kind, g, es)) && f.nodeIds == [p.0, p.1]
  {
    var os := EdgeOptions(kind, g, es);
    forall p: Pair | p in es && Flags(kind, g, p)
      ensures exists f: Finding :: f in Somes(os) && f.nodeIds == [p.0, p.1]
    {
      var k :| 0 <= k < |es| && es[k] == p;
      SomesHas(os, k);
    }
  }

  /** A finding naming the ends of an edge means that edge was flagged. */
  lemma EdgeFindingsOnly(kind: EdgeCheck, g: GraphState, es: seq<Pair>)
    requires EdgesIn(g, es) && EdgesJoinNodes(g)
    ensures forall p: Pair, f: Finding :: p in g.edges && f in Somes(EdgeOptions(kind, g, es)) && f.nodeIds == [p.0, p.1] ==>
      Flags(kind, g, p)
  {
    var os := EdgeOptions(kind, g, es);
    forall p: Pair, f: Finding | p in g.edges && f in Somes(os) && f.nodeIds == [p.0, p.1]
      ensures Flags(kind, g, p)
    {
      var k := SomesFrom(os, f);
      var q := es[k];
      assert f.nodeIds == [q.0, q.1];
      assert q.0 == f.nodeIds[0] == p.0 && q.1 == f.nodeIds[1] == p.1;
      assert q == p;
    }
  }

  /** The loop of an edge check, appending to its findings. */
  method CollectEdgeFindings(kind: EdgeCheck, g: GraphState, es: seq<Pair>) returns (findings: seq<Finding>)
    requires EdgesIn(g, es)
    ensures findings == Somes(EdgeOptions(kind, g, es))
  {
    ghost var os := EdgeOptions(kind, g, es);
    findings := [];
    var i := 0;
    while i < |es|
      invariant 0 <= i <= |es|
      invariant findings == Somes(os[..i])
    {
      SomesStep(os, i);
      var o := EdgeFinding(kind, g, es[i]);
      if o.Some? {
        findings := findings + [o.value];
      }
      i := i + 1;
    }
    assert os[..i] == os;
  }

  /** `check_slope_consistency` */
  method CheckSlopeConsistency(g: GraphState) returns (findings: seq<Finding>)
    requires Valid(g)
    ensures findings == EdgeCheckAll(SlopeCheck, g)
  {
    EdgeListIn(g);
    findings := CollectEdgeFindings(SlopeCheck, g, EdgeList(g));
  }

  /** `check_flow_direction`: only gravity utilities are checked. */
  function FlowDirection(g: GraphState): (r: seq<Finding>)
    requires Valid(g)
  {
    if !Gravity(g.utility) then [] else EdgeCheckAll(FlowCheck, g)
  }

  method CheckFlowDirection(g: GraphState) returns (findings: seq<Finding>)
    requires Valid(g)
    ensures findings == FlowDirection(g)
  {
    if !Gravity(g.utility) {
      return [];
    }
    EdgeListIn(g);
    findings := CollectEdgeFindings(FlowCheck, g, EdgeList(g));
  }

  /** A gravity graph gets a flow error on an edge exactly when its
      downstream invert lies more than the tolerance above its upstream
      invert, between two structures; other utilities get none. */
  lemma FlowDirectionRule(g: GraphState)
    requires Valid(g)
    ensures !Gravity(g.utility) ==> FlowDirection(g) == []
    ensures forall f :: f in FlowDirection(g) ==> f.findingType == FlowDirectionError && f.severity == Error
    ensures Gravity(g.utility) ==> forall p :: p in g.edges ==>
      ((exists f :: f in FlowDirection(g) && f.nodeIds == [p.0, p.1]) <==>
         && g.nodes[p.0].StructureNode? && g.nodes[p.1].StructureNode?
         && Upstream(g, p).Some? && Downstream(g, p).Some?
         && Downstream(g, p).value > Upstream(g, p).value + InvertTolerance)
  {
    if Gravity(g.utility) {
      EdgeListIn(g);
      EdgeFindingsSound(FlowCheck, g, EdgeList(g));
      FlowExact(g);
    }
  }

  lemma FlowExact(g: GraphState)
    requires Valid(g) && Gravity(g.utility)
    ensures forall p :: p in g.edges ==>
      ((exists f :: f in FlowDirection(g) && f.nodeIds == [p.0, p.1]) <==>
         && g.nodes[p.0].StructureNode? && g.nodes[p.1].StructureNode?
         && Upstream(g, p).Some? && Downstream(g, p).Some?
         && Downstream(g, p).value > Upstream(g, p).value + InvertTolerance)
  {
    EdgeListIn(g);
    var es := EdgeList(g);
    EdgeFindingsComplete(FlowCheck, g, es);
    EdgeFindingsOnly(FlowCheck, g, es);
    forall p | p in g.edges
      ensures (exists f :: f in FlowDirection(g) && f.nodeIds == [p.0, p.1]) <==> Flags(FlowCheck, g, p)
    {
      assert p in es;
    }
  }

  /** After gravity orientation, an edge whose ends both use their
      representative inverts never shows backfall: the orientation pass and
      the flow check agree on the same tolerance. */
  lemma OrientedNoBackfall(g: GraphState, p: Pair)
    requires Valid(g) && Gravity(g.utility)
    requires var h := Oriented(g);
      && p in h.edges && p.0 in h.nodes && p.1 in h.nodes
      && Upstream(h, p) == RepInvert(h.nodes[p.0]) && Downstream(h, p) == RepInvert(h.nodes[p.1])
    ensures !Flags(FlowCheck, Oriented(g), p)
  {
    OrientedRule(g);
  }

  // ---------------------------------------------------------------------------
  // Per-node checks

  /** The two checks that visit the structure nodes. */
  datatype NodeCheck = ElevationCheck | OrphanCheck

  /** When each node check reports a node. Elevation: a structure with more
      than one rim value, spread by more than the tolerance. Orphan: a
      structure no edge touches. */
  predicate NodeFlags(kind: NodeCheck, g: GraphState, id: string)
    requires id in g.nodes
  {
    var n := g.nodes[id];
    match kind
    case ElevationCheck =>
      n.StructureNode? && |NodeRims(n)| > 1 && MaxOf(NodeRims(n)) - MinOf(NodeRims(n)) > RimTolerance
    case OrphanCheck =>
      n.StructureNode? && !Touched(g, id)
  }

  function NodeReport(kind: NodeCheck, g: GraphState, id: string): (f: Finding)
    requires id in g.nodes && NodeFlags(kind, g, id)
    ensures f.nodeIds == [id] && f.edgeIds == []
    ensures f.findingType == (if kind == ElevationCheck then ElevationMismatch else OrphanNode)
    ensures f.severity == SeverityOf(f.findingType)
  {
    var n := g.nodes[id];
    var sheets, texts := UniqueInts(NodePages(n)), UniqueInts(NodeTextIds(n));
    if kind == ElevationCheck then
      var lo, hi := FormatFixed(MinOf(NodeRims(n)), 2, false), FormatFixed(MaxOf(NodeRims(n)), 2, false);
      Finding(ElevationMismatch, Warning,
              "Rim elevation mismatch at node " + id + ": min=" + lo + ", max=" + hi + ".",
              sheets, texts, [id], [], Some(lo + "-" + hi), None)
    else
      Finding(OrphanNode, Warning, "Structure node " + id + " is not connected to any pipe.",
              sheets, texts, [id], [], None, None)
  }

  function NodeFinding(kind: NodeCheck, g: GraphState, id: string): (r: Option<Finding>)
    requires id in g.nodes
    ensures r.Some? <==> NodeFlags(kind, g, id)
    ensures r.Some? ==> r.value == NodeReport(kind, g, id)
  {
    if NodeFlags(kind, g, id) then Some(NodeReport(kind, g, id)) else None
  }

  predicate NodesIn(g: GraphState, ids: seq<string>) {
    forall k :: 0 <= k < |ids| ==> ids[k] in g.nodes
  }

  /** What one node check emits for each of the nodes `ids`. */
  function NodeOptions(kind: NodeCheck, g: GraphState, ids: seq<string>): (os: seq<Option<Finding>>)
    requires NodesIn(g, ids)
    ensures |os| == |ids| && forall k :: 0 <= k < |ids| ==> os[k] == NodeFinding(kind, g, ids[k])
  {
    seq(|ids|, k requires 0 <= k < |ids| => NodeFinding(kind, g, ids[k]))
  }

  /** One node check over the nodes `ids`, in order. */
  function NodeFindings(kind: NodeCheck, g: GraphState, ids: seq<string>): seq<Finding>
    requires NodesIn(g, ids)
  {
    Somes(NodeOptions(kind, g, ids))
  }

  /** A node check over `ids` reports exactly the flagged nodes among them. */
  lemma NodeChecksRule(kind: NodeCheck, g: GraphState, ids: seq<string>)
    requires NodesIn(g, ids)
    ensures forall f :: f in NodeFindings(kind, g, ids) ==>
      exists id :: id in ids && NodeFlags(kind, g, id) && f == NodeReport(kind, g, id)
    ensures forall id :: id in ids ==>
      (NodeFlags(kind, g, id) <==> exists f :: f in NodeFindings(kind, g, ids) && f.nodeIds == [id])
  {
    var os := NodeOptions(kind, g, ids);
    forall f | f in NodeFindings(kind, g, ids)
      ensures exists id :: id in ids && NodeFlags(kind, g, id) && f == NodeReport(kind, g, id)
    {
      var k := SomesFrom(os, f);
      assert ids[k] in ids;
    }
    forall id | id in ids && NodeFlags(kind, g, id)
      ensures exists f :: f in NodeFindings(kind, g, ids) && f.nodeIds == [id]
    {
      var k :| 0 <= k < |ids| && ids[k] == id;
      SomesHas(os, k);
      assert os[k].value.nodeIds == [id];
    }
    forall id, f | id in ids && f in NodeFindings(kind, g, ids) && f.nodeIds == [id]
      ensures NodeFlags(kind, g, id)
    {
      var k := SomesFrom(os, f);
      assert f.nodeIds == [ids[k]];
      assert ids[k] == f.nodeIds[0] == id;
    }
  }

  method CollectNodeFindings(kind: NodeCheck, g: GraphState, ids: seq<string>) returns (findings: seq<Finding>)
    requires NodesIn(g, ids)
    ensures findings == NodeFindings(kind, g, ids)
  {
    ghost var os := NodeOptions(kind, g, ids);
    findings := [];
    var i := 0;
    while i < |ids|
      invariant 0 <= i <= |ids|
      invariant findings == Somes(os[..i])
    {
      SomesStep(os, i);
      var o := NodeFinding(kind, g, ids[i]);
      if o.Some? {
        findings := findings + [o.value];
      }
      i := i + 1;
    }
    assert os[..i] == os;
  }

  lemma NodeOrderIn(g: GraphState)
    requires Valid(g)
    ensures NodesIn(g, g.nodeOrder)
  {
    forall k | 0 <= k < |g.nodeOrder|
      ensures g.nodeOrder[k] in g.nodes
    {
      assert g.nodeOrder[k] in g.nodeOrder;
    }
  }

  /** `check_elevation_consistency` over the nodes in order. */
  function ElevationConsistency(g: GraphState): seq<Finding>
    requires Valid(g)
  {
    NodeOrderIn(g);
    NodeFindings(ElevationCheck, g, g.nodeOrder)
  }

  method CheckElevationConsistency(g: GraphState) returns (findings: seq<Finding>)
    requires Valid(g)
    ensures findings == ElevationConsistency(g)
  {
    NodeOrderIn(g);
    findings := CollectNodeFindings(ElevationCheck, g, g.nodeOrder);
  }

  /** A structure is reported exactly when it has more than one rim value
      and they spread by more than a tenth of a foot. */
  lemma ElevationRule(g: GraphState)
    requires Valid(g)
    ensures forall f :: f in ElevationConsistency(g) ==> f.findingType == ElevationMismatch && f.severity == Warning
    ensures forall id :: id in g.nodes ==>
      ((exists f :: f in ElevationConsistency(g) && f.nodeIds == [id]) <==>
         && g.nodes[id].StructureNode? && |NodeRims(g.nodes[id])| > 1
         && MaxOf(NodeRims(g.nodes[id])) - MinOf(NodeRims(g.nodes[id])) > RimTolerance)
  {
    NodeOrderIn(g);
    NodeChecksRule(ElevationCheck, g, g.nodeOrder);
  }

  // ---------------------------------------------------------------------------
  // Connectivity

  /** The structure nodes among `ids`, in order. */
  function StructureIds(ids: seq<string>, nodes: map<string, Node>): (r: seq<string>)
    ensures forall k :: 0 <= k < |r| ==> r[k] in ids && r[k] in nodes && nodes[r[k]].StructureNode?
    ensures forall id :: id in ids && id in nodes && nodes[id].StructureNode? ==> id in r
  {
    if |ids| == 0 then []
    else
      var id := ids[|ids| - 1];
      var init := ids[..|ids| - 1];
      assert forall x :: x in ids ==> x in init || x == id by { assert ids == init + [id]; }
      StructureIds(init, nodes) + (if id in nodes && nodes[id].StructureNode? then [id] else [])
  }

  /** More than 30% of the tiles were sanitized or skipped. */
  predicate Degraded(quality: Option<QualitySummary>) {
    quality.Some? && quality.value.totalTiles > 0
    && (quality.value.sanitizedTiles + quality.value.skippedTiles) as real / quality.value.totalTiles as real > DegradedRatio
  }

  const Unverifiable := Finding(
    ConnectivityUnverifiable, Info,
    "Connectivity checks are limited: graph has pipe edges but no resolved structure nodes.",
    [], [], [], [], None, None)

  function Suppressed(count: nat): (f: Finding)
    ensures f.findingType == OrphanNodeCheckSuppressed && f.severity == Info && f.nodeIds == []
  {
    Finding(OrphanNodeCheckSuppressed, Info,
            "Suppressed " + NatToString(count) + " orphan-node warnings due to low extraction quality.",
            [], [], [], [], None, None)
  }

  /** The orphan-node part: one warning per isolated structure, or, on a
      degraded graph, a single note carrying their number when there is
      any. */
  function OrphanPart(g: GraphState, structs: seq<string>): seq<Finding>
    requires NodesIn(g, structs)
  {
    var orphans := NodeFindings(OrphanCheck, g, structs);
    if !Degraded(g.quality) then orphans
    else if |orphans| > 0 then [Suppressed(|orphans|)]
    else []
  }

  /** `check_connectivity` */
  function Connectivity(g: GraphState): seq<Finding>
    requires Valid(g)
  {
    var structs := StructureIds(g.nodeOrder, g.nodes);
    if |structs| == 0 && |g.edges| > 0 then [Unverifiable]
    else OrphanPart(g, structs) + EdgeCheckAll(UnresolvedCheck, g)
  }

  /** The loop collecting the structure nodes in node order. */
  method CollectStructures(ids: seq<string>, nodes: map<string, Node>) returns (structs: seq<string>)
    ensures structs == StructureIds(ids, nodes)
  {
    structs := [];
    var i := 0;
    while i < |ids|
      invariant 0 <= i <= |ids|
      invariant structs == StructureIds(ids[..i], nodes)
    {
      var id := ids[i];
      assert ids[..i + 1][..i] == ids[..i] && ids[..i + 1][i] == id;
      if id in nodes && nodes[id].StructureNode? {
        structs := structs + [id];
      }
      i := i + 1;
    }
    assert ids[..i] == ids;
  }

  /** The orphan loop: warnings, or a count that becomes one note. */
  method CollectOrphans(g: GraphState, structs: seq<string>) returns (findings: seq<Finding>)
    requires NodesIn(g, structs)
    ensures findings == OrphanPart(g, structs)
  {
    ghost var os := NodeOptions(OrphanCheck, g, structs);
    var degraded := Degraded(g.quality);
    findings := [];
    var suppressed := 0;
    var j := 0;
    while j < |structs|
      invariant 0 <= j <= |structs|
      invariant findings == (if degraded then [] else Somes(os[..j]))
      invariant suppressed == (if degraded then |Somes(os[..j])| else 0)
    {
      SomesStep(os, j);
      var id := structs[j];
      if NodeFlags(OrphanCheck, g, id) {
        if degraded {
          suppressed := suppressed + 1;
        } else {
          findings := findings + [NodeReport(OrphanCheck, g, id)];
        }
      }
      j := j + 1;
    }
    assert os[..j] == os;
    if suppressed > 0 {
      findings := findings + [Suppressed(suppressed)];
    }
  }

  method CheckConnectivity(g: GraphState) returns (findings: seq<Finding>)
    requires Valid(g)
    ensures findings == Connectivity(g)
  {
    var structs := CollectStructures(g.nodeOrder, g.nodes);
    if |structs| == 0 && |g.edges| > 0 {
      return [Unverifiable];
    }
    findings := CollectOrphans(g, structs);
    EdgeListIn(g);
    var unresolved := CollectEdgeFindings(UnresolvedCheck, g, EdgeList(g));
    findings := findings + unresolved;
  }

  /** Connectivity: a graph with edges but no structure gets exactly one
      `connectivity_unverifiable` note. Otherwise an isolated structure
      gets an `orphan_node` warning unless the graph is degraded, where
      the warnings give way to one suppression note exactly when some
      structure is isolated; and every edge with an unmatched end or an
      orphan anchor gets exactly one pipe finding, `unanchored_pipe` when
      it carries no station or hint and `dead_end_pipe` otherwise. */
  lemma ConnectivityRule(g: GraphState)
    requires Valid(g)
    ensures var fs := Connectivity(g);
      var hasStructure := exists id :: id in g.nodes && g.nodes[id].StructureNode?;
      && (!hasStructure && |g.edges| > 0 ==> fs == [Unverifiable])
      && (hasStructure || |g.edges| == 0 ==>
            && (forall id :: id in g.nodes ==>
                  ((exists f :: f in fs && f.findingType == OrphanNode && f.nodeIds == [id]) <==>
                     !Degraded(g.quality) && g.nodes[id].StructureNode? && !Touched(g, id)))
            && (Degraded(g.quality) ==>
                  ((exists f :: f in fs && f.findingType == OrphanNodeCheckSuppressed) <==>
                     exists id :: id in g.nodes && g.nodes[id].StructureNode? && !Touched(g, id)))
            && (forall p :: p in g.edges ==>
                  ((exists f :: f in fs && f.nodeIds == [p.0, p.1]) <==> UnresolvedEnds(g, p))))
  {
    var structs := StructureIds(g.nodeOrder, g.nodes);
    StructureIdsOf(g);
    var hasStructure := exists id :: id in g.nodes && g.nodes[id].StructureNode?;
    if hasStructure {
      var id :| id in g.nodes && g.nodes[id].StructureNode?;
      assert id in structs;
    }
    if hasStructure || |g.edges| == 0 {
      ConnectivityParts(g, structs);
    }
  }

  /** `structs` lists graph nodes, and every structure of the graph. */
  predicate StructsOf(g: GraphState, structs: seq<string>) {
    NodesIn(g, structs) && forall id :: id in g.nodes && g.nodes[id].StructureNode? ==> id in structs
  }

  lemma StructureIdsOf(g: GraphState)
    requires Valid(g)
    ensures StructsOf(g, StructureIds(g.nodeOrder, g.nodes))
  {
    var structs := StructureIds(g.nodeOrder, g.nodes);
    forall id | id in g.nodes && g.nodes[id].StructureNode? ensures id in structs {
      assert id in g.nodeOrder;
    }
  }

  /** The orphan part alone: which structures it warns about, when it
      carries the suppression note, and that it names at most one node. */
  lemma OrphanPartRule(g: GraphState, structs: seq<string>)
    requires StructsOf(g, structs)
    ensures var part := OrphanPart(g, structs);
      && (forall f :: f in part ==>
            |f.nodeIds| <= 1 && f.severity == SeverityOf(f.findingType)
            && (f.findingType == OrphanNode || f.findingType == OrphanNodeCheckSuppressed))
      && (forall id :: id in g.nodes ==>
            ((exists f :: f in part && f.findingType == OrphanNode && f.nodeIds == [id]) <==>
               !Degraded(g.quality) && g.nodes[id].StructureNode? && !Touched(g, id)))
      && (Degraded(g.quality) ==>
            ((exists f :: f in part && f.findingType == OrphanNodeCheckSuppressed) <==>
               exists id :: id in g.nodes && g.nodes[id].StructureNode? && !Touched(g, id)))
  {
    NodeChecksRule(OrphanCheck, g, structs);
    OrphanWarnings(g, structs);
    if Degraded(g.quality) {
      OrphanSuppression(g, structs);
    }
  }

  lemma OrphanWarnings(g: GraphState, structs: seq<string>)
    requires StructsOf(g, structs)
    ensures forall id :: id in g.nodes ==>
      ((exists f :: f in OrphanPart(g, structs) && f.findingType == OrphanNode && f.nodeIds == [id]) <==>
         !Degraded(g.quality) && g.nodes[id].StructureNode? && !Touched(g, id))
  {
    var orphans := NodeFindings(OrphanCheck, g, structs);
    var part := OrphanPart(g, structs);
    NodeChecksRule(OrphanCheck, g, structs);
    forall id | id in g.nodes
      ensures (exists f :: f in part && f.findingType == OrphanNode && f.nodeIds == [id]) <==>
              !Degraded(g.quality) && g.nodes[id].StructureNode? && !Touched(g, id)
    {
      if !Degraded(g.quality) && g.nodes[id].StructureNode? && !Touched(g, id) {
        var f :| f in orphans && f.nodeIds == [id];
        assert f in part;
      }
    }
  }

  lemma OrphanSuppression(g: GraphState, structs: seq<string>)
    requires StructsOf(g, structs) && Degraded(g.quality)
    ensures (exists f :: f in OrphanPart(g, structs) && f.findingType == OrphanNodeCheckSuppressed) <==>
      exists id :: id in g.nodes && g.nodes[id].StructureNode? && !Touched(g, id)
  {
    var orphans := NodeFindings(OrphanCheck, g, structs);
    NodeChecksRule(OrphanCheck, g, structs);
    if exists id :: id in g.nodes && g.nodes[id].StructureNode? && !Touched(g, id) {
      var id :| id in g.nodes && g.nodes[id].StructureNode? && !Touched(g, id);
      assert |orphans| > 0;
      assert Suppressed(|orphans|) in OrphanPart(g, structs);
    } else {
      OrphansFlagged(g, structs);
    }
  }

  /** Some orphan warning means some structure is isolated. */
  lemma OrphansFlagged(g: GraphState, structs: seq<string>)
    requires NodesIn(g, structs)
    ensures |NodeFindings(OrphanCheck, g, structs)| > 0 ==>
      exists id :: id in g.nodes && g.nodes[id].StructureNode? && !Touched(g, id)
  {
    var orphans := NodeFindings(OrphanCheck, g, structs);
    if |orphans| > 0 {
      assert orphans[0] in orphans;
      NodeChecksRule(OrphanCheck, g, structs);
    }
  }

  /** The unresolved-end part alone: one two-node pipe finding per edge
      with an unresolved end. */
  lemma UnresolvedRule(g: GraphState)
    requires Valid(g)
    ensures var fs := EdgeCheckAll(UnresolvedCheck, g);
      && (forall f :: f in fs ==>
            |f.nodeIds| == 2 && f.severity == SeverityOf(f.findingType)
            && (f.findingType == DeadEndPipe || f.findingType == UnanchoredPipe))
      && (forall p :: p in g.edges ==>
            ((exists f :: f in fs && f.nodeIds == [p.0, p.1]) <==> UnresolvedEnds(g, p)))
  {
    EdgeCheckRule(UnresolvedCheck, g);
  }

  lemma ConnectivityParts(g: GraphState, structs: seq<string>)
    requires Valid(g) && StructsOf(g, structs)
    ensures var fs := OrphanPart(g, structs) + EdgeCheckAll(UnresolvedCheck, g);
      && (forall id :: id in g.nodes ==>
            ((exists f :: f in fs && f.findingType == OrphanNode && f.nodeIds == [id]) <==>
               !Degraded(g.quality) && g.nodes[id].StructureNode? && !Touched(g, id)))
      && (Degraded(g.quality) ==>
            ((exists f :: f in fs && f.findingType == OrphanNodeCheckSuppressed) <==>
               exists id :: id in g.nodes && g.nodes[id].StructureNode? && !Touched(g, id)))
      && (forall p :: p in g.edges ==>
            ((exists f :: f in fs && f.nodeIds == [p.0, p.1]) <==> UnresolvedEnds(g, p)))
  {
    OrphanPartRule(g, structs);
    UnresolvedRule(g);
    var part := OrphanPart(g, structs);
    var edgeFs := EdgeCheckAll(UnresolvedCheck, g);
    var fs: seq<Finding> := part + edgeFs;
    forall id | id in g.nodes
      ensures (exists f: Finding :: f in fs && f.findingType == OrphanNode && f.nodeIds == [id]) <==>
              (exists f :: f in part && f.findingType == OrphanNode && f.nodeIds == [id])
    {
    }
    forall p | p in g.edges
      ensures (exists f :: f in fs && f.nodeIds == [p.0, p.1]) <==>
              (exists f :: f in edgeFs && f.nodeIds == [p.0, p.1])
    {
    }
  }

  /** Every connectivity finding carries its type's severity, and none is
      a flow error. */
  lemma ConnectivityRated(g: GraphState)
    requires Valid(g)
    ensures Rated(Connectivity(g)) && NoFlowError(Connectivity(g))
  {
    var structs := StructureIds(g.nodeOrder, g.nodes);
    StructureIdsOf(g);
    OrphanPartRated(g, structs);
    UnresolvedRated(g);
    RatedAppend(OrphanPart(g, structs), EdgeCheckAll(UnresolvedCheck, g));
  }

  /** The orphan part carries its types' severities and no flow error. */
  lemma OrphanPartRated(g: GraphState, structs: seq<string>)
    requires StructsOf(g, structs)
    ensures Rated(OrphanPart(g, structs)) && NoFlowError(OrphanPart(g, structs))
  {
    OrphanPartRule(g, structs);
  }

  /** The unresolved-end findings carry their types' severities and no flow error. */
  lemma UnresolvedRated(g: GraphState)
    requires Valid(g)
    ensures Rated(EdgeCheckAll(UnresolvedCheck, g)) && NoFlowError(EdgeCheckAll(UnresolvedCheck, g))
  {
    UnresolvedRule(g);
  }

  /** Joining two rated runs free of flow errors gives one. */
  lemma RatedAppend(a: seq<Finding>, b: seq<Finding>)
    requires Rated(a) && NoFlowError(a) && Rated(b) && NoFlowError(b)
    ensures Rated(a + b) && NoFlowError(a + b)
  {
  }

  // ---------------------------------------------------------------------------
  // Pipe sizes across sheets

  /** A segment key: the pipe type with the rounded station range, or with
      the rounded length and slope when a station is missing. */
  datatype SegmentKey = SegmentKey(pipeType: string, a: real, b: real)

  /** One pipe of one sheet: its key, size and page. */
  datatype SizeRow = SizeRow(key: SegmentKey, size: string, page: int)

  /** `parse_station(value) if value else None` */
  function StationValue(s: Option<string>): Option<real> {
    if Given(s) then ParseStation(s.value) else None
  }

  function KeyOf(p: Pipe): (k: SegmentKey)
    ensures k.pipeType == Upper(p.pipeType)
  {
    var from, to := StationValue(p.fromStation), StationValue(p.toStation);
    if from.Some? && to.Some? then
      SegmentKey(Upper(p.pipeType), Round(MinReal(from.value, to.value), 2), Round(MaxReal(from.value, to.value), 2))
    else
      SegmentKey(Upper(p.pipeType), Round(if p.length.Some? then p.length.value else 0.0, 1),
                 Round(if p.slope.Some? then p.slope.value else 0.0, 4))
  }

  /** The station range of a pipe does not depend on which end is which. */
  lemma KeyOfReversed(p: Pipe)
    ensures KeyOf(p.(fromStation := p.toStation, toStation := p.fromStation)) == KeyOf(p)
  {
  }

  /** The rows of the pipes `ps` of one tile, in order. */
  function PipeRows(x: TileExtraction, ps: seq<Pipe>): seq<SizeRow>
    decreases |ps|
  {
    if |ps| == 0 then [] else [SizeRow(KeyOf(ps[0]), ps[0].size, x.page)] + PipeRows(x, ps[1..])
  }

  /** The rows of every pipe of every tile, in order. */
  function SizeRows(xs: seq<TileExtraction>): seq<SizeRow>
    decreases |xs|
  {
    if |xs| == 0 then [] else PipeRows(xs[0], xs[0].pipes) + SizeRows(xs[1..])
  }

  /** The bucket dict: keys in first-insertion order, rows by key. */
  datatype Buckets = Buckets(order: seq<SegmentKey>, rows: map<SegmentKey, seq<SizeRow>>)

  /** `buckets.setdefault(key, []).append(row)` */
  function Insert(b: Buckets, r: SizeRow): Buckets {
    if r.key in b.rows then b.(rows := b.rows[r.key := b.rows[r.key] + [r]])
    else Buckets(b.order + [r.key], b.rows[r.key := [r]])
  }

  function InsertAll(b: Buckets, rows: seq<SizeRow>): Buckets
    decreases |rows|
  {
    if |rows| == 0 then b else InsertAll(Insert(b, rows[0]), rows[1..])
  }

  /** The order lists each key of the dict once. */
  ghost predicate BucketsValid(b: Buckets) {
    (forall k :: k in b.rows <==> k in b.order)
    && forall i, j :: 0 <= i < j < |b.order| ==> b.order[i] != b.order[j]
  }

  /** The rows with the key, in order: the reference for one bucket. */
  function RowsWith(rows: seq<SizeRow>, key: SegmentKey): (r: seq<SizeRow>)
    ensures forall k :: 0 <= k < |r| ==> r[k] in rows && r[k].key == key
    decreases |rows|
  {
    if |rows| == 0 then []
    else (if rows[0].key == key then [rows[0]] else []) + RowsWith(rows[1..], key)
  }

  /** Filling the buckets leaves each key's bucket holding its earlier rows
      followed by every new row with that key, and adds exactly the new keys. */
  lemma InsertAllRule(b: Buckets, rows: seq<SizeRow>)
    requires BucketsValid(b)
    ensures var b' := InsertAll(b, rows);
      && BucketsValid(b')
      && |b.order| <= |b'.order| && b'.order[..|b.order|] == b.order
      && (forall k :: k in b'.rows <==> k in b.rows || |RowsWith(rows, k)| > 0)
      && (forall k :: Bucket(b', k) == Bucket(b, k) + RowsWith(rows, k))
  {
    InsertAllValid(b, rows);
    InsertAllRows(b, rows);
  }

  lemma {:induction false} InsertAllValid(b: Buckets, rows: seq<SizeRow>)
    requires BucketsValid(b)
    ensures var b' := InsertAll(b, rows);
      BucketsValid(b') && |b.order| <= |b'.order| && b'.order[..|b.order|] == b.order
    decreases |rows|
  {
    if |rows| > 0 {
      var b1 := Insert(b, rows[0]);
      assert BucketsValid(b1);
      InsertAllValid(b1, rows[1..]);
      var b' := InsertAll(b1, rows[1..]);
      assert b'.order[..|b.order|] == b1.order[..|b1.order|][..|b.order|];
    }
  }

  /** The bucket of a key, empty when the key is absent. */
  function Bucket(b: Buckets, k: SegmentKey): seq<SizeRow> {
    if k in b.rows then b.rows[k] else []
  }

  /** One insertion adds the row to its own key's bucket and nowhere else. */
  lemma InsertStep(b: Buckets, r: SizeRow, k: SegmentKey)
    ensures k in Insert(b, r).rows <==> k in b.rows || k == r.key
    ensures Bucket(Insert(b, r), k) == Bucket(b, k) + (if r.key == k then [r] else [])
  {
  }

  lemma {:induction false} InsertAllRows(b: Buckets, rows: seq<SizeRow>)
    ensures var b' := InsertAll(b, rows);
      && (forall k :: k in b'.rows <==> k in b.rows || |RowsWith(rows, k)| > 0)
      && (forall k :: Bucket(b', k) == Bucket(b, k) + RowsWith(rows, k))
  {
    InsertAllKeys(b, rows);
    InsertAllBuckets(b, rows);
  }

  lemma {:induction false} InsertAllKeys(b: Buckets, rows: seq<SizeRow>)
    ensures forall k :: k in InsertAll(b, rows).rows <==> k in b.rows || |RowsWith(rows, k)| > 0
    decreases |rows|
  {
    if |rows| > 0 {
      var b1 := Insert(b, rows[0]);
      InsertAllKeys(b1, rows[1..]);
      forall k ensures |RowsWith(rows, k)| > 0 <==> k == rows[0].key || |RowsWith(rows[1..], k)| > 0 {
      }
    }
  }

  lemma {:induction false} InsertAllBuckets(b: Buckets, rows: seq<SizeRow>)
    ensures forall k :: Bucket(InsertAll(b, rows), k) == Bucket(b, k) + RowsWith(rows, k)
    decreases |rows|
  {
    if |rows| > 0 {
      var b1 := Insert(b, rows[0]);
      var rest := InsertAll(b1, rows[1..]);
      assert InsertAll(b, rows) == rest;
      InsertAllBuckets(b1, rows[1..]);
      forall k ensures Bucket(rest, k) == Bucket(b, k) + RowsWith(rows, k) {
        InsertStep(b, rows[0], k);
        var head := if rows[0].key == k then [rows[0]] else [];
        var tail := RowsWith(rows[1..], k);
        assert RowsWith(rows, k) == head + tail;
        assert Bucket(rest, k) == (Bucket(b, k) + head) + tail;
        assert (Bucket(b, k) + head) + tail == Bucket(b, k) + (head + tail);
      }
    } else {
      forall k ensures Bucket(b, k) + RowsWith(rows, k) == Bucket(b, k) {
        assert RowsWith(rows, k) == [];
      }
    }
  }

  /** `{size for size, _ in rows if size}`, sorted. */
  function SizesOf(rows: seq<SizeRow>): (r: seq<string>)
    ensures forall s :: s in r <==> exists k :: 0 <= k < |rows| && rows[k].size == s && |s| > 0
  {
    UniqueStrings(NonEmptySizes(rows))
  }

  function NonEmptySizes(rows: seq<SizeRow>): (r: seq<string>)
    ensures forall s :: s in r <==> exists k :: 0 <= k < |rows| && rows[k].size == s && |s| > 0
    decreases |rows|
  {
    if |rows| == 0 then []
    else
      assert forall k :: 0 < k < |rows| ==> rows[k] == rows[1..][k - 1];
      (if |rows[0].size| > 0 then [rows[0].size] else []) + NonEmptySizes(rows[1..])
  }

  function Pages(rows: seq<SizeRow>): (r: seq<int>)
    ensures |r| == |rows| && forall k :: 0 <= k < |r| ==> r[k] == rows[k].page
  {
    seq(|rows|, k requires 0 <= k < |rows| => rows[k].page)
  }

  /** The finding for a bucket with more than one distinct size. */
  function SizeReport(rows: seq<SizeRow>): (f: Finding)
    ensures f.findingType == SizeInconsistency && f.severity == SeverityOf(f.findingType)
  {
    Finding(SizeInconsistency, Warning, "Pipe size mismatch for segment key.",
            UniqueInts(Pages(rows)), [], [], [], None, Some(Join(SizesOf(rows), ", ")))
  }

  /** What one bucket emits: a report when it holds more than one size. */
  function SizeFinding(rows: seq<SizeRow>): (r: Option<Finding>)
    ensures r.Some? <==> |SizesOf(rows)| > 1
    ensures r.Some? ==> r.value == SizeReport(rows)
  {
    if |SizesOf(rows)| > 1 then Some(SizeReport(rows)) else None
  }

  /** What the buckets `keys` emit, in order. */
  function SizeOptions(b: Buckets, keys: seq<SegmentKey>): (os: seq<Option<Finding>>)
    requires forall k :: 0 <= k < |keys| ==> keys[k] in b.rows
    ensures |os| == |keys| && forall k :: 0 <= k < |keys| ==> os[k] == SizeFinding(b.rows[keys[k]])
  {
    seq(|keys|, k requires 0 <= k < |keys| => SizeFinding(b.rows[keys[k]]))
  }

  /** The buckets of `check_pipe_size_consistency`: plan sheets first,
      then profile sheets. */
  function SizeBuckets(plan: seq<TileExtraction>, profile: seq<TileExtraction>): Buckets {
    InsertAll(InsertAll(Buckets([], map[]), SizeRows(plan)), SizeRows(profile))
  }

  /** Every key in the order has a bucket. */
  lemma OrderKeyed(b: Buckets)
    requires BucketsValid(b)
    ensures forall k :: 0 <= k < |b.order| ==> b.order[k] in b.rows
  {
    forall k | 0 <= k < |b.order| ensures b.order[k] in b.rows { assert b.order[k] in b.order; }
  }

  /** The buckets hold, key by key, the plan rows then the profile rows
      with that key. */
  lemma SizeBucketsRule(plan: seq<TileExtraction>, profile: seq<TileExtraction>)
    ensures var b := SizeBuckets(plan, profile);
      && BucketsValid(b)
      && (forall k :: Bucket(b, k) == RowsWith(SizeRows(plan), k) + RowsWith(SizeRows(profile), k))
  {
    var empty := Buckets([], map[]);
    var b1 := InsertAll(empty, SizeRows(plan));
    var b := InsertAll(b1, SizeRows(profile));
    InsertAllValid(empty, SizeRows(plan));
    InsertAllValid(b1, SizeRows(profile));
    InsertAllBuckets(empty, SizeRows(plan));
    InsertAllBuckets(b1, SizeRows(profile));
    forall k ensures Bucket(b, k) == RowsWith(SizeRows(plan), k) + RowsWith(SizeRows(profile), k) {
      assert Bucket(empty, k) == [];
      assert Bucket(b1, k) == RowsWith(SizeRows(plan), k);
    }
  }

  /** `check_pipe_size_consistency` */
  function PipeSizeConsistency(plan: seq<TileExtraction>, profile: seq<TileExtraction>): seq<Finding> {
    var b := SizeBuckets(plan, profile);
    SizeBucketsRule(plan, profile);
    OrderKeyed(b);
    Somes(SizeOptions(b, b.order))
  }

  /** The rows of one segment key: its plan rows, then its profile rows. */
  function KeyRows(plan: seq<TileExtraction>, profile: seq<TileExtraction>, key: SegmentKey): seq<SizeRow> {
    RowsWith(SizeRows(plan), key) + RowsWith(SizeRows(profile), key)
  }

  /** Pipes sharing a segment key across the plan and profile sheets are
      reported exactly when they carry more than one distinct non-empty
      size: each finding is the report of one such key's pipes, and each
      such key is reported. */
  lemma PipeSizeRule(plan: seq<TileExtraction>, profile: seq<TileExtraction>)
    ensures var fs := PipeSizeConsistency(plan, profile);
      && (forall f :: f in fs ==> exists key ::
            |SizesOf(KeyRows(plan, profile, key))| > 1 && f == SizeReport(KeyRows(plan, profile, key)))
      && (forall key :: |SizesOf(KeyRows(plan, profile, key))| > 1 ==> SizeReport(KeyRows(plan, profile, key)) in fs)
  {
    PipeSizeSound(plan, profile);
    PipeSizeComplete(plan, profile);
  }

  lemma PipeSizeSound(plan: seq<TileExtraction>, profile: seq<TileExtraction>)
    ensures forall f :: f in PipeSizeConsistency(plan, profile) ==> exists key ::
      |SizesOf(KeyRows(plan, profile, key))| > 1 && f == SizeReport(KeyRows(plan, profile, key))
  {
    var b := SizeBuckets(plan, profile);
    SizeBucketsRule(plan, profile);
    OrderKeyed(b);
    SizeFindingsSound(b, b.order);
    forall f | f in PipeSizeConsistency(plan, profile)
      ensures exists key :: |SizesOf(KeyRows(plan, profile, key))| > 1 && f == SizeReport(KeyRows(plan, profile, key))
    {
      var key :| |SizesOf(Bucket(b, key))| > 1 && f == SizeReport(Bucket(b, key));
      assert Bucket(b, key) == KeyRows(plan, profile, key);
    }
  }

  lemma PipeSizeComplete(plan: seq<TileExtraction>, profile: seq<TileExtraction>)
    ensures forall key :: |SizesOf(KeyRows(plan, profile, key))| > 1 ==>
      SizeReport(KeyRows(plan, profile, key)) in PipeSizeConsistency(plan, profile)
  {
    var b := SizeBuckets(plan, profile);
    SizeBucketsRule(plan, profile);
    OrderKeyed(b);
    forall key | |SizesOf(KeyRows(plan, profile, key))| > 1
      ensures SizeReport(KeyRows(plan, profile, key)) in PipeSizeConsistency(plan, profile)
    {
      var rs := KeyRows(plan, profile, key);
      assert rs == Bucket(b, key);
      assert SizesOf(rs)[0] in SizesOf(rs);
      assert key in b.rows;
      assert key in b.order;
      var i :| 0 <= i < |b.order| && b.order[i] == key;
      SizeFindingsComplete(b, b.order, i);
    }
  }

  /** Each finding over the buckets `keys` reports one of them. */
  lemma SizeFindingsSound(b: Buckets, keys: seq<SegmentKey>)
    requires forall k :: 0 <= k < |keys| ==> keys[k] in b.rows
    ensures forall f :: f in Somes(SizeOptions(b, keys)) ==>
      exists key :: |SizesOf(Bucket(b, key))| > 1 && f == SizeReport(Bucket(b, key))
  {
    var os := SizeOptions(b, keys);
    forall f | f in Somes(os)
      ensures exists key :: |SizesOf(Bucket(b, key))| > 1 && f == SizeReport(Bucket(b, key))
    {
      var k := SomesFrom(os, f);
      assert b.rows[keys[k]] == Bucket(b, keys[k]);
    }
  }

  /** A listed bucket with more than one size is reported. */
  lemma SizeFindingsComplete(b: Buckets, keys: seq<SegmentKey>, i: nat)
    requires forall k :: 0 <= k < |keys| ==> keys[k] in b.rows
    requires i < |keys| && |SizesOf(Bucket(b, keys[i]))| > 1
    ensures SizeReport(Bucket(b, keys[i])) in Somes(SizeOptions(b, keys))
  {
    SomesHas(SizeOptions(b, keys), i);
  }

  /** Filling in two runs is filling with the runs joined. */
  lemma {:induction false} InsertAllAppend(b: Buckets, r1: seq<SizeRow>, r2: seq<SizeRow>)
    ensures InsertAll(InsertAll(b, r1), r2) == InsertAll(b, r1 + r2)
    decreases |r1|
  {
    if |r1| > 0 {
      assert (r1 + r2)[0] == r1[0] && (r1 + r2)[1..] == r1[1..] + r2;
      InsertAllAppend(Insert(b, r1[0]), r1[1..], r2);
    } else {
      assert r1 + r2 == r2;
    }
  }

  /** The pipes of one tile, put into the buckets one by one. */
  method AddTileRows(b: Buckets, x: TileExtraction) returns (b': Buckets)
    ensures b' == InsertAll(b, PipeRows(x, x.pipes))
  {
    b' := b;
    var j := 0;
    while j < |x.pipes|
      invariant 0 <= j <= |x.pipes|
      invariant InsertAll(b', PipeRows(x, x.pipes[j..])) == InsertAll(b, PipeRows(x, x.pipes))
    {
      assert x.pipes[j..][0] == x.pipes[j] && x.pipes[j..][1..] == x.pipes[j + 1..];
      b' := Insert(b', SizeRow(KeyOf(x.pipes[j]), x.pipes[j].size, x.page));
      j := j + 1;
    }
  }

  /** `add_pipes`: the rows of the tiles `xs`, tile by tile. */
  method AddSizeRows(b: Buckets, xs: seq<TileExtraction>) returns (b': Buckets)
    ensures b' == InsertAll(b, SizeRows(xs))
  {
    b' := b;
    var i := 0;
    while i < |xs|
      invariant 0 <= i <= |xs|
      invariant InsertAll(b', SizeRows(xs[i..])) == InsertAll(b, SizeRows(xs))
    {
      assert xs[i..][0] == xs[i] && xs[i..][1..] == xs[i + 1..];
      InsertAllAppend(b', PipeRows(xs[i], xs[i].pipes), SizeRows(xs[i + 1..]));
      b' := AddTileRows(b', xs[i]);
      i := i + 1;
    }
  }

  method CheckPipeSizeConsistency(plan: seq<TileExtraction>, profile: seq<TileExtraction>)
    returns (findings: seq<Finding>)
    ensures findings == PipeSizeConsistency(plan, profile)
  {
    var b := AddSizeRows(Buckets([], map[]), plan);
    b := AddSizeRows(b, profile);
    SizeBucketsRule(plan, profile);
    OrderKeyed(b);
    findings := CollectSizeFindings(b);
  }

  /** The loop over the buckets in first-insertion order. */
  method CollectSizeFindings(b: Buckets) returns (findings: seq<Finding>)
    requires forall k :: 0 <= k < |b.order| ==> b.order[k] in b.rows
    ensures findings == Somes(SizeOptions(b, b.order))
  {
    ghost var os := SizeOptions(b, b.order);
    findings := [];
    var i := 0;
    while i < |b.order|
      invariant 0 <= i <= |b.order|
      invariant findings == Somes(os[..i])
    {
      SomesStep(os, i);
      var rows := b.rows[b.order[i]];
      var sizes := SizesOf(rows);
      if |sizes| > 1 {
        findings := findings + [SizeReport(rows)];
      }
      i := i + 1;
    }
    assert os[..i] == os;
  }

  // ---------------------------------------------------------------------------
  // All checks

  /** `run_all_checks`: connectivity, flow direction, slope, elevation. */
  function AllChecks(g: GraphState): seq<Finding>
    requires Valid(g)
  {
    Connectivity(g) + FlowDirection(g) + EdgeCheckAll(SlopeCheck, g) + ElevationConsistency(g)
  }

  method RunAllChecks(g: GraphState) returns (findings: seq<Finding>)
    requires Valid(g)
    ensures findings == AllChecks(g)
  {
    var connectivity := CheckConnectivity(g);
    var flow := CheckFlowDirection(g);
    var slope := CheckSlopeConsistency(g);
    var elevation := CheckElevationConsistency(g);
    findings := connectivity + flow + slope + elevation;
  }

  /** Each finding carries the severity of its type. */
  predicate Rated(fs: seq<Finding>) {
    forall f :: f in fs ==> f.severity == SeverityOf(f.findingType)
  }

  predicate NoFlowError(fs: seq<Finding>) {
    forall f :: f in fs ==> f.findingType != FlowDirectionError
  }

  /** Every finding carries the severity of its type, and only a backfall
      on a gravity utility is an error. */
  lemma AllChecksSeverity(g: GraphState)
    requires Valid(g)
    ensures forall f :: f in AllChecks(g) ==> f.severity == SeverityOf(f.findingType)
    ensures forall f :: f in AllChecks(g) ==> (f.severity == Error <==> f.findingType == FlowDirectionError)
    ensures !Gravity(g.utility) ==> forall f :: f in AllChecks(g) ==> f.severity != Error
  {
    AllChecksRated(g);
    RatedErrors(AllChecks(g));
  }

  lemma AllChecksRated(g: GraphState)
    requires Valid(g)
    ensures Rated(AllChecks(g)) && (!Gravity(g.utility) ==> NoFlowError(AllChecks(g)))
  {
    ConnectivityRated(g);
    FlowRated(g);
    SlopeRated(g);
    ElevationRated(g);
    RatedJoin(Connectivity(g), FlowDirection(g), EdgeCheckAll(SlopeCheck, g), ElevationConsistency(g));
  }

  /** In a rated run, the errors are exactly the flow errors. */
  lemma RatedErrors(fs: seq<Finding>)
    requires Rated(fs)
    ensures forall f :: f in fs ==> (f.severity == Error <==> f.findingType == FlowDirectionError)
    ensures NoFlowError(fs) ==> forall f :: f in fs ==> f.severity != Error
  {
  }

  /** Joining rated runs gives a rated run, free of flow errors when every
      run is. */
  lemma RatedJoin(a: seq<Finding>, b: seq<Finding>, c: seq<Finding>, d: seq<Finding>)
    requires Rated(a) && Rated(b) && Rated(c) && Rated(d)
    ensures Rated(a + b + c + d)
    ensures NoFlowError(a) && NoFlowError(b) && NoFlowError(c) && NoFlowError(d) ==> NoFlowError(a + b + c + d)
  {
  }

  lemma FlowRated(g: GraphState)
    requires Valid(g)
    ensures Rated(FlowDirection(g))
    ensures !Gravity(g.utility) ==> FlowDirection(g) == []
  {
    if Gravity(g.utility) {
      EdgeListIn(g);
      EdgeFindingsSound(FlowCheck, g, EdgeList(g));
    }
  }

  lemma SlopeRated(g: GraphState)
    requires Valid(g)
    ensures Rated(EdgeCheckAll(SlopeCheck, g)) && NoFlowError(EdgeCheckAll(SlopeCheck, g))
  {
    EdgeListIn(g);
    EdgeFindingsSound(SlopeCheck, g, EdgeList(g));
  }

  lemma ElevationRated(g: GraphState)
    requires Valid(g)
    ensures Rated(ElevationConsistency(g)) && NoFlowError(ElevationConsistency(g))
  {
    NodeOrderIn(g);
    NodeChecksRule(ElevationCheck, g, g.nodeOrder);
  }
}
