/** The directed port graph of `zkml/src/graph/graph.rs`: edges carry links from an output
    port of their source to an input port of their target. */
module PortGraph {
  import opened Wrappers
  import opened Collections

  type NodeId = nat
  type PortId = nat
  type EdgeId = nat

  datatype NodeInput = NodeInput(node: NodeId, port: PortId)
  datatype NodeOutput = NodeOutput(node: NodeId, port: PortId)
  datatype PortLink = PortLink(sourcePort: PortId, targetPort: PortId)
  datatype Edge = Edge(source: NodeId, target: NodeId, ports: seq<PortLink>)
  datatype Graph<+N> = Graph(nodes: map<NodeId, N>, edges: map<EdgeId, Edge>)

  // ---------------------------------------------------------------- the port-graph invariant

  /** Link i of edge e feeds port p of node n. */
  predicate LinkAt<N>(g: Graph<N>, e: EdgeId, i: nat, n: NodeId, p: PortId) {
    e in g.edges && g.edges[e].target == n && i < |g.edges[e].ports| && g.edges[e].ports[i].targetPort == p
  }

  /** All the input ports of `n` that some link feeds. */
  function PortsInto<N>(g: Graph<N>, n: NodeId): (s: set<PortId>)
    ensures forall p :: p in s <==> exists e, i :: LinkAt(g, e, i, n, p)
  {
    var s := set e, i | e in g.edges && g.edges[e].target == n && 0 <= i < |g.edges[e].ports| :: g.edges[e].ports[i].targetPort;
    assert forall p | p in s :: exists e, i :: LinkAt(g, e, i, n, p) by {
      forall p | p in s
        ensures exists e, i :: LinkAt(g, e, i, n, p)
      {
        var e, i :| e in g.edges && g.edges[e].target == n && 0 <= i < |g.edges[e].ports| && g.edges[e].ports[i].targetPort == p;
        assert LinkAt(g, e, i, n, p);
      }
    }
    s
  }

  /** The numbers below |s| all occur, i.e. s is 0..|s| (see `ContiguousIsRange`). */
  predicate Contiguous(s: set<PortId>) {
    forall i :: 0 <= i < |s| ==> i in s
  }

  predicate EndpointsExist<N>(g: Graph<N>) {
    forall e :: e in g.edges ==>
      g.edges[e].source in g.nodes && g.edges[e].target in g.nodes && g.edges[e].source != g.edges[e].target
  }

  predicate NoParallelEdges<N>(g: Graph<N>) {
    forall e, f :: e in g.edges && f in g.edges && e != f ==>
      g.edges[e].source != g.edges[f].source || g.edges[e].target != g.edges[f].target
  }

  /** A port of a node is the target of at most one link. */
  ghost predicate TargetPortsDistinct<N>(g: Graph<N>) {
    forall e, i, f, j, n, p :: LinkAt(g, e, i, n, p) && LinkAt(g, f, j, n, p) ==> e == f && i == j
  }

  ghost predicate Consistent<N>(g: Graph<N>) {
    && EndpointsExist(g)
    && NoParallelEdges(g)
    && TargetPortsDistinct(g)
    && forall n {:trigger PortsInto(g, n)} :: Contiguous(PortsInto(g, n))
  }

  lemma ContiguousIsRange(s: set<PortId>)
    requires Contiguous(s)
    ensures s == Below(|s|)
  {
    BelowSize(|s|);
    assert Below(|s|) <= s;
    SubsetOfSameSize(Below(|s|), s);
  }

  // ---------------------------------------------------------------- adding edges

  datatype GraphError =
    | SelfLoop | SourceMissing | TargetMissing | DuplicateEdge
    | PortsInconsistent | PortsUsed | PortsNotConsecutive | EdgeIdTaken

  predicate LinksDistinct<N>(g: Graph<N>, n: NodeId, e: EdgeId, f: EdgeId)
    requires e in g.edges && f in g.edges
  {
    g.edges[e].target == n && g.edges[f].target == n ==>
      forall i, j | 0 <= i < |g.edges[e].ports| && 0 <= j < |g.edges[f].ports| ::
        g.edges[e].ports[i].targetPort == g.edges[f].ports[j].targetPort ==> e == f && i == j
  }

  lemma DistinctFromLinks<N>(g: Graph<N>, n: NodeId, e: EdgeId, f: EdgeId)
    requires e in g.edges && f in g.edges
    requires forall i, j, p :: LinkAt(g, e, i, n, p) && LinkAt(g, f, j, n, p) ==> e == f && i == j
    ensures LinksDistinct(g, n, e, f)
  {
    if g.edges[e].target == n && g.edges[f].target == n {
      forall i, j | 0 <= i < |g.edges[e].ports| && 0 <= j < |g.edges[f].ports|
                    && g.edges[e].ports[i].targetPort == g.edges[f].ports[j].targetPort
        ensures e == f && i == j
      {
        assert LinkAt(g, e, i, n, g.edges[e].ports[i].targetPort);
        assert LinkAt(g, f, j, n, g.edges[e].ports[i].targetPort);
      }
    }
  }

  /** No port twice among the links already entering the node. */
  predicate ExistingPortsDistinct<N>(g: Graph<N>, n: NodeId)
    ensures ExistingPortsDistinct(g, n) <==>
      forall e, i, f, j, p :: LinkAt(g, e, i, n, p) && LinkAt(g, f, j, n, p) ==> e == f && i == j
  {
    var r := forall e, f | e in g.edges && f in g.edges :: LinksDistinct(g, n, e, f);
    assert r ==> forall e, i, f, j, p :: LinkAt(g, e, i, n, p) && LinkAt(g, f, j, n, p) ==> e == f && i == j by {
      if r {
        forall e, i, f, j, p | LinkAt(g, e, i, n, p) && LinkAt(g, f, j, n, p)
          ensures e == f && i == j
        {
          assert LinksDistinct(g, n, e, f);
        }
      }
    }
    assert (forall e, i, f, j, p :: LinkAt(g, e, i, n, p) && LinkAt(g, f, j, n, p) ==> e == f && i == j) ==> r by {
      if forall e, i, f, j, p :: LinkAt(g, e, i, n, p) && LinkAt(g, f, j, n, p) ==> e == f && i == j {
        forall e, f | e in g.edges && f in g.edges
          ensures LinksDistinct(g, n, e, f)
        {
          DistinctFromLinks(g, n, e, f);
        }
      }
    }
    r
  }

  function NewPorts(ports: seq<PortLink>): set<PortId> {
    set i | 0 <= i < |ports| :: ports[i].targetPort
  }

  predicate RepeatsAt(ports: seq<PortLink>, i: nat)
    requires i < |ports|
  {
    exists j | 0 <= j < i :: ports[j].targetPort == ports[i].targetPort
  }

  /** `check_consistency`: existing ports distinct, new ports unused and distinct, union gap-free. */
  function CheckConsistency<N>(g: Graph<N>, target: NodeId, ports: seq<PortLink>): Option<GraphError> {
    var existing := PortsInto(g, target);
    if !ExistingPortsDistinct(g, target) then Some(PortsInconsistent)
    else if exists i | 0 <= i < |ports| :: ports[i].targetPort in existing || RepeatsAt(ports, i) then Some(PortsUsed)
    else if !Contiguous(existing + NewPorts(ports)) then Some(PortsNotConsecutive)
    else None
  }

  predicate Connects(edge: Edge, source: NodeId, target: NodeId) {
    edge.source == source && edge.target == target
  }

  function With<N>(g: Graph<N>, id: EdgeId, edge: Edge): Graph<N> {
    Graph(g.nodes, g.edges[id := edge])
  }

  /** One iteration of `add_edges_raw`, with the identifier the global counter hands out. */
  function AddEdge<N>(g: Graph<N>, id: EdgeId, edge: Edge): Result<Graph<N>, GraphError> {
    if edge.source == edge.target then Err(SelfLoop)
    else if edge.source !in g.nodes then Err(SourceMissing)
    else if edge.target !in g.nodes then Err(TargetMissing)
    else if exists e | e in g.edges :: Connects(g.edges[e], edge.source, edge.target) then Err(DuplicateEdge)
    else match CheckConsistency(g, edge.target, edge.ports)
      case Some(error) => Err(error)
      case None =>
        if id in g.edges then Err(EdgeIdTaken)
        else Ok(With(g, id, edge))
  }

  lemma LinksAfterAdd<N>(g: Graph<N>, id: EdgeId, edge: Edge)
    requires id !in g.edges
    ensures forall e: EdgeId, i: nat, n, p :: LinkAt(With(g, id, edge), e, i, n, p) <==>
              LinkAt(g, e, i, n, p) || (e == id && edge.target == n && 0 <= i < |edge.ports| && edge.ports[i].targetPort == p)
  {}

  lemma PortsIntoAfterAdd<N>(g: Graph<N>, id: EdgeId, edge: Edge, n: NodeId)
    requires id !in g.edges
    ensures PortsInto(With(g, id, edge), n) == PortsInto(g, n) + if n == edge.target then NewPorts(edge.ports) else {}
  {
    var h := With(g, id, edge);
    hide PortsInto, LinkAt, With;
    LinksAfterAdd(g, id, edge);
    forall p
      ensures p in PortsInto(h, n) <==> p in PortsInto(g, n) || (n == edge.target && p in NewPorts(edge.ports))
    {
      if p in PortsInto(g, n) {
        var e, i :| LinkAt(g, e, i, n, p);
        assert LinkAt(h, e, i, n, p);
      } else if n == edge.target && p in NewPorts(edge.ports) {
        var i :| 0 <= i < |edge.ports| && edge.ports[i].targetPort == p;
        assert LinkAt(h, id, i, n, p);
      }
    }
  }

  /** The checks accept an edge exactly when the graph with the edge is still a port graph. */
  lemma AddEdgeExact<N>(g: Graph<N>, id: EdgeId, edge: Edge)
    requires Consistent(g) && id !in g.edges
    ensures AddEdge(g, id, edge).Ok? <==> Consistent(With(g, id, edge))
    ensures AddEdge(g, id, edge).Ok? ==> AddEdge(g, id, edge).value == With(g, id, edge)
  {
    if AddEdge(g, id, edge).Ok? {
      AcceptedIsConsistent(g, id, edge);
    } else if Consistent(With(g, id, edge)) {
      ConsistentIsAccepted(g, id, edge);
    }
  }

  /** Each error names what is wrong with the edge, and with an edge for which nothing else is wrong it names that. */
  lemma AddEdgeErrors<N>(g: Graph<N>, id: EdgeId, edge: Edge)
    requires Consistent(g) && id !in g.edges
    ensures var r := AddEdge(g, id, edge);
      && (r == Err(SelfLoop) <==> edge.source == edge.target)
      && (r == Err(SourceMissing) ==> edge.source !in g.nodes)
      && (r == Err(TargetMissing) ==> edge.target !in g.nodes)
      && (r == Err(DuplicateEdge) ==> exists e :: e in g.edges && g.edges[e].source == edge.source && g.edges[e].target == edge.target)
      && (r == Err(PortsUsed) ==> exists i :: 0 <= i < |edge.ports| && PortTaken(g, edge, i))
      && (r == Err(PortsNotConsecutive) ==> !Contiguous(PortsInto(With(g, id, edge), edge.target)))
      && r != Err(PortsInconsistent) && r != Err(EdgeIdTaken)
  {
    hide CheckConsistency, PortsInto, Contiguous, With, PortTaken, Consistent;
    PortErrors(g, id, edge);
  }

  lemma PortErrors<N>(g: Graph<N>, id: EdgeId, edge: Edge)
    requires Consistent(g) && id !in g.edges
    ensures var r := CheckConsistency(g, edge.target, edge.ports);
      && (r == Some(PortsUsed) ==> exists i :: 0 <= i < |edge.ports| && PortTaken(g, edge, i))
      && (r == Some(PortsNotConsecutive) ==> !Contiguous(PortsInto(With(g, id, edge), edge.target)))
      && (r.Some? ==> r.value == PortsUsed || r.value == PortsNotConsecutive)
  {
    hide PortsInto, Contiguous, ExistingPortsDistinct, With, PortTaken, RepeatsAt;
    assert ExistingPortsDistinct(g, edge.target) by { ExistingPass(g, edge.target); }
    PortsIntoAfterAdd(g, id, edge, edge.target);
    forall i | 0 <= i < |edge.ports| && (edge.ports[i].targetPort in PortsInto(g, edge.target) || RepeatsAt(edge.ports, i))
      ensures PortTaken(g, edge, i)
    {
      TakenPort(g, edge, i);
    }
  }

  lemma TakenPort<N>(g: Graph<N>, edge: Edge, i: nat)
    requires i < |edge.ports| && (edge.ports[i].targetPort in PortsInto(g, edge.target) || RepeatsAt(edge.ports, i))
    ensures PortTaken(g, edge, i)
  {
    hide LinkAt;
  }

  /** The target port of link i is that of a link into the target, or of an earlier link of the edge. */
  ghost predicate PortTaken<N>(g: Graph<N>, edge: Edge, i: nat)
    requires i < |edge.ports|
  {
    || (exists e, k :: LinkAt(g, e, k, edge.target, edge.ports[i].targetPort))
    || exists j :: 0 <= j < i && edge.ports[j].targetPort == edge.ports[i].targetPort
  }

  lemma AcceptedIsConsistent<N>(g: Graph<N>, id: EdgeId, edge: Edge)
    requires Consistent(g) && id !in g.edges && AddEdge(g, id, edge).Ok?
    ensures Consistent(With(g, id, edge))
  {
    var h, ports := With(g, id, edge), edge.ports;
    NewPortsFresh(g, edge.target, ports);
    AddedPortsContiguous(g, id, edge);
    forall e, i: nat, f, j: nat, n, p | LinkAt(h, e, i, n, p) && LinkAt(h, f, j, n, p)
      ensures e == f && i == j
    {
      hide PortsInto, Contiguous, AddEdge;
      if e == id && f == id {
        assert ports[i].targetPort == ports[j].targetPort;
      } else if e != id && f != id {
        assert LinkAt(g, e, i, n, p) && LinkAt(g, f, j, n, p);
      }
    }
  }

  lemma NewPortsFresh<N>(g: Graph<N>, n: NodeId, ports: seq<PortLink>)
    requires CheckConsistency(g, n, ports).None?
    ensures forall i :: 0 <= i < |ports| ==> !exists e, k :: LinkAt(g, e, k, n, ports[i].targetPort)
    ensures forall i, j :: 0 <= i < |ports| && 0 <= j < |ports| && ports[i].targetPort == ports[j].targetPort ==> i == j
    ensures Contiguous(PortsInto(g, n) + NewPorts(ports))
  {
    hide Contiguous;
    forall i, j | 0 <= i < |ports| && 0 <= j < |ports| && ports[i].targetPort == ports[j].targetPort
      ensures i == j
    {
      assert !RepeatsAt(ports, i) && !RepeatsAt(ports, j);
    }
  }

  lemma AddedPortsContiguous<N>(g: Graph<N>, id: EdgeId, edge: Edge)
    requires Consistent(g) && id !in g.edges && Contiguous(PortsInto(g, edge.target) + NewPorts(edge.ports))
    ensures forall n {:trigger PortsInto(With(g, id, edge), n)} :: Contiguous(PortsInto(With(g, id, edge), n))
  {
    hide Contiguous, LinkAt;
    forall n
      ensures Contiguous(PortsInto(With(g, id, edge), n))
    {
      PortsIntoAfterAdd(g, id, edge, n);
      assert Contiguous(PortsInto(g, n));
      assert PortsInto(g, n) + {} == PortsInto(g, n);
    }
  }

  lemma PortPasses<N>(g: Graph<N>, id: EdgeId, edge: Edge, i: nat)
    requires id !in g.edges && TargetPortsDistinct(With(g, id, edge)) && i < |edge.ports|
    ensures !(edge.ports[i].targetPort in PortsInto(g, edge.target) || RepeatsAt(edge.ports, i))
  {
    hide PortsInto;
    var h, n, p := With(g, id, edge), edge.target, edge.ports[i].targetPort;
    assert LinkAt(h, id, i, n, p);
    assert forall e, k :: LinkAt(g, e, k, n, p) ==> e != id && LinkAt(h, e, k, n, p);
    assert forall j: nat :: j < i && edge.ports[j].targetPort == p ==> LinkAt(h, id, j, n, p);
  }

  lemma ExistingPass<N>(g: Graph<N>, n: NodeId)
    requires TargetPortsDistinct(g)
    ensures ExistingPortsDistinct(g, n)
  {
    hide ExistingPortsDistinct, LinkAt;
  }

  lemma PortsPass<N>(g: Graph<N>, id: EdgeId, edge: Edge)
    requires Consistent(g) && id !in g.edges && Consistent(With(g, id, edge))
    ensures CheckConsistency(g, edge.target, edge.ports).None?
  {
    var n, ports := edge.target, edge.ports;
    PortsIntoAfterAdd(g, id, edge, n);
    assert Contiguous(PortsInto(With(g, id, edge), n));
    ExistingPass(g, n);
    hide PortsInto, Contiguous, RepeatsAt, ExistingPortsDistinct, LinkAt, EndpointsExist, NoParallelEdges;
    forall i | 0 <= i < |ports|
      ensures !(ports[i].targetPort in PortsInto(g, n) || RepeatsAt(ports, i))
    {
      PortPasses(g, id, edge, i);
    }
  }

  lemma ConsistentIsAccepted<N>(g: Graph<N>, id: EdgeId, edge: Edge)
    requires Consistent(g) && id !in g.edges && Consistent(With(g, id, edge))
    ensures AddEdge(g, id, edge).Ok?
  {
    PortsPass(g, id, edge);
    hide CheckConsistency, PortsInto, Contiguous, LinkAt;
    var h := With(g, id, edge);
    assert h.edges[id] == edge;
    forall e | e in g.edges
      ensures !Connects(g.edges[e], edge.source, edge.target)
    {
      assert h.edges[e] == g.edges[e];
    }
  }

  /** The mutable graph: nodes by identifier, edges by identifier. */
  class GraphStore<N> {
    var nodes: map<NodeId, N>
    var edges: map<EdgeId, Edge>

    function View(): Graph<N>
      reads this
    {
      Graph(nodes, edges)
    }

    constructor ()
      ensures nodes == map[] && edges == map[] && Consistent(View())
    {
      nodes, edges := map[], map[];
    }

    /** `add_edges_raw`: edges are added one by one, so those before a rejected one stay. The
        port-graph invariant survives either way, and acceptance means the final graph has it. */
    method AddEdgesRaw(newEdges: seq<Edge>, ids: seq<EdgeId>) returns (r: Result<seq<EdgeId>, GraphError>)
      requires Consistent(View())
      requires |ids| == |newEdges| && forall i :: 0 <= i < |ids| ==> ids[i] !in edges
      requires forall i, j :: 0 <= i < j < |ids| ==> ids[i] != ids[j]
      modifies this`edges
      ensures Consistent(View())
      ensures r.Ok? ==> r.value == ids && edges == WithEdges(old(edges), ids, newEdges, |ids|)
      ensures r.Ok? ==> Adds(old(edges), ids, newEdges, edges)
      ensures r.Err? ==> exists k :: 0 <= k < |ids| && edges == WithEdges(old(edges), ids, newEdges, k)
                                     && AddEdge(View(), ids[k], newEdges[k]) == Err(r.error)
                                     && !Consistent(Graph(nodes, edges[ids[k] := newEdges[k]]))
    {
      for k := 0 to |newEdges|
        invariant Consistent(View())
        invariant edges == WithEdges(old(edges), ids, newEdges, k)
        invariant forall i :: k <= i < |ids| ==> ids[i] !in edges
      {
        AddEdgeExact(View(), ids[k], newEdges[k]);
        match AddEdge(View(), ids[k], newEdges[k]) {
          case Err(error) => return Err(error);
          case Ok(g) => edges := g.edges;
        }
      }
      AddedAll(old(edges), ids, newEdges, |ids|);
      assert ids[..|ids|] == ids && newEdges[..|ids|] == newEdges;
      return Ok(ids);
    }
  }

  /** Each new edge is there under its identifier, and everything else is as before. */
  ghost predicate Adds(was: map<EdgeId, Edge>, ids: seq<EdgeId>, newEdges: seq<Edge>, now: map<EdgeId, Edge>) {
    && |ids| == |newEdges| && (forall i :: 0 <= i < |ids| ==> ids[i] in now && now[ids[i]] == newEdges[i])
    && (forall e :: e in now <==> e in was || e in ids) && forall e :: e in was && e !in ids ==> now[e] == was[e]
  }

  lemma {:induction false} AddedAll(was: map<EdgeId, Edge>, ids: seq<EdgeId>, newEdges: seq<Edge>, k: nat)
    requires k <= |ids| == |newEdges| && forall i, j :: 0 <= i < j < |ids| ==> ids[i] != ids[j]
    ensures Adds(was, ids[..k], newEdges[..k], WithEdges(was, ids, newEdges, k))
  {
    if k > 0 {
      AddedAll(was, ids, newEdges, k - 1);
      assert ids[..k] == ids[..k - 1] + [ids[k - 1]] && newEdges[..k] == newEdges[..k - 1] + [newEdges[k - 1]];
    }
  }

  function WithEdges(edges: map<EdgeId, Edge>, ids: seq<EdgeId>, newEdges: seq<Edge>, k: nat): map<EdgeId, Edge>
    requires k <= |ids| == |newEdges|
  {
    if k == 0 then edges else WithEdges(edges, ids, newEdges, k - 1)[ids[k - 1] := newEdges[k - 1]]
  }
}
