/** What an execution graph computes, independently of how it is scheduled. */
module Denotation {
  import opened Wrappers
  import opened Collections
  import opened PortGraph
  import opened DagOrder

  /** Data on edges; only statements, not the modelled code, compare it. */
  type IO(==, !new)
  type Color(==, !new)

  /** A colored node: its operation (none on failure) and the worker it belongs to. */
  datatype Colored = Colored(run: seq<IO> -> Option<seq<IO>>, color: Color)

  type ExecGraph = Graph<Colored>
  type InputData = map<NodeInput, IO>
  type OutputData = map<NodeOutput, IO>

  /** The outputs of each evaluated node, by output port. */
  type Values = map<NodeId, seq<IO>>

  // ---------------------------------------------------------------- well-formed execution graphs

  /** Execution edges carry one link each. */
  ghost predicate OneLink(g: ExecGraph) {
    forall e :: e in g.edges ==> |g.edges[e].ports| == 1
  }

  ghost predicate WellFormed(g: ExecGraph) {
    Consistent(g) && OneLink(g)
  }

  /** The source port of the only link of an edge. */
  function SourcePort(g: ExecGraph, e: EdgeId): PortId {
    if e in g.edges && |g.edges[e].ports| > 0 then g.edges[e].ports[0].sourcePort else 0
  }

  /** The target port of the only link of an edge. */
  function TargetPort(g: ExecGraph, e: EdgeId): PortId {
    if e in g.edges && |g.edges[e].ports| > 0 then g.edges[e].ports[0].targetPort else 0
  }

  predicate Enters(g: ExecGraph, e: EdgeId, n: NodeId) {
    e in g.edges && g.edges[e].target == n
  }

  predicate Leaves(g: ExecGraph, e: EdgeId, n: NodeId) {
    e in g.edges && g.edges[e].source == n
  }

  predicate IsSource(g: ExecGraph, n: NodeId) {
    forall e | e in g.edges :: !Enters(g, e, n)
  }

  predicate IsSink(g: ExecGraph, n: NodeId) {
    forall e | e in g.edges :: !Leaves(g, e, n)
  }

  /** An operation that succeeds produces every output an edge takes from it. */
  ghost predicate EnoughOutputs(g: ExecGraph) {
    forall e, ins :: e in g.edges && g.edges[e].source in g.nodes
                     && g.nodes[g.edges[e].source].run(ins).Some? ==>
      SourcePort(g, e) < |g.nodes[g.edges[e].source].run(ins).value|
  }

  // ---------------------------------------------------------------- inputs in port order

  /** The values of a port map by increasing port. */
  function InPortOrder(m: map<PortId, IO>): (s: seq<IO>)
    ensures |s| == |m|
    decreases |m|
  {
    if m == map[] then []
    else
      var p := Extreme(true, m.Keys);
      var rest := m - {p};
      assert m.Keys == rest.Keys + {p};
      [m[p]] + InPortOrder(rest)
  }

  lemma {:induction false} InPortOrderFrom(m: map<PortId, IO>, lo: nat, hi: nat)
    requires lo <= hi && forall p :: p in m <==> lo <= p < hi
    ensures |InPortOrder(m)| == hi - lo
    ensures forall i :: 0 <= i < hi - lo ==> InPortOrder(m)[i] == m[lo + i]
    decreases hi - lo
  {
    if lo == hi {
      assert m.Keys == {};
      assert m == map[];
    } else {
      assert lo in m;
      assert InPortOrder(m) == [m[Extreme(true, m.Keys)]] + InPortOrder(m - {Extreme(true, m.Keys)});
      assert Extreme(true, m.Keys) == lo;
      hide InPortOrder, Extreme;
      InPortOrderFrom(m - {lo}, lo + 1, hi);
    }
  }

  /** When the ports are 0..k without gaps, position i of the inputs is port i. */
  lemma InPortOrderIsIndexed(m: map<PortId, IO>, k: nat)
    requires m.Keys == Below(k)
    ensures |InPortOrder(m)| == k && forall i :: 0 <= i < k ==> InPortOrder(m)[i] == m[i]
  {
    assert forall p :: p in m <==> p in m.Keys;
    InPortOrderFrom(m, 0, k);
  }

  /** The ports below p. */
  function Before(ports: set<PortId>, p: PortId): (s: set<PortId>)
    ensures forall q :: q in s <==> q in ports && q < p
  {
    set q | q in ports && q < p
  }

  /** Whatever the ports, the value at port p comes after one value for each smaller port. */
  lemma {:induction false} InPortOrderAt(m: map<PortId, IO>, p: PortId)
    requires p in m
    ensures |Before(m.Keys, p)| < |InPortOrder(m)| && InPortOrder(m)[|Before(m.Keys, p)|] == m[p]
    decreases |m|
  {
    hide Extreme;
    var first := Extreme(true, m.Keys);
    var rest := m - {first};
    assert m.Keys == rest.Keys + {first} && |rest| < |m| by {
      assert first in m.Keys;
      assert rest.Keys == m.Keys - {first};
      assert |rest.Keys| == |rest| && |m.Keys| == |m|;
    }
    assert InPortOrder(m) == [m[first]] + InPortOrder(rest);
    hide InPortOrder;
    if p == first {
      assert Before(m.Keys, p) == {};
    } else {
      InPortOrderAt(rest, p);
      assert Before(m.Keys, p) == Before(rest.Keys, p) + {first};
    }
  }

  // ---------------------------------------------------------------- evaluation

  /** The edge that feeds port p of n. */
  ghost function EdgeInto(g: ExecGraph, n: NodeId, p: PortId): (e: EdgeId)
    requires p in PortsInto(g, n)
    ensures Enters(g, e, n) && (OneLink(g) ==> TargetPort(g, e) == p)
    ensures exists i: nat :: LinkAt(g, e, i, n, p)
  {
    var e, i :| LinkAt(g, e, i, n, p);
    e
  }

  /** Every predecessor of n has been evaluated, and to enough outputs. */
  ghost predicate Supplied(g: ExecGraph, val: Values, n: NodeId)
  {
    forall e :: Enters(g, e, n) ==> g.edges[e].source in val && SourcePort(g, e) < |val[g.edges[e].source]|
  }

  ghost function EdgeValue(g: ExecGraph, val: Values, e: EdgeId): IO
    requires e in g.edges
    requires g.edges[e].source in val && SourcePort(g, e) < |val[g.edges[e].source]|
  {
    val[g.edges[e].source][SourcePort(g, e)]
  }

  /** What the edges bring to n, by target port. */
  ghost function EdgeInputs(g: ExecGraph, val: Values, n: NodeId): map<PortId, IO>
    requires Supplied(g, val, n)
  {
    map p | p in PortsInto(g, n) :: EdgeValue(g, val, EdgeInto(g, n, p))
  }

  function ExternalPorts(x: InputData, n: NodeId): (s: set<PortId>)
    ensures forall p :: p in s <==> NodeInput(n, p) in x
  {
    var s := set i | i in x && i.node == n :: i.port;
    assert forall p :: NodeInput(n, p) in x ==> NodeInput(n, p).port in s;
    s
  }

  /** The external data addressed to n, by port. */
  function ExternalInputs(x: InputData, n: NodeId): map<PortId, IO> {
    map p | p in ExternalPorts(x, n) :: x[NodeInput(n, p)]
  }

  /** The argument list of n: data from edges and from outside, external data winning a shared port, by port. */
  ghost function Inputs(g: ExecGraph, x: InputData, val: Values, n: NodeId): seq<IO>
    requires Supplied(g, val, n)
  {
    InPortOrder(EdgeInputs(g, val, n) + ExternalInputs(x, n))
  }

  predicate OnlyLink(g: ExecGraph, e: EdgeId, link: PortLink) {
    e in g.edges && g.edges[e].ports == [link]
  }

  /** The value at the source port of a link of edge e is there, and is io. */
  ghost predicate Carries(g: ExecGraph, val: Values, e: EdgeId, link: PortLink, io: IO)
    requires e in g.edges
  {
    g.edges[e].source in val && link.sourcePort < |val[g.edges[e].source]| && val[g.edges[e].source][link.sourcePort] == io
  }

  /** The arguments of n, link by link: one for every port that a link or external data feeds, by increasing port; external
      data where there is some, and else the output that the link names. */
  ghost predicate Arguments(g: ExecGraph, x: InputData, val: Values, n: NodeId, ports: set<PortId>, args: seq<IO>) {
    && |args| == |ports|
    && (forall p :: p in ports <==> NodeInput(n, p) in x || exists e, i :: LinkAt(g, e, i, n, p))
    && (forall p :: NodeInput(n, p) in x ==> |Before(ports, p)| < |args| && args[|Before(ports, p)|] == x[NodeInput(n, p)])
    && forall e, link :: OnlyLink(g, e, link) && g.edges[e].target == n && NodeInput(n, link.targetPort) !in x ==>
         |Before(ports, link.targetPort)| < |args| && Carries(g, val, e, link, args[|Before(ports, link.targetPort)|])
  }

  function FedPorts(g: ExecGraph, x: InputData, n: NodeId): set<PortId> {
    PortsInto(g, n) + ExternalPorts(x, n)
  }

  /** The value over a link. */
  lemma LinkInput(g: ExecGraph, val: Values, n: NodeId, e: EdgeId, link: PortLink)
    requires TargetPortsDistinct(g) && Supplied(g, val, n) && OnlyLink(g, e, link) && g.edges[e].target == n
    ensures link.targetPort in PortsInto(g, n) && Carries(g, val, e, link, EdgeInputs(g, val, n)[link.targetPort])
  {
    var p := link.targetPort;
    assert LinkAt(g, e, 0, n, p);
    hide PortsInto;
    assert p in PortsInto(g, n);
    var f := EdgeInto(g, n, p);
    var i: nat :| LinkAt(g, f, i, n, p);
    assert f == e;
  }

  lemma ArgumentPorts(g: ExecGraph, x: InputData, val: Values, n: NodeId)
    requires Supplied(g, val, n)
    ensures (EdgeInputs(g, val, n) + ExternalInputs(x, n)).Keys == FedPorts(g, x, n)
    ensures forall p :: p in ExternalPorts(x, n) ==> (EdgeInputs(g, val, n) + ExternalInputs(x, n))[p] == x[NodeInput(n, p)]
    ensures forall p :: p in PortsInto(g, n) && p !in ExternalPorts(x, n) ==>
      (EdgeInputs(g, val, n) + ExternalInputs(x, n))[p] == EdgeInputs(g, val, n)[p]
  {
    hide PortsInto, EdgeInto;
  }

  lemma ArgumentOf(g: ExecGraph, x: InputData, val: Values, n: NodeId, p: PortId)
    requires Supplied(g, val, n) && p in FedPorts(g, x, n)
    ensures |Before(FedPorts(g, x, n), p)| < |Inputs(g, x, val, n)|
    ensures Inputs(g, x, val, n)[|Before(FedPorts(g, x, n), p)|]
         == if p in ExternalPorts(x, n) then x[NodeInput(n, p)] else EdgeInputs(g, val, n)[p]
  {
    hide PortsInto, InPortOrder, EdgeInputs, ExternalInputs, Supplied;
    ArgumentPorts(g, x, val, n);
    InPortOrderAt(EdgeInputs(g, val, n) + ExternalInputs(x, n), p);
  }

  lemma ArgumentCount(g: ExecGraph, x: InputData, val: Values, n: NodeId)
    requires Supplied(g, val, n)
    ensures |Inputs(g, x, val, n)| == |FedPorts(g, x, n)|
    ensures forall p :: p in FedPorts(g, x, n) <==> NodeInput(n, p) in x || exists e, i :: LinkAt(g, e, i, n, p)
  {
    ArgumentPorts(g, x, val, n);
    hide PortsInto, InPortOrder, EdgeInputs, ExternalInputs, Supplied, LinkAt;
    var m := EdgeInputs(g, val, n) + ExternalInputs(x, n);
    assert |m.Keys| == |m|;
  }

  /** A node with data from edges and from outside gets all of it, in the order of the ports. */
  lemma InputsByLink(g: ExecGraph, x: InputData, val: Values, n: NodeId)
    requires Supplied(g, val, n) && TargetPortsDistinct(g)
    ensures Arguments(g, x, val, n, FedPorts(g, x, n), Inputs(g, x, val, n))
  {
    hide PortsInto, Inputs, EdgeInputs, TargetPortsDistinct, LinkAt, Supplied, Carries, FedPorts, Before, ExternalPorts, OnlyLink;
    ArgumentCount(g, x, val, n);
    forall p | NodeInput(n, p) in x
      ensures |Before(FedPorts(g, x, n), p)| < |Inputs(g, x, val, n)|
      ensures Inputs(g, x, val, n)[|Before(FedPorts(g, x, n), p)|] == x[NodeInput(n, p)]
    {
      ArgumentOf(g, x, val, n, p);
    }
    forall e, link | e in g.edges && OnlyLink(g, e, link) && g.edges[e].target == n && NodeInput(n, link.targetPort) !in x
      ensures |Before(FedPorts(g, x, n), link.targetPort)| < |Inputs(g, x, val, n)|
      ensures Carries(g, val, e, link, Inputs(g, x, val, n)[|Before(FedPorts(g, x, n), link.targetPort)|])
    {
      LinkArgument(g, x, val, n, e, link);
    }
    assert forall e, link :: OnlyLink(g, e, link) ==> e in g.edges by { LinksOfEdges(g); }
  }

  lemma LinksOfEdges(g: ExecGraph)
    ensures forall e, link :: OnlyLink(g, e, link) ==> e in g.edges
  {}

  lemma LinkArgument(g: ExecGraph, x: InputData, val: Values, n: NodeId, e: EdgeId, link: PortLink)
    requires Supplied(g, val, n) && TargetPortsDistinct(g)
    requires OnlyLink(g, e, link) && g.edges[e].target == n && NodeInput(n, link.targetPort) !in x
    ensures |Before(FedPorts(g, x, n), link.targetPort)| < |Inputs(g, x, val, n)|
    ensures Carries(g, val, e, link, Inputs(g, x, val, n)[|Before(FedPorts(g, x, n), link.targetPort)|])
  {
    hide PortsInto, Inputs, EdgeInputs, TargetPortsDistinct, Supplied;
    LinkInput(g, val, n, e, link);
    ArgumentOf(g, x, val, n, link.targetPort);
  }

  /** Position p of the inputs is the value of the one edge into port p of n, and no port is left out. */
  ghost predicate ByPort(g: ExecGraph, val: Values, n: NodeId, inputs: seq<IO>)
    requires Supplied(g, val, n)
  {
    && |inputs| == |PortsInto(g, n)|
    && forall p: PortId :: p < |inputs| ==> p in PortsInto(g, n) && inputs[p] == EdgeValue(g, val, EdgeInto(g, n, p))
  }

  /** A node without external data gets its inputs in port order, without gaps or duplicates. */
  lemma InputsByPort(g: ExecGraph, x: InputData, val: Values, n: NodeId)
    requires Supplied(g, val, n) && ExternalPorts(x, n) == {} && Consistent(g)
    ensures ByPort(g, val, n, Inputs(g, x, val, n))
    ensures forall e, link :: OnlyLink(g, e, link) && g.edges[e].target == n ==>
      link.targetPort < |Inputs(g, x, val, n)| && Carries(g, val, e, link, Inputs(g, x, val, n)[link.targetPort])
  {
    forall e, link | OnlyLink(g, e, link) && g.edges[e].target == n
      ensures link.targetPort < |Inputs(g, x, val, n)| && Carries(g, val, e, link, Inputs(g, x, val, n)[link.targetPort])
    {
      ArgumentAt(g, x, val, n, e, link);
    }
    hide Consistent, InPortOrder, PortsInto, EdgeInto, EdgeInputs, Supplied, EdgeValue;
    EdgePorts(g, val, n);
    var m, k := EdgeInputs(g, val, n), |PortsInto(g, n)|;
    NothingExternal(m, x, n);
    InPortOrderIsIndexed(m, k);
    assert Inputs(g, x, val, n) == InPortOrder(m);
    hide Inputs;
    PortsAre(g, val, n, m, k, InPortOrder(m));
  }

  lemma ArgumentAt(g: ExecGraph, x: InputData, val: Values, n: NodeId, e: EdgeId, link: PortLink)
    requires Supplied(g, val, n) && ExternalPorts(x, n) == {} && Consistent(g)
    requires OnlyLink(g, e, link) && g.edges[e].target == n
    ensures link.targetPort < |Inputs(g, x, val, n)| && Carries(g, val, e, link, Inputs(g, x, val, n)[link.targetPort])
  {
    assert TargetPortsDistinct(g);
    EdgePorts(g, val, n);
    LinkInput(g, val, n, e, link);
    NothingExternal(EdgeInputs(g, val, n), x, n);
    InPortOrderIsIndexed(EdgeInputs(g, val, n), |PortsInto(g, n)|);
    assert link.targetPort in Below(|PortsInto(g, n)|);
    hide Consistent, InPortOrder, PortsInto, EdgeInto, EdgeInputs, Supplied;
  }

  lemma PortsAre(g: ExecGraph, val: Values, n: NodeId, m: map<PortId, IO>, k: nat, inputs: seq<IO>)
    requires Supplied(g, val, n) && m.Keys == PortsInto(g, n) == Below(k) && k == |PortsInto(g, n)|
    requires |inputs| == k && forall p: PortId :: p < k ==> inputs[p] == m[p]
    requires forall p :: p in PortsInto(g, n) ==> m[p] == EdgeValue(g, val, EdgeInto(g, n, p))
    ensures ByPort(g, val, n, inputs)
  {
    hide PortsInto, EdgeInto, EdgeValue;
    forall p: PortId | p < k
      ensures p in PortsInto(g, n) && inputs[p] == EdgeValue(g, val, EdgeInto(g, n, p))
    {
      assert p in Below(k);
    }
  }

  lemma EdgePorts(g: ExecGraph, val: Values, n: NodeId)
    requires Consistent(g) && Supplied(g, val, n)
    ensures EdgeInputs(g, val, n).Keys == PortsInto(g, n) == Below(|PortsInto(g, n)|)
    ensures forall p :: p in PortsInto(g, n) ==> EdgeInputs(g, val, n)[p] == EdgeValue(g, val, EdgeInto(g, n, p))
  {
    assert Contiguous(PortsInto(g, n));
    ContiguousIsRange(PortsInto(g, n));
    hide Consistent, PortsInto, EdgeInto, Contiguous;
  }

  lemma NothingExternal(m: map<PortId, IO>, x: InputData, n: NodeId)
    requires ExternalPorts(x, n) == {}
    ensures m + ExternalInputs(x, n) == m
  {}

  ghost predicate EvaluatesTo(g: ExecGraph, x: InputData, val: Values, n: NodeId)
  {
    n in g.nodes && n in val && Supplied(g, val, n) && g.nodes[n].run(Inputs(g, x, val, n)) == Some(val[n])
  }

  /** `val` is the meaning of the graph on `x`: every node is its operation applied to its inputs. */
  ghost predicate IsValuation(g: ExecGraph, x: InputData, val: Values)
  {
    val.Keys == g.nodes.Keys && forall n :: n in g.nodes ==> EvaluatesTo(g, x, val, n)
  }

  predicate Consumed(g: ExecGraph, n: NodeId, p: PortId) {
    exists e | e in g.edges :: g.edges[e].source == n && SourcePort(g, e) == p
  }

  function FreeOutputs(g: ExecGraph, val: Values): (s: set<NodeOutput>)
    ensures forall o :: o in s <==> o.node in val && o.port < |val[o.node]| && !Consumed(g, o.node, o.port)
  {
    var s := set n, p | n in val && 0 <= p < |val[n]| && !Consumed(g, n, p) :: NodeOutput(n, p);
    assert forall o: NodeOutput :: o == NodeOutput(o.node, o.port);
    s
  }

  /** The outputs of the graph: every output port that no edge uses. */
  function GraphOutputs(g: ExecGraph, val: Values): OutputData {
    map o | o in FreeOutputs(g, val) :: val[o.node][o.port]
  }

  /** Node n has output p, and no link takes it. */
  ghost predicate Untaken(g: ExecGraph, val: Values, o: NodeOutput) {
    && o.node in val && o.port < |val[o.node]|
    && forall e, link :: OnlyLink(g, e, link) && g.edges[e].source == o.node ==> link.sourcePort != o.port
  }

  /** The outputs of the graph are the values at the output ports that no link leaves. */
  lemma OutputsByLink(g: ExecGraph, val: Values, o: NodeOutput)
    requires OneLink(g)
    ensures o in GraphOutputs(g, val) <==> Untaken(g, val, o)
    ensures o in GraphOutputs(g, val) ==> GraphOutputs(g, val)[o] == val[o.node][o.port]
  {
    if e :| e in g.edges && g.edges[e].source == o.node && SourcePort(g, e) == o.port {
      assert OnlyLink(g, e, g.edges[e].ports[0]);
    }
  }

  /** The inputs of a node depend on its predecessors only. */
  lemma InputsFrame(g: ExecGraph, x: InputData, a: Values, b: Values, n: NodeId)
    requires Supplied(g, a, n)
    requires forall e :: Enters(g, e, n) ==> g.edges[e].source in b && b[g.edges[e].source] == a[g.edges[e].source]
    ensures Supplied(g, b, n) && Inputs(g, x, a, n) == Inputs(g, x, b, n)
  {
    EdgeInputsFrame(g, a, b, n);
    hide InPortOrder, EdgeInputs, Supplied, Enters;
  }

  lemma EdgeInputsFrame(g: ExecGraph, a: Values, b: Values, n: NodeId)
    requires Supplied(g, a, n)
    requires forall e :: Enters(g, e, n) ==> g.edges[e].source in b && b[g.edges[e].source] == a[g.edges[e].source]
    ensures Supplied(g, b, n) && EdgeInputs(g, a, n) == EdgeInputs(g, b, n)
  {
    assert Supplied(g, b, n);
    hide PortsInto, EdgeInto;
    var ea, eb := EdgeInputs(g, a, n), EdgeInputs(g, b, n);
    assert ea.Keys == eb.Keys;
    forall p | p in PortsInto(g, n)
      ensures ea[p] == eb[p]
    {
      assert Enters(g, EdgeInto(g, n, p), n);
    }
  }

  /** On an acyclic graph the meaning is unique. */
  lemma ValuationUnique(g: ExecGraph, x: InputData, a: Values, b: Values)
    requires EndpointsExist(g) && IsDag(g)
    requires IsValuation(g, x, a) && IsValuation(g, x, b)
    ensures a == b
  {
    hide EvaluatesTo, Ranked, EndpointsExist;
    var rank :| Ranked(g, rank);
    forall n | n in g.nodes
      ensures a[n] == b[n]
    {
      NodeUnique(g, rank, x, a, b, n);
    }
  }

  lemma {:induction false} NodeUnique(g: ExecGraph, rank: map<NodeId, nat>, x: InputData, a: Values, b: Values, n: NodeId)
    requires EndpointsExist(g) && Ranked(g, rank)
    requires IsValuation(g, x, a) && IsValuation(g, x, b) && n in g.nodes
    ensures a[n] == b[n]
    decreases rank[n]
  {
    forall e | Enters(g, e, n)
      ensures b[g.edges[e].source] == a[g.edges[e].source]
    {
      NodeUnique(g, rank, x, a, b, g.edges[e].source);
    }
    assert EvaluatesTo(g, x, a, n) && EvaluatesTo(g, x, b, n);
    InputsFrame(g, x, a, b, n);
  }

  ghost predicate NeverFails(g: ExecGraph) {
    forall n, ins :: n in g.nodes ==> g.nodes[n].run(ins).Some?
  }

  /** When operations never fail, an acyclic graph has a meaning on every input. */
  lemma ValuationExists(g: ExecGraph, x: InputData)
    requires IsDag(g) && EnoughOutputs(g) && NeverFails(g)
    ensures exists val :: IsValuation(g, x, val)
  {
    var rank :| Ranked(g, rank);
    var top := RankBound(rank, g.nodes.Keys);
    hide EvaluatesTo, EnoughOutputs, NeverFails, OneLink;
    var val := ValuesBelow(g, rank, x, top);
    AllBelow(g, rank, x, top, val);
  }

  lemma AllBelow(g: ExecGraph, rank: map<NodeId, nat>, x: InputData, top: nat, val: Values)
    requires rank.Keys == g.nodes.Keys && EvaluatedBelow(g, rank, x, top, val)
    requires forall n :: n in g.nodes ==> rank[n] < top
    ensures IsValuation(g, x, val)
  {
    hide EvaluatesTo, OneLink;
    assert val.Keys == g.nodes.Keys;
  }

  lemma {:induction false} RankBound(rank: map<NodeId, nat>, s: set<NodeId>) returns (top: nat)
    requires s <= rank.Keys
    ensures forall n :: n in s ==> rank[n] < top
    decreases |s|
  {
    if s == {} {
      top := 0;
    } else {
      var n :| n in s;
      var t := RankBound(rank, s - {n});
      top := if rank[n] < t then t else rank[n] + 1;
      assert forall m :: m in s ==> m == n || m in s - {n};
    }
  }

  /** `val` evaluates exactly the nodes of rank below k. */
  ghost predicate EvaluatedBelow(g: ExecGraph, rank: map<NodeId, nat>, x: InputData, k: nat, val: Values)
    requires rank.Keys == g.nodes.Keys
  {
    && (forall n :: n in val <==> n in g.nodes && rank[n] < k)
    && forall n :: n in val ==> EvaluatesTo(g, x, val, n)
  }

  lemma SuppliedFromBelow(g: ExecGraph, rank: map<NodeId, nat>, x: InputData, k: nat, val: Values, n: NodeId)
    requires Ranked(g, rank) && EnoughOutputs(g)
    requires EvaluatedBelow(g, rank, x, k, val) && n in g.nodes && rank[n] <= k
    ensures Supplied(g, val, n)
  {
    forall e | Enters(g, e, n)
      ensures g.edges[e].source in val && SourcePort(g, e) < |val[g.edges[e].source]|
    {
      assert EvaluatesTo(g, x, val, g.edges[e].source);
    }
  }

  ghost predicate LevelSupplied(g: ExecGraph, rank: map<NodeId, nat>, k: nat, below: Values)
    requires rank.Keys == g.nodes.Keys
  {
    forall n :: n in g.nodes && rank[n] <= k ==> Supplied(g, below, n)
  }

  /** The nodes of rank k, evaluated on what is below them. */
  ghost function LevelValues(g: ExecGraph, rank: map<NodeId, nat>, x: InputData, k: nat, below: Values): (level: Values)
    requires rank.Keys == g.nodes.Keys && LevelSupplied(g, rank, k, below) && NeverFails(g)
    ensures forall n :: n in level <==> n in g.nodes && rank[n] == k
    ensures forall n :: n in level ==> Supplied(g, below, n) && g.nodes[n].run(Inputs(g, x, below, n)) == Some(level[n])
  {
    hide OneLink, Supplied, Inputs;
    map n | n in g.nodes && rank[n] == k :: g.nodes[n].run(Inputs(g, x, below, n)).value
  }

  lemma ExtendByLevel(g: ExecGraph, rank: map<NodeId, nat>, x: InputData, k: nat, below: Values) returns (val: Values)
    requires Ranked(g, rank) && EnoughOutputs(g) && NeverFails(g)
    requires EvaluatedBelow(g, rank, x, k, below)
    ensures EvaluatedBelow(g, rank, x, k + 1, val)
  {
    hide EnoughOutputs, Inputs, EvaluatesTo, OneLink, Supplied, LevelValues, NeverFails, Enters;
    forall n | n in g.nodes && rank[n] <= k
      ensures Supplied(g, below, n)
    {
      SuppliedFromBelow(g, rank, x, k, below, n);
    }
    var level := LevelValues(g, rank, x, k, below);
    val := below + level;
    forall n | n in val
      ensures EvaluatesTo(g, x, val, n)
    {
      LevelEvaluates(g, rank, x, k, below, val, n);
    }
  }

  lemma LevelEvaluates(g: ExecGraph, rank: map<NodeId, nat>, x: InputData, k: nat, below: Values, val: Values, n: NodeId)
    requires Ranked(g, rank) && EvaluatedBelow(g, rank, x, k, below)
    requires n in g.nodes && rank[n] <= k && Supplied(g, below, n) && n in val
    requires forall m :: m in below ==> m in val && val[m] == below[m]
    requires rank[n] == k ==> g.nodes[n].run(Inputs(g, x, below, n)) == Some(val[n])
    ensures EvaluatesTo(g, x, val, n)
  {
    hide Inputs, OneLink;
    assert n in below ==> EvaluatesTo(g, x, below, n);
    InputsFrame(g, x, below, val, n);
  }

  lemma NothingBelowZero(g: ExecGraph, rank: map<NodeId, nat>, x: InputData)
    requires rank.Keys == g.nodes.Keys
    ensures EvaluatedBelow(g, rank, x, 0, map[])
  {}

  lemma {:induction false} ValuesBelow(g: ExecGraph, rank: map<NodeId, nat>, x: InputData, k: nat) returns (val: Values)
    requires Ranked(g, rank) && EnoughOutputs(g) && NeverFails(g)
    ensures EvaluatedBelow(g, rank, x, k, val)
    decreases k
  {
    hide EnoughOutputs, OneLink, NeverFails, EvaluatedBelow;
    if k == 0 {
      val := map[];
      NothingBelowZero(g, rank, x);
    } else {
      var below := ValuesBelow(g, rank, x, k - 1);
      val := ExtendByLevel(g, rank, x, k - 1, below);
    }
  }
}
