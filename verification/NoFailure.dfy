/** Operations that fail. A graph is compared with the one whose operations never fail: where an operation fails, its
    stand-in returns some outputs instead. Every run of the queues of the first graph is a run of those of the second. */
module NoFailure {
  import opened Wrappers
  import opened Collections
  import opened PortGraph
  import opened DagOrder
  import opened Denotation
  import opened SchedulerState
  import opened Executors
  import opened Components
  import opened Subgraphs
  import opened Partitions
  import opened PartitionSchedulers
  import opened PartitionMessages
  import opened CutMeaning
  import opened Distributed

  /** The operation, with `d` where it fails. */
  function StandIn(n: Colored, d: seq<IO>): Colored {
    Colored(ins => if n.run(ins).Some? then n.run(ins) else Some(d), n.color)
  }

  function Total(g: ExecGraph, d: seq<IO>): ExecGraph {
    Graph(map n | n in g.nodes :: StandIn(g.nodes[n], d), g.edges)
  }

  function TotalPart(p: Partition, d: seq<IO>): Partition {
    p.(graph := Total(p.graph, d))
  }

  function TotalParts(ps: seq<Partition>, d: seq<IO>): (r: seq<Partition>)
    ensures |r| == |ps| && forall i :: 0 <= i < |ps| ==> r[i] == TotalPart(ps[i], d)
  {
    seq(|ps|, i requires 0 <= i < |ps| => TotalPart(ps[i], d))
  }

  function TotalPlan(pl: Plan, d: seq<IO>): Plan {
    Plan(Total(pl.g, d), pl.inputs, pl.comps, TotalParts(pl.parts, d))
  }

  // ---------------------------------------------------------------- graphs that differ in their operations only

  ghost predicate SameShape(a: ExecGraph, b: ExecGraph) {
    && a.edges == b.edges && a.nodes.Keys == b.nodes.Keys
    && forall n :: n in a.nodes ==> a.nodes[n].color == b.nodes[n].color
  }

  lemma TotalShape(g: ExecGraph, d: seq<IO>)
    ensures SameShape(g, Total(g, d)) && SameShape(Total(g, d), g)
  {}

  lemma TotalSub(g: ExecGraph, d: seq<IO>, s: set<NodeId>)
    ensures Total(Sub(g, s), d) == Sub(Total(g, d), s)
  {
    var a, b := Total(Sub(g, s), d), Sub(Total(g, d), s);
    assert a.nodes == b.nodes;
    assert a.edges == b.edges;
  }

  lemma ShapeEnds(a: ExecGraph, b: ExecGraph)
    requires SameShape(a, b)
    ensures Sources(a) == Sources(b) && Sinks(a) == Sinks(b)
    ensures forall n :: IsSource(a, n) <==> IsSource(b, n)
  {}

  lemma ShapePorts(a: ExecGraph, b: ExecGraph)
    requires SameShape(a, b)
    ensures forall n :: PortsInto(a, n) == PortsInto(b, n)
  {
    forall n
      ensures PortsInto(a, n) == PortsInto(b, n)
    {
      SamePorts(a, b, n);
    }
  }

  lemma ShapeConsistent(a: ExecGraph, b: ExecGraph)
    requires SameShape(a, b) && Consistent(a)
    ensures Consistent(b)
  {
    ShapePorts(a, b);
    assert forall e, i: nat, n, p :: LinkAt(a, e, i, n, p) <==> LinkAt(b, e, i, n, p);
    hide LinkAt, PortsInto, Contiguous;
    assert forall n {:trigger PortsInto(b, n)} :: Contiguous(PortsInto(a, n));
  }

  lemma ShapeDag(a: ExecGraph, b: ExecGraph)
    requires SameShape(a, b) && IsDag(a)
    ensures IsDag(b)
  {
    var rank :| Ranked(a, rank);
    assert Ranked(b, rank);
  }

  lemma ShapeCrossing(a: ExecGraph, b: ExecGraph)
    requires SameShape(a, b)
    ensures forall e :: Crossing(a, e) <==> Crossing(b, e)
    ensures forall e :: Crossing(a, e) && Crossing(b, e) ==> FromColor(a, e) == FromColor(b, e) && ToColor(a, e) == ToColor(b, e)
  {}

  lemma ShapeLinked(a: ExecGraph, b: ExecGraph)
    requires SameShape(a, b)
    ensures forall m, n :: Linked(a, m, n) ==> Linked(b, m, n)
  {
    forall m, n | Linked(a, m, n)
      ensures Linked(b, m, n)
    {
      var e :| e in a.edges && LinksTo(a, e, m, n);
      assert LinksTo(b, e, m, n);
    }
  }

  lemma ShapeJoined(a: ExecGraph, b: ExecGraph)
    requires SameShape(a, b)
    ensures forall m, n :: Joined(a, m, n) ==> Joined(b, m, n)
  {
    ShapeLinked(a, b);
    hide Linked;
    forall m, n | Joined(a, m, n)
      ensures Joined(b, m, n)
    {
      var w :| WalkBetween(a, w, m, n);
      assert WalkBetween(b, w, m, n);
    }
  }

  lemma ShapeComponents(a: ExecGraph, b: ExecGraph, comps: seq<seq<NodeId>>)
    requires SameShape(a, b) && SameShape(b, a) && AllComponents(a, comps)
    ensures AllComponents(b, comps)
  {
    ShapeJoined(a, b);
    ShapeJoined(b, a);
    hide Joined, NoRepeats;
    forall i | 0 <= i < |comps|
      ensures IsComponent(b, comps[i])
    {
      assert IsComponent(a, comps[i]);
    }
  }

  lemma ShapeChildren(a: ExecGraph, b: ExecGraph, s: NodeId, children: map<Color, NodeInput>)
    requires SameShape(a, b) && ChildrenAre(a, s, children)
    ensures ChildrenAre(b, s, children)
  {
    assert forall e, i, c, at :: Child(a, s, e, i, c, at) <==> Child(b, s, e, i, c, at);
    hide Child;
  }

  lemma ShapeParents(a: ExecGraph, b: ExecGraph, t: NodeId, parents: map<Color, NodeOutput>)
    requires SameShape(a, b) && ParentsAre(a, t, parents)
    ensures ParentsAre(b, t, parents)
  {
    assert forall e, c :: LeavesTo(a, t, e, c) <==> LeavesTo(b, t, e, c);
    assert forall e :: SourcePort(a, e) == SourcePort(b, e);
    hide LeavesTo;
  }

  lemma TotalEntry(g: ExecGraph, sub: ExecGraph, children: map<Color, NodeInput>, d: seq<IO>)
    requires exists s :: Sources(sub) == {s} && ChildrenAre(g, s, children)
    ensures exists s :: Sources(Total(sub, d)) == {s} && ChildrenAre(Total(g, d), s, children)
  {
    TotalShape(g, d);
    TotalShape(sub, d);
    ShapeEnds(sub, Total(sub, d));
    hide Total, Sources, ChildrenAre, SameShape;
    var s :| Sources(sub) == {s} && ChildrenAre(g, s, children);
    ShapeChildren(g, Total(g, d), s, children);
  }

  lemma TotalExit(g: ExecGraph, sub: ExecGraph, parents: map<Color, NodeOutput>, d: seq<IO>)
    requires exists t :: Sinks(sub) == {t} && ParentsAre(g, t, parents)
    ensures exists t :: Sinks(Total(sub, d)) == {t} && ParentsAre(Total(g, d), t, parents)
  {
    TotalShape(g, d);
    TotalShape(sub, d);
    ShapeEnds(sub, Total(sub, d));
    hide Total, Sinks, ParentsAre, SameShape;
    var t :| Sinks(sub) == {t} && ParentsAre(g, t, parents);
    ShapeParents(g, Total(g, d), t, parents);
  }

  lemma TotalPartition(g: ExecGraph, inputs: map<NodeId, IO>, comp: seq<NodeId>, p: Partition, d: seq<IO>)
    requires PartitionFor(g, inputs, comp, p)
    ensures PartitionFor(Total(g, d), inputs, comp, TotalPart(p, d))
  {
    hide Total, Sub, Sources, Sinks, ChildrenAre, ParentsAre, Within;
    TotalShape(g, d);
    TotalSub(g, d, SetOf(comp));
    if p.inputs == map[] {
      TotalEntry(g, p.graph, p.children, d);
    }
    TotalExit(g, p.graph, p.parents, d);
  }

  lemma TotalCutInto(pl: Plan, d: seq<IO>)
    requires CutInto(pl.g, pl.inputs, pl.comps, pl.parts)
    ensures var t := TotalPlan(pl, d); CutInto(t.g, t.inputs, t.comps, t.parts)
  {
    hide PartitionFor, Total;
    forall i | 0 <= i < |pl.comps|
      ensures PartitionFor(Total(pl.g, d), pl.inputs, pl.comps[i], TotalPart(pl.parts[i], d))
    {
      TotalPartition(pl.g, pl.inputs, pl.comps[i], pl.parts[i], d);
    }
  }

  lemma TotalCrossing(pl: Plan, d: seq<IO>)
    requires LeavesAtSink(pl) && EntersAtSource(pl) && OneEdgePerColorPair(pl.g)
    ensures LeavesAtSink(TotalPlan(pl, d)) && EntersAtSource(TotalPlan(pl, d)) && OneEdgePerColorPair(TotalPlan(pl, d).g)
  {
    var t := TotalPlan(pl, d);
    TotalShape(pl.g, d);
    ShapeCrossing(pl.g, t.g);
    forall i | 0 <= i < |pl.parts|
      ensures Sources(t.parts[i].graph) == Sources(pl.parts[i].graph) && Sinks(t.parts[i].graph) == Sinks(pl.parts[i].graph)
    {
      TotalShape(pl.parts[i].graph, d);
      ShapeEnds(pl.parts[i].graph, t.parts[i].graph);
    }
    assert t.g.edges == pl.g.edges;
    hide Total, Sources, Sinks, Crossing, SameShape;
  }

  /** Long enough for every edge. */
  ghost predicate LongEnough(g: ExecGraph, d: seq<IO>) {
    forall e :: e in g.edges ==> SourcePort(g, e) < |d|
  }

  lemma TotalEnough(g: ExecGraph, d: seq<IO>)
    requires EnoughOutputs(g) && LongEnough(g, d)
    ensures EnoughOutputs(Total(g, d)) && NeverFails(Total(g, d))
  {
    var t := Total(g, d);
    forall e, ins | e in t.edges && t.edges[e].source in t.nodes && t.nodes[t.edges[e].source].run(ins).Some?
      ensures SourcePort(t, e) < |t.nodes[t.edges[e].source].run(ins).value|
    {
      assert SourcePort(t, e) == SourcePort(g, e);
      assert g.nodes[g.edges[e].source].run(ins).Some? ==> SourcePort(g, e) < |g.nodes[g.edges[e].source].run(ins).value|;
    }
  }

  lemma TotalLegal(g: ExecGraph, x: InputData, d: seq<IO>)
    requires Legal(g, x) && LongEnough(g, d)
    ensures Legal(Total(g, d), x) && NeverFails(Total(g, d))
  {
    var t := Total(g, d);
    TotalShape(g, d);
    ShapeConsistent(g, t);
    ShapeDag(g, t);
    ShapeEnds(g, t);
    TotalEnough(g, d);
    assert t.edges == g.edges;
    hide Total, IsDag, EnoughOutputs, NeverFails, Consistent, IsSource, Fed, Sources, Sinks;
  }

  /** The plan with stand-ins is well cut too. */
  lemma TotalWellCut(pl: Plan, d: seq<IO>)
    requires WellCut(pl) && LongEnough(pl.g, d)
    ensures WellCut(TotalPlan(pl, d)) && NeverFails(Total(pl.g, d))
  {
    hide AllComponents, Separate, CutInto, LeavesAtSink, EntersAtSource, OneEdgePerColorPair, Legal, LongEnough, SameShape, NeverFails,
         AtPortZero, AllMembers;
    TotalShape(pl.g, d);
    TotalLegal(pl.g, AtPortZero(pl.inputs), d);
    ShapeComponents(pl.g, Total(pl.g, d), pl.comps);
    TotalCutInto(pl, d);
    TotalCrossing(pl, d);
  }

  // ---------------------------------------------------------------- some outputs

  lemma {:induction false} PortBound(g: ExecGraph, es: set<EdgeId>) returns (n: nat)
    ensures forall e :: e in es ==> SourcePort(g, e) < n
    decreases |es|
  {
    if es == {} {
      n := 0;
    } else {
      var e :| e in es;
      var m := PortBound(g, es - {e});
      n := if SourcePort(g, e) < m then m else SourcePort(g, e) + 1;
      assert forall f :: f in es ==> f == e || f in es - {e};
    }
  }

  /** A graph with an edge has a source, which is given data. */
  lemma SomeData(g: ExecGraph, x: InputData, e: EdgeId) returns (io: IO)
    requires e in g.edges && Legal(g, x)
  {
    hide EnoughOutputs, NoParallelEdges, TargetPortsDistinct, Contiguous, PortsInto, OneLink;
    var rank :| Ranked(g, rank);
    var m := ExtremeRank(rank, true, g.nodes.Keys);
    assert IsSource(g, m);
    assert Fed(x, m);
    var p :| p in ExternalPorts(x, m);
    io := x[NodeInput(m, p)];
  }

  lemma Outputs(g: ExecGraph, x: InputData) returns (d: seq<IO>)
    requires Legal(g, x)
    ensures LongEnough(g, d)
  {
    hide Legal;
    if e :| e in g.edges {
      var io := SomeData(g, x, e);
      var n := PortBound(g, g.edges.Keys);
      d := seq(n, i => io);
    } else {
      d := [];
    }
  }

  // ---------------------------------------------------------------- the same values

  lemma ShapeEdgeInto(a: ExecGraph, b: ExecGraph, n: NodeId, p: PortId)
    requires SameShape(a, b) && Sound(a) && Sound(b) && OneLink(a) && p in PortsInto(a, n)
    ensures p in PortsInto(b, n) && EdgeInto(a, n, p) == EdgeInto(b, n, p)
  {
    ShapePorts(a, b);
    var e := EdgeInto(a, n, p);
    assert Enters(a, e, n) && TargetPort(a, e) == p;
    hide Sound, PortsInto, EdgeInto;
    LinksInto(b, n, p, e);
  }

  lemma InputAt(g: ExecGraph, val: Values, n: NodeId, p: PortId, e: EdgeId)
    requires Supplied(g, val, n) && p in PortsInto(g, n) && EdgeInto(g, n, p) == e
    ensures Has(g, val, e) && p in EdgeInputs(g, val, n) && EdgeInputs(g, val, n)[p] == val[g.edges[e].source][SourcePort(g, e)]
  {
    hide PortsInto, EdgeInto;
    assert Enters(g, e, n);
  }

  lemma InputPorts(g: ExecGraph, val: Values, n: NodeId)
    requires Supplied(g, val, n)
    ensures EdgeInputs(g, val, n).Keys == PortsInto(g, n)
  {
    hide PortsInto, EdgeInto;
  }

  lemma SameSourcePort(a: ExecGraph, b: ExecGraph, e: EdgeId)
    requires SameShape(a, b)
    ensures a.edges == b.edges && SourcePort(a, e) == SourcePort(b, e)
  {}

  lemma ShapeEdgeInputs(a: ExecGraph, b: ExecGraph, val: Values, n: NodeId)
    requires SameShape(a, b) && Sound(a) && Sound(b) && OneLink(a) && Supplied(a, val, n) && Supplied(b, val, n)
    ensures EdgeInputs(a, val, n) == EdgeInputs(b, val, n)
  {
    hide Sound, OneLink, PortsInto, EdgeInto, SameShape, SourcePort, Supplied, EdgeInputs, Has;
    ShapePorts(a, b);
    InputPorts(a, val, n);
    InputPorts(b, val, n);
    var u, v := EdgeInputs(a, val, n), EdgeInputs(b, val, n);
    forall p | p in u
      ensures p in v && u[p] == v[p]
    {
      ShapeEdgeInto(a, b, n, p);
      InputAt(a, val, n, p, EdgeInto(a, n, p));
      InputAt(b, val, n, p, EdgeInto(a, n, p));
      SameSourcePort(a, b, EdgeInto(a, n, p));
    }
  }

  lemma ShapeInputs(a: ExecGraph, b: ExecGraph, x: InputData, val: Values, n: NodeId)
    requires SameShape(a, b) && Sound(a) && Sound(b) && OneLink(a) && Supplied(a, val, n)
    ensures Supplied(b, val, n) && Inputs(a, x, val, n) == Inputs(b, x, val, n)
  {
    assert Supplied(b, val, n);
    hide Sound, OneLink, PortsInto, EdgeInputs, InPortOrder, ExternalInputs, SameShape;
    ShapeEdgeInputs(a, b, val, n);
  }

  lemma ShapeOutputs(a: ExecGraph, b: ExecGraph, val: Values)
    requires SameShape(a, b)
    ensures GraphOutputs(a, val) == GraphOutputs(b, val)
  {
    assert forall e :: SourcePort(a, e) == SourcePort(b, e);
    assert FreeOutputs(a, val) == FreeOutputs(b, val);
  }

  /** What a graph means, it means with stand-ins. */
  lemma TotalMeans(g: ExecGraph, x: InputData, val: Values, d: seq<IO>)
    requires IsValuation(g, x, val) && Sound(g) && Sound(Total(g, d)) && OneLink(g)
    ensures IsValuation(Total(g, d), x, val) && GraphOutputs(g, val) == GraphOutputs(Total(g, d), val)
  {
    hide Sound, OneLink, Inputs, Supplied, GraphOutputs;
    var t := Total(g, d);
    TotalShape(g, d);
    ShapeOutputs(g, t, val);
    forall n | n in t.nodes
      ensures EvaluatesTo(t, x, val, n)
    {
      assert EvaluatesTo(g, x, val, n);
      ShapeInputs(g, t, x, val, n);
    }
  }

  // ---------------------------------------------------------------- the same runs

  function TotalNet(net: Net, d: seq<IO>): Net {
    net.(queues := map c | c in net.queues :: TotalParts(net.queues[c], d))
  }

  lemma {:induction false} TotalQueue(parts: seq<Partition>, c: Color, done: set<nat>, k: nat, d: seq<IO>)
    requires k <= |parts|
    ensures Queue(TotalParts(parts, d), c, done, k) == TotalParts(Queue(parts, c, done, k), d)
  {
    hide Total;
    if k > 0 {
      TotalQueue(parts, c, done, k - 1, d);
      var before, last := Queue(parts, c, done, k - 1), if parts[k - 1].color == c && k - 1 !in done then [parts[k - 1]] else [];
      assert TotalParts(before + last, d) == TotalParts(before, d) + TotalParts(last, d);
    }
  }

  lemma TotalStart(parts: seq<Partition>, d: seq<IO>)
    ensures InitNet(TotalParts(parts, d)) == TotalNet(InitNet(parts), d)
  {
    hide Total, Queue;
    var all := TotalParts(parts, d);
    assert Colors(all) == Colors(parts);
    forall c | c in Colors(parts)
      ensures Queue(all, c, {}, |all|) == TotalParts(Queue(parts, c, {}, |parts|), d)
    {
      TotalQueue(parts, c, {}, |parts|, d);
    }
    hide TotalParts, Colors;
    assert InitNet(all).queues == TotalNet(InitNet(parts), d).queues;
  }

  lemma TotalDone(net: Net, d: seq<IO>)
    ensures AllDone(TotalNet(net, d)) <==> AllDone(net)
  {
    hide TotalPart;
    assert forall c :: c in net.queues ==> |TotalNet(net, d).queues[c]| == |net.queues[c]|;
  }

  /** What the stand-ins leave alone. */
  lemma TotalRest(p: Partition, d: seq<IO>, pending: map<Color, IO>, x: InputData, out: OutputData, list: seq<PartitionOutput>)
    ensures var t := TotalPart(p, d);
      && t.color == p.color && t.children == p.children && t.graph == Total(p.graph, d)
      && (HasAll(t, pending) <==> HasAll(p, pending)) && (Gathers(t, pending, x) <==> Gathers(p, pending, x))
      && PendingAfter(t, pending) == PendingAfter(p, pending)
      && (Delivers(t, out) <==> Delivers(p, out))
      && (Delivers(p, out) ==> (Announced(t, out, list) <==> Announced(p, out, list)))
  {
    hide Total;
    var t := TotalPart(p, d);
    assert forall c, i, io :: Brings(t, pending, c, i, io) <==> Brings(p, pending, c, i, io);
    if Delivers(p, out) {
      assert Sent(t, out) == Sent(p, out) && Finals(t, out) == Finals(p, out);
      forall colors, ports
        ensures Announces(t, out, list, colors, ports) <==> Announces(p, out, list, colors, ports)
      {}
    }
  }

  lemma TotalRuns(net: Net, next: Net, c: Color, x: InputData, r: Result<OutputData, ExecutionError>, list: seq<PartitionOutput>, d: seq<IO>)
    requires RunsWith(net, next, c, x, r, list)
    requires var g := net.queues[c][0].graph; Sound(g) && Sound(Total(g, d)) && OneLink(g)
    ensures RunsWith(TotalNet(net, d), TotalNet(next, d), c, x, r, list)
  {
    hide Total, TotalPart, Sound, OneLink, IsValuation, GraphOutputs, HasAll, Gathers, Delivers, Announced, PendingAfter, MessagesIn, FinalsIn;
    var p, t := net.queues[c][0], TotalNet(net, d);
    var val :| IsValuation(p.graph, x, val) && r.value == GraphOutputs(p.graph, val);
    TotalMeans(p.graph, x, val, d);
    TotalRest(p, d, net.pending[c], x, r.value, list);
    assert TotalParts(net.queues[c], d)[1..] == TotalParts(net.queues[c][1..], d);
    assert TotalNet(next, d).queues == AfterMessages(t, c, list).queues;
  }

  lemma TotalArrives(net: Net, next: Net, m: Message, d: seq<IO>)
    requires Arrives(net, next, m)
    ensures Arrives(TotalNet(net, d), TotalNet(next, d), m)
  {
    hide Total;
  }

  // ---------------------------------------------------------------- what has run did not fail

  ghost predicate Succeeds(pl: Plan, val: Values, n: NodeId) {
    && n in pl.g.nodes && Supplied(pl.g, val, n)
    && pl.g.nodes[n].run(Inputs(pl.g, AtPortZero(pl.inputs), val, n)).Some?
  }

  /** The net of the plan, against the plan with stand-ins and its meaning `val`. */
  ghost predicate Follows(pl: Plan, d: seq<IO>, val: Values, net: Net, done: set<nat>) {
    && InvQueues(pl, net, done) && (forall n :: Ran(pl, done, n) ==> Succeeds(pl, val, n))
    && NetInv(TotalPlan(pl, d), val, TotalNet(net, d), done)
  }

  ghost predicate Compared(pl: Plan, d: seq<IO>, val: Values) {
    WellCut(pl) && Meant(TotalPlan(pl, d), val)
  }

  /** Piece i before and after the stand-ins. */
  lemma BothPieces(pl: Plan, d: seq<IO>, val: Values, i: nat) returns (s: set<NodeId>, sub: ExecGraph)
    requires Compared(pl, d, val) && i < |pl.comps|
    ensures PieceOf(pl, i, s, sub) && PieceOf(TotalPlan(pl, d), i, s, Total(sub, d))
    ensures Sound(sub) && OneLink(sub) && Sound(Total(sub, d)) && OneLink(Total(sub, d))
  {
    hide WellCut, PieceOf, Total, Sound, OneLink, IsValuation;
    s, sub := PieceFacts(pl, i);
    var s2, sub2 := PieceFacts(TotalPlan(pl, d), i);
    PieceIs(pl, i, s, sub);
    PieceIs(TotalPlan(pl, d), i, s2, sub2);
    SubOfSound(pl, i, s, sub);
    SubOfSound(TotalPlan(pl, d), i, s2, sub2);
  }

  lemma SubOfSound(pl: Plan, i: nat, s: set<NodeId>, sub: ExecGraph)
    requires PieceOf(pl, i, s, sub)
    ensures Sound(sub) && OneLink(sub)
  {
    assert Sound(pl.g) && OneLink(pl.g) && sub == Sub(pl.g, s);
    SubSound(pl.g, s);
    SubParts(pl.g, s);
    hide Sub, Sound, PieceOf;
  }

  /** The valuation found when the piece ran is the meaning of the graph with stand-ins. */
  lemma PieceAgrees(pl: Plan, d: seq<IO>, val: Values, i: nat, s: set<NodeId>, sub: ExecGraph, x: InputData, w: Values)
    requires PieceOf(TotalPlan(pl, d), i, s, Total(sub, d)) && RightInputs(TotalPlan(pl, d), s, val, x)
    requires Sound(sub) && OneLink(sub) && Sound(Total(sub, d)) && IsValuation(sub, x, w)
    requires Meant(TotalPlan(pl, d), val)
    ensures w == OnPiece(val, s)
  {
    hide PieceOf, RightInputs, IsValuation, Total, Sound, OneLink, Legal, WellCut, TotalPlan;
    var tp := TotalPlan(pl, d);
    TotalMeans(sub, x, w, d);
    MeantLegal(tp, val);
    PieceLegalRight(tp, val, i, s, Total(sub, d), x);
    LegalParts(Total(sub, d), x);
    ValuationUnique(Total(sub, d), x, w, OnPiece(val, s));
  }

  lemma MeantLegal(pl: Plan, val: Values)
    requires Meant(pl, val)
    ensures Legal(pl.g, AtPortZero(pl.inputs)) && IsValuation(pl.g, AtPortZero(pl.inputs), val)
  {
    hide Legal, IsValuation, Partitioned, CutInto, LeavesAtSink, EntersAtSource, OneEdgePerColorPair;
  }

  lemma LegalParts(g: ExecGraph, x: InputData)
    requires Legal(g, x)
    ensures EndpointsExist(g) && IsDag(g)
  {
    hide IsDag, EnoughOutputs, NoParallelEdges, TargetPortsDistinct, Contiguous, OneLink;
  }

  lemma NodeSucceeds(pl: Plan, d: seq<IO>, val: Values, i: nat, s: set<NodeId>, sub: ExecGraph, x: InputData, n: NodeId)
    requires PieceOf(pl, i, s, sub) && PieceOf(TotalPlan(pl, d), i, s, Total(sub, d)) && n in sub.nodes
    requires Sound(sub) && OneLink(sub) && Sound(Total(sub, d)) && OneLink(Total(sub, d))
    requires Sound(pl.g) && OneLink(pl.g) && Sound(Total(pl.g, d)) && OneLink(Total(pl.g, d))
    requires EvaluatesTo(sub, x, OnPiece(val, s), n) && EvaluatesTo(Total(pl.g, d), AtPortZero(pl.inputs), val, n)
    requires RightInputs(TotalPlan(pl, d), s, val, x)
    ensures Succeeds(pl, val, n)
  {
    hide PieceOf, RightInputs, Total, Sound, OneLink, Inputs, Supplied, OnPiece, SameShape, AtPortZero;
    PieceNodes(pl, i, s, sub);
    var raw := AtPortZero(pl.inputs);
    TotalShape(sub, d);
    TotalShape(pl.g, d);
    ShapeInputs(sub, Total(sub, d), x, OnPiece(val, s), n);
    ShapeInputs(Total(pl.g, d), pl.g, raw, val, n);
    SameInputs(TotalPlan(pl, d), i, s, Total(sub, d), val, x, n);
  }

  /** Every node of a piece that has run has succeeded on its inputs. */
  lemma PieceSucceeds(pl: Plan, d: seq<IO>, val: Values, i: nat, x: InputData, w: Values)
    requires i < |pl.comps| && i < |pl.parts| && IsValuation(pl.parts[i].graph, x, w)
    requires RightInputs(TotalPlan(pl, d), SetOf(pl.comps[i]), val, x) && Compared(pl, d, val)
    ensures forall n :: n in SetOf(pl.comps[i]) && n in pl.g.nodes ==> Succeeds(pl, val, n)
  {
    hide PieceOf, RightInputs, Total, Sound, OneLink, WellCut, Meant, EvaluatesTo, Succeeds, OnPiece, AtPortZero;
    var s, sub := BothPieces(pl, d, val, i);
    PieceIs(pl, i, s, sub);
    PieceAgrees(pl, d, val, i, s, sub, x, w);
    PieceNodes(pl, i, s, sub);
    BothGraphs(pl, d, val);
    MeantLegal(TotalPlan(pl, d), val);
    forall n | n in s && n in pl.g.nodes
      ensures Succeeds(pl, val, n)
    {
      NodeSucceeds(pl, d, val, i, s, sub, x, n);
    }
  }

  lemma BothGraphs(pl: Plan, d: seq<IO>, val: Values)
    requires Compared(pl, d, val)
    ensures Sound(pl.g) && OneLink(pl.g) && Sound(Total(pl.g, d)) && OneLink(Total(pl.g, d)) && Total(pl.g, d).nodes.Keys == pl.g.nodes.Keys
  {
    hide Meant, WellCut;
    CutGraph(pl);
    assert WellCut(TotalPlan(pl, d)) by { MeantCut(TotalPlan(pl, d), val); }
    CutGraph(TotalPlan(pl, d));
  }

  lemma CutGraph(pl: Plan)
    requires WellCut(pl)
    ensures Sound(pl.g) && OneLink(pl.g)
  {
    hide IsDag, EnoughOutputs, Partitioned, CutInto, LeavesAtSink, EntersAtSource, OneEdgePerColorPair, TargetPortsDistinct, NoParallelEdges,
         EndpointsExist, Contiguous;
  }

  lemma OriginalHead(pl: Plan, net: Net, d: seq<IO>, done: set<nat>, c: Color, i: nat)
    requires InvQueues(pl, net, done) && FirstOf(TotalParts(pl.parts, d), c, done, i) && c in net.queues
    ensures FirstOf(pl.parts, c, done, i) && i < |pl.parts| && net.queues[c] != [] && net.queues[c][0] == pl.parts[i]
    ensures c in net.pending && pl.parts[i].color == c
  {
    assert FirstOf(pl.parts, c, done, i);
    QueueHead(pl.parts, c, done, i, |pl.parts|);
  }

  lemma RunFollows(pl: Plan, d: seq<IO>, val: Values, net: Net, next: Net, done: set<nat>, c: Color, x: InputData,
                   r: Result<OutputData, ExecutionError>, list: seq<PartitionOutput>) returns (after: set<nat>)
    requires RunsWith(net, next, c, x, r, list)
    requires Compared(pl, d, val) && Follows(pl, d, val, net, done)
    ensures Follows(pl, d, val, next, after)
  {
    hide WellCut, Meant, NetInv, InvQueues, Ran, Succeeds, Total, FirstOf, Sound, OneLink, Gathers, HasAll, Delivers, Announced,
         AfterMessages, RightInputs, IsValuation, GraphOutputs, PieceOf, TotalParts;
    var tp, tn := TotalPlan(pl, d), TotalNet(net, d);
    var j := HeadPiece(tp, val, tn, done, c);
    OriginalHead(pl, net, d, done, c, j);
    WellCutCovers(pl);
    var s, sub := BothPieces(pl, d, val, j);
    PieceIs(pl, j, s, sub);
    TotalRuns(net, next, c, x, r, list, d);
    var i := RunStepKeeps(tp, val, tn, TotalNet(next, d), done, c, x, r, list);
    OneFirst(tp.parts, c, done, i, j);
    after := done + {i};
    HeadRight(tp, val, tn, done, i, x);
    var w :| IsValuation(pl.parts[i].graph, x, w) && r.value == GraphOutputs(pl.parts[i].graph, w);
    PieceSucceeds(pl, d, val, i, x, w);
    MessagesAreRun(net, next, c, x, r, list);
    QueuesAfter(pl, net, done, i, r.value);
    RanSucceeds(pl, val, done, i);
  }

  lemma OneFirst(parts: seq<Partition>, c: Color, done: set<nat>, i: nat, j: nat)
    requires FirstOf(parts, c, done, i) && FirstOf(parts, c, done, j)
    ensures i == j
  {}

  lemma RanSucceeds(pl: Plan, val: Values, done: set<nat>, i: nat)
    requires WellCut(pl) && i < |pl.comps| && forall n :: Ran(pl, done, n) ==> Succeeds(pl, val, n)
    requires forall n :: n in SetOf(pl.comps[i]) && n in pl.g.nodes ==> Succeeds(pl, val, n)
    ensures forall n :: Ran(pl, done + {i}, n) ==> Succeeds(pl, val, n)
  {
    hide WellCut, Ran, Succeeds;
    PieceColors(pl, i);
    forall n | Ran(pl, done + {i}, n)
      ensures Succeeds(pl, val, n)
    {
      RanAfter(pl, done, i, SetOf(pl.comps[i]), n);
    }
  }

  lemma StepFollows(pl: Plan, d: seq<IO>, val: Values, net: Net, next: Net, done: set<nat>) returns (after: set<nat>)
    requires Compared(pl, d, val) && Follows(pl, d, val, net, done) && NetStep(net, next)
    ensures Follows(pl, d, val, next, after)
  {
    hide Compared, Follows, RunsWith, Arrives;
    if c, x, r, list :| RunsWith(net, next, c, x, r, list) {
      after := RunFollows(pl, d, val, net, next, done, c, x, r, list);
    } else {
      var m :| Arrives(net, next, m);
      after := done;
      ArrivalFollows(pl, d, val, net, next, done, m);
    }
  }

  lemma ArrivalFollows(pl: Plan, d: seq<IO>, val: Values, net: Net, next: Net, done: set<nat>, m: Message)
    requires Arrives(net, next, m) && Compared(pl, d, val) && Follows(pl, d, val, net, done)
    ensures Follows(pl, d, val, next, done)
  {
    hide WellCut, Meant, NetInv, Ran, Succeeds, TotalNet, TotalPlan, Queue, Colors;
    TotalArrives(net, next, m, d);
    ArrivalKeepsInv(TotalPlan(pl, d), val, TotalNet(net, d), TotalNet(next, d), done, m);
  }

  lemma {:induction false} FollowsAlong(pl: Plan, d: seq<IO>, val: Values, nets: seq<Net>, k: nat) returns (done: set<nat>)
    requires Compared(pl, d, val) && NetExecution(pl.parts, nets) && k < |nets|
    ensures Follows(pl, d, val, nets[k], done)
  {
    hide Compared, Follows, NetStep;
    if k == 0 {
      done := {};
      StartFollows(pl, d, val);
    } else {
      var before := FollowsAlong(pl, d, val, nets, k - 1);
      done := StepFollows(pl, d, val, nets[k - 1], nets[k], before);
    }
  }

  lemma StartFollows(pl: Plan, d: seq<IO>, val: Values)
    requires Compared(pl, d, val)
    ensures Follows(pl, d, val, InitNet(pl.parts), {})
  {
    hide WellCut, Meant, NetInv, Queue, Colors, TotalNet, Total;
    TotalStart(pl.parts, d);
    InitNetInv(TotalPlan(pl, d), val);
  }

  lemma AllSucceed(pl: Plan, d: seq<IO>, val: Values)
    requires IsValuation(Total(pl.g, d), AtPortZero(pl.inputs), val) && forall n :: n in pl.g.nodes ==> Succeeds(pl, val, n)
    requires Sound(pl.g) && OneLink(pl.g) && Sound(Total(pl.g, d)) && OneLink(Total(pl.g, d))
    ensures IsValuation(pl.g, AtPortZero(pl.inputs), val)
  {
    hide Sound, OneLink, Inputs, Supplied, AtPortZero;
    var t, raw := Total(pl.g, d), AtPortZero(pl.inputs);
    TotalShape(pl.g, d);
    forall n | n in pl.g.nodes
      ensures EvaluatesTo(pl.g, raw, val, n)
    {
      assert EvaluatesTo(t, raw, val, n) && Succeeds(pl, val, n);
      ShapeInputs(t, pl.g, raw, val, n);
    }
  }

  /** With stand-ins the graph has a meaning. */
  lemma StandInsMean(pl: Plan) returns (d: seq<IO>, val: Values)
    requires WellCut(pl)
    ensures Compared(pl, d, val) && IsValuation(Total(pl.g, d), AtPortZero(pl.inputs), val)
  {
    hide WellCut, Legal, IsDag, EnoughOutputs, NeverFails, LongEnough, IsValuation, Total;
    CutLegal(pl);
    d := Outputs(pl.g, AtPortZero(pl.inputs));
    TotalWellCut(pl, d);
    CutLegal(TotalPlan(pl, d));
    ValuationExists(Total(pl.g, d), AtPortZero(pl.inputs));
    val :| IsValuation(Total(pl.g, d), AtPortZero(pl.inputs), val);
  }

  lemma FinishedSucceeds(pl: Plan, d: seq<IO>, val: Values, nets: seq<Net>)
    requires Compared(pl, d, val) && NetExecution(pl.parts, nets) && AllDone(nets[|nets| - 1])
    ensures forall n :: n in pl.g.nodes ==> Succeeds(pl, val, n)
  {
    hide NetStep, AllDone, Follows, Compared, TotalNet, Succeeds;
    var done := FollowsAlong(pl, d, val, nets, |nets| - 1);
    TotalDone(nets[|nets| - 1], d);
    AllRanSucceed(pl, d, val, nets[|nets| - 1], done);
  }

  /** A run that empties all queues shows that the graph has a meaning: no operation fails on what it is given. */
  lemma FinishedHasMeaning(pl: Plan, nets: seq<Net>) returns (val: Values)
    requires WellCut(pl) && NetExecution(pl.parts, nets) && AllDone(nets[|nets| - 1])
    ensures IsValuation(pl.g, AtPortZero(pl.inputs), val)
  {
    hide WellCut, AllDone, IsValuation, Total, Sound, OneLink, Compared, Succeeds, AtPortZero, NetStep, InitNet;
    var d;
    d, val := StandInsMean(pl);
    FinishedSucceeds(pl, d, val, nets);
    BothGraphs(pl, d, val);
    AllSucceed(pl, d, val);
  }

  lemma CutLegal(pl: Plan)
    requires WellCut(pl)
    ensures Legal(pl.g, AtPortZero(pl.inputs)) && IsDag(pl.g) && EnoughOutputs(pl.g)
  {
    hide IsDag, EnoughOutputs, Partitioned, CutInto, LeavesAtSink, EntersAtSource, OneEdgePerColorPair, WellFormed, IsSource, Fed;
  }

  lemma AllRanSucceed(pl: Plan, d: seq<IO>, val: Values, net: Net, done: set<nat>)
    requires Compared(pl, d, val) && Follows(pl, d, val, net, done) && AllDone(TotalNet(net, d))
    ensures forall n :: n in pl.g.nodes ==> Succeeds(pl, val, n)
  {
    hide WellCut, Meant, NetInv, AllDone, Succeeds, Ran, TotalNet, Total, InvQueues;
    AllDoneMeans(TotalPlan(pl, d), val, TotalNet(net, d), done);
    forall n | n in pl.g.nodes
      ensures Succeeds(pl, val, n)
    {
      AllRan(pl, done, n);
    }
  }
}
