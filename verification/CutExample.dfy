/** Two small graphs. A node of one color feeding a node of another is cut as the distributed theorems assume. Two nodes
    of one color feeding a node of another are accepted too, but the last is run with an input missing. */
module CutExample {
  import opened Wrappers
  import opened Collections
  import opened PortGraph
  import opened DagOrder
  import opened Denotation
  import opened SchedulerState
  import opened Components
  import opened Subgraphs
  import opened Partitions
  import opened PartitionSchedulers
  import opened CutMeaning

  type Operation = seq<IO> -> Option<seq<IO>>

  ghost predicate Produces(f: Operation, n: nat) {
    forall ins :: f(ins).Some? ==> |f(ins).value| >= n
  }

  function TwoNodes(a: Color, b: Color, f: Operation, h: Operation): ExecGraph {
    Graph(map[0 := Colored(f, a), 1 := Colored(h, b)], map[0 := Edge(0, 1, [PortLink(0, 0)])])
  }

  function TwoPieces(a: Color, b: Color, f: Operation, h: Operation, v: IO): Plan {
    var g := TwoNodes(a, b, f, h);
    Plan(g, map[0 := v], [[0], [1]],
         [Partition(a, Sub(g, {0}), map[], map[0 := v], map[b := NodeOutput(0, 0)]),
          Partition(b, Sub(g, {1}), map[a := NodeInput(1, 0)], map[], map[])])
  }

  lemma Ports(g: ExecGraph)
    requires g.edges == map[0 := Edge(0, 1, [PortLink(0, 0)])]
    ensures PortsInto(g, 1) == {0} && forall n :: n != 1 ==> PortsInto(g, n) == {}
  {
    assert LinkAt(g, 0, 0, 1, 0);
  }

  lemma IsConsistent(g: ExecGraph)
    requires g.nodes.Keys == {0, 1} && g.edges == map[0 := Edge(0, 1, [PortLink(0, 0)])]
    ensures Consistent(g)
  {
    Ports(g);
    hide PortsInto;
    forall n
      ensures Contiguous(PortsInto(g, n))
    {}
  }

  lemma IsLegal(a: Color, b: Color, f: Operation, h: Operation, v: IO)
    requires Produces(f, 1)
    ensures Legal(TwoNodes(a, b, f, h), AtPortZero(map[0 := v]))
  {
    hide Consistent, IsDag, EnoughOutputs, OneLink, Fed, IsSource, TwoNodes, AtPortZero;
    NodesExist(a, b, f, h, v);
    IsExecutable(a, b, f, h);
    SourceFed(a, b, f, h, v);
  }

  lemma NodesExist(a: Color, b: Color, f: Operation, h: Operation, v: IO)
    ensures Consistent(TwoNodes(a, b, f, h)) && forall i :: i in AtPortZero(map[0 := v]) ==> i.node in TwoNodes(a, b, f, h).nodes
  {
    IsConsistent(TwoNodes(a, b, f, h));
    hide Consistent;
  }

  lemma IsExecutable(a: Color, b: Color, f: Operation, h: Operation)
    requires Produces(f, 1)
    ensures IsDag(TwoNodes(a, b, f, h)) && OneLink(TwoNodes(a, b, f, h)) && EnoughOutputs(TwoNodes(a, b, f, h))
  {
    assert Ranked(TwoNodes(a, b, f, h), map[0 := 0, 1 := 1]);
  }

  lemma SourceFed(a: Color, b: Color, f: Operation, h: Operation, v: IO)
    ensures forall n :: n in TwoNodes(a, b, f, h).nodes && IsSource(TwoNodes(a, b, f, h), n) ==> Fed(AtPortZero(map[0 := v]), n)
  {
    assert Enters(TwoNodes(a, b, f, h), 0, 1);
    assert NodeInput(0, 0) in AtPortZero(map[0 := v]);
    assert 0 in ExternalPorts(AtPortZero(map[0 := v]), 0);
  }

  lemma OneNodePieces(a: Color, b: Color, f: Operation, h: Operation, n: NodeId)
    requires a != b && (n == 0 || n == 1)
    ensures IsComponent(TwoNodes(a, b, f, h), [n])
  {
    var g := TwoNodes(a, b, f, h);
    assert forall m :: !Linked(g, n, m);
    assert Closed(g, {n});
    JoinedReflexive(g, n);
    hide Linked, Joined, Closed;
    forall m | Joined(g, n, m)
      ensures m in [n]
    {
      JoinedStays(g, {n}, n, m);
    }
  }

  lemma IsPartitioned(a: Color, b: Color, f: Operation, h: Operation)
    requires a != b
    ensures Partitioned(TwoNodes(a, b, f, h), [[0], [1]])
  {
    var g := TwoNodes(a, b, f, h);
    OneNodePieces(a, b, f, h, 0);
    OneNodePieces(a, b, f, h, 1);
    hide IsComponent;
    assert AllMembers([[0], [1]]) == {0, 1} by {
      assert [[0], [1]][0] == [0] && [[0], [1]][1] == [1];
    }
  }

  lemma FirstPiece(a: Color, b: Color, f: Operation, h: Operation, v: IO)
    ensures var pl := TwoPieces(a, b, f, h, v);
      PartitionFor(pl.g, pl.inputs, [0], pl.parts[0]) && Sinks(pl.parts[0].graph) == {0}
  {
    var g := TwoNodes(a, b, f, h);
    var sub := Sub(g, {0});
    assert SetOf([0]) == {0};
    assert sub.nodes.Keys == {0} && sub.edges == map[];
    assert Sinks(sub) == {0};
    assert LeavesTo(g, 0, 0, b);
    assert ParentsAre(g, 0, map[b := NodeOutput(0, 0)]);
    assert Within(map[0 := v], {0}) == map[0 := v];
  }

  lemma SecondPiece(a: Color, b: Color, f: Operation, h: Operation, v: IO)
    ensures var pl := TwoPieces(a, b, f, h, v);
      PartitionFor(pl.g, pl.inputs, [1], pl.parts[1]) && Sources(pl.parts[1].graph) == {1} && pl.parts[1].inputs == map[]
  {
    var g := TwoNodes(a, b, f, h);
    var sub := Sub(g, {1});
    assert SetOf([1]) == {1};
    assert sub.nodes.Keys == {1} && sub.edges == map[];
    assert Sinks(sub) == {1} && Sources(sub) == {1};
    assert Child(g, 1, 0, 0, a, NodeInput(1, 0));
    assert ChildrenAre(g, 1, map[a := NodeInput(1, 0)]);
    assert ParentsAre(g, 1, map[]);
    assert Within(map[0 := v], {1}) == map[];
  }

  /** The plan is well cut, whatever the operations and the data. */
  lemma TwoPiecesAreWellCut(a: Color, b: Color, f: Operation, h: Operation, v: IO)
    requires a != b && Produces(f, 1)
    ensures WellCut(TwoPieces(a, b, f, h, v))
  {
    hide Legal, Partitioned, PartitionFor, LeavesAtSink, EntersAtSource, OneEdgePerColorPair, TwoNodes, CutInto, AtPortZero, Sinks, Sources;
    IsLegal(a, b, f, h, v);
    IsPartitioned(a, b, f, h);
    FirstPiece(a, b, f, h, v);
    SecondPiece(a, b, f, h, v);
    OneCrossing(a, b, f, h, v);
    CutInTwo(TwoPieces(a, b, f, h, v));
  }

  lemma ZeroThenOne(a: Color, b: Color, f: Operation, h: Operation)
    ensures IsDagOrder(TwoNodes(a, b, f, h), true, [0, 1])
  {
    var g := TwoNodes(a, b, f, h);
    var order: seq<NodeId> := [0, 1];
    assert order[..0] == [] && order[..1] == [0];
    assert Rest(g, []) == {0, 1} && Rest(g, [0]) == {1} && Rest(g, order) == {};
    hide Rest;
    forall i | 0 <= i < 2
      ensures IsNext(g, true, Rest(g, order[..i]), order[i])
    {}
  }

  lemma InOrder()
    ensures var order: seq<NodeId>, comps: seq<seq<NodeId>> := [0, 1], [[0], [1]];
      Ordered(order, comps) && forall n :: n in order ==> n in AllMembers(comps)
  {
    var order: seq<NodeId>, comps: seq<seq<NodeId>> := [0, 1], [[0], [1]];
    assert comps[0] == [0] && comps[1] == [1];
    assert order[1..] == [1];
    assert Position([1], 1) == 0;
    assert Position(order, 0) == 0 && Position(order, 1) == 1;
  }

  lemma TwoQueues(a: Color, b: Color, f: Operation, h: Operation, v: IO)
    requires a != b
    ensures var parts := TwoPieces(a, b, f, h, v).parts; QueuesOf(parts, 2, map[a := [parts[0]], b := [parts[1]]])
  {
    var parts := TwoPieces(a, b, f, h, v).parts;
    assert parts[0].color == a && parts[1].color == b;
    assert Queue(parts, a, {}, 0) == [] && Queue(parts, b, {}, 0) == [];
    assert Queue(parts, a, {}, 1) == [parts[0]] && Queue(parts, b, {}, 1) == [];
  }

  /** `partition_by` accepts the graph, and this is its cut, by color. */
  lemma TwoPiecesAreTheCut(a: Color, b: Color, f: Operation, h: Operation, v: IO)
    requires a != b && Produces(f, 1)
    ensures Accepted(TwoNodes(a, b, f, h), map[0 := v], [[0], [1]])
    ensures var pl := TwoPieces(a, b, f, h, v);
      CutAs(pl.g, pl.inputs, map[a := [pl.parts[0]], b := [pl.parts[1]]], [0, 1], pl.comps, pl.parts) && WellCut(pl)
  {
    hide Legal, Accepted, AllComponents, AllMembers, Separate, CutInto, QueuesOf, Ordered, IsDagOrder, LeavesAtSink, EntersAtSource, OneEdgePerColorPair,
         TwoNodes, AtPortZero;
    TwoPiecesAccepted(a, b, f, h, v);
    TwoPiecesAreWellCut(a, b, f, h, v);
    ZeroThenOne(a, b, f, h);
    InOrder();
    TwoQueues(a, b, f, h, v);
  }

  lemma CutInTwo(pl: Plan)
    requires pl.comps == [[0], [1]] && |pl.parts| == 2
    requires PartitionFor(pl.g, pl.inputs, [0], pl.parts[0]) && PartitionFor(pl.g, pl.inputs, [1], pl.parts[1])
    ensures CutInto(pl.g, pl.inputs, pl.comps, pl.parts)
  {
    hide PartitionFor;
  }

  lemma OneCrossing(a: Color, b: Color, f: Operation, h: Operation, v: IO)
    requires a != b
    ensures var pl := TwoPieces(a, b, f, h, v); LeavesAtSink(pl) && EntersAtSource(pl) && OneEdgePerColorPair(pl.g)
  {
    var pl := TwoPieces(a, b, f, h, v);
    FirstPiece(a, b, f, h, v);
    SecondPiece(a, b, f, h, v);
    assert forall e :: Crossing(pl.g, e) ==> e == 0;
    hide Sinks, Sources, PartitionFor, Sub, Crossing;
  }

  lemma SingleFits(sub: ExecGraph, n: NodeId)
    requires sub.nodes.Keys == {n} && sub.edges == map[]
    ensures InIdOrder(sub) && Sinks(sub) == {n} && Sources(sub) == {n}
  {
    assert Sinks(sub) == {n} && Sources(sub) == {n};
  }

  /** `partition_by` accepts this graph. */
  lemma TwoPiecesAccepted(a: Color, b: Color, f: Operation, h: Operation, v: IO)
    requires a != b
    ensures Accepted(TwoNodes(a, b, f, h), map[0 := v], [[0], [1]])
  {
    var g := TwoNodes(a, b, f, h);
    assert Sinks(g) == {1} by {
      assert Leaves(g, 0, 0);
    }
    SenderFits(g, [0], 0, 0, 1, v, map[0 := v]);
    ReceiverFits(g, [1], 1, 0, map[0 := v]);
    hide PieceFits, Sinks;
  }

  /** A lone node with raw input and one edge to the sink, of another color, passes the checks. */
  lemma SenderFits(g: ExecGraph, comp: seq<NodeId>, n: NodeId, e: EdgeId, root: NodeId, v: IO, inputs: map<NodeId, IO>)
    requires comp == [n] && n in g.nodes && n in inputs && n != root && Leaves(g, e, n) && g.edges[e].target == root && root in g.nodes
    requires |g.edges[e].ports| == 1 && g.nodes[root].color != g.nodes[n].color
    requires forall d :: d in g.edges ==> g.edges[d].target != n && (g.edges[d].source == n ==> d == e)
    ensures PieceFits(g, inputs, comp, root)
  {
    var sub := Sub(g, SetOf(comp));
    assert SetOf(comp) == {n};
    assert sub.nodes.Keys == {n} && sub.edges == map[];
    SingleFits(sub, n);
    assert n in Within(inputs, SetOf(comp));
    hide Sub, InIdOrder, Sinks, Within;
    assert OneLinkOut(g, n) && OneEdgePerColor(g, n);
  }

  /** The sink, alone, without raw input and fed from another color, passes the checks. */
  lemma ReceiverFits(g: ExecGraph, comp: seq<NodeId>, n: NodeId, e: EdgeId, inputs: map<NodeId, IO>)
    requires comp == [n] && n in g.nodes && n !in inputs && Enters(g, e, n) && |g.edges[e].ports| == 1 && EndpointsExist(g)
    requires forall d :: d in g.edges ==> g.edges[d].source != n
    requires forall d :: Enters(g, d, n) ==> g.nodes[g.edges[d].source].color != g.nodes[n].color
    ensures PieceFits(g, inputs, comp, n)
  {
    var sub := Sub(g, SetOf(comp));
    assert SetOf(comp) == {n};
    assert sub.nodes.Keys == {n} && sub.edges == map[];
    SingleFits(sub, n);
    assert Within(inputs, SetOf(comp)) == map[];
    hide Sub, InIdOrder, Sinks, Sources, Within;
    assert OneLinkOut(g, n);
    var c := g.nodes[g.edges[e].source].color;
    assert Child(g, n, e, 0, c, NodeInput(n, g.edges[e].ports[0].targetPort));
  }

  // ---------------------------------------------------------------- two senders of one color

  /** Nodes 0 and 1 of color a feed ports 0 and 1 of node 2 of color b. */
  function ThreeNodes(a: Color, b: Color, f: Operation, h: Operation, k: Operation): ExecGraph {
    Graph(map[0 := Colored(f, a), 1 := Colored(h, a), 2 := Colored(k, b)],
          map[0 := Edge(0, 2, [PortLink(0, 0)]), 1 := Edge(1, 2, [PortLink(0, 1)])])
  }

  lemma ThreeSingles(a: Color, b: Color, f: Operation, h: Operation, k: Operation, n: NodeId)
    requires a != b && n in {0, 1, 2}
    ensures IsComponent(ThreeNodes(a, b, f, h, k), [n])
  {
    var g := ThreeNodes(a, b, f, h, k);
    assert forall m :: !Linked(g, n, m);
    assert Closed(g, {n});
    JoinedReflexive(g, n);
    hide Linked, Joined, Closed;
    forall m | Joined(g, n, m)
      ensures m in [n]
    {
      JoinedStays(g, {n}, n, m);
    }
  }

  lemma ThreePartitioned(a: Color, b: Color, f: Operation, h: Operation, k: Operation)
    requires a != b
    ensures Partitioned(ThreeNodes(a, b, f, h, k), [[0], [1], [2]])
  {
    ThreeSingles(a, b, f, h, k, 0);
    ThreeSingles(a, b, f, h, k, 1);
    ThreeSingles(a, b, f, h, k, 2);
    hide IsComponent;
    var comps: seq<seq<NodeId>> := [[0], [1], [2]];
    assert AllMembers(comps) == {0, 1, 2} by {
      assert comps[0] == [0] && comps[1] == [1] && comps[2] == [2];
    }
  }

  lemma ThreeAccepted(a: Color, b: Color, f: Operation, h: Operation, k: Operation, u: IO, v: IO)
    requires a != b
    ensures Accepted(ThreeNodes(a, b, f, h, k), map[0 := u, 1 := v], [[0], [1], [2]])
  {
    hide PieceFits, Sinks, ThreeNodes;
    ThreeSinks(a, b, f, h, k);
    ThreeSendersFit(a, b, f, h, k, u, v);
    ThreeReceiverFits(a, b, f, h, k, u, v);
    AcceptedAt(ThreeNodes(a, b, f, h, k), map[0 := u, 1 := v], [[0], [1], [2]], 2);
  }

  lemma ThreeSendersFit(a: Color, b: Color, f: Operation, h: Operation, k: Operation, u: IO, v: IO)
    requires a != b
    ensures PieceFits(ThreeNodes(a, b, f, h, k), map[0 := u, 1 := v], [0], 2)
    ensures PieceFits(ThreeNodes(a, b, f, h, k), map[0 := u, 1 := v], [1], 2)
  {
    hide PieceFits;
    SenderFits(ThreeNodes(a, b, f, h, k), [0], 0, 0, 2, u, map[0 := u, 1 := v]);
    SenderFits(ThreeNodes(a, b, f, h, k), [1], 1, 1, 2, v, map[0 := u, 1 := v]);
  }

  lemma ThreeReceiverFits(a: Color, b: Color, f: Operation, h: Operation, k: Operation, u: IO, v: IO)
    requires a != b
    ensures PieceFits(ThreeNodes(a, b, f, h, k), map[0 := u, 1 := v], [2], 2)
  {
    hide PieceFits;
    ReceiverFits(ThreeNodes(a, b, f, h, k), [2], 2, 0, map[0 := u, 1 := v]);
  }

  lemma ThreeSinks(a: Color, b: Color, f: Operation, h: Operation, k: Operation)
    ensures Sinks(ThreeNodes(a, b, f, h, k)) == {2}
  {
    var g := ThreeNodes(a, b, f, h, k);
    assert Leaves(g, 0, 0) && Leaves(g, 1, 1);
  }

  lemma ThreeConsistent(a: Color, b: Color, f: Operation, h: Operation, k: Operation)
    ensures Consistent(ThreeNodes(a, b, f, h, k))
  {
    var g := ThreeNodes(a, b, f, h, k);
    assert LinkAt(g, 0, 0, 2, 0) && LinkAt(g, 1, 0, 2, 1);
    assert PortsInto(g, 2) == {0, 1};
    assert forall n :: n != 2 ==> PortsInto(g, n) == {};
    hide PortsInto;
  }

  lemma ThreeExecutable(a: Color, b: Color, f: Operation, h: Operation, k: Operation)
    requires Produces(f, 1) && Produces(h, 1)
    ensures IsDag(ThreeNodes(a, b, f, h, k)) && OneLink(ThreeNodes(a, b, f, h, k)) && EnoughOutputs(ThreeNodes(a, b, f, h, k))
  {
    assert Ranked(ThreeNodes(a, b, f, h, k), map[0 := 0, 1 := 0, 2 := 1]);
  }

  lemma ThreeFed(a: Color, b: Color, f: Operation, h: Operation, k: Operation, u: IO, v: IO)
    ensures var g, x := ThreeNodes(a, b, f, h, k), AtPortZero(map[0 := u, 1 := v]);
      && (forall i :: i in x ==> i.node in g.nodes)
      && forall n :: n in g.nodes && IsSource(g, n) ==> Fed(x, n)
  {
    var g := ThreeNodes(a, b, f, h, k);
    assert Enters(g, 0, 2);
    assert forall n :: n in g.nodes && IsSource(g, n) ==> n == 0 || n == 1;
    hide IsSource, Fed;
    BothFed(u, v);
  }

  lemma BothFed(u: IO, v: IO)
    ensures Fed(AtPortZero(map[0 := u, 1 := v]), 0) && Fed(AtPortZero(map[0 := u, 1 := v]), 1)
  {
    var x := AtPortZero(map[0 := u, 1 := v]);
    assert NodeInput(0, 0) in x && NodeInput(1, 0) in x;
    assert 0 in ExternalPorts(x, 0) && 0 in ExternalPorts(x, 1);
  }

  /** The partition of node 2 knows one input for color a. */
  lemma OneChild(a: Color, b: Color, f: Operation, h: Operation, k: Operation, inputs: map<NodeId, IO>, p: Partition)
    requires 2 !in inputs && PartitionFor(ThreeNodes(a, b, f, h, k), inputs, [2], p)
    ensures !IsSourcePartition(p) && forall c :: c in p.children ==> c == a
  {
    var g := ThreeNodes(a, b, f, h, k);
    var sub := Sub(g, SetOf([2]));
    assert SetOf([2]) == {2};
    assert Within(inputs, {2}) == map[];
    var s :| Sources(sub) == {s} && ChildrenAre(g, s, p.children);
    forall c | c in p.children
      ensures c == a
    {
      var e, i :| Child(g, s, e, i, c, p.children[c]);
    }
  }

  lemma OneInput(a: Color, p: Partition, pending: map<Color, IO>, x: InputData)
    requires !IsSourcePartition(p) && (forall c :: c in p.children ==> c == a) && Gathers(p, pending, x)
    ensures NodeInput(2, 0) !in x || NodeInput(2, 1) !in x
  {
    forall i | i in x
      ensures a in p.children && i == p.children[a]
    {
      var c :| Brings(p, pending, c, i, x[i]);
    }
  }

  /** The graph is a legal execution, cut into its three nodes, and accepted; but whatever has arrived, the partition
      of node 2 is run without one of its two inputs. */
  lemma TwoSendersMissInput(a: Color, b: Color, f: Operation, h: Operation, k: Operation, u: IO, v: IO,
                            p: Partition, pending: map<Color, IO>, x: InputData)
    requires PartitionFor(ThreeNodes(a, b, f, h, k), map[0 := u, 1 := v], [2], p) && Gathers(p, pending, x)
    requires a != b && Produces(f, 1) && Produces(h, 1)
    ensures Legal(ThreeNodes(a, b, f, h, k), AtPortZero(map[0 := u, 1 := v]))
    ensures Partitioned(ThreeNodes(a, b, f, h, k), [[0], [1], [2]])
    ensures Accepted(ThreeNodes(a, b, f, h, k), map[0 := u, 1 := v], [[0], [1], [2]])
    ensures NodeInput(2, 0) !in x || NodeInput(2, 1) !in x
  {
    hide Partitioned, Accepted, PartitionFor, ThreeNodes, Gathers, Consistent, IsDag, OneLink, EnoughOutputs, Fed, IsSource, AtPortZero;
    ThreeConsistent(a, b, f, h, k);
    ThreeExecutable(a, b, f, h, k);
    ThreeFed(a, b, f, h, k, u, v);
    ThreePartitioned(a, b, f, h, k);
    ThreeAccepted(a, b, f, h, k, u, v);
    OneChild(a, b, f, h, k, map[0 := u, 1 := v], p);
    OneInput(a, p, pending, x);
  }
}
