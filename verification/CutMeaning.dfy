/** What one partition computes, in terms of the meaning of the graph it was cut from. */
module CutMeaning {
  import opened Collections
  import opened PortGraph
  import opened DagOrder
  import opened Denotation
  import opened SchedulerState
  import opened Components
  import opened Subgraphs
  import opened Partitions
  import opened PartitionSchedulers

  /** A graph, its raw inputs, its components and their partitions. */
  datatype Plan = Plan(g: ExecGraph, inputs: map<NodeId, IO>, comps: seq<seq<NodeId>>, parts: seq<Partition>)

  /** An edge between nodes of two colors. */
  predicate Crossing(g: ExecGraph, e: EdgeId) {
    && e in g.edges && g.edges[e].source in g.nodes && g.edges[e].target in g.nodes
    && g.nodes[g.edges[e].source].color != g.nodes[g.edges[e].target].color
  }

  function FromColor(g: ExecGraph, e: EdgeId): Color
    requires Crossing(g, e)
  {
    g.nodes[g.edges[e].source].color
  }

  function ToColor(g: ExecGraph, e: EdgeId): Color
    requires Crossing(g, e)
  {
    g.nodes[g.edges[e].target].color
  }

  /** Values leave a partition at its only sink. */
  ghost predicate LeavesAtSink(pl: Plan) {
    forall e, i :: Crossing(pl.g, e) && 0 <= i < |pl.parts| && i < |pl.comps| && pl.g.edges[e].source in pl.comps[i] ==>
      Sinks(pl.parts[i].graph) == {pl.g.edges[e].source}
  }

  /** Values enter a partition at its only source, and only one without raw inputs. */
  ghost predicate EntersAtSource(pl: Plan) {
    forall e, i :: Crossing(pl.g, e) && 0 <= i < |pl.parts| && i < |pl.comps| && pl.g.edges[e].target in pl.comps[i] ==>
      pl.parts[i].inputs == map[] && Sources(pl.parts[i].graph) == {pl.g.edges[e].target}
  }

  /** At most one edge from one color to another. */
  ghost predicate OneEdgePerColorPair(g: ExecGraph) {
    forall e, f :: Crossing(g, e) && Crossing(g, f) && FromColor(g, e) == FromColor(g, f) && ToColor(g, e) == ToColor(g, f) ==>
      e == f
  }

  ghost predicate WellCut(pl: Plan) {
    && Legal(pl.g, AtPortZero(pl.inputs))
    && Partitioned(pl.g, pl.comps) && CutInto(pl.g, pl.inputs, pl.comps, pl.parts)
    && LeavesAtSink(pl) && EntersAtSource(pl) && OneEdgePerColorPair(pl.g)
  }

  ghost function Piece(pl: Plan, i: nat): set<NodeId>
    requires i < |pl.comps|
  {
    SetOf(pl.comps[i])
  }

  /** What the later proofs need of one piece, without the quantifiers of `WellCut`. */
  ghost predicate PieceOf(pl: Plan, i: nat, s: set<NodeId>, sub: ExecGraph) {
    && i < |pl.comps| && i < |pl.parts| && s == Piece(pl, i) && sub == pl.parts[i].graph && sub == Sub(pl.g, s)
    && pl.parts[i].inputs == Within(pl.inputs, s)
    && Sound(pl.g) && OneLink(pl.g)
    && (forall e :: e in pl.g.edges && pl.g.edges[e].target in s ==> (pl.g.edges[e].source in s <==> !Crossing(pl.g, e)))
    && (forall e :: e in pl.g.edges && pl.g.edges[e].source in s ==> (pl.g.edges[e].target in s <==> !Crossing(pl.g, e)))
    && (forall e :: Crossing(pl.g, e) && pl.g.edges[e].target in s ==>
          Within(pl.inputs, s) == map[] && Sources(sub) == {pl.g.edges[e].target})
    && (forall e :: Crossing(pl.g, e) && pl.g.edges[e].source in s ==> Sinks(sub) == {pl.g.edges[e].source})
  }

  lemma CutEdge(pl: Plan, i: nat, e: EdgeId)
    requires EndpointsExist(pl.g) && AllComponents(pl.g, pl.comps) && i < |pl.comps| && e in pl.g.edges
    ensures var a, b := pl.g.edges[e].source, pl.g.edges[e].target;
            && (b in pl.comps[i] ==> (a in pl.comps[i] <==> !Crossing(pl.g, e)))
            && (a in pl.comps[i] ==> (b in pl.comps[i] <==> !Crossing(pl.g, e)))
  {
    var a, b := pl.g.edges[e].source, pl.g.edges[e].target;
    hide AllComponents;
    if a in pl.comps[i] {
      OneColorEach(pl.g, pl.comps, i, a);
    }
    if b in pl.comps[i] {
      OneColorEach(pl.g, pl.comps, i, b);
    }
    if (a in pl.comps[i]) != (b in pl.comps[i]) {
      CutEdgesChangeColor(pl.g, pl.comps, e, i);
    }
  }

  lemma WellCutParts(pl: Plan, i: nat)
    requires WellCut(pl) && i < |pl.comps|
    ensures Sound(pl.g) && OneLink(pl.g) && EndpointsExist(pl.g) && AllComponents(pl.g, pl.comps)
    ensures i < |pl.parts| && PartitionFor(pl.g, pl.inputs, pl.comps[i], pl.parts[i])
    ensures LeavesAtSink(pl) && EntersAtSource(pl) && OneEdgePerColorPair(pl.g) && Partitioned(pl.g, pl.comps)
    ensures Legal(pl.g, AtPortZero(pl.inputs))
  {
    hide PartitionFor, AllComponents, LeavesAtSink, EntersAtSource, OneEdgePerColorPair;
  }

  lemma PieceFacts(pl: Plan, i: nat) returns (s: set<NodeId>, sub: ExecGraph)
    requires WellCut(pl) && i < |pl.comps|
    ensures PieceOf(pl, i, s, sub)
  {
    hide WellCut, PartitionFor, AllComponents, Sound, OneLink, EndpointsExist, Crossing, LeavesAtSink, EntersAtSource,
         OneEdgePerColorPair, Partitioned, Legal, Piece, Sub, Within, Sources, Sinks;
    WellCutParts(pl, i);
    s, sub := Piece(pl, i), pl.parts[i].graph;
    PartitionParts(pl, i);
    forall e | e in pl.g.edges
      ensures pl.g.edges[e].target in s ==> (pl.g.edges[e].source in s <==> !Crossing(pl.g, e))
      ensures pl.g.edges[e].source in s ==> (pl.g.edges[e].target in s <==> !Crossing(pl.g, e))
    {
      PieceMembers(pl, i);
      CutEdge(pl, i, e);
    }
    PieceCrossing(pl, i);
  }

  lemma PieceMembers(pl: Plan, i: nat)
    requires i < |pl.comps|
    ensures forall n :: n in Piece(pl, i) <==> n in pl.comps[i]
  {}

  lemma PieceCrossing(pl: Plan, i: nat)
    requires LeavesAtSink(pl) && EntersAtSource(pl) && i < |pl.comps| && i < |pl.parts|
    ensures var s, p := Piece(pl, i), pl.parts[i];
      && (forall e :: Crossing(pl.g, e) && pl.g.edges[e].target in s ==>
            p.inputs == map[] && Sources(p.graph) == {pl.g.edges[e].target})
      && (forall e :: Crossing(pl.g, e) && pl.g.edges[e].source in s ==> Sinks(p.graph) == {pl.g.edges[e].source})
  {
    hide Crossing, Sources, Sinks;
  }

  lemma PartitionParts(pl: Plan, i: nat)
    requires i < |pl.comps| && i < |pl.parts| && PartitionFor(pl.g, pl.inputs, pl.comps[i], pl.parts[i])
    ensures pl.parts[i].graph == Sub(pl.g, Piece(pl, i)) && pl.parts[i].inputs == Within(pl.inputs, Piece(pl, i))
    ensures pl.comps[i] != [] && pl.comps[i][0] in pl.g.nodes && pl.parts[i].color == pl.g.nodes[pl.comps[i][0]].color
  {}

  // ---------------------------------------------------------------- the piece is an execution graph

  lemma NoPorts(g: ExecGraph, n: NodeId)
    requires forall e :: !Enters(g, e, n)
    ensures PortsInto(g, n) == {} && Contiguous(PortsInto(g, n))
  {
    forall p
      ensures p !in PortsInto(g, n)
    {
      assert forall e, i :: LinkAt(g, e, i, n, p) ==> Enters(g, e, n);
    }
  }

  /** A node of the piece has all its predecessors inside, or none. */
  lemma InsideOrOutside(pl: Plan, i: nat, s: set<NodeId>, sub: ExecGraph, n: NodeId)
    requires PieceOf(pl, i, s, sub) && n in s
    ensures (exists e :: Enters(pl.g, e, n) && Crossing(pl.g, e)) ==>
              (forall e :: !Enters(sub, e, n)) && forall e :: Enters(pl.g, e, n) ==> Crossing(pl.g, e)
    ensures (forall e :: Enters(pl.g, e, n) ==> !Crossing(pl.g, e)) ==>
              (forall e :: Enters(sub, e, n) <==> Enters(pl.g, e, n)) && PortsInto(sub, n) == PortsInto(pl.g, n)
    ensures forall e :: Enters(sub, e, n) ==> Enters(pl.g, e, n) && sub.edges[e] == pl.g.edges[e] && pl.g.edges[e].source in s
  {
    hide Sound, OneLink, Crossing;
    assert forall e :: Enters(sub, e, n) <==> Enters(pl.g, e, n) && !Crossing(pl.g, e);
    if forall e :: Enters(pl.g, e, n) ==> !Crossing(pl.g, e) {
      SamePorts(sub, pl.g, n);
    } else {
      assert Sources(sub) == {n};
      assert IsSource(sub, n);
      assert forall e :: Enters(sub, e, n) ==> e in sub.edges;
    }
  }

  lemma PieceContiguous(pl: Plan, i: nat, s: set<NodeId>, sub: ExecGraph, n: NodeId)
    requires PieceOf(pl, i, s, sub) && Consistent(pl.g)
    ensures Contiguous(PortsInto(sub, n))
  {
    assert Contiguous(PortsInto(pl.g, n));
    hide Sound, OneLink, Consistent, Contiguous, Crossing;
    if n in s {
      InsideOrOutside(pl, i, s, sub, n);
      if forall e :: !Enters(sub, e, n) {
        NoPorts(sub, n);
      }
    } else {
      NoPorts(sub, n);
    }
  }

  lemma PieceWellFormed(pl: Plan, i: nat, s: set<NodeId>, sub: ExecGraph)
    requires PieceOf(pl, i, s, sub) && Consistent(pl.g) && IsDag(pl.g) && EnoughOutputs(pl.g)
    ensures WellFormed(sub) && IsDag(sub) && EnoughOutputs(sub)
  {
    SubSound(pl.g, s);
    assert OneLink(sub);
    assert EnoughOutputs(sub) by { PieceEnough(pl.g, s); }
    PieceDag(pl.g, s);
    forall n
      ensures Contiguous(PortsInto(sub, n))
    {
      PieceContiguous(pl, i, s, sub, n);
    }
    hide PieceOf, IsDag, EnoughOutputs, OneLink, Contiguous;
  }

  lemma PieceEnough(g: ExecGraph, s: set<NodeId>)
    requires EnoughOutputs(g)
    ensures EnoughOutputs(Sub(g, s))
  {
    var sub := Sub(g, s);
    forall e, ins | e in sub.edges && sub.edges[e].source in sub.nodes && sub.nodes[sub.edges[e].source].run(ins).Some?
      ensures SourcePort(sub, e) < |sub.nodes[sub.edges[e].source].run(ins).value|
    {
      assert g.nodes[g.edges[e].source].run(ins).Some?;
    }
  }

  lemma SubParts(g: ExecGraph, s: set<NodeId>)
    ensures var sub := Sub(g, s);
      && (forall n :: n in sub.nodes <==> n in g.nodes && n in s)
      && (forall n :: n in sub.nodes ==> sub.nodes[n] == g.nodes[n])
      && (forall e :: e in sub.edges <==> Inside(g, s, e))
      && (forall e :: e in sub.edges ==> e in g.edges && sub.edges[e] == g.edges[e])
  {}

  lemma SubRanked(g: ExecGraph, s: set<NodeId>, rank: map<NodeId, nat>)
    requires Ranked(g, rank)
    ensures Ranked(Sub(g, s), map n | n in rank && n in s :: rank[n])
  {
    SubParts(g, s);
    hide Sub;
    var ranked := map n | n in rank && n in s :: rank[n];
    assert ranked.Keys == Sub(g, s).nodes.Keys;
  }

  lemma PieceDag(g: ExecGraph, s: set<NodeId>)
    requires IsDag(g)
    ensures IsDag(Sub(g, s))
  {
    hide Ranked, Sub;
    var rank :| Ranked(g, rank);
    SubRanked(g, s, rank);
  }

  // ---------------------------------------------------------------- what a piece is run on

  /** Edge e has a value in val. */
  ghost predicate Has(g: ExecGraph, val: Values, e: EdgeId) {
    e in g.edges && g.edges[e].source in val && SourcePort(g, e) < |val[g.edges[e].source]|
  }

  lemma ValuationHas(g: ExecGraph, x: InputData, val: Values, e: EdgeId)
    requires IsValuation(g, x, val) && EndpointsExist(g) && e in g.edges
    ensures Has(g, val, e)
  {
    hide Inputs, EndpointsExist;
    SourceExists(g, e);
    assert EvaluatesTo(g, x, val, g.edges[e].target);
    assert Enters(g, e, g.edges[e].target);
  }

  ghost predicate EntersPiece(g: ExecGraph, s: set<NodeId>, e: EdgeId) {
    Crossing(g, e) && g.edges[e].target in s
  }

  /** The input that edge e feeds. */
  function InputOf(g: ExecGraph, e: EdgeId): NodeInput
    requires e in g.edges
  {
    NodeInput(g.edges[e].target, TargetPort(g, e))
  }

  /** Edge e supplies exactly its input in x with its value. */
  ghost predicate Supplies(g: ExecGraph, val: Values, x: InputData, e: EdgeId) {
    Has(g, val, e) && InputOf(g, e) in x && x[InputOf(g, e)] == EdgeValue(g, val, e)
  }

  ghost predicate FedBy(g: ExecGraph, s: set<NodeId>, i: NodeInput) {
    exists e :: EntersPiece(g, s, e) && i == InputOf(g, e)
  }

  /** The inputs of a piece: its raw inputs, or else the values of the crossing edges into it. */
  ghost predicate RightInputs(pl: Plan, s: set<NodeId>, val: Values, x: InputData) {
    if Within(pl.inputs, s) != map[] then x == AtPortZero(Within(pl.inputs, s))
    else
      && (forall i :: i in x ==> FedBy(pl.g, s, i))
      && forall e :: EntersPiece(pl.g, s, e) ==> Supplies(pl.g, val, x, e)
  }

  lemma RawIsFed(pl: Plan, n: NodeId)
    ensures Fed(AtPortZero(pl.inputs), n) <==> n in pl.inputs
  {
    var x := AtPortZero(pl.inputs);
    assert n in pl.inputs ==> NodeInput(n, 0) in x;
    assert forall p :: NodeInput(n, p) in x ==> n in pl.inputs;
    assert forall p :: p in ExternalPorts(x, n) ==> NodeInput(n, p) in x;
    assert NodeInput(n, 0) in x ==> 0 in ExternalPorts(x, n);
  }

  /** A source of the piece is fed. */
  lemma RightFeeds(pl: Plan, i: nat, s: set<NodeId>, sub: ExecGraph, val: Values, x: InputData, n: NodeId)
    requires PieceOf(pl, i, s, sub) && RightInputs(pl, s, val, x) && n in sub.nodes && IsSource(sub, n)
    requires IsSource(pl.g, n) ==> n in pl.inputs
    ensures Fed(x, n)
  {
    assert n in s;
    hide Sound, OneLink, Crossing;
    InsideOrOutside(pl, i, s, sub, n);
    if e :| Enters(pl.g, e, n) && Crossing(pl.g, e) {
      assert EntersPiece(pl.g, s, e);
      assert Supplies(pl.g, val, x, e);
      assert TargetPort(pl.g, e) in ExternalPorts(x, n);
    } else {
      NoEdgeMeansSource(pl.g, sub, n);
      assert n in Within(pl.inputs, s);
      assert NodeInput(n, 0) in x;
      assert 0 in ExternalPorts(x, n);
    }
  }

  lemma NoEdgeMeansSource(g: ExecGraph, sub: ExecGraph, n: NodeId)
    requires IsSource(sub, n) && forall e :: Enters(sub, e, n) <==> Enters(g, e, n)
    ensures IsSource(g, n)
  {
    assert forall e :: Enters(sub, e, n) ==> e in sub.edges;
  }

  lemma RightNodes(pl: Plan, i: nat, s: set<NodeId>, sub: ExecGraph, val: Values, x: InputData)
    requires PieceOf(pl, i, s, sub) && RightInputs(pl, s, val, x)
    requires forall n :: n in pl.inputs ==> n in pl.g.nodes
    ensures forall j :: j in x ==> j.node in sub.nodes
  {
    hide Sound, OneLink;
    SubParts(pl.g, s);
    forall j | j in x
      ensures j.node in sub.nodes
    {
      if Within(pl.inputs, s) == map[] {
        assert FedBy(pl.g, s, j);
      }
    }
  }

  /** A piece on its right inputs is a legal execution. */
  lemma PieceLegal(pl: Plan, i: nat, s: set<NodeId>, sub: ExecGraph, val: Values, x: InputData)
    requires PieceOf(pl, i, s, sub) && RightInputs(pl, s, val, x) && Legal(pl.g, AtPortZero(pl.inputs))
    ensures Legal(sub, x)
  {
    PieceWellFormed(pl, i, s, sub);
    RawNodes(pl);
    RightNodes(pl, i, s, sub, val, x);
    hide WellFormed, IsDag, EnoughOutputs, PieceOf, RightInputs, Fed, IsSource;
    forall n | n in sub.nodes && IsSource(sub, n)
      ensures Fed(x, n)
    {
      assert n in pl.g.nodes by { PieceNodes(pl, i, s, sub); }
      RightFeeds(pl, i, s, sub, val, x, n);
    }
  }

  lemma PieceNodes(pl: Plan, i: nat, s: set<NodeId>, sub: ExecGraph)
    requires PieceOf(pl, i, s, sub)
    ensures forall n :: n in sub.nodes <==> n in pl.g.nodes && n in s
    ensures forall n :: n in sub.nodes ==> sub.nodes[n] == pl.g.nodes[n]
  {
    SubParts(pl.g, s);
    hide Sub, Crossing, Sound, OneLink;
  }

  lemma RawNodes(pl: Plan)
    requires Legal(pl.g, AtPortZero(pl.inputs))
    ensures forall n :: n in pl.inputs ==> n in pl.g.nodes
    ensures forall n :: n in pl.g.nodes && IsSource(pl.g, n) ==> n in pl.inputs
  {
    hide WellFormed, IsDag, EnoughOutputs, Fed, IsSource;
    assert forall n :: n in pl.inputs ==> NodeInput(n, 0) in AtPortZero(pl.inputs);
    forall n | n in pl.g.nodes && IsSource(pl.g, n)
      ensures n in pl.inputs
    {
      RawIsFed(pl, n);
    }
  }

  // ---------------------------------------------------------------- the piece means what the graph means

  function OnPiece(val: Values, s: set<NodeId>): Values {
    map n | n in val && n in s :: val[n]
  }

  lemma LinksInto(g: ExecGraph, n: NodeId, p: PortId, e: EdgeId)
    requires Sound(g) && OneLink(g) && Enters(g, e, n) && TargetPort(g, e) == p
    ensures p in PortsInto(g, n) && EdgeInto(g, n, p) == e
  {
    assert LinkAt(g, e, 0, n, p);
    hide PortsInto, EndpointsExist, NoParallelEdges;
    assert p in PortsInto(g, n);
    var i: nat :| LinkAt(g, EdgeInto(g, n, p), i, n, p);
  }

  /** Inside a piece, the same edge feeds the same port. */
  lemma SameEdgeInto(pl: Plan, i: nat, s: set<NodeId>, sub: ExecGraph, n: NodeId, p: PortId)
    requires PieceOf(pl, i, s, sub) && n in s && p in PortsInto(sub, n) && OneLink(sub)
    ensures p in PortsInto(pl.g, n) && EdgeInto(sub, n, p) == EdgeInto(pl.g, n, p)
    ensures Enters(sub, EdgeInto(sub, n, p), n)
  {
    InsideOrOutside(pl, i, s, sub, n);
    var e := EdgeInto(sub, n, p);
    assert Enters(sub, e, n) && TargetPort(sub, e) == p;
    assert Enters(pl.g, e, n) && TargetPort(pl.g, e) == p;
    hide Crossing, PortsInto, EdgeInto, Sound;
    LinksInto(pl.g, n, p, e);
  }

  lemma InnerSupplied(pl: Plan, i: nat, s: set<NodeId>, sub: ExecGraph, val: Values, n: NodeId)
    requires PieceOf(pl, i, s, sub) && n in s && Supplied(pl.g, val, n)
    ensures Supplied(sub, OnPiece(val, s), n)
  {
    InsideOrOutside(pl, i, s, sub, n);
    hide Crossing, Sound, PortsInto, PieceOf;
    forall e | Enters(sub, e, n)
      ensures sub.edges[e].source in OnPiece(val, s) && SourcePort(sub, e) < |OnPiece(val, s)[sub.edges[e].source]|
    {
      assert Enters(pl.g, e, n);
    }
  }

  lemma SameEdgeValue(g: ExecGraph, s: set<NodeId>, sub: ExecGraph, val: Values, e: EdgeId)
    requires sub == Sub(g, s) && e in sub.edges && Has(g, val, e)
    ensures Has(sub, OnPiece(val, s), e) && EdgeValue(sub, OnPiece(val, s), e) == EdgeValue(g, val, e)
  {
    SubParts(g, s);
    hide Sub;
  }

  lemma PieceIsSub(pl: Plan, i: nat, s: set<NodeId>, sub: ExecGraph)
    requires PieceOf(pl, i, s, sub)
    ensures sub == Sub(pl.g, s)
  {}

  lemma InnerEdgeInputs(pl: Plan, i: nat, s: set<NodeId>, sub: ExecGraph, val: Values, n: NodeId)
    requires Supplied(sub, OnPiece(val, s), n) && Supplied(pl.g, val, n)
    requires PieceOf(pl, i, s, sub) && n in s && OneLink(sub) && forall e :: Enters(pl.g, e, n) ==> !Crossing(pl.g, e)
    ensures EdgeInputs(sub, OnPiece(val, s), n) == EdgeInputs(pl.g, val, n)
  {
    hide Crossing, PieceOf, PortsInto, EdgeInto, OnPiece, OneLink, EdgeValue, Sub;
    PieceIsSub(pl, i, s, sub);
    InsideOrOutside(pl, i, s, sub, n);
    var a, b := EdgeInputs(sub, OnPiece(val, s), n), EdgeInputs(pl.g, val, n);
    assert a.Keys == b.Keys;
    forall p | p in a
      ensures a[p] == b[p]
    {
      SameEdgeInto(pl, i, s, sub, n, p);
      SameEdgeValue(pl.g, s, sub, val, EdgeInto(pl.g, n, p));
    }
  }

  lemma InnerExternal(pl: Plan, i: nat, s: set<NodeId>, sub: ExecGraph, val: Values, x: InputData, n: NodeId)
    requires PieceOf(pl, i, s, sub) && RightInputs(pl, s, val, x) && n in s
    requires forall e :: Enters(pl.g, e, n) ==> !Crossing(pl.g, e)
    ensures ExternalInputs(x, n) == ExternalInputs(AtPortZero(pl.inputs), n)
  {
    hide Crossing, Sound, OneLink;
    var raw := AtPortZero(pl.inputs);
    forall p
      ensures NodeInput(n, p) in x <==> NodeInput(n, p) in raw
      ensures NodeInput(n, p) in x ==> x[NodeInput(n, p)] == raw[NodeInput(n, p)]
    {
      if Within(pl.inputs, s) == map[] {
        assert n !in pl.inputs by { assert n !in Within(pl.inputs, s); }
        assert NodeInput(n, p) in x ==> FedBy(pl.g, s, NodeInput(n, p));
      }
    }
    hide AtPortZero;
    assert ExternalPorts(x, n) == ExternalPorts(raw, n);
  }

  /** A node fed from other colors gets from its messages what its edges carry in the whole graph. */
  lemma OuterInputs(pl: Plan, i: nat, s: set<NodeId>, sub: ExecGraph, val: Values, x: InputData, n: NodeId)
    requires PieceOf(pl, i, s, sub) && RightInputs(pl, s, val, x) && n in s && Supplied(pl.g, val, n)
    requires exists e :: Enters(pl.g, e, n) && Crossing(pl.g, e)
    ensures forall e :: !Enters(sub, e, n)
    ensures ExternalInputs(x, n) == EdgeInputs(pl.g, val, n)
    ensures ExternalInputs(AtPortZero(pl.inputs), n) == map[]
  {
    InsideOrOutside(pl, i, s, sub, n);
    assert Within(pl.inputs, s) == map[];
    assert n !in pl.inputs by { assert n !in Within(pl.inputs, s); }
    NothingRaw(pl, n);
    hide Sound, OneLink;
    forall j | j in x && j.node == n
      ensures exists e :: Enters(pl.g, e, n) && TargetPort(pl.g, e) == j.port
    {
      assert FedBy(pl.g, s, j);
    }
    forall e | Enters(pl.g, e, n)
      ensures Supplies(pl.g, val, x, e)
    {
      assert EntersPiece(pl.g, s, e);
    }
    MessagesAreEdges(pl.g, val, x, n);
  }

  lemma NothingRaw(pl: Plan, n: NodeId)
    requires n !in pl.inputs
    ensures ExternalInputs(AtPortZero(pl.inputs), n) == map[]
  {
    assert ExternalPorts(AtPortZero(pl.inputs), n) == {};
  }

  lemma MessagesAreEdges(g: ExecGraph, val: Values, x: InputData, n: NodeId)
    requires Sound(g) && OneLink(g) && Supplied(g, val, n)
    requires forall j :: j in x && j.node == n ==> exists e :: Enters(g, e, n) && TargetPort(g, e) == j.port
    requires forall e :: Enters(g, e, n) ==> Supplies(g, val, x, e)
    ensures ExternalInputs(x, n) == EdgeInputs(g, val, n)
  {
    hide Sound, OneLink, PortsInto, EdgeInto, TargetPort;
    var a, b := ExternalInputs(x, n), EdgeInputs(g, val, n);
    forall p | p in a
      ensures p in b
    {
      assert NodeInput(n, p) in x;
      var e :| Enters(g, e, n) && TargetPort(g, e) == p;
      LinksInto(g, n, p, e);
    }
    forall p | p in b
      ensures p in a && a[p] == b[p]
    {
      var e := EdgeInto(g, n, p);
      assert Supplies(g, val, x, e);
      assert InputOf(g, e) == NodeInput(n, p);
    }
  }

  lemma SameInputs(pl: Plan, i: nat, s: set<NodeId>, sub: ExecGraph, val: Values, x: InputData, n: NodeId)
    requires Supplied(sub, OnPiece(val, s), n) && Supplied(pl.g, val, n)
    requires PieceOf(pl, i, s, sub) && OneLink(sub) && RightInputs(pl, s, val, x) && n in s
    ensures Inputs(sub, x, OnPiece(val, s), n) == Inputs(pl.g, AtPortZero(pl.inputs), val, n)
  {
    hide PieceOf, RightInputs, Crossing, EdgeInputs, ExternalInputs, InPortOrder, OneLink, AtPortZero, Supplied, Enters, OnPiece;
    var raw := AtPortZero(pl.inputs);
    if exists e :: Enters(pl.g, e, n) && Crossing(pl.g, e) {
      OuterInputs(pl, i, s, sub, val, x, n);
      NoEdgeInputs(sub, OnPiece(val, s), n);
      PlusNothing(ExternalInputs(x, n));
    } else {
      InnerEdgeInputs(pl, i, s, sub, val, n);
      InnerExternal(pl, i, s, sub, val, x, n);
    }
  }

  lemma PlusNothing(m: map<PortId, IO>)
    ensures map[] + m == m == m + map[]
  {}

  lemma NoEdgeInputs(g: ExecGraph, val: Values, n: NodeId)
    requires (forall e :: !Enters(g, e, n)) && Supplied(g, val, n)
    ensures EdgeInputs(g, val, n) == map[]
  {
    NoPorts(g, n);
  }

  /** The meaning of the graph, restricted to the piece, is the meaning of the piece on its right inputs. */
  lemma PieceMeaning(pl: Plan, i: nat, s: set<NodeId>, sub: ExecGraph, val: Values, x: InputData)
    requires PieceOf(pl, i, s, sub) && OneLink(sub) && RightInputs(pl, s, val, x)
    requires IsValuation(pl.g, AtPortZero(pl.inputs), val)
    ensures IsValuation(sub, x, OnPiece(val, s))
  {
    hide PieceOf, RightInputs, Inputs, Supplied, AtPortZero, OneLink, EvaluatesTo;
    PieceNodes(pl, i, s, sub);
    forall n | n in sub.nodes
      ensures EvaluatesTo(sub, x, OnPiece(val, s), n)
    {
      assert EvaluatesTo(pl.g, AtPortZero(pl.inputs), val, n);
      NodeMeaning(pl, i, s, sub, val, x, n);
    }
  }

  lemma NodeMeaning(pl: Plan, i: nat, s: set<NodeId>, sub: ExecGraph, val: Values, x: InputData, n: NodeId)
    requires PieceOf(pl, i, s, sub) && OneLink(sub) && RightInputs(pl, s, val, x) && n in sub.nodes
    requires EvaluatesTo(pl.g, AtPortZero(pl.inputs), val, n)
    ensures EvaluatesTo(sub, x, OnPiece(val, s), n)
  {
    hide PieceOf, RightInputs, Inputs, Supplied, AtPortZero, OneLink;
    PieceNodes(pl, i, s, sub);
    InnerSupplied(pl, i, s, sub, val, n);
    SameInputs(pl, i, s, sub, val, x, n);
  }
}
