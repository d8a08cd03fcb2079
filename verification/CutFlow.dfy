/** How values flow between partitions: what each sends and expects, and why its senders come first. */
module CutFlow {
  import opened Collections
  import opened PortGraph
  import opened DagOrder
  import opened Denotation
  import opened Components
  import opened Subgraphs
  import opened Partitions
  import opened PartitionSchedulers
  import opened CutMeaning

  // ---------------------------------------------------------------- what a piece sends

  ghost predicate LeavesPiece(g: ExecGraph, s: set<NodeId>, e: EdgeId) {
    Crossing(g, e) && g.edges[e].source in s
  }

  function OutputsOn(outputs: OutputData, s: set<NodeId>): OutputData {
    map o | o in outputs && o.node in s :: outputs[o]
  }

  /** The parents of a piece are the colors its crossing edges lead to, each with its edge's output. */
  ghost predicate SendsAlong(g: ExecGraph, s: set<NodeId>, parents: map<Color, NodeOutput>) {
    && (forall e :: LeavesPiece(g, s, e) ==>
          ToColor(g, e) in parents && parents[ToColor(g, e)] == NodeOutput(g.edges[e].source, SourcePort(g, e)))
    && forall c :: c in parents ==> LedTo(g, s, c)
  }

  ghost predicate LedTo(g: ExecGraph, s: set<NodeId>, c: Color) {
    exists e :: LeavesPiece(g, s, e) && ToColor(g, e) == c
  }

  lemma SinkKeepsNothing(sub: ExecGraph, t: NodeId, e: EdgeId)
    requires Sinks(sub) == {t}
    ensures !Leaves(sub, e, t)
  {
    assert t in Sinks(sub);
  }

  lemma LeavingIsParent(pl: Plan, i: nat, s: set<NodeId>, sub: ExecGraph, t: NodeId, parents: map<Color, NodeOutput>, e: EdgeId)
    requires PieceOf(pl, i, s, sub) && Sinks(sub) == {t} && ParentsAre(pl.g, t, parents) && LeavesPiece(pl.g, s, e)
    ensures ToColor(pl.g, e) in parents
         && parents[ToColor(pl.g, e)] == NodeOutput(pl.g.edges[e].source, SourcePort(pl.g, e))
  {
    assert pl.g.edges[e].source == t;
    assert OnlyLink(pl.g, e, pl.g.edges[e].ports[0]) by { assert OneLink(pl.g); }
    hide PieceOf, Sinks;
    assert LeavesTo(pl.g, t, e, ToColor(pl.g, e));
  }

  lemma ParentIsLeaving(pl: Plan, i: nat, s: set<NodeId>, sub: ExecGraph, t: NodeId, e: EdgeId, c: Color)
    requires PieceOf(pl, i, s, sub) && Sinks(sub) == {t} && LeavesTo(pl.g, t, e, c)
    ensures LedTo(pl.g, s, c)
  {
    PieceNodes(pl, i, s, sub);
    assert t in Sinks(sub);
    SinkKeepsNothing(sub, t, e);
    assert pl.g.edges[e].target !in s by { SubParts(pl.g, s); }
    hide Sound, OneLink, Sinks, Sources;
    assert LeavesPiece(pl.g, s, e) && ToColor(pl.g, e) == c;
  }

  lemma ParentsOfPiece(pl: Plan, i: nat, s: set<NodeId>, sub: ExecGraph)
    requires PieceOf(pl, i, s, sub) && PartitionFor(pl.g, pl.inputs, pl.comps[i], pl.parts[i])
    ensures SendsAlong(pl.g, s, pl.parts[i].parents)
  {
    var parents := pl.parts[i].parents;
    var t :| Sinks(sub) == {t} && ParentsAre(pl.g, t, parents);
    hide PieceOf, PartitionFor, Sinks, Crossing;
    forall e | LeavesPiece(pl.g, s, e)
      ensures ToColor(pl.g, e) in parents
           && parents[ToColor(pl.g, e)] == NodeOutput(pl.g.edges[e].source, SourcePort(pl.g, e))
    {
      LeavingIsParent(pl, i, s, sub, t, parents, e);
    }
    forall c | c in parents
      ensures LedTo(pl.g, s, c)
    {
      var e :| LeavesTo(pl.g, t, e, c);
      ParentIsLeaving(pl, i, s, sub, t, e, c);
    }
  }

  /** A port of the piece is used in the whole graph by an inner edge or by a crossing one. */
  lemma ConsumedOnPiece(pl: Plan, i: nat, s: set<NodeId>, sub: ExecGraph, n: NodeId, p: PortId)
    requires PieceOf(pl, i, s, sub) && n in s
    ensures Consumed(pl.g, n, p) <==>
      Consumed(sub, n, p) || exists e :: LeavesPiece(pl.g, s, e) && pl.g.edges[e].source == n && SourcePort(pl.g, e) == p
  {
    SubParts(pl.g, s);
    hide Sound, OneLink, Sub, Sources, Sinks;
    if Consumed(pl.g, n, p) {
      var e :| e in pl.g.edges && pl.g.edges[e].source == n && SourcePort(pl.g, e) == p;
      if Crossing(pl.g, e) {
        assert LeavesPiece(pl.g, s, e);
      } else {
        assert e in sub.edges && SourcePort(sub, e) == p;
      }
    }
    if Consumed(sub, n, p) {
      var e :| e in sub.edges && sub.edges[e].source == n && SourcePort(sub, e) == p;
      assert SourcePort(pl.g, e) == p;
    }
  }

  /** The values crossing edges carry are free outputs of the piece. */
  lemma SentAreFree(pl: Plan, i: nat, s: set<NodeId>, sub: ExecGraph, val: Values, e: EdgeId)
    requires PieceOf(pl, i, s, sub) && LeavesPiece(pl.g, s, e) && Has(pl.g, val, e)
    ensures var o := NodeOutput(pl.g.edges[e].source, SourcePort(pl.g, e));
      && o in GraphOutputs(sub, OnPiece(val, s)) && GraphOutputs(sub, OnPiece(val, s))[o] == EdgeValue(pl.g, val, e)
  {
    var n, p := pl.g.edges[e].source, SourcePort(pl.g, e);
    assert Sinks(sub) == {n};
    hide PieceOf, Sinks;
    assert !Consumed(sub, n, p) by {
      forall f | f in sub.edges
        ensures sub.edges[f].source != n
      {
        SinkKeepsNothing(sub, n, f);
      }
    }
  }

  lemma PieceDelivers(pl: Plan, i: nat, s: set<NodeId>, sub: ExecGraph, val: Values)
    requires PieceOf(pl, i, s, sub) && SendsAlong(pl.g, s, pl.parts[i].parents)
    requires forall e :: e in pl.g.edges ==> Has(pl.g, val, e)
    ensures Delivers(pl.parts[i], GraphOutputs(sub, OnPiece(val, s)))
    ensures forall e :: LeavesPiece(pl.g, s, e) ==>
      ToColor(pl.g, e) in pl.parts[i].parents
      && Sent(pl.parts[i], GraphOutputs(sub, OnPiece(val, s)))[ToColor(pl.g, e)] == EdgeValue(pl.g, val, e)
    ensures forall e, link :: LeavesPiece(pl.g, s, e) && OnlyLink(pl.g, e, link) ==>
      ToColor(pl.g, e) in pl.parts[i].parents
      && Carries(pl.g, val, e, link, Sent(pl.parts[i], GraphOutputs(sub, OnPiece(val, s)))[ToColor(pl.g, e)])
  {
    var out, parents := GraphOutputs(sub, OnPiece(val, s)), pl.parts[i].parents;
    hide PieceOf, GraphOutputs, OnPiece, Crossing, Has;
    forall c | c in parents
      ensures parents[c] in out
    {
      assert LedTo(pl.g, s, c);
      var e :| LeavesPiece(pl.g, s, e) && ToColor(pl.g, e) == c;
      SentAreFree(pl, i, s, sub, val, e);
    }
    forall e | LeavesPiece(pl.g, s, e)
      ensures parents[ToColor(pl.g, e)] in out && out[parents[ToColor(pl.g, e)]] == EdgeValue(pl.g, val, e)
    {
      SentAreFree(pl, i, s, sub, val, e);
    }
  }

  lemma FinalOutput(pl: Plan, i: nat, s: set<NodeId>, sub: ExecGraph, val: Values, o: NodeOutput)
    requires PieceOf(pl, i, s, sub) && SendsAlong(pl.g, s, pl.parts[i].parents)
    ensures o in Finals(pl.parts[i], GraphOutputs(sub, OnPiece(val, s)))
       <==> o in OutputsOn(GraphOutputs(pl.g, val), s)
  {
    var out, parents := GraphOutputs(sub, OnPiece(val, s)), pl.parts[i].parents;
    hide PieceOf, Crossing;
    if o.node in s {
      ConsumedOnPiece(pl, i, s, sub, o.node, o.port);
      if o in parents.Values {
        var c :| c in parents && parents[c] == o;
        assert LedTo(pl.g, s, c);
      }
      if e :| LeavesPiece(pl.g, s, e) && pl.g.edges[e].source == o.node && SourcePort(pl.g, e) == o.port {
        assert parents[ToColor(pl.g, e)] == o;
      }
    }
  }

  /** What a piece does not send to other colors are the outputs of the graph at its nodes. */
  lemma PieceFinals(pl: Plan, i: nat, s: set<NodeId>, sub: ExecGraph, val: Values)
    requires PieceOf(pl, i, s, sub) && SendsAlong(pl.g, s, pl.parts[i].parents)
    ensures Finals(pl.parts[i], GraphOutputs(sub, OnPiece(val, s))) == OutputsOn(GraphOutputs(pl.g, val), s)
  {
    var p := pl.parts[i];
    hide PieceOf, SendsAlong, Consumed, FreeOutputs;
    var a, b := Finals(p, GraphOutputs(sub, OnPiece(val, s))), OutputsOn(GraphOutputs(pl.g, val), s);
    forall o
      ensures o in a <==> o in b
    {
      FinalOutput(pl, i, s, sub, val, o);
    }
    OutputsAgree(pl.g, sub, p, val, s);
  }

  lemma OutputsAgree(g: ExecGraph, sub: ExecGraph, p: Partition, val: Values, s: set<NodeId>)
    ensures var a, b := Finals(p, GraphOutputs(sub, OnPiece(val, s))), OutputsOn(GraphOutputs(g, val), s);
      forall o :: o in a && o in b ==> a[o] == b[o]
  {
    hide Consumed;
  }

  // ---------------------------------------------------------------- what a piece expects

  /** The children of a piece are the colors its crossing edges come from, each with its edge's input. */
  ghost predicate ExpectsAlong(g: ExecGraph, s: set<NodeId>, children: map<Color, NodeInput>) {
    && (forall e :: EntersPiece(g, s, e) ==> FromColor(g, e) in children && children[FromColor(g, e)] == InputOf(g, e))
    && forall c :: c in children ==> ComesFrom(g, s, c)
  }

  ghost predicate ComesFrom(g: ExecGraph, s: set<NodeId>, c: Color) {
    exists e :: EntersPiece(g, s, e) && FromColor(g, e) == c
  }

  lemma ChildEdge(pl: Plan, i: nat, s: set<NodeId>, sub: ExecGraph, n: NodeId, e: EdgeId, k: nat, c: Color, at: NodeInput)
    requires PieceOf(pl, i, s, sub) && Sources(sub) == {n} && Child(pl.g, n, e, k, c, at)
    ensures EntersPiece(pl.g, s, e) && FromColor(pl.g, e) == c && at == InputOf(pl.g, e)
  {
    assert n in sub.nodes && n in s by { PieceNodes(pl, i, s, sub); assert n in Sources(sub); }
    assert IsSource(sub, n) by { assert n in Sources(sub); }
    assert !Inside(pl.g, s, e) by { SubParts(pl.g, s); }
    hide Sound, Sources, Sub;
    assert EndpointsExist(pl.g) by { assert Sound(pl.g); }
  }

  lemma ChildrenOfPiece(pl: Plan, i: nat, s: set<NodeId>, sub: ExecGraph)
    requires PieceOf(pl, i, s, sub) && PartitionFor(pl.g, pl.inputs, pl.comps[i], pl.parts[i]) && OneEdgePerColorPair(pl.g)
    ensures ExpectsAlong(pl.g, s, pl.parts[i].children)
    ensures IsSourcePartition(pl.parts[i]) <==> Within(pl.inputs, s) != map[]
  {
    if Within(pl.inputs, s) == map[] {
      var children := pl.parts[i].children;
      var n :| Sources(sub) == {n} && ChildrenAre(pl.g, n, children);
      hide PartitionFor;
      forall e | EntersPiece(pl.g, s, e)
        ensures FromColor(pl.g, e) in children && children[FromColor(pl.g, e)] == InputOf(pl.g, e)
      {
        EnteringChild(pl, i, s, sub, n, e);
      }
      hide PieceOf;
      forall c | c in children
        ensures ComesFrom(pl.g, s, c)
      {
        var e, k :| Child(pl.g, n, e, k, c, children[c]);
        ChildEdge(pl, i, s, sub, n, e, k, c, children[c]);
      }
    }
  }

  lemma EnteringChild(pl: Plan, i: nat, s: set<NodeId>, sub: ExecGraph, n: NodeId, e: EdgeId)
    requires PieceOf(pl, i, s, sub) && Sources(sub) == {n} && ChildrenAre(pl.g, n, pl.parts[i].children)
    requires OneEdgePerColorPair(pl.g) && EntersPiece(pl.g, s, e)
    ensures FromColor(pl.g, e) in pl.parts[i].children && pl.parts[i].children[FromColor(pl.g, e)] == InputOf(pl.g, e)
  {
    assert forall f :: EntersPiece(pl.g, s, f) ==> pl.g.edges[f].target == n;
    hide PieceOf, Sources, ChildrenAre;
    assert SendersDiffer(pl.g, s);
    GatheredIfAlone(pl, i, s, sub, n, e);
  }

  /** The pending values of the colors that feed the piece are those of its crossing edges. */
  ghost predicate Arrived(g: ExecGraph, s: set<NodeId>, val: Values, pending: map<Color, IO>) {
    forall e :: EntersPiece(g, s, e) ==>
      FromColor(g, e) in pending && Has(g, val, e) && pending[FromColor(g, e)] == EdgeValue(g, val, e)
  }

  lemma GathersRight(pl: Plan, i: nat, s: set<NodeId>, sub: ExecGraph, val: Values, pending: map<Color, IO>, x: InputData)
    requires PieceOf(pl, i, s, sub) && ExpectsAlong(pl.g, s, pl.parts[i].children) && Arrived(pl.g, s, val, pending)
    requires IsSourcePartition(pl.parts[i]) <==> Within(pl.inputs, s) != map[]
    requires Gathers(pl.parts[i], pending, x)
    ensures RightInputs(pl, s, val, x)
    ensures forall e, link :: EntersPiece(pl.g, s, e) && OnlyLink(pl.g, e, link) ==>
      NodeInput(pl.g.edges[e].target, link.targetPort) in x
      && Carries(pl.g, val, e, link, x[NodeInput(pl.g.edges[e].target, link.targetPort)])
  {
    GathersSupplied(pl, i, s, sub, val, pending, x);
    NothingEnters(pl, i, s, sub);
    hide PieceOf, Gathers, Within;
  }

  lemma NothingEnters(pl: Plan, i: nat, s: set<NodeId>, sub: ExecGraph)
    requires PieceOf(pl, i, s, sub)
    ensures Within(pl.inputs, s) != map[] ==> forall e :: !EntersPiece(pl.g, s, e)
  {
    hide Sound, OneLink, Within;
  }

  lemma GathersSupplied(pl: Plan, i: nat, s: set<NodeId>, sub: ExecGraph, val: Values, pending: map<Color, IO>, x: InputData)
    requires PieceOf(pl, i, s, sub) && ExpectsAlong(pl.g, s, pl.parts[i].children) && Arrived(pl.g, s, val, pending)
    requires IsSourcePartition(pl.parts[i]) <==> Within(pl.inputs, s) != map[]
    requires Gathers(pl.parts[i], pending, x)
    ensures RightInputs(pl, s, val, x)
  {
    if Within(pl.inputs, s) == map[] {
      var p := pl.parts[i];
      assert Sound(pl.g) && OneLink(pl.g);
      hide PieceOf, Crossing, Has, Sound, OneLink;
      forall j | j in x
        ensures FedBy(pl.g, s, j)
      {
        var c :| Brings(p, pending, c, j, x[j]);
        assert ComesFrom(pl.g, s, c);
      }
      forall e | EntersPiece(pl.g, s, e)
        ensures Supplies(pl.g, val, x, e)
      {
        assert p.children[FromColor(pl.g, e)] == InputOf(pl.g, e);
        var c :| Brings(p, pending, c, InputOf(pl.g, e), x[InputOf(pl.g, e)]);
        assert ComesFrom(pl.g, s, c);
        var f :| EntersPiece(pl.g, s, f) && FromColor(pl.g, f) == c;
        SameInputSameEdge(pl.g, e, f);
      }
    }
  }

  lemma SameInputSameEdge(g: ExecGraph, e: EdgeId, f: EdgeId)
    requires Sound(g) && OneLink(g) && e in g.edges && f in g.edges && InputOf(g, e) == InputOf(g, f)
    ensures e == f
  {
    var n, p := g.edges[e].target, TargetPort(g, e);
    LinksInto(g, n, p, e);
    LinksInto(g, n, p, f);
  }

  /** The crossing edges into a piece come from different colors. */
  ghost predicate SendersDiffer(g: ExecGraph, s: set<NodeId>) {
    forall e, f :: EntersPiece(g, s, e) && EntersPiece(g, s, f) && FromColor(g, e) == FromColor(g, f) ==> e == f
  }

  ghost predicate GathersAll(g: ExecGraph, s: set<NodeId>, x: InputData) {
    forall e :: EntersPiece(g, s, e) ==> InputOf(g, e) in x
  }

  /** Children are kept by color. So a piece accepted without raw inputs is given the value of every crossing edge
      into it if and only if those edges come from different colors; otherwise it is run with an input missing. */
  lemma GathersAllIff(pl: Plan, i: nat, s: set<NodeId>, sub: ExecGraph, n: NodeId, pending: map<Color, IO>, x: InputData)
    requires PieceOf(pl, i, s, sub) && Sources(sub) == {n} && ChildrenAre(pl.g, n, pl.parts[i].children)
    requires !IsSourcePartition(pl.parts[i]) && Gathers(pl.parts[i], pending, x)
    ensures GathersAll(pl.g, s, x) <==> SendersDiffer(pl.g, s)
  {
    var children := pl.parts[i].children;
    assert Sound(pl.g) && OneLink(pl.g);
    hide PieceOf, Sources, Sound, OneLink, Child, Crossing;
    if GathersAll(pl.g, s, x) {
      forall e | EntersPiece(pl.g, s, e)
        ensures FromColor(pl.g, e) in children && children[FromColor(pl.g, e)] == InputOf(pl.g, e)
      {
        GatheredByColor(pl, i, s, sub, n, pending, x, e);
      }
      forall e, f | EntersPiece(pl.g, s, e) && EntersPiece(pl.g, s, f) && FromColor(pl.g, e) == FromColor(pl.g, f)
        ensures e == f
      {
        SameInputSameEdge(pl.g, e, f);
      }
    }
    if SendersDiffer(pl.g, s) {
      forall e | EntersPiece(pl.g, s, e)
        ensures InputOf(pl.g, e) in x
      {
        GatheredIfAlone(pl, i, s, sub, n, e);
      }
    }
  }

  lemma GatheredByColor(pl: Plan, i: nat, s: set<NodeId>, sub: ExecGraph, n: NodeId, pending: map<Color, IO>, x: InputData, e: EdgeId)
    requires PieceOf(pl, i, s, sub) && Sources(sub) == {n} && ChildrenAre(pl.g, n, pl.parts[i].children)
    requires !IsSourcePartition(pl.parts[i]) && Gathers(pl.parts[i], pending, x)
    requires EntersPiece(pl.g, s, e) && InputOf(pl.g, e) in x
    ensures FromColor(pl.g, e) in pl.parts[i].children && pl.parts[i].children[FromColor(pl.g, e)] == InputOf(pl.g, e)
  {
    assert Sound(pl.g) && OneLink(pl.g);
    hide PieceOf, Sources, Sound, OneLink;
    var c :| Brings(pl.parts[i], pending, c, InputOf(pl.g, e), x[InputOf(pl.g, e)]);
    var f, k :| Child(pl.g, n, f, k, c, pl.parts[i].children[c]);
    ChildEdge(pl, i, s, sub, n, f, k, c, pl.parts[i].children[c]);
    SameInputSameEdge(pl.g, e, f);
  }

  lemma GatheredIfAlone(pl: Plan, i: nat, s: set<NodeId>, sub: ExecGraph, n: NodeId, e: EdgeId)
    requires PieceOf(pl, i, s, sub) && Sources(sub) == {n} && ChildrenAre(pl.g, n, pl.parts[i].children)
    requires SendersDiffer(pl.g, s) && EntersPiece(pl.g, s, e)
    ensures FromColor(pl.g, e) in pl.parts[i].children && pl.parts[i].children[FromColor(pl.g, e)] == InputOf(pl.g, e)
  {
    var c, children := FromColor(pl.g, e), pl.parts[i].children;
    assert pl.g.edges[e].target == n;
    assert Child(pl.g, n, e, 0, c, InputOf(pl.g, e));
    hide Sound, OneLink, PieceOf, Sources;
    var f, k :| Child(pl.g, n, f, k, c, children[c]);
    ChildEdge(pl, i, s, sub, n, f, k, c, children[c]);
  }

  /** The inputs a partition would gather from its pending values. */
  ghost function Gathered(p: Partition, pending: map<Color, IO>): (x: InputData)
    requires HasAll(p, pending)
    ensures Gathers(p, pending, x)
  {
    if IsSourcePartition(p) then AtPortZero(p.inputs)
    else
      var x := map i | i in p.children.Values :: pending[ColorOf(p, i)];
      assert forall i :: i in x ==> Brings(p, pending, ColorOf(p, i), i, x[i]);
      x
  }

  ghost function ColorOf(p: Partition, i: NodeInput): (c: Color)
    requires i in p.children.Values
    ensures c in p.children && p.children[c] == i
  {
    var c :| c in p.children && p.children[c] == i;
    c
  }

  // ---------------------------------------------------------------- senders come first

  lemma {:induction false} SourceLeads(pl: Plan, order: seq<NodeId>, j: nat, s: set<NodeId>, sub: ExecGraph, t: NodeId, n: NodeId)
    requires PieceOf(pl, j, s, sub) && Sources(sub) == {t}
    requires NoRepeats(order) && Topological(pl.g, true, order)
    requires n in s && n in sub.nodes && n in order
    ensures t in order && Position(order, t) <= Position(order, n)
    decreases if n in order then Position(order, n) else 0
  {
    if n != t {
      assert n !in Sources(sub);
      var e :| e in sub.edges && Enters(sub, e, n);
      SubParts(pl.g, s);
      var m, at := sub.edges[e].source, Position(order, n);
      assert m in order[..at];
      var k :| 0 <= k < at && order[k] == m;
      PositionOf(order, k);
      assert m in sub.nodes by { PieceNodes(pl, j, s, sub); }
      SourceLeads(pl, order, j, s, sub, t, m);
    }
  }

  ghost predicate HeadedBy(order: seq<NodeId>, comp: seq<NodeId>, n: NodeId) {
    comp != [] && comp[0] in order && n in order && Position(order, n) <= Position(order, comp[0])
  }

  /** A piece fed from elsewhere leads with the node that is fed. */
  lemma TargetLeads(pl: Plan, order: seq<NodeId>, e: EdgeId, j: nat)
    requires e in pl.g.edges && j < |pl.comps| && pl.g.edges[e].target in pl.comps[j]
    requires Crossing(pl.g, e) && WellCut(pl) && IsDagOrder(pl.g, true, order)
    ensures HeadedBy(order, pl.comps[j], pl.g.edges[e].target)
  {
    hide WellCut, IsDagOrder, Crossing, PieceOf, NoRepeats, Topological, Sources;
    var s, sub := PieceFacts(pl, j);
    AllOrdered(pl, order);
    TargetIsSource(pl, j, s, sub, e);
    PieceNodes(pl, j, s, sub);
    SourceLeads(pl, order, j, s, sub, pl.g.edges[e].target, pl.comps[j][0]);
  }

  /** The quotient graph is acyclic, in the order in which the pieces were found: a value goes from a piece
      to a later one. */
  lemma SendersFirst(pl: Plan, order: seq<NodeId>, e: EdgeId, i: nat, j: nat)
    requires e in pl.g.edges && i < |pl.comps| && j < |pl.comps|
    requires pl.g.edges[e].source in pl.comps[i] && pl.g.edges[e].target in pl.comps[j]
    requires Crossing(pl.g, e) && WellCut(pl) && IsDagOrder(pl.g, true, order) && Ordered(order, pl.comps)
    ensures i < j
  {
    hide WellCut, IsDagOrder, NoRepeats, Topological;
    var a := pl.g.edges[e].source;
    assert a in pl.g.nodes;
    AllOrdered(pl, order);
    TargetLeads(pl, order, e, j);
    EdgeClimbs(pl.g, order, e);
    assert j <= i ==> LeadsBefore(order, pl.comps[j], a);
  }

  lemma AllOrdered(pl: Plan, order: seq<NodeId>)
    requires WellCut(pl) && IsDagOrder(pl.g, true, order)
    ensures NoRepeats(order) && Topological(pl.g, true, order) && forall n :: n in pl.g.nodes ==> n in order
    ensures forall k :: 0 <= k < |pl.comps| ==> pl.comps[k] != [] && pl.comps[k][0] in pl.g.nodes
  {
    hide WellCut, EndpointsExist, IsDagOrder, IsDag, AllComponents, NoRepeats, Topological;
    WellCutGraph(pl);
    OrderIsTopological(pl.g, true, order);
    CoversIffDag(pl.g, true, order);
    assert forall n :: n in pl.g.nodes && n !in order ==> n in Rest(pl.g, order);
    NonEmpty(pl.g, pl.comps);
  }

  lemma WellCutGraph(pl: Plan)
    requires WellCut(pl)
    ensures EndpointsExist(pl.g) && IsDag(pl.g) && AllComponents(pl.g, pl.comps)
  {
    hide IsDag, AllComponents, TargetPortsDistinct, NoParallelEdges, EnoughOutputs, LeavesAtSink, EntersAtSource, OneEdgePerColorPair,
         CutInto, Separate;
  }

  lemma NonEmpty(g: ExecGraph, comps: seq<seq<NodeId>>)
    requires AllComponents(g, comps)
    ensures forall k :: 0 <= k < |comps| ==> comps[k] != [] && comps[k][0] in g.nodes
  {
    hide Joined;
  }

  lemma TargetIsSource(pl: Plan, j: nat, s: set<NodeId>, sub: ExecGraph, e: EdgeId)
    requires PieceOf(pl, j, s, sub) && Crossing(pl.g, e) && pl.g.edges[e].target in pl.comps[j]
    ensures Sources(sub) == {pl.g.edges[e].target} && (forall n :: n in s <==> n in pl.comps[j])
    ensures pl.g.edges[e].source in pl.g.nodes && pl.g.edges[e].target in pl.g.nodes
  {
    hide Sound, OneLink;
  }

  lemma EdgeClimbs(g: ExecGraph, order: seq<NodeId>, e: EdgeId)
    requires NoRepeats(order) && Topological(g, true, order) && e in g.edges
    requires g.edges[e].source in order && g.edges[e].target in order
    ensures Position(order, g.edges[e].source) < Position(order, g.edges[e].target)
  {
    var at := Position(order, g.edges[e].target);
    assert g.edges[e].source in order[..at];
    var k :| 0 <= k < at && order[k] == g.edges[e].source;
    PositionOf(order, k);
  }
}
