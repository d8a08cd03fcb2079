/** The graph of one partition, as `partition_by` builds it edge by edge. */
module Subgraphs {
  import opened Wrappers
  import opened Collections
  import opened PortGraph
  import opened DagOrder
  import opened Denotation

  predicate Inside(g: ExecGraph, s: set<NodeId>, e: EdgeId) {
    e in g.edges && g.edges[e].source in s && g.edges[e].target in s
  }

  /** The nodes of s and every edge between them. */
  function Sub(g: ExecGraph, s: set<NodeId>): ExecGraph {
    Graph(map n | n in g.nodes && n in s :: g.nodes[n], map e | e in g.edges && Inside(g, s, e) :: g.edges[e])
  }

  /** Only the edges of h. */
  function Keep(g: ExecGraph, h: set<EdgeId>): ExecGraph {
    Graph(g.nodes, map e | e in g.edges && e in h :: g.edges[e])
  }

  function UpTo(g: ExecGraph, e: EdgeId): ExecGraph {
    Graph(g.nodes, map f | f in g.edges && f <= e :: g.edges[f])
  }

  /** The edges into the target of e numbered up to e leave no gap in its ports. */
  ghost predicate Fits(g: ExecGraph, e: EdgeId) {
    e in g.edges && Contiguous(PortsInto(UpTo(g, e), g.edges[e].target))
  }

  /** Adding the edges by number passes the port checks at every step. */
  ghost predicate InIdOrder(g: ExecGraph) {
    forall e :: e in g.edges ==> Fits(g, e)
  }

  /** A graph grown by accepted edges with increasing numbers can be rebuilt in that order. */
  lemma GrowsInOrder(g: ExecGraph, id: EdgeId, edge: Edge)
    requires Consistent(g) && InIdOrder(g) && (forall e :: e in g.edges ==> e < id)
    requires AddEdge(g, id, edge).Ok?
    ensures InIdOrder(With(g, id, edge))
  {
    var h := With(g, id, edge);
    AddEdgeExact(g, id, edge);
    hide AddEdge, Contiguous, PortsInto, EndpointsExist, NoParallelEdges, TargetPortsDistinct;
    assert UpTo(h, id) == h;
    assert Contiguous(PortsInto(h, edge.target));
    forall e | e in g.edges
      ensures Fits(h, e)
    {
      assert Fits(g, e);
      assert UpTo(h, e) == UpTo(g, e);
    }
  }

  /** Everything but gap-freeness passes to smaller graphs. */
  ghost predicate Sound(g: ExecGraph) {
    EndpointsExist(g) && NoParallelEdges(g) && TargetPortsDistinct(g)
  }

  lemma KeepSound(g: ExecGraph, h: set<EdgeId>)
    requires Sound(g)
    ensures Sound(Keep(g, h))
  {
    var k := Keep(g, h);
    assert forall e, i: nat, n, p :: LinkAt(k, e, i, n, p) ==> LinkAt(g, e, i, n, p);
    hide LinkAt;
  }

  lemma SubSound(g: ExecGraph, s: set<NodeId>)
    requires Sound(g)
    ensures Sound(Sub(g, s))
  {
    var k := Sub(g, s);
    assert forall e, i: nat, n, p :: LinkAt(k, e, i, n, p) ==> LinkAt(g, e, i, n, p);
    hide LinkAt;
  }

  lemma SamePorts(a: ExecGraph, b: ExecGraph, n: NodeId)
    requires forall e :: Enters(a, e, n) <==> Enters(b, e, n)
    requires forall e :: Enters(a, e, n) && Enters(b, e, n) ==> a.edges[e] == b.edges[e]
    ensures PortsInto(a, n) == PortsInto(b, n)
  {
    forall e, i: nat, p
      ensures LinkAt(a, e, i, n, p) <==> LinkAt(b, e, i, n, p)
    {
      assert Enters(a, e, n) <==> Enters(b, e, n);
    }
    hide LinkAt, Enters;
    forall p
      ensures p in PortsInto(a, n) <==> p in PortsInto(b, n)
    {}
  }

  /** Before e exactly the smaller edges into its target have been added. */
  ghost predicate ReadyFor(g: ExecGraph, h: set<EdgeId>, e: EdgeId) {
    e in g.edges && e !in h
    && forall f :: f in g.edges && g.edges[f].target == g.edges[e].target ==> (f in h <==> f < e)
  }

  /** The next edge is accepted exactly when it fits. */
  lemma AcceptedIffFits(g: ExecGraph, h: set<EdgeId>, e: EdgeId)
    requires Sound(g) && Consistent(Keep(g, h)) && ReadyFor(g, h, e)
    ensures AddEdge(Keep(g, h), e, g.edges[e]).Ok? <==> Fits(g, e)
    ensures AddEdge(Keep(g, h), e, g.edges[e]).Ok? ==>
      AddEdge(Keep(g, h), e, g.edges[e]).value == Keep(g, h + {e}) && Consistent(Keep(g, h + {e}))
  {
    var k, after, n := Keep(g, h), Keep(g, h + {e}), g.edges[e].target;
    assert With(k, e, g.edges[e]) == after;
    assert e !in k.edges;
    AddEdgeExact(k, e, g.edges[e]);
    KeepSound(g, h + {e});
    PortsAfter(g, h, e);
    hide AddEdge, EndpointsExist, NoParallelEdges, TargetPortsDistinct, Contiguous, PortsInto, With, Keep, UpTo;
    assert forall m :: m != n ==> PortsInto(after, m) == PortsInto(k, m);
    assert PortsInto(after, n) == PortsInto(UpTo(g, e), n);
    assert forall m {:trigger PortsInto(k, m)} :: Contiguous(PortsInto(k, m));
  }

  lemma PortsAfter(g: ExecGraph, h: set<EdgeId>, e: EdgeId)
    requires ReadyFor(g, h, e)
    ensures PortsInto(Keep(g, h + {e}), g.edges[e].target) == PortsInto(UpTo(g, e), g.edges[e].target)
    ensures forall m :: m != g.edges[e].target ==> PortsInto(Keep(g, h + {e}), m) == PortsInto(Keep(g, h), m)
  {
    SamePorts(Keep(g, h + {e}), UpTo(g, e), g.edges[e].target);
    forall m | m != g.edges[e].target
      ensures PortsInto(Keep(g, h + {e}), m) == PortsInto(Keep(g, h), m)
    {
      SamePorts(Keep(g, h + {e}), Keep(g, h), m);
    }
  }

  /** The edges into the nodes of a prefix of the component. */
  ghost function Into(g: ExecGraph, ns: seq<NodeId>): set<EdgeId> {
    set e | e in g.edges && g.edges[e].target in ns
  }

  lemma NoEdges(g: ExecGraph, h: set<EdgeId>)
    requires Sound(g) && h !! g.edges.Keys
    ensures Keep(g, h) == Graph(g.nodes, map[]) && Consistent(Keep(g, h))
  {
    var k := Keep(g, h);
    assert k.edges == map[];
    forall n
      ensures PortsInto(k, n) == {}
    {}
  }

  /** Between two edges into n: those outside `rest` are smaller than the rest, fit, and have been
      added when they are edges of the subgraph. */
  ghost predicate Adding(g: ExecGraph, sub: ExecGraph, n: NodeId, h: set<EdgeId>, rest: set<EdgeId>, added: set<EdgeId>) {
    && (forall e :: e in added <==> e in h || (Enters(sub, e, n) && e !in rest))
    && (forall e :: e in rest ==> Enters(g, e, n))
    && (forall e, f :: Enters(g, e, n) && e !in rest && f in rest ==> e < f)
    && forall e :: Enters(sub, e, n) && e !in rest ==> Fits(sub, e)
  }

  lemma AddingReady(g: ExecGraph, sub: ExecGraph, n: NodeId, h: set<EdgeId>, rest: set<EdgeId>, added: set<EdgeId>, e: EdgeId)
    requires Adding(g, sub, n, h, rest, added) && e in rest && (forall f :: f in rest ==> e <= f)
    requires Enters(sub, e, n) && forall f :: f in h ==> !Enters(sub, f, n)
    requires forall f :: Enters(sub, f, n) ==> Enters(g, f, n)
    ensures ReadyFor(sub, added, e)
  {
    hide Fits;
    forall f | f in sub.edges && sub.edges[f].target == n
      ensures f in added <==> f < e
    {
      assert Enters(sub, f, n);
    }
  }

  lemma AddingStep(g: ExecGraph, sub: ExecGraph, n: NodeId, h: set<EdgeId>, rest: set<EdgeId>, added: set<EdgeId>, e: EdgeId)
    requires Adding(g, sub, n, h, rest, added) && e in rest && (forall f :: f in rest ==> e <= f)
    ensures Enters(sub, e, n) && Fits(sub, e) ==> Adding(g, sub, n, h, rest - {e}, added + {e})
    ensures !Enters(sub, e, n) ==> Adding(g, sub, n, h, rest - {e}, added)
  {
    hide Fits, Enters;
  }

  /** The incoming edges of one node, by number; edges from elsewhere are left out. */
  method AddIncoming(g: ExecGraph, ghost sub: ExecGraph, was: ExecGraph, ghost h: set<EdgeId>, n: NodeId)
      returns (r: Result<ExecGraph, GraphError>)
    requires Sound(sub) && was == Keep(sub, h) && Consistent(was) && n in was.nodes
    requires forall e :: e in h ==> !Enters(sub, e, n)
    requires forall e :: Enters(sub, e, n) <==> Enters(g, e, n) && g.edges[e].source in was.nodes
    requires forall e :: Enters(sub, e, n) && Enters(g, e, n) ==> sub.edges[e] == g.edges[e]
    ensures r.Ok? ==> r.value == Keep(sub, h + EdgesTo(sub, n)) && Consistent(r.value)
    ensures r.Ok? <==> forall e :: Enters(sub, e, n) ==> Fits(sub, e)
  {
    hide Sound, Consistent, Fits, Keep, AddEdge, Adding, ReadyFor;
    var cur := was;
    var rest := set e | e in g.edges && Enters(g, e, n);
    ghost var added := h;
    AddingBegins(g, sub, n, h, rest);
    while rest != {}
      invariant rest <= g.edges.Keys && cur == Keep(sub, added) && Consistent(cur)
      invariant Adding(g, sub, n, h, rest, added)
      decreases |rest|
    {
      var e := Extreme(true, rest);
      assert forall f :: f in rest ==> e <= f;
      AddingStep(g, sub, n, h, rest, added, e);
      if g.edges[e].source in was.nodes {
        AddingEnters(g, sub, n, h, rest, added, e);
        AddingReady(g, sub, n, h, rest, added, e);
        AcceptedIffFits(sub, added, e);
        match AddEdge(cur, e, g.edges[e]) {
          case Err(error) => return Err(error);
          case Ok(next) => cur := next;
        }
        added := added + {e};
      }
      rest := rest - {e};
    }
    AddingEnds(g, sub, n, h, added);
    return Ok(cur);
  }

  lemma AddingBegins(g: ExecGraph, sub: ExecGraph, n: NodeId, h: set<EdgeId>, rest: set<EdgeId>)
    requires rest == set e | e in g.edges && Enters(g, e, n)
    requires forall e :: Enters(sub, e, n) ==> Enters(g, e, n)
    ensures Adding(g, sub, n, h, rest, h)
  {
    hide Fits;
  }

  lemma AddingEnters(g: ExecGraph, sub: ExecGraph, n: NodeId, h: set<EdgeId>, rest: set<EdgeId>, added: set<EdgeId>, e: EdgeId)
    requires Adding(g, sub, n, h, rest, added) && e in rest
    ensures Enters(g, e, n) && e in g.edges
  {
    hide Fits;
  }

  lemma AddingEnds(g: ExecGraph, sub: ExecGraph, n: NodeId, h: set<EdgeId>, added: set<EdgeId>)
    requires Adding(g, sub, n, h, {}, added)
    ensures added == h + EdgesTo(sub, n) && forall e :: Enters(sub, e, n) ==> Fits(sub, e)
  {
    hide Fits;
  }

  ghost function EdgesTo(g: ExecGraph, n: NodeId): set<EdgeId> {
    set e | e in g.edges && Enters(g, e, n)
  }

  /** The graph of a component: its nodes, then the edges between them node by node. Building succeeds
      exactly when the numbering of the edges leaves no gap, and gives the whole induced subgraph. */
  method BuildSub(g: ExecGraph, comp: seq<NodeId>) returns (r: Result<ExecGraph, GraphError>)
    requires Consistent(g) && NoRepeats(comp) && forall n :: n in comp ==> n in g.nodes
    ensures r.Ok? ==> r.value == Sub(g, SetOf(comp)) && Consistent(r.value)
    ensures r.Ok? <==> InIdOrder(Sub(g, SetOf(comp)))
  {
    hide Consistent, Sound, Fits, Sub, Into, EdgesTo, InIdOrder, Enters, Keep;
    ghost var sub := Sub(g, SetOf(comp));
    assert Sound(sub) by { ConsistentIsSound(g); SubSound(g, SetOf(comp)); }
    var cur: ExecGraph := Graph(map n | n in comp :: g.nodes[n], map[]);
    SubNodes(g, comp);
    assert Into(sub, comp[..0]) == {} by { IntoNone(sub, comp); }
    NoEdges(sub, {});
    for k := 0 to |comp|
      invariant cur == Keep(sub, Into(sub, comp[..k])) && cur.nodes == sub.nodes && Consistent(cur)
      invariant forall e :: e in Into(sub, comp[..k]) ==> Fits(sub, e)
    {
      IntoNext(g, comp, k);
      var next := AddIncoming(g, sub, cur, Into(sub, comp[..k]), comp[k]);
      KeepNodes(sub, Into(sub, comp[..k + 1]));
      match next {
        case Err(error) =>
          NotInOrder(sub, comp[k]);
          return Err(error);
        case Ok(added) => cur := added;
      }
    }
    assert comp[..|comp|] == comp;
    IntoAll(g, comp);
    return Ok(cur);
  }

  lemma ConsistentIsSound(g: ExecGraph)
    requires Consistent(g)
    ensures Sound(g)
  {}

  lemma KeepNodes(g: ExecGraph, h: set<EdgeId>)
    ensures Keep(g, h).nodes == g.nodes
  {}

  lemma IntoNone(g: ExecGraph, comp: seq<NodeId>)
    ensures Into(g, comp[..0]) == {}
  {}

  lemma IntoNext(g: ExecGraph, comp: seq<NodeId>, k: nat)
    requires k < |comp| && NoRepeats(comp) && forall n :: n in comp ==> n in g.nodes
    ensures var sub, n := Sub(g, SetOf(comp)), comp[k];
            && Into(sub, comp[..k + 1]) == Into(sub, comp[..k]) + EdgesTo(sub, n)
            && (forall e :: e in Into(sub, comp[..k]) ==> !Enters(sub, e, n))
            && (forall e :: e in EdgesTo(sub, n) <==> Enters(sub, e, n))
            && (forall e :: Enters(sub, e, n) <==> Enters(g, e, n) && g.edges[e].source in sub.nodes)
            && (forall e :: Enters(sub, e, n) ==> e in g.edges && e in sub.edges)
            && (forall e :: Enters(sub, e, n) && Enters(g, e, n) ==> sub.edges[e] == g.edges[e])
  {
    SubEnters(g, SetOf(comp));
    hide Sub;
    assert comp[..k + 1] == comp[..k] + [comp[k]];
  }

  lemma NotInOrder(g: ExecGraph, n: NodeId)
    ensures InIdOrder(g) ==> forall e :: Enters(g, e, n) ==> Fits(g, e)
  {
    hide Fits;
  }

  lemma SubNodes(g: ExecGraph, comp: seq<NodeId>)
    requires forall n :: n in comp ==> n in g.nodes
    ensures Sub(g, SetOf(comp)).nodes == map n | n in comp :: g.nodes[n]
  {}

  lemma SubEnters(g: ExecGraph, s: set<NodeId>)
    requires s <= g.nodes.Keys
    ensures forall e, n :: n in s ==> (Enters(Sub(g, s), e, n) <==> Enters(g, e, n) && g.edges[e].source in Sub(g, s).nodes)
    ensures forall e, n :: Enters(Sub(g, s), e, n) ==> Sub(g, s).edges[e] == g.edges[e]
  {}

  lemma IntoAll(g: ExecGraph, comp: seq<NodeId>)
    ensures var sub := Sub(g, SetOf(comp));
            && Keep(sub, Into(sub, comp)) == sub
            && (InIdOrder(sub) <==> forall e :: e in Into(sub, comp) ==> Fits(sub, e))
  {
    hide Fits;
    var sub := Sub(g, SetOf(comp));
    assert forall e :: e in sub.edges <==> e in Into(sub, comp);
  }
}
