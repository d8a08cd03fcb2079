/** Cutting an execution graph by color: `Partition` and `ExecGraph::partition_by` of
    `zkml/src/graph/partition.rs`. */
module Partitions {
  import opened Wrappers
  import opened Collections
  import opened PortGraph
  import opened DagOrder
  import opened Denotation
  import opened Components
  import opened Subgraphs

  /** A same-color piece of the graph. `children` says at which input the value from each color
      arrives, `parents` which output each color is sent. */
  datatype Partition = Partition(
    color: Color,
    graph: ExecGraph,
    children: map<Color, NodeInput>,
    inputs: map<NodeId, IO>,
    parents: map<Color, NodeOutput>)

  datatype PartitionError =
    | GraphRejected(error: GraphError) | RootNotUnique | SourceNotUnique | SinkNotUnique
    | ManyLinksOut | NoParent | TwoEdgesToColor | OwnParent | OwnChild | NoInputs

  function Sources(g: ExecGraph): (s: set<NodeId>)
    ensures forall n :: n in s <==> n in g.nodes && IsSource(g, n)
  {
    set n | n in g.nodes && IsSource(g, n)
  }

  function Sinks(g: ExecGraph): (s: set<NodeId>)
    ensures forall n :: n in s <==> n in g.nodes && IsSink(g, n)
  {
    set n | n in g.nodes && IsSink(g, n)
  }

  function AsMap(inputs: seq<(NodeId, IO)>): map<NodeId, IO> {
    if inputs == [] then map[]
    else AsMap(inputs[..|inputs| - 1])[inputs[|inputs| - 1].0 := inputs[|inputs| - 1].1]
  }

  ghost predicate Occurs(inputs: seq<(NodeId, IO)>, n: NodeId) {
    exists k :: 0 <= k < |inputs| && inputs[k].0 == n
  }

  /** Entry k is the last one addressed to n. */
  ghost predicate LastAt(inputs: seq<(NodeId, IO)>, k: nat, n: NodeId) {
    k < |inputs| && inputs[k].0 == n && forall j :: k < j < |inputs| ==> inputs[j].0 != n
  }

  lemma {:induction false} AsMapAt(inputs: seq<(NodeId, IO)>, n: NodeId)
    ensures n in AsMap(inputs) <==> Occurs(inputs, n)
    ensures forall k: nat :: LastAt(inputs, k, n) ==> n in AsMap(inputs) && AsMap(inputs)[n] == inputs[k].1
  {
    if inputs != [] {
      var init, last := inputs[..|inputs| - 1], inputs[|inputs| - 1];
      AsMapAt(init, n);
      assert Occurs(inputs, n) <==> Occurs(init, n) || last.0 == n by {
        if Occurs(init, n) {
          var k :| 0 <= k < |init| && init[k].0 == n;
          assert inputs[k].0 == n;
        }
      }
      forall k: nat | LastAt(inputs, k, n)
        ensures n in AsMap(inputs) && AsMap(inputs)[n] == inputs[k].1
      {
        if k < |init| {
          assert inputs[|inputs| - 1].0 != n;
          assert LastAt(init, k, n);
        }
      }
    }
  }

  function Within(inputs: map<NodeId, IO>, s: set<NodeId>): map<NodeId, IO> {
    map n | n in inputs && n in s :: inputs[n]
  }

  // ---------------------------------------------------------------- one partition

  /** Link i of edge e brings to s the value of a node of color c, at input `at`. */
  ghost predicate Child(g: ExecGraph, s: NodeId, e: EdgeId, i: nat, c: Color, at: NodeInput) {
    && Enters(g, e, s) && i < |g.edges[e].ports| && g.edges[e].source in g.nodes
    && g.nodes[g.edges[e].source].color == c && at == NodeInput(s, g.edges[e].ports[i].targetPort)
  }

  /** The colors of the predecessors of s, each with an input one of its links feeds. */
  ghost predicate ChildrenAre(g: ExecGraph, s: NodeId, children: map<Color, NodeInput>) {
    && (forall c :: c in children ==> exists e, i :: Child(g, s, e, i, c, children[c]))
    && forall e, i, c, at :: Child(g, s, e, i, c, at) ==> c in children
  }

  ghost predicate LeavesTo(g: ExecGraph, t: NodeId, e: EdgeId, c: Color) {
    Leaves(g, e, t) && g.edges[e].target in g.nodes && g.nodes[g.edges[e].target].color == c
  }

  /** The colors of the successors of t, each with the output its link names. */
  ghost predicate ParentsAre(g: ExecGraph, t: NodeId, parents: map<Color, NodeOutput>) {
    && (forall c :: c in parents ==> exists e :: LeavesTo(g, t, e, c))
    && (forall e, c :: LeavesTo(g, t, e, c) ==> c in parents)
    && forall e, c, link :: LeavesTo(g, t, e, c) && OnlyLink(g, e, link) ==> c in parents && parents[c] == NodeOutput(t, link.sourcePort)
  }

  ghost predicate OneLinkOut(g: ExecGraph, t: NodeId) {
    forall e :: Leaves(g, e, t) ==> |g.edges[e].ports| == 1
  }

  ghost predicate OneEdgePerColor(g: ExecGraph, t: NodeId) {
    forall e, f, c :: LeavesTo(g, t, e, c) && LeavesTo(g, t, f, c) ==> e == f
  }

  /** The checks on the way in: some raw input, or a single source fed by other colors only. */
  ghost predicate EntryFits(g: ExecGraph, inputs: map<NodeId, IO>, comp: seq<NodeId>, color: Color) {
    || Within(inputs, SetOf(comp)) != map[]
    || exists s :: && Sources(Sub(g, SetOf(comp))) == {s}
                   && (exists e, i, c, at :: Child(g, s, e, i, c, at))
                   && forall e, i, at :: !Child(g, s, e, i, color, at)
  }

  /** The checks on the way out: a single sink, sending one value to each of some other colors,
      unless it is the sink of the whole graph. */
  ghost predicate ExitFits(g: ExecGraph, comp: seq<NodeId>, color: Color, root: NodeId) {
    exists t :: && Sinks(Sub(g, SetOf(comp))) == {t}
                && OneLinkOut(g, t)
                && (t != root ==>
                      && (exists e :: Leaves(g, e, t)) && OneEdgePerColor(g, t)
                      && forall e :: !LeavesTo(g, t, e, color))
  }

  /** p is the partition of the component. */
  ghost predicate PartitionFor(g: ExecGraph, inputs: map<NodeId, IO>, comp: seq<NodeId>, p: Partition) {
    && comp != [] && comp[0] in g.nodes && p.color == g.nodes[comp[0]].color
    && p.graph == Sub(g, SetOf(comp))
    && p.inputs == Within(inputs, SetOf(comp))
    && (p.inputs != map[] ==> p.children == map[])
    && (p.inputs == map[] ==> exists s :: Sources(p.graph) == {s} && ChildrenAre(g, s, p.children))
    && exists t :: Sinks(p.graph) == {t} && ParentsAre(g, t, p.parents)
  }

  method ChildrenOf(g: ExecGraph, s: NodeId) returns (children: map<Color, NodeInput>)
    requires EndpointsExist(g)
    ensures ChildrenAre(g, s, children)
  {
    children := map[];
    var entering := set e | e in g.edges && Enters(g, e, s);
    var rest := entering;
    hide EndpointsExist;
    while rest != {}
      invariant rest <= entering
      invariant forall c :: c in children ==> exists e, i :: Child(g, s, e, i, c, children[c])
      invariant forall e, i, c, at :: e in entering && e !in rest && Child(g, s, e, i, c, at) ==> c in children
      decreases |rest|
    {
      var e := Extreme(true, rest);
      SourceExists(g, e);
      var color := g.nodes[g.edges[e].source].color;
      if |g.edges[e].ports| > 0 {
        var last := |g.edges[e].ports| - 1;
        assert Child(g, s, e, last, color, NodeInput(s, g.edges[e].ports[last].targetPort));
        children := children[color := NodeInput(s, g.edges[e].ports[last].targetPort)];
      }
      rest := rest - {e};
    }
  }

  lemma SourceExists(g: ExecGraph, e: EdgeId)
    requires EndpointsExist(g) && e in g.edges
    ensures g.edges[e].source in g.nodes && g.edges[e].target in g.nodes
  {}

  method ParentsOf(g: ExecGraph, t: NodeId) returns (r: Result<map<Color, NodeOutput>, PartitionError>)
    requires EndpointsExist(g) && OneLinkOut(g, t)
    ensures r.Ok? <==> OneEdgePerColor(g, t)
    ensures r.Ok? ==> ParentsAre(g, t, r.value)
  {
    var parents: map<Color, NodeOutput> := map[];
    var leaving := set e | e in g.edges && Leaves(g, e, t);
    var rest := leaving;
    hide EndpointsExist;
    while rest != {}
      invariant rest <= leaving
      invariant forall c :: c in parents ==> exists e :: e !in rest && LeavesTo(g, t, e, c)
      invariant forall e, c :: e !in rest && LeavesTo(g, t, e, c) ==> c in parents && parents[c] == NodeOutput(t, SourcePort(g, e))
      invariant forall e, f, c :: e !in rest && f !in rest && LeavesTo(g, t, e, c) && LeavesTo(g, t, f, c) ==> e == f
      decreases |rest|
    {
      var e := Extreme(true, rest);
      SourceExists(g, e);
      var color := g.nodes[g.edges[e].target].color;
      assert LeavesTo(g, t, e, color);
      if color in parents {
        return Err(TwoEdgesToColor);
      }
      assert OnlyLink(g, e, g.edges[e].ports[0]);
      parents := parents[color := NodeOutput(t, SourcePort(g, e))];
      rest := rest - {e};
    }
    return Ok(parents);
  }

  /** `Partition::new` and what leads to it, for one component. */
  method Describe(g: ExecGraph, inputs: map<NodeId, IO>, comp: seq<NodeId>, sub: ExecGraph, root: NodeId)
      returns (r: Result<Partition, PartitionError>)
    requires EndpointsExist(g) && comp != [] && comp[0] in g.nodes && sub == Sub(g, SetOf(comp)) && IsSink(g, root)
    ensures r.Ok? ==> PartitionFor(g, inputs, comp, r.value)
    ensures r.Ok? <==> EntryFits(g, inputs, comp, g.nodes[comp[0]].color) && ExitFits(g, comp, g.nodes[comp[0]].color, root)
  {
    hide EndpointsExist, ChildrenAre, ParentsAre, OneLinkOut, OneEdgePerColor, Sub, Within;
    var color := g.nodes[comp[0]].color;
    var own := Within(inputs, SetOf(comp));
    var entry := Entry(g, comp, sub, own);
    EntryIff(g, inputs, comp, entry, color);
    match entry {
      case Err(error) => return Err(error);
      case Ok(children) =>
        var exit := Exit(g, comp, sub, root);
        ExitIff(g, comp, exit, color, root);
        match exit {
          case Err(error) => return Err(error);
          case Ok(parents) =>
            if color in parents {
              return Err(OwnParent);
            }
            if color in children {
              return Err(OwnChild);
            }
            if children == map[] && own == map[] {
              return Err(NoInputs);
            }
            return Ok(Partition(color, sub, children, own, parents));
        }
    }
  }

  /** What `Entry` returns: the children of the only source, unless there are raw inputs. */
  ghost predicate EntryIs(g: ExecGraph, comp: seq<NodeId>, own: map<NodeId, IO>, r: Result<map<Color, NodeInput>, PartitionError>) {
    && (own != map[] ==> r == Ok(map[]))
    && (own == map[] ==>
          && (r.Ok? ==> exists s :: Sources(Sub(g, SetOf(comp))) == {s} && ChildrenAre(g, s, r.value))
          && (r.Err? ==> forall s :: Sources(Sub(g, SetOf(comp))) != {s}))
  }

  method Entry(g: ExecGraph, comp: seq<NodeId>, sub: ExecGraph, own: map<NodeId, IO>)
      returns (r: Result<map<Color, NodeInput>, PartitionError>)
    requires EndpointsExist(g) && sub == Sub(g, SetOf(comp))
    ensures EntryIs(g, comp, own, r)
  {
    hide EndpointsExist, ChildrenAre, Sub;
    if own != map[] {
      return Ok(map[]);
    }
    var sources := Sources(sub);
    if |sources| != 1 {
      return Err(SourceNotUnique);
    }
    var s :| s in sources;
    OnlyMember(sources, s);
    var children := ChildrenOf(g, s);
    return Ok(children);
  }

  lemma EntryIff(g: ExecGraph, inputs: map<NodeId, IO>, comp: seq<NodeId>, r: Result<map<Color, NodeInput>, PartitionError>, color: Color)
    requires EntryIs(g, comp, Within(inputs, SetOf(comp)), r)
    ensures EntryFits(g, inputs, comp, color)
       <==> r.Ok? && color !in r.value && (r.value != map[] || Within(inputs, SetOf(comp)) != map[])
  {
    hide Sub, Within, Child;
    if Within(inputs, SetOf(comp)) == map[] && r.Ok? {
      var s :| Sources(Sub(g, SetOf(comp))) == {s} && ChildrenAre(g, s, r.value);
      ChildrenEmpty(g, s, r.value, color);
      assert forall u :: Sources(Sub(g, SetOf(comp))) == {u} ==> u == s;
    }
  }

  lemma ChildrenEmpty(g: ExecGraph, s: NodeId, children: map<Color, NodeInput>, color: Color)
    requires ChildrenAre(g, s, children)
    ensures children != map[] <==> exists e, i, c, at :: Child(g, s, e, i, c, at)
    ensures color !in children <==> forall e, i, at :: !Child(g, s, e, i, color, at)
  {
    hide Child;
    if children != map[] {
      var c :| c in children;
      var e, i :| Child(g, s, e, i, c, children[c]);
    }
  }

  /** What `Exit` returns: the parents of the only sink. */
  ghost predicate ExitIs(g: ExecGraph, comp: seq<NodeId>, root: NodeId, r: Result<map<Color, NodeOutput>, PartitionError>) {
    && (r.Ok? ==> exists t :: ExitAt(g, comp, root, t) && ParentsAre(g, t, r.value))
    && (r.Err? ==> forall t :: !ExitAt(g, comp, root, t))
  }

  ghost predicate ExitAt(g: ExecGraph, comp: seq<NodeId>, root: NodeId, t: NodeId) {
    && Sinks(Sub(g, SetOf(comp))) == {t} && OneLinkOut(g, t)
    && (t != root ==> (exists e :: Leaves(g, e, t)) && OneEdgePerColor(g, t))
  }

  method Exit(g: ExecGraph, comp: seq<NodeId>, sub: ExecGraph, root: NodeId)
      returns (r: Result<map<Color, NodeOutput>, PartitionError>)
    requires EndpointsExist(g) && sub == Sub(g, SetOf(comp)) && IsSink(g, root)
    ensures ExitIs(g, comp, root, r)
  {
    hide EndpointsExist, ParentsAre, Sub, OneEdgePerColor, LeavesTo;
    var sinks := Sinks(sub);
    if |sinks| != 1 {
      return Err(SinkNotUnique);
    }
    var t :| t in sinks;
    OnlyMember(sinks, t);
    assert forall u :: ExitAt(g, comp, root, u) ==> u == t;
    var leaving := set e | e in g.edges && Leaves(g, e, t);
    if exists e | e in leaving :: |g.edges[e].ports| != 1 {
      assert !OneLinkOut(g, t);
      return Err(ManyLinksOut);
    }
    assert OneLinkOut(g, t);
    if t == root {
      RootHasNoParents(g, t);
      return Ok(map[]);
    }
    if leaving == {} {
      assert forall e :: Leaves(g, e, t) ==> e in leaving;
      return Err(NoParent);
    }
    r := ParentsOf(g, t);
  }

  lemma RootHasNoParents(g: ExecGraph, t: NodeId)
    requires IsSink(g, t)
    ensures ParentsAre(g, t, map[]) && OneEdgePerColor(g, t)
  {
    assert forall e, c :: LeavesTo(g, t, e, c) ==> Leaves(g, e, t) && e in g.edges;
  }

  lemma ExitIff(g: ExecGraph, comp: seq<NodeId>, r: Result<map<Color, NodeOutput>, PartitionError>, color: Color, root: NodeId)
    requires ExitIs(g, comp, root, r) && IsSink(g, root)
    ensures ExitFits(g, comp, color, root) <==> r.Ok? && color !in r.value
  {
    hide Sub, OneLinkOut, OneEdgePerColor;
    if r.Ok? {
      var t :| ExitAt(g, comp, root, t) && ParentsAre(g, t, r.value);
      ParentsColor(g, t, r.value, color);
      hide ParentsAre;
      assert forall u :: Sinks(Sub(g, SetOf(comp))) == {u} ==> u == t;
    } else if t :| Sinks(Sub(g, SetOf(comp))) == {t} {
      assert !ExitAt(g, comp, root, t);
      assert forall u :: Sinks(Sub(g, SetOf(comp))) == {u} ==> u == t;
    }
  }

  lemma ParentsColor(g: ExecGraph, t: NodeId, parents: map<Color, NodeOutput>, color: Color)
    requires ParentsAre(g, t, parents)
    ensures color !in parents <==> forall e :: !LeavesTo(g, t, e, color)
    ensures IsSink(g, t) ==> color !in parents
  {
    assert IsSink(g, t) ==> forall e :: Leaves(g, e, t) ==> e in g.edges;
  }

  // ---------------------------------------------------------------- the whole cut

  function Colors(parts: seq<Partition>): (s: set<Color>)
    ensures forall c :: c in s <==> exists i :: 0 <= i < |parts| && parts[i].color == c
  {
    set i | 0 <= i < |parts| :: parts[i].color
  }

  /** Among the first k partitions those of color c that are not done, in order. */
  function Queue(parts: seq<Partition>, c: Color, done: set<nat>, k: nat): seq<Partition>
    requires k <= |parts|
  {
    if k == 0 then []
    else Queue(parts, c, done, k - 1) + (if parts[k - 1].color == c && k - 1 !in done then [parts[k - 1]] else [])
  }

  /** The partitions of each color, in the order in which they were found. */
  ghost predicate QueuesOf(parts: seq<Partition>, k: nat, queues: map<Color, seq<Partition>>)
    requires k <= |parts|
  {
    && (forall c :: c in queues <==> exists i :: 0 <= i < k && parts[i].color == c)
    && forall c :: c in queues ==> queues[c] == Queue(parts, c, {}, k)
  }

  lemma {:induction false} QueueEmpty(parts: seq<Partition>, c: Color, done: set<nat>, k: nat)
    requires k <= |parts| && forall i :: 0 <= i < k ==> parts[i].color != c || i in done
    ensures Queue(parts, c, done, k) == []
  {
    if k > 0 {
      QueueEmpty(parts, c, done, k - 1);
    }
  }

  ghost predicate CutInto(g: ExecGraph, inputs: map<NodeId, IO>, comps: seq<seq<NodeId>>, parts: seq<Partition>) {
    |parts| == |comps| && forall i :: 0 <= i < |comps| ==> PartitionFor(g, inputs, comps[i], parts[i])
  }

  ghost predicate PieceFits(g: ExecGraph, inputs: map<NodeId, IO>, comp: seq<NodeId>, root: NodeId) {
    && comp != [] && comp[0] in g.nodes && InIdOrder(Sub(g, SetOf(comp)))
    && EntryFits(g, inputs, comp, g.nodes[comp[0]].color) && ExitFits(g, comp, g.nodes[comp[0]].color, root)
  }

  /** What the graph must satisfy for the cut to be accepted. */
  ghost predicate Accepted(g: ExecGraph, inputs: map<NodeId, IO>, comps: seq<seq<NodeId>>) {
    exists root :: Sinks(g) == {root} && forall i :: 0 <= i < |comps| ==> PieceFits(g, inputs, comps[i], root)
  }

  /** `queues` holds the partitions of the components of the graph, by color and in the order of their first nodes. */
  ghost predicate CutAs(g: ExecGraph, inputs: map<NodeId, IO>, queues: map<Color, seq<Partition>>,
                        order: seq<NodeId>, comps: seq<seq<NodeId>>, parts: seq<Partition>) {
    && IsDagOrder(g, true, order) && AllComponents(g, comps) && Separate(comps) && Ordered(order, comps)
    && (forall n :: n in order ==> n in AllMembers(comps))
    && CutInto(g, inputs, comps, parts) && QueuesOf(parts, |parts|, queues)
  }

  /** Each part has exactly the raw inputs addressed to its nodes, the last one for each. */
  ghost predicate InputsAddressed(inputs: seq<(NodeId, IO)>, comps: seq<seq<NodeId>>, parts: seq<Partition>) {
    && |parts| == |comps|
    && (forall i, n :: 0 <= i < |parts| ==> (n in parts[i].inputs <==> n in comps[i] && Occurs(inputs, n)))
    && forall i, n, k: nat :: 0 <= i < |parts| && n in comps[i] && LastAt(inputs, k, n) ==>
         n in parts[i].inputs && parts[i].inputs[n] == inputs[k].1
  }

  lemma CutAddresses(g: ExecGraph, inputs: seq<(NodeId, IO)>, comps: seq<seq<NodeId>>, parts: seq<Partition>)
    requires CutInto(g, AsMap(inputs), comps, parts)
    ensures InputsAddressed(inputs, comps, parts)
  {
    forall n
      ensures n in AsMap(inputs) <==> Occurs(inputs, n)
      ensures forall k: nat :: LastAt(inputs, k, n) ==> n in AsMap(inputs) && AsMap(inputs)[n] == inputs[k].1
    {
      AsMapAt(inputs, n);
    }
    hide AsMap, Occurs, LastAt, PartitionFor;
    forall i | 0 <= i < |parts|
      ensures parts[i].inputs == Within(AsMap(inputs), SetOf(comps[i]))
    {
      PartInputs(g, AsMap(inputs), comps[i], parts[i]);
    }
    hide CutInto;
  }

  lemma PartInputs(g: ExecGraph, inputs: map<NodeId, IO>, comp: seq<NodeId>, p: Partition)
    requires PartitionFor(g, inputs, comp, p)
    ensures p.inputs == Within(inputs, SetOf(comp))
  {}

  // ---------------------------------------------------------------- which graphs are accepted

  ghost predicate NothingInto(g: ExecGraph, comp: seq<NodeId>, n: NodeId) {
    forall e :: e in g.edges && g.edges[e].target == n ==> g.edges[e].source !in comp
  }

  ghost predicate NothingOutOf(g: ExecGraph, comp: seq<NodeId>, n: NodeId) {
    forall e :: e in g.edges && g.edges[e].source == n ==> g.edges[e].target !in comp
  }

  /** s is the only node of the component that no edge enters from inside. */
  ghost predicate OnlyEntry(g: ExecGraph, comp: seq<NodeId>, s: NodeId) {
    s in comp && forall n :: n in comp ==> (n == s <==> NothingInto(g, comp, n))
  }

  /** t is the only node of the component that no edge leaves to the inside. */
  ghost predicate OnlyExit(g: ExecGraph, comp: seq<NodeId>, t: NodeId) {
    t in comp && forall n :: n in comp ==> (n == t <==> NothingOutOf(g, comp, n))
  }

  /** Some raw input is addressed to the component, or all that enters it enters at one node, over some link. */
  ghost predicate CanEnter(g: ExecGraph, inputs: seq<(NodeId, IO)>, comp: seq<NodeId>) {
    || (exists k :: 0 <= k < |inputs| && inputs[k].0 in comp)
    || exists s :: OnlyEntry(g, comp, s) && SomeLinkInto(g, s)
  }

  ghost predicate SomeLinkInto(g: ExecGraph, n: NodeId) {
    exists e :: e in g.edges && g.edges[e].target == n && |g.edges[e].ports| > 0
  }

  /** All that leaves the component leaves at one node, over one link an edge; and it leaves, for different colors, unless that
      is the root. */
  ghost predicate CanLeave(g: ExecGraph, comp: seq<NodeId>, root: NodeId) {
    exists t :: && OnlyExit(g, comp, t) && SingleLinksOut(g, t)
                && (t == root || (SomeEdgeOut(g, t) && ToDifferentColors(g, t)))
  }

  ghost predicate SingleLinksOut(g: ExecGraph, t: NodeId) {
    forall e :: e in g.edges && g.edges[e].source == t ==> |g.edges[e].ports| == 1
  }

  ghost predicate SomeEdgeOut(g: ExecGraph, t: NodeId) {
    exists e :: e in g.edges && g.edges[e].source == t
  }

  ghost predicate ToDifferentColors(g: ExecGraph, t: NodeId) {
    forall e, f :: LeavesToNode(g, t, e) && LeavesToNode(g, t, f) && e != f ==>
      g.nodes[g.edges[e].target].color != g.nodes[g.edges[f].target].color
  }

  ghost predicate LeavesToNode(g: ExecGraph, t: NodeId, e: EdgeId) {
    e in g.edges && g.edges[e].source == t && g.edges[e].target in g.nodes
  }

  /** The whole condition of `partition_by`, on the graph itself. That a piece sends to its own color, or receives from it, is
      checked too, but cannot happen. */
  ghost predicate CanCut(g: ExecGraph, inputs: seq<(NodeId, IO)>, comps: seq<seq<NodeId>>) {
    exists root :: OnlyRoot(g, root) && forall i :: 0 <= i < |comps| ==> CanBePiece(g, inputs, comps[i], root)
  }

  ghost predicate CanBePiece(g: ExecGraph, inputs: seq<(NodeId, IO)>, comp: seq<NodeId>, root: NodeId) {
    InIdOrder(Sub(g, SetOf(comp))) && CanEnter(g, inputs, comp) && CanLeave(g, comp, root)
  }

  /** The only node that no edge leaves. */
  ghost predicate OnlyRoot(g: ExecGraph, root: NodeId) {
    root in g.nodes && forall n :: n in g.nodes ==> (n == root <==> !SomeEdgeOut(g, n))
  }

  lemma PieceIsRaw(g: ExecGraph, inputs: seq<(NodeId, IO)>, comp: seq<NodeId>, root: NodeId)
    requires EndpointsExist(g) && IsComponent(g, comp)
    ensures PieceFits(g, AsMap(inputs), comp, root) <==> CanBePiece(g, inputs, comp, root)
  {
    hide EndpointsExist, IsComponent, InIdOrder, Sub, AsMap, EntryFits, ExitFits, CanEnter, CanLeave;
    ComponentNodes(g, comp);
    EntryIsRaw(g, inputs, comp);
    ExitIsRaw(g, comp, root);
  }

  lemma RootIsRaw(g: ExecGraph, root: NodeId)
    ensures Sinks(g) == {root} <==> OnlyRoot(g, root)
  {
    forall n
      ensures IsSink(g, n) <==> !SomeEdgeOut(g, n)
    {
      if e :| e in g.edges && g.edges[e].source == n {
        assert Leaves(g, e, n);
      }
    }
    hide IsSink, SomeEdgeOut;
    IsOnly(Sinks(g), root);
  }

  /** The checks of `partition_by` amount to this condition. */
  lemma AcceptedIff(g: ExecGraph, inputs: seq<(NodeId, IO)>, comps: seq<seq<NodeId>>)
    requires EndpointsExist(g) && AllComponents(g, comps)
    ensures Accepted(g, AsMap(inputs), comps) <==> CanCut(g, inputs, comps)
  {
    forall i, root | 0 <= i < |comps|
      ensures PieceFits(g, AsMap(inputs), comps[i], root) <==> CanBePiece(g, inputs, comps[i], root)
    {
      PieceIsRaw(g, inputs, comps[i], root);
    }
    forall root: NodeId
      ensures Sinks(g) == {root} <==> OnlyRoot(g, root)
    {
      RootIsRaw(g, root);
    }
    hide EndpointsExist, AllComponents, PieceFits, CanBePiece, OnlyRoot, Sinks, AsMap;
    if Accepted(g, AsMap(inputs), comps) {
      var root :| Sinks(g) == {root} && forall i :: 0 <= i < |comps| ==> PieceFits(g, AsMap(inputs), comps[i], root);
      assert OnlyRoot(g, root);
    }
    if CanCut(g, inputs, comps) {
      var root: NodeId :| OnlyRoot(g, root) && forall i :: 0 <= i < |comps| ==> CanBePiece(g, inputs, comps[i], root);
      RootIsRaw(g, root);
    }
  }

  lemma InsideEnds(g: ExecGraph, comp: seq<NodeId>, n: NodeId)
    requires n in comp
    ensures IsSource(Sub(g, SetOf(comp)), n) <==> NothingInto(g, comp, n)
    ensures IsSink(Sub(g, SetOf(comp)), n) <==> NothingOutOf(g, comp, n)
  {
    var sub := Sub(g, SetOf(comp));
    assert forall e :: e in sub.edges <==> e in g.edges && g.edges[e].source in comp && g.edges[e].target in comp;
    assert forall e :: e in sub.edges ==> sub.edges[e] == g.edges[e];
    hide Sub;
    if IsSource(sub, n) {
      assert forall e :: e in sub.edges ==> !Enters(sub, e, n);
    }
    if IsSink(sub, n) {
      assert forall e :: e in sub.edges ==> !Leaves(sub, e, n);
    }
  }

  lemma PieceEnds(g: ExecGraph, comp: seq<NodeId>)
    requires forall n :: n in comp ==> n in g.nodes
    ensures forall n :: n in Sources(Sub(g, SetOf(comp))) <==> n in comp && NothingInto(g, comp, n)
    ensures forall n :: n in Sinks(Sub(g, SetOf(comp))) <==> n in comp && NothingOutOf(g, comp, n)
  {
    assert forall n :: n in Sub(g, SetOf(comp)).nodes <==> n in comp;
    hide Sub, IsSource, IsSink, NothingInto, NothingOutOf;
    forall n | n in comp
      ensures IsSource(Sub(g, SetOf(comp)), n) <==> NothingInto(g, comp, n)
      ensures IsSink(Sub(g, SetOf(comp)), n) <==> NothingOutOf(g, comp, n)
    {
      InsideEnds(g, comp, n);
    }
  }

  lemma OnlyEnds(g: ExecGraph, comp: seq<NodeId>)
    requires forall n :: n in comp ==> n in g.nodes
    ensures forall s: NodeId :: Sources(Sub(g, SetOf(comp))) == {s} <==> OnlyEntry(g, comp, s)
    ensures forall t: NodeId :: Sinks(Sub(g, SetOf(comp))) == {t} <==> OnlyExit(g, comp, t)
  {
    PieceEnds(g, comp);
    hide Sub, NothingInto, NothingOutOf, Sources, Sinks, SetOf;
    var sub := Sub(g, SetOf(comp));
    forall s: NodeId
      ensures Sources(sub) == {s} <==> OnlyEntry(g, comp, s)
      ensures Sinks(sub) == {s} <==> OnlyExit(g, comp, s)
    {
      IsOnly(Sources(sub), s);
      IsOnly(Sinks(sub), s);
    }
  }

  lemma IsOnly(s: set<NodeId>, n: NodeId)
    ensures s == {n} <==> n in s && forall m :: m in s ==> m == n
  {}

  /** A piece neither receives from its own color at its only source, nor sends to it from its only sink: whatever a node of
      its color is linked to is part of it. */
  lemma NeverOwnColor(g: ExecGraph, comp: seq<NodeId>, n: NodeId)
    requires EndpointsExist(g) && IsComponent(g, comp) && comp[0] in g.nodes && n in comp
    ensures NothingInto(g, comp, n) ==> forall e, i, at :: !Child(g, n, e, i, g.nodes[comp[0]].color, at)
    ensures NothingOutOf(g, comp, n) ==> forall e :: !LeavesTo(g, n, e, g.nodes[comp[0]].color)
  {
    ComponentColor(g, comp, n);
    hide IsComponent;
    forall e | e in g.edges && (g.edges[e].source == n || g.edges[e].target == n)
      && g.nodes[g.edges[e].source].color == g.nodes[g.edges[e].target].color
      ensures g.edges[e].source in comp && g.edges[e].target in comp
    {
      SameColorInside(g, comp, e);
    }
  }

  lemma ComponentColor(g: ExecGraph, comp: seq<NodeId>, n: NodeId)
    requires IsComponent(g, comp) && n in comp
    ensures n in g.nodes && comp[0] in g.nodes && g.nodes[n].color == g.nodes[comp[0]].color
  {
    hide Joined;
    JoinedColor(g, comp[0], n);
  }

  lemma SameColorInside(g: ExecGraph, comp: seq<NodeId>, e: EdgeId)
    requires EndpointsExist(g) && IsComponent(g, comp) && e in g.edges
    requires g.nodes[g.edges[e].source].color == g.nodes[g.edges[e].target].color
    ensures g.edges[e].source in comp <==> g.edges[e].target in comp
  {
    var comps := [comp];
    assert AllComponents(g, comps) by { hide IsComponent; }
    hide IsComponent, AllComponents;
    if (g.edges[e].source in comps[0]) != (g.edges[e].target in comps[0]) {
      CutEdgesChangeColor(g, comps, e, 0);
    }
  }

  lemma EntryIsRaw(g: ExecGraph, inputs: seq<(NodeId, IO)>, comp: seq<NodeId>)
    requires EndpointsExist(g) && IsComponent(g, comp) && comp[0] in g.nodes
    ensures EntryFits(g, AsMap(inputs), comp, g.nodes[comp[0]].color) <==> CanEnter(g, inputs, comp)
  {
    ComponentNodes(g, comp);
    OnlyEnds(g, comp);
    SomeInput(inputs, comp);
    hide IsComponent, Sub, Within, AsMap, NothingOutOf, Sources, Sinks;
    forall s | OnlyEntry(g, comp, s)
      ensures forall e, i, at :: !Child(g, s, e, i, g.nodes[comp[0]].color, at)
    {
      NeverOwnColor(g, comp, s);
    }
    forall s | SomeLinkInto(g, s)
      ensures exists e, i, c, at :: Child(g, s, e, i, c, at)
    {
      SomeChild(g, s);
    }
    forall s, e, i, c, at | Child(g, s, e, i, c, at)
      ensures SomeLinkInto(g, s)
    {
      SomeChild(g, s);
    }
    hide Child, OnlyEntry, EndpointsExist, SomeLinkInto;
  }

  lemma SomeChild(g: ExecGraph, s: NodeId)
    requires EndpointsExist(g)
    ensures (exists e, i, c, at :: Child(g, s, e, i, c, at)) <==> SomeLinkInto(g, s)
  {
    if e :| e in g.edges && g.edges[e].target == s && |g.edges[e].ports| > 0 {
      assert Child(g, s, e, 0, g.nodes[g.edges[e].source].color, NodeInput(s, g.edges[e].ports[0].targetPort));
    }
  }

  lemma SomeInput(inputs: seq<(NodeId, IO)>, comp: seq<NodeId>)
    ensures Within(AsMap(inputs), SetOf(comp)) != map[] <==> exists k :: 0 <= k < |inputs| && inputs[k].0 in comp
  {
    forall n
      ensures n in AsMap(inputs) <==> Occurs(inputs, n)
    {
      AsMapAt(inputs, n);
    }
    hide AsMap;
    var own := Within(AsMap(inputs), SetOf(comp));
    if own != map[] {
      var n :| n in own;
      assert Occurs(inputs, n);
      var k :| 0 <= k < |inputs| && inputs[k].0 == n;
    }
    if k :| 0 <= k < |inputs| && inputs[k].0 in comp {
      assert Occurs(inputs, inputs[k].0);
      assert inputs[k].0 in own;
    }
  }

  lemma ExitIsRaw(g: ExecGraph, comp: seq<NodeId>, root: NodeId)
    requires EndpointsExist(g) && IsComponent(g, comp) && comp[0] in g.nodes
    ensures ExitFits(g, comp, g.nodes[comp[0]].color, root) <==> CanLeave(g, comp, root)
  {
    ComponentNodes(g, comp);
    OnlyEnds(g, comp);
    hide IsComponent, Sub, NothingInto, Sources, Sinks;
    forall t | OnlyExit(g, comp, t)
      ensures forall e :: !LeavesTo(g, t, e, g.nodes[comp[0]].color)
    {
      NeverOwnColor(g, comp, t);
    }
    forall t
      ensures OneLinkOut(g, t) <==> SingleLinksOut(g, t)
      ensures OneEdgePerColor(g, t) <==> ToDifferentColors(g, t)
      ensures (exists e :: Leaves(g, e, t)) <==> SomeEdgeOut(g, t)
    {
      ColorsRaw(g, t);
    }
    hide LeavesTo, OnlyExit, EndpointsExist, OneLinkOut, OneEdgePerColor, ToDifferentColors, SingleLinksOut, SomeEdgeOut, Leaves;
  }

  lemma ColorsRaw(g: ExecGraph, t: NodeId)
    ensures OneLinkOut(g, t) <==> SingleLinksOut(g, t)
    ensures OneEdgePerColor(g, t) <==> ToDifferentColors(g, t)
    ensures (exists e :: Leaves(g, e, t)) <==> SomeEdgeOut(g, t)
  {
    assert forall e :: Leaves(g, e, t) <==> e in g.edges && g.edges[e].source == t;
    if OneEdgePerColor(g, t) {
      forall e, f | LeavesToNode(g, t, e) && LeavesToNode(g, t, f) && e != f
        ensures g.nodes[g.edges[e].target].color != g.nodes[g.edges[f].target].color
      {
        var c := g.nodes[g.edges[e].target].color;
        assert LeavesTo(g, t, e, c) && (LeavesTo(g, t, f, c) <==> g.nodes[g.edges[f].target].color == c);
      }
    }
    if ToDifferentColors(g, t) {
      forall e, f, c | LeavesTo(g, t, e, c) && LeavesTo(g, t, f, c)
        ensures e == f
      {
        assert LeavesToNode(g, t, e) && LeavesToNode(g, t, f);
      }
    }
  }

  method BuildAll(g: ExecGraph, comps: seq<seq<NodeId>>) returns (r: Result<seq<ExecGraph>, PartitionError>)
    requires Consistent(g) && AllComponents(g, comps)
    ensures r.Ok? ==> |r.value| == |comps| && forall i :: 0 <= i < |comps| ==> r.value[i] == Sub(g, SetOf(comps[i]))
    ensures r.Ok? <==> forall i :: 0 <= i < |comps| ==> InIdOrder(Sub(g, SetOf(comps[i])))
  {
    var subs := [];
    hide Consistent, IsComponent, Sub, InIdOrder, NoRepeats;
    for i := 0 to |comps|
      invariant |subs| == i && forall j :: 0 <= j < i ==> subs[j] == Sub(g, SetOf(comps[j]))
      invariant forall j :: 0 <= j < i ==> InIdOrder(Sub(g, SetOf(comps[j])))
    {
      ComponentNodes(g, comps[i]);
      var sub := BuildSub(g, comps[i]);
      match sub {
        case Err(error) => return Err(GraphRejected(error));
        case Ok(graph) => subs := subs + [graph];
      }
    }
    return Ok(subs);
  }

  lemma ComponentNodes(g: ExecGraph, comp: seq<NodeId>)
    requires IsComponent(g, comp)
    ensures comp != [] && comp[0] in g.nodes && NoRepeats(comp) && forall n :: n in comp ==> n in g.nodes
  {
    hide Joined;
    forall n | n in comp
      ensures n in g.nodes
    {
      JoinedColor(g, comp[0], n);
    }
  }

  method DescribeAll(g: ExecGraph, inputs: map<NodeId, IO>, comps: seq<seq<NodeId>>, subs: seq<ExecGraph>, root: NodeId)
      returns (r: Result<seq<Partition>, PartitionError>)
    requires |subs| == |comps| && forall i :: 0 <= i < |comps| ==> subs[i] == Sub(g, SetOf(comps[i])) && InIdOrder(subs[i])
    requires EndpointsExist(g) && IsSink(g, root) && AllComponents(g, comps)
    ensures r.Ok? ==> CutInto(g, inputs, comps, r.value)
    ensures r.Ok? <==> forall i :: 0 <= i < |comps| ==> PieceFits(g, inputs, comps[i], root)
  {
    hide IsComponent, Sub, InIdOrder, EntryFits, ExitFits, PartitionFor, NoRepeats, IsSink, EndpointsExist, SetOf;
    var parts := [];
    for i := 0 to |comps|
      invariant |parts| == i && forall j :: 0 <= j < i ==> PartitionFor(g, inputs, comps[j], parts[j])
      invariant forall j :: 0 <= j < i ==> PieceFits(g, inputs, comps[j], root)
    {
      ComponentNodes(g, comps[i]);
      var part := Describe(g, inputs, comps[i], subs[i], root);
      match part {
        case Err(error) => return Err(error);
        case Ok(p) => parts := parts + [p];
      }
    }
    return Ok(parts);
  }

  /** The final fold: partitions by color. */
  method Group(parts: seq<Partition>) returns (queues: map<Color, seq<Partition>>)
    ensures QueuesOf(parts, |parts|, queues)
  {
    queues := map[];
    for k := 0 to |parts|
      invariant QueuesOf(parts, k, queues)
    {
      var c := parts[k].color;
      if c !in queues {
        QueueEmpty(parts, c, {}, k);
      }
      queues := queues[c := (if c in queues then queues[c] else []) + [parts[k]]];
    }
  }

  /** `partition_by`: succeeds exactly when every check does, and then each color has the partitions of its
      components in the order of their first nodes. */
  method PartitionBy(g: ExecGraph, inputs: seq<(NodeId, IO)>)
      returns (r: Result<map<Color, seq<Partition>>, PartitionError>, ghost order: seq<NodeId>,
               ghost comps: seq<seq<NodeId>>, ghost parts: seq<Partition>)
    requires Consistent(g)
    ensures IsDagOrder(g, true, order) && AllComponents(g, comps) && Ordered(order, comps)
    ensures IsDag(g) ==> Partitioned(g, comps)
    ensures r.Ok? <==> Accepted(g, AsMap(inputs), comps)
    ensures r.Ok? <==> CanCut(g, inputs, comps)
    ensures r.Ok? ==> InputsAddressed(inputs, comps, parts)
    ensures r.Ok? ==> CutAs(g, AsMap(inputs), r.value, order, comps, parts)
    ensures r.Ok? ==> exists order, comps, parts :: CutAs(g, AsMap(inputs), r.value, order, comps, parts)
  {
    hide Consistent, IsDag, IsDagOrder, AllComponents, Separate, Ordered, EndpointsExist, Partitioned, Sub, InIdOrder, PieceFits, CutInto, IsSink,
         SetOf, QueuesOf, Accepted, CanCut, InputsAddressed, AsMap;
    ConsistentIsSound(g);
    var raw := AsMap(inputs);
    var found;
    parts := [];
    found, order := FindComponents(g);
    comps := found;
    AcceptedIff(g, inputs, comps);
    var subs := BuildAll(g, found);
    RejectedPiece(g, raw, comps);
    if subs.Err? {
      r := Err(subs.error);
      return;
    }
    var sinks := Sinks(g);
    if |sinks| != 1 {
      r := Err(RootNotUnique);
      return;
    }
    var root :| root in sinks;
    OnlyMember(sinks, root);
    AcceptedAt(g, raw, comps, root);
    var described := DescribeAll(g, raw, found, subs.value, root);
    if described.Err? {
      r := Err(described.error);
      return;
    }
    parts := described.value;
    var queues := Group(described.value);
    CutAddresses(g, inputs, comps, parts);
    assert CutAs(g, raw, queues, order, comps, parts);
    r := Ok(queues);
  }

  lemma RejectedPiece(g: ExecGraph, inputs: map<NodeId, IO>, comps: seq<seq<NodeId>>)
    ensures Accepted(g, inputs, comps) ==>
      |Sinks(g)| == 1 && forall i :: 0 <= i < |comps| ==> InIdOrder(Sub(g, SetOf(comps[i])))
  {
    hide EntryFits, ExitFits, InIdOrder;
  }

  lemma AcceptedAt(g: ExecGraph, inputs: map<NodeId, IO>, comps: seq<seq<NodeId>>, root: NodeId)
    requires Sinks(g) == {root}
    ensures Accepted(g, inputs, comps) <==> forall i :: 0 <= i < |comps| ==> PieceFits(g, inputs, comps[i], root)
  {
    hide PieceFits;
    assert forall other :: Sinks(g) == {other} ==> other == root;
  }
}
