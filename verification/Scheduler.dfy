/** The transitions of the graph scheduler of `zkml/src/graph/scheduler.rs`, on values. */
module SchedulerState {
  import opened Wrappers
  import opened Collections
  import opened PortGraph
  import opened DagOrder
  import opened Denotation

  datatype ReleasePolicy = All | UniqueColoring

  /** The mutable part of `GraphScheduler`; `weights` holds the edges whose weight is set. */
  datatype State = State(
    weights: map<EdgeId, IO>,
    waiting: InputData,
    running: set<NodeId>,
    done: set<NodeId>)

  function Started(s: State): set<NodeId> {
    s.running + s.done
  }

  // ---------------------------------------------------------------- initialisation

  predicate Fed(x: InputData, n: NodeId) {
    ExternalPorts(x, n) != {}
  }

  function FedSources(g: ExecGraph, x: InputData): (s: set<NodeId>)
    ensures forall n :: n in s <==> n in g.nodes && IsSource(g, n) && Fed(x, n)
  {
    set n | n in g.nodes && IsSource(g, n) && Fed(x, n)
  }

  /** Data addressed to nodes that also have predecessors waits. */
  function WaitingData(g: ExecGraph, x: InputData): (w: InputData)
    ensures forall i :: i in w <==> i in x && !IsSource(g, i.node)
    ensures forall i :: i in w ==> w[i] == x[i]
  {
    map i | i in x && !IsSource(g, i.node) :: x[i]
  }

  /** Exactly the nodes without predecessors that are given data have started, and the data of the others waits. */
  ghost predicate StartedByData(g: ExecGraph, x: InputData, waiting: InputData, running: set<NodeId>) {
    && (forall n :: n in running <==>
          n in g.nodes && (exists p :: NodeInput(n, p) in x) && forall e :: e in g.edges ==> g.edges[e].target != n)
    && (forall i :: i in waiting <==> i in x && exists e :: e in g.edges && g.edges[e].target == i.node)
    && forall i :: i in waiting ==> waiting[i] == x[i]
  }

  lemma InitByData(g: ExecGraph, x: InputData)
    ensures StartedByData(g, x, InitState(g, x).waiting, InitState(g, x).running)
  {
    forall n
      ensures IsSource(g, n) <==> forall e :: e in g.edges ==> g.edges[e].target != n
      ensures Fed(x, n) <==> exists p :: NodeInput(n, p) in x
    {
      if p :| NodeInput(n, p) in x {
        assert p in ExternalPorts(x, n);
      }
      if p :| p in ExternalPorts(x, n) {
        assert NodeInput(n, p) in x;
      }
    }
    hide IsSource, Fed;
  }

  function InitState(g: ExecGraph, x: InputData): State {
    State(map[], WaitingData(g, x), FedSources(g, x), {})
  }

  // ---------------------------------------------------------------- completion

  /** The outgoing edges of n whose target has neither started nor finished, n itself being done. */
  function FilledEdges(g: ExecGraph, s: State, n: NodeId): set<EdgeId> {
    set e | e in g.edges && Leaves(g, e, n)
            && g.edges[e].target !in s.done + {n} && g.edges[e].target !in s.running - {n}
  }

  ghost predicate CanFill(g: ExecGraph, s: State, n: NodeId, outputs: seq<IO>)
  {
    forall e :: e in FilledEdges(g, s, n) ==> SourcePort(g, e) < |outputs|
  }

  ghost function MarkDone(g: ExecGraph, s: State, n: NodeId, outputs: seq<IO>): State
    requires CanFill(g, s, n, outputs)
  {
    State(
      s.weights + map e | e in FilledEdges(g, s, n) :: outputs[SourcePort(g, e)],
      s.waiting,
      s.running - {n},
      s.done + {n})
  }

  /** The outputs no filled edge takes. */
  ghost function ReportedOutputs(g: ExecGraph, s: State, n: NodeId, outputs: seq<IO>): OutputData
  {
    map o: NodeOutput | o in OutputsOf(n, |outputs|) && !exists e :: e in FilledEdges(g, s, n) && SourcePort(g, e) == o.port
      :: outputs[o.port]
  }

  function OutputsOf(n: NodeId, k: nat): (s: set<NodeOutput>)
    ensures forall o :: o in s <==> o.node == n && o.port < k
  {
    if k == 0 then {} else OutputsOf(n, k - 1) + {NodeOutput(n, k - 1)}
  }

  /** Edge e leads from n to a node that has neither started nor finished, over that link only. */
  ghost predicate Feeds(g: ExecGraph, s: State, n: NodeId, e: EdgeId, link: PortLink) {
    && OnlyLink(g, e, link) && g.edges[e].source == n
    && g.edges[e].target !in s.done && g.edges[e].target !in s.running && g.edges[e].target != n
  }

  /** Every such edge has got the output its link names, no other edge has changed, and what is reported are exactly the outputs
      that none of these links names. */
  ghost predicate Distributes(g: ExecGraph, s: State, n: NodeId, outputs: seq<IO>, weights: map<EdgeId, IO>, reported: OutputData) {
    && (forall e, link :: Feeds(g, s, n, e, link) ==> link.sourcePort < |outputs| && e in weights && weights[e] == outputs[link.sourcePort])
    && (forall e :: (forall link :: !Feeds(g, s, n, e, link)) ==>
          (e in weights <==> e in s.weights) && (e in weights ==> weights[e] == s.weights[e]))
    && (forall o :: o in reported <==>
          o.node == n && o.port < |outputs| && forall e, link :: Feeds(g, s, n, e, link) ==> link.sourcePort != o.port)
    && forall o :: o in reported ==> reported[o] == outputs[o.port]
  }

  lemma FeedsFilled(g: ExecGraph, s: State, n: NodeId, e: EdgeId)
    requires forall f :: f in FilledEdges(g, s, n) ==> |g.edges[f].ports| == 1
    ensures e in FilledEdges(g, s, n) <==> exists link :: Feeds(g, s, n, e, link)
    ensures forall link :: Feeds(g, s, n, e, link) ==> SourcePort(g, e) == link.sourcePort
  {
    if e in FilledEdges(g, s, n) {
      assert Feeds(g, s, n, e, g.edges[e].ports[0]);
    }
  }

  lemma LinkWeights(g: ExecGraph, s: State, n: NodeId, outputs: seq<IO>)
    requires forall e :: e in FilledEdges(g, s, n) <==> exists link :: Feeds(g, s, n, e, link)
    requires forall e, link :: Feeds(g, s, n, e, link) ==> SourcePort(g, e) == link.sourcePort
    requires CanFill(g, s, n, outputs)
    ensures var weights := MarkDone(g, s, n, outputs).weights;
      && (forall e, link :: Feeds(g, s, n, e, link) ==> link.sourcePort < |outputs| && e in weights && weights[e] == outputs[link.sourcePort])
      && forall e :: (forall link :: !Feeds(g, s, n, e, link)) ==>
           (e in weights <==> e in s.weights) && (e in weights ==> weights[e] == s.weights[e])
  {
    hide FilledEdges, Feeds, SourcePort;
    var weights := MarkDone(g, s, n, outputs).weights;
    forall e, link | Feeds(g, s, n, e, link)
      ensures link.sourcePort < |outputs| && e in weights && weights[e] == outputs[link.sourcePort]
    {
      assert e in FilledEdges(g, s, n);
    }
  }

  /** `mark_done`, link by link. */
  lemma MarkDoneByLink(g: ExecGraph, s: State, n: NodeId, outputs: seq<IO>)
    requires CanFill(g, s, n, outputs) && forall f :: f in FilledEdges(g, s, n) ==> |g.edges[f].ports| == 1
    ensures Distributes(g, s, n, outputs, MarkDone(g, s, n, outputs).weights, ReportedOutputs(g, s, n, outputs))
  {
    hide FilledEdges, Feeds, SourcePort, CanFill, MarkDone;
    forall e
      ensures e in FilledEdges(g, s, n) <==> exists link :: Feeds(g, s, n, e, link)
      ensures forall link :: Feeds(g, s, n, e, link) ==> SourcePort(g, e) == link.sourcePort
    {
      FeedsFilled(g, s, n, e);
    }
    LinkWeights(g, s, n, outputs);
    forall o: NodeOutput
      ensures o in ReportedOutputs(g, s, n, outputs) <==>
        o.node == n && o.port < |outputs| && forall e, link :: Feeds(g, s, n, e, link) ==> link.sourcePort != o.port
    {
      TakenByLink(g, s, n, o.port);
    }
  }

  lemma TakenByLink(g: ExecGraph, s: State, n: NodeId, p: PortId)
    requires forall e :: e in FilledEdges(g, s, n) <==> exists link :: Feeds(g, s, n, e, link)
    requires forall e, link :: Feeds(g, s, n, e, link) ==> SourcePort(g, e) == link.sourcePort
    ensures (exists e :: e in FilledEdges(g, s, n) && SourcePort(g, e) == p) <==> exists e, link :: Feeds(g, s, n, e, link) && link.sourcePort == p
  {
    hide FilledEdges, Feeds, SourcePort;
    if e :| e in FilledEdges(g, s, n) && SourcePort(g, e) == p {
      var link :| Feeds(g, s, n, e, link);
    }
    if e, link :| Feeds(g, s, n, e, link) && link.sourcePort == p {
      assert e in FilledEdges(g, s, n);
    }
  }

  // ---------------------------------------------------------------- release

  /** A node all of whose incoming edges (at least one) carry data and that is not running. */
  predicate Candidate(g: ExecGraph, s: State, n: NodeId) {
    !IsSource(g, n) && (forall e | e in g.edges :: Enters(g, e, n) ==> e in s.weights) && n !in s.running
  }

  predicate Accepts(policy: ReleasePolicy, g: ExecGraph, s: State, n: NodeId)
    requires n in g.nodes && s.running <= g.nodes.Keys
  {
    policy.UniqueColoring? ==> forall m | m in s.running :: g.nodes[m].color != g.nodes[n].color
  }

  function EdgesInto(g: ExecGraph, n: NodeId): set<EdgeId> {
    set e | e in g.edges && Enters(g, e, n)
  }

  function InputsOf(x: InputData, n: NodeId): set<NodeInput> {
    set i | i in x && i.node == n
  }

  function Release(g: ExecGraph, s: State, n: NodeId): State {
    State(s.weights - EdgesInto(g, n), s.waiting - InputsOf(s.waiting, n), s.running + {n}, s.done)
  }

  ghost function CarriedInputs(g: ExecGraph, s: State, n: NodeId): map<PortId, IO>
    requires Candidate(g, s, n)
  {
    map p | p in PortsInto(g, n) :: s.weights[EdgeInto(g, n, p)]
  }

  /** The argument list handed to a released node. */
  ghost function ReleasedInputs(g: ExecGraph, s: State, n: NodeId): seq<IO>
    requires Candidate(g, s, n)
  {
    InPortOrder(CarriedInputs(g, s, n) + ExternalInputs(s.waiting, n))
  }

  // ---------------------------------------------------------------- runs and their invariant

  /** A scheduler together with what its driver knows: the inputs handed to running nodes,
      the results of finished ones, and the outputs collected so far. */
  datatype Run = Run(s: State, inputs: map<NodeId, seq<IO>>, val: Values, outputs: OutputData)

  ghost predicate Legal(g: ExecGraph, x: InputData) {
    && WellFormed(g) && IsDag(g) && EnoughOutputs(g)
    && (forall i :: i in x ==> i.node in g.nodes)
    && forall n :: n in g.nodes && IsSource(g, n) ==> Fed(x, n)
  }

  ghost function InitRun(g: ExecGraph, x: InputData): Run {
    Run(InitState(g, x), map n | n in FedSources(g, x) :: InPortOrder(ExternalInputs(x, n)), map[], map[])
  }

  /** Node sets: started nodes are nodes, sources have started, predecessors of started nodes are done. */
  ghost predicate InvSets(g: ExecGraph, s: State) {
    && s.running !! s.done && Started(s) <= g.nodes.Keys
    && (forall n :: n in g.nodes && IsSource(g, n) ==> n in Started(s))
    && forall e :: e in g.edges && g.edges[e].target in Started(s) ==> g.edges[e].source in s.done
  }

  /** An edge is full exactly while its source is done and its target has not started,
      and it then carries the value of its source port. */
  ghost predicate InvWeights(g: ExecGraph, s: State, val: Values)
  {
    && (forall e :: e in s.weights <==> e in g.edges && g.edges[e].source in s.done && g.edges[e].target !in Started(s))
    && forall e :: e in g.edges && g.edges[e].source in s.done ==>
         g.edges[e].source in val && SourcePort(g, e) < |val[g.edges[e].source]|
         && (e in s.weights ==> s.weights[e] == EdgeValue(g, val, e))
  }

  /** External data waits exactly for the nodes that have not started. */
  ghost predicate InvWaiting(g: ExecGraph, x: InputData, s: State) {
    && (forall i :: i in s.waiting <==> i in x && i.node !in Started(s) && !IsSource(g, i.node))
    && forall i :: i in s.waiting ==> s.waiting[i] == x[i]
  }

  ghost predicate HasInputs(g: ExecGraph, x: InputData, r: Run, n: NodeId)
  {
    n in r.inputs && Supplied(g, r.val, n) && r.inputs[n] == Inputs(g, x, r.val, n)
  }

  /** Running nodes hold their inputs; finished nodes have evaluated. */
  ghost predicate InvValues(g: ExecGraph, x: InputData, r: Run)
  {
    && r.inputs.Keys == r.s.running && r.val.Keys == r.s.done
    && (forall n :: n in r.s.running ==> HasInputs(g, x, r, n))
    && forall n :: n in r.s.done ==> EvaluatesTo(g, x, r.val, n)
  }

  ghost predicate Inv(g: ExecGraph, x: InputData, r: Run)
  {
    && InvSets(g, r.s)
    && InvWeights(g, r.s, r.val)
    && InvWaiting(g, x, r.s)
    && InvValues(g, x, r)
    && r.outputs == GraphOutputs(g, r.val)
  }

  lemma SourceHasNoPorts(g: ExecGraph, n: NodeId)
    requires IsSource(g, n)
    ensures PortsInto(g, n) == {}
  {
    forall p
      ensures p !in PortsInto(g, n)
    {
      assert forall e, i :: LinkAt(g, e, i, n, p) ==> Enters(g, e, n);
    }
  }

  lemma InitSets(g: ExecGraph, x: InputData)
    requires forall n :: n in g.nodes && IsSource(g, n) ==> Fed(x, n)
    ensures InvSets(g, InitState(g, x))
  {
    hide Fed;
    var s := InitState(g, x);
    forall e | e in g.edges
      ensures g.edges[e].target !in Started(s)
    {
      assert Enters(g, e, g.edges[e].target);
    }
  }

  lemma InitValues(g: ExecGraph, x: InputData)
    ensures InvValues(g, x, InitRun(g, x))
  {
    hide InPortOrder, Fed, IsSource, Inputs, Supplied, ExternalInputs, WaitingData;
    var r := InitRun(g, x);
    forall n | n in r.s.running
      ensures HasInputs(g, x, r, n)
    {
      SourceInputs(g, x, n);
    }
  }

  /** A source is evaluated on its external data alone. */
  lemma SourceInputs(g: ExecGraph, x: InputData, n: NodeId)
    requires IsSource(g, n)
    ensures Supplied(g, map[], n) && Inputs(g, x, map[], n) == InPortOrder(ExternalInputs(x, n))
  {
    hide InPortOrder;
    SourceHasNoPorts(g, n);
    assert Supplied(g, map[], n);
    assert EdgeInputs(g, map[], n) == map[];
    assert map[] + ExternalInputs(x, n) == ExternalInputs(x, n);
  }

  lemma InitWaiting(g: ExecGraph, x: InputData)
    ensures InvWaiting(g, x, InitState(g, x))
  {
    hide IsSource, Fed, FedSources, WaitingData;
  }

  lemma InitInv(g: ExecGraph, x: InputData)
    requires Legal(g, x)
    ensures Inv(g, x, InitRun(g, x))
  {
    InitSets(g, x);
    InitValues(g, x);
    InitWaiting(g, x);
    NothingYet(g, InitState(g, x));
    hide InvSets, InvValues, InvWaiting, InvWeights, GraphOutputs, Legal, FedSources, InPortOrder, ExternalInputs, InitState;
  }

  lemma NothingYet(g: ExecGraph, s: State)
    requires s.weights == map[] && s.done == {}
    ensures InvWeights(g, s, map[]) && GraphOutputs(g, map[]) == map[]
  {
    hide Consumed;
    assert FreeOutputs(g, map[]) == {};
  }

  // ---------------------------------------------------------------- completion keeps the invariant

  /** What the driver does when node n returns: mark it done, keep its result, collect reported outputs. */
  ghost function Complete(g: ExecGraph, r: Run, n: NodeId, out: seq<IO>): Run
    requires CanFill(g, r.s, n, out)
  {
    Run(MarkDone(g, r.s, n, out), r.inputs - {n}, r.val[n := out], r.outputs + ReportedOutputs(g, r.s, n, out))
  }

  /** No target of a completing node is running or done, so every outgoing edge is filled. */
  lemma AllOutgoingFilled(g: ExecGraph, s: State, n: NodeId)
    requires EndpointsExist(g) && InvSets(g, s) && n in s.running
    ensures forall e :: Leaves(g, e, n) ==> g.edges[e].target !in Started(s)
    ensures FilledEdges(g, s, n) == set e | e in g.edges && Leaves(g, e, n)
  {}

  lemma CompletionCanFill(g: ExecGraph, s: State, n: NodeId, out: seq<IO>)
    requires EndpointsExist(g) && EnoughOutputs(g) && InvSets(g, s) && n in s.running
    requires exists ins :: g.nodes[n].run(ins) == Some(out)
    ensures CanFill(g, s, n, out)
  {
    var ins :| g.nodes[n].run(ins) == Some(out);
    AllOutgoingFilled(g, s, n);
  }

  lemma CompleteSets(g: ExecGraph, s: State, n: NodeId, out: seq<IO>)
    requires InvSets(g, s) && n in s.running && CanFill(g, s, n, out)
    ensures InvSets(g, MarkDone(g, s, n, out))
    ensures Started(MarkDone(g, s, n, out)) == Started(s)
  {
    hide CanFill, FilledEdges;
    assert Started(MarkDone(g, s, n, out)) == Started(s);
  }

  /** What InvWeights says of one edge. */
  ghost predicate EdgeInv(g: ExecGraph, s: State, val: Values, e: EdgeId)
  {
    && (e in s.weights <==> e in g.edges && g.edges[e].source in s.done && g.edges[e].target !in Started(s))
    && (e in g.edges && g.edges[e].source in s.done ==>
          g.edges[e].source in val && SourcePort(g, e) < |val[g.edges[e].source]|
          && (e in s.weights ==> s.weights[e] == EdgeValue(g, val, e)))
  }

  lemma InvWeightsByEdge(g: ExecGraph, s: State, val: Values)
    ensures InvWeights(g, s, val) <==> forall e :: EdgeInv(g, s, val, e)
  {
    if forall e :: EdgeInv(g, s, val, e) {
      forall e
        ensures e in s.weights <==> e in g.edges && g.edges[e].source in s.done && g.edges[e].target !in Started(s)
        ensures e in g.edges && g.edges[e].source in s.done ==>
          g.edges[e].source in val && SourcePort(g, e) < |val[g.edges[e].source]|
          && (e in s.weights ==> s.weights[e] == EdgeValue(g, val, e))
      {
        assert EdgeInv(g, s, val, e);
      }
    }
  }

  lemma CompleteEdge(g: ExecGraph, s: State, val: Values, n: NodeId, out: seq<IO>, e: EdgeId)
    requires EndpointsExist(g) && InvSets(g, s) && n in s.running && CanFill(g, s, n, out)
    requires EdgeInv(g, s, val, e) && val.Keys == s.done
    ensures EdgeInv(g, MarkDone(g, s, n, out), val[n := out], e)
  {
    AllOutgoingFilled(g, s, n);
    CompleteSets(g, s, n, out);
    hide InvSets, EndpointsExist;
    assert e in FilledEdges(g, s, n) <==> e in g.edges && g.edges[e].source == n;
  }

  lemma CompleteWeights(g: ExecGraph, s: State, val: Values, n: NodeId, out: seq<IO>)
    requires EndpointsExist(g) && InvSets(g, s) && n in s.running && CanFill(g, s, n, out)
    requires InvWeights(g, s, val) && val.Keys == s.done
    ensures InvWeights(g, MarkDone(g, s, n, out), val[n := out])
  {
    hide InvSets, InvWeights, EndpointsExist, CanFill, EdgeInv, MarkDone;
    InvWeightsByEdge(g, s, val);
    var t, v := MarkDone(g, s, n, out), val[n := out];
    InvWeightsByEdge(g, t, v);
    forall e
      ensures EdgeInv(g, t, v, e)
    {
      CompleteEdge(g, s, val, n, out, e);
    }
  }

  /** Results of other nodes do not change what a started node is given. */
  lemma StartedInputsFrame(g: ExecGraph, x: InputData, s: State, val: Values, n: NodeId, out: seq<IO>, m: NodeId)
    requires InvSets(g, s) && val.Keys == s.done && n !in s.done && m in Started(s)
    requires Supplied(g, val, m)
    ensures Supplied(g, val[n := out], m) && Inputs(g, x, val[n := out], m) == Inputs(g, x, val, m)
  {
    assert forall e :: Enters(g, e, m) ==> g.edges[e].source in s.done;
    hide Inputs, InvSets, Supplied;
    InputsFrame(g, x, val, val[n := out], m);
  }

  lemma CompleteNode(g: ExecGraph, x: InputData, r: Run, n: NodeId, out: seq<IO>, m: NodeId)
    requires InvSets(g, r.s) && n in r.s.running && CanFill(g, r.s, n, out)
    requires InvValues(g, x, r) && g.nodes[n].run(r.inputs[n]) == Some(out) && m in Started(r.s)
    ensures m in r.s.running && m != n ==> HasInputs(g, x, Complete(g, r, n, out), m)
    ensures m in r.s.done || m == n ==> EvaluatesTo(g, x, Complete(g, r, n, out).val, m)
  {
    hide Inputs, Supplied, CanFill, MarkDone, ReportedOutputs;
    assert m in r.s.running ==> HasInputs(g, x, r, m);
    assert m in r.s.done ==> EvaluatesTo(g, x, r.val, m);
    StartedInputsFrame(g, x, r.s, r.val, n, out, m);
  }

  lemma CompleteKeys(g: ExecGraph, r: Run, n: NodeId, out: seq<IO>)
    requires r.inputs.Keys == r.s.running && r.val.Keys == r.s.done && CanFill(g, r.s, n, out)
    ensures var t := Complete(g, r, n, out);
            && t.s.running == r.s.running - {n} && t.s.done == r.s.done + {n}
            && t.inputs.Keys == t.s.running && t.val.Keys == t.s.done
  {
    hide CanFill, ReportedOutputs, FilledEdges;
  }

  lemma CompleteValues(g: ExecGraph, x: InputData, r: Run, n: NodeId, out: seq<IO>)
    requires InvSets(g, r.s) && n in r.s.running && CanFill(g, r.s, n, out)
    requires InvValues(g, x, r) && g.nodes[n].run(r.inputs[n]) == Some(out)
    ensures InvValues(g, x, Complete(g, r, n, out))
  {
    hide InvSets, CanFill, MarkDone, ReportedOutputs, Complete, HasInputs, EvaluatesTo;
    CompleteKeys(g, r, n, out);
    var t := Complete(g, r, n, out);
    forall m | m in r.s.running || m in r.s.done
      ensures m in t.s.running ==> HasInputs(g, x, t, m)
      ensures m in t.s.done ==> EvaluatesTo(g, x, t.val, m)
    {
      CompleteNode(g, x, r, n, out, m);
    }
  }

  lemma ReportedExactly(g: ExecGraph, s: State, n: NodeId, out: seq<IO>, o: NodeOutput)
    requires EndpointsExist(g) && InvSets(g, s) && n in s.running
    ensures o in ReportedOutputs(g, s, n, out) <==> o.node == n && o.port < |out| && !Consumed(g, n, o.port)
    ensures o in ReportedOutputs(g, s, n, out) ==> ReportedOutputs(g, s, n, out)[o] == out[o.port]
  {
    AllOutgoingFilled(g, s, n);
    hide InvSets, EndpointsExist;
    if o.node == n && Consumed(g, n, o.port) {
      var e :| e in g.edges && g.edges[e].source == n && SourcePort(g, e) == o.port;
      assert e in FilledEdges(g, s, n);
    }
  }

  lemma CompleteOutputs(g: ExecGraph, s: State, val: Values, n: NodeId, out: seq<IO>)
    requires EndpointsExist(g) && InvSets(g, s) && n in s.running && n !in val
    ensures GraphOutputs(g, val) + ReportedOutputs(g, s, n, out) == GraphOutputs(g, val[n := out])
  {
    hide InvSets, EndpointsExist, FreeOutputs, ReportedOutputs, Consumed;
    var a, b, rep := GraphOutputs(g, val), GraphOutputs(g, val[n := out]), ReportedOutputs(g, s, n, out);
    forall o
      ensures o in b <==> o in a || o in rep
      ensures o in rep ==> o !in a && b[o] == rep[o]
      ensures o in a ==> o in b && b[o] == a[o]
    {
      ReportedExactly(g, s, n, out, o);
    }
  }

  lemma CompleteWaiting(g: ExecGraph, x: InputData, s: State, n: NodeId, out: seq<IO>)
    requires InvWaiting(g, x, s) && CanFill(g, s, n, out) && n in s.running
    ensures InvWaiting(g, x, MarkDone(g, s, n, out))
  {
    hide CanFill, FilledEdges, IsSource;
    var t := MarkDone(g, s, n, out);
    assert Started(t) == Started(s);
  }

  lemma LegalParts(g: ExecGraph, x: InputData)
    requires Legal(g, x)
    ensures OneLink(g) && Consistent(g) && EndpointsExist(g) && EnoughOutputs(g) && IsDag(g)
  {}

  lemma InvParts(g: ExecGraph, x: InputData, r: Run)
    requires Inv(g, x, r)
    ensures r.s.running !! r.s.done && Started(r.s) <= g.nodes.Keys
    ensures r.inputs.Keys == r.s.running && r.val.Keys == r.s.done
  {}

  lemma CompleteKeepsInv(g: ExecGraph, x: InputData, r: Run, n: NodeId, out: seq<IO>)
    requires Legal(g, x) && Inv(g, x, r) && n in r.s.running
    requires n in r.inputs && g.nodes[n].run(r.inputs[n]) == Some(out)
    ensures CanFill(g, r.s, n, out) && Inv(g, x, Complete(g, r, n, out))
  {
    hide Legal, InvSets, InvWeights, InvValues, InvWaiting, GraphOutputs, CanFill, ReportedOutputs, EnoughOutputs, EndpointsExist, MarkDone;
    LegalParts(g, x);
    InvParts(g, x, r);
    CompletionCanFill(g, r.s, n, out);
    CompleteSets(g, r.s, n, out);
    CompleteWeights(g, r.s, r.val, n, out);
    CompleteValues(g, x, r, n, out);
    CompleteOutputs(g, r.s, r.val, n, out);
    CompleteWaiting(g, x, r.s, n, out);
  }

  // ---------------------------------------------------------------- release keeps the invariant

  ghost function Released(g: ExecGraph, r: Run, n: NodeId): Run
    requires Candidate(g, r.s, n)
  {
    Run(Release(g, r.s, n), r.inputs[n := ReleasedInputs(g, r.s, n)], r.val, r.outputs)
  }

  lemma CandidateIsFresh(g: ExecGraph, s: State, val: Values, n: NodeId)
    requires EndpointsExist(g) && InvWeights(g, s, val) && Candidate(g, s, n)
    ensures n in g.nodes && n !in Started(s)
    ensures forall e :: Enters(g, e, n) ==> e in s.weights && g.edges[e].source in s.done
    ensures Supplied(g, val, n)
  {
    var e :| e in g.edges && Enters(g, e, n);
    assert e in s.weights;
  }

  lemma ReleaseSets(g: ExecGraph, s: State, n: NodeId)
    requires InvSets(g, s) && n in g.nodes && n !in Started(s)
    requires forall e :: Enters(g, e, n) ==> g.edges[e].source in s.done
    ensures InvSets(g, Release(g, s, n)) && Started(Release(g, s, n)) == Started(s) + {n}
  {
    hide IsSource, EdgesInto, InputsOf;
    var t := Release(g, s, n);
    assert Started(t) == Started(s) + {n};
    forall e | e in g.edges && g.edges[e].target in Started(t)
      ensures g.edges[e].source in t.done
    {
      assert g.edges[e].target == n ==> Enters(g, e, n);
    }
  }

  lemma ReleaseWeights(g: ExecGraph, s: State, val: Values, n: NodeId)
    requires InvWeights(g, s, val) && n !in Started(s)
    ensures InvWeights(g, Release(g, s, n), val)
  {
    hide InvWeights, InputsOf;
    var t := Release(g, s, n);
    InvWeightsByEdge(g, s, val);
    InvWeightsByEdge(g, t, val);
    forall e
      ensures EdgeInv(g, t, val, e)
    {
      assert EdgeInv(g, s, val, e);
    }
  }

  lemma ReleaseWaiting(g: ExecGraph, x: InputData, s: State, n: NodeId)
    requires InvWaiting(g, x, s)
    ensures InvWaiting(g, x, Release(g, s, n))
  {
    hide IsSource, EdgesInto;
  }

  /** A released node receives exactly its inputs: edge data and waiting data in port order. */
  lemma ReleasedGetInputs(g: ExecGraph, x: InputData, s: State, val: Values, n: NodeId)
    requires EndpointsExist(g) && InvWeights(g, s, val) && InvWaiting(g, x, s) && Candidate(g, s, n)
    ensures Supplied(g, val, n) && ReleasedInputs(g, s, n) == Inputs(g, x, val, n)
  {
    CandidateIsFresh(g, s, val, n);
    assert CarriedInputs(g, s, n) == EdgeInputs(g, val, n) by {
      CarriedIsEdgeInputs(g, s, val, n);
    }
    assert ExternalInputs(s.waiting, n) == ExternalInputs(x, n) by {
      assert !IsSource(g, n);
      hide IsSource, InvWeights, Candidate;
      assert ExternalPorts(s.waiting, n) == ExternalPorts(x, n);
    }
    hide InPortOrder, CarriedInputs, EdgeInputs, ExternalInputs, InvWeights, InvWaiting, Candidate;
  }

  lemma CarriedIsEdgeInputs(g: ExecGraph, s: State, val: Values, n: NodeId)
    requires InvWeights(g, s, val) && Candidate(g, s, n) && Supplied(g, val, n)
    ensures CarriedInputs(g, s, n) == EdgeInputs(g, val, n)
  {
    hide PortsInto, EdgeInto;
    var a, b := CarriedInputs(g, s, n), EdgeInputs(g, val, n);
    assert a.Keys == b.Keys;
    forall p | p in PortsInto(g, n)
      ensures a[p] == b[p]
    {
      assert Enters(g, EdgeInto(g, n, p), n);
    }
  }

  lemma ReleaseValues(g: ExecGraph, x: InputData, r: Run, n: NodeId)
    requires InvValues(g, x, r) && Candidate(g, r.s, n) && n !in Started(r.s)
    requires Supplied(g, r.val, n) && ReleasedInputs(g, r.s, n) == Inputs(g, x, r.val, n)
    ensures InvValues(g, x, Released(g, r, n))
  {
    hide EvaluatesTo, Inputs, Supplied, ReleasedInputs, Candidate, EdgesInto, InputsOf;
    var t := Released(g, r, n);
    forall m | m in t.s.running
      ensures HasInputs(g, x, t, m)
    {
      assert m != n ==> HasInputs(g, x, r, m);
    }
  }

  lemma ReleaseKeepsInv(g: ExecGraph, x: InputData, r: Run, n: NodeId)
    requires Legal(g, x) && Inv(g, x, r) && Candidate(g, r.s, n)
    ensures n in g.nodes && n !in Started(r.s) && Inv(g, x, Released(g, r, n))
    ensures Supplied(g, r.val, n) && ReleasedInputs(g, r.s, n) == Inputs(g, x, r.val, n)
  {
    hide Legal, InvSets, InvWeights, InvValues, InvWaiting, GraphOutputs, EnoughOutputs, EndpointsExist, Candidate, Supplied,
         Inputs, ReleasedInputs, Release, Started, Enters;
    LegalParts(g, x);
    CandidateIsFresh(g, r.s, r.val, n);
    ReleaseSets(g, r.s, n);
    ReleaseWeights(g, r.s, r.val, n);
    ReleaseWaiting(g, x, r.s, n);
    ReleasedGetInputs(g, x, r.s, r.val, n);
    ReleaseValues(g, x, r, n);
  }

  // ---------------------------------------------------------------- progress

  ghost predicate IsDone(g: ExecGraph, s: State) {
    s.running == {} && |s.done| == |g.nodes|
  }

  /** In a reachable state the count of finished nodes is full exactly when every node has finished; then nothing
      runs either. */
  lemma DoneMeansAll(g: ExecGraph, s: State)
    requires InvSets(g, s)
    ensures IsDone(g, s) <==> s.running == {} && s.done == g.nodes.Keys
    ensures IsDone(g, s) <==> s.done == g.nodes.Keys
  {
    assert s.done == g.nodes.Keys ==> s.running * s.done == s.running;
    if IsDone(g, s) {
      SubsetOfSameSize(s.done, g.nodes.Keys);
    }
  }

  lemma LowestUnfinished(g: ExecGraph, rank: map<NodeId, nat>, s: State, val: Values) returns (n: NodeId)
    requires EndpointsExist(g) && Ranked(g, rank) && InvSets(g, s) && InvWeights(g, s, val)
    requires s.running == {} && s.done != g.nodes.Keys
    ensures n in g.nodes && Candidate(g, s, n)
  {
    var left := g.nodes.Keys - s.done;
    assert left != {};
    n := ExtremeRank(rank, true, left);
    PredecessorsDone(g, rank, s, val, n);
  }

  lemma PredecessorsDone(g: ExecGraph, rank: map<NodeId, nat>, s: State, val: Values, n: NodeId)
    requires EndpointsExist(g) && Ranked(g, rank) && InvSets(g, s) && InvWeights(g, s, val) && s.running == {}
    requires n in g.nodes && n !in s.done && forall m :: m in g.nodes && m !in s.done ==> rank[n] <= rank[m]
    ensures Candidate(g, s, n)
  {
    assert !IsSource(g, n);
    hide IsSource;
    forall e | e in g.edges && Enters(g, e, n)
      ensures e in s.weights
    {
      assert g.edges[e].source in s.done;
    }
  }

  /** With nothing running, an unfinished acyclic run has a node ready to release. */
  lemma Progress(g: ExecGraph, x: InputData, r: Run)
    requires Legal(g, x) && Inv(g, x, r) && r.s.running == {} && !IsDone(g, r.s)
    ensures exists n :: n in g.nodes && Candidate(g, r.s, n)
  {
    hide Legal, InvSets, InvWeights, InvValues, InvWaiting, GraphOutputs, EnoughOutputs, EndpointsExist, Candidate, Ranked;
    LegalParts(g, x);
    DoneMeansAll(g, r.s);
    var rank :| Ranked(g, rank);
    var n := LowestUnfinished(g, rank, r.s, r.val);
  }

  /** A finished run has evaluated the whole graph; nothing is left on an edge or waiting. */
  lemma FinishedRun(g: ExecGraph, x: InputData, r: Run)
    requires Legal(g, x) && Inv(g, x, r) && IsDone(g, r.s)
    ensures IsValuation(g, x, r.val) && r.outputs == GraphOutputs(g, r.val)
    ensures r.s.weights == map[] && r.s.waiting == map[]
  {
    hide GraphOutputs, EvaluatesTo, EnoughOutputs;
    DoneMeansAll(g, r.s);
    assert forall e :: e in g.edges ==> g.edges[e].target in Started(r.s);
    assert r.s.weights.Keys == {};
    assert r.s.waiting.Keys == {};
  }

  // ---------------------------------------------------------------- every interleaving

  /** One step of any driver: some running node returns, or some acceptable candidate is released. */
  ghost predicate Completes(g: ExecGraph, r: Run, t: Run, n: NodeId) {
    && n in r.s.running && n in r.inputs
    && g.nodes.Keys >= r.s.running && g.nodes[n].run(r.inputs[n]).Some?
    && CanFill(g, r.s, n, g.nodes[n].run(r.inputs[n]).value)
    && t == Complete(g, r, n, g.nodes[n].run(r.inputs[n]).value)
  }

  ghost predicate Releases(g: ExecGraph, policy: ReleasePolicy, r: Run, t: Run, n: NodeId) {
    && n in g.nodes && g.nodes.Keys >= r.s.running
    && Candidate(g, r.s, n) && Accepts(policy, g, r.s, n)
    && t == Released(g, r, n)
  }

  ghost predicate Step(g: ExecGraph, policy: ReleasePolicy, r: Run, t: Run) {
    (exists n :: Completes(g, r, t, n)) || (exists n :: Releases(g, policy, r, t, n))
  }

  ghost predicate Execution(g: ExecGraph, x: InputData, policy: ReleasePolicy, rs: seq<Run>) {
    && |rs| >= 1 && rs[0] == InitRun(g, x)
    && forall i :: 0 <= i < |rs| - 1 ==> Step(g, policy, rs[i], rs[i + 1])
  }

  lemma CompletesKeepsInv(g: ExecGraph, x: InputData, r: Run, t: Run, n: NodeId)
    requires Legal(g, x) && Inv(g, x, r) && Completes(g, r, t, n)
    ensures Inv(g, x, t)
    ensures t.s.done == r.s.done + {n} && n !in r.s.done && Started(t.s) == Started(r.s)
  {
    hide Legal, Inv, Candidate, Complete, CanFill;
    CompleteKeepsInv(g, x, r, n, g.nodes[n].run(r.inputs[n]).value);
    CompleteMoves(g, x, r, n, g.nodes[n].run(r.inputs[n]).value);
  }

  lemma ReleasesKeepsInv(g: ExecGraph, x: InputData, policy: ReleasePolicy, r: Run, t: Run, n: NodeId)
    requires Legal(g, x) && Inv(g, x, r) && Releases(g, policy, r, t, n)
    ensures Inv(g, x, t)
    ensures t.s.done == r.s.done && n !in Started(r.s) && Started(t.s) == Started(r.s) + {n}
  {
    hide Legal, Inv, Candidate, Released, Accepts;
    ReleaseKeepsInv(g, x, r, n);
    ReleaseMoves(g, r, n);
  }

  /** Every step keeps the invariant and makes one unit of progress: a node finished or a node started. */
  lemma StepKeepsInv(g: ExecGraph, x: InputData, policy: ReleasePolicy, r: Run, t: Run)
    requires Legal(g, x) && Inv(g, x, r) && Step(g, policy, r, t)
    ensures Inv(g, x, t)
    ensures r.s.done <= t.s.done && Started(r.s) <= Started(t.s)
    ensures |t.s.done| + |Started(t.s)| == |r.s.done| + |Started(r.s)| + 1
  {
    hide Legal, Inv, Completes, Releases, Started;
    if n :| Completes(g, r, t, n) {
      CompletesKeepsInv(g, x, r, t, n);
    } else {
      var n :| Releases(g, policy, r, t, n);
      ReleasesKeepsInv(g, x, policy, r, t, n);
    }
  }

  lemma CompleteMoves(g: ExecGraph, x: InputData, r: Run, n: NodeId, out: seq<IO>)
    requires Inv(g, x, r) && n in r.s.running && CanFill(g, r.s, n, out)
    ensures Complete(g, r, n, out).s.done == r.s.done + {n} && n !in r.s.done
    ensures Started(Complete(g, r, n, out).s) == Started(r.s)
  {
    hide CanFill, ReportedOutputs, FilledEdges, InvWeights, InvValues, InvWaiting, GraphOutputs;
    assert Started(Complete(g, r, n, out).s) == Started(r.s);
  }

  lemma ReleaseMoves(g: ExecGraph, r: Run, n: NodeId)
    requires Candidate(g, r.s, n)
    ensures Released(g, r, n).s.done == r.s.done
    ensures Started(Released(g, r, n).s) == Started(r.s) + {n}
  {
    hide Candidate, ReleasedInputs, EdgesInto, InputsOf;
    assert Started(Released(g, r, n).s) == Started(r.s) + {n};
  }

  lemma {:induction false} InvAlong(g: ExecGraph, x: InputData, policy: ReleasePolicy, rs: seq<Run>, i: nat)
    requires Legal(g, x) && Execution(g, x, policy, rs) && i < |rs|
    ensures Inv(g, x, rs[i])
    ensures |rs[i].s.done| + |Started(rs[i].s)| == |Started(rs[0].s)| + i
  {
    hide Legal, Inv, Step;
    InitInv(g, x);
    if i > 0 {
      InvAlong(g, x, policy, rs, i - 1);
      StepKeepsInv(g, x, policy, rs[i - 1], rs[i]);
    } else {
      assert rs[0].s.done == {};
    }
  }

  lemma FinishedAgrees(g: ExecGraph, x: InputData, r: Run, val: Values)
    requires Legal(g, x) && Inv(g, x, r) && IsDone(g, r.s) && IsValuation(g, x, val)
    ensures r.val == val && r.outputs == GraphOutputs(g, val)
  {
    hide Legal, Inv, GraphOutputs, IsValuation, IsDone;
    FinishedRun(g, x, r);
    LegalParts(g, x);
    ValuationUnique(g, x, r.val, val);
  }

  /** Confluence: whatever the policy and the completion order, a finished run has produced
      the outputs of the graph's one meaning. */
  lemma Confluence(g: ExecGraph, x: InputData, policy: ReleasePolicy, rs: seq<Run>, val: Values)
    requires Legal(g, x) && Execution(g, x, policy, rs) && IsDone(g, rs[|rs| - 1].s)
    requires IsValuation(g, x, val)
    ensures rs[|rs| - 1].outputs == GraphOutputs(g, val)
  {
    hide Legal, Inv, GraphOutputs, IsValuation, IsDone, Step;
    InvAlong(g, x, policy, rs, |rs| - 1);
    FinishedAgrees(g, x, rs[|rs| - 1], val);
  }

  lemma WorkDone(g: ExecGraph, s: State)
    requires InvSets(g, s)
    ensures |s.done| <= |g.nodes| && |Started(s)| <= |g.nodes|
    ensures IsDone(g, s) <==> |s.done| + |Started(s)| == 2 * |g.nodes|
  {
    SubsetSize(s.done, g.nodes.Keys);
    SubsetSize(Started(s), g.nodes.Keys);
    DoneMeansAll(g, s);
    if s.running == {} && s.done == g.nodes.Keys {
      assert Started(s) == g.nodes.Keys;
    } else if |s.done| == |g.nodes| {
      SubsetOfSameSize(s.done, g.nodes.Keys);
    }
  }

  /** Every run is finite, and finished exactly when each node has been released or fed once and
      completed once: 2 |nodes| steps, of which the releases of the sources happen at initialisation. */
  lemma RunLength(g: ExecGraph, x: InputData, policy: ReleasePolicy, rs: seq<Run>)
    requires Legal(g, x) && Execution(g, x, policy, rs)
    ensures |rs| - 1 + |FedSources(g, x)| <= 2 * |g.nodes|
    ensures IsDone(g, rs[|rs| - 1].s) <==> |rs| - 1 + |FedSources(g, x)| == 2 * |g.nodes|
  {
    hide Legal, Step, Inv, IsDone, Started, FedSources;
    InvAlong(g, x, policy, rs, |rs| - 1);
    InitStarted(g, x);
    InvWork(g, x, rs[|rs| - 1]);
  }

  lemma InitStarted(g: ExecGraph, x: InputData)
    ensures Started(InitRun(g, x).s) == FedSources(g, x)
  {}

  lemma InvWork(g: ExecGraph, x: InputData, r: Run)
    requires Inv(g, x, r)
    ensures |r.s.done| + |Started(r.s)| <= 2 * |g.nodes|
    ensures IsDone(g, r.s) <==> |r.s.done| + |Started(r.s)| == 2 * |g.nodes|
  {
    hide InvSets, InvWeights, InvValues, InvWaiting, GraphOutputs, IsDone;
    WorkDone(g, r.s);
  }

  // ---------------------------------------------------------------- sources without data

  /** An unfed source never starts. */
  ghost predicate LeftOut(g: ExecGraph, s: State, n: NodeId) {
    Started(s) <= g.nodes.Keys - {n}
  }

  lemma StepLeavesOut(g: ExecGraph, policy: ReleasePolicy, r: Run, t: Run, n: NodeId)
    requires LeftOut(g, r.s, n) && Step(g, policy, r, t) && IsSource(g, n)
    ensures LeftOut(g, t.s, n)
  {
    hide ReleasedInputs, ReportedOutputs, CanFill, FilledEdges, EdgesInto, InputsOf, Accepts, IsSource;
    if m :| Completes(g, r, t, m) {
      assert t.s.running + t.s.done == r.s.running + r.s.done;
    } else {
      var m :| Releases(g, policy, r, t, m);
      assert m != n;
    }
  }

  lemma {:induction false} UnfedStaysOut(g: ExecGraph, x: InputData, policy: ReleasePolicy, rs: seq<Run>, n: NodeId, i: nat)
    requires Execution(g, x, policy, rs) && IsSource(g, n) && !Fed(x, n) && i < |rs|
    ensures LeftOut(g, rs[i].s, n)
  {
    hide Step, IsSource, Fed;
    if i > 0 {
      UnfedStaysOut(g, x, policy, rs, n, i - 1);
      hide LeftOut;
      StepLeavesOut(g, policy, rs[i - 1], rs[i], n);
    }
  }

  /** A run with an unfed source never finishes: the loop of the executors would not end. */
  lemma UnfedNeverFinishes(g: ExecGraph, x: InputData, policy: ReleasePolicy, rs: seq<Run>, n: NodeId)
    requires Execution(g, x, policy, rs) && n in g.nodes && IsSource(g, n) && !Fed(x, n)
    ensures !IsDone(g, rs[|rs| - 1].s)
  {
    assert |rs| >= 1;
    hide Execution, IsSource, Fed;
    UnfedStaysOut(g, x, policy, rs, n, |rs| - 1);
    var s := rs[|rs| - 1].s;
    SubsetSize(s.done, g.nodes.Keys - {n});
    assert |g.nodes.Keys - {n}| == |g.nodes| - 1;
  }

  /** Some candidate can be released, or something runs and every running node whose operation
      succeeds can complete. */
  ghost predicate CanMove(g: ExecGraph, policy: ReleasePolicy, r: Run) {
    || (exists t, n :: Releases(g, policy, r, t, n))
    || (r.s.running != {} && forall n :: n in r.s.running ==> CanComplete(g, r, n))
  }

  ghost predicate CanComplete(g: ExecGraph, r: Run, n: NodeId) {
    n in r.inputs && n in g.nodes && (g.nodes[n].run(r.inputs[n]).Some? ==> exists t :: Completes(g, r, t, n))
  }

  lemma RunningCanComplete(g: ExecGraph, x: InputData, r: Run, n: NodeId)
    requires Legal(g, x) && Inv(g, x, r) && n in r.s.running
    ensures CanComplete(g, r, n)
  {
    hide Legal, Inv, Complete, CanFill;
    InvParts(g, x, r);
    assert n in g.nodes && r.s.running <= g.nodes.Keys;
    if g.nodes[n].run(r.inputs[n]).Some? {
      var out := g.nodes[n].run(r.inputs[n]).value;
      CompleteKeepsInv(g, x, r, n, out);
      assert Completes(g, r, Complete(g, r, n, out), n);
    }
  }

  lemma StateCanMove(g: ExecGraph, x: InputData, policy: ReleasePolicy, r: Run)
    requires Legal(g, x) && Inv(g, x, r) && !IsDone(g, r.s)
    ensures CanMove(g, policy, r)
  {
    hide Legal, Inv, Candidate, Released, IsDone, CanComplete;
    if r.s.running == {} {
      Progress(g, x, r);
      var n :| n in g.nodes && Candidate(g, r.s, n);
      assert Releases(g, policy, r, Released(g, r, n), n);
    } else {
      forall n | n in r.s.running
        ensures CanComplete(g, r, n)
      {
        RunningCanComplete(g, x, r, n);
      }
    }
  }

  /** Deadlock freedom: no unfinished run is stuck, unless an operation fails. */
  lemma NeverStuck(g: ExecGraph, x: InputData, policy: ReleasePolicy, rs: seq<Run>)
    requires Legal(g, x) && Execution(g, x, policy, rs) && !IsDone(g, rs[|rs| - 1].s)
    ensures CanMove(g, policy, rs[|rs| - 1])
  {
    hide Legal, Inv, CanMove, Step, IsDone;
    InvAlong(g, x, policy, rs, |rs| - 1);
    StateCanMove(g, x, policy, rs[|rs| - 1]);
  }

  lemma StepAt(g: ExecGraph, x: InputData, policy: ReleasePolicy, rs: seq<Run>, i: nat)
    requires Execution(g, x, policy, rs) && i < |rs| - 1
    ensures Step(g, policy, rs[i], rs[i + 1])
  {
    hide Step;
  }

  lemma {:induction false} Monotone(g: ExecGraph, x: InputData, policy: ReleasePolicy, rs: seq<Run>, i: nat, j: nat)
    requires Legal(g, x) && Execution(g, x, policy, rs) && i <= j < |rs|
    ensures rs[i].s.done <= rs[j].s.done && Started(rs[i].s) <= Started(rs[j].s)
    decreases j - i
  {
    hide Legal, Inv, Step, Started, Execution;
    if i < j {
      StepAt(g, x, policy, rs, j - 1);
      Monotone(g, x, policy, rs, i, j - 1);
      InvAlong(g, x, policy, rs, j - 1);
      StepKeepsInv(g, x, policy, rs[j - 1], rs[j]);
    }
  }

  /** Whatever a run has evaluated so far agrees with the meaning of the graph. */
  lemma {:induction false} PartialAgrees(g: ExecGraph, rank: map<NodeId, nat>, x: InputData, s: State, part: Values, val: Values, n: NodeId)
    requires EndpointsExist(g) && Ranked(g, rank) && InvSets(g, s) && part.Keys == s.done
    requires forall m :: m in s.done ==> EvaluatesTo(g, x, part, m)
    requires IsValuation(g, x, val) && n in s.done
    ensures n in val && part[n] == val[n]
    decreases rank[n]
  {
    hide Inputs, Supplied;
    assert EvaluatesTo(g, x, part, n) && EvaluatesTo(g, x, val, n);
    forall e | Enters(g, e, n)
      ensures g.edges[e].source in val && val[g.edges[e].source] == part[g.edges[e].source]
    {
      PartialAgrees(g, rank, x, s, part, val, g.edges[e].source);
    }
    InputsFrame(g, x, part, val, n);
  }

  lemma RunAgrees(g: ExecGraph, x: InputData, r: Run, val: Values)
    requires Legal(g, x) && Inv(g, x, r) && IsValuation(g, x, val)
    ensures forall n :: n in r.s.done ==> n in val && r.val[n] == val[n]
    ensures forall n :: n in r.s.running ==> n in r.inputs && n in val && g.nodes[n].run(r.inputs[n]) == Some(val[n])
  {
    LegalParts(g, x);
    var rank :| Ranked(g, rank);
    hide Legal, InvWeights, InvWaiting, GraphOutputs, Ranked, EndpointsExist, EnoughOutputs;
    forall n | n in r.s.done
      ensures n in val && r.val[n] == val[n]
    {
      PartialAgrees(g, rank, x, r.s, r.val, val, n);
    }
    forall n | n in r.s.running
      ensures n in r.inputs && n in val && g.nodes[n].run(r.inputs[n]) == Some(val[n])
    {
      RunningAgrees(g, x, r, val, n);
    }
  }

  lemma RunningAgrees(g: ExecGraph, x: InputData, r: Run, val: Values, n: NodeId)
    requires InvSets(g, r.s) && InvValues(g, x, r) && IsValuation(g, x, val) && n in r.s.running
    requires forall m :: m in r.s.done ==> m in val && r.val[m] == val[m]
    ensures n in r.inputs && n in val && g.nodes[n].run(r.inputs[n]) == Some(val[n])
  {
    hide Inputs, Supplied;
    assert HasInputs(g, x, r, n);
    assert EvaluatesTo(g, x, val, n);
    assert forall e :: Enters(g, e, n) ==> g.edges[e].source in r.s.done;
    InputsFrame(g, x, r.val, val, n);
  }

  ghost predicate Reached(s: State, n: NodeId, finished: bool) {
    n in (if finished then s.done else Started(s))
  }

  ghost predicate ReachedFrom(rs: seq<Run>, n: NodeId, finished: bool, k: nat) {
    k < |rs| && forall i :: 0 <= i < |rs| ==> (Reached(rs[i].s, n, finished) <==> k <= i)
  }

  lemma ReachedStays(g: ExecGraph, x: InputData, policy: ReleasePolicy, rs: seq<Run>, n: NodeId, finished: bool, i: nat, j: nat)
    requires Legal(g, x) && Execution(g, x, policy, rs) && i <= j < |rs| && Reached(rs[i].s, n, finished)
    ensures Reached(rs[j].s, n, finished)
  {
    hide Legal, Execution, Started;
    Monotone(g, x, policy, rs, i, j);
  }

  /** The first state in which a node has finished (or started). */
  lemma {:induction false} FirstWith(g: ExecGraph, x: InputData, policy: ReleasePolicy, rs: seq<Run>, n: NodeId, finished: bool, m: nat)
      returns (k: nat)
    requires Legal(g, x) && Execution(g, x, policy, rs) && m < |rs| && Reached(rs[m].s, n, finished)
    ensures k <= m && ReachedFrom(rs, n, finished, k)
    decreases m
  {
    hide Legal, Execution, Reached;
    if m > 0 && Reached(rs[m - 1].s, n, finished) {
      k := FirstWith(g, x, policy, rs, n, finished, m - 1);
    } else {
      k := m;
      forall i | 0 <= i < |rs|
        ensures Reached(rs[i].s, n, finished) <==> k <= i
      {
        if k <= i {
          ReachedStays(g, x, policy, rs, n, finished, k, i);
        } else if Reached(rs[i].s, n, finished) {
          ReachedStays(g, x, policy, rs, n, finished, i, k - 1);
        }
      }
    }
  }

  /** In one state: full means source done, target not started, value right. */
  ghost predicate WeightRight(g: ExecGraph, s: State, val: Values, e: EdgeId)
    requires e in g.edges
  {
    && (e in s.weights <==> Reached(s, g.edges[e].source, true) && !Reached(s, g.edges[e].target, false))
    && (e in s.weights ==> g.edges[e].source in val && SourcePort(g, e) < |val[g.edges[e].source]|
                           && s.weights[e] == EdgeValue(g, val, e))
  }

  lemma WeightInState(g: ExecGraph, x: InputData, r: Run, val: Values, e: EdgeId)
    requires Legal(g, x) && Inv(g, x, r) && IsValuation(g, x, val) && e in g.edges
    ensures WeightRight(g, r.s, val, e)
  {
    RunAgrees(g, x, r, val);
    assert InvWeights(g, r.s, r.val);
    hide Legal, Inv, IsValuation;
  }

  /** A node starts after its predecessors have finished. */
  lemma StartsAfter(g: ExecGraph, x: InputData, policy: ReleasePolicy, rs: seq<Run>, e: EdgeId, filled: nat, taken: nat)
    requires Legal(g, x) && Execution(g, x, policy, rs) && e in g.edges
    requires ReachedFrom(rs, g.edges[e].source, true, filled)
    requires ReachedFrom(rs, g.edges[e].target, false, taken)
    ensures 0 < filled < taken
  {
    InitNotReached(g, x, e);
    assert Reached(rs[0].s, g.edges[e].source, true) <==> filled <= 0;
    assert Reached(rs[0].s, g.edges[e].target, false) <==> taken <= 0;
    assert Step(g, policy, rs[taken - 1], rs[taken]);
    InvAlong(g, x, policy, rs, taken - 1);
    InvAlong(g, x, policy, rs, taken);
    hide Legal, Execution, Inv, Step, Reached;
    StepMovesOne(g, x, policy, rs[taken - 1], rs[taken], e);
  }

  lemma InitNotReached(g: ExecGraph, x: InputData, e: EdgeId)
    requires e in g.edges
    ensures !Reached(InitState(g, x), g.edges[e].source, true) && !Reached(InitState(g, x), g.edges[e].target, false)
  {
    assert Enters(g, e, g.edges[e].target);
  }

  lemma StepMovesOne(g: ExecGraph, x: InputData, policy: ReleasePolicy, r: Run, t: Run, e: EdgeId)
    requires Legal(g, x) && Inv(g, x, r) && Inv(g, x, t) && Step(g, policy, r, t) && e in g.edges
    requires Reached(t.s, g.edges[e].target, false) && !Reached(r.s, g.edges[e].target, false)
    ensures Reached(r.s, g.edges[e].source, true)
  {
    hide Legal, Inv, Completes, Releases;
    assert g.edges[e].source in t.s.done by { PredecessorDone(g, x, t, e); }
    if n :| Completes(g, r, t, n) {
      CompletesKeepsInv(g, x, r, t, n);
    } else {
      var n :| Releases(g, policy, r, t, n);
      ReleasesKeepsInv(g, x, policy, r, t, n);
    }
  }

  lemma PredecessorDone(g: ExecGraph, x: InputData, r: Run, e: EdgeId)
    requires Inv(g, x, r) && e in g.edges && g.edges[e].target in Started(r.s)
    ensures g.edges[e].source in r.s.done
  {}

  lemma LastReached(g: ExecGraph, x: InputData, policy: ReleasePolicy, rs: seq<Run>, e: EdgeId)
    requires Legal(g, x) && Execution(g, x, policy, rs) && IsDone(g, rs[|rs| - 1].s) && e in g.edges
    ensures Reached(rs[|rs| - 1].s, g.edges[e].source, true) && Reached(rs[|rs| - 1].s, g.edges[e].target, false)
  {
    var last := rs[|rs| - 1];
    InvAlong(g, x, policy, rs, |rs| - 1);
    hide Execution, InvWeights, InvValues, InvWaiting, GraphOutputs, EnoughOutputs;
    DoneMeansAll(g, last.s);
  }

  /** Edge e is full exactly from state `filled` up to state `taken`, and carries its source's value. */
  ghost predicate FullDuring(g: ExecGraph, rs: seq<Run>, val: Values, e: EdgeId, filled: nat, taken: nat) {
    && 0 < filled < taken < |rs| && e in g.edges
    && forall i :: 0 <= i < |rs| ==>
         (e in rs[i].s.weights <==> filled <= i < taken)
         && (e in rs[i].s.weights ==>
               g.edges[e].source in val && SourcePort(g, e) < |val[g.edges[e].source]|
               && rs[i].s.weights[e] == EdgeValue(g, val, e))
  }

  lemma WeightAlong(g: ExecGraph, x: InputData, policy: ReleasePolicy, rs: seq<Run>, val: Values, e: EdgeId, i: nat)
    requires Legal(g, x) && Execution(g, x, policy, rs) && IsValuation(g, x, val) && e in g.edges && i < |rs|
    ensures WeightRight(g, rs[i].s, val, e)
  {
    hide Legal, Execution, IsValuation, WeightRight, Inv;
    InvAlong(g, x, policy, rs, i);
    WeightInState(g, x, rs[i], val, e);
  }

  lemma FullBetween(g: ExecGraph, rs: seq<Run>, val: Values, e: EdgeId, filled: nat, taken: nat)
    requires e in g.edges && 0 < filled < taken
    requires ReachedFrom(rs, g.edges[e].source, true, filled)
    requires ReachedFrom(rs, g.edges[e].target, false, taken)
    requires forall i :: 0 <= i < |rs| ==> WeightRight(g, rs[i].s, val, e)
    ensures FullDuring(g, rs, val, e, filled, taken)
  {
    hide Reached;
  }

  /** In any finished run every edge is empty, then full with its source's value, then empty for good. */
  lemma EdgeLife(g: ExecGraph, x: InputData, policy: ReleasePolicy, rs: seq<Run>, val: Values, e: EdgeId)
    requires Legal(g, x) && Execution(g, x, policy, rs) && IsDone(g, rs[|rs| - 1].s) && IsValuation(g, x, val)
    requires e in g.edges
    ensures exists filled, taken :: FullDuring(g, rs, val, e, filled, taken)
  {
    assert |rs| >= 1;
    hide Legal, Execution, IsValuation, Reached, IsDone, Inv, WeightRight, FullDuring, ReachedFrom;
    LastReached(g, x, policy, rs, e);
    var filled := FirstWith(g, x, policy, rs, g.edges[e].source, true, |rs| - 1);
    var taken := FirstWith(g, x, policy, rs, g.edges[e].target, false, |rs| - 1);
    StartsAfter(g, x, policy, rs, e, filled, taken);
    forall i | 0 <= i < |rs|
      ensures WeightRight(g, rs[i].s, val, e)
    {
      WeightAlong(g, x, policy, rs, val, e, i);
    }
    FullBetween(g, rs, val, e, filled, taken);
  }

  // ---------------------------------------------------------------- the coloring policy

  /** Two running nodes of one color are both sources that were fed at initialisation. */
  ghost predicate ColorSafe(g: ExecGraph, s: State) {
    && s.running <= g.nodes.Keys
    && forall m, n :: m in s.running && n in s.running && m != n && g.nodes[m].color == g.nodes[n].color ==>
         IsSource(g, m) && IsSource(g, n)
  }

  lemma CompletionColorSafe(g: ExecGraph, r: Run, t: Run, n: NodeId)
    requires ColorSafe(g, r.s) && Completes(g, r, t, n)
    ensures ColorSafe(g, t.s)
  {
    hide ReportedOutputs, CanFill, FilledEdges, IsSource;
    assert t.s.running <= r.s.running;
  }

  lemma ReleaseColorSafe(g: ExecGraph, r: Run, t: Run, n: NodeId)
    requires ColorSafe(g, r.s) && Releases(g, UniqueColoring, r, t, n)
    ensures ColorSafe(g, t.s)
  {
    hide ReleasedInputs, Candidate, EdgesInto, InputsOf, IsSource;
    assert t.s.running == r.s.running + {n};
  }

  lemma StepColorSafe(g: ExecGraph, r: Run, t: Run)
    requires ColorSafe(g, r.s) && Step(g, UniqueColoring, r, t)
    ensures ColorSafe(g, t.s)
  {
    hide Completes, Releases, ColorSafe;
    if n :| Completes(g, r, t, n) {
      CompletionColorSafe(g, r, t, n);
    } else {
      var n :| Releases(g, UniqueColoring, r, t, n);
      ReleaseColorSafe(g, r, t, n);
    }
  }

  /** Release safety in every reachable state of every run under `UniqueColoring`. */
  lemma {:induction false} ReleaseSafety(g: ExecGraph, x: InputData, rs: seq<Run>, i: nat)
    requires Execution(g, x, UniqueColoring, rs) && i < |rs|
    ensures ColorSafe(g, rs[i].s)
  {
    hide Execution, Step, ColorSafe;
    if i == 0 {
      StartAt(g, x, UniqueColoring, rs);
      InitColorSafe(g, x);
    } else {
      StepAt(g, x, UniqueColoring, rs, i - 1);
      ReleaseSafety(g, x, rs, i - 1);
      StepColorSafe(g, rs[i - 1], rs[i]);
    }
  }

  lemma StartAt(g: ExecGraph, x: InputData, policy: ReleasePolicy, rs: seq<Run>)
    requires Execution(g, x, policy, rs)
    ensures |rs| >= 1 && rs[0].s == InitState(g, x)
  {
    hide Step, InitState;
  }

  lemma InitColorSafe(g: ExecGraph, x: InputData)
    ensures ColorSafe(g, InitState(g, x))
  {
    hide IsSource;
  }

  // ---------------------------------------------------------------- one node per color

  /** No two running nodes share a color: what `UniqueColoring` is documented to ensure. */
  ghost predicate OnePerColor(g: ExecGraph, s: State) {
    s.running <= g.nodes.Keys && ColorsDiffer(g, s.running)
  }

  ghost predicate ColorsDiffer(g: ExecGraph, ns: set<NodeId>)
    requires ns <= g.nodes.Keys
  {
    forall m, n :: m in ns && n in ns && m != n ==> g.nodes[m].color != g.nodes[n].color
  }

  ghost predicate AlwaysOnePerColor(g: ExecGraph, x: InputData) {
    forall rs: seq<Run>, i :: Execution(g, x, UniqueColoring, rs) && 0 <= i < |rs| ==> OnePerColor(g, rs[i].s)
  }

  lemma CompletionOnePerColor(g: ExecGraph, r: Run, t: Run, n: NodeId)
    requires OnePerColor(g, r.s) && Completes(g, r, t, n)
    ensures OnePerColor(g, t.s)
  {
    hide ReportedOutputs, CanFill, FilledEdges;
    assert t.s.running <= r.s.running;
  }

  lemma ReleaseOnePerColor(g: ExecGraph, r: Run, t: Run, n: NodeId)
    requires OnePerColor(g, r.s) && Releases(g, UniqueColoring, r, t, n)
    ensures OnePerColor(g, t.s)
  {
    hide ReleasedInputs, Candidate, EdgesInto, InputsOf;
    assert t.s.running == r.s.running + {n};
  }

  lemma StepOnePerColor(g: ExecGraph, r: Run, t: Run)
    requires OnePerColor(g, r.s) && Step(g, UniqueColoring, r, t)
    ensures OnePerColor(g, t.s)
  {
    hide Completes, Releases, OnePerColor;
    if n :| Completes(g, r, t, n) {
      CompletionOnePerColor(g, r, t, n);
    } else {
      var n :| Releases(g, UniqueColoring, r, t, n);
      ReleaseOnePerColor(g, r, t, n);
    }
  }

  lemma {:induction false} StaysOnePerColor(g: ExecGraph, x: InputData, rs: seq<Run>, i: nat)
    requires Execution(g, x, UniqueColoring, rs) && i < |rs| && OnePerColor(g, InitState(g, x))
    ensures OnePerColor(g, rs[i].s)
  {
    if i > 0 {
      hide Execution, OnePerColor, Step, InitState;
      StepAt(g, x, UniqueColoring, rs, i - 1);
      StaysOnePerColor(g, x, rs, i - 1);
      StepOnePerColor(g, rs[i - 1], rs[i]);
    } else {
      assert rs[0].s == InitState(g, x);
    }
  }

  /** `UniqueColoring` keeps at most one node of each color running, in every state of every run, if and only if no two
      of the sources that are given data share a color: initialisation starts them all without asking the policy. */
  lemma OnePerColorIff(g: ExecGraph, x: InputData)
    ensures AlwaysOnePerColor(g, x) <==> ColorsDiffer(g, FedSources(g, x))
  {
    assert InitState(g, x).running == FedSources(g, x) <= g.nodes.Keys;
    hide FedSources, WaitingData, ColorsDiffer, Step;
    var start := [InitRun(g, x)];
    assert Execution(g, x, UniqueColoring, start);
    assert start[0].s == InitState(g, x);
    if ColorsDiffer(g, FedSources(g, x)) {
      hide Execution, OnePerColor;
      forall rs: seq<Run>, i | Execution(g, x, UniqueColoring, rs) && 0 <= i < |rs|
        ensures OnePerColor(g, rs[i].s)
      {
        StaysOnePerColor(g, x, rs, i);
      }
    }
  }

  /** Two unconnected nodes of one color. */
  function TwoSources(a: Color, f: seq<IO> -> Option<seq<IO>>, h: seq<IO> -> Option<seq<IO>>): ExecGraph {
    Graph(map[0 := Colored(f, a), 1 := Colored(h, a)], map[])
  }

  /** Given data for both, they run together under `UniqueColoring`, whatever their operations. */
  lemma TwoSourcesClash(a: Color, f: seq<IO> -> Option<seq<IO>>, h: seq<IO> -> Option<seq<IO>>, u: IO, v: IO)
    ensures var g, x := TwoSources(a, f, h), map[NodeInput(0, 0) := u, NodeInput(1, 0) := v];
      Legal(g, x) && !AlwaysOnePerColor(g, x)
  {
    var g, x := TwoSources(a, f, h), map[NodeInput(0, 0) := u, NodeInput(1, 0) := v];
    assert 0 in ExternalPorts(x, 0) && 0 in ExternalPorts(x, 1);
    assert 0 in FedSources(g, x) && 1 in FedSources(g, x);
    UnconnectedIsLegal(g, x);
    hide Legal, FedSources, AlwaysOnePerColor, Fed, IsSource;
    OnePerColorIff(g, x);
  }

  lemma UnconnectedIsLegal(g: ExecGraph, x: InputData)
    requires g.edges == map[] && (forall i :: i in x ==> i.node in g.nodes) && forall n :: n in g.nodes ==> Fed(x, n)
    ensures Legal(g, x)
  {
    assert Ranked(g, map n | n in g.nodes :: 0);
    forall n
      ensures PortsInto(g, n) == {}
    {}
    hide PortsInto, Fed;
  }
}
