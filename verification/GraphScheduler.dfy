/** The scheduler object of `zkml/src/graph/scheduler.rs`. */
module GraphSchedulers {
  import opened Wrappers
  import opened Collections
  import opened PortGraph
  import opened DagOrder
  import opened Denotation
  import opened SchedulerState

  /** A released node with everything it needs to run. */
  datatype ReadyNode = ReadyNode(node: Colored, inputs: seq<IO>, nodeId: NodeId)

  datatype SchedulerError = AlreadyInitialised | NotRunning | AlreadyDone | ManyLinks

  // ---------------------------------------------------------------- a batch of releases

  /** The state after releasing `ids` in order. */
  ghost function ReleaseAll(g: ExecGraph, s: State, ids: seq<NodeId>): State {
    if ids == [] then s else Release(g, ReleaseAll(g, s, ids[..|ids| - 1]), ids[|ids| - 1])
  }

  /** Each of `ids` was a candidate, and acceptable to the policy, when its turn came. */
  ghost predicate Chain(g: ExecGraph, policy: ReleasePolicy, s: State, ids: seq<NodeId>) {
    ids == [] ||
    var init, n := ids[..|ids| - 1], ids[|ids| - 1];
    var t := ReleaseAll(g, s, init);
    && Chain(g, policy, s, init)
    && n in g.nodes && t.running <= g.nodes.Keys && Candidate(g, t, n) && Accepts(policy, g, t, n)
  }

  /** The nodes handed out for `ids`. */
  ghost function ReadyFor(g: ExecGraph, policy: ReleasePolicy, s: State, ids: seq<NodeId>): seq<ReadyNode>
    requires Chain(g, policy, s, ids)
  {
    if ids == [] then []
    else
      var init, n := ids[..|ids| - 1], ids[|ids| - 1];
      ReadyFor(g, policy, s, init) + [ReadyNode(g.nodes[n], ReleasedInputs(g, ReleaseAll(g, s, init), n), n)]
  }

  class GraphScheduler {
    const graph: ExecGraph
    var weights: map<EdgeId, IO>
    var waiting: InputData
    var running: set<NodeId>
    var done: set<NodeId>
    var releasePolicy: ReleasePolicy

    function View(): State
      reads this
    {
      State(weights, waiting, running, done)
    }

    /** `GraphScheduler::new`, for a graph whose edges carry no data yet. */
    constructor (graph: ExecGraph)
      ensures this.graph == graph && releasePolicy == UniqueColoring
      ensures View() == State(map[], map[], {}, {})
    {
      this.graph := graph;
      weights, waiting, running, done, releasePolicy := map[], map[], {}, {}, UniqueColoring;
    }

    method WithReleasePolicy(policy: ReleasePolicy)
      modifies this`releasePolicy
      ensures releasePolicy == policy
    {
      releasePolicy := policy;
    }

    /** `is_done` counts; in a reachable state the count is full exactly when every node has finished. */
    method IsDone() returns (b: bool)
      ensures b <==> SchedulerState.IsDone(graph, View())
      ensures InvSets(graph, View()) ==> (b <==> done == graph.nodes.Keys)
    {
      if InvSets(graph, View()) {
        DoneMeansAll(graph, View());
      }
      hide InvSets;
      b := running == {} && |done| == |graph.nodes|;
    }

    /** `init_nodes`: data for sources makes them ready, data for other nodes waits. */
    method InitNodes(inputData: InputData) returns (r: Result<seq<ReadyNode>, SchedulerError>)
      requires forall i :: i in inputData ==> i.node in graph.nodes
      modifies this`waiting, this`running
      ensures old(running != {} || done != {} || waiting != map[]) ==> r == Err(AlreadyInitialised) && View() == old(View())
      ensures old(running == {} && done == {} && waiting == map[]) ==>
        r.Ok? && View() == InitState(graph, inputData).(weights := weights) && InitiallyReady(graph, inputData, r.value)
        && StartedByData(graph, inputData, waiting, running)
    {
      InitByData(graph, inputData);
      if running != {} || done != {} || waiting != map[] {
        return Err(AlreadyInitialised);
      }
      var inputs := SplitInputs(inputData);
      var ready := StartSources(inputs);
      AllHanded(graph, inputData, inputs, ready);
      hide Split, Handed, InitiallyReady, FedSources, WaitingData;
      return Ok(ready);
    }

    /** The second loop of `init_nodes`. */
    method StartSources(inputs: map<NodeId, map<PortId, IO>>) returns (ready: seq<ReadyNode>)
      requires running == {} && inputs.Keys <= graph.nodes.Keys
      modifies this`running
      ensures running == inputs.Keys && Handed(graph, inputs, running, ready)
    {
      NoneHanded(graph, inputs);
      hide Handed, InPortOrder;
      ready := [];
      var rest := inputs.Keys;
      while rest != {}
        invariant rest <= inputs.Keys && running == inputs.Keys - rest
        invariant Handed(graph, inputs, running, ready)
        decreases |rest|
      {
        var n :| n in rest;
        var node := ReadyNode(graph.nodes[n], InPortOrder(inputs[n]), n);
        HandOne(graph, inputs, running, ready, node);
        running := running + {n};
        ready := ready + [node];
        rest := rest - {n};
      }
    }

    /** The first loop of `init_nodes`: per source, its data by port; the rest waits. */
    method SplitInputs(inputData: InputData) returns (inputs: map<NodeId, map<PortId, IO>>)
      requires waiting == map[] && forall i :: i in inputData ==> i.node in graph.nodes
      modifies this`waiting
      ensures Split(graph, inputData, inputs, waiting) && inputs.Keys <= graph.nodes.Keys
    {
      hide Split;
      inputs := map[];
      var rest := inputData.Keys;
      ghost var seen: InputData := map[];
      NothingSeen(graph);
      while rest != {}
        invariant rest <= inputData.Keys && seen == inputData - rest
        invariant Split(graph, seen, inputs, waiting) && inputs.Keys <= graph.nodes.Keys
        decreases |rest|
      {
        var i :| i in rest;
        SeenStep(graph, seen, inputs, waiting, i, inputData[i]);
        assert seen[i := inputData[i]] == inputData - (rest - {i});
        seen := seen[i := inputData[i]];
        if IsSource(graph, i.node) {
          inputs := WithEntry(inputs, i, inputData[i]);
        } else {
          waiting := waiting[i := inputData[i]];
        }
        rest := rest - {i};
      }
      assert seen == inputData;
    }

    /** `mark_done`: store the outputs on the edges to nodes not yet started, report the others. */
    method MarkDone(n: NodeId, outputs: seq<IO>) returns (r: Result<OutputData, SchedulerError>)
      requires CanFill(graph, View(), n, outputs)
      modifies this`weights, this`running, this`done
      ensures n !in old(running) ==> r == Err(NotRunning) && View() == old(View())
      ensures n in old(running) && n in old(done) ==>
        r == Err(AlreadyDone) && View() == old(View()).(running := old(running) - {n})
      ensures n in old(running) && n !in old(done) && OneLinkEach(graph, FilledEdges(graph, old(View()), n)) ==>
        r == Ok(ReportedOutputs(graph, old(View()), n, outputs))
        && View() == SchedulerState.MarkDone(graph, old(View()), n, outputs)
        && Distributes(graph, old(View()), n, outputs, weights, r.value)
      ensures n in old(running) && n !in old(done) && !OneLinkEach(graph, FilledEdges(graph, old(View()), n)) ==>
        r == Err(ManyLinks) && running == old(running) - {n} && done == old(done) + {n}
        && Stopped(graph, old(weights), outputs, FilledEdges(graph, old(View()), n), weights)
    {
      if n !in running {
        return Err(NotRunning);
      }
      ghost var was := View();
      running := running - {n};
      if n in done {
        return Err(AlreadyDone);
      }
      done := done + {n};
      MarkedFills(graph, was, n, outputs);
      if OneLinkEach(graph, FilledEdges(graph, was, n)) {
        MarkDoneByLink(graph, was, n, outputs);
      }
      hide Distributes, CanFill, FilledEdges, Filling, SchedulerState.MarkDone, ReportedOutputs, AtPorts;
      var free := FillEdges(n, outputs);
      FillAll(graph, was, n, outputs, weights, free);
      match free {
        case None => return Err(ManyLinks);
        case Some(ports) => return Ok(AtPorts(n, outputs, ports));
      }
    }

    /** The loop of `mark_done`: the output ports no edge takes, none when an edge has not one link. */
    method FillEdges(n: NodeId, outputs: seq<IO>) returns (r: Option<set<PortId>>)
      requires n in done && n !in running && CanFill(graph, View(), n, outputs)
      modifies this`weights
      ensures r.Some? <==> OneLinkEach(graph, FilledEdges(graph, old(View()), n))
      ensures r.None? ==> Stopped(graph, old(weights), outputs, FilledEdges(graph, old(View()), n), weights)
      ensures r.Some? ==> Filling(graph, old(weights), outputs, FilledEdges(graph, old(View()), n), weights, r.value)
    {
      ghost var was := weights;
      var filled := FilledEdges(graph, View(), n);
      var rest, free := filled, Below(|outputs|);
      FillBegins(graph, was, outputs, filled);
      hide FilledEdges, FillLoop, Filling, Stopped, OneLinkEach;
      while rest != {}
        invariant rest <= filled && FillLoop(graph, was, outputs, filled, rest, weights, free)
        decreases |rest|
      {
        var e := Extreme(true, rest);
        assert forall f :: f in rest ==> e <= f;
        if |graph.edges[e].ports| != 1 {
          StopsAt(graph, was, outputs, filled, rest, weights, free, e);
          return None;
        }
        FillNext(graph, was, outputs, filled, rest, weights, free, e);
        free := free - {SourcePort(graph, e)};
        weights := weights[e := outputs[SourcePort(graph, e)]];
        rest := rest - {e};
      }
      FillEnds(graph, was, outputs, filled, weights, free);
      return Some(free);
    }

    /** Takes the data off the edges into n and adds the data that waits for it, in port order. */
    method TakeInputs(n: NodeId) returns (inputs: seq<IO>)
      requires Consistent(graph) && Candidate(graph, View().(running := running - {n}), n)
      modifies this`weights, this`waiting
      ensures weights == old(weights) - EdgesInto(graph, n) && waiting == old(waiting) - InputsOf(old(waiting), n)
      ensures inputs == ReleasedInputs(graph, old(View()).(running := running - {n}), n)
    {
      ghost var s := View().(running := running - {n});
      assert EdgesInto(graph, n) <= weights.Keys;
      hide Consistent, ExternalInputs, InPortOrder, IsSource, EdgesInto, InputsOf, Candidate, Taken, CarriedInputs;
      var data := TakeEdges(n);
      TakenAll(graph, s, n, data);
      inputs := InPortOrder(data + ExternalInputs(waiting, n));
      waiting := waiting - InputsOf(waiting, n);
    }

    method TakeEdges(n: NodeId) returns (data: map<PortId, IO>)
      requires Consistent(graph) && EdgesInto(graph, n) <= weights.Keys
      modifies this`weights
      ensures weights == old(weights) - EdgesInto(graph, n)
      ensures Taken(graph, old(weights), n, EdgesInto(graph, n), data)
    {
      ghost var was := weights;
      var entering := EdgesInto(graph, n);
      var rest := entering;
      data := map[];
      TakenNone(graph, was, n);
      assert entering - rest == {};
      hide Taken, Consistent;
      while rest != {}
        invariant rest <= entering
        invariant weights == was - (entering - rest)
        invariant Taken(graph, was, n, entering - rest, data)
        decreases |rest|
      {
        var e := Extreme(true, rest);
        TakenOne(graph, was, n, entering - rest, data, e);
        data := WithPorts(data, graph.edges[e].ports, weights[e]);
        weights := weights - {e};
        assert entering - rest + {e} == entering - (rest - {e});
        rest := rest - {e};
      }
      assert entering - rest == entering;
    }

    /** `next_ready_nodes`: the candidates of the moment are visited in some order, each released if the
        policy accepts it then; afterwards the policy accepts none of those left. */
    method NextReadyNodes() returns (ready: seq<ReadyNode>, ghost ids: seq<NodeId>)
      requires Consistent(graph) && running <= graph.nodes.Keys
      modifies this`weights, this`waiting, this`running
      ensures Chain(graph, releasePolicy, old(View()), ids)
      ensures View() == ReleaseAll(graph, old(View()), ids)
      ensures ready == ReadyFor(graph, releasePolicy, old(View()), ids)
      ensures running <= graph.nodes.Keys && NoneLeft(graph, releasePolicy, View())
      ensures forall n :: Waits(graph, View(), n) ==> releasePolicy.UniqueColoring? && SharesColor(graph, running, n)
      ensures ReleasedInTurn(graph, releasePolicy, old(View()), ids) && running == old(running) + SetOf(ids)
    {
      ready, ids := [], [];
      ghost var s := View();
      var candidates := set n | n in graph.nodes && Candidate(graph, View(), n);
      var rest := candidates;
      hide Consistent, Accepts, Candidate, ReleasedInputs, EdgesInto, InputsOf, Chain, ReleaseAll, ReadyFor, Swept;
      NothingReleased(graph, releasePolicy, s, candidates);
      while rest != {}
        invariant rest <= candidates && done == s.done
        invariant Chain(graph, releasePolicy, s, ids) && View() == ReleaseAll(graph, s, ids)
        invariant ready == ReadyFor(graph, releasePolicy, s, ids)
        invariant Swept(graph, releasePolicy, s, View(), candidates, rest)
        decreases |rest|
      {
        var n :| n in rest;
        ghost var t := View();
        SweptParts(graph, releasePolicy, s, t, candidates, rest, n);
        if Accepts(releasePolicy, graph, View(), n) {
          running := running + {n};
          assert t == View().(running := running - {n});
          var inputs := TakeInputs(n);
          assert View() == Release(graph, t, n);
          ReleaseOne(graph, releasePolicy, s, ids, n);
          SweptReleased(graph, releasePolicy, s, t, candidates, rest, n);
          ready := ready + [ReadyNode(graph.nodes[n], inputs, n)];
          ids := ids + [n];
        } else {
          SweptSkipped(graph, releasePolicy, s, t, candidates, rest, n);
        }
        rest := rest - {n};
      }
      SweptAll(graph, releasePolicy, s, View(), candidates);
      WaitingShares(graph, releasePolicy, View());
      ChainReleased(graph, releasePolicy, s, ids);
    }
  }

  /** Every edge into n, of at least one, carries data, and n is not running. */
  ghost predicate Waits(g: ExecGraph, s: State, n: NodeId) {
    && n in g.nodes && n !in s.running && (exists e :: e in g.edges && g.edges[e].target == n)
    && forall e :: e in g.edges && g.edges[e].target == n ==> e in s.weights
  }

  ghost predicate SharesColor(g: ExecGraph, ns: set<NodeId>, n: NodeId)
    requires n in g.nodes
  {
    exists m :: m in ns && m in g.nodes && g.nodes[m].color == g.nodes[n].color
  }

  /** What stays behind although it could run shares its color with a running node. */
  lemma WaitingShares(g: ExecGraph, policy: ReleasePolicy, s: State)
    requires NoneLeft(g, policy, s)
    ensures forall n :: Waits(g, s, n) ==> policy.UniqueColoring? && SharesColor(g, s.running, n)
  {
    forall n | Waits(g, s, n)
      ensures policy.UniqueColoring? && SharesColor(g, s.running, n)
    {
      var e :| e in g.edges && g.edges[e].target == n;
      assert Enters(g, e, n);
      assert Candidate(g, s, n);
      assert Unacceptable(g, policy, s, n);
    }
  }

  /** Each of `ids` could run from the start, once, and under `UniqueColoring` shares its color with no node that was running or
      was released before it. */
  ghost predicate ReleasedInTurn(g: ExecGraph, policy: ReleasePolicy, s: State, ids: seq<NodeId>) {
    && NoRepeats(ids) && (forall k :: 0 <= k < |ids| ==> Waits(g, s, ids[k]))
    && (policy.UniqueColoring? ==> forall k :: 0 <= k < |ids| ==> !SharesColor(g, s.running + SetOf(ids[..k]), ids[k]))
  }

  lemma {:induction false} ChainReleased(g: ExecGraph, policy: ReleasePolicy, s: State, ids: seq<NodeId>)
    requires Chain(g, policy, s, ids)
    ensures ReleasedInTurn(g, policy, s, ids)
    ensures ReleaseAll(g, s, ids).running == s.running + SetOf(ids) && ReleaseAll(g, s, ids).weights.Keys <= s.weights.Keys
  {
    if ids != [] {
      var init, n := ids[..|ids| - 1], ids[|ids| - 1];
      ChainReleased(g, policy, s, init);
      ReleasedLast(g, policy, s, ReleaseAll(g, s, init), init, n);
      assert ids == init + [n];
      assert SetOf(ids) == SetOf(init) + {n};
    }
  }

  lemma ReleasedLast(g: ExecGraph, policy: ReleasePolicy, s: State, t: State, init: seq<NodeId>, n: NodeId)
    requires ReleasedInTurn(g, policy, s, init) && t.running == s.running + SetOf(init) && t.weights.Keys <= s.weights.Keys
    requires n in g.nodes && t.running <= g.nodes.Keys && Candidate(g, t, n) && Accepts(policy, g, t, n)
    ensures ReleasedInTurn(g, policy, s, init + [n])
  {
    assert Waits(g, s, n) by { assert forall e :: e in g.edges && g.edges[e].target == n ==> Enters(g, e, n); }
    assert policy.UniqueColoring? ==> !SharesColor(g, t.running, n);
    assert n !in SetOf(init);
    hide Waits, SharesColor, SetOf, Candidate, Accepts;
    var ids := init + [n];
    assert NoRepeats(ids) by { InSetOf(init); }
    forall k | 0 <= k < |ids|
      ensures Waits(g, s, ids[k])
      ensures policy.UniqueColoring? ==> !SharesColor(g, s.running + SetOf(ids[..k]), ids[k])
    {
      assert k < |init| ==> ids[..k] == init[..k];
      assert k == |init| ==> ids[..k] == init;
    }
  }

  lemma InSetOf(s: seq<NodeId>)
    ensures forall n :: n in s <==> n in SetOf(s)
  {}

  /** `inputs.entry(i.node_id).or_default().insert(i.port, io)` */
  function WithEntry(inputs: map<NodeId, map<PortId, IO>>, i: NodeInput, io: IO): map<NodeId, map<PortId, IO>> {
    inputs[i.node := (if i.node in inputs then inputs[i.node] else map[])[i.port := io]]
  }

  /** The data x sorted into what sources get, by node and port, and what waits. */
  ghost predicate Split(g: ExecGraph, x: InputData, inputs: map<NodeId, map<PortId, IO>>, waiting: InputData) {
    && waiting == WaitingData(g, x) && inputs.Keys == FedSources(g, x)
    && forall n :: n in inputs ==> inputs[n] == ExternalInputs(x, n)
  }

  /** `ready` holds each node of `started` once, with its entry of `inputs` in port order. */
  ghost predicate Handed(g: ExecGraph, inputs: map<NodeId, map<PortId, IO>>, started: set<NodeId>, ready: seq<ReadyNode>) {
    && NoRepeats(Ids(ready)) && SetOf(Ids(ready)) == started
    && forall k :: 0 <= k < |ready| ==>
         var n := ready[k].nodeId;
         n in g.nodes && n in inputs && ready[k] == ReadyNode(g.nodes[n], InPortOrder(inputs[n]), n)
  }

  lemma NoneHanded(g: ExecGraph, inputs: map<NodeId, map<PortId, IO>>)
    ensures Handed(g, inputs, {}, [])
  {}

  lemma HandOne(g: ExecGraph, inputs: map<NodeId, map<PortId, IO>>, started: set<NodeId>, ready: seq<ReadyNode>, r: ReadyNode)
    requires Handed(g, inputs, started, ready) && r.nodeId in g.nodes && r.nodeId in inputs && r.nodeId !in started
    requires r == ReadyNode(g.nodes[r.nodeId], InPortOrder(inputs[r.nodeId]), r.nodeId)
    ensures Handed(g, inputs, started + {r.nodeId}, ready + [r])
  {
    IdsSnoc(ready, r);
    hide Ids, SetOf, NoRepeats, InPortOrder;
  }

  lemma AllHanded(g: ExecGraph, x: InputData, inputs: map<NodeId, map<PortId, IO>>, ready: seq<ReadyNode>)
    requires exists waiting :: Split(g, x, inputs, waiting)
    requires Handed(g, inputs, inputs.Keys, ready)
    ensures InitiallyReady(g, x, ready)
    ensures forall waiting :: Split(g, x, inputs, waiting) ==> waiting == WaitingData(g, x)
    ensures inputs.Keys == FedSources(g, x)
  {
    hide Ids, SetOf, NoRepeats, InPortOrder, ExternalInputs, FedSources, WaitingData;
  }

  /** What `init_nodes` hands out: each fed source once, with its external data in port order. */
  ghost predicate InitiallyReady(g: ExecGraph, x: InputData, ready: seq<ReadyNode>) {
    && NoRepeats(Ids(ready)) && SetOf(Ids(ready)) == FedSources(g, x)
    && forall k :: 0 <= k < |ready| ==>
         ready[k].nodeId in g.nodes
         && ready[k] == ReadyNode(g.nodes[ready[k].nodeId], InPortOrder(ExternalInputs(x, ready[k].nodeId)), ready[k].nodeId)
  }

  lemma NothingSeen(g: ExecGraph)
    ensures Split(g, map[], map[], map[])
  {
    assert FedSources(g, map[]) == {};
  }

  lemma SeenStep(g: ExecGraph, x: InputData, inputs: map<NodeId, map<PortId, IO>>, waiting: InputData, i: NodeInput, io: IO)
    requires Split(g, x, inputs, waiting) && i !in x && i.node in g.nodes
    ensures IsSource(g, i.node) ==> Split(g, x[i := io], WithEntry(inputs, i, io), waiting)
    ensures !IsSource(g, i.node) ==> Split(g, x[i := io], inputs, waiting[i := io])
  {
    hide Split;
    if IsSource(g, i.node) {
      SeenSource(g, x, inputs, waiting, i, io);
    } else {
      SeenOther(g, x, inputs, waiting, i, io);
    }
  }

  lemma SeenOther(g: ExecGraph, x: InputData, inputs: map<NodeId, map<PortId, IO>>, waiting: InputData, i: NodeInput, io: IO)
    requires Split(g, x, inputs, waiting) && i !in x && i.node in g.nodes && !IsSource(g, i.node)
    ensures Split(g, x[i := io], inputs, waiting[i := io])
  {
    ExternalAfter(x, i, io);
    FedSourcesAfter(g, x, i, io);
    WaitingAfter(g, x, i, io);
    hide ExternalInputs, WaitingData, IsSource, Fed;
  }

  lemma SeenSource(g: ExecGraph, x: InputData, inputs: map<NodeId, map<PortId, IO>>, waiting: InputData, i: NodeInput, io: IO)
    requires Split(g, x, inputs, waiting) && i !in x && i.node in g.nodes && IsSource(g, i.node)
    ensures Split(g, x[i := io], WithEntry(inputs, i, io), waiting)
  {
    var y, after := x[i := io], WithEntry(inputs, i, io);
    FedSourcesAfter(g, x, i, io);
    WaitingAfter(g, x, i, io);
    hide ExternalInputs, WaitingData, IsSource, Fed, WithEntry, FedSources;
    EntryKeys(inputs, i, io);
    forall n | n in after
      ensures after[n] == ExternalInputs(y, n)
    {
      EntryAfter(g, x, inputs, i, io, n);
    }
  }

  lemma EntryKeys(inputs: map<NodeId, map<PortId, IO>>, i: NodeInput, io: IO)
    ensures WithEntry(inputs, i, io).Keys == inputs.Keys + {i.node}
  {}

  lemma EntryAfter(g: ExecGraph, x: InputData, inputs: map<NodeId, map<PortId, IO>>, i: NodeInput, io: IO, n: NodeId)
    requires inputs.Keys == FedSources(g, x) && i.node in g.nodes && IsSource(g, i.node)
    requires n in inputs ==> inputs[n] == ExternalInputs(x, n)
    requires n in WithEntry(inputs, i, io)
    ensures WithEntry(inputs, i, io)[n] == ExternalInputs(x[i := io], n)
  {
    ExternalAfter(x, i, io);
    NotFedIsEmpty(x, i.node);
    hide ExternalInputs, IsSource, Fed;
  }

  lemma FedSourcesAfter(g: ExecGraph, x: InputData, i: NodeInput, io: IO)
    requires i.node in g.nodes
    ensures FedSources(g, x[i := io]) == if IsSource(g, i.node) then FedSources(g, x) + {i.node} else FedSources(g, x)
  {
    FedAfter(x, i, io);
    hide Fed, IsSource;
    var y := x[i := io];
    assert FedSources(g, y) == if IsSource(g, i.node) then FedSources(g, x) + {i.node} else FedSources(g, x);
  }

  lemma WaitingAfter(g: ExecGraph, x: InputData, i: NodeInput, io: IO)
    requires i !in x
    ensures WaitingData(g, x[i := io]) == if IsSource(g, i.node) then WaitingData(g, x) else WaitingData(g, x)[i := io]
  {
    hide IsSource;
  }

  lemma FedAfter(x: InputData, i: NodeInput, io: IO)
    ensures forall n :: Fed(x[i := io], n) <==> n == i.node || Fed(x, n)
  {
    forall n
      ensures Fed(x[i := io], n) <==> n == i.node || Fed(x, n)
    {
      var y := x[i := io];
      assert i == NodeInput(i.node, i.port);
      assert n == i.node ==> i.port in ExternalPorts(y, n);
      assert forall p :: p in ExternalPorts(x, n) ==> p in ExternalPorts(y, n);
      assert n != i.node ==> forall p :: p in ExternalPorts(y, n) ==> p in ExternalPorts(x, n);
    }
  }

  lemma NotFedIsEmpty(x: InputData, n: NodeId)
    ensures !Fed(x, n) ==> ExternalInputs(x, n) == map[]
  {}

  lemma ExternalAfter(x: InputData, i: NodeInput, io: IO)
    ensures forall n :: n != i.node ==> ExternalInputs(x[i := io], n) == ExternalInputs(x, n)
    ensures ExternalInputs(x[i := io], i.node) == ExternalInputs(x, i.node)[i.port := io]
  {
    var y := x[i := io];
    forall n | n != i.node
      ensures ExternalInputs(y, n) == ExternalInputs(x, n)
    {
      assert ExternalPorts(y, n) == ExternalPorts(x, n);
    }
    assert i == NodeInput(i.node, i.port);
    assert ExternalPorts(y, i.node) == ExternalPorts(x, i.node) + {i.port};
    hide ExternalPorts;
    var a, b := ExternalInputs(y, i.node), ExternalInputs(x, i.node)[i.port := io];
    assert a.Keys == b.Keys;
  }

  function Ids(ready: seq<ReadyNode>): (ids: seq<NodeId>)
    ensures |ids| == |ready|
  {
    seq(|ready|, k requires 0 <= k < |ready| => ready[k].nodeId)
  }

  lemma IdsSnoc(ready: seq<ReadyNode>, r: ReadyNode)
    ensures Ids(ready + [r]) == Ids(ready) + [r.nodeId]
    ensures SetOf(Ids(ready + [r])) == SetOf(Ids(ready)) + {r.nodeId}
    ensures NoRepeats(Ids(ready)) && r.nodeId !in SetOf(Ids(ready)) ==> NoRepeats(Ids(ready + [r]))
  {
    assert Ids(ready + [r]) == Ids(ready) + [r.nodeId];
  }

  // ---------------------------------------------------------------- mark_done, edge by edge

  ghost predicate OneLinkEach(g: ExecGraph, es: set<EdgeId>) {
    forall e :: e in es ==> e in g.edges && |g.edges[e].ports| == 1
  }

  /** After the edges of `handled`: their weights are set, and the ports they take are not free. */
  ghost predicate Filling(g: ExecGraph, was: map<EdgeId, IO>, outputs: seq<IO>, handled: set<EdgeId>,
                          weights: map<EdgeId, IO>, free: set<PortId>) {
    && (forall e :: e in handled ==> SourcePort(g, e) < |outputs|)
    && weights == was + (map e | e in handled :: outputs[SourcePort(g, e)])
    && forall p: PortId :: p in free <==> p < |outputs| && !exists e :: e in handled && SourcePort(g, e) == p
  }

  function Earlier(es: set<EdgeId>, e: EdgeId): (s: set<EdgeId>)
    ensures forall f :: f in s <==> f in es && f < e
  {
    set f | f in es && f < e
  }

  /** The loop stopped at edge e: the weights of the edges before it are set, and no others. */
  ghost predicate StoppedAt(g: ExecGraph, was: map<EdgeId, IO>, outputs: seq<IO>, filled: set<EdgeId>,
                            weights: map<EdgeId, IO>, e: EdgeId) {
    && e in filled && e in g.edges && |g.edges[e].ports| != 1 && OneLinkEach(g, Earlier(filled, e))
    && (forall f :: f in Earlier(filled, e) ==> SourcePort(g, f) < |outputs|)
    && weights == was + (map f | f in Earlier(filled, e) :: outputs[SourcePort(g, f)])
  }

  ghost predicate Stopped(g: ExecGraph, was: map<EdgeId, IO>, outputs: seq<IO>, filled: set<EdgeId>, weights: map<EdgeId, IO>) {
    exists e :: StoppedAt(g, was, outputs, filled, weights, e)
  }

  /** The edges outside `rest`, the smaller ones, have one link each and are filled. */
  ghost predicate FillLoop(g: ExecGraph, was: map<EdgeId, IO>, outputs: seq<IO>, filled: set<EdgeId>, rest: set<EdgeId>,
                           weights: map<EdgeId, IO>, free: set<PortId>) {
    && Filling(g, was, outputs, filled - rest, weights, free) && OneLinkEach(g, filled - rest)
    && forall f, h :: f in filled && f !in rest && h in rest ==> f < h
  }

  lemma FillBegins(g: ExecGraph, was: map<EdgeId, IO>, outputs: seq<IO>, filled: set<EdgeId>)
    ensures FillLoop(g, was, outputs, filled, filled, was, Below(|outputs|))
  {
    assert filled - filled == {};
    FillNone(g, was, outputs);
    hide Filling;
  }

  lemma FillNext(g: ExecGraph, was: map<EdgeId, IO>, outputs: seq<IO>, filled: set<EdgeId>, rest: set<EdgeId>,
                 weights: map<EdgeId, IO>, free: set<PortId>, e: EdgeId)
    requires FillLoop(g, was, outputs, filled, rest, weights, free) && rest <= filled && e in rest
    requires e in g.edges && |g.edges[e].ports| == 1 && SourcePort(g, e) < |outputs| && forall f :: f in rest ==> e <= f
    ensures FillLoop(g, was, outputs, filled, rest - {e}, weights[e := outputs[SourcePort(g, e)]], free - {SourcePort(g, e)})
  {
    FillOne(g, was, outputs, filled - rest, weights, free, e);
    assert filled - rest + {e} == filled - (rest - {e});
    hide Filling;
  }

  lemma FillEnds(g: ExecGraph, was: map<EdgeId, IO>, outputs: seq<IO>, filled: set<EdgeId>, weights: map<EdgeId, IO>, free: set<PortId>)
    requires FillLoop(g, was, outputs, filled, {}, weights, free)
    ensures Filling(g, was, outputs, filled, weights, free) && OneLinkEach(g, filled)
  {
    assert filled - {} == filled;
  }

  lemma StopsAt(g: ExecGraph, was: map<EdgeId, IO>, outputs: seq<IO>, filled: set<EdgeId>, rest: set<EdgeId>,
                weights: map<EdgeId, IO>, free: set<PortId>, e: EdgeId)
    requires FillLoop(g, was, outputs, filled, rest, weights, free)
    requires rest <= filled && e in rest && e in g.edges && |g.edges[e].ports| != 1 && forall f :: f in rest ==> e <= f
    ensures Stopped(g, was, outputs, filled, weights) && !OneLinkEach(g, filled)
  {
    assert Earlier(filled, e) == filled - rest;
    assert StoppedAt(g, was, outputs, filled, weights, e);
  }

  lemma FillNone(g: ExecGraph, was: map<EdgeId, IO>, outputs: seq<IO>)
    ensures Filling(g, was, outputs, {}, was, Below(|outputs|))
  {}

  lemma FillOne(g: ExecGraph, was: map<EdgeId, IO>, outputs: seq<IO>, handled: set<EdgeId>,
                weights: map<EdgeId, IO>, free: set<PortId>, e: EdgeId)
    requires Filling(g, was, outputs, handled, weights, free) && SourcePort(g, e) < |outputs|
    ensures Filling(g, was, outputs, handled + {e}, weights[e := outputs[SourcePort(g, e)]], free - {SourcePort(g, e)})
  {}

  /** The state of `mark_done` when its loop begins. */
  function Marked(s: State, n: NodeId): State {
    State(s.weights, s.waiting, s.running - {n}, s.done + {n})
  }

  lemma MarkedFills(g: ExecGraph, s: State, n: NodeId, outputs: seq<IO>)
    ensures FilledEdges(g, Marked(s, n), n) == FilledEdges(g, s, n)
    ensures CanFill(g, s, n, outputs) ==> CanFill(g, Marked(s, n), n, outputs)
  {
    assert FilledEdges(g, Marked(s, n), n) == FilledEdges(g, s, n);
  }

  function AtPorts(n: NodeId, outputs: seq<IO>, ports: set<PortId>): OutputData
    requires forall p :: p in ports ==> p < |outputs|
  {
    map p | p in ports :: NodeOutput(n, p) := outputs[p]
  }

  lemma FillAll(g: ExecGraph, s: State, n: NodeId, outputs: seq<IO>, weights: map<EdgeId, IO>, free: Option<set<PortId>>)
    requires CanFill(g, s, n, outputs)
    requires free.Some? ==> Filling(g, s.weights, outputs, FilledEdges(g, s, n), weights, free.value)
    ensures free.Some? ==> (forall p :: p in free.value ==> p < |outputs|)
    ensures free.Some? ==> Marked(s, n).(weights := weights) == SchedulerState.MarkDone(g, s, n, outputs)
    ensures free.Some? ==> AtPorts(n, outputs, free.value) == ReportedOutputs(g, s, n, outputs)
  {
    if free.Some? {
      FilledWeights(g, s, n, outputs, weights, free.value);
      FreeReported(g, s, n, outputs, weights, free.value);
    }
  }

  lemma FilledWeights(g: ExecGraph, s: State, n: NodeId, outputs: seq<IO>, weights: map<EdgeId, IO>, free: set<PortId>)
    requires CanFill(g, s, n, outputs) && Filling(g, s.weights, outputs, FilledEdges(g, s, n), weights, free)
    ensures Marked(s, n).(weights := weights) == SchedulerState.MarkDone(g, s, n, outputs)
  {
    hide FilledEdges;
  }

  lemma FreeReported(g: ExecGraph, s: State, n: NodeId, outputs: seq<IO>, weights: map<EdgeId, IO>, free: set<PortId>)
    requires Filling(g, s.weights, outputs, FilledEdges(g, s, n), weights, free)
    ensures AtPorts(n, outputs, free) == ReportedOutputs(g, s, n, outputs)
  {
    hide FilledEdges;
    var a, b := AtPorts(n, outputs, free), ReportedOutputs(g, s, n, outputs);
    forall o: NodeOutput
      ensures o in a <==> o in b
    {
      assert o == NodeOutput(o.node, o.port);
    }
  }

  // ---------------------------------------------------------------- inputs off the edges

  /** The data inserted at the target port of each link. */
  function WithPorts(data: map<PortId, IO>, ports: seq<PortLink>, io: IO): map<PortId, IO> {
    if ports == [] then data
    else WithPorts(data, ports[..|ports| - 1], io)[ports[|ports| - 1].targetPort := io]
  }

  lemma {:induction false} WithPortsAt(data: map<PortId, IO>, ports: seq<PortLink>, io: IO, p: PortId)
    ensures p in WithPorts(data, ports, io) <==> p in data || p in NewPorts(ports)
    ensures p in NewPorts(ports) ==> WithPorts(data, ports, io)[p] == io
    ensures p in data && p !in NewPorts(ports) ==> WithPorts(data, ports, io)[p] == data[p]
  {
    if ports != [] {
      var init := ports[..|ports| - 1];
      WithPortsAt(data, init, io, p);
      assert ports == init + [ports[|ports| - 1]];
      assert p in NewPorts(ports) <==> p in NewPorts(init) || p == ports[|ports| - 1].targetPort by {
        if p in NewPorts(init) {
          var i :| 0 <= i < |init| && init[i].targetPort == p;
          assert ports[i].targetPort == p;
        }
        assert ports[|ports| - 1].targetPort in NewPorts(ports);
      }
    }
  }

  /** `data` holds what the edges of `handled` bring to n. */
  ghost predicate Taken(g: ExecGraph, w: map<EdgeId, IO>, n: NodeId, handled: set<EdgeId>, data: map<PortId, IO>) {
    && (forall p :: p in data ==> exists e, i :: e in handled && LinkAt(g, e, i, n, p))
    && (forall e, i, p :: e in handled && LinkAt(g, e, i, n, p) ==> p in data && e in w && data[p] == w[e])
  }

  lemma TakenNone(g: ExecGraph, w: map<EdgeId, IO>, n: NodeId)
    ensures Taken(g, w, n, {}, map[])
  {}

  lemma TakenOne(g: ExecGraph, w: map<EdgeId, IO>, n: NodeId, handled: set<EdgeId>, data: map<PortId, IO>, e: EdgeId)
    requires Consistent(g) && Taken(g, w, n, handled, data) && e in w && e !in handled && Enters(g, e, n)
    ensures Taken(g, w, n, handled + {e}, WithPorts(data, g.edges[e].ports, w[e]))
  {
    hide PortsInto, Contiguous, EndpointsExist, NoParallelEdges;
    var ports, after, all := g.edges[e].ports, WithPorts(data, g.edges[e].ports, w[e]), handled + {e};
    forall p
      ensures p in after <==> p in data || p in NewPorts(ports)
      ensures p in NewPorts(ports) ==> after[p] == w[e]
      ensures p in data && p !in NewPorts(ports) ==> after[p] == data[p]
    {
      WithPortsAt(data, ports, w[e], p);
    }
    hide WithPorts;
    forall p | p in after
      ensures exists f, i :: f in all && LinkAt(g, f, i, n, p)
    {
      if p in data {
        var f, i :| f in handled && LinkAt(g, f, i, n, p);
        assert f in all;
      } else {
        var i :| 0 <= i < |ports| && ports[i].targetPort == p;
        assert e in all && LinkAt(g, e, i, n, p);
      }
    }
    assert forall i :: 0 <= i < |ports| ==> LinkAt(g, e, i, n, ports[i].targetPort) && ports[i].targetPort in NewPorts(ports);
    forall f, i: nat, p | f in all && LinkAt(g, f, i, n, p)
      ensures p in after && f in w && after[p] == w[f]
    {
      assert f in handled ==> p !in NewPorts(ports);
    }
  }

  lemma TakenAll(g: ExecGraph, s: State, n: NodeId, data: map<PortId, IO>)
    requires Candidate(g, s, n) && Taken(g, s.weights, n, EdgesInto(g, n), data)
    ensures data == CarriedInputs(g, s, n)
  {
    hide Candidate;
    assert forall e, i, p :: LinkAt(g, e, i, n, p) ==> e in EdgesInto(g, n);
    hide EdgesInto, LinkAt;
    var carried := CarriedInputs(g, s, n);
    forall p
      ensures p in data <==> p in carried
    {}
    forall p | p in carried
      ensures data[p] == carried[p]
    {
      var i: nat :| LinkAt(g, EdgeInto(g, n, p), i, n, p);
    }
  }

  // ---------------------------------------------------------------- next_ready_nodes, candidate by candidate

  ghost predicate Unacceptable(g: ExecGraph, policy: ReleasePolicy, s: State, n: NodeId) {
    n in g.nodes && s.running <= g.nodes.Keys && !Accepts(policy, g, s, n)
  }

  /** Nothing more can be released now. */
  ghost predicate NoneLeft(g: ExecGraph, policy: ReleasePolicy, s: State) {
    forall n :: n in g.nodes && Candidate(g, s, n) ==> Unacceptable(g, policy, s, n)
  }

  /** From s to t every candidate outside `rest` has been released or refused. */
  ghost predicate Swept(g: ExecGraph, policy: ReleasePolicy, s: State, t: State, candidates: set<NodeId>, rest: set<NodeId>) {
    && t.running <= g.nodes.Keys && rest <= candidates <= g.nodes.Keys
    && s.running <= t.running && t.weights.Keys <= s.weights.Keys
    && (forall n :: n in g.nodes && Candidate(g, s, n) ==> n in candidates)
    && (forall n :: n in rest ==> Candidate(g, t, n))
    && forall n :: n in candidates - rest ==> n in t.running || Unacceptable(g, policy, t, n)
  }

  lemma NothingReleased(g: ExecGraph, policy: ReleasePolicy, s: State, candidates: set<NodeId>)
    requires s.running <= g.nodes.Keys && candidates == set n | n in g.nodes && Candidate(g, s, n)
    ensures Swept(g, policy, s, s, candidates, candidates)
    ensures Chain(g, policy, s, []) && ReleaseAll(g, s, []) == s && ReadyFor(g, policy, s, []) == []
  {
    hide Candidate, Accepts;
  }

  lemma SweptParts(g: ExecGraph, policy: ReleasePolicy, s: State, t: State, candidates: set<NodeId>, rest: set<NodeId>, n: NodeId)
    requires Swept(g, policy, s, t, candidates, rest) && n in rest
    ensures n in g.nodes && t.running <= g.nodes.Keys && Candidate(g, t, n) && n !in t.running
  {}

  lemma ReleaseOne(g: ExecGraph, policy: ReleasePolicy, s: State, ids: seq<NodeId>, n: NodeId)
    requires Chain(g, policy, s, ids)
    requires var t := ReleaseAll(g, s, ids);
             n in g.nodes && t.running <= g.nodes.Keys && Candidate(g, t, n) && Accepts(policy, g, t, n)
    ensures var t := ReleaseAll(g, s, ids);
            && Chain(g, policy, s, ids + [n]) && ReleaseAll(g, s, ids + [n]) == Release(g, t, n)
            && ReadyFor(g, policy, s, ids + [n])
               == ReadyFor(g, policy, s, ids) + [ReadyNode(g.nodes[n], ReleasedInputs(g, t, n), n)]
  {
    hide Candidate, Accepts, Release, ReleasedInputs;
    assert (ids + [n])[..|ids + [n]| - 1] == ids;
  }

  lemma ReleaseSpares(g: ExecGraph, s: State, n: NodeId, m: NodeId)
    requires Candidate(g, s, m) && m != n
    ensures Candidate(g, Release(g, s, n), m)
  {}

  lemma StillUnacceptable(g: ExecGraph, policy: ReleasePolicy, s: State, n: NodeId, m: NodeId)
    requires Unacceptable(g, policy, s, m) && n in g.nodes
    ensures Unacceptable(g, policy, Release(g, s, n), m)
  {}

  lemma SweptReleased(g: ExecGraph, policy: ReleasePolicy, s: State, t: State, candidates: set<NodeId>, rest: set<NodeId>, n: NodeId)
    requires Swept(g, policy, s, t, candidates, rest) && n in rest
    ensures Swept(g, policy, s, Release(g, t, n), candidates, rest - {n})
  {
    hide Candidate, Unacceptable, EdgesInto, InputsOf;
    var u := Release(g, t, n);
    forall m | m in rest - {n}
      ensures Candidate(g, u, m)
    {
      ReleaseSpares(g, t, n, m);
    }
    forall m | m in candidates - (rest - {n})
      ensures m in u.running || Unacceptable(g, policy, u, m)
    {
      if m != n && m !in t.running {
        StillUnacceptable(g, policy, t, n, m);
      }
    }
  }

  lemma SweptSkipped(g: ExecGraph, policy: ReleasePolicy, s: State, t: State, candidates: set<NodeId>, rest: set<NodeId>, n: NodeId)
    requires Swept(g, policy, s, t, candidates, rest) && n in rest && Unacceptable(g, policy, t, n)
    ensures Swept(g, policy, s, t, candidates, rest - {n})
  {
    hide Candidate, Unacceptable;
  }

  lemma SweptAll(g: ExecGraph, policy: ReleasePolicy, s: State, t: State, candidates: set<NodeId>)
    requires Swept(g, policy, s, t, candidates, {})
    ensures t.running <= g.nodes.Keys && NoneLeft(g, policy, t)
  {
    hide Unacceptable;
    forall n | n in g.nodes && Candidate(g, t, n)
      ensures Unacceptable(g, policy, t, n)
    {
      assert Candidate(g, s, n);
    }
  }
}
