/** The two executors of `zkml/src/graph/executor.rs`: rounds in sequence, and a pool of workers. */
module Executors {
  import opened Wrappers
  import opened Collections
  import opened PortGraph
  import opened Denotation
  import opened SchedulerState
  import opened GraphSchedulers

  datatype ExecutionError = NodeFailed | SchedulerFailed(error: SchedulerError)

  /** The result says what the graph means on x, and fails only if it means nothing. */
  ghost predicate Computes(g: ExecGraph, x: InputData, r: Result<OutputData, ExecutionError>) {
    match r
    case Ok(outputs) => exists val :: IsValuation(g, x, val) && outputs == GraphOutputs(g, val)
    case Err(_) => !exists val :: IsValuation(g, x, val)
  }

  /** Any two executors that compute the graph agree: both fail, or both return the same outputs. */
  lemma ExecutorsAgree(g: ExecGraph, x: InputData, a: Result<OutputData, ExecutionError>, b: Result<OutputData, ExecutionError>)
    requires Legal(g, x) && Computes(g, x, a) && Computes(g, x, b)
    ensures a.Ok? <==> b.Ok?
    ensures a.Ok? ==> a == b
  {
    if a.Ok? && b.Ok? {
      var u :| IsValuation(g, x, u) && a.value == GraphOutputs(g, u);
      var v :| IsValuation(g, x, v) && b.value == GraphOutputs(g, v);
      LegalParts(g, x);
      ValuationUnique(g, x, u, v);
    }
  }

  /** `ready` is everything that runs, each node once, with the inputs the run gave it. */
  ghost predicate Holds(g: ExecGraph, r: Run, ready: seq<ReadyNode>) {
    && NoRepeats(Ids(ready)) && SetOf(Ids(ready)) == r.s.running
    && forall k :: 0 <= k < |ready| ==> HeldFor(g, r, ready[k])
  }

  ghost predicate HeldFor(g: ExecGraph, r: Run, node: ReadyNode) {
    node.nodeId in g.nodes && node.nodeId in r.inputs
    && node == ReadyNode(g.nodes[node.nodeId], r.inputs[node.nodeId], node.nodeId)
  }

  /** The driver's state: a reachable run, its scheduler, its outputs, and the nodes handed out. */
  ghost predicate Driving(g: ExecGraph, x: InputData, r: Run, s: State, outputs: OutputData, ready: seq<ReadyNode>) {
    Inv(g, x, r) && s == r.s && outputs == r.outputs && Holds(g, r, ready)
  }

  lemma InitHolds(g: ExecGraph, x: InputData, ready: seq<ReadyNode>)
    requires InitiallyReady(g, x, ready)
    ensures Holds(g, InitRun(g, x), ready)
  {
    hide NoRepeats, SetOf, Ids, InPortOrder, ExternalInputs, WaitingData;
    var r := InitRun(g, x);
    assert r.inputs.Keys == SetOf(Ids(ready));
    forall k | 0 <= k < |ready|
      ensures HeldFor(g, r, ready[k])
    {
      IdIn(ready, k);
    }
  }

  lemma IdIn(ready: seq<ReadyNode>, k: nat)
    requires k < |ready|
    ensures ready[k].nodeId in SetOf(Ids(ready))
  {
    assert Ids(ready)[k] == ready[k].nodeId;
  }

  function Without(ready: seq<ReadyNode>, k: nat): seq<ReadyNode>
    requires k < |ready|
  {
    ready[..k] + ready[k + 1..]
  }

  lemma IdsWithout(ready: seq<ReadyNode>, k: nat)
    requires k < |ready| && NoRepeats(Ids(ready))
    ensures NoRepeats(Ids(Without(ready, k)))
    ensures SetOf(Ids(Without(ready, k))) == SetOf(Ids(ready)) - {ready[k].nodeId}
  {
    var a := Ids(ready);
    assert Ids(Without(ready, k)) == a[..k] + a[k + 1..];
    SeqWithout(a, k);
  }

  lemma SeqWithout(a: seq<NodeId>, k: nat)
    requires k < |a| && NoRepeats(a)
    ensures NoRepeats(a[..k] + a[k + 1..]) && SetOf(a[..k] + a[k + 1..]) == SetOf(a) - {a[k]}
  {
    var b := a[..k] + a[k + 1..];
    forall n
      ensures n in b <==> n in a && n != a[k]
    {
      assert a == a[..k] + [a[k]] + a[k + 1..];
    }
  }

  /** A completion takes its node out of what is held. */
  lemma CompleteHolds(g: ExecGraph, r: Run, ready: seq<ReadyNode>, k: nat, out: seq<IO>)
    requires Holds(g, r, ready) && k < |ready| && CanFill(g, r.s, ready[k].nodeId, out)
    ensures Holds(g, Complete(g, r, ready[k].nodeId, out), Without(ready, k))
  {
    var n, left := ready[k].nodeId, Without(ready, k);
    var t := Complete(g, r, n, out);
    assert t.s.running == r.s.running - {n} && t.inputs == r.inputs - {n};
    IdsWithout(ready, k);
    hide CanFill, NoRepeats, SetOf, Ids, Complete;
    forall i | 0 <= i < |left|
      ensures HeldFor(g, t, left[i])
    {
      assert left[i] == if i < k then ready[i] else ready[i + 1];
      IdIn(left, i);
    }
  }

  /** A held node that has run completes, and the driver goes on. */
  lemma CompletesDriving(g: ExecGraph, x: InputData, r: Run, outputs: OutputData, ready: seq<ReadyNode>, k: nat, out: seq<IO>)
    requires Legal(g, x) && Driving(g, x, r, r.s, outputs, ready) && k < |ready|
    requires ready[k].node.run(ready[k].inputs) == Some(out)
    ensures var n := ready[k].nodeId;
            && n in r.s.running && n !in r.s.done && n in g.nodes && CanFill(g, r.s, n, out)
            && Driving(g, x, Complete(g, r, n, out), MarkDone(g, r.s, n, out),
                       outputs + ReportedOutputs(g, r.s, n, out), Without(ready, k))
  {
    var n := ready[k].nodeId;
    assert HeldFor(g, r, ready[k]);
    IdIn(ready, k);
    InvParts(g, x, r);
    hide Legal, Inv, HeldFor, CanFill, Without, SetOf, Ids, NoRepeats, MarkDone, ReportedOutputs;
    CompleteKeepsInv(g, x, r, n, out);
    CompleteHolds(g, r, ready, k, out);
  }

  lemma JoinState(g: ExecGraph, r: Run, n: NodeId)
    requires Candidate(g, r.s, n)
    ensures n !in r.s.running && Released(g, r, n).s.running == r.s.running + {n}
    ensures Released(g, r, n).inputs == r.inputs[n := ReleasedInputs(g, r.s, n)]
  {
    hide ReleasedInputs, EdgesInto, InputsOf;
  }

  lemma JoinHolds(g: ExecGraph, r: Run, held: seq<ReadyNode>, n: NodeId)
    requires n in g.nodes && Candidate(g, r.s, n) && Holds(g, r, held)
    ensures Holds(g, Released(g, r, n), held + [ReadyNode(g.nodes[n], ReleasedInputs(g, r.s, n), n)])
  {
    hide NoRepeats, SetOf, Ids, Candidate, ReleasedInputs, Released;
    var node := ReadyNode(g.nodes[n], ReleasedInputs(g, r.s, n), n);
    var t := Released(g, r, n);
    JoinState(g, r, n);
    IdsSnoc(held, node);
    forall k | 0 <= k < |held|
      ensures HeldFor(g, t, held[k])
    {
      assert HeldFor(g, r, held[k]);
      IdIn(held, k);
    }
    assert HeldFor(g, t, node);
    hide HeldFor;
  }

  /** A batch of releases keeps the driver going. */
  lemma {:induction false} ChainDriving(g: ExecGraph, x: InputData, policy: ReleasePolicy, r: Run, outputs: OutputData,
                                        held: seq<ReadyNode>, ids: seq<NodeId>) returns (t: Run)
    requires Chain(g, policy, r.s, ids) && Legal(g, x) && Driving(g, x, r, r.s, outputs, held)
    ensures Driving(g, x, t, ReleaseAll(g, r.s, ids), outputs, held + ReadyFor(g, policy, r.s, ids))
    ensures t.s.done == r.s.done
    decreases |ids|
  {
    hide Legal, Driving, Candidate, Accepts, Release, ReleasedInputs, Released, Inv, Holds;
    if ids == [] {
      t := r;
      assert held + [] == held;
    } else {
      var init, n := ids[..|ids| - 1], ids[|ids| - 1];
      var u := ChainDriving(g, x, policy, r, outputs, held, init);
      var s, before := ReleaseAll(g, r.s, init), held + ReadyFor(g, policy, r.s, init);
      t := Released(g, u.(s := s), n);
      ReleasesDriving(g, x, u, s, outputs, before, n);
      var node := ReadyNode(g.nodes[n], ReleasedInputs(g, s, n), n);
      assert before + [node] == held + (ReadyFor(g, policy, r.s, init) + [node]);
    }
  }

  lemma ReleasesDriving(g: ExecGraph, x: InputData, r: Run, s: State, outputs: OutputData, held: seq<ReadyNode>, n: NodeId)
    requires n in g.nodes && Candidate(g, s, n) && Legal(g, x) && Driving(g, x, r, s, outputs, held)
    ensures s == r.s && Released(g, r, n).s.done == r.s.done
    ensures Driving(g, x, Released(g, r, n), Release(g, s, n), outputs,
                    held + [ReadyNode(g.nodes[n], ReleasedInputs(g, s, n), n)])
  {
    hide Legal, Inv, Holds, Candidate, Release, ReleasedInputs;
    ReleaseKeepsInv(g, x, r, n);
    JoinHolds(g, r, held, n);
    ReleaseMoves(g, r, n);
  }

  /** With nothing running and nothing left to release, the run is over. */
  lemma NoneLeftIsDone(g: ExecGraph, x: InputData, policy: ReleasePolicy, r: Run)
    requires Legal(g, x) && Inv(g, x, r) && r.s.running == {} && NoneLeft(g, policy, r.s)
    ensures IsDone(g, r.s)
  {
    hide Legal, Inv, Candidate, IsDone;
    assert forall n :: !Unacceptable(g, policy, r.s, n);
    if !IsDone(g, r.s) {
      Progress(g, x, r);
    }
  }

  lemma InitialCandidates(g: ExecGraph, x: InputData, n: NodeId)
    ensures !Candidate(g, InitState(g, x), n)
  {}

  lemma InitNotStuck(g: ExecGraph, x: InputData)
    requires InitRun(g, x).s.running == {} && Legal(g, x)
    ensures IsDone(g, InitState(g, x))
  {
    hide Legal, Inv, Candidate, IsDone, InitState, FedSources, ExternalInputs, InPortOrder;
    InitInv(g, x);
    forall n
      ensures !Candidate(g, InitState(g, x), n)
    {
      InitialCandidates(g, x, n);
    }
    if !IsDone(g, InitState(g, x)) {
      Progress(g, x, InitRun(g, x));
    }
  }

  /** The driver at the start: a graph with nodes has a source to run. */
  lemma InitDriving(g: ExecGraph, x: InputData, ready: seq<ReadyNode>)
    requires Legal(g, x) && InitiallyReady(g, x, ready)
    ensures Driving(g, x, InitRun(g, x), InitState(g, x), map[], ready)
    ensures ready == [] ==> IsDone(g, InitState(g, x))
  {
    hide Legal, Inv, InitiallyReady, InitState, IsDone, Holds, WaitingData, FedSources, ExternalInputs, InPortOrder;
    InitInv(g, x);
    InitHolds(g, x, ready);
    if ready == [] {
      NothingHeld(g, InitRun(g, x));
      InitNotStuck(g, x);
    }
  }

  lemma NothingHeld(g: ExecGraph, r: Run)
    requires Holds(g, r, [])
    ensures r.s.running == {}
  {}

  /** A driver that stops has computed the graph. */
  lemma StoppedComputes(g: ExecGraph, x: InputData, r: Run, outputs: OutputData, held: seq<ReadyNode>)
    requires Legal(g, x) && Driving(g, x, r, r.s, outputs, held) && IsDone(g, r.s)
    ensures Computes(g, x, Ok(outputs))
  {
    hide Legal, Inv, Holds, IsDone, IsValuation;
    FinishedRun(g, x, r);
  }

  /** An operation that fails on its inputs leaves the graph without meaning. */
  lemma FailureComputes(g: ExecGraph, x: InputData, r: Run, outputs: OutputData, held: seq<ReadyNode>, k: nat, error: ExecutionError)
    requires Fails(held, k)
    requires Legal(g, x) && Driving(g, x, r, r.s, outputs, held)
    ensures Computes(g, x, Err(error))
  {
    hide Legal, Inv, IsValuation, Holds;
    HeldRuns(g, r, held, k);
    forall val | IsValuation(g, x, val)
      ensures false
    {
      RunAgrees(g, x, r, val);
    }
  }

  lemma HeldRuns(g: ExecGraph, r: Run, held: seq<ReadyNode>, k: nat)
    requires Holds(g, r, held) && k < |held|
    ensures var n := held[k].nodeId;
            n in r.s.running && n in g.nodes && n in r.inputs && held[k] == ReadyNode(g.nodes[n], r.inputs[n], n)
  {
    assert HeldFor(g, r, held[k]);
    IdIn(held, k);
    hide SetOf, Ids, NoRepeats;
  }

  // ---------------------------------------------------------------- the executors

  ghost predicate Fresh(s: State) {
    s == State(map[], map[], {}, {})
  }

  /** `outs` are what the nodes of a batch return. */
  ghost predicate Results(ready: seq<ReadyNode>, outs: seq<seq<IO>>) {
    |outs| == |ready| && forall k :: 0 <= k < |ready| ==> ready[k].node.run(ready[k].inputs) == Some(outs[k])
  }

  ghost predicate Fails(ready: seq<ReadyNode>, k: nat) {
    k < |ready| && ready[k].node.run(ready[k].inputs).None?
  }

  /** The nodes of a batch one after the other: their outputs, or none when one fails. */
  method RunAll(ready: seq<ReadyNode>) returns (outs: Option<seq<seq<IO>>>)
    ensures outs.Some? ==> Results(ready, outs.value)
    ensures outs.None? ==> exists k :: Fails(ready, k)
  {
    var done := [];
    for k := 0 to |ready|
      invariant |done| == k
      invariant forall i :: 0 <= i < k ==> ready[i].node.run(ready[i].inputs) == Some(done[i])
    {
      match ready[k].node.run(ready[k].inputs) {
        case None =>
          assert Fails(ready, k);
          return None;
        case Some(out) => done := done + [out];
      }
    }
    return Some(done);
  }

  /** Marks one finished node and collects what it reports. */
  method Finish(scheduler: GraphScheduler, x: InputData, ghost run: Run, was: OutputData, ready: seq<ReadyNode>, k: nat, out: seq<IO>)
      returns (outputs: OutputData, ghost next: Run)
    requires k < |ready| && ready[k].node.run(ready[k].inputs) == Some(out)
    requires Legal(scheduler.graph, x) && Driving(scheduler.graph, x, run, scheduler.View(), was, ready)
    modifies scheduler
    ensures Driving(scheduler.graph, x, next, scheduler.View(), outputs, Without(ready, k))
    ensures scheduler.done > old(scheduler.done) && scheduler.releasePolicy == old(scheduler.releasePolicy)
  {
    hide Legal, Driving, CanFill, Without, ReportedOutputs, FilledEdges, OneLinkEach, Complete, SchedulerState.MarkDone;
    ghost var g, s, n := scheduler.graph, scheduler.View(), ready[k].nodeId;
    DrivingState(g, x, run, s, was, ready);
    CompletesDriving(g, x, run, was, ready, k, out);
    AllOneLink(g, x, s, n);
    MarkDoneParts(g, s, n, out);
    next := Complete(g, run, n, out);
    var reported := scheduler.MarkDone(ready[k].nodeId, out);
    outputs := was + reported.value;
  }

  lemma DrivingState(g: ExecGraph, x: InputData, r: Run, s: State, outputs: OutputData, ready: seq<ReadyNode>)
    requires Driving(g, x, r, s, outputs, ready)
    ensures s == r.s && outputs == r.outputs && s.running <= g.nodes.Keys && s.running !! s.done && s.done <= g.nodes.Keys
  {
    InvParts(g, x, r);
    hide Inv, Holds;
  }

  lemma MarkDoneParts(g: ExecGraph, s: State, n: NodeId, out: seq<IO>)
    requires CanFill(g, s, n, out)
    ensures MarkDone(g, s, n, out).done == s.done + {n}
  {}

  lemma AllOneLink(g: ExecGraph, x: InputData, s: State, n: NodeId)
    requires Legal(g, x)
    ensures OneLinkEach(g, FilledEdges(g, s, n)) && Consistent(g)
  {}

  /** A round of the sequential executor: every node handed out is marked done, in order. */
  method FinishAll(scheduler: GraphScheduler, x: InputData, ghost run: Run, was: OutputData, ready: seq<ReadyNode>, outs: seq<seq<IO>>)
      returns (outputs: OutputData, ghost next: Run)
    requires Results(ready, outs)
    requires Legal(scheduler.graph, x) && Driving(scheduler.graph, x, run, scheduler.View(), was, ready)
    modifies scheduler
    ensures Driving(scheduler.graph, x, next, scheduler.View(), outputs, [])
    ensures scheduler.done >= old(scheduler.done) && (ready != [] ==> scheduler.done > old(scheduler.done))
    ensures scheduler.releasePolicy == old(scheduler.releasePolicy)
  {
    hide Legal, Driving;
    outputs, next := was, run;
    for k := 0 to |ready|
      invariant Driving(scheduler.graph, x, next, scheduler.View(), outputs, ready[k..])
      invariant scheduler.done >= old(scheduler.done) && (k > 0 ==> scheduler.done > old(scheduler.done))
      invariant scheduler.releasePolicy == old(scheduler.releasePolicy)
    {
      assert Without(ready[k..], 0) == ready[k + 1..];
      outputs, next := Finish(scheduler, x, next, outputs, ready[k..], 0, outs[k]);
    }
  }

  /** Pulls the next batch; when nothing is held and nothing comes, the run is over. */
  method Pull(scheduler: GraphScheduler, x: InputData, ghost run: Run, outputs: OutputData, held: seq<ReadyNode>)
      returns (ready: seq<ReadyNode>, ghost next: Run)
    requires Legal(scheduler.graph, x) && Driving(scheduler.graph, x, run, scheduler.View(), outputs, held)
    modifies scheduler
    ensures Driving(scheduler.graph, x, next, scheduler.View(), outputs, held + ready)
    ensures held + ready == [] ==> SchedulerState.IsDone(scheduler.graph, scheduler.View())
    ensures scheduler.done == old(scheduler.done) && scheduler.releasePolicy == old(scheduler.releasePolicy)
  {
    hide Legal, Driving, Consistent, Chain, ReleaseAll, ReadyFor, NoneLeft, SchedulerState.IsDone;
    ghost var g, s, policy := scheduler.graph, scheduler.View(), scheduler.releasePolicy;
    DrivingState(g, x, run, s, outputs, held);
    AllOneLink(g, x, s, 0);
    ghost var ids;
    ready, ids := scheduler.NextReadyNodes();
    next := ChainDriving(g, x, policy, run, outputs, held, ids);
    PulledNothing(g, x, policy, next, scheduler.View(), outputs, held + ready);
  }

  lemma PulledNothing(g: ExecGraph, x: InputData, policy: ReleasePolicy, r: Run, s: State, outputs: OutputData, held: seq<ReadyNode>)
    requires Legal(g, x) && Driving(g, x, r, s, outputs, held) && NoneLeft(g, policy, s)
    ensures held == [] ==> IsDone(g, s)
  {
    if held == [] {
      NothingHeld(g, r);
      hide Legal, Inv, NoneLeft, IsDone, Holds;
      NoneLeftIsDone(g, x, policy, r);
    }
  }

  ghost predicate Going(g: ExecGraph, x: InputData, r: Run, s: State, outputs: OutputData, held: seq<ReadyNode>) {
    Driving(g, x, r, s, outputs, held) && (held == [] ==> IsDone(g, s))
  }

  lemma LegalInputs(g: ExecGraph, x: InputData)
    requires Legal(g, x)
    ensures forall i :: i in x ==> i.node in g.nodes
  {}

  method Begin(scheduler: GraphScheduler, x: InputData) returns (ready: seq<ReadyNode>, ghost run: Run)
    requires Fresh(scheduler.View()) && Legal(scheduler.graph, x)
    modifies scheduler
    ensures Going(scheduler.graph, x, run, scheduler.View(), map[], ready)
    ensures scheduler.releasePolicy == old(scheduler.releasePolicy)
  {
    hide Legal, Driving, InitiallyReady, SchedulerState.IsDone, WaitingData, FedSources, ExternalInputs, InPortOrder;
    LegalInputs(scheduler.graph, x);
    var init := scheduler.InitNodes(x);
    ready := init.value;
    run := InitRun(scheduler.graph, x);
    InitDriving(scheduler.graph, x, ready);
  }

  /** `SequentialExecutor::run`: rounds of running, marking and pulling until the scheduler is done. */
  method RunSequential(scheduler: GraphScheduler, x: InputData) returns (r: Result<OutputData, ExecutionError>)
    requires Fresh(scheduler.View()) && Legal(scheduler.graph, x)
    modifies scheduler
    ensures Computes(scheduler.graph, x, r)
  {
    hide Legal, Driving, SchedulerState.IsDone, Computes, Results, Fails;
    var outputs := map[];
    var ready;
    ghost var g := scheduler.graph;
    ghost var run;
    ready, run := Begin(scheduler, x);
    var done := scheduler.IsDone();
    while !done
      invariant Going(g, x, run, scheduler.View(), outputs, ready)
      invariant done <==> SchedulerState.IsDone(g, scheduler.View())
      decreases !done, g.nodes.Keys - scheduler.done
    {
      DrivingState(g, x, run, scheduler.View(), outputs, ready);
      var outs := RunAll(ready);
      if outs.None? {
        ghost var k: nat :| Fails(ready, k);
        FailureComputes(g, x, run, outputs, ready, k, NodeFailed);
        return Err(NodeFailed);
      }
      outputs, run := FinishAll(scheduler, x, run, outputs, ready, outs.value);
      DrivingState(g, x, run, scheduler.View(), outputs, []);
      ready, run := Pull(scheduler, x, run, outputs, []);
      assert [] + ready == ready;
      done := scheduler.IsDone();
    }
    DrivingState(g, x, run, scheduler.View(), outputs, ready);
    StoppedComputes(g, x, run, outputs, ready);
    return Ok(outputs);
  }

  /** `ThreadPoolExecutor::run`: whatever is handed out starts at once, and results arrive in any order. */
  method RunThreadPool(scheduler: GraphScheduler, x: InputData) returns (r: Result<OutputData, ExecutionError>)
    requires Fresh(scheduler.View()) && Legal(scheduler.graph, x)
    modifies scheduler
    ensures Computes(scheduler.graph, x, r)
  {
    hide Legal, Driving, SchedulerState.IsDone, Computes, Without;
    scheduler.WithReleasePolicy(All);
    var outputs, flight := map[], [];
    var ready;
    ghost var g := scheduler.graph;
    ghost var run;
    ready, run := Begin(scheduler, x);
    assert flight + ready == ready;
    var done := scheduler.IsDone();
    while !done
      invariant Going(g, x, run, scheduler.View(), outputs, flight + ready)
      invariant done <==> SchedulerState.IsDone(g, scheduler.View())
      decreases !done, g.nodes.Keys - scheduler.done
    {
      flight := flight + ready;
      DrivingState(g, x, run, scheduler.View(), outputs, flight);
      var k :| 0 <= k < |flight|;
      match flight[k].node.run(flight[k].inputs) {
        case None =>
          FailureComputes(g, x, run, outputs, flight, k, NodeFailed);
          return Err(NodeFailed);
        case Some(out) =>
          outputs, run := Finish(scheduler, x, run, outputs, flight, k, out);
          flight := Without(flight, k);
          DrivingState(g, x, run, scheduler.View(), outputs, flight);
          ready, run := Pull(scheduler, x, run, outputs, flight);
      }
      done := scheduler.IsDone();
    }
    DrivingState(g, x, run, scheduler.View(), outputs, flight + ready);
    StoppedComputes(g, x, run, outputs, flight + ready);
    return Ok(outputs);
  }
}
