/** The queue objects inside a distributed run: what a worker does with its `PartitionScheduler` is a step of the net. */
module PartitionDriver {
  import opened Wrappers
  import opened PortGraph
  import opened Denotation
  import opened SchedulerState
  import opened Executors
  import opened Partitions
  import opened PartitionSchedulers
  import opened PartitionMessages
  import opened CutMeaning
  import opened Distributed

  /** The object holds what the net says of color c. */
  ghost predicate Mirrors(net: Net, c: Color, partitions: seq<Partition>, pending: map<Color, IO>) {
    c in net.queues && c in net.pending && partitions == net.queues[c] && pending == net.pending[c]
  }

  /** A net that some run of a well-cut plan can reach. */
  ghost predicate Reachable(pl: Plan, val: Values, net: Net, done: set<nat>) {
    Meant(pl, val) && NetInv(pl, val, net, done)
  }

  ghost predicate Ready(partitions: seq<Partition>, pending: map<Color, IO>) {
    partitions != [] && HasAll(partitions[0], pending)
  }

  lemma RightIsLegal(pl: Plan, val: Values, i: nat, x: InputData, out: OutputData)
    requires RunsRight(pl, val, i, x, out)
    ensures i < |pl.parts| && Legal(pl.parts[i].graph, x)
  {
    hide Legal, Computes;
  }

  /** A first partition that has its values is a legal execution. */
  lemma ReadyIsLegal(pl: Plan, val: Values, net: Net, done: set<nat>, c: Color, partitions: seq<Partition>, pending: map<Color, IO>)
    requires Ready(partitions, pending) && Mirrors(net, c, partitions, pending)
    requires Reachable(pl, val, net, done)
    ensures AllLegal(partitions[0], pending)
  {
    hide Meant, NetInv, HasAll, Gathers, Computes, Legal, FirstOf, PieceOutput, RunsRight;
    var i := HeadPiece(pl, val, net, done, c);
    forall x | Gathers(partitions[0], pending, x)
      ensures Legal(partitions[0].graph, x)
    {
      HeadIsLegal(pl, val, net, done, i, x);
    }
  }

  lemma HeadIsLegal(pl: Plan, val: Values, net: Net, done: set<nat>, i: nat, x: InputData)
    requires i < |pl.parts| && i !in done && pl.parts[i].color in net.pending
    requires HasAll(pl.parts[i], net.pending[pl.parts[i].color]) && Gathers(pl.parts[i], net.pending[pl.parts[i].color], x)
    requires Meant(pl, val) && NetInv(pl, val, net, done)
    ensures Legal(pl.parts[i].graph, x)
  {
    hide Meant, NetInv, HasAll, Gathers, Computes, Legal, PieceOutput, RunsRight;
    HeadNeverFails(pl, val, net, done, i, x, Ok(map[]));
    RightIsLegal(pl, val, i, x, PieceOutput(pl, val, i));
  }

  /** Its execution succeeds and delivers what it promised. */
  lemma ReadySucceeds(pl: Plan, val: Values, net: Net, done: set<nat>, c: Color, partitions: seq<Partition>, pending: map<Color, IO>,
                      x: InputData, run: Result<OutputData, ExecutionError>)
    requires Ready(partitions, pending) && Mirrors(net, c, partitions, pending)
    requires Gathers(partitions[0], pending, x) && Computes(partitions[0].graph, x, run)
    requires Reachable(pl, val, net, done)
    ensures run.Ok? && Delivers(partitions[0], run.value)
  {
    hide Meant, NetInv, HasAll, Gathers, Computes, Legal, FirstOf, PieceOutput, Delivers, RunsRight;
    var i := HeadPiece(pl, val, net, done, c);
    HeadNeverFails(pl, val, net, done, i, x, run);
    RightRuns(pl, val, i, x, PieceOutput(pl, val, i));
  }

  /** The messages in r take the net one step further. */
  ghost predicate GoesOn(net: Net, c: Color, r: Result<seq<PartitionOutput>, RunError>) {
    c in net.queues && c in net.pending && net.queues[c] != [] && r.Ok? && NetStep(net, AfterMessages(net, c, r.value))
  }

  /** So what it returns takes the net one step further. */
  lemma ReadySteps(pl: Plan, val: Values, net: Net, done: set<nat>, c: Color, partitions: seq<Partition>, pending: map<Color, IO>,
                   x: InputData, run: Result<OutputData, ExecutionError>, r: Result<seq<PartitionOutput>, RunError>,
                   colors: seq<Color>, ports: seq<NodeOutput>)
    requires Ready(partitions, pending) && Mirrors(net, c, partitions, pending)
    requires Outcome(partitions[0], pending, x, run, r, colors, ports)
    requires Reachable(pl, val, net, done)
    ensures GoesOn(net, c, r)
  {
    hide Reachable, HasAll, Gathers, Computes, Delivers, NetStep, Announces, AfterMessages;
    ReadySucceeds(pl, val, net, done, c, partitions, pending, x, run);
    IsStep(net, c, x, run, r.value, colors, ports);
  }

  /** Nothing changes, or the messages in r take the net one step further. */
  ghost predicate Advances(net: Net, next: Net, c: Color, ready: bool, r: Result<seq<PartitionOutput>, RunError>) {
    if ready then GoesOn(net, c, r) && next == AfterMessages(net, c, r.value)
    else r == Ok([]) && next == net
  }

  /** In a reachable net `try_run_partition` does nothing while a value is missing; otherwise it succeeds, and the messages
      it returns take the net one step further. */
  method RunFirst(scheduler: PartitionScheduler, pool: bool, ghost pl: Plan, ghost val: Values, ghost net: Net, ghost done: set<nat>, ghost c: Color)
      returns (r: Result<seq<PartitionOutput>, RunError>, ghost next: Net)
    requires Mirrors(net, c, scheduler.partitions, scheduler.pending)
    requires Reachable(pl, val, net, done)
    modifies scheduler
    ensures Mirrors(next, c, scheduler.partitions, scheduler.pending)
    ensures Advances(net, next, c, old(Ready(scheduler.partitions, scheduler.pending)), r)
  {
    hide Reachable, HasAll, Outcome, AllLegal, NetStep;
    ghost var partitions, pending := scheduler.partitions, scheduler.pending;
    next := net;
    if Ready(partitions, pending) {
      ReadyIsLegal(pl, val, net, done, c, partitions, pending);
    }
    ghost var x, run, colors, ports;
    r, x, run, colors, ports := scheduler.TryRunPartition(pool);
    if Ready(partitions, pending) {
      ReadySteps(pl, val, net, done, c, partitions, pending, x, run, r, colors, ports);
      next := AfterMessages(net, c, r.value);
    }
  }

  lemma IsStep(net: Net, c: Color, x: InputData, run: Result<OutputData, ExecutionError>, list: seq<PartitionOutput>,
               colors: seq<Color>, ports: seq<NodeOutput>)
    requires c in net.queues && c in net.pending && net.queues[c] != [] && HasAll(net.queues[c][0], net.pending[c])
    requires Gathers(net.queues[c][0], net.pending[c], x) && Computes(net.queues[c][0].graph, x, run)
    requires run.Ok? && Delivers(net.queues[c][0], run.value) && Announces(net.queues[c][0], run.value, list, colors, ports)
    ensures NetStep(net, AfterMessages(net, c, list))
  {
    hide Gathers, Computes, HasAll, Announces, AfterMessages, Delivers;
    assert Announced(net.queues[c][0], run.value, list);
    assert RunsWith(net, AfterMessages(net, c, list), c, x, run, list);
  }

  /** `set_child_output` with a message under way that the first partition expects is a step of the net. */
  method Deliver(scheduler: PartitionScheduler, m: Message, ghost net: Net) returns (r: Result<(), RunError>, ghost next: Net)
    requires Mirrors(net, m.to, scheduler.partitions, scheduler.pending) && m in net.bag
    modifies scheduler
    ensures Mirrors(next, m.to, scheduler.partitions, scheduler.pending)
    ensures !old(scheduler.partitions != [] && m.from in scheduler.partitions[0].children) ==> next == net
    ensures old(scheduler.partitions != [] && m.from in scheduler.partitions[0].children) ==> r.Ok? && Arrives(net, next, m)
  {
    next := net;
    ghost var expected := scheduler.partitions != [] && m.from in scheduler.partitions[0].children;
    r := scheduler.SetChildOutput(m.from, m.output);
    if expected {
      next := Net(net.queues, net.pending[m.to := net.pending[m.to][m.from := m.output]], net.bag - multiset{m}, net.finals);
    }
  }
}
