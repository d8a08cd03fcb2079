/** The per-color queue of `zkml/src/graph/partition.rs`: runs its partitions one after the other,
    each once the values it expects from other colors have arrived. */
module PartitionSchedulers {
  import opened Wrappers
  import opened PortGraph
  import opened Denotation
  import opened SchedulerState
  import opened GraphSchedulers
  import opened Executors
  import opened Partitions

  datatype PartitionOutput = PartitionOutput(from: Color, to: Option<Color>, output: IO)

  datatype RunError =
    | NoPartitions | NotOneSink | MixedColors
    | ExecutionFailed(error: ExecutionError) | OutputMissing | UnexpectedOutput

  predicate IsSourcePartition(p: Partition) {
    p.inputs != map[]
  }

  predicate HasAll(p: Partition, pending: map<Color, IO>) {
    IsSourcePartition(p) || p.children.Keys <= pending.Keys
  }

  /** Raw inputs go to port 0. */
  function AtPortZero(inputs: map<NodeId, IO>): InputData {
    map n | n in inputs :: NodeInput(n, 0) := inputs[n]
  }

  /** A node with a raw input gets it as its first argument, and one without gets nothing from outside. */
  lemma RawInputIsFirst(g: ExecGraph, inputs: map<NodeId, IO>, val: Values, n: NodeId)
    requires Supplied(g, val, n)
    ensures n in inputs ==> |Inputs(g, AtPortZero(inputs), val, n)| > 0 && Inputs(g, AtPortZero(inputs), val, n)[0] == inputs[n]
    ensures n !in inputs ==> forall i :: i in AtPortZero(inputs) ==> i.node != n
  {
    if n in inputs {
      var x := AtPortZero(inputs);
      assert NodeInput(n, 0) in x && x[NodeInput(n, 0)] == inputs[n];
      hide AtPortZero, Inputs, Supplied, PortsInto;
      assert 0 in ExternalPorts(x, n);
      assert Before(FedPorts(g, x, n), 0) == {};
      ArgumentOf(g, x, val, n, 0);
    }
  }

  ghost predicate Brings(p: Partition, pending: map<Color, IO>, c: Color, i: NodeInput, io: IO) {
    c in p.children && c in pending && p.children[c] == i && pending[c] == io
  }

  /** x is what the partition is run on. */
  ghost predicate Gathers(p: Partition, pending: map<Color, IO>, x: InputData) {
    if IsSourcePartition(p) then x == AtPortZero(p.inputs)
    else
      && (forall i :: i in x ==> exists c :: Brings(p, pending, c, i, x[i]))
      && forall c :: c in p.children ==> p.children[c] in x
  }

  function PendingAfter(p: Partition, pending: map<Color, IO>): map<Color, IO> {
    if IsSourcePartition(p) then pending else pending - p.children.Keys
  }

  /** Every output promised to another color is there. */
  predicate Delivers(p: Partition, outputs: OutputData) {
    forall c | c in p.parents :: p.parents[c] in outputs
  }

  function Sent(p: Partition, outputs: OutputData): map<Color, IO>
    requires Delivers(p, outputs)
  {
    map c | c in p.parents :: outputs[p.parents[c]]
  }

  /** The outputs no other color takes. */
  function Finals(p: Partition, outputs: OutputData): OutputData {
    outputs - p.parents.Values
  }

  ghost predicate Lists<T(!new)>(s: seq<T>, elements: set<T>) {
    && (forall i, j :: 0 <= i < j < |s| ==> s[i] != s[j])
    && forall t :: t in s <==> t in elements
  }

  /** The messages of a finished partition: one per parent color, then one per remaining output. */
  ghost predicate Announces(p: Partition, outputs: OutputData, messages: seq<PartitionOutput>, colors: seq<Color>, ports: seq<NodeOutput>)
    requires Delivers(p, outputs)
  {
    && Lists(colors, p.parents.Keys) && Lists(ports, Finals(p, outputs).Keys)
    && |messages| == |colors| + |ports|
    && (forall k :: 0 <= k < |colors| ==> messages[k] == PartitionOutput(p.color, Some(colors[k]), Sent(p, outputs)[colors[k]]))
    && forall k :: 0 <= k < |ports| ==> ports[k] in outputs && messages[|colors| + k] == PartitionOutput(p.color, None, outputs[ports[k]])
  }

  /** Whatever p gathers, running it is a legal execution. */
  ghost predicate AllLegal(p: Partition, pending: map<Color, IO>) {
    forall x :: Gathers(p, pending, x) ==> Legal(p.graph, x)
  }

  /** What running p on its gathered values x leads to: an error, or its messages. */
  ghost predicate Outcome(p: Partition, pending: map<Color, IO>, x: InputData, run: Result<OutputData, ExecutionError>,
                          r: Result<seq<PartitionOutput>, RunError>, colors: seq<Color>, ports: seq<NodeOutput>) {
    && Gathers(p, pending, x) && Computes(p.graph, x, run)
    && (run.Err? ==> r == Err(ExecutionFailed(run.error)))
    && (run.Ok? && !Delivers(p, run.value) ==> r == Err(OutputMissing))
    && (run.Ok? && Delivers(p, run.value) ==> r.Ok? && Announces(p, run.value, r.value, colors, ports))
  }

  lemma ListsSnoc<T(!new)>(s: seq<T>, elements: set<T>, t: T)
    requires Lists(s, elements) && t !in elements
    ensures Lists(s + [t], elements + {t})
  {}

  class PartitionScheduler {
    var partitions: seq<Partition>
    var pending: map<Color, IO>
    const color: Color

    constructor (partitions: seq<Partition>)
      requires partitions != []
      ensures this.partitions == partitions && pending == map[] && color == partitions[0].color
    {
      this.partitions, pending, color := partitions, map[], partitions[0].color;
    }

    /** `PartitionScheduler::new` with its checks. */
    static method New(partitions: seq<Partition>) returns (r: Result<PartitionScheduler, RunError>)
      ensures r.Ok? <==> && partitions != []
                         && forall k :: 0 <= k < |partitions| ==>
                              |Sinks(partitions[k].graph)| == 1 && partitions[k].color == partitions[0].color
      ensures r.Ok? ==> fresh(r.value) && r.value.partitions == partitions && r.value.pending == map[]
    {
      if partitions == [] {
        return Err(NoPartitions);
      }
      if exists k | 0 <= k < |partitions| :: |Sinks(partitions[k].graph)| != 1 {
        return Err(NotOneSink);
      }
      if exists k | 0 <= k < |partitions| :: partitions[k].color != partitions[0].color {
        return Err(MixedColors);
      }
      var scheduler := new PartitionScheduler(partitions);
      return Ok(scheduler);
    }

    /** The values the children sent, taken out of `pending`. */
    method TakePending(p: Partition) returns (x: InputData)
      requires !IsSourcePartition(p) && p.children.Keys <= pending.Keys
      modifies this`pending
      ensures pending == PendingAfter(p, old(pending)) && Gathers(p, old(pending), x)
    {
      x := map[];
      var rest := p.children.Keys;
      ghost var was := pending;
      while rest != {}
        invariant rest <= p.children.Keys
        invariant pending == was - (p.children.Keys - rest)
        invariant forall i :: i in x ==> exists c :: Brings(p, was, c, i, x[i])
        invariant forall c :: c in p.children && c !in rest ==> p.children[c] in x
        decreases rest
      {
        var c :| c in rest;
        assert Brings(p, was, c, p.children[c], pending[c]);
        x := x[p.children[c] := pending[c]];
        pending := pending - {c};
        rest := rest - {c};
      }
      assert p.children.Keys - rest == p.children.Keys;
    }

    /** `try_run_partition`: runs the first partition of the queue if nothing is missing. It leaves the queue
        even when its execution fails. */
    method TryRunPartition(pool: bool)
        returns (r: Result<seq<PartitionOutput>, RunError>, ghost x: InputData, ghost run: Result<OutputData, ExecutionError>,
                 ghost colors: seq<Color>, ghost ports: seq<NodeOutput>)
      requires partitions != [] && HasAll(partitions[0], pending) ==> AllLegal(partitions[0], pending)
      modifies this`partitions, this`pending
      ensures old(partitions == [] || !HasAll(partitions[0], pending)) ==>
        r == Ok([]) && partitions == old(partitions) && pending == old(pending)
      ensures old(partitions != [] && HasAll(partitions[0], pending)) ==>
        var p := old(partitions[0]);
        && partitions == old(partitions[1..]) && pending == PendingAfter(p, old(pending))
        && Outcome(p, old(pending), x, run, r, colors, ports)
    {
      x, run, colors, ports := map[], Err(NodeFailed), [], [];
      hide Legal, Computes, Announces;
      if partitions == [] {
        r := Ok([]);
        return;
      }
      var p := partitions[0];
      if !HasAll(p, pending) {
        r := Ok([]);
        return;
      }
      var inputs;
      if IsSourcePartition(p) {
        inputs := AtPortZero(p.inputs);
      } else {
        inputs := TakePending(p);
      }
      partitions := partitions[1..];
      x := inputs;
      var scheduler := new GraphScheduler(p.graph);
      var outcome;
      if pool {
        outcome := RunThreadPool(scheduler, inputs);
      } else {
        outcome := RunSequential(scheduler, inputs);
      }
      run := outcome;
      match outcome {
        case Err(error) => r := Err(ExecutionFailed(error));
        case Ok(outputs) => r, colors, ports := Announce(p, outputs);
      }
    }

    /** `set_child_output`: kept if the first partition expects a value from that color. */
    method SetChildOutput(from: Color, output: IO) returns (r: Result<(), RunError>)
      modifies this`pending
      ensures partitions == [] ==> r == Ok(()) && pending == old(pending)
      ensures partitions != [] && from in partitions[0].children ==> r == Ok(()) && pending == old(pending)[from := output]
      ensures partitions != [] && from !in partitions[0].children ==> r == Err(UnexpectedOutput) && pending == old(pending)
    {
      if partitions == [] {
        return Ok(());
      }
      if from !in partitions[0].children {
        return Err(UnexpectedOutput);
      }
      pending := pending[from := output];
      return Ok(());
    }

    method IsDone() returns (b: bool)
      ensures b <==> partitions == []
    {
      b := partitions == [];
    }
  }

  /** After the parents outside `rest`: their messages, and the outputs they did not take. */
  ghost predicate Announcing(p: Partition, outputs: OutputData, rest: set<Color>, messages: seq<PartitionOutput>,
                             colors: seq<Color>, left: OutputData) {
    && Lists(colors, p.parents.Keys - rest) && |messages| == |colors|
    && (forall c :: c in p.parents && c !in rest ==> p.parents[c] in outputs)
    && left == outputs - (set c | c in p.parents && c !in rest :: p.parents[c])
    && forall k :: 0 <= k < |colors| ==>
         colors[k] in p.parents && p.parents[colors[k]] in outputs
         && messages[k] == PartitionOutput(p.color, Some(colors[k]), outputs[p.parents[colors[k]]])
  }

  lemma AnnounceOne(p: Partition, outputs: OutputData, rest: set<Color>, messages: seq<PartitionOutput>,
                    colors: seq<Color>, left: OutputData, c: Color)
    requires Announcing(p, outputs, rest, messages, colors, left)
    requires c in rest && c in p.parents && p.parents[c] in outputs
    ensures Announcing(p, outputs, rest - {c}, messages + [PartitionOutput(p.color, Some(c), outputs[p.parents[c]])],
                       colors + [c], left - {p.parents[c]})
  {
    ListsSnoc(colors, p.parents.Keys - rest, c);
    assert p.parents.Keys - rest + {c} == p.parents.Keys - (rest - {c});
    hide Lists;
    var was, now := set d | d in p.parents && d !in rest :: p.parents[d], set d | d in p.parents && d !in rest - {c} :: p.parents[d];
    assert now == was + {p.parents[c]};
  }

  lemma AnnounceAll(p: Partition, outputs: OutputData, messages: seq<PartitionOutput>, colors: seq<Color>, left: OutputData)
    requires Announcing(p, outputs, {}, messages, colors, left)
    ensures Delivers(p, outputs) && left == Finals(p, outputs) && Lists(colors, p.parents.Keys) && |messages| == |colors|
    ensures forall k :: 0 <= k < |colors| ==> messages[k] == PartitionOutput(p.color, Some(colors[k]), Sent(p, outputs)[colors[k]])
  {
    assert p.parents.Keys - {} == p.parents.Keys;
    hide Lists;
    assert (set c | c in p.parents && c !in {} :: p.parents[c]) == p.parents.Values;
  }

  /** The end of `try_run_partition`: messages to the parents in some order, then the other outputs. */
  method Announce(p: Partition, outputs: OutputData)
      returns (r: Result<seq<PartitionOutput>, RunError>, ghost colors: seq<Color>, ghost ports: seq<NodeOutput>)
    ensures r.Ok? <==> Delivers(p, outputs)
    ensures r.Ok? ==> Announces(p, outputs, r.value, colors, ports)
    ensures r.Err? ==> r == Err(OutputMissing)
  {
    var messages: seq<PartitionOutput> := [];
    colors, ports := [], [];
    var rest := p.parents.Keys;
    var left := outputs;
    assert Announcing(p, outputs, rest, messages, colors, left);
    hide Announcing, Lists;
    while rest != {}
      invariant rest <= p.parents.Keys && Announcing(p, outputs, rest, messages, colors, left)
      decreases rest
    {
      var c :| c in rest;
      if p.parents[c] !in outputs {
        r := Err(OutputMissing);
        return;
      }
      AnnounceOne(p, outputs, rest, messages, colors, left, c);
      messages := messages + [PartitionOutput(p.color, Some(c), outputs[p.parents[c]])];
      colors := colors + [c];
      left := left - {p.parents[c]};
      rest := rest - {c};
    }
    AnnounceAll(p, outputs, messages, colors, left);
    var finals;
    finals, ports := AnnounceFinals(p, left);
    r := Ok(messages + finals);
  }

  method AnnounceFinals(p: Partition, left: OutputData) returns (messages: seq<PartitionOutput>, ghost ports: seq<NodeOutput>)
    ensures Lists(ports, left.Keys) && |messages| == |ports|
    ensures forall k :: 0 <= k < |ports| ==> ports[k] in left && messages[k] == PartitionOutput(p.color, None, left[ports[k]])
  {
    messages, ports := [], [];
    var rest := left.Keys;
    while rest != {}
      invariant rest <= left.Keys && Lists(ports, left.Keys - rest) && |messages| == |ports|
      invariant forall k :: 0 <= k < |ports| ==>
        ports[k] in left && messages[k] == PartitionOutput(p.color, None, left[ports[k]])
      decreases rest
    {
      var o :| o in rest;
      ListsSnoc(ports, left.Keys - rest, o);
      assert left.Keys - rest + {o} == left.Keys - (rest - {o});
      messages := messages + [PartitionOutput(p.color, None, left[o])];
      ports := ports + [o];
      rest := rest - {o};
    }
    assert left.Keys - rest == left.Keys;
  }
}
