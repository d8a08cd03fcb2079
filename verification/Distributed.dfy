/** Every run of the per-color queues that exchange values: partitions run and messages arrive in any order. */
module Distributed {
  import opened Wrappers
  import opened Collections
  import opened PortGraph
  import opened DagOrder
  import opened Denotation
  import opened SchedulerState
  import opened Executors
  import opened Components
  import opened Subgraphs
  import opened Partitions
  import opened PartitionSchedulers
  import opened PartitionMessages
  import opened CutMeaning
  import opened CutFlow

  /** The queues of all colors with what has arrived for their first partitions, the messages under way to
      other colors, and the messages to none, each as often as it was sent. */
  datatype Net = Net(
    queues: map<Color, seq<Partition>>,
    pending: map<Color, map<Color, IO>>,
    bag: multiset<Message>,
    finals: multiset<IO>)

  ghost function InitNet(parts: seq<Partition>): Net {
    Net(map c | c in Colors(parts) :: Queue(parts, c, {}, |parts|), map c | c in Colors(parts) :: map[], multiset{}, multiset{})
  }

  /** The net after the first partition of color c has run and returned the messages of `list`. */
  ghost function AfterMessages(net: Net, c: Color, list: seq<PartitionOutput>): Net
    requires c in net.queues && c in net.pending && net.queues[c] != []
  {
    Net(net.queues[c := net.queues[c][1..]],
        net.pending[c := PendingAfter(net.queues[c][0], net.pending[c])],
        net.bag + MessagesIn(list),
        net.finals + FinalsIn(list))
  }

  /** `try_run_partition` runs the first partition of color c on x and returns the messages of `list`. */
  ghost predicate RunsWith(net: Net, next: Net, c: Color, x: InputData, r: Result<OutputData, ExecutionError>, list: seq<PartitionOutput>) {
    && c in net.queues && c in net.pending && net.queues[c] != []
    && HasAll(net.queues[c][0], net.pending[c])
    && Gathers(net.queues[c][0], net.pending[c], x) && Computes(net.queues[c][0].graph, x, r)
    && r.Ok? && Delivers(net.queues[c][0], r.value) && Announced(net.queues[c][0], r.value, list)
    && next == AfterMessages(net, c, list)
  }

  /** The same in terms of what the partition computed: in whatever order they are listed. */
  ghost function AfterRun(net: Net, c: Color, outputs: OutputData): Net
    requires c in net.queues && c in net.pending && net.queues[c] != [] && Delivers(net.queues[c][0], outputs)
  {
    var p := net.queues[c][0];
    Net(net.queues[c := net.queues[c][1..]],
        net.pending[c := PendingAfter(p, net.pending[c])],
        net.bag + Messages(p.color, Sent(p, outputs)),
        net.finals + ValuesOf(Finals(p, outputs)))
  }

  lemma MessagesAreRun(net: Net, next: Net, c: Color, x: InputData, r: Result<OutputData, ExecutionError>, list: seq<PartitionOutput>)
    requires RunsWith(net, next, c, x, r, list)
    ensures next == AfterRun(net, c, r.value)
  {
    hide Announces, Gathers, Computes, HasAll, MessagesIn, FinalsIn, Messages, ValuesOf;
    var colors, ports :| Announces(net.queues[c][0], r.value, list, colors, ports);
    AnnouncedExactly(net.queues[c][0], r.value, list, colors, ports);
  }

  /** `set_child_output` hands a message to the color it is for, whose first partition expects it. */
  ghost predicate Arrives(net: Net, next: Net, m: Message) {
    && m in net.bag && m.to in net.queues && m.to in net.pending && net.queues[m.to] != []
    && m.from in net.queues[m.to][0].children
    && next == Net(net.queues, net.pending[m.to := net.pending[m.to][m.from := m.output]], net.bag - multiset{m}, net.finals)
  }

  ghost predicate NetStep(net: Net, next: Net) {
    (exists c, x, r, list :: RunsWith(net, next, c, x, r, list)) || (exists m :: Arrives(net, next, m))
  }

  ghost predicate NetExecution(parts: seq<Partition>, nets: seq<Net>) {
    && |nets| >= 1 && nets[0] == InitNet(parts)
    && forall k :: 0 <= k < |nets| - 1 ==> NetStep(nets[k], nets[k + 1])
  }

  ghost predicate AllDone(net: Net) {
    forall c :: c in net.queues ==> net.queues[c] == []
  }

  // ---------------------------------------------------------------- queues

  /** Piece i is the first of its color that is not done. */
  ghost predicate FirstOf(parts: seq<Partition>, c: Color, done: set<nat>, i: nat) {
    && i < |parts| && parts[i].color == c && i !in done
    && forall j :: 0 <= j < i && parts[j].color == c ==> j in done
  }

  lemma {:induction false} QueueHead(parts: seq<Partition>, c: Color, done: set<nat>, i: nat, k: nat)
    requires FirstOf(parts, c, done, i) && k <= |parts|
    ensures k <= i ==> Queue(parts, c, done, k) == []
    ensures i < k ==> Queue(parts, c, done, k) != [] && Queue(parts, c, done, k)[0] == parts[i]
                      && Queue(parts, c, done + {i}, k) == Queue(parts, c, done, k)[1..]
    ensures k <= i ==> Queue(parts, c, done + {i}, k) == []
  {
    if k > 0 {
      QueueHead(parts, c, done, i, k - 1);
    }
  }

  lemma {:induction false} QueueOther(parts: seq<Partition>, c: Color, done: set<nat>, i: nat, k: nat)
    requires k <= |parts| && i < |parts| && parts[i].color != c
    ensures Queue(parts, c, done + {i}, k) == Queue(parts, c, done, k)
  {
    if k > 0 {
      QueueOther(parts, c, done, i, k - 1);
    }
  }

  lemma {:induction false} QueueFirst(parts: seq<Partition>, c: Color, done: set<nat>, k: nat) returns (i: nat)
    requires k <= |parts| && Queue(parts, c, done, k) != []
    ensures i < k && FirstOf(parts, c, done, i)
  {
    if Queue(parts, c, done, k - 1) != [] {
      i := QueueFirst(parts, c, done, k - 1);
    } else {
      i := k - 1;
      forall j | 0 <= j < i && parts[j].color == c
        ensures j in done
      {
        QueueSkips(parts, c, done, k - 1, j);
      }
    }
  }

  lemma {:induction false} QueueSkips(parts: seq<Partition>, c: Color, done: set<nat>, k: nat, j: nat)
    requires j < k <= |parts| && Queue(parts, c, done, k) == [] && parts[j].color == c
    ensures j in done
  {
    if j < k - 1 {
      QueueSkips(parts, c, done, k - 1, j);
    }
  }

  // ---------------------------------------------------------------- the invariant

  /** Node n belongs to a piece that has run. */
  ghost predicate Ran(pl: Plan, done: set<nat>, n: NodeId) {
    exists i :: i in done && i < |pl.comps| && n in pl.comps[i]
  }

  ghost function MessageOf(g: ExecGraph, val: Values, e: EdgeId): Message
    requires Crossing(g, e) && Has(g, val, e)
  {
    Message(FromColor(g, e), ToColor(g, e), EdgeValue(g, val, e))
  }

  /** The value of edge e has been sent and not yet used. */
  ghost predicate Owed(pl: Plan, done: set<nat>, e: EdgeId) {
    Crossing(pl.g, e) && Ran(pl, done, pl.g.edges[e].source) && !Ran(pl, done, pl.g.edges[e].target)
  }

  ghost predicate InvDone(pl: Plan, done: set<nat>) {
    && (forall i :: i in done ==> i < |pl.parts|)
    && forall e :: Crossing(pl.g, e) && Ran(pl, done, pl.g.edges[e].target) ==> Ran(pl, done, pl.g.edges[e].source)
  }

  ghost predicate InvQueues(pl: Plan, net: Net, done: set<nat>) {
    && net.queues.Keys == Colors(pl.parts) && net.pending.Keys == Colors(pl.parts)
    && forall c :: c in net.queues ==> net.queues[c] == Queue(pl.parts, c, done, |pl.parts|)
  }

  ghost predicate MessageFor(pl: Plan, val: Values, done: set<nat>, m: Message, e: EdgeId) {
    Owed(pl, done, e) && Has(pl.g, val, e) && m == MessageOf(pl.g, val, e)
  }

  /** Every message under way is the one message of an owed edge, which has not arrived. */
  ghost predicate InvBag(pl: Plan, val: Values, net: Net, done: set<nat>) {
    forall m :: m in net.bag ==>
      && net.bag[m] == 1 && m.to in net.pending && m.from !in net.pending[m.to]
      && exists e :: MessageFor(pl, val, done, m, e)
  }

  /** Every value that has arrived is that of an owed edge. */
  ghost predicate InvPending(pl: Plan, val: Values, net: Net, done: set<nat>) {
    forall b, a :: b in net.pending && a in net.pending[b] ==>
      exists e :: MessageFor(pl, val, done, Message(a, b, net.pending[b][a]), e)
  }

  /** The value of every owed edge is under way or has arrived. */
  ghost predicate InvOwed(pl: Plan, val: Values, net: Net, done: set<nat>) {
    forall e :: Owed(pl, done, e) ==>
      && Has(pl.g, val, e) && ToColor(pl.g, e) in net.pending
      && (FromColor(pl.g, e) in net.pending[ToColor(pl.g, e)] || MessageOf(pl.g, val, e) in net.bag)
  }

  /** The outputs of the graph at the nodes that have run. */
  ghost function OutputsOfRan(pl: Plan, val: Values, done: set<nat>): OutputData {
    map o | o in GraphOutputs(pl.g, val) && Ran(pl, done, o.node) :: GraphOutputs(pl.g, val)[o]
  }

  /** Every output of a node that has run has been sent once. */
  ghost predicate InvFinals(pl: Plan, val: Values, net: Net, done: set<nat>) {
    net.finals == ValuesOf(OutputsOfRan(pl, val, done))
  }

  ghost predicate NetInv(pl: Plan, val: Values, net: Net, done: set<nat>) {
    && InvDone(pl, done) && InvQueues(pl, net, done) && InvBag(pl, val, net, done)
    && InvPending(pl, val, net, done) && InvOwed(pl, val, net, done) && InvFinals(pl, val, net, done)
  }

  /** A well-cut plan with the meaning of its graph. */
  ghost predicate Meant(pl: Plan, val: Values) {
    && WellCut(pl) && IsValuation(pl.g, AtPortZero(pl.inputs), val)
  }

  lemma MeantEdges(pl: Plan, val: Values)
    requires Meant(pl, val)
    ensures OneEdgePerColorPair(pl.g) && |pl.parts| == |pl.comps| && Separate(pl.comps)
    ensures forall e :: e in pl.g.edges ==> Has(pl.g, val, e)
  {
    WellCutGraph(pl);
    hide Legal, IsValuation, AllComponents, Separate, LeavesAtSink, EntersAtSource, OneEdgePerColorPair, EndpointsExist, PartitionFor;
    forall e | e in pl.g.edges
      ensures Has(pl.g, val, e)
    {
      ValuationHas(pl.g, AtPortZero(pl.inputs), val, e);
    }
  }

  lemma InitNetInv(pl: Plan, val: Values)
    requires Meant(pl, val)
    ensures NetInv(pl, val, InitNet(pl.parts), {})
  {
    hide Meant, GraphOutputs, Crossing, Queue, Colors;
    assert forall n :: !Ran(pl, {}, n);
    assert OutputsOfRan(pl, val, {}) == map[];
  }

  // ---------------------------------------------------------------- one piece runs

  /** What piece i sends, expects and is colored. */
  ghost predicate PieceFlow(pl: Plan, i: nat, s: set<NodeId>) {
    && i < |pl.parts| && i < |pl.comps| && s == SetOf(pl.comps[i])
    && SendsAlong(pl.g, s, pl.parts[i].parents) && ExpectsAlong(pl.g, s, pl.parts[i].children)
    && (forall n :: n in s ==> n in pl.g.nodes && pl.g.nodes[n].color == pl.parts[i].color)
    && (IsSourcePartition(pl.parts[i]) ==> forall e :: !EntersPiece(pl.g, s, e))
    && forall e :: e in pl.g.edges && pl.g.edges[e].target in s && Crossing(pl.g, e) ==> pl.g.edges[e].source !in s
  }

  lemma PieceColors(pl: Plan, i: nat)
    requires WellCut(pl) && i < |pl.comps|
    ensures i < |pl.parts| && forall n :: n in pl.comps[i] ==> n in pl.g.nodes && pl.g.nodes[n].color == pl.parts[i].color
  {
    hide WellCut, PartitionFor, AllComponents;
    WellCutParts(pl, i);
    PartitionParts(pl, i);
    forall n | n in pl.comps[i]
      ensures n in pl.g.nodes && pl.g.nodes[n].color == pl.parts[i].color
    {
      OneColorEach(pl.g, pl.comps, i, n);
    }
  }

  lemma PieceFlows(pl: Plan, i: nat)
    requires WellCut(pl) && i < |pl.comps|
    ensures PieceFlow(pl, i, Piece(pl, i))
  {
    hide WellCut, PartitionFor, PieceOf, Crossing, OneEdgePerColorPair, SendsAlong, ExpectsAlong, LeavesAtSink, EntersAtSource;
    var s, sub := PieceFacts(pl, i);
    WellCutParts(pl, i);
    PieceIs(pl, i, s, sub);
    PieceColors(pl, i);
    ParentsOfPiece(pl, i, s, sub);
    ChildrenOfPiece(pl, i, s, sub);
    NoEntry(pl, i, s, sub);
  }

  lemma PieceIs(pl: Plan, i: nat, s: set<NodeId>, sub: ExecGraph)
    requires PieceOf(pl, i, s, sub)
    ensures i < |pl.parts| && i < |pl.comps| && s == Piece(pl, i) && sub == pl.parts[i].graph
  {}

  lemma NoEntry(pl: Plan, i: nat, s: set<NodeId>, sub: ExecGraph)
    requires PieceOf(pl, i, s, sub)
    ensures Within(pl.inputs, s) != map[] ==> forall e :: !EntersPiece(pl.g, s, e)
    ensures forall e :: e in pl.g.edges && pl.g.edges[e].target in s && Crossing(pl.g, e) ==> pl.g.edges[e].source !in s
  {
    hide Sound, OneLink;
  }

  /** The values piece i sends are those of its crossing edges. */
  ghost predicate SentRight(g: ExecGraph, s: set<NodeId>, val: Values, sent: map<Color, IO>) {
    && (forall e :: LeavesPiece(g, s, e) ==> Has(g, val, e) && ToColor(g, e) in sent && sent[ToColor(g, e)] == EdgeValue(g, val, e))
    && forall c :: c in sent ==> LedTo(g, s, c)
  }

  lemma PieceLegalRight(pl: Plan, val: Values, i: nat, s: set<NodeId>, sub: ExecGraph, x: InputData)
    requires PieceOf(pl, i, s, sub) && RightInputs(pl, s, val, x) && Legal(pl.g, AtPortZero(pl.inputs))
    requires IsValuation(pl.g, AtPortZero(pl.inputs), val)
    ensures Legal(sub, x) && IsValuation(sub, x, OnPiece(val, s))
  {
    hide PieceOf, RightInputs, IsValuation, EnoughOutputs, IsDag, Consistent, IsSource, Fed;
    PieceLegal(pl, i, s, sub, val, x);
    PieceMeaning(pl, i, s, sub, val, x);
  }

  lemma ComputesValuation(g: ExecGraph, x: InputData, val: Values, r: Result<OutputData, ExecutionError>)
    requires Legal(g, x) && IsValuation(g, x, val)
    ensures Computes(g, x, Ok(GraphOutputs(g, val)))
    ensures Computes(g, x, r) ==> r == Ok(GraphOutputs(g, val))
  {
    if Computes(g, x, r) {
      ExecutorsAgree(g, x, r, Ok(GraphOutputs(g, val)));
    }
  }

  ghost function PieceOutput(pl: Plan, val: Values, i: nat): OutputData
    requires i < |pl.comps| && i < |pl.parts|
  {
    GraphOutputs(pl.parts[i].graph, OnPiece(val, Piece(pl, i)))
  }

  /** On x piece i is a legal execution that returns `out`: the values of its crossing edges, and the outputs
      of the whole graph at its nodes. */
  ghost predicate RunsRight(pl: Plan, val: Values, i: nat, x: InputData, out: OutputData) {
    && i < |pl.comps| && i < |pl.parts| && Legal(pl.parts[i].graph, x)
    && Computes(pl.parts[i].graph, x, Ok(out)) && Delivers(pl.parts[i], out)
    && SentRight(pl.g, Piece(pl, i), val, Sent(pl.parts[i], out))
    && Finals(pl.parts[i], out) == OutputsOn(GraphOutputs(pl.g, val), Piece(pl, i))
  }

  lemma PieceExecutes(pl: Plan, val: Values, i: nat, s: set<NodeId>, sub: ExecGraph, x: InputData, r: Result<OutputData, ExecutionError>)
    requires PieceOf(pl, i, s, sub) && RightInputs(pl, s, val, x)
    requires Legal(pl.g, AtPortZero(pl.inputs)) && IsValuation(pl.g, AtPortZero(pl.inputs), val)
    ensures var out := GraphOutputs(sub, OnPiece(val, s));
            Legal(sub, x) && Computes(sub, x, Ok(out)) && (Computes(sub, x, r) ==> r == Ok(out))
  {
    hide PieceOf, RightInputs, Legal, IsValuation, Computes, GraphOutputs, OnPiece;
    PieceLegalRight(pl, val, i, s, sub, x);
    ComputesValuation(sub, x, OnPiece(val, s), r);
  }

  lemma PieceSends(pl: Plan, val: Values, i: nat, s: set<NodeId>, sub: ExecGraph)
    requires PieceOf(pl, i, s, sub) && SendsAlong(pl.g, s, pl.parts[i].parents) && forall e :: e in pl.g.edges ==> Has(pl.g, val, e)
    ensures var out := GraphOutputs(sub, OnPiece(val, s));
            && Delivers(pl.parts[i], out) && SentRight(pl.g, s, val, Sent(pl.parts[i], out))
            && Finals(pl.parts[i], out) == OutputsOn(GraphOutputs(pl.g, val), s)
  {
    hide PieceOf, SendsAlong, Has, GraphOutputs, OnPiece, Crossing;
    var out := GraphOutputs(sub, OnPiece(val, s));
    PieceIs(pl, i, s, sub);
    PieceDelivers(pl, i, s, sub, val);
    PieceFinals(pl, i, s, sub, val);
    SentLed(pl.g, s, pl.parts[i], out);
    EdgesOfPiece(pl.g, s);
  }

  lemma EdgesOfPiece(g: ExecGraph, s: set<NodeId>)
    ensures forall e :: LeavesPiece(g, s, e) ==> e in g.edges && Crossing(g, e)
  {}

  lemma PieceInputs(pl: Plan, val: Values, i: nat, pending: map<Color, IO>, x: InputData)
    requires i < |pl.comps| && i < |pl.parts| && Gathers(pl.parts[i], pending, x)
    requires Arrived(pl.g, Piece(pl, i), val, pending) && WellCut(pl)
    ensures RightInputs(pl, Piece(pl, i), val, x)
  {
    hide WellCut, PartitionFor, PieceOf, ExpectsAlong, OneEdgePerColorPair, LeavesAtSink, EntersAtSource, Legal, Arrived, Gathers,
         RightInputs, Piece;
    var s, sub := PieceFacts(pl, i);
    PieceIs(pl, i, s, sub);
    WellCutParts(pl, i);
    ChildrenOfPiece(pl, i, s, sub);
    GathersRight(pl, i, s, sub, val, pending, x);
  }

  /** A piece that has received its values can run, and then sends and outputs what the graph means. */
  lemma PieceRuns(pl: Plan, val: Values, i: nat, pending: map<Color, IO>, x: InputData, r: Result<OutputData, ExecutionError>)
    requires i < |pl.comps| && i < |pl.parts| && Gathers(pl.parts[i], pending, x)
    requires Arrived(pl.g, Piece(pl, i), val, pending) && Meant(pl, val)
    ensures RunsRight(pl, val, i, x, PieceOutput(pl, val, i))
    ensures Computes(pl.parts[i].graph, x, r) ==> r == Ok(PieceOutput(pl, val, i))
  {
    hide WellCut, PartitionFor, PieceOf, SendsAlong, ExpectsAlong, LeavesAtSink, EntersAtSource, OneEdgePerColorPair, PieceFlow,
         Legal, IsValuation, Arrived, Gathers, Computes, GraphOutputs, OnPiece, Has, RightInputs, SentRight, Delivers, Finals, Piece;
    MeantEdges(pl, val);
    var s, sub := PieceFacts(pl, i);
    PieceIs(pl, i, s, sub);
    WellCutParts(pl, i);
    ParentsOfPiece(pl, i, s, sub);
    PieceInputs(pl, val, i, pending, x);
    PieceExecutes(pl, val, i, s, sub, x, r);
    PieceSends(pl, val, i, s, sub);
  }

  lemma SentLed(g: ExecGraph, s: set<NodeId>, p: Partition, out: OutputData)
    requires Delivers(p, out) && SendsAlong(g, s, p.parents)
    ensures forall c :: c in Sent(p, out) ==> LedTo(g, s, c)
  {}

  // ---------------------------------------------------------------- the invariant after a run

  /** Piece i, whose nodes are s, is about to run. */
  ghost predicate Next(pl: Plan, done: set<nat>, i: nat, s: set<NodeId>) {
    && i !in done && PieceFlow(pl, i, s) && InvDone(pl, done) && Separate(pl.comps) && OneEdgePerColorPair(pl.g)
  }

  lemma RanAfter(pl: Plan, done: set<nat>, i: nat, s: set<NodeId>, n: NodeId)
    requires i < |pl.comps| && s == SetOf(pl.comps[i])
    ensures Ran(pl, done + {i}, n) <==> Ran(pl, done, n) || n in s
  {
    if Ran(pl, done, n) {
      var j :| j in done && j < |pl.comps| && n in pl.comps[j];
      assert j in done + {i};
    }
    if n in s {
      assert i in done + {i};
    }
  }

  lemma NotYetRan(pl: Plan, done: set<nat>, i: nat, n: NodeId)
    requires i < |pl.comps| && i !in done && Separate(pl.comps) && n in pl.comps[i]
    ensures !Ran(pl, done, n)
  {}

  lemma OwedAfter(pl: Plan, done: set<nat>, i: nat, s: set<NodeId>, e: EdgeId)
    requires Next(pl, done, i, s)
    ensures Owed(pl, done + {i}, e) <==> (Owed(pl, done, e) && !EntersPiece(pl.g, s, e)) || LeavesPiece(pl.g, s, e)
    ensures LeavesPiece(pl.g, s, e) ==> !Owed(pl, done, e)
  {
    if Crossing(pl.g, e) {
      var a, b := pl.g.edges[e].source, pl.g.edges[e].target;
      assert a in s ==> b !in s;
      assert Ran(pl, done, b) ==> Ran(pl, done, a);
      hide Crossing, PieceFlow, InvDone, Separate, OneEdgePerColorPair, Ran;
      assert i < |pl.comps| && s == SetOf(pl.comps[i]) && Separate(pl.comps) by { NextParts(pl, done, i, s); }
      RanAfter(pl, done, i, s, a);
      RanAfter(pl, done, i, s, b);
      if a in s {
        NotYetRan(pl, done, i, a);
      }
    }
  }

  lemma NextParts(pl: Plan, done: set<nat>, i: nat, s: set<NodeId>)
    requires Next(pl, done, i, s)
    ensures i < |pl.comps| && s == SetOf(pl.comps[i]) && Separate(pl.comps) && i < |pl.parts| && OneEdgePerColorPair(pl.g)
    ensures SendsAlong(pl.g, s, pl.parts[i].parents) && ExpectsAlong(pl.g, s, pl.parts[i].children)
    ensures IsSourcePartition(pl.parts[i]) ==> forall e :: !EntersPiece(pl.g, s, e)
    ensures forall e :: EntersPiece(pl.g, s, e) ==> ToColor(pl.g, e) == pl.parts[i].color
    ensures forall e :: LeavesPiece(pl.g, s, e) ==> FromColor(pl.g, e) == pl.parts[i].color
  {
    hide SendsAlong, ExpectsAlong, Separate, OneEdgePerColorPair;
  }

  /** A message that has arrived for the next piece is the one of its edge. */
  lemma PendingIsRight(pl: Plan, val: Values, net: Net, done: set<nat>, e: EdgeId)
    requires OneEdgePerColorPair(pl.g) && InvPending(pl, val, net, done) && Crossing(pl.g, e)
    requires ToColor(pl.g, e) in net.pending && FromColor(pl.g, e) in net.pending[ToColor(pl.g, e)]
    ensures Owed(pl, done, e) && Has(pl.g, val, e)
    ensures net.pending[ToColor(pl.g, e)][FromColor(pl.g, e)] == EdgeValue(pl.g, val, e)
  {
    var b, a := ToColor(pl.g, e), FromColor(pl.g, e);
    var f :| MessageFor(pl, val, done, Message(a, b, net.pending[b][a]), f);
    hide Crossing, Ran, Has;
    assert f == e;
  }

  lemma HeadArrived(pl: Plan, val: Values, net: Net, done: set<nat>, i: nat, s: set<NodeId>)
    requires i < |pl.parts| && pl.parts[i].color in net.pending && HasAll(pl.parts[i], net.pending[pl.parts[i].color])
    requires Next(pl, done, i, s) && InvPending(pl, val, net, done)
    ensures Arrived(pl.g, s, val, net.pending[pl.parts[i].color])
    ensures forall e :: EntersPiece(pl.g, s, e) ==> Owed(pl, done, e) && FromColor(pl.g, e) in net.pending[pl.parts[i].color]
  {
    hide Next, InvPending, Crossing, Owed;
    NextParts(pl, done, i, s);
    EnteringCross(pl.g, s);
    forall e | EntersPiece(pl.g, s, e)
      ensures Owed(pl, done, e) && FromColor(pl.g, e) in net.pending[pl.parts[i].color]
      ensures Has(pl.g, val, e) && net.pending[pl.parts[i].color][FromColor(pl.g, e)] == EdgeValue(pl.g, val, e)
    {
      PendingIsRight(pl, val, net, done, e);
    }
  }

  lemma EnteringCross(g: ExecGraph, s: set<NodeId>)
    ensures forall e :: EntersPiece(g, s, e) ==> Crossing(g, e)
    ensures forall e :: LeavesPiece(g, s, e) ==> Crossing(g, e)
  {}

  lemma DoneAfter(pl: Plan, done: set<nat>, i: nat, s: set<NodeId>)
    requires Next(pl, done, i, s) && forall e :: EntersPiece(pl.g, s, e) ==> Owed(pl, done, e)
    ensures InvDone(pl, done + {i})
  {
    assert InvDone(pl, done);
    NextParts(pl, done, i, s);
    hide Next, PieceFlow, SendsAlong, ExpectsAlong, OneEdgePerColorPair, Separate, Ran, Crossing;
    forall e | Crossing(pl.g, e) && Ran(pl, done + {i}, pl.g.edges[e].target)
      ensures Ran(pl, done + {i}, pl.g.edges[e].source)
    {
      RanAfter(pl, done, i, s, pl.g.edges[e].source);
      RanAfter(pl, done, i, s, pl.g.edges[e].target);
      assert pl.g.edges[e].target in s ==> EntersPiece(pl.g, s, e);
    }
  }

  lemma QueuesAfter(pl: Plan, net: Net, done: set<nat>, i: nat, out: OutputData)
    requires i < |pl.parts| && FirstOf(pl.parts, pl.parts[i].color, done, i) && InvQueues(pl, net, done) && Delivers(pl.parts[i], out)
    ensures var c := pl.parts[i].color;
      && c in net.queues && c in net.pending && net.queues[c] != [] && net.queues[c][0] == pl.parts[i]
      && InvQueues(pl, AfterRun(net, c, out), done + {i})
  {
    var c := pl.parts[i].color;
    QueueHead(pl.parts, c, done, i, |pl.parts|);
    assert c in Colors(pl.parts);
    hide Sent, Finals, Messages, PendingAfter, FirstOf, Queue, ValuesOf;
    forall d | d in net.queues && d != c
      ensures Queue(pl.parts, d, done + {i}, |pl.parts|) == Queue(pl.parts, d, done, |pl.parts|)
    {
      QueueOther(pl.parts, d, done, i, |pl.parts|);
    }
  }

  /** After the run: what is pending for the color of piece i, and what is under way. */
  ghost predicate RanInto(pl: Plan, net: Net, next: Net, i: nat, sent: map<Color, IO>) {
    && i < |pl.parts| && pl.parts[i].color in net.pending && next.pending.Keys == net.pending.Keys
    && (forall b :: b in net.pending && b != pl.parts[i].color ==> next.pending[b] == net.pending[b])
    && next.pending[pl.parts[i].color] == PendingAfter(pl.parts[i], net.pending[pl.parts[i].color])
    && next.bag == net.bag + Messages(pl.parts[i].color, sent)
  }

  lemma AfterRunInto(pl: Plan, net: Net, i: nat, out: OutputData)
    requires i < |pl.parts| && Delivers(pl.parts[i], out)
    requires var c := pl.parts[i].color;
      c in net.queues && c in net.pending && net.queues[c] != [] && net.queues[c][0] == pl.parts[i]
    ensures RanInto(pl, net, AfterRun(net, pl.parts[i].color, out), i, Sent(pl.parts[i], out))
  {
    hide Messages, PendingAfter, Sent, Finals, ValuesOf;
  }

  lemma PendingAfterRun(pl: Plan, val: Values, net: Net, next: Net, done: set<nat>, i: nat, s: set<NodeId>, sent: map<Color, IO>)
    requires Next(pl, done, i, s) && InvPending(pl, val, net, done) && RanInto(pl, net, next, i, sent)
    ensures InvPending(pl, val, next, done + {i})
  {
    NextParts(pl, done, i, s);
    hide Next, SendsAlong, OneEdgePerColorPair, Separate, Ran, Owed, Messages, Crossing, Has;
    forall b, a | b in next.pending && a in next.pending[b]
      ensures exists e :: MessageFor(pl, val, done + {i}, Message(a, b, next.pending[b][a]), e)
    {
      assert a in net.pending[b] && next.pending[b][a] == net.pending[b][a];
      var e :| MessageFor(pl, val, done, Message(a, b, net.pending[b][a]), e);
      OwedAfter(pl, done, i, s, e);
      assert MessageFor(pl, val, done + {i}, Message(a, b, next.pending[b][a]), e);
    }
  }

  /** The new messages are those of the edges that leave the piece. */
  lemma NewMessages(pl: Plan, val: Values, done: set<nat>, i: nat, s: set<NodeId>, sent: map<Color, IO>, m: Message)
    requires Next(pl, done, i, s) && SentRight(pl.g, s, val, sent)
    ensures Messages(pl.parts[i].color, sent)[m] <= 1
    ensures m in Messages(pl.parts[i].color, sent) ==>
      exists e :: LeavesPiece(pl.g, s, e) && MessageFor(pl, val, done + {i}, m, e)
  {
    NextParts(pl, done, i, s);
    hide Next, SendsAlong, ExpectsAlong, OneEdgePerColorPair, Separate, Ran, Owed;
    if m in Messages(pl.parts[i].color, sent) {
      assert LedTo(pl.g, s, m.to);
      var e :| LeavesPiece(pl.g, s, e) && ToColor(pl.g, e) == m.to;
      OwedAfter(pl, done, i, s, e);
      assert MessageFor(pl, val, done + {i}, m, e);
    }
  }

  lemma MessageOfLeaving(pl: Plan, val: Values, done: set<nat>, i: nat, s: set<NodeId>, sent: map<Color, IO>, e: EdgeId)
    requires Next(pl, done, i, s) && SentRight(pl.g, s, val, sent) && LeavesPiece(pl.g, s, e)
    ensures Has(pl.g, val, e) && MessageOf(pl.g, val, e) in Messages(pl.parts[i].color, sent)
  {
    NextParts(pl, done, i, s);
    hide Next, SendsAlong, ExpectsAlong, OneEdgePerColorPair, Separate;
  }

  /** Two edges between the same colors are one. */
  lemma SameMessageEdge(pl: Plan, e: EdgeId, f: EdgeId)
    requires OneEdgePerColorPair(pl.g) && Crossing(pl.g, e) && Crossing(pl.g, f)
    requires FromColor(pl.g, e) == FromColor(pl.g, f) && ToColor(pl.g, e) == ToColor(pl.g, f)
    ensures e == f
  {}

  /** A color that a leaving edge leads to has received nothing from this piece. */
  lemma LeavingNotPending(pl: Plan, val: Values, net: Net, done: set<nat>, i: nat, s: set<NodeId>, e: EdgeId)
    requires Next(pl, done, i, s) && InvPending(pl, val, net, done) && LeavesPiece(pl.g, s, e)
    requires ToColor(pl.g, e) in net.pending
    ensures FromColor(pl.g, e) !in net.pending[ToColor(pl.g, e)]
  {
    OwedAfter(pl, done, i, s, e);
    NextParts(pl, done, i, s);
    hide Next, SendsAlong, ExpectsAlong, Separate, Owed, Has, InvPending;
    if FromColor(pl.g, e) in net.pending[ToColor(pl.g, e)] {
      PendingIsRight(pl, val, net, done, e);
    }
  }

  lemma LeavingNotInBag(pl: Plan, val: Values, net: Net, done: set<nat>, i: nat, s: set<NodeId>, m: Message, e: EdgeId)
    requires Next(pl, done, i, s) && InvBag(pl, val, net, done) && LeavesPiece(pl.g, s, e)
    requires m.from == FromColor(pl.g, e) && m.to == ToColor(pl.g, e)
    ensures m !in net.bag
  {
    hide Next, SendsAlong, ExpectsAlong, Separate, Has, OneEdgePerColorPair, Owed;
    NextParts(pl, done, i, s);
    OwedAfter(pl, done, i, s, e);
    assert m in net.bag ==> exists f :: MessageFor(pl, val, done, m, f);
    forall f | MessageFor(pl, val, done, m, f)
      ensures f == e
    {
      EnteringCross(pl.g, s);
      MessageColors(pl, val, done, m, f);
      SameMessageEdge(pl, e, f);
    }
  }

  lemma MessageColors(pl: Plan, val: Values, done: set<nat>, m: Message, e: EdgeId)
    requires MessageFor(pl, val, done, m, e)
    ensures Crossing(pl.g, e) && m.from == FromColor(pl.g, e) && m.to == ToColor(pl.g, e) && Owed(pl, done, e)
  {}

  lemma BagAfterRun(pl: Plan, val: Values, net: Net, next: Net, done: set<nat>, i: nat, s: set<NodeId>, sent: map<Color, IO>, m: Message)
    requires Next(pl, done, i, s) && InvBag(pl, val, net, done) && InvPending(pl, val, net, done)
    requires SentRight(pl.g, s, val, sent) && RanInto(pl, net, next, i, sent)
    requires forall e :: Crossing(pl.g, e) ==> ToColor(pl.g, e) in net.pending
    requires forall e :: EntersPiece(pl.g, s, e) ==> FromColor(pl.g, e) in net.pending[pl.parts[i].color]
    requires m in next.bag
    ensures next.bag[m] == 1 && m.to in next.pending && m.from !in next.pending[m.to]
    ensures exists e :: MessageFor(pl, val, done + {i}, m, e)
  {
    NextParts(pl, done, i, s);
    NewMessages(pl, val, done, i, s, sent, m);
    hide Next, SendsAlong, ExpectsAlong, OneEdgePerColorPair, Separate, Ran, Owed, Messages, Has, InvPending, SentRight;
    if m in Messages(pl.parts[i].color, sent) {
      var e :| LeavesPiece(pl.g, s, e) && MessageFor(pl, val, done + {i}, m, e);
      LeavingNotPending(pl, val, net, done, i, s, e);
      LeavingNotInBag(pl, val, net, done, i, s, m, e);
    } else {
      assert m in net.bag;
      var e :| MessageFor(pl, val, done, m, e);
      OwedAfter(pl, done, i, s, e);
      assert MessageFor(pl, val, done + {i}, m, e);
    }
  }

  lemma OwedAfterRun(pl: Plan, val: Values, net: Net, next: Net, done: set<nat>, i: nat, s: set<NodeId>, sent: map<Color, IO>, e: EdgeId)
    requires Next(pl, done, i, s) && InvOwed(pl, val, net, done)
    requires SentRight(pl.g, s, val, sent) && RanInto(pl, net, next, i, sent)
    requires forall f :: Crossing(pl.g, f) ==> ToColor(pl.g, f) in net.pending
    requires Owed(pl, done + {i}, e)
    ensures Has(pl.g, val, e) && ToColor(pl.g, e) in next.pending
    ensures FromColor(pl.g, e) in next.pending[ToColor(pl.g, e)] || MessageOf(pl.g, val, e) in next.bag
  {
    NextParts(pl, done, i, s);
    OwedAfter(pl, done, i, s, e);
    if LeavesPiece(pl.g, s, e) {
      MessageOfLeaving(pl, val, done, i, s, sent, e);
    } else {
      StillPending(pl, net, next, i, s, sent, e);
      hide Next, SendsAlong, ExpectsAlong, OneEdgePerColorPair, Separate, Ran, Owed, Messages, Has, SentRight, RanInto;
    }
  }

  /** A run takes only the values of the edges that enter its piece. */
  lemma StillPending(pl: Plan, net: Net, next: Net, i: nat, s: set<NodeId>, sent: map<Color, IO>, e: EdgeId)
    requires RanInto(pl, net, next, i, sent) && ExpectsAlong(pl.g, s, pl.parts[i].children) && OneEdgePerColorPair(pl.g)
    requires forall f :: EntersPiece(pl.g, s, f) ==> ToColor(pl.g, f) == pl.parts[i].color
    requires Crossing(pl.g, e) && !EntersPiece(pl.g, s, e) && ToColor(pl.g, e) in net.pending
    ensures FromColor(pl.g, e) in net.pending[ToColor(pl.g, e)] ==> FromColor(pl.g, e) in next.pending[ToColor(pl.g, e)]
    ensures forall m :: m in net.bag ==> m in next.bag
  {
    hide Messages, OneEdgePerColorPair;
    var a, b := FromColor(pl.g, e), ToColor(pl.g, e);
    if b == pl.parts[i].color && a in pl.parts[i].children {
      assert ComesFrom(pl.g, s, a);
      var f :| EntersPiece(pl.g, s, f) && FromColor(pl.g, f) == a;
      SameMessageEdge(pl, e, f);
    }
  }

  lemma FinalsAfterRun(pl: Plan, val: Values, net: Net, next: Net, done: set<nat>, i: nat, s: set<NodeId>)
    requires i < |pl.comps| && i !in done && Separate(pl.comps) && s == SetOf(pl.comps[i]) && InvFinals(pl, val, net, done)
    requires next.finals == net.finals + ValuesOf(OutputsOn(GraphOutputs(pl.g, val), s))
    ensures InvFinals(pl, val, next, done + {i})
  {
    hide GraphOutputs, Ran, ValuesOf, Separate;
    var before, more, after := OutputsOfRan(pl, val, done), OutputsOn(GraphOutputs(pl.g, val), s), OutputsOfRan(pl, val, done + {i});
    forall o
      ensures o in after <==> o in before || o in more
      ensures !(o in before && o in more)
    {
      RanAfter(pl, done, i, s, o.node);
      if o.node in s {
        NotYetRan(pl, done, i, o.node);
      }
    }
    assert after == before + more;
    ValuesOfUnion(before, more);
  }

  /** Colors of crossing edges are colors of pieces. */
  lemma ColorsKnown(pl: Plan, net: Net, done: set<nat>)
    requires WellCut(pl) && InvQueues(pl, net, done)
    ensures forall e :: Crossing(pl.g, e) ==> ToColor(pl.g, e) in net.pending
  {
    forall e | Crossing(pl.g, e)
      ensures ToColor(pl.g, e) in net.pending
    {
      hide WellCut;
      var i := PieceAt(pl, pl.g.edges[e].target);
      PieceColors(pl, i);
    }
  }

  lemma WellCutCovers(pl: Plan)
    requires WellCut(pl)
    ensures AllMembers(pl.comps) == pl.g.nodes.Keys && |pl.parts| == |pl.comps|
  {
    hide Legal, PartitionFor, AllComponents, Separate, LeavesAtSink, EntersAtSource, OneEdgePerColorPair, AllMembers;
  }

  lemma PieceAt(pl: Plan, n: NodeId) returns (i: nat)
    requires WellCut(pl) && n in pl.g.nodes
    ensures i < |pl.comps| && i < |pl.parts| && n in pl.comps[i]
  {
    hide WellCut;
    WellCutCovers(pl);
    i :| 0 <= i < |pl.comps| && n in pl.comps[i];
  }

  lemma NextPiece(pl: Plan, val: Values, net: Net, done: set<nat>, i: nat)
    requires i < |pl.parts| && i !in done && Meant(pl, val) && NetInv(pl, val, net, done)
    ensures i < |pl.comps| && Next(pl, done, i, Piece(pl, i))
  {
    MeantEdges(pl, val);
    assert InvDone(pl, done);
    hide NetInv, WellCut, IsValuation, InvDone, Separate, OneEdgePerColorPair, PieceFlow;
    PieceFlows(pl, i);
  }

  /** A run of the first partition of a color keeps the invariant. */
  lemma RunKeepsInv(pl: Plan, val: Values, net: Net, done: set<nat>, i: nat, x: InputData, out: OutputData)
    requires i < |pl.parts| && i !in done && FirstOf(pl.parts, pl.parts[i].color, done, i) && Delivers(pl.parts[i], out)
    requires pl.parts[i].color in net.queues && pl.parts[i].color in net.pending
    requires net.queues[pl.parts[i].color] != [] && net.queues[pl.parts[i].color][0] == pl.parts[i]
    requires HasAll(pl.parts[i], net.pending[pl.parts[i].color]) && RunsRight(pl, val, i, x, out)
    requires Meant(pl, val) && NetInv(pl, val, net, done)
    ensures NetInv(pl, val, AfterRun(net, pl.parts[i].color, out), done + {i})
  {
    hide Meant, Next, InvDone, InvQueues, InvBag, InvPending, InvOwed, InvFinals, Legal, Computes, Delivers, HasAll, AfterRun,
         SentRight, Finals, Sent, RanInto, FirstOf, GraphOutputs, OutputsOn, EntersPiece, Owed, Crossing, Piece;
    NextPiece(pl, val, net, done, i);
    var s, next, sent := Piece(pl, i), AfterRun(net, pl.parts[i].color, out), Sent(pl.parts[i], out);
    HeadArrived(pl, val, net, done, i, s);
    AfterRunInto(pl, net, i, out);
    ColorsKnown(pl, net, done) by { assert WellCut(pl) by { MeantCut(pl, val); } }
    DoneAfter(pl, done, i, s);
    QueuesAfter(pl, net, done, i, out);
    NextParts(pl, done, i, s);
    PendingAfterRun(pl, val, net, next, done, i, s, sent);
    BagAfter(pl, val, net, next, done, i, s, sent);
    OwedAllAfter(pl, val, net, next, done, i, s, sent);
    AfterFinals(pl, val, net, done, i, out);
  }

  lemma MeantCut(pl: Plan, val: Values)
    requires Meant(pl, val)
    ensures WellCut(pl) && IsValuation(pl.g, AtPortZero(pl.inputs), val)
  {}

  lemma BagAfter(pl: Plan, val: Values, net: Net, next: Net, done: set<nat>, i: nat, s: set<NodeId>, sent: map<Color, IO>)
    requires Next(pl, done, i, s) && InvBag(pl, val, net, done) && InvPending(pl, val, net, done)
    requires SentRight(pl.g, s, val, sent) && RanInto(pl, net, next, i, sent)
    requires forall e :: Crossing(pl.g, e) ==> ToColor(pl.g, e) in net.pending
    requires forall e :: EntersPiece(pl.g, s, e) ==> FromColor(pl.g, e) in net.pending[pl.parts[i].color]
    ensures InvBag(pl, val, next, done + {i})
  {
    hide Next, SentRight, InvPending, MessageFor, RanInto, Crossing, EntersPiece;
    forall m | m in next.bag
      ensures next.bag[m] == 1 && m.to in next.pending && m.from !in next.pending[m.to]
      ensures exists e :: MessageFor(pl, val, done + {i}, m, e)
    {
      BagAfterRun(pl, val, net, next, done, i, s, sent, m);
    }
  }

  lemma OwedAllAfter(pl: Plan, val: Values, net: Net, next: Net, done: set<nat>, i: nat, s: set<NodeId>, sent: map<Color, IO>)
    requires Next(pl, done, i, s) && InvOwed(pl, val, net, done)
    requires SentRight(pl.g, s, val, sent) && RanInto(pl, net, next, i, sent)
    requires forall f :: Crossing(pl.g, f) ==> ToColor(pl.g, f) in net.pending
    ensures InvOwed(pl, val, next, done + {i})
  {
    assert forall e :: Owed(pl, done + {i}, e) ==> Crossing(pl.g, e);
    hide Next, SentRight, RanInto, Owed, Has;
    forall e | Owed(pl, done + {i}, e)
      ensures Has(pl.g, val, e) && ToColor(pl.g, e) in next.pending
      ensures FromColor(pl.g, e) in next.pending[ToColor(pl.g, e)] || MessageOf(pl.g, val, e) in next.bag
    {
      OwedAfterRun(pl, val, net, next, done, i, s, sent, e);
    }
  }

  lemma AfterFinals(pl: Plan, val: Values, net: Net, done: set<nat>, i: nat, out: OutputData)
    requires i < |pl.parts| && i < |pl.comps| && i !in done && Separate(pl.comps) && Delivers(pl.parts[i], out)
    requires var c := pl.parts[i].color;
      c in net.queues && c in net.pending && net.queues[c] != [] && net.queues[c][0] == pl.parts[i]
    requires Finals(pl.parts[i], out) == OutputsOn(GraphOutputs(pl.g, val), Piece(pl, i))
    requires InvFinals(pl, val, net, done)
    ensures InvFinals(pl, val, AfterRun(net, pl.parts[i].color, out), done + {i})
  {
    hide InvFinals, GraphOutputs, OutputsOn, Finals, Sent, Messages, PendingAfter, ValuesOf, Separate;
    FinalsAfterRun(pl, val, net, AfterRun(net, pl.parts[i].color, out), done, i, Piece(pl, i));
  }

  // ---------------------------------------------------------------- the invariant after an arrival

  lemma ArrivalBagAt(pl: Plan, val: Values, net: Net, next: Net, done: set<nat>, m: Message, k: Message)
    requires Arrives(net, next, m) && InvBag(pl, val, net, done) && OneEdgePerColorPair(pl.g) && k in next.bag
    ensures next.bag[k] == 1 && k.to in next.pending && k.from !in next.pending[k.to]
    ensures exists f :: MessageFor(pl, val, done, k, f)
  {
    hide OneEdgePerColorPair, MessageFor;
    assert net.bag[m] == 1;
    assert k in net.bag && k != m;
    var e :| MessageFor(pl, val, done, m, e);
    var f :| MessageFor(pl, val, done, k, f);
    SameColorsSame(pl, val, done, m, k, e, f);
  }

  lemma SameColorsSame(pl: Plan, val: Values, done: set<nat>, m: Message, k: Message, e: EdgeId, f: EdgeId)
    requires MessageFor(pl, val, done, m, e) && MessageFor(pl, val, done, k, f) && OneEdgePerColorPair(pl.g)
    ensures m.from == k.from && m.to == k.to ==> m == k
  {
    hide OneEdgePerColorPair, Owed;
    MessageColors(pl, val, done, m, e);
    MessageColors(pl, val, done, k, f);
    if m.from == k.from && m.to == k.to {
      SameMessageEdge(pl, e, f);
    }
  }

  lemma ArrivalBag(pl: Plan, val: Values, net: Net, next: Net, done: set<nat>, m: Message)
    requires Arrives(net, next, m) && InvBag(pl, val, net, done) && OneEdgePerColorPair(pl.g)
    ensures InvBag(pl, val, next, done)
  {
    hide OneEdgePerColorPair, MessageFor, Arrives;
    forall k | k in next.bag
      ensures next.bag[k] == 1 && k.to in next.pending && k.from !in next.pending[k.to]
      ensures exists f :: MessageFor(pl, val, done, k, f)
    {
      ArrivalBagAt(pl, val, net, next, done, m, k);
    }
  }

  lemma ArrivalPending(pl: Plan, val: Values, net: Net, next: Net, done: set<nat>, m: Message)
    requires Arrives(net, next, m) && InvBag(pl, val, net, done) && InvPending(pl, val, net, done)
    ensures InvPending(pl, val, next, done)
  {
    hide Owed, Has, MessageFor;
    forall b, a | b in next.pending && a in next.pending[b]
      ensures exists e :: MessageFor(pl, val, done, Message(a, b, next.pending[b][a]), e)
    {
      if b == m.to && a == m.from {
        assert Message(a, b, next.pending[b][a]) == m;
      } else {
        assert a in net.pending[b] && next.pending[b][a] == net.pending[b][a];
      }
    }
  }

  lemma ArrivalOwed(pl: Plan, val: Values, net: Net, next: Net, done: set<nat>, m: Message)
    requires Arrives(net, next, m) && InvOwed(pl, val, net, done)
    ensures InvOwed(pl, val, next, done)
  {
    hide Has;
    forall e | Owed(pl, done, e)
      ensures Has(pl.g, val, e) && ToColor(pl.g, e) in next.pending
      ensures FromColor(pl.g, e) in next.pending[ToColor(pl.g, e)] || MessageOf(pl.g, val, e) in next.bag
    {
      assert MessageOf(pl.g, val, e) in net.bag ==> MessageOf(pl.g, val, e) == m || MessageOf(pl.g, val, e) in next.bag;
    }
  }

  lemma ArrivalRest(pl: Plan, val: Values, net: Net, next: Net, done: set<nat>, m: Message)
    requires Arrives(net, next, m) && InvQueues(pl, net, done) && InvFinals(pl, val, net, done)
    ensures InvQueues(pl, next, done) && InvFinals(pl, val, next, done)
  {
    hide GraphOutputs, Queue, Colors, Ran;
  }

  /** An arrival keeps the invariant. */
  lemma ArrivalKeepsInv(pl: Plan, val: Values, net: Net, next: Net, done: set<nat>, m: Message)
    requires Arrives(net, next, m) && Meant(pl, val) && NetInv(pl, val, net, done)
    ensures NetInv(pl, val, next, done)
  {
    hide Meant, InvBag, InvPending, InvOwed, InvDone, OneEdgePerColorPair, InvQueues, InvFinals, Arrives, Has, Separate;
    MeantEdges(pl, val);
    ArrivalRest(pl, val, net, next, done, m);
    ArrivalBag(pl, val, net, next, done, m);
    ArrivalPending(pl, val, net, next, done, m);
    ArrivalOwed(pl, val, net, next, done, m);
  }

  // ---------------------------------------------------------------- work done

  /** The value of edge e has been sent and has arrived. */
  ghost predicate Settled(pl: Plan, val: Values, net: Net, done: set<nat>, e: EdgeId) {
    && Crossing(pl.g, e) && Ran(pl, done, pl.g.edges[e].source)
    && Has(pl.g, val, e) && MessageOf(pl.g, val, e) !in net.bag
  }

  ghost function SettledEdges(pl: Plan, val: Values, net: Net, done: set<nat>): (s: set<EdgeId>)
    ensures forall e :: e in s <==> Settled(pl, val, net, done, e)
  {
    set e | e in pl.g.edges && Settled(pl, val, net, done, e)
  }

  function CrossingEdges(g: ExecGraph): (s: set<EdgeId>)
    ensures forall e :: e in s <==> Crossing(g, e)
  {
    set e | e in g.edges && Crossing(g, e)
  }

  lemma RunSettles(pl: Plan, val: Values, net: Net, next: Net, done: set<nat>, i: nat, s: set<NodeId>, sent: map<Color, IO>, e: EdgeId)
    requires Next(pl, done, i, s) && SentRight(pl.g, s, val, sent) && RanInto(pl, net, next, i, sent)
    ensures Settled(pl, val, next, done + {i}, e) <==> Settled(pl, val, net, done, e)
  {
    NextParts(pl, done, i, s);
    hide Next, SendsAlong, ExpectsAlong, OneEdgePerColorPair, Separate, Ran, SentRight, Messages, Owed;
    if Crossing(pl.g, e) && Has(pl.g, val, e) {
      var m := MessageOf(pl.g, val, e);
      RanAfter(pl, done, i, s, pl.g.edges[e].source);
      NewMessages(pl, val, done, i, s, sent, m);
      if m in Messages(pl.parts[i].color, sent) {
        var f :| LeavesPiece(pl.g, s, f) && MessageFor(pl, val, done + {i}, m, f);
        MessageColors(pl, val, done + {i}, m, f);
        SameMessageEdge(pl, e, f);
        NotYetRan(pl, done, i, pl.g.edges[e].source);
      } else if LeavesPiece(pl.g, s, e) {
        MessageOfLeaving(pl, val, done, i, s, sent, e);
      }
    }
  }

  lemma ArrivalSettles(pl: Plan, val: Values, net: Net, next: Net, done: set<nat>, m: Message) returns (e: EdgeId)
    requires Arrives(net, next, m) && InvBag(pl, val, net, done) && OneEdgePerColorPair(pl.g)
    ensures !Settled(pl, val, net, done, e)
    ensures SettledEdges(pl, val, next, done) == SettledEdges(pl, val, net, done) + {e}
  {
    hide OneEdgePerColorPair, Ran;
    assert net.bag[m] == 1;
    e :| MessageFor(pl, val, done, m, e);
    forall f
      ensures Settled(pl, val, next, done, f) <==> f == e || Settled(pl, val, net, done, f)
    {
      if Crossing(pl.g, f) && Has(pl.g, val, f) && MessageOf(pl.g, val, f) == m {
        MessageColors(pl, val, done, m, e);
        SameMessageEdge(pl, e, f);
      }
    }
    hide Settled;
    assert SettledEdges(pl, val, next, done) == SettledEdges(pl, val, net, done) + {e};
  }

  ghost function Work(pl: Plan, val: Values, net: Net, done: set<nat>): nat {
    |done| + |SettledEdges(pl, val, net, done)|
  }

  // ---------------------------------------------------------------- every run

  lemma HeadPiece(pl: Plan, val: Values, net: Net, done: set<nat>, c: Color) returns (i: nat)
    requires c in net.queues && net.queues[c] != [] && NetInv(pl, val, net, done)
    ensures i < |pl.parts| && pl.parts[i].color == c && i !in done && FirstOf(pl.parts, c, done, i)
    ensures c in net.pending && net.queues[c][0] == pl.parts[i]
  {
    hide InvDone, InvBag, InvPending, InvOwed, InvFinals;
    i := QueueFirst(pl.parts, c, done, |pl.parts|);
    QueueHead(pl.parts, c, done, i, |pl.parts|);
  }

  /** In a reachable net the first partition of a color, once it has all its values, runs legally, succeeds,
      and returns what the graph means. */
  lemma HeadNeverFails(pl: Plan, val: Values, net: Net, done: set<nat>, i: nat, x: InputData, r: Result<OutputData, ExecutionError>)
    requires i < |pl.parts| && i !in done && pl.parts[i].color in net.pending
    requires HasAll(pl.parts[i], net.pending[pl.parts[i].color]) && Gathers(pl.parts[i], net.pending[pl.parts[i].color], x)
    requires Meant(pl, val) && NetInv(pl, val, net, done)
    ensures i < |pl.comps| && RunsRight(pl, val, i, x, PieceOutput(pl, val, i))
    ensures Computes(pl.parts[i].graph, x, r) ==> r == Ok(PieceOutput(pl, val, i))
  {
    assert InvPending(pl, val, net, done);
    hide Meant, NetInv, InvPending, Next, HasAll, Gathers, Computes, RunsRight, Arrived, Owed;
    NextPiece(pl, val, net, done, i);
    HeadArrived(pl, val, net, done, i, Piece(pl, i));
    PieceRuns(pl, val, i, net.pending[pl.parts[i].color], x, r);
  }

  /** What the first partition of a color gathers in a reachable net are the right inputs of its piece. */
  lemma HeadRight(pl: Plan, val: Values, net: Net, done: set<nat>, i: nat, x: InputData)
    requires i < |pl.parts| && i !in done && pl.parts[i].color in net.pending
    requires HasAll(pl.parts[i], net.pending[pl.parts[i].color]) && Gathers(pl.parts[i], net.pending[pl.parts[i].color], x)
    requires Meant(pl, val) && NetInv(pl, val, net, done)
    ensures i < |pl.comps| && RightInputs(pl, Piece(pl, i), val, x)
  {
    assert InvPending(pl, val, net, done);
    hide Meant, NetInv, InvPending, Next, HasAll, Gathers, Arrived, Owed, RightInputs;
    NextPiece(pl, val, net, done, i);
    HeadArrived(pl, val, net, done, i, Piece(pl, i));
    PieceInputs(pl, val, i, net.pending[pl.parts[i].color], x);
  }

  lemma RunStepKeeps(pl: Plan, val: Values, net: Net, next: Net, done: set<nat>, c: Color, x: InputData,
                     r: Result<OutputData, ExecutionError>, list: seq<PartitionOutput>) returns (i: nat)
    requires Meant(pl, val) && NetInv(pl, val, net, done) && RunsWith(net, next, c, x, r, list)
    ensures FirstOf(pl.parts, c, done, i)
    ensures NetInv(pl, val, next, done + {i}) && Work(pl, val, next, done + {i}) == Work(pl, val, net, done) + 1
  {
    assert c in net.queues && net.queues[c] != [];
    hide Meant, NetInv, Gathers, Computes, RunsRight, FirstOf, HasAll, Delivers, AfterRun, AfterMessages, Announced, PieceOutput;
    MessagesAreRun(net, next, c, x, r, list);
    i := HeadPiece(pl, val, net, done, c);
    HeadNeverFails(pl, val, net, done, i, x, r);
    var out := r.value;
    RunKeepsInv(pl, val, net, done, i, x, out);
    RunWork(pl, val, net, done, i, x, out);
  }

  lemma RunWork(pl: Plan, val: Values, net: Net, done: set<nat>, i: nat, x: InputData, out: OutputData)
    requires i < |pl.parts| && i !in done && Delivers(pl.parts[i], out)
    requires pl.parts[i].color in net.queues && pl.parts[i].color in net.pending
    requires net.queues[pl.parts[i].color] != [] && net.queues[pl.parts[i].color][0] == pl.parts[i]
    requires RunsRight(pl, val, i, x, out) && Meant(pl, val) && NetInv(pl, val, net, done)
    ensures Work(pl, val, AfterRun(net, pl.parts[i].color, out), done + {i}) == Work(pl, val, net, done) + 1
  {
    hide Meant, NetInv, Legal, Computes, Delivers, AfterRun, SentRight, Finals, Sent, RanInto, Piece, Next, GraphOutputs, OutputsOn, Settled;
    NextPiece(pl, val, net, done, i);
    var s, next, sent := Piece(pl, i), AfterRun(net, pl.parts[i].color, out), Sent(pl.parts[i], out);
    AfterRunInto(pl, net, i, out);
    forall e
      ensures Settled(pl, val, next, done + {i}, e) <==> Settled(pl, val, net, done, e)
    {
      RunSettles(pl, val, net, next, done, i, s, sent, e);
    }
    assert SettledEdges(pl, val, next, done + {i}) == SettledEdges(pl, val, net, done);
  }

  /** Every step keeps the invariant and does one unit of work. */
  lemma NetStepKeeps(pl: Plan, val: Values, net: Net, next: Net, done: set<nat>) returns (after: set<nat>)
    requires Meant(pl, val) && NetInv(pl, val, net, done) && NetStep(net, next)
    ensures NetInv(pl, val, next, after) && Work(pl, val, next, after) == Work(pl, val, net, done) + 1
  {
    hide Meant, NetInv, RunsWith, Arrives;
    if c, x, r, list :| RunsWith(net, next, c, x, r, list) {
      var i := RunStepKeeps(pl, val, net, next, done, c, x, r, list);
      after := done + {i};
    } else {
      var m :| Arrives(net, next, m);
      after := done;
      ArrivalKeepsInv(pl, val, net, next, done, m);
      ArrivalWork(pl, val, net, next, done, m);
    }
  }

  lemma NetParts(pl: Plan, val: Values, net: Net, done: set<nat>)
    requires NetInv(pl, val, net, done)
    ensures InvDone(pl, done) && InvQueues(pl, net, done) && InvBag(pl, val, net, done)
    ensures InvPending(pl, val, net, done) && InvOwed(pl, val, net, done) && InvFinals(pl, val, net, done)
  {
    hide InvBag, InvPending, InvOwed, InvFinals, InvDone, InvQueues;
  }

  lemma ArrivalWork(pl: Plan, val: Values, net: Net, next: Net, done: set<nat>, m: Message)
    requires Arrives(net, next, m) && Meant(pl, val) && NetInv(pl, val, net, done)
    ensures Work(pl, val, next, done) == Work(pl, val, net, done) + 1
  {
    hide NetInv, Arrives, Meant, InvBag, Settled, OneEdgePerColorPair, Has, Separate, InvOwed, InvPending, InvFinals;
    MeantEdges(pl, val);
    NetParts(pl, val, net, done);
    var e := ArrivalSettles(pl, val, net, next, done, m);
  }

  lemma {:induction false} NetInvAlong(pl: Plan, val: Values, nets: seq<Net>, k: nat) returns (done: set<nat>)
    requires Meant(pl, val) && NetExecution(pl.parts, nets) && k < |nets|
    ensures NetInv(pl, val, nets[k], done) && Work(pl, val, nets[k], done) == k
  {
    hide Meant, NetInv, NetStep, Work;
    if k == 0 {
      done := {};
      InitNetInv(pl, val);
      NoWork(pl, val);
    } else {
      var before := NetInvAlong(pl, val, nets, k - 1);
      done := NetStepKeeps(pl, val, nets[k - 1], nets[k], before);
    }
  }

  lemma NoWork(pl: Plan, val: Values)
    ensures Work(pl, val, InitNet(pl.parts), {}) == 0
  {
    hide Crossing, Has;
    assert SettledEdges(pl, val, InitNet(pl.parts), {}) == {};
  }

  // ---------------------------------------------------------------- the end of a run

  lemma AllDoneMeans(pl: Plan, val: Values, net: Net, done: set<nat>)
    requires NetInv(pl, val, net, done)
    ensures AllDone(net) <==> done == Below(|pl.parts|)
  {
    hide InvBag, InvPending, InvOwed, InvFinals;
    assert done <= Below(|pl.parts|);
    hide InvDone;
    if AllDone(net) {
      forall i: nat | i < |pl.parts|
        ensures i in done
      {
        assert pl.parts[i].color in Colors(pl.parts);
        QueueSkips(pl.parts, pl.parts[i].color, done, |pl.parts|, i);
      }
    }
    if done == Below(|pl.parts|) {
      forall c | c in net.queues
        ensures net.queues[c] == []
      {
        QueueEmpty(pl.parts, c, done, |pl.parts|);
      }
    }
  }

  lemma AllRan(pl: Plan, done: set<nat>, n: NodeId)
    requires WellCut(pl) && done == Below(|pl.parts|) && n in pl.g.nodes
    ensures Ran(pl, done, n)
  {
    hide WellCut;
    var i := PieceAt(pl, n);
  }

  /** Once every queue is empty, the collected outputs are those of the whole graph, and no value is left
      under way or waiting. */
  lemma FinishedNet(pl: Plan, val: Values, net: Net, done: set<nat>)
    requires Meant(pl, val) && NetInv(pl, val, net, done) && AllDone(net)
    ensures net.finals == ValuesOf(GraphOutputs(pl.g, val)) && net.bag == multiset{}
    ensures forall c :: c in net.pending ==> net.pending[c] == map[]
  {
    hide Meant, WellCut, NetInv, InvDone, InvQueues, InvBag, InvPending, InvOwed, InvFinals, AllDone, Ran, IsValuation, GraphOutputs, Owed;
    AllDoneMeans(pl, val, net, done);
    MeantCut(pl, val);
    NetParts(pl, val, net, done);
    NothingOwed(pl, done);
    NothingInBag(pl, val, net, done);
    NothingPending(pl, val, net, done);
    AllFinals(pl, val, net, done);
  }

  lemma NothingOwed(pl: Plan, done: set<nat>)
    requires WellCut(pl) && done == Below(|pl.parts|)
    ensures forall e :: !Owed(pl, done, e)
  {
    hide WellCut, Ran;
    forall e
      ensures !Owed(pl, done, e)
    {
      if Crossing(pl.g, e) {
        AllRan(pl, done, pl.g.edges[e].target);
      }
    }
  }

  lemma NothingInBag(pl: Plan, val: Values, net: Net, done: set<nat>)
    requires InvBag(pl, val, net, done) && forall e :: !Owed(pl, done, e)
    ensures net.bag == multiset{}
  {
    hide Owed;
    assert forall m :: m !in net.bag;
  }

  lemma AllFinals(pl: Plan, val: Values, net: Net, done: set<nat>)
    requires WellCut(pl) && done == Below(|pl.parts|) && IsValuation(pl.g, AtPortZero(pl.inputs), val)
    requires InvFinals(pl, val, net, done)
    ensures net.finals == ValuesOf(GraphOutputs(pl.g, val))
  {
    hide WellCut, Ran, IsValuation, GraphOutputs, InvFinals, ValuesOf;
    FinalsOfNodes(pl, val);
    forall n | n in pl.g.nodes
      ensures Ran(pl, done, n)
    {
      AllRan(pl, done, n);
    }
    FinalsAre(pl, val, net, done);
  }

  lemma FinalsAre(pl: Plan, val: Values, net: Net, done: set<nat>)
    requires InvFinals(pl, val, net, done) && forall o :: o in GraphOutputs(pl.g, val) ==> Ran(pl, done, o.node)
    ensures net.finals == ValuesOf(GraphOutputs(pl.g, val))
  {
    hide Ran, GraphOutputs, ValuesOf;
    assert OutputsOfRan(pl, val, done) == GraphOutputs(pl.g, val);
  }

  lemma NothingPending(pl: Plan, val: Values, net: Net, done: set<nat>)
    requires InvPending(pl, val, net, done) && forall e :: !Owed(pl, done, e)
    ensures forall c :: c in net.pending ==> net.pending[c] == map[]
  {
    hide Owed;
    forall c | c in net.pending
      ensures net.pending[c].Keys == {}
    {}
  }

  lemma FinalsOfNodes(pl: Plan, val: Values)
    requires IsValuation(pl.g, AtPortZero(pl.inputs), val)
    ensures forall o :: o in GraphOutputs(pl.g, val) ==> o.node in pl.g.nodes
  {
    hide EvaluatesTo;
  }

  lemma BelowAll(done: set<nat>, n: nat)
    requires forall i :: i in done ==> i < n
    ensures |done| <= n && (|done| == n <==> done == Below(n))
  {
    BelowSize(n);
    assert done <= Below(n);
    SubsetSize(done, Below(n));
    if |done| == n {
      SubsetOfSameSize(done, Below(n));
    }
  }

  lemma WorkBound(pl: Plan, val: Values, net: Net, done: set<nat>)
    requires Meant(pl, val) && NetInv(pl, val, net, done)
    ensures Work(pl, val, net, done) <= |pl.parts| + |CrossingEdges(pl.g)|
    ensures AllDone(net) <==> Work(pl, val, net, done) == |pl.parts| + |CrossingEdges(pl.g)|
  {
    hide Meant, NetInv, InvQueues, InvBag, InvPending, InvOwed, InvFinals, Settled, Crossing, AllDone, Has, Separate, OneEdgePerColorPair;
    NetParts(pl, val, net, done);
    BelowAll(done, |pl.parts|);
    AllDoneMeans(pl, val, net, done);
    SettledCross(pl, val, net, done);
    SubsetSize(SettledEdges(pl, val, net, done), CrossingEdges(pl.g));
    if AllDone(net) {
      FinishedNet(pl, val, net, done);
      AllSettled(pl, val, net, done);
    }
  }

  lemma SettledCross(pl: Plan, val: Values, net: Net, done: set<nat>)
    ensures SettledEdges(pl, val, net, done) <= CrossingEdges(pl.g)
  {
    hide Crossing, Has, Ran;
  }

  lemma AllSettled(pl: Plan, val: Values, net: Net, done: set<nat>)
    requires Meant(pl, val) && net.bag == multiset{} && done == Below(|pl.parts|)
    ensures SettledEdges(pl, val, net, done) == CrossingEdges(pl.g)
  {
    hide Meant, WellCut, Ran, Has, Separate, OneEdgePerColorPair;
    MeantEdges(pl, val);
    MeantCut(pl, val);
    forall e | Crossing(pl.g, e)
      ensures Settled(pl, val, net, done, e)
    {
      AllRan(pl, done, pl.g.edges[e].source);
    }
    hide Settled, Crossing;
    assert SettledEdges(pl, val, net, done) == CrossingEdges(pl.g);
  }

  /** No value has been sent more often than it is an output of the graph. */
  ghost predicate OutputsSoFar(g: ExecGraph, val: Values, finals: multiset<IO>) {
    finals <= ValuesOf(GraphOutputs(g, val))
  }

  /** The distributed run refines the whole run: in every interleaving of partition runs and arrivals no value is sent
      to no color more often than it is an output of the graph; the number of steps is bounded, and it is full exactly when
      every queue is empty; then the messages to no color are, as a multiset, the outputs of direct evaluation, and no
      other message is left. */
  lemma DistributedRefines(pl: Plan, val: Values, nets: seq<Net>)
    requires Meant(pl, val) && NetExecution(pl.parts, nets)
    ensures forall k :: 0 <= k < |nets| ==> OutputsSoFar(pl.g, val, nets[k].finals)
    ensures |nets| - 1 <= |pl.parts| + |CrossingEdges(pl.g)|
    ensures AllDone(nets[|nets| - 1]) <==> |nets| - 1 == |pl.parts| + |CrossingEdges(pl.g)|
    ensures AllDone(nets[|nets| - 1]) ==>
      nets[|nets| - 1].finals == ValuesOf(GraphOutputs(pl.g, val)) && nets[|nets| - 1].bag == multiset{}
  {
    assert |nets| >= 1;
    hide Meant, NetExecution, NetInv, AllDone, GraphOutputs, Work, OutputsSoFar;
    forall k | 0 <= k < |nets|
      ensures OutputsSoFar(pl.g, val, nets[k].finals)
    {
      var done := NetInvAlong(pl, val, nets, k);
      SoFar(pl, val, nets[k], done);
    }
    var last := nets[|nets| - 1];
    var done := NetInvAlong(pl, val, nets, |nets| - 1);
    WorkBound(pl, val, last, done);
    if AllDone(last) {
      FinishedNet(pl, val, last, done);
    }
  }

  lemma SoFar(pl: Plan, val: Values, net: Net, done: set<nat>)
    requires NetInv(pl, val, net, done)
    ensures OutputsSoFar(pl.g, val, net.finals)
  {
    hide InvBag, InvPending, InvOwed, InvDone, InvQueues, GraphOutputs, ValuesOf, Ran;
    var all, sent := GraphOutputs(pl.g, val), OutputsOfRan(pl, val, done);
    var left := all - sent.Keys;
    assert all == sent + left;
    ValuesOfUnion(sent, left);
  }

  // ---------------------------------------------------------------- deadlock freedom

  lemma LeastUndone(pl: Plan, done: set<nat>) returns (i: nat)
    requires done != Below(|pl.parts|) && forall j :: j in done ==> j < |pl.parts|
    ensures i < |pl.parts| && i !in done && forall j :: 0 <= j < i ==> j in done
  {
    var left := Below(|pl.parts|) - done;
    assert left != {} by {
      assert done <= Below(|pl.parts|);
    }
    i := Extreme(true, left);
    forall j: nat | j < i
      ensures j in done
    {
      assert j in Below(|pl.parts|);
      assert j in left ==> Preferred(true, i, j);
    }
  }

  /** The first unfinished piece of all is at the head of its queue, and every value it expects has been sent. */
  lemma LeastIsServed(pl: Plan, order: seq<NodeId>, val: Values, net: Net, done: set<nat>, i: nat, a: Color) returns (m: Message)
    requires i < |pl.parts| && i !in done && (forall j :: 0 <= j < i ==> j in done)
    requires pl.parts[i].color in net.pending && a in pl.parts[i].children && a !in net.pending[pl.parts[i].color]
    requires Meant(pl, val) && NetInv(pl, val, net, done)
    requires IsDagOrder(pl.g, true, order) && Ordered(order, pl.comps)
    ensures m in net.bag && m.from == a && m.to == pl.parts[i].color
  {
    hide Meant, NetInv, InvQueues, InvBag, InvPending, InvFinals, InvDone, WellCut, IsDagOrder, Ordered, Next, SendsAlong,
         Separate, OneEdgePerColorPair, Has, Ran;
    MeantCut(pl, val);
    NetParts(pl, val, net, done);
    NextPiece(pl, val, net, done, i);
    var s := Piece(pl, i);
    NextParts(pl, done, i, s);
    assert ComesFrom(pl.g, s, a);
    var e :| EntersPiece(pl.g, s, e) && FromColor(pl.g, e) == a;
    var j := PieceAt(pl, pl.g.edges[e].source);
    SendersFirst(pl, order, e, j, i);
    RanByPiece(pl, done, j, pl.g.edges[e].source);
    NotYetRan(pl, done, i, pl.g.edges[e].target);
    assert Owed(pl, done, e);
    m := MessageOf(pl.g, val, e);
  }

  lemma RanByPiece(pl: Plan, done: set<nat>, j: nat, n: NodeId)
    requires j in done && j < |pl.comps| && n in pl.comps[j]
    ensures Ran(pl, done, n)
  {}

  lemma CanStep(pl: Plan, order: seq<NodeId>, val: Values, net: Net, done: set<nat>) returns (next: Net)
    requires Meant(pl, val) && NetInv(pl, val, net, done) && !AllDone(net)
    requires IsDagOrder(pl.g, true, order) && Ordered(order, pl.comps)
    ensures NetStep(net, next)
  {
    hide Meant, NetInv, InvBag, InvPending, InvFinals, InvOwed, WellCut, IsDagOrder, Ordered, AllDone, Gathers, Computes, HasAll,
         Delivers, AfterMessages, Announces, Announced, RunsRight, PieceOutput, Queue;
    NetParts(pl, val, net, done);
    AllDoneMeans(pl, val, net, done);
    var i := LeastUndone(pl, done);
    var c := pl.parts[i].color;
    AtHead(pl, net, done, i);
    if HasAll(pl.parts[i], net.pending[c]) {
      var x := Gathered(pl.parts[i], net.pending[c]);
      HeadNeverFails(pl, val, net, done, i, x, Ok(map[]));
      var out := PieceOutput(pl, val, i);
      RightRuns(pl, val, i, x, out);
      var list := CanAnnounce(pl.parts[i], out);
      next := AfterMessages(net, c, list);
      assert RunsWith(net, next, c, x, Ok(out), list);
    } else {
      var a := MissingColor(pl.parts[i], net.pending[c]);
      var m := LeastIsServed(pl, order, val, net, done, i, a);
      next := Net(net.queues, net.pending[c := net.pending[c][a := m.output]], net.bag - multiset{m}, net.finals);
      assert Arrives(net, next, m);
    }
  }

  lemma RightRuns(pl: Plan, val: Values, i: nat, x: InputData, out: OutputData)
    requires RunsRight(pl, val, i, x, out)
    ensures i < |pl.parts| && Computes(pl.parts[i].graph, x, Ok(out)) && Delivers(pl.parts[i], out)
  {}

  lemma MissingColor(p: Partition, pending: map<Color, IO>) returns (a: Color)
    requires !HasAll(p, pending)
    ensures a in p.children && a !in pending
  {
    a :| a in p.children && a !in pending;
  }

  lemma AtHead(pl: Plan, net: Net, done: set<nat>, i: nat)
    requires i < |pl.parts| && i !in done && (forall j :: 0 <= j < i ==> j in done) && InvQueues(pl, net, done)
    ensures var c := pl.parts[i].color;
      c in net.queues && c in net.pending && net.queues[c] != [] && net.queues[c][0] == pl.parts[i]
  {
    var c := pl.parts[i].color;
    assert c in Colors(pl.parts);
    assert FirstOf(pl.parts, c, done, i);
    QueueHead(pl.parts, c, done, i, |pl.parts|);
  }

  ghost predicate CanGoOn(net: Net) {
    exists next :: NetStep(net, next)
  }

  /** Deadlock freedom: until every queue is empty some partition can run or some message can arrive. */
  lemma NeverDeadlocked(pl: Plan, order: seq<NodeId>, val: Values, nets: seq<Net>)
    requires Meant(pl, val) && NetExecution(pl.parts, nets) && !AllDone(nets[|nets| - 1])
    requires IsDagOrder(pl.g, true, order) && Ordered(order, pl.comps)
    ensures CanGoOn(nets[|nets| - 1])
  {
    assert |nets| >= 1;
    hide Meant, NetExecution, NetInv, AllDone, NetStep, IsDagOrder, Ordered;
    var done := NetInvAlong(pl, val, nets, |nets| - 1);
    var next := CanStep(pl, order, val, nets[|nets| - 1], done);
  }
}
