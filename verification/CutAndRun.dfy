/** What `partition_by` returns, run by the per-color queues. */
module CutAndRun {
  import opened PortGraph
  import opened DagOrder
  import opened Denotation
  import opened SchedulerState
  import opened Components
  import opened Partitions
  import opened PartitionSchedulers
  import opened PartitionMessages
  import opened CutMeaning
  import opened Distributed
  import opened NoFailure

  /** One queue per color, with nothing received and no message sent. */
  ghost function StartNet(queues: map<Color, seq<Partition>>): Net {
    Net(queues, map c | c in queues :: map[], multiset{}, multiset{})
  }

  /** The graph is a legal execution, and its cut sends each value from the only sink of a piece to the only source of another
      that has no raw inputs, at most one from color to color. */
  ghost predicate Runnable(pl: Plan) {
    && LeavesAtSink(pl) && EntersAtSource(pl) && OneEdgePerColorPair(pl.g)
    && Legal(pl.g, AtPortZero(pl.inputs))
  }

  lemma QueuesAre(parts: seq<Partition>, queues: map<Color, seq<Partition>>)
    requires QueuesOf(parts, |parts|, queues)
    ensures InitNet(parts) == StartNet(queues)
  {
    hide Queue;
    var net := InitNet(parts);
    assert net.queues.Keys == queues.Keys == Colors(parts);
    assert net.queues == queues;
  }

  lemma LegalGraph(g: ExecGraph, x: InputData)
    requires Legal(g, x)
    ensures EndpointsExist(g) && IsDag(g)
  {
    hide IsDag, EnoughOutputs;
  }

  /** The queues `partition_by` returns are where the runs of a well-cut plan start. */
  lemma CutStarts(pl: Plan, queues: map<Color, seq<Partition>>, order: seq<NodeId>)
    requires CutAs(pl.g, pl.inputs, queues, order, pl.comps, pl.parts) && Runnable(pl)
    ensures WellCut(pl) && InitNet(pl.parts) == StartNet(queues)
  {
    hide IsDagOrder, AllComponents, Separate, Ordered, CutInto, QueuesOf, AllMembers, LeavesAtSink, EntersAtSource, OneEdgePerColorPair,
         Legal, IsDag, EndpointsExist, Partitioned;
    LegalGraph(pl.g, AtPortZero(pl.inputs));
    CoversDag(pl.g, order, pl.comps);
    QueuesAre(pl.parts, queues);
  }

  ghost predicate StartsAt(nets: seq<Net>, queues: map<Color, seq<Partition>>) {
    && |nets| >= 1 && nets[0] == StartNet(queues)
    && forall k :: 0 <= k < |nets| - 1 ==> NetStep(nets[k], nets[k + 1])
  }

  /** Cutting a graph and running the queues gives what running the graph gives: every run of them can be continued until
      all queues are empty, and has then sent to no color exactly the outputs of direct evaluation. */
  lemma CutThenRun(pl: Plan, queues: map<Color, seq<Partition>>, order: seq<NodeId>, val: Values, nets: seq<Net>)
    requires StartsAt(nets, queues)
    requires CutAs(pl.g, pl.inputs, queues, order, pl.comps, pl.parts) && Runnable(pl)
    requires IsValuation(pl.g, AtPortZero(pl.inputs), val)
    ensures var last := nets[|nets| - 1];
      if AllDone(last) then last.finals == ValuesOf(GraphOutputs(pl.g, val)) && last.bag == multiset{} else CanGoOn(last)
  {
    hide IsDagOrder, AllComponents, Separate, Ordered, CutInto, QueuesOf, AllMembers, Runnable, WellCut, IsValuation, AllDone, GraphOutputs,
         CanGoOn, NetStep, StartNet, InitNet;
    CutStarts(pl, queues, order);
    assert NetExecution(pl.parts, nets);
    if AllDone(nets[|nets| - 1]) {
      DistributedRefines(pl, val, nets);
    } else {
      NeverDeadlocked(pl, order, val, nets);
    }
  }

  ghost predicate Finishes(nets: seq<Net>, queues: map<Color, seq<Partition>>) {
    StartsAt(nets, queues) && AllDone(nets[|nets| - 1])
  }

  ghost predicate CanFinish(queues: map<Color, seq<Partition>>) {
    exists nets: seq<Net> :: Finishes(nets, queues)
  }

  ghost predicate HasMeaning(pl: Plan) {
    exists val :: IsValuation(pl.g, AtPortZero(pl.inputs), val)
  }

  /** Any run goes on to a finished one. */
  lemma {:induction false} GoesOn(pl: Plan, queues: map<Color, seq<Partition>>, order: seq<NodeId>, val: Values, nets: seq<Net>)
    requires StartsAt(nets, queues)
    requires CutAs(pl.g, pl.inputs, queues, order, pl.comps, pl.parts) && Runnable(pl)
    requires IsValuation(pl.g, AtPortZero(pl.inputs), val)
    ensures CanFinish(queues)
    decreases |pl.parts| + |CrossingEdges(pl.g)| + 1 - |nets|
  {
    hide CutAs, Runnable, WellCut, IsValuation, AllDone, GraphOutputs, NetStep, StartNet, InitNet, CrossingEdges, CanGoOn;
    CutThenRun(pl, queues, order, val, nets);
    if !AllDone(nets[|nets| - 1]) {
      CutStarts(pl, queues, order);
      assert NetExecution(pl.parts, nets);
      DistributedRefines(pl, val, nets);
      var next := NextNet(nets[|nets| - 1]);
      GoesOn(pl, queues, order, val, nets + [next]);
    } else {
      assert Finishes(nets, queues);
    }
  }

  lemma NextNet(net: Net) returns (next: Net)
    requires CanGoOn(net)
    ensures NetStep(net, next)
  {
    hide NetStep;
    next :| NetStep(net, next);
  }

  /** The queues can be emptied if and only if the graph has a meaning, that is, direct evaluation does not fail. And without
      assuming that it has one: every run that empties them has sent to no color exactly its outputs. */
  lemma CutFinishesIff(pl: Plan, queues: map<Color, seq<Partition>>, order: seq<NodeId>)
    requires CutAs(pl.g, pl.inputs, queues, order, pl.comps, pl.parts) && Runnable(pl)
    ensures CanFinish(queues) <==> HasMeaning(pl)
    ensures forall nets: seq<Net> :: Finishes(nets, queues) ==> EndsRight(pl, nets)
  {
    hide CutAs, Runnable, IsValuation, Finishes, StartNet, EndsRight, StartsAt;
    forall nets: seq<Net> | Finishes(nets, queues)
      ensures EndsRight(pl, nets) && HasMeaning(pl)
    {
      RunEndsRight(pl, queues, order, nets);
    }
    if val :| IsValuation(pl.g, AtPortZero(pl.inputs), val) {
      JustStarted(queues);
      GoesOn(pl, queues, order, val, [StartNet(queues)]);
    }
  }

  lemma JustStarted(queues: map<Color, seq<Partition>>)
    ensures StartsAt([StartNet(queues)], queues)
  {}

  /** At the end the graph has a meaning, the messages to no color are its outputs, and no other message is left. */
  ghost predicate EndsRight(pl: Plan, nets: seq<Net>) {
    && |nets| >= 1 && nets[|nets| - 1].bag == multiset{}
    && exists val :: IsValuation(pl.g, AtPortZero(pl.inputs), val) && nets[|nets| - 1].finals == ValuesOf(GraphOutputs(pl.g, val))
  }

  lemma RunEndsRight(pl: Plan, queues: map<Color, seq<Partition>>, order: seq<NodeId>, nets: seq<Net>)
    requires Finishes(nets, queues)
    requires CutAs(pl.g, pl.inputs, queues, order, pl.comps, pl.parts) && Runnable(pl)
    ensures EndsRight(pl, nets) && HasMeaning(pl)
  {
    hide CutAs, Runnable, WellCut, IsValuation, AllDone, GraphOutputs, NetStep, StartNet, InitNet;
    CutStarts(pl, queues, order);
    assert NetExecution(pl.parts, nets);
    var val := FinishedHasMeaning(pl, nets);
    CutThenRun(pl, queues, order, val, nets);
  }
}
