# Verified model of the deep-prove execution graph and its companions

This project models, in Dafny 4.11, the parts of the repository whose behaviour spans many steps, and proves what
they are for:

* **The execution-graph engine** (`zkml/src/graph`). A port graph whose edges carry data from output ports to input
  ports; the topological iterator; the push/pull scheduler; the sequential and the thread-pool executor; the
  partitioner that cuts a graph by color; and the per-color queues that run the pieces and exchange messages. A graph
  has one meaning, defined without any scheduling: every node is its operation applied to the values of its incoming
  edges and its external data in port order (`Denotation.IsValuation`). Both executors compute it, in any completion
  order and under either release policy; and so does every interleaving of the distributed run of its pieces.
* **The radix-2 FFT** (`zkml/src/fft.rs`), in place on an array, against the defining sum of the discrete Fourier
  transform over an unspecified prime field, and its inverse.
* **The fountain code** (`arkhe-soc-tlm`): frame format, encoder, and the peeling decoder with its three linked
  indexes. Whatever honest frames arrive in whatever order, lost, repeated or of other sessions, every decoded block
  is a block of the current session's source, and which blocks are known is determined by the frames since the session
  last changed: `FountainPeeling` says how.
* **Multilinear-extension arithmetic** (`zkml/src/lib.rs`, `zkml/src/shape.rs`, `zkml/src/layers/add.rs`): the closed
  forms against sums over all index pairs, the decomposition of a padded tensor into its two-dimensional pieces, and
  the quantised addition layer.
* **The prefetch worker** (`tenstore/src/remote/client.rs`): a key is being prefetched exactly when one task or one
  queued result exists for it; in every interleaving of commands and tasks each GET is answered exactly once, and every
  answer goes back to the step that decided it.

## How it is laid out

| files | content |
|---|---|
| `Wrappers`, `Arithmetic`, `Field`, `Sums` | result types, small facts about sets and division, the prime field, vectors over it |
| `PortGraph`, `DagOrder` | the port-graph invariant and edge insertion; the greedy topological scan |
| `Denotation`, `Scheduler`, `GraphScheduler`, `Executors` | the meaning of a graph; the scheduler's transitions and every interleaving of them; the scheduler object; the two executors |
| `Components`, `Subgraph`, `Partition`, `PartitionScheduler`, `PartitionMessages` | the color components, the graph built for each, `partition_by`, the per-color queue and the messages it returns |
| `CutMeaning`, `CutFlow`, `Distributed`, `NoFailure` | what one piece computes, how values flow between pieces, every distributed run; operations that fail |
| `CutAndRun`, `PartitionDriver`, `CutExample` | from `partition_by` to the run of its queues; the queue objects as steps of that run; a graph that meets the assumptions and one that does not |
| `Fft` | bit reversal, butterflies, transform and inverse |
| `FountainCodec`, `Fountain` | byte formats; draws, XOR and encoder |
| `FountainPeeling`, `FountainDecoder`, `FountainSimulation` | what a decoder knows after a list of frames; the decoder; encoder, channel and decoder together |
| `Mle`, `Shape`, `AddLayer` | equality polynomial, zeroifier, shapes, decomposition, addition layer |
| `Prefetch` | the client worker |

Code that updates state in place is a class or a method with loops, proved against functions on values; the theorems
about whole runs are about those functions. Node operations, the ChaCha draws, BLAKE3, the field's modulus, colors and
data are unspecified: what is proved holds for all of them. A node operation is a function from its inputs to its
outputs or to failure.

## What the graph theorems assume

These are demands of the code, stated in `SchedulerState.Legal` and `CutMeaning.WellCut`:

* execution edges carry one link each (`zkml/src/graph/scheduler.rs:455-458`), the graph is acyclic, and an operation
  that succeeds produces every output an edge takes (`zkml/src/graph/scheduler.rs:461` indexes without a check);
* every topological source has external data. The executors do not end otherwise:
  `SchedulerState.UnfedNeverFinishes`;
* external data for a port that an edge also feeds replaces the edge's value, as the later insertion does in
  `zkml/src/graph/scheduler.rs:520-531`; nothing is assumed about such collisions, the meaning of the graph says the same;
* for the distributed run: edges between colors leave a piece at its only sink and enter one without raw inputs at its
  only source, and at most one edge leads from one color to another. `child_partition` and `pending_child_outputs` are
  keyed by color, so a piece with two senders of one color is accepted by `partition_by` but run with an input missing:
  `CutExample.TwoSendersMissInput` is such a graph, and `CutFlow.GathersAllIff` says exactly when it happens. A message is handed over only when the first partition
  of the queue expects it; `set_child_output` refuses it otherwise and leaves retrying to its caller.

## Where documentation and code differ

The code is followed in each case. `init_nodes` documents an error for a wrong number of inputs; there is none.
`try_run_partition` documents `Some` and `None` results; it returns a possibly empty list, and a partition whose
execution fails has already left the queue. `UniqueColoring` documents that at most one node of each color runs at any
time; but `init_nodes` does not consult the policy, so two sources of one color run together
(`SchedulerState.TwoSourcesClash`). The promise holds in every run if and only if no two sources that are given data share
a color (`SchedulerState.OnePerColorIff`). `find_remaining_block` draws indices for the
reduced degree, so the only block it can find for a frame with one unknown block is the frame's first draw: the
decoder is sound, but a frame may stay pending with a single unknown block. Which frames do is settled before the call
(`FountainPeeling.LeftWithOne`), and a decoder knows all that peeling can find if and only if none of its pending frames
has degree one (`FountainPeeling.IdealIff`). So the order of arrival matters: a frame that drew blocks i and j followed by
one that drew i leaves j unknown (`FountainPeeling.PairFirst`), the same two the other way round do not
(`FountainPeeling.PairLast`).

## Model

| member | source | states |
|---|---|---|
| PortGraph.AddEdgeExact | zkml/src/graph/graph.rs:646-683 | an edge is accepted if and only if the graph with it is still a port graph: endpoints exist, no loop or parallel edge, no input port fed twice, ports without gaps |
| PortGraph.AddEdgeErrors | zkml/src/graph/graph.rs:646-683 | each error names what is wrong: a loop, a missing end, an edge between the same nodes, a port fed twice, a gap |
| PortGraph.GraphStore.AddEdgesRaw | zkml/src/graph/graph.rs:646-683 | edges are added one by one, each under its identifier and nothing else changed; the port-graph invariant survives success and rejection, and a rejected edge would have broken it |
| PortGraph.PortsIntoAfterAdd | zkml/src/graph/graph.rs:796-827 | an accepted edge adds exactly its target ports to its target and none elsewhere |
| DagOrder.Scan | zkml/src/graph/graph.rs:913-943 | the iterator emits at each step the least (forward) or greatest (backward) free node and stops when none is free; no other order does |
| DagOrder.OrderIsTopological | zkml/src/graph/graph.rs:913-943 | no node twice, and every edge goes from an earlier to a later node (reversed for the backward iterator) |
| DagOrder.LexicographicallyLeast | zkml/src/graph/graph.rs:913-943 | the forward order is the lexicographically least of all topological orders, the backward one the greatest of all reverse ones |
| DagOrder.EmittedExactly | zkml/src/graph/graph.rs:913-943 | on any graph the forward iterator emits exactly the nodes that no cycle leads to |
| DagOrder.CoversIffDag | zkml/src/graph/graph.rs:913-943 | either iterator emits every node if and only if the graph is acyclic |
| Denotation.InPortOrderIsIndexed | zkml/src/graph/scheduler.rs:509-538 | values taken from the ordered map of ports are indexed by port when the ports are 0..k |
| Denotation.InputsByPort | zkml/src/graph/scheduler.rs:509-538 | a node without external data gets at position `link.targetPort` the output `link.sourcePort` of the source of each edge, with no gap |
| Denotation.InputsByLink | zkml/src/graph/scheduler.rs:509-538 | any node gets one argument for every port that a link or external data feeds, by increasing port: the external data where there is some, and else the output its link names |
| Denotation.OutputsByLink | zkml/src/graph/scheduler.rs:438-467 | the outputs of the graph are the values at the output ports that no link leaves |
| Denotation.ValuationUnique | zkml/src/graph/executor.rs:100-123 | an acyclic graph has at most one meaning on given data |
| Denotation.ValuationExists | zkml/src/graph/executor.rs:100-123 | it has one whenever no operation fails |
| SchedulerState.InitInv | zkml/src/graph/scheduler.rs:365-408 | initialisation establishes the scheduler invariant |
| SchedulerState.AllOutgoingFilled | zkml/src/graph/scheduler.rs:443-462 | no target of a completing node is running or done, so every outgoing edge is filled |
| SchedulerState.CompleteKeepsInv | zkml/src/graph/scheduler.rs:429-468 | completion of a running node keeps the invariant: edge contents, waiting data, collected outputs |
| SchedulerState.ReleaseKeepsInv | zkml/src/graph/scheduler.rs:500-538 | release keeps the invariant, and the node gets exactly its inputs in port order |
| SchedulerState.Progress | zkml/src/graph/scheduler.rs:481-498 | when nothing runs and the graph is not done, some node is ready |
| SchedulerState.DoneMeansAll | zkml/src/graph/scheduler.rs:547-549 | comparing sizes is enough: in every reachable state the check for completion holds exactly when every node is done |
| SchedulerState.FinishedRun | zkml/src/graph/scheduler.rs:547-549 | at the end every node is evaluated, every edge is empty and no data waits |
| SchedulerState.Confluence | zkml/src/graph/executor.rs:175-236 | for every completion order and policy a finished run has produced exactly the outputs that no edge takes, with the values of the graph's meaning |
| SchedulerState.RunLength | zkml/src/graph/executor.rs:108-121 | a run is finished exactly when each node has been released once and completed once, and no run is longer |
| SchedulerState.NeverStuck | zkml/src/graph/executor.rs:194-233 | no unfinished run is stuck: a node can be released, or every running node that succeeds can complete |
| SchedulerState.UnfedNeverFinishes | zkml/src/graph/executor.rs:108-121 | with a source that has no data no run ever finishes |
| SchedulerState.EdgeLife | zkml/src/graph/scheduler.rs:443-533 | in every finished run each edge is empty, then full with its source's value, then empty for good |
| SchedulerState.ReleaseSafety | zkml/src/graph/scheduler.rs:201-216 | under `UniqueColoring` two running nodes of one color are both sources, in every reachable state |
| SchedulerState.OnePerColorIff | zkml/src/graph/scheduler.rs:192-216 | at most one node of each color runs, in every state of every run under `UniqueColoring`, if and only if the fed sources have different colors |
| SchedulerState.TwoSourcesClash | zkml/src/graph/scheduler.rs:396-406 | two unconnected fed nodes of one color are a legal execution in which both run at once |
| GraphSchedulers.GraphScheduler.InitNodes | zkml/src/graph/scheduler.rs:365-408 | refused unless fresh; otherwise exactly the nodes without predecessors that have data start, each once with its data in port order, and the data of the others waits |
| GraphSchedulers.GraphScheduler.MarkDone | zkml/src/graph/scheduler.rs:429-468 | every edge to a node not yet started gets the output that its one link names, no other edge changes, and exactly the outputs that no such link names are reported; the new state in each error case too |
| SchedulerState.MarkDoneByLink | zkml/src/graph/scheduler.rs:443-467 | the same of the transition on values that the theorems on runs are about |
| GraphSchedulers.GraphScheduler.FillEdges | zkml/src/graph/scheduler.rs:443-462 | sets exactly the weights of the edges to nodes not yet started, unless one has not one link |
| GraphSchedulers.GraphScheduler.TakeInputs | zkml/src/graph/scheduler.rs:509-531 | empties the incoming edges and the waiting data of the node into its argument list |
| GraphSchedulers.GraphScheduler.NextReadyNodes | zkml/src/graph/scheduler.rs:481-541 | each released node had all its edges filled, and under `UniqueColoring` shares its color with no node running or released before; a node that could run and is left behind shares its color with a running one, and under `All` none is left |
| Executors.RunSequential | zkml/src/graph/executor.rs:100-123 | returns the outputs of the graph's meaning, and fails if and only if there is none |
| Executors.RunThreadPool | zkml/src/graph/executor.rs:175-236 | the same for workers that finish in any order |
| Executors.ExecutorsAgree | zkml/src/graph/executor.rs:94-236 | two executors that compute the graph both fail or return the same map |
| Executors.ChainDriving | zkml/src/graph/scheduler.rs:500-541 | a batch of releases keeps the driver's invariant and hands out every released node once |
| Components.Search | zkml/src/graph/partition.rs:647-665 | the depth-first search finds exactly the nodes connected to its start by same-color edges |
| Components.FindComponents | zkml/src/graph/partition.rs:629-665 | the components are disjoint, cover the graph, and come in the order of their first nodes |
| Components.ComponentsExact | zkml/src/graph/partition.rs:629-665 | two nodes are in one piece if and only if a walk over same-color edges connects them |
| Components.CutEdgesChangeColor | zkml/src/graph/partition.rs:654-664 | an edge that leaves a piece joins different colors, so no same-color edge is cut |
| Subgraphs.AcceptedIffFits | zkml/src/graph/partition.rs:681-690 | the next edge is accepted exactly when its ports close up with those added before it |
| Subgraphs.BuildSub | zkml/src/graph/partition.rs:667-690 | building succeeds exactly when the numbering of the edges leaves no gap, and gives the whole induced subgraph |
| Subgraphs.GrowsInOrder | zkml/src/graph/graph.rs:646-683 | a graph grown by accepted edges with increasing numbers can be rebuilt in that order |
| Partitions.ChildrenOf | zkml/src/graph/partition.rs:741-757 | the children are the colors of the predecessors of the source, each with an input it feeds |
| Partitions.ParentsOf | zkml/src/graph/partition.rs:808-819 | the parents are the colors of the successors of the sink, each with the output that its link names; refused exactly when two edges lead to one color |
| Partitions.Describe | zkml/src/graph/partition.rs:718-830 | a partition is described exactly when the checks on its source, sink, parents and children hold |
| Partitions.PartitionBy | zkml/src/graph/partition.rs:624-846 | the cut is accepted if and only if every check passes; each part has exactly the raw inputs addressed to its nodes, and each color its pieces in the order found |
| Partitions.AcceptedIff | zkml/src/graph/partition.rs:694-830 | the checks amount to this, on the graph itself: one root, and each component either has a raw input or one entry that some link feeds, and one exit over single links, to different colors unless it is the root |
| Partitions.NeverOwnColor | zkml/src/graph/partition.rs:741-819 | a piece never receives from its own color nor sends to it, so those two checks never fail |
| Partitions.AsMapAt | zkml/src/graph/partition.rs:762-775 | a node has a raw input exactly when it occurs in the list, and then that of its last occurrence |
| PartitionSchedulers.RawInputIsFirst | zkml/src/graph/partition.rs:386-394 | a node with a raw input gets it as its first argument, the others get nothing from outside |
| PartitionSchedulers.PartitionScheduler.New | zkml/src/graph/partition.rs:295-322 | accepts exactly a non-empty queue of one color whose graphs have one sink each |
| PartitionSchedulers.PartitionScheduler.TryRunPartition | zkml/src/graph/partition.rs:356-449 | nothing happens while a value is missing; otherwise the first partition is run on its gathered values, leaves the queue, and its outputs go to its parents, the others being final |
| PartitionSchedulers.PartitionScheduler.SetChildOutput | zkml/src/graph/partition.rs:502-520 | kept if and only if the first partition expects that color |
| PartitionSchedulers.Announce | zkml/src/graph/partition.rs:409-446 | one message per parent and one per remaining output, or an error exactly when a promised output is missing |
| PartitionMessages.AnnouncedExactly | zkml/src/graph/partition.rs:409-446 | in whatever order it is built, the returned list holds one message per parent color and each remaining output exactly once |
| CutMeaning.PieceLegal | zkml/src/graph/partition.rs:356-405 | a piece given the values of its crossing edges, or its raw inputs, is a legal execution |
| CutMeaning.PieceMeaning | zkml/src/graph/partition.rs:356-405 | on them the piece means what the whole graph means at its nodes |
| CutFlow.PieceDelivers | zkml/src/graph/partition.rs:794-822 | every output a piece promises is free in it, and carries the output that the link of its crossing edge names |
| CutFlow.PieceFinals | zkml/src/graph/partition.rs:412-446 | what a piece does not send are exactly the outputs of the whole graph at its nodes |
| CutFlow.GathersRight | zkml/src/graph/partition.rs:363-392 | what a piece gathers from its pending values at the target port of each crossing link is the output that the link names |
| CutFlow.GathersAllIff | zkml/src/graph/partition.rs:741-757 | a piece is given the value of every crossing edge into it if and only if these come from different colors |
| CutFlow.SendersFirst | zkml/src/graph/partition.rs:635-692 | the quotient graph is acyclic in queue order: a value goes from a piece to a later one |
| CutAndRun.CutStarts | zkml/src/graph/partition.rs:624-846 | the queues `partition_by` returns are where the runs of a well-cut plan start, whenever the graph is a legal execution whose values cross from sink to source, one from color to color |
| CutAndRun.CutThenRun | zkml/src/graph/partition.rs:356-846 | cutting and running the queues in any interleaving can always go on until they are empty, and has then produced exactly the outputs of direct evaluation |
| Distributed.HeadNeverFails | zkml/src/graph/partition.rs:356-449 | in every reachable net a first partition that has its values runs legally and returns what the graph means |
| Distributed.NetStepKeeps | zkml/src/graph/partition.rs:356-520 | every run of a partition and every arrival of a message keeps the invariant and does one unit of work |
| Distributed.DistributedRefines | zkml/src/graph/partition.rs:356-520 | in every interleaving the messages to no color never exceed the outputs of the graph; at the end they are, as a multiset, exactly those of direct evaluation, and no message is left; the number of steps is fixed |
| NoFailure.FinishedHasMeaning | zkml/src/graph/partition.rs:356-449 | a run that empties all queues shows that the graph has a meaning: no operation fails on the inputs it has there |
| CutAndRun.CutFinishesIff | zkml/src/graph/partition.rs:356-846 | the queues `partition_by` returns can be emptied if and only if direct evaluation does not fail; and every run that empties them has produced exactly its outputs, without assuming that there are any |
| Distributed.NeverDeadlocked | zkml/src/graph/partition.rs:356-520 | until all queues are empty some partition can run or some message can arrive |
| PartitionDriver.RunFirst | zkml/src/graph/partition.rs:356-449 | on a queue of a reachable net the method either changes nothing because a value is missing, or succeeds, its new state and messages being one step of the net; nothing else is asked of the piece |
| PartitionDriver.Deliver | zkml/src/graph/partition.rs:502-520 | a message that the first partition expects is taken, as one step of the net; any other leaves it alone |
| CutExample.TwoPiecesAreTheCut | zkml/src/graph/partition.rs:624-846 | the assumptions can be met by what `partition_by` returns: it accepts a node of one color feeding a node of another, cuts it into the two, and the cut is a well-cut plan |
| CutExample.TwoSendersMissInput | zkml/src/graph/partition.rs:741-757 | two nodes of one color that feed a node of another are a legal execution and are accepted, but the piece of the fed node is run without one of its inputs, whatever has arrived |
| Fft.PermutationReversesIndex | zkml/src/fft.rs:15-18 | shifting down the reversed machine word reverses the low bits of the index |
| Fft.Bitreverse | zkml/src/fft.rs:24-32 | the swaps leave at each place the entry of the reversed index |
| Fft.CombineHalves | zkml/src/fft.rs:66-74 | butterflies of the transforms of the even and odd entries give the transform |
| Fft.StageStep | zkml/src/fft.rs:64-77 | a pass of the outer loop takes the chunks of one depth to those of the next |
| Fft.Stages | zkml/src/fft.rs:64-77 | the loop turns bit-reversed entries into the transform |
| Fft.DftInversion | zkml/src/fft.rs:51-77 | transforming with the inverse root multiplies every vector by its length |
| Fft.RoundTrip | zkml/src/fft.rs:38-88 | the inverse undoes the transform and the transform undoes the inverse, for every vector |
| Fft.Fft | zkml/src/fft.rs:38-88 | the array becomes its transform or inverse transform by the defining sum; each failure with the array it leaves |
| LittleEndian.LEAt | arkhe-soc-tlm/src/fountain_encoder.rs:178-187 | byte i of a field is byte i of the number, counted from the low end |
| LittleEndian.ByteValues | arkhe-soc-tlm/src/fountain_encoder.rs:178-187 | each bit of a byte has its weight, and disjoint bits add up |
| FountainFrames.HeaderFields | arkhe-soc-tlm/src/fountain_encoder.rs:176-189 | the place of each field of a frame, of its payload and of the hash of all before it |
| FountainFrames.ParseRejects | arkhe-soc-tlm/src/fountain_decoder.rs:23-38 | refused exactly when too short, without the magic number, or not ending with the hash of the rest |
| FountainFrames.ParseEncode | arkhe-soc-tlm/src/fountain_decoder.rs:23-51 | parsing recovers every field and the payload of a frame whose fields fit |
| OrchOR.ToBytes | arkhe-soc-tlm/src/fountain_encoder.rs:24-35 | 57 bytes, the fields in order, least significant byte first |
| OrchOR.FromBytes | arkhe-soc-tlm/src/fountain_encoder.rs:37-59 | fails exactly below 57 bytes, and returns the state of any extension of its serialised form |
| FountainDraws.SelectedPrefix | arkhe-soc-tlm/src/fountain_decoder.rs:53-61 | the indices for a smaller degree are a prefix of those for a larger one |
| FountainDraws.XorOutMore | arkhe-soc-tlm/src/fountain_decoder.rs:163-178 | removing one selected block from the XOR is one more XOR, in any order |
| FountainDraws.XorOutOne | arkhe-soc-tlm/src/fountain_decoder.rs:196-207 | when one block is left, the XOR is that block |
| FountainEncoding.SeedsDiffer | arkhe-soc-tlm/src/fountain_encoder.rs:157 | different sequence numbers have different seeds |
| FountainEncoding.FountainEncoder.constructor | arkhe-soc-tlm/src/fountain_encoder.rs:135-153 | the blocks in order are the data followed by zeros |
| FountainEncoding.Select | arkhe-soc-tlm/src/fountain_encoder.rs:160-166 | the first d distinct draws, in order |
| FountainEncoding.FountainEncoder.NextFrame | arkhe-soc-tlm/src/fountain_encoder.rs:155-191 | the frame of the current sequence number: the XOR of the blocks its seed selects |
| FountainEncoding.FountainEncoder.GenerateFrames | arkhe-soc-tlm/src/fountain_encoder.rs:193-195 | the frames of consecutive numbers, wrapping at 32 bits |
| FountainEncoding.HonestArrives | arkhe-soc-tlm/src/fountain_encoder.rs:155-191 | a frame whose numbers fit 16 and 32 bits is parsed as it was sent |
| FountainDecoding.SourceIndices | arkhe-soc-tlm/src/fountain_decoder.rs:53-61 | the set the encoder selected, in some order |
| FountainDecoding.FountainDecoder.PropagateResolution | arkhe-soc-tlm/src/fountain_decoder.rs:163-178 | a known block leaves every frame that names it: degrees, payloads and the index stay exact |
| FountainDecoding.FountainDecoder.FindRemainingBlock | arkhe-soc-tlm/src/fountain_decoder.rs:217-226 | finds a block among those drawn for the reduced degree, and none exactly when they are all decoded |
| FountainDecoding.FountainDecoder.PeelCascade | arkhe-soc-tlm/src/fountain_decoder.rs:180-215 | ends, keeps the peeling invariant, and knows exactly the least set that holds what was known and the first draw of each pending frame whose other draws it holds; the frames left with one unknown block are those stuck on a block, as the state before the call tells |
| FountainDecoding.FountainDecoder.Peel | arkhe-soc-tlm/src/fountain_decoder.rs:190-213 | a frame gives a block if and only if its first draw is its only unknown block, and gives that one |
| FountainPeeling.LeftWithOne | arkhe-soc-tlm/src/fountain_decoder.rs:180-226 | a pending frame is left with exactly the unknown block i if and only if, from the state before, i cannot be found and all its other blocks can; and then i is not its first draw |
| FountainPeeling.IdealIff | arkhe-soc-tlm/src/fountain_decoder.rs:85-226 | for every list of frames the decoder knows only what an ideal peeling decoder knows, and all of it if and only if no pending frame has exactly one unknown block |
| FountainPeeling.PairFirst | arkhe-soc-tlm/src/fountain_decoder.rs:196-226 | after a frame that drew i and j and one that drew i, j is not found |
| FountainPeeling.PairLast | arkhe-soc-tlm/src/fountain_decoder.rs:101-161 | in the other order both are known, as an ideal peeling decoder would |
| FountainDecoding.FountainDecoder.Resolve | arkhe-soc-tlm/src/fountain_decoder.rs:109-124 | splits a frame into its unknown indices and the XOR of its known blocks |
| FountainDecoding.FountainDecoder.Store | arkhe-soc-tlm/src/fountain_decoder.rs:143-158 | the frame is added to the pending ones, listed under exactly its unknown blocks |
| FountainDecoding.FountainDecoder.Absorb | arkhe-soc-tlm/src/fountain_decoder.rs:107-160 | a frame without unknown blocks changes nothing; one with a single unknown block adds that block and all that can then be found; any other joins the pending frames, reduced |
| FountainDecoding.FountainDecoder.ReceiveFrame | arkhe-soc-tlm/src/fountain_decoder.rs:85-161 | a rejected frame changes nothing; after an honest one every decoded block is the source's block of that session, and the known blocks and pending frames are exactly those before, or none if the session changed, with the effect of this frame; the answer says whether all blocks are there |
| FountainDecoding.FountainDecoder.Reconstruct | arkhe-soc-tlm/src/fountain_decoder.rs:235-246 | nothing before completion, afterwards all blocks of the source in order |
| FountainDecoding.FountainDecoder.ReconstructOrchor | arkhe-soc-tlm/src/fountain_decoder.rs:248-251 | the complete decoder of a session that sends a state returns that state |
| FountainSimulation.ReceiveAll | arkhe-soc-tlm/src/fountain_simulation.rs:20-27 | for every list of arrivals, damaged, lost, repeated, out of order or of other sessions, the decoder is in the session of the last frame and knows what the frames since the session last changed tell, one after the other |
| FountainSimulation.Transfer | arkhe-soc-tlm/src/fountain_simulation.rs:6-29 | from the constructor of the encoder through its frames and any such arrivals to `reconstruct`: in the session it returns the data filled up with zeros exactly when every block is known, and nothing otherwise; when no other frames arrive, whatever it returns begins with the data |
| Mle.EvalsAt | zkml/src/shape.rs:587-590 | the doubling construction is the product over the bits of the index, lowest bit first |
| Mle.EvalsBoolean | zkml/src/lib.rs:111-120 | at the bits of a number the equality polynomial is one at that number and zero elsewhere |
| Mle.MleAtBits | zkml/src/lib.rs:358-369 | at the bits of an index the multilinear extension is the table's entry |
| Zeroifier.ZeroifierClosedForm | zkml/src/lib.rs:131-138 | the fold is the sum of Eq(C, c) Eq(R, r) over all pairs C <= R |
| Zeroifier.ZeroifierOnBits | zkml/src/lib.rs:131-138 | on the hypercube it is the indicator of C <= R |
| Zeroifier.InfinitizerClosedForm | zkml/src/lib.rs:144-151 | minus infinity times the sum over all pairs C > R |
| Shapes.GetIndexIsRowMajor | zkml/src/shape.rs:613-634 | succeeds exactly inside the shape, and is the row-major number; otherwise the error names the first dimension outside |
| Shapes.StrideAt | zkml/src/shape.rs:291-305 | each stride is the product of the dimensions behind it |
| Shapes.IndexRoundTrip | zkml/src/shape.rs:613-634 | every number below the size is the index of its coordinate |
| Shapes.CoordinateRoundTrip | zkml/src/shape.rs:613-634 | every coordinate inside the shape is recovered from its index |
| ShapePoints.SplitJoins | zkml/src/shape.rs:475-496 | each dimension gets its own coordinates, the first the last ones, and none is lost |
| ShapePoints.SplitPointIs | zkml/src/shape.rs:475-496 | on powers of two splitting succeeds exactly for one coordinate per variable, and slice i has the `num_vars` of dimension i |
| ShapePoints.BroadcastingClosedForm | zkml/src/shape.rs:516-562 | succeeds exactly on compatible shapes, and fails with the first dimension that does not fit; the product over the broadcast dimensions of the sums of Eq over the indices below their size, or up to the low bits of the last index where the point is too short |
| ShapePoints.EqPointAndBatchingIs | zkml/src/shape.rs:565-610 | succeeds exactly for the right point length; the reduced point is a prefix, the batching vector the outer product of the leading dimensions |
| ShapePoints.BatchingAt | zkml/src/shape.rs:583-600 | one challenge per unpadded leading coordinate, in row-major order: the product of Eq of each leading slice at its coordinate |
| ShapePoints.MleDecomposition | zkml/src/shape.rs:565-610 | the extension of a zero-padded tensor is the batched sum of those of its two-dimensional sub-tensors at the reduced point |
| ShapePoints.SubTensorAt | zkml/src/shape.rs:583-600 | sub-tensor number i, row-major in the unpadded leading dimensions, is the tensor's block at that coordinate |
| AddLayer.FitMultipliers | zkml/src/layers/add.rs:314-328 | the loop ends with at most 62 bits, shift and multipliers lowered by the excess |
| AddLayer.SumFits | zkml/src/layers/add.rs:145-164 | for inputs within their bit sizes the scaled sum stays below the intermediate bit size, so 64-bit arithmetic is exact |
| AddLayer.SumNeedsBits | zkml/src/layers/add.rs:316-321 | for all bit sizes some inputs need all of the intermediate bit size: no smaller constant would do |
| AddLayer.Wrap64Is | zkml/src/layers/add.rs:145-164 | 64-bit arithmetic is in range and off by a multiple of 2^64 only |
| AddLayer.EffectiveMultiplier | zkml/src/layers/add.rs:316-328 | each effective multiplier is lowered by less than one unit of the new last place |
| AddLayer.HonestProofVerifies | zkml/src/layers/add.rs:79-119 | the honest proof of a true output claim verifies and hands on the prover's claims |
| AddLayer.VerifiesIffTrue | zkml/src/layers/add.rs:495-535 | with or without a committed operand, a proof that holds the evaluations of the inputs verifies if and only if the output claim is true; which claims it then hands on |
| AddLayer.VerifiedClaimIsTrue | zkml/src/layers/add.rs:495-535 | whatever the proof, when it verifies and the claims it hands on are true, and the opened operand's evaluation too, the output claim is true |
| AddLayer.Refusals | zkml/src/layers/add.rs:79-119 | anything but one claim is refused by prover and verifier, and a layer that is not quantised by the prover |
| PrefetchProtocol.PrefetchedKeepsInv | tenstore/src/remote/client.rs:258-267 | the expected map entry is always there, and handling a finished prefetch keeps the invariant |
| PrefetchProtocol.GetKeepsInv | tenstore/src/remote/client.rs:402-451 | a GET, answered, subscribed or sent to the server, keeps the invariant |
| PrefetchProtocol.NeverStarves | tenstore/src/remote/client.rs:248-327 | until all tasks and results are handled some step is possible |
| PrefetchProtocol.EveryGetAnswered | tenstore/src/remote/client.rs:248-327 | left to itself the worker drains in a fixed number of steps, every GET then having exactly one answer, and each success is the value put under its key |
| PrefetchProtocol.AnsweredInEveryRun | tenstore/src/remote/client.rs:248-327 | in every interleaving of commands, finished tasks and finished prefetches from an idle worker each asked GET has at most one answer, exactly one as soon as nothing is in flight, which is exactly when no step is left, and each success is the value put under its key |
| PrefetchProtocol.AnswerCauses | tenstore/src/remote/client.rs:248-451 | in every interleaving each answer was decided in one step: the value of a key held when asked; the error of a GET whose key was not held and had a subscriber; or what the fetch of the GET, or of the prefetch of its key, returned |
| PrefetchProtocol.HeldIsAnswered | tenstore/src/remote/client.rs:402-407 | a GET of a key that is held when it is asked is answered at once with its value |
| PrefetchProtocol.GetOutcome | tenstore/src/remote/client.rs:402-451 | answered at once with the value exactly when held, with an error exactly when another GET waits for the prefetch, waiting exactly when none does, fetched exactly when neither held nor on its way |
| PrefetchProtocol.PrefetchOutcome | tenstore/src/remote/client.rs:349-371 | a prefetch goes to the server exactly when the key is neither held nor on its way |
| PrefetchProtocol.PrefetchedOutcome | tenstore/src/remote/client.rs:258-267 | the subscriber gets the result; without one a success is held from then on, if the local store works |
| PrefetchProtocol.PrefetchedThenHeld | tenstore/src/remote/client.rs:258-451 | once a prefetch has worked, a GET of the key is answered from the local store |
| PrefetchProtocol.SubscriberServed | tenstore/src/remote/client.rs:258-451 | a GET that comes during the prefetch gets its result without another fetch |
| PrefetchProtocol.CleanUpOutcome | tenstore/src/remote/client.rs:373-400 | after a clean-up none of the keys is held, and every other one still is |
| PrefetchProtocol.FetchOutcome | tenstore/src/remote/client.rs:453-480 | a fetch fails or returns what was put under the key and is still on the server |
| PrefetchProtocol.ClientWorker.Prefetch | tenstore/src/remote/client.rs:349-371 | nothing for a key held or on its way, else one task and one entry |
| PrefetchProtocol.ClientWorker.Get | tenstore/src/remote/client.rs:402-451 | the new state in each of the four cases |
| PrefetchProtocol.ClientWorker.HandlePrefetched | tenstore/src/remote/client.rs:258-267 | the result goes to the subscriber, or else to the local store |
| PrefetchProtocol.ClientWorker.FinishTask | tenstore/src/remote/client.rs:358-369 | a finished task queues its result or answers its GET |

## Left out

- Node and edge identifiers: a partition's edges keep the identifiers of the graph they come from, where the code draws fresh ones; only their order matters and it is kept.
- Input and output nodes of the general graph, edge weights of other types, `remove_edge`, `replace_inner` and the mapping functions: one-step updates.
- Executors.RunThreadPool: threads and channels are a bag of handed-out nodes from which any may finish next. When a node fails, the code drops the receiver, and a task that is still running then panics as it sends; the model returns the error.
- Partitions.PartitionBy: pieces are checked in the order found and not color by color, which only changes which of several errors is reported.
- Distributed.DistributedRefines: is about graphs that have a meaning. `CutAndRun.CutFinishesIff` needs none, but says of a run in which an operation fails only that it does not empty the queues.
- PartitionSchedulers.PartitionScheduler.TryRunPartition: is specified for first partitions that are legal executions; on others the executor does not end, or fails. `PartitionDriver.RunFirst` shows that no other is met in a run of a well-cut plan.
- FountainDecoding.FountainDecoder.ReceiveFrame: frames with a valid hash come from an encoder; a frame that announces more payload than it carries makes the code panic and is excluded.
- FountainEncoding.FountainEncoder.NextFrame: the degree is an argument; the soliton distribution is floating-point. That d distinct indices are drawn sooner or later is assumed of the generator.
- The probability of decoding: it is about the distribution of degrees.
- FountainSimulation.ReceiveAll: goes on after completion, where the simulation stops, and skips rejected frames, where it panics.
- AddLayer.FitMultipliers: starts from integer multipliers and shift; the floating-point logarithms and powers before it are not modelled. The shift is assumed not to underflow.
- The comparison of scales cast to `u64` and back in the addition layer's verifier: always true for 64-bit scales.
- Transcripts, commitments and the sumcheck protocols around the layers.
- ShapePoints.BroadcastingClosedForm: the panic of the code at a broadcast dimension of size zero is an error of its own, `Underflow`.
- Mle.EvalsAt: `evals` belongs to another crate; its order of doubling, lowest bit first, is taken from how the repository uses it.
- Rayon's parallel loops in the FFT: the chunks are disjoint and are processed in sequence.
- Shutdown of the prefetch worker, HTTP retries, encodings and metrics; the server is a map that may fail to answer. PUT blocks the worker and is one step.
- `DiskStore`: the local store is a map whose `store` may fail.
