# A verified model of the distributed inference runtime

The runtime splits a language model over machines in three ways: into pipeline stages (PP), into
tensor-parallel slices (TP) and into slices of the sequence (SP). On every machine a pool of threads
runs an op program behind a barrier. This project models the protocols, the program transformations
and the fast kernels that make this work, and proves that they do what a single machine running one
thread would do, or says exactly when they do not.

Tensor elements are exact reals. Objects whose methods update fields are classes, loops over buffers
are methods over arrays with invariants, and each such method is proved against a specification
function whose properties are then proved as lemmas. Threads, sockets and interleavings are state
machines: one atomic operation or one message is one step, and theorems quantify over every run.

| cluster | modules | main results |
|---|---|---|
| stage skip and wave prefill | `SkipDecision`, `SkipOnRows`, `StageProtocol`, `StageProtocolInvariant`, `StageProtocolProofs`, `StageProtocolSteps`, `StageProtocolTheorems`, `StageProtocolTermination`, `StageProtocolMeaning` | `ConsumptionIsExact`, `LogitsAreFold`, `UnreadMarkersBounded`, `NoDeadlock`, `DrainedEqualsSequential`, `StuckMeansComplete`, `DecisionOnRows` |
| executor barrier | `SplitThreads`, `ExecutorBarrier`, `ExecutorBarrierProofs`, `ExecutorBarrierSteps`, `ExecutorBarrierTheorems` | `Barrier`, `ForwardIsSequential`, `NeverStuck`, `WorkIsBounded` |
| collectives | `RingSchedule`, `RingProtocol`, `RingBytes`, `Collectives` | `WrittenRingIsDiagonal`, `ShiftedRingIsSum`, `CompleteRun`, `NoDeadlock`, `StarAllReduce`, `DeliversSumUnlessRing` |
| pipeline compilation | `LayerPrograms`, `StageSemantics`, `SegmentFootprints`, `PipelineRefinement`, `PipelineNecessity`, `LayerMeaning`, `WeightRouting` | `PipelineRefinesWhole`, `PipelineIsModel`, `NoStaleReads`, `RefinesIffNoEmptyStage`, `ServedIffEqual` |
| activation transport | `ActivationTransport`, `TransportHistory`, `TransportHeaders` | `EveryMessageArrives`, `HeadersInOrder`, `ErrorGrowsLinearly`, `F32IsExact` |
| tiled product | `TiledGemm` | `ExactlyOnce`, `Sgemm`, `AnyInterleaving` |
| text | `Utf8Stream`, `Utf8Reference`, `Utf8Room`, `Utf8Decoder`, `BpeEncoder` | `StreamingIsBatch`, `StreamIsDecoded`, `InBoundsIffGuard`, `Decode`, `Encode`, `BrokenLosesText` |
| sequence parallelism | `SpKvSync`, `SpKvModel` | `NoDeadlock`, `ExchangeIsMerged`, `RowRightIff`, `InStepIffOneSlice`, `RunRightIff` |
| tensor parallelism | `TensorParallel`, `DenseBlock` | `SplitBlockIsWhole`, `SyncedBlock`, `ProgramIsBlock` |
| scheduling | `ContinuousBatching`, `BatchedRequests` | `NoStarvation`, `DecodeRounds`, `RequestStory` |
| sampling | `TopK` | `GreedyThroughTopK`, `FusedArgmax` |
| configuration and weights | `ConfigStream` | `Configure`, `LoadWeights`, `AllFitIffShort` |

`Common` holds what they share. Check the project with `dafny verify dfyconfig.toml`.

## Where the code does not do what it says

The model follows the code. Each of these has a lemma that says exactly when the promise holds.

- The ring all-reduce ends with the remark that all nodes hold the fully reduced result
  (src/nn/nn-network.cpp:1509). Reduce-scatter finishes chunk i + 1 on node i, and the gather starts
  from chunk i, so every node ends with the diagonal: chunk j is node j's own, unreduced
  (`RingSchedule.WrittenRingIsDiagonal`, `RingProtocol.CompleteRun` for every interleaving, and
  `RingBytes.RingFloatIsDiagonal` for slices of any size, which may cut a float). A sync is right for all
  inputs if and only if it does not take the ring (`Collectives.DeliversSumUnlessRing`), and right for
  given inputs if and only if the ring loses nothing of them (`Collectives.MeetsExactly`). Starting the
  gather one chunk later would repair it (`RingSchedule.ShiftedRingIsSum`).
- `decode` checks that the piece fits its input buffer (src/tokenizer.cpp:305); `detokUtf8` writes to a
  second buffer of the same size without a check, and malformed streams need more room there. With 80 F0
  80 80 pending, the 4-byte token 80 80 61 80 passes the check and writes 14 bytes into 11
  (`Utf8Room.OverrunExample`); there is such an input for every longest token
  length from 4 on (`Utf8Room.CheckIsNotEnough`). With p bytes
  pending and a piece of l bytes, every content stays in bounds if and only if the buffer holds 2 l + 1
  bytes for p = 0 and 2 l + min(p, 4) + 2 otherwise (`Utf8Room.InBoundsIffGuard`); in terms of token
  lengths, `Utf8Room.SafeTokens`. The decoder methods take every input and return `Overrun` where the
  source would leave the buffer.
- The cache exchange of a sequence-parallel group is a sync of the attention segment (src/llm.cpp:422-424),
  and the executor runs all ops of a segment before its syncs (src/nn/nn-executor.cpp:117-129). So attention
  reads the rank's own cache before the rows of the other slices have arrived; the comment in the kernel that
  it reads them afterwards (src/nn/nn-cpu-ops.cpp:1409-1411) holds for earlier forwards only. With two ranks
  of one position and a batch at position 1, the root computes with the leftover row
  (`SpKvModel.StaleExample`). For all layer mathematics and leftovers, a hidden row on a rank is right if and
  only if every position of the batch up to its own lies in that rank's slice and the rank starts from the
  embedding (`SpKvModel.RowRightIff`); with two or more layers the caches stay undivided if and only if each
  batch lies in one slice of such a rank (`SpKvModel.InStepIffOneSlice`; in layer 0 they always do,
  `SpKvModel.FirstLayerInStep`); and a run is right on the root, whose logits are sampled, if and only if no
  position leaves the root's slice (`SpKvModel.RunRightIff`). With one rank that is always.
- The embedding is handed to the ranks of the group by a sync that is skipped when each has one tensor-parallel
  rank, unless an environment variable keeps it (src/nn/nn-network.cpp:1734-1745); the other ranks then start
  from what their X pipe holds. That is the second half of the condition in `SpKvModel.RowRightIff`.
- The worker's weight buffer is allocated with 32 bits of a 64-bit length (src/nn/nn-network.hpp:215,
  src/nn/nn-network.cpp:2285-2286). An F_32 matrix of 128256 x 16384 on one rank is read into a buffer of 4.1 GB
  (`ConfigStream.OversizedExample`); all reads of a stream stay in the buffer if and only if every record is
  shorter than 2^32 bytes (`ConfigStream.AllFitIffShort`), and the reader overruns exactly then
  (`ConfigStream.LoadWeights`).
- The root keeps 32 bits of the offset of an expert's slice (src/nn/nn-network.cpp:2181, 2213). Every expert's
  slice goes where it belongs if and only if the last one starts below 2^32 (`ConfigStream.ExpertsInPlace`).
- A special token that follows an unfinished piece comes out before it (src/tokenizer.cpp:327-347): with only
  "ab" regular and "X" special, "aXb" becomes "X", "ab" (`BpeEncoder.BrokenExample`). The pieces keep the text
  when no special token starts while bytes are buffered (`BpeEncoder.PiecesKeepText`), and only then if special
  tokens start with bytes that are regular tokens by themselves (`BpeEncoder.BrokenLosesText`).
- Layers can be partitioned by explicit counts (src/llm.cpp:14-28), but weights are routed by the equal
  partition (src/nn/nn-network.cpp:2109-2116). With several stages and at least as many layers, every node
  gets the weights it needs if and only if the two agree (`WeightRouting.ServedIffEqual`; counts [1, 3] for
  four layers do not, `WeightRouting.CountsExample`). No caller in the repository passes counts
  (src/app.cpp:1627 passes none); only the parameter of `buildLlmNet` accepts them.
- The equal partition of layers leaves stages empty when there are fewer layers than stages, and the
  bridge or final merge of an empty stage adds stale buffers. The compiled pipeline is right for all
  layers and buffers if and only if no stage is empty (`PipelineNecessity.RefinesIffNoEmptyStage`,
  `PipelineNecessity.EqualPartitionRefinesIff`).
- The fused argmax writes two floats per thread into a row of 128, so it fails exactly above 64 threads
  (`TopK.FusedArgmax`); up to there the limit of 64 in the reduction never hides a thread.

## Model

| member | source | states |
|---|---|---|
| `SkipDecision.WorkerLlmInference.AcceptControlPacket` | src/app.cpp:1100-1113 | Taking a control packet resets the remembered row and all three counters on every change of phase, and only then |
| `SkipDecision.WorkerLlmInference.ObserveRow` | src/app.cpp:1446-1464 | A decode row is compared with the remembered row, if there is one, and then remembered; outside tracked decode nothing is compared or remembered |
| `SkipDecision.WorkerLlmInference.EvaluateStageSkipDecision` | src/app.cpp:1167-1209 | The decision stage decides exactly on tracked batch-1 decode tokens with a delta; whole new state of the counters, and the accept flag, equal the specification `AfterDecision` / `Accepts` |
| `SkipDecision.ServeTokenCases` | src/app.cpp:1185-1206 | An accept needs both budgets free; every decision is an accept, an ordinary reject or a forced full pass, and each moves the counters in its own way |
| `SkipDecision.PhaseBudgets` | src/app.cpp:1167-1209 | Over every decode phase: accepts ≤ maxConsecutive · rejects + current accepts, and forcedFull · (maxRejectStreak + 1) + current streak ≤ rejects, with both counters within their limits |
| `SkipDecision.PhaseTotals` | src/app.cpp:1187-1206 | Over every decode phase: accepts ≤ maxConsecutive · (rejects + 1) and forcedFull · (maxRejectStreak + 1) ≤ rejects |
| `SkipOnRows.PhaseState` | src/app.cpp:1187-1206 | After any tokens of a decode phase the accept counter is the number of accepts since the last reject, the streak the number of rejects since the last accept modulo maxRejectStreak + 1, and the remembered row that of the last batch-1 token |
| `SkipOnRows.DecisionOnRows` | src/app.cpp:1167-1209 | Closed form of the next verdict on tokens and rows: a token is decided on exactly when its row can be measured against that of the last batch-1 token of the phase, and accepted exactly when the norm is at most theta, accepts since the last reject are below maxConsecutive, and no forced full pass is due |
| `StageProtocolSteps.StartJobOk` | src/app.cpp:810-821 | Starting a `forward` keeps the protocol invariant |
| `StageProtocolSteps.SendCtrlOk` | src/app.cpp:813-813 | Writing the control packet to one worker keeps the invariant, in whatever order the workers are written |
| `StageProtocolSteps.RootForwardOk` | src/app.cpp:822-822 | The root's own stage program keeps the invariant |
| `StageProtocolSteps.RootPushOk` | src/app.cpp:824-837 | Sending the root's activation behind the control packet on the socket of stage 1 keeps the invariant |
| `StageProtocolSteps.CollectOk` | src/app.cpp:839-858 | Receiving logits, at once or when draining, keeps the invariant |
| `StageProtocolSteps.ReadCtrlOk` | src/app.cpp:1056-1135 | A worker never takes an activation for a control packet: what it reads between two jobs is the next job's packet |
| `StageProtocolSteps.TakeNormalOk` | src/app.cpp:1430-1444 | Receiving from the stage before (or the root) yields the message of the job being served |
| `StageProtocolSteps.TakeBypassOk` | src/app.cpp:1410-1420 | Receiving from the bypass source yields the message of the job being served, and that job was bypassed |
| `StageProtocolSteps.BypassHead` | src/app.cpp:1410-1420 | Whenever the polled bypass socket is not empty it holds exactly one message, the one the polling stage waits for |
| `StageProtocolSteps.RootSocketEmpty` | src/app.cpp:1411-1420 | With target 1 the polled bypass source is the root socket, and it is empty while stage 2 polls |
| `StageProtocolSteps.ComputeOk` | src/app.cpp:1467-1475 | Running or skipping the stage program and deciding keeps the invariant |
| `StageProtocolSteps.MarkerDecision` | src/app.cpp:1477-1511 | A stage sends a marker exactly when it is the decision stage and the job is bypassed |
| `StageProtocolSteps.SendOk` | src/app.cpp:1474-1562 | Every send of `afterForward` (nothing, marker, bypass, next stage, logits) keeps the invariant |
| `StageProtocolSteps.StepOk` | src/app.cpp:1400-1562 | Every enabled action of the root or of any worker keeps the invariant |
| `StageProtocolProofs.Frontier` | src/app.cpp:1467-1475 | Every stage but the bypassed one has served all jobs whose logits the root holds; the bypassed one may lag |
| `StageProtocolProofs.DecodeFence` | src/app.cpp:839-858 | The root starts nothing past a decode token whose logits it does not hold |
| `StageProtocolProofs.PollFence` | src/app.cpp:1408-1429 | While stage target+1 polls, no stage has opened a later job and its own job is an unanswered decode token |
| `StageProtocolTheorems.RunKeepsInv` | src/app.cpp:1400-1562 | The invariant holds in every state of every interleaving |
| `StageProtocolTheorems.ConsumptionIsExact` | src/app.cpp:1400-1465 | In every run no worker fails; the k-th message a stage takes is the one of job k, from exactly one source, with the position of the packet it is serving; the root's k-th logits are those of job k |
| `StageProtocolTheorems.BypassRun` | src/app.cpp:1187-1196 | A run of consecutive bypassed jobs is counted by the decision stage and is at most maxConsecutive long |
| `StageProtocolTheorems.UnreadMarkersBounded` | src/app.cpp:1480-1492 | In every reachable state at most maxConsecutive bypass markers wait on the link into the target stage |
| `StageProtocolTheorems.NoDeadlock` | src/app.cpp:1408-1432 | Until the root is done and all workers have stopped, somebody can move |
| `StageProtocolTheorems.QuietWorker` | src/app.cpp:919-938 | When all logits are collected and the last job was not bypassed, every worker is idle in its sequential state |
| `StageProtocolTheorems.DrainedEqualsSequential` | src/app.cpp:891-938 | After draining, under every interleaving, all channels are empty, every stage's state equals the one-job-at-a-time run, and the last logits held are the last chunk's |
| `StageProtocolTheorems.WaveIsInvisible` | src/app.cpp:891-917 | What a stage computes does not depend on which jobs were emitted without waiting |
| `StageProtocolTermination.StepAdvances` | src/app.cpp:1400-1562 | Every action uses up rank |
| `StageProtocolTermination.RunsAreBounded` | src/app.cpp:1400-1562 | No run is longer than the rank of the initial state |
| `StageProtocolTermination.StuckMeansComplete` | src/app.cpp:940-952 | A run that can be extended no more has stopped every worker, emptied every channel, and delivered every job's logits in order |
| `StageProtocolMeaning.StageEquations` | src/app.cpp:1400-1562 | A stage that is not skipped keeps and hands on what its program makes of its state and the row it got; a skipped stage keeps its state; the next stage gets the row of the stage before, or around the target that of the stage before it |
| `StageProtocolMeaning.LogitsAreFold` | src/app.cpp:1512-1562 | In every run the k-th logits collected are those of all the stages' programs folded over the first k + 1 jobs, one job and one stage after the other |
| `StageProtocolMeaning.StatesAreFold` | src/app.cpp:1400-1562 | A run that can be extended no more has left every stage, the root included, the state of that fold |
| `StageProtocolMeaning.Remembers` | src/app.cpp:1446-1464 | Before every job a stage remembers the row of the last batch-1 token of the decode phase, and nothing outside one |
| `StageProtocolMeaning.BypassOnRows` | src/app.cpp:1167-1209 | A job goes around the target exactly when skipping is on, it is a batch-1 decode token whose row differs from the one before in the phase by at most theta, and the budgets are free |
| `SplitThreads.Adjacent` | src/nn/nn-quants.hpp:82-86 | The share of thread t ends where the share of thread t + 1 starts |
| `SplitThreads.Whole` | src/nn/nn-quants.hpp:82-86 | The shares start at 0 and end at the length |
| `SplitThreads.Disjoint` | src/nn/nn-quants.hpp:82-86 | No index belongs to two threads |
| `SplitThreads.Inside` | src/nn/nn-quants.hpp:82-86 | Every share lies inside the range |
| `SplitThreads.Owner` | src/nn/nn-quants.hpp:82-86 | Every index belongs to some thread |
| `SplitThreads.SocketsInTurn` | src/nn/nn-network.cpp:1175-1182 | Threads take the root's sockets in turn: every socket exactly one thread, and each thread as many as its contiguous share has places |
| `ExecutorBarrierProofs.ComputedValue` | src/nn/nn-executor.cpp:192-194 | A value computed from shared memory while other threads are writing is the value of the sequential step |
| `ExecutorBarrierSteps.WriteStep` | src/nn/nn-executor.cpp:192-194 | A write to the own share keeps the memory invariant of all threads |
| `ExecutorBarrierSteps.ArriveStep` | src/nn/nn-executor.cpp:202-203 | The arrival counter tells exactly one thread that it is last |
| `ExecutorBarrierSteps.ResetStep` | src/nn/nn-executor.cpp:219-219 | Resetting the counter before the step index moves cannot lose an arrival |
| `ExecutorBarrierSteps.AdvanceStep` | src/nn/nn-executor.cpp:220-220 | The step index moves only when every share of the step is written |
| `ExecutorBarrierSteps.EndStep` | src/nn/nn-executor.cpp:233-237 | Finishing and publishing keep the run counter exact |
| `ExecutorBarrierSteps.ReleaseStep` | src/nn/nn-executor.cpp:285-304 | The epoch increment starts a run with every thread one epoch behind and all counters fresh |
| `ExecutorBarrierSteps.SharesComplete` | src/nn/nn-executor.cpp:203-220 | When all threads have arrived the memory is the step's sequential result |
| `ExecutorBarrierSteps.ReturnStep` | src/nn/nn-executor.cpp:314-325 | `forward` can return only when all threads wait for the next epoch with every step behind them |
| `ExecutorBarrierSteps.StepKeepsInv` | src/nn/nn-executor.cpp:166-239 | Every atomic operation of every thread, and of `forward`, keeps the invariant |
| `ExecutorBarrierTheorems.RunKeepsInv` | src/nn/nn-executor.cpp:166-239 | The invariant holds in every state of every interleaving, over any number of forwards |
| `ExecutorBarrierTheorems.Barrier` | src/nn/nn-executor.cpp:187-231 | When a thread is inside step k, it has run exactly the steps before k, and every other thread has run exactly those or those and k |
| `ExecutorBarrierTheorems.OneWriter` | src/nn/nn-executor.cpp:187-231 | Threads about to write are in one step and write different cells, and a sync is the work of thread 0 alone |
| `ExecutorBarrierTheorems.ForwardIsSequential` | src/nn/nn-executor.cpp:282-325 | When `forward` has returned, memory is the sequential execution of the program, and each thread ran each step exactly once, whether a step is done by one thread or split over them |
| `ExecutorBarrierTheorems.StartIsFilled` | src/nn/nn-executor.cpp:282-304 | The sequential execution meant is the one from the memory the caller filled |
| `ExecutorBarrierTheorems.AccessesInBounds` | src/nn/nn-executor.cpp:188-192 | No access of the worker loop to its steps or memory is out of bounds |
| `ExecutorBarrierTheorems.NeverStuck` | src/nn/nn-executor.cpp:222-237 | In an unfinished run some thread can do more than spin |
| `ExecutorBarrierTheorems.WorkIsBounded` | src/nn/nn-executor.cpp:187-237 | The operations of a run that are not spinning are bounded |
| `RingSchedule.RecvIsDistance` | src/nn/nn-network.cpp:1445-1446 | The chunk received in an exchange is the one as many places back as exchanges have passed |
| `RingSchedule.SendMatchesRecv` | src/nn/nn-network.cpp:1443-1459 | What a node sends is what its neighbour expects, and it never sends the chunk it is receiving |
| `RingSchedule.ScatterState` | src/nn/nn-network.cpp:1443-1475 | The exact contents of every chunk of every node after every reduce-scatter step |
| `RingSchedule.ReduceScatter` | src/nn/nn-network.cpp:1432-1477 | After reduce-scatter node i holds the full sum in chunk i + 1 and its own chunk i unchanged |
| `RingSchedule.GatherState` | src/nn/nn-network.cpp:1483-1507 | The exact contents of every chunk of every node after every gather step |
| `RingSchedule.Gathered` | src/nn/nn-network.cpp:1483-1507 | The gather copies each chunk's origin to every node |
| `RingSchedule.WrittenRingIsDiagonal` | src/nn/nn-network.cpp:1486-1509 | The composition as written leaves chunk j equal to node j's own chunk j on every node, for every ring size |
| `RingSchedule.ShiftedRingIsSum` | src/nn/nn-network.cpp:1432-1509 | Started one chunk later, the same gather leaves the sum of all nodes everywhere |
| `RingBytes.OwnSlice` | src/nn/nn-network.cpp:1443-1475 | Whatever the reduction does to slices, reduce-scatter leaves a node's own slice alone |
| `RingBytes.OwnSliceSpreads` | src/nn/nn-network.cpp:1483-1507 | Whatever slices hold, the written gather spreads each node's own slice, step by step |
| `RingBytes.RingFloatIsDiagonal` | src/nn/nn-network.cpp:1423-1509 | For every slice size, slices that cut a float included, every node ends with the float put together from the bytes of the nodes whose slices they lie in |
| `RingBytes.WholeSlices` | src/nn/nn-network.cpp:1423-1459 | When slices are whole floats, that is the float of the node whose slice it lies in |
| `RingBytes.SameFloat` | src/nn/nn-network.cpp:1423-1509 | Where all nodes hold the same float, the ring delivers that float and not the sum |
| `RingProtocol.StepKeepsInv` | src/nn/nn-network.cpp:1461-1475 | Every rendezvous keeps each node's buffer equal to the schedule's, with nodes drifting apart across steps |
| `RingProtocol.NoDeadlock` | src/nn/nn-network.cpp:1461-1467 | Even-sends-first never deadlocks without buffering, for every ring size of two or more, odd sizes included |
| `RingProtocol.RunsAreBounded` | src/nn/nn-network.cpp:1443-1507 | Every run has at most 2 n (n - 1) meetings |
| `RingProtocol.CompleteRun` | src/nn/nn-network.cpp:1443-1509 | A run that can go no further has finished, and its buffers are the diagonal (as written) or the sum (shifted) |
| `Collectives.ReduceSum` | src/nn/nn-network.cpp:1330-1365 | The blocked loop adds the input to the addressed floats and to nothing else |
| `Collectives.ReduceChunk` | src/nn/nn-network.cpp:1470-1474 | Adding the received slice in place is the schedule's store |
| `Collectives.GatherWorkers` | src/nn/nn-network.cpp:1530-1544 | The root's gather buffer holds the workers' buffers one after the other |
| `Collectives.ReduceGathered` | src/nn/nn-network.cpp:1546-1548 | The root's buffer after reducing worker after worker from the gather buffer |
| `Collectives.StarAllReduce` | src/nn/nn-network.cpp:1512-1579 | Gather, reduction and, unless only the root asked, the write back: the buffers of all nodes afterwards |
| `Collectives.StarIsSum` | src/nn/nn-network.cpp:1512-1579 | What the star leaves is the sum of all buffers, on the root and on every node that asked; the others keep theirs |
| `Collectives.RingTakenWhen` | src/nn/nn-network.cpp:1672-1686 | A sync takes the ring exactly when it is not a star or root-only sync and at least eight nodes divide a non-empty buffer |
| `Collectives.LostInWholeSlices` | src/nn/nn-network.cpp:1423-1509 | With slices of whole floats the ring loses what the other nodes hold in each node's chunk |
| `Collectives.MeetsExactly` | src/nn/nn-network.cpp:1653-1701 | A sync leaves the sum where it should if and only if it does not take the ring, or the ring loses nothing of these buffers; for every size |
| `Collectives.SyncedIsSchedule` | src/nn/nn-network.cpp:1653-1701 | With slices of whole floats, what a ring sync delivers is what the float schedule, and so every run of the ring protocol, computes |
| `Collectives.DeliversSumUnlessRing` | src/nn/nn-network.cpp:1653-1701 | For every group and buffer size, a sync is correct for all buffers if and only if it does not take the ring |
| `Collectives.SocketsAreDistinct` | src/nn/nn-network.cpp:1233-1253 | Every peer has its own slot, the slots fill the socket list, and they are in the order of the nodes |
| `LayerPrograms.OffsetsFromCounts` | src/llm.cpp:14-28 | Explicit counts are accepted exactly when there is one positive count per stage and they add up; the offsets then cut the layers as the counts say |
| `LayerPrograms.BuildOffsets` | src/llm.cpp:12-36 | Both branches yield a contiguous partition; the equal one has no empty stage exactly when there are at least as many layers as stages |
| `LayerPrograms.EqualPartition` | src/llm.cpp:30-35 | The equal partition's stages are all non-empty exactly when ppSize ≤ nLayers |
| `LayerPrograms.EqualShares` | src/llm.cpp:30-35 | Every stage but the last has nLayers / ppSize layers, and the last has the rest |
| `LayerPrograms.EmitNode` | src/llm.cpp:290-681 | The builder loop of one node emits the program of its stage; what that program computes is `LayerMeaning` |
| `LayerPrograms.EmitNet` | src/llm.cpp:237-247 | Every node gets the program of its own layer range |
| `WeightRouting.Recipients` | src/nn/nn-network.cpp:2192-2207 | The node loop sends a layer's slices to exactly the nodes of the owner stage, or to all |
| `WeightRouting.EqualOwner` | src/nn/nn-network.cpp:2109-2116 | In the equal partition the owner of a layer is the stage that runs it |
| `WeightRouting.OffsetsForced` | src/nn/nn-network.cpp:2109-2121 | If every node gets the weights it needs, every stage starts where the equal partition starts it |
| `WeightRouting.ServedIffEqual` | src/nn/nn-network.cpp:2109-2121 | Every node gets the weights of the layers it runs, if and only if the layers are partitioned equally, or there is one stage, or fewer layers than stages |
| `WeightRouting.CountsExample` | src/llm.cpp:14-28 | Counts [1, 3] for four layers are accepted and leave layer 1 without its weights on the stage that runs it |
| `StageSemantics.NonInterference` | src/llm.cpp:305-609 | A program whose reads are all given or written earlier computes the same from any two memories that agree on what is given |
| `StageSemantics.Untouched` | src/llm.cpp:305-609 | A program changes nothing it does not write |
| `SegmentFootprints.AttentionSegment` | src/llm.cpp:329-454 | The attention segment reads x, position, rope table and its own cache, and writes zq and its own cache |
| `SegmentFootprints.FeedForwardSegment` | src/llm.cpp:457-605 | The feed-forward segment, dense or mixture of experts, reads and writes x and zq only, scratch aside |
| `SegmentFootprints.BodySegment` | src/llm.cpp:329-605 | A layer depends on x, position, rope table and its own cache alone, and touches no other layer's cache |
| `SegmentFootprints.EndSegment` | src/llm.cpp:629-680 | The final segment reads x and zq and writes the logits, fused argmax or not |
| `PipelineRefinement.HeadEffect` | src/llm.cpp:313-327 | The first op of a layer makes x the X pipe (first layer of a stage) or the merged row (any other) |
| `PipelineRefinement.BridgeEffect` | src/llm.cpp:611-626 | The bridge puts the merged row on the X pipe |
| `PipelineRefinement.FollowsStep` | src/llm.cpp:305-609 | One layer keeps a stage in step with the one-stage program, whether the stage casts in or merges |
| `PipelineRefinement.StageFollows` | src/llm.cpp:239-681 | Every stage ends its layers in step with the one-stage program and hands over its hidden row |
| `PipelineRefinement.ForwardRefines` | src/llm.cpp:239-681 | One forward of the staged programs yields the one-stage logits and per-layer caches |
| `PipelineRefinement.PipelineRefinesWhole` | src/llm.cpp:239-681 | For every token sequence, partition into non-empty stages, architecture, sync format and layer mathematics, the stages compute the one-stage model's logits and caches |
| `LayerMeaning.AttentionIs` | src/llm.cpp:329-454 | The attention program leaves the rotated (on Qwen normalised) key rows in the key cache, the value rows in the value cache, and wo of the attention of the rotated queries over both in zq, as nested applications of the layer mathematics |
| `LayerMeaning.FeedForwardIs` | src/llm.cpp:457-605 | The feed-forward program merges zq into x and leaves w2(silu(w1 y) * w3 y) of the normed row in zq, or the gated experts' weighted sum |
| `LayerMeaning.EndIs` | src/llm.cpp:629-680 | The final program leaves the logits of the normed merged row, or with the fused head the reduced argmax |
| `LayerMeaning.WholeIsModel` | src/llm.cpp:239-681 | A forward of the one-stage program computes the recursively defined model: its logits and all its caches, for all layer mathematics, architectures and formats |
| `LayerMeaning.RunIsModel` | src/llm.cpp:239-681 | So does every sequence of forwards |
| `LayerMeaning.PipelineIsModel` | src/llm.cpp:239-681 | The stages of every partition into non-empty stages compute that model over every sequence of forwards, whatever their buffers held |
| `PipelineNecessity.NoStaleReads` | src/llm.cpp:305-626 | No op of a stage program reads a stale buffer, if and only if the stage has a layer |
| `PipelineNecessity.EmptyStageBreaks` | src/llm.cpp:611-619 | With an empty stage there are layers and buffers for which the logits are wrong |
| `PipelineNecessity.RefinesIffNoEmptyStage` | src/llm.cpp:239-681 | The stages compute the one-stage logits for all layer mathematics and leftovers, if and only if no stage is empty |
| `PipelineNecessity.EqualPartitionRefinesIff` | src/llm.cpp:30-35 | The equal partition compiles correctly if and only if ppSize ≤ nLayers |
| `ActivationTransport.WriteChunks` | src/nn/nn-pipeline.cpp:262-267 | The chunk loop writes the payload, whatever the chunk size |
| `ActivationTransport.ReadChunks` | src/nn/nn-pipeline.cpp:330-335 | The chunk loop reads exactly the payload and nothing behind it |
| `ActivationTransport.Communicator.SendActivation` | src/nn/nn-pipeline.cpp:198-289 | Exactly one frame goes out, a delta only against a base of the same length, and the base becomes the data unless it is a marker |
| `ActivationTransport.Communicator.RecvActivation` | src/nn/nn-pipeline.cpp:291-428 | A poll of an empty socket changes nothing; otherwise the frame is consumed exactly, the buffer and the base get the decoded values, and a refused frame leaves all bases alone |
| `ActivationTransport.Communicator.SetTransportOptions` | src/nn/nn-pipeline.cpp:454-458 | Options change and bases do not |
| `TransportHistory.WireDtypeEncodes` | src/nn/nn-pipeline.cpp:15-24 | The chosen wire format can always encode the payload |
| `TransportHistory.Delivered` | src/nn/nn-pipeline.cpp:360-410 | With bases of equal length every frame decodes, to as many values as were sent |
| `TransportHistory.BasesAgreeInLength` | src/nn/nn-pipeline.cpp:274-275 | After every history of sends, markers, size changes and option changes both bases have the same length |
| `TransportHistory.EveryMessageArrives` | src/nn/nn-pipeline.cpp:361-384 | No message is ever refused for a missing base or a failed decode |
| `TransportHistory.ErrorGrowsLinearly` | src/nn/nn-pipeline.cpp:385-389 | When the frames a history really sends err by at most e, after k deltas since the last full frame the receiver is off by at most (k + 1) e |
| `TransportHistory.LosslessIsExact` | src/nn/nn-pipeline.cpp:198-428 | When no frame of the history errs, the receiver's base is exactly what was sent last |
| `TransportHistory.F32IsExact` | src/nn/nn-pipeline.cpp:28-31 | A link that sends F_32 only rebuilds every message exactly, whatever the other formats lose |
| `TransportHistory.LastPayload` | src/nn/nn-pipeline.cpp:274-275 | The bases are the last payload sent and the last one delivered |
| `TransportHeaders.Transfer` | src/nn/nn-pipeline.cpp:198-428 | A send and the receive at the other end: the header received carries the position and bypass flag sent, the bases stay in step, the wire ends empty |
| `TransportHeaders.HeaderTells` | src/nn/nn-pipeline.cpp:213-254 | After any history a header carries its send's position and bypass flag, F_16 instead of a block format for ragged messages, the delta flag exactly when the payload encodes the difference to the last message, and the chunk flag exactly for payloads longer than the chunk |
| `TransportHeaders.PayloadSize` | src/nn/nn-pipeline.cpp:26-57 | 4 bytes a float, 2 as F_16, 34 or 18 a block of 32 as Q80 or Q40 |
| `TransportHeaders.RefusedIff` | src/nn/nn-pipeline.cpp:60-118 | A payload is refused exactly for a ragged size, too little room, or a difference to a message of another length; otherwise its values are taken or added to the last message |
| `TransportHeaders.HeadersInOrder` | src/nn/nn-pipeline.cpp:242-254 | Over any history the k-th header on the wire carries the position and bypass flag of the k-th send |
| `TiledGemm.TileFits` | src/nn/llamafile/sgemm.cpp:263-406 | The tile chosen for a non-empty region fits it, in every table of every kernel |
| `TiledGemm.JobCells` | src/nn/llamafile/sgemm.cpp:424-426 | The tiles of the jobs are exactly the region's cells, each in one job |
| `TiledGemm.OneOwner` | src/nn/llamafile/sgemm.cpp:416-423 | Every job is done by exactly one thread |
| `TiledGemm.OutsideUntouched` | src/nn/llamafile/sgemm.cpp:408-411 | Packing a region writes nothing outside it |
| `TiledGemm.ExactlyOnce` | src/nn/llamafile/sgemm.cpp:263-412 | Every cell of the region is written exactly once, by exactly one thread |
| `TiledGemm.LanesAreDot` | src/nn/llamafile/sgemm.cpp:428-436 | Lane-wise accumulation and the horizontal sum give the dot product |
| `TiledGemm.TinyBlas.Accumulate` | src/nn/llamafile/sgemm.cpp:427-433 | The register tile holds the accumulators of its cells |
| `TiledGemm.TinyBlas.TileKernel` | src/nn/llamafile/sgemm.cpp:425-437 | One job writes its tile's cells with their dot products and nothing else |
| `TiledGemm.TinyBlas.Gemm` | src/nn/llamafile/sgemm.cpp:414-438 | One thread writes exactly the tiles on its duty |
| `TiledGemm.TinyBlas.Mnpack` | src/nn/llamafile/sgemm.cpp:263-412 | The recursion ends, and one thread writes exactly the cells counted for it |
| `TiledGemm.TinyBlas.Matmul` | src/nn/llamafile/sgemm.cpp:257-260 | The same for the whole matrix |
| `TiledGemm.AnyInterleaving` | src/nn/llamafile/sgemm.cpp:414-438 | However the stores of all threads interleave, C becomes the product, every store is to a cell of it, and no cell is stored twice |
| `TiledGemm.Sgemm` | src/nn/llamafile/sgemm.cpp:819-848 | When all threads have run, in any order, C is the product, and nothing outside it has changed |
| `Utf8Stream.Replay` | src/tokenizer.cpp:279-284 | The pending bytes restore the decoder's whole state |
| `Utf8Stream.Resume` | src/tokenizer.cpp:293-311 | A call on pending bytes and a new piece goes on exactly where batch decoding would |
| `Utf8Stream.StreamingIsBatch` | src/tokenizer.cpp:226-311 | For every way of cutting bytes into pieces, the outputs add up to the one-shot decode and the same bytes stay pending |
| `Utf8Stream.OutputIsWellFormed` | src/tokenizer.cpp:233-277 | Whatever the input, committed output is structurally well formed |
| `Utf8Stream.DecodeIsWellFormed` | src/tokenizer.cpp:293-311 | Every call's output is well formed by itself |
| `Utf8Stream.WellFormedIsConserved` | src/tokenizer.cpp:233-261 | Well-formed input comes out byte for byte |
| `Utf8Stream.ExtendableIsConserved` | src/tokenizer.cpp:233-284 | Of text cut inside a character at most three bytes stay pending, and output and pending make up the input |
| `Utf8Stream.WrittenBound` | src/tokenizer.cpp:262-274 | The output is at most twice the input and one byte, recoveries included |
| `Utf8Stream.ExtendableInBounds` | src/tokenizer.cpp:233-290 | Real text needs no more room than its own bytes and the NUL |
| `Utf8Reference.TextIs` | src/tokenizer.cpp:244-249 | Structural well-formedness is text by the literal ranges: 00..7F alone, C0..DF and one 80..BF, E0..EF and two, F0..F7 and three |
| `Utf8Reference.TextIsConserved` | src/tokenizer.cpp:233-277 | Text by those ranges comes out byte for byte and nothing stays pending |
| `Utf8Reference.OutputIsText` | src/tokenizer.cpp:233-277 | Each call's output is text by those ranges |
| `Utf8Reference.StreamIsDecoded` | src/tokenizer.cpp:226-311 | For every stream of pieces, outputs and pending bytes are those of a reference decoder on the joined bytes: characters are copied, whatever lies between two becomes one replacement, the rest is kept |
| `Utf8Room.ByteTakesTwo` | src/tokenizer.cpp:233-277 | A byte takes at most two more places of the output buffer, whatever it does to the loop |
| `Utf8Room.GuardSuffices` | src/tokenizer.cpp:226-290 | With 2 l + 1 bytes, or 2 l + min(p, 4) + 2 when p > 0 bytes are pending, no write of a call on l bytes leaves the buffer |
| `Utf8Room.WorstOverruns` | src/tokenizer.cpp:226-290 | In every smaller buffer some pending text and piece of these lengths write past the end |
| `Utf8Room.InBoundsIffGuard` | src/tokenizer.cpp:226-290 | Every pending text of length p and piece of length l stays in bounds, if and only if the buffer has that size |
| `Utf8Room.SafeTokens` | src/tokenizer.cpp:157-165 | With the source's buffers: always for tokens two bytes shorter than the longest, one byte shorter behind at most three pending bytes, the longest behind at most one, and never otherwise |
| `Utf8Room.CheckIsNotEnough` | src/tokenizer.cpp:305-305 | For every longest token length from 4 on the check accepts some pending text and piece that overrun the output buffer |
| `Utf8Room.OverrunExample` | src/tokenizer.cpp:305-305 | 80 F0 80 80 pending and the token 80 80 61 80: the check holds, 14 bytes go into 11 |
| `Utf8Decoder.Decoder.constructor` | src/tokenizer.cpp:157-165 | Both buffers have the size the source gives them and nothing is pending |
| `Utf8Decoder.Decoder.Accept` | src/tokenizer.cpp:235-261 | A round that uses a byte is one step of the automaton, or leaves the buffer exactly when that step has more written than there is room |
| `Utf8Decoder.Decoder.Recover` | src/tokenizer.cpp:262-276 | A recovering round goes back to the checkpoint, emits U+FFFD, and either consumes the byte or clears the expectation; it leaves the buffer exactly when three bytes do not fit |
| `Utf8Decoder.Decoder.Scan` | src/tokenizer.cpp:227-277 | For every C string the loop ends although recovery may not advance, in the state of the automaton, or outside the buffer exactly when some prefix needs more room |
| `Utf8Decoder.Decoder.KeepPending` | src/tokenizer.cpp:279-284 | The overlapping move keeps the bytes from the checkpoint on |
| `Utf8Decoder.Decoder.DetokUtf8` | src/tokenizer.cpp:226-291 | For every C string the returned string, or none, is the committed output and the kept bytes are the pending input, unless a write leaves the buffer, which is exactly when the text is not in bounds |
| `Utf8Decoder.Decoder.Decode` | src/tokenizer.cpp:293-311 | For every token: refused exactly where the check fails; overrun exactly where the text is not in bounds, never under the guard; otherwise one call of the stream; begin and end tokens leave the pending bytes alone |
| `Utf8Decoder.Decoder.ResetDecoder` | src/tokenizer.cpp:222-224 | Nothing is pending after a reset |
| `SpKvSync.ShiftForward` | src/nn/nn-cpu-ops.cpp:1571-1598 | The guarded row writes equal the specification, row by row in batch order |
| `SpKvSync.GuardedWrites` | src/nn/nn-cpu-ops.cpp:1583-1597 | In its slice a guarded rank does what the undivided cache does, outside nothing |
| `SpKvSync.MaxPosition` | src/nn/nn-network.cpp:1832-1838 | The loop finds the largest position of the batch |
| `SpKvSync.RunKeepsInv` | src/nn/nn-network.cpp:1851-1887 | Both ends of every transfer agree on what it carries, in every interleaving |
| `SpKvSync.NoDeadlock` | src/nn/nn-network.cpp:1863-1886 | The pairwise exchange never deadlocks without buffering, for every group size |
| `SpKvSync.StepsFall` | src/nn/nn-network.cpp:1851-1887 | Every step leaves fewer to do |
| `SpKvSync.Exchanged` | src/nn/nn-network.cpp:1844-1887 | Afterwards every rank has every active row from its owner, and no other row changed |
| `SpKvSync.ForwardCompletes` | src/nn/nn-network.cpp:1803-1888 | Guarded writes and an exchange give every rank the undivided cache up to the largest position |
| `SpKvSync.ShardedIsUndivided` | src/nn/nn-core.cpp:215-228 | Over any run of forwards and interleavings, when all ranks write the same given rows, every rank's rows up to the largest position are the single unsharded cache |
| `SpKvModel.ExchangeIsMerged` | src/nn/nn-network.cpp:1844-1887 | Whatever the interleaving, a completed exchange leaves every rank its own rows and, up to the largest position, the rows of their owners; and an exchange can always be completed |
| `SpKvModel.HiddenFollows` | src/nn/nn-executor.cpp:117-129 | With attention before the exchange, as the executor orders them, a rank computes the undivided hidden row wherever the batch up to that position lies in its slice |
| `SpKvModel.RowRightIff` | src/llm.cpp:412-435 | A row on a rank is right for all layer mathematics and leftovers if and only if the rank starts from the embedding and every batch position up to its own is in the rank's slice |
| `SpKvModel.ForwardIsAfter` | src/nn/nn-network.cpp:1803-1888 | A forward of the group, synced or not and with any interleaving of its exchanges, leaves one determined state of all caches |
| `SpKvModel.FirstLayerInStep` | src/llm.cpp:412-424 | Layer 0 stays the undivided cache for every batch, since its rows come from the embedding |
| `SpKvModel.InStepIffOneSlice` | src/llm.cpp:412-435 | With two or more layers all caches stay undivided for all layer mathematics and leftovers if and only if the batch lies in one slice whose rank starts from the embedding |
| `SpKvModel.RootFollows` | src/llm.cpp:412-435 | Over a run, while all positions lie in the root's slice, the root's hidden rows are the undivided model's, whether decoding exchanges caches or not |
| `SpKvModel.RunRightIff` | src/nn/nn-executor.cpp:117-129 | A run is right on the root for all layer mathematics, leftovers and interleavings if and only if no position leaves the root's slice |
| `SpKvModel.StaleExample` | src/nn/nn-cpu-ops.cpp:786-803 | Two ranks of one position, a batch at position 1: the root attends to the leftover row, the undivided model to the new one |
| `TensorParallel.SplitRow` | src/nn/nn-core.cpp:299-315 | The copied bytes are the rank's rows |
| `TensorParallel.SplitCol` | src/nn/nn-core.cpp:317-332 | The copied bytes are the rank's blocks of every row |
| `TensorParallel.RowSliceElem` | src/nn/nn-core.cpp:230-240 | Element (r, c) of a row slice is element (node · d0 + r, c) of the matrix, in every block format |
| `TensorParallel.ColSliceElem` | src/nn/nn-core.cpp:242-253 | Element (r, c) of a column slice is element (r, node · n0 + c) of the matrix, in every block format |
| `TensorParallel.PartsSumToWhole` | src/llm.cpp:560-605 | The ranks' partial results add up to the unsplit feed-forward block, for every rank count and activation |
| `TensorParallel.SyncedBlock` | src/nn/nn-network.cpp:1529-1578 | After the all-reduce every rank holds the unsplit block, when the sync is not a ring |
| `TensorParallel.RankReadsSlice` | src/nn/nn-core.cpp:299-332 | A rank that reads its copied bytes computes with its rows and columns of the full matrices |
| `TensorParallel.SplitBlockIsWhole` | src/llm.cpp:560-605 | From the byte copies on, the sum of what the ranks compute is the unsplit block |
| `DenseBlock.ProgramIsBlock` | src/llm.cpp:560-605 | The emitted feed-forward program computes that unsplit block when its products are dense matrices and its activation is the block's |
| `BpeEncoder.SpecialFrom` | src/tokenizer.cpp:198-206 | The first special token the text starts with here, or -1 when it starts with none |
| `BpeEncoder.Encoder.FindSpecial` | src/tokenizer.cpp:198-206 | The scan of the special vocabulary finds that token |
| `BpeEncoder.SpecialComesNext` | src/tokenizer.cpp:327-336 | Where special tokens start, the first of them is the next piece, whatever is buffered |
| `BpeEncoder.ShortestComesNext` | src/tokenizer.cpp:337-347 | Where none starts before, the next piece is the shortest regular string the buffered bytes go on to |
| `BpeEncoder.PiecesAreKnown` | src/tokenizer.cpp:327-347 | Every piece is a token of the vocabulary, and there are no more pieces than bytes |
| `BpeEncoder.PiecesKeepText` | src/tokenizer.cpp:327-349 | The pieces concatenate to the text when no special token starts while bytes are buffered |
| `BpeEncoder.BytesAreUnbroken` | src/tokenizer.cpp:327-349 | That is so without special tokens always, and with them when every byte is a regular token |
| `BpeEncoder.BrokenLosesText` | src/tokenizer.cpp:327-347 | Otherwise the text is lost, when special tokens start with bytes that are regular tokens by themselves |
| `BpeEncoder.BrokenExample` | src/tokenizer.cpp:327-347 | With "ab" regular and "X" special, "aXb" comes out as "X", "ab" |
| `BpeEncoder.BytesAreCut` | src/tokenizer.cpp:337-349 | A text of regular bytes never meets the two assertions |
| `BpeEncoder.Encoder.Pieces` | src/tokenizer.cpp:320-349 | The loop fails exactly where the specification has no pieces, and otherwise leaves the optional BOS and exactly these pieces |
| `BpeEncoder.MergeKeepsText` | src/tokenizer.cpp:373-379 | One merge keeps the text |
| `BpeEncoder.MergeStepMeans` | src/tokenizer.cpp:353-379 | A merge replaces the leftmost of the adjacent pairs with the best score above -1e10 by their token |
| `BpeEncoder.NothingMergesMeans` | src/tokenizer.cpp:353-373 | Merging is over exactly when no adjacent pair is a token with a score above -1e10 |
| `BpeEncoder.Encoder.FindBest` | src/tokenizer.cpp:353-371 | The leftmost pair with the best score above -1e10, or none when nothing can merge |
| `BpeEncoder.Encoder.MergePair` | src/tokenizer.cpp:373-379 | Replacing and shifting in place is the merge |
| `BpeEncoder.Encoder.MergeAll` | src/tokenizer.cpp:351-380 | The loop ends, each step is a best merge, the text is kept, and nothing is left to merge |
| `BpeEncoder.GreedyIsDeterministic` | src/tokenizer.cpp:351-380 | The result is determined by the start: two complete greedy merge histories are the same |
| `BpeEncoder.Encoder.Encode` | src/tokenizer.cpp:313-380 | The output is the end of a greedy merge history of the pieces, and no adjacent pair above the floor can merge; its strings concatenate to the optional BOS and the text when no special token breaks a piece, and otherwise do not |
| `ContinuousBatching.Prefill` | src/dllama.cpp:177-193 | All prompt tokens but the last are fed, each at its own position, in full batches but for a smaller last one; decoding starts from the last token at its position |
| `ContinuousBatching.PickRound` | src/dllama.cpp:202-209 | The scan picks the runnable requests after the cursor, as many as there is room for |
| `ContinuousBatching.PicksDistinct` | src/dllama.cpp:202-209 | No request is picked twice in a round |
| `ContinuousBatching.SomebodyPicked` | src/dllama.cpp:210-211 | While a request is unfinished the empty-pick break is not taken |
| `ContinuousBatching.ServeRound` | src/dllama.cpp:225-234 | A round serves exactly the picked requests, and the count of active ones stays the number of unfinished ones |
| `ContinuousBatching.RoundKeepsInv` | src/dllama.cpp:201-235 | Every round keeps activeCount, cursor, positions and decoded tokens in step, and uses up positions |
| `ContinuousBatching.PassedOverComesCloser` | src/dllama.cpp:202-212 | A round that passes a request over brings the cursor at least maxActive places closer to it |
| `ContinuousBatching.NoStarvation` | src/dllama.cpp:201-235 | An unfinished request is passed over at most (N - 1) / maxActive times in a row, in every run |
| `ContinuousBatching.DecodeRounds` | src/dllama.cpp:198-235 | The loop ends with every request finished, never by the break, and decoded tokens equal the total advance of positions; its rounds are such a run |
| `BatchedRequests.RoundFor` | src/dllama.cpp:225-234 | In a round a picked request gets the token of its place and moves on by one, any other stays as it is |
| `BatchedRequests.RequestStory` | src/dllama.cpp:198-235 | At any time a request has moved on by the tokens sampled for it, is fed the last of them next, and is finished exactly when that is an end token or its positions are used up; no end token came before it |
| `TopK.SortDescIsStableSort` | src/app.cpp:253-286 | The specification is a stable descending sort listing every index once |
| `TopK.InsertAt` | src/app.cpp:265-272 | The inner shifting loop inserts behind everything not smaller |
| `TopK.PackTopK` | src/app.cpp:253-292 | The packed pairs are the first k of the stable descending sort of all logits |
| `TopK.SampleArgmax` | src/tokenizer.cpp:394-405 | The first index with the largest logit |
| `TopK.SampleTopKGreedy` | src/tokenizer.cpp:516-530 | At temperature zero the token of the first largest packed logit |
| `TopK.FirstIsArgmax` | src/app.cpp:239-251 | The stable sort starts with the first largest index |
| `TopK.GreedyThroughTopK` | src/tokenizer.cpp:516-530 | For every k, sampling at temperature zero from the packed logits and argmax over all logits pick the same token |
| `TopK.ShardArgmax` | src/nn/nn-cpu-ops.cpp:1253-1311 | A thread's partial result attains the maximum of its share, whatever index it remembers |
| `TopK.ReduceArgmax` | src/nn/nn-cpu-ops.cpp:1315-1338 | The reduction returns the index of a largest partial result among those it looks at |
| `TopK.FusedArgmax` | src/nn/nn-cpu-ops.cpp:1234-1338 | Over all threads, the index attains the maximum of all logits for every thread count and remembered seeds; it fails exactly when the partial buffer is too small |
| `ConfigStream.DigitsValue` | src/nn/nn-network.cpp:1893-1901 | A fixed-width number is read back |
| `ConfigStream.Wire.ReadString` | src/nn/nn-network.cpp:1892-1904 | A name is read back and nothing behind it is consumed |
| `ConfigStream.WriteNet` | src/nn/nn-network.cpp:1910-1925 | The root writes exactly the encoding of the network configuration |
| `ConfigStream.ReadNet` | src/nn/nn-network.cpp:1995-2015 | The worker reads back that configuration, consumes it exactly and acknowledges once |
| `ConfigStream.WriteNode` | src/nn/nn-network.cpp:1928-1980 | The root writes exactly the encoding of the node configuration, with arbitrary nested tables |
| `ConfigStream.SyncLayout` | src/nn/nn-network.cpp:1956-1966 | A sync takes 32 bytes, field by field in the order written |
| `ConfigStream.NodeLayout` | src/nn/nn-network.cpp:1928-1943 | A node starts with its 14 words in the order written |
| `ConfigStream.OpLayout` | src/nn/nn-network.cpp:1967-1978 | Where each field of an op lies, its name with length and NUL |
| `ConfigStream.RecordLayout` | src/nn/nn-network.cpp:2143-2153 | Where each field of a weight record lies |
| `ConfigStream.ReadOp` | src/nn/nn-network.cpp:2069-2082 | An op, its name, pointers and raw configuration are read back |
| `ConfigStream.ReadSegment` | src/nn/nn-network.cpp:2045-2083 | A segment with any number of syncs and ops is read back |
| `ConfigStream.ReadNode` | src/nn/nn-network.cpp:2017-2087 | The worker reads back the node configuration, consumes it exactly and acknowledges once |
| `ConfigStream.Configure` | src/nn/nn-network.cpp:1983-1989 | Both configurations arrive, both directions end empty, and the acknowledgements are in step |
| `ConfigStream.WriteStream` | src/nn/nn-network.cpp:2123-2153 | The records and the closing zero are written |
| `ConfigStream.Locate` | src/nn/nn-executor.cpp:256-270 | The search finds an op exactly when the node has one of that name and index |
| `ConfigStream.OtherLayersDropped` | src/nn/nn-network.cpp:2264-2296 | A record is dropped when the node has no op of both its name and its layer |
| `ConfigStream.WeightReader.Allocate` | src/nn/nn-network.cpp:2255-2262 | The buffer grows to the low 32 bits of the length, and never shrinks |
| `ConfigStream.AllFitIffShort` | src/nn/nn-network.cpp:2264-2286 | All reads of a stream stay in the buffer if and only if every record is shorter than 2^32 bytes, whatever size the buffer had |
| `ConfigStream.OversizedExample` | src/nn/nn-network.cpp:2285-2286 | 8.4 GB of weights are read into a buffer of 4.1 GB |
| `ConfigStream.ExpertsInPlace` | src/nn/nn-network.cpp:2181-2181 | Every expert's slice is written at its place if and only if the last one starts below 2^32 |
| `ConfigStream.WeightReader.Read` | src/nn/nn-network.cpp:2264-2296 | The worker loads exactly the records for ops it has, in order, drops the others, stops at the zero length, consumes exactly the stream and acknowledges once; or it overruns, exactly at the first record that does not fit, with the records before it loaded and nothing acknowledged |
| `ConfigStream.LoadWeights` | src/nn/nn-network.cpp:2123-2153 | Root and worker together: an overrun if and only if a record has 2^32 bytes or more; otherwise the records for the worker's ops are loaded, all of them when it has every op, both directions end empty, the acknowledgement in step |

## Left out

Contracts that say less than the code or its promise:

- Utf8Decoder.Decoder.DetokUtf8: behind an `Overrun`, where the source writes past its buffer, nothing is promised about the state.
- Utf8Decoder.Decoder.Decode: vocabulary strings hold no NUL; a check that fails ends the call as `Refused`, as it ends the program in builds with assertions.
- BpeEncoder.Encoder.Encode: that a broken piece loses the text is claimed for vocabularies whose special tokens start with bytes that are regular tokens by themselves; without that a special token can commute with the bytes it overtakes. Special tokens are not empty, and strings are no longer than the merge buffer, so its truncation never happens. Sorting and binary search of the vocabulary are a lookup that finds a string exactly when it is regular.
- Collectives.ReduceSum: F_32 pipes with whole floats; on the other formats the source adds bit patterns, which exact arithmetic does not reach. In the ring theorems the reduction of a slice is arbitrary.
- PipelineRefinement.PipelineRefinesWhole: one TP and one SP rank per stage, because stage 0 does not send X to further TP ranks; activations cross stages unchanged, with their loss treated by `TransportHistory` instead; the mathematics of each op is a parameter, which `LayerMeaning` composes, and casts between F_32 places are copies.
- StageProtocolTheorems.DrainedEqualsSequential: after a bypassed last job the target stage may still hold markers, so emptiness is claimed when the last job was not bypassed; every other property is claimed in every state.
- StageProtocolTheorems.NoDeadlock: a polling receive returns at once when nothing has arrived; with blocking sockets the first poll could wait for ever on a source that stays silent.
- StageProtocolTheorems.ConsumptionIsExact: channels are FIFO, reliable and unbounded, and protocol steps are values of a state machine, not threads.
- ExecutorBarrierTheorems.ForwardIsSequential: the path without exceptions, shutdown or stall timeout; waiting on the condition variable is polling. Ops are owner-computes over a range of cells; a sync is the work of thread 0 or, where it hands out sockets, a split step with a cell per socket.
- ActivationTransport.Communicator.RecvActivation: payloads are whole floats, wire bytes are opaque cells and the codecs are functions with a bounded error; the checksum only prints a warning and is not modelled.
- TiledGemm.Sgemm: threads run one after another here; `TiledGemm.AnyInterleaving` covers all interleavings of their stores. Matrices are tables of rows rather than strided memory, `k` is a whole number of vectors as each kernel requires, and the fused multiply-add is exact.
- SpKvSync.ShardedIsUndivided: the rows are given and equal on all ranks; beyond layer 0 the code produces such rows only for batches in one slice, which `SpKvModel.InStepIffOneSlice` says.
- TensorParallel.SplitBlockIsWhole: the dense block; sizes divide by ranks and blocks as the source asserts, and activations between the two products are not quantised.
- TensorParallel.SyncedBlock: off the ring; on it `Collectives.MeetsExactly` says what is delivered.
- ContinuousBatching.DecodeRounds: the forward pass and the sampler are a given stream of tokens; a request starts with at least one position left, as the checks on prompt length ensure.
- ContinuousBatching.Prefill: the chunk size is a given positive number.
- TopK.GreedyThroughTopK: logits are reals, so there is no NaN, and an index travels without rounding to a float.
- TopK.FusedArgmax: one batch row and one expert; the rows' dot products are given.
- ConfigStream.WeightReader.Read: behind an overrun, where the source writes past its buffer, nothing is promised beyond the records loaded before.
- SpKvModel.RunRightIff: all ranks see the same positions (per-group overrides of the position are left out), a batch leaves no gap below its positions, and tensor parallelism inside the group is not modelled with it.
- ConfigStream.ReadNode: sizes and pointers travel as raw bytes and are not interpreted.

Parts of the repository that are not modelled:

- Sockets, timeouts, stall logging, turbo mode and the accept order of the worker mesh.
- Rounding, SIMD variants and the bits of the quantised formats.
- What the logits are worth when a stage is really skipped: the bypass is an approximation.
- Pipelines combined with sequence parallelism, and with tensor parallelism beyond the weight routing.
- `repeatZForward_F32_Q80`, whose two phases split by different units, so it is not owner-computes.
- Temperature sampling, top-p, and the random generator.
- Vulkan, shaders, HTTP service, gateway, command line, logging and statistics, converters and scripts.
- Topology arithmetic and the SP group scheduler, which would only add easy members.
