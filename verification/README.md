# Verified models of RCCL's protocols and schedulers

RCCL moves data between GPUs with small protocols built from counters, ring buffers, linked lists and
modular arithmetic. This project models those protocols and the host code that feeds them, and proves
what they are for. `dafny verify dfyconfig.toml` checks everything.

How the code is modelled:

* Where ranks, kernels, host and proxy thread run side by side, the model is a state machine whose steps are
  the single loads, stores, compare-and-swaps and slice operations of the code. A run is any sequence of
  enabled steps, so every theorem about runs covers every interleaving. Memory is sequentially consistent.
* Where one thread works through a loop, the model is a method with that loop (or a class whose fields the
  methods update), proved against a specification function, and the theorems are about that function.
* Counters are unbounded unless their width matters. Where it does (the work FIFO's 32-bit counters, the LL
  flags, the rotated operation count) the width is explicit.

* Where a comment and the code disagree, the model follows the code. The number of local steps of the all-pairs
  order is said to divide or be a multiple of 8 (src/init.cc:1690), but the constant it is rounded with is half of
  `NCCL_MAX_WORK_ELEMENTS_P2P` = 2 (src/include/device.h:296), so the number stays as it is; `P2pOrder.StepsFuse`
  states both.

The parts, in order of difficulty:

| files | what they model |
|---|---|
| `RingProgram`, `RingSetup`, `RingWork`, `RingAllReduce`, `RingCorrectness`, `RingTheorems`, `RingInstance`, `Slicing`, `Reduction` | ring AllReduce over bounded channels, slice by slice, from the host's work element to the result on every rank |
| `SimpleFifo`, `SimpleFifoProof`, `SimpleShapes` | the Simple protocol: cached head and tail counters, slices of differing widths, rounding up of the step |
| `LLFifo`, `LLFifoProof`, `LLProgress`, `LLStore` | the LL protocol: two 8-byte halves with flags, wrapping flags and periodic cleaning |
| `WorkLayout`, `WorkFifo`, `WorkFifoProof`, `WorkFifoWrap`, `WorkFifoTheorems`, `WorkUpload` | the circular heap of work between host and kernels |
| `PlacedLists`, `ProxyPool`, `ProxyLists`, `ProxyPoolProof`, `ProxyPoolTheorems`, `ProxyPoolProgress` | the shared pool of proxy operations |
| `ProxyActive`, `ProxyActiveProof`, `ProxyProgress`, `ProxyGroups` | the progress thread's active list, per-connection chains and groups of operations |
| `TreeAllReduce`, `TreeProof`, `TreeTheorems`, `TreeElements` | tree AllReduce, up and down, over chunks and over elements |
| `P2pDeltas`, `NodeMaps`, `P2pOrder` | the all-pairs order of sends and receives |
| `Bootstrap`, `BootstrapProof`, `BootstrapRounds` | the dissemination barrier over out-of-order connections |
| `CbdSchedule`, `P2pChunks`, `ProxyMerge` | splitting collectives over channels, p2p tasks over plans, merging proxy operations |
| `ReduceCopy`, `ReduceCopyTheorems`, `ReduceCopyFair`, `ReduceCopyRun` | the warp-strided reduction kernel and its threads side by side |
| `RegCache` | the cache of registered buffers |
| `Arith`, `Sequences` | rounding helpers, product laws and sums the proofs use |

## Findings

Properties one might expect of the code that do not hold as stated. Each has a counterexample in the project and
the exact condition under which it does hold.

* A slice can be longer than the buffer steps it is given: slice lengths are rounded up to 16 elements
  (src/device/prims_simple.h:192-195). All slices fit if and only if a chunk has one slice or the room of one
  slice is a multiple of 16 elements (`Slicing.SlicesFitIff`, `Slicing.SliceOverrun`).
* Room for two slices in flight is not enough for the ring (src/device/all_reduce.h:71-199) when a chunk has
  several: it cannot deadlock if and only if a channel holds more slices than a chunk has
  (`RingTheorems.DeadlockFreeIff`, `RingTheorems.Jam`).
* The LL receiver can accept a stale line (src/device/prims_ll.h:98-165). It runs ahead over steps that carry no
  data, so the cleaning that should have removed an old flag may not have happened yet. It is safe if and only if
  the longest gap between steps with data, plus the cleaning period, stays below the flag modulus
  (`LLFifoProof.SafeGapIff`, `LLFifoProof.SparseIsStale`).
* The rolling 32-bit comparison (src/enqueue.cc:1039-1042) is the true one if and only if the counters are less
  than half the range apart (`WorkLayout.RollingLessWrong`).
* The host's wait for FIFO space (src/enqueue.cc:1048-1086) does not end for every plan. Once all channels are idle
  it ends if and only if depth minus works, modulo the counter range, is below half the range: for every plan that
  fits the FIFO, and for none that exceeds it by up to half the range (`WorkFifoTheorems.WaitEndsIff`). The launcher
  gives a plan at most half the FIFO's depth (src/enqueue.cc:1299), so it stays on the safe side.
* A rank that has filled its share of proxy operations (src/proxy.cc:476-506) fails to post if and only if they
  all belong to one operation count (`ProxyPoolTheorems.FullCanPost`); a run that gets there exists for every pool
  and every rank (`ProxyPoolProgress.OneCountFails`).
* When the network refuses a registration (src/register.cc:113-128), the code has already moved the later slots up
  but does not raise the population: the last registration is lost unless the refused range belongs at the end
  (`RegCache.RefusedIff`).

## Model

| member | source | states |
|---|---|---|
| `Slicing.SlicesTile` | src/device/prims_simple.h:192-195 | slice offsets start at 0, never fall and end at the element count, for every count, slice number and room |
| `Slicing.FindSlice` | src/device/prims_simple.h:223-228 | every element of a chunk lies in some slice |
| `Slicing.SliceUnique` | src/device/prims_simple.h:223-228 | and in only one |
| `Slicing.CutSlices` | src/device/prims_simple.h:192-377 | the worker loop followed by the empty-slice loop, and the second loop alone run by the other threads, cut the same consecutive slices from 0 to the count, each of the slice length or the last that is not empty, also for negative counts |
| `Slicing.SliceSizeIs` | src/device/prims_simple.h:192-195 | the slice length is 1/32 of the room or else the least multiple of 16 with which the slices cover the chunk |
| `Slicing.SlicesFitIff` | src/device/prims_simple.h:192-195 | all slices of all chunks that fit their buffer steps fit the steps of one slice iff one slice per chunk or room a multiple of 16 |
| `Slicing.SliceOverrun` | src/device/prims_simple.h:192-195 | otherwise the first slice of the largest chunk is longer than its room |
| `RingProgram.StoreOp` | src/device/all_reduce.h:71-199 | each ring index stores each chunk at exactly one operation of a loop |
| `RingProgram.ChunkHandedOn` | src/device/all_reduce.h:71-199 | what a rank receives belongs to the chunk its predecessor worked on one operation earlier |
| `RingProgram.SendAtRecvd` | src/device/all_reduce.h:71-199 | the m-th receive of a rank pairs with its predecessor's m-th send, one operation earlier in the same loop, at every point of the program |
| `RingSetup.BuildRing` | src/graph/rings.cc:22-57 | succeeds iff the successor links return to the start after visiting every rank; the ring lists the ranks link by link |
| `RingSetup.SetupChannel` | src/init.cc:811-827 | wherever the own rank stands in the ring, the scans give the rotation that starts with it and the distance back to rank 0 |
| `RingSetup.SetupFromLinks` | src/init.cc:811-827 | what each rank computes from its own copy of the ring is its distance from rank 0 along the links |
| `RingSetup.RingFromNext` | src/graph/rings.cc:22-57 | links that form a ring seen from one rank form a ring seen from its successor |
| `RingSetup.IndexNext` | src/init.cc:811-827 | neighbours on the ring get neighbouring indices although each derives its own independently; rank 0 gets 0 |
| `RingSetup.IndexOfHop` | src/init.cc:811-827 | the indices are a bijection: index i belongs to the rank i links after rank 0 |
| `RingWork.LastChunkCount` | src/enqueue.cc:283-289 | the least multiple of the alignment with which n chunks cover the short last loop |
| `RingWork.LastChunkFits` | src/enqueue.cc:283-289 | and it never exceeds the regular chunk length when that is a multiple of the alignment |
| `RingWork.FindBlock` | src/device/all_reduce.h:71-199 | every position of the work range lies in a loop, chunk and slice, short last loop included |
| `RingWork.BlockUnique` | src/device/all_reduce.h:71-199 | and in only one |
| `RingWork.RunRing` | src/device/all_reduce.h:71-199 | one list of 2n-1 calls per loop; each call starts at its chunk of the loop, is as long as the chunk (the short length when less than a loop is left) but never beyond the work, and its slices are exactly the blocks the ring theorems are about |
| `RingWork.RunLoop` | src/device/all_reduce.h:71-199 | one outer iteration makes these 2n-1 calls in the order of the ring program |
| `RingWork.RunCall` | src/device/prims_simple.h:192-377 | the slices cut from one call are the next slice operations of the ring program |
| `RingWork.RunSlices` | src/device/all_reduce.h:71-199 | the kernel down to its slices, for worker and other threads: its q-th slice operation has the kind and range the program has at its q-th position, and it ends where the program ends |
| `RingCorrectness.NoMismatch` | src/device/all_reduce.h:71-199 | in every reachable state both ends of a channel agree on the length of the next slice |
| `RingCorrectness.OwnInputIntact` | src/device/all_reduce.h:71-199 | in-place safety: a rank's own input is still unchanged whenever the reduce phase reads it |
| `RingCorrectness.StepInv` | src/device/all_reduce.h:71-199 | every slice operation of every rank keeps the global invariant on channels, partial sums and outputs |
| `RingCorrectness.RunInv` | src/device/all_reduce.h:71-199 | the invariant holds in every state of every run |
| `RingTheorems.FullTurn` | src/device/all_reduce.h:71-199 | combining around the ring from any start equals reducing all ranks once |
| `RingTheorems.FinalIsReduction` | src/device/all_reduce.h:71-199 | what the ring computes for a position is the post-operation, once, of the reduction of all ranks |
| `RingTheorems.FinishedOutput` | src/device/all_reduce.h:71-199 | a finished rank's output holds the ring value throughout the work range and is untouched elsewhere |
| `RingTheorems.AllReduceCorrect` | src/device/all_reduce.h:71-199 | for every rank count, work and interleaving, a finished rank holds the post-processed reduction at every position, in place or not |
| `RingTheorems.NoDeadlock` | src/device/all_reduce.h:71-199 | with room for more slices than a chunk has, no reachable state is stuck |
| `RingTheorems.Jam` | src/device/all_reduce.h:71-199 | with less room, any run still in its first sends extends to a stuck one |
| `RingTheorems.DeadlockFreeIff` | src/device/all_reduce.h:71-199 | no run gets stuck iff a channel holds more slices than one chunk has |
| `RingInstance.WorkIsTiled` | src/enqueue.cc:283-303 | every work element the host issues satisfies the assumptions of the ring theorems, with the block ranges of the kernel |
| `RingInstance.RunFollowsKernel` | src/device/all_reduce.h:71-199 | in every state of every run each rank stands at a slice operation of the kernel's list, its next step is that operation, and it is done exactly after all of them |
| `RingInstance.StepsAsAnnounced` | src/enqueue.cc:244-248 | a finished rank has sent and received exactly the steps announced to the proxy |
| `RingInstance.RunEnds` | src/device/all_reduce.h:71-199 | every run is finite, with an explicit bound |
| `RingInstance.RingOrderReduces` | src/init.cc:811-827 | reducing in ring order equals reducing in rank order |
| `RingInstance.AllReduceByRank` | src/device/all_reduce.h:71-199 | the result stated over user ranks: every finished rank holds, at every position, the post-processed reduction of the pre-processed values of all ranks |
| `SimpleFifoProof.NoOverwrite` | src/device/prims_simple.h:110-181 | the slot about to be written holds nothing still to be read |
| `SimpleFifoProof.ReadsWritten` | src/device/prims_simple.h:110-181 | the slot about to be read holds what the sender put there for that very slice |
| `SimpleFifoProof.StepInv` | src/device/prims_simple.h:110-378 | polling, acquiring, copying, posting and moving on, by either end, keep the invariant |
| `SimpleFifoProof.RunInv` | src/device/prims_simple.h:110-378 | the invariant holds on every run |
| `SimpleFifoProof.Fifo` | src/device/prims_simple.h:110-378 | refinement of an unbounded queue: what was received at a place is what was sent there, and everything up to the receiver's place was received |
| `SimpleFifoProof.Safe` | src/device/prims_simple.h:110-378 | on every run no copy leaves the buffer, overwrites an unread slot or reads an unwritten one |
| `SimpleFifoProof.NoDeadlock` | src/device/prims_simple.h:110-181 | with stale cached counters, one end can always move until both are finished |
| `SimpleFifoProof.RecvWaitIff` | src/device/prims_simple.h:110-125 | with the tail seen, the receiver goes on exactly when the slice has been posted |
| `SimpleFifoProof.SendWaitIff` | src/device/prims_simple.h:110-125 | with the head seen, the sender goes on exactly when every earlier slice whose buffer slots it uses again has been given back |
| `SimpleShapes.RunUse` | src/device/prims_simple.h:183-378 | an operation advances the step once per slice |
| `SimpleShapes.AssignSteps` | src/device/prims_simple.h:547-632 | every operation starts at the least multiple of its whole chunk at or after the step saved by the one before (0 at first), its slices follow one width apart, and it saves the step after its last slice; these are the steps of the FIFO theorems |
| `SimpleShapes.AlignedFits` | src/device/prims_simple.h:547-552 | a slice at a multiple of its width does not cross the end of the buffer |
| `SimpleShapes.FitsIff` | src/device/prims_simple.h:547-552 | consecutive slices stay inside the buffer iff their width divides the number of slots |
| `SimpleShapes.UsesAreValid` | src/device/prims_simple.h:547-592 | every sequence of operations with dividing widths satisfies the assumptions of the FIFO theorems |
| `LLFifoProof.NeverAhead` | src/device/prims_ll.h:61-66 | the sender never writes a slot the receiver has not passed |
| `LLFifoProof.StartIff` | src/device/prims_ll.h:98-110 | with the head seen, the sender starts a step exactly when all earlier steps of its slot have been given back |
| `LLFifoProof.MatchIsFresh` | src/device/prims_ll.h:137-165 | without hazards, a half with the expected flag was written at the expected step and holds that half of the data of that step |
| `LLFifoProof.HazardIsStale` | src/device/prims_ll.h:137-165 | each hazard is met by some run that accepts an old line |
| `LLFifoProof.NeverStaleIff` | src/device/prims_ll.h:98-165 | for every schedule of line counts: every line accepted on any run is both halves of the data of its step, iff no visible old half carries the expected flag |
| `LLFifoProof.MemoryHolds` | src/device/prims_ll.h:98-135 | in every reachable state each half in memory has the flag of the step it was written at, and the data of that step, or 0 if it was cleaned or never written |
| `LLFifoProof.ValuesArrive` | src/device/prims_ll.h:137-165 | without hazards, the two words of an accepted line put together are the 64-bit value that was sent |
| `LLFifoProof.DenseIsSafe` | src/device/prims_ll.h:98-135 | data gap plus cleaning period below the modulus leaves no hazard, for unboundedly many steps |
| `LLFifoProof.SparseIsStale` | src/device/prims_ll.h:98-135 | a schedule on which a stale line is accepted |
| `LLFifoProof.SafeGapIff` | src/device/prims_ll.h:98-165 | all schedules with gaps up to `gap` are safe iff gap plus period stays below the modulus |
| `LLFifoProof.MaskSelects` | src/include/device.h:70-80 | the mask test on 64-bit steps selects the last eight of every 2^31 (of every 128 in the clean-up test build) |
| `LLFifoProof.ShippedConstants` | src/include/device.h:70-80 | for either shipped setting, all schedules with data gaps up to `gap` are safe iff the gap is shorter than the cleaning period |
| `LLProgress.NeverStuck` | src/device/prims_ll.h:61-165 | from every reachable state, whatever flags are in memory, the two ends can bring the receiver past any step |
| `LLStore.DataLines` | src/device/prims_ll.h:407-480 | a thread stores exactly its strided lines that hold elements |
| `LLStore.CleanLines` | src/device/prims_ll.h:98-135 | and cleans exactly its lines from there to the end of the slot |
| `LLStore.StoreLines` | src/device/prims_ll.h:407-480 | data and cleaning together, also for negative counts |
| `LLStore.OneThreadPerLine` | src/device/prims_ll.h:407-480 | every line belongs to exactly one thread and trip |
| `LLStore.ThreadsWriteStep` | src/device/prims_ll.h:407-480 | what all threads together store in a step are exactly the halves the protocol model writes in that step, each line by one thread, data below the count and zeros from there on |
| `WorkLayout.RollingLessTrue` | src/enqueue.cc:1039-1042 | on counters less than half the range apart the wrapped comparison is the true one |
| `WorkLayout.RollingMinTrue` | src/enqueue.cc:1043-1046 | and so is the minimum |
| `WorkLayout.RollingLessWrong` | src/enqueue.cc:1039-1042 | exactly then |
| `WorkLayout.IxInPlan` | src/enqueue.cc:1118-1137 | first works come first and all works of a plan use consecutive places |
| `WorkLayout.IxInjective` | src/enqueue.cc:1118-1137 | no two works of a plan share a place |
| `WorkLayout.IxAscends` | src/enqueue.cc:1118-1137 | a channel's works lie in increasing order |
| `WorkLayout.TotalIsCount` | src/enqueue.cc:1091-1092 | places used equal the works of all channels together |
| `WorkLayout.HeadFits` | src/enqueue.cc:1107-1115 | the rounding puts the first works side by side without wrapping, skips places only when they would cross the end, and then starts at the beginning |
| `WorkFifoProof.AckdAllIsMin` | src/enqueue.cc:1060-1066 | the value computed is the least over the channels that still owe an acknowledgement |
| `WorkFifoProof.NoOverwrite` | src/enqueue.cc:1048-1086 | the slot about to be stored to holds no work still to be read |
| `WorkFifoProof.StepInv` | src/enqueue.cc:1048-1145 | polling, settling, storing, launching and every device step keep the invariant |
| `WorkFifoProof.RunInv` | src/enqueue.cc:1048-1145 | on every run |
| `WorkFifoWrap.RunWraps` | src/enqueue.cc:1039-1086 | every run on wrapping counters is the image of a run on unbounded ones |
| `WorkFifoTheorems.ChannelsReadTheirQueues` | src/device/common.h:299-363 | at any moment a channel's kernels have read exactly the first queues it was given, in order, and a prefix of the next |
| `WorkFifoTheorems.NeverOverwritten` | src/enqueue.cc:1105-1143 | with wrapping counters, no store ever falls on unread work |
| `WorkFifoTheorems.DeviceNeverStuck` | src/device/common.h:327-363 | a channel with a launched kernel can always go on |
| `WorkFifoTheorems.WaitEndsIff` | src/enqueue.cc:1048-1086 | with all channels idle the wait ends iff depth minus works, on the counter circle, is not negative: always for a plan that fits, never for one too long by up to half the circle |
| `WorkFifoTheorems.DrainedIsQuiet` | src/enqueue.cc:1060-1080 | a channel that has read everything is found idle, also after its counter was moved up |
| `WorkUpload.WaitRound` | src/enqueue.cc:1060-1080 | one polling round over the arrays computes this minimum and moves exactly the idle channels up |
| `WorkUpload.UploadQueue` | src/enqueue.cc:1121-1137 | one channel's queue is stored and linked, nothing else is touched |
| `WorkUpload.UploadWork` | src/enqueue.cc:1117-1143 | after the upload every work is at its place with the right link or acknowledgement, and all unused slots are as before |
| `ProxyPool.CutAt` | src/proxy.cc:479-497 | the cut keeps together the trailing operations of one count |
| `ProxyPool.FindCut` | src/proxy.cc:479-497 | the loop along the chain in memory finds that cut |
| `ProxyPoolProof.StepInv` | src/proxy.cc:436-509 | every load, compare-and-swap and link of the ranks and the thread keeps the invariant |
| `ProxyPoolTheorems.InitPool` | src/proxy.cc:1261-1265 | the initialisation chains each rank's operations into its own free list |
| `ProxyPoolTheorems.RunInv` | src/proxy.cc:436-803 | the invariant holds on every run of any number of ranks and the thread |
| `ProxyPoolTheorems.Partitioned` | src/proxy.cc:436-803 | at every moment every operation is on exactly one list, once, and lists of a rank hold only its own |
| `ProxyPoolTheorems.HandedInOrder` | src/proxy.cc:742-798 | what the thread took over from a rank is a prefix of what the rank appended; the rest is taken, posted or unposted, in order |
| `ProxyPoolTheorems.SwapNeverMismatches` | src/proxy.cc:785-795 | the error after a failed compare-and-swap cannot happen |
| `ProxyPoolTheorems.WaitingHasOne` | src/proxy.cc:448-466 | a rank waiting for a free operation has one outside its unposted chain |
| `ProxyPoolProgress.EffortFalls` | src/proxy.cc:716-803 | every step of the thread, handing over or giving back, brings it closer to having nothing to do |
| `ProxyPoolProgress.ThreadStops` | src/proxy.cc:716-803 | so thread steps alone end after a bounded number of them |
| `ProxyPoolProgress.WaitingIsServed` | src/proxy.cc:448-466 | and when the thread can do no more, a rank that waits finds an operation on its shared list |
| `ProxyPoolTheorems.FullCanPost` | src/proxy.cc:476-506 | a full chain can be posted in part unless all its operations have one count, and only then fails |
| `ProxyPoolTheorems.FullIff` | src/proxy.cc:469-476 | on every run, a rank is made to post exactly when its unposted chain has reached the limit |
| `ProxyPoolTheorems.StartPostsAll` | src/proxy.cc:904-915 | a regular post takes the whole unposted chain |
| `ProxyPoolTheorems.FullPostsUpToCount` | src/proxy.cc:479-506 | a forced post takes a proper front part and keeps exactly the trailing operations of the last count |
| `ProxyPoolProgress.OneCountFails` | src/proxy.cc:476-506 | for every pool and rank there is a run that appends operations of one count until the post fails |
| `ProxyActiveProof.GrowInv` | src/proxy.cc:192-216 | refilling the empty pool keeps free list, active list and chains a partition, and leaves no element outside them |
| `ProxyActiveProof.TakeInv` | src/proxy.cc:192-216 | so does taking an element |
| `ProxyActiveProof.PutActiveInv` | src/proxy.cc:399-434 | so does entering it as the last active element |
| `ProxyActiveProof.PutBehindInv` | src/proxy.cc:399-434 | or behind the last one of its connection |
| `ProxyActiveProof.JoinInv` | src/proxy.cc:350-396 | or adding a part to the last one |
| `ProxyActiveProof.RunInv` | src/proxy.cc:692-712 | or starting a head |
| `ProxyActiveProof.RemoveInv` | src/proxy.cc:661-690 | or removing a finished head |
| `ProxyProgress.AppendedInv` | src/proxy.cc:399-434 | appending keeps partition and arrival order, also when it fails, and leaves no element outside the lists |
| `ProxyProgress.AppendArrives` | src/proxy.cc:350-434 | the same of the append on the abstract lists |
| `ProxyProgress.HistoryInv` | src/proxy.cc:399-712 | and so does any history of appends, starts and completions |
| `ProxyProgress.OnePlace` | src/proxy.cc:399-712 | when no element is in anyone's hands, each is in the free list or in the chain of exactly one connection, never both |
| `ProxyProgress.ServedInOrder` | src/proxy.cc:399-712 | in every history each allocated element is free or in the chain of exactly one connection, an append pointer is the tail of its chain, each connection's operations finish in arrival order and only a head runs |
| `ProxyGroups.HistoryGroups` | src/proxy.cc:350-434 | in every state of every history, all parts of a queued element have its connection and its count, several only on a shared connection and no more than allowed |
| `ProxyGroups.GroupsHold` | src/proxy.cc:350-434 | the same of each element of each chain; and if no append failed, all its parts have its parameters |
| `ProxyProgress.Progress.constructor` | src/proxy.cc:192-216 | starts with nothing allocated and no connection active |
| `ProxyProgress.Progress.Refill` | src/proxy.cc:192-210 | the refill loop realises the specified growth |
| `ProxyProgress.Progress.AllocateArgs` | src/proxy.cc:192-216 | allocation takes the pool's first element |
| `ProxyProgress.Progress.LastActive` | src/proxy.cc:424-427 | the walk ends at the last active element |
| `ProxyProgress.Progress.AppendActive` | src/proxy.cc:415-432 | the pointer changes realise the specified insertion |
| `ProxyProgress.Progress.AppendBehind` | src/proxy.cc:407-413 | the same behind a running operation |
| `ProxyProgress.Progress.ProxyAppend` | src/proxy.cc:399-434 | the whole append, with its error result: a shared operation of the count of its connection's last element joins it (refused when full, an error when parameters differ or it runs); any other enters alone as a new element, last in its chain, active if the chain was empty; all other elements stay as they are |
| `ProxyProgress.Progress.Unlink` | src/proxy.cc:661-684 | the pointer changes of the removal, from pointers alone |
| `ProxyProgress.Progress.RemoveOp` | src/proxy.cc:661-690 | are the removal of one element of the lists; the pass continues with the right neighbours |
| `ProxyProgress.Progress.StayOne` | src/proxy.cc:697-708 | an element that is not done stays where it is, changed at most to running, and the pass moves on |
| `ProxyProgress.Progress.ProgressOne` | src/proxy.cc:692-712 | one step of a pass, whatever the element's fate |
| `ProxyProgress.Progress.ProgressOps` | src/proxy.cc:692-712 | a pass runs every element that was active at its start exactly once and in order, and removes exactly the finished heads |
| `TreeProof.SumIsSub` | src/device/all_reduce.h:251-338 | what a rank sends up is the sum of its subtree |
| `TreeProof.StepInv` | src/device/all_reduce.h:251-338 | every step of every rank keeps the invariant |
| `TreeProof.RunInv` | src/device/all_reduce.h:251-338 | on every run |
| `TreeProof.FinishedOutput` | src/device/all_reduce.h:251-338 | a finished rank holds the root's value in every chunk |
| `TreeProof.NoDeadlock` | src/device/all_reduce.h:251-338 | with any room in the channels no reachable state is stuck |
| `TreeTheorems.AccIsReduction` | src/device/all_reduce.h:251-338 | what a rank accumulates is the reduction of the ranks visited so far below it |
| `TreeTheorems.SubtreeOnce` | src/device/all_reduce.h:251-338 | a subtree combines exactly the ranks below its root, each once |
| `TreeTheorems.AllVisited` | src/device/all_reduce.h:251-338 | from the root every rank is combined exactly once |
| `TreeTheorems.FinalIsReduction` | src/device/all_reduce.h:251-338 | the root's value is the post-operation, once, of the reduction of all inputs |
| `TreeTheorems.AllReduceCorrect` | src/device/all_reduce.h:251-338 | on every run over every tree a finished rank holds that value in every chunk |
| `TreeTheorems.RunEnds` | src/device/all_reduce.h:251-338 | no run is longer than two steps per rank and chunk |
| `TreeElements.ChunkLoop` | src/device/all_reduce.h:251-338 | chunk k starts k chunk lengths after the start and is cut off at the end of the part |
| `TreeElements.LoopCuts` | src/device/all_reduce.h:251-338 | these chunks are a cutting of the part into consecutive non-empty pieces, as the element theorem takes it |
| `TreeElements.ChunkOf` | src/device/all_reduce.h:251-338 | each element belongs to exactly one chunk |
| `TreeElements.LiftLaws` | src/device/all_reduce.h:251-338 | combining whole chunks is associative and commutative when combining elements is |
| `TreeElements.LiftReduce` | src/device/all_reduce.h:251-338 | and reduces each element separately |
| `TreeElements.InChunksValid` | src/device/all_reduce.h:251-338 | cutting the ranks' buffers anywhere gives chunks the chunk theorems apply to |
| `TreeElements.AllReduceElements` | src/device/all_reduce.h:251-338 | on every run over every tree and every cutting, a finished rank holds at every element the post-operation, once, of the reduction of all ranks' elements there |
| `P2pDeltas.ScheduleFour` | src/init.cc:1684-1726 | the jumps visit the up to four distances of one d |
| `P2pDeltas.ScheduleDeltas` | src/init.cc:1684-1726 | the loop over d gives the whole order of distances |
| `P2pDeltas.EmitIsClass` | src/init.cc:1684-1726 | d, n-d, n/2-d and n-(n/2-d), without repetition and in this order, are exactly the distances of class d |
| `P2pDeltas.EmitInOrder` | src/init.cc:1684-1726 | the jumps of the loop keep the first occurrence of each of the four, in order |
| `P2pDeltas.DeltasOnce` | src/init.cc:1684-1726 | for every node count every distance is visited exactly once |
| `NodeMaps.AssignNodes` | src/init.cc:1479-1513 | ranks get one node number iff they report the same first rank; all numbers below the count are used, in the order of first appearance |
| `NodeMaps.LocalNumbers` | src/init.cc:1479-1513 | local ranks number the ranks of a node in rank order |
| `NodeMaps.Largest` | src/init.cc:1479-1513 | the largest node is found |
| `NodeMaps.ListRanks` | src/init.cc:1479-1513 | node-to-rank lists and rank-to-local numbers are inverse; each list rises and has every rank of its node |
| `NodeMaps.NumberRanks` | src/init.cc:1479-1513 | counting and filling together give both maps and the size of the largest node |
| `P2pOrder.StepsSuffice` | src/include/align.h:16-17 | the rounded number of local steps is enough for the largest node |
| `P2pOrder.StepsFuse` | src/include/align.h:16-17 | rounding to a power 1 keeps the number; to 8 it gives the least number from there on that divides 8 or is a multiple of it |
| `P2pOrder.FillNode` | src/init.cc:1684-1726 | one distance fills one node's worth of positions |
| `P2pOrder.FillOrder` | src/init.cc:1684-1726 | the loops fill every position of both orders with the partner of its distance and step |
| `P2pOrder.Mirrored` | src/init.cc:1684-1726 | a sends to b at a position iff b receives from a there |
| `P2pOrder.SendIs` | src/init.cc:1684-1726 | the one distance and step at which a sends to b |
| `P2pOrder.SendsOnce` | src/init.cc:1684-1726 | every rank is sent to at exactly one position, whatever the ranks per node |
| `P2pOrder.ReceivesOnce` | src/init.cc:1684-1726 | and received from at exactly one |
| `P2pOrder.OrdersFit` | src/init.cc:1684-1726 | of the two arrays themselves: rank a's send order has b at an index iff b's receive order has a at that index |
| `P2pOrder.OrderOnce` | src/init.cc:1684-1726 | and each order of a rank has every rank at exactly one index |
| `Bootstrap.Unexpected.Enqueue` | src/bootstrap.cc:497-514 | the walk along the linked list ends at its last node; the new node is linked there, the list stays a list and all earlier nodes keep their place |
| `Bootstrap.Unexpected.Unlink` | src/bootstrap.cc:522-526 | redirecting the one pointer, of the head or of the node before, takes exactly that node out |
| `Bootstrap.Unexpected.Dequeue` | src/bootstrap.cc:516-536 | the walk unlinks the oldest match, the other nodes keep their order; found iff present |
| `BootstrapProof.StepInv` | src/bootstrap.cc:424-577 | sending, accepting, setting aside and returning keep the invariant |
| `BootstrapProof.RunInv` | src/bootstrap.cc:424-577 | on every run over any number of barriers |
| `BootstrapProof.NoEarlyReturn` | src/bootstrap.cc:442-461 | no rank returns from a barrier before every rank has entered it |
| `BootstrapProof.NothingLost` | src/bootstrap.cc:497-577 | every barrier message is in flight, set aside or received, once, for the round it was meant for |
| `BootstrapProof.AlwaysProgress` | src/bootstrap.cc:442-461 | until all barriers are complete some rank can go on |
| `BootstrapRounds.MaskLoop` | src/bootstrap.cc:442-461 | the doubling loop talks to the ranks at powers of two |
| `BootstrapRounds.EveryoneReached` | src/bootstrap.cc:442-461 | after the last round everyone has been heard of, for every rank count |
| `BootstrapRounds.MaskIsValid` | src/bootstrap.cc:442-461 | the loop satisfies the assumptions of the barrier theorems, power of two or not |
| `CbdSchedule.SharesSuffice` | src/enqueue.cc:876-879 | the share is the least multiple of 16 with which the usable channels hold the whole queue |
| `CbdSchedule.ShareIsEven` | src/enqueue.cc:876-892 | filling the channels in order up to the share spreads the bytes evenly: every channel gets less than its part of the total plus 16 bytes and one alignment unit, and a channel gets any only when the ones before it have their part |
| `CbdSchedule.TiledOnce` | src/enqueue.cc:489-555 | every position of a collective is in exactly one element |
| `CbdSchedule.PortionFills` | src/enqueue.cc:511-514 | a portion fills the channel or ends the collective, is whole alignment units unless it ends it, and overshoots by less than one |
| `CbdSchedule.TakePortion` | src/enqueue.cc:511-514 | a channel takes a positive number of elements that fills it or ends the collective, in whole alignment units unless it ends it, and bytes and elements stay in step |
| `CbdSchedule.FillChannel` | src/enqueue.cc:511-555 | one channel takes its portion or is passed over |
| `CbdSchedule.AddColl` | src/enqueue.cc:489-571 | while the queue fits the shares, a collective is covered completely, in whole units but for its last element, the counters grow by exactly what was placed and no channel is used before the ones in front of it are full |
| `CbdSchedule.SchedulePlan` | src/enqueue.cc:876-892 | under any budget cut, every collective taken is covered completely, and the load of every channel times the channels stays below the total plus the channels times 16 bytes and a unit |
| `CbdSchedule.ScheduleAll` | src/enqueue.cc:788-892 | over any number of plans the queue is served in order, each collective whole, in priced alignment units on increasing channels |
| `ReduceCopy.HunkPacks` | src/device/common_kernel.h:78-130 | a hunk's packs lie one warp width apart, as many as the unroll factor |
| `ReduceCopy.HunksAre` | src/device/common_kernel.h:45-65 | an unrolled pass takes as many whole hunks as fit, a pass without unrolling as many as hold the remaining whole packs |
| `ReduceCopy.TakeHunk` | src/device/common_kernel.h:78-130 | the packs a thread takes in one trip are those its warp, lane and trip number say |
| `ReduceCopy.ThreadPass` | src/device/common_kernel.h:45-183 | a thread's loop takes exactly its hunks, and its warp is renumbered by the hunks taken |
| `ReduceCopyTheorems.OnePlace` | src/device/common_kernel.h:45-65 | every pack has exactly one warp, lane, trip and unroll position |
| `ReduceCopyTheorems.PassOnce` | src/device/common_kernel.h:45-183 | a pass handles exactly the bytes of its packs, each at one place |
| `ReduceCopyTheorems.RotateOnto` | src/device/common_kernel.h:160-183 | the renumbering is a permutation of the warps |
| `ReduceCopyTheorems.WarpOnto` | src/device/common_kernel.h:160-183 | also after any number of passes |
| `ReduceCopyFair.InTurn` | src/device/common_kernel.h:160-183 | over any number of passes each warp takes as many hunks as if all of them were dealt to the warps in turn |
| `ReduceCopyFair.EvenWarps` | src/device/common_kernel.h:160-183 | so no warp takes more than one hunk more than another |
| `ReduceCopyTheorems.AllConsumed` | src/device/common_kernel.h:206-265 | nothing is left after the last pass |
| `ReduceCopyTheorems.EveryByteOnce` | src/device/common_kernel.h:206-265 | across all threads and passes every byte is handled exactly once |
| `ReduceCopyTheorems.LibraryPassesValid` | src/device/common_kernel.h:206-265 | the passes of the library satisfy the assumptions, aligned or not |
| `ReduceCopyTheorems.ElementTogether` | src/device/common_kernel.h:206-265 | all bytes of an element are handled in the pass and at the place that handles its first byte |
| `ReduceCopyTheorems.EveryElementOnce` | src/device/common_kernel.h:206-265 | so every element has exactly one pass, warp, lane, trip and unroll position |
| `ReduceCopyRun.StepInv` | src/device/common_kernel.h:78-183 | one load or store of any thread keeps the invariant: what a thread has not yet stored, its sources still hold as they were |
| `ReduceCopyRun.RunInv` | src/device/common_kernel.h:78-183 | on every run |
| `ReduceCopyRun.JobsAreElements` | src/device/common_kernel.h:206-265 | over all passes and renumberings, the elements the threads take are all elements, each once |
| `ReduceCopyRun.NobodyWaits` | src/device/common_kernel.h:78-183 | a thread's unfinished element can always be loaded or stored next |
| `ReduceCopyRun.ReduceCopyCorrect` | src/device/common_kernel.h:206-265 | for every interleaving of all threads over all passes, once all have stored, every destination holds the element-wise reduction of the original sources, also when it is a source, and nothing else has changed |
| `ReduceCopyRun.DestinationsHold` | src/device/common_kernel.h:206-265 | written out: each element of each destination is the post-operation of the reduction of the pre-processed sources |
| `P2pChunks.AlignUpRounds` | src/include/align.h:41-45 | for a power of two the mask expression rounds up |
| `P2pChunks.ChunkSize` | src/enqueue.cc:917-925 | the channels are doubled as often as it takes for a chunk to be small enough, but not beyond those there are, and the size is rounded up to the minimal one; a transfer then fits the channels of a peer iff the minimal size is positive or there is nothing to transfer |
| `P2pChunks.ElemInTask` | src/enqueue.cc:975-1031 | a task has the elements that start below its bytes, and the last one ends with it |
| `P2pChunks.ByteOnce` | src/enqueue.cc:975-1031 | every byte of a task is in exactly one element |
| `P2pChunks.ChunksFitChannels` | src/enqueue.cc:589 | the modulo on the chunk number never wraps |
| `P2pChunks.EmitOne` | src/enqueue.cc:975-1031 | one element of one side; an empty task gives exactly one |
| `P2pChunks.Exchange` | src/enqueue.cc:947-1031 | under any budget both sides have emitted their elements in order, and all of them unless cut |
| `P2pChunks.Resumed` | src/enqueue.cc:975-1031 | a task resumed in a later plan continues with the next element, so the plans together emit it once and in order |
| `ProxyMerge.RotationIsKey` | src/enqueue.cc:1174-1176 | rotating the 64-bit count is the sort key used here |
| `ProxyMerge.KeyOrder` | src/enqueue.cc:1174-1176 | the key orders collectives before point-to-point, then by number, and tells all counts apart |
| `ProxyMerge.TranslatedMoves` | src/enqueue.cc:1187-1195 | a translated count keeps its kind and adds the base of its kind to its number |
| `ProxyMerge.BumpIsLast` | src/enqueue.cc:1187-1195 | the numbers a queue uses up are one more than that of its last point-to-point operation |
| `ProxyMerge.MinHead` | src/enqueue.cc:1169-1178 | the search finds the least head, the lowest channel on ties, and never an empty channel |
| `ProxyMerge.MergeOps` | src/enqueue.cc:1158-1206 | every channel's operations come out once, in order and moved by their base; the whole is sorted when the queues are; the bumps are one past the last number of each queue |
| `ProxyMerge.BuildKeeps` | src/enqueue.cc:624-631 | adding a collective or a point-to-point operation keeps every queue sorted and its numbers in range |
| `ProxyMerge.BuiltOk` | src/enqueue.cc:1302-1312 | however a plan is built, collectives first, its queues are sorted |
| `ProxyMerge.SameWorkSameCount` | src/enqueue.cc:575-631 | two point-to-point operations of a channel get one count exactly when they are in one work |
| `ProxyMerge.CollsNumbered` | src/enqueue.cc:624-631 | collectives are numbered in the order they are added, alike on all channels they need |
| `ProxyMerge.SharedCounts.UploadProxyOps` | src/enqueue.cc:1153-1212 | a plan is handed over whole and both counts advance by what it used |
| `ProxyMerge.PlanPasses` | src/enqueue.cc:1187-1195 | a plan moves the counts past every operation of its queues |
| `ProxyMerge.NoCollision` | src/enqueue.cc:1187-1212 | over any sequence of plans, translated counts on a channel never collide and grow within a kind |
| `ProxyMerge.OrderKept` | src/enqueue.cc:1187-1195 | translation keeps the order within a plan |
| `RegCache.CoversIff` | src/register.cc:91-100 | the page test holds iff every byte of the buffer lies in the registered range, empty buffers included |
| `RegCache.ScanMissesNone` | src/register.cc:95-103 | stopping at the first higher address misses no range |
| `RegCache.InsertOrdered` | src/register.cc:113-128 | a new range goes where the slots stay sorted |
| `RegCache.RefusedIff` | src/register.cc:113-128 | a refused registration leaves the counts right iff it belongs at the end; otherwise the last registration is lost |
| `RegCache.RegisterKeeps` | src/register.cc:106-136 | registering keeps order; counts stay equal to outstanding registrations and ranges no larger than the pages of a registered buffer, iff it is not refused before the end |
| `RegCache.DeregisterKeeps` | src/register.cc:163-183 | giving back keeps both, and a range leaves exactly with its last registration |
| `RegCache.Cache.constructor` | src/register.cc:88-103 | an empty cache is valid |
| `RegCache.Cache.Scan` | src/register.cc:95-103 | the loop stops at the first range that holds the buffer or starts above it |
| `RegCache.Cache.Find` | src/register.cc:88-103 | found iff some live range holds the buffer, and a range found is exactly the pages of some buffer still registered; always found while registered |
| `RegCache.Cache.Register` | src/register.cc:106-136 | the handle returned covers the buffer; fails iff the network refuses and no range holds it |
| `RegCache.Cache.Deregister` | src/register.cc:163-183 | refused iff the handle is not live |

## Left out

- Sockets, shared memory, streams, graph capture, plugins, environment parameters, logging: input and output.
- Topology search, tuning and cost models: floating-point heuristics.
- NVLS, CollNet, MSCCL, LL128, direct and registered-buffer transfers.
- Weak memory: all models assume sequential consistency; fences are not modelled.
- Persistent (graph) plans in the work FIFO; the model covers plans uploaded once.
- The device's search from block number to channel: the mapping is taken as given.
- Point-to-point operations of a rank with itself across a plan cut.
- AllToAllPivot, which the byte-balanced scheduler treats separately.
- Abort flags, the cleanup after errors, rounds of launches, connection retries and the proxy's RPC service.
- The payload of operations, elements and connections: carried along as opaque values.
- The work budget of a plan: an arbitrary cut, chosen by the caller of each scheduler method.
- The bit masks of the work FIFO: remainders by the depth, which agree for powers of two.
- WorkFifoTheorems.NeverOverwritten: for plans of at most `depth` works and a depth of at most an eighth of the counter range; `WaitEndsIff` says which longer plans would get past the wait.
- RingTheorems.AllReduceCorrect: the operator is associative and commutative; floating-point rounding is not modelled. The same holds for TreeElements.AllReduceElements.
- LLProgress.NeverStuck: says how the two ends can go on, not that a scheduler lets them.
- ProxyMerge.MergeOps: operation numbers stay in the range of a signed 32-bit counter within a plan; totals over plans are unbounded.
- RegCache.Cache.Register: addresses do not wrap; growing the slot array is a longer sequence.
- SimpleShapes.AssignSteps: slice widths divide the number of slots, as the library's shapes do.
