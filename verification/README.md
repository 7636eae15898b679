# Octopus, modelled and proved

Octopus is a cycle-stepped simulator of coherent caches, buses and memory, which can run under gem5
through a bridge. The coherence tables are data; what this project models is the machinery around
them, each part in the form the simulator gives it: classes whose methods change their fields, with
the loops of the original, proved against functions and invariants on plain values, and theorems over
whole runs of those values.

| part | files |
|---|---|
| storage of one cache: array, MSHRs, write-back buffer, way partition | `Geometry`, `CacheLine`, `WayPartition`, `CacheMap`, `CacheHistory`, `CacheStore` |
| gem5 bridge: which data operation may run when | `BridgeOrder`, `BridgeTable`, `Bridge` |
| processing queue of a controller | `Messages`, `ProcessingQueue`, `QueueProperties` |
| pipelined data array, and the controller that feeds it from the queue | `ArrayPipeline`, `ControllerModel`, `Scheduler`, `ControllerOrder`, `Service`, `Controller` |
| arbiters: TDM, round robin, FCFS | `Arbiters` |
| event clock and the bridge's pacing loop | `Clock` |
| snoop bus | `Bus` |
| latency reports: oldest, effective, stage columns | `LatencyLog`, `StageColumns` |
| periodic tasks of a core | `PeriodicTask` |
| shared: options, filters and totals of sequences | `Wrappers`, `Sequences` |

How the parts are built: a value datatype holds the state and, where a promise is about the past, its
history; functions say what one operation does to it; lemmas say what every operation keeps and what
holds over every run. The class beside it does the work in place and carries a ghost copy of the value
(or a function that reads it off), and each method's contract says which function moved it.

Where the code and what is written about it part ways, the code is followed:

- `BaseController::processLogic` puts a request back that fails admission and its comment says a slot
  is guaranteed. It is, exactly when the queue was within its bound before the pop; forced pushes can
  take it beyond, and the request is then lost (`Requeue`). A request put back also goes behind younger
  ones to its own line, and the per-line gate then serves those first: the order of a line holds over a
  run exactly when no request is put back while a younger one of its line is queued
  (`PutBackOrder.InOrderIffNotOvertaken`, and for a whole controller
  `ControllerOrder.LineOrderIffNotOvertaken`).
- `GenericCacheLine::modifyData` guards its copy with a test of the offset alone. The offset is taken
  modulo the block size, so the test never fires, and the copy runs past the line exactly when the bytes
  reach past the end of the block (`CacheStore.Store.ModifyData`).
- The tiling check of `Logger::finalizeEvents` says whether milestones go back, not whether the printed
  columns add up (`StageModel.CheckPassesColumnsDoNot`): a log of a miss without any responder stamp, a
  case the code counts (`g_evt_noresp`), passes it. With a responder that answers in one cycle the
  columns add up (`StageModel.LogTiles`).
- A periodic task with zero jobs still runs one (`PeriodicTasks.NoJobsStillRunsOne`).
- Only older writes hold an access back in the bridge, so a read may see a younger write of its own
  core that committed first (`BridgeOrder.OvertakenReadSeesYoungerWrite`).
- Summed effective latencies equal the busy time exactly for runs in which no retirement overtakes
  (`LatencyAccounts.EffectiveCoversIff`, `LatencyAccounts.OvertakingLosesTime`).

## Model

| member | source | states |
|---|---|---|
| Geometry.AddressOfTagAndSet | header/CacheDataHandler.h:58-72 | tag and set index of an address rebuild its block address, so an evicted line is named correctly |
| Geometry.BlockKeepsTagAndSet | header/CacheDataHandler_COTS.h:55-58 | masking the offset away keeps tag and set index, and masking twice is masking once |
| Geometry.TagAndSetOfAddress | header/CacheDataHandler.h:68-72 | the address built from a tag and a set index gives both back |
| Geometry.SameBlock | header/CacheDataHandler.h:58-72 | two addresses lie in one block exactly when tag and set index agree |
| Geometry.BlockAndOffset | src/CacheDataHandler.cpp:185-186 | block address and offset rebuild the address |
| Geometry.SplitInNumbers | header/CacheDataHandler.h:58-72 | in numbers: blocks are aligned and follow one another through the sets, and the tag counts the rounds |
| Geometry.SameLineIsSameBlock | header/FRFCFS_Buffer.h:193-194 | the queue's xor-and-mask line test is equality of block addresses |
| CacheLine.Overwrite | src/GenericCacheLine.cpp:98-112 | whatever passes the source's test of the offset: exactly the addressed bytes that lie in the line change |
| WayPartition.MaskOf | src/CacheDataHandler.cpp:55 | the mask holds the ways an entry names, as far as the cache has them |
| WayPartition.BuildPartition | src/CacheDataHandler.cpp:39-60 | what it returns is built from the entries: the last entry listing a core gives its ways; the shared ways are the unclaimed ones, or all when every way is claimed |
| WayPartition.ListedCoreFillsItsWays | header/CacheDataHandler.h:101-106 | a core an entry lists may fill exactly the ways the last such entry names |
| WayPartition.OthersFillAllWays | header/CacheDataHandler.h:101-106 | a negative requester, and anyone in a cache no entry partitions, may fill every way |
| WayPartition.DisjointEntriesShareNoWay | src/CacheDataHandler.cpp:39-60 | cores listed last by entries that name no way in common have no way in common |
| WayPartition.UnlistedCoreAvoidsClaimedWays | header/CacheDataHandler.h:101-106 | an unlisted core stays off every claimed way exactly unless all ways are claimed; it may fill exactly the unclaimed ways, or all if none is unclaimed |
| WayPartition.DefaultCandidate | header/ReplacementPolicies/ReplacementPolicy.h:30-35 | the restricted victim is an allowed way whenever the cache has one: the unrestricted choice if allowed, else the lowest |
| WayPartition.LruCandidate | src/ReplacementPolicies/LeastRecentlyUsed.cpp:32-43 | the victim is an allowed way with the least stamp, the lowest such; with no allowed way the unrestricted choice stands |
| WayPartition.LruUnrestricted | src/ReplacementPolicies/LeastRecentlyUsed.cpp:45-60 | the lowest stamped way with the least stamp, way 0 if none was stamped |
| CacheMap.Rewrite | src/CacheDataHandler.cpp:150-195 | rewriting the line of a block where it sits keeps every block in one allowed cell and changes that block only |
| CacheMap.Drop | src/CacheDataHandler_COTS.cpp:108-126 | emptying a block's cell removes that block only |
| CacheMap.Add | src/CacheDataHandler_COTS.cpp:59-65 | an absent block added in a free cell changes nothing else |
| CacheMap.Relocate | src/CacheDataHandler_COTS.cpp:67-76 | moving a line between cells leaves the map from block to content as it was |
| CacheMap.RepresentationIsUnique | src/CacheDataHandler_COTS.cpp:38-57 | the registers determine the map: no two maps describe the same array, MSHRs and write-back buffer |
| CacheMap.OneCellPerBlock | src/CacheDataHandler_COTS.cpp:38-65 | no two cells hold one block, so a second MSHR entry for a block that lives elsewhere leaves no map |
| CacheMap.VictimSharesAWay | src/CacheDataHandler_COTS.cpp:128-134 | a line in a way a requester may fill was filled for a core with that way |
| CacheHistory.RunRecords | src/CacheDataHandler_COTS.cpp:67-98 | over every run of store operations the evictions are those the fills made, in order, and the filler of a block is the core of its last fill |
| CacheHistory.FillsEvictSharers | src/CacheDataHandler_COTS.cpp:78-134 | over every run a fill evicts only blocks last filled for a core that shares a way with the requester: cores with disjoint masks never evict each other |
| CacheHistory.DisjointFillLeavesTheLine | src/CacheDataHandler_COTS.cpp:78-134 | a fill for a core with a disjoint mask leaves a line in its way |
| CacheHistory.ListedApartNeverEvict | src/CacheDataHandler.cpp:39-60 | the same in the words of the configuration: over every run, cores listed last by entries naming no way in common never evict each other |
| CacheStore.Store.constructor | src/CacheDataHandler_COTS.cpp:12-20 | a new store represents the empty map |
| CacheStore.Store.FindInArray | src/CacheDataHandler.cpp:106-121 | finds a way exactly when the block's one home is the array, and that way |
| CacheStore.Store.FindLine | src/CacheDataHandler_COTS.cpp:38-57 | finds exactly the blocks of the map and reports where each lives |
| CacheStore.Store.LineLocation | src/CacheDataHandler_COTS.cpp:157-168 | array, MSHR, write-back buffer or nowhere, as the block's one home is |
| CacheStore.Store.IsReady | src/CacheDataHandler_COTS.cpp:150-155 | ready when the block sits in a side buffer or the array is free |
| CacheStore.Store.FindEmptyWay | src/CacheDataHandler.cpp:230-246 | the lowest free way the requester may fill, or -1 exactly when it has none |
| CacheStore.Store.UpdateLineBits | src/CacheDataHandler_COTS.cpp:108-126 | the addressed block gets the new bits, or leaves the map if they mark it invalid; every other block stays, absence is reported |
| CacheStore.Store.WriteLineToMshr | src/CacheDataHandler_COTS.cpp:59-65 | a valid line joins the map in the MSHR, or is copied over the entry its block has there, keeping that entry's bytes if it has none; an invalid one does nothing |
| CacheStore.Store.MoveLineToWb | src/CacheDataHandler_COTS.cpp:67-76 | an eviction relocates exactly its victim, leaves the map alone and queues one write-back |
| CacheStore.Store.MakeRoom | src/CacheDataHandler_COTS.cpp:89-90 | a fill in a full set evicts exactly the victim way's block; otherwise nothing moves |
| CacheStore.Store.Install | src/CacheDataHandler.cpp:123-137 | the returning line goes to the lowest free way of the requester, map unchanged, or nothing happens when there is none |
| CacheStore.Store.FillWouldOverflowPwb | header/CacheDataHandler_COTS.h:110-123 | true exactly when the write-back buffer is full and this requester's fill needs a victim |
| CacheStore.Store.UpdateLineData | src/CacheDataHandler_COTS.cpp:78-106 | exactly the addressed block's bytes change; a successful fill names its requester, and grows the write-back buffer and the evictions by exactly its victim, if it needs one, so the predictor is exact; every other place stays; failures are told apart |
| CacheStore.Store.ModifyData | src/CacheDataHandler.cpp:179-195 | bytes at the address's offset in that one block change, or nothing does; the copy overruns the line exactly when offset and size exceed the block |
| CacheStore.Store.ReadCacheLine | src/CacheDataHandler.cpp:197-214 | hands out the addressed block's content exactly when it is ready, the map untouched |
| CacheStore.Store.Initialize | src/CacheControllers/CacheController.cpp:565-586 | an untracked block is written into the array with the given bytes if the set has room; a tracked one is modified where it sits, ready or not, and handed on to the children; no other block changes |
| CacheStore.Store.AddressOfLinePendingWb | src/CacheDataHandler_COTS.cpp:136-148 | write-backs are issued once each in eviction order; issued and pending together are the evictions |
| CacheStore.Store.WriteCacheLineData | src/CacheControllers/CacheController.cpp:293-315 | the fill is made in the requester's ways, recorded as its own, with exactly its victim evicted; fails exactly in the cases the controller treats as fatal |
| CacheStore.Store.UpdateCacheLine | src/CacheControllers/CacheController.cpp:256-291 | a state change with or without data acts on exactly the addressed block of the map, also when it fails; it is a step of CacheHistory: a fill for the owner or nothing that enters a way |
| BridgeOrder.OverlapIff | gem5/octopus.cc:184-198 | two accesses of at least one byte overlap exactly when they share a byte |
| BridgeOrder.StoreLeavesItsEffect | gem5/octopus.cc:205-213 | a store leaves in its bytes what it makes of the bytes it finds there and every other byte as it was; anything else leaves memory alone |
| BridgeOrder.ByteIsTheYoungestStores | gem5/octopus.cc:163-278 | in acceptance order each byte is what the youngest store to it made of the bytes that store found, and the starting byte if nobody stores to it |
| BridgeOrder.ApplyCommutes | gem5/octopus.cc:184-198 | accesses that do not overlap as writes may be performed in either order |
| BridgeOrder.RunsLate | gem5/octopus.cc:184-198 | a request no younger performed write overlaps may be performed last |
| BridgeOrder.ReplayIsInOrder | gem5/octopus.cc:200-240 | any order that keeps older overlapping writes first leaves the memory of performing the same requests in acceptance order |
| BridgeOrder.MemoryIsSequential | gem5/octopus.cc:163-278 | once all are performed, memory is the writes in acceptance order, whatever order commits let them run in |
| BridgeOrder.ReadIsSequential | gem5/octopus.hh:346-354 | what a request finds in memory is what acceptance order would have shown it, unless a younger overlapping write ran first |
| BridgeOrder.ByteIsSequential | gem5/octopus.cc:184-198 | a byte is as in acceptance order as soon as the writes to it are performed |
| BridgeOrder.OvertakenReadSeesYoungerWrite | gem5/octopus.cc:191-192 | the exception is real: a concrete younger write seen by an older read |
| BridgeTable.HeldBackIsBlocked | gem5/octopus.cc:184-240 | between callbacks every committed but unperformed request has an older, unperformed, overlapping write in front of it |
| BridgeTable.HeldBackSharesAByte | gem5/octopus.cc:184-198 | in bytes: a committed request waits only for an older unperformed write that shares a byte with it |
| BridgeTable.CommittedPrefixIsPerformed | gem5/octopus.cc:184-278 | once all requests up to a sequence number have committed, all of them are performed |
| BridgeTable.AnsweredIffPerformedAndCompleted | gem5/octopus.cc:242-300 | each request is answered at most once, and exactly when both its data operation and its completion have happened |
| BridgeTable.AcceptKeeps | gem5/octopus.cc:163-182 | accepting a request keeps table and history consistent and makes nothing else runnable |
| BridgeTable.CommitKeeps | gem5/octopus.cc:258-271 | a commit keeps table and history consistent |
| BridgeTable.PerformKeeps | gem5/octopus.cc:200-217 | performing a runnable request keeps the consistency, in particular the order behind older writes |
| BridgeTable.PerformHolds | gem5/octopus.cc:200-240 | performing shortens the held list; a read releases nothing |
| BridgeTable.CompleteKeeps | gem5/octopus.cc:280-300 | a completion keeps the consistency whether it answers or waits for the data operation |
| BridgeTable.NoAnswerWaits | gem5/octopus.cc:216-217 | a request that is performed and completed is never left unanswered |
| BridgeTable.ResponseIsSequential | gem5/octopus.cc:242-256 | each response carries what its request would have read in acceptance order, unless overtaken |
| BridgeTable.AllCommittedMemory | gem5/octopus.cc:163-278 | when every accepted request has committed, memory equals the accepted writes applied in acceptance order to the memory at the start |
| BridgeTable.RunGrows | gem5/octopus.cc:163-300 | over every run of callbacks the starting memory stays, and responses and history are never taken back |
| BridgeTable.RunIsSequential | gem5/octopus.cc:163-300 | over every run of callbacks from a given memory, in any order: when all accepted requests have committed, memory is that memory after the accepted writes in acceptance order, each byte what the youngest accepted store to it made of the bytes it would find; each response carries, byte by byte, what its request would have read then, unless overtaken; each request is answered at most once |
| Bridge.Bridge.Submit | gem5/octopus.cc:163-182 | a request joins the table with a fresh id and the next sequence number |
| Bridge.Bridge.AccessTiming | gem5/octopus.cc:470-519 | a blocked port refuses and remembers the sender, otherwise the request is accepted; a callback of a run |
| Bridge.Bridge.Respond | gem5/octopus.cc:242-256 | one entry leaves the table, its response carries its data, and nothing becomes runnable |
| Bridge.Bridge.RetryBlockedPorts | gem5/octopus.cc:529-542 | one waiting sender is told exactly if the L1 is not blocked and somebody waits; it leaves the line, and its request is accepted or it waits again at the end |
| Bridge.Bridge.BlockedByOlderWrite | gem5/octopus.cc:184-198 | true exactly when an older unperformed write overlaps |
| Bridge.Bridge.AccessMemory | gem5/octopus.cc:203-217 | a store leaves its effect on the bytes it found in its own bytes; every other byte stays; the request is performed, and answered if its completion is there |
| Bridge.Bridge.PerformData | gem5/octopus.cc:200-220 | the mutual recursion ends; afterwards the request is performed and, if a write, nothing runnable is left; starting memory and earlier responses stay |
| Bridge.Bridge.ReleaseHeldBack | gem5/octopus.cc:222-240 | whatever the recursion answered or erased meanwhile, nothing runnable is left and nothing sent is taken back |
| Bridge.Bridge.OnCommit | gem5/octopus.cc:258-278 | a callback of a run: a valid commit leaves the bridge quiescent with the request committed; the three misuses panic and change nothing |
| Bridge.Bridge.CacheSimCallback | gem5/octopus.cc:280-300 | a callback of a run: answers a performed request, remembers the completion of a held-back one, panics on an unknown or uncommitted one |
| QueueModel.InsertAt | header/FRFCFS_Buffer.h:123-137 | the insertion point is right behind the last message from the same side |
| QueueModel.FirstHit | header/FRFCFS_Buffer.h:174-221 | the first element the scan stops at |
| ProcessingQueue.FrfcfsBuffer.PushBack | header/FRFCFS_Buffer.h:97-111 | refuses exactly an unforced, not ready message in a full queue |
| ProcessingQueue.FrfcfsBuffer.PushFrontOrdered | header/FRFCFS_Buffer.h:123-137 | inserts behind the older messages of the same side, ahead of the rest |
| ProcessingQueue.FrfcfsBuffer.BehindOlderSameLine | header/FRFCFS_Buffer.h:187-202 | the per-line gate: an older demand request or invalidation to the line is queued |
| ProcessingQueue.FrfcfsBuffer.GetFirstReady | header/FRFCFS_Buffer.h:160-226 | the in-place scan returns and leaves what one pass over the queue under gate and interlock defines |
| RescanSkip.FruitlessScanSettles | header/FRFCFS_Buffer.h:72-83 | after a scan that found nothing another scan finds nothing and changes nothing |
| RescanSkip.StepKeepsClean | header/FRFCFS_Buffer.h:72-83 | every push, pop, mark and owner move keeps "a clean queue has nothing to find" |
| RescanSkip.SkipIsInvisible | header/FRFCFS_Buffer.h:160-226 | over every disciplined run a queue that skips rescans returns and holds exactly what one that always rescans does |
| RescanSkip.UnmarkedMoveStrandsAnItem | header/FRFCFS_Buffer.h:148-153 | without markDirty after the owner moved, a ready item is not returned |
| FirstReady.ScanServesTheFirstReady | header/FRFCFS_Buffer.h:181-212 | a scan hands out the first element that is not held, has no older demand request or invalidation of its line in front of it and is ready or in need of an action, and finds nothing exactly when there is none; it leaves those it passed over with their owner's answer and the rest untouched |
| LineOrder.ReturnedIsEarliestOfItsLine | header/FRFCFS_Buffer.h:181-202 | a returned demand request or invalidation is the earliest such message of its line |
| LineOrder.NoOlderToItsLine | header/FRFCFS_Buffer.h:113-122 | when an interconnect message is returned, no older one to its line is still queued |
| LineOrder.StepKeepsOrder | header/FRFCFS_Buffer.h:113-137 | the interconnect's messages stay a prefix of the queue in delivery order, line by line |
| LineOrder.LinesAreServedInDeliveryOrder | header/FRFCFS_Buffer.h:113-210 | over every run, the messages of one line leave in the order the interconnect delivered them |
| Requeue.RequeueFindsASlot | src/CacheControllers/BaseController.cpp:111-119 | a request put back finds a slot exactly when the queue was within its bound before the pop; otherwise it is gone |
| Requeue.ForcedPushLosesARequeuedRequest | src/CacheControllers/CacheController.cpp:552-556 | a forced write-back in a full queue makes a request that fails admission vanish |
| Requeue.RequeueLosesItsPlace | src/CacheControllers/BaseController.cpp:117 | of two demand requests to one line behind the line gate, the first put back once, the second leaves first |
| PutBackOrder.TakeIsFirstOfLane | header/FRFCFS_Buffer.h:181-212 | what is taken of a line and side is the first of them queued |
| PutBackOrder.ReturnKeepsOrderIff | src/CacheControllers/BaseController.cpp:111-119 | a put-back keeps its line in order exactly when nothing younger of the line is queued |
| PutBackOrder.InOrderIffNotOvertaken | src/CacheControllers/BaseController.cpp:91-130 | over every run of pushes, pops and put-backs the demand requests and invalidations of a line stay in the order their side sent them if and only if none is put back while a younger one of the line is queued |
| PutBackOrder.LeavesInArrivalOrder | src/CacheControllers/BaseController.cpp:91-130 | in order means that what has left is the beginning of what arrived |
| ArrayPipeline.EnqueueKeeps | src/CacheControllers/CacheController.cpp:618-629 | an arriving access keeps admission in arrival order and the bounds on waiting |
| ArrayPipeline.CycleStepKeeps | src/CacheControllers/CacheController.cpp:741-763 | a cycle admits no more than the ports allow and completes exactly what is due |
| ArrayPipeline.FlushKeeps | src/CacheControllers/CacheController.cpp:765-784 | after a flush no access to the line is listed and the others keep their promises |
| ArrayPipeline.DueIsOldest | src/CacheControllers/CacheController.cpp:750-761 | what is due is the oldest listed access, due exactly now |
| ArrayPipeline.CompletionTakesTheDue | src/CacheControllers/CacheController.cpp:750-762 | completion takes exactly the accesses due now off the list |
| ArrayPipeline.FlushTakesTheLine | src/CacheControllers/CacheController.cpp:765-784 | a flush takes exactly the accesses to the line off the list |
| ArrayPipeline.RunsStayInCycle | src/CacheControllers/CacheController.cpp:618-784 | the invariant holds over every run of arrivals, cycles and flushes |
| ArrayPipeline.PipelineKeepsItsPromises | src/CacheControllers/CacheController.cpp:639-763 | over every run: at most `ports` admissions a cycle, completions in arrival order exactly `latency` cycles after admission, admission within k / ports + 1 cycles behind k waiting |
| ArrayPipeline.WaitingIsBounded | src/CacheControllers/CacheController.cpp:679-690 | an access still waiting has waited no longer than those ahead of it justify |
| ControllerModel.CycleStepQualifies | src/CacheControllers/CacheController.cpp:741-763 | a cycle of the list keeps its timing promises and the interlock |
| ControllerModel.EnqueueQualifies | src/CacheControllers/CacheController.cpp:822-871 | deferring a message whose line has nothing listed keeps whole messages alone on their lines |
| ControllerModel.FlushQualifies | src/CacheControllers/CacheController.cpp:765-784 | a flush keeps promises and interlock and leaves nothing on the line |
| ControllerModel.NothingSettles | src/CacheControllers/BaseController.cpp:94-106 | a pop that finds nothing leaves a queue whose rescans may be skipped |
| ControllerModel.PopWeighs | header/FRFCFS_Buffer.h:204-212 | each pop lowers the measure that bounds processLogic, by two if the message had skipped the readiness check; its line is not held |
| Scheduler.TurnWeighs | src/CacheControllers/BaseController.cpp:91-149 | every turn that lets the endless loop go on lowers the queue's weight, so processLogic ends |
| Scheduler.HappeningKeepsBooks | src/CacheControllers/BaseController.cpp:85-150 | whatever happens to a message, if it moves between queue, hand and list as it says and for a reason, all five accounts stay balanced |
| Scheduler.FireKeepsBooks | src/CacheControllers/CacheController.cpp:692-739 | a completed access runs, acts or goes back, for a reason, and the message, queue, access and state accounts stay balanced |
| Scheduler.ParkKeeps | src/CacheControllers/CacheController.cpp:526-535 | the accesses a row parks join a line without whole messages and enter the account of parked accesses |
| Scheduler.PopKeeps | src/CacheControllers/BaseController.cpp:91-109 | no message leaves the queue for a line with a listed access, and it leaves with nothing else |
| Scheduler.ProcessKeeps | src/CacheControllers/BaseController.cpp:111-147 | a popped message is put back, deferred whole or run, or lost because the queue held more than its bound, and is accounted for |
| Scheduler.CompleteDueList | src/CacheControllers/CacheController.cpp:750-762 | the rescan loop completes what ArrayPipeline says, and only appends to the queue |
| Scheduler.PipelineStepKeeps | src/CacheControllers/CacheController.cpp:741-763 | a cycle of the list keeps promises, interlock, skip soundness and the accounts |
| Scheduler.FlushIsSound | src/CacheControllers/CacheController.cpp:765-784 | after a flush nothing of the line is listed, the queue was only appended to, everything else is kept |
| Scheduler.ReplaceKeeps | src/CacheControllers/CacheController.cpp:537-563 | the write-back is in the queue behind what was there, nothing of its line is listed, everything else is kept |
| Scheduler.ProcessLogicKeeps | src/CacheControllers/BaseController.cpp:85-150 | the loop ends idle, at a request not admitted, or by aborting, and keeps everything |
| Scheduler.CycleKeeps | src/CacheControllers/CacheController.cpp:121-133 | a whole cycle keeps everything |
| Scheduler.NothingIsLostUnaccounted | src/CacheControllers/BaseController.cpp:85-150 | over every run: what entered the queue is in it or was popped; what was popped ran, went back, was lost, or waits alone on its line; each parked access acted or is listed; the state is that of the rows and actions that ran, each ready; a message is lost only by a put-back to a queue that held more than its bound |
| ControllerOrder.FireFollows | src/CacheControllers/CacheController.cpp:692-739 | a completed access is, for the queue, a departure, a put-back or a mark |
| ControllerOrder.LogicFollows | src/CacheControllers/BaseController.cpp:85-150 | the processing loop is a run of takes, put-backs and departures of the queue, whose out messages are those waiting whole on the list |
| ControllerOrder.CycleFollows | src/CacheControllers/CacheController.cpp:121-133 | and so is a whole cycle, with its arrivals |
| ControllerOrder.RunFollows | src/CacheControllers/BaseController.cpp:85-150 | every run of a controller is a proper run of its queue with the same queue, arrivals and departures |
| ControllerOrder.LineOrderIffNotOvertaken | src/CacheControllers/BaseController.cpp:91-130 | over every run of a new controller the ordered messages one side sends to a line stay in order if and only if none is put back while a younger one is queued, and then those that have left are a beginning of those that arrived |
| ControllerService.PopServesTheFirst | src/CacheControllers/BaseController.cpp:91-109 | a pop takes the first queued message whose line has no listed access, with no older ordered message of its line in front of it and a ready row |
| ControllerService.IdleLeavesNothing | src/CacheControllers/BaseController.cpp:94-106 | a pop that finds nothing leaves no message that could be served |
| ControllerService.ProcessDecides | src/CacheControllers/BaseController.cpp:111-147 | a popped message goes back if not admitted, else waits whole on the list if it needs the array, else runs if ready, its accesses parked and its next state taken, else goes back as a stall |
| ControllerService.TurnServesTheFirst | src/CacheControllers/BaseController.cpp:91-149 | each turn of the loop does so with the first message that can be served, or there is none |
| ControllerService.LogicServesOut | src/CacheControllers/BaseController.cpp:85-150 | processLogic returns only when no queued message can be served, at a request not admitted in the state it leaves, or aborting at a stall in a full queue: rows that run and messages that are deferred do not end it |
| ControllerService.CycleServesOut | src/CacheControllers/CacheController.cpp:121-133 | and so does every cycle, whatever completes, comes in or is evicted in it |
| ControllerService.CycleLetsIn | src/CacheControllers/CacheController.cpp:121-133 | a cycle lets in the message from above, the one from below if there is room, and the write-back, in this order and nothing else, and takes one cycle |
| ControllerService.CyclesAreCounted | src/CacheControllers/CacheController.cpp:121-133 | over every run the clock of the list is the number of cycles |
| ControllerService.ListIsOnTime | src/CacheControllers/CacheController.cpp:639-763 | over every run of a new controller nothing listed is overdue: what is in the array completes within its latency, what waits has waited no longer than those ahead of it justify |
| ControllerService.FlushFiresTheLine | src/CacheControllers/CacheController.cpp:765-784 | a flush fires exactly the accesses to the line, oldest first, and leaves the others listed |
| ControllerService.CompletionsFireTheDue | src/CacheControllers/CacheController.cpp:741-763 | a cycle fires exactly the accesses due in it, oldest first, and leaves the others listed |
| Controller.CacheController.ArrayAdmit | src/CacheControllers/CacheController.cpp:679-690 | admits oldest first until ports or waiting accesses run out |
| Controller.CacheController.PipelineFire | src/CacheControllers/CacheController.cpp:692-739 | in place, what firing does to queue, state and history |
| Controller.CacheController.CompleteDue | src/CacheControllers/CacheController.cpp:750-762 | the rescan loop ends with the whole state of completing what is due, oldest first |
| Controller.CacheController.PipelineStep | src/CacheControllers/CacheController.cpp:741-763 | one cycle of the list, as a whole state |
| Controller.CacheController.PipelineFlushLine | src/CacheControllers/CacheController.cpp:765-784 | the rescan loop ends with the whole state of firing the line's accesses, oldest first |
| Controller.CacheController.CheckReplacements | src/CacheControllers/CacheController.cpp:537-563 | the write-back arrives whatever the bound and its line is flushed |
| Controller.CacheController.Intake | src/CacheControllers/BaseController.cpp:175-208 | only a demand request that finds the queue full is refused; the two sides join front and back |
| Controller.CacheController.Pop | src/CacheControllers/BaseController.cpp:91-109 | takes what one scan under interlock and readiness gives |
| Controller.CacheController.Process | src/CacheControllers/BaseController.cpp:111-147 | admission, array use and row decide what becomes of a popped message |
| Controller.CacheController.ProcessLogic | src/CacheControllers/BaseController.cpp:85-150 | the loop in place, ending as its function does |
| Controller.CacheController.CycleProcess | src/CacheControllers/CacheController.cpp:121-133 | a whole cycle in place, one step of the runs the conservation theorem speaks of |
| Election.ElectionRemovesTheElected | src/Arbiters/Arbiter.cpp:36-59 | an election removes exactly the message it returns |
| Election.ElectionSeesItsOwner | src/Arbiters/Arbiter.cpp:36-59 | an owner's election depends on and changes that owner's messages only |
| Election.OthersElectionIsUnseen | src/Arbiters/Arbiter.cpp:36-59 | electing for one owner leaves another's messages in place and order |
| Election.ElectedIsOldest | src/Arbiters/Arbiter.cpp:36-59 | the elected message is the oldest of its owner over all buffers |
| Election.JoinsInOrder | src/Arbiters/Arbiter.cpp:36-59 | a message that joins its buffer is served behind all that do not come after it by cycle and buffer, before the rest, and the others keep their order |
| Election.ServedInOrder | src/Arbiters/Arbiter.cpp:36-59 | an owner is served by cycle, and by buffer within a cycle |
| Election.OwnerIsServedOldestFirst | header/Arbiters/Arbiter.h:32-41 | repeated elections serve each message of an owner once, by cycle of emission, whichever buffers they sit in |
| Election.FcfsMerges | src/Arbiters/FCFSArbiter.cpp:21-43 | FCFS serves every message once, by cycle of emission: a merge of the buffers |
| Election.MaximalStampIsNeverElected | src/Arbiters/Arbiter.cpp:39 | an election fails exactly when no first message is stamped below 2^64 - 1 |
| Arbitration.TdmIsolatesOwners | src/Arbiters/TDMArbiter.cpp:21-47 | two runs with the same elections and the same messages of an owner grant them at the same cycles in the same order, whatever others send |
| Arbitration.TdmRunIsolated | src/Arbiters/TDMArbiter.cpp:21-47 | an owner's view of a run is the run of its own messages alone |
| Arbitration.TdmSlotsGoRound | src/Arbiters/TDMArbiter.cpp:41-47 | slots go round the candidates, one each period, used or not |
| Arbitration.FirstInFirstGranted | src/Arbiters/Arbiter.cpp:36-59 | over every run of any policy in which stamps do not go back, an owner is granted what it sent in order of emission, and nothing is lost or granted twice |
| Arbitration.AsSentIffNoneOvertakes | src/Arbiters/Arbiter.cpp:41-51 | over every run an owner's grants and pending messages are what it sent, in that very order, at every point if and only if it sends nothing that beats one of its own pending messages by a lower stamp or an earlier buffer |
| Arbitration.RrComesRound | src/Arbiters/RRArbiter.cpp:29-50 | with a message pending the owner is elected or its turn comes nearer |
| Arbitration.TdmSlotServesItsOwner | src/Arbiters/TDMArbiter.cpp:21-47 | at each slot the turn moves to the next candidate, whose first message is granted if it has one and nobody's otherwise; between slots nothing moves |
| Arbitration.RrServesTheNext | src/Arbiters/RRArbiter.cpp:22-50 | a round-robin election grants the first message of the first candidate after the last winner that has one; with nothing for any candidate nothing moves |
| Arbitration.FcfsServesTheFirst | src/Arbiters/FCFSArbiter.cpp:21-43 | an FCFS election grants the message that is first over all owners, if there is one |
| Arbitration.ServesWithin | src/Arbiters/TDMArbiter.cpp:21-47 | under every policy, over every run: a message with k older ones of its owner is granted within (k + o + 1) * n turns, after those k and at most o others, where o counts what is sent meanwhile that beats it (in its own cycle, into an earlier buffer) and n is the number of candidates, with a turn at each TDM slot and at each RR election; under FCFS all owners count as one, n is 1 and every election is a turn |
| Arbiters.FindMessage | src/Arbiters/Arbiter.cpp:25-34 | the first message of the owner, or -1 exactly when there is none |
| Arbiters.ElectOldestOwned | src/Arbiters/Arbiter.cpp:36-59 | the in-place scan elects the lowest bid, earlier buffers first on ties, and removes it |
| Arbiters.TdmArbiter.Elect | src/Arbiters/TDMArbiter.cpp:21-47 | one TDM election in place |
| Arbiters.RrArbiter.Elect | src/Arbiters/RRArbiter.cpp:29-50 | one round-robin election in place: up to n candidates are tried |
| Arbiters.FcfsArbiter.Elect | src/Arbiters/FCFSArbiter.cpp:21-43 | the head with the lowest cycle leaves |
| EventClock.StepAdvances | src/ClockManager.cpp:160-183 | a step ends, misses no event, and advances time strictly, to the next scheduled time |
| EventClock.FireKeeps | src/ClockManager.cpp:176-181 | firing and rescheduling keeps the event map sorted, nothing in the past, and firings ordered |
| EventClock.FiresExactly | src/ClockManager.cpp:160-183 | an object registered for t0 with period p has fired exactly at t0, t0 + p, ... up to now, and all firings are ordered by time and registration |
| EventClock.GcdDivides | src/ClockManager.cpp:115-122 | the gcd divides both arguments |
| EventClock.GranularityIsGcd | src/ClockManager.cpp:115-122 | the granularity divides every period and every common divisor divides it |
| EventClock.MinPeriodIsLeast | src/ClockManager.cpp:102-113 | the minimum period is a registered one and least |
| EventClock.GranularityIsMinPeriodIff | src/ClockManager.cpp:138-143 | granularity and minimum period agree exactly when every period is a multiple of the shortest |
| EventClock.StepCoversGranularity | header/ClockManager.h:85-87 | on the grid every step advances time by at least the granularity and stays on the grid |
| EventClock.RegisteredOnGrid | src/ClockManager.cpp:32-36 | objects registered for time 0 or their own period start on the grid |
| EventClock.TimesAreReached | src/ClockManager.cpp:160-183 | every scheduled time is reached by some number of steps |
| EventClock.GranularIff | header/ClockManager.h:85-87 | a common divisor of the periods is the grain of the clock, every step after the first covering a multiple of it, if and only if all scheduled times agree modulo it |
| EventClock.RegistrationsAreGranular | src/ClockManager.cpp:32-36 | objects registered for time 0 or their own period meet that condition for the granularity |
| EventClock.CeilIs | gem5/octopus.cc:584-585 | the step bound is the least number of granularities covering the distance |
| ClockManagement.ClockManager.RegisterCLKObj | src/ClockManager.cpp:47-56 | one slot joins the sorted map with the next id |
| ClockManagement.ClockManager.DeregisterCLKObj | src/ClockManager.cpp:58-72 | the object's slot leaves, the others stay |
| ClockManagement.ClockManager.Init | src/ClockManager.cpp:79-101 | accepts exactly when no period is zero, and then the clock is sound |
| ClockManagement.ClockManager.ClkStep | src/ClockManager.cpp:160-183 | the do-while loop over the event map, misses told apart |
| ClockManagement.ClockManager.Pace | gem5/octopus.cc:584-592 | the pacing loop covers the cycle within ceil(cycle / g) steps and panics only beyond 1024 |
| BusModel.BroadcastIsAllOrNothing | src/Interconnect/BusController.cpp:34-63 | a refused snoop changes nothing anywhere and a reported success has reached every interface; refused is exactly a demand snoop some interface has no room for |
| BusModel.ServiceStepReachesAll | src/Interconnect/TripleBusController.cpp:29-51 | every service step takes the first back-invalidation of the lowest interface that has one, and it has then reached every interface |
| BusModel.PeeksAlternate | src/Interconnect/BusInterface.cpp:21-42 | with both buffers waiting and no back-invalidation queued, peeks take turns |
| BusModel.PopTakesWhatWasShown | src/Interconnect/BusInterface.cpp:21-56 | a peek shows a message exactly when one waits in any buffer; the pop after it takes that message and its number off the head of the one buffer that showed it and leaves the other buffers as they were |
| BusModel.IntakeAndOffer | src/Interconnect/TripleBusInterface.cpp:17-68 | an intake takes exactly the message shown, if it is wanted; an offer joins the end of the transmit buffer if there is room |
| BusModel.PopTakesTheNext | src/Interconnect/TripleBusInterface.cpp:17-50 | a request or back-invalidation that is shown and popped is the next one the bus delivered over both channels |
| BusModel.HearOne | src/Interconnect/BusInterface.cpp:78-100 | a delivery keeps buffers and delivery numbers parallel and increasing |
| BusModel.StepKeeps | src/Interconnect/TripleBusController.cpp:29-51 | every snoop, back-invalidation, response and intake keeps one common order of what was heard and taken |
| BusModel.EveryoneHearsTheSame | header/Interconnect/BusInterface.h:32-39 | over every run all interfaces heard the same requests and back-invalidations in one order, each took a beginning of it in that order and has the rest queued, and they agree on the order of delivery numbers; each also took a beginning of the data responses delivered to it and has the rest queued, in order, and of the back-invalidations it accepted for sending a beginning was served and the rest waits |
| SnoopBus.BusInterface.PeekMessage | src/Interconnect/TripleBusInterface.cpp:17-38 | shows a back-invalidation delivered before the first request; otherwise the two-round loop shows the head of the buffer not served last, if any |
| SnoopBus.BusInterface.PopFrontMessage | src/Interconnect/TripleBusInterface.cpp:40-50 | message and number leave the buffer last shown together |
| SnoopBus.BusInterface.PushMessage2RX | src/Interconnect/TripleBusInterface.cpp:70-79 | accepts all but demand requests into a full buffer, and service messages if it has the channel, each with the next number |
| SnoopBus.BusInterface.CanAcceptRX | src/Interconnect/TripleBusInterface.cpp:81-87 | room for a demand request of this kind; a service channel always has room |
| SnoopBus.BusInterface.PushService | src/Interconnect/TripleBusInterface.cpp:52-68 | a back-invalidation joins the service transmit buffer if there is room |
| SnoopBus.BusController.Broadcast | src/Interconnect/BusController.cpp:34-63 | the two loops over the interfaces deliver to all or to none, numbering deliveries in interface order |
| SnoopBus.BusController.ServiceBusStep | src/Interconnect/TripleBusController.cpp:29-51 | one back-invalidation is broadcast and leaves its sender's buffer |
| LatencyAccounts.RetireKeeps | src/Logger.cpp:469-490 | a retirement, in or out of order, keeps both balances and leaves no retired request at the front |
| LatencyAccounts.LatenciesAddUp | src/Logger.cpp:471-490 | over every run the reported oldest latencies and the running term are the busy cycles; effective latencies stay within them |
| LatencyAccounts.ReportsAreCycles | src/Logger.cpp:469-490 | over every run a request is reported as oldest latency the cycles during which it was the oldest in the system, none if it retires behind another, and as effective latency the cycles it was in the system since the last retirement |
| LatencyAccounts.OnlyTheRetiredLeaves | src/Logger.cpp:471-490 | a request leaves the system exactly when it retires itself, and the retirement of one that is not there changes nothing |
| LatencyAccounts.EffectiveCoversIff | src/Logger.cpp:469-469 | at rest the effective latencies equal the busy cycles exactly when every retirement was issued no later than the previous retirement or with the oldest outstanding |
| LatencyAccounts.OvertakenIff | src/Logger.cpp:529-531 | busy time goes unreported exactly at retirements that overtake |
| LatencyAccounts.IssueOrderIsCovered | src/Logger.cpp:475-478 | requests retiring in issue order lose no busy time |
| LatencyAccounts.OvertakingLosesTime | src/Logger.cpp:469 | out of order, busy time can go unreported |
| LatencyLog.CoreLog.AddRequest | src/Logger.cpp:51-56 | a request joins in issue order and is oldest at once if alone |
| LatencyLog.CoreLog.RetireFromQueue | src/Logger.cpp:475-490 | the loops over the queue: pop and drop retired followers, or mark in place |
| LatencyLog.CoreLog.FinalizeEvents | src/Logger.cpp:469-531 | reports the oldest and effective latency the books account for |
| StageModel.Telescopes | src/Logger.cpp:376-382 | the differences of neighbouring milestones always add up to the total |
| StageModel.CompleteInOrder | src/Logger.cpp:359-374 | milestones that never go back are in canonical order, memory excursion included |
| StageModel.ColumnsMissTheService | src/Logger.cpp:425-467 | for LLC hits, misses with or without DRAM stamps and cache-to-cache supplies the columns fall short of the total by the responder's SERVICE to EXIT |
| StageModel.ColumnsTileIff | src/Logger.cpp:425-467 | so they add up exactly when SERVICE and EXIT coincide |
| StageModel.ColumnsCountTheirStage | src/Logger.cpp:425-467 | for those requests each column is the number of cycles its own stage held the request |
| StageModel.L1HitTiles | src/Logger.cpp:462-466 | the columns of an L1 hit add up |
| StageModel.NoResponderTilesIff | src/Logger.cpp:454-461 | without a responder emit they add up exactly when there was no memory excursion or it took no time |
| StageModel.CheckPassesColumnsDoNot | src/Logger.cpp:376-384 | a property of the check: the log of a miss without responder stamps passes it, and its columns count the memory excursion twice |
| StageModel.MilestonesAre | src/Logger.cpp:304-357 | event by event: which first, second or last stamp of the log each milestone of issue, L1, buses, memory and core is |
| StageModel.ResponderMilestonesAre | src/Logger.cpp:333-353 | the responder's milestones are the LLC's, or, exactly when it never emitted and the response bus was granted, those of an L1 before the grant |
| StageModel.ResponderStampsCoincide | src/Logger.cpp:333-353 | a responder that logs SERVICE and EXIT in one cycle, an owner's L1 before the grant included and whatever the requester's own L1 stamps later, makes the milestones coincide |
| StageModel.LogTiles | src/Logger.cpp:304-467 | from log to columns: with such a responder and milestones that are there and never go back, the eight columns add up to the total |
| StageModel.SupplyIsCovered | src/Logger.cpp:333-353 | a cache-to-cache log with the requester's own L1 stamps after the grant meets the theorem's conditions |
| StageColumns.Find | src/Logger.cpp:312-317 | first or last stamp of a role and phase, -1 if none |
| StageColumns.FindNth | src/Logger.cpp:318-323 | the n-th stamp, -1 if there are fewer |
| StageColumns.SupplierStamps | src/Logger.cpp:344-350 | the last L1 stamps before the response-bus grant |
| StageColumns.FindMilestones | src/Logger.cpp:325-357 | the twelve milestones, the supplier replacing the LLC when the LLC never emitted |
| StageColumns.CheckTiling | src/Logger.cpp:376-384 | the self-check says exactly whether the milestones never go back |
| PeriodicTasks.NextIndexIs | src/CPU.cpp:355-361 | the next index is the following one or the periods ended by the finish, capped at the job total |
| PeriodicTasks.SkipFrom | src/CPU.cpp:355-356 | the skipped periods have wholly passed, the next one has not |
| PeriodicTasks.FinishKeeps | src/CPU.cpp:339-366 | finishing a job keeps the account of every period |
| PeriodicTasks.CycleKeeps | src/CPU.cpp:368-414 | every cycle of the core keeps it, and jobs finish after their release |
| PeriodicTasks.EveryPeriodIsAccounted | src/CPU.cpp:339-366 | over every run each index was released once or skipped once, skips are the missed deadlines counted, releases fall in their own period, a job is reported as late exactly if it finished after its deadline, jobs do not overlap, and a finished task has an outcome for every index |
| PeriodicTasks.SkippingMeansMissing | src/CPU.cpp:353-357 | with a deadline within the period, an overrun that skips has missed its own deadline |
| PeriodicTasks.NoJobsStillRunsOne | src/CPU.cpp:84-95 | job 0 runs before the job total is looked at |
| PeriodicTasks.IssuesExactlyWhen | src/CPU.cpp:368-414 | an access is issued in a cycle exactly when the job is released, there is one, the window has room, its compute time has passed since the release or the last data, and the L1 accepts it |
| PeriodicTasks.EndsExactlyWhen | src/CPU.cpp:368-391 | a job ends in a cycle exactly when all its accesses have returned and its trailing compute time has passed |
| PeriodicTasks.WhatFollows | src/CPU.cpp:339-366 | after the end of a job the core ends if it was its last, a free-running one if no finite core still runs; otherwise the next body starts at its beginning; a job that does not end goes on |
| PeriodicTasks.FreeRunsBackToBack | src/CPU.cpp:341-352 | over every run of a free-running task each job begins where the one before it ended, the first at the start, and none misses a deadline |
| PeriodicTasks.JobsTakeTheirTime | src/CPU.cpp:393-401 | over every run no more requests are in flight than the window allows, and an in-order core ends no job before its release and all its compute time |
| PeriodicTasks.BestCase | src/CPU.cpp:368-414 | with a window of at least one and an L1 that takes every access at once and answers it in the next cycle, a job ends exactly after its compute time and one cycle for each access |
| PeriodicCpu.Cpu.CountSkipped | src/CPU.cpp:355-356 | the loop counts exactly the swallowed periods |
| PeriodicCpu.Cpu.FinishJob | src/CPU.cpp:339-366 | report, skip, release or end, for finite and free-running tasks; says whether the deadline was missed |
| PeriodicCpu.Cpu.PeriodicLogic | src/CPU.cpp:368-414 | idle, issue, drain or finish, as the state says |
| PeriodicCpu.Cpu.CycleProcess | src/CPU.cpp:66-82 | receive, then the periodic logic, then the clock; the account is kept |

## Left out

- Coherence tables and protocols: `processRequest`, `getRequestState`, `canAdmitRequest` and the array
  use of a row are an abstract table over an abstract state; single-writer invariants are not part of
  this model.
- Integer widths: addresses, cycles and counters are unbounded, so wrap-around at 2^64 and the cast of
  owners to int are not modelled. The one constant that matters, the initial best cycle 2^64 - 1 of
  elections, is.
- Block sizes and set counts that are not powers of two, more than 32 ways, and the `log2` arithmetic on
  them; each line's own copy of the block size.
- Line objects: array lines and buffer entries are values in an array and in maps, so aliasing of a
  line's byte buffer is not captured; `readLineBits` and `getEvictionCandidate` add only easy members.
- Replacement state: the stamps `update` writes and the random policy; a fill takes the policy's answer
  as a parameter.
- CacheStore.Store.MakeRoom: assumes the policy's answer, an allowed way whenever there is one; for a
  requester without any way whose fallback victim is an invalid way, the source moves that stale line to
  the write-back buffer before the fill fails and the run exits, and the model does not.
- CacheStore.Store.MoveLineToWb: a way that holds a line, as every caller but the one above gives it.
- CacheStore.Store.WriteLineToMshr: a block whose home is the array or the write-back buffer; its only
  caller, `updateCacheLine`, calls it for blocks nobody tracks.
- CacheStore.Store.ModifyData: what bytes past the end of the block overwrite.
- CacheStore.Store.Initialize: the calls to the child caches; the default line is the protocol's.
- `|PWB| <= pwb_size`: nothing enforces it, so it is not claimed.
- Bridge: other components writing the same memory, load and store exclusive reservations, functional
  accesses (which skip held-back writes), atomic mode, bypass traffic, invalidation snoops to the CPU and
  statistics.
- ProcessingQueue.FrfcfsBuffer.GetFirstReady: the readiness callback is a function of item and state at
  the time of the call; callbacks that change the queue while it scans are not modelled.
- LineOrder.LinesAreServedInDeliveryOrder: interconnect messages that `pipelineFire` puts back at the end
  of the queue are excluded, as they lose their place; PutBackOrder says when that matters.
- PutBackOrder.InOrderIffNotOvertaken: order is that of one side; interconnect messages are meant to pass
  the other side's.
- ArrayPipeline.PipelineKeepsItsPromises: the array without an arbiter; an arbiter over the waiting
  accesses keeps the port and latency promises but not arrival order.
- The occupancy model of the array (`processDataArrayBuffer`), whose flush may park again, and a
  controller with the address interlock switched off.
- Scheduler.ProcessKeeps: the second admission test after the deferral is the same test on
  the same state and appears once; a row parks accesses to its own line only.
- Scheduler.CompleteDueList: rows fired from the list run their array calls inline, as
  `m_pipe_firing` makes them, so nothing is parked during the rescan.
- Messages a row sends, pending-request lists, saved requests for write-back and the MSHR count behind
  `canAdmitRequest`.
- `forceElect` of the arbiters, and the split and unified bus controllers that decide when an
  election happens or is retried.
- Arbitration.ServesWithin: the stamps within one sender's buffer are assumed not to go back.
- Clock: objects that register or deregister while the clock runs, clock triggers, `run`, and periods
  that change after `init`.
- Bus: request and response transmit buffers, `rollback`, a `send` of request messages, and a broadcast on
  the service channel of plain interfaces, which no caller makes.
- NoC and mesh interconnects, memory controllers, MCsim.
- Reports: per-core files, maxima, histograms, the binary trace and the Resp Ahead columns.
- LatencyLog.CoreLog.FinalizeEvents: the issue cycle is handed in; it is the CPU.ENTER stamp of the
  request's event log.
- PeriodicTasks.EveryPeriodIsAccounted: the body of a job is an arbitrary list of compute times; address
  generation and read ratios are left out, and a response without an access in flight is ignored where
  the core would abort.
- Configuration parsing, printing, trace files and Python scripts.
