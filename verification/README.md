# Verification of the IPFS portal plugin

This project models how the plugin moves uploaded blocks into its metadata database, and what it derives from
them, and proves what the pipeline promises. It is written in Dafny; `dafny verify dfyconfig.toml` checks it.

| part | files |
|---|---|
| the block-link database and announcements | `ContentTables`, `PinTheorems`, `PinRuns`, `StoreLaws`, `Rows`, `MetadataStore`, `TwoStores`, `Reprovide` |
| the upload pipeline | `Batcher`, `DoneTracker`, `WakeUps`, `FilePipeline`, `FileShutdown`, `FileFlow`, `FileErrors`, `BlockQueue`, `QueueOutcome`, `QueueSafety`, `QueueFailures` |
| graph walks and path assignment | `Graphs`, `DagWalk`, `FilePaths`, `FileRoots` |
| archives | `ArchivePaths`, `ArchiveTree` |
| bookkeeping | `PeerTracker`, `QuotaReservations`, `ValueMerge` |

Objects whose methods change fields are classes, and their methods are proved against functions on values; the
theorems are about those functions. Code that runs concurrently is a transition system whose steps are critical
sections, channel operations and single calls into other services, and the theorems are about all its runs.

Where the code differs from what one would expect, the model follows the code:

- The streaming store enters pending blocks under the binary CID, and `MarkBlockProcessed` deletes under a text
  key (internal/protocol/streaming_blockstore.go:176, 564). Nothing is ever deleted before `Close`, so no CID is
  sent twice, `Get` keeps finding processed blocks as pending ones, and the counters are not the sizes of the maps
  (`FileFlow`).
- `Release` waits only for goroutines that have been added to the wait group. If it is called while a `Next` has
  passed its checks and has not started the producer, the producer can panic: it can send a block on the closed
  delivery channel, or report a failed read on the closed error channel. `FileShutdown.ReleaseCanPanicIff` says
  that this is exactly when.
- A failed file upload reports its error once and leaves the delivery channel open. One `Next` returns the error; any
  later one waits until the context is cancelled or `Release` is called (`FileErrors.LaterNextWaits`). Apart
  from that a `Next` that waits can go on, or the producer can (`FileErrors.NobodyWaitsInVain`).
- `ProcessBlocks` always runs under a timeout of 30 minutes (internal/protocol/block_queue.go:77) and treats its end
  like a benign cancellation (internal/protocol/block_queue.go:256, 270-272): a context that ends while blocks are
  read or processed drops blocks without an error, whatever the configuration. The runs that can be honest are those
  in which neither the timeout nor the parent ends the context before StopWait has returned; an end after that does
  no harm. In these runs a call can still succeed after a failed batch, if a CID was returned twice: the worker whose
  `Add` failed tries again, finds the metadata that the other copy has written meanwhile, and reports nothing.
  `QueueFailures.GuaranteedIff` states the exact condition.
- `Unpin` marks UnixFS rows as deleted and then deletes the block row they refer to; with foreign keys enforced
  that is refused (internal/protocol/store/metadata.go:380-419).
- Adopting an orphaned link row makes the result depend on the order of an upload
  (`PinRuns.OrderIrrelevantIffNoOrphans`); no modelled operation creates such rows.
- `Reset` of the done tracker strands waiters that are blocked at that moment (`WakeUps.LostStaysLost`).

## Model

| member | source | states |
|---|---|---|
| PinTheorems.EnsureCommutes | internal/protocol/store/metadata.go:240-275 | placeholder rows inserted before a pin or after it give the same tables, and the pin fails in both cases or in neither |
| PinTheorems.BatchIsSequence | internal/protocol/store/metadata.go:86-139 | `BatchPin` and pinning the same blocks one by one give the same tables, and one fails exactly when the other does |
| PinTheorems.BatchingIsConcatenation | internal/protocol/store/metadata.go:86-139 | where an upload is cut into batches makes no difference |
| PinTheorems.BatchClosedForm | internal/protocol/store/metadata.go:141-236 | without orphaned link rows an upload of content-addressed blocks never fails, and its result is given by the set of its blocks alone |
| PinTheorems.UploadOrderIsIrrelevant | internal/protocol/store/metadata.go:86-236 | however the same blocks are ordered, repeated or cut into batches, the tables end up the same |
| PinTheorems.PinKeeps | internal/protocol/store/metadata.go:53-84 | a pin leaves no dangling link row, keeps every row, every announcement time and every ready flag, and makes its block ready with its size |
| PinTheorems.BatchPinKeeps | internal/protocol/store/metadata.go:86-139 | the same for a whole batch; every block of the batch is ready afterwards |
| PinRuns.OrderIrrelevantIffNoOrphans | internal/protocol/store/metadata.go:193-236 | the order of every upload is irrelevant if and only if the link table holds no row without a parent |
| PinRuns.OrphanMakesOrderMatter | internal/protocol/store/metadata.go:193-236 | a single orphaned row is enough: two orders of one upload give different tables |
| PinRuns.RunsStayConsistent | internal/protocol/store/metadata.go:53-419 | from an empty database no run of Pin, BatchPin, Unpin, MarkBlockReady and SetLastAnnouncement leaves a dangling or an orphaned link row, so every content-addressed batch is accepted after any run |
| PinRuns.AnnouncementIsExact | internal/protocol/store/metadata.go:617-654 | SetLastAnnouncement succeeds exactly when every row is ready, and then changes the times of those rows and nothing else |
| PinRuns.ChildrenAfterUpload | internal/protocol/store/metadata.go:448-500 | after an upload of a parent without link rows, BlockChildren lists exactly its ready links in order; if all children are ready, its normalised links without repetitions |
| PinRuns.ChildrenOfCompleteUpload | internal/protocol/store/metadata.go:448-500 | after an upload of a parent and all its children, BlockChildren is the parent's normalised link list in order, each link once |
| StoreLaws.PinRows | internal/protocol/store/metadata.go:53-84 | every field of every row after a pin: the block's own row under its version 1 identifier, the rows that were there, and empty rows for the children that had none |
| StoreLaws.PinLinkRows | internal/protocol/store/metadata.go:193-236 | without orphaned rows a pin succeeds and adds exactly one numbered link row for each stored link of the block: its links under version 1 identifiers, none twice, in the order of first occurrence |
| StoreLaws.PinFilesVersion1 | internal/protocol/encoding/encoding.go:47-65 | a block pinned under the version 0 identifier of a multihash is ready under the version 1 identifier with codec 0x70 and that multihash, with its size, and no version 0 row appears; other identifiers are kept |
| StoreLaws.BatchFilesVersion1 | internal/protocol/store/metadata.go:86-139 | the same for a batch: of the blocks that are filed under the same identifier the last leaves its size there |
| StoreLaws.NoVersion0Appears | internal/protocol/store/metadata.go:86-139 | no batch adds a row under a version 0 identifier |
| StoreLaws.RunsFileVersion1 | internal/protocol/encoding/encoding.go:47-65 | in every run from an empty database no block row and no end of a link row has a version 0 identifier |
| StoreLaws.LastOperationShows | internal/protocol/store/metadata.go:53-419 | what the last operation of any run leaves behind: pinned blocks ready with their size, unpinned ones without a row or a link, the flag that was asked for, the announcement time or no change at all |
| StoreLaws.UnpinUndoesPin | internal/protocol/store/metadata.go:380-419 | unpinning a block that was pinned for the first time restores every row and every link, except for the empty rows of its children |
| StoreLaws.UnpinRows | internal/protocol/store/metadata.go:380-419 | every other row, and every link row that does not name the block, survives an unpin; the block is then neither due nor listed as a child, and nothing else about the listings changes |
| StoreLaws.MarkReadyShows | internal/protocol/store/metadata.go:795-813 | the flag becomes the argument and nothing else changes, so the block is listed as a child and as due exactly if it is ready now and would have qualified otherwise |
| StoreLaws.DueInPlainTimes | internal/protocol/store/metadata.go:565-595 | the listed blocks are due; those never announced come first, then the others by ascending time; a due block that is left out is not older than any listed one; below the limit none is left out |
| Rows.SameTablesRenames | internal/protocol/store/metadata.go:86-236 | two databases of rows with the same tables differ only by a renaming of their row ids |
| TwoStores.UploadBothWays | internal/protocol/store/metadata.go:53-139 | on two stores with equal tables, an upload in batches and the same upload block by block succeed or fail together and leave the same rows up to a renaming of the row ids |
| Rows.AdoptRows | internal/protocol/store/metadata.go:205-236 | giving all orphaned link rows of a child a parent, on rows with ids, is the same step on CID-keyed tables |
| Metadata.MetadataStore.PinPreparedBlockInTx | internal/protocol/store/metadata.go:141-236 | on tables of rows with ids: the tables after one prepared block is pinned, or failure on a duplicate link key |
| Metadata.MetadataStore.Pin | internal/protocol/store/metadata.go:53-84 | the rows after a pin, whose meaning is given field by field by `StoreLaws.PinRows` and `StoreLaws.PinLinkRows`; a failing transaction restores every row and id |
| Metadata.MetadataStore.BatchPin | internal/protocol/store/metadata.go:86-139 | the rows after a batch, written with one pass of placeholders first, which are those after a sequence of pins (`PinTheorems.BatchIsSequence`); a failing transaction restores every row and id |
| Metadata.MetadataStore.Unpin | internal/protocol/store/metadata.go:380-419 | the rows after an unpin; it is refused exactly when the engine enforces foreign keys and the block has a UnixFS row, which is only marked as deleted |
| Metadata.MetadataStore.MarkBlockReady | internal/protocol/store/metadata.go:795-813 | only the ready flag of an existing row changes |
| Metadata.MetadataStore.SetLastAnnouncement | internal/protocol/store/metadata.go:617-654 | all or nothing: the announcement times of the given ready rows |
| Metadata.MetadataStore.BlockChildren | internal/protocol/store/metadata.go:448-500 | the ready children in link order, at most `max` of them |
| Metadata.MetadataStore.ProvideCIDs | internal/protocol/store/metadata.go:565-595 | the oldest ready blocks that are due, at most `limit` of them, each once |
| Metadata.MetadataStore.CountPinned | internal/protocol/store/metadata.go:597-615 | pending is exactly the number of blocks an unlimited ProvideCIDs would return |
| Metadata.PendingIsStale | internal/protocol/store/metadata.go:597-615 | ready blocks minus announced ones are the blocks that are due, as sets and in number |
| Metadata.StaleListing | internal/protocol/store/metadata.go:565-595 | ordering the due rows by age and cutting the list gives the oldest blocks, each once |
| Reprovide.GroupCollectsFailures | internal/protocol/ipfs/provide.go:93-154 | whatever the finishing order, the shared list holds one copy of the key of each failed call |
| Reprovide.GroupFinishes | internal/protocol/ipfs/provide.go:93-154 | the group never has more workers than allowed, launches a key whenever one more is allowed, cannot get stuck before every key was tried, and takes at most two turns a key |
| Reprovide.FailedListExact | internal/protocol/ipfs/provide.go:131-154 | when the group is done, a key is listed exactly if a call for it failed |
| Reprovide.Reprovider.PerformProvide | internal/protocol/ipfs/provide.go:287-398 | what one cycle fetches, marks and asks for as the next delay, for every answer of the provider and every engine failure: the short error delay after any failure, the empty delay if nothing is due, nothing marked after an unclassified error |
| Reprovide.Reprovider.MarkOutcome | internal/protocol/ipfs/provide.go:336-398 | what a cycle marks and which delay it asks for, for every answer of the provider |
| Reprovide.MarkedByOutcome | internal/protocol/ipfs/provide.go:336-398 | what a cycle marks: everything after a success, what is not among the failed keys after a partial failure, nothing after any other error |
| Reprovide.PartialFailureIsExact | internal/protocol/ipfs/provide.go:336-375 | a cycle marks exactly the fetched CIDs none of whose multihash's announcements failed, and every other one stays due, for every finishing order |
| Reprovide.DrainHolds | internal/protocol/ipfs/provide.go:287-398 | after any number of successful cycles: how many CIDs were announced, each once, oldest first |
| Reprovide.FullBatches | internal/protocol/ipfs/provide.go:376-398 | with n stale CIDs and batch size B, the k-th cycle has a full batch, and asks for the backlog delay, exactly if k is less than n / B |
| Reprovide.BacklogDrains | internal/protocol/ipfs/provide.go:287-398 | n stale CIDs are announced oldest first and none twice; the backlog delay is asked for in exactly the first n / B cycles, and after one more nothing is due |
| BatcherSpec.RunsAreAccounted | internal/protocol/store/batcher.go:45-104 | over any calls of Add, Flush and Close the accepted blocks are, in order, the writes and then the buffer; only the last write can have failed; the buffer stays below the batch size and is empty after a failure |
| BatcherSpec.FailureIsFinal | internal/protocol/store/batcher.go:45-104 | after a failed write or after Close nothing is taken in or written any more |
| BatcherSpec.WritesAreExact | internal/protocol/store/batcher.go:45-104 | when a call writes, what, and what it takes in: an Add when the buffer has become full, a Flush or a Close when there is anything left; always the whole buffer, and nothing after a failure |
| BatcherSpec.AnswersAreExact | internal/protocol/store/batcher.go:45-104 | over any calls: a call returns an error exactly if its own write fails, which is then the error of that write, or if an earlier one failed and the call is an Add or a Flush after Close |
| BatcherSpec.FailureIsRemembered | internal/protocol/store/batcher.go:45-94 | whatever is called in between, every Add and every Flush after Close returns the very error of the failed write |
| BatcherSpec.WritesAreOneBatch | internal/protocol/store/batcher.go:78-94 | the successful writes together do to the tables what one BatchPin of all their blocks does |
| BatcherSpec.FlushedBatcherPinsEach | internal/protocol/store/batcher.go:45-94 | a batcher flushed without error has done to the tables what pinning the accepted blocks one by one does |
| Batcher.MetadataBatcher.Add | internal/protocol/store/batcher.go:45-64 | the fields after an Add, and its result; accepted blocks stay accounted for by the writes and the buffer |
| Batcher.MetadataBatcher.Flush | internal/protocol/store/batcher.go:66-76 | the fields after a Flush, and its result: a closed batcher reports its old error, an open one does not |
| Batcher.MetadataBatcher.Close | internal/protocol/store/batcher.go:97-104 | the fields after a Close, and its result |
| DoneTracker.DoneTracker.Complete | internal/protocol/done_tracker.go:61-103 | the critical section of Done: the CID is done and waited for by nobody, waited-for and completed CIDs stay disjoint, and exactly its waiters' channels are to be closed |
| DoneTracker.DoneTracker.Register | internal/protocol/done_tracker.go:105-132 | the first critical section of WaitDone: true exactly if the CID is done, else the channel is registered |
| DoneTracker.DoneTracker.Unregister | internal/protocol/done_tracker.go:134-164 | the clean-up of a cancelled WaitDone removes its own channel only |
| DoneTracker.DoneTracker.Reset | internal/protocol/done_tracker.go:200-208 | both maps become empty |
| DoneTracker.DoneTracker.GetDoneCIDs | internal/protocol/done_tracker.go:166-198 | every done CID exactly once, except the undefined CID, which cannot be read back from its key |
| DoneTracker.DoneTracker.Count | internal/protocol/done_tracker.go:210-231 | done waiters plus completed CIDs that have no waiter entry, which is the number of done CIDs |
| DoneTracker.DoneTracker.IsDone | internal/protocol/done_tracker.go:236-250 | whether the CID is done |
| WakeUps.RunsAreSafe | internal/protocol/done_tracker.go:61-231 | in every interleaving, Resets included: no channel is closed twice, WaitDone returns true only after Done (and false only when cancelled, `WakeUps.AnswersAreTrue`), waiter keys and completed keys stay disjoint, and Count is the number of CIDs done since the last Reset |
| WakeUps.AnswersAreTrue | internal/protocol/done_tracker.go:105-164 | in every interleaving, Resets included: each call is where its own code can be, a WaitDone that gives up or answers false was cancelled, so without cancellation every answer is true; the recorded done CIDs are those of the calls |
| WakeUps.WaitIsExact | internal/protocol/done_tracker.go:105-132 | at any point of any run WaitDone answers true at once if Done was called for its CID since the last Reset, and blocks otherwise |
| WakeUps.NoWakeUpIsLost | internal/protocol/done_tracker.go:61-164 | in every interleaving without Reset a waiter blocked on a completed CID has its channel closed or queued for closing |
| WakeUps.QueuedWaiterIsWoken | internal/protocol/done_tracker.go:95-100 | a queued channel is closed by as many closes as its place in the queue, and then its waiter returns true |
| WakeUps.ResetLosesRegisteredWaiters | internal/protocol/done_tracker.go:200-208 | Reset loses a wake-up if and only if some thread is blocked on a registered channel |
| WakeUps.LostStaysLost | internal/protocol/done_tracker.go:200-208 | a waiter lost by Reset stays blocked in every continuation in which its context is not cancelled |
| WakeUps.ResetStrandsRegistered | internal/protocol/done_tracker.go:200-208 | of the threads blocked when Reset is called, exactly those whose channel is registered stay blocked whatever follows; each other one can still be woken |
| WakeUps.LostIsReachable | internal/protocol/done_tracker.go:200-208 | a wait, a Reset and a Done for the same CID end with a stranded waiter |
| WakeUps.SafeIsSound | internal/protocol/done_tracker.go:61-231 | the class invariant of the tracker holds in every run |
| FilePipeline.RunsKeepOrder | internal/protocol/block_processor_base.go:122-156 | in every run in which Release is not called while a Next is about to start the producer: nobody starts the producer behind the back of Release, the producer is gone once Release has waited, and the channels are closed only after the last send |
| FilePipeline.NoSendAfterClose | internal/protocol/streaming_blockstore.go:213-226 | in every interleaving in which Release is not called while a Next is about to start the producer, the delivery channel is closed at most once, and nothing is sent on a closed delivery or error channel |
| FileShutdown.ReleaseCanPanicIff | internal/protocol/block_processor_base.go:141-156 | from every reachable state and for every file, calling Release can end in a send on a closed delivery or error channel if and only if a Next has passed its checks and has not started the producer yet |
| FileShutdown.ReleaseCanSendIff | internal/protocol/streaming_blockstore.go:213-226 | a block can be sent on the closed delivery channel if and only if, besides, the file has a block left to put |
| FileShutdown.WindowCanSend | internal/protocol/block_processor_file.go:99-124 | the interleaving in which Release misses a producer that is about to start and closes the channel under its put |
| FileShutdown.WindowIsReachable | internal/protocol/block_processor_file.go:99-124 | the window is reached by a first call of Next |
| FileShutdown.WindowCanPanic | internal/protocol/block_processor_base.go:106-131 | the interleaving in which a failed read of the missed producer is reported on the closed error channel |
| FileShutdown.ReleaseIsSafe | internal/protocol/block_processor_file.go:243-275 | from the start of any upload, Release outside the window never makes the producer panic and returns after a bounded number of steps of its own and of the producer |
| FileShutdown.ShutdownFinishes | internal/protocol/block_processor_base.go:141-156 | once Release has begun, some step of it or of the producer is possible until it returns, even with a full channel and no consumer, and there are at most Rank of them whatever else happens |
| FileFlow.ConsumerGetsEachBlockOnce | internal/protocol/streaming_blockstore.go:163-234 | in every run the consumer gets the blocks in the order of their puts, none twice; pending entries are never deleted before Close, and yet the two counters add up to the accepted puts |
| FileFlow.EndOfStreamIsComplete | internal/protocol/streaming_blockstore.go:547-559 | when the stream ends and Release has not ended it, the consumer has received every block of the file exactly once, in the order of first puts |
| FileFlow.MarksAreExact | internal/protocol/streaming_blockstore.go:562-600 | in every run, until Close forgets them, exactly the received blocks are marked as processed, by text keys, except for one that Next is still at |
| FileErrors.ErrorsAreConserved | internal/protocol/block_processor_base.go:106-131 | in every run, Release included: each reported error is on the channel or was taken by a Next, none is dropped, and a failed read or put is reported unless Release has closed the channel |
| FileErrors.NothingIsGivenUp | internal/protocol/block_processor_file.go:99-153 | without cancellation and Release no Next gives up and no put is abandoned |
| FileErrors.ErrorsAreReal | internal/protocol/block_processor_file.go:120-153 | a Next returns an error off the channel only if one was reported, or Release has begun to close the channel |
| FileErrors.NobodyWaitsInVain | internal/protocol/block_processor_file.go:118-153 | in every run outside the window, if the channel has room for a block, a Next that waits can go on or the producer can, with one exception: the producer's error was taken by an earlier Next |
| FileErrors.LaterNextWaits | internal/protocol/block_processor_base.go:106-131 | that exception is real: a Next after the one that took the error waits, with nothing else to happen, until the context is cancelled or Release is called |
| FileErrors.NothingIsDelivered | internal/protocol/block_processor_file.go:99-153 | after cancellation no Next that has not got past its checks ever takes a block, and after Release has begun a new Next does nothing |
| FileErrors.ReleaseForgets | internal/protocol/streaming_blockstore.go:477-523 | when Release returns and no Next was under way, both maps are empty and both counters zero |
| FileErrors.ClosedStoreAcceptsNothing | internal/protocol/streaming_blockstore.go:151-234 | a closed store takes no block in, whatever follows, except for a put that is past its checks |
| FileFlow.GetFindsAccepted | internal/protocol/streaming_blockstore.go:251-305 | an open store finds exactly the accepted blocks, as pending ones even after they were processed, and never waits for the passthrough |
| BlockQueue.FailureIsReported | internal/protocol/block_queue.go:162-171 | in every interleaving, with or without cancellation, a counted worker failure makes the call return an error |
| QueueOutcome.OutcomeIsExact | internal/protocol/block_queue.go:184-261 | in every interleaving, whatever follows: the call succeeds exactly if it got as far as checking for errors and no worker ran out of retries; it fails exactly if Next failed, or the last flush did, or a worker's error was found |
| QueueOutcome.NoFailureIsForgotten | internal/protocol/block_queue.go:162-261 | no failure of Next, of the last flush, of a worker or of retries that ended early with an error is followed by a success, and the failures are counted one by one |
| QueueOutcome.ThreeAttempts | internal/protocol/block_queue.go:112-137 | no block is tried more than three times, and a worker whose retries did not end early fails only after the third |
| QueueOutcome.FailureCancels | internal/protocol/block_queue.go:162-171 | the first failure of a worker has cancelled the queue by the time StopWait returns |
| QueueOutcome.QueueIsCancelledOnce | internal/protocol/block_queue.go:162-171 | however many workers fail, the queue is cancelled by the first to announce it, once |
| QueueOutcome.DoneIsExact | internal/protocol/block_queue.go:197-230 | in every run exactly these blocks are reported as done: with a streaming store the persisted ones, otherwise the queued ones |
| QueueOutcome.UploadsAreExact | internal/protocol/block_queue.go:145-159 | in every run exactly the objects of successful uploads are stored, whatever fails afterwards |
| QueueOutcome.WorkersAreBounded | internal/protocol/block_queue.go:75-84 | at most as many jobs are under way as there are workers |
| QueueOutcome.CancelledStopsWork | internal/protocol/block_queue.go:87-110 | once the queue is cancelled no job is added or started, a started one that was not tried is never tried, and at most one more block is asked for |
| QueueSafety.AddKeepsUnseen | internal/protocol/block_queue.go:139-159 | with distinct CIDs or a single worker, a block that one worker has found absent is not written by another before it adds it |
| QueueSafety.StepKeepsLoss | internal/protocol/block_queue.go:112-137 | after a failed batch some job that cannot be saved by a retry is left to report it |
| QueueSafety.SuccessIsComplete | internal/protocol/block_queue.go:184-261 | under a trustworthy configuration, in every interleaving in which the context does not end from outside before the workers are done: if the call succeeds, every block Next returned is stored, done, and in a batch that was written (a call whose Next failed does not succeed, `QueueOutcome.OutcomeIsExact`) |
| QueueSafety.SuccessReachesTables | internal/protocol/block_queue.go:184-261 | the end of the pipeline: after such a success every returned block is ready in the tables that the written batches leave behind, and done |
| BlockQueue.LateEndIsSeen | internal/protocol/block_queue.go:233-261 | a context that ends only once StopWait has returned, as by the built-in timeout, has no part in the outcome |
| QueueFailures.GuaranteedIff | internal/protocol/block_queue.go:184-261 | success can be trusted, from every database and in every interleaving in which the context does not end before the workers are done, if and only if batches hold one block, or there is a flusher and no CID can be in two workers' hands |
| QueueFailures.DeadlineLoses | internal/protocol/block_queue.go:256-272 | no configuration is honest when the context ends earlier: in a run of six steps the timeout fires after Next and the call succeeds without its block |
| QueueFailures.DuplicateLoses | internal/protocol/block_queue.go:113-137 | with a repeated CID, two workers and batches of two or more, for every batch size, some run loses a failed batch and succeeds: the retry finds the other copy's metadata |
| QueueFailures.NoFlusherLoses | internal/protocol/block_queue.go:239-247 | without a flusher some run leaves its last batch in the buffer and succeeds |
| DagWalkSpec.WalkIsExact | internal/protocol/op_file_path.go:625-679 | from an empty visited map, on any graph with shared nodes and cycles and with failing lookups: exactly the nodes reachable through readable ones are visited, the call fails exactly if the root is unreadable, and otherwise the total counts each readable node once |
| DagWalkSpec.WalkOfHealthyDag | internal/protocol/op_file_path.go:625-679 | when every lookup succeeds, the visited nodes are the whole DAG below the root and the total is the sum of their sizes |
| DagWalkSpec.TotalIsPlainSum | internal/protocol/op_file_path.go:625-679 | the total is the plain sum of the sizes of the newly visited blocks that have one and a list of children: that of the metadata store, or else that of the block store; there is none exactly if the block itself is new and has no size or no list |
| DagWalkSpec.TotalOfMetadata | internal/protocol/op_file_path.go:644-656 | when the metadata store knows every block below the root, the total is the sum of its sizes over the whole DAG, whatever the block store says |
| DagWalkSpec.WalkCounts | internal/protocol/op_file_path.go:625-679 | with any visited map at the start, the total is the sum over the newly visited readable nodes |
| DagWalk.Walker.WalkDAGForTotalSize | internal/protocol/op_file_path.go:625-679 | the recursive method on the shared visited map, with its 64-bit wrap-around; it terminates because unvisited nodes decrease |
| FilePathsSpec.RunIsATree | internal/protocol/op_file_path.go:384-506 | whatever the order of the roots and whatever fails: at most one entry per CID; every entry that is not a root's hangs below an earlier directory entry that lists it, one level deeper; saved sizes are those of the blocks in the subtree; exactly what is reachable through expanded directories is processed |
| FilePathsSpec.RunPaths | internal/protocol/op_file_path.go:401-415 | in every run an entry has the kind and the name of its node's metadata, or the text of its CID if it has none; its path is that of an earlier directory that lists it, a slash and this name, one level deeper, unless it is a root's and lies directly below the top |
| FilePathsSpec.FirstEntry | internal/protocol/op_file_path.go:401-430 | wherever a node is processed its entry comes first, with its name, kind, depth, path and parent path spelled out |
| FilePathsSpec.RunAccounts | internal/protocol/op_file_path.go:384-506 | an entry for exactly the processed CIDs whose entry can be created, and as orphans exactly the CIDs without metadata that some directory with an entry lists |
| FilePathsSpec.ComputeSizes | internal/protocol/op_file_path.go:466-505 | the returned size is that of the blocks of the new entries, and the final size of every directory is that of its contiguous subtree of entries |
| FilePathsSpec.ComputeOneEach | internal/protocol/op_file_path.go:389-394 | no CID gets two entries, and none that was processed before gets one |
| FilePathsSpec.RootOrderIsIrrelevant | internal/protocol/op_file_path.go:183-201 | the processed CIDs are the same for every order in which the roots are taken |
| FilePaths.FilePathOperation.ComputePathsRecursive | internal/protocol/op_file_path.go:384-506 | the processed map, the entries and the orphans after a call, in order, and the returned size; their names and paths are given by `FilePathsSpec.RunPaths`, the sizes by `FilePathsSpec.ComputeSizes` |
| FilePaths.FilePathOperation.RootCids | internal/protocol/op_file_path.go:166-181 | the fetched CIDs that no fetched node lists as a child |
| FilePaths.FilePathOperation.ProcessRoots | internal/protocol/op_file_path.go:183-201 | the state after the loop over the roots, in whatever order |
| FileRoots.RunProcesses | internal/protocol/op_file_path.go:166-201 | the processed CIDs are those reachable from some root through expanded directories |
| FileRoots.CoverageIff | internal/protocol/op_file_path.go:166-201 | on an acyclic graph whose children are all fetched, every fetched CID is processed if and only if each one that is not a root is listed by a directory whose entry can be created |
| FileRoots.EveryFetchedIsProcessed | internal/protocol/op_file_path.go:166-201 | on an acyclic graph where only directories have children and entries can be created, every fetched CID is processed |
| FileRoots.ClosedGroupsAreNotProcessed | internal/protocol/op_file_path.go:166-201 | nodes that are all listed within their own group, and led to only from within it, are never processed |
| FileRoots.CyclesAreNotCovered | internal/protocol/op_file_path.go:166-181 | two directories that list each other have no root, and neither is processed |
| ArchivePaths.ChildParts | internal/upload/common/file_utils.go:137-150 | parent and base name take a child path apart again |
| ArchivePaths.ParentIsPrefix | internal/upload/common/file_utils.go:137-150 | the parent is what comes before the last slash, and the top if that is nothing |
| ArchivePaths.SortDirectoriesByDepth | internal/upload/common/directory_utils.go:10-26 | the array is sorted in place, deepest paths first and alphabetically within a depth, and is a permutation |
| ArchivePaths.DescendantsFirst | internal/upload/common/directory_utils.go:10-26 | in the sorted order every strict descendant comes before its ancestor |
| ArchivePaths.DepthThenAlphabet | internal/upload/common/directory_utils.go:10-26 | the order compares the number of slashes, more first, and then the characters at the first difference |
| ArchivePaths.SortedIsUnique | internal/upload/common/directory_utils.go:10-26 | there is one sorted order, so it does not depend on the sorting algorithm or on the order of the map |
| ArchiveTreeSpec.PassOneShelves | internal/upload/car_generator.go:284-380 | after the first pass every directory holds exactly its own files |
| ArchiveTreeSpec.TreeIsComplete | internal/upload/car_generator.go:382-411 | if every directory is linked before its parent, a walked path resolves to its own file or to a directory, and nothing else resolves to anything |
| ArchiveTreeSpec.CompleteIffChildrenFirst | internal/upload/car_generator.go:382-411 | the finished tree is complete if and only if every directory was linked before its parent |
| ArchiveTreeSpec.SortedOrderIsChildrenFirst | internal/upload/car_generator.go:382-390 | the depth order links every directory before its parent |
| ArchiveTreeSpec.PassTwoSucceeds | internal/upload/car_generator.go:392-411 | the second pass fails exactly where a directory node cannot be made or added |
| ArchiveTreeSpec.NamesJoin | internal/upload/common/file_utils.go:137-150 | splitting a valid path into names and joining them gives the path back |
| ArchiveTree.CollectArchiveEntries | internal/upload/car_generator.go:263-413 | both passes over mutable directory objects, in depth order: for a walk as a file system makes it, every walked path of the returned tree resolves to its own file or to a directory, and nothing else resolves to anything; it fails exactly as `ArchiveTreeSpec.BuildSucceeds` says |
| ArchiveTreeSpec.PassOneFailsIff | internal/upload/car_generator.go:284-380 | whatever is walked, the first pass fails exactly at a path that cannot be looked at (unless it is the missing top), a directory that cannot be created, or a file of a known directory of which no node can be made |
| ArchiveTreeSpec.BuildSucceeds | internal/upload/car_generator.go:284-411 | for a walk as a file system makes it, the build fails exactly at such a call or where a directory cannot be linked |
| PeerTracker.BlockRequestTracker.AddRequest | internal/protocol/ipfs/peer_tracker.go:29-44 | the peer joins the end of the list of the normalised CID, in place or in a new array, unless it is there; empty peers and undefined CIDs are ignored; all other lists keep their contents |
| PeerTracker.BlockRequestTracker.GetAndRemoveRandomPeer | internal/protocol/ipfs/peer_tracker.go:48-75 | for every index drawn: that peer is returned, the last one moves to its place in the array, all other lists keep their contents |
| PeerTracker.BlockRequestTracker.PopPeer | internal/protocol/ipfs/peer_tracker.go:79-98 | the peer that asked first is returned and removed, the others keep their order, as do all other lists |
| PeerTracker.BlockRequestTracker.RemovePeer | internal/protocol/ipfs/peer_tracker.go:101-121 | the peer leaves the list of that CID, the others move up in order, all other lists keep their contents |
| PeerTracker.BlockRequestTracker.RemovePeerFromAll | internal/protocol/ipfs/peer_tracker.go:125-154 | the peer leaves every list and the others keep their order, in whatever order the map is walked; no list becomes empty |
| PeerTracker.SwapRemoveAt | internal/protocol/ipfs/peer_tracker.go:69-73 | swap-remove on the backing array: the contents of the slice after it |
| PeerLists.SwapRemoveRemoves | internal/protocol/ipfs/peer_tracker.go:69-73 | it removes exactly one peer and makes no duplicates |
| PeerTracker.RemoveAt | internal/protocol/ipfs/peer_tracker.go:111-119 | closing the gap on the backing array: the contents of the slice after it, in order |
| PeerTracker.Append | internal/protocol/ipfs/peer_tracker.go:43 | append in place or into a new array: the contents of the slice after it |
| PeerLists.AddedPeers | internal/protocol/ipfs/peer_tracker.go:29-44 | as sets: one peer joins one set; lists stay without duplicates and non-empty |
| PeerLists.BothFormsShareAList | internal/protocol/ipfs/peer_tracker.go:29-44 | a version 0 identifier has no list: its peers join that of the version 1 identifier with codec 0x70 and the same multihash |
| PeerLists.SwapRemovedPeers | internal/protocol/ipfs/peer_tracker.go:48-75 | as sets: one present peer leaves one set |
| PeerLists.PoppedPeers | internal/protocol/ipfs/peer_tracker.go:79-98 | as sets: the first peer leaves one set |
| PeerLists.RemovedPeers | internal/protocol/ipfs/peer_tracker.go:101-121 | as sets: the given peer leaves one set |
| PeerLists.RemovedFromAllPeers | internal/protocol/ipfs/peer_tracker.go:125-154 | as sets: the given peer leaves every set |
| QuotaReservations.QuotaService.CheckWithReservation | internal/quota/quota.go:236-266 | a check that is not allowed leaves no reservation behind |
| QuotaReservations.QuotaService.ReleaseBlockReservationsMap | internal/quota/quota.go:36-52 | exactly the reservations of the map are released, in whatever order |
| QuotaReservations.QuotaService.CreatePerBlockReservationsWithSizes | internal/protocol/quota_helpers.go:86-120 | all or nothing for every order and failure point: it succeeds exactly if every check does; on an error the outstanding reservations are those on entry, on success there is one upload and one storage reservation more for each CID of nonzero size |
| ValueMerge.Merge | internal/protocol/ipfs/composite_routing.go:129-161 | for every choice of the select the merge terminates and its output is an interleaving of the two streams; if cancelled, of a part of each, with at most one received value dropped |
| ValueMerge.SearchValue | internal/protocol/ipfs/composite_routing.go:115-164 | one failing backend is left out, two give the error of the secondary, and two answers are merged, in part if the context ends |
| ValueMerge.MergeKeepsEverything | internal/protocol/ipfs/composite_routing.go:129-161 | an interleaving holds every value of both streams exactly once and keeps the order of each |

## Left out

- The SQL engine and its retries: a transaction is atomic, and upserts, conflicts and foreign keys are modelled as
  table steps. Whether foreign keys are enforced is a parameter of the store. Row ids of links and UnixFS rows and
  creation times are not modelled; identical orphaned link rows count once.
- Names of UnixFS nodes found later (`ProcessMissingUnixFSNames`), `BlockSiblings`, `Pinned` and `Size`.
- Hashing and encoding: a CID is its version, codec and hash, and text and binary forms name it uniquely.
- BlockQueue: the block service is modelled as a look-up followed by a put; the virtual-read mode and logging are
  left out. The cache in front of the store is not part of this model: it can hide repeated puts, and as far as it
  is keyed by multihash also the first put of another CID with the same multihash, so with the cache on `distinct`
  has to mean distinct multihashes. `retry-go` is modelled as allowed to return a bare context error once the
  context has ended. The batcher has one uploader and starts empty and without an error.
- BlockQueue: panics of workers and the release of the worker pool after an error return.
- FilePipeline: puts come from the background producer only; the roots, the done tracker of the store and the
  closing of the file reader are left out, as is a `Next` that reads a closed error channel while Release runs.
- FileFlow: the bloom filter, `Has`, `GetSize` and `AllKeysChan`, and what happens behind a passthrough store.
- WakeUps: `GetDoneCIDs`, `Count` and `IsDone` are read-only and appear as methods of the class only.
- Reprovide: cancellation (the basic provider then returns early without listing untried keys), timeouts, the
  trigger channel and the classification of errors for logs.
- DagWalk: the two stores answer the same for a CID during one walk.
- FilePaths: sizes are unbounded integers, an entry that exists already counts as created, a node is looked up
  with the same result each time, and the fields of orphan entries and of the workflow state are left out.
- ArchiveTree: file contents are numbers; the walk follows the contract of `fs.WalkDir`; pruning of empty
  directories and `buildDirectoryTree` are left out, because they change or link directories in another order.
- ArchivePaths: `sort.Slice` is written as an insertion sort; the sorted order is unique.
- The archive processor's `Release`, which closes the store before it waits for its producer.
- PeerTracker: how much room `append` leaves behind a slice; every index may be drawn, and a failing random source
  draws the first one.
- QuotaReservations: the rules by which the quota service decides; its answers are parameters. What the callers do
  with the reservations afterwards.
- ValueMerge: `PutValue` and `GetValue`, which pass a call on to one or both backends.
- HTTP handlers, configuration, wiring, logging, tracing, the want filter, DNS helpers and CAR writing.
