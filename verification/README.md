# Verified models of NimoOS

A Dafny 4.11 model of the parts of NimoOS that keep state under failures and interleavings, with proofs
about every input, every schedule of failures, every run. `dafny verify dfyconfig.toml` checks all of it.

| files | what they model |
|---|---|
| `MapOf.dfy` | the concurrent map used by one goroutine: read map, dirty map and shared entry objects |
| `MapOfProtocol.dfy`, `MapOfInvariant.dfy`, `MapOfSteps.dfy`, `MapOfLinearizable.dfy`, `MapOfProgress.dfy` | the same map as a transition system of atomic steps, its invariant, linearizability, and progress of every call |
| `Migration.dfy` | the path migration transaction over any list of units, with any schedule of failing operations |
| `FileCopy.dfy`, `Disk.dfy`, `FileMove.dfy`, `Tracking.dfy`, `FileBatch.dfy` | copying trees, the size check, move and replace of one item, the log of where every node goes, whole batches |
| `Fingerprint.dfy`, `OpQueue.dfy`, `OpProtocol.dfy`, `OpRuns.dfy`, `OpGuarantees.dfy`, `OpProgress.dfy` | the operation queue and the protocol of submitters, workers, progress checkers, pollers and cancellers; what each gets done when left alone |
| `UploadBatches.dfy`, `BatchStore.dfy`, `BatchRuns.dfy` | the upload batch state machine, the store's methods, runs with sweepers |
| `PathLock.dfy` | the reference-counted path locks |
| `Shares.dfy` | share paths that follow moved folders, and the LIKE query that finds them |
| `Staging.dfy` | upload ids that carry their volume, and the choice of the volume |
| `Options.dfy`, `Strings.dfy`, `Paths.dfy` | lookups, strings.Split and strings.Join, filepath.Clean and filepath.Join |

How the models are built:

- A nondeterministic environment is an input: a schedule says of each system call whether it fails and how
  much a failed copy or removal has done; a clock and a time of cancellation stand for the context. Contracts
  hold for every schedule.
- Concurrency is a transition system: a step is one atomic action of the source (a compare-and-swap, a
  critical section, one operation on a concurrent map, one database transaction). Any number of threads run, in any order.
  A run is a sequence of states from the empty one; theorems quantify over all runs and all positions.
- Where the source updates an object in place the model has a class whose methods are proved against
  functions on values, and the laws are proved about those functions.

Where the code does not do what its comments or its users would expect, the model follows the code, shows an
input, and proves the exact condition:

- A migration that fails, with every rollback step working, can leave a directory of an earlier run as the destination:
  with no destination but a stale `.old` sibling that cannot be removed, "putting the old destination back" installs it
  (`Migration.StaleOldIsInstalled`, for every such filesystem and list of units). `Migration.Execute` proves that an error
  leaves the destination as it was whenever there was one, or no such sibling, or the sibling was removed.
- Moving with style "skip" across devices can lose nodes, because the manual fallback skips a folder that a broken `cp` has made and
  the size check does not see empty files and folders. A node is sure to be kept exactly when it is the item, an entry of it, or
  has a non-empty file at or below it: `FileMove.MoveItem` keeps those, and `FileMove.MoveCanLose` gives, for every disk and
  every other node, a run that reports success and loses it.
- An empty batch and a batch with one empty source have the same fingerprint (`Fingerprint.EmptyBatchCollides`);
  `Fingerprint.FingerprintExact` shows that this is the only collision.
- `AbandonInterruptedUnder("/")` looks for the prefix "//" and so leaves the badges below the root
  (`BatchStore.RootBadgeStays`, and `BatchStore.AbandonAtRoot` for exactly when it does clear them).
- A sweeper can delete an active batch if the id is used again between its listing and its deletion, which takes a second
  sweeper (`BatchRuns.TwoSweepersCanDeleteActive`); otherwise, with any number of sweepers, a deletion finds the row
  terminal or absent (`BatchRuns.DeletesTerminalUnlessReused`). The program starts one sweeper.
- The staging volume can depend on the order of the mount table (`Staging.OverMountsDependOnOrder`): exactly when two mounts
  deepest over the target disagree on being local volumes (`Staging.OrderMattersExactly`).
- A preset upload id is found again exactly when it names its volume (`Staging.PresetRoutesBack`,
  `Staging.PlainPresetMisroutes`).
- A share whose tree a move takes from or brings into keeps its path but not its content, and exactly then
  (`Shares.TreeFollowsExactly`).

## Model

| member | source | states |
|---|---|---|
| `MapOfLinearizable.RunInv` | pkg/generic_sync/generic_sync.go:103-412 | every state of every interleaving keeps the invariant that ties read map, dirty map, expunged entries, the lock and all pending calls together |
| `MapOfLinearizable.PublishedEntryStaysCurrent` | pkg/generic_sync/generic_sync.go:142-200 | an entry once published in a read map and not expunged is still its key's entry in the current read map, and in dirty if dirty exists, outside the lock holder's move of that key |
| `MapOfLinearizable.OnlyCallsWrite` | pkg/generic_sync/generic_sync.go:142-300 | every change of the abstract contents is the effect of one running Store, LoadOrStore or Delete; promotion and dirty-map work change nothing |
| `MapOfLinearizable.LoadLinearizes` | pkg/generic_sync/generic_sync.go:103-139 | a finished Load returned what the map held at some moment between its call and its return |
| `MapOfLinearizable.StoreLinearizes` | pkg/generic_sync/generic_sync.go:142-200 | a finished Store put its value into the map at one moment between its call and its return, so it is never lost at promotion |
| `MapOfLinearizable.DeleteLinearizes` | pkg/generic_sync/generic_sync.go:273-300 | a finished Delete removed the key, or found it absent, at one moment of the call |
| `MapOfLinearizable.LoadOrStoreLinearizes` | pkg/generic_sync/generic_sync.go:205-270 | a finished LoadOrStore either returned a value present at one moment, or found the key absent and stored its own at one moment |
| `MapOfLinearizable.RangeReflectsTheCall` | pkg/generic_sync/generic_sync.go:312-343 | for each key, what Range delivered is what the map held for it at some moment of the call |
| `MapOfLinearizable.DirtyNeverNilOnWrite` | pkg/generic_sync/generic_sync.go:149-166 | the locked paths never write to a nil dirty map |
| `MapOfLinearizable.LockedLoadOrStoreAlwaysOk` | pkg/generic_sync/generic_sync.go:216-232 | under the lock tryLoadOrStore never meets an expunged entry |
| `MapOfProgress.NobodyIsStuck` | pkg/generic_sync/generic_sync.go:103-412 | in every reachable state a thread in a call has a step, unless it waits for the lock and another thread in a call holds it; alone, every step brings it nearer to the end of the call |
| `MapOf.Map.Load` | pkg/generic_sync/generic_sync.go:103-139 | returns the plain map's value and changes nothing visible, promotion by misses included |
| `MapOf.Map.Store` | pkg/generic_sync/generic_sync.go:142-200 | the contents become the old contents with the key set |
| `MapOf.Map.LoadOrStore` | pkg/generic_sync/generic_sync.go:205-270 | returns the present value, or stores and returns the given one |
| `MapOf.Map.Delete` | pkg/generic_sync/generic_sync.go:273-300 | the contents become the old contents without the key |
| `MapOf.Map.Range` | pkg/generic_sync/generic_sync.go:312-343 | visits distinct keys with their values, all of them unless the callback stops it, and changes nothing visible |
| `MapOf.Map.ToMap` | pkg/generic_sync/generic_sync.go:363-370 | is the abstract contents |
| `MapOf.Map.Clear` | pkg/generic_sync/generic_sync.go:372-377 | leaves the empty map |
| `MapOf.Map.DirtyLocked` | pkg/generic_sync/generic_sync.go:389-412 | the new dirty map holds exactly the entries that are not expunged; deleted entries become expunged and no value changes |
| `MapOf.Map.FillDirty` | pkg/generic_sync/generic_sync.go:158-164 | before a new key goes in, dirty exists and the map is amended, with unchanged contents; amended holds exactly when dirty exists and an expunged key is never in it |
| `MapOf.Map.TryLoadOrStore` | pkg/generic_sync/generic_sync.go:245-270 | on a live entry: the present value, or the stored one |
| `MapOf.Map.Unexpunge` | pkg/generic_sync/generic_sync.go:191-193 | an expunged key of the read map comes back into dirty without visible effect |
| `MapOf.Map.MissLocked` | pkg/generic_sync/generic_sync.go:379-387 | counts a miss and promotes dirty when there were enough, without visible effect |
| `MapOf.Dispatch` | pkg/generic_sync/generic_sync.go:103-377 | one call of any kind, Range with a stopping callback included, replies and changes the contents as a plain map may |
| `MapOf.Replay` | pkg/generic_sync/generic_sync.go:103-377 | any sequence of calls on a new map gets replies that a plain map may give; only the order of Range is open |
| `Migration.Execute` | service/migrate.go:522-822 | at no moment of the run, under any failures including failing rollbacks and cleanups, is a unit's data without a complete copy; success means that every destination is a directory with the complete data, exactly that unless stale staging files could not be removed, and that every anchor is the destination or a link to it; if the deletions worked too, the backup, the replaced destination and the superseded source are gone; with ready units and no failure it does succeed; an error with working rollbacks leaves every anchor leading to its data, every source as it was and every pre-existing destination back, whatever else failed, and one failing operation is always rolled back so |
| `Migration.Migrate` | service/migrate.go:522-822 | the same for every filesystem, schedule and list of units with disjoint paths, from a fresh start: with an empty schedule and ready units it succeeds and leaves nothing behind |
| `Migration.LandedLeads` | service/migrate.go:779-798 | a landed unit's anchor leads to all its original data, and to exactly that unless stale staging files were in the way |
| `Migration.StaleOldIsInstalled` | service/migrate.go:663-684 | for every filesystem in which a ready unit has no destination but a stale `.old` sibling, a schedule with working rollbacks after which the failed run has that sibling as the destination |
| `Migration.StageUnit` | service/migrate.go:652-662 | a complete copy is staged, an exact one unless a leftover could not be removed, and no other path changes |
| `Migration.SafeKeepsACopy` | service/migrate.go:731-822 | in a safe state each unit's data is complete at source, backup or destination, and if the old data of one unit is gone every unit's anchor already leads to a complete copy |
| `Migration.CopyAll` | service/migrate.go:572-692 | copies and promotes unit by unit; a failure rolls all promoted units back |
| `Migration.CopyExternal` | service/migrate.go:651-690 | one unit to another disk: a complete copy in place and the old destination set aside, or everything as before; its source is never touched |
| `Migration.PromoteExternal` | service/migrate.go:663-690 | the staged copy takes the destination's place, or the destination is put back |
| `Migration.CopyRestore` | service/migrate.go:605-650 | one unit back to the system disk: the anchor becomes the copy, or leads to the source again |
| `Migration.PromoteRestore` | service/migrate.go:620-635 | the staged copy takes the anchor's place, or the anchor link is made again |
| `Migration.RollbackCopy` | service/migrate.go:532-562 | one round of the rollback restores its unit when its steps work and never touches the old data |
| `Migration.RollbackCopies` | service/migrate.go:531-563 | in reverse order, every promoted unit is restored when its steps work, and no step endangers the old data |
| `Migration.SwapAll` | service/migrate.go:765-798 | swaps the anchor of every copied unit for a link to its copy, or undoes all swaps and copies; without a failure none is left out |
| `Migration.SwapAnchor` | service/migrate.go:779-801 | one anchor becomes a link to the copy with the old anchor as backup, or is as before |
| `Migration.UndoSwap` | service/migrate.go:766-776 | one backed-up anchor is put back |
| `Migration.RollbackSwaps` | service/migrate.go:765-776 | puts every backed-up anchor back in reverse order |
| `Migration.DeleteAll` | service/migrate.go:800-822 | removes old data only while every unit's anchor leads to its complete copy; where the removals work, the backup, the replaced destination and the old source are gone |
| `Migration.DeleteOld` | service/migrate.go:804-822 | deletes one unit's old data while its anchor leads to the complete copy |
| `Migration.RemoveSources` | service/migrate.go:724-738 | after a restore, removes external sources while the restored data stays complete |
| `Migration.DerivedPathsApart` | service/migrate.go:620-690 | when the staging, old and backup siblings are told apart from the unit's own paths |
| `FileCopy.CopyDirContents` | pkg/utils/file/file.go:349-417 | whatever fails or is cancelled, each copied file is a prefix of its source file and nothing else changes; success without style "skip" is an exact copy; a failing `cp` alone does not fail the copy, and a cancelled context stops it before the next operation |
| `FileCopy.CopyFile` | pkg/utils/file/file.go:227-287 | one file is copied exactly, cut short on failure, or left alone by "skip"; the fallback makes up for a failing `cp`, and a cancelled context stops it before the next operation |
| `FileCopy.DirSizeB` | pkg/utils/file/file.go:607-652 | the sum of the lengths of all files below |
| `FileCopy.SizeCheckIsSound` | service/file.go:566-577 | equal sizes of a partial copy and its source mean that every non-empty file is complete |
| `FileCopy.SizeCheckIsExact` | service/file.go:566-577 | and conversely: the check passes exactly when every non-empty file is complete |
| `FileCopy.CheckedCopyKeeps` | pkg/utils/file/file.go:366-417 | for every style and schedule, a copy that reported success and passed the size check has the root, its entries, and every node with data at or below it |
| `FileCopy.CopyTree` | pkg/utils/file/file.go:349-417 | a copy to an empty place: exact unless the style is "skip", and with "skip" at least the root and its entries |
| `FileCopy.SkipCanDrop` | pkg/utils/file/file.go:366-417 | for every tree and every node below the root's entries without data at or below it, a schedule on which the copy with style "skip" reports success and passes the size check without the node |
| `FileMove.MoveItem` | service/file.go:538-584 | an error leaves everything outside the target alone; success keeps every node, with style "skip" every node that is the item, an entry of it, or has data at or below it, and leaves nothing at the source if its removal worked; with a free way and no failure, or none but the crossing of devices, it succeeds; a cancelled copy is cleared away |
| `FileMove.MoveCanLose` | service/file.go:538-584 | every other node is lost, at source and target, by some run with style "skip" that reports success |
| `FileMove.CopyAcross` | service/file.go:556-583 | the cross-device part of the move, with the same promises: the source is gone whenever its removal worked |
| `FileMove.ReplaceMove` | service/file.go:599-617 | after a failed replace by move either the disk is unchanged or the old destination is complete at the returned parked path; after success everything else is where the move put it; without a failure it succeeds and nothing is left at the source |
| `FileMove.ReplaceCopy` | service/file.go:599-617 | the same for a replace by copy, and success leaves an exact copy |
| `FileMove.RollBack` | service/file.go:604-614 | the rollback gives the whole disk back, or parks the old tree; it never parks when nothing fails |
| `FileBatch.GetNoDuplicateFileName` | pkg/utils/file/file.go:323-331 | the search ends, and returns the path itself or the free sibling with the smallest number |
| `FileBatch.MoveTo` | service/file.go:843-862 | a move to a free target lands there with every node that counts, or leaves the log true |
| `FileBatch.CopyTo` | service/file.go:926-940 | a copy to a free target changes nothing else but may make the folders above it, and is exact on success; a cancelled one is cleared away |
| `FileBatch.ReplaceItem` | service/file.go:774-808 | replace by move or copy: nothing has changed, or the old destination is complete at the parked path and all else untouched, or the new content is there and every other node is where the log says |
| `FileBatch.OperateItem` | service/file.go:754-943 | one item under every conflict style: where it lands, skipped items change nothing, replace never loses the old destination, a landed move keeps every node that counts, a landed copy is exact and touches nothing else, and the log stays true; an item that is there, with its folder there and no failure, is handled for every kind and style, and a moved one is gone from its place |
| `FileBatch.FileOperate` | service/file.go:743-948 | for every style, failures and cancellation: no item begins after the cancel, without a cancel all items are gone through, a run whose items were all handled is not called cancelled, each round does to the disk what its item demands, the recorded pairs are the landed moves in order, and every node not in a replaced destination is where the log of moves and parked destinations says; only destinations of items are ever parked or replaced, and only with a replacing style; where nothing fails and the items are not in each other's way, every item is handled and every moved one gone from its place |
| `FileBatch.RestStaysReady` | service/file.go:743-943 | what one item does leaves every later item ready, as long as the items are not in each other's way |
| `Tracking.TrackedMove` | service/file.go:861-862 | recording a landed move keeps the log true of every node, with style "skip" of every assured node |
| `Tracking.TrackedReplaceMove` | service/file.go:774-808 | recording a replaced destination and the move onto it keeps the log true |
| `Tracking.TrackedPark` | service/file.go:604-614 | recording a parked destination keeps the log true: its nodes are at the parked path |
| `Tracking.IntactAssured` | service/file.go:538-584 | with style "skip" every node with data at or below it is assured as long as nothing is moved out of its tree |
| `Tracking.MovesTell` | service/file.go:975-988 | for a path that no parked or replaced destination had in it, the recorded moves alone tell where it is |
| `Fingerprint.FileOperateFingerprint` | service/file.go:166-173 | computes the fingerprint |
| `Fingerprint.FingerprintIdentifiesBatch` | service/file.go:159-173 | for NUL-free strings and non-empty lists, fingerprints are equal exactly when type, destination and the multiset of sources are |
| `Fingerprint.FingerprintExact` | service/file.go:166-173 | the exact condition for all NUL-free requests, empty lists included |
| `Fingerprint.SortedUnique` | service/file.go:171-172 | a sorted permutation is unique, so the fingerprint does not depend on the order of the items |
| `Fingerprint.EmptyBatchCollides` | service/file.go:166-173 | an empty batch has the fingerprint of a batch with one empty source |
| `OpQueue.SharedQueue.EnqueueOp` | service/file.go:186-218 | admits a task with its own context exactly when no queued task has its fingerprint; it goes to the end of the queue and running and finished marks stay |
| `OpQueue.SharedQueue.DequeueOp` | service/file.go:269-291 | takes the task out with fingerprint, context and mark; the others keep their order |
| `OpQueue.SharedQueue.ReleaseQueueSlot` | service/file.go:247-260 | takes the task out but leaves its context; the others keep their order |
| `OpQueue.SharedQueue.ClearOps` | service/file.go:313-321 | empties the queue but leaves the contexts |
| `OpQueue.SharedQueue.CancelLocked` | service/file.go:398-411 | decides in one critical section whether the task executes, and releases it if not |
| `OpQueue.SharedQueue.CancelEvery` | service/file.go:440-444 | cancels every registered context |
| `OpQueue.EnqueuedConsistent` | service/file.go:186-218 | keeps fingerprintOf injective, its keys the queued ids and its values the active fingerprints |
| `OpQueue.ReleasedConsistent` | service/file.go:247-291 | the same for both ways of taking a task out |
| `OpRuns.RunInv` | service/file.go:137-448 | in every run the queue is consistent, every queued id has its request's fingerprint, every snapshot and stored task is truthful about completion, and the context of each live id is on file |
| `OpGuarantees.FinishedOnlyAfterTheLoop` | service/file.go:743-952 | a Finished flag, a finished mark or the retirement of a zero-size task only appears after a whole run of that task's worker on the submitted request: every item was begun, each once and in order, unless the run was labelled cancelled, and then its context had fired |
| `OpGuarantees.FinishedRunBeganEveryItem` | service/file.go:743-952 | between the begin of a run and the end of its loop every item is begun, each once and in order, if the task is not labelled cancelled; it is only so labelled if its own context had fired |
| `OpGuarantees.QueuedBatchesDiffer` | service/file.go:166-218 | no two queued tasks are the same batch |
| `OpGuarantees.BeginFindsItsContext` | service/file.go:333-344 | from EnqueueOp to the first DequeueOp, beginRun returns the one context made for the task, or refuses a second run, whatever cancels and clears interleave |
| `OpGuarantees.CancelFindsTheContext` | service/file.go:381-448 | in that span CancelOp always knows the task and fires that same context; so does CancelAllOps |
| `OpGuarantees.NoItemAfterCancel` | service/file.go:381-448 | a worker begun in that span starts no item after a CancelOp or CancelAllOps of that span has fired |
| `OpGuarantees.MarkedTaskIsRetired` | service/notify.go:258-277 | a marked task in both queues when a poller takes its list is out of the queue, or in the hands of a thread that takes it out in its next step, once the poller's pass has it behind, despite stale write-backs |
| `OpGuarantees.FinishedTaskIsRetired` | service/file.go:106-147 | once a worker is past its mark, the next pass of any poller leaves the task out of the queue or in the hands of a thread taking it out, in every interleaving: no finished task stays and blocks the queue |
| `OpGuarantees.RunSettled` | service/file.go:945-968 | in every run a queued task is in FileQueue or being taken out, and a task whose worker is through is marked, gone, or being taken out |
| `OpProgress.AdmittedTaskFinishes` | service/file.go:186-218 | in every reachable state: a batch that is admitted and whose worker is left alone is carried through all items and ends finished, not cancelled and marked |
| `OpProgress.WorkerFinishesAlone` | service/file.go:678-989 | a worker of a stored, unfinished, unmarked task whose context has not fired does the same from any state, and frees the running slot |
| `OpProgress.RunMadeFirst` | service/file.go:186-218 | in every run no context has fired before it was made and only submitted tasks run |
| `OpProgress.SubmitDecides` | service/file.go:186-218 | a batch is refused exactly if a queued task has its fingerprint, and else stored and queued last with a new context |
| `OpProgress.CancelAlone` | service/file.go:381-421 | CancelOp takes a queued task that does not run out of both queues and fires its context |
| `OpProgress.CancelAllAlone` | service/file.go:439-448 | CancelAllOps fires every registered context and empties both queues |
| `OpProgress.PollAlone` | service/notify.go:255-277 | a pass of the poller takes out exactly the queued tasks that are finished, marked or fully processed |
| `OpProgress.CheckerAlone` | service/file.go:1000-1033 | the progress checker writes the size it found into a live task and changes nothing else |
| `OpProgress.CheckerDropsStale` | service/file.go:1058-1070 | a snapshot of a task that has finished, been marked or gone is not written back |
| `UploadBatches.ApplyOk` | service/upload/batch_store.go:19-178 | every store call keeps the counts and the meaning of every status |
| `UploadBatches.MarkedMeans` | service/upload/batch_store.go:63-100 | a missing item becomes done and is counted; an open batch that misses nothing any more completes, one interrupted by anything but the signal becomes active again; nothing else changes |
| `UploadBatches.TrimmedMeans` | service/upload/batch_store.go:284-315 | exactly the listed missing items leave the manifest, and an open batch that misses nothing any more completes |
| `UploadBatches.TrimTwice` | service/upload/batch_store.go:284-315 | removing items in two transactions is removing them in one |
| `UploadBatches.MatchExact` | service/upload/batch_store.go:119-143 | prefix stripping finds an item exactly when its relative path is clean and its absolute path is the completed file's |
| `BatchStore.Store.CreateUploadBatch` | route/v2/upload_batches.go:36-69 | creates a batch exactly for an acceptable manifest with distinct paths and an unused id |
| `BatchStore.Store.MarkItemDone` | service/upload/batch_store.go:63-100 | for a missing item: it is done, counted once and dated; the batch completes if it was open and misses nothing any more, is active again without a source if it was interrupted by anything but the signal, and else keeps its status; in every other case, and in every other row, nothing changes |
| `BatchStore.Store.TouchProgress` | service/upload/batch_store.go:150-157 | progress is dated and revives a batch interrupted by anything but the signal |
| `BatchStore.Store.SetInterrupted` | service/upload/batch_store.go:167-174 | only an active batch is interrupted, with the given source and time |
| `BatchStore.Store.MarkItemDoneAcrossBatches` | service/upload/batch_store.go:119-143 | marks exactly the items of open batches that are clean and lie at the completed file's absolute path |
| `BatchStore.Store.RemoveItems` | service/upload/batch_store.go:284-315 | exactly the listed missing items go and the batch completes if it was open and misses nothing any more; chunks of 500 equal one removal |
| `BatchStore.Store.BrokenChildren` | service/upload/batch_store.go:196-235 | a child is badged exactly when one of the owner's interrupted batches misses a file at or below it, and the badge names such a batch |
| `BatchStore.Store.AbandonInterruptedUnder` | service/upload/batch_store.go:244-275 | abandons exactly the owner's interrupted batches with a hit, names them, and touches nothing else |
| `BatchStore.Store.DeleteTerminal` | service/upload/batch_store.go:324-343 | leaves exactly the open batches and counts the others |
| `BatchStore.Store.SweepBatches` | service/upload/batch_sweeper.go:114-161 | one undisturbed round, row by row: terminal rows go, active rows idle for too long are interrupted by timeout, interrupted ones are cleaned after the grace time or abandoned and deleted if their target is orphaned, all others stay as they are |
| `BatchStore.BadgeIsRecursive` | service/upload/batch_store.go:186-235 | dir/child is badged exactly when it is itself missing or one of its own children is badged |
| `BatchStore.AbandonTakesTheBadge` | service/upload/batch_store.go:237-275 | after abandoning at dir/child its badge is gone and no other owner's batch has changed |
| `BatchStore.AbandonClears` | service/upload/batch_store.go:237-275 | at any path but the root, nothing missing at or under it is left |
| `BatchStore.AbandonAtRoot` | service/upload/batch_store.go:250-264 | at the root it clears the badges exactly when every broken batch misses the root path itself |
| `BatchStore.RootBadgeStays` | service/upload/batch_store.go:250-264 | with an interrupted batch for "/" that misses one file, abandoning at "/" leaves the badge |
| `BatchRuns.CountsHold` | service/upload/batch_store.go:19-174 | in every run with any number of sweepers, done and total are the numbers of items, completed means all done, active or interrupted means something is missing |
| `BatchRuns.NeverComesBack` | service/upload/batch_store.go:83-98 | while its row exists a terminal batch stays terminal and a signal-interrupted batch is never active again |
| `BatchRuns.SignalIsFinal` | service/upload/batch_store.go:167-174 | a signal that meets an active batch interrupts it for good |
| `BatchRuns.ActionsAreTheRound` | service/upload/batch_sweeper.go:114-161 | each action of a sweeper in the transition system does to an unchanged row what the round of the store does |
| `BatchRuns.OneSweeperDeletesOnlyTerminal` | service/upload/batch_sweeper.go:114-161 | with one sweeper a deletion from an old list only takes a row that is terminal at that moment |
| `BatchRuns.OpenBatchesAreKept` | service/upload/batch_sweeper.go:114-161 | with one sweeper no step removes an active or interrupted batch |
| `BatchRuns.DeletesTerminalUnlessReused` | service/upload/batch_sweeper.go:114-161 | with any number of sweepers a deletion finds its row terminal or absent, unless a new batch was made under the id after the listing |
| `BatchRuns.TwoSweepersCanDeleteActive` | service/upload/batch_store.go:324-343 | a run of two sweepers with a reused id that deletes an active batch |
| `PathLock.Manager.Acquire` | service/pathlock/pathlock.go:28-39 | finds or makes the path's one entry and counts one more claim |
| `PathLock.Manager.Release` | service/pathlock/pathlock.go:41-49 | counts one claim less and drops the entry with the last |
| `PathLock.AcquireTally` | service/pathlock/pathlock.go:28-39 | the acquire step of the transition system changes the table as the manager's method does |
| `PathLock.ReleaseTally` | service/pathlock/pathlock.go:41-49 | the release step too |
| `PathLock.RunInv` | service/pathlock/pathlock.go:28-70 | in every run waiter counts are the numbers of claims and mutex states those of the holders |
| `PathLock.OneEntryPerPath` | service/pathlock/pathlock.go:28-39 | two claims share an entry exactly when their cleaned paths are equal |
| `PathLock.ListedWhileClaimed` | service/pathlock/pathlock.go:28-49 | a path is in the table exactly while somebody holds or waits, with their number as its positive count |
| `PathLock.WriterExcludes` | service/pathlock/pathlock.go:53-70 | a writer excludes every other holder of the path |
| `PathLock.MayEnterExactly` | service/pathlock/pathlock.go:53-70 | a waiting claim may enter exactly when nobody holds its path, or when it and all holders only read |
| `PathLock.MayLeave` | service/pathlock/pathlock.go:41-70 | a holder can always unlock, and is then always released |
| `PathLock.EmptyWhenIdle` | service/pathlock/pathlock.go:41-49 | the table is empty exactly when nobody holds or waits |
| `Shares.RewriteIsRebase` | service/shares.go:76-84 | the string rewriting is the rebasing of path names |
| `Shares.RewrittenName` | service/shares.go:96-120 | a share that follows a move is named by the last name of its new path |
| `Shares.SharesFollowMoves` | service/file.go:975-988 | after any sequence of moves onto free destinations the rewritten share leads to what stood at the old path, to the same whole tree if no move reached into it |
| `Shares.OperateAndRewrite` | service/file.go:743-988 | FileOperate with its share rewriting, for every style, failures and cancellation: every share that led to a node outside the replaced destinations leads to it afterwards |
| `Shares.ShareFollowsBatch` | service/file.go:975-988 | the rewriting through the recorded moves agrees with where the log says the node is |
| `Shares.NoConflicts` | service/file.go:761-840 | with any style but replace and overwrite no path is ever in a parked or replaced destination |
| `Shares.RewriteShares` | service/file.go:981-988 | the loop rewrites every row through all pairs in order |
| `Shares.TreeFollowsExactly` | service/shares.go:76-84 | after a move a share's tree is unchanged exactly when the move neither takes from it nor brings into it |
| `Shares.EscapedMatches` | service/shares.go:49-59 | an escaped path matches itself up to the case of ASCII letters and nothing else, whatever wildcards it contains |
| `Shares.PatternExact` | service/shares.go:49-59 | the pattern matches exactly the strict subtree, up to case |
| `Shares.PrefilterMissesNothing` | service/shares.go:96-106 | the query fetches every row that the rewrite would change |
| `Shares.Table.RewriteSharePathPrefix` | service/shares.go:96-120 | every row of the table is rewritten as its path demands, and the count is the number of changed rows |
| `Staging.StagingIDRoundTrip` | route/v2/tus_routing_store.go:25-42 | decoding undoes encoding for every root and sub-id |
| `Staging.PlainIDIsLegacy` | route/v2/tus_routing_store.go:29-36 | an id without the separator names no volume and so goes to the legacy directory |
| `Staging.ResolveStagingRoot` | route/v2/tus_staging_root.go:53-75 | the loop computes the longest covering mount, or falls back |
| `Staging.BestIsDeepestOver` | route/v2/tus_staging_root.go:57-69 | the mount chosen has the most path names of all mounts over the target |
| `Staging.RootIsDeepestVolume` | route/v2/tus_staging_root.go:53-75 | the root is a local volume deepest over the target; the fallback is /DATA and is taken only without a mount over the target or when a deepest one is not local |
| `Staging.LocalVolumes` | route/v2/tus_staging_root.go:18-42 | every filesystem type that contains "mergerfs" is local, as are the seven disk filesystems |
| `Staging.OthersAreNotLocal` | route/v2/tus_staging_root.go:18-42 | no other type too short to contain it is |
| `Staging.OrderMattersExactly` | route/v2/tus_staging_root.go:53-75 | every table with the same entries gives the same root exactly when the mounts deepest over the target agree on being local volumes |
| `Staging.OrderDoesNotMatter` | route/v2/tus_staging_root.go:53-75 | in particular with distinct mount points |
| `Staging.OverMountsDependOnOrder` | route/v2/tus_staging_root.go:66-69 | with two mounts on one point the first wins |
| `Staging.RoutingStore.StoreForRoot` | route/v2/tus_routing_store.go:111-124 | the cached or new store lies in the root's directory, the legacy root's in the legacy directory, and is cached from then on |
| `Staging.RoutingStore.NewUpload` | route/v2/tus_routing_store.go:131-149 | the upload is created in its volume's directory, and without a preset id its id names that volume |
| `Staging.RoutingStore.GetUpload` | route/v2/tus_routing_store.go:156-166 | looks where the id leads, whatever is mounted |
| `Staging.CreateThenFind` | route/v2/tus_routing_store.go:131-166 | an upload without a preset id is found in its creation directory after a restart under any mounts |
| `Staging.PresetRoutesBack` | route/v2/tus_routing_store.go:140-166 | an upload with a preset id is found again exactly when the id names the chosen volume |
| `Staging.PlainPresetMisroutes` | route/v2/tus_routing_store.go:140-166 | a plain preset id on another volume is looked up in the wrong directory |
| `Paths.PrefixMeansBelow` | service/upload/batch_store.go:130-136 | the string test for prefix plus slash is the test for lying strictly below, and never holds for the root |

## Left out

- `MapOf.Count`, `MapOf.Empty`, `MapOf.Values`, `MapOf.Has`: Count and Empty read only the dirty map and so are not the size; the others add nothing to Load and Range.
- `MapOf.Clear` and `ToMap` under concurrency: Clear is not atomic in the source; both are proved for one goroutine.
- Migration: symlink chains (a link leads to a directory in one step), nested or overlapping paths of different units, the SIGTERM cleanup, services and container configuration, progress, free-space checks, and rsync's excludes; rsync completes or breaks off with a part copied.
- Migration.Execute: the guarantee on errors is for units whose source exists; with a missing source the code skips the copy but still swaps the anchor, and an earlier `.bak` may be removed.
- Migration.Execute: where a leftover staging directory could not be removed, the copy is complete but not claimed to be free of stale files; the source promises no more.
- File operations: symlinks, hard links, sparse files, mount crossings, stat failures, and races with processes outside the model, hence the retry loop of resolveRenameTarget; missing folders above a copied folder are made before the copy instead of between cp and its fallback.
- Operation queue: per-item progress fields (the walk's result is arbitrary), "at most one worker at a time" and "every task is eventually dispatched", which the code does not decide for all interleavings.
- OpQueue.SharedQueue.EnqueueOp: for an id that is not queued yet; the handler makes a new UUID for every request.
- PathLock.Manager.Release: for the entry that acquire returned for the path, as every unlock function passes it; PathLock.RunInv shows that it is then still the one in the table.
- BatchStore.Store.MarkItemDoneAcrossBatches and BatchStore.Store.BrokenChildren: for absolute paths, which the handlers require.
- Upload tasks of the sweeper (cancelUnfinished, staging files), and failing database transactions, which change nothing.
- Path locks: fairness of the read-write mutex (pending writers may hold readers back), and deadlock between callers that take several locks.
- DeleteShareByPath: SQLite's LIKE ignores the case of ASCII letters, so it may delete more than the subtree; no exactness is claimed.
- Tus: the upload data itself, tusd's own id generator (its ids contain no separator), and non-absolute mount points in the order and depth laws.
- HTTP handlers, authentication, message bus, websockets, cloud drivers, hardware probing, archives and thumbnails: plumbing, or only easy members.
