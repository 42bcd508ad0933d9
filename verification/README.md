# A model of Velero's backup engine

Velero backs up Kubernetes clusters. This project models the parts of it in which several steps have to fit together,
and proves what they keep. `dafny verify dfyconfig.toml` checks everything.

**The admission queue** (`BackupPhases`, `BackupTracking`, `BackupQueue`, `QueueReconciler`, `QueueMachine`,
`QueueRuns`, `QueuePass`, `QueueRefinement`). New backups get a queue position; queued ones are dequeued when a slot is
free, nothing ahead of them shares a namespace with them, and nobody ahead could run instead; the rest are renumbered
with one patch each. `QueueReconciler` is the reconcile as written: lister, in-place sort, checks, patches that may
fail. `QueueMachine` cuts the same reconcile at every call and interleaves it with any number of backup workers;
`QueueRuns` proves the safety and ordering properties of whole runs, and `QueueRefinement` that the reconcile is a run
of the machine. `QueuePass` proves that one pass over the queue starts exactly the backups it should.

**Item blocks** (`ItemCollector`, `ItemBlocks`, `ItemBlockBuilder`, `OrderedResources`). Collected records are grouped into blocks by
following the related items that plugins report. The search is proved to terminate on every graph and to place exactly
what white paths lead to; the pass over the collected list is proved to be a partition.

**Item backup** (`ItemTrace`, `ItemBackupper`). Backing up an item runs its actions, which back up more items. Every
call to a plugin, to the cluster or to the archive is kept with its answer; the mutual recursion is proved to terminate
for every answer, to run every action of an item, to look up exactly what actions ask for, to settle everything that is
found, to record exactly the operations that were started, to write exactly the files an item has to have, and to fail if and
only if a call fails that matters.

**The DataDownload protocol** (`DataDownloadProtocol`). Every node agent reconciles one stored object under optimistic
concurrency. The state machine holds the object with its version and any number of updates in flight.

**Outcome** (`Operations`, `BackupOutcome`, `OutcomeControllers`). The poll loop over asynchronous operations, then the
state machine from the initial run to the finalizer, and the two controllers whose reconciles are its steps.

**Restore hooks** (`HookTracking`, `HookRuns`, `WaitExecHooks`), **maintenance history** (`MaintenanceHistory`),
**archive** (`ArchivePaths`, `ArchiveParser`, `ArchiveRoundTrip`, `FinalTarball`), **namespace selection** (`NamespaceMerge`,
`NamespaceFilters`).

Code that works step by step on fields, arrays or maps is modelled as classes and methods with loops; each such method
is proved against a specification on values, and the lemmas are about that specification.

## Where the code does not do what one would expect

Each of these is proved exactly, with an example that shows it.

- A completed backup can hide a failed operation. `BackupOutcome.CompletedHidesFailureExactlyIfForgotten` says when:
  if and only if a status patch failed after the upload that cleared the reported errors, or a download request uploaded
  the operations while errors were still waiting to be reported. The second way needs no failing status patch
  (pkg/itemoperationmap/backup_operation_map.go:99-114).
- The concurrency bound is one on the tracker. A backup that the API shows as running holds no slot if and only if the
  status patch that ended its run has failed (`QueueRuns.CountedUnlessEndPatchFailed`).
- Ordering resources by a list of names loses items if and only if two items share a listed name
  (`ItemCollector.SortingPermutesExactlyWhenNamesAreUnique`, with `ItemCollector.ListedTwice`). Such items come from
  overlapping label selectors: each of them lists the resource, and the lists are joined as they are
  (pkg/backup/item_collector.go:665-671). What is lost is one of two listings of the same resource.
- Merged include and exclude lists without `*` have an entry in common if and only if the sentinel `[-]*` is itself
  excluded and everything included is (`NamespaceMerge.MergeNamespacesByLabel`). The selection is right all the same.
- Parsing an archive returns the unversioned items if and only if no cluster-scoped item is stored under an API version
  called `namespaces` in a way that reads as an item of namespace `cluster`
  (`ArchiveRoundTrip.ParsingListsTheItems`).
- Rewriting an archive updates its files if and only if no stale later copy of an updated file is left in it
  (`FinalTarball.RewritingUpdatesTheFiles`, with `FinalTarball.StaleCopySurvives`). An item is written once, but an
  archive gets two copies of one path when actions give two items of one resource the same name
  (pkg/backup/item_backupper.go:297-299): `ItemBackupper.RenamedItemsShareAPath` is such a backup, and without renaming
  there is none (`ItemTrace.UnrenamedFilesAreDistinct`).
- The comment at internal/hook/wait_exec_hook_handler.go:98-101 says that an expired hook is skipped. The code records it
  as failed and keeps its command from being run if and only if the hook's error mode is Fail
  (`HookRuns.CommandsRunExactly`, with `HookRuns.ExpiredHookIsRun`).

## Model

| member | source | states |
|---|---|---|
| QueueRuns.ConcurrencyBound | pkg/controller/backup_queue_controller.go:274-305 | In every run of queue controller and workers, RunningCount never exceeds the limit and the tracker sets stay disjoint |
| QueueRuns.NamespaceExclusion | pkg/controller/backup_queue_controller.go:148-177 | In every reachable state the namespaces of all ReadyToStart and InProgress backups are pairwise disjoint |
| QueueRuns.CountedUnlessEndPatchFailed | pkg/controller/backup_controller.go:328-394 | A running backup is counted by the tracker if and only if no status patch ending its run has failed |
| QueueRuns.RunningIsCountedWhenPatchesSucceed | pkg/controller/backup_controller.go:298-338 | If the patches ending runs succeed, whatever the API shows as running is counted, also in the middle of a reconcile |
| QueueRuns.FailedEndPatchLeavesBackupUncounted | pkg/controller/backup_controller.go:390-393 | A concrete run after which a backup shown as running holds no slot |
| QueueRuns.StrandedMeansFailedEnd | pkg/controller/backup_controller.go:390-393 | A backup is stranded exactly if a patch ending its run failed earlier in the run |
| QueueRuns.PositionsStayDistinct | pkg/controller/backup_queue_controller.go:306-319 | After every step, renumberings that stopped half way included, queued backups have distinct positions of at least 1 and all others 0 |
| QueueRuns.CompleteRenumberingCountsFromOne | pkg/controller/backup_queue_controller.go:306-319 | A renumbering that gets to its end leaves everybody still queued with its rank, counted from 1 |
| QueueRuns.ConflictFifo | pkg/controller/backup_queue_controller.go:161-198 | While the earlier of two conflicting queued backups is still queued, the later one is still behind it or deleted |
| QueueRuns.LaterConflictingBackupWaits | pkg/controller/backup_queue_controller.go:278-302 | The later of two conflicting backups is never running while the earlier one is queued |
| QueueRuns.OrderIsStable | pkg/controller/backup_queue_controller.go:359-368 | The relative order of two queued backups never changes over a run |
| QueueMachine.StepKeepsInv | pkg/controller/backup_queue_controller.go:239-327 | Every step of controller, tracker, worker or user keeps the invariant the run properties rest on |
| QueueMachine.DequeuedSharesNothing | pkg/controller/backup_queue_controller.go:278-302 | At the dequeue patch the backup shares no namespace with a running one nor with one queued before it, whatever happened since the list was read |
| QueueMachine.OnlyDequeueStarts | pkg/controller/backup_queue_controller.go:295-302 | No step but the dequeue patch makes a backup running |
| QueueMachine.BoundKeptByStep | pkg/controller/backup_queue_controller.go:274-277 | A slot found free is still free when it is claimed, so the bound is kept |
| QueuePass.PassStartsTheFirstRunnable | pkg/controller/backup_queue_controller.go:265-320 | Work conservation: one pass in position order starts exactly the first min(free slots, runnable) runnable backups and leaves the rest queued |
| QueuePass.PassPrefix | pkg/controller/backup_queue_controller.go:265-320 | After every prefix of the pass, the started backups are the first runnable ones that fit |
| BackupQueue.DequeueKeepsRunnability | pkg/controller/backup_queue_controller.go:183-198 | Dequeuing an admissible backup never changes whether another queued backup is runnable |
| BackupQueue.WhatBlocks | pkg/controller/backup_queue_controller.go:161-177 | A queued backup is blocked exactly by those that share a namespace with it and run, or wait at a lower position |
| BackupQueue.RenumberingKeepsTheQueue | pkg/controller/backup_queue_controller.go:306-319 | However many renumbering patches succeed, positions stay distinct and the order is kept; all of them give 1..n |
| BackupQueue.RenumberedAt | pkg/controller/backup_queue_controller.go:306-319 | After k patches the first k hold 1..k and nothing else has changed |
| BackupQueue.SortedPositionsLeaveRoom | pkg/controller/backup_queue_controller.go:306-319 | In a sorted queue the i-th position is at least i + 1, so renumbering only moves forward |
| QueueReconciler.BackupQueueReconciler.Reconcile | pkg/controller/backup_queue_controller.go:239-327 | Given which lists and patches succeed: a New backup is enqueued exactly if its patch succeeds; a queued one that is admissible, with a slot free, is dequeued exactly if its patch succeeds, the rest renumbered by as many patches as succeed before the first that fails, and the tracker is undone if it fails; nothing else changes |
| QueueReconciler.BackupQueueReconciler.EnqueueBackup | pkg/controller/backup_queue_controller.go:249-264 | Enqueued behind the highest position in use if and only if the list call and the patch succeed, else nothing changed |
| QueueReconciler.BackupQueueReconciler.DequeueBackup | pkg/controller/backup_queue_controller.go:265-320 | The queued branch meets the same specification as the whole reconcile, for the same outcomes of its calls |
| QueueReconciler.BackupQueueReconciler.RenumberRemaining | pkg/controller/backup_queue_controller.go:306-319 | One patch for each backup left in the queue, in order, stopping exactly after the first that fails |
| QueueReconciler.EnqueuedGoesLast | pkg/controller/backup_queue_controller.go:256-262 | An enqueued backup is behind everybody who waits, one behind the last of them or at 1; it keeps its namespaces, and nobody else changes |
| QueueReconciler.DequeuedLeavesTheQueue | pkg/controller/backup_queue_controller.go:295-319 | A dequeued backup is ReadyToStart at position 0; the first k of the others hold 1..k, and nothing but positions of queued backups changes |
| QueueReconciler.BackupQueueReconciler.GetMaxQueuePosition | pkg/controller/backup_queue_controller.go:209-216 | The highest position held by a queued backup, 0 for an empty queue |
| QueueReconciler.DetectNSConflicts | pkg/controller/backup_queue_controller.go:161-177 | Finds a conflict if and only if some backup ahead or running shares a namespace |
| QueueReconciler.CheckForEarlierRunnable | pkg/controller/backup_queue_controller.go:183-198 | Finds a backup if and only if one queued ahead has no conflict |
| QueueReconciler.ChecksMeanAdmissible | pkg/controller/backup_queue_controller.go:278-293 | Both checks on the listed backups pass exactly if the backup is admissible in the API's terms |
| QueueReconciler.SortByPosition | pkg/controller/backup_queue_controller.go:76-88 | The sort by position gives a sorted permutation |
| QueueReconciler.QueuedBackupsLister.constructor | pkg/controller/backup_queue_controller.go:335-346 | The lister keeps exactly the Queued, ReadyToStart and InProgress backups |
| QueueReconciler.QueuedBackupsLister.EarlierThan | pkg/controller/backup_queue_controller.go:348-357 | Returns exactly the listed backups with a smaller position |
| QueueReconciler.QueuedBackupsLister.OrderedQueued | pkg/controller/backup_queue_controller.go:359-368 | Returns the queued backups, each once, by position |
| QueueRefinement.PassFromReachableState | pkg/controller/backup_queue_controller.go:218-236 | From every idle state that satisfies the machine's invariant, a pass over the queue is a run of the machine's controller steps and starts exactly the first runnable backups that fit |
| QueueRefinement.PassIsControllerRun | pkg/controller/backup_queue_controller.go:265-320 | Every prefix of a pass is a run of the machine's controller steps |
| QueueRefinement.DispatchIsReconcile | pkg/controller/backup_queue_controller.go:265-320 | A reconcile whose calls all succeed is a dispatch of the pass, and every dispatch is one, so the pass properties bind the reconcile as written |
| QueueRefinement.ReconcileIsControllerRun | pkg/controller/backup_queue_controller.go:239-327 | Every uninterrupted reconcile, whatever calls fail, is a run of the machine's controller steps |
| BackupTracking.BackupTracker.AddReadyToStart | pkg/controller/backup_tracker.go:58-63 | The ReadyToStart set gains the backup, the other sets stay |
| BackupTracking.BackupTracker.Add | pkg/controller/backup_tracker.go:65-72 | A backup moves from ReadyToStart to in progress; a post-processing entry is left alone |
| BackupTracking.BackupTracker.AddPostProcessing | pkg/controller/backup_tracker.go:74-82 | A backup is in post-processing and in neither other set |
| BackupTracking.BackupTracker.Delete | pkg/controller/backup_tracker.go:84-92 | A backup is in none of the sets |
| BackupTracking.AddReadyToStartClaimsOneSlot | pkg/controller/backup_tracker.go:58-63 | Recording a backup not yet counted raises the count by one |
| BackupTracking.MovingOnKeepsOrFreesTheSlot | pkg/controller/backup_tracker.go:65-92 | Moving on keeps a slot, finishing frees it, and neither ever raises the count of a counted backup |
| BackupTracking.SetsStayDisjoint | pkg/controller/backup_tracker.go:58-92 | The three sets stay disjoint as long as ReadyToStart is recorded only for backups not tracked yet |
| ItemBlockBuilder.KubernetesBackupper.ExecuteItemBlockActions | pkg/backup/backup.go:761-855 | Terminates on every graph, places exactly what white paths from the related items lead to, extends the block by exactly their entries, and leaves no related item of a placed one behind |
| ItemBlockBuilder.KubernetesBackupper.VisitRelated | pkg/backup/backup.go:786-853 | One related item is placed with everything white that it leads to, and nothing else |
| ItemBlockBuilder.KubernetesBackupper.PlaceFromCluster | pkg/backup/backup.go:806-851 | A related item that was not collected is fetched once, and added exactly if it can be had and is included |
| ItemBlockBuilder.KubernetesBackupper.PlaceCollected | pkg/backup/backup.go:789-800 | All versions of a collected identifier are placed, or none if it was placed before; the first added one leads on |
| ItemBlockBuilder.KubernetesBackupper.AddKubernetesResource | pkg/backup/itemblock.go:44-79 | The record is flagged whatever happens, and added exactly if it is readable and included and was not flagged |
| ItemBlockBuilder.KubernetesBackupper.BuildBlocks | pkg/backup/backup.go:641-693 | The pass places exactly what the collected records lead to; no block is empty; each block holds what one run of ordered resources adds to what came before; ordered resources of one run share a block unless an earlier record leads to them; nothing is left unsubmitted |
| ItemBlockBuilder.KubernetesBackupper.constructor | pkg/backup/backup.go:578-594 | Groups the records by identifier, in list order, with nothing flagged |
| ItemBlockBuilder.KubernetesBackupper.Submit | pkg/backup/backup.go:682-692 | Hands over the block as it is and starts a new one |
| ItemBlockBuilder.BlocksPartitionTheRecords | pkg/backup/backup.go:641-693 | After the pass every record that can be added is at one place in one block, and no entry occurs twice |
| ItemBlockBuilder.AnchoredRunsShare | pkg/backup/backup.go:678-683 | Ordered resources of one run that no record before the run leads to are in the same block |
| ItemBlockBuilder.ExploredMeansReachable | pkg/backup/backup.go:761-855 | A search that only takes what is reachable and leaves nothing behind has taken exactly what is reachable |
| ItemBlocks.FollowedToTheEnd | pkg/backup/backup.go:786-853 | If nothing was left behind, every white path from the roots has been followed to its end |
| ItemBlocks.WhatIsAdmitted | pkg/backup/backup.go:789-851 | An identifier adds to a block exactly if a record of it is readable and included, or if it has no record and the cluster has it and it is included |
| ItemBlocks.FirstAddableLeads | pkg/backup/backup.go:789-800 | The search goes on from the first record of an identifier that is readable and included |
| ItemBlockBuilder.WhatARunIs | pkg/backup/backup.go:678-683 | A run is a stretch of the list in which every record is ordered and of the type of the first |
| ItemBlockBuilder.EntriesNeverRepeat | pkg/backup/itemblock.go:44-79 | Identifiers placed once bring every entry once |
| ItemCollector.SortResourcesByOrder | pkg/backup/item_collector.go:288-335 | Listed names come first, in list order and each once, represented by the last item of that name; the flag is set on exactly those; the rest keep their order |
| ItemCollector.SortingPermutesExactlyWhenNamesAreUnique | pkg/backup/item_collector.go:288-335 | The result is a permutation of the items if and only if no two items share a listed name |
| ItemCollector.ListedTwice | pkg/backup/item_collector.go:288-335 | Two listings of one resource called x, ordered by the list x: only the second stays, so the result is no permutation |
| ItemCollector.WhatFullNamesTell | pkg/backup/item_collector.go:299-304 | Two resources share a full name exactly if namespace and name agree; without a namespace it is the name |
| OrderedResources.OrderedItemsFormOneRun | pkg/backup/item_collector.go:288-335 | The ordered resources of a sorted list are consecutive records and form one run, which ends with the last of them |
| OrderedResources.OrderedItemsShareABlock | pkg/backup/backup.go:678-683 | After a pass the ordered resources of one type share a block, unless earlier records lead to them |
| ItemBackupper.ItemBackupper.BackupItem | pkg/backup/item_backupper.go:92-110 | Terminates for every answer. The backed-up set grows by the item if it is wanted, and by what was found and is wanted; the archive grows, by nothing of what was backed up before; operations grow by exactly those that actions started. A failed call means failure and failure a failed call, but for volume errors of items that an action has skipped. Without failure: exactly what actions asked for was looked up; what was found is in the backup, excluded, being deleted or skipped by an action; everything new has its files written (or, in the final phase, returned, unless an action skipped an item). A wanted new item either is skipped by an action and has no file, or all its actions were run and it has exactly its versioned file and, ahead of it and only for the preferred version, its plain file, both under the name its actions gave it. A second visit, or one of an unwanted item, changes nothing |
| ItemBackupper.ItemBackupper.BackupItemInternal | pkg/backup/item_backupper.go:190-369 | The same before the item's own files are written |
| ItemBackupper.ItemBackupper.ExecuteActions | pkg/backup/item_backupper.go:402-586 | The actions of an item are run in order, all of them or up to the first that fails or skips it; the name returned is the last one given; in between the account of requests, look-ups, objects and operations is kept |
| ItemBackupper.ItemBackupper.ExecuteAction | pkg/backup/item_backupper.go:410-583 | One action, its operation recorded outside the final phase and refused in it, and its additional items fetched |
| ItemBackupper.ItemBackupper.Act | pkg/backup/item_backupper.go:446-532 | An action that starts an operation adds exactly one entry for its item, but for the final phase |
| ItemBackupper.ItemBackupper.BackupAdditionalItems | pkg/backup/item_backupper.go:534-583 | Pays every request of the action with one look-up, stopping at the first failure |
| ItemBackupper.ItemBackupper.BackupVersions | pkg/backup/item_backupper.go:576-582 | Settles every object found, stopping at the first failure |
| ItemBackupper.ItemBackupper.SkipItem | pkg/backup/item_backupper.go:284-290 | A skipped item is taken out of both maps, and has no files |
| ItemBackupper.ItemBackupper.FinishItem | pkg/backup/item_backupper.go:292-368 | After the actions, and unless volumes or encoding failed, the item has exactly its versioned file and, only for the preferred version, its plain file under its final name |
| ItemBackupper.ItemBackupper.WriteFiles | pkg/backup/item_backupper.go:98-107 | Files are appended in order up to the first failing write |
| ItemBackupper.RenamedItemsShareAPath | pkg/backup/item_backupper.go:297-299 | A backup of two items of one resource that ends with two files of one path |
| ItemTrace.UnrenamedFilesAreDistinct | pkg/backup/item_backupper.go:352-367 | If no item was renamed, different files of an archive have different paths |
| ItemTrace.AddOwnFiles | pkg/backup/item_backupper.go:352-367 | The item's own files join those of its additional items without repetition |
| ItemTrace.OwnFilesOnly | pkg/backup/item_backupper.go:352-367 | The versioned file is there, the plain one ahead of it exactly for the preferred version, and no other file of the item |
| ItemTrace.AskedIsLookedUp | pkg/backup/item_backupper.go:478-565 | When nothing is owed, an item was looked up if and only if some answer listed it, and it had to be included exactly if that answer said so or in the final phase |
| ItemTrace.WhatIsFound | pkg/backup/item_backupper.go:534-574 | What a look-up finds: all versions in the block, or the one from the cluster |
| ItemTrace.WhatOperationsAre | pkg/backup/item_backupper.go:504-532 | An operation is kept for an item exactly if an answer for it started one |
| ItemTrace.Settle | pkg/backup/item_backupper.go:278-290 | Errors with the volumes of an item are dropped if and only if an action skips it |
| ItemTrace.KeyStaysOut | pkg/backup/item_backupper.go:216-221 | While an item's own actions run, nothing of it is written |
| ItemTrace.CompleteFurther | pkg/backup/item_backupper.go:534-583 | Two stretches of a backup that leave nothing behind leave nothing behind together |
| ItemTrace.AdvancedFurther | pkg/backup/item_backupper.go:402-586 | Growth of backup, archive and operations adds up over two stretches |
| ItemTrace.RunningAction | pkg/backup/item_backupper.go:410-532 | What an action's answer obliges the backup to do next |
| ItemTrace.RunningLookUp | pkg/backup/item_backupper.go:534-574 | A look-up pays one request and makes the objects found due |
| ItemTrace.RunningObject | pkg/backup/item_backupper.go:576-582 | An object that was backed up or rightly left out is settled for good |
| DataDownloadProtocol.FinalPhaseIsAbsorbing | pkg/controller/data_download_controller.go:207-250 | Under any interleaving of nodes, callbacks, timeouts and cancels, a final phase never changes again |
| DataDownloadProtocol.FinalizerHeldUntilFinal | pkg/controller/data_download_controller.go:207-229 | An object that carries the finalizer keeps it, and stays there, until it has been final |
| DataDownloadProtocol.AcceptedAtMostOnce | pkg/controller/data_download_controller.go:796-829 | At most one node ever succeeds in accepting the object, and the object names it |
| DataDownloadProtocol.LabelOnlyWhileExposing | pkg/controller/data_download_controller.go:372-385 | The expose-ongoing label is there only while Accepted or Prepared, and always while Accepted |
| DataDownloadProtocol.ExclusiveUpdatesNeverClobber | pkg/controller/data_download_controller.go:868-883 | An exclusive update that changes the object was decided on exactly the object it replaces |
| DataDownloadProtocol.StepKeepsInv | pkg/controller/data_download_controller.go:1020-1041 | Every read, decision, retry and commit keeps object and pending updates consistent |
| DataDownloadProtocol.StepMovesObject | pkg/controller/data_download_controller.go:576-609 | One step never leaves a final phase, drops a finalizer early, clears the start time or goes back to New |
| DataDownloadProtocol.DecisionsFitTheObject | pkg/controller/data_download_controller.go:252-445 | Each update is only decided on objects in the phases it is meant for |
| DataDownloadProtocol.DataDownloadReconciler.Reconcile | pkg/controller/data_download_controller.go:142-445 | Makes an update if and only if it is due, update by update: accept a New object exactly if it is neither cancelled nor being deleted, not constrained and its volume claim is there; mark InProgress exactly if Prepared on this node, not cancelled, no data path running, exposed, not limited and ready; and so on for failing, cancelling, timeouts and the finalizer. Remembers a pending cancel from the first reconcile that sees it until the object is final |
| DataDownloadProtocol.DecidesWhatIsDue | pkg/controller/data_download_controller.go:166-445 | The decision of the protocol is exactly the update that is due |
| DataDownloadProtocol.UpdatedFields | pkg/controller/data_download_controller.go:372-385 | Field by field: which updates change it and to what, and which write nothing |
| DataDownloadProtocol.PhaseChangesAreDue | pkg/controller/data_download_controller.go:142-445 | In every run the phase changes only by an update that leads to the new phase, applied to the very object that was read; apart from pod events and callbacks, the update was due when some reconcile decided on it |
| DataDownloadProtocol.InProgressOnlyWhenReady | pkg/controller/data_download_controller.go:318-385 | Whenever an object is in progress, a reconcile had found it prepared for its own node, exposed and ready, neither cancelled nor limited |
| DataDownloadProtocol.NewDownloadCanComplete | pkg/controller/data_download_controller.go:142-520 | From every new object that is neither cancelled nor being deleted, a run of reconciles of one node ends Completed without finalizer |
| Operations.GetOperationProgress | pkg/controller/backup_operations_controller.go:289-386 | In place: every operation is polled once. Of those that ran, exactly the ones reported complete without an error are Completed; exactly those without plugin or progress, complete with an error, or late are Failed, each with its own message; a New one becomes InProgress exactly if it still runs and has started. The flag says exactly whether one still runs, the change flag exactly whether the list changed, the counts and errors are those of the list |
| Operations.PolledHasOutcome | pkg/controller/backup_operations_controller.go:348-379 | Which answer leads to which phase and message, phase by phase |
| Operations.PollConserves | pkg/controller/backup_operations_controller.go:289-386 | Completed, failed and running add up to the list; each failure of this poll brings exactly one message |
| Operations.TerminalStays | pkg/controller/backup_operations_controller.go:379-383 | Terminal operations are not touched |
| Operations.NothingOutlivesItsDeadline | pkg/controller/backup_operations_controller.go:362-371 | A poll after every deadline leaves nothing running |
| Operations.NoErrorsMeansNoNewFailure | pkg/controller/backup_operations_controller.go:301-371 | No message if and only if no operation failed in this poll |
| Operations.CountsCoverTheList | pkg/controller/backup_operations_controller.go:289-386 | The four phases cover the list, and something runs exactly if New or InProgress is counted |
| BackupOutcome.CompletedMeansSuccess | pkg/controller/backup_controller.go:950-996 | A completed backup logged no error in its initial run, and an operation failed only if that was forgotten |
| BackupOutcome.CompletedHidesFailureExactlyIfForgotten | pkg/itemoperationmap/backup_operation_map.go:80-114 | The operations of a completed backup hold a failure if and only if errors were forgotten in one of two ways on the run |
| BackupOutcome.ForgottenMeansForgetting | pkg/controller/backup_operations_controller.go:221-285 | Errors are forgotten exactly by a failed patch after the upload or by a download request's upload |
| BackupOutcome.PartialFailureSticks | pkg/controller/backup_operations_controller.go:183-213 | Once a partially failed variant is entered, the end is PartiallyFailed |
| BackupOutcome.TerminalOnlyAfterUploads | pkg/controller/backup_finalizer_controller.go:243-293 | The finalizer shows an end phase only after the metadata saying so and, with operations, the final contents were uploaded; any failure before leaves the phase as it was |
| BackupOutcome.CompletedIsUploaded | pkg/controller/backup_finalizer_controller.go:104-307 | A completed backup has metadata saying so and final contents |
| BackupOutcome.StepKeepsInv | pkg/controller/backup_operations_controller.go:109-219 | Every initial run, poll, download request and finalizer run keeps the account of errors |
| BackupOutcome.FinalizingMeansNothingRuns | pkg/controller/backup_operations_controller.go:205-213 | In every run, once a backup is finalizing or completed none of its stored operations is running |
| BackupOutcome.PollDecides | pkg/controller/backup_operations_controller.go:197-213 | A poll whose uploads and patch succeed leaves the waiting phases if and only if nothing runs any more, into the partially failed variant if and only if it was there or errors are unreported; with a failing call the phase stays |
| BackupOutcome.InitialRunDecides | pkg/controller/backup_controller.go:975-996 | After the initial run: Failed exactly on a fatal error, else waiting exactly if an operation runs, partially failed exactly if an error was logged |
| BackupOutcome.InitialRunFails | pkg/controller/backup_controller.go:1013-1026 | A failed upload makes the backup Failed; a failed status patch leaves it InProgress |
| BackupOutcome.CompletedOnlyWhenTold | pkg/controller/backup_operations_controller.go:348-361 | In every run, an operation stored or remembered as Completed was reported complete without an error by a poll of the run |
| BackupOutcome.FailedPatchHidesFailure | pkg/controller/backup_operations_controller.go:265-275 | A run with one failed status patch that ends Completed with a failed operation |
| BackupOutcome.DownloadRequestHidesFailure | pkg/itemoperationmap/backup_operation_map.go:99-114 | A run in which every status patch succeeds that ends Completed with a failed operation |
| OutcomeControllers.Controllers.ReconcileOperations | pkg/controller/backup_operations_controller.go:109-219 | The reconcile as written, failing calls included, is the machine's polling step; with all calls successful the backup leaves the waiting phases if and only if nothing runs any more, and turns partially failed if and only if it was or errors are unreported |
| OutcomeControllers.Controllers.PickPhase | pkg/controller/backup_operations_controller.go:197-213 | Finalizing exactly if nothing runs any more, else waiting; a partially failed variant exactly if it was one or errors are pending |
| OutcomeControllers.Controllers.UpdateBackupAndOperationsJSON | pkg/controller/backup_operations_controller.go:221-285 | Uploads and patch in this order, with what is left in memory after each failure |
| OutcomeControllers.Controllers.ReconcileFinalizing | pkg/controller/backup_finalizer_controller.go:104-307 | The reconcile as written, with its deferred patch, is the machine's finalizing step; an end phase, Completed or PartiallyFailed as the phase was, exactly if every call it needs succeeds |
| HookTracking.HookTracker.Add | internal/hook/hook_tracker.go:89-110 | Registering a hook twice changes nothing; the counters stay equal to what they count |
| HookTracking.HookTracker.Record | internal/hook/hook_tracker.go:115-145 | The first result of a registered hook counts, later ones change nothing, an unregistered hook is an error |
| HookTracking.HookTracker.Stat | internal/hook/hook_tracker.go:148-153 | Returns the number of registered and of failed hooks |
| HookTracking.HookTracker.IsComplete | internal/hook/hook_tracker.go:156-161 | True exactly if every registered hook was executed |
| HookTracking.AllCounted | internal/hook/hook_tracker.go:156-161 | Equal counters mean that every hook is executed, and the other way round |
| HookTracking.FirstRecordCounts | internal/hook/hook_tracker.go:115-145 | The first result adds one to the executed, and to the failed exactly for a failure |
| WaitExecHooks.WaitExecHookHandler.HandleHooks | internal/hook/wait_exec_hook_handler.go:73-266 | The handler's run is one of the state machine over the pod's events: commands, errors and tracker are exactly those of the hooks attempted, and the hooks never attempted are recorded as failures. A command is run at most once, and that of an attempted hook always but for one expired in error mode Fail |
| WaitExecHooks.WaitExecHookHandler.HandlePod | internal/hook/wait_exec_hook_handler.go:133-212 | One event: the containers that are up are served in some order until one of their hooks ends everything |
| WaitExecHooks.WaitExecHookHandler.RunContainer | internal/hook/wait_exec_hook_handler.go:150-208 | The container's hooks are attempted in list order up to the first that ends everything; without one the container leaves the map |
| WaitExecHooks.WaitExecHookHandler.Attempt | internal/hook/wait_exec_hook_handler.go:166-206 | The command is run exactly unless the hook has expired in error mode Fail; the record is a failure exactly if it has expired or the command fails; one error for each of the two; all ends exactly on a failure in error mode Fail |
| WaitExecHooks.WaitExecHookHandler.FailRemaining | internal/hook/wait_exec_hook_handler.go:238-263 | Exactly the hooks never attempted are recorded as failures, each with an error |
| HookRuns.SeenUpIsRun | internal/hook/wait_exec_hook_handler.go:133-212 | A container seen up while it is waited for has its hooks run in list order up to the first that ends everything, unless those of another container up with it ended everything first |
| HookRuns.SeenUpHooksAttempted | internal/hook/wait_exec_hook_handler.go:133-212 | Hook by hook: in a container seen up while it is waited for, a hook is attempted if and only if no hook before it expired or failed in error mode Fail, unless such a one was attempted in another container up with it |
| HookRuns.WatchEndsExactly | internal/hook/wait_exec_hook_handler.go:118-212 | The watch ends on an event if and only if the pod is deleted, has ended, cannot be converted with a container up, a hook attempted now expired or failed in error mode Fail, or nothing is left to wait for |
| WaitExecHooks.IsContainerUp | internal/hook/wait_exec_hook_handler.go:281-307 | Up by the first status of the container: ready if some hook waits for that, else running |
| HookRuns.WhatUpMeans | internal/hook/wait_exec_hook_handler.go:297-305 | The status that counts is the first one of the container |
| HookRuns.AttemptedWasUp | internal/hook/wait_exec_hook_handler.go:133-137 | No hook is attempted in a container that was not seen up |
| HookRuns.RunIsOrderly | internal/hook/wait_exec_hook_handler.go:150-208 | At any time a container's hooks have not been started, or have been attempted in list order up to the first that ends everything |
| HookRuns.CommandsRunExactly | internal/hook/wait_exec_hook_handler.go:166-206 | Over a whole run: the command of an attempted hook is run if and only if it has not expired in error mode Fail, each at most once, and no other command is run |
| HookRuns.FailedExactly | internal/hook/wait_exec_hook_handler.go:166-263 | A newly recorded hook is a failure if and only if it had expired, its command failed, or its turn never came |
| HookRuns.KeySettledByFirstAttempt | internal/hook/hook_tracker.go:115-145 | Where hooks share a key, the first attempt decides |
| HookRuns.EverythingRecorded | internal/hook/wait_exec_hook_handler.go:238-263 | Afterwards exactly the registered hooks of the pod's containers are recorded on top |
| HookRuns.ExpiredHookIsRun | internal/hook/wait_exec_hook_handler.go:166-198 | One expired hook in a container that is up: a failure, and its command is run unless the error mode is Fail |
| WaitExecHooks.GroupRestoreExecHooks | internal/hook/item_hook_handler.go:553-618 | Each container gets exactly its hooks in specified order, an annotation replacing those of the restore; exactly these are registered |
| WaitExecHooks.WhatIsMeant | internal/hook/item_hook_handler.go:553-618 | The hooks meant for a pod with containers: the one of its annotation, or else exactly the exec hooks of the applicable restore hooks, each with its name, place, error mode and container, by default the first |
| HookRuns.WhatAKeyTells | internal/hook/hook_tracker.go:30-53 | Two tracker keys agree exactly if pod, hook name, source, container and index do |
| MaintenanceHistory.ConsolidateHistory | pkg/controller/backup_repository_controller.go:410-449 | What is returned is ascending by start time and holds exactly the newest entries of the union; nothing is returned exactly if there is nothing to learn |
| MaintenanceHistory.ConsolidatingAgainChangesNothing | pkg/controller/backup_repository_controller.go:410-449 | Consolidating the result with the same input finds nothing to learn |
| MaintenanceHistory.IncomingWinsTies | pkg/controller/backup_repository_controller.go:423-429 | An entry comes from the incoming records whenever they know its start time |
| MaintenanceHistory.NewestIsBounded | pkg/controller/backup_repository_controller.go:431-438 | The history is as long as the limit, or as the union if that is shorter |
| MaintenanceHistory.NewestIsUnique | pkg/controller/backup_repository_controller.go:410-449 | There is only one newest part of a union |
| MaintenanceHistory.BackupRepository.UpdateRepoMaintenanceHistory | pkg/controller/backup_repository_controller.go:533-547 | The run is appended to the newest of the old entries, so that the history never exceeds the bound |
| MaintenanceHistory.GetLastMaintenanceTime | pkg/controller/backup_repository_controller.go:451-465 | The latest completion, None exactly if no run has completed |
| NamespaceMerge.MergeNamespacesByLabel | pkg/controller/backup_controller.go:731-770 | The merged lists select exactly the namespaces meant: the base (replaced, everything or the union) minus all exclusions; includes are never empty; the lists share an entry exactly in the sentinel case |
| NamespaceMerge.ExcludedSentinelIsShared | pkg/controller/backup_controller.go:755-767 | A concrete backup whose merged lists share an entry |
| NamespaceMerge.RepresentNamespaceSelection | internal/resourcepolicies/resource_policies.go:405-410 | Never empty; the sentinel stands for nothing selected |
| NamespaceFilters.Request.GetNamespaceFilter | pkg/backup/request.go:168-199 | Whatever was asked before: the exact-name policy, else the first glob policy in definition order, else none |
| NamespaceFilters.OneFilterGoverns | pkg/backup/request.go:164-168 | The rule leaves one answer, so memoised and fresh answers agree |
| NamespaceFilters.ResolveNamespacedFilterPolicies | pkg/backup/backup.go:1507-1523 | The loops build the map and the pattern order of the specification |
| NamespaceFilters.FilterMapIsTheRule | pkg/backup/backup.go:1507-1508 | The map knows exactly the patterns of the policies, each with its policy's filter |
| NamespaceFilters.FirstMatchGoverns | pkg/backup/request.go:187-194 | The first matching pattern belongs to the first matching policy |
| NamespaceFilters.NoMatchMeansGlobal | pkg/backup/request.go:196-198 | No matching pattern means that no policy governs |
| NamespaceFilters.ValidateNamespacedFilterPolicies | internal/resourcepolicies/resource_policies.go:839-918 | Accepts exactly policies with namespaces, valid patterns and no pattern used twice |
| ArchivePaths.PathStaysInside | pkg/archive/filesystem.go:43-63 | For any components whatsoever: a path is returned exactly if it leads downwards from the root directory, and then it is the joined one |
| ArchivePaths.WellNamedItemHasPath | pkg/archive/filesystem.go:43-71 | Proper components give resources, resource, version, scope, namespace and file below the root |
| ArchivePaths.PlacesSpelledOut | pkg/archive/filesystem.go:43-71 | The four layouts, spelled out: with and without version, with and without namespace |
| ArchivePaths.DownAndUpIsNothing | pkg/archive/filesystem.go:43-63 | Descending and climbing back does not change where a path leads |
| ArchivePaths.StayingIsNothing | pkg/archive/filesystem.go:43-63 | Neither do empty segments and the current directory |
| ArchivePaths.AboveTheRootIsTheRoot | pkg/archive/filesystem.go:43-63 | Climbing from the root stays at the root |
| ArchivePaths.CleanStaysClean | pkg/archive/filesystem.go:43-63 | A path already clean is left as it is |
| ArchivePaths.SplitGluesBack | pkg/archive/filesystem.go:43-63 | The segments with slashes between them are the path |
| ArchiveParser.Parse | pkg/archive/parser.go:67-142 | The catalogue lists exactly the files of every scope of every resource directory; there is none exactly if the resources directory is missing |
| ArchiveParser.ParseResource | pkg/archive/parser.go:85-138 | Each namespace is listed exactly if it holds files, with all of them |
| ArchiveParser.GetResourceItemsForScope | pkg/archive/parser.go:146-163 | The files of a directory, each once, without the extension |
| ArchiveParser.WhatADirectoryHolds | pkg/archive/parser.go:146-163 | A directory holds exactly the files directly below it and the directories that further files go through |
| ArchiveParser.WhatIsTrimmed | pkg/archive/parser.go:159 | The extension is taken off exactly where there is one, once |
| ArchiveRoundTrip.ParsingListsTheItems | pkg/archive/parser.go:67-163 | Parsing what was written returns exactly the unversioned items by namespace, each once, if and only if no versioned item is mistakable |
| ArchiveRoundTrip.WrittenArchiveHoldsItems | pkg/archive/filesystem.go:43-71 | What the path builder places is an archive of the items |
| ArchiveRoundTrip.FilesAreDistinct | pkg/archive/filesystem.go:43-71 | An unversioned item shares its file with no other, but for the mistakable case |
| ArchiveRoundTrip.ResourcesListed | pkg/archive/parser.go:79-139 | Every resource has an entry, even one kept under its versions only |
| ArchiveRoundTrip.VersionCalledNamespaces | pkg/archive/parser.go:108-136 | One item of an API version called namespaces is read as one of namespace cluster |
| FinalTarball.BuildFinalTarball | pkg/backup/backup.go:1248-1290 | Every file keeps its copies, but for the first copy of an updated file; updates of new files are written once |
| FinalTarball.RewritingUpdatesTheFiles | pkg/backup/backup.go:1237-1241 | Extracting the new archive gives the old files overwritten by the updates if and only if no later copy hides an update |
| FinalTarball.StaleCopySurvives | pkg/backup/backup.go:1259-1277 | Two copies of an updated file: the stale one survives |

## Left out

What the model assumes:

- Reads of the API server are fresh in the queue, a failed patch has no effect, and backup names are not reused. Which
  calls of a reconcile succeed is an argument of the reconcile.
- The cluster's namespaces are fixed, so the namespaces of a backup, as resolved for conflict detection, are a fixed set.
- Deletion of a backup while it is ReadyToStart, and server restarts, are not part of the queue machine: the tracker's
  Contains ignores ReadyToStart (pkg/controller/backup_tracker.go:94-103), so its sets would not follow.
- Item blocks: the answers of plugins and cluster do not change during one pass; a fetched item is a member of a set,
  where the source has a map entry flagged at once; workers that consume the blocks are not modelled.
- Item backup: one worker. Has and AddItem are two calls, so two workers can back up the same item
  (pkg/backup/item_backupper.go:216-221). A path is its item's resource, final name and version.
- DataDownload: exposer and data path are abstract findings, stale caches are covered by updates that commit late; the
  built-in data mover only.
- Outcome: one backup, and one reconcile at a time; the operations controller's retries are its next reconcile.
- Hooks: whether a hook has expired and whether its command fails is one answer for each hook, as each is attempted at most once; events come one at a time and none after the cancellation, as with an informer that has stopped.
- Maintenance history: start times are always set, as every producer sets them.

Weaker than the source, or in another form:

- QueueRefinement.ReconcileIsControllerRun: relates the reconcile that no worker interrupts to the machine; interrupted ones are covered by the machine itself, whose steps are the reconcile cut at every call.
- ItemBlockBuilder.KubernetesBackupper.VisitRelated: the body of the source's inner loop is a method of its own, as are the loops around it.
- Operations.GetOperationProgress: error messages are not wrapped with the plugin's name.
- NamespaceFilters.ValidateNamespacedFilterPolicies: the rules on resource filters inside a policy are not modelled.
- NamespaceFilters.ResolveNamespacedFilterPolicies: a policy's resource filters are one value, so that resolving them cannot fail.
- NamespaceMerge.MergeNamespacesByLabel: the order of the merged lists is not modelled; patterns match by an arbitrary relation that meets the rules for `*`, the sentinel and plain names.
- ArchiveParser.Parse: errors of the file system other than a missing directory are not modelled.
- ItemBackupper.ItemBackupper.BackupItem: in the final phase, when an action skips an item, nothing is promised about the files of additional items fetched on the way: the source drops those of the skipped item (pkg/backup/item_backupper.go:286-290).
- HookRuns.FailedExactly: speaks of a hook whose tracker key no other hook of the pod has; for shared keys KeySettledByFirstAttempt says which attempt decides.
- FinalTarball.BuildFinalTarball: read and write errors, which end the rewriting, are not modelled.

Not modelled at all:

- Restore operations polling (pkg/controller/restore_operations_controller.go), the twin of the backup poll.
- MultiHookTracker, which keeps one tracker per restore, and backup hooks.
- ParseGroupVersions of the archive parser; tar, gzip and JSON.
- Validation of backups, schedules, volume policies and their YAML, label selectors and glob compilation.
- Item collection apart from the ordering; namespace tracking and cohabitating resources.
- The DataUpload, PodVolumeBackup and restore controllers, garbage collection, and backup deletion.
- Metrics, logging, plugin processes and object storage, which appear only as calls that succeed or fail.
