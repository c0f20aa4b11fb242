# etcd-backup-restore in Dafny

etcd-backup-restore keeps backups of an etcd cluster as full snapshots and chains of delta
snapshots, prunes and compacts them, copies them between object stores and replays them on
restore. This project models the parts of it that have to agree on revisions, and the protocols
between its goroutines, and proves what they are there for.

| file | what it models |
|---|---|
| Etcd.dfy | key space, transactions, the history of a live cluster |
| Restorer.dfy, RestoreTheorems.dfy | replaying deltas, the revision check, gap detection, soundness and completeness |
| SnapTypes.dfy, Selection.dfy, FilteredBackups.dfy | snapshot metadata and order, choosing a chain, listing backups for the copier |
| BackupStore.dfy | the invariant of the object store and the chain selected from it |
| Snapshotter.dfy | full snapshots, the event buffer, deltas, the event handler |
| RoundTrip.dfy, Compactor.dfy | backup then restore; compaction |
| StaleBuffer.dfy, WatchRestart.dfy | collecting again after a watch error |
| RestorePipeline.dfy, PipelineInvariant.dfy, PipelineTheorems.dfy | concurrent fetchers and the applier |
| Listings.dfy, Retention.dfy, RetentionPass.dfy, DeletionLog.dfy, GarbageCollector.dfy | both retention policies over a changing store |
| ChunkedUpload.dfy, UploadRetry.dfy | cutting into chunks, parallel upload with retries, reassembly |
| Strings.dfy, SnapshotName.dfy | printing and parsing of snapshot names |
| LeaderElection.dfy, SnapshotLease.dfy, Copier.dfy | the election loop and its callbacks, the lease, the copier's workers |
| Sums.dfy | counting over sequences |

The etcd of the model is a history, one list of events per revision, and `StateAt(h, r)`, the
key map after revision `r`. Each revision has at least one event, its keys are distinct, and a
delete hits a live key. A full snapshot labelled `r` holds `StateAt(h, b)` for some `b >= r`,
because the revision is read before the snapshot is taken. Concurrent protocols are step
functions over explicit states; a run is any sequence of actions, and an action that is not
possible changes nothing. Clocks, delete outcomes, request failures and other writers are
parameters, so every claim holds for all of them. The garbage collector and the compactor work on
the store while the event handler runs: their deletions and saves are inputs of its run. Code that updates objects in place is a class
or a method with loops, each tied to a specification function.

Where the code and what one would expect differ, there is an input that shows it and the exact
condition under which the expected property holds:

- The watch-error exits of the event handler do not clear the buffer, and collecting starts again
  on top of it. The buffer is right if and only if it was empty (`OpenedIsRight`), and the delta
  cut afterwards holds the revisions of its name if and only if it was (`CutIsStale`).
  `StaleBufferBreaksRestore` is a run that ends in a store that cannot be restored, however it is
  listed; `AfterWatchError` says for every listing of the store after the cut when exactly that
  happens. If a full snapshot at or above the new delta is selected, the delta does not matter.
  Otherwise it ends the selected chain and decides. The essential case is `Harmless`: a single
  revision buffered twice must have no put, and of several all but the first must only delete
  keys that the first did not put.
- A restore from a chain whose first delta ends below the revision that the base really holds
  fails, although nothing is missing. `ChainRestores` gives the condition, and `LaggingBaseFails`
  inputs of the event handler that lead there from any state.
- The revision check trusts the name of a delta. `MislabelledDeltaHidesGap` shows a delta named
  past its last event that hides a missing revision; `LabelsDecide` says that a restore that
  succeeds has committed every revision once if and only if every delta is named after its last
  event, or is a first one that is skipped. The snapshotter always names deltas so.
- `getFullSnapshotIndexList` starts with index 0 even if a delta is there, so a delta at the head
  of the listing is judged like a full snapshot and can be deleted however young it is
  (`FirstDeltaIsLost`, `YoungDeltaIsDeleted`). `LimitSurvivors` and `ExponentialSurvivors` say for
  every position of every listing what is left.
- The exponential policy counts the oldest day of the oldest week only if some full snapshot other
  than the newest is between 8 and 34 days old, because only that shifts the end of day.
  `OldestDayIsLost` shows the case, and `Retained` has the condition. So a second pass at the same
  time can delete what the first one kept (`SecondPassLosesWeek`); `SurvivorsIdempotent` and
  `SecondPass` say that it does if and only if `LosesWeek`, which a full snapshot of the last week
  rules out (`RecentLosesNothing`). A stream whose deltas could not be deleted skips the shift;
  `ExponentialSpares` says what is spared even then.
- A prefix that contains "v1/" is read in the old format. The metadata comes back if and only if
  there is no slash in the prefix after its last "v1/" (`MetadataRoundTrip`).
- Compaction leaves the restored state as it was if full snapshots that tie, with one last revision
  in one second, hold the same; deltas may tie with anything. `TiedFullsExample` shows two tied full
  snapshots of which the other one is selected after compaction, and `TiesBreakCompaction` gets
  there from every store whose newest full snapshot ties with one that holds more. How a delta
  sorts that ties with its base decides whether a listing restores at all (`TieOrderMatters`).

## Model

| member | source | states |
|---|---|---|
| `Etcd.CommitRevision` | pkg/snapshot/restorer/restorer.go:552-581 | committing the operations of one revision on the state before it is accepted and gives the state after it, with the revision counted up by one |
| `Restorer.ApplyEventsToEtcd` | pkg/snapshot/restorer/restorer.go:552-581 | the loop that collects operations and commits where the revision increases does to etcd, and reports, exactly what replaying the regrouped transactions does, including the half-done database on a rejected transaction or an unknown event |
| `Restorer.ApplyFirstDeltaSnapshot` | pkg/snapshot/restorer/restorer.go:509-530 | only events newer than the base are applied; nothing when the base is already at the delta's last revision; everything when no event is newer |
| `Restorer.FirstReplays` | pkg/snapshot/restorer/restorer.go:509-530 | which events of the first delta are replayed: none if it ends where the base is, those from the first one newer than the base, or all if none is, even on a base beyond the delta |
| `Restorer.RestoreDeltas` | pkg/snapshot/restorer/restorer.go:213-256 | applying and verifying delta after delta ends in the restored database or at the first delta that fails |
| `Restorer.RegroupPrefix` | pkg/snapshot/restorer/restorer.go:559-568 | regrouping a prefix of the events gives a prefix of the transactions, but for the open one |
| `Restorer.ReplayStops` | pkg/snapshot/restorer/restorer.go:559-580 | once a transaction is rejected or an event is of unknown type, the replay of the whole list fails with the database of that point |
| `RestoreTheorems.GapDetection` | pkg/snapshot/restorer/restorer.go:552-594 | a successful restore has committed every revision from the base's to the last delta's exactly once and in order, so a missing delta or revision never goes unnoticed |
| `RestoreTheorems.FirstDeltaFills` | pkg/snapshot/restorer/restorer.go:509-530 | the same for the first delta, whose overlap with the base is skipped |
| `RestoreTheorems.FirstLabelDecides` | pkg/snapshot/restorer/restorer.go:509-530 | a first delta that passes the check has filled the gap to its label if and only if it is named after its last event or was skipped |
| `RestoreTheorems.LabelsDecide` | pkg/snapshot/restorer/restorer.go:552-594 | a successful restore has committed every revision up to the last label exactly once if and only if every label is right |
| `RestoreTheorems.MislabelledDeltaHidesGap` | pkg/snapshot/restorer/restorer.go:583-594 | over the etcd of a valid history a delta named past its last event passes the check, with a revision missing and another key map than the original |
| `RestoreTheorems.SuccessIsTheOriginal` | pkg/snapshot/restorer/restorer.go:552-594 | whatever deltas of whole revisions are presented, a restore that succeeds has rebuilt the original etcd of the last delta's revision |
| `RestoreTheorems.RegroupBetween` | pkg/snapshot/restorer/restorer.go:559-568 | regrouping a stretch of history gives back its revisions as transactions |
| `RestoreTheorems.ChainRestores` | pkg/snapshot/restorer/restorer.go:480-594 | an unbroken chain restores if and only if it is empty or its first delta reaches the base's true revision, and then gives the original etcd at the end of the chain |
| `SnapTypes.LessIsStrictWeakOrder` | pkg/types/snapstore.go:160-187 | the order of snapshots is a strict weak order on snapshots that are not chunks |
| `SnapTypes.ChunksSortAfter` | pkg/types/snapstore.go:160-187 | at one revision a chunk comes after every snapshot, and two chunks in any order |
| `Selection.SortSnapList` | pkg/miscellaneous/miscellaneous.go:114 | a sorted permutation |
| `Selection.GetLatestFullSnapshotAndDeltaSnapList` | pkg/miscellaneous/miscellaneous.go:93-123 | the newest full snapshot of the listing, and a sorted permutation of exactly the deltas listed after it |
| `Selection.SortedUnique` | pkg/miscellaneous/miscellaneous.go:114 | deltas that end at different revisions have only one sorted order, so the selection does not depend on the sorting algorithm |
| `FilteredBackups.GetStructuredBackupList` | pkg/miscellaneous/miscellaneous.go:158-178 | the backward loop computes the backups whose meaning the next row states |
| `FilteredBackups.StructureIsListing` | pkg/miscellaneous/miscellaneous.go:158-178 | cutting a listing into backups loses nothing but the deltas before the oldest full snapshot and keeps the order |
| `FilteredBackups.GetFilteredBackups` | pkg/miscellaneous/miscellaneous.go:130-156 | the loop over the backups, newest first, computes the choice whose meaning the next row states |
| `FilteredBackups.ChosenAreNewest` | pkg/miscellaneous/miscellaneous.go:128-156 | only backups that pass the filter, newest first, each full snapshot followed by its deltas, no more than the limit; one that passes is left out only if the limit is reached by others that are not older |
| `FilteredBackups.NothingIsLost` | pkg/miscellaneous/miscellaneous.go:130-178 | without limit and filter the result, together with the deltas before the oldest full snapshot, is a permutation of all snapshots that are not chunks |
| `BackupStore.SaveFull` | pkg/compactor/compactor.go:158-167 | saving any full snapshot whose label does not exceed what it holds keeps the store sound, whoever saves it |
| `BackupStore.SaveDelta` | pkg/snapshot/snapshotter/snapshotter.go:438-513 | saving a delta that starts right after a reached revision keeps deltas disjoint and connected |
| `BackupStore.DeleteSuperseded` | pkg/snapshot/snapshotter/garbagecollector.go:95-203 | deleting a chunk, or a snapshot covered by a full one that stays, keeps the store sound and every revision reached |
| `BackupStore.ListedBeforeIsSuperseded` | pkg/snapshot/snapshotter/garbagecollector.go:87-203 | whatever a listing has before its newest full snapshot is covered by it, as long as that is still there |
| `BackupStore.TailFollows` | pkg/miscellaneous/miscellaneous.go:103-114 | in a sound store the selected deltas follow the base's label and each other without gap or overlap |
| `BackupStore.SelectedChain` | pkg/miscellaneous/miscellaneous.go:93-123 | the deltas selected from a sound store are an unbroken chain over what the base really holds |
| `BackupStore.SelectedEnd` | pkg/miscellaneous/miscellaneous.go:103-114 | the selected chain ends at or above every snapshot of the store |
| `Snapshotter.Snapshotter.constructor` | pkg/snapshot/snapshotter/snapshotter.go:106-167 | a new snapshotter continues from the newest full snapshot and the sorted deltas after it, or from a dummy |
| `Snapshotter.StartsOk` | pkg/snapshot/snapshotter/snapshotter.go:106-167 | over a sound store that state satisfies the chain invariant if and only if there is a full snapshot or no delta |
| `Snapshotter.Snapshotter.TakeFullSnapshot` | pkg/snapshot/snapshotter/snapshotter.go:308-409 | the new state is that of the specification: buffer dropped, the etcd of a possibly later revision saved under the one read before, a new base, and the watch reopened after its label, with every way to fail |
| `Snapshotter.FullIsTaken` | pkg/snapshot/snapshotter/snapshotter.go:338-376 | a request for a full snapshot that reports success leaves a full one of the revision read, final if asked for, as the last snapshot, in the store or covered; unless it fails before, it saves one, under the time, suffix and flag it should have and with what etcd then holds, if and only if the last one is not a final full one of this revision with a final one asked for |
| `Snapshotter.FullEstablishes` | pkg/snapshot/snapshotter/snapshotter.go:338-376 | a full snapshot that is saved gets into the chain invariant from any sound store and loses nothing |
| `Snapshotter.FullKeeps` | pkg/snapshot/snapshotter/snapshotter.go:308-409 | whatever fails, the invariant is kept, nothing saved is lost and no revision goes back |
| `Snapshotter.Snapshotter.TakeDeltaSnapshot` | pkg/snapshot/snapshotter/snapshotter.go:438-513 | the new state is that of the specification: the buffer saved under a name from after the last snapshot to the last event, nothing for an empty buffer, and the buffer empty in any case |
| `Snapshotter.DeltaIsTaken` | pkg/snapshot/snapshotter/snapshotter.go:438-513 | a delta is saved unless nothing was received or it fails, and then holds exactly the revisions from after the last snapshot up to where the watch is, under a name that says so |
| `Snapshotter.DeltaKeeps` | pkg/snapshot/snapshotter/snapshotter.go:438-513 | cutting a delta from a right buffer keeps the store sound, the deltas contiguous and everything saved before |
| `Snapshotter.Snapshotter.HandleDeltaWatchEvents` | pkg/snapshot/snapshotter/snapshotter.go:595-624 | the buffer with the events of the response, or the state after cutting a delta from it when the memory limit is passed |
| `Snapshotter.DeliveredOk` | pkg/snapshot/snapshotter/snapshotter.go:595-611 | a watch response extends a right buffer to exactly the revisions delivered so far |
| `Snapshotter.Snapshotter.HandleOne` | pkg/snapshot/snapshotter/snapshotter.go:633-727 | one turn of the select loop: the whole new state and the exit taken |
| `Snapshotter.HandleKeeps` | pkg/snapshot/snapshotter/snapshotter.go:633-727 | each turn, including one in which the collector deletes or the compactor saves, keeps the chain invariant and every saved snapshot but a deleted one, which a full one covers, and turns neither the last snapshot's revision nor an open watch back; full snapshots and deltas are saved exactly when the rows above say so |
| `Snapshotter.GarbageKeeps` | pkg/snapshot/snapshotter/garbagecollector.go:95-203 | deleting a superseded snapshot during a run keeps the store sound, its deltas connected and what the snapshotter remembers in the store or covered by a full snapshot |
| `Snapshotter.CompactionKeeps` | pkg/compactor/compactor.go:158-167 | so does saving a compacted snapshot of any revision up to the current one, and nothing is lost |
| `Snapshotter.Snapshotter.SnapshotEventHandler` | pkg/snapshot/snapshotter/snapshotter.go:633-727 | a run over any inputs ends in the state and with the exit of the specification |
| `Snapshotter.HandleAllKeeps` | pkg/snapshot/snapshotter/snapshotter.go:633-727 | in every state of every run up to its first exit, with the collector and the compactor at work: the remembered full snapshot and deltas are in the store or covered by a full one, the deltas and the buffer follow each other without gap or overlap up to the last delivered event, the first delta starts at the latest right after the base's label, which it may straddle, no revision is split, and nothing that was saved is lost but what the collector deletes |
| `Snapshotter.Snapshotter.CollectEventsSincePrevSnapshot` | pkg/snapshot/snapshotter/snapshotter.go:516-593 | opens the watch on top of whatever is buffered and collects until it has caught up, was stopped or failed; the whole new state |
| `Snapshotter.OpenedIsRight` | pkg/snapshot/snapshotter/snapshotter.go:554-558 | after opening the watch the buffer is right if and only if it was empty |
| `Snapshotter.CollectKeeps` | pkg/snapshot/snapshotter/snapshotter.go:516-593 | collecting on an empty buffer gets into the chain invariant and keeps it; stopped, it closes the watch, and when it has caught up the watch is past the revision etcd had, which is at once if that is the one of the last snapshot |
| `RoundTrip.SelectAndRestore` | pkg/snapshot/restorer/restorer.go:77-135 | the result of restoring the selected base and a sorted order of the selected deltas, or nothing when there is no full snapshot |
| `RoundTrip.RestoredRevision` | pkg/snapshot/restorer/restorer.go:480-594 | from a sound store a restore succeeds if and only if there is no delta or the first one reaches the base's true revision, and then gives the original etcd at the largest revision stored |
| `RoundTrip.BackupRestoreRoundTrip` | pkg/snapshot/snapshotter/snapshotter.go:308-513 | in every state of the chain invariant a restore that succeeds gives back the etcd of the last snapshot's revision, or of the base's own revision when it has no delta |
| `RoundTrip.RunThenRestore` | pkg/snapshot/snapshotter/snapshotter.go:633-727 | after any run of the event handler, the collector and the compactor on one store, a store that had a full snapshot still has one, restores under the exact condition, to the original etcd, and not to a revision before the run |
| `RoundTrip.BackupThenRestore` | pkg/snapshot/snapshotter/snapshotter.go:633-727 | the same as one program: run the handler over any inputs, deletions and compacted saves included, then select and restore from what is left |
| `RoundTrip.LaggingBaseFails` | pkg/snapshot/snapshotter/snapshotter.go:338-348 | a full snapshot during which two revisions are written, a watch response of one and a delta leave, from any sound state, a store whose restore fails |
| `StaleBuffer.HarmlessIsExact` | pkg/snapshot/restorer/restorer.go:552-581 | committing the repeated revisions again is accepted and writes nothing if and only if they are harmless |
| `StaleBuffer.StaleFirst` | pkg/snapshot/restorer/restorer.go:480-530 | a stale delta as the first one restores if and only if the base is at its last revision, or does not exceed it and its repeated revisions are not above its label and harmless or all in the base; then to the original etcd |
| `StaleBuffer.StaleChain` | pkg/snapshot/restorer/restorer.go:552-594 | the same for a stale delta at the end of any chain |
| `WatchRestart.RestartAppends` | pkg/snapshot/snapshotter/snapshotter.go:702-709 | a watch error changes nothing, and collecting again appends exactly the revisions since the last snapshot to whatever was buffered |
| `WatchRestart.LimitCutsStale` | pkg/snapshot/snapshotter/snapshotter.go:612-622 | so does collecting up to the response that passes the memory limit |
| `WatchRestart.CutIsStale` | pkg/snapshot/snapshotter/snapshotter.go:438-513 | the delta cut first holds the buffered revisions twice, and exactly those of its name if and only if nothing was buffered |
| `WatchRestart.AfterWatchError` | pkg/server/backuprestoreserver.go:426-434 | from every state in which the watch breaks, wherever the next delta is cut, and for every listing of the store after it: if the new delta is selected it comes last, and the restore succeeds if and only if the chain before it does and the stale delta does on top of where that ended; if not, the restore gives what the base holds; with a base labelled below the delta it is selected |
| `WatchRestart.StaleBufferBreaksRestore` | pkg/snapshot/snapshotter/snapshotter.go:702-709 | a run of the model that ends in a store of which no listing can be restored |
| `Compactor.Compact` | pkg/compactor/compactor.go:57-187 | saves the restored database as a full snapshot labelled with its revision, final as its base and compressed as the end of its chain, or changes nothing when there is no base or the restore fails |
| `Compactor.CompactionPreservesRestore` | pkg/compactor/compactor.go:57-187 | adding the compacted snapshot, even after more deltas were saved, leaves the store sound and restorable for every listing, with the restored state and revision the same; full snapshots that tie have to hold the same |
| `Compactor.TiesBreakCompaction` | pkg/types/snapstore.go:160-187 | from every store whose newest full snapshot, not followed by deltas, ties with one that holds more, a compaction in the same second leads to a listing that restores the other one |
| `Compactor.TiedFullsExample` | pkg/types/snapstore.go:160-187 | two tied full snapshots and a compaction after which the restored revision is another one |
| `Compactor.TieOrderMatters` | pkg/types/snapstore.go:160-187 | a store with a delta that ties with its base, of which one sorted listing restores and another does not |
| `PipelineInvariant.RunKeeps` | pkg/snapshot/restorer/restorer.go:255-465 | every state of every interleaving of main, fetchers and applier satisfies the pipeline invariant |
| `PipelineInvariant.StepKeeps` | pkg/snapshot/restorer/restorer.go:335-465 | so does the state after any single action |
| `PipelineTheorems.PipelineOrder` | pkg/snapshot/restorer/restorer.go:388-443 | the applied snapshots are always 0..k-1 in order and each once, the applier waits only when the next file is missing, and the index-mismatch branch is unreachable |
| `PipelineTheorems.FailureSafety` | pkg/snapshot/restorer/restorer.go:348-366 | after a failed fetch or persist nil is never reported, because the abort marker is ahead of the index in the channel |
| `PipelineTheorems.PipelineRefinesRestore` | pkg/snapshot/restorer/restorer.go:213-302 | success means the database of the sequential restore of all deltas; an error means a fault or that the sequential restore fails too |
| `PipelineTheorems.NoSendBlocks` | pkg/snapshot/restorer/restorer.go:255-288 | without failed fetches every send on every buffered channel finds room |
| `PipelineTheorems.NoDeadlock` | pkg/snapshot/restorer/restorer.go:255-288 | without failed fetches some action is possible until the result is received |
| `PipelineTheorems.PipelineTerminates` | pkg/snapshot/restorer/restorer.go:335-465 | failures or not, every run has a bounded number of effective steps |
| `PipelineTheorems.NothingFetchedAfterResult` | pkg/snapshot/restorer/restorer.go:286-346 | once the result is received no fetcher begins another fetch |
| `Retention.DecideIsRetained` | pkg/snapshot/snapshotter/garbagecollector.go:107-148 | for creation times in order, the hour, day and week arithmetic with its shift of the end of day keeps a full snapshot exactly if it is of the current hour or the newest of an hour of today, of one of the seven days before or of one of the four weeks before them, the oldest day counting only when weeks are counted |
| `Retention.DecideLagging` | pkg/snapshot/snapshotter/garbagecollector.go:101-133 | a pass that missed the shift, because it skipped a stream, gives up nothing that a window retains but a snapshot of the oldest day |
| `Retention.OldestDayIsLost` | pkg/snapshot/snapshotter/garbagecollector.go:121-133 | a concrete list where the newest snapshot of the oldest week is deleted |
| `Retention.SurvivorsIdempotent` | pkg/snapshot/snapshotter/garbagecollector.go:107-148 | thinning a list of creation times a second time at the same time keeps all of them if and only if the oldest week does not depend on a snapshot that the first pass deletes |
| `Retention.SecondPassLosesWeek` | pkg/snapshot/snapshotter/garbagecollector.go:121-133 | a concrete list where the second pass deletes what the first one kept |
| `Retention.RecentLosesNothing` | pkg/snapshot/snapshotter/garbagecollector.go:121-133 | with a full snapshot of the last week there is no such list |
| `Retention.AtMost34` | pkg/snapshot/snapshotter/garbagecollector.go:85-148 | thinning leaves at most 34 beside the newest and those of the current hour |
| `Listings.DeleteIsHarmless` | pkg/snapshot/snapshotter/garbagecollector.go:95-203 | deleting anything listed before the newest full snapshot leaves the selected full snapshot and deltas the same, whatever was saved meanwhile and wherever it sorts in |
| `Listings.ChunkIsNotSelected` | pkg/snapshot/snapshotter/garbagecollector.go:228-264 | deleting a chunk leaves the selection the same |
| `RetentionPass.GetFullSnapshotIndexList` | pkg/snapshot/snapshotter/garbagecollector.go:211-223 | index 0 followed by exactly the positions of the other full snapshots, increasing |
| `RetentionPass.KeepSnapshot` | pkg/snapshot/snapshotter/garbagecollector.go:107-148 | the switch over the age of a snapshot computes the decision and the shift of the end of day |
| `RetentionPass.ExponentialSurvivors` | pkg/snapshot/snapshotter/garbagecollector.go:85-169 | after a pass in which no delete failed, however long it took, over any listing: a full snapshot is left if and only if a window retains it at the time the pass began, a delta if and only if it follows the newest full snapshot or was not outdated when its stream was begun, and at the head of the listing only if a window retains it as well |
| `RetentionPass.LimitSurvivors` | pkg/snapshot/snapshotter/garbagecollector.go:171-203 | after a pass in which no delete failed, however long it took, over any listing: exactly the newest full snapshots up to the limit are left, the deltas as above, and a delta at the head of the listing only if the full snapshots stay below the limit |
| `RetentionPass.LimitSpares` | pkg/snapshot/snapshotter/garbagecollector.go:171-203 | in every pass, whatever fails, the newest full snapshots up to the limit stay, and so do deltas that are not outdated, but for one at the head of the listing |
| `RetentionPass.ExponentialSpares` | pkg/snapshot/snapshotter/garbagecollector.go:85-169 | in every pass, whatever fails, a full snapshot that a window retains stays unless it is of the oldest day of the oldest week, and so do deltas that are not outdated, but for one at the head of the listing |
| `RetentionPass.FirstDeltaIsLost` | pkg/snapshot/snapshotter/garbagecollector.go:211-223 | a delta at the head of the listing is deleted, however young, when the full snapshots reach the limit |
| `RetentionPass.YoungDeltaIsDeleted` | pkg/snapshot/snapshotter/garbagecollector.go:211-223 | a concrete listing where that happens |
| `RetentionPass.ExponentialLeaves` | pkg/snapshot/snapshotter/garbagecollector.go:85-169 | the creation times of the full snapshots that a pass without failed deletes leaves are the survivors of those before |
| `RetentionPass.SecondPass` | pkg/snapshot/snapshotter/garbagecollector.go:85-169 | a second pass at the same time deletes no full snapshot if and only if the oldest week does not depend on one that the first pass deletes, and the listing has at most 34 beside the newest and those of the current hour |
| `DeletionLog.SelectionKept` | pkg/snapshot/snapshotter/garbagecollector.go:95-203 | all deletions of a log together leave the selected chain the same when nobody else saves |
| `DeletionLog.ListingIsRemaining` | pkg/snapshot/snapshotter/garbagecollector.go:95-203 | what the log leaves of the listing keeps its order |
| `DeletionLog.PeriodsAreRespected` | pkg/types/snapstore.go:108-117 | an attempt on a snapshot whose immutability period has not expired deletes nothing, and otherwise the store decides |
| `DeletionLog.MembersByLog` | pkg/snapshot/snapshotter/garbagecollector.go:95-203 | a snapshot disappears from the listing exactly by a logged deletion of it |
| `DeletionLog.AllStreamsWait` | pkg/snapshot/snapshotter/garbagecollector.go:95-203 | over all streams of a pass, a full snapshot is tried only if deleting none of the deltas on top of it has failed |
| `GarbageCollector.Collector.GarbageCollectDeltaSnapshots` | pkg/snapshot/snapshotter/garbagecollector.go:276-310 | only outdated deltas of the stream are tried and nothing else of the listing disappears; every attempt is logged and explains the listing, and every deletion is harmless; all are tried unless five deletes fail, an error is reported if and only if one did, and if none did exactly the outdated deltas disappear |
| `GarbageCollector.Collector.GarbageCollectChunks` | pkg/snapshot/snapshotter/garbagecollector.go:228-264 | returns the listing without chunks and tries to delete exactly the chunks of uploaded snapshots; unless a delete failed, exactly those disappear |
| `GarbageCollector.Collector.ExponentialPolicy` | pkg/snapshot/snapshotter/garbagecollector.go:79-169 | the log explains the listing and is harmless; whatever fails, nothing disappears but outdated deltas and entries that no window retains at the first look at the clock, those of the oldest day aside; unless a delete failed, exactly the entries that no window retains and the deltas outdated when their stream was begun disappear |
| `GarbageCollector.Collector.LimitBasedPolicy` | pkg/snapshot/snapshotter/garbagecollector.go:171-203 | the log explains the listing and is harmless; whatever fails, nothing disappears but outdated deltas and entries beyond the limit; unless a delete failed, exactly these disappear, each delta judged when its stream was begun |
| `GarbageCollector.Collector.CollectGarbage` | pkg/snapshot/snapshotter/garbagecollector.go:24-207 | in a run under either policy, with any saves, outcomes and times in between, the new listing is the old one under these saves and the logged deletions, each of which leaves the selected chain as it was and comes after the immutability period; nothing listed goes that the policy does not give up, and unless a delete failed everything goes that it does; a full snapshot is not tried when one of its deltas failed; chunks are tried exactly if the store is not Swift and their snapshot has been uploaded; the number returned is that of deleted snapshots |
| `GarbageCollector.CollectTwice` | pkg/snapshot/snapshotter/garbagecollector.go:24-207 | two runs of the collector in which no delete failed: the second, begun at the time of the first, deletes no full snapshot if and only if the oldest week does not depend on one that the first deletes; in any case the selected chain is what it was |
| `ChunkedUpload.EmitChunks` | pkg/snapstore/s3_snapstore.go:454-484 | the offset loop emits exactly the computed number of chunks, with ids from 1 and contiguous offsets |
| `ChunkedUpload.ChunkBound` | pkg/snapstore/s3_snapstore.go:454-460 | for a validated chunk size there are at most limit + 1 chunks, none smaller than that size, and larger ones only if there are as many as the limit |
| `ChunkedUpload.StoreLimits` | pkg/snapstore/gcs_snapstore.go:198-205 | that is at most 10000 parts for S3 and 32 components for GCS |
| `ChunkedUpload.PartNumberIsId` | pkg/snapstore/s3_snapstore.go:535 | part numbers computed from offsets are the ids 1 to n, each once |
| `ChunkedUpload.ReassembledIsFile` | pkg/snapstore/gcs_snapstore.go:238-270 | the uploaded sections put together by part number are the file |
| `UploadRetry.SaveSetsUp` | pkg/snapstore/gcs_snapstore.go:198-228 | Save starts the upload in a state the claims below apply to |
| `UploadRetry.TokensConserved` | pkg/snapstore/utils.go:122-156 | outstanding chunks and collected ones are always all chunks, each once, and no send finds its channel full |
| `UploadRetry.TriesAreBounded` | pkg/snapstore/utils.go:129-141 | each chunk is tried at most six times and at most 6n results are collected |
| `UploadRetry.ErrorMeansExhausted` | pkg/snapstore/utils.go:129-141 | an error is returned only for a chunk that has been tried six times |
| `UploadRetry.NilMeansUploaded` | pkg/snapstore/utils.go:122-156 | nil is returned only when every part is stored, and the parts make up the file whatever failed attempts left behind |
| `UploadRetry.NoDeadlock` | pkg/snapstore/s3_snapstore.go:563-581 | until the collector returns, some action is possible |
| `Strings.ParsePadded` | pkg/snapstore/snapshot.go:101-110 | parsing a number undoes printing it with leading zeros |
| `Strings.ParsedIsSmall` | pkg/snapstore/snapshot.go:101-110 | numbers that do not fit into 64 bits are refused |
| `SnapshotName.NamedSnapshot.SetFinal` | pkg/types/snapstore.go:135-144 | changing the final flag keeps the name equal to the regenerated one |
| `SnapshotName.NameRoundTrip` | pkg/snapstore/snapshot.go:34-136 | parsing the path of a snapshot, or of one of its chunks, gives back its metadata |
| `SnapshotName.OldVersionInPrefix` | pkg/snapstore/snapshot.go:39-82 | with "v1/" in the prefix the rest of it and the version become the directory and the metadata come back, unless the rest has a slash; then the path is refused or taken for a chunk |
| `SnapshotName.MetadataRoundTrip` | pkg/snapstore/snapshot.go:34-136 | the metadata come back if and only if the prefix has no "v1/" or no slash after its last one |
| `SnapshotName.NameIsInjective` | pkg/types/snapstore.go:119-121 | different metadata have different names |
| `SnapshotName.NameLayout` | pkg/types/snapstore.go:119-121 | kind, both revisions, time, suffix and final flag are where they belong in a name, for revisions of at most eight digits |
| `SnapshotName.ChunkLayout` | pkg/snapstore/gcs_snapstore.go:269 | the number of a chunk follows its snapshot after a slash, in ten digits |
| `SnapshotName.ParseSound` | pkg/snapstore/snapshot.go:86-136 | a name is accepted only as a known kind, two revisions in order and a time, separated by dashes, and these are the metadata |
| `SnapshotName.PathSound` | pkg/snapstore/snapshot.go:34-83 | a path is accepted only with a version and at most three elements after it, and their number decides whether it is a chunk |
| `LeaderElection.CallsAreOrdered` | pkg/leaderelection/leaderelection.go:67-152 | over every run of status results, starting and stopping to lead alternate, the leading context is live exactly as leader, and the lease is renewed exactly outside the unknown state |
| `LeaderElection.StateIsLastStatus` | pkg/leaderelection/leaderelection.go:81-149 | after every run the last status alone decides the state: leader, unknown after a failed check, follower otherwise |
| `LeaderElection.RoundCalls` | pkg/leaderelection/leaderelection.go:81-149 | for every run before it, which of the six calls a round makes: it starts to lead if and only if the status becomes leader, stops if and only if it no longer is, stops and starts the renewal around failed checks, and promotes if and only if a follower finds itself a learner |
| `LeaderElection.Server.HandleStatus` | pkg/leaderelection/leaderelection.go:81-149 | one round makes exactly the calls that the rows above explain, closes no channel twice, sends a stop only to its one receiver, and a leader's snapshotter has its closer and its collector an open channel |
| `LeaderElection.Server.HandleSsrStopRequest` | pkg/server/backuprestoreserver.go:551-557 | the goroutine that waits for the leading context closes its own channel, once, and only after the context is cancelled |
| `LeaderElection.Server.Run` | pkg/server/backuprestoreserver.go:222-297 | so does the whole loop, with the closing goroutines scheduled at any time; after shutdown no context is live, and no lease renewal or garbage collector of an earlier term is left running |
| `SnapshotLease.LeaseNeverDecreases` | pkg/health/heartbeat/heartbeat.go:149-218 | for any number of updaters and any failures the stored revision never decreases and always comes from the start or from an updater |
| `SnapshotLease.LeaseIsMaxRegister` | pkg/health/heartbeat/heartbeat.go:149-218 | once an updater for revision r has returned nil the stored revision is at least r, then and after any further steps |
| `SnapshotLease.ErrorsAreExplained` | pkg/health/heartbeat/heartbeat.go:169-218 | in every run an updater returns an error if and only if one of its requests went wrong or it met more conflicts than it had retries |
| `SnapshotLease.AloneSucceeds` | pkg/health/heartbeat/heartbeat.go:169-218 | after any run, an updater none of whose requests went wrong returns nil once left alone, with at least its revision stored, if and only if it met no more conflicts than it had retries |
| `SnapshotLease.ConflictsAreBounded` | pkg/health/heartbeat/heartbeat.go:169-218 | an updater meets at most one conflict for each of the others |
| `SnapshotLease.EnoughRetries` | pkg/health/heartbeat/heartbeat.go:169-218 | so with a retry for each of the others it returns an error if and only if a request went wrong |
| `SnapshotLease.UndisturbedUpdate` | pkg/health/heartbeat/heartbeat.go:172-207 | an updater alone returns nil, leaves the greater of both revisions and renews the lease unless the stored one is greater |
| `Copier.FindMissing` | pkg/snapshot/copier/copier.go:128-149 | the loop computes the names, in order, whose form without ".final" the destination lacks, which the next rows explain |
| `Copier.TrimmedName` | pkg/types/snapstore.go:135-144 | trimming the name of a snapshot gives the name of the same snapshot not marked final |
| `Copier.MissingByMetadata` | pkg/snapshot/copier/copier.go:137-149 | a snapshot is to be copied if and only if the destination lacks the name it has when not final |
| `Copier.CopySafety` | pkg/snapshot/copier/copier.go:151-196 | in every interleaving no snapshot is copied twice, the WaitGroup never drops below zero and nobody sends on a closed channel |
| `Copier.CopyIsComplete` | pkg/snapshot/copier/copier.go:151-206 | when the copy returns, each missing snapshot was copied exactly once and the collected errors are exactly those of failed copies |
| `Copier.FailuresAreReal` | pkg/snapshot/copier/copier.go:180-188 | an item has failed if and only if a copy of it did |
| `Copier.CopiesByMetadata` | pkg/snapshot/copier/copier.go:215-229 | a run adds only names of snapshots of the source that are not final, and once it has returned, those of all whose copying did not fail |
| `Copier.NoDeadlock` | pkg/snapshot/copier/copier.go:151-206 | until the copy returns, some action is possible |
| `Copier.SecondRunCopiesNothing` | pkg/snapshot/copier/copier.go:113-229 | after a run without errors a second run on the same source copies nothing, final snapshots included |

## Left out

- FullEstablishes: saving is one atomic step, and the watch delivers whole revisions in order.
- HandleDeltaWatchEvents: whether the buffer passes the memory limit is an input, since sizes of encoded events are not modelled.
- AfterWatchError: about the first delta cut after collecting has started again, and a last snapshot at revision 1 or later, as every full snapshot of an etcd is. Between the watch error and the cut others may change the store as long as it stays sound.
- HandleAllKeeps: a deletion of the collector is one of a superseded snapshot, which `ListedBeforeIsSuperseded` shows of everything it tries before the newest full snapshot of its listing; a compacted save is one of the etcd of a revision, which `CompactionPreservesRestore` shows of what is restored.
- CutIsStale: says nothing of a cut before anything was received again; that delta is the one the buffer was right for.
- ApplyEventsToEtcd: the limits on request size and operations per transaction of the embedded etcd are not modelled.
- RestorePipeline: after a failed fetch the code goes on to persist a missing reader; the model lets that step succeed or fail, and claims only safety there.
- ExponentialSurvivors: durations are in seconds and saturate as in Go; for creation times of the index list in order and none in the future. Without that order only the newest full snapshot, what follows it and deltas that are not outdated are known to be spared.
- SecondPass: for creation times in the order of the listing.
- TiesBreakCompaction: says what one listing of the store after compaction restores; tied full snapshots that differ but are followed by deltas can give the same result.
- GarbageCollectChunks: chunks of a full snapshot that is still being uploaded are not protected, and nothing is claimed about them.
- ChunkBound: the conversion through floating point is taken as exact.
- NameRoundTrip: the old format v1 is parsed but has no printer.
- CopyIsComplete: a failed copy may or may not have stored the snapshot.
- Startup rules of the server, which take a full snapshot first when the store has none.
- Empty uploads: the collector waits forever when there is no chunk; sizes are positive.
- Deadlock freedom of the restore pipeline after a failed fetch: fetchers go on sending.
- JSON, compression and SHA-256: contents are values, and a file that cannot be read is an input of the pipeline.
- Defragmentation and the database size alarm during a restore.
- OSS, ABS, Swift and local stores: uploads are modelled for S3 and GCS.
- Snapshots tagged for exclusion from listings.
- Timers, cron schedules, backoff, member control, data directory checks, HTTP, metrics, configuration and credentials.
