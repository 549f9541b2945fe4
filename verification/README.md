# bigcp in Dafny

bigcp copies directory trees between Windows volumes and is built to be
interrupted: a crash, a cancellation or a failing device may stop it at any
step, and the next run goes on from there. This project models its protocols in
Dafny and proves what they keep. Files are byte sequences, channels are bounded
sequences, threads are the steps of a state machine, and I/O results,
interleavings, short reads, timeouts, cancellation, crashes and left-over files
are arbitrary.

Check everything with `dafny verify dfyconfig.toml`.

| part | modules |
|---|---|
| read / hash / write pipeline, phased burst | Pipeline, PipelineSafety, PipelineProgress, Burst |
| coordinator: walk, accounting, breaker, exit code | Accounting, Walk, Trail, Pool, Coordinator, CopyRun |
| worker pool and same-spindle batches | Workers, PhasedWorker |
| journal: records, codec, lines, loading, appending, recovery | JournalRecords, JournalCodec, JournalLines, JournalLoad, Journaling, JournalRecovery |
| checkpointed, sparse and named-stream copies over any sequence of runs | EngineWorld, Checkpoints, EngineCopy, EngineSparse, EngineRuns |
| segmented parallel copy | Segments, SegmentThreads, SegmentedCopy |
| audit log | Audit |
| rerun contract of files written in place | Classifier, Rerun |
| left-over temporaries and journal keys | Reclaim, PathKeys |
| tree verifier | Verifier |
| strategy and dispatch gates, memory budget, extent count | Dispatch, Budget, Extents |

State that the program updates in place is a class here (`Journal`, `Runner`,
`Transfer`, `AuditWriter`, `FileWorkers`, ...), usually with its fields gathered
into a value, so that what a step does to the value is one lemma and the method
only assigns. Ghost logs (`past`, `recorded`, `trail`, `health`, `log`) say what
has happened, and the invariants tie the fields to them.

## Model

| member | source | states |
|---|---|---|
| Pipeline.Configure | crates/core/src/transport.rs:201-258 | Any raw request size, length and depth becomes a configuration with two or three buffers of at least one byte each, staged exactly from depth three on. |
| PipelineSafety.PipelineSafe | crates/core/src/transport.rs:201-457 | In every reachable state of every interleaving: written and digested bytes are prefixes of the source, written <= digested <= read, the read-ahead is at most depth * request bytes, the buffers are conserved, success means all of it was written, and each failure has the cause its name claims but for one exception. |
| PipelineSafety.DoneNeverReceived | crates/core/src/transport.rs:372-436 | The writer leaves by its own byte count and never receives the reader's final packet. |
| PipelineProgress.StepMeasure | crates/core/src/transport.rs:259-446 | Every step but a timeout or an interrupted call strictly decreases a measure, so no run is endlessly busy. |
| PipelineProgress.NoStuckState | crates/core/src/transport.rs:259-446 | Before the transfer has returned some productive step exists, except in a hung state, and a hung state has none. |
| PipelineProgress.HungForever | crates/core/src/transport.rs:315-317 | In a hung state nothing but a repeated cancellation can happen, and the state stays hung. |
| PipelineProgress.HungCharacterised | crates/core/src/transport.rs:315-446 | A hung state: cancelled, the writer waits to join, every buffer is queued in front of the reader's blocking last send, and in the staged form the hasher has timed out and left. |
| PipelineProgress.HangExactly | crates/core/src/transport.rs:259-446 | A hung state is reachable exactly when depth <= length <= size of the source, at depth two and at depth three. |
| PipelineProgress.HangForEveryCall | crates/core/src/transport.rs:201-258 | The same for every raw call. |
| PipelineProgress.SafeForEveryCall | crates/core/src/transport.rs:201-457 | Prefix, read-ahead and success for every raw call. |
| PipelineProgress.StagedDrainsWhenHasherLeavesNothing | crates/core/src/transport.rs:323-356 | The staged pipeline always drains unless its hasher has left all buffers queued. |
| PipelineProgress.CancelReportedAsPanicExactly | crates/core/src/transport.rs:259-446 | A cancellation can surface as a reader panic exactly when there is something to copy. |
| PipelineProgress.CleanRunSucceeds | crates/core/src/transport.rs:201-457 | Without cancellation and I/O errors a run that can go no further has succeeded and copied everything. |
| Burst.BurstBuffer.ReadFrom | crates/core/src/transport.rs:498-527 | Fills the buffer in place with the next source bytes in bounded requests; the count is exact however it ends, and short only at the end of the source. |
| Burst.BurstBuffer.WriteTo | crates/core/src/transport.rs:530-567 | Appends exactly the first `transferred` buffer bytes, all of them unless it reports why not. |
| Burst.TransferBurst | crates/core/src/engine.rs:2020-2077 | The counters grow by exactly the bytes moved in every outcome; success is the whole stretch read, hashed and written; the digest takes the whole stretch or nothing; a source that is too short always fails. |
| Accounting.HeldIsSat | crates/core/src/model.rs:243-292 | However long the run, the saturating counters hold the saturation of the exact tally. |
| Accounting.ReconcileExact | crates/core/src/model.rs:294-342 | The outcome equations accept every balanced run, however large, and until a counter saturates nothing else. |
| Accounting.FoldersAlwaysMatch | crates/core/src/copy.rs:3256-3296 | Each top-level folder's summary stands for exactly the settled files under it. |
| Accounting.ReconcileFolders | crates/core/src/copy.rs:3298-3337 | The folder equations accept every run whose files are balanced, and until the discovery counter saturates nothing else. |
| Trail.CleanMeans | crates/core/src/copy.rs:897-1029 | After a directory is stamped nothing happens in it; it is stamped at most once, after it was entered and with none of its jobs in flight. |
| Walk.PlacedFinalize | crates/core/src/copy.rs:994-1001 | Stamping out of post-order keeps all pending tasks clear of stamped directories. |
| Pool.Returns | crates/core/src/copy.rs:2324-2352 | Whichever job completes, its directory is open, and the per-directory counts stay exact. |
| Pool.CountsAddUp | crates/core/src/copy.rs:2272-2352 | The per-directory counts add up to the number of outstanding jobs. |
| Pool.AllStamped | crates/core/src/copy.rs:1006-1029 | When every entered directory is stamped no job is outstanding. |
| Pool.TrippedMeans | crates/core/src/copy.rs:3339-3370 | The breaker is set exactly when five device-gone or no-space failures have come in with no success between them. |
| Coordinator.Runner.HandleEntries | crates/core/src/copy.rs:1318-1434 | Every listed entry is settled, in the pool, or a child directory kept for later, and no two kept children share a key. |
| Coordinator.Runner.MakeRoom | crates/core/src/copy.rs:2272-2322 | Waiting for room ends, and settles only completed jobs meanwhile. |
| Coordinator.Runner.FinishCopy | crates/core/src/copy.rs:2361-2555 | A completed or handed-back job settles exactly one file, whatever completions arrive meanwhile; and it is attempted, breaker or not, unless the run is dry or cancelled. |
| Coordinator.Runner.DrainNotAttempted | crates/core/src/copy.rs:2962-3051 | The reachable rest of a failed subtree is settled entry by entry. |
| Coordinator.Runner.ExitDirectory | crates/core/src/copy.rs:1595-1805 | Waits for the directory's own jobs, then stamps it once. |
| Coordinator.Runner.RunTask | crates/core/src/copy.rs:897-1029 | One task keeps what is owed and decreases (unvisited nodes, tasks, jobs) lexicographically, also when an exit yields. |
| Coordinator.Runner.CopyTree | crates/core/src/copy.rs:897-1029 | The walk ends with the pool empty, every entered directory stamped, and everything discovered settled exactly once. |
| CopyRun.ExitMeans | crates/core/src/copy.rs:3946-3968 | What each exit code means: 4 exactly on a tripped breaker, then 3 on cancellation, 2 on a failure, the read-back's included, and 0 otherwise; a non-dry run with 0 has left no file out. |
| CopyRun.Run | crates/core/src/copy.rs:88-687 | Every run ends, passes both reconciliations, stamps each entered directory after its last work, and never ends with the integrity exit code. |
| Workers.FileWorkers.TrySubmit | crates/core/src/worker.rs:273-292 | Accepts exactly when the shard's queue has room; the pool's places keep every job exactly once. |
| Workers.FileWorkers.NeverWedged | crates/core/src/worker.rs:216-292 | With a job outstanding there is a result to take, or a worker with work. |
| Workers.FileWorkers.QueuedIsOutstanding | crates/core/src/worker.rs:216-292 | What a shard's queue holds is outstanding, so a full queue means a completion is coming. |
| Workers.FileWorkers.Submit | crates/core/src/copy.rs:2272-2322 | Against the pool's own queues: submitting ends, whatever is full, receiving completions on the way, and exactly this job enters the pool. |
| Workers.FileWorkers.Await | crates/core/src/worker.rs:296-318 | Waiting with a job outstanding, a time-out at a time, ends with one completion, in any interleaving. |
| Workers.FileWorkers.ExactlyOnce | crates/core/src/worker.rs:331-343 | With nothing outstanding each submitted job was received exactly as often as it was submitted. |
| Workers.FileWorkers.GatherBatch | crates/core/src/worker.rs:447-477 | A batch is the next jobs of the stream in order, within the burst or a single job, at most 1024 long; the job that did not fit is kept for the next. |
| PhasedWorker.RunBatch | crates/core/src/worker.rs:479-567 | A batch's actions are exactly: every job prepared, what is ready written, what is written revalidated, what needs it copied regularly; each in the batch's order; and each job gives exactly one result. |
| PhasedWorker.OrderIsPhased | crates/core/src/worker.rs:441-446 | So no action of an earlier phase follows one of a later. |
| PhasedWorker.RunWorker | crates/core/src/worker.rs:447-477 | Over any number of batches, with submissions and receptions meanwhile: the batches are the stream of jobs in order, each within the burst or a single job and within the queue, and at most one job is carried over. |
| JournalRecords.HarvestKeeps | crates/core/src/journal.rs:206-233 | Harvesting loses no record and no identity-bearing temporary, and invents nothing. |
| JournalRecords.FoldIsProven | crates/core/src/journal.rs:581-660 | Whatever replays, resumable or orphan, comes from a recorded checkpoint. |
| JournalRecords.FoldIsLatest | crates/core/src/journal.rs:581-660 | A checkpoint replays exactly when it is the latest of its key and neither its end nor another job follows. |
| JournalCodec.PrefixCodeIsSound | crates/core/src/journal.rs:663-690 | A codec as assumed exists: stored records round-trip, use no newline, and no strict prefix of one is JSON. |
| JournalLines.ReadByChecksum | crates/core/src/journal.rs:681-690 | A stored record of any version is read exactly when it is short enough and its checksum, over the version it gives, is right. |
| JournalLines.OtherVersionTrusted | crates/core/src/journal.rs:567-623 | So a record of another version is an event like any other: see Findings. |
| JournalLines.HealKeeps | crates/core/src/journal.rs:415-460 | The newline heal loses the event of a brittle tail and nothing else: it keeps the events exactly when the tail is not brittle. |
| JournalLines.BrittleExists | crates/core/src/journal.rs:430-440 | A file with a brittle tail. |
| JournalLines.CutCanAdd | crates/core/src/journal.rs:236-279 | A file of one record too long by its newline, which becomes readable when cut. |
| JournalLines.CutKeepsPrefix | crates/core/src/journal.rs:236-279 | A file of this program's writes, none of that one size, cut at any byte holds a prefix of its events. |
| JournalLoad.ReadBoundedRecord | crates/core/src/journal.rs:532-562 | The record read depends on the bytes alone, not on how the reader hands them out, and is bounded. |
| JournalLoad.LoadState | crates/core/src/journal.rs:236-279 | The lookahead loop replays exactly the fold of the readable records, with exact torn, valid and skip counts. |
| JournalLoad.InteriorGarbage | crates/core/src/journal.rs:581-623 | An unreadable interior record changes the skip count and nothing else. |
| Journaling.AppendRecord | crates/core/src/journal.rs:415-460 | On any file and for any event: a successful append adds its event, if it can be read back, to what the heal keeps; a failed one adds it or nothing, and merges nothing. |
| Journaling.Journal.Append | crates/core/src/journal.rs:415-460 | Memory remembers the event exactly when the append succeeded, and mirrors a replay of the file as long as nothing failed, nothing was too long and no tail was brittle; without a handle nothing is written. |
| Journaling.Journal.BeginJob | crates/core/src/journal.rs:342-383 | Another signature moves every checkpoint to the harvest; the same one keeps them. |
| Journaling.Journal.Compact | crates/core/src/journal.rs:385-413 | A compacted file replays to the job and the checkpoints that can be read back, with an empty harvest; a failure leaves the old file or the compacted one, and may lose the handle. |
| Journaling.Journal.TakeOrphan | crates/core/src/journal.rs:495-506 | Hands out a proof for a name exactly when one speaks for that name in that directory, and once only. |
| Journaling.Open | crates/core/src/journal.rs:284-334 | Opening any file drops a torn tail and rebuilds the fold of exactly the surviving events. |
| Journaling.OpenFresh | crates/core/src/journal.rs:284-334 | A fresh journal is empty and keeps the proof of every identity-bearing temporary, if the old one could be read. |
| Journaling.JournalOf | crates/core/src/journal.rs:284-334 | A journal over a file of one checkpoint holds exactly that checkpoint. |
| JournalRecovery.CrashThenReplay | crates/core/src/journal.rs:236-279 | However this program's file is cut, loading never refuses it, and yields the fold of a prefix of the events. |
| EngineWorld.World.Publish | crates/win/src/file.rs:492-542 | The rename publishes the file; an error after it leaves the new file, one before it the old file. |
| EngineWorld.ExactlyWhen | crates/core/src/engine.rs:2511-2631 | What is published has exactly the source's streams if and only if the temporary held no other. |
| EngineWorld.ForeignStreamPublished | crates/core/src/engine.rs:2254-2333 | A temporary's streams and a file published over them with one more stream than the source. |
| EngineRuns.ForeignStreamStays | crates/core/src/engine.rs:2511-2631 | Every run that publishes over a temporary with a foreign stream publishes that stream. |
| Checkpoints.AppendCheckpoint | crates/core/src/engine.rs:2381-2449 | A written checkpoint carries the digest of exactly the bytes in the temporary below its watermark. |
| Checkpoints.Advance | crates/core/src/engine.rs:2183-2251 | Boundaries are met exactly, also inside holes, and the next one is always ahead. |
| Checkpoints.TransferSegment | crates/core/src/engine.rs:1934-2018 | A transfer puts the source's bytes at the position, feeds the digest the same bytes, and touches no other stream. |
| Checkpoints.ResumeUnnamed | crates/core/src/engine.rs:2254-2333 | Only the recorded object, for the recorded source version, with its prefix proved, is resumed; only the recorded object is discarded; after a read error neither. |
| EngineCopy.CopyUnnamed | crates/core/src/engine.rs:1136-1230 | From any resume point the dense loop ends with the whole source in the temporary and in the digest. |
| EngineCopy.ResumeNamed | crates/core/src/engine.rs:2633-2704 | A named stream is resumed only in the very temporary its checkpoint recorded, for the very source version and stream size, with its prefix proved. |
| EngineCopy.EnsureBaseCheckpointForNamed | crates/core/src/engine.rs:2335-2379 | When a named stream may be checkpointed the temporary has become persistent first. |
| EngineCopy.CopyStreamed | crates/core/src/engine.rs:1136-1291 | Success publishes the source of this run with its digest; failure leaves what was there, or what the rename put there. |
| EngineSparse.CopyRanges | crates/core/src/engine.rs:606-694 | For any ranges within the file: the temporary becomes the image of the ranges, and the digest that of the image; for ranges that reach all data that is the source. |
| EngineSparse.ImageIsContent | crates/core/src/engine.rs:606-694 | The image of a range list is the content exactly when every non-zero byte from the resume point on is reached in order. |
| EngineSparse.SortedImage | crates/core/src/engine.rs:606-694 | Sorted covering ranges, overlapping or not, reproduce the content from any resume point. |
| EngineSparse.UnsortedRangesLoseData | crates/core/src/engine.rs:612-631 | An unsorted list that passes the code's own check and loses data. |
| EngineSparse.CopySparse | crates/core/src/engine.rs:550-740 | For ranges in any order that reach every non-zero byte (exactly those that can reproduce it), the sparse copy publishes what the dense copy would. |
| EngineRuns.OneRun | crates/core/src/engine.rs:319-409 | One run of any strategy, from any safe world and any left-over temporary, publishes the source as it was when the run began, or leaves what was published, or fails after its rename. |
| EngineRuns.AnyRuns | crates/core/src/engine.rs:319-409 | Over any sequence of runs, each stopped anywhere, with the source changing between and during them: what is published is a version the source has or had, with its digest, over no streams or those of some run's temporary; and exactly that version if and only if those had no foreign one. |
| EngineRuns.ReplayIsRecorded | crates/core/src/journal.rs:236-279 | What a journal hands to the next run are checkpoints that were recorded for that file. |
| EngineRuns.SettingExists | crates/core/src/engine.rs:2845-2847 | Sources and digests as assumed exist. |
| Segments.SegmentPlan | crates/core/src/engine.rs:1350-1401 | A plan partitions the file into non-empty segments with chunk-aligned starts, and exists when the file is large enough. |
| SegmentThreads.LandKeeps | crates/core/src/engine.rs:1577-1647 | Bytes a writer puts into its own segment disturb no other writer's claim. |
| SegmentedCopy.Transfer.Step | crates/core/src/engine.rs:1416-1660 | Any thread's step, failing, short or panicking, keeps the invariant and decreases the measure. |
| SegmentedCopy.Transfer.Run | crates/core/src/engine.rs:1416-1553 | Every interleaving ends with all writers joined. |
| SegmentedCopy.Transfer.Outcome | crates/core/src/engine.rs:1500-1660 | Without a recorded error the temporary is the source and the counters are exact; otherwise they never exceed the actual I/O, and equal it exactly when no thread panicked after moving bytes or failed inside a write. |
| SegmentedCopy.CopySegmented | crates/core/src/engine.rs:1416-1553 | Only a transfer with no recorded error is published, and then the file is the source. |
| Audit.TextReads | crates/core/src/audit.rs:392-407 | A reader sees exactly the complete lines, plus the torn bytes if any. |
| Audit.WriteAtomicLine | crates/core/src/audit.rs:392-407 | A line is appended whole, or the file is as before, or a strict prefix is torn off and said to be. |
| Audit.AuditWriter.Emit | crates/core/src/audit.rs:215-254 | While every call returns success the lines of both files, less notices, are the emitted events once each and in order, and nothing follows torn bytes. |
| Audit.AuditWriter.FailoverAndRetry | crates/core/src/audit.rs:291-320 | The second file starts with a notice. |
| Classifier.ClassifyMeans | crates/core/src/classify.rs:10-80 | Each verdict exactly in terms of kind, size, times under the policy and metadata, and the reported fields exactly. |
| Classifier.NewerMeansByAQuantum | crates/core/src/classify.rs:10-80 | A destination is called newer only when it is so by at least a quantum. |
| Classifier.CompletedCopyIsSame | crates/core/src/filesystem.rs:142-232 | A finished copy classifies as the same for any storage rounding strictly inside the quantum. |
| Classifier.QuantumIsStrict | crates/core/src/filesystem.rs:142-232 | A difference of a whole quantum is never taken for the same. |
| Rerun.Destination.OpenForReplacement | crates/core/src/engine.rs:1013-1134 | Opening for replacement, with the read-only attribute cleared and restored around a retry, keeps the destination honest; a failure leaves it as it was, but perhaps for that attribute. |
| Rerun.Destination.CopyPlainSmall | crates/core/src/engine.rs:897-1011 | Every step and every crash point of the in-place path keeps the destination honest; a finished file, new or replaced, classifies as the same if its times can be set and its attributes agree. |
| Rerun.Destination.SettlesExactly | crates/win/src/file.rs:1098-1130 | A stamp settles a whole file, whatever rounding the storage does, exactly when each time it leaves unchanged is right already and the extended attributes agree. |
| Rerun.Destination.AlwaysSettlesExactly | crates/win/src/file.rs:1098-1130 | It does so over any times exactly when no source time means "unchanged" and the attributes agree. |
| Rerun.ZeroTimeNeverSettles | crates/core/src/filesystem.rs:142-232 | A source last written at time zero is replaced again by every run. |
| Rerun.KeptAttributesDiffer | crates/core/src/engine.rs:897-1011 | A file replaced in place that keeps extended attributes the source lacks has exactly that difference in metadata. |
| Rerun.Destination.CopyTransactional | crates/core/src/engine.rs:1232-1291 | Publishing by rename keeps it honest, and a finished file classifies as the same if its times can be set. |
| Rerun.Destination.RepairMetadata | crates/core/src/copy.rs:3970-4009 | Repairing metadata keeps it honest and the content, and leaves the file the same unless its creation time cannot be set. |
| Rerun.Destination.SkipIsSafe | README.md:11-18 | An honest destination that classifies as the same, or as differing in metadata only, has the source's content. |
| Rerun.Destination.Runs | README.md:11-18 | After any number of interrupted runs a rerun skips only a complete file. |
| Dispatch.CheckpointsAreNeverLost | crates/core/src/copy.rs:744-813 | A file that may be checkpointed is never finished by a worker: it ends in the streamed or the sparse strategy on the coordinator. |
| Dispatch.PromotedExactly | crates/core/src/engine.rs:319-409 | A worker hands back exactly the files with a representable stream at the promotion threshold. |
| Dispatch.WorkerNeedsNoJournal | crates/core/src/copy.rs:758-813 | What a worker finishes has no stream that could be checkpointed. |
| Dispatch.NoWorkerSegments | crates/core/src/engine.rs:1350-1376 | Whatever the thresholds, no worker takes the segmented strategy, but for a file that has grown past the large threshold between its enumeration and the listing of its streams. |
| Dispatch.GrownFileSegments | crates/core/src/engine.rs:437-463 | Such a file does. |
| Budget.CapChunk | crates/core/src/devprofile.rs:111-142 | The largest chunk that fits beside one large file, exactly when the smallest does. |
| Budget.CapWorkers | crates/core/src/devprofile.rs:155-179 | The most workers that fit beside the coordinator's buffers, exactly when one does. |
| Budget.SelectCopyProfile | crates/core/src/devprofile.rs:68-219 | Exactly which topologies and tunings are accepted, and with exactly which chunk, workers and burst. |
| Budget.AcceptedFits | crates/core/src/devprofile.rs:155-179 | An accepted profile keeps the budget as the program reckons it, and the single-spindle one its burst. |
| Budget.BudgetHoldsExactly | crates/core/src/devprofile.rs:155-179 | For a given large-file threshold and chunk, every accepted local profile stays within its memory with all workers at their real peak, exactly when three chunks are at most the threshold. |
| Budget.Overrun | crates/core/src/devprofile.rs:122-179 | For every other threshold and chunk, an accepted topology and tuning that exceed the budget. |
| Budget.DefaultsOverrun | crates/core/src/devprofile.rs:122-179 | The built-in threshold and the solid-state chunk are such a case. |
| Extents.BreaksMeans | crates/win/src/extents.rs:36-141 | The count is the number of data runs that do not continue the data run before them, whatever holes lie between. |
| Extents.SplitIgnored | crates/win/src/extents.rs:36-141 | Splitting a run into adjacent records does not change the count. |
| Extents.HoleIgnored | crates/win/src/extents.rs:36-141 | Neither does a hole. |
| Extents.CountPage | crates/win/src/extents.rs:101-135 | A page is counted exactly and moves the cursor on, or no run list has such records. |
| Extents.ExtentCount | crates/win/src/extents.rs:36-141 | The count ends and depends on the run list alone, for any paging; and with runs within 64 bits an error is the device's own. |
| Verifier.LocalExactly | crates/core/src/verify.rs:273-326 | The hash-map pass over one directory finds no fault exactly when keys, kinds, metadata, contents, streams and attributes agree and nothing is extra. |
| Verifier.BelowExactly | crates/core/src/verify.rs:247-458 | Two directories agree recursively exactly when they agree locally and all pairs put on the list do. |
| Verifier.CheckDirectory | crates/core/src/verify.rs:249-458 | One step of the work list is exact when nothing is unreadable, and never passes on a directory it could not read. |
| Verifier.VerifyTrees | crates/core/src/verify.rs:173-460 | The verifier ends, never passes two trees that differ, and without read errors passes exactly the trees that agree. |
| PathKeys.KeyToPathExactly | crates/core/src/journal.rs:716-732 | A key decodes to a path exactly when it is that path's key, up to the case of its digits. |
| PathKeys.KeyRoundTrip | crates/core/src/journal.rs:696-732 | Every path comes back from its key, and no two paths share one. |
| PathKeys.ChildKeySpeaks | crates/core/src/journal.rs:495-506 | A child's key speaks for its directory and its name. |
| Reclaim.LiveExactly | crates/core/src/copy.rs:1107-1137 | A temporary is live exactly when its checkpoint speaks for this directory and the file it was taken from is still there unchanged. |
| Reclaim.OrphanIsUseless | crates/core/src/copy.rs:1125-1150 | No file of the directory could resume an orphan's checkpoint, and the file it was taken for is below the streaming size. |
| Reclaim.Classify | crates/core/src/copy.rs:1056-1165 | Exactly the verdicts of the decision table, with a recorded checkpoint of a file of this very directory behind every orphan. |
| Reclaim.Settle | crates/core/src/copy.rs:1191-1244 | Each destination-only name is skipped, deleted or counted, once; deleted only with the recorded name and identity and never when live; and the checkpoints retired are exactly those of the deleted orphans' paths. |
| Reclaim.MayRetireExactly | crates/core/src/copy.rs:1460-1498 | The settling may retire a path exactly when an orphan of that path, with a safe name, is among the extras. |
| Reclaim.LiveLostExactly | crates/core/src/copy.rs:1107-1243 | A live temporary's checkpoint may be lost exactly when a proven temporary of the same file, whose first checkpoint is not of the file as it is, is among the extras, and the file is below the streaming size. |
| Reclaim.OneTempKeepsLive | crates/core/src/copy.rs:1460-1498 | So it never is when every file has its checkpoints in one temporary. |
| Reclaim.LiveCheckpointLost | crates/core/src/copy.rs:1222-1243 | Otherwise it may lose it: see Findings. |

## Findings

Where the code does not do what it, its comments or its documentation say, the
model follows the code; the members named give the input, the exact condition,
or the clause that states it.

- The pipeline can hang on cancellation, at depth two and at depth three. All
  buffers are queued, the reader sits in its blocking final send, and the writer
  waits to join it. `PipelineProgress.HangExactly`: reachable exactly when
  depth <= length <= source size. At depth three the hasher must time out on its
  empty queue before the reader fills it, and then see the stop flag.
- A cancellation the reader sees first is reported as a reader panic
  (`PipelineProgress.CancelReportedAsPanicExactly`: exactly when length > 0).
- The newline heal can lose an event: an unterminated last record of exactly
  1 MiB is readable, and with the newline too long
  (`JournalLines.BrittleExists`; exactly when, `JournalLines.HealKeeps`). For the
  same reason a cut can bring an event back (`JournalLines.CutCanAdd`).
- An interior record of another version is trusted if its checksum is right,
  because the checksum is computed over the version it gives; the comment at
  crates/core/src/journal.rs:567-580 says it never is
  (`JournalLines.OtherVersionTrusted`; exactly when, `JournalLines.ReadByChecksum`).
- A failed compaction may have replaced the journal, and may leave it without a
  handle, so that every later append fails (`Journaling.Journal.Compact`).
- Compaction drops the harvest: the proof of orphaned temporaries survives in
  memory but not on replay (`Journaling.Journal.Compact`).
- A failed append may still be replayed (`Journaling.AppendRecord`).
- A resumed temporary keeps streams the source does not have, and they are
  published (`EngineWorld.ForeignStreamPublished`, `EngineRuns.ForeignStreamStays`;
  exactly when, `EngineWorld.ExactlyWhen`).
- A commit can fail after its rename: the run reports a failed file that is
  published (`EngineWorld.World.Publish`).
- Sparse ranges are only checked against the file size. An unsorted list loses
  data (`EngineSparse.UnsortedRangesLoseData`; exactly when,
  `EngineSparse.ImageIsContent`).
- Segment counters miss the landed part of a failed write, and everything a
  panicked thread moved (`SegmentedCopy.Transfer.Outcome`, exactly when).
- Retiring an orphan retires its path. If a named stream's checkpoint still
  names an older temporary, the checkpoint of a newer, live temporary goes with
  it (`Reclaim.LiveCheckpointLost`; exactly when, `Reclaim.LiveLostExactly`).
- An accepted memory budget can be exceeded: local workers on the transactional
  path own three chunks, and the budget counts the large-file threshold
  (`Budget.Overrun`, `Budget.DefaultsOverrun`; exactly when,
  `Budget.BudgetHoldsExactly`).
- A file that grows past the large-file threshold between its enumeration and the
  listing of its streams can be segmented by a worker, which only the coordinator
  should do (`Dispatch.GrownFileSegments`; no other, `Dispatch.NoWorkerSegments`).
- A source time of 0 means "leave unchanged" when it is set, so such a file never
  settles (`Rerun.ZeroTimeNeverSettles`). In-place replacement keeps the old
  file's extended attributes (`Rerun.KeptAttributesDiffer`); a rerun repairs that
  (`Rerun.Destination.RepairMetadata`). Exactly when a file settles:
  `Rerun.Destination.SettlesExactly`.
- A handed-back file is copied inline even after the breaker has tripped
  (`Coordinator.Runner.FinishCopy`: it is left out only in a dry run or on
  cancellation).
- A same-spindle batch is never longer than the queue, 1024 jobs, although its
  own limit is 4096 (`Workers.FileWorkers.GatherBatch`).

## Left out

Assumptions of the model:

- The digest is injective, and the journal and audit encodings are abstract: a
  record round-trips, holds no newline, and no strict prefix of it decodes.
- A source file's content is fixed while identity, size and last-write time are;
  and the source never returns to an earlier version once it has left it.
- Temporary names are never used twice (`EngineWorld.World.Create`). What is
  found under such a name when a run starts is arbitrary, its identity included.
- What is written is there after a crash, in order; loss of the device's cache
  is not modelled. The journal model instead allows a cut at any byte.
- Directory listings are finite trees; a path decoded from a journal key is made
  of plain names.

Weaker than the code, or open:

- EngineSparse.CopySparse: assumes ranges that reach every non-zero byte; for other lists see `EngineSparse.CopyRanges`.
- EngineSparse.CopyRanges: for ranges that do not, no checkpoint is pending, since it would attest what the source is not.
- Coordinator.Runner.MakeRoom: of the shard's queue only that it holds outstanding jobs; `Workers.FileWorkers.Submit` is on the queues themselves.
- CopyRun.Run: what the read-back finds is arbitrary, and fatal errors of the audit log, which end the run at once, are left out.
- Coordinator.Runner.SettleExtras: which extras are deleted is arbitrary here; it is decided in `Reclaim`.
- Verifier.VerifyTrees: read failures are arbitrary; a name that cannot be keyed, or an unreadable root, ends the original with an error and no verdict.
- Reclaim.Classify: names and keys are atoms with their meaning given by functions; `PathKeys` proves the decoding behind them.
- Rerun.Destination.CopyPlainSmall: extended attributes are a size; only sources without them take this path.
- Workers.FileWorkers.Await: only finitely many waits in a row pass without any worker moving.

Not modelled:

- Wall-clock time: a timeout is a step that may happen whenever it is awaited.
- Windows calls: handles, security descriptors, encryption, reparse buffers,
  extended-attribute contents, volume probes, locks.
- JSON, CRC32C and xxh3 themselves.
- Preflight, endpoint and device detection, striping and lane heuristics, and
  the affine sharding of small files.
- Reports, hints, phase timers, progress and statistics, and the command line.
- The read-back verification of a run's own files, a loop over one comparison.
