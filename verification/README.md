# Verification of muxprune

A Dafny model of the parts of muxprune that decide whether a media file, a
recycled subtitle or a catalogue row can be lost or mixed up, with proofs.
`dafny verify dfyconfig.toml` checks all of it.

Functions and methods follow the Go code branch by branch. Code that changes
state in place is a class or a method with a loop, proved against a function or
relation on values. Where several goroutines, processes or other programs
interleave, the same functions are the steps of a state machine, one step for
each SQL statement, each section under a mutex, each system call and each event
of the environment, and the results hold for all runs.

| modules | what they are about |
|---|---|
| `LockTable`, `JobTable`, `CancelRegistry`, `QueueProtocol`, `QueueInvariant`, `QueueTheorems`, `QueueResults`, `FileJobs` | the per-path mutex table, the persistent job queue shared by processes that may crash, cancelling, and jobs that rewrite a file |
| `Streams`, `Removal`, `Batch`, `Backends`, `BackendMeaning`, `BackendTheorems`, `Reorder` | aligning ffprobe's streams with mkvmerge's tracks, removal specs, the two command-line backends and what the tools do with them, track orders |
| `Catalogue`, `Scanner`, `ScanProtocol`, `ScanResults`, `Sidecars`, `Search`, `Paths` | the media table, scans with guarded pruning and the probe cache, sidecar ownership, LIKE search, path containment |
| `Watch`, `WatchProgress`, `Monitor`, `ScanQueue` | filesystem watchers with debounce timers, the monitor's catch-up flags, enqueueing scans |
| `Disk`, `Rewrite` | replacing a file, with every intermediate state recorded |
| `Links`, `RecycleNames`, `Recycle`, `RecycleTheorems` | recycling subtitles, some of which are symbolic links |
| `Wrappers`, `Sets`, `Text` | options and results, finite sets, the string functions the code takes from Go's library |

## Assumptions

- Every write of a file gives its path a (size, mtime) the path never had before
  (`FileJobs`, `ScanProtocol`).
- ffprobe's stream indexes are distinct, mkvmerge's track ids are distinct and
  not negative, and both tools read the options used here as `BackendMeaning`
  writes them out.
- Job, media and library ids may be handed out again after a delete, as SQLite
  does; rows are told apart by incarnation.
- Other programs do not touch muxprune's own temporary and part files.

## Where the code does not keep a property

Each of these is stated with its exact condition, and most with a concrete run or
input.

- A cancel that Runner.Cancel acknowledged can end as failed: exactly when the
  row was still running at a restart (`AcknowledgedCancel`, `CrashLosesCancel`).
- A rescan debt loses its last holder exactly when enqueue meets a database error
  in the only call for it, or a queued scan is cancelled or deleted that was the
  only thing to cover it (`LosesExactly`, `FailedEnqueueForgets`).
- A rescan debt also loses its last holder, without any failure, when its library
  was given the id of a removed one after a pass of Reconcile had listed the
  libraries: the pass takes out the old watcher and flag and sets no new one
  (`LosesExactly`, `ReusedIdForgets`).
- A rescan debt of a library that is not watched can be held and never be served:
  Reconcile sets the catch-up flag of such a library and then passes over it. It
  is served exactly if it is watched or something else is under way
  (`ServedExactly`, `UnwatchedFlagIsStuck`); a scan at an interval or by the user
  can still come from outside.
- PruneFilesOutside can delete rows with a later stamp: rows written by a call that
  began under another root than the sweeping scan's, and rows of a refresh asked
  for a path outside its own root (`SweepDeletesExactly`, `SweepTakesALaterRow`,
  `SweepTakesALateRefresh`); never otherwise (`SweepsDeleteNothing`).
- ffmpeg takes a temporary file whose name begins with a dash for an option:
  exactly when the cleaned directory of the media path begins with one, as for
  ./-x/y.mkv (`FfReads`, `DashDirectory`).
- A write by another program between the identity check and the rename is
  overwritten (`RewritesTheRecordedVersion`, `OverwritesOnlyLateWrites`).
- A closing error in tempPath leaves the empty temporary file behind: it returns
  before its removal is deferred (`Rewrite`, `TempPath`).
- uniqueDst returns a name in use exactly when it belongs to a link that leads
  nowhere, and the move then replaces that link (`InUseExactly`, `LinkIsReplaced`).
  Recycling can itself make such links: os.Rename moves a link as it is, and a
  relative one may not resolve from the recycle directory, or what it leads to is
  recycled later. Two deletions of namesakes in one second can then leave one
  entry (`NamesakesBecomeOne`); `SafeExactly` says for which files none of this
  can happen. A regular file is never replaced (`KeptUntilTaken`).
- moveFile can report an error although the file is already in the recycle
  directory: exactly when only removing the copied source failed
  (`DeleteSidecar`, `RecyclingConserves`).

## Model

| member | source | states |
|---|---|---|
| `LockTable.KeyedMutexIsSafe` | internal/engine/engine.go:990-1023 | Over any interleaving of the four critical steps of Lock and unlock: every thread's object is the one mapped for its key, `refs` is the number of threads on it, no two threads hold one key, and the map is empty once no thread is left |
| `LockTable.MutualExclusion` | internal/engine/engine.go:1013-1015 | Two threads past `rm.mu.Lock` on the same key are the same thread |
| `LockTable.WaitsExactly` | internal/engine/engine.go:1013 | Whoever is blocked in Lock can go on exactly when no thread holds that key |
| `LockTable.AlonePasses` | internal/engine/engine.go:998-1022 | A thread alone on its key passes at once, and its unlock leaves the map as it was |
| `LockTable.DeletionIsSafe` | internal/engine/engine.go:1016-1020 | When the count reaches zero and the key is deleted, no other thread has that object, so nobody is left waiting on a forgotten lock |
| `LockTable.ExitKeepsInv` | internal/engine/engine.go:1016-1021 | Leaving keeps counts, mapping and ownership right, also when the entry is deleted while others use other keys |
| `LockTable.KeyedMutex.EnterTable` | internal/engine/engine.go:1000-1011 | The first section of Lock is the protocol's Enter step on the mutex's own map and counters |
| `LockTable.KeyedMutex.ExitTable` | internal/engine/engine.go:1016-1021 | The last section of unlock is the protocol's Exit step: decrement, and delete at zero |
| `JobTable.Store.CreateJob` | internal/store/store.go:570-586 | The new row is queued, has the next id, and records the catalogue's size and mtime of that file at the moment of the INSERT |
| `JobTable.Store.ClaimNextJob` | internal/store/store.go:655-671 | Takes exactly the queued row with the smallest id to running; nothing is claimed only when no row is queued |
| `JobTable.Store.CancelJob` | internal/store/store.go:679-692 | Succeeds exactly for a queued row, which becomes cancelled; any other row is untouched |
| `JobTable.Store.RetryJob` | internal/store/store.go:694-714 | Succeeds exactly for a failed, skipped or cancelled row and adds a queued copy with one more attempt and the same recorded fingerprint; the error says which of the two reasons applied |
| `JobTable.Store.DeleteJob` | internal/store/store.go:716-729 | Removes the row exactly when it is there and not running |
| `JobTable.Store.FailInterrupted` | internal/store/store.go:732-739 | Every running row becomes failed, all others stay, and the result counts them |
| `CancelRegistry.Final` | internal/jobs/runner.go:75-83 | In terms of its arguments: a job cancelled by the user and not done is stored as cancelled with that log, one that failed when it was killed as cancelled by the shutdown, and any other as what execute returned; a cancelled job saves no bytes |
| `CancelRegistry.Runner.Cancel` | internal/jobs/runner.go:93-104 | True exactly for a running id, which is marked and whose context alone is cancelled |
| `CancelRegistry.Runner.Deregister` | internal/jobs/runner.go:180-190 | Reads the context and the mark, drops both entries, cancels the context, and decides the status to store |
| `QueueInvariant.StepKeepsInv` | internal/jobs/runner.go:122-198 | Every step of every process, worker, API call, crash or restart keeps the invariant: one lock holder, each job in a worker's hands is its own running row, entries and marks nested, acknowledged cancels remembered |
| `QueueTheorems.OnlyTheOwnerWorks` | cmd/muxprune/main.go:114-145 | In every reachable state all live workers belong to the one process that holds the lock file |
| `QueueTheorems.RecoveryTouchesNoLiveJob` | internal/store/store.go:731-739 | When FailInterrupted can run there is no worker anywhere, so no row it fails is being executed |
| `QueueTheorems.ExecutedAtMostOnce` | internal/jobs/runner.go:141-179 | Counted over the steps of any run, each row incarnation begins execution at most once, and a queued one never has |
| `QueueTheorems.StopsOnlyWhenTold` | internal/jobs/runner.go:141-162 | A process is stopping exactly when the run told it to and it has not crashed since; only then do its workers exit, and only then does it give the lock back, with no worker left |
| `QueueTheorems.FinishFindsItsOwnRow` | internal/store/store.go:673-677 | FinishJob's UPDATE has no status guard, yet it always finds the incarnation the worker claimed, still running, and writes a terminal status |
| `QueueTheorems.TerminalIsFinal` | internal/store/store.go:655-739 | A row seen in a terminal state is at any later point of any run either gone for good or exactly the same row, log and bytes included |
| `QueueTheorems.RowsKeepTheirRequest` | internal/store/store.go:694-714 | No claim, cancel, retry or restart alters a request: every row carries the path, payload and fingerprint some CreateJob recorded |
| `QueueTheorems.CancelMapsAreNested` | internal/jobs/runner.go:176-186 | Marked ids are cancellable ids, cancellable ids are running rows, and both maps are empty when no worker of the process is inside run |
| `QueueTheorems.AcknowledgedCancel` | internal/jobs/runner.go:93-104 | If Runner.Cancel returned true, the final status is done or cancelled exactly when no restart closed the row; otherwise it is failed |
| `QueueTheorems.CleanRunHonoursCancels` | internal/jobs/runner.go:164-198 | Without a crash, a failed FinishJob or a lost claim, an acknowledged cancel always ends done or cancelled, across restarts |
| `QueueTheorems.CancelledSavesNothing` | internal/jobs/runner.go:188-190 | A cancelled row reports zero bytes saved in every reachable state |
| `QueueResults.RowTellsTheResult` | internal/jobs/runner.go:159-198 | Over any run: the row of a job that was executed and not closed by a restart holds the status, log and bytes execute returned, unless the user's cancel was acknowledged or it failed after a shutdown's grace period was over; then it is cancelled, with the log that says which |
| `QueueTheorems.CrashLosesCancel` | internal/store/store.go:731-739 | A concrete run in which an acknowledged cancel ends failed: the process dies before FinishJob and the next one fails the row |
| `FileJobs.OneWorkerPerPath` | internal/jobs/runner.go:228-236 | Any number of workers: at most one is between taking the path's lock and the end of its work on it |
| `FileJobs.RewritesTheRecordedVersion` | internal/jobs/runner.go:210-236 | A rewrite worked from the recorded (size, mtime) exactly when no other program wrote between the check and statReplaceable, and replaced the version it worked from exactly when nobody wrote between the identity check and the rename |
| `FileJobs.NoVersionRewrittenTwice` | internal/engine/engine.go:597-632 | No version of a file is the base of two rewrites, whoever else writes in between |
| `FileJobs.AtMostOneRewritePerFingerprint` | internal/store/store.go:694-713 | Of all jobs and retries recorded against one fingerprint of a path at most one rewrites the file undisturbed |
| `FileJobs.EveryRewriteIsLogged` | internal/engine/engine.go:609-633 | Partner of the three above: the log they speak of has one entry for each rewriting step of the run, with what was at the path before; nothing else a job does touches a file |
| `FileJobs.JobRuns` | internal/jobs/runner.go:159-198 | Whatever goes on at other paths, a job for a path nobody is at, whose file is as recorded, can run to its end: it rewrites the file and leaves the lock table and the tasks as they were |
| `FileJobs.CheckedExactly` | internal/jobs/runner.go:210-236 | A job goes on exactly when it has no recorded fingerprint or the file is there with it, and is over otherwise |
| `FileJobs.IdentityExactly` | internal/engine/engine.go:621-623 | The identity check passes exactly when the path still holds the version statReplaceable saw |
| `FileJobs.UndisturbedJobRewrites` | internal/jobs/runner.go:228-236 | Left alone, a job that holds its lock and whose file is as recorded can be carried through: it rewrites the version that is there |
| `Streams.ProbeResult.StreamsOfType` | internal/probe/probe.go:240-245 | The streams of a type, in container order |
| `Streams.ProbeResult.AssignIds` | internal/probe/probe.go:221-237 | The pass succeeds exactly when every stream with a track at its position within its type agrees with it in language and codec; it changes nothing but ids |
| `Streams.ProbeResult.AlignMkvIds` | internal/probe/probe.go:211-247 | Succeeds exactly when all positions are compatible and the three media types have equally many streams and tracks |
| `Streams.ProbeResult.AttachOrReset` | internal/probe/probe.go:116-123 | Ids are those of a successful alignment, and on any failure every stream keeps -1 |
| `Streams.AlignmentIsExact` | internal/probe/probe.go:211-247 | After a successful alignment the k-th stream of each media type carries the id of the k-th mkvmerge track of that type, compatible pair by pair |
| `Streams.AlignsExactly` | internal/probe/probe.go:211-290 | When an alignment succeeds, in plain terms: no stream and the track at its rank know different languages, none has another codec than the one its track's codec id names, and of each media type there are as many streams as tracks |
| `Streams.WordsAgree` | internal/probe/probe.go:213-218 | The two tools' words for video, audio and subtitles translate into each other, and no other word is translated |
| `Streams.AlignedHasTrack` | internal/probe/probe.go:222-245 | Every media stream of an aligned result has an id that mkvmerge reported |
| `Streams.OtherStreamsKeepTheirId` | internal/probe/probe.go:212-218 | Attachments, data and other streams are never given an id |
| `Removal.CompactIsSet` | internal/engine/engine.go:526-527 | Sort and compact yield the strictly increasing list of the same indexes |
| `Removal.Validate` | internal/engine/engine.go:634-659 | Accepts exactly the specs whose indexes are streams of the right type, that leave an audio stream (unless overridden or there is none), on a file with video; each error names its cause |
| `Removal.Verify` | internal/engine/engine.go:759-801 | Accepts exactly when the three per-type counts are input minus removed, the durations agree within one percent clamped to two and sixty seconds, and the output is not below the size floor computed from the removed streams' bit rates; the counts are also stated outright |
| `Removal.KeptByKind` | internal/engine/engine.go:634-659 | For a spec of the right types, of each type exactly the streams not in its own list are kept |
| `Removal.KeptStreamsVerify` | internal/engine/engine.go:759-827 | For every compacted spec that passes validate, an output of exactly the kept streams, about as long as the input and no smaller than the input without the estimated share of the removed streams, passes all of verify and, without the override, has audio if the input had |
| `Removal.AcceptedKeepsTheRest` | internal/engine/engine.go:759-774 | Conversely: an output verify accepts for a validated compacted spec has, of each media type, as many streams as a removal of exactly the spec leaves |
| `Removal.AcceptedIsPlausible` | internal/engine/engine.go:775-809 | And its duration is off by at most one percent or two seconds, never by more than a minute; its size is at least a tenth of the input's and seven tenths of what the estimate leaves |
| `Removal.EstimateIsClose` | internal/engine/engine.go:822-830 | The estimate of the removed bytes is the sum of the known bit rates over the duration, but for less than a byte a stream |
| `Batch.MatchLang` | internal/api/server.go:1219-1229 | A missing language counts as "und"; matching ignores case |
| `Batch.ResolveBatch` | internal/api/server.go:1233-1255 | The plan lists the unwanted streams of each type, and drops the audio list exactly when it would be all of them |
| `Batch.BatchPlanIsSafe` | internal/api/server.go:1247-1250 | On a file with video every plan passes validate without the last-audio override, leaves audio if there was some, and the kept streams pass verify |
| `Batch.PlanRemovesTheUnwanted` | internal/api/server.go:1233-1255 | A stream is in the plan exactly when the request does not want it, except that audio is spared altogether rather than removed entirely |
| `Batch.PlannedAudio` | internal/api/server.go:1233-1250 | An audio stream is in the plan exactly when the keep-list, if there is one, does not list its language, or otherwise the remove-list does, and that is not so of all audio streams |
| `Batch.PlannedSubtitles` | internal/api/server.go:1251-1255 | A subtitle stream is in the plan exactly when all are to go or its language is listed |
| `Backends.MkvmergeArgs` | internal/engine/engine.go:683-709 | Keep-lists by track id per type, or the option for none, then the guarded input path; what the words mean is proved below |
| `Backends.FfmpegArgs` | internal/engine/engine.go:711-740 | One negative map per removed stream by its position within its type, sorted as strings |
| `Backends.Engine.BuildArgs` | internal/engine/engine.go:663-680 | mkvmerge is picked exactly for Matroska with the tool present and every audio and subtitle id known; otherwise ffmpeg, or no tool at all |
| `BackendTheorems.MkvReads` | internal/engine/engine.go:683-757 | mkvmerge reads its command line as the intended selections, output and single input, for every path and spec |
| `BackendTheorems.FfReads` | internal/engine/engine.go:711-757 | ffmpeg reads its command line as everything mapped but the removed streams and one output, exactly when the cleaned directory of the media path, as tempPath uses it, does not begin with a dash |
| `BackendTheorems.FfCopies` | internal/engine/engine.go:735-740 | For every path and spec the command copies what is mapped, never encodes it again, names the format mp4 exactly for .mp4 and .m4v in any case, and replaces the empty temporary file |
| `BackendTheorems.AbsoluteIsSafe` | internal/engine/engine.go:970-976 | An absolute media path always meets that condition |
| `BackendTheorems.DashDirectory` | internal/engine/engine.go:970-976 | A relative media path such as ./-x/y.mkv never does, though SafePathArg guards the input: cleaning takes the leading dot off the temporary file's directory |
| `BackendTheorems.SafeIsFile` | internal/probe/probe.go:189-194 | A guarded path is read as a file name by both tools, whatever it begins with |
| `Backends.GuardedIsSame` | internal/probe/probe.go:189-194 | A guarded path still names the same file |
| `Backends.TempIsBeside` | internal/engine/engine.go:970-976 | The temporary file lies in the media file's own directory; its name is a dot, at most 200 characters of the file's name, the mark scans pass over, the random part and the file's extension |
| `BackendTheorems.FfKeepsTheRest` | internal/engine/engine.go:724-734 | ffmpeg keeps exactly the streams not removed, in container order, for any order and repetition of the negative maps |
| `BackendTheorems.FfWritesTheKept` | internal/engine/engine.go:711-740 | From the command line's words to the file: ffmpeg copies exactly the kept streams, of every kind, in container order, whether or not mkvmerge's ids are known; a command that did not copy would write none of them |
| `BackendTheorems.SortIsSorted` | internal/engine/engine.go:731 | The sorted negatives are a permutation of them, each a prefix of the next or smaller where they first differ |
| `BackendTheorems.MkvKeepsTheRest` | internal/engine/engine.go:685-707 | With exactly aligned distinct ids mkvmerge copies, of each type, exactly the tracks of the kept streams |
| `BackendTheorems.BackendsAgree` | internal/engine/engine.go:661-740 | Both backends write the same streams, type by type and in order, for every spec of the right types |
| `BackendTheorems.MkvmergeOnlyWhenExact` | internal/engine/engine.go:663-680 | For a non-empty validated spec the ids count as known exactly when mkvmerge's tracks align with the streams |
| `BackendTheorems.RemovalIsExact` | internal/engine/engine.go:517-588 | From probe to command line: whichever tool is picked, the streams written of each media type are, by their ffprobe indexes and in order, exactly the kept ones; for ffmpeg under the condition on the directory, for mkvmerge always |
| `Reorder.CheckOrder` | internal/engine/engine.go:240-272 | Accepts exactly the orders of the right length, without duplicates, of known streams with a track id |
| `Reorder.AcceptRequest` | internal/api/server.go:1055-1111 | The API accepts exactly the orders of 1 to 1000 entries on a Matroska file that the same checks accept |
| `Reorder.TrackOrder` | internal/engine/engine.go:217-279 | The engine emits a --track-order value exactly for the accepted non-empty orders, and the value, split and read as pairs, names at each position the track of the stream the order has there |
| `Reorder.ApiThenEngine` | internal/api/server.go:1080-1111 | An order the API accepts is accepted by the engine on the same probe |
| `Reorder.AcceptedIsPermutation` | internal/engine/engine.go:246-272 | The checks accept exactly the permutations of the indexes of all streams mkvmerge can see |
| `Reorder.OrderIsPermutationOfIds` | internal/engine/engine.go:274-279 | The emitted ids are a permutation of the ids of the visible streams |
| `Reorder.OrderNamesEveryTrack` | internal/engine/engine.go:246-279 | On an aligned file an accepted order names every video, audio and subtitle track exactly once |
| `Reorder.OrderReadsBack` | internal/engine/engine.go:274-279 | Split at commas and colons the value gives back exactly the pairs of file 0 and track id |
| `Search.SearchIsContains` | internal/store/store.go:421-425 | For every query and text: LIKE with the escaped query between percent signs holds exactly when the text contains the query, up to ASCII case |
| `Search.EscapedMatchesItself` | internal/store/store.go:827-829 | The escaped query alone matches only the query: none of its characters is a wildcard |
| `Paths.PathAllowed` | internal/api/security.go:115-122 | Allowed exactly when some root contains the path |
| `Paths.PathWithin` | internal/engine/engine.go:471-479 | Within exactly when some root contains the path |
| `Paths.ApiIsInside` | internal/api/security.go:110-113 | filepath.Rel does not climb exactly when the root's components are a prefix of the path's, also for names that begin with two dots |
| `Paths.TestsAgree` | internal/store/store.go:339-350 | The API's, the engine's, the out-of-root prune's and the policy join's condition all mean component-prefix containment, for every clean absolute path and root including "/" |
| `Paths.DeepestLibraryWins` | internal/store/store.go:595-601 | The row with the longest path is the deepest library that contains the file, and there is none only if no library does |
| `Paths.DeepestPolicyDecides` | internal/store/store.go:595-601 | The hardlink policy that applies is that of the deepest containing library |
| `Sidecars.MatchSidecar` | internal/scan/sidecar.go:37-63 | A name matches exactly when it is base, dot, tokens and a subtitle extension; hi and forced say whether some token is such a flag, and lang is the first token that is a language and not a flag |
| `Sidecars.CollectSidecars` | internal/scan/scanner.go:253-282 | A video's sidecars are the listed names that match its base and no longer video base of the directory |
| `Sidecars.OwnerIsLongest` | internal/scan/scanner.go:253-261 | A matching video base owns a name exactly when no matching base is longer |
| `Sidecars.ExactlyOneOwner` | internal/scan/scanner.go:253-282 | Every subtitle name that some video base matches is owned by exactly one base |
| `Sidecars.CollectedOnce` | internal/scan/scanner.go:250-282 | Over a whole directory each matched subtitle is collected for that base and for no other |
| `Sidecars.CollectedAreDeletable` | internal/scan/sidecar.go:20-48 | A name that begins with a video's base and a dot is collected as its sidecar exactly if the engine takes it for a subtitle, which it may delete: the two extension tables and ways of reading a name agree |
| `Sidecars.LangTokens` | internal/scan/sidecar.go:25 | A language token is two or three letters, or those, a hyphen and two to four letters |
| `Catalogue.MediaStore.GetFileByPathMeta` | internal/store/store.go:259-267 | No row is reported only when no row has the path |
| `Catalogue.MediaStore.UpsertMediaFile` | internal/store/store.go:269-289 | Writes the row of that path, keeping its id, or inserts one with the next id; the stamp never goes down |
| `Catalogue.MediaStore.TouchFilesBulk` | internal/store/store.go:300-328 | Batches of 500 in one transaction are one update of all listed rows, or none on an error |
| `Catalogue.MediaStore.PruneFiles` | internal/store/store.go:331-337 | Deletes exactly the library's rows stamped before the scan |
| `Catalogue.UpsertKeepsPathsUnique` | internal/store/store.go:274-285 | The upsert leaves one row per path |
| `Scanner.LibraryScanner.ScanOne` | internal/scan/scanner.go:246-331 | Whatever fails, only this path's row is written, its stamp never falls, and a row the lookup found is stamped or its id is returned; there is an error exactly when a statement or the probe failed, and without one the row holds the file's size, mtime and probe |
| `Scanner.LibraryScanner.ScanVideos` | internal/scan/scanner.go:138-158 | After the loop no row is lost, and every row of a walked path is stamped or pending unless a lookup failed; the scan is incomplete exactly when the walk or a lookup failed; if nothing failed, every walked video has a row with its size, mtime, links, sidecars and probe |
| `Scanner.LibraryScanner.ScanLibrary` | internal/scan/scanner.go:138-218 | Every ending has its cause, and without failures the prune is skipped exactly when more than five old rows would go and above the ratio, or no video was found and rows exist. A completed prune leaves exactly the rows of walked videos, of other libraries, and stamped since, and reports the number of old rows inside the root that are gone; the endings before it take exactly this library's rows outside its root; a moved library loses nothing |
| `ScanProtocol.KeepInv` | internal/scan/scanner.go:138-331 | Every step of any interleaving of scans, refreshes, file changes, library changes and failures keeps the invariant |
| `ScanProtocol.PruneSparesFound` | internal/scan/scanner.go:209-212 | In every run a scan's prune deletes no row its own lookup found, no row with a stamp of its start or later, and no row of a walked video that was there when its walk ended |
| `ScanProtocol.SweepDeletesExactly` | internal/store/store.go:339-350 | Exactly which rows a sweep deletes in any run, whatever their stamps: of the library's rows last written by a call that began under the scan's own root only those of a refresh asked for a path outside it, and of the others those outside that root; none of them was found by the scan |
| `ScanProtocol.RowsLieInside` | internal/scan/scanner.go:311-331 | In every run a row lies inside its library's configured root, unless the call that last wrote it began under another root or was a refresh of a path outside |
| `ScanProtocol.SweepsDeleteNothing` | internal/scan/scanner.go:174-178 | In every run in which a library keeps one root and is asked for no refresh outside it, no sweep of the library deletes a row, however scans and refreshes interleave |
| `ScanProtocol.ChangedLibraryIsEmpty` | internal/store/store.go:160-181 | A library that is removed or given another path has no rows after that, and no other library loses one |
| `ScanProtocol.SweepTakesALaterRow` | internal/scan/scanner.go:160-178 | A concrete run in which that removal deletes a row a later scan has just stamped: the library's path changed after the GetLibrary check |
| `ScanProtocol.SweepTakesALateRefresh` | internal/scan/scanner.go:160-178 | A concrete run in which the library has the scan's root at GetLibrary and at the delete, and the sweep still takes a row with a later stamp: a refresh that began before the library moved wrote it |
| `ScanProtocol.StampsNeverFall` | internal/store/store.go:284 | scanned_at of a row never decreases between any two moments of any run |
| `ScanProtocol.CacheAgrees` | internal/scan/scanner.go:287-304 | Whenever a row's size and mtime are the file's current ones, its stored probe is the probe of the current contents |
| `ScanResults.VisitedIsCurrent` | internal/scan/scanner.go:246-331 | Over any run, once a scan is done with a walked video the catalogue has a row for it with the size and mtime the file has and the probe of its contents, whatever row it had before, unless a lookup, probe or upsert for it failed, the file changed, or another call took the row away again |
| `ScanResults.VisitCompletes` | internal/scan/scanner.go:246-331 | From any point of the visit the call alone can finish it, in at most four steps none of which fails, and the file's row is then current |
| `Watch.NoDebtIsLost` | internal/watch/monitor.go:136-224 | After any run a configured library that is owed a rescan has a timer or fire of a live watcher, an enqueue call, a catch-up flag, a queued scan, a broken watcher still to be replaced, or Reconcile midway, unless some step of the run took the only one it had: a failing enqueue, a withdrawn queued scan, or a pass giving up the watcher of a removed library whose id the library had been given meanwhile |
| `WatchProgress.ServedExactly` | internal/watch/monitor.go:132-224 | For every reachable state and held debt: timers, fire, enqueue and Reconcile alone can reach a queued scan of the library exactly if a live timer, a fire, a call or a queued scan holds the debt, or the pass under way listed it as watched and is not past it, or it is watched and was not added with a used id since that pass listed the libraries |
| `WatchProgress.UnwatchedFlagIsStuck` | internal/watch/monitor.go:156-189 | A concrete run: a change is seen, watching is switched off, Reconcile stops the watcher and sets the flag; the debt is held by the flag and no run of those steps serves it |
| `WatchProgress.FinishPass` | internal/watch/monitor.go:136-224 | From any point of Reconcile the pass can be completed; each library it wants watched and is not past ends with a registered, sound watcher and no flag, and no library it does not want watched has a watcher |
| `Watch.LosesExactly` | internal/watch/monitor.go:136-176 | In the state before the step: a step leaves an owed library without a holder exactly when it is a database failure in the last enqueue call for it, or a cancel or delete of the last queued scan that covers it, or when the library was added with a used id after the pass under way had listed the libraries and the pass drops the old watcher and flag, stops the only one still to trigger, or that one dies |
| `Watch.CleanRunKeepsDebts` | internal/watch/monitor.go:136-224 | A run in which enqueue never fails, no queued scan is cancelled or deleted and no library id is given out twice keeps a holder for every debt |
| `Watch.FailedEnqueueForgets` | cmd/muxprune/main.go:92-101 | A concrete run in which one database failure in enqueue forgets a change that schedule() saw |
| `Watch.ReusedIdForgets` | internal/store/store.go:38-39 | A concrete run without any failure: a library is removed, a pass lists the others, a new library gets its id, the old watcher sees a change, and the pass stops it without a flag; nothing holds the debt |
| `Watch.OwnStep` | internal/watch/watcher.go:241-259 | A step of a live watcher keeps its pending trigger, hands it to enqueue, or leaves the watcher broken, also when Reset races an expired timer |
| `Watch.ChangedByReconcile` | internal/watch/watcher.go:88-99 | Reconcile stops a pending timer only of a library that is flagged or in its hands |
| `Monitor.LibWatcher.Schedule` | internal/watch/watcher.go:241-249 | Afterwards the field's timer is armed, whether it was reset or started |
| `Monitor.LibWatcher.Fire` | internal/watch/watcher.go:251-259 | Forgets the timer in the field, armed or not, and triggers exactly when the watcher is neither stopped nor dead |
| `Monitor.LibWatcher.Stop` | internal/watch/watcher.go:88-99 | The field's timer will not fire and the context is cancelled; earlier orphans and fires stay outstanding |
| `Monitor.WatchMonitor.DropUnwanted` | internal/watch/monitor.go:156-173 | Takes out, and hands over for stopping, exactly the watchers no longer wanted where they are, flags their libraries if still listed, and drops the flags and statuses of libraries that are not |
| `Monitor.WatchMonitor.Visit` | internal/watch/monitor.go:178-223 | A broken watcher is stopped and replaced; the flag is passed to the new watcher's timer, or stays when the start fails; the library's status tells which |
| `Monitor.WatchMonitor.Reconcile` | internal/watch/monitor.go:136-224 | Afterwards every owed library is flagged or has an armed timer, registered watchers are wanted, alive and on their root, sound ones are untouched, and all others and no more have been stopped; if every start succeeded every library to be watched has its watcher, and those owed a rescan have a timer armed and no flag; each listed library has the status that says so, and no other has a watcher, a flag or a status |
| `ScanQueue.Queue.IsScanQueued` | internal/store/store.go:607-643 | True exactly when a queued scan of everything or of this library exists |
| `ScanQueue.Queue.Enqueue` | cmd/muxprune/main.go:89-102 | Without a database error a configured library gets a scan exactly when no queued scan covered it; an error is reported exactly when a statement failed |
| `Rewrite.ReplaceOriginal` | internal/engine/engine.go:608-632 | If at the identity check the path is gone or its inode, size or modification time is not the examined file's, the answer is Changed and the path is kept; without a failing call that is the only error; on success the whole output lay synced beside the path at the check, and the last step renames it |
| `Rewrite.Verify` | internal/engine/engine.go:481-514 | Only an output that passes the counts, duration and, but for a merge, size checks against the input's probe is accepted, for removal, reorder and merge |
| `Rewrite.MakeOutput` | internal/engine/engine.go:558-580 | A verified temporary file, made under a name that did not exist, with the path untouched throughout; after any error but that of creating it the file is there |
| `Rewrite.TempPath` | internal/engine/engine.go:970-976 | An error leaves no file if creating it failed, and the empty file if only closing it did |
| `Rewrite.Rewrite` | internal/engine/engine.go:517-588 | A failure means no step of ours ever changed the path, and the temporary file is gone except exactly when closing it in tempPath or removing it failed, and which of the two; when no call failed each error names its cause (`Blamed`); success means the input was probed at one recorded moment, the identity check held at a later one, and the last step is the rename of a verified and synced output; BytesSaved is the size difference, never negative for reorder and merge |
| `Rewrite.CompletedRewrite` | internal/engine/engine.go:481-588 | What a completed rewrite put at the path, told by the two probes: of each media type as many streams as the removal leaves, the reorder found, or at least as many after a merge; the duration within two seconds or one percent and never off by a minute; the size at least a tenth, and seven tenths of what is left |
| `Rewrite.CrashSafe` | internal/engine/engine.go:597-632 | At every state of a successful rewrite the path holds what it held before, or what another program put there since, or, in the last state only, a whole verified output |
| `Disk.HeldOrPut` | internal/engine/engine.go:597-632 | The same for a failed one, at every state: what it held before or what another program put there |
| `Rewrite.VerifiedAgainstTheOriginal` | internal/engine/engine.go:517-632 | If inode, size and mtime tell the path's versions apart and no version comes back, the probe the output was verified against is that of the very file that was there when the rewrite began and at the identity check |
| `Rewrite.OverwritesOnlyLateWrites` | internal/engine/engine.go:608-632 | The rename overwrites another version than the examined one exactly when another program put one there after the identity check: a replacement before it is never lost |
| `RecycleNames.CandidatesDiffer` | internal/engine/engine.go:917-923 | The names uniqueDst tries are all different |
| `RecycleNames.TriedNames` | internal/engine/engine.go:918-923 | A directory cannot hold more of them than it has entries |
| `RecycleNames.ChosenName` | internal/engine/engine.go:913-924 | A subtitle is recycled under a name that os.Stat does not find, that is again a subtitle's, and that is an entry of the recycle directory itself |
| `Recycle.Recycler.UniqueDst` | internal/engine/engine.go:913-924 | Ends on every finite directory with the first candidate that os.Stat does not find |
| `Recycle.InUseExactly` | internal/engine/engine.go:913-924 | The returned name is in use exactly when the names before it are found and it belongs to an entry on which os.Stat fails, which is a link; a regular file's name is never returned |
| `Recycle.Recycler.MoveFile` | internal/engine/engine.go:926-959 | At every state the source, link or file, is where it was or all of it is at the destination, the destination never holds part of it, nothing else but the part file changes, and an error leaves the source in place; os.Rename moves a link as it is, the copy takes what it leads to; if no call fails the only error is that the source is gone |
| `RecycleNames.PartIsNoSubtitle` | internal/engine/engine.go:935 | A part file's name is never that of a recycled subtitle |
| `Recycle.Recycler.MoveToRecycle` | internal/engine/engine.go:850-858 | The part under recycleMu, also if another call has taken the file or what it leads to since it was checked: nothing but the source and uniqueDst's name changes |
| `Recycle.Recycler.OtherCalls` | internal/engine/engine.go:833-866 | Any number of other calls run their locked parts in between, whatever links they move: with a recycle directory no regular file's contents are off the disk at any state |
| `Recycle.Recycler.DeleteSidecar` | internal/engine/engine.go:833-866 | With any other calls between the checks and the lock: the entries end as after those calls and at most one change of this one, of a subtitle found at the check that is still there; the checks answer exactly, and if no call to the system fails the file is recycled or deleted exactly if no other call has taken it; a failure changes nothing, unless only the removal of the copied source failed; when recycling, no regular file's contents are off the disk at any state |
| `RecycleTheorems.RecyclingConserves` | internal/engine/engine.go:846-860 | If every link in the recycle directory and among the files to be deleted leads, from that directory, to a regular file and past none of those, then any calls about them, in any order and at any times, replace no entry: the directory gains exactly one for each success or copy, and every old and new entry stays until a call about it |
| `RecycleTheorems.SafeExactly` | internal/engine/engine.go:846-924 | The condition is exact, in terms of the files before the calls: a set of subtitles can be recycled beside any one further regular file without an entry being replaced, in every run, if and only if every link among them leads, from the recycle directory, to a regular file and past none of them |
| `RecycleTheorems.TwoBecomeOne` | internal/engine/engine.go:913-930 | Two subtitles of the same name deleted in one second, the first a link that leads nowhere from the empty recycle directory: both calls succeed and one entry is left |
| `RecycleTheorems.NamesakesBecomeOne` | internal/engine/engine.go:833-858 | That happens with every relative link to a file beside it: both subtitles pass the check, and no entry led nowhere before |
| `RecycleTheorems.LinkIsReplaced` | internal/engine/engine.go:913-924 | A link already in the recycle directory that leads nowhere and has the first name is replaced, for every subtitle |
| `Links.NoReturn` | internal/engine/engine.go:919 | A chain of links that ends in a regular file never comes back to where it started, so a moved link cannot depend on itself |
| `RecycleTheorems.KeptUntilTaken` | internal/engine/engine.go:846-866 | Over any calls whatever an entry stays as it is until a call about that very file, except that a link, never a regular file, can be replaced at a moment when it leads nowhere |
| `RecycleTheorems.EachIsKept` | internal/engine/engine.go:846-860 | What a call put into the recycle directory is there at the end, unless a later call was about it, or it is a link and was replaced while it led nowhere |

## Left out

- Text.ToLower: folds ASCII letters only; Go's ToLower and EqualFold also fold other letters. Languages, codecs and extensions in use are ASCII.
- Text.Ext: strings are sequences of characters, where Go's are bytes; Text.Base is for paths that do not end in a slash.
- Backends.TempPath: a star in the file's extension, which os.CreateTemp would take for the place of the random part, is not modelled.
- Removal.Verify: durations and the size floor are computed over real numbers, without floating-point rounding or 64-bit overflow.
- Monitor.WatchMonitor.Reconcile: keeps its watchers as values, so aliasing between the monitor and a watcher's own goroutines shows only in `Watch`; the global watch setting and isLocalFS are one flag, whether a new watcher is degraded is left open, and the statuses a watcher's own goroutine reports are not part of it; the watchers are values of `Watch`, not objects of `LibWatcher`.
- Monitor.LibWatcher.Fire: the separate reads of the context and of dead are one step.
- Watch.NoDebtIsLost: a schedule() on a watcher that Reconcile has already stopped is no new debt, since the replacement sees later events and its catch-up scan covers earlier ones; debts held only in memory end with the process.
- Watch.State: shouldWatch gives one answer for a library throughout one pass of Reconcile.
- WatchProgress.ServedExactly: says that a run to a queued scan exists, not that the scheduler takes it; starting a watcher is assumed to succeed on it, and scans at an interval (tick) or asked for by the user are not among its steps.
- Scanner.LibraryScanner.ScanLibrary: starts after the directory walk, whose result and errors are parameters; the sidecars table and title parsing are not modelled, and a cancelled context ends a scan only in `ScanProtocol`.
- ScanProtocol.PruneSparesFound: the guards on zero videos and on the ratio are a free choice to stop there; `Scanner` models them.
- Sidecars.CollectSidecars: ownership is among the names of a listing; a name that owns a subtitle may itself not be scanned, such as a broken link.
- Rewrite.Rewrite: symlinks, hardlinks, free space and the argument checks are one refusal; owner and mode of the file are not modelled; partial writes of the temporary file are one step.
- Recycle.Recycler.MoveFile: no other program touches the source or the destination during a move, and names are characters of one byte.
- Recycle.Target: links are followed by name, with ".." worked off in the name; links between directories, and links into a part file, are not modelled, and the system's limit of links on the way is a parameter.
- Recycle.Recycler.DeleteSidecar: the time stamp is a parameter, and creating the recycle directory is a free choice to fail.
- RecycleTheorems.SafeExactly: assumes that the links already in the recycle directory last; for those `InUseExactly` gives the condition of each call.
- JobTable.Store.CreateJob: records the catalogue row as it is at the INSERT, which may be newer than the one the API's handler compared with the user's selection just before; that comparison is not modelled.
- CancelRegistry.Final: clampLog's shortening of the log is left out.
- startQueueOwner as a loop: retrying the lock is a step that stays possible; the five-second wait and the notices are not modelled. On systems without flock the lock always succeeds, and nothing here applies to two processes there.
- JSON of payloads and probes, SQLite itself (migrations, settings, statistics, sorting and paging), integer overflow of ids, and LIKE's length limit.
- resolveBatch's sidecar lists, EditMetadata's argument list, MergeTracks' input checks, PurgeRecycle and dueForScan: each is a plain filter or a single comparison.
- HTTP handlers, authentication, rate limiting, the MCP server, the web UI and the command line.
- ffprobe, mkvmerge, ffmpeg and mkvpropedit processes beyond the reading of their arguments.
