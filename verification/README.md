# Vivado server: verified model

This project models the parts of the Vivado build server that decide whether a client can trust
what it gets back: the synchronization of a project tree, the durable clean marker and the life
of a workflow, the durable history journal, the terminal output of a session, its archive, and the
supervisor that owns the session's process. Everything is proved for all inputs, all runs and, where
several tasks interleave, for every order of their steps.

`dafny verify dfyconfig.toml` checks the whole project.

## How it is organised

Code that computes a value is a function with lemmas about it. Code that changes state step by step
is a class or a method, proved against a specification that does not mention its body. Outside
effects are made explicit:

* The file system (`FileTree.FileSystem`) is a map from slash-joined paths to nodes. Every call may
  fail for reasons of its own; a ghost counter `faults` counts those failures, so that a theorem can
  say "without a failing system call there is no other outcome" as well as "whatever fails, ...".
* A concurrent protocol (`Journal`, `Workflow`, `PushSession`, `Archive`, `Supervisor`) is a class
  with one method for each step that a task takes under its locks. Every step keeps the invariant
  `Valid()`, and a method `Run` or `RunAndKill` executes any sequence of steps.
* A digest stands for the content it was computed from. Identifiers are numbers, and fresh names do
  not clash with existing ones. Clocks are arbitrary values handed in.
* A session process is a set of live group members that may fork and die; a kill stops the forking.

| file | what it holds |
|---|---|
| `Collections.dfy` | small facts about sequences and maps |
| `Paths.dfy`, `FileTree.dfy` | paths, the tree, rename of a subtree, the system calls |
| `Transaction.dfy` | the undo log and its rollback |
| `PathSort.dfy`, `Manifest.dfy`, `Scan.dfy` | the two sort orders, modification times, parent closure, filters, the pruned scan, client manifests |
| `Plan.dfy`, `Commit.dfy`, `Apply.dfy`, `Push.dfy` | the push plan, its application, settlement, and what the two together deliver |
| `Reset.dfy`, `PushSession.dfy` | full replacement, and the life of a push plan |
| `Utf8.dfy`, `OutputRing.dfy` | streaming UTF-8 decoding, the bounded output buffer |
| `Gaps.dfy`, `HistoryReader.dfy`, `Journal.dfy`, `Retention.dfy`, `Recovery.dfy` | the history journal: its protocol, what is retained, and what a restart makes of it |
| `Durable.dfy` | the bytes of the journal file under writes that fail, and going on after a crash |
| `SampleCodec.dfy` | a codec that meets what is asked of the journal's, so that it can be met |
| `Workflow.dfy`, `Engine.dfy` | workflow lifecycle and the clean marker; what the commit engine's answer says of the tree |
| `Outcomes.dfy` | what whole paths through a workflow come to: a build, a failed session, a refused commit, a cleanup |
| `Archive.dfy`, `ArchiveQuota.dfy` | the terminal archive and its disk budget |
| `Supervisor.dfy` | input delivery, process-group shutdown, slot release |

## What turned out not to hold

Each of these is shown on one concrete input, next to the exact condition under which the code does
what it promises.

* A modification time of exactly the least 64-bit value does not survive being written and read back
  (`Manifest.MtimeRoundTrip`), so planning the same push again asks for such a file again (`Push.Replan`),
  and a complete replacement with such a time is always refused (`Reset.LeastTimeRefused`; with everything
  staged, `Reset.ApplyReset` succeeds exactly when no time is that one).
* An include filter can make a push fail for ever: a directory that exists but holds nothing the filter
  selects is not scanned, is planned as new, and then fails the baseline check
  (`Push.IncludeFilterCollision`; the condition for success is in `Push.CommitPush`).
* A crash can leave a number neither readable nor in a gap. Every number is accounted for after it exactly
  when each number up to the persisted cursor is still readable or in a persisted gap, and each one between
  that cursor and the last durable event is an event or in such a gap (`Recovery.CoverageAfterCrash`). The
  second part fails when the crash comes between the write of a batch and the persisting of a loss reported
  with it (`Recovery.LossForgotten`). The first holds when no failed write was left undone, and then the
  second alone decides (`Recovery.CoverageDuringAppend`); it fails for a number that was written after what a
  failed write left (`Durable.LostAfterTear`).
* A number that was never lost can be reported lost: beyond 128 gaps the two oldest become one, with what is
  between them (`Gaps.OldestJoined`). Recording a loss reports nothing else exactly when no other number lies
  between two gaps that become one (`Gaps.AddGapExact`).
* A session share smaller than one output chunk lets a restart retain an event that memory had given up
  (`Retention.ShareMustHoldAChunk`, a run of the writer with a share of one byte). The configuration
  accepts such a share. A restart agrees with memory exactly when every trimmed session still has its
  window (`Retention.AgreesExactly`); pruning keeps that exactly when each such session still has a
  retained event (`Retention.PruneExactly`); and it is always so while no chunk exceeds its share
  (`Retention.Writer.Append`).
* A failed write that cannot be undone leaves a torn record in the journal, and messages that are already
  queued are still written after it: they are readable until the restart and gone then
  (`Durable.LostAfterTear`, a run of the writer). What follows a failed write is read back exactly when it
  left nothing (`Recovery.LaterReadBack`). For the reader: while every failed write was undone or left
  nothing, a restart is no change at all as far as the windows are kept (`Durable.Run`, `Durable.Restart`);
  and after a write that failed with memory in agreement and nothing made to go, the restart retains what
  memory retains exactly when nothing was left, or whole records while memory was empty, until a rewrite of
  the journal heals it (`Durable.AfterFailedWrite`).

## Model

| member | source | states |
|---|---|---|
| FileTree.RenameInverse | src/sync/transaction.rs:256-267 | moving a subtree to a free path and back leaves every path as it was |
| FileTree.RenamedGet | src/sync/transaction.rs:108-112 | what rename leaves at every path of the tree, inside and outside both subtrees |
| FileTree.RenameMeaning | src/sync/transaction.rs:108-112 | a rename that the kernel allows replaces at most one file by a file, or one empty directory by a directory |
| FileTree.RenamedWellFormed | src/sync/transaction.rs:108-112 | a rename that the kernel allows keeps every entry below directories only |
| FileTree.StatMeaning | src/sync/transaction.rs:83-106 | a path is reported missing exactly if it is not there and no file is in its way |
| Transaction.CommitTransaction.CreateDir | src/sync/transaction.rs:52-75 | an existing directory is left alone, a missing one is made and recorded so that the log still undoes to the start; the error says which of the two failed, and without a fault there is no error |
| Transaction.CommitTransaction.Backup | src/sync/transaction.rs:230-236 | moves a target to a fresh backup name; on failure nothing changed |
| Transaction.CommitTransaction.KeepOld | src/sync/transaction.rs:83-106 | a target of the right kind is kept aside and recorded before anything replaces it; a missing one is no error; another kind is a conflict |
| Transaction.CommitTransaction.InstallFile | src/sync/transaction.rs:77-123 | the staged file replaces what is at the target, the log still undoes to the start, whichever of the two renames fails |
| Transaction.CommitTransaction.ReplaceProject | src/sync/transaction.rs:125-168 | the staged tree takes the place of the whole project, the log still undoes to the start |
| Transaction.CommitTransaction.DeleteFile | src/sync/transaction.rs:170-190 | the file is gone and can be brought back; a missing one is reported as such; a directory is a conflict |
| Transaction.CommitTransaction.DeleteEmptyDir | src/sync/transaction.rs:192-228 | only an empty directory goes, and it can be brought back |
| Transaction.CommitTransaction.UndoOne | src/sync/transaction.rs:241-269 | undoing one recorded change restores the tree before it, or a system call failed |
| Transaction.CommitTransaction.ClearTarget | src/sync/transaction.rs:299-315 | an absent target needs no removal and nothing else is touched |
| Transaction.CommitTransaction.Rollback | src/sync/transaction.rs:238-284 | success means the starting tree is back, up to attributes of staged files; only a failing system call prevents success |
| Transaction.UndoableKeepsSame | src/sync/transaction.rs:238-284 | the whole undo log still leads back to the start after attributes of staged files changed |
| Transaction.InstalledUndone | src/sync/transaction.rs:251-268 | undoing an installation over a kept target restores both the target and the staged file |
| Transaction.AttributesUndone | src/sync.rs:881-892 | setting attributes of the file installed last does not disturb the undo log |
| Transaction.RunAndRollBack | src/sync/transaction.rs:52-284 | for every sequence of transaction calls with failures anywhere inside, a successful rollback restores the starting tree |
| PathSort.AncestorOrder | src/sync/files.rs:850-864 | in the name order a directory comes before its contents, in the deepest-first order after them |
| PathSort.LexMeaning | src/sync/files.rs:850-864 | in the order of names a prefix comes first, and otherwise the first difference decides |
| PathSort.DepthCounts | src/sync/files.rs:855-864 | the depth is the number of slashes |
| PathSort.BeforeIsStrictOrder | src/sync/files.rs:850-864 | both comparison functions are strict total orders |
| PathSort.SortedUnique | src/sync/files.rs:850-864 | a sorted list without duplicates is determined by its members |
| PathSort.SortPaths | src/sync/files.rs:850-864 | sorting and deduplicating keeps exactly the members, in strict order |
| Manifest.MtimeRoundTrip | src/sync/files.rs:676-693 | a 64-bit millisecond time survives being written and read back if and only if it is not the least one |
| Manifest.TimeIsCut | src/sync/files.rs:843-848 | a time is read back in whole milliseconds, cut towards the epoch, and held within 64 bits |
| Manifest.ParentPaths | src/sync/files.rs:335-344 | exactly the proper ancestors of a path, outermost first |
| Manifest.LeastClosure | src/sync/files.rs:294-333 | adding every parent yields the least parent-closed superset |
| Manifest.SynthesizeParentDirs | src/sync/files.rs:294-333 | yields the parent closure with every old entry unchanged and no duplicate; fails exactly when a file is an ancestor of an entry or the closure exceeds the limit |
| Scan.DescendClosed | src/sync/files.rs:69-79 | a directory that is not descended into holds nothing that the filters accept |
| Scan.AcceptedUnlessSpared | src/sync/files.rs:69-79 | a path is accepted exactly when neither it nor an ancestor matches an exclude glob, no segment of it is the private directory, and an include glob matches it if there is one |
| Scan.SplitSegments | src/sync/files.rs:803-805 | splitting at slashes finds exactly the segments: what is between two slashes, or a slash and an end |
| Scan.Visit | src/sync/files.rs:107-182 | one step of the walk keeps: everything still reachable is below what is left to visit, and the list is exactly what is accepted among what was seen; it fails only for an unportable name, a file above the size limit, or too many entries |
| Scan.Walk | src/sync/files.rs:94-183 | the pruned walk lists exactly what filtering the whole tree would, and fails exactly for an accepted name that is not portable, an accepted file above the size limit, or too many entries |
| Scan.ScanManifest | src/sync/files.rs:82-198 | the scan is the parent closure of the accepted paths with what is on disk, sorted; it fails exactly for an unportable name, a file above the size limit, or a closure beyond the entry limit |
| Scan.ScanLimits | src/sync/files.rs:107-183 | a project can be scanned exactly if every path that nothing spares has a name that can be sent and no file above the limit, and they are not too many with their parents |
| Scan.ScannedFiles | src/sync/files.rs:82-198 | the files of a scan are exactly those on disk that no glob and no private segment spares |
| Scan.AcceptEntries | src/sync/files.rs:225-279 | a client manifest is accepted exactly when its paths are distinct and usable and its accepted files complete |
| Scan.ValidateClientManifest | src/sync/files.rs:200-292 | what the client listed and the filters accept, parents added; accepted exactly when complete, free of contradictions and within the limits |
| Scan.ScanIsAccepted | src/sync/files.rs:82-292 | a listing that could be scanned is accepted under the same filters and limits, and taken as what it is |
| Plan.PlanReplacement | src/sync.rs:388-405 | all files and directories below a directory that a file replaces, and the directory itself |
| Plan.DeletionsOf | src/sync.rs:367-420 | the deletion lists are the union of what each client entry calls for |
| Plan.CreatePlan | src/sync.rs:357-423 | uploads, new directories and deletions are exactly those that the two listings call for, in the order in which they are applied |
| Commit.DeleteFiles | src/sync.rs:858-867 | exactly the listed files are gone, the response lists those that were there |
| Commit.DeeperGone | src/sync/files.rs:855-864 | when a directory's turn comes everything below it is gone, unless the tree holds something the plan does not know |
| Commit.DeleteDirs | src/sync.rs:868-875 | the listed directories go deepest first; it succeeds without faults exactly when nothing unlisted is below them |
| Commit.CreateDirs | src/sync.rs:876-880 | the listed directories are made, parents first; nothing but a deleted file gives way |
| Commit.InstallUploads | src/sync.rs:881-892 | every staged upload ends at its place with the attributes of the manifest |
| Commit.AppliedFrom | src/sync.rs:854-902 | the phases together leave at every path of the project what the plan says |
| Commit.RunOperations | src/sync.rs:854-902 | success: every path is as the plan says, and the root was usable; an error without a fault only for a tree that the plan does not fit |
| Apply.VerifyStaged | src/sync.rs:803-826 | passes only when every upload is staged with the content that was promised; without a fault the error names what is wrong with some upload: missing, no file, or other content |
| Apply.CheckBaseline | src/sync/files.rs:603-674 | passes exactly when every path the plan touches is still what the plan was made from, faults aside; what was scanned is still there whatever fails; anything but a conflict is reported only after a fault |
| Apply.SettleTransaction | src/sync.rs:1347-1377 | the original error is passed on only when the project is exactly as before and staged files are back |
| Apply.ApplyCommit | src/sync.rs:791-904 | committed: the plan is fully applied; an error other than a demand for a complete upload: the project is untouched; that demand only after a fault; and no error at all without one when baseline, staging and plan fit; without one a staged file that is wrong gives its own error, and a changed baseline a conflict |
| Push.ConflictFree | src/sync.rs:357-423 | for an unchanged tree the baseline holds and the plan fits if and only if the root is usable, no unscanned directory is in the way and nothing unscanned is below a directory that goes |
| Push.AppliedIsReady | src/sync.rs:830-892 | a plan that was fully applied to any tree that passed the baseline check was one that the tree had room for |
| Push.NoFiltersNoConflict | src/sync.rs:357-423 | without filters and internal names a commit of an unchanged tree never conflicts |
| Push.PlanThenApply | src/sync.rs:357-423 | after the commit every listed path is as the client lists it, every other path is gone exactly if it was extra or below a listed file, and unchanged otherwise |
| Push.Replan | src/sync.rs:357-423 | planning the same push again asks for nothing, except files whose time is the least 64-bit value |
| Push.FiltersProtectUnselected | src/sync.rs:340-423 | a file whose path or an ancestor is excluded by a glob, that has a private segment, or that no include glob selects, survives a successful commit unchanged, even across type replacement, and even if the project changed since it was planned |
| Push.PlanPush | src/sync.rs:340-423 | validation, scan and diff together give a plan of the client's listing against the tree, exactly when the manifest is accepted and the project can be scanned |
| Push.CommitPush | src/sync.rs:791-904 | on any project unselected files are kept and any ordinary error leaves project and staging alone; without a fault it succeeds exactly when the uploads are staged, the baseline holds and the plan fits; for an unchanged project it delivers the manifest and succeeds exactly under the three conditions of Push.ConflictFree |
| Push.DemoCollides | src/sync/files.rs:603-674 | the concrete plan that an include filter makes does not pass the baseline check of the very tree it was made from |
| Push.IncludeFilterCollision | src/sync.rs:827-850 | the commit of that plan is refused as a conflict, with everything staged and whatever else is in the workspace, and the project stays as it was |
| PushSession.SyncManager.CreatePlan | src/sync.rs:328-334 | a plan is created exactly when no other plan is open or committing |
| PushSession.SyncManager.Upload | src/sync.rs:627-673 | an upload counts exactly for an open plan that is in time, asked for it, and received it |
| PushSession.SyncManager.BeginCommit | src/sync.rs:698-727 | the commit engine is started exactly for an open plan in time with every upload, and once; a plan that is over answers with its stored result |
| PushSession.SyncManager.EndCommit | src/sync.rs:749-780 | the answer of the engine is the answer of every later request, and the slot is free |
| PushSession.SyncManager.Abort | src/sync.rs:1020-1058 | only an open plan is aborted; every other keeps its outcome |
| PushSession.SyncManager.Cleanup | src/sync.rs:1060-1112 | staging goes only when the plan is over; a failed removal is kept for later |
| PushSession.Run | src/sync.rs:693-790 | in every run at most one plan is active, no plan is applied twice, states only move on and an answer does not change until its result is pruned |
| Reset.ResetPlanIsComplete | src/sync.rs:348-408 | a replacement plan asks for the whole manifest and deletes nothing |
| Reset.PlanReset | src/sync.rs:335-423 | without filters a replacement is planned exactly for an accepted manifest, and the plan is the whole of it |
| Reset.CountDecides | src/sync.rs:939-951 | equal counts and one-way membership hold if and only if the scanned tree is the complete manifest |
| Reset.MakeDirAll | src/sync.rs:911-916 | makes the missing parents and the directory and nothing else |
| Reset.SetStagedAttributes | src/sync.rs:917-924 | every staged upload gets the attributes of the manifest, nothing else changes |
| Reset.CheckStaging | src/sync.rs:925-956 | passes only when staging holds exactly the manifest |
| Reset.HeldTimes | src/sync/files.rs:843-848 | a tree that is the manifest has no time of the least 64-bit value |
| Reset.LeastTimeRefused | src/sync.rs:939-952 | the concrete manifest that no replacement can install |
| Reset.ApplyReset | src/sync.rs:905-966 | success: the project is exactly the client's manifest and every old path is gone; an ordinary error leaves it alone; with the uploads staged and no fault it succeeds exactly when no modification time is the least 64-bit value |
| Utf8.HeadMeaning | src/session/output.rs:99-121 | the byte-range table agrees with the encodings: a character, the start of one, or a maximal subpart to replace |
| Utf8.LossyRoundTrip | src/session/output.rs:95-127 | decoding encoded text gives the text |
| Utf8.LossyMeaning | src/session/output.rs:95-127 | lossy decoding goes over the text and puts U+FFFD for each maximal part that is none |
| Utf8.DrainAppend | src/session/output.rs:96-123 | decoding in two reads with the pending bytes carried over is decoding in one |
| Utf8.DrainLossy | src/session/output.rs:95-127 | decoding what is complete and then flushing the rest is lossy decoding of the whole |
| Utf8.Utf8StreamDecoder.Push | src/session/output.rs:96-123 | emits exactly what can be decided and keeps at most three bytes, the start of a character |
| Utf8.Utf8StreamDecoder.Finish | src/session/output.rs:125-127 | the pending bytes become at most one replacement character |
| Utf8.DecodeStream | src/session/output.rs:95-127 | for every way of cutting a byte string into reads the result is lossy decoding of the whole string |
| OutputRing.Trim | src/session/output.rs:35-42 | an oversized text keeps its longest suffix that starts at a character and fits |
| OutputRing.BoundaryMeaning | src/session/output.rs:37-40 | the boundaries of encoded text are exactly where its characters end |
| OutputRing.BoundaryStartsText | src/session/output.rs:37-40 | text from a character boundary on is text |
| OutputRing.OutputBuffer.Push | src/session/output.rs:32-60 | the chunks stay contiguous up to the newest, within both limits, and no more is evicted than the limits ask for |
| OutputRing.OverrunMeaning | src/session/output.rs:68-72 | the overrun flag is set exactly when something since the cursor was evicted or trimmed |
| OutputRing.OutputBuffer.SinceCursor | src/session/output.rs:62-85 | without overrun the reply is every text since the cursor in full; what was cut is still text |
| OutputRing.Follow | src/session/output.rs:26-85 | a collector that follows the cursor from 0 without overrun rebuilds the whole stream |
| Gaps.AddGapCovers | src/history.rs:249-273 | recording a loss covers its numbers and uncovers none, through merging and the limit of 128 |
| Gaps.AddGapBounds | src/history.rs:249-273 | never more than 128 gaps, and none reaches beyond what was recorded |
| Gaps.AddGapExact | src/history.rs:249-273 | recording a loss reports those numbers and nothing else if and only if no other number lies between two gaps that become one |
| Gaps.OldestJoined | src/history.rs:265-272 | the concrete gaps after which a number that was never lost is reported lost |
| Gaps.AddGapMeaning | src/history.rs:249-273 | what is reported after a loss: what was reported before, the loss, and the numbers between two gaps that become one |
| Gaps.AddAllCovers | src/history.rs:948-960 | moving reported losses to the persisted state loses none |
| Gaps.AddAllExact | src/history.rs:948-960 | while there is room and losses of one reason come in order, exactly the recorded losses are reported |
| HistoryReader.OpenMeaning | src/history.rs:1071-1100 | a session or workflow is open after a series of events exactly if one of them starts it and no later one ends it, and what is kept of it is the last such start |
| HistoryReader.RetiredKeeps | src/history.rs:804-815 | giving up an event keeps its number, and every other, accounted for |
| HistoryReader.PageOf | src/history.rs:699-746 | a page is the longest run of events after the cursor within the limits, the cursor passes everything known only when none is left, a limit out of range is refused, and of a settled journal every number the cursor passes is in the page or in a gap of the page, and in the page if it does not say that the recording is partial |
| HistoryReader.PageAdvances | src/history.rs:711-730 | every page with something left moves the cursor strictly forward |
| HistoryReader.CollectAll | src/history.rs:699-746 | paging a quiet journal returns every retained event after the start once, ascending, and ends |
| Journal.Number | src/history.rs:544-563 | numbers are consecutive; an oversized event ends the message with all its numbers taken |
| Journal.Journal.Recovered | src/history.rs:433-447 | a process that found a journal gives out numbers from the recovered cursor on; a collector may still be following |
| Journal.Journal.Enter | src/history.rs:530-561 | a message is admitted exactly until the journal is stopped |
| Journal.Journal.Reserve | src/history.rs:544-561 | numbers given out are on their way or reported lost |
| Journal.Journal.Send | src/history.rs:562-595 | a message is queued exactly when queue, byte budget and writer allow it; otherwise all its numbers are reported lost |
| Journal.Journal.FailWrite | src/history.rs:926-1007 | a failed write reports the whole batch lost and changes nothing readable; if it cannot be undone the journal stops |
| Journal.Journal.InsertNext | src/history.rs:938-945 | an event becomes readable only above every cursor that a page has returned |
| Journal.Journal.EndInsert | src/history.rs:948-961 | after an append every number up to the cursor is readable or in a gap |
| Journal.Journal.Tick | src/history.rs:1013-1039 | after an idle tick every number up to the cursor is accounted for, and with an empty queue the cursor is the producer's |
| Journal.Journal.PassLosses | src/history.rs:1014-1036 | with nothing on its way the furthest gap or event is the newest number |
| Journal.Journal.Follow | src/history.rs:699-746 | a collector never has to go back: what it passed was given to it or is reported lost in the page it just received |
| Journal.Run | src/history.rs:530-1070 | from a new or a recovered journal, in every interleaving of producers, writer, collector and retention no number is forgotten or given out twice, and what becomes readable is above every earlier cursor of the collector |
| Journal.CatchUp | src/history.rs:1013-1046 | once a journal, new or recovered, is quiet a collector has been given, or told the loss of by the last page it received, every number ever given out |
| Retention.Writer.TrackTail | src/history.rs:784-817 | only the oldest tail events of the session go, no more than its share asks for, the newest included, and no output before the head's end; exactly those are reported lost; the index is what is retained; the windows that a restart needs are there |
| Retention.AgreesExactly | src/history.rs:381-394 | a restart judges every journal event as memory does if and only if every trimmed session still has its window |
| Retention.TrimKeepsCoherence | src/history.rs:799-815 | moving a session's window keeps what is retained from being judged retired, and retires what was given up |
| Retention.PruneKeepsCoherence | src/history.rs:843-852 | taking a prefix and dropping windows of sessions without retained events never retires a retained event |
| Retention.PruneExactly | src/history.rs:843-872 | after pruning a restart agrees with memory if and only if every trimmed session still has a retained event; a retained later event of each is enough |
| Retention.Writer.Prune | src/history.rs:818-873 | a prefix goes whose every event had expired or broke a limit, and only events that went are reported lost; afterwards the first event has not expired and count and bytes are within their limits; a restart still agrees exactly when no trimmed session was left without events |
| Retention.PruneTails | src/history.rs:855-868 | the tail index is cut back to exactly what is still retained |
| Retention.Writer.Compact | src/history.rs:874-897 | a rewritten journal is what memory retains, and a failure before the rename changes nothing |
| Retention.Writer.CompactIfLong | src/history.rs:962-967 | the journal is rewritten exactly when it exceeds the limit by half the slack or its retained part by the whole slack, and a success leaves it within both |
| Retention.Writer.Append | src/history.rs:937-968 | after any append a restart reads back exactly the events in memory if and only if every trimmed session has its window, and always if no output exceeds its session's share; bytes, count and age of the events and the length of the file are within their limits, nothing else appeared, a batch that makes nothing go is retained whole, no number is forgotten, nothing is reported lost but the losses handed in and the events that went, what is open is folded, and the file is rewritten exactly when it has grown too far |
| Retention.ReloadIsMemory | src/history.rs:381-394 | judging every journal event on reload gives the retained events if and only if the judgements agree |
| Retention.ShareMustHoldAChunk | src/history.rs:797-872 | the concrete run of the writer after which a restart disagrees because a session's share is smaller than a chunk |
| Recovery.ReadJournal | src/history.rs:345-396 | whatever bytes the file holds, the whole records before the first line that is none are replayed and the file is cut back to them; a record without a number, or whose data is no object, is refused |
| Recovery.ParseMeaning | src/history.rs:345-376 | the file is its records, one line each within the limit and with a number, and a rest that is empty, damaged if no line that is an event starts it, or refused if such a line cannot be used |
| Recovery.WholeRecords | src/history.rs:349-372 | a journal cut at any byte of an append holds exactly its whole records, and is damaged exactly if something of the torn one is left |
| Recovery.CutBack | src/history.rs:358-371 | a file cut back at its damage holds the same records and is whole |
| Recovery.LaterReadBack | src/history.rs:926-936 | what is written after a failed write is read back if and only if that left nothing in front of it |
| Recovery.CrashDuringAppend | src/history.rs:898-945 | a crash after any number of bytes of a batch: the next process has exactly what it would have had with the whole records of the batch appended |
| Recovery.Recover | src/history.rs:340-433 | the whole of recovery equals replay of the whole records followed by closing the gaps |
| Recovery.ReplayEvents | src/history.rs:349-396 | the recovered events are those of the journal that are not retired, with their bytes |
| Recovery.RecoveredEvents | src/history.rs:381-396 | an event of the journal is retained exactly if it is after the earliest cursor and, for output, not between the head and the tail window of its session |
| Recovery.ReplayLatest | src/history.rs:377-396 | whatever the journal holds, and in whatever order, of each number the last record that is not retired is readable |
| Recovery.OpenIsFold | src/history.rs:378-380 | the open sessions and workflows are those left open by all durable events, compacted away or not |
| Recovery.OpenAfterRecovery | src/history.rs:349-396 | after recovery a session or workflow is open exactly if it was started and not ended since among the durable events |
| Recovery.FreshNumbers | src/history.rs:399-433 | new numbers are above every durable event and every persisted gap |
| Recovery.RestartIsIdentity | src/history.rs:345-399 | a restart straight after a completed append is no change at all, if and only if it judges every event as memory does |
| Recovery.CoverageAfterCrash | src/history.rs:377-429 | after a crash every number is accounted for if each one up to the persisted cursor is still readable or in a persisted gap, and each one from there to the last durable event is an event or in a persisted gap; and only if so while the gaps fit |
| Recovery.CoverageDuringAppend | src/history.rs:898-945 | after a crash at any byte of a batch, with no failed write left undone before it, every number is accounted for if each one up to the last whole record of the batch is one of the batch or in a gap, and only if so while the gaps fit |
| Recovery.RecoveredIsKept | src/history.rs:396-433 | what was recovered is ordered, counted and within its own cursor, no gap is lost, and a reader that reports a loss says that it is partial |
| Recovery.LossForgotten | src/history.rs:926-968 | the concrete crash after which a lost number is accounted for nowhere |
| Recovery.Startup | src/history.rs:479-521 | the first batch of a new process interrupts exactly the sessions and workflows that were started and not ended, each once and no others, under new consecutive numbers |
| Durable.JournalFile.Append | src/history.rs:898-968 | a batch lands where the file is positioned; a whole journal stays whole and within the limit and half the slack, and a rewrite makes any journal whole |
| Durable.JournalFile.FailWrite | src/history.rs:908-936 | a write that fails part way leaves its bytes, a hole, or nothing, as the two calls that undo it go; a whole journal stays whole in the last case |
| Durable.Restart | src/history.rs:345-433 | a restart from a whole journal is no change at all if and only if every trimmed session has its window |
| Durable.LeftParts | src/history.rs:908-936 | what a failed write leaves is whole records of its batch and a tear |
| Durable.ParseAfterFailure | src/history.rs:345-396 | what is read back of a journal with something left in it: the records before the tear, and those after it exactly if there is none |
| Durable.JudgedAfterFailure | src/history.rs:381-394 | the events read back are those of memory if and only if the windows are kept, nothing is torn, and no whole record was left unless memory was empty |
| Durable.Drain | src/history.rs:973-1012 | the queue is written after what a failed write left, message by message, unless the journal is rewritten |
| Durable.AfterFailedWrite | src/history.rs:926-936 | after a failed write and any number of appends that make nothing go, a restart retains what memory retains if and only if the windows are kept and the failed write left nothing, or whole records while memory was empty; always after a rewrite |
| Durable.Run | src/history.rs:898-968 | over any run of appends and failed writes that leave nothing the journal stays whole, and a restart is no change at all if and only if the windows are kept, which they are while no output exceeds its share |
| Durable.LostAfterTear | src/history.rs:926-968 | the concrete run after which an event that was readable is gone and its number accounted for nowhere |
| Durable.Reopen | src/history.rs:340-447 | a journal in which every number is known is gone on with, under numbers above every durable event and every gap |
| Durable.CrashAndGoOn | src/history.rs:345-1070 | over a crash at any byte of a batch, recovery, and any run of the next process no number is forgotten and a collector never has to go back |
| Workflow.WorkflowManager.Create | src/workflow.rs:417-448 | the slot is claimed exactly when it is free, the identifier new and the service not stopping |
| Workflow.WorkflowManager.Initialize | src/workflow.rs:468-497 | accepted exactly when the project is found and either its marker is clean or a reset was asked for; a reused project has a settled tree at rest |
| Workflow.WorkflowManager.Lease | src/workflow.rs:551-574 | a transfer is admitted exactly when no exclusive operation runs and the phase allows it |
| Workflow.WorkflowManager.Release | src/workflow.rs:163-171 | dropping a lease uncounts one transfer |
| Workflow.WorkflowManager.BeginCommit | src/workflow.rs:710-724 | a commit starts only alone, while preparing, for the open plan; a marker that cannot be read counts as not clean |
| Workflow.WorkflowManager.MarkForCommit | src/workflow.rs:725-728 | nothing of the project changes before the dirty marker is durable |
| Workflow.WorkflowManager.EndCommit | src/workflow.rs:729-773 | only a tree that is as it was can be marked clean again; a failed rollback invalidates the project |
| Workflow.WorkflowManager.MarkAfterCommit | src/project.rs:113-137 | the tree is synced and the marker clean again, or the project is invalidated |
| Workflow.WorkflowManager.MarkForStart | src/workflow.rs:845-849 | no process is started before the dirty marker is durable |
| Workflow.WorkflowManager.Spawn | src/workflow.rs:850-890 | a live process, or one that may be left over, implies a dirty marker; a failed start invalidates the project |
| Workflow.WorkflowManager.BeginObserve | src/workflow.rs:895-942 | only a session that is over is judged, and only exit status zero leads to a clean marker |
| Workflow.WorkflowManager.MarkAfterExit | src/workflow.rs:912-926 | pulling begins exactly when the tree was synced and the clean marker published while the workflow was running |
| Workflow.WorkflowManager.RequestCleanup | src/workflow.rs:1148-1185 | only the active workflow can be stopped; invalidation is never taken back |
| Workflow.WorkflowManager.Finish | src/workflow.rs:1061-1097 | completed exactly from pulling with no transfer under way, with a clean marker |
| Workflow.WorkflowManager.CleanupStop | src/workflow.rs:1237-1248 | cleanup goes on only when the session, or what is left of a failed start, is gone |
| Workflow.WorkflowManager.CleanupMark | src/workflow.rs:1249-1251 | an invalidated project gets a durable dirty marker or cleanup is tried again |
| Workflow.WorkflowManager.CleanupRead | src/workflow.rs:1252-1254 | cleanup goes on only when the plans are gone, and takes the project for clean exactly if its marker is readable and clean |
| Workflow.WorkflowManager.CleanupEnd | src/workflow.rs:1252-1290 | the slot is released with a full upload required exactly unless the marker read clean, and always for an invalidated project |
| Workflow.WorkflowManager.End | src/workflow.rs:1313-1376 | a record ends without transfers; it does not ask for a full upload only if the marker was clean then; an invalidated one always does |
| Workflow.WorkflowManager.Crash | src/project.rs:162-181 | a clean marker found after a kill belonged to a project at rest; its tree was settled, and after a power loss so was the tree on stable storage; what is found is what was there, or what was on stable storage |
| Workflow.Run | src/workflow.rs:294-316 | over any interleaving of steps no record goes back or changes once it is terminal, and only pruning forgets one, when it is terminal |
| Workflow.RunAndKill | src/project.rs:113-137 | for every run killed at any point, with or without the power: a clean marker means no commit under way, no live session, and a tree, in memory or on stable storage, that can be trusted |
| Outcomes.Push | src/workflow.rs:417-773 | a workflow that is created and whose commit is applied has a settled project at rest and needs no full upload |
| Outcomes.RunSession | src/workflow.rs:840-942 | pulling follows exactly when the session ended with status zero and its tree and marker were synced; otherwise the workflow fails and asks for a full upload |
| Outcomes.Build | src/workflow.rs:417-1097 | a build in which nothing fails is completed without asking for a full upload, and its project can be trusted |
| Outcomes.RefusedCommit | src/workflow.rs:701-773 | a commit that was undone leaves the record as it was while uploads are missing, and otherwise a failed workflow; the marker is clean again exactly as the project was trusted before |
| Outcomes.Cleanup | src/workflow.rs:1148-1376 | the record ends as failed if a failure was ever reported and as cancelled otherwise; an invalidated project is marked dirty, every other keeps its marker; a full upload is asked for exactly if the marker is not clean |
| Engine.AnswerTellsTree | src/workflow.rs:734-773 | success is read as applied, a demand for a complete upload as broken, and any other error as undone; the answer tells the workflow whether the tree it left can be trusted: as before after an ordinary error, as delivered after success |
| Archive.BoundaryNear | src/diagnostics.rs:276-279 | a character boundary is at most three bytes back, so every chunk makes progress |
| Archive.CutChunk | src/diagnostics.rs:276-280 | the next chunk is the longest that ends at a character and fits; it is not empty and leaves text behind |
| Archive.OutputArchive.Offer | src/diagnostics.rs:268-298 | a chunk is queued, or it and everything after it is counted as dropped, with the reason recorded |
| Archive.OutputArchive.Output | src/diagnostics.rs:456-548 | the writer keeps a chunk only after all chunks before it |
| Archive.OutputArchive.Finish | src/diagnostics.rs:550-609 | when the footer is written, observed equals archived plus dropped |
| Archive.Run | src/diagnostics.rs:264-609 | for every interleaving the archived text is a prefix of the observed stream and a footer balances |
| ArchiveQuota.SumWithout | src/diagnostics.rs:630-654 | the charged sum does not depend on the order in which files are counted |
| ArchiveQuota.Writer.Prune | src/diagnostics.rs:612-662 | ends only with the limits restored or every remaining archive open, nothing expired left; the oldest go first and none without need; stops early only on a fault |
| ArchiveQuota.Writer.Start | src/diagnostics.rs:385-454 | a new archive is opened within all limits with its footer reserved; without a fault it is refused only when the limits leave no room although every finished archive is gone |
| ArchiveQuota.Writer.Output | src/diagnostics.rs:456-548 | charge plus reserves never exceed the total limit nor an archive its own, through partial writes and failed rollbacks; without a fault it is refused only when the limits leave no room although every finished archive is gone |
| ArchiveQuota.Writer.Finish | src/diagnostics.rs:569-609 | the footer takes the place of its reserve and the file ends within the limit of a session |
| ArchiveQuota.Initialize | src/diagnostics.rs:139-148 | the first pruning brings any set of files within the quota |
| Supervisor.PtyProcess.ObserveExit | src/session/process.rs:80-101 | seeing the exit does not reap; losing the child ends ownership |
| Supervisor.PtyProcess.SignalGroup | src/session/process.rs:103-118 | a signal is sent exactly when the identity of the group is owned and the system permits it |
| Supervisor.PtyProcess.Scan | src/session/process.rs:228-251 | after a kill an empty scan means an empty group |
| Supervisor.PtyProcess.Reap | src/session/process.rs:121-139 | reaping happens only with exit seen, the group asked to stop, and two empty scans around a kill; it ends ownership |
| Supervisor.Supervisor.RejectInputs | src/session/supervisor.rs:495-505 | every input that was sent is completed once, in order; those not finished are refused, the one under way first |
| Supervisor.Supervisor.OnWritten | src/session/supervisor.rs:298-320 | the terminal gets whole inputs in order and part of at most one more |
| Supervisor.Supervisor.OnRead | src/session/supervisor.rs:280-297 | what was decoded so far is the stream so far, less a pending character |
| Supervisor.Supervisor.ConfirmAndReap | src/session/supervisor.rs:400-480 | the leader is reaped exactly when two scans around a kill find nothing of its group alive and no system call fails |
| Supervisor.Supervisor.OnTick | src/session/supervisor.rs:321-481 | what a tick makes of the leader, the signals and the wait for the rest of the output |
| Supervisor.Supervisor.Finish | src/session/supervisor.rs:484-492 | at the end every input is answered and the output is lossy decoding of everything read |
| Supervisor.Manager.Reserve | src/session.rs:193-208 | a session starts only in a free slot of a service that is neither stopping nor degraded |
| Supervisor.Run | src/session/supervisor.rs:59-493 | a session runs only with the slot reserved; the slot is freed only when the session is terminal; a start of unknown outcome keeps it; a terminal spawned session has reaped an empty group, and its output is lossy decoding of what the terminal gave until reading ended; inputs are answered as they were asked until the queue was closed |

## Left out

- HTTP, authentication, request bodies, configuration, metrics and tracing: thin wrappers around what is modelled.
- Symbolic links, hard links, permissions, devices and the path checks against them; the service is taken to be the only writer of its workspace.
- Real system calls: they are methods with contracts that may fail at any time. SHA-256, UUIDs, JSON and glob matching are an identity, fresh numbers, a codec parameter and a predicate.
- Unportable names are one predicate on paths; which names it rejects is not modelled.
- The pull plan (`create_pull_plan`): the push plan with the two listings exchanged.
- Uploads into staging and the directories they make: the commit starts from a staging area with arbitrary contents.
- Sizes beyond 64 bits: counters and sequence numbers are unbounded, so the checks against exhausted sequence numbers are not modelled. The saturation of single additions in the gap code is.
- Manifest.MtimeRoundTrip: presumes a file system that stores every 64-bit millisecond time; real ones clamp to a range of their own, and a time outside it does not survive either.
- Journal.Run: event serialization is total; the health flag and acknowledgements are not modelled.
- Recovery.CoverageAfterCrash: the "only if" is stated while two more gaps fit the limit of 128, because at the limit older gaps are joined and may happen to cover a forgotten number.
- Recovery.CoverageDuringAppend: the same.
- Recovery.LaterReadBack: takes a torn record or a hole and the next record on one line to be no event, which holds of JSON objects; Durable.AfterFailedWrite and Durable.LostAfterTear do so too (`SampleCodec.IsCodec` exhibits such a codec).
- Durable.AfterFailedWrite: one failed write that left something; what a second one may cut off is not modelled further than its bytes (Durable.JournalFile.FailWrite), and for appends that make something go the exact condition is Retention.ReloadIsMemory.
- Durable.Restart: the state file holds what memory held after the last append; an older one is covered by Recovery.CoverageAfterCrash.
- Durable.CrashAndGoOn: asks that no number between the cursor and the batch was lost without being in a gap yet, which Recovery.LossForgotten shows to be needed.
- Retention.Writer.Append: asks that an output event continues its session's stream.
- Apply.VerifyStaged: does not repeat the size limit on staged files, because a planned upload is within it (Scan.ValidateClientManifest).
- Compaction that is interrupted by a crash, and liveness of the retry loops under permanent I/O failure.
- Workflow.WorkflowManager.Crash: processes of a killed service are taken to be gone when the next one starts; the heartbeat clock is a step that may come at any time, and panics of tasks are not modelled.
- Workflow.WorkflowManager.EndCommit: takes the commit engine's answer as one of three; Engine.AnswerTellsTree says what they mean, but the two are not run together.
- Workflow.Run: an identifier that was pruned may be used again by a client, and names a new record then.
- Supervisor.Run: exit codes, reasons of termination, timers and telemetry; the timers are facts that a tick may find true.
- Supervisor.PtyProcess.Scan: a member that is there during a whole scan is seen, and a kill stops the group from forking.
- ArchiveQuota.Writer.Prune: files without a valid header are not counted, as in the code; a directory listing that changes under the writer is not modelled.
- Parsing of process status lines, workspace reads, logging and the runtime: mostly I/O, or weaker versions of what is proved here.
