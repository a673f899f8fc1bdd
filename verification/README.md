# Verified model of the distributed run path

OasisPlatform splits a portfolio into chunks, lets workers look the chunks up and compute losses in
parallel, and tracks the sub-tasks while a controller scales the workers. The modules here model
that path and prove what it relies on.

- `ExposureChunks`, `KeysMerge`, `ChunkStore`: rows are split by subject with array operations, looked
  up chunk by chunk and merged; the result is the lookup of the whole exposure.
- `ChunkCounts`: how many chunks there are, and what the validation before it guarantees.
- `TaskCanvas`, `RequestWalk`, `LogStorage`: the chain of sub-tasks, the Celery ids handed back for it
  in two different ways, and the logs of the parallel chunks.
- `SubTasks`, `SubTaskTable`: the status rows under late, repeated and reordered messages.
- `AnalysisLifecycle`, `AnalysisFlight`: the analysis' own status under user commands and deliveries,
  and together with the chain it has in flight.
- `AutoscalerRules`, `ModelLoads`, `WorkerDeployments`, `Autoscaler`: load, priorities, the deployment
  cache, the global worker limit and the delayed shutdown.
- `OidcLogin`: the transaction that binds a subject to a user. `LevelTracker`: overlapping log-level
  requests.
- `Arithmetic`, `Sequences`, `Options`, `Text`: shared helpers.

`dafny verify dfyconfig.toml` checks the whole project.

## How the source is read

Code that changes objects in place is a class or a method with loops, proved equal to a specification
function; the properties are lemmas about that function. One message, command, login attempt, scaling
decision or timer fire is one atomic step; a scaling pass, the id recorder and the retried login are
sequences of such steps with others in between. A subject-at-risk lookup is the model vendor's code and so a
parameter: `SubjectBySubject` and `RowByRow` say which kinds the results hold for. Stable sort, binary
search, `factorize` and first-wins dedup are written out from their documented meaning. Status writes of
the form read, compare, save are atomic, except in `_record_subtask_ids`. Celery gives every sub-task its own id.

Where the code and its comments, documentation or arguments disagree, the code is modelled:

- `record_input_files` writes READY whatever finish status it is given, so a joint run looks idle before
  its losses (`InputFilesIgnoreFinishStatus`).
- A joint run therefore lets a second start through before its losses, which can cost the input files; so
  does a chain that found no keys until its failure callback has come (`SecondStartExactly`,
  `OverlapLosesInputs`, `OldFailureOverwrites`).
- The priority limit counts priority levels; `kubernetes/README.md:27-39` speaks of models
  (`LimitCountsModels`, `TwoModelsKept`).
- A row-wise lookup gets the same keys, not always in the same order (`MergedRowsInOrderIff`,
  `ThreeRowsReordered`).
- `update_all_tasks_ids` misses sub-tasks such as a chord body that is a plain task, or any entry of the
  request's chain but the first (`ChainListedIffExposed`, `ChordBodyIsMissed`, `SecondEntryIsMissed`).
- `_record_subtask_ids` saves whole rows read earlier and can undo a start notice (`StaleSaveGoesForward`,
  `StaleSaveLosesStart`); the ids it writes are right all the same (`RecordedIdsMatchTasks`).
- Notices are matched by analysis and slug, so a late one of an earlier run counts for the new task
  (`LateNoticeIsTakenForNewTask`).
- A fixed chunk count may be null, and then no chain can be laid out (`ValidatedInputHasChunks`,
  `AcceptedStartHasChain`).
- `get_num_events` needs more than one event id, while the cross check is content with one
  (`SingleEventIdFails`).
- `get_userinfo_attribute` tests the name of the claim instead of its value, so an empty subject gets
  through (`EmptySubjectLogin`, `EmptySubjectsCollide`), while a missing one fails in the database
  (`MissingSubjectFails`).
- The slug in the comment of `merge_chunk_log_storage` is not the one the controller builds; the latter
  is used.

## Model

| member | source | states |
|---|---|---|
| `ExposureChunks.StableArgsort` | src/model_execution_worker/distributed_tasks.py:133 | the result lists every position once, in key order, equal keys in position order |
| `ExposureChunks.SearchSorted` | src/model_execution_worker/distributed_tasks.py:134 | the binary search ends at the leftmost place where the value fits |
| `ExposureChunks.RepeatedBlocks` | src/model_execution_worker/distributed_tasks.py:129-130 | the repeated block numbers label rank r with block c exactly when r lies in even block c |
| `ExposureChunks.PieceIsStable` | src/model_execution_worker/distributed_tasks.py:133-134 | cutting the sorted positions at the searched bounds leaves in piece c exactly the positions with key c, in increasing order |
| `ExposureChunks.ChunkRowsArePositions` | src/model_execution_worker/distributed_tasks.py:128-134 | the array form refines the simple one: chunk c is the increasing list of the positions whose subject's first-appearance rank is in even block c |
| `ExposureChunks.ChunksPartitionRows` | src/model_execution_worker/distributed_tasks.py:120-134 | every row is in a chunk, and no subject (so no row) is in two |
| `ExposureChunks.ChunksAreEven` | src/model_execution_worker/distributed_tasks.py:129-134 | subject counts of any two chunks differ by at most one, and chunk c is empty iff there are at most c subjects |
| `KeysMerge.ChunkIsRowsOfSubjects` | src/model_execution_worker/distributed_tasks.py:137-142 | a chunk's rows are all the rows of its block of subjects, in their original order |
| `KeysMerge.ChunkHasItsSubjects` | src/model_execution_worker/distributed_tasks.py:123-142 | the distinct subjects of a chunk, in order of appearance, are its block |
| `KeysMerge.ChunkedLookupIsWholeLookup` | src/model_execution_worker/distributed_tasks.py:663-684 | for a lookup working subject by subject, the chunk outputs in chunk order, empty chunks skipped, are the lookup of the whole exposure, for every chunk count |
| `KeysMerge.MergeStreaming` | src/model_execution_worker/distributed_tasks.py:699-740 | nothing is written iff no file is usable; otherwise the first occurrences of the concatenated usable rows |
| `KeysMerge.ContentsAreOutputs` | src/model_execution_worker/distributed_tasks.py:803-819 | files in natural order hold the chunk outputs in chunk order, whichever chunks left none |
| `KeysMerge.MergedLookupIsWholeLookup` | src/model_execution_worker/distributed_tasks.py:663-684 | chunk, look up, merge preserves meaning: whatever order the files are listed in, the merged keys are the deduplicated keys of the whole exposure |
| `KeysMerge.MergedRowLookupHasSameKeys` | src/model_execution_worker/distributed_tasks.py:663-740 | a purely row-wise lookup merges to the same distinct keys |
| `KeysMerge.RowLookupOfSortedRows` | src/model_execution_worker/distributed_tasks.py:132-134 | a row-wise lookup of the chunks, end to end, is the lookup of the rows stably sorted by chunk |
| `KeysMerge.MergedRowLookupInOrder` | src/model_execution_worker/distributed_tasks.py:132-134 | a row-wise lookup merges to the same keys in the same order when no later row belongs to an earlier chunk |
| `KeysMerge.MergedRowsInOrderIff` | src/model_execution_worker/distributed_tasks.py:132-134 | and, for the lookup that returns each row itself, only then |
| `KeysMerge.InterleavedSubjectsReorder` | src/model_execution_worker/distributed_tasks.py:132-134 | three rows whose first and last share a subject, looked up as themselves in two chunks, merge in another order |
| `KeysMerge.ThreeRowsReordered` | src/model_execution_worker/distributed_tasks.py:132-134 | such rows and their files, spelled out |
| `KeysMerge.ChunksKeepRowOrder` | src/model_execution_worker/distributed_tasks.py:132-134 | the chunks end to end keep the original row order iff no later row belongs to an earlier chunk |
| `ChunkStore.Filestore.StoreChunks` | src/model_execution_worker/distributed_tasks.py:145-166 | one reference per chunk, each file holding all rows of that chunk's subjects in order, no other file touched |
| `ChunkStore.Filestore.LoadChunk` | src/model_execution_worker/distributed_tasks.py:169-186 | the stored rows, or the split of the full exposure when the number of references differs |
| `ChunkStore.StoredChunkIsRecomputedChunk` | src/model_execution_worker/distributed_tasks.py:156-186 | stored or recomputed by the fallback, a chunk is all the rows of its subjects |
| `ChunkStore.ChunkRefsDiffer` | src/model_execution_worker/distributed_tasks.py:157-164 | no two chunks share a file |
| `ChunkCounts.ValidateV2LocationFile` | src/server/oasisapi/analyses/models.py:553-576 | rejects exactly a missing file under dynamic chunks, an unreadable one and an empty one; returns the row count |
| `ChunkCounts.ValidatedInputHasChunks` | src/server/oasisapi/analyses/v2_api/task_controller.py:517-532 | after validation there is at least one lookup chunk iff the strategy is dynamic or a fixed count is set; a fixed count is the configured one capped by the rows, a dynamic one the least that covers the rows, unless capped |
| `ChunkCounts.CheckedEventsAreKnown` | src/server/oasisapi/analyses/models.py:429-452 | after the cross check the number of events can be told iff not just one event id is listed or the event set named is offered with a size |
| `ChunkCounts.EventsUsableIff` | src/server/oasisapi/analyses/models.py:599-616 | the cross check passes and the number of events can be told iff the settings tell it: several ids, one beside a sized set, or a selected set first offered with a positive size |
| `ChunkCounts.SingleEventIdFails` | src/server/oasisapi/analyses/models.py:443-452 | a single event id passes the cross check although its number of events cannot be told |
| `ChunkCounts.SizeIsLast` | src/server/oasisapi/analyses/models.py:447-452 | of several offered sets with the id, the last that has a size counts |
| `ChunkCounts.LossHasChunks` | src/server/oasisapi/analyses/v2_api/task_controller.py:654-664 | losses get a chunk iff a fixed count is set or events are counted; the fixed count is the configured one, a dynamic one the least that covers the events, unless capped |
| `ChunkCounts.ChunksFit` | src/server/oasisapi/analyses/v2_api/task_controller.py:528-530 | every chunk has at most the given number of subjects iff all chunks together have room for all subjects |
| `ChunkCounts.DynamicChunksFit` | src/server/oasisapi/analyses/v2_api/task_controller.py:528-530 | with at most as many subjects as rows, no dynamic chunk exceeds the configured size unless the maximum capped the count |
| `RequestWalk.UpdateAllTaskIds` | src/model_execution_worker/distributed_tasks.py:335-362 | without a chain it raises; otherwise the worklist ends, listing in level order part of what the chain holds, and all of it iff its first entry is exposed and the others hold nothing |
| `RequestWalk.WalkInLevels` | src/model_execution_worker/distributed_tasks.py:344-360 | the queue order is level order |
| `RequestWalk.WalkListsTrees` | src/model_execution_worker/distributed_tasks.py:344-360 | the walk lists the same multiset as the recursive listing over body and header tasks |
| `RequestWalk.ListedOrLost` | src/model_execution_worker/distributed_tasks.py:354-360 | every sub-task a request holds anywhere is either listed or among those passed over, each as often as it is held |
| `RequestWalk.ChainListedIffExposed` | src/model_execution_worker/distributed_tasks.py:339-360 | nothing of a chain is missed iff, in its first entry, no signature visited has tasks of its own or a body or header holding anything beside its tasks, and no other entry holds a sub-task |
| `RequestWalk.SecondEntryIsMissed` | src/model_execution_worker/distributed_tasks.py:339-341 | a chain of two plain tasks whose second one is missed |
| `RequestWalk.ChordBodyIsMissed` | src/model_execution_worker/distributed_tasks.py:354-356 | a small chord whose plain body is missed |
| `TaskCanvas.SlugsAreDistinct` | src/server/oasisapi/analyses/v2_api/task_controller.py:410-490 | input chains have k + 6 and loss chains m + 5 slugs, pairwise distinct, also when one run joins both |
| `TaskCanvas.ChordSlugsDiffer` | src/server/oasisapi/analyses/v2_api/task_controller.py:184-188 | the slugs of a chord's parallel tasks are distinct, extend the chord's slug and end in a number |
| `TaskCanvas.ExtractCeleryTaskIds` | src/server/oasisapi/analyses/v2_api/task_controller.py:60-68 | the last result's id, then its ancestors' ids nearest first, each group back to front |
| `TaskCanvas.AncestorIdsAreReversed` | src/server/oasisapi/analyses/v2_api/task_controller.py:61-67 | walking up the parents lists the chain's ids exactly back to front |
| `TaskCanvas.ExtractedIdsMirrorStatuses` | src/server/oasisapi/analyses/v2_api/task_controller.py:60-68 | the extracted ids are the ids of the chain's status rows in reverse |
| `SubTaskTable.StatusTable.ReplaceSubtaskStatuses` | src/server/oasisapi/analyses/v2_api/task_controller.py:281-284 | the analysis' rows are replaced by one new row per slug iff the slugs are distinct; otherwise only the deletion stands |
| `SubTaskTable.NewRowsAreBlank` | src/server/oasisapi/analyses/v2_api/task_controller.py:281-284 | the new rows follow the other analyses' rows, one for each slug, pending and blank |
| `SubTaskTable.StatusTable.RecordSubtaskIds` | src/server/oasisapi/analyses/v2_api/task_controller.py:287-297 | each row of the analysis, as it was read, takes the last id left and is saved, whatever messages arrive between the saves, until no id is left or one is refused |
| `SubTaskTable.RecorderStops` | src/server/oasisapi/analyses/v2_api/task_controller.py:289-297 | the recorder stops where no id is left or one is refused, saving nothing further |
| `SubTaskTable.RecordedIdsMatchTasks` | src/server/oasisapi/analyses/v2_api/task_controller.py:184-297 | task-id alignment: for every chain, also one replacing rows of an earlier run, and any reports meanwhile, each new row ends with the id of the task it was built with; a row loses just the reports before its own save |
| `SubTaskTable.NoticeIsTaken` | src/server/oasisapi/analyses/v2_api/tasks.py:445-480 | a notice, whichever run sent it, changes the row of its slug unless it brings an id that another row has |
| `SubTaskTable.LateNoticeIsTakenForNewTask` | src/server/oasisapi/analyses/v2_api/tasks.py:474-480 | so a notice of an earlier run changes the new row, whatever came in between, and one that says finished finishes it for good |
| `SubTaskTable.AllDistinct` | src/server/oasisapi/analyses/models.py:200-202 | the slug constraint holds iff no slug is repeated |
| `SubTaskTable.ReplacedOrder` | src/server/oasisapi/analyses/models.py:196-196 | new rows come after all others in the order of their ids |
| `SubTaskTable.ApplyKeepsConstraints` | src/server/oasisapi/analyses/models.py:195-202 | every message keeps ids and (analysis, slug) unique |
| `SubTaskTable.StatusTable.UpdateTaskId` | src/server/oasisapi/analyses/v2_api/tasks.py:703-719 | pending rows are queued, then all ids are set or none; raises on an empty list or a shared id |
| `SubTaskTable.StatusTable.Update` | src/server/oasisapi/analyses/v2_api/tasks.py:441-529 | one message updates the matching rows, or nothing when ids would clash |
| `SubTaskTable.StatusTable.CancelSubtasks` | src/server/oasisapi/analyses/v2_api/tasks.py:244-262 | revokes exactly the known ids of unfinished rows and leaves no row of the analysis unfinished |
| `SubTaskTable.RevokedAreUnfinished` | src/server/oasisapi/analyses/v2_api/tasks.py:248-261 | revoked are exactly the ids of the analysis' unfinished rows, each once |
| `SubTasks.ApplyForward` | src/server/oasisapi/analyses/v2_api/tasks.py:441-548 | one message lowers no rank, keeps start times, and leaves a row finished iff its end time is set |
| `SubTasks.RunForward` | src/server/oasisapi/analyses/v2_api/tasks.py:441-548 | over every run ranks never drop, start times are written once, started rows have one, and rows are finished iff they have an end time |
| `SubTasks.SetStatusKeepsRowValid` | src/server/oasisapi/analyses/v2_api/tasks.py:490-506 | set_subtask_status keeps a row valid iff it is given a finished status |
| `SubTasks.UnfinishedNeverGrows` | src/server/oasisapi/analyses/v2_api/tasks.py:248-262 | unfinished rows never grow in number; after a cancel there are none, for good |
| `SubTasks.ApplyRowWise` | src/server/oasisapi/analyses/v2_api/tasks.py:703-719 | with own ids no update is refused and every row evolves on its own |
| `SubTasks.DeliveryOrderDoesNotMatter` | src/server/oasisapi/analyses/v2_api/tasks.py:441-529 | any interleaving and repetition of id updates, start and finishing notices leaves the finishing status and the start time |
| `SubTasks.UnfinishedFollowsOrder` | src/server/oasisapi/analyses/v2_api/tasks.py:457-463 | before its finishing notice a sub-task reads started iff a start notice came after a message that queued it, else queued iff one queued it |
| `SubTasks.RunRowWise` | src/server/oasisapi/analyses/v2_api/tasks.py:441-529 | over a run with own ids the table evolves row by row |
| `SubTasks.IdUpdateArrives` | src/server/oasisapi/analyses/v2_api/tasks.py:703-719 | an update that does not raise gives each row it names the id of the last entry naming it and the queue time, and no other row; it queues the pending rows of its analysis |
| `SubTasks.RunTellsIds` | src/server/oasisapi/analyses/v2_api/tasks.py:441-529 | over a run with own ids a row has its sub-task's id once a message has told it, and the one it had before until then |
| `SubTasks.RetriesAreCounted` | src/server/oasisapi/analyses/v2_api/tasks.py:664-683 | a row counts the retries reported of its sub-task |
| `SubTasks.FinishedAs` | src/server/oasisapi/analyses/v2_api/tasks.py:467-548 | which message ends a row, as completed, failed or cancelled, at which time; all others leave its end alone |
| `SubTasks.CancelReachesUnfinished` | src/server/oasisapi/analyses/v2_api/tasks.py:248-262 | a cancel takes every unfinished row of the analysis to cancelled and touches no other |
| `SubTasks.CancelledUntilNotice` | src/server/oasisapi/analyses/v2_api/tasks.py:441-548 | a cancelled row stays so until a finishing notice of it comes |
| `SubTasks.UnmovedIffNothingMoves` | src/server/oasisapi/analyses/v2_api/tasks.py:441-548 | a run leaves a row's rank and start time iff none of its messages queues, starts or finishes the row as it was |
| `SubTasks.StaleSaveGoesForward` | src/server/oasisapi/analyses/v2_api/task_controller.py:289-292 | saving a row read earlier takes it back iff a message in between would queue, start or finish the row as it was read |
| `SubTasks.StaleSaveLosesStart` | src/server/oasisapi/analyses/v2_api/task_controller.py:289-292 | a sub-task that started in between is pending again after the save |
| `LogStorage.MergeChunkLogStorage` | src/model_execution_worker/distributed_tasks.py:759-770 | each key keeps the entry of the last chunk that has it, and there are no other keys |
| `LogStorage.MergeKeepsLast` | src/model_execution_worker/distributed_tasks.py:767-770 | the merge has for each key the entry of the last chunk holding it, and no other keys |
| `LogStorage.NoChunkLogIsLost` | src/model_execution_worker/distributed_tasks.py:694-770 | the merge holds every chunk's own log, all earlier entries, and nothing else |
| `AnalysisLifecycle.CommandsRespectActivity` | src/server/oasisapi/analyses/models.py:656-798 | starts succeed only while nothing runs, runs only with input files, cancels only while something runs, each with its status |
| `AnalysisLifecycle.RunAcceptedIff` | src/server/oasisapi/analyses/models.py:656-687 | exactly when a run is accepted in a mode, in terms of model, request, status, files and settings |
| `AnalysisLifecycle.GenerateAcceptedIff` | src/server/oasisapi/analyses/models.py:689-712 | exactly when input generation is accepted in a mode |
| `AnalysisLifecycle.GenerateAndRunAcceptedIff` | src/server/oasisapi/analyses/models.py:714-740 | exactly when a joint run is accepted |
| `AnalysisLifecycle.RunRefusalNames` | src/server/oasisapi/analyses/models.py:657-673 | which fields a refused run complains about, and in which order they are looked at |
| `AnalysisLifecycle.GenerateRefusalNames` | src/server/oasisapi/analyses/models.py:690-700 | which fields a refused input generation complains about |
| `AnalysisLifecycle.JointRefusalNames` | src/server/oasisapi/analyses/models.py:715-730 | which fields a refused joint run complains about |
| `AnalysisLifecycle.FailureIsWritten` | src/server/oasisapi/analyses/v2_api/tasks.py:575-585 | a failure callback is put off up to eight times while logs are pending, then written unless cancelled or without keys |
| `AnalysisLifecycle.CancelAcceptedIff` | src/server/oasisapi/analyses/models.py:747-798 | each cancel is accepted exactly in the stage it is for |
| `AnalysisLifecycle.CancelKeepsInput` | src/server/oasisapi/analyses/models.py:778-798 | an accepted cancel forgets the run mode and keeps the input files |
| `AnalysisLifecycle.CancelledStays` | src/server/oasisapi/analyses/v2_api/tasks.py:689-696 | a cancelled analysis leaves that status only by an accepted start or recorded files, over every run |
| `AnalysisLifecycle.NoKeysSurvivesFailures` | src/server/oasisapi/analyses/v2_api/tasks.py:582-585 | no number of failure callbacks replaces a no-keys status |
| `AnalysisLifecycle.OneStartAtATime` | src/server/oasisapi/analyses/models.py:659-661 | until the work in progress ends every further start is refused |
| `AnalysisLifecycle.StartRefusedWhileActive` | src/server/oasisapi/analyses/models.py:694-720 | a start of either stage is refused while one is queued or started |
| `AnalysisLifecycle.AcceptedStartHasChain` | src/server/oasisapi/analyses/v2_api/task_controller.py:300-318 | an accepted distributed start can be laid out as a chain iff its chunk counts exist, and a joint one then has distinct slugs |
| `AnalysisLifecycle.InputFilesIgnoreFinishStatus` | src/server/oasisapi/analyses/v2_api/tasks.py:289-316 | the requested finish status is met iff it is READY; a joint run counts as idle before its losses |
| `AnalysisLifecycle.Analysis.RunAnalysis` | src/server/oasisapi/analyses/models.py:656-687 | refuses with exactly the offending fields, or queues the run |
| `AnalysisLifecycle.Analysis.GenerateInputFiles` | src/server/oasisapi/analyses/models.py:689-712 | refuses with exactly the offending fields, or queues input generation without old input files |
| `AnalysisLifecycle.Analysis.GenerateInputsAndRun` | src/server/oasisapi/analyses/models.py:714-740 | as above for both stages, for distributed models only |
| `AnalysisLifecycle.Analysis.CancelAnyStage` | src/server/oasisapi/analyses/models.py:747-764 | cancels the stage that is active, and only one |
| `AnalysisLifecycle.Analysis.CancelAnalysisRun` | src/server/oasisapi/analyses/models.py:766-781 | cancels a queued or started run, and nothing else |
| `AnalysisLifecycle.Analysis.CancelGenerateInputs` | src/server/oasisapi/analyses/models.py:783-798 | cancels queued or started input generation, and nothing else |
| `AnalysisLifecycle.Analysis.SetTaskStatus` | src/server/oasisapi/analyses/v2_api/tasks.py:689-696 | a notice is written unless the analysis is cancelled |
| `AnalysisLifecycle.Analysis.HandleTaskFailure` | src/server/oasisapi/analyses/v2_api/tasks.py:565-585 | retries while logs are pending, then writes the failure unless cancelled or without keys |
| `AnalysisLifecycle.Analysis.RecordInput` | src/server/oasisapi/analyses/v2_api/tasks.py:312-317 | the analysis is ready with input files, whatever it was |
| `AnalysisLifecycle.Analysis.RecordLosses` | src/server/oasisapi/analyses/v2_api/tasks.py:391-393 | the run is completed, whatever it was |
| `AnalysisFlight.SecondStartExactly` | src/server/oasisapi/analyses/models.py:656-720 | exactly when a start gets through before the chain in flight is over: it was cancelled, during its losses if the start is a run, or its latest stage has come out - files, no keys, given up - and the next has not started |
| `AnalysisFlight.IdleWhenNothingFlies` | src/server/oasisapi/analyses/v2_api/tasks.py:312-393 | once no chain is in flight no status of work in progress is left |
| `AnalysisFlight.StagesFollowEachOther` | src/server/oasisapi/analyses/models.py:656-712 | an accepted input generation that goes through leaves an analysis on which a run is accepted that ends completed, in its mode, with input files |
| `AnalysisFlight.JointRunGoesThrough` | src/server/oasisapi/analyses/models.py:714-740 | a joint run that goes through is completed, with input files |
| `AnalysisFlight.FlightConsistent` | src/server/oasisapi/analyses/v2_api/tasks.py:289-585 | over every run without overlap the status tells how the chain's latest stage came out, or which one is in progress or was cancelled |
| `AnalysisFlight.OverlapLosesInputs` | src/server/oasisapi/analyses/v2_api/tasks.py:391-393 | input generation started before the losses of a joint run ends as a completed run without input files when the older chain goes through |
| `AnalysisFlight.OldFailureOverwrites` | src/server/oasisapi/analyses/v2_api/tasks.py:551-585 | the callback of a chain that broke writes its error over the status of the chain started meanwhile |
| `AnalysisFlight.JointRunIsOpen` | src/server/oasisapi/analyses/v2_api/tasks.py:316-316 | a joint run of a new analysis that a second start gets into |
| `AnalysisFlight.NoKeysRunIsOpen` | src/model_execution_worker/distributed_tasks.py:848-850 | a run without keys that is started again, and then marked as failed by the older callback |
| `AnalysisFlight.LateNoticeBlocksStarts` | src/server/oasisapi/analyses/v2_api/tasks.py:693-696 | a started notice that comes after its chain blocks further starts, unless the analysis was cancelled |
| `AutoscalerRules.DynamicCountIsLeast` | kubernetes/worker-controller/src/autoscaler_rules.py:63-69 | the dynamic count covers all tasks unless capped, and no smaller count above the minimum would |
| `AutoscalerRules.QueueLoadFollowsAnalyses` | kubernetes/worker-controller/src/autoscaler_rules.py:55-60 | one worker per analysis between minimum and maximum |
| `AutoscalerRules.AnswersWhen` | kubernetes/worker-controller/src/autoscaler_rules.py:28-72 | exactly when the rules answer with a count, find the settings unusable, or break |
| `AutoscalerRules.FixedCountUnderLoad` | kubernetes/worker-controller/src/autoscaler_rules.py:47-52 | a fixed model under load has its count, or the minimum if that is more |
| `AutoscalerRules.IdleModelsKeepMinimum` | kubernetes/worker-controller/src/autoscaler_rules.py:36-52 | an idle model falls to its minimum, except a fixed one told never to shut down |
| `AutoscalerRules.DesiredIsMonotone` | kubernetes/worker-controller/src/autoscaler_rules.py:42-69 | more load never means fewer workers |
| `WorkerDeployments.CacheHasUniqueKeys` | kubernetes/worker-controller/src/worker_deployments.py:58-72 | after any run of updates and deletes there is at most one entry per id, ignoring case |
| `WorkerDeployments.CacheHoldsLastSeen` | kubernetes/worker-controller/src/worker_deployments.py:58-72 | after any run there is an entry for an id iff it was seen and not deleted since, with the name first seen and the replicas last seen |
| `WorkerDeployments.OwnIdLookup` | kubernetes/worker-controller/src/worker_deployments.py:101-112 | looking up an entry's own id finds it iff no part contains a dash |
| `WorkerDeployments.LookupWithoutApi` | kubernetes/worker-controller/src/worker_deployments.py:93-110 | an id without the api version finds the first entry of its supplier, model and version, whatever the api version |
| `WorkerDeployments.DeploymentCache.UpdateWorker` | kubernetes/worker-controller/src/worker_deployments.py:44-72 | the matching entry gets the replicas, or one new entry is added |
| `WorkerDeployments.DeploymentCache.Delete` | kubernetes/worker-controller/src/worker_deployments.py:114-123 | exactly the entries with the name go |
| `WorkerDeployments.DeploymentCache.GetWorkerDeployment` | kubernetes/worker-controller/src/worker_deployments.py:74-99 | the first matching entry object, api version only if given |
| `WorkerDeployments.DeploymentCache.GetWorkerDeploymentByNameId` | kubernetes/worker-controller/src/worker_deployments.py:101-112 | three or four parts are looked up, other names find nothing |
| `Autoscaler.ReachableIsSound` | kubernetes/worker-controller/src/autoscaler.py:120-138 | in every reachable state pending shutdowns have exactly one live timer and were last decided to have no workers |
| `Autoscaler.ShutdownsAreSafe` | kubernetes/worker-controller/src/autoscaler.py:142-157 | a shutdown, whenever it fires, hits only deployments whose latest decision was non-positive |
| `Autoscaler.PositiveDecisionWithdraws` | kubernetes/worker-controller/src/autoscaler.py:120-122 | after a positive decision no shutdown of the deployment is issued until a later non-positive one |
| `Autoscaler.PassIsSteps` | kubernetes/worker-controller/src/autoscaler.py:238-262 | a whole pass acts on pending shutdowns only through its decisions, one per target, and the timers due meanwhile |
| `Autoscaler.LimitHolds` | kubernetes/worker-controller/src/autoscaler.py:258-262 | in every pass, whatever is updated and fires while it waits, the running total never drops and the positive targets add up to at most the limit |
| `Autoscaler.CommandsWithinLimit` | kubernetes/worker-controller/src/autoscaler.py:126-138 | the replicas of the commands a pass sends come to at most the limit |
| `Autoscaler.DecisionIsHeld` | kubernetes/worker-controller/src/autoscaler.py:120-138 | after a positive decision the cluster holds the number decided on; a non-positive one sends nothing and puts the deployment down for shutdown; others are not concerned |
| `Autoscaler.FiringIsHeld` | kubernetes/worker-controller/src/autoscaler.py:142-157 | a timer that fires takes every pending deployment to zero, and no other |
| `Autoscaler.PendingUntilShutDown` | kubernetes/worker-controller/src/autoscaler.py:126-157 | over every run without a positive decision on it, a pending deployment has a live timer until the cluster holds zero for it |
| `Autoscaler.TurnTakesWhatIsLeft` | kubernetes/worker-controller/src/autoscaler.py:112-118 | a turn asks for what the rules say as far as the limit goes, uses it up, asks for nothing on unusable settings, and counts a pending deployment with its replicas |
| `Autoscaler.SettingsArrive` | kubernetes/worker-controller/src/autoscaler.py:243-256 | settings that are due come from the platform once the model is known; nothing else of a deployment changes |
| `Autoscaler.AutoScaler.ScaleDeployment` | kubernetes/worker-controller/src/autoscaler.py:101-140 | the decision within the allowance is acted on, and what counts towards the total returned |
| `Autoscaler.AutoScaler.Cleanup` | kubernetes/worker-controller/src/autoscaler.py:142-157 | all pending shutdowns are issued once |
| `Autoscaler.AutoScaler.ScaleModels` | kubernetes/worker-controller/src/autoscaler.py:228-262 | the loop over shared deployment objects, with updates and timers while it waits, is the pass the properties speak of |
| `Autoscaler.AutoScaler.LoadSettings` | kubernetes/worker-controller/src/autoscaler.py:243-256 | settings are fetched when due, on this deployment only |
| `ModelLoads.AggregateModelStates` | kubernetes/worker-controller/src/autoscaler.py:67-99 | exactly the queues mentioned have a state, with sum, count and highest priority; idle deployments are added without load, in order |
| `ModelLoads.TasksAreConserved` | kubernetes/worker-controller/src/autoscaler.py:78-89 | the queues' task sums add up to the tasks of all mentions |
| `ModelLoads.CountsAreConserved` | kubernetes/worker-controller/src/autoscaler.py:85-89 | the queues' analysis counts add up to the number of mentions |
| `ModelLoads.MentionsHoldTasks` | kubernetes/worker-controller/src/autoscaler.py:78-89 | the tasks of all mentions are those of each analysis, once for every queue it names |
| `ModelLoads.MentionedWhenNamed` | kubernetes/worker-controller/src/autoscaler.py:78-82 | a queue is mentioned with some tasks and priority iff an analysis with these names it, in lower case |
| `ModelLoads.ClearUnprioritizedModels` | kubernetes/worker-controller/src/autoscaler.py:277-306 | with the limit off or equal priorities nothing changes; else a model keeps its load iff fewer distinct priorities than the limit exceed its own, and is otherwise left with none |
| `ModelLoads.PriorityThreshold` | kubernetes/worker-controller/src/autoscaler.py:277-302 | a threshold separates kept from cleared models, and a positive limit keeps exactly that many levels, or all |
| `ModelLoads.LimitCountsModels` | kubernetes/worker-controller/src/autoscaler.py:277-304 | the documented limit on models is kept iff there are no more models than the limit or no two kept ones share a priority |
| `ModelLoads.TwoModelsKept` | kubernetes/worker-controller/src/autoscaler.py:277-281 | three models of which two keep their load under a limit of one |
| `LevelTracker.LevelsFollowOutstanding` | src/model_execution_worker/utils.py:117-143 | over any history on any loggers the level is the least outstanding request, entries exist iff some are outstanding, and the first level returns afterwards |
| `LevelTracker.Tracker.AcquireLevel` | src/model_execution_worker/utils.py:127-132 | the request is added for this logger only |
| `LevelTracker.Tracker.ReleaseLevel` | src/model_execution_worker/utils.py:134-143 | one matching request goes, or it raises and nothing changes |
| `OidcLogin.OwnIdentityIsKept` | src/server/oasisapi/oidc/generic_auth.py:231-251 | no login archives, deletes or unbinds a user bound to its own subject, in any consistent state |
| `OidcLogin.LoginKeepsIdentities` | src/server/oasisapi/oidc/generic_auth.py:51-94 | with a non-empty subject names stay unique, each subject keeps one user, the user returned is the one bound, and failures change nothing |
| `OidcLogin.LoginSucceedsIff` | src/server/oasisapi/oidc/generic_auth.py:51-94 | which outcome a login with a subject has: success iff groups are claimed or it is a service account's, and nobody else has the name of the subject's user |
| `OidcLogin.LoginGivesRole` | src/server/oasisapi/oidc/generic_auth.py:140-182 | the user returned is admin iff a service account or claiming the admin group, has exactly the claimed groups without leading slashes, and is active if new; nobody else's role, groups or binding changes |
| `OidcLogin.RolesFollowLogins` | src/server/oasisapi/oidc/generic_auth.py:140-182 | over any run of logins a user has the role and groups of its last login, or those it started with |
| `OidcLogin.HoldersMakeRoom` | src/server/oasisapi/oidc/generic_auth.py:222-251 | a subject's first login renames and deactivates everybody else who holds the name, ignoring case; a later one leaves everybody else alone |
| `OidcLogin.DeletedWasInTheWay` | src/server/oasisapi/oidc/generic_auth.py:241-244 | who is deleted had the archive name of a holder and was not the subject's own user |
| `OidcLogin.LoginNameIs` | src/server/oasisapi/oidc/generic_auth.py:37-42 | a login goes by the username claimed, a service account's without one by its subject |
| `OidcLogin.LoginsKeepIdentities` | src/server/oasisapi/oidc/generic_auth.py:51-63 | over any run of login attempts each subject stays with one user |
| `OidcLogin.EmptySubjectLogin` | src/server/oasisapi/oidc/generic_auth.py:209-220 | a login with an empty subject keeps one user per subject iff archive names clash, groups are missing, or every user bound to it bears the login's name |
| `OidcLogin.MissingSubjectFails` | src/server/oasisapi/oidc/generic_auth.py:184-196 | a login without a subject changes nothing and fails, for want of groups or else in the database |
| `OidcLogin.RetryKeepsIdentities` | src/server/oasisapi/oidc/generic_auth.py:51-63 | the same with logins of others between the two attempts; left alone, both come to one |
| `OidcLogin.RetrySucceedsIff` | src/server/oasisapi/oidc/generic_auth.py:51-63 | with its retry a login succeeds iff groups are claimed or it is a service account's and nobody is in the way of its name at one of the attempts |
| `OidcLogin.EmptySubjectsCollide` | src/server/oasisapi/oidc/generic_auth.py:209-220 | two accounts without a subject end up bound to the same one |
| `Text.LowerIgnoresCase` | src/server/oasisapi/oidc/generic_auth.py:105-115 | texts agree in lower case iff letter by letter they are the same or differ in case |
| `OidcLogin.ArchiveOneMore` | src/server/oasisapi/oidc/generic_auth.py:241-251 | archiving users one at a time adds up to archiving them all at once |
| `OidcLogin.ClashOneMore` | src/server/oasisapi/oidc/generic_auth.py:241-251 | a rename is refused exactly when the name belongs to a user of the same identity |
| `OidcLogin.Backend.GetUserByOidcId` | src/server/oasisapi/oidc/generic_auth.py:107-117 | the user bound to a non-empty subject ignoring case, if there is exactly one |
| `OidcLogin.Backend.ArchiveOldUser` | src/server/oasisapi/oidc/generic_auth.py:222-251 | all holders of the name but the subject's own user are archived, or a name clash stops it |
| `OidcLogin.Backend.UpdateUser` | src/server/oasisapi/oidc/generic_auth.py:79-94 | name, role and groups follow the claims; a taken name or missing groups fail |
| `OidcLogin.Backend.CreateUser` | src/server/oasisapi/oidc/generic_auth.py:65-77 | an unarchived holder of the name is reused only for its own subject |
| `OidcLogin.Backend.GetOrCreateUser` | src/server/oasisapi/oidc/generic_auth.py:26-63 | one retry after a name clash, with any logins of others in between |

## Left out

- KeysMerge.MergedLookupIsWholeLookup: needs a lookup that works subject by subject; for a row-wise one only the set of keys is the same (`MergedRowLookupHasSameKeys`), for any other kind nothing is promised.
- SubTaskTable.RecordedIdsMatchTasks: the reports meanwhile name sub-tasks by their own ids; what a late one of an earlier run does is said by `LateNoticeIsTakenForNewTask`.
- ChunkStore.Filestore.LoadChunk: a stored file is identified by its reference; that the exposure did not change since it was stored is the caller's business.
- AnalysisFlight.SecondStartExactly: a chain's status notices are handled when they are sent (its failure callback may come late); a late notice is covered by `LateNoticeBlocksStarts`, and chains of V1 starts are not followed.
- Celery's own work: retries, revocation, error callbacks between tasks, the rewriting of single-task chords, and the joining of two stage chains; results are a list of single and group nodes.
- `mark_task_as_queued` resets any status but is sent by no other code, so it is not among the messages.
- Files, archives, logs, tracebacks and timestamps other than queue, start and end times; columns of the key files are one value per row, so the union of differing columns is not modelled.
- `events`, `occurrence` and `ensemble_mapping` files, of which the first is taken.
- V1 single-server runs beyond the commands they share with V2: their callbacks write statuses unguarded.
- The queue-status message itself (`parse_running_analyses`, `parse_queued_pending`), and the filters by deployment and api version: glue between the parts modelled.
- Kubernetes, HTTP and websocket clients: a replica change is a recorded command, an answer of the platform a parameter.
- Ceilings are exact on integers; the original divides in floating point first, exact far beyond the sizes in use.
- Case folding is for ASCII letters; database collation and the maximum length of usernames are ignored.
- A null group list is treated like a missing one, and deployments always have an api version.
- Group permission checks, serializers, views and migrations.
