# ARIA orchestrator core, modelled in Dafny

This project models the bookkeeping core of the ARIA TOSCA orchestrator:

- **how a workflow runs**: task and execution state signals, translation of an API task graph into an execution graph, the dry and stub executors, and the process executor's framed socket protocol and request dispatch;
- **how task state is written back to storage**: SQLAlchemy-style change instrumentation and `apply_tracked_changes`;
- **the contexts around them**: the thread-local current workflow context, the attribute views of operation contexts, the plugin working directory and the context serialization dict;
- **the service instantiation helpers**: node ids, inputs, substitution mappings, policy and group targets;
- **the execution-log rendering of the CLI**;
- **the relationship helpers of the model layer**.

Each source file has one Dafny module of its own:

- `events_handler.dfy` (`EventsHandler`) covers task and execution state transitions and retry accounting.
- `translation.dfy` (`Translation`) covers building the execution graph fragment from a task graph.
- `framing.dfy` (`Framing`) covers length-prefixed messages over a stream with partial reads.
- `process_executor.dfy` (`ProcessExecutor`) covers the executor's task registry, its request handlers and its listener loop.
- `instrumentation.dfy` (`Instrumentation`) covers the change-tracking listeners and the application of tracked changes to storage.
- `api_task.dfy` (`ApiTask`) covers operation and workflow tasks and their names.
- `workflow_context.dfy` (`WorkflowContext`) covers the current-context slot and `push`.
- `attribute_dict.dfy` (`AttributeDict`) and `operation_context.dfy` (`OperationContext`) cover attribute views and context fields.
- `instantiation.dfy` (`Instantiation`) covers the template-to-instance helpers.
- `execution_logging.dfy` (`ExecutionLogging`) covers log line formats, verbosity and traceback blocks.
- `dry_executor.dfy` (`DryExecutor`) covers the marker, stub and dry executors.
- `relationship.dfy` (`Relationship`) covers the relationship and foreign-key declarations.

`base.dfy` (`Base`) holds the `Option` and `Result` wrappers, bytes, decimal rendering and string splitting. `dicts.dfy` (`Dicts`) holds Python dicts as sequences of pairs, iterated in insertion order (see "Left out" for what that order means here).

The clock is an abstract `now` parameter. Wherever the code depends on something outside this model, the model takes it as a parameter:

- strftime;
- the node-state lookup;
- the pluralizer;
- value conversions;
- the answer of "does the logger have this level".

## Model

| member | source | states |
|---|---|---|
| EventsHandler.TaskSent | aria/orchestrator/workflows/core/events_handler.py:32-35 | the task becomes SENT and no other field changes |
| EventsHandler.TaskStarted | aria/orchestrator/workflows/core/events_handler.py:38-42 | the task becomes STARTED, stamped with the start time, and nothing else changes |
| EventsHandler.RetryDelay | aria/orchestrator/workflows/core/events_handler.py:62-66 | a retry request that carries an interval overrides the task's own retry interval; any other error uses the task's |
| EventsHandler.TaskFailed | aria/orchestrator/workflows/core/events_handler.py:50-72 | the task is RETRYING exactly when the error is not an abort, the retry budget remains (or retries are infinite) and failures are not ignored; a retry bumps the count and sets the due time, otherwise the task is FAILED with an end time |
| EventsHandler.NodeStateUpdate | aria/orchestrator/workflows/core/events_handler.py:140-150 | a node state is written back exactly when the task has a node, its interface is the normative lifecycle interface and the node reports a non-empty state |
| EventsHandler.WithNodeUpdate | aria/orchestrator/workflows/core/events_handler.py:140-150 | only the task's node can change, and only when the state hook wrote one |
| EventsHandler.OnStartSignal | aria/orchestrator/workflows/core/events_handler.py:38-47 | both start receivers together leave the task STARTED at the signal time, its node as the lifecycle hook leaves it, and every other field untouched |
| EventsHandler.TaskSucceeded | aria/orchestrator/workflows/core/events_handler.py:75-81 | the task is SUCCESS with an end time, its node as the lifecycle hook leaves it, and every other field untouched |
| EventsHandler.FailedKeepsRetryBound | aria/orchestrator/workflows/core/events_handler.py:53-68 | one failure keeps a task with finite max_attempts within max_attempts - 1 retries |
| EventsHandler.RetryCountBounded | aria/orchestrator/workflows/core/events_handler.py:53-68 | any sequence of failures keeps the retry count at most max_attempts - 1 |
| EventsHandler.DefaultAttemptsFirstFailureFinal | aria/orchestrator/workflows/core/events_handler.py:53-72 | with max_attempts 1 the first failure is final and no retry is counted |
| EventsHandler.AttemptsExhausted | aria/orchestrator/workflows/core/events_handler.py:53-72 | a task failing with ordinary errors is retried exactly max_attempts - 1 times and then fails |
| EventsHandler.WorkflowStarted | aria/orchestrator/workflows/core/events_handler.py:84-92 | a cancelling or cancelled execution is left alone; any other becomes STARTED with a start time |
| EventsHandler.WorkflowFailed | aria/orchestrator/workflows/core/events_handler.py:95-101 | the execution is FAILED with the exception text and an end time, start time kept |
| EventsHandler.WorkflowSucceeded | aria/orchestrator/workflows/core/events_handler.py:104-109 | the execution is SUCCEEDED with an end time, start time and error kept |
| EventsHandler.WorkflowCancelled | aria/orchestrator/workflows/core/events_handler.py:112-124 | a cancelled execution is untouched, an ended one is untouched and reported, any other becomes CANCELLED with an end time |
| EventsHandler.WorkflowCancelling | aria/orchestrator/workflows/core/events_handler.py:127-137 | a pending execution is cancelled outright, an ended one is reported, any other becomes CANCELLING |
| EventsHandler.CancelledIdempotent | aria/orchestrator/workflows/core/events_handler.py:112-124 | a second cancelled signal changes nothing |
| EventsHandler.CancelWinsOverStart | aria/orchestrator/workflows/core/events_handler.py:84-92 | after either cancel handler, a late start signal leaves the execution as it is |
| EventsHandler.CancellingAfterCancelled | aria/orchestrator/workflows/core/events_handler.py:127-137 | a cancelling signal after CANCELLED moves the execution back to CANCELLING (no guard for that status) |
| EventsHandler.EndedIsFinalForCancel | aria/orchestrator/workflows/core/events_handler.py:112-137 | neither cancel handler changes a succeeded or failed execution |
| EventsHandler.CancelNoticeMissingSpace | aria/orchestrator/workflows/core/events_handler.py:155-156 | the two notices agree up to "request" and differ in the next character: a space is missing |
| EventsHandler.CancelNoticeAsWritten | aria/orchestrator/workflows/core/events_handler.py:153-156 | the two literals join as "cancel requestwas fully processed" |
| EventsHandler.CancelNotice | aria/orchestrator/workflows/core/events_handler.py:153-156 | the notice reads "cancel request was fully processed" |
| Translation.MarkersDistinct | aria/orchestrator/workflows/core/translation.py:96-101 | no start marker id equals any end marker id |
| Translation.TaskId | aria/orchestrator/workflows/core/translation.py:88-93 | a workflow task is known by its graph's id, any other task by its own id |
| Translation.StartId | aria/orchestrator/workflows/core/translation.py:96-97 | the start marker id is the graph id followed by -Start |
| Translation.EndId | aria/orchestrator/workflows/core/translation.py:100-101 | the end marker id is the graph id followed by -End |
| Translation.DepsOf | aria/orchestrator/workflows/core/translation.py:45 | the dependencies of a task are the graph's tasks at its dependency positions, in order |
| Translation.NonDependencyTasks | aria/orchestrator/workflows/core/translation.py:104-107 | a task is listed exactly when no task of the graph depends on it |
| Translation.NonDependencyFrom | aria/orchestrator/workflows/core/translation.py:104-107 | from position k on, a task is listed exactly when it is a task of the graph nobody depends on |
| Translation.ResolveDeps | aria/orchestrator/workflows/core/translation.py:86-93 | no dependencies give the default; otherwise one execution id per dependency, in order |
| Translation.EdgesInto | aria/orchestrator/workflows/core/translation.py:80-83 | one edge from each dependency into the task, in order |
| Translation.Build | aria/orchestrator/workflows/core/translation.py:24-77 | translation fails exactly when some task, at any depth, is neither an operation nor a workflow; otherwise the fragment starts with the start marker, ends with the end marker, the start marker hangs off depends_on, the end marker off the resolved sink tasks, and every task is translated |
| Translation.BuildTasks | aria/orchestrator/workflows/core/translation.py:44-69 | the loop from position k fails exactly when some task from k on is untranslatable; otherwise every task from k on is translated |
| Translation.ConcatTranslated | aria/orchestrator/workflows/core/translation.py:44-69 | the fragment of task k followed by the fragment of the later tasks translates every task from k on |
| Translation.IndependentOperationFollowsStart | aria/orchestrator/workflows/core/translation.py:44-56 | an operation task without dependencies gets an edge from its graph's start marker |
| Translation.NoSinksNoNonDependencyTasks | aria/orchestrator/workflows/core/translation.py:104-107 | when every task has a dependent, no task is a non-dependency task |
| Translation.EndFollowsStartWhenNoSinks | aria/orchestrator/workflows/core/translation.py:71-77 | when every task has a dependent, the last edge runs from the start marker to the end marker |
| Translation.BuildAddsNothingElse | aria/orchestrator/workflows/core/translation.py:24-77 | every node of the translation is a marker or a node of one of its tasks, and every edge enters the start marker from depends_on, the end marker from a resolved sink, or belongs to a task, at every depth |
| Translation.BuildTasksAddsNothingElse | aria/orchestrator/workflows/core/translation.py:44-69 | the loop from position k adds only nodes and edges of the tasks from k on |
| Translation.HeadAddsNothingElse | aria/orchestrator/workflows/core/translation.py:44-69 | the fragment of task k holds only that task's nodes and edges |
| Translation.ConcatAddsNothingElse | aria/orchestrator/workflows/core/translation.py:44-69 | the fragment of task k followed by the later tasks adds only nodes and edges of the tasks from k on |
| Framing.PackLength | aria/orchestrator/workflows/executor/process.py:240-241 | a length packs into exactly _INT_SIZE bytes |
| Framing.UnpackLength | aria/orchestrator/workflows/executor/process.py:251-252 | four bytes unpack to a length below 2^32 whose low byte is the first byte |
| Framing.UnpackPack | aria/orchestrator/workflows/executor/process.py:251-252 | unpacking a packed length gives the length back |
| Framing.PackUnpack | aria/orchestrator/workflows/executor/process.py:251-252 | every four bytes unpack to a length below 2^32 that packs back to the same bytes |
| Framing.Frame | aria/orchestrator/workflows/executor/process.py:236-246 | the framed bytes are the length header followed by the payload |
| Framing.SendMessage | aria/orchestrator/workflows/executor/process.py:236-246 | framing succeeds exactly when the payload length fits the unsigned int format, and the header unpacks to the payload length |
| Framing.Recv | aria/orchestrator/workflows/executor/process.py:264 | a receive returns between one and count bytes unless the peer has closed, taken from the front of the stream |
| Framing.RecvBytes | aria/orchestrator/workflows/executor/process.py:259-268 | reading returns the first min(count, available) bytes of the stream and leaves the rest |
| Framing.RecvMessage | aria/orchestrator/workflows/executor/process.py:249-256 | reading a message fails exactly when fewer than four header bytes arrive; otherwise it returns the header-announced number of payload bytes (fewer if the peer closes) |
| Framing.SendThenReceive | aria/orchestrator/workflows/executor/process.py:236-256 | a sent frame read back from a stream that starts with it gives the payload and leaves exactly what followed |
| ProcessExecutor.Close | aria/orchestrator/workflows/executor/process.py:109-117 | close stops the executor and sends the closed message exactly when it was not stopped yet |
| ProcessExecutor.CloseIdempotent | aria/orchestrator/workflows/executor/process.py:109-111 | closing twice sends the closed message once |
| ProcessExecutor.Execute | aria/orchestrator/workflows/executor/process.py:119-121 | execute fails with "Executor closed" exactly when stopped, otherwise registers the task |
| ProcessExecutor.ExecuteAfterClose | aria/orchestrator/workflows/executor/process.py:139-141 | nothing can be executed after close |
| ProcessExecutor.HandleStarted | aria/orchestrator/workflows/executor/process.py:196-197 | a registered task is signalled started; an unknown id raises |
| ProcessExecutor.HandleSucceeded | aria/orchestrator/workflows/executor/process.py:199-207 | the task is removed and reported succeeded, or failed with the storage-failure suffix when its changes cannot be applied; an unknown id raises |
| ProcessExecutor.HandleFailed | aria/orchestrator/workflows/executor/process.py:209-219 | the task is removed and reported failed with the subprocess's exception and traceback, or, when applying its changes fails, with the apply error's message naming that exception and the apply error's traceback; an unknown id raises |
| ProcessExecutor.HandleApply | aria/orchestrator/workflows/executor/process.py:221-226 | an apply error goes into the response as its message, exactly when applying fails; the registry is unchanged |
| ProcessExecutor.Dispatch | aria/orchestrator/workflows/executor/process.py:169-194 | a closed request stops the loop, an unknown type answers "Invalid request type", terminal requests remove the task, and the response carries an exception exactly when the handler failed |
| ProcessExecutor.Listen | aria/orchestrator/workflows/executor/process.py:166-181 | one response per accepted request, the registry only shrinks, and every signal names a task that was registered |
| ProcessExecutor.DispatchTerminal | aria/orchestrator/workflows/executor/process.py:199-219 | one request emits a terminal signal for a task only by removing it from the registry |
| ProcessExecutor.AtMostOneTerminalEvent | aria/orchestrator/workflows/executor/process.py:166-219 | whatever requests arrive, a registered task is reported succeeded or failed at most once |
| Instrumentation.ValueEquals | aria/storage/instrumentation.py:235-238 | a _Value equals exactly the tracked scalar with the same initial and current value |
| Instrumentation.NewInstanceIdInjective | aria/storage/instrumentation.py:84-87 | different counts give different new-instance ids |
| Instrumentation.GetPutAttrs | aria/storage/instrumentation.py:164-166 | writing one instance's attributes changes no other instance's |
| Instrumentation.AddNewInstance | aria/storage/instrumentation.py:129-134 | the model's entry holds the id's old fields updated with the new ones |
| Instrumentation.NewEntryAfterAddSame | aria/storage/instrumentation.py:129-134 | the written entry is the old entry updated with the fields |
| Instrumentation.NewEntryAfterAddOther | aria/storage/instrumentation.py:129-134 | every other model and id keeps its entry |
| Instrumentation.OnAttach | aria/storage/instrumentation.py:125-134 | an instance of another class is ignored; otherwise it joins the expunge list and its model gets an entry, tracked changes untouched |
| Instrumentation.AddKeepsNumbering | aria/storage/instrumentation.py:129-134 | recording under a numbered id keeps every id numbered |
| Instrumentation.FreshIdAbsent | aria/storage/instrumentation.py:84-87 | the next id is used under no model |
| Instrumentation.AttachUsesFreshId | aria/storage/instrumentation.py:128-134 | the k-th attached instance is stored under NEW_INSTANCE_k with exactly its fields |
| Instrumentation.AttachLeavesOtherEntries | aria/storage/instrumentation.py:128-134 | attaching changes no other new-instance entry |
| Instrumentation.AttachKeepsNumbering | aria/storage/instrumentation.py:128-134 | attaching keeps every new-instance id numbered within the expunge list |
| Instrumentation.OnSet | aria/storage/instrumentation.py:162-172 | the set listener records _Value(_STUB, converted value) for the key, returns that value, and changes no other key, instance or new-instance entry |
| Instrumentation.SetAlwaysApplies | aria/storage/instrumentation.py:171 | a recorded set always counts as a change when applied |
| Instrumentation.Tagged | aria/storage/instrumentation.py:152-155 | the appended item carries the value's fields and its model name under _MODEL_CLS |
| Instrumentation.OnAppend | aria/storage/instrumentation.py:148-156 | the tagged item joins the end of the attribute's list; an attribute holding a scalar fails; nothing else changes |
| Instrumentation.AppendsKeepOrder | aria/storage/instrumentation.py:148-156 | two appends leave both items in order |
| Instrumentation.TrackVersion | aria/storage/instrumentation.py:182-186 | the first seen version is kept; other attributes are untouched |
| Instrumentation.TrackColumn | aria/storage/instrumentation.py:187-194 | an untracked column is tracked as _Value(initial, converted); a tracked one keeps its entry |
| Instrumentation.LoadColumnsTracksAll | aria/storage/instrumentation.py:187-195 | after the loop every instrumented column is tracked |
| Instrumentation.LoadColumns | aria/storage/instrumentation.py:186-195 | the instance's attribute dict gains exactly the loaded columns and keeps every other attribute |
| Instrumentation.LoadColumnsKeeps | aria/storage/instrumentation.py:187-195 | the loop never changes an attribute already tracked |
| Instrumentation.LoadColumnsAdds | aria/storage/instrumentation.py:187-194 | each column met untracked is tracked as _Value(initial, converted) |
| Instrumentation.LoadColumnsFails | aria/storage/instrumentation.py:195 | the loop fails exactly when some instrumented column is tracked as a collection |
| Instrumentation.OnLoad | aria/storage/instrumentation.py:177-195 | the load listener changes only the loaded instance's entry and leaves new instances alone |
| Instrumentation.LoadTracksOnlyNew | aria/storage/instrumentation.py:187-194 | loading tracks an untracked column as _Value(initial, converted) and keeps what was tracked |
| Instrumentation.LoadTwiceSameAsOnce | aria/storage/instrumentation.py:177-195 | loading the same instance again changes nothing further |
| Instrumentation.LoadedColumnsAreScalars | aria/storage/instrumentation.py:187-195 | after a successful loop every column is a tracked scalar |
| Instrumentation.LoadColumnsAllTracked | aria/storage/instrumentation.py:187-195 | with every column already a tracked scalar, the loop changes nothing |
| Instrumentation.Clear | aria/storage/instrumentation.py:202-211 | clear empties new instances and the expunge list; with a target it drops that instance only, otherwise all tracked changes |
| Instrumentation.ClearRestartsNumbering | aria/storage/instrumentation.py:202-211 | after a clear the next new instance is NEW_INSTANCE_1 |
| Instrumentation.SessionFor | aria/storage/instrumentation.py:93-97 | a session exists exactly when the model storage has that table; otherwise the StorageError message |
| Instrumentation.RegisterNewInstanceListener | aria/storage/instrumentation.py:121-135 | without a model storage new instances cannot be tracked |
| Instrumentation.AddItems | aria/storage/instrumentation.py:279-283 | collection items are added exactly when the collection exists and every item names a known model; columns are untouched |
| Instrumentation.ApplyEntry | aria/storage/instrumentation.py:277-286 | a scalar entry never fails and leaves collections alone; its column takes the current value exactly when it changed, otherwise the columns stay as they were |
| Instrumentation.ApplyAttrs | aria/storage/instrumentation.py:275-286 | a successful loop reports a version write exactly when some entry writes the version column as a scalar |
| Instrumentation.ApplyAttrsVersion | aria/storage/instrumentation.py:284-286 | the version flag is raised exactly when the log writes the version column |
| Instrumentation.ApplyAttrsKeeps | aria/storage/instrumentation.py:272-286 | a column no entry writes keeps its value |
| Instrumentation.ApplyAttrsWrites | aria/storage/instrumentation.py:284-286 | every changed scalar ends holding its current value |
| Instrumentation.ValidateVersion | aria/storage/instrumentation.py:307-322 | validation fails exactly when the committed version is truthy and differs from the object's |
| Instrumentation.Show | aria/storage/instrumentation.py:316-322 | an integer version prints with a minus sign exactly when it is negative, and as digits otherwise |
| Instrumentation.ShowIntInjective | aria/storage/instrumentation.py:316-322 | distinct integer versions print differently |
| Instrumentation.ApplyInstance | aria/storage/instrumentation.py:272-289 | no attributes leave storage alone; a missing row fails; only the instance's table changes |
| Instrumentation.VersionConflictFails | aria/storage/instrumentation.py:307-322 | a log that writes a version different from the one it read fails to apply |
| Instrumentation.ApplyInstances | aria/storage/instrumentation.py:272-289 | applying a model's instances changes only that model's table and no table's size |
| Instrumentation.NewRows | aria/storage/instrumentation.py:266-268 | one row per new instance, with its fields |
| Instrumentation.PutNewInstances | aria/storage/instrumentation.py:263-270 | putting succeeds exactly when every model exists; the set of tables is kept |
| Instrumentation.PutNewInstancesCount | aria/storage/instrumentation.py:263-270 | each model's table grows by its number of new instances |
| Instrumentation.ApplyModels | aria/storage/instrumentation.py:258-289 | the tracked-instance loop keeps the set of tables |
| Instrumentation.ApplyTrackedChanges | aria/storage/instrumentation.py:248-289 | the corrected application keeps the set of tables |
| Instrumentation.NewInstancesPutOnce | aria/storage/instrumentation.py:262-270 | the corrected application stores each new instance exactly once, whatever the tracked changes |
| Instrumentation.PutAgain | aria/storage/instrumentation.py:263-270 | a second pass over already-put instances fails whenever there is an instance to re-create |
| Instrumentation.NewInstancesLostAsWritten | aria/storage/instrumentation.py:258-270 | as written, new instances with no tracked changes are never stored; the corrected version stores them |
| Instrumentation.ApplyTrackedChangesAsWritten | aria/storage/instrumentation.py:248-289 | as written, the tables are kept, no tracked changes leave storage untouched, and without new instances it agrees with the corrected application |
| Instrumentation.NewInstanceId | aria/storage/instrumentation.py:85-87 | the id is NEW_INSTANCE, an underscore and the expunge-list length |
| Instrumentation.PutNoNewInstances | aria/storage/instrumentation.py:263-270 | an empty new-instance entry leaves storage alone |
| Instrumentation.ApplySingleScalar | aria/storage/instrumentation.py:272-289 | one changed non-version column is written into that row only |
| Instrumentation.AsWrittenRoutesToLastNewModel | aria/storage/instrumentation.py:258-272 | as written, tracked instances go through the last new-instance model's storage |
| Instrumentation.IntendedRoutesToOwnModel | aria/storage/instrumentation.py:258-272 | corrected, tracked instances go through their own model's storage |
| Instrumentation.ChangeMisroutedAsWritten | aria/storage/instrumentation.py:258-289 | as written, a change lands in another model's row with the same id; corrected, in the tracked model's row |
| Instrumentation.SecondModelFailsAsWritten | aria/storage/instrumentation.py:258-270 | as written, a second tracked model makes the nested loop fail on instance objects; corrected, the application succeeds |
| ApiTask.TaskNameRoundTrip | aria/orchestrator/workflows/api/task.py:60 | the task name can be parsed back into interface, operation, actor type and actor name |
| ApiTask.TaskName | aria/orchestrator/workflows/api/task.py:60 | the name starts with the interface and a colon and ends with the actor name, three separators in all |
| ApiTask.ParseTaskName | aria/orchestrator/workflows/api/task.py:60 | the parsed interface and type hold no colon and the operation no @ |
| ApiTask.ParseTaskNameSound | aria/orchestrator/workflows/api/task.py:60 | whatever parses is the name of the parts it parses into |
| ApiTask.NodeAndRelationshipNamesDiffer | aria/orchestrator/workflows/api/task.py:76-94 | a node task and a relationship task never share a name |
| ApiTask.TypesSeparateNames | aria/orchestrator/workflows/api/task.py:76-94 | task names built for two different actor types differ, whatever the other parts are |
| ApiTask.LookupOperation | aria/orchestrator/workflows/api/task.py:99 | the operation is found exactly when the interface and the operation exist |
| ApiTask.NewOperationTask | aria/orchestrator/workflows/api/task.py:62-102 | the assertions fail for other actor types or empty names; a missing context fails; settings default to the context's; a non-stub task takes its plugin and implementation from the looked-up operation |
| ApiTask.OperationTaskNameParses | aria/orchestrator/workflows/api/task.py:91-105 | a built task's repr parses back into its interface, operation and actor |
| ApiTask.ToStoredTask | aria/orchestrator/workflows/api/task.py:83-88 | the stored task starts PENDING with no retries and the task's settings |
| ApiTask.DefaultTaskFailsOnce | aria/orchestrator/workflows/api/task.py:83-88 | a task built with every default fails on its first failure |
| ApiTask.TaskContext | aria/orchestrator/workflows/api/task.py:31-35 | an explicit context wins, otherwise the thread's current one |
| ApiTask.NewWorkflowTask | aria/orchestrator/workflows/api/task.py:113-121 | creation fails exactly when no context exists; the workflow function gets the task's context |
| ApiTask.WorkflowTaskUsesPushedContext | aria/orchestrator/workflows/api/task.py:119-121 | inside push(c) a workflow task uses c |
| WorkflowContext.NewContext | aria/orchestrator/context/workflow.py:31-43 | parameters default to {}, max attempts to 1, retry interval to 0, ignore failure to false |
| WorkflowContext.Get | aria/orchestrator/context/workflow.py:108-116 | get succeeds exactly when a context is set, else "No context was set" |
| WorkflowContext.Run | aria/orchestrator/context/workflow.py:118-130 | every block leaves the thread's context as it found it |
| WorkflowContext.RunIsStack | aria/orchestrator/context/workflow.py:118-130 | save-and-restore in one slot behaves as a stack of pushed contexts |
| WorkflowContext.GetInsidePush | aria/orchestrator/context/workflow.py:118-130 | inside push(c), get returns c |
| WorkflowContext.RaiseInsidePushRestores | aria/orchestrator/context/workflow.py:127-130 | an exception inside push still restores the previous context |
| WorkflowContext.NestedPushUnwinds | aria/orchestrator/context/workflow.py:118-130 | nested pushes unwind last in, first out |
| AttributeDict.Unwrap | aria/orchestrator/context/common.py:281-282 | a parameter gives its value, anything else itself |
| AttributeDict.Walk | aria/orchestrator/context/common.py:250-252 | indexing into a non-dict fails |
| AttributeDict.NestedValue | aria/orchestrator/context/common.py:248-253 | the top-level view is the attributes; one level down, the parameter's value |
| AttributeDict.GetItem | aria/orchestrator/context/common.py:228-237 | a dict value gives a view one key deeper |
| AttributeDict.UpdateAttr | aria/orchestrator/context/common.py:255-279 | the key set is kept; a top-level write replaces the parameter's value and keeps its name; a write below the first nesting level never succeeds |
| AttributeDict.SetItem | aria/orchestrator/context/common.py:239-246 | a new top-level key is wrapped and put; an existing or nested key is updated |
| AttributeDict.SetThenGet | aria/orchestrator/context/common.py:228-246 | a top-level write reads back |
| AttributeDict.SetKeepsOthers | aria/orchestrator/context/common.py:239-246 | a top-level write leaves every other attribute alone |
| AttributeDict.NestedSetThenGet | aria/orchestrator/context/common.py:228-266 | a write one level down reads back |
| AttributeDict.Contains | aria/orchestrator/context/common.py:216-220 | membership by scanning keys() holds exactly when the key is present |
| AttributeDict.Len | aria/orchestrator/context/common.py:222-223 | the length is the number of keys |
| AttributeDict.CopyEntries | aria/orchestrator/context/common.py:298-314 | the copy has the same keys with parameters unwrapped |
| AttributeDict.SetAll | aria/orchestrator/context/common.py:325-331 | one storage call per pair, at the same nesting level |
| AttributeDict.Update | aria/orchestrator/context/common.py:325-331 | one storage call per pair of the dict and the keywords |
| AttributeDict.SetAllLastWriteWins | aria/orchestrator/context/common.py:325-331 | each key written holds the value of its last write |
| AttributeDict.SetWrites | aria/orchestrator/context/common.py:239-246 | a top-level write stores a parameter holding the value |
| AttributeDict.SetAllKeeps | aria/orchestrator/context/common.py:325-331 | a key never written keeps its value |
| AttributeDict.UpdateKeywordWins | aria/orchestrator/context/common.py:325-331 | a keyword argument wins over the dict's pair for the same key |
| OperationContext.GetAttr | aria/orchestrator/context/operation.py:36-37 | reading succeeds exactly when the key is present, giving its parameter's value |
| OperationContext.SetAttr | aria/orchestrator/context/operation.py:39-46 | an existing key is updated in place; a new key is wrapped and appended with a put |
| OperationContext.SetThenGetAttr | aria/orchestrator/context/operation.py:36-46 | a written value reads back and no other key changes |
| OperationContext.SetAttrs | aria/orchestrator/context/operation.py:48-54 | one storage call per pair |
| OperationContext.UpdateAttrs | aria/orchestrator/context/operation.py:48-54 | one storage call per pair of the dict and the keywords |
| OperationContext.SetAttrsLastWriteWins | aria/orchestrator/context/operation.py:48-54 | each key holds the value of its last write |
| OperationContext.UpdateAttrsKeywordWins | aria/orchestrator/context/operation.py:48-54 | a keyword argument wins over the dict's pair |
| OperationContext.AttrItems | aria/orchestrator/context/operation.py:64-66 | items are each parameter's name and value, in order |
| OperationContext.AttrKeys | aria/orchestrator/context/operation.py:56-58 | one key per stored parameter, the parameter's own name, in order |
| OperationContext.AttrValues | aria/orchestrator/context/operation.py:60-62 | one value per stored parameter, the parameter's value, in order |
| OperationContext.ItemsAlign | aria/orchestrator/context/operation.py:56-66 | the i-th item is the i-th key paired with the i-th value |
| OperationContext.KeysAreStoredKeys | aria/orchestrator/context/operation.py:39-58 | while every parameter is stored under its own name, keys() are the dict's keys |
| OperationContext.KeysLookUpValues | aria/orchestrator/context/operation.py:36-62 | with unique keys, reading the i-th key gives the i-th value |
| OperationContext.SetAttrKeys | aria/orchestrator/context/operation.py:39-58 | after a write keys() holds exactly the old keys and the written key; an old key keeps its place |
| OperationContext.PluginWorkdir | aria/orchestrator/context/operation.py:122-133 | no plugin gives no directory; otherwise the work directory joined with plugins, the service id and the plugin name |
| OperationContext.PluginWorkdirInjective | aria/orchestrator/context/operation.py:122-133 | different services or plugins get different directories under one work directory |
| OperationContext.SerializationDict | aria/orchestrator/context/operation.py:135-152 | a storage is serialized exactly when the context has one |
| OperationContext.StorageDict | aria/orchestrator/context/operation.py:135-152 | a storage serializes to its configuration, no storage to none |
| OperationContext.DeserializeFromDict | aria/orchestrator/context/operation.py:154-161 | a storage is rebuilt, from its configuration, exactly when that configuration is present and non-empty |
| OperationContext.BuildStorage | aria/orchestrator/context/operation.py:154-161 | a storage is rebuilt exactly when its configuration is present and non-empty |
| OperationContext.SerializationRoundTrip | aria/orchestrator/context/operation.py:135-161 | a context with non-empty storage configurations comes back unchanged |
| OperationContext.SerializationKeepsFields | aria/orchestrator/context/operation.py:135-161 | every field but the storages survives the round trip |
| Instantiation.IdRange | aria/orchestrator/instantiation.py:31-34 | the ids first..next-1, with next - first of them |
| Instantiation.AddNodes | aria/orchestrator/instantiation.py:32-34 | count new nodes with consecutive ids named after the template; existing nodes are kept |
| Instantiation.InstantiateNodes | aria/orchestrator/instantiation.py:31-34 | as many nodes as the templates' default_instances add up to, with consecutive ids; each template's block of ids holds nodes named after that template |
| Instantiation.SumPrefixGrows | aria/orchestrator/instantiation.py:31-34 | the running count of nodes never shrinks from one template to the next |
| Instantiation.AssignInputs | aria/orchestrator/instantiation.py:47-51 | declared inputs take their last supplied value and keep their default otherwise; no other input appears |
| Instantiation.IssuesNameUndeclaredInputs | aria/orchestrator/instantiation.py:47-49 | an issue is reported exactly for each supplied name that is not declared |
| Instantiation.UnsupportedInjective | aria/orchestrator/instantiation.py:49 | different names give different issue messages |
| Instantiation.NodeIdsOf | aria/orchestrator/instantiation.py:130 | exactly the ids of the nodes from the template |
| Instantiation.InstantiateMapping | aria/orchestrator/instantiation.py:128-138 | no node of the template gives no mapping and one between-instances issue; otherwise a mapping to a node of the template |
| Instantiation.FirstMatch | aria/orchestrator/instantiation.py:138 | a found id belongs to the first node of the template |
| Instantiation.GroupIdsOf | aria/orchestrator/instantiation.py:105-107 | exactly the ids of the groups from the template |
| Instantiation.CollectNodeIds | aria/orchestrator/instantiation.py:102-104 | exactly the ids of nodes from any of the named templates |
| Instantiation.CollectGroupIds | aria/orchestrator/instantiation.py:105-107 | exactly the ids of groups from any of the named templates |
| Instantiation.ResolveTargets | aria/orchestrator/instantiation.py:98-108 | policy targets are exactly the nodes and groups of the named templates |
| Instantiation.TargetsInOrder | aria/orchestrator/instantiation.py:102-104 | ids are concatenated in the order of the target names |
| Instantiation.InstantiateOperation | aria/orchestrator/instantiation.py:85-95 | the operation keeps the template's name, implementation, dependencies, executor and retry settings |
| Instantiation.InstantiateCapability | aria/orchestrator/instantiation.py:67-73 | the capability keeps the template's name, type and occurrence bounds |
| ExecutionLogging.FormatOne | aria/cli/execution_logging.py:46-53 | a single-argument format succeeds exactly when it has no named field |
| ExecutionLogging.FieldValue | aria/cli/execution_logging.py:42-56 | a field without an index is its argument: item itself, an attribute of the item, or a keyword argument, each failing when absent; an indexed field needs the argument to resolve |
| ExecutionLogging.ItemAttr | aria/cli/execution_logging.py:42-56 | an item attribute other than msg, level, traceback and execution resolves exactly when the item has it |
| ExecutionLogging.SplitIndex | aria/cli/execution_logging.py:56 | a field name ending in [digits] splits into its argument name and that index; any other name is taken whole |
| ExecutionLogging.ArgValue | aria/cli/execution_logging.py:42-56 | item names the item, item.<name> resolves exactly when the item has that attribute, and any other name exactly when it is a keyword argument |
| ExecutionLogging.ItemField | aria/cli/execution_logging.py:42-56 | {item.<name>} prints the attribute and fails exactly when the item lacks it |
| ExecutionLogging.IndexedItemField | aria/cli/execution_logging.py:42-56 | {item.<name>[k]} prints the k-th character of the attribute and fails exactly when the attribute is missing or too short |
| ExecutionLogging.AddOptional | aria/cli/execution_logging.py:43-53 | a key is added only when the format names it, and then only if its format succeeds |
| ExecutionLogging.Kwargs | aria/cli/execution_logging.py:42-53 | each optional keyword is present exactly when its format is (actor also needs a task); created_at is the strftime of the item's time |
| ExecutionLogging.SplitLines | aria/cli/execution_logging.py:61 | the lines join back to the text, each ending at its only line break |
| ExecutionLogging.SplitFirstLine | aria/cli/execution_logging.py:61 | a line ending in a break is split off whole |
| ExecutionLogging.SplitLastLine | aria/cli/execution_logging.py:61 | text without a break is one line |
| ExecutionLogging.SplitLinesOfLines | aria/cli/execution_logging.py:61 | splitting text made of whole lines gives those lines back |
| ExecutionLogging.IndentLines | aria/cli/execution_logging.py:61-62 | each line gets a tab and a bar in front |
| ExecutionLogging.Unindent | aria/cli/execution_logging.py:61-62 | the two-character prefix of each line is dropped |
| ExecutionLogging.TracebackBlockRoundTrip | aria/cli/execution_logging.py:59-62 | the traceback can be read back from the appended block |
| ExecutionLogging.Render | aria/cli/execution_logging.py:37-64 | rendering fails when no format exists at min(verbosity, low); otherwise it succeeds exactly when the keyword arguments and the main format do, giving the main text followed, at medium verbosity for an item with a traceback, by the traceback block |
| ExecutionLogging.HigherVerbosityUsesLowFormat | aria/cli/execution_logging.py:38-40 | every verbosity from low up uses the low format and differs only by the traceback |
| ExecutionLogging.DefaultLines | aria/cli/execution_logging.py:22-28 | by default, no verbosity prints the bare message and low prints time, level initial and message |
| ExecutionLogging.DefaultNoVerboseLine | aria/cli/execution_logging.py:22-23 | with no verbosity the default prints the bare message |
| ExecutionLogging.DefaultLowVerboseLine | aria/cli/execution_logging.py:24-27 | at low verbosity the default prints time, level initial and message |
| ExecutionLogging.DefaultLowMain | aria/cli/execution_logging.py:25 | the low default main format renders as created_at, level initial and message with bars between |
| ExecutionLogging.RenderKeepsTraceback | aria/cli/execution_logging.py:58-62 | at medium verbosity and above the text is the low line, the marker, and a block the traceback reads back from |
| ExecutionLogging.Log | aria/cli/execution_logging.py:66-67 | logging succeeds exactly when the logger has the lower-cased level's method |
| ExecutionLogging.LogIgnoresCase | aria/cli/execution_logging.py:66-67 | the level's case does not matter |
| DryExecutor.MarkerExecute | aria/orchestrator/workflows/executor/dry.py:26-29 | a marker task sends no signal and starts before it ends |
| DryExecutor.StubExecute | aria/orchestrator/workflows/executor/dry.py:32-35 | a stub sends start before success, both without skip_logging |
| DryExecutor.DisplayNameRoundTrip | aria/orchestrator/workflows/executor/dry.py:46-50 | a relationship's display name gives back its source and target |
| DryExecutor.DisplayName | aria/orchestrator/workflows/executor/dry.py:46-50 | a relationship shows as source, arrow, target; any other actor by its own name |
| DryExecutor.DryExecute | aria/orchestrator/workflows/executor/dry.py:43-60 | start first and success last, both with skip_logging; between them only info lines |
| DryExecutor.DryLinesShareOperation | aria/orchestrator/workflows/executor/dry.py:52-58 | both lines begin with the display name after "<dry>" and differ |
| DryExecutor.ReplaySkipsOthers | aria/orchestrator/workflows/executor/dry.py:43-60 | what is not a signal does not reach the task handlers |
| DryExecutor.Replay | aria/orchestrator/workflows/executor/dry.py:43-60 | replaying changes only the status, the start and end times and the node; a trace without signals changes nothing |
| DryExecutor.StubTaskSucceeds | aria/orchestrator/workflows/executor/dry.py:32-35 | a stubbed task ends SUCCESS, started and ended at the signal time, retry count kept |
| DryExecutor.DryMatchesStub | aria/orchestrator/workflows/executor/dry.py:32-60 | dry running leaves the stored task exactly as stubbing it does |
| DryExecutor.MarkerLeavesRecord | aria/orchestrator/workflows/executor/dry.py:26-29 | a marker task leaves the stored record alone |
| Relationship.ReferenceRoundTrip | aria/modeling/relationship.py:53 | a reference names back its table |
| Relationship.ForeignKey | aria/modeling/relationship.py:31-54 | an integer column referencing the other table's id, cascading deletes, not nullable unless asked |
| Relationship.SetDefault | aria/modeling/relationship.py:322-334 | setdefault adds a missing key and changes no present one |
| Relationship.WithForeignKeys | aria/modeling/relationship.py:321-331 | the own foreign key wins over the other's, only when none was given |
| Relationship.WithCollection | aria/modeling/relationship.py:333-335 | a dict key sets the collection class unless one was given |
| Relationship.Declare | aria/modeling/relationship.py:311-348 | with a backref, a set back_populates is an AssertionError; otherwise back_populates is passed unless NO_BACK_POP; caller keys are kept |
| Relationship.OneToOneSelf | aria/modeling/relationship.py:57-90 | joined on the class's id column with post_update, targeting its own table |
| Relationship.OneToManySelf | aria/modeling/relationship.py:93-119 | remote side is the foreign key, back_populates False |
| Relationship.OneToOne | aria/modeling/relationship.py:122-161 | never fails; NO_BACK_POP gives no backref, otherwise a scalar backref named after back_populates or the own table |
| Relationship.OneToMany | aria/modeling/relationship.py:164-205 | cascade defaults to all and back_populates to the own table name |
| Relationship.ManyToOne | aria/modeling/relationship.py:208-243 | back_populates defaults to the plural of the own table; the own foreign key wins |
| Relationship.SecondaryTableFor | aria/modeling/relationship.py:362-381 | two id columns, each referencing one side |
| Relationship.ManyToMany | aria/modeling/relationship.py:246-308 | a list backref exists exactly when the other property is set or defaulted by a prefix; the association table is attached |
| Relationship.ManyToManyPrefix | aria/modeling/relationship.py:288-291 | a prefix prepends itself to the table name and names the backref |
| Relationship.FindTable | aria/modeling/relationship.py:355-357 | the first registry class with that table name, or none |
| Relationship.ClassForTable | aria/modeling/relationship.py:351-359 | the declaring class by name or table, else the first registry match, else "unknown table" |
| Relationship.SelfRelationResolves | aria/modeling/relationship.py:57-90 | a self relationship always resolves to the declaring class |

## Left out

- Sockets, threads and subprocess spawning in `process.py`: the listener is a function over the sequence of requests it accepts. The child process's `_main` and `_patch_ctx` are not modelled.
- The task and execution storage models, and session restore and expunge: a task or execution is a record with the fields the handlers read and write.
- SQLAlchemy event registration and `listens_for`: each listener is a pure function over the instrumentation state it updates.
- jsonpickle and pickle payloads: message bodies are opaque bytes.
- The error branch of `apply_tracked_changes`: it logs the successful updates and re-raises. The model returns `Err` and drops the partial store.
- The `struct` format `'I'`: modelled as four little-endian bytes, the native layout on the usual hosts.
- The UUID and id generation of tasks and contexts: ids are parameters.
- Other instantiation helpers: `create_inputs`, `instantiate_dict` and the other `instantiate_*` functions are not modelled. This covers artifacts, interfaces, policies, groups, triggers, substitutions and node details.
- Jinja rendering, resource download, `get_resource` and the logger objects (`PrefixedLogger`): not modelled.
- ExecutionLogging.Render: the verbosity constants are taken as 0, 1 and 2. `aria/cli/logger.py` is not part of this model.
- ExecutionLogging.SplitLines: treats only `\n` as a line boundary, where Python's `splitlines` also splits on other separators.
- AttributeDict.Walk: a parameter value is taken as not subscriptable, so views nest at most one level. The `Parameter` class is not part of this model.
- AttributeDict.GetItem: states only the deeper view a dict value yields; what a leaf read returns is stated by SetThenGet and NestedSetThenGet.
- `DecorateAttributes` and `__getattr__` forwarding of the context classes: not modelled.
- OperationContext.BuildStorage: the storage object is its configuration. The code passes an empty configuration dict through unchanged (aria/orchestrator/context/operation.py:156-161), so the context then holds a falsy `{}` where a storage would be; the model represents that value as no storage. SerializationRoundTrip therefore requires non-empty configurations.
- Relationship.OneToMany: caller `rel_kwargs` are copied, not aliased. The in-place mutation of the caller's dict is not modelled.
- Relationship.Declare: `NO_BACK_POP` is compared as a distinct value rather than by object identity.
- Translation.Build: `topological_order` is taken as the order of the task sequence. Only the nodes and edges the translation adds are modelled, not the graph library. ValidGraph does not require dependencies to come first, so the `KeyError` the graph library raises for an edge to a node not yet added is not modelled.
- Dict iteration order: Python 2 dicts (the code uses `iteritems` and `itervalues`) iterate in an arbitrary order. The model fixes that order as insertion order. Results that depend on it are properties of the model, not promises of the code: where SetAttrKeys places a new key, which model AsWrittenRoutesToLastNewModel calls the last new-instance model, the first registry match of FindTable and ClassForTable, and the order in which InstantiateNodes numbers the templates.
- OperationContext.SetAttrKeys: the position of a new key among the others follows the model's insertion order, which the code does not promise. The set of keys is stated without that assumption.
- AttributeDict.UpdateAttr: for a top-level key whose new value is a dict, the code stores the caller's dict and then copies and clears it (aria/orchestrator/context/common.py:268-278), which empties the caller's own dict. The model copies values and does not model that aliasing.
- Framing.SendMessage: the code writes the four-byte header with `send`, not `sendall` (aria/orchestrator/workflows/executor/process.py:245), so a short write of the header is possible. The model always writes the whole header.
- ExecutionLogging.FieldValue: a field name is an argument name with at most one final `[digits]` index. Chained attribute or index access past `item.<name>`, attribute access on keyword arguments, `!r`-style conversions and format specs are not modelled; an item attribute's text is given as data.
- ApiTask.Repr: returns the stored name; what that name holds is stated by OperationTaskNameParses and TaskNameRoundTrip.
- DryExecutor.DryExecute: `Replay` uses one `now` for every signal of a trace.
- Instrumentation.ApplyTrackedChanges: the corrected definition's contract states only that the tables are kept. NewInstancesPutOnce and IntendedRoutesToOwnModel state what it writes.
- Instrumentation.ApplyModels: what it writes per row is stated by ApplyInstance and ApplySingleScalar, not by its own contract.
- Instrumentation.ApplyTrackedChangesAsWritten: its own contract states only the kept tables, the empty case and agreement with the corrected definition when there are no new instances. What goes wrong otherwise is stated by the lemmas NewInstancesLostAsWritten, AsWrittenRoutesToLastNewModel, ChangeMisroutedAsWritten and SecondModelFailsAsWritten.
- Instrumentation.ApplyInstance: SQLAlchemy's `committed_state` for the version column is taken as the stored version when this application wrote that column, and absent otherwise. SQLAlchemy's own version bump on UPDATE and the `StaleDataError` it raises on a version mismatch (aria/storage/instrumentation.py:309-313) are not modelled; the only version conflict the model raises is the one ValidateVersion checks.

## Findings

| source | as written | input that shows it | evidently intended | confidence | as-written member | corrected member |
|---|---|---|---|---|---|---|
| aria/orchestrator/workflows/core/events_handler.py:153-156 | the two adjacent string literals join as "cancel requestwas fully processed" | any workflow name and status | "cancel request was fully processed" | not executed | EventsHandler.CancelNoticeAsWritten, EventsHandler.CancelNoticeMissingSpace | EventsHandler.CancelNotice |
| aria/storage/instrumentation.py:258-270 | the new-instance loop is nested inside the loop over tracked models, reusing `mapi_name` and `mapi` | no tracked changes and one new instance: it is never stored | put every new instance once, then update each tracked model through its own storage | not executed | Instrumentation.NewInstancesLostAsWritten | Instrumentation.ApplyTrackedChanges, Instrumentation.NewInstancesPutOnce |
| aria/storage/instrumentation.py:258-289 | after the nested loop, `mapi` names the last new-instance model, so tracked updates go to that table | one change to model A with an empty new-instance entry for model B: the change lands in B's row with the same id | update the tracked model's own row | not executed | Instrumentation.ChangeMisroutedAsWritten, Instrumentation.AsWrittenRoutesToLastNewModel | Instrumentation.IntendedRoutesToOwnModel |
| aria/storage/instrumentation.py:262-270 | for a second tracked model, the nested loop runs again over entries that now hold instance objects, not keyword dicts | two tracked models and one new instance: the second pass fails | create new instances once | not executed | Instrumentation.SecondModelFailsAsWritten | Instrumentation.ApplyTrackedChanges, Instrumentation.NewInstancesPutOnce |
