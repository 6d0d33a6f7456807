# Verified model of the inference service

A Dafny model of the parts of the service in which state, order or index arithmetic matters, with
proofs of what they promise. `dafny verify dfyconfig.toml` checks the whole project. Nothing was
executed; every statement below is about the model.

| files | what they model |
|---|---|
| `WorkerProtocol`, `WorkerSafety`, `WorkerDeliveries`, `WorkerProgress`, `WorkerClient` | execute workers reading, reclaiming, guarding, executing, completing and acknowledging stream messages, with crashes and failures between any two steps |
| `ForwardMany` | the Lua script behind `forward_many`, over a Redis keyspace |
| `BatchItems`, `BatchExecutor`, `BatchSafety`, `BatchProgress` | the batch coordinator: sequential mode, and the parallel mode as a machine of calls, closers and pool tasks |
| `Fanout`, `ChunkGrid`, `ChunkNames`, `ChunkMerge`, `ChunkMergeLimits`, `FanoutMerge`, `FanoutPostprocess`, `RngReplay` | ensemble fan-out: batches, random-state replay, and the merge of child Zarr stores by renaming chunk files (regular grid and default chunk key encoding of the Zarr core specification, version 3) |
| `PluginTypes`, `JsonSchema`, `SchemaSoundness`, `SchemaLimits`, `ExampleRequests`, `PrepareExecute`, `CoercionMeaning` | plugin model types: schema compiler, coercion, example generator, serializer (JSON Schema 2020-12, Validation sections 6.1.1, 6.1.2, 6.5.3; Core sections 10.2.1.2, 10.3.1.2, 10.3.2.1, 10.3.2.3) |
| `Pipeline`, `PipelineCheck`, `PipelineRun` | validation of a direct-run pipeline and the guarded stage walk |
| `PublishStage`, `Completion`, `BatchCompletion` | publish-stage insertion, routing of completed work, batch messages from items to outputs |
| `AbortProbe`, `AbortSafety`, `AbortProgress` | the rate-limited, single-flight cancellation probe and its bounded daemon pool |
| `WorkflowCache`, `WorkflowExecutor` | the worker's workflow cache and its published registry |
| `ArtifactOverlay` | merging execute artifacts with postprocess artifacts |

Concurrent parts are step relations: a run is any sequence of enabled actions from an initial state,
and the main results quantify over all runs. Parts that update fields or containers in place are
classes and methods with loops, proved against functions whose own properties are lemmas.

Results that are not what one might expect of the code, with the condition under which the expected one holds:

- Synchronous completion is at least once: an acknowledged message has emitted exactly one completion if and only if no other attempt on it emitted, and no number bounds the releases of one message.
- `forward_many` is all-or-nothing exactly when every run hash key is free or a hash and is not itself a destination. Asynchronous completion is exactly once if and only if no `forward_many` of the message aborted.
- For children that have at least two chunks in every other dimension and hold nothing twice, the chunk renaming merge is right exactly when every renamed child has the destination's chunk size in every dimension, starts on a chunk boundary and meets no chunk written by an earlier child; the code compares the ensemble chunk size only. Every subset of fan-out batches satisfies the last two conditions when the destination chunk size divides the batch size.
- A conforming value is refused exactly when an integer at a float position is too large for a float (types without several-armed unions); a union of several arms with None compiles to a schema that admits everything.
- A generated example conforms to its schema unless the generator takes a boolean out of a literal of booleans and numbers and no other arm of a union admits it.
- The two batch modes raise the same first error, and the same first fatal exception, exactly when no such execution precedes the first such preflight.
- Only the `close()` that stops submissions waits; a second one returns with the pool as it was.
- The inserted publish stage is the next stage exactly when no stage up to the execute stage is named publish; a chain whose last stage names a missing successor "publish" becomes a loop.
- A job that fails inside the worker's exception handler is not marked as publication skipped; one invalid fan-out handoff replaces all outputs of a batch by a single failure, and a fatal exception leaves a batch without any output.
- A cached hook kept across a close and a reload counts as a use of the new entry.
- A cancellation call that begins after a yes of its probe answers yes; one that overlaps it may answer no.

## Model

| member | source | states |
|---|---|---|
| `WorkerSafety.AsyncExactlyOnce` | scripts/inference_worker.py:3047-3109 | over every interleaving of any number of workers reading, reclaiming, executing, failing, crashing, completing with `forward_many` and having that script abort: an unacknowledged message is undelivered or pending; a message has emitted nothing before it is acknowledged and then every output of one attempt once, the primary ones in order and the release last, if and only if no `forward_many` of it aborted |
| `WorkerSafety.AsyncAtLeastOnce` | scripts/inference_worker.py:3047-3109 | whatever aborted, a message has emitted the first outputs, at least one, of each aborted completion, in order, and once acknowledged after them every output of one completion in order |
| `WorkerSafety.NoAbortNoLeftover` | scripts/inference_worker.py:3047-3109 | a run without an aborted script leaves no such beginnings, so there every message is emitted exactly once |
| `WorkerSafety.SyncAtLeastOnce` | scripts/inference_worker.py:2957-3044 | over every run with crashes between any two Redis calls: an acknowledged message had every primary output of one attempt, in order, and then its release emitted before; none is lost; an attempt emits the first outputs of its completion; releases never exceed handling attempts |
| `WorkerSafety.SyncExactlyOnceIff` | scripts/inference_worker.py:2957-3044 | over every run an acknowledged message has emitted every output of one completion, in order, and nothing else if and only if no other attempt on it emitted anything, and so whenever it was handled only once |
| `WorkerSafety.InFlightIsExact` | scripts/inference_worker.py:2804-2820 | in both modes the in-flight set of a process is exactly the non-empty ids it is handling, and no process handles one id twice at a time |
| `WorkerSafety.StepKeepsGuarded` | scripts/inference_worker.py:3139-3220 | every action, crash and failure included, keeps the in-flight set equal to the handled ids |
| `WorkerSafety.StepKeepsPartitioned` | scripts/inference_worker.py:3655-3670 | every action keeps each produced message in exactly one of undelivered, pending and acknowledged |
| `WorkerSafety.StepKeepsEmittedOnce` | scripts/inference_worker.py:3223-3327 | every asynchronous action keeps "what aborted scripts left, then all of the acknowledging attempt's output, or nothing more" for every message |
| `WorkerSafety.StepKeepsSyncSafe` | scripts/inference_worker.py:2978-3044 | every synchronous action keeps the emitted prefix of every attempt and the count of releases |
| `WorkerSafety.OneReleasePerCompletion` | scripts/inference_worker.py:3085-3101 | the outputs of one completion hold exactly one release |
| `WorkerDeliveries.HandledAtMostDelivered` | scripts/inference_worker.py:3655-3670 | over every run, in both modes, a message is handled at most as often as it was read or claimed |
| `WorkerDeliveries.SyncDeliveredOnce` | scripts/inference_worker.py:2957-3044 | a synchronous message has no more releases than deliveries, and one delivered once is emitted exactly once when acknowledged |
| `WorkerDeliveries.PendingIsLastHolder` | scripts/inference_worker.py:2553-2650 | over every run a pending message belongs to the process it was last read or claimed by |
| `WorkerProgress.NeverStuck` | scripts/inference_worker.py:3655-3670 | from every reachable state, whatever crashed, an unacknowledged message can still reach acknowledgement |
| `WorkerProgress.SyncReleasesUnbounded` | scripts/inference_worker.py:3017-3044 | for every n some synchronous run has emitted n releases of one message that is still pending |
| `WorkerProgress.ReleaseAgain` | scripts/inference_worker.py:2553-2650 | any pending message can be claimed and released once more without leaving the pending list |
| `WorkerProgress.AbortAgain` | scripts/inference_worker.py:3293-3312 | any pending message can be claimed once more and leave any beginning of any completion by an aborted `forward_many`, and it stays pending |
| `WorkerClient.CallsEmitPrefix` | scripts/inference_worker.py:2978-3044 | after k calls the log has grown by exactly the first k entries of the completion, and only the last call changes the pending list |
| `WorkerClient.CompleteJob` | scripts/inference_worker.py:2957-3044 | succeeds exactly when every call does; otherwise exactly the calls before the failing one took effect; the log has grown by exactly as many of the outputs, each once and in order, as calls were made |
| `WorkerClient.Worker.BeginMessage` | scripts/inference_worker.py:2804-2812 | refuses exactly a non-empty id already in flight, and the id is in flight afterwards |
| `WorkerClient.Worker.ProcessMessage` | scripts/inference_worker.py:3120-3220 | whatever happens the in-flight set is as before; duplicates and fatal exceptions emit nothing; a message leaves the pending list only after every output of its completion was appended, once and in order |
| `ForwardMany.Redis.ForwardMany` | crates/scicomp-rq/src/lua.rs:140-202 | exact condition of each reply; success appends every output and acknowledges every source; a refusal changes nothing; an abort, which happens exactly under a bad run key, leaves all sources pending, the outputs before the refused one written, and of the refused one its stream entry if only the run hash was refused |
| `ForwardMany.Redis.WriteOutputs` | crates/scicomp-rq/src/lua.rs:177-190 | all outputs are written exactly when the run keys are free or hashes and no run key is a destination; otherwise the outputs before the first refused one stay, and its own stream entry if only its run hash was refused |
| `ForwardMany.Redis.WriteOutput` | crates/scicomp-rq/src/lua.rs:186-189 | one output is written exactly when both its keys have the right kind and differ |
| `ForwardMany.Redis.XAck` | crates/scicomp-rq/src/lua.rs:192-199 | distinct pending sources are all acknowledged, so the rollback is never reached |
| `ForwardMany.WritesAppend` | crates/scicomp-rq/src/lua.rs:186-187 | every stream grows by exactly the outputs sent to it, in order |
| `ForwardMany.AbortAppends` | crates/scicomp-rq/src/lua.rs:177-190 | an aborted script leaves between one and all outputs appended: every stream has grown by exactly the first ones sent to it |
| `ForwardMany.WritesStages` | crates/scicomp-rq/src/lua.rs:189 | every run hash ends with the stage of the last output of that run |
| `ForwardMany.WritesNothingElse` | crates/scicomp-rq/src/lua.rs:177-190 | keys that no output names stay as they were |
| `BatchSafety.EveryScheduleAgrees` | python/batch_runtime.py:85-164 | under every interleaving of calls and tasks a finished call ended as its items and handler alone determine, a fatal exception included; by then exactly the items whose preflight asked for it had run, each once; a call refused as closed ran nothing |
| `BatchSafety.ParallelEqualsSequential` | python/batch_runtime.py:107-164 | with a handler and no fatal exception every schedule returns the list of the sequential mode: for every item, in input order, its immediate result, the value of its execution, or what the handler makes of its own exception |
| `BatchSafety.CloseDrains` | python/batch_runtime.py:166-173 | when the close call that stopped submissions has returned, nothing is queued or running and every submitted item is done |
| `BatchSafety.ClosedForever` | python/batch_runtime.py:94-105 | after that no non-empty execute call is ever accepted |
| `BatchSafety.SecondCloseReturnsEarly` | python/batch_runtime.py:168-170 | from every state with the lock free, a second close call can return with the pool exactly as it was |
| `BatchSafety.OneItemRuns` | python/batch_runtime.py:103-142 | such a state is reachable with an item running |
| `BatchSafety.StepKeepsInv` | python/batch_runtime.py:85-173 | every step keeps the local variables of every call, the lock discipline and the bookkeeping of tasks in agreement |
| `BatchSafety.ConclusionIsParallelOutcome` | python/batch_runtime.py:144-164 | what a call does after its last future is the outcome determined by its items |
| `BatchProgress.CallCanReturn` | python/batch_runtime.py:85-164 | no deadlock: from every reachable state every execute call can still return |
| `BatchProgress.CloseCanReturn` | python/batch_runtime.py:166-173 | from every reachable state every close call can still return |
| `BatchProgress.TasksStartInOrder` | python/batch_runtime.py:107-142 | over every run tasks start in the order in which they were submitted, and none is forgotten |
| `BatchItems.ModesAgree` | python/batch_runtime.py:107-164 | with a handler and no fatal exception both modes return for every item, in order, its immediate result, the value of its execution, or what the handler makes of its own exception |
| `BatchItems.ModesRaiseAlike` | python/batch_runtime.py:107-164 | both modes raise a fatal exception for the same lists, and likewise an ordinary one |
| `BatchItems.FirstErrorAgrees` | python/batch_runtime.py:107-160 | without a handler both name the same item exactly when no failing execution comes before the first failing preflight |
| `BatchItems.FirstFatalAgrees` | python/batch_runtime.py:107-160 | with or without a handler both raise the fatal exception of the same item under the same condition on fatal exceptions |
| `BatchItems.ModesRaiseDifferentFatals` | python/batch_runtime.py:107-160 | a fatal execution followed by a fatal preflight: the sequential mode raises the first, the parallel one the second |
| `BatchExecutor.ExecuteSequential` | python/batch_runtime.py:94-164 | empty input, closed coordinator, and otherwise the sequential outcome |
| `BatchExecutor.RunInOrder` | python/batch_runtime.py:107-139 | every item is decided, also after failures; the held fatal and error are the first ones |
| `Fanout.BuildFanoutBatches` | plugins/earth2-ensemble-fanout/earth2_ensemble_fanout_support.py:337-352 | builds exactly the batches numbered below the batch count |
| `Fanout.BatchMemberIds` | plugins/earth2-ensemble-fanout/earth2_ensemble_fanout_support.py:330-334 | consecutive ids from k times the batch size, full unless the ensemble ends in the batch |
| `Fanout.BatchOf` | plugins/earth2-ensemble-fanout/earth2_ensemble_fanout_support.py:337-352 | every member is in some batch |
| `Fanout.BatchIsUnique` | plugins/earth2-ensemble-fanout/earth2_ensemble_fanout_support.py:337-352 | and in only one |
| `RngReplay.PerturbAll` | plugins/earth2-ensemble-fanout/earth2_ensemble_fanout_support.py:592-602 | one pass from the seed: output k is drawn for the members of batch k, from the state the draw for batch k - 1 left |
| `RngReplay.PerturbOne` | plugins/earth2-ensemble-fanout/earth2_ensemble_fanout_support.py:425-446 | replaying the earlier batches gives that same perturbation for batch k alone |
| `RngReplay.ReplayMatchesSequential` | plugins/earth2-ensemble-fanout/earth2_ensemble_fanout_support.py:425-446 | for every batch and any random state to start from, the replaying worker's output equals that of the one pass |
| `ChunkGrid.ElementRoundTrip` | plugins/earth2-ensemble-fanout/earth2_ensemble_fanout_support.py:901-911 | an element is recovered from its chunk key and its offset in the chunk |
| `ChunkGrid.ShiftedElement` | plugins/earth2-ensemble-fanout/earth2_ensemble_fanout_support.py:914-927 | moving an element by whole chunks along the ensemble axis changes only that part of its key |
| `ChunkNames.ParseSpell` | plugins/earth2-ensemble-fanout/earth2_ensemble_fanout_support.py:941-944 | a chunk number written in decimal parses back to itself |
| `ChunkNames.SpellIsDecimal` | plugins/earth2-ensemble-fanout/earth2_ensemble_fanout_support.py:941-956 | the spelling is decimal: the last digit is the remainder by ten, the digits before it spell the quotient |
| `ChunkNames.RemapPartsIsRemapKey` | plugins/earth2-ensemble-fanout/earth2_ensemble_fanout_support.py:930-956 | renaming the file of a chunk is renumbering the chunk, error cases included |
| `ChunkNames.NotAChunkFile` | plugins/earth2-ensemble-fanout/earth2_ensemble_fanout_support.py:930-956 | a file whose ensemble component is missing, empty or not all digits is not renamed |
| `ChunkNames.SpellKeyInjective` | plugins/earth2-ensemble-fanout/earth2_ensemble_fanout_support.py:930-956 | different chunks have different file names |
| `ChunkMerge.RemapConsecutive` | plugins/earth2-ensemble-fanout/earth2_ensemble_fanout_support.py:914-956 | a chunk of a child whose members are consecutive goes as many chunks on as the child's start lies beyond the origin; chunks past its members go nowhere |
| `ChunkMerge.Destination.LinkChild` | plugins/earth2-ensemble-fanout/earth2_ensemble_fanout_support.py:1040-1056 | after linking every file of a child in any order, whatever its chunk sizes, the covered chunks are the child's and all others are unchanged |
| `ChunkMerge.Destination.CopyChild` | plugins/earth2-ensemble-fanout/earth2_ensemble_fanout_support.py:970-1005 | each member's slab reads back from its destination index; every other element is unchanged; no chunk outside the child's span is created |
| `ChunkMerge.WithMemberReads` | plugins/earth2-ensemble-fanout/earth2_ensemble_fanout_support.py:991-1005 | writing one member's slab changes exactly the elements of that member |
| `ChunkMerge.LinkedReadsChild` | plugins/earth2-ensemble-fanout/earth2_ensemble_fanout_support.py:1040-1056 | every element of a linked child that starts on a chunk boundary reads back |
| `ChunkMerge.Destination.MergeChildren` | plugins/earth2-ensemble-fanout/earth2_ensemble_fanout_support.py:1027-1089 | children are linked when their ensemble chunk size is the destination's and copied otherwise; in a safe order every member of every child reads back from its own index at every position |
| `ChunkMerge.SafeMerge` | plugins/earth2-ensemble-fanout/earth2_ensemble_fanout_support.py:1067-1089 | in a safe order, after n children all of their members read back and no other child's chunks are touched |
| `ChunkMergeLimits.SafeOrderIsExact` | plugins/earth2-ensemble-fanout/earth2_ensemble_fanout_support.py:1008-1057 | in any number of dimensions, for children whose chunks hold nothing twice, the merge is right if and only if every linked child has the destination's chunk size in every dimension, starts on a chunk boundary and meets no chunk of an earlier child |
| `ChunkMergeLimits.UnalignedLosesMember` | plugins/earth2-ensemble-fanout/earth2_ensemble_fanout_support.py:914-927 | a renamed child that does not start on a chunk boundary loses an element of its first member |
| `ChunkMergeLimits.OverwrittenMember` | plugins/earth2-ensemble-fanout/earth2_ensemble_fanout_support.py:1008-1057 | a renamed child replaces a chunk in which an earlier child had written |
| `ChunkMergeLimits.MismatchLosesElement` | plugins/earth2-ensemble-fanout/earth2_ensemble_fanout_support.py:1027-1056 | a renamed child with another chunk size in some other dimension loses an element of its first member |
| `ChunkMergeLimits.MismatchIsPossible` | plugins/earth2-ensemble-fanout/earth2_ensemble_fanout_support.py:1027-1056 | every grid with the destination's ensemble chunk size and another size elsewhere is that of a mergeable child in an unsafe order, which loses an element |
| `ChunkMergeLimits.MismatchedChild` | plugins/earth2-ensemble-fanout/earth2_ensemble_fanout_support.py:1030-1056 | a child of chunk shape 1 by 3 in a destination of chunk shape 1 by 2: element (0, 2) reads what the child has at (0, 3) |
| `FanoutMerge.FanoutIsSafe` | plugins/earth2-ensemble-fanout/earth2_ensemble_fanout_support.py:1101-1145 | for every subset of the batches in every order, with a destination chunk size dividing the batch size: no destination chunk has members of two children, and the merge order is safe exactly when the linked children share the destination's chunk sizes in the other dimensions |
| `FanoutMerge.FanoutMergeIsExact` | plugins/earth2-ensemble-fanout/earth2_ensemble_fanout_support.py:1067-1145 | for such children whose chunks hold nothing twice, everything reads back if and only if the linked ones share the destination's chunk sizes |
| `FanoutMerge.MismatchedFanout` | plugins/earth2-ensemble-fanout/earth2_ensemble_fanout_support.py:1067-1145 | for every such grid the only batch of a fan-out stored with it does not read back |
| `FanoutMerge.SortedIsFlatten` | plugins/earth2-ensemble-fanout/earth2_ensemble_fanout_support.py:1101-1145 | the sorted ensemble coordinate is the surviving batches one after the other |
| `FanoutMerge.ChildStart` | plugins/earth2-ensemble-fanout/earth2_ensemble_fanout_support.py:1101-1145 | a child's members have consecutive ranks from a multiple of the batch size |
| `FanoutPostprocess.MergeStores` | plugins/earth2-ensemble-fanout/earth2_ensemble_fanout_support.py:1101-1145 | refuses exactly when there are more members than requested; otherwise, when the linked children share the destination's chunk sizes, the renaming merge equals concatenation sorted by member id |
| `FanoutPostprocess.Collect` | plugins/earth2-ensemble-fanout/earth2_ensemble_fanout_support.py:1167-1199 | aggregated plus skipped is the number of children, and nothing is skipped exactly when every child is usable |
| `FanoutPostprocess.LeftOutIsIgnored` | plugins/earth2-ensemble-fanout/earth2_ensemble_fanout_support.py:1167-1199 | a child with no result object, another status than success, no store or no member ids contributes nothing; any other contributes its store, in its place |
| `FanoutPostprocess.LeftOutFails` | plugins/earth2-ensemble-fanout/earth2_ensemble_fanout_support.py:1167-1259 | a postprocess with a child that is left out counts it as skipped and does not succeed |
| `FanoutPostprocess.Combine` | plugins/earth2-ensemble-fanout/earth2_ensemble_fanout_support.py:1201-1219 | no store for no candidates, a copy of a single one, and otherwise the merge; refuses exactly several candidates above a requested size |
| `FanoutPostprocess.Postprocess` | plugins/earth2-ensemble-fanout/earth2_ensemble_fanout_support.py:1148-1259 | counts, status and dataset of the postprocess result for every mix of usable and unusable children |
| `FanoutPostprocess.CompleteCoordinate` | plugins/earth2-ensemble-fanout/earth2_ensemble_fanout_support.py:1101-1145 | one child per batch makes the coordinate 0, 1, ..., n - 1 |
| `FanoutPostprocess.CompleteEnsemble` | plugins/earth2-ensemble-fanout/earth2_ensemble_fanout_support.py:1101-1145 | then index m of the merged store holds member m of the child that has it |
| `FanoutPostprocess.SucceededIsComplete` | plugins/earth2-ensemble-fanout/earth2_ensemble_fanout_support.py:1148-1259 | a succeeded postprocess over one child per batch means index m holds member m, for every member; of several children the linked ones must share the destination's chunk sizes |
| `SchemaSoundness.SchemaIsSound` | scripts/plugin_sdk.py:1363-1547 | for every type of the grammar, a value that conforms to the compiled schema is accepted by coercion, provided the integers at its float positions, and only those, fit a float |
| `SchemaLimits.AcceptedIffFits` | scripts/plugin_sdk.py:1363-1547 | value by value, for types without several-armed unions: a conforming value is accepted if and only if its integers at float positions fit a float |
| `CoercionMeaning.ConformingIsKept` | scripts/plugin_sdk.py:1363-1547 | the schema is not too wide: coercing a conforming value keeps everything the request gave, numbers by value, for types without several-armed unions |
| `CoercionMeaning.TextArmChanges` | scripts/plugin_sdk.py:1422-1431 | with several arms it may change: str or int takes every integer to its text |
| `CoercionMeaning.SerializedConformsIff` | scripts/plugin_sdk.py:1347-1547 | the schema is not too narrow: what a value of the type serializes to conforms if and only if its literals are listed as JSON values |
| `CoercionMeaning.ScalarConforms` | scripts/plugin_sdk.py:1535-1542 | at a bool, str, float or int position exactly the booleans, strings, numbers or numbers equal to an integer conform |
| `CoercionMeaning.LiteralIsTyped` | scripts/plugin_sdk.py:1514-1528 | a literal is typed string, boolean, integer or number exactly when all of its values are |
| `SchemaLimits.TextArmAccepts` | scripts/plugin_sdk.py:1422-1451 | with several arms the condition is sufficient only: an integer too large for a float is accepted by float or str as its text |
| `SchemaSoundness.ConformingArm` | scripts/plugin_sdk.py:1498-1502 | conforming to the schema of a union means conforming to that of an arm, or being the null of an optional type |
| `SchemaLimits.SoundIffNoFloat` | scripts/plugin_sdk.py:1448-1449 | type by type: without several-armed unions, every conforming JSON value is accepted exactly when the type has no float position |
| `SchemaLimits.NoFloatFits` | scripts/plugin_sdk.py:1363-1547 | a conforming value of a type without float positions meets the condition, unions of several arms included |
| `SchemaLimits.Overflow` | scripts/plugin_sdk.py:1448-1449 | every such type with a float position has a conforming JSON value that coercion refuses |
| `SchemaLimits.Inhabited` | scripts/plugin_sdk.py:1460-1547 | every such type has a conforming JSON value |
| `SchemaLimits.NoneArmAdmitsAll` | scripts/plugin_sdk.py:1498-1502 | a union of several arms with None compiles to a schema that admits every value |
| `SchemaLimits.SeveralArmsWithNoneUnsound` | scripts/plugin_sdk.py:1498-1502 | the union of int, list of int and None admits the empty object, which coercion refuses |
| `SchemaLimits.OptionalCoerce` | scripts/plugin_sdk.py:1422-1433 | an optional type accepts null and otherwise behaves as its other arm, whichever comes first |
| `SchemaLimits.OptionalConforms` | scripts/plugin_sdk.py:1500-1501 | its schema admits exactly null and what the other arm's schema admits |
| `ExampleRequests.ExampleCoerces` | scripts/plugin_dev.py:592-717 | the example generated from the schema of a type coerces to the type, for every type of the grammar |
| `ExampleRequests.ExampleConforms` | scripts/plugin_dev.py:592-717 | for every type of the grammar it conforms to the schema if and only if no literal the generator reaches puts a boolean before its numbers, or the example of the first arm of a union conforms to another arm |
| `ExampleRequests.DataExample` | scripts/plugin_dev.py:642-669 | the example of a dataclass holds the examples of its required fields, or of its first literal field when none is required, and nothing else |
| `ExampleRequests.LiteralExample` | scripts/plugin_sdk.py:1514-1529 | the first value of a literal conforms unless it is a boolean among numbers |
| `ExampleRequests.BoolLiteralExample` | scripts/plugin_sdk.py:1525-1529 | the literal True, 1 is typed "number" and its example True does not conform |
| `ExampleRequests.OtherArmRescues` | scripts/plugin_dev.py:592-717 | the same literal as first arm of a union with bool has a conforming example |
| `PrepareExecute.ExecuteSeesPrepared` | scripts/plugin_sdk.py:1029-1045 | execute gets from the stored inputs exactly the instance coercion builds from the request, and preparing stored inputs again changes nothing |
| `PrepareExecute.PrepareStoresJson` | scripts/plugin_sdk.py:1029-1034 | prepare stores JSON data, exactly when there is no model or the request coerces to it |
| `PrepareExecute.CoercionIsStable` | scripts/plugin_sdk.py:1347-1457 | coerce after jsonable after coerce is coerce, without several-armed unions and with defaults of their fields' types |
| `PrepareExecute.CoercionLands` | scripts/plugin_sdk.py:1363-1457 | an accepted JSON value is coerced to a value of the type |
| `PrepareExecute.MembersSurvive` | scripts/plugin_sdk.py:1347-1457 | every value of the type is recovered from its serialization |
| `CoercionMeaning.SpellingIsRead` | scripts/plugin_sdk.py:1363-1457 | any request that spells a value of the type, each boolean and number as itself or as the text str() writes, is coerced to that value, given that int() and float() read what str() wrote |
| `CoercionMeaning.FractionIsTruncated` | scripts/plugin_sdk.py:1446-1447 | a fraction at an int position becomes an integer between 0 and it, less than 1 away |
| `CoercionMeaning.NumberIsKept` | scripts/plugin_sdk.py:1446-1449 | a boolean or integer at an int position, and any of these or a number at a float position, keeps its value |
| `CoercionMeaning.TruthIsRead` | scripts/plugin_sdk.py:1435-1444 | a bool position reads booleans and exactly the words true, 1, yes, false, 0 and no |
| `CoercionMeaning.MembersAreFixed` | scripts/plugin_sdk.py:1363-1457 | coercing a value of the type gives the value itself |
| `CoercionMeaning.RequestIsReadByName` | scripts/plugin_sdk.py:1378-1397 | coercing a request to a dataclass depends only on the entries its fields name |
| `CoercionMeaning.ShapeIsDemanded` | scripts/plugin_sdk.py:1370-1417 | only a list becomes a list, only an object a dictionary, and only an object or an instance of the class a dataclass |
| `PrepareExecute.JsonIsJsonable` | scripts/plugin_sdk.py:1347-1360 | serialization is the identity on JSON data |
| `PrepareExecute.SeveralArmsUnstable` | scripts/plugin_sdk.py:1422-1451 | the union of bool and str takes 1 to "1" and "1" to True |
| `PipelineCheck.ValidatePipeline` | scripts/plugin_direct_runner.py:300-361 | accepts exactly the pipelines with distinct non-blank ids, supported phase and handler pairs, terminal results stages, known successors and every chain ending in results; each stage of an accepted pipeline is walked exactly once; each rejection names a stage that really has the fault |
| `PipelineCheck.CheckStages` | scripts/plugin_direct_runner.py:301-334 | first pass: accepts exactly well-shaped stages with distinct stripped ids, and otherwise reports the first fault of the first faulty stage |
| `PipelineCheck.CheckSuccessors` | scripts/plugin_direct_runner.py:336-344 | second pass: finds the first stage with an unknown successor, if any |
| `PipelineCheck.CheckChains` | scripts/plugin_direct_runner.py:346-361 | third pass: reports a cycle exactly when some stage's chain does not end in results, and no stage is walked twice over all walks |
| `PipelineCheck.WalkChain` | scripts/plugin_direct_runner.py:349-361 | one memoised walk: a cycle means the start never reaches results; otherwise every walked stage does |
| `PipelineRun.RowIsAccepted` | scripts/plugin_direct_runner.py:300-361 | supported stages in a row with results at the end are accepted exactly when no id is blank and ids differ by more than blanks |
| `Pipeline.CycleTraps` | scripts/plugin_direct_runner.py:351-355 | a path whose last stage leads back into it is closed under successors and has no results stage |
| `Pipeline.TrappedNeverEnds` | scripts/plugin_direct_runner.py:351-355 | no chain from such a set ends in results |
| `Pipeline.StripTwice` | scripts/plugin_direct_runner.py:339 | stripping an id again changes nothing |
| `Pipeline.CleanKeeps` | scripts/plugin_direct_runner.py:301-344 | a well-shaped stage keeps its phase, and its id and next id lose exactly the blanks around them |
| `Pipeline.HandlerIsUnique` | scripts/plugin_direct_runner.py:301-334 | which phases each handler supports |
| `PipelineRun.RunStages` | scripts/plugin_direct_runner.py:235-286 | the walk visits different stages and goes where each one leads: to the stage its prepare hook chose, or else to its own next; it ends at results, at a stage that leads nowhere, to an unknown stage or back into the walk |
| `PipelineRun.UnredirectedWalk` | scripts/plugin_direct_runner.py:235-286 | when no prepare stage on the walk chose a next stage other than its own, the walk of an accepted pipeline is the chain from its first stage to results |
| `PipelineRun.RedirectedWalk` | scripts/plugin_direct_runner.py:235-286 | on a walk of an accepted pipeline that does not reach results some prepare stage chose a next stage other than its own; one that stops or meets an unknown stage does so at a prepare stage |
| `PipelineRun.RunPipeline` | scripts/plugin_direct_runner.py:179-286 | from raw stages: the walk starts exactly for non-empty well-formed pipelines, visits each stage at most once, obeys every redirect of a prepare hook and no other, and without redirects is the chain to results |
| `PipelineRun.NoWayBack` | scripts/plugin_direct_runner.py:300-361 | no path of an accepted pipeline leads back into itself |
| `PublishStage.StageContext.EnsurePublishStage` | scripts/inference_worker.py:2291-2329 | the pipeline becomes the one with a publish stage between the execute stage and its successor, or stays as it is |
| `PublishStage.InsertionIsIdempotent` | scripts/inference_worker.py:2311-2315 | inserting again changes nothing |
| `PublishStage.ChainIsWoven` | scripts/inference_worker.py:2291-2329 | with no stage named publish, every chain keeps its stages and their order with publish right after execute, exactly when it does not end in a missing successor called publish |
| `PublishStage.ExecuteChain` | scripts/inference_worker.py:2316-2329 | the chain from the execute stage becomes execute, publish, old tail, under the same exact condition |
| `PublishStage.OnlyWovenChains` | scripts/inference_worker.py:2291-2329 | conversely, every chain from an old stage is an old chain with publish inserted |
| `PublishStage.ChainIsUnique` | scripts/inference_worker.py:1904-1914 | a stage starts at most one chain |
| `PublishStage.LeadsToPublish` | scripts/inference_worker.py:2317-2329 | the name publish leads to the inserted stage exactly when no stage up to the execute stage has it |
| `PublishStage.NameTaken` | scripts/inference_worker.py:2317-2329 | an earlier stage called publish takes the name |
| `PublishStage.DanglingLoops` | scripts/inference_worker.py:2316-2329 | an execute stage whose missing successor was called publish is left with no chain that ends |
| `Completion.SkippedIffNotPublished` | scripts/inference_worker.py:1966-1976 | a result that did not succeed is persisted; it is marked skipped exactly when it also has a publication target and its output is not routed to publish |
| `Completion.RouteIsRight` | scripts/inference_worker.py:2128-2168 | for every payload and status the output goes to the successor of the current stage if that is not results and the run succeeded or it is a collect or publish stage, and to results otherwise |
| `Completion.RouteFollowsChain` | scripts/inference_worker.py:2128-2168 | along the chain of its pipeline a run goes to the second stage under that rule, and to results otherwise |
| `Completion.JobEnds` | scripts/inference_worker.py:2846-2925 | a job that raised or asks for fan-out without going to a schedule stage reports failure and is not persisted; any other reports its own status, persisted unless a postprocess, publish or schedule stage takes it over |
| `Completion.MarkAgreesIff` | scripts/inference_worker.py:2846-2925 | for a whole job the mark agrees with the routing exactly when the exception handler was not entered or the job goes to publish |
| `Completion.CollapseIsUnmarked` | scripts/inference_worker.py:1944-1963 | fan-out items in front of a results stage fail the run, which goes to results unmarked |
| `Completion.InsertedRoutesToPublish` | scripts/inference_worker.py:2128-2168 | with the stage inserted, every status is routed to publish exactly when no stage up to execute was named publish |
| `BatchCompletion.RunBatch` | scripts/inference_worker.py:979-1133 | from the raw items and what each item does, run one by one: for every item in input order a primary with its run id, its own status and the stage its run goes to, then one release, failed if an item failed and succeeded if all did; nothing at all exactly when an item raises a fatal exception; one failed primary and one failed release when the items are malformed, the coordinator is closed or an item asks for fan-out and does not go to a schedule stage. A well-formed batch keeps its n items exactly when none of this happens, or it is a failing batch of one item named like the job; the last output, and no other, is a release |
| `BatchCompletion.RunParallelBatch` | scripts/inference_worker.py:979-1133 | the same for items run in parallel under any schedule of the coordinator, which is called for well-formed items only |
| `BatchCompletion.CoordinatorReturns` | python/batch_runtime.py:85-164 | in either mode the coordinator raises a fatal exception exactly when an item does, and otherwise returns for every item in order its own result, or failure for an exception |
| `BatchCompletion.ScheduleEnds` | python/batch_runtime.py:141-164 | every schedule gives a finished call of the batch one of the outcomes the completion handles |
| `BatchCompletion.ParseItems` | scripts/inference_worker.py:979-1041 | accepts exactly a non-empty list of objects with payload objects and a run id, and keeps their order |
| `BatchCompletion.BatchStatus` | scripts/inference_worker.py:355-367 | the join (failed over cancelled over succeeded) of the item statuses, failed for none |
| `BatchCompletion.JoinIsUnique` | scripts/inference_worker.py:355-367 | there is only one such status |
| `BatchCompletion.JoinSummarizes` | scripts/inference_worker.py:355-367 | the join is failed if an item failed, succeeded if all did, and otherwise cancelled |
| `BatchCompletion.ProcessBatch` | scripts/inference_worker.py:2854-2928 | completes exactly when nothing fails, raises again exactly when an item is fatal, and otherwise fails; all handoffs are checked before anything is persisted, so only a completed batch persists |
| `BatchCompletion.ProcessOutcome` | scripts/inference_worker.py:1114-1132 | the same from any outcome of the coordinator, with one entry per item |
| `BatchCompletion.CompleteJob` | scripts/inference_worker.py:2978-3031 | one primary per entry in order, with its run id, its status and the stage its run goes to, then one release; a failure has one failed primary of the batch itself and one release; a raised fatal exception has no output |
| `BatchCompletion.ItemGoesOn` | scripts/inference_worker.py:2204-2230 | an item whose outputs are published goes to publish, whatever its status, exactly when no stage up to execute is named publish; any other goes where the stage context of the batch, or else its own, leads |
| `BatchCompletion.PersistOne` | scripts/inference_worker.py:2871-2888 | one entry is persisted unless a postprocess, publish or schedule stage takes it over, and marked skipped when it failed short of its publication |
| `BatchCompletion.PersistInOrder` | scripts/inference_worker.py:2871-2888 | the entries are persisted one after the other |
| `BatchCompletion.ItemMarks` | scripts/inference_worker.py:2871-2888 | every item that did not succeed and has a publication target is persisted, marked skipped exactly when its own output does not go to publish |
| `BatchCompletion.OneBadHandoffFailsAll` | scripts/inference_worker.py:2869-2872 | one item asking for fan-out without a schedule stage next replaces the outputs of the whole batch by one failed primary and one failed release, and nothing is persisted |
| `AbortSafety.PollsAreSafe` | scripts/plugin_runtime.py:1056-1157 | in every reachable state the in-flight flag of each probe counts exactly one poll being submitted, queued or running; consecutive polls are at least 250 milliseconds apart; at most 64 polls are queued and 2 threads run them |
| `AbortSafety.AnswersAreSafe` | scripts/plugin_runtime.py:1159-1163 | a yes means a real shutdown or a published terminal key of that probe; a call that began after a yes of its probe answers yes |
| `AbortSafety.StepKeepsSafe` | scripts/plugin_runtime.py:1100-1163 | every step of every thread keeps all of this |
| `AbortSafety.StepKeepsFlag` | scripts/plugin_runtime.py:1137-1157 | every step keeps the flag equal to the number of live polls |
| `AbortSafety.StepKeepsSpaced` | scripts/plugin_runtime.py:1123-1157 | every step keeps the spacing, although the clock is read before the lock is taken |
| `AbortSafety.OverlappingCallsMayDiffer` | scripts/plugin_runtime.py:1159-1163 | two overlapping calls can answer yes and then no |
| `AbortProgress.PublishedIsFound` | scripts/plugin_runtime.py:1123-1163 | from every reachable state, whatever is queued or under way, a published terminal key can still be found by a new call |
| `AbortProgress.AbortIsSeen` | scripts/plugin_runtime.py:1159-1163 | over every run, a call that has not made its last check of an event when that is set answers yes |
| `AbortProgress.PollsAreServedInOrder` | scripts/plugin_runtime.py:1057-1084 | over every run polls are taken in the order in which they were queued, and none is dropped |
| `WorkflowCache.CacheAgrees` | scripts/inference_worker.py:1507-1632 | after every sequence of resolve, invoke, warm-up and close: a key is cached exactly when the history of loads, uses and closes of these operations says so, with the instance loaded last; its entry shows the completed uses since load, the times of load and last use and the models named last; the registry shows the entries in insertion order and their number |
| `WorkflowCache.StepLogs` | scripts/inference_worker.py:1507-1632 | which loads, uses and closes each operation amounts to; a warm-up loads and then counts as a use, or closes the cache when it raises |
| `WorkflowCache.StepKeepsValid` | scripts/inference_worker.py:1507-1632 | every operation keeps dictionaries, registry and history in agreement |
| `WorkflowCache.NoResurrection` | scripts/inference_worker.py:1570-1583 | after a close, any number of uses of old hooks leaves cache and registry empty |
| `WorkflowCache.HitsAreOwnUses` | scripts/inference_worker.py:1622-1632 | the hit count is the number of uses of the loaded instance exactly when no hook of another instance was used since load |
| `WorkflowCache.StaleHookCounts` | scripts/inference_worker.py:1622-1632 | from every state, a hook kept across a close and a reload counts on the new entry |
| `WorkflowExecutor.Executor.PublishModelCache` | scripts/inference_worker.py:629-633 | the registry holds copies of all entries in insertion order and their number |
| `WorkflowExecutor.Executor.GetOrCreate` | scripts/inference_worker.py:1514-1551 | returns the cached instance, or loads and publishes a new one exactly when the workflow is cacheable |
| `WorkflowExecutor.Executor.RecordCacheUse` | scripts/inference_worker.py:1570-1583 | raises the hit count of an existing entry, sets its time of use and its models if named, leaves all other entries alone and publishes; an absent entry stays absent |
| `WorkflowExecutor.Executor.ResolveHook` | scripts/inference_worker.py:1585-1632 | the hook belongs to the cached instance; an instance already cached is never replaced |
| `WorkflowExecutor.Executor.InvokeCached` | scripts/inference_worker.py:1622-1632 | returns or raises as the call does, and records the use in both cases; an entry that is gone stays gone |
| `WorkflowExecutor.Executor.WarmEnabled` | scripts/inference_worker.py:1701-1739 | a completed warm-up raises the hit count by one; one that raises empties the cache; one of a workflow that is neither cacheable nor loaded changes nothing |
| `WorkflowExecutor.Executor.CloseCache` | scripts/inference_worker.py:1782-1791 | empties cache and registry and returns every instance, in insertion order, for cleanup |
| `ArtifactOverlay.MergeArtifactLists` | scripts/plugin_direct_runner.py:546-570 | the loop with its position index equals first-occurrence order, last value over the concatenation |
| `ArtifactOverlay.MergeIsAssociative` | scripts/plugin_direct_runner.py:525-533 | merging is associative |
| `ArtifactOverlay.MergeIsIdempotent` | scripts/plugin_direct_runner.py:525-533 | overlaying the same artifacts again, or a merge over itself, changes nothing |
| `ArtifactOverlay.MergeHasDistinctSlots` | scripts/plugin_direct_runner.py:559-569 | no two entries share a non-empty key, and no keyless entry occurs twice |
| `ArtifactOverlay.MatchedIff` | scripts/plugin_direct_runner.py:553-566 | two artifacts are matched exactly when they are equal, or are objects at one storage path (or path) under one name, not both empty |
| `ArtifactOverlay.MergeRepresents` | scripts/plugin_direct_runner.py:546-570 | every artifact is represented, by the last current one of its key if there is one and by the last prior one otherwise |

## Left out

- Redis, file system, xarray, zarr, torch and subprocess calls: they appear as abstract steps, maps, layouts or functions.
- WorkerProtocol: idle times, stream trimming and consumer names; any pending message may be claimed at any moment, which only adds runs.
- ForwardMany.Redis.ForwardMany: the source stream and group checks of the argument validation, and the contents of run hashes other than the stage.
- FanoutPostprocess.MergeStores: child stores whose ensemble axes differ, stores without dimension names, and the copy of coordinate arrays; the member ids of a child are those of one batch.
- FanoutPostprocess.Postprocess: parsing of child result files and status synonyms; a child is usable or not.
- ChunkNames.RemapPartsIsRemapKey: signs, blanks and underscores that Python's int() also accepts in a file name.
- ChunkNames.NotAChunkFile: counts such signs, blanks and underscores as not digits.
- CoercionMeaning.ConformingIsKept: stated without several-armed unions, where it fails (CoercionMeaning.TextArmChanges).
- CoercionMeaning.SpellingIsRead: takes it as given that int() and float() read what str() writes, which Python promises of finite values.
- ChunkMergeLimits.SafeOrderIsExact: stated for children that have at least two chunks in every other dimension and hold no value twice, which is where a loss is visible; chunk files are functions of the offset, so a decoder that rejects a file of another size is not modelled.
- BatchSafety.EveryScheduleAgrees: an exception handler that itself raises, and the parsing of the parallelism setting.
- SchemaLimits.AcceptedIffFits: exact without several-armed unions only; an arm a value does not conform to may accept it (SchemaLimits.TextArmAccepts), so with several arms the exact condition is coercion itself.
- SchemaSoundness.SchemaIsSound: dataclasses whose `__post_init__` raises or that have `init=False` fields; datetime, date, Path, tuple and Pydantic types, NaN and infinities; str(), int(), float() and strip().lower() of Python are parameters.
- ExampleRequests.ExampleConforms: the schema keywords the compiler never emits (oneOf, allOf, const, default, examples, minimum, minLength, minItems).
- PrepareExecute.CoercionIsStable: the run method and the normalization of its result.
- PipelineCheck.ValidatePipeline: whitespace beyond blank, tab, newline and carriage return; the normalized stages are returned instead of being written back into the objects.
- PipelineRun.RunStages: the payload the stages pass on; the hooks are a function of the stages visited.
- PublishStage.StageContext.EnsurePublishStage: pipeline entries that are not objects or have no text id.
- Completion.MarkAgreesIff: the fields of the results envelope and the pipeline updates copied into a handed-off payload.
- BatchCompletion.RunBatch: what the preflight and the execution of an item do is an input, one description per item; memory and resource numbers of the release, parent run ids, and status synonyms.
- AbortSafety.AnswersAreSafe: wait_for_initial_poll, and shutdown events that are cleared again.
- WorkflowCache.CacheAgrees: a raising warm-up loads and closes in one step, although the lock is free in between; what may happen there is a resolve followed by a close. Also a publisher whose Redis call raises, and the timestamps other than load and last use.
- The deprecated legacy batch path, pipeline profile expansion, HTTP tracing, scaffolding and readiness checks, the Earth2 workflow plugins, the CFD benchmark and the C++ SDK.
