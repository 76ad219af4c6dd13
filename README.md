# GraspVLA playground: a Dafny model of the evaluation client and its tools

This project models the client side of the GraspVLA playground: the
`RemoteAgent` that turns simulator observations into robot actions by asking
a model server for chunks of delta actions, and the small tools around the
LIBERO evaluation that prepare initial states, generate BDDL problem files
and Objaverse class names, split evaluation seeds across parallel processes,
and tally success rates from the names of the recorded videos.

Modules, one per source file:

| module | file | models |
|---|---|---|
| `Wrappers` | `wrappers.dfy` | `Option`, `Result` and `Outcome` |
| `Strings` | `strings.dfy` | the Python string operations the core relies on: `strip`, `startswith`/`endswith`/`in`, `count`, `replace`, `split`/`join`, `capitalize`, `str` of a number |
| `Pose` | `pose.dfy` | vectors, 3x3 matrices, poses, `_delta_to_abs` |
| `ChunkDecoding` | `chunk_decoding.dfy` | the decoding of one action chunk in `_post_and_get`, as values |
| `Agent` | `agent.dfy` | `RemoteAgent`: input validation, proprioception history, the action queue, `step` |
| `BenchmarkRunner` | `benchmark_runner.dfy` | `process_initial_state` (basket removal) |
| `ExportAsBddl` | `export_as_bddl.dfy` | `misc/export_as_bddl.py` |
| `CustomObjects` | `custom_objects.dfy` | the naming of the generated Objaverse classes |
| `ParallelEval` | `parallel_eval.dfy` | the seed split and the shell script of `parallel_eval.py` |
| `SuccessRatePerObject` | `success_rate_per_object.dfy` | `misc/get_success_rate_per_object.py` |
| `Statistics` | `statistics.dfy` | `misc/get_statistics.py` |

`RemoteAgent` is a class whose fields are the source's object state
(`proprio_history`, `pred_actions`, `finger_state`) plus a request counter.
Its methods keep the source's loops (`ProcessProprio` pads the history in a
`while` loop, `DecodeOnto` walks the chunk, `Enqueue` appends the grip copies
in a `for` loop), and each is proved against the functions of
`ChunkDecoding` and `Agent`. The server is a parameter `reply` from the
request (history and instruction) to the response (delta chunk and bounding
box). Forward kinematics and the Euler/quaternion/matrix conversions are
parameters too (`Kinematics`, `Rotations`), left uninterpreted. Only the
matrix product that composes the two rotations is written out.

The tools are pure functions over their inputs. Directory listings are a
parameter `listDir` from a path to `Option<seq<string>>`, with `None` for a
missing directory. Each loop of the tools is also a method proved equal to
its function: `CreateBddlObjects`, `CreateBddlInitState`,
`PlanParallelRun`, `Tally` and `CollectVideos`. `ExportAsBddlFile`
assembles the problem text step by step. `ProcessInitialState` works on an
`array<real>`: it allocates the shorter array and fills it with the slice
assignments of the source.

## Notes on the code's behaviour

- The socket has a 5-second receive timeout (agent.py:55), so
  `recv_pyobj` (agent.py:153) raises `zmq.Again` when the server does not
  answer in time. The transport and this error path are left out, and the
  reply is a total function. The client does not check the reply's shape.
- The queue may be empty after a refill. A server that returns an empty
  chunk makes `popleft` raise `IndexError`. `Step` returns
  `Failure(EmptyChunk)` in that case.
- The history length (4), the open-gripper value (1.0) and the number of
  grip copies (4) are class constants (agent.py:29-31). They are `const`s
  here.
- `finger_state` is updated inside the decoding loop, at each transition
  (agent.py:174). `DecodeOnto` proves that its value after the loop is the
  chunk's last non-zero gripper command, or the old state when there is
  none.
- `name_parts[:-6]` in `misc/get_success_rate_per_object.py` removes
  `_x264` together with the character before it. `StripCodec` models this
  as written.

## Model

| member | source | states |
|---|---|---|
| `Agent.ValidateInputs` | agent.py:41-46 | The instruction is checked first. The result is `EmptyInstruction` exactly when every character is whitespace. It is `PortOutOfRange(port)` exactly when the instruction has a non-space character and the port is outside 1..65535. Otherwise it is `Pass`. |
| `Agent.RemoteAgent.constructor` | agent.py:68-73 | A new agent keeps its instruction; the `port` field stands for the endpoint the socket connects to (agent.py:53). Its history and queue are empty, its gripper state is open (1.0), and no request has been sent. |
| `Agent.RemoteAgent.Create` | agent.py:34-46 | Construction fails exactly when validation fails, and with the same error. Otherwise it yields a fresh agent in the initial state. |
| `Agent.CurrentProprio` | agent.py:75-97 | The proprioception frame: the forward-kinematics position, the sxyz Euler angles of the forward-kinematics quaternion, and the gripper state. `Agent.RemoteAgent.ProcessProprio` and `Agent.RemoteAgent.Step` state the history in terms of it. |
| `Agent.UpdatedHistory` | agent.py:137-141 | The deque append with `maxlen` 4, then the padding loop. Specified by `Agent.PadShape`, `Agent.FirstUpdate`, `Agent.LaterUpdate` and `Agent.UpdatedHistoryShape`. |
| `Agent.PadShape` | agent.py:140-141 | Padding keeps every frame it is given. It fills the slots up to four with copies of the newest frame. |
| `Agent.FirstUpdate` | agent.py:137-141 | The first frame on an empty history becomes four copies of that frame. |
| `Agent.LaterUpdate` | agent.py:138 | On a full history of four, appending drops the oldest frame and puts the new frame last. |
| `Agent.UpdatedHistoryShape` | agent.py:137-141 | After any update from at most four frames, the history holds exactly four frames and the newest is last. |
| `Agent.RemoteAgent.ProcessProprio` | agent.py:128-141 | The history becomes the update of the old history with the current proprioception. That is the forward-kinematics position, the Euler angles of the quaternion, and the current gripper state. Its length is four. |
| `Agent.Flip` | agent.py:121-124 | The sign flip of the gripper before an action is returned. Specified by `Agent.FlipProperties`. |
| `Agent.FlipProperties` | agent.py:121-124 | The emitted gripper value is the negated queued value; pose and bounding box pass unchanged. Flipping twice restores the entry. |
| `Agent.RemoteAgent.PostAndGet` | agent.py:144-175 | Exactly one request is sent, carrying the history and the instruction. The queue is extended by the decoded chunk of the reply, starting from the newest frame's pose. The gripper state becomes the decoder's final state. |
| `Agent.RemoteAgent.DecodeOnto` | agent.py:156-175 | The loop over the chunk appends exactly the decoded actions to the queue. The gripper state ends as the decoder's last non-zero command, defaulting to the old state. |
| `Agent.RemoteAgent.Enqueue` | agent.py:161-174 | A non-transition appends the action once. A transition appends the arm-only action with gripper 0, then four copies of the action, and commits its gripper value as the new state. |
| `Agent.RemoteAgent.Step` | agent.py:100-125 | The history is always updated. The server is asked exactly when the queue was empty. The first pending action is returned with its gripper flipped and removed from the queue. An empty chunk gives `Failure(EmptyChunk)`. The gripper state changes only on a refill. |
| `Agent.FirstTickExample` | agent.py:100-125 | The first tick of a new agent whose server answers a 1 cm step along x emits the current position plus that step. Its gripper value is the flipped 0 and its bounding box is the server's. |
| `Pose.DeltaToAbs` | agent.py:193-212 | `_delta_to_abs`. Specified by `Pose.DeltaToAbsOrder`, `Pose.ZeroDeltaKeepsPose` and `ChunkDecoding.AbsolutePositions`. |
| `Pose.DeltaToAbsOrder` | agent.py:203-204 | The new rotation converts `R_delta @ R_current`. For a quarter turn about x onto a quarter turn about z, that product differs from `R_current @ R_delta`. When the conversion back to angles distinguishes the two products, the resulting angles differ from those of the reversed order. |
| `Pose.ZeroDeltaKeepsPose` | agent.py:203-211 | When the conversions map zero angles to the identity and round-trip the current angles, a zero delta leaves the pose unchanged. |
| `ChunkDecoding.DecodeChunk` | agent.py:156-175 | The queue entries and the final gripper state of one chunk. Specified by `ChunkDecoding.DecodeOneMore`, `ChunkDecoding.ExpandLength`, `ChunkDecoding.FingerAfterIsLastCommand` and `ChunkDecoding.FingerAfterNoCommand`. `Agent.RemoteAgent.DecodeOnto` is its loop. |
| `ChunkDecoding.AbsolutePoses` | agent.py:157-160 | There is one absolute action per delta, and each keeps its delta's gripper value. |
| `ChunkDecoding.AbsolutePosesPrefix` | agent.py:158-160 | Decoding a prefix of a chunk gives the same prefix of absolute actions. |
| `ChunkDecoding.RunningPoseChain` | agent.py:157-160 | Entry `k` is composed onto entry `k - 1`'s absolute pose. The first entry is composed onto the newest history frame. |
| `ChunkDecoding.DecodeOneMore` | agent.py:158-175 | One more loop iteration appends one absolute action and that action's queue entries. It moves `last_finger_state` to the action's gripper value when that value is non-zero. |
| `ChunkDecoding.AbsolutePositions` | agent.py:157-160 | The position of entry `k` is the start position plus the translations of entries 0 to `k`. |
| `ChunkDecoding.ExpandEntry` | agent.py:161-174 | A transition (gripper non-zero and different from `last_finger_state`) gives five entries: the arm-only action with gripper 0, then four copies of the action. Anything else gives the action itself. Every entry has the action's pose and the reply's bounding box. |
| `ChunkDecoding.Expand` | agent.py:158-174 | Every entry queued from a chunk carries the reply's bounding box. |
| `ChunkDecoding.ExpandLength` | agent.py:161-174 | A chunk queues its length plus four entries per gripper transition. |
| `ChunkDecoding.FingerAfterNoCommand` | agent.py:175 | A chunk whose gripper values are all 0 leaves `last_finger_state` unchanged. |
| `ChunkDecoding.FingerAfterIsLastCommand` | agent.py:175 | After a chunk, `last_finger_state` is the chunk's last non-zero gripper command. |
| `ChunkDecoding.TransitionExample` | agent.py:161-175 | With the gripper at -1, the chunk `[(d1, 0), (d2, +1)]` queues exactly six entries, all with the chunk's bounding box: d1's absolute action a1 from the start pose, then d2's absolute action a2 (composed onto a1's pose) arm-only with gripper 0, then four copies of a2 with gripper +1. The state becomes +1. |
| `ChunkDecoding.SingleNoCommandChunk` | agent.py:161-164 | A one-entry chunk with gripper 0 queues its absolute action once and keeps the gripper state. |
| `ChunkDecoding.NoTransitionExample` | agent.py:161-164 | Repeating the current gripper command is not a transition: a single entry is queued. |
| `BenchmarkRunner.ProcessedState` | benchmark_runner.py:144-170 | `process_initial_state` as a value, including numpy's errors on short states. Specified by the `BenchmarkRunner` layout lemmas below. `BenchmarkRunner.ProcessInitialState` is its array version. |
| `BenchmarkRunner.LiberoObjectLayout` | benchmark_runner.py:157-162 | A libero_object state of at least 30 scalars loses exactly 13. The first 17 are kept. The rest comes from index 24 on, without the last 6. |
| `BenchmarkRunner.LiberoObjectTooShort` | benchmark_runner.py:159-161 | A shorter libero_object state is an error. The error is a negative dimension exactly when the state has fewer than 13 scalars; otherwise it is a broadcast mismatch. |
| `BenchmarkRunner.TestSetTakesPriority` | benchmark_runner.py:157-163 | For libero_object the task name and object count do not matter, because the test-set check comes first. |
| `BenchmarkRunner.LivingRoomLayout` | benchmark_runner.py:163-167 | In the living-room scenes the state loses 13 scalars. The first `1 + 9 + 7 * object_num` are copied and the rest is zero. |
| `BenchmarkRunner.LivingRoomTooShort` | benchmark_runner.py:165-167 | A living-room state too short for its kept prefix is an error. The error is a negative dimension exactly when the state has fewer than 13 scalars; otherwise it is a broadcast mismatch. |
| `BenchmarkRunner.OtherScenesUnchanged` | benchmark_runner.py:168-169 | Every other state is returned as it is. |
| `BenchmarkRunner.LivingRoomExample` | benchmark_runner.py:163 | A `LIVING_ROOM_SCENE2` task name is a living-room scene; a kitchen task name is not. |
| `BenchmarkRunner.ProcessInitialState` | benchmark_runner.py:144-170 | The array version fails exactly when the value version fails, with the same error; otherwise it has the same contents. A new array is allocated when the basket is removed, and the input array is returned otherwise. |
| `ExportAsBddl.NormalizeObjectName` | misc/export_as_bddl.py:2-4 | Normalizing keeps the length, replaces every space by `_` and keeps every other character. The result has no spaces. |
| `ExportAsBddl.NormalizeIdempotent` | misc/export_as_bddl.py:2-4 | Normalizing twice is normalizing once. |
| `ExportAsBddl.NormalizeWithoutSpaces` | misc/export_as_bddl.py:2-4 | A name without spaces is already normal. |
| `ExportAsBddl.NormalizeKeepsNewlines` | misc/export_as_bddl.py:2-4 | A normalized name has a line break exactly when the name has one. |
| `ExportAsBddl.CreateBddlObjects` | misc/export_as_bddl.py:25-33 | The loop builds the objects section: its header, then the entries joined by line breaks, then the closing line. |
| `ExportAsBddl.CreateBddlInitState` | misc/export_as_bddl.py:35-43 | The loop builds the init section the same way. |
| `ExportAsBddl.BddlContent` | misc/export_as_bddl.py:45-78 | The problem text. Specified by `ExportAsBddl.ObjectsSectionLines`, `ExportAsBddl.InitSectionLines`, `ExportAsBddl.TargetInstanceInObjOfInterestAndGoal`, `ExportAsBddl.LanguageLineUsesRawName` and `ExportAsBddl.RegionsAlwaysIncluded`. |
| `ExportAsBddl.ExportAsBddlFile` | misc/export_as_bddl.py:45-84 | The returned text is the assembled problem: preamble, regions, fixtures, objects, object of interest, init and goal. |
| `ExportAsBddl.EntriesAreSingleLines` | misc/export_as_bddl.py:25-43 | An object name without line breaks gives an object entry and an init entry of one line each. |
| `ExportAsBddl.SectionLines` | misc/export_as_bddl.py:33 | A section of one-line entries reads back, line by line, as its header, its entries and the closing line. |
| `ExportAsBddl.EmptySectionLines` | misc/export_as_bddl.py:33 | A section without objects is its header, one empty line and the closing line. |
| `ExportAsBddl.ObjectsSectionLines` | misc/export_as_bddl.py:25-33 | The objects section is `(:objects`, one line per object, then `    )`. |
| `ExportAsBddl.InitSectionLines` | misc/export_as_bddl.py:35-43 | The init section is `(:init`, one line per object, then `    )`. |
| `ExportAsBddl.TargetInstanceInObjOfInterestAndGoal` | misc/export_as_bddl.py:48-76 | The normalized target instance `objaverse_<target>_1` is both the object of interest and the object the goal requires grasped. |
| `ExportAsBddl.LanguageLineUsesRawName` | misc/export_as_bddl.py:57-59 | The problem starts with its header and a language line that uses the target name as given, not normalized. |
| `ExportAsBddl.RegionsAlwaysIncluded` | misc/export_as_bddl.py:52-60 | The fixed regions section is part of every problem. |
| `CustomObjects.ExtractObjectType` | libero/libero/envs/objects/custom_objects.py:30-32 | Everything before the last underscore. Specified by `CustomObjects.ExtractObjectTypeRoundTrip`, `CustomObjects.ExtractObjectTypeWithoutUnderscore` and `CustomObjects.ExtractThreeFields`. |
| `CustomObjects.ToCamelCase` | libero/libero/envs/objects/custom_objects.py:35-38 | Specified by `CustomObjects.CamelCaseHasNoUnderscore`, `CustomObjects.CamelCaseLength` and `CustomObjects.CamelCaseTwoFields`. |
| `CustomObjects.ClassName` | libero/libero/envs/objects/custom_objects.py:43-45 | Specified by `CustomObjects.ClassNameShape` and `CustomObjects.ThreeFieldAssetNames`. |
| `CustomObjects.DefaultName` | libero/libero/envs/objects/custom_objects.py:43-46 | Specified by `CustomObjects.DefaultNameMatchesBddlType` and `CustomObjects.ThreeFieldAssetNames`. |
| `CustomObjects.ExtractObjectTypeRoundTrip` | libero/libero/envs/objects/custom_objects.py:30-32 | A name with an underscore is its object type, `_` and its last field, with no underscore in that last field. |
| `CustomObjects.ExtractObjectTypeWithoutUnderscore` | libero/libero/envs/objects/custom_objects.py:30-32 | A name without an underscore has the empty object type. |
| `CustomObjects.ExtractThreeFields` | libero/libero/envs/objects/custom_objects.py:30-32 | The asset `a_b_c` has the type `a_b` and the default name `objaverse_a_b`. |
| `CustomObjects.CapitalizeWithoutUnderscore` | libero/libero/envs/objects/custom_objects.py:38 | Capitalizing a component without underscores introduces none. |
| `CustomObjects.CamelCaseHasNoUnderscore` | libero/libero/envs/objects/custom_objects.py:35-38 | CamelCase has no underscore left. |
| `CustomObjects.CamelCaseLength` | libero/libero/envs/objects/custom_objects.py:35-38 | CamelCase is one character shorter per underscore. |
| `CustomObjects.CamelCaseTwoFields` | libero/libero/envs/objects/custom_objects.py:35-38 | `a_b` becomes `a` and `b` capitalized and run together. |
| `CustomObjects.ClassNameShape` | libero/libero/envs/objects/custom_objects.py:41-45 | The class name is `Objaverse` followed by an underscore-free CamelCase type, with the matching length. |
| `CustomObjects.DefaultNameMatchesBddlType` | libero/libero/envs/objects/custom_objects.py:41-46 | For a type without spaces, the default instance name equals the object type the BDDL generator declares for that type. |
| `CustomObjects.ThreeFieldAssetNames` | libero/libero/envs/objects/custom_objects.py:41-46 | The asset `a_b_c` gets the class `Objaverse` + `A` + `B` (each field capitalized) and the default name `objaverse_a_b`. |
| `ParallelEval.SeedsFrom` | parallel_eval.py:39 | The slice `range(t)[s::n]` from `s` on. Specified by `ParallelEval.SeedsFromSteps`, `ParallelEval.SeedsFromMembership`, `ParallelEval.SeedsFromAscending` and `ParallelEval.SeedsFromBalanced`. |
| `ParallelEval.SeedList` | parallel_eval.py:38-39 | The seeds of process `i`. Specified by `ParallelEval.SeedListMembership`, `ParallelEval.SeedListsPartition` and `ParallelEval.SeedListsBalanced`. |
| `ParallelEval.SeedsFromSteps` | parallel_eval.py:39 | The slice `[s:t:n]` is empty exactly when `s >= t`. It starts at `s` and grows by `n` at each step. |
| `ParallelEval.SeedsFromMembership` | parallel_eval.py:39 | `x` is in the slice exactly when `s <= x < t` and `x - s` is a multiple of `n`. |
| `ParallelEval.SeedListMembership` | parallel_eval.py:39 | Process `i` gets exactly the seeds `0 <= x < trial_num` with `x % n == i`. |
| `ParallelEval.SeedsFromAscending` | parallel_eval.py:39 | Every seed list is strictly ascending, so it has no repeats. |
| `ParallelEval.SeedListsPartition` | parallel_eval.py:38-39 | Every trial seed goes to exactly one process. |
| `ParallelEval.SeedsFromBalanced` | parallel_eval.py:39 | Slices whose starts differ by at most `n` differ in length by at most one. |
| `ParallelEval.SeedListsBalanced` | parallel_eval.py:38-39 | Earlier processes get the same number of seeds as later ones, or one more. |
| `ParallelEval.AppendSeedList` | parallel_eval.py:38-39 | One loop step appends the seed list of the next process. |
| `ParallelEval.AppendLaunchCommand` | parallel_eval.py:73-76 | One loop step appends that process's launch line to the script. |
| `ParallelEval.PlanParallelRun` | parallel_eval.py:33-80 | The loop gives exactly the seed lists of the split and the script text. The text is the conda lines, the launch lines, `wait` and the statistics command, each ending in a line break. |
| `ParallelEval.ScriptLinesAreSingleLines` | parallel_eval.py:34-80 | When the experiment name and the config path have no line breaks, no script line has one. |
| `ParallelEval.CommandsScriptLines` | parallel_eval.py:34-80 | Read back line by line, the script is `n + 5` lines: the conda hook, the activation, process `i`'s launch line at position `2 + i`, `wait`, the statistics command, and a final empty line. |
| `ParallelEval.LaunchLineEnds` | parallel_eval.py:73-74 | Launch line `i` ends with `i` and ` & `. |
| `ParallelEval.LaunchLinesDistinct` | parallel_eval.py:73 | Different processes get different launch lines. |
| `SuccessRatePerObject.Classify` | misc/get_success_rate_per_object.py:21-37 | The `.mp4` check and the verdict suffix. Specified by `SuccessRatePerObject.ClassifiedNameShape`, `SuccessRatePerObject.ClassifyMarkedName` and `SuccessRatePerObject.NonVideosIgnored`. |
| `SuccessRatePerObject.StripCodec` | misc/get_success_rate_per_object.py:40-41 | Specified by `SuccessRatePerObject.StripCodecDropsSix`. |
| `SuccessRatePerObject.TallyOf` | misc/get_success_rate_per_object.py:17-51 | The counting loop as a value. Specified by `SuccessRatePerObject.TallyFailsAtFirstMalformed`, `SuccessRatePerObject.TallyWellFormed`, `SuccessRatePerObject.TallyCounts` and `SuccessRatePerObject.TallySums`. `SuccessRatePerObject.Tally` is its loop. |
| `SuccessRatePerObject.ClassifiedNameShape` | misc/get_success_rate_per_object.py:21-37 | A file that is counted is its name parts, then `_success` or `_fail`, then `.mp4`. |
| `SuccessRatePerObject.ClassifyMarkedName` | misc/get_success_rate_per_object.py:21-33 | Name parts followed by a marker and `.mp4` are classified with that verdict and those name parts. |
| `SuccessRatePerObject.NonVideosIgnored` | misc/get_success_rate_per_object.py:21-22 | A file not ending in `.mp4` is skipped. |
| `SuccessRatePerObject.StripCodecDropsSix` | misc/get_success_rate_per_object.py:40-41 | `_x264` is cut together with the character before it. A name without the suffix is left alone. |
| `SuccessRatePerObject.Category` | misc/get_success_rate_per_object.py:44 | The category, when there is one, holds no underscore. |
| `SuccessRatePerObject.CategoryNeedsFourUnderscores` | misc/get_success_rate_per_object.py:40-44 | A fifth field exists exactly when the name parts, after the codec cut, have at least four underscores. |
| `SuccessRatePerObject.Tally` | misc/get_success_rate_per_object.py:20-51 | The loop ends in the tally of the whole listing, or stops at the first entry without a fifth field. |
| `SuccessRatePerObject.TallyStopsAtFailure` | misc/get_success_rate_per_object.py:20-51 | Once an entry has stopped the script, later entries change nothing. |
| `SuccessRatePerObject.SkippedEntryChangesNothing` | misc/get_success_rate_per_object.py:21-37 | Non-videos and videos without a marker leave the counters unchanged. |
| `SuccessRatePerObject.TallyFailsAtFirstMalformed` | misc/get_success_rate_per_object.py:20-51 | The run stops exactly when some marked video lacks a fifth field, and it stops at the first such entry. The model's failure carries that entry; the source's `IndexError` does not name it. |
| `SuccessRatePerObject.TallyWellFormed` | misc/get_success_rate_per_object.py:17-51 | After a finished run, every category is listed once, and each category's total is its successes plus its failures. |
| `SuccessRatePerObject.BumpWellFormed` | misc/get_success_rate_per_object.py:47-51 | Counting one video keeps the table well formed. |
| `SuccessRatePerObject.TallyCounts` | misc/get_success_rate_per_object.py:20-51 | A category's successes and failures are the numbers of its marked videos with each verdict. A category is absent exactly when it has no such videos. |
| `SuccessRatePerObject.SumConsistent` | misc/get_success_rate_per_object.py:65-66 | Over consistent counters, summed totals are summed successes plus summed failures. |
| `SuccessRatePerObject.TallySums` | misc/get_success_rate_per_object.py:65-66 | The summed totals count all marked videos, and the summed successes count the successful ones. |
| `SuccessRatePerObject.Rate` | misc/get_success_rate_per_object.py:61 | `(success / total) * 100 if total > 0 else 0`, the same at line 67. Specified by `SuccessRatePerObject.RateBounds`. |
| `SuccessRatePerObject.RateBounds` | misc/get_success_rate_per_object.py:61 | A rate lies in 0..100. It is 0 when there are no videos, and 100 exactly when there are videos and all succeeded. |
| `SuccessRatePerObject.CategoryRateBounds` | misc/get_success_rate_per_object.py:59-62 | Every category's rate lies in 0..100. |
| `SuccessRatePerObject.OverallOf` | misc/get_success_rate_per_object.py:65-70 | The overall line: summed successes, `total_videos - total_success`, summed totals and their rate. Specified by `SuccessRatePerObject.OverallCountsVideos` and `SuccessRatePerObject.OverallFailIsSummedFails`. |
| `SuccessRatePerObject.OverallCountsVideos` | misc/get_success_rate_per_object.py:65-70 | The overall line counts the successful and the failed videos of the listing; its total is their sum and its rate lies in 0..100. |
| `SuccessRatePerObject.OverallFailIsSummedFails` | misc/get_success_rate_per_object.py:70 | The overall failure count `total_videos - total_success` is the sum of the categories' failures. |
| `Statistics.PoolOf` | misc/get_statistics.py:29-43 | The pooled listing. Specified by `Statistics.PoolMembership` and `Statistics.ParallelListingsLength`. `Statistics.CollectVideos` is its loop. |
| `Statistics.CollectVideos` | misc/get_statistics.py:36-43 | The loop yields the main listing followed by the listing of each existing `videos_i`, or nothing when the main directory is missing. |
| `Statistics.ParallelListingsMembership` | misc/get_statistics.py:38-43 | A file is among the parallel listings exactly when it is listed in some existing `videos_i` with `i < 10`. |
| `Statistics.PoolMembership` | misc/get_statistics.py:36-43 | A file is in the pool exactly when it is in the main directory or in one of the ten parallel directories. |
| `Statistics.NoParallelRuns` | misc/get_statistics.py:38-43 | Without parallel directories, the parallel listings are empty. |
| `Statistics.ParallelListingsLength` | misc/get_statistics.py:38-43 | The parallel listings are as long as the listed directories put together. |
| `Statistics.WithPrefix` | misc/get_statistics.py:53 | A suite's videos are among the pool and all start with the suite's prefix. |
| `Statistics.WithPrefixMembership` | misc/get_statistics.py:53 | A file is one of a suite's videos exactly when it is in the pool and starts with the prefix. |
| `Statistics.CountMentioning` | misc/get_statistics.py:57-58 | At most every video mentions `success` or `fail`. |
| `Statistics.SuiteLine` | misc/get_statistics.py:52-61 | A suite has a line exactly when it has videos. The line gives its number of videos, the counts mentioning `success` and `fail` (each at most that number), and a rate in 0..1. |
| `Statistics.Summary` | misc/get_statistics.py:52-61 | The suite lines. Specified by `Statistics.SummaryShape`, `Statistics.SummaryLines`, `Statistics.PresentPrefixesIn` and `Statistics.PresentPrefixesLength`. |
| `Statistics.SummaryShape` | misc/get_statistics.py:52-61 | The summary has one line per suite with videos, in the order of the prefixes. |
| `Statistics.SummaryLines` | misc/get_statistics.py:52-61 | Every summary line belongs to one of the three suites, has videos, has counts within its number of videos, and has a rate in 0..1. |
| `Statistics.PresentPrefixesIn` | misc/get_statistics.py:52-56 | A prefix is reported exactly when it is one of the prefixes and has videos. |
| `Statistics.PresentIffStartsWith` | misc/get_statistics.py:53-56 | A suite has videos exactly when some file in the pool starts with its prefix. |
| `Statistics.PresentPrefixesLength` | misc/get_statistics.py:52-56 | At most three suites are reported. |
| `Statistics.PrefixesExclusive` | misc/get_statistics.py:45 | No file name starts with two of the three prefixes. |
| `Statistics.SuitesShareNoVideo` | misc/get_statistics.py:45-53 | The three suites together have at most as many videos as the pool. |
| `Statistics.RunStatistics` | misc/get_statistics.py:29-61 | There is no result exactly when the main video directory is missing, and otherwise at most three lines. |
| `Strings.StripEmptyIffAllSpace` | agent.py:43 | `not s.strip()` holds exactly when every character is whitespace. |
| `Strings.Split` | libero/libero/envs/objects/custom_objects.py:32 | A split has at least one field, and no field contains the separator. |
| `Strings.JoinSplit` | libero/libero/envs/objects/custom_objects.py:32 | Joining the fields of a split with its separator gives the string back. |
| `Strings.CapitalizeIdempotent` | libero/libero/envs/objects/custom_objects.py:38 | Capitalizing a capitalized word changes nothing. |
| `Strings.NatToStringInjective` | misc/get_statistics.py:40 | Different numbers have different decimal renderings, so the directories `videos_i` are distinct. |

## Left out

- The ZMQ transport is left out: socket setup, the 5-second receive timeout, pickling and connection errors. The server is the total function `reply`. A reply with a missing key or a malformed chunk is not modelled.
- The camera images in the request (`front_view_image`, `side_view_image`) and their flipping are left out. The request carries only the history and the instruction.
- Forward kinematics (cuRobo's IK solver and its robot configuration file) and transforms3d's `euler2mat`, `mat2euler` and `quat2euler` are left uninterpreted parameters. Only the matrix product is computed.
- Floating point: all scalars are reals. `-0.0` and `0.0` are the same value, and gripper values are compared exactly, as `==` does on the source's floats.
- The debug printing of `_post_and_get` (agent.py:176-190) and every `print`/`colored` line of the tools are left out.
- The writing of files (the BDDL file, `seeds_i.json`, `temp_config_i.yaml`, `commands.sh`, `statistics.txt`) and `os.system` are left out. `ExportAsBddlFile` returns the text it would write. `PlanParallelRun` returns the seed lists and the script text.
- The contents of `temp_config_i.yaml` and the optional benchmark overrides are left out.
- `os.listdir`, `os.path.exists` and `os.path.join` become the parameter `listDir` over `/`-joined paths. The listing order is whatever `listDir` returns.
- Argument parsing (argparse and hydra) is left out. The experiment name, paths and counts are parameters.
- The number formatting of the printed rates (`:.2f`, `:>8.1f`) is left out.
- `SuccessRatePerObject.OverallOf`: the printing order of the categories (sorted at misc/get_success_rate_per_object.py:59) does not affect any count and is left out. The table keeps first-seen order.
- `CustomObjects.ClassName`: the dynamic class creation with `type(...)`, `register_object` and the listing of `assets/playground_assets` are left out. Only the names are modelled.
- `Strings.Capitalize`: upper and lower case are mapped for ASCII letters only. Python's `capitalize` also maps other Unicode letters, some to more than one character (`'ß'.capitalize()` is `'Ss'`).
- `CustomObjects.ToCamelCase`: inherits the ASCII-only case mapping of `Strings.Capitalize`.
- `CustomObjects.CamelCaseLength`: one character shorter per underscore holds for the ASCII case mapping; with Python's full Unicode mapping a component can grow.
- `CustomObjects.ClassNameShape`: its length clause rests on `CustomObjects.CamelCaseLength` and has the same ASCII-only scope.
- `SuccessRatePerObject.Record`: the failure carries the entry that stopped the run; the source's `IndexError` at misc/get_success_rate_per_object.py:44 does not name it, and nothing about that entry is printed.
- `ParallelEval.PlanParallelRun`: `parallel_env_num` is a natural number of at least zero; the source's `range(...)[i::0]` error for zero processes is not reached, since the loop then runs zero times. A negative count is not modelled.
- `BenchmarkRunner.ProcessInitialState`: `object_num` is a natural number. A negative object count is not modelled.
- `evaluate_libero_tasks.py`, `playground.py`, `misc/logger.py`, `misc/sampling.py` and the third-party code are not part of this model.
- The element type of `np.sum` in misc/get_statistics.py:57-58 is left out. The counts are natural numbers.
