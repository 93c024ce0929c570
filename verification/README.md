# Konative: verified models of its own protocols

Konative glues EnTT, cereal, Glaze, moodycamel's queues, libcoro and KoReload together. What is its own, and
what this project models and proves, is a handful of protocols that have to hold over whole runs:

* **Durable snapshots.** `SnapshotCodec` (file format and decoder), `WriterSteps` (one writer's file
  operations), `AppState` (what a process keeps between frames), `SnapshotProtocol` (frames, drains, writer
  threads, input, kills and launches in any order), `SnapshotGuarantees` (what every run from a fresh install
  satisfies), `SnapshotStarts` (exactly what a frame, a launch and input do in any reachable state),
  `SnapshotReports` (what a report says and that it comes) and `StateFile` (the bytes on disk). `SnapshotFile` and `AndroidApp` are the same operations in place, on objects with loops, proved
  equal to the functions the step system uses.
* **Reflective JSON and live configuration.** `JsonText` (a reader for RFC 8259), `JsonNumbers`
  (what a number in it means), `Doubles` (rounding a decimal
  to the nearest double), `MetaJson` (the printing and
  field-setting loops), `JsonRoundTrip`, `ConfigFile` (provisioning, loading, polling, clamping) and `ConfigRuns`
  (stat, open and read as separate steps against an editor).
* **JNI discipline.** `JniEnv` is an environment in which every call may fail as it likes, with a log judged by
  an automaton for the interface's rules; `DexLoader` (with `DexLoaderSlips`) runs the reference owners, call helpers, files-directory
  lookup and DEX loader against it, with every destructor written out.
* **Events and frames.** `EventQueues`, `CrossThreadQueue`, `SpscQueue`, `NextEvent` and `FrameTicker`.
* **Motion and hot swap.** `Approach` and `HotSwap`.
* **Short hashes.** `ShortHash` (concurrent CMake processes claiming prefixes) and `ShortHashCall` (one call as
  its loop).

The three component codecs in `AppState` list the field widths that
`include/konative/app/heartbeat_counter_serialize.hpp`, `include/konative/spatial/transform_serialize.hpp` and
`include/konative/app/pointer_follow_serialize.hpp` name, in the tuple's order; the codec theorems hold for any list.

`Bytes`, `Decimal` and `Common` hold the byte archive, decimal text and the result types.

A run is a list of steps; a step that is not possible in a state leaves it alone, so a theorem about all lists is
about all interleavings. Files, clocks, schedulers and the Java side are parameters or nondeterministic choices.
Fields marked as history in a state (what was posted, what the file was written from, which ticks started
snapshots) are not kept by the code and never influence a step.

## What the code turned out to guarantee, and where it falls short of its comments

* The mtime check can go stale, exactly when a file time can recur: for a list of changes an editor makes, every
  schedule of the app's steps among them is free of stale data if and only if no change brings back an earlier
  time or the value an unset time has (`ConfigRuns.NeverStaleIffNoTimeRecurs`). Times may go backwards, and that
  each time labels one content is not enough (`ConfigRuns.OldTimeHidesOldContent`) unless nothing changed during
  that read (`ConfigRuns.NeverStaleUndisturbed`). A read that fails after its stat was recorded is not repeated
  either (`ConfigRuns.FailedReadSticks`). A read the file changed under may have seen anything.
* A JSON string or boolean where an int is expected raises an exception that nothing catches, although the
  comments in `meta_glaze_json.hpp` and the log text in `jni_onload.cpp` speak of a failed parse
  (`JsonRoundTrip.IntFieldTakes`).
* The dex loader breaks the interface's rules if and only if, among its own calls, GetObjectClass yields no class
  inside the loader upgrade, or NewLocalRef or the first NewGlobalRef raises an exception
  (`DexLoader.LoadClassFromDex`). The specification gives these functions no such failure; for each of the three
  there is an environment in which loading does end with a rule broken (`DexLoaderSlips.LoadWithSlip`).
  NewLocalRef may still return null without an exception, so the comment that the upgrade never returns null is
  not quite true; the loader then reports ClassNotFoundInDex.
* The comment on check_and_clear_exception forbids DeleteLocalRef while an exception is pending, and two helpers
  do exactly that. Chapter 2 of the Java Native Interface Specification allows it, and that is the rule modelled.
* Frame deltas of a session add up to its span exactly when no frame but the last has time 0
  (`FrameTicker.SessionDeltasAddUp`).
* The heartbeat total is restored base plus three per frame only while the counters stay below 2^64
  (`SnapshotGuarantees.PopulationStable`).
* A launch that cannot open the state file, or is of another version, starts from zero; `LaunchCarriesOver` says
  exactly when progress is carried over.
* A CMake process killed while writing a claim leaves a claim file that matches no hash. Names stay unique and
  stable, and every answer is still claimed, except for a hash whose length-40 claim was cut off partway: such a
  hash is never claimed (`ShortHash.ClaimedUnlessTorn`).
* An int config field takes a little more than the int range: a decimal up to half a unit in the last place
  beyond either limit rounds to the limit as a double and passes the check (`JsonRoundTrip.IntFieldTakes`).
* The SPSC self-checks throw for a negative event count, because `reserve` is given its unsigned image.

## Model

| member | source | states |
|---|---|---|
| SnapshotCodec.RoundTrip | include/konative/ecs/snapshot_file.hpp:114-147 | for every list of component codecs and every registry they can express, reading the written file, with any bytes after it, restores exactly that registry |
| SnapshotCodec.DecodeEncode | include/konative/ecs/snapshot_file.hpp:170-200 | the component tuple shared by both directions decodes what it encoded and stops at its last byte |
| SnapshotCodec.TruncationRefused | include/konative/ecs/snapshot_file.hpp:125-144 | every strict prefix of a written file is refused: bad header below 8 bytes, archive error from 8 on |
| SnapshotCodec.DecodeRefusesPrefix | include/konative/ecs/snapshot_file.hpp:136-144 | no proper prefix of an encoded payload decodes |
| SnapshotCodec.DecodeExtends | include/konative/ecs/snapshot_file.hpp:136-146 | whatever decodes still decodes to the same registry when bytes follow it |
| SnapshotCodec.ErrorOrder | include/konative/ecs/snapshot_file.hpp:120-146 | for every byte string the outcome is fixed by length, the bytes KSNP, the version bytes and decodability, in that order |
| SnapshotCodec.RestoreIsSound | include/konative/ecs/snapshot_file.hpp:106-147 | a restore that succeeds, from any bytes, leaves no entity twice and every component on a live entity, given that the loader throws on an entity or component that comes twice |
| SnapshotCodec.MagicText | include/konative/ecs/snapshot_file.hpp:50 | the magic number reads KSNP on disk |
| SnapshotFile.Registry.EmplaceEntity | include/konative/ecs/snapshot_file.hpp:136-140 | emplacing an id revives it, or does nothing if it is live |
| SnapshotFile.WriteComponents | include/konative/ecs/snapshot_file.hpp:170-173 | the fold over the tuple appends exactly the encoding of every pool in order |
| SnapshotFile.Serialize | src/platform/android/jni_onload.cpp:736-746 | the captured bytes are the encoding that RoundTrip reads back |
| SnapshotFile.ReadSnapshotFile | include/konative/ecs/snapshot_file.hpp:114-147 | reading in place returns the live count and the restored registry, or the error and an empty registry |
| SnapshotFile.WriteSnapshotBytesFile | include/konative/ecs/snapshot_file.hpp:58-85 | each result for exactly the calls that fail; the state file changes only on success, and then to header plus payload; a failed write leaves a prefix in the temp file, a failed rename removes it if it can; no other file is touched; it is the uninterrupted run of the writer's steps |
| SnapshotFile.CleanupOrphans | include/konative/ecs/snapshot_file.hpp:213-228 | the sweep removes every orphan it can remove and nothing else |
| SnapshotFile.SweepSparesState | include/konative/ecs/snapshot_file.hpp:202-228 | exactly the files whose names start with the state file's and ".tmp" go, but for those that cannot be removed; that is never the state file and covers every temp name a writer could have used |
| WriterSteps.TempNamesDiffer | include/konative/ecs/snapshot_file.hpp:63 | different suffixes give different temp names, each starting with the state file's name and ".tmp", none of them the state file |
| SnapshotProtocol.SystemsKeepPopulation | src/platform/android/jni_onload.cpp:171-175 | one run of the systems keeps the whole population and takes every counter from n to n + 1 modulo 2^64 |
| AppState.MoveTouchesOnlyPositions | include/konative/app/pointer_follow_system.hpp:17-22 | gliding keeps every transform in its place, changes only those of followers, and of those only the position |
| SnapshotProtocol.NextKeeps | src/platform/android/jni_onload.cpp:645-781 | every single step, of the main thread, a writer, a kill or a launch, keeps the protocol invariant |
| SnapshotProtocol.RunKeeps | src/platform/android/jni_onload.cpp:734-773 | so does every run |
| SnapshotProtocol.RestoreSucceeds | src/platform/android/jni_onload.cpp:492-517 | whenever a state file exists, a build of its version that can open it restores exactly the captured registry |
| SnapshotProtocol.OtherVersionRefused | include/konative/ecs/snapshot_file.hpp:132-134 | a build of another version refuses it as a version mismatch |
| SnapshotProtocol.StartedIsPopulated | src/platform/android/jni_onload.cpp:530-590 | starting yields the full population, standing for the file's frames exactly when the file is kept |
| SnapshotGuarantees.CrashConsistency | include/konative/ecs/snapshot_file.hpp:58-85 | in every reachable state the state file is absent or exactly header plus the complete encoding of the registry some frame left |
| SnapshotGuarantees.TakenWasSeen | src/platform/android/jni_onload.cpp:734-746 | every captured snapshot was the live registry at a frame boundary |
| SnapshotGuarantees.WritersApart | src/platform/android/jni_onload.cpp:734-773 | at most one writer is between spawn and flag-clear, and live writers never share a temp name |
| SnapshotGuarantees.DurabilityMonotone | src/platform/android/jni_onload.cpp:484-517 | over any history whose launches could read the file they found, the progress on disk never decreases and every rename raises it |
| SnapshotGuarantees.HeartbeatsOnDisk | src/platform/android/jni_onload.cpp:492-504 | what a restore reads back always adds up to three times the frames the file stands for, modulo 2^64 per counter |
| SnapshotGuarantees.LaunchCarriesOver | src/platform/android/jni_onload.cpp:484-517 | a launch carries progress over if and only if it opens a file of its version, or there was none to lose |
| SnapshotGuarantees.PopulationStable | src/platform/android/jni_onload.cpp:530-590 | after any kills and launches there are exactly 3 heartbeat entities and 1 follower, and the combined ticks are the restored base plus 3 per frame |
| SnapshotGuarantees.SnapshotRateBound | src/platform/android/jni_onload.cpp:665-735 | under any config edits at most 2 snapshots start per 120-tick window, at most 2 * (T / 120 + 1) in the first T ticks, and the floors hold |
| SnapshotGuarantees.EventConservation | src/platform/android/jni_onload.cpp:755-780 | each started snapshot has exactly one report, still with its writer, queued, dispatched or delivered, and it is delivered one frame after it was drained |
| SnapshotStarts.StartsExactlyWhenDue | src/platform/android/jni_onload.cpp:734-773 | over any run a frame starts a snapshot if and only if its count is a multiple of the interval in force and no writer is between spawn and flag-clear; the new writer holds the file bytes of this frame's registry and opens its temp file first, or clears the flag if there is no state path |
| SnapshotStarts.FrameChanges | src/platform/android/jni_onload.cpp:645-690 | everything else a frame changes in any reachable state: each counter by one modulo 2^64, the follower's position, the drained events delivered in order, and the configuration exactly at a poll that read one |
| SnapshotStarts.LaunchResumes | src/platform/android/jni_onload.cpp:484-590 | in any reachable state a launch that opens a file of its version brings back exactly the captured registry, as user-aimed, and any other starts with the first registry; of the files only leftover temp files go |
| SnapshotStarts.InputAims | src/platform/android/jni_onload.cpp:1008-1036 | a touch sets the follower's target and is remembered, a resize sets it only before any touch or restore; rate, positions and counters stay |
| SnapshotReports.ReportsTellTheTruth | src/platform/android/jni_onload.cpp:755-773 | over any run a posted event says persisted if and only if this process renamed that snapshot over the state file, and its size is the payload's |
| SnapshotReports.ReportComes | src/platform/android/jni_onload.cpp:755-773 | from any state a started writer is at most five of its own operations from a clear flag and a queued report |
| StateFile.StateFileLayout | include/konative/ecs/snapshot_file.hpp:58-85 | over any run the state file is absent or is 144 bytes: KSNP, version, four entities, three counters, one transform, one follower, each where it belongs, of the registry some frame left |
| StateFile.LeastFirst | include/konative/ecs/snapshot_file.hpp:70-72 | numbers are written least significant byte first |
| StateFile.FloatAt | include/konative/spatial/transform_serialize.hpp:21-26 | the fields of a component follow each other in its order, four bytes each |
| AndroidApp.App.OnStarted | src/platform/android/jni_onload.cpp:484-590 | starting in place is the launch of the step system: sweep, restore or create, find or create the follower, clamp |
| AndroidApp.App.Restore | src/platform/android/jni_onload.cpp:484-517 | a restore either leaves what the file says or reports failure, after sweeping |
| AndroidApp.App.FindOrCreateFollower | src/platform/android/jni_onload.cpp:566-590 | a restored follower is kept and counts as user-aimed; only without one is it created |
| AndroidApp.App.IncrementHeartbeatCounters | src/platform/android/jni_onload.cpp:171-175 | the loop bumps every counter and touches no other pool |
| AndroidApp.App.WorldTick | include/konative/ecs/world.hpp:20-23 | systems first, then every dispatched event is delivered and none is kept |
| AndroidApp.App.OnTick | src/platform/android/jni_onload.cpp:645-774 | count, poll every 120 frames with a files directory and clamp, then the due snapshot; StartsExactlyWhenDue says when that is |
| AndroidApp.App.SnapshotIfDue | src/platform/android/jni_onload.cpp:734-735 | a writer starts on every multiple of the interval with none in flight, with this frame's bytes, and otherwise nothing changes |
| AndroidApp.App.StartSnapshot | src/platform/android/jni_onload.cpp:734-774 | the writer is given the encoding of the registry of this very frame |
| AndroidApp.App.Tick | include/konative/app/application.hpp:28-31 | one tick in place is the frame step of the protocol |
| AndroidApp.App.DrainInto | include/konative/scheduling/cross_thread_event_queue.hpp:39-44 | draining, with writers posting at any moment until the queue is seen empty and any queued report coming out first, is a run of the protocol's drain and post steps that leaves the queue empty |
| AndroidApp.App.DrainTurn | include/konative/scheduling/cross_thread_event_queue.hpp:41-43 | one turn of that loop is one step of the protocol, or finds the queue empty |
| AndroidApp.App.AimFollower | src/platform/android/jni_onload.cpp:1007-1036 | touches aim the follower, resizes only until the user has aimed it; InputAims says what that changes |
| JsonRoundTrip.PrintedIsObject | include/konative/reflect/meta_glaze_json.hpp:112-148 | the whole text the printing loop builds is one RFC 8259 object with exactly the fields under their names; what follows it is left unread |
| JsonRoundTrip.PrintedCompactly | include/konative/reflect/meta_glaze_json.hpp:112-148 | the text of a record of two ints, as a provisioned configuration file has it, character by character |
| JsonRoundTrip.PrintedIntIsInteger | include/konative/reflect/meta_glaze_json.hpp:36-39 | ints print as integers of section 6 of RFC 8259, without fraction, exponent or leading zero |
| JsonRoundTrip.RoundTrip | include/konative/reflect/meta_glaze_json.hpp:172-211 | printing any record of distinctly named ints and bools and reading it into any instance gives the record back |
| JsonRoundTrip.PrintingIsInjective | include/konative/reflect/meta_glaze_json.hpp:112-148 | different instances print differently |
| JsonRoundTrip.IntFieldTakes | include/konative/reflect/meta_glaze_json.hpp:80-88 | an int field takes exactly the decimals inside int range and the half unit in the last place beyond that rounds to a limit, stores the whole part of the double, cut toward zero, keeps whole numbers, and raises exactly on non-numbers |
| Doubles.IsNear | include/konative/reflect/meta_glaze_json.hpp:82 | the double a number is held as is off by at most one part in 2^53 |
| Doubles.NearestEven | include/konative/reflect/meta_glaze_json.hpp:82 | it is the nearest one of 53 bits, and of two equally near the even one |
| JsonNumbers.NumberMeans | include/konative/reflect/meta_glaze_json.hpp:177-180 | sign, digits, fraction and exponent of section 6 of RFC 8259 are read as the decimal they denote |
| Doubles.WholeIsExact | include/konative/reflect/meta_glaze_json.hpp:82-87 | whole numbers of up to 53 bits are doubles, so every int survives being held as one |
| Doubles.RoundsToMax | include/konative/reflect/meta_glaze_json.hpp:83-84 | a positive decimal rounds to at most the largest int if and only if it is at most 2^-23 above it |
| Doubles.RoundsToMin | include/konative/reflect/meta_glaze_json.hpp:83-84 | likewise 2^-22 beyond the smallest int |
| JsonRoundTrip.SetFieldsMeaning | include/konative/reflect/meta_glaze_json.hpp:193-210 | the field loop sets every field before the first bad one, none from there on, and accepts if and only if every mentioned field can be set |
| JsonRoundTrip.ReadingKeepsFit | include/konative/reflect/meta_glaze_json.hpp:193-210 | however reading ends, every field still holds a value of its type |
| JsonRoundTrip.VerdictIgnoresInstance | include/konative/reflect/meta_glaze_json.hpp:172-211 | whether a text is accepted does not depend on the instance |
| MetaJson.MetaComponentToJson | include/konative/reflect/meta_glaze_json.hpp:112-148 | the loop builds the text of all members, or the empty string exactly when the type is invalid or a member is unnamed or cannot be printed |
| MetaJson.MetaComponentFromJson | include/konative/reflect/meta_glaze_json.hpp:172-211 | the in-place loop leaves the status and the possibly half-updated instance that SetFieldsMeaning describes; a text that is no JSON or no object is refused and changes nothing |
| MetaJson.Instance.Set | include/konative/reflect/meta_glaze_json.hpp:80-104 | an int field gets the number's whole part, cut toward zero, a bool field the bool, and the field is left alone when the value is refused or raises |
| ConfigFile.ClampToValid | include/konative/app/app_config.hpp:58-61 | each field stays as it was if it is at least its floor, 10 and 60, and becomes the floor otherwise |
| ConfigFile.JsonConfigFile.ParseFileInto | include/konative/app/config/json_config_file.hpp:157-174 | the live instance is replaced only by a wholly accepted text |
| ConfigFile.JsonConfigFile.LoadOrProvision | include/konative/app/config/json_config_file.hpp:92-116 | each outcome, the recorded time and the instance for every answer of the file system |
| ConfigFile.JsonConfigFile.PollReload | include/konative/app/config/json_config_file.hpp:129-141 | unchanged if and only if the stat fails or the time is the recorded one; otherwise the time is recorded whatever the parse does |
| ConfigFile.PollConfig | src/platform/android/jni_onload.cpp:665-690 | after a poll the live values are the clamped partial update, or exactly what they were |
| ConfigFile.LoadConfig | src/platform/android/jni_onload.cpp:407-456 | after loading the values are the clamped defaults, or the reload of them, unless an exception ended it |
| ConfigFile.ClampingFirstChangesNothing | include/konative/app/app_config.hpp:58-61 | clamping before a partial update does not change the result after clamping |
| ConfigRuns.AttemptedIsReload | include/konative/app/config/json_config_file.hpp:157-174 | the step system's parse attempt leaves what the two methods leave |
| ConfigRuns.LiveIsFold | src/platform/android/jni_onload.cpp:455-690 | over any run against any editor the live value is the fold of clamp-after-partial-update over the contents that parsed |
| ConfigRuns.FloorsAlwaysHold | include/konative/app/app_config.hpp:44-61 | once loaded, both intervals are at or above their floors at every moment of every run |
| ConfigRuns.LastTextIsLive | src/platform/android/jni_onload.cpp:665-690 | at every moment of every run, if the text last read gives both intervals as whole numbers, they are the live ones, or the floors where those are higher |
| ConfigRuns.ReloadFields | include/konative/app/config/json_config_file.hpp:157-174 | a text is applied if and only if each field it mentions can be set; a field it leaves out keeps its value |
| ConfigRuns.ProvisionedIsSettled | include/konative/app/config/json_config_file.hpp:92-116 | after provisioning every poll is unchanged until an edit, and a later load reads the same values back |
| ConfigRuns.RejectedHalfway | include/konative/app/config/json_config_file.hpp:168-173 | a text whose second field is refused leaves the live values alone although the loop had set the first |
| ConfigRuns.PrintedApplies | include/konative/app/config/json_config_file.hpp:99-109 | the text a provisioned file holds is applied whole by every later load |
| ConfigRuns.NeverStaleIffNoTimeRecurs | include/konative/app/config/json_config_file.hpp:92-141 | for every list of changes by an editor: no schedule of load and poll steps among them is ever stale if and only if no change brings back an earlier file time |
| ConfigRuns.NeverStale | include/konative/app/config/json_config_file.hpp:129-141 | in any run in which no file time recurs, whenever the recorded time is the file's, the last attempt saw exactly its content or its open or read failed |
| ConfigRuns.ReturningTimeIsStale | include/konative/app/config/json_config_file.hpp:111-141 | a time that comes back while the file that had it is being read has a schedule that ends stale |
| ConfigRuns.NeverStaleUndisturbed | include/konative/app/config/json_config_file.hpp:118-141 | the same when each time labels one content and nothing changed between that stat and the end of its read |
| ConfigRuns.OldTimeHidesOldContent | include/konative/app/config/json_config_file.hpp:129-141 | for any two contents and times, a change during the read followed by the old file with its old time is never noticed |
| ConfigRuns.FailedReadSticks | include/konative/app/config/json_config_file.hpp:122-139 | a read that fails after its stat was recorded is not retried by any number of polls |
| ConfigRuns.AtMostOneMoreActs | include/konative/app/config/json_config_file.hpp:118-141 | without edits at most one more poll acts, from any state after loading |
| ConfigRuns.SettledStays | include/konative/app/config/json_config_file.hpp:129-133 | once a poll has answered, all later polls without edits are unchanged |
| ConfigRuns.Converges | include/konative/app/config/json_config_file.hpp:129-141 | after any changes in which no file time recurs, one carried-through poll is on exactly the file's content, and later polls are unchanged |
| JniEnv.Ledger | include/konative/jni/ref.hpp:52-58 | in a log that breaks no rule, references made and live before equal references deleted and live after |
| JniEnv.DeletedExactlyOnce | include/konative/jni/ref.hpp:32-68 | code that leaves the live locals as found has deleted every local it made once per making |
| JniEnv.ThrowingPromotionBreaks | include/konative/jni/dex_loader.hpp:222-224 | promoting two references without a check between them breaks the rules if the first promotion throws |
| JniEnv.EachDeletedOnce | include/konative/jni/ref.hpp:32-68 | between entry and a state with the same live locals and no rule broken, each local reference made was deleted exactly once and made only once |
| JniEnv.RecalledMeans | include/konative/jni/call.hpp:22-30 | what the contracts below say happened or failed is exactly what the log of calls contains |
| DexLoader.LocalRef.Reset | include/konative/jni/ref.hpp:52-58 | a held reference is deleted once through its own environment, an empty owner makes no call |
| DexLoader.LocalRef.MoveFrom | include/konative/jni/ref.hpp:39-47 | move assignment deletes the reference held before, through its own environment, and leaves exactly one owner of the new one |
| DexLoader.GlobalRef.PromoteFrom | include/konative/jni/ref.hpp:85-89 | a null reference is not promoted; any other yields one new global of that very reference, or a recorded failure |
| DexLoader.GlobalRef.Reset | include/konative/jni/ref.hpp:116-121 | a held global is deleted once and forgotten |
| DexLoader.CheckAndClearException | include/konative/jni/call.hpp:22-30 | reports whether an exception was pending and leaves none |
| DexLoader.CallStaticMethod | include/konative/jni/call.hpp:80-97 | whatever fails, no rule is broken, nothing stays pending and only the result, which that call on that class gave, is added to the locals |
| DexLoader.CallInstanceMethod | include/konative/jni/call.hpp:100-122 | the same, with the method looked up in the object's own class |
| DexLoader.FindMethod | include/konative/jni/call.hpp:100-115 | the id is found in the object's own class, whose reference is dropped again, or a step failed and nothing is left behind |
| DexLoader.GetFilesDirPath | include/konative/jni/files_dir.hpp:34-60 | whatever fails, the environment ends exactly as it began: nothing pending, no local, no global, no pinned characters, no rule broken; each local reference made is deleted exactly once; ok means the path text of the context's files directory, and each error names a step that failed in this very call |
| DexLoader.UpgradeToResourceAwareLoader | include/konative/jni/dex_loader.hpp:61-130 | over all its early exits only the returned loader is added to the locals: the second loader below the provider that the provider class, loaded by name through the first loader, built on the application's loader, or a copy of the bootstrap loader because a step failed, or null because the copy failed |
| DexLoader.FallBack | include/konative/jni/dex_loader.hpp:83-97 | every early exit returns a copy of the bootstrap loader itself |
| DexLoader.LoadNamedClass | include/konative/jni/dex_loader.hpp:204-231 | the class global is of the class the effective loader loaded by name, the application global of the application |
| DexLoader.PromoteBoth | include/konative/jni/dex_loader.hpp:222-231 | exactly two new globals on success, of the two references given, none on failure |
| DexLoader.LoadClassFromDex | include/konative/jni/dex_loader.hpp:134-232 | for every behaviour of the environment: none pending at the end, locals balanced, exactly two new globals on ok, of the class loaded through the loader chain and of the application, and none on error, which names a step that failed in this very call; a rule is broken if and only if one of the three causes occurred in it, and otherwise each local reference made is deleted exactly once |
| DexLoaderSlips.LoadWithSlip | include/konative/jni/dex_loader.hpp:61-232 | for each of the three causes there is an environment in which loading ends with a rule broken |
| DexLoaderSlips.SlipIsReached | include/konative/jni/dex_loader.hpp:71-74 | in those environments the cause does occur on the way |
| EventQueues.NothingLostOrReordered | include/konative/scheduling/cross_thread_event_queue.hpp:23-44 | under any interleaving of posts, drains and updates each producer's posts are its delivered, waiting and queued events in order, and delivery is one frame after draining |
| EventQueues.DrainedIsDeliveredNext | include/konative/ecs/world.hpp:20-23 | once a drain has emptied a lane, the next update has delivered all of it |
| CrossThreadQueue.CrossThreadEventQueue.TryDequeue | include/konative/scheduling/cross_thread_event_queue.hpp:39-44 | some producer's oldest event is taken, or the queue is empty |
| CrossThreadQueue.CrossThreadEventQueue.DrainInto | include/konative/scheduling/cross_thread_event_queue.hpp:39-44 | with other threads posting until the queue is seen empty, the dispatcher gains every producer's queued and then posted events in that producer's order, and nothing else |
| CrossThreadQueue.OldestHeadsLane | include/konative/scheduling/cross_thread_event_queue.hpp:39-44 | taking a producer's oldest event takes the head of its lane and leaves every other lane alone |
| SpscQueue.DrainInto | include/konative/scheduling/spsc_event_queue.hpp:42-47 | draining while the producer runs loses and reorders nothing |
| SpscQueue.RunSelfCheck | include/konative/scheduling/spsc_event_queue_self_check.hpp:40-70 | for every non-negative count all events arrive in order and the check says true; a negative count throws |
| SpscQueue.RunConcurrentSelfCheck | include/konative/scheduling/spsc_event_queue_self_check.hpp:87-134 | under every schedule of producer and consumer what arrived is a prefix of what was posted, and the check says true exactly when it does not time out, that is when all arrived |
| SpscQueue.Verdict | include/konative/scheduling/spsc_event_queue_self_check.hpp:125-133 | the closing comparison accepts exactly the posted sequence |
| NextEvent.NextEventAwaiter.Set | include/konative/events/next_event_awaiter.hpp:64-67 | set() resumes the one waiter, which may re-arm the event before set() returns |
| NextEvent.NextEventAwaiter.OnEvent | include/konative/events/next_event_awaiter.hpp:64-67 | one fired event in place is one step of the run model |
| NextEvent.ReceivesExactlyNext | include/konative/events/next_event_awaiter.hpp:57-67 | a waiting consumer receives exactly the first events fired next, as many as it wants, in order |
| NextEvent.AwaitsExactly | include/konative/events/next_event_awaiter.hpp:57-67 | whatever happened before, n awaits receive exactly the first min(n, fired) events fired after suspending |
| NextEvent.FiringAlwaysResumes | include/konative/events/next_event_awaiter.hpp:52-61 | no event fired while a consumer waits is missed |
| FrameTicker.Ticker.RunVsync | embedded_kotlin/src/com/konative/generated/KonativeEntryPoint.kt:314-331 | a display frame runs each callback that was pending at its start once |
| FrameTicker.Ticker.Start | embedded_kotlin/src/com/konative/generated/KonativeEntryPoint.kt:292-297 | starting posts one callback and forgets the last frame time, unless already active |
| FrameTicker.Ticker.DoFrame | embedded_kotlin/src/com/konative/generated/KonativeEntryPoint.kt:314-331 | an active frame runs one native tick with the time since the last frame and posts again; an inactive one does nothing |
| FrameTicker.Ticker.OnActivityCreated | embedded_kotlin/src/com/konative/generated/KonativeEntryPoint.kt:90-94 | the native side is started on the first creation only |
| FrameTicker.Ticker.OnActivityResumed | embedded_kotlin/src/com/konative/generated/KonativeEntryPoint.kt:118-122 | resuming is the resume step of the run model |
| FrameTicker.Ticker.OnActivityPaused | embedded_kotlin/src/com/konative/generated/KonativeEntryPoint.kt:309-312 | pausing clears the flag and every pending callback |
| FrameTicker.OneTickPerVsync | embedded_kotlin/src/com/konative/generated/KonativeEntryPoint.kt:288-332 | over any callbacks and vsyncs one callback is pending while active and none otherwise, so a vsync runs exactly one native tick or none |
| FrameTicker.WithoutRemovalTwoTicks | embedded_kotlin/src/com/konative/generated/KonativeEntryPoint.kt:299-312 | a stop that only cleared the flag would let a quick restart tick twice per vsync |
| FrameTicker.StartedOnceBeforeTicks | embedded_kotlin/src/com/konative/generated/KonativeEntryPoint.kt:88-127 | however often activities are recreated, the native side is started at most once and before its first tick |
| FrameTicker.CallbacksReachNative | embedded_kotlin/src/com/konative/generated/KonativeEntryPoint.kt:90-127 | the native side hears every resume, pause and destroy once and in order, and is started exactly when an activity has been created |
| FrameTicker.SessionDeltasAddUp | embedded_kotlin/src/com/konative/generated/KonativeEntryPoint.kt:292-322 | the deltas of one session add up to last minus first frame time if and only if no frame but the last has time 0 |
| Approach.ApproachInPlace | include/konative/spatial/approach.hpp:27-34 | each coordinate keeps the retained fraction for rate times time of its distance to the target, or stays if either is not positive |
| Approach.MoveFollowersTowardTargets | include/konative/app/pointer_follow_system.hpp:17-22 | every follower makes exactly one step of its own |
| Approach.FrameRateIndependent | include/konative/spatial/approach.hpp:11-17 | any list of steps equals one step of the summed time |
| Approach.DistanceAfter | include/konative/spatial/approach.hpp:11-34 | after any list of steps the distance left is the retained fraction for the rate times the time gone by |
| Approach.NeverOvershoots | include/konative/spatial/approach.hpp:11-14 | no coordinate passes its target, and the target is reached only from itself |
| Approach.StaysInBox | include/konative/app/pointer_follow_system.hpp:17-22 | chasing targets inside a box never leaves the box |
| Approach.HoldsStill | include/konative/spatial/approach.hpp:25-31 | a rate or time that is not positive is the identity |
| HotSwap.WaypointCycler.DriveTargets | src/koreload_modules/waypoint_cycler/module.cpp:50-58 | accumulates time and aims every follower at the waypoint of the new time |
| HotSwap.WaypointCycler.SaveState | src/koreload_modules/waypoint_cycler/module.cpp:65-77 | four bytes that restore to the same value, whatever follows |
| HotSwap.WaypointCycler.RestoreState | src/koreload_modules/waypoint_cycler/module.cpp:79-89 | succeeds exactly on enough bytes and then holds the saved value; otherwise it holds the old value, or that with the short input copied over its first bytes |
| HotSwap.PointerFollow.TickThunk | src/koreload_modules/pointer_follow/module.cpp:46-53 | drives the targets only when the peer is there, then glides every follower and counts one tick |
| HotSwap.PointerFollow.SaveState | src/koreload_modules/pointer_follow/module.cpp:62-74 | eight bytes that restore to the same count, whatever follows |
| HotSwap.PointerFollow.RestoreState | src/koreload_modules/pointer_follow/module.cpp:76-86 | the same for the survival count |
| HotSwap.ReloadCyclerModule | src/koreload_modules/waypoint_cycler/module.cpp:65-89 | a new instance continues where the old one was |
| HotSwap.ReloadFollowModule | src/koreload_modules/pointer_follow/module.cpp:62-86 | the survival count crosses the reload |
| HotSwap.TickModules | src/koreload_modules/pointer_follow/module.cpp:46-53 | one host frame over the module objects is one tick of the run model |
| HotSwap.TickMoves | src/koreload_modules/pointer_follow/module.cpp:46-53 | in one tick every follower is first aimed at the waypoint, if the cycler drives, and then keeps the retained fraction of its distance to that target |
| HotSwap.ReloadsAreTransparent | src/koreload_modules/waypoint_cycler/module.cpp:24-31 | reloads inserted anywhere leave the whole history of targets, positions, waypoints and counts unchanged |
| HotSwap.WaypointByTime | src/koreload_modules/waypoint_cycler/module.cpp:50-58 | the tick that brings the driven time to t aims everyone at waypoint floor(t / 2) mod 4 |
| HotSwap.SurvivalCountsTicks | src/koreload_modules/pointer_follow/module.cpp:46-86 | the survival count is the number of ticks modulo 2^64, whatever was reloaded |
| HotSwap.FollowersStayOnStage | src/koreload_modules/pointer_follow/module.cpp:46-53 | followers inside a box around the waypoints stay inside it over any run |
| ShortHash.NamesNeverShared | cmake/CPM.cmake:217-257 | under any interleaving, kill and outside directory, two different hashes never get the same name |
| ShortHash.NamesAreStable | cmake/CPM.cmake:217-257 | as long as nobody else creates a directory with a name of full-hash length, every call for one hash gets the same name |
| ShortHash.AnswersAreShortest | cmake/CPM.cmake:217-257 | as long as nobody else creates a directory with a name of full-hash length, every answer is a directory there from the start, or the first 4, 8, ... or 40 characters of the hash, each shorter one of which is another's |
| ShortHash.OutsideDirectoryRenames | cmake/CPM.cmake:220-225 | a full-hash directory created from outside does change the answer |
| ShortHash.ClaimedUnlessTorn | cmake/CPM.cmake:227-252 | every answer that is not an existing directory is claimed, at length 40 at the latest, if and only if no process was killed with that hash's length-40 claim partly written |
| ShortHash.KilledWriterLeavesUnclaimed | cmake/CPM.cmake:236-252 | a process killed while writing the last claim leaves that hash unclaimed for good |
| ShortHash.LastLengthWins | cmake/CPM.cmake:227-252 | at length 40 a call can only give up on a claim that was cut off partway |
| ShortHashCall.GetShortestHash | cmake/CPM.cmake:217-257 | the loop in place: an existing full-hash directory wins; otherwise the shortest of the first 4, 8, ... 40 characters that no other content holds is claimed, and no other file changes |
| ShortHashCall.ClaimsShortestFree | cmake/CPM.cmake:227-252 | the name is the shortest prefix no other hash took, its file then holds the hash, and no other file changes |
| ShortHashCall.AskingAgain | cmake/CPM.cmake:241-249 | asking again gives the same name and changes nothing |
| ShortHashCall.AloneIsSequential | cmake/CPM.cmake:217-257 | the interleaved steps of an undisturbed call do what the loop does |
| ShortHashCall.WholeCallAlone | cmake/CPM.cmake:217-257 | so does a whole call, from its directory check on |

## Left out

- The internals of EnTT, cereal, Glaze, the moodycamel queues, libcoro and KoReload: each is a small contract
  (packed pools, fixed-width bytes that throw on underflow, a parsed JSON value, per-producer order, a set/reset
  event, save and restore around a reload). A snapshot chunk with a repeated or out-of-range entity is taken to
  throw, and entity ids of a cleared registry are taken to start over.
- Power loss: the code flushes and renames but never syncs, so a kill of the process is all that is modelled.
- The 64-bit wrap of the frame counter, and sizes beyond what 32-bit chunk counts can express.
- Float arithmetic in the snapshot protocol: a frame may put a follower anywhere, which is more than the code does.
- Approach.FrameRateIndependent: stated over reals with an abstract multiplicative retained fraction, because
  rounding is not the point of the claim.
- HotSwap.WaypointByTime: stated for runs whose float additions are exact and whose deltas are not negative.
- SnapshotStarts.InputAims: the point is any three float patterns; how the code derives it from an event is not modelled.
- Doubles.IsNear: next to zero the code's doubles are coarser (gradual underflow), which changes no int.
- JsonRoundTrip.IntFieldTakes: overflow to infinity and subnormal doubles are not told apart; both end the same way for an int.
- SnapshotCodec.RestoreIsSound: rests on EnTT's loader throwing on an entity or component that comes twice, which
  the repository does not state.
- MetaJson.MetaComponentToJson: float and double members count as unprintable, because their text is Glaze's.
- MetaJson.MetaComponentFromJson: float and double members are always refused, as no printed form of them is modelled.
- MetaJson.Instance.Set: has no branch for float and double members.
- JsonRoundTrip.RoundTrip: float and double fields are not modelled, nor are names that need escaping.
- ConfigRuns.NeverStale: the provisioning write and the stat after it are one step, as nobody else knows the file yet.
- DexLoader.LoadClassFromDex: a call that raises is taken to yield null, as the helpers hand back the raw result;
  a class, method or path text is only a name for its call site.
- Registering native methods, logging, SHA-256, the embedded assembly, the rest of the build files, the Compose UI,
  the resources loader, Activity view wiring and the frozen native and render trees: plumbing or foreign code.
- SystemSequence as a list of callables: the app's two systems run in registration order inside the world tick.
- Matrix maths, the result type, the task-graph sum checks and the single-line event structs: easy members.
