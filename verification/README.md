# Cognee bindings, modelled and verified

A Dafny model of the parts of the Cognee repository where several languages
have to agree about the same objects: the C and Python pipeline bindings, the
Python/JSON bridge, the three key-case codecs, and a handful of algorithms in
the scripts and examples. `dafny verify dfyconfig.toml` checks everything.

| modules | what they model |
|---|---|
| `PipelineModel`, `Protocol`, `ProtocolInvariant`, `ProtocolTheorems`, `ProtocolHistory` | the run/ownership protocol of the C pipeline API as a transition system (callers, executor threads and callbacks in any interleaving), its invariants, what the header promises, and the state read off the calls that led to it |
| `Engine` | the reference counts that implement the protocol, and a class whose methods are the C entry points: each keeps the counts exact and every protocol invariant, and takes one protocol step |
| `PyPipeline`, `PyHistory`, `LaunchIsolation` | the Python pipeline object with its launch-time copy, and one specification of launch isolation that both bindings refine |
| `OrderedMap`, `JsonBridge`, `JsonMeaning`, `JsonPaths`, `JsonRoundTrip` | insertion-ordered maps, the depth-capped conversion of a possibly cyclic Python heap, what it accepts and returns, which error it raises, and both round trips |
| `KeyCase`, `KeyMaps` | the Rust, TypeScript and Python key codecs, and the maps that are re-keyed with them |
| `LeastSquares` | the memory-retention fit over exact reals |
| `Generators` | eager and lazy adapters of Python generators |
| `Sentinel`, `Flags`, `PyText` | the marker-wrapped output and the `search` flag loop of the cross-SDK harness |
| `Chapters` | splitting a book into chapters |
| `Digits` | the digit-splitting iterator of the C example |

## Where the code and its documentation disagree

The model follows the code.

- The header (`capi/include/cognee.h:195-198`) says that every setter called
  mid-run sets the last error. A null name, a null task, a batch size of 0 and a
  concurrency of 0 return before the pipeline is looked at and set none.
  `ProtocolTheorems.MidRunErrorUnlessSilent` shows that these are all the exceptions,
  on the run in flight of `ProtocolTheorems.SomeRunInFlight`.
- `clone_pipeline` rebuilds each task entry through the builder and so loses
  `enriches` and a per-task rate limiter (`PyPipeline.CloneForgets`).
  `PyPipeline.ClonePipelineExact` gives the exact condition, and
  `PyPipeline.LaunchCopiesExactly` shows that the Python builders cannot bring a
  loss about.
- `split_chapters` says that it anchors where the numbering restarts at 1. It
  anchors at the first repetition of the first heading's number, whatever that
  number is. The two places are the same if and only if the first heading of the
  body is numbered 1 (`Chapters.AnchorAtRestartIff`, `Chapters.KeptFromRestartIff`);
  on a listing 2, 1, 2, 1 they differ (`Chapters.RestartMissed`).
- The comment above `drive_async_gen_next` still says that other errors are
  dropped. They are surfaced (`Generators.EndedIff`).
- `embedding_model` does not survive the settings round trip: it comes back as
  `embedding_model_name` (`KeyMaps.EmbeddingModelMoves`).
  `KeyMaps.SettingsRoundTripIff` gives the exact condition.
- The payload between the markers is not always the one printed: a search result
  that quotes the closing marker is cut, and a log line that quotes the opening
  one comes back with it (`Sentinel.MarkersQuoted`). `Sentinel.ParseOfPrint` says
  what comes back in every case, `Sentinel.RecoveredIff` when it is the payload.

## Model

| member | source | states |
|---|---|---|
| ProtocolInvariant.InvReachable | capi/include/cognee.h:182-204 | in every interleaving: a run holds what it uses until it has stopped, reads only its launch record, destroys happen exactly when the last holder goes, resources are conserved, and the history has no use or second free after a free |
| ProtocolTheorems.WatcherDestroyedExactlyOnce | capi/include/cognee.h:185-190 | the watcher's destroy has fired once when neither the handle nor any run holds it, and not at all while one does |
| ProtocolTheorems.NothingAfterWatcherDestroyed | capi/examples/example_watcher_exec.c:163-174 | no callback and no second destroy ever follows a watcher's destroy |
| ProtocolTheorems.DestroyedWhenReporting | capi/cognee-capi/src/pipeline_exec.rs:290-300 | when a run is about to report, its watcher is already destroyed unless the handle or another run keeps it |
| ProtocolTheorems.DestroyBetweenHandleAndCallback | capi/include/cognee.h:187-190 | in the history: handle destroyed mid-run by the sole user's caller, then the watcher's destroy, then the completion callback, in this order |
| ProtocolTheorems.LaunchRecordKept | capi/cognee-capi/src/pipeline_exec.rs:194-228 | the record a run was launched with stays the recorded one for the rest of every execution |
| ProtocolTheorems.RunReadsOnlyItsLaunchRecord | capi/include/cognee.h:195-204 | every task and setting a run reads is the one its pipeline had at launch, whatever is interleaved |
| ProtocolTheorems.SetterCall | capi/include/cognee.h:195-199 | a setter applies iff its argument is acceptable and no run holds the pipeline; otherwise no field changes; a resource it was handed ends in the record or is freed exactly once |
| ProtocolHistory.TaskHistory | capi/cognee-capi/src/pipeline.rs:104-113 | in every interleaving a record's task list is the list of the tasks of the `add_task` calls that took effect, in the order of the calls |
| ProtocolHistory.FieldHistory | capi/cognee-capi/src/pipeline.rs:88-271 | in every interleaving each setting is the argument of the last call of its kind that took effect, or the default of a new pipeline |
| ProtocolHistory.RunHistory | capi/cognee-capi/src/run_handle.rs:1-39 | mode, abortion, detachment, outcome, held references and report of a run are decided by the calls and steps about it that were taken |
| ProtocolHistory.HandleHistory | capi/cognee-capi/src/pipeline.rs:276-280 | an object exists iff it was made, and its handle is good iff it was not destroyed |
| ProtocolHistory.RunReadsHistory | capi/include/cognee.h:195-204 | the task a run finds at an index is that of the call which added it there before the launch, and each setting that of the last call before the launch, or the default |
| ProtocolHistory.ExecutorCalls | crates/core/src/pipeline.rs:962-1000 | each executor call is one event, on the task read, the data-id function or the watcher of the run's own launch |
| ProtocolTheorems.MidRunErrorUnlessSilent | capi/cognee-capi/src/pipeline.rs:88-141 | a mid-run setter always sets an error iff the call is not one of the four silently ignored ones |
| ProtocolTheorems.FreedExactlyOnce | capi/cognee-capi/src/pipeline.rs:104-113 | a resource handed over has been freed once if no live record owns it and not at all if one does |
| ProtocolTheorems.NoUseAfterFree | capi/examples/example_async_exec.c:173-213 | no run calls into a resource after it was freed |
| ProtocolTheorems.NothingLeaks | capi/examples/example_async_exec.c:344-358 | once all handles are gone and all runs have let go, everything handed over and every watcher was freed exactly once |
| ProtocolTheorems.HoldUntilStopped | capi/include/cognee.h:201-204 | a detached or aborted run holds its pipeline and watcher until it stops; a run that has reported holds neither |
| ProtocolTheorems.CompletionIsFinal | capi/cognee-capi/src/pipeline_exec.rs:244-311 | at most one completion per run, and no use or watcher call of that run after it |
| ProtocolTheorems.BadRecordNeverRuns | crates/core/src/pipeline.rs:906-925 | a run launched on a record failing the pre-flight checks reports that failure (or its cancellation, or that a blocking call got no runtime), and no task, data-id function or watcher is ever called for it, even if the pipeline is changed later |
| ProtocolTheorems.EveryRunCanFinish | capi/include/cognee.h:199-204 | from every reachable state a run can be brought to rest once its executor stops, by releasing and reporting, within four steps of its own, other runs untouched |
| ProtocolTheorems.OnlySoundRunsEverAct | crates/core/src/pipeline.rs:906-962 | in every interleaving, whatever calls a resource or a watcher acts for a run whose launch record passes the pre-flight checks |
| Engine.MemStepRefines | capi/cognee-capi/src/pipeline.rs:36-45 | on consistent counts, one step on the reference counts is one protocol step, with the same setter verdict (`Arc::get_mut` succeeds iff no run holds the record) |
| Engine.LibraryRefinesProtocol | capi/cognee-capi/src/pipeline_exec.rs:148-311 | the counted memory after any interleaving shows exactly the protocol state, with counts equal to the number of holders |
| Engine.Library.PipelineNew | capi/cognee-capi/src/pipeline.rs:69-81 | keeps counts and invariants exact and takes the `NewPipe` step |
| Engine.Library.PipelineMut | capi/cognee-capi/src/pipeline.rs:36-45 | `Arc::get_mut` grants access iff no run holds the record |
| Engine.Library.SetName | capi/cognee-capi/src/pipeline.rs:88-97 | from any valid memory: counts and invariants stay exact, the protocol's setter step is taken, and the verdict is the protocol's |
| Engine.Library.SetBatchSize | capi/cognee-capi/src/pipeline.rs:120-127 | from any valid memory: counts and invariants stay exact, the protocol's setter step is taken, and the verdict is the protocol's |
| Engine.Library.SetConcurrency | capi/cognee-capi/src/pipeline.rs:134-141 | from any valid memory: counts and invariants stay exact, the protocol's setter step is taken, and the verdict is the protocol's |
| Engine.Library.SetRetryNone | capi/cognee-capi/src/pipeline.rs:148-155 | from any valid memory: counts and invariants stay exact, the protocol's setter step is taken, and the verdict is the protocol's |
| Engine.Library.SetRetryLimited | capi/cognee-capi/src/pipeline.rs:162-187 | from any valid memory: counts and invariants stay exact, the protocol's setter step is taken, and the verdict is the protocol's |
| Engine.Library.AddTask | capi/cognee-capi/src/pipeline.rs:104-113 | the same; in the step taken the task is owned in every case and freed on refusal, and stands where `ProtocolHistory.TaskHistory` says |
| Engine.Library.SetDataIdFn | capi/cognee-capi/src/pipeline.rs:222-271 | the same; the user data is owned in every case, and the refused or the displaced one freed |
| Engine.Library.PipelineDestroy | capi/cognee-capi/src/pipeline.rs:276-280 | dropping one counted reference is the protocol's destroy: the record's resources go iff no run holds it |
| Engine.Library.WatcherDestroy | capi/cognee-capi/src/watcher.rs:247-252 | dropping one counted reference is the protocol's destroy: the vtable's destroy fires iff no run holds the watcher |
| Engine.Library.Execute | capi/cognee-capi/src/pipeline_exec.rs:194-228 | cloning both references is the protocol's launch, with counts equal to the holders again |
| Engine.Library.ReadTask | crates/core/src/pipeline.rs:906-912 | the task read through the shared record is that of the launch record |
| Engine.Library.CallDataId | capi/cognee-capi/src/pipeline.rs:222-271 | the data-id function called is that of the launch record |
| Engine.Library.CallWatcher | capi/cognee-capi/src/watcher.rs:114-132 | a watcher that is called has not been destroyed |
| Engine.Library.Report | capi/cognee-capi/src/pipeline_exec.rs:296-310 | the completion is the last event, the run holds nothing, and every watcher that nobody keeps was destroyed before |
| Engine.Library.FinishAsync | capi/cognee-capi/src/pipeline_exec.rs:290-310 | pipeline and watcher dropped, then the callback: three protocol steps, after which the run holds nothing and every abandoned watcher was destroyed before the callback |
| Engine.Library.FinishBlocking | capi/cognee-capi/src/pipeline_exec.rs:148-178 | the same with the watcher dropped first |
| Engine.Library.HandleDestroy | capi/cognee-capi/src/run_handle.rs:35-39 | detaching is the protocol's step and changes no count, no log and nobody's references |
| PyPipeline.ClonePipelineExact | python/src/pipeline.rs:256-287 | the copy equals the pipeline iff no task has `enriches`, a limiter, or a zero batch size |
| PyPipeline.LaunchCopiesExactly | python/src/pipeline.rs:183-209 | in every reachable state the launch copy succeeds and is the object's record |
| PyPipeline.BuildRefusedIffBorrowed | python/src/pipeline.rs:155-181 | a builder call changes nothing while an `execute_sync` run borrows the object and applies otherwise; no run in flight sees a difference |
| PyPipeline.RecordFrozenInFlight | python/src/pipeline.rs:155-181 | over any further steps, the record a run in flight reads stays its launch record, and the object an `execute_sync` run borrows does not change |
| PyHistory.TaskHistory | python/src/pipeline.rs:50-74 | in every interleaving an object's task list has one entry for each `add_task` call that took effect, in order, with the arguments of that call |
| PyHistory.AdditionsIff | python/src/pipeline.rs:50-74 | those calls are the ones whose batch size is not zero, made while no `execute_sync` run borrowed the object |
| PyHistory.FieldHistory | python/src/pipeline.rs:34-122 | in every interleaving each setting is the argument of the last builder call of its kind that took effect, or the default |
| PyHistory.BadRecordReadsNothing | crates/core/src/pipeline.rs:906-925 | a run on a record that fails the pre-flight checks reads no task |
| PyPipeline.PyPipelineCell.TryBorrowMut | python/src/pipeline.rs:34-37 | the borrow count of the cell lets a builder in iff no `execute_sync` run borrows the object |
| PyPipeline.PyPipelineCell.PushTask | python/src/pipeline.rs:50-74 | the cell stays the machine's object after the builder step, and answers as the machine does, panic on a zero batch size included |
| PyPipeline.PyPipelineCell.WithRetry | python/src/pipeline.rs:76-90 | the same; zero attempts are refused |
| PyPipeline.PyPipelineCell.WithRetryExponential | python/src/pipeline.rs:92-109 | the same; zero attempts are refused |
| PyPipeline.PyPipelineCell.BeginSync | python/src/pipeline.rs:155-178 | taking a borrow is the machine's `execute_sync` launch, and the object is borrowed after it |
| PyPipeline.PyPipelineCell.EndSync | python/src/pipeline.rs:174-181 | giving the borrow back is the machine's end of that run |
| PyPipeline.PyPipelineCell.CopyForRun | python/src/pipeline.rs:124-209 | the launch copy does not panic, is the record, is what the run will read, and leaves the cell alone |
| LaunchIsolation.CRefines | capi/include/cognee.h:195-204 | every step of the C strategy (share and refuse) is a step of the launch-isolation specification |
| LaunchIsolation.PyRefines | python/src/pipeline.rs:124-209 | every step of the Python strategies (borrow, or copy at launch) is a step of the same specification |
| LaunchIsolation.Isolated | capi/examples/example_async_exec.c:270-286 | in any run of that specification, what a run has seen is its launch record |
| LaunchIsolation.CRunIsolated | capi/examples/example_async_exec.c:270-286 | in every C interleaving, all a run has read by any later step is of its pipeline's record at launch |
| LaunchIsolation.PyRunIsolated | python/src/pipeline.rs:124-209 | the same in every interleaving of Python builders and runs, for all three modes of execution |
| JsonBridge.PyToSerdeInner | python/src/json.rs:38-122 | the recursive program with its loops computes `Convert` and terminates on every heap; what that is, `JsonMeaning` says |
| JsonMeaning.ConvertMeans | python/src/json.rs:38-122 | `Ok(t)` iff the argument is a tree of Python values that `t` stands for, value by value (bytes as their base64 text, an int as the number of the same value), nested at most 128 deep |
| JsonMeaning.ConvertFailsWith | python/src/json.rs:38-122 | it fails iff something it looks at is in trouble, and with the error of the first such thing in order: `TypeError` for a key that is no text or a type JSON does not have, `ValueError` for what is too deep, out of range, not finite or no Unicode |
| JsonBridge.ConvertIffUnfolds | python/src/json.rs:38-122 | `Ok(t)` iff `t` is the unfolding of the heap from the argument and nests at most 128 deep |
| JsonPaths.AcceptedIff | python/src/json.rs:25-44 | accepted iff every reachable node is convertible and no path from the argument is longer than 128 |
| JsonPaths.CycleRejected | python/src/json.rs:31-33 | a heap with a reachable cycle is never accepted |
| JsonPaths.UnfoldsOnce | python/src/json.rs:38-122 | there is at most one unfolding |
| JsonRoundTrip.Interpreter.SerdeToPy | python/src/json.rs:132-166 | builds a fresh object tree holding the value and leaves every existing cell alone |
| JsonRoundTrip.Interpreter.FillList | python/src/json.rs:151-157 | the list appended to in place holds the array |
| JsonRoundTrip.Interpreter.FillDict | python/src/json.rs:158-164 | the dict filled in place holds the object |
| JsonRoundTrip.JsonRoundTrip | python/src/json.rs:124-166 | JSON to Python and back is the identity iff nested at most 128 deep and without integers beyond i64; those come back as floats, deeper values as an error |
| JsonRoundTrip.PythonRoundTrip | python/src/json.rs:38-166 | an accepted Python value comes back as the same typed tree iff it holds no bytes and no integer beyond i64 |
| KeyCase.SnakeToCamel | python/src/json.rs:178-195 | the scanning loop computes `RustCamel` |
| KeyCase.RustCamelIdempotent | python/src/json.rs:173-195 | a second application changes nothing |
| KeyCase.RustCamelOfPieces | python/src/json.rs:173-195 | for any key, split at its underscores: left alone if it starts with one, and else the later pieces capitalised and the underscores dropped |
| KeyCase.CamelThenSnakeIff | ts/src/cognee.ts:57-91 | `camelToSnake(snakeToCamel(k)) == k` iff no capital, no dot right before a letter or digit, no underscore right before a digit |
| KeyCase.SnakeThenCamelIff | ts/src/cognee.ts:57-91 | `snakeToCamel(camelToSnake(c)) == c` iff no separator stands right before `[a-z0-9]` |
| KeyCase.SurvivesIff | ts/src/cognee.ts:51-59 | the way there and back reads dots as underscores iff no capital, every dot before a letter, no underscore before a digit |
| KeyCase.RustAgreesWithTsIff | python/src/json.rs:178-195 | the exact set of keys on which the Rust and the TypeScript codec agree |
| KeyCase.PythonUndoesRustIff | python/cognee_py/compat.py:86-98 | on words joined by single underscores, Python undoes Rust iff every one-letter word but the first is last or followed by a word whose second character is a lower-case letter |
| KeyMaps.JsonCell.SnakeToCamelKeys | python/src/json.rs:201-212 | collect, clear, refill in place: the keys are the images of the old ones, each with the value of its last pre-image; anything but an object is left alone |
| KeyMaps.RekeySpec | python/src/json.rs:201-212 | keys are the images of the old keys, each with the value of its last pre-image |
| KeyMaps.CamelKeysIdempotent | python/src/json.rs:197-212 | a second pass changes nothing |
| KeyMaps.RekeyBackIff | python/cognee_py/compat.py:101-118 | re-keying there and back restores the map iff the second codec undoes the first on every key |
| KeyMaps.OptionsReturnIff | python/cognee_py/compat.py:101-118 | an options dict returns unchanged through `_rekey` iff every key guards its lone letters |
| KeyMaps.ConfigToCamel | ts/src/cognee.ts:68-86 | every key is the camel-case name of some setting and has the value of the last one so named; `embeddingModel` is there iff it or `embeddingModelName` is named, with its own setting's value, and else the other's |
| KeyMaps.NormalizeSettings | ts/src/cognee.ts:119-126 | every field has the value of the last setting read as it, `embeddingModel` as `embedding_model_name` and any other by its snake case, and there are no other fields |
| KeyMaps.AliasMergesBack | ts/src/cognee.ts:80-85 | read back, the added `embeddingModel` entry falls on its original without adding or changing anything |
| KeyMaps.SettingsRoundTripIff | ts/src/cognee.ts:68-126 | the settings come back under their canonical names, none lost, iff those names differ, each survives the codecs, and none is `embedding_model` |
| LeastSquares.NoFitIff | scripts/perf/measure_retention.py:114-121 | `None` iff the lengths differ or there are not two different x |
| LeastSquares.FitIsBest | scripts/perf/measure_retention.py:122-124 | no line has a smaller squared error, and only the fitted one has the same |
| LeastSquares.RSquaredBounds | scripts/perf/measure_retention.py:125-129 | R squared lies in [0, 1], is 0 iff the line is flat, and 1 iff y varies and every point is on the line |
| LeastSquares.RSquaredIsShare | scripts/perf/measure_retention.py:125-129 | the error of the fitted line is `1 - rSquared` of that of the flat line through the mean |
| LeastSquares.RSquaredIsCorrelation | scripts/perf/measure_retention.py:122-129 | `rSquared` times the spreads of x and y is the square of their mixed spread |
| LeastSquares.ExactLineRecovered | scripts/perf/measure_retention.py:86-106 | points on a line give it back exactly, with R squared 1, or 0 for a flat one |
| LeastSquares.ResidualsAreNormal | scripts/perf/measure_retention.py:119-124 | the residuals sum to zero and are orthogonal to the x |
| Generators.CollectEagerly | python/src/task.rs:108-127 | all items in order, or only the error, in one `__next__` call more than there are items |
| Generators.Stream.Poll | python/src/task.rs:254-285 | one poll: what it gives and which calls it made |
| Generators.CallsMade | python/src/task.rs:140-145 | until the stream ends, every poll that can attach makes exactly one `__anext__` call, so n attachable polls make n |
| Generators.EndedIff | python/src/task.rs:245-284 | after n polls the stream has ended iff at one of them the awaited call stopped and the interpreter was there to tell; no error ever ends it |
| Generators.PollTells | python/src/task.rs:254-285 | a poll gives an item iff the generator yielded it, and an error iff that error occurred: no interpreter for the call, a failing call, a raised exception, or a stop that nobody could classify |
| Generators.PollsFollowScript | python/src/task.rs:254-285 | the items in order, then the generator's error if it raised, never a silent end |
| Generators.LazyAgreesWithEager | python/src/task.rs:108-148 | drained lazily or collected eagerly, a generator gives the same list, and the same error after the items or alone |
| Sentinel.FindIff | e2e-cross-sdk/harness/helpers.py:752-753 | `find` gives the least index, and -1 iff there is none |
| Sentinel.StartFoundIff | e2e-cross-sdk/harness/helpers.py:748-760 | the opening marker found is the printed one iff the lead-in holds none; no occurrence straddles a join |
| Sentinel.ParseOfPrint | e2e-cross-sdk/harness/helpers.py:748-760 | what parsing gives for every lead-in, payload and trailer: the payload up to its first closing marker, unless the lead-in holds a marker, and then what |
| Sentinel.RecoveredIff | e2e-cross-sdk/harness/helpers.py:748-760 | the payload comes back iff the lead-in holds no marker and the payload no closing one, or the lead-in by itself parses to it |
| Sentinel.ParseMeans | e2e-cross-sdk/harness/helpers.py:748-760 | of any text: what stands between its first opening and its first closing marker, and an error iff one is missing or the closing one comes first |
| Flags.ParseSearch | e2e-cross-sdk/harness/helpers.py:293-313 | the loop computes `Search`, with both ways to fail |
| Flags.SearchOfPrint | e2e-cross-sdk/harness/helpers.py:801-803 | what was printed is read back exactly, for all strings and integers; no dataset and an empty one both read as none |
| Flags.SearchOfLongFlags | e2e-cross-sdk/harness/helpers.py:300-311 | the long spellings say the same |
| Flags.SearchWithoutFlags | e2e-cross-sdk/harness/helpers.py:295-298 | the defaults without any flag, and an error without a query |
| Flags.ItemsOf | e2e-cross-sdk/harness/helpers.py:300-311 | every argument list reads as flags with values and words to skip |
| Flags.LastFlagWins | e2e-cross-sdk/harness/helpers.py:300-311 | on any argument list: the first `--top-k` value that is no integer is the error, and else the last value of each flag counts, the default where there is none |
| PyText.PyIntOfStr | e2e-cross-sdk/harness/helpers.py:308-308 | `int(str(n)) == n` |
| PyText.PyIntIff | e2e-cross-sdk/harness/helpers.py:308-308 | `int(s)` is `n` iff `s` is `n` written out: an optional sign and grouped digits between white space |
| PyText.StripSpec | scripts/perf/build_large_corpus.py:73-74 | `strip` removes white space at both ends only, and leaves nothing iff all is white space |
| Chapters.ParseHeadingIff | scripts/perf/build_large_corpus.py:37-37 | a line parses as a heading iff it is that heading written out |
| Chapters.HeadingsExact | scripts/perf/build_large_corpus.py:55-55 | the matches are exactly the heading lines of the body, in order and apart |
| Chapters.AnchorIff | scripts/perf/build_large_corpus.py:59-65 | the anchor is the first repetition of the first heading's number, or the start |
| Chapters.AnchorAtRestartIff | scripts/perf/build_large_corpus.py:51-65 | the anchor is the second heading numbered 1 iff the first heading is numbered 1 |
| Chapters.FindAnchor | scripts/perf/build_large_corpus.py:60-65 | the loop with its break finds that anchor |
| Chapters.SplitChapters | scripts/perf/build_large_corpus.py:48-76 | over all heading lines of the body, in order: an error if there are none, and else one chapter for each heading from the anchor on whose text is not blank, in order, with its number and its stripped title and text |
| Chapters.SplitFailsIff | scripts/perf/build_large_corpus.py:56-57 | it exits iff the body has no heading line |
| Chapters.SplitTiles | scripts/perf/build_large_corpus.py:66-73 | from the first kept heading on, headings and raw contents concatenate to the rest of the body |
| Chapters.OnlyBlankDropped | scripts/perf/build_large_corpus.py:68-76 | exactly the chapters with a blank text are dropped; the others keep order, title and stripped text |
| Chapters.SecondListingKept | scripts/perf/build_large_corpus.py:51-53 | of headings 1 to n listed twice, exactly the second n are kept |
| Chapters.SecondListingOnly | scripts/perf/build_large_corpus.py:51-76 | for headings 1 to n listed twice, the chapters that come out are of the second listing only, in order |
| Chapters.KeptFromRestartIff | scripts/perf/build_large_corpus.py:51-66 | the kept headings start at the second 1 iff the first heading of the body is numbered 1 |
| Chapters.RestartMissed | scripts/perf/build_large_corpus.py:51-66 | a body with headings 2, 1, 2, 1 that starts at the second 2 |
| Chapters.HeadingsOfBook | scripts/perf/build_large_corpus.py:37-55 | the headings found in a printed list of headings are that list |
| Digits.SplitDigits | capi/examples/example_iter_task.c:28-62 | error codes, and an iterator at its start over digits 0 to 9 without a leading zero that fold back to the absolute value |
| Digits.DigitIter.Extract | capi/examples/example_iter_task.c:46-49 | the bounded loop stores all digits, least first, if they fit |
| Digits.DigitIter.Reverse | capi/examples/example_iter_task.c:51-55 | the swaps reverse the stored digits in place |
| Digits.DigitIter.Next | capi/examples/example_iter_task.c:18-22 | one step of the cursor |
| Digits.FitsBelowCap | capi/examples/example_iter_task.c:13-46 | every int64 but the least has fewer digits than the cap |
| Digits.DecimalFolds | capi/examples/example_iter_task.c:40-50 | digits 0 to 9, no leading zero, folding back to the number |
| Digits.DecimalUnique | capi/examples/example_iter_task.c:40-50 | no other digits do |
| Digits.PollsYieldAll | capi/examples/example_iter_task.c:18-22 | successive calls give the digits in order and NULL forever after |

## Left out

- The executor: which tasks it calls when, retries, progress and cancellation points are nondeterministic choices; only the pre-flight checks bound its outcome.
- Null handles, a missing runtime, and calls on destroyed handles: the first two return error codes before anything is touched, the last is undefined in C, so such a step is not enabled.
- The last-error string: thread-local and sticky; the model keeps only which call sets it.
- `PyPipelineRunHandle.wait`: takes its handle once; nothing follows from it that the C handle does not show.
- Outputs of a run and `cg_run_result_*`: the outcome alone is modelled.
- `opts_to_camel_json`, `py_to_serde_map` and `normalise_inputs`: compositions of the conversion and the re-keying.
- Base64, the rounding of u64 to f64, and f64 itself: parameters, with finiteness as the only property of a float.
- Python `str` subclasses with their own equality, and dicts changed while they are converted.
- Letters outside ASCII in the codecs: they are treated as having no case, which leaves out characters whose upper-case form is longer.
- JavaScript prototype keys and integer-like keys, which are ordered differently: objects are insertion-ordered maps. An alias of `undefined` is an absent alias.
- Floating-point rounding in the fit: it is stated over exact reals.
- `parse_sizes`, `default_sizes`, `human_bytes`: they would add only easy members.
- `strip_gutenberg`: a slice between two regular-expression matches.
- Decimal digits outside ASCII in headings and integers, and Python's limit on the length of an integer string.
- Decoding the payload between the markers as JSON, and the script text built from the flags.
- The other flag loops of `run_python_cli`: they repeat the shape of the `search` loop.
- Digits.SplitDigits: excludes the least int64, whose negation is undefined in C.
- The unused `remaining` field of the digit iterator's state.
- Tokio scheduling, the GIL and thread identity: only the order of steps is kept; whether the interpreter can be attached to is a parameter of `Generators`.
- Polling an async stream after its end, which panics: `Generators.Stream.Poll` demands a stream that has not ended.
