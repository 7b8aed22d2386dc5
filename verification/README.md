# Verified models of Dalaran's release tooling and bindings

Dafny models of the parts of the Dalaran repository whose correctness rests on ordering, sharing or
interleaving, with proofs of what they promise. `dafny verify dfyconfig.toml` checks everything.

**The publishing scheduler** (`scripts/ci/dag.py`, `scripts/ci/crates.py`) is the main part.

- `Graphs`, `CycleSearch`: dependency graphs with repeated dependencies, and the depth-first validator as a
  class with the fields `visited`, `rec_stack` and `path`. It accepts exactly the complete acyclic graphs.
- `ReadySets`, `SchedulerState`: `_State` as a class. Its counters are tied to the number of unfinished
  occurrences, and each method refines a step on (finished, queue, started).
- `Walks` and the `Walk...` files: `walk_parallel` as an interleaving of the main loop and any number of
  workers. Two kinds of result: what every step keeps (one place per node, order of starts, control flow,
  tokens), and what follows for whole runs (`WalkResults`): linear extension, failure containment, no deadlock
  from any reachable state, a bound on moves, outcomes. `WalkQueues`: the order in which nodes are handed on.
  `WalkFairness`: every fair infinite schedule ends the walk.
- `RateLimiters`: the token bucket, and the exact budget it grants.
- `Crates`, `Publishing`: graph building, the topological sort, the flag check, and the closure of the published
  set over any series of interrupted attempts.

**Smaller parts.**

- `Registry`, `RegistryInvariant`: who owns a recording in `python_bridge.rs`, and when it may be freed, over all
  thread interleavings; reading a count, taking the handles of importer threads, joining them and dropping a
  reference are separate steps. `RegistryRuns`, `RegistryHoldings` and `RegistryOrder` say what always holds,
  `RegistryPasses` and `RegistryFlush` what one pass of a loop achieves under interference, `RegistryJoins` and
  `RegistryLoops` where the loops end without it, `RegistryRaces` when a recording is lost to an importer.
- `Reconcile`: the React wrapper over the viewer's start/stop state.
- `DependencyPath`: a tree path rebuilt from an indented listing.
- `D2Labels`, `D2Words` and `D2Documents`: HTML label to segments to SVG text, in place.
- `BlankLines`, `VerticalSpacing` and `EnforcedCase`: two fixers of `lint.py`.
- `Runs` and `Texts` are shared.

Dictionaries are maps whose iteration order is left open, so results hold for every order. Crate names,
recordings and URLs are abstract types with equality.

## Where the code and its comments disagree

- `RateLimiter` (dag.py:19) promises a token every `refill_interval_sec / max_tokens`; the code refills one every
  `refill_interval_sec`. `PromiseKeptExactlyWhen` gives the exact condition under which the two agree,
  `PublishingRefillsSlower` the numbers for the limiter of crates.py:560, whose comment says 30 tokens per minute.
- `walk_parallel` (dag.py:116) says the bucket holds at most `max_tokens - num_in_progress`; the bucket is not
  capped. `FirstStateBreaksBucketClaim` is the counterexample; the claim holds at a given time in all runs exactly
  if less than one refill interval has passed (`BucketClaimHoldsExactlyWhen`).
- `traverse` (crates.py:719) says it recurses into publish=false dependencies; line 707 makes the call a no-op.
  `WithheldBelowWithheldIsMissed` is the counterexample, `RecursionHoldsExactlyWhen` the condition. The verdict
  itself is unaffected (`DirectCheckCoversAll`).
- `get_dependency_path` (check_forbidden_dependencies.py:65-69) says it finds a shortest path; it finds the first
  one. `FirstMatchNeedNotBeShortest` is the counterexample, `ShortestExactlyWhen` the condition.
- `extract_segments` (render_d2.py:137) flags a child's tail with the surroundings of its parent.
  `ATailLosesItsFlag` is an example, `ExtractionKeepsText` says exactly when that is harmless.
- The comments on the registry (python_bridge.rs:50-54, 408-409) put all recording lifetimes under the bridge's
  control. `Vec::retain` reads a count and drops the element afterwards; an importer thread
  (recording_stream.rs:1564) may upgrade its weak reference (790) in between, and `drop` waits for importers only
  when it reads 1 itself (824-843). The importer then holds the last reference and frees the recording.
  The flush loop before (401-403) joins all importers of what Python has given up by then, so it takes a second
  thread, free to run under `py.detach`: behind the flush loop it starts an importer and gives up the recording.
  `AnImporterMayFree` is such a run from the empty registry. `RaceAtFlushExactlyWhen` says exactly when it can happen:
  a listed recording to which the flush loop is still to come can go adrift if and only if Python can still reach it.
  `RaceAtLoopExactlyWhen` and `RaceAtCheckExactlyWhen` say it for the later points of the call. The importer's last
  drop runs `RecordingStreamInner::drop` (892) on its own thread, which waits for the listed importers, itself
  included (`AdriftListsItsImporters`). Orphans are safe: `disconnect` (2394-2399) joins their importers first
  (`OrphansNeverGoAdrift`).

## Model

| member | source | states |
|---|---|---|
| `CycleSearch.Search.FindCycle` | scripts/ci/dag.py:66-83 | a reported cycle is a closed walk along edges that repeats no other node; without one the search state is restored and the node is ordered after all it depends on; terminates by the unvisited keys |
| `CycleSearch.Sanitize` | scripts/ci/dag.py:45-87 | returns normally if and only if the graph is non-empty, complete and acyclic; every refusal names its reason, with the exact missing set or a genuine cycle |
| `Graphs.OrderingRefutesCycles` | scripts/ci/dag.py:61-87 | an ordering of all nodes with dependencies first rules out every cycle |
| `Graphs.SourceExists` | scripts/ci/dag.py:213-215 | in a non-empty part of an acyclic graph some node depends on nothing in that part |
| `RateLimiters.RateLimiter.constructor` | scripts/ci/dag.py:24-28 | a fresh bucket holds max_tokens and refills 1/refill_interval_sec per second |
| `RateLimiters.RateLimiter.Get` | scripts/ci/dag.py:30-39 | grants exactly when used tokens are below the total at that time, and then uses one |
| `RateLimiters.GrantsStayWithinBudget` | scripts/ci/dag.py:30-39 | on every nondecreasing clock the grants never exceed max_tokens + floor(elapsed / interval), and a request is refused exactly at that bound |
| `RateLimiters.GrantsEventually` | scripts/ci/dag.py:30-39 | no bucket is exhausted for good |
| `RateLimiters.PromiseKeptExactlyWhen` | scripts/ci/dag.py:15-22 | the refill rate of the docstring is met if and only if max_tokens is 1 or the first promised refill is still to come |
| `RateLimiters.PublishingRefillsSlower` | scripts/ci/crates.py:551-561 | with 30 tokens and 60 seconds the code has refilled 1 token after a minute where the docstring promises 30 |
| `ReadySets.UnfinishedDrops` | scripts/ci/dag.py:225-233 | finishing a node lowers a dependent's count by the node's multiplicity |
| `ReadySets.UnfinishedZero` | scripts/ci/dag.py:213-232 | a count is 0 exactly when every dependency is finished |
| `ReadySets.SourcesExist` | scripts/ci/dag.py:213-215 | the "No sources" assertion cannot fail for an accepted graph |
| `SchedulerState.State.constructor` | scripts/ci/dag.py:202-215 | every counter is the number of listed dependencies, every dependent is linked with multiplicity, and the queue holds each source once |
| `SchedulerState.State.AppendToAll` | scripts/ci/dag.py:210-211 | the node is linked under each dependency once per occurrence, and nothing else changes |
| `SchedulerState.State.Start` | scripts/ci/dag.py:222-223 | marks one node as started and keeps all counters and links |
| `SchedulerState.State.Settle` | scripts/ci/dag.py:225-232 | every counter again counts unfinished occurrences, and exactly the newly released nodes are appended, once each |
| `SchedulerState.State.Finish` | scripts/ci/dag.py:225-233 | refines the abstract finish step, for any node not finished before |
| `SchedulerState.State.HasFinishedAll` | scripts/ci/dag.py:235-237 | true exactly when every node is finished |
| `SchedulerState.State.SanityCheck` | scripts/ci/dag.py:239-242 | both assertions hold exactly when all dependencies are finished and all nodes were started |
| `SchedulerState.CoversDependent` | scripts/ci/dag.py:228-229 | the assertion in `_finish` never fails: a counter covers all remaining occurrences of the finished node |
| `SchedulerState.AllLowered` | scripts/ci/dag.py:225-233 | after the loop the counters count for the larger finished set, and the queue gained exactly what was released |
| `WalkPlaces.StepKeepsPlaces` | scripts/ci/dag.py:146-181 | every step keeps each node in exactly one of waiting, ready, task queue, a worker, done queue, finished |
| `WalkPlaces.StepKeepsWaiting` | scripts/ci/dag.py:171-179 | a node waits exactly while one of its dependencies is unfinished |
| `WalkHistory.StepKeepsOrder` | scripts/ci/dag.py:146-154 | every step keeps the log of calls to `f` orderly: at most one call per node, after all its dependencies returned |
| `WalkHistory.StartsAfterAllBelow` | scripts/ci/dag.py:149-154 | along any dependency path below a started node everything has returned before |
| `WalkHistory.NothingAboveAFailureStarts` | scripts/ci/dag.py:158-160 | no node with a path to a failed one has been started |
| `WalkControl.StepKeepsControl` | scripts/ci/dag.py:146-184 | shutdown, worker exits and the position of the main loop stay consistent; the exception that is raised is that of the first worker that has not exited normally |
| `WalkControl.StepKeepsLateStarts` | scripts/ci/dag.py:149-160 | a worker starts at most one more node after shutdown is set |
| `WalkControl.StepKeepsTokens` | scripts/ci/dag.py:171-175 | used tokens equal the number of nodes pushed |
| `WalkControl.DoneIsSane` | scripts/ci/dag.py:166-169 | when `_is_done` holds `_sanity_check` cannot fail |
| `WalkControl.StepKeepsInv` | scripts/ci/dag.py:139-184 | the whole invariant is inductive over every step of every interleaving |
| `WalkProgress.MovingStepsDrop` | scripts/ci/dag.py:146-181 | every step that moves a node lowers the sum of remaining stages |
| `WalkProgress.PollingStepsStay` | scripts/ci/dag.py:155-157 | every other step leaves that sum alone |
| `WalkProgress.SomethingIsOnItsWay` | scripts/ci/dag.py:165-181 | until all is finished or something failed, some node is ready, queued, running or done |
| `WalkOutcome.CanAlwaysEnd` | scripts/ci/dag.py:139-184 | from every state satisfying the invariant a schedule on a clock that runs on ends the walk, with every worker gone and no further failure |
| `WalkResults.EveryNodeHasOnePlace` | scripts/ci/dag.py:139-181 | in every reachable state each node has one place, waits exactly for its dependencies, and is started only if `f` was called |
| `WalkResults.StartsFollowTheGraph` | scripts/ci/dag.py:112-112 | `f` is called at most once per node, in an order that is a linear extension of the graph |
| `WalkResults.StartsWaitForAllBelow` | scripts/ci/dag.py:112-112 | when `f` is called on a node it has returned on all transitive dependencies |
| `WalkResults.FailureIsContained` | scripts/ci/dag.py:146-184 | when `f` raises, nothing that transitively depends on that node ever starts, and each worker starts at most one more |
| `WalkResults.OutcomeTellsWhatHappened` | scripts/ci/dag.py:166-184 | a normal return means `f` returned on every node with one token each and nothing failed; otherwise the exception raised is that of a worker, and all workers before it exited normally; no assertion ever fails |
| `WalkResults.NeverDeadlocks` | scripts/ci/dag.py:139-184 | from every reachable state of an accepted graph, whatever the clock shows, some schedule ends the walk with all workers gone, by returning if and only if nothing failed |
| `WalkFairness.EveryFairScheduleEnds` | scripts/ci/dag.py:139-184 | every infinite schedule that is fair to each thread and whose clock passes every time ends the walk, with any number of failures |
| `WalkFairness.NeverStuck` | scripts/ci/dag.py:165-181 | in such a schedule some later state is strictly closer to the end, wherever it stands |
| `WalkFairness.SomeScheduleIsFair` | scripts/ci/dag.py:139-184 | there is such a schedule from every initial state |
| `WalkResults.MovesPerRun` | scripts/ci/dag.py:146-181 | every run makes at most seven moves per node and only polls otherwise |
| `WalkResults.PullFinishesANewNode` | scripts/ci/dag.py:177-181 | `_finish` is only ever called on a graph node not finished before, which is what `Finish` requires |
| `WalkQueues.ReadyIsAStack` | scripts/ci/dag.py:175-175 | over every run a released node is handed out only after all nodes that were released later and are still waiting |
| `WalkQueues.QueuesKeepOrder` | scripts/ci/dag.py:142-154 | over every run nodes leave the task queue and the done queue at the front, in the order in which they came, and never return |
| `WalkQueues.FewStartsAfterShutdown` | scripts/ci/dag.py:149-160 | from any state with shutdown set, whatever happens, each worker calls `f` at most once more |
| `WalkResults.HandedOutWithinBudget` | scripts/ci/dag.py:171-175 | in every run with a nondecreasing clock the nodes handed out stay within the budget |
| `WalkResults.BucketClaimHoldsExactlyWhen` | scripts/ci/dag.py:114-117 | at a given time the documented bucket bound holds in all states reachable by then if and only if less than one refill interval has passed since the limiter was made |
| `WalkResults.FirstStateBreaksBucketClaim` | scripts/ci/dag.py:114-117 | after a refill the walk's first state breaks the documented bound |
| `Crates.CrateDepsAre` | scripts/ci/crates.py:143-158 | `crate_deps` yields exactly the names in the dependency, dev-dependency and build-dependency tables of the manifest and of its targets, each as often as they list it |
| `Crates.RepresentsChains` | scripts/ci/crates.py:531-545 | reachability and cycles in the collected graph are those of chains of crates whose tables list the next one |
| `Crates.WithinKeeps` | scripts/ci/crates.py:576-583 | filtering a dependency list keeps exactly the wanted names, with multiplicity |
| `Crates.RestrictionStaysAccepted` | scripts/ci/crates.py:531-558 | a non-empty part of a cycle-free set of crates is cycle-free, and its graph is accepted by the validator |
| `Crates.CollectGraph` | scripts/ci/crates.py:531-545 | the loops list, for every kept crate, exactly its kept dependencies, each as often as the tables of its manifest do |
| `Crates.Sorter.Helper` | scripts/ci/crates.py:171-198 | terminates on cyclic workspaces, visits once, and on acyclic ones finishes a crate after all it depends on; fails only on a crate that lists itself |
| `Crates.FilterKeepsOrder` | scripts/ci/crates.py:191-198 | dropping publish=false crates keeps every reachable publishable crate before its user, also through dropped ones |
| `Crates.SortedPublishable` | scripts/ci/crates.py:161-202 | the output holds exactly the publish=true crates, once each; if no chain of needs leads from a crate back to it, whatever a crate transitively needs comes before it; fails exactly when the tables of some crate list it itself |
| `Crates.CheckDependencyTree` | scripts/ci/crates.py:567-594 | accepts exactly the workspaces where no crate lists itself, something is publishable, and no chain of publishable crates that need each other is a cycle; a reported cycle is such a chain |
| `Crates.FlagChecker.Traverse` | scripts/ci/crates.py:706-720 | from a publishable crate it adds exactly the publish=false direct dependencies; on a crate already found it does nothing |
| `Crates.CheckPublishFlags` | scripts/ci/crates.py:702-737 | rejection reports exactly the publish=false crates that the tables of some publish=true crate list; KeyError exactly when a flag is missing |
| `Crates.DirectCheckCoversAll` | scripts/ci/crates.py:724-737 | no direct violation exists if and only if every transitive workspace dependency of every publish=true crate is publish=true |
| `Crates.WithheldBelowWithheldIsMissed` | scripts/ci/crates.py:716-720 | a concrete workspace where a publish=false crate below a reported one is not reported |
| `Crates.RecursionHoldsExactlyWhen` | scripts/ci/crates.py:707-720 | the promised recursion holds if and only if, in the workspace, every publish=false dependency of a directly withheld crate is also a direct dependency of some publish=true crate |
| `Publishing.PlanPublishing` | scripts/ci/crates.py:514-558 | a re-run plans exactly the unpublished crates with their dependencies among them, if and only if there are any and none needs itself through others; otherwise it names such a cycle |
| `Publishing.BegunHasDependencies` | scripts/ci/crates.py:558-559 | when publication of a crate begins all its publishable dependencies are published |
| `Publishing.AttemptKeepsClosed` | scripts/ci/crates.py:514-564 | the published set stays closed under publishable dependencies after every prefix of a run |
| `Publishing.SeriesKeepsClosed` | scripts/ci/crates.py:514-564 | and over every series of attempts, each cut short anywhere, also in workspaces with cycles among published crates |
| `Publishing.CompletedAttemptPublishesAll` | scripts/ci/crates.py:514-564 | an attempt that returns normally has published everything |
| `Publishing.NeverPublishedTwice` | scripts/ci/crates.py:520-524 | a crate published by one attempt is attempted by no later one |
| `Publishing.RerunCanFinish` | scripts/ci/crates.py:514-564 | from any published set whose remainder `DAG` accepts some attempt, on a clock that runs on, publishes all the rest |
| `Publishing.FairAttemptPublishesAll` | scripts/ci/crates.py:558-564 | every fair attempt on an accepted remainder in which no crate fails and whose clock passes every time publishes all that is left |
| `RegistryInvariant.StepKeepsInv` | dalaran_py/src/python_bridge.rs:393-449 | ownership and safety are kept by every step of every thread, each element of a loop taken in separate steps (check, taking of handles, end of joining, drop) |
| `RegistryInvariant.LastReference` | dalaran_py/src/python_bridge.rs:425-429 | a listed recording has count 1 exactly if no object, slot or importer holds it |
| `RegistryInvariant.NoneLeft` | crates/top/dl_sdk/src/recording_stream.rs:2394-2399 | when `disconnect`, or a drop that read 1, has joined the importers of an element, none of them runs and Python still does not hold it, although other threads went on |
| `RegistryInvariant.TakenOutKeepsInv` | crates/top/dl_sdk/src/recording_stream.rs:824-843 | what a cleaning loop takes out is freed if no importer holds it at that moment and is otherwise adrift, held by importers only |
| `RegistryInvariant.DowngradeFrees` | crates/top/dl_sdk/src/recording_stream.rs:786-792 | an importer that lets go frees its recording exactly if that is adrift and no other importer holds it |
| `RegistryRuns.OwnedOnceUnlessAdrift` | dalaran_py/src/python_bridge.rs:50-68 | in every run a recording that is built, not freed and not adrift is owned exactly once by a local, a registry, or the vector between them; what Python reaches stays registered; what is freed has no reference |
| `RegistryRuns.OrphansAreDone` | dalaran_py/src/python_bridge.rs:61-68 | every orphan was disconnected, no Python object or slot can reach it, no importer of it runs, and its count is 1 |
| `RegistryRuns.OrphansNeverGoAdrift` | dalaran_py/src/python_bridge.rs:411-411 | an orphan never goes adrift, in any continuation |
| `RegistryRuns.AdriftByLateUpgrade` | dalaran_py/src/python_bridge.rs:410-410 | a step sets a recording adrift if and only if the loop over ALL_RECORDINGS drops the reference it had found to be the last one while an importer holds the recording |
| `RegistryRuns.AdriftListsItsImporters` | crates/top/dl_sdk/src/recording_stream.rs:892-892 | all running importers of a recording that is adrift are still listed, so its last drop waits for the thread that drops it |
| `RegistryRuns.OnlyCleaningOrTheLastImporterFrees` | dalaran_py/src/python_bridge.rs:408-411 | a recording is freed by a cleaning loop that found no holder and no importer, or, if adrift, by its last importer; in no other way |
| `RegistryRuns.NeverAdriftWithoutImporter` | dalaran_py/src/python_bridge.rs:408-411 | without a running importer a recording out of Python's reach never goes adrift, in any continuation |
| `RegistryHoldings.HoldingsAddUp` | dalaran_py/src/python_bridge.rs:885-945 | over every run Python objects, slots and importers of a recording add up: as many as before, plus those that were added (a slot gains what is put into it, its old value becomes an object), less those given up |
| `RegistryHoldings.SlotKeepsRecording` | dalaran_py/src/python_bridge.rs:885-945 | a recording in a slot stays registered, is never moved to the orphans and never freed, whatever all threads do, until every slot that holds it was set anew or its thread has left |
| `RegistryHoldings.WaitingJoins` | crates/top/dl_sdk/src/recording_stream.rs:1044-1049 | when the last Python thread that waits for importers may go on, none that ran at its call runs any more, except those a loop had taken before |
| `RegistryOrder.OwnersMoveOn` | dalaran_py/src/python_bridge.rs:50-68 | over every run a recording only moves on, from a local to ALL_RECORDINGS, to the orphans, to nobody |
| `RegistryOrder.RegistrationOrder` | dalaran_py/src/python_bridge.rs:705-713 | over every run ALL_RECORDINGS stays in the order of registration |
| `RegistryPasses.UnheldIsDisconnected` | dalaran_py/src/python_bridge.rs:423-449 | with all other threads at work, a recording that nobody holds and no importer writes to when the loop begins has left ALL_RECORDINGS when the lock is free again, disconnected |
| `RegistryPasses.ShutdownDisconnects` | dalaran_py/src/python_bridge.rs:772-790 | with all other threads at work, whatever is in ALL_RECORDINGS when the loop of `shutdown` begins is disconnected when it ends, unless Python has set a new sink |
| `RegistryPasses.DisconnectLasts` | dalaran_py/src/python_bridge.rs:2000-2010 | a recording that Python has disconnected stays disconnected until Python sets a new sink |
| `RegistryPasses.UnheldIsFreed` | dalaran_py/src/python_bridge.rs:410-411 | with all other threads at work, such a recording in the vector being cleaned is freed when the lock is free again |
| `RegistryPasses.EveryOrphanIsFreed` | dalaran_py/src/python_bridge.rs:411-411 | with all other threads at work, the second loop frees every orphan that is there when it begins |
| `RegistryFlush.GivenUpStaysOwned` | dalaran_py/src/python_bridge.rs:401-403 | whatever the other threads do, a listed recording that Python has given up before the flush loop comes to it never goes adrift, and has no running importer once the loop is over |
| `RegistryFlush.GivenUpIsFreed` | dalaran_py/src/python_bridge.rs:393-416 | with all other threads at work, such a recording is freed when the first cleaning loop is over, or has become a disconnected orphan |
| `RegistryLoops.Registries.ScanAll` | dalaran_py/src/python_bridge.rs:427-443 | the loop keeps what is held outside, in order, and moves the rest, in order, joining their importers; it is a run of the steps |
| `RegistryLoops.Registries.ExtendAll` | dalaran_py/src/python_bridge.rs:444-444 | everything moved arrives among the orphans, in order |
| `RegistryLoops.Registries.DisconnectOrphaned` | dalaran_py/src/python_bridge.rs:423-449 | without interference exactly what nobody outside holds becomes an orphan and nothing is freed |
| `RegistryLoops.Registries.Flush` | dalaran_py/src/python_bridge.rs:401-403 | without interference the listed importers of every recording in both vectors are joined, and nothing else changes |
| `RegistryLoops.Registries.Clean` | dalaran_py/src/python_bridge.rs:410-411 | without interference a loop frees exactly what nobody outside holds, waiting for importers |
| `RegistryLoops.Registries.FlushAndCleanup` | dalaran_py/src/python_bridge.rs:393-416 | the whole call: the global slot is emptied, importers are joined, then exactly the recordings that Python holds in no object and no slot are freed; the others stay in order, and no orphan is left |
| `RegistryRaces.AnImporterMayFree` | crates/top/dl_sdk/src/recording_stream.rs:1559-1582 | a run of two Python threads from the empty registry, step by step and with the flush loop in it, after which an importer thread frees a recording that no registry holds any more |
| `RegistryRaces.RaceAtFlushExactlyWhen` | dalaran_py/src/python_bridge.rs:393-411 | at every point of the flush loop a listed recording can go adrift if and only if Python can still reach it, or gave it up behind the loop with an importer still running |
| `RegistryRaces.RaceAtLoopExactlyWhen` | dalaran_py/src/python_bridge.rs:410-410 | when the first cleaning loop begins, a listed recording that Python has given up can go adrift if and only if one of its importers is still running |
| `RegistryRaces.RaceAtCheckExactlyWhen` | dalaran_py/src/python_bridge.rs:410-410 | when that loop has a count of 1 before it, the recording can go adrift if and only if one of its importers is still running |
| `Reconcile.FilteredIsDifference` | dalaran_js/web-viewer-react/index.js:168-175 | the filters of `diff` compute set differences, also with repeated URLs |
| `Reconcile.WebViewer.Start` | dalaran_js/web-viewer/index.ts:490-508 | a viewer leaves "stopped" for "starting" with nothing open |
| `Reconcile.WebViewer.LoadEnds` | dalaran_js/web-viewer/index.ts:551-597 | after loading: gives up if stopped meanwhile, fails by stopping, or gets its handle and goes on starting |
| `Reconcile.WebViewer.HandleStartEnds` | dalaran_js/web-viewer/index.ts:598-616 | after the handle's start: becomes ready with the initial URLs open, or gives up, or fails by stopping |
| `Reconcile.WebViewer.Open` | dalaran_js/web-viewer/index.ts:768-782 | adds exactly the URLs, or refuses without a handle and changes nothing |
| `Reconcile.WebViewer.Close` | dalaran_js/web-viewer/index.ts:791-805 | removes exactly the URLs, or refuses without a handle and changes nothing |
| `Reconcile.WebViewer.Stop` | dalaran_js/web-viewer/index.ts:812-836 | halts the viewer and forgets its handle; on a stopped one nothing changes |
| `Reconcile.WebViewer.SyncRecordings` | dalaran_js/web-viewer-react/index.js:184-193 | closes what left the list and opens what is new, and touches nothing else |
| `Reconcile.WebViewer.StartCallback` | dalaran_js/web-viewer-react/index.js:140-147 | reconciles from the initial list to the latest one if the viewer is ready |
| `Reconcile.ViewerComponent.DidUpdate` | dalaran_js/web-viewer-react/index.js:51-84 | either halts the old viewer and starts a new one, or resyncs a ready viewer in place |
| `Reconcile.StepKeepsInv` | dalaran_js/web-viewer-react/index.js:51-148 | in every interleaving of updates, restarts, failures and start completions each viewer stays sound |
| `Reconcile.OpenMatchesTheProperty` | dalaran_js/web-viewer-react/index.js:140-148 | in every run the current viewer is stopped exactly if since its start it was unmounted, crashed or failed to start, and otherwise ready exactly if its start has ended; once the callback has run its open URLs are those of the latest `dlr` property given |
| `Reconcile.StartSucceeds` | dalaran_js/web-viewer/index.ts:551-616 | whenever the current viewer is loading, a successful load, handle start and callback leave it ready with exactly the property's URLs open |
| `Reconcile.SupersededViewersAreInert` | dalaran_js/web-viewer-react/index.js:63-70 | whatever a superseded viewer's promise still does changes only its own phase; it has nothing open |
| `Reconcile.PascalToSnake` | dalaran_js/web-viewer-react/index.js:101-118 | the loop computes the snake case of its input |
| `Reconcile.SnakeUndoesPascal` | dalaran_js/web-viewer-react/types.d.ts:4-16 | for every event name whose segments start in lower case and contain no upper case, `pascalToSnake` undoes the `PascalCase` type |
| `DependencyPath.IndentLevel` | scripts/check_forbidden_dependencies.py:104-112 | the position of the first character that is not drawing, 0 when there is none |
| `DependencyPath.CrateNameIs` | scripts/check_forbidden_dependencies.py:96-97 | behind any drawing and before whitespace or the end of the line the name is found, whatever it is |
| `DependencyPath.GetDependencyPath` | scripts/check_forbidden_dependencies.py:64-126 | the first hit is named exactly (match, blank line that raises IndexError, none), and the text joins what the walk back picks, top line first |
| `DependencyPath.SplitInvertsJoined` | scripts/check_forbidden_dependencies.py:126-126 | splitting the returned text gives the lines of the path |
| `DependencyPath.WalkBack` | scripts/check_forbidden_dependencies.py:114-125 | collecting backwards and reversing gives the climbed lines in order; stopping at indent 0 loses nothing |
| `DependencyPath.ClimbsTree` | scripts/check_forbidden_dependencies.py:114-123 | climbing by indentation inside any tree picks exactly the tree's own ancestors |
| `DependencyPath.ListingShowsChain` | scripts/check_forbidden_dependencies.py:104-112 | each line of a chain shows its label behind four characters of drawing per level |
| `DependencyPath.PathIsTheChain` | scripts/check_forbidden_dependencies.py:92-126 | for every tree listed in preorder the result is the root-to-node chain of the first crate of that name |
| `DependencyPath.SearchSucceedsExactlyWhenListed` | scripts/check_forbidden_dependencies.py:92-102 | on a listing the search never crashes, and finds the crate if and only if it is in the tree |
| `DependencyPath.ShortestExactlyWhen` | scripts/check_forbidden_dependencies.py:65-71 | the path is a shortest one if and only if no later matching line is indented less |
| `DependencyPath.FirstMatchNeedNotBeShortest` | scripts/check_forbidden_dependencies.py:65-71 | a concrete tree whose first match is not a shortest path |
| `D2Labels.ExtractSegments` | scripts/render_d2.py:129-138 | the recursive loop computes the segments of the tree |
| `D2Labels.LocalNameIs` | scripts/render_d2.py:105-106 | the local name of a tag is what follows its namespace |
| `D2Labels.ExtractionKeepsText` | scripts/render_d2.py:129-138 | no visible character is lost or moved, and all flags are right if and only if no visible text follows a child inside an outermost `code` |
| `D2Labels.PlainCodeKeepsFlags` | scripts/render_d2.py:130-137 | that holds for every tree whose `code` elements have no element children |
| `D2Labels.ATailLosesItsFlag` | scripts/render_d2.py:134-137 | a concrete tree whose text behind a child of `code` loses its flag |
| `D2Labels.NormalizeSegments` | scripts/render_d2.py:141-154 | the loop that overwrites the last segment computes the normal form |
| `D2Labels.NormalizationKeepsText` | scripts/render_d2.py:141-154 | squeezing, merging, trimming and dropping keep every visible character and its flag |
| `D2Labels.NormalizedAlternates` | scripts/render_d2.py:143-154 | normal forms alternate in flag and have no empty text, given what extraction yields |
| `D2Labels.BuildLabel` | scripts/render_d2.py:175-193 | the loop over `text`, `tspan` and `tail` builds the label |
| `D2Labels.ReadBackInvertsBuilt` | scripts/render_d2.py:183-193 | reading `text`, `tspan` and `tail` back yields exactly the segments |
| `D2Labels.LabelKeepsText` | scripts/render_d2.py:129-194 | end to end from an HTML tree to its label: characters, order, alternation, and flags under the exact condition; a dropped label had no visible text |
| `D2Words.NormalizationKeepsWords` | scripts/render_d2.py:141-154 | the normal form has the same words as the text: two consecutive visible characters are apart in one exactly if they are in the other, also across segments |
| `D2Words.LabelKeepsWords` | scripts/render_d2.py:129-194 | end to end: the label reads word for word as the text of the HTML tree |
| `D2Words.GapsAreStretches` | scripts/render_d2.py:142-149 | inside a segment a gap between visible characters is as wide as there are stretches of whitespace in it, so one space exactly unless the whitespace is spread over several segments with one flag |
| `D2Words.SpacesAddUp` | scripts/render_d2.py:142-149 | a concrete tree with whitespace on both sides of an empty element, whose label has two spaces |
| `D2Words.NormalizationLeavesBlanks` | scripts/render_d2.py:142-142 | the only whitespace left are blanks |
| `D2Words.EndsAreVisible` | scripts/render_d2.py:151-153 | the normal form begins and ends with a visible character if the first and the last run of segments have visible text |
| `D2Documents.PartlyStep` | scripts/render_d2.py:171-194 | processing one target changes its child list at one place only, where the target was |
| `D2Documents.LabelIsCentred` | scripts/render_d2.py:163-181 | a label stands as far from the left edge of its object as from the right one, and so for height |
| `D2Documents.Document.ReplaceForeignObjects` | scripts/render_d2.py:157-194 | afterwards every child list is the old one with each foreign object replaced, in place, by its label or by nothing |
| `D2Documents.TextBehindSurvivesExactlyWhen` | scripts/render_d2.py:171-172 | the text between the entries of a list survives if and only if none follows a foreign object, as removing the object removes the text behind it |
| `BlankLines.FixIsAProjection` | scripts/lint.py:820-837 | for any rule content with blank lines the fixed lines lint clean, and fixing twice is fixing once |
| `BlankLines.FixOnlyInsertsBlankLines` | scripts/lint.py:827-837 | removing the inserted lines gives the input back; the inserted lines are blank, one per error |
| `BlankLines.ErrorsNameTheLines` | scripts/lint.py:827-832 | the line numbers reported are exactly those that lack a blank line |
| `VerticalSpacing.LintVerticalSpacing` | scripts/lint.py:820-837 | the loop computes those errors and lines for the Rust rule |
| `VerticalSpacing.BlankSeparates` | scripts/lint.py:788-817 | the Rust rule never asks for a blank line next to a blank line |
| `VerticalSpacing.AsksBehindBrace` | scripts/lint.py:784-817 | between a closing brace and a declaration, with or without `pub`, it asks for a blank line exactly unless that is a function without a body |
| `VerticalSpacing.AsksForAttributes` | scripts/lint.py:785-817 | so it does for an attribute or a doc comment |
| `VerticalSpacing.NeverAsksBehind` | scripts/lint.py:788-816 | it never asks behind an opening bracket, a continued line, a comment or an attribute |
| `VerticalSpacing.VerticalSpacingFix` | scripts/lint.py:788-837 | so the Rust fix is a projection that adds one line per error |
| `EnforcedCase.SplitWords` | scripts/lint.py:1319-1332 | the loop computes the tokens |
| `EnforcedCase.ConcatInvertsTokens` | scripts/lint.py:1319-1332 | joining the tokens gives the text back |
| `EnforcedCase.TokensAreWellFormed` | scripts/lint.py:1319-1332 | tokens are maximal words and single separators |
| `EnforcedCase.TokensInvertConcat` | scripts/lint.py:1319-1332 | and that cut is the only one |
| `EnforcedCase.FixKeepsBoundaries` | scripts/lint.py:1432-1451 | the fixed text splits at the same places into the fixed tokens |
| `EnforcedCase.FixIsAProjection` | scripts/lint.py:1432-1451 | the fix changes letter case only, and fixing twice is fixing once |
| `EnforcedCase.FixedToken` | scripts/lint.py:1436-1449 | blanks, tokens that begin with a backtick and tokens behind such a one that nothing has closed stay; other listed words get the first listed spelling, everything else stays |
| `EnforcedCase.FixEnforcedUpperCase` | scripts/lint.py:1432-1451 | the loop computes that for the list at lint.py:1254-1304 |

## Left out

- Cargo, git, HTTP, crates.io and the file system: `publish_crate` is an action that returns or raises,
  `is_already_published` a truthful oracle, manifests are values with a publish flag and dependency lists.
- Clocks: time is a real number handed to each request; floating-point rounding of the rate is not modelled.
- `f` raising `queue.Empty` (dag.py:155 would swallow it and lose the node): `f` is taken never to raise it.
- The thread pool: workers are interleaved steps, `time.sleep(0)` and waiting for futures are polling steps.
- `_NodeState` objects: records in the dictionary; a `dependents` list names them by key, so sharing of the same
  object is not captured. The worker's `_start` and the main loop's `_finish` touch different fields and are
  single steps.
- `Bump`, version strings, retries of a single publish and their delays: not part of this model.
- Dependency kinds and manifest keys in `crate_deps`: only the names matter for the graphs.
- Registry: the four slots (global and per thread, data and blueprint) are one bag of references; `forget_*` after a
  fork, flush failures and timeouts and the garbage queue itself are left out. Python objects that queued data keeps
  alive count as Python objects. Starting an importer and listing its handle are one step, as the caller holds the
  recording in between. What the last drop does besides freeing (flushing, joining threads) is not part of this model.
- Disabled streams (`RecordingStream::disabled()`, recording_stream.rs:1169), whose count is always 0, are not
  recordings here.
- RegistryLoops.Registries.DisconnectOrphaned: says where the loops end when no other thread interferes;
  `UnheldIsDisconnected` is what holds of every interleaving.
- RegistryLoops.Registries.FlushAndCleanup: likewise; importers come to their end where a loop joins them, and
  `GivenUpIsFreed`, `UnheldIsFreed` and `EveryOrphanIsFreed` are what holds of every interleaving.
- React: a property update and its `componentDidUpdate` are one step (no abandoned concurrent renders); a viewer's
  `start` is called once; failures of `add_receiver` and `remove_receiver`, canvas, loader and fullscreen are left
  out; `Crash` stands for the panic check.
- Event registration (`on`, `off`, `once`) and dispatch: not part of this model, apart from the event names.
- D2: attributes other than position, XML parsing and serialisation, `rewrite_tspan_dy`, styles and the viewbox. A
  foreign object inside another is replaced in the detached tree as well, from its content as parsed.
- `lint.py`: the catalogue in `lint_line`, header casing, emoji and Markdown structure.
- VerticalSpacing.LintVerticalSpacing: error messages are reduced to line numbers, and word characters to ASCII.
- EnforcedCase.FixEnforcedUpperCase: letters and digits outside ASCII count as separators without case, which is
  what Python does on ASCII text only.
