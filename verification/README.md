# go-cqrs-lite: verified core

A Dafny model of the four parts of go-cqrs-lite that carry its concurrency and bookkeeping, with
proofs about whole runs of them. Nothing was executed: every statement below is a theorem about the
model.

* **Command lifecycle** (`BoundedMap.dfy`, `Recorder.dfy`, `Lifecycle*.dfy`). A bounded map with lazy
  deletion backs the recorder's version cache and the attempt tracker shared by two middlewares. The
  main theorem composes all three: concurrently dispatched commands each emit and persist the trace
  they would have alone, exactly while at most 1024 are in flight.
* **Decider repository** (`Decider*.dfy`). Optimistic event sourcing with a lossy cache and a snapshot
  store. Every interleaving of calls is serial in commit order, each commit decided on all events before
  it, and publishes what it committed; the three load paths always agree, and a call that nothing
  interrupts ends as the full replay of its stream determines.
* **Lease claiming** (`Claim*.dfy`, `Lease*.dfy`). SQL builders for three dialect families. The bound
  statements, as written and as read, denote one relational claim, earliest due first; concurrent
  MySQL transactions refine it, and owner-fenced leases have at most one holder, whether claims are
  atomic or transactions.
* **Benchkit** (`Reservoir.dfy`, `LatencyStats.dfy`, `WorkerPool.dfy`, `Discovery.dfy`). Algorithm R is
  uniform by counting, the statistics are ordered and each is what its name says, the worker pool
  terminates with the right result, and paged discovery equals one scan, under an exact condition.

Where the source mutates objects, a class with the source's loops is proved against a specification
function on values, and the lemmas are about that function. Where it runs goroutines or transactions,
a step system has one step per critical section, store access or channel operation, and the theorems
quantify over all sequences of steps. Clocks, random indices, store and read failures, cancellations,
handler outcomes and how much of a stream a read sees are parameters or steps chosen freely.
`Basics.dfy` holds what the parts share. `dafny verify dfyconfig.toml` checks the project.

## Where the code departs from its comments

The model follows the code. Each departure is stated by a lemma or a contract in the table below;
where a promise holds for some inputs only, the table has the condition too.

* `bounded.go` says a delete-heavy workload cannot grow `order` without bound and that eviction is
  oldest-first. A compaction keeps every slot of a live key, so each one that meets a live key with two
  slots adds to `order` what the counter no longer sees; the bound and the counter hold exactly up to
  that surplus, and deleting and putting back alone does not break them. Eviction is oldest-first exactly
  while, after every slot of its victim, each other live key still has a slot. The comment that `stale`
  dips negative describes only histories with an unclean compaction.
* `recorder.go` does not reset the cached version when building an event fails, so the next event on
  that stream is refused and lost, unless a failed save or an eviction comes between.
* `snapshot_load.go` fails on a snapshot whose stream does not exist, where a full replay would start
  from the initial state, and agrees with the replay exactly otherwise. No run of the repository makes
  such a snapshot.
* `rich.go` joins an unfiltered claim on the id alone, so a claim can write a row it did not pick. The
  exact condition on the table differs by dialect.
* `middleware.go` keeps a rejection mark across attempts. If a rejection is retried, the dead letter
  is suppressed; every dispatch has a proper lifecycle exactly when no retryable error is a rejection.
  Its comment says that an evicted tracker entry only makes the next attempt report 1; it can also
  bring a second verdict, or a verdict after 0 attempts. For every configuration this is ruled out
  exactly while at most 1024 commands are in flight.
* `metrics.go` uses 0 as "no minimum yet", so a zero sample is forgotten at the next one. Its
  percentile index is one above the nearest rank it names, except at the top.
* `runner_concurrent.go` returns no error for a run cut short by its caller's context: that no error
  means every index ran holds exactly where the caller cannot cancel or there is nothing to run. Its
  "first error" means first reported, which is the first failure exactly where there is at most one
  worker.
* `runner_discovery.go` keys streams by id alone, so it finds every stream exactly when no id is used
  under two types. A read error while paging shortens the result without an error: paging a quiet journal
  is complete exactly when nothing stops it before its last event is read and no full page's last id
  occurs again.

## Model

| member | source | states |
|---|---|---|
| `BoundedMaps.EvictPops` | commandlifecycle/bounded.go:68-87 | Eviction pops dead slots up to the first live one, counts each of them off `stale`, and keeps every other live slot. |
| `BoundedMaps.EvictRemovesOne` | commandlifecycle/bounded.go:68-87 | On a non-empty map eviction always finds a live entry and removes exactly that one; the counter is exact after it if and only if it was before. |
| `BoundedMaps.MakeRoomKeeps` | commandlifecycle/bounded.go:42-52 | The eviction in front of an insertion leaves a free place, loses no counter exactness and changes no surviving entry. |
| `BoundedMaps.PutBinds` | commandlifecycle/bounded.go:42-52 | `put` binds its key, keeps every other entry unless the map is at capacity, and never changes one. |
| `BoundedMaps.PutEvictsExactlyWhenFull` | commandlifecycle/bounded.go:42-52 | Another entry leaves on a `put` if and only if the key is new and the map is at its positive capacity, and then exactly one does. |
| `BoundedMaps.DeleteUnbinds` | commandlifecycle/bounded.go:54-106 | `delete` unbinds one key only; a compaction leaves the stale counter exact if and only if no live key owns two slots. |
| `BoundedMaps.DeleteCompactsExactlyWhen` | commandlifecycle/bounded.go:54-106 | A `delete` compacts if and only if it leaves more than 64 stale slots and more of them than live entries; then exactly the slots of live keys stay, in order, and the counter is 0, and otherwise only the counter grows by one. |
| `BoundedMaps.ApplyKeepsValid` | commandlifecycle/bounded.go:42-106 | Every operation keeps the size within a positive capacity and every entry reachable from `order`. |
| `BoundedMaps.RunIsSubMapOfIdeal` | commandlifecycle/bounded.go:42-106 | After any history the map is a sub-map of the unbounded map that saw the same operations, within capacity. |
| `BoundedMaps.UnboundedIsIdeal` | commandlifecycle/bounded.go:5-5 | With capacity <= 0 the map is the unbounded one after any history. |
| `BoundedMaps.AgeQueueEvict` | commandlifecycle/bounded.go:68-87 | Eviction takes its victim, and nobody else, out of the queue of live keys by age. |
| `BoundedMaps.AgeQueuePut` | commandlifecycle/bounded.go:42-52 | In every history an absent key joins the age queue at the back, after the evicted key has left it. |
| `BoundedMaps.AgeQueueDelete` | commandlifecycle/bounded.go:54-106 | A deletion, compacting or not, takes its key out of the age queue and reorders nothing. |
| `BoundedMaps.OldestExactlyWhen` | commandlifecycle/bounded.go:68-87 | A live key heads the age queue if and only if every other live key has a slot after all of its slots. |
| `BoundedMaps.EvictsOldestExactlyWhen` | commandlifecycle/bounded.go:40-52 | On every valid non-empty map eviction removes the oldest inserted live entry if and only if, after every slot of its victim, each other live key still has a slot; so always while no key owns two slots. |
| `BoundedMaps.TidyStep` | commandlifecycle/bounded.go:42-106 | The exact step condition: no key comes to own two slots if and only if an absent key is not put back while a slot of it is still in `order`. |
| `BoundedMaps.StaleBoundStep` | commandlifecycle/bounded.go:89-106 | The stale counter never exceeds the larger of 64 and the live size, in any history. |
| `BoundedMaps.UncountedStep` | commandlifecycle/bounded.go:42-106 | Only a compaction changes how many slots are neither live nor counted stale: to the surplus slots it keeps. |
| `BoundedMaps.CleanCompaction` | commandlifecycle/bounded.go:91-106 | A compaction keeps no surplus slot if and only if no key that stays live owns two slots. |
| `BoundedMaps.CounterIsExactExactlyWhen` | commandlifecycle/bounded.go:78-106 | After any history the counter is off by exactly the surplus of the last compaction; it is exact if and only if that compaction met no live key with two slots, or was exact before if there was none. |
| `BoundedMaps.OrderIsBounded` | commandlifecycle/bounded.go:7-11 | After any history, re-insertions included, the size of `order` is at most that of the live set plus max(64, live) plus the surplus of the last compaction; if that was clean there is no surplus and the counter is exact and not negative. |
| `BoundedMaps.ReinsertedKeyIsEvictedFirst` | commandlifecycle/bounded.go:40-52 | A history after which the newest entry is evicted although an older one is live. |
| `BoundedMaps.OrderGrowsWithoutBound` | commandlifecycle/bounded.go:7-9 | For every n a history over two keys that leaves one live entry and more than n slots: the documented bound fails. |
| `BoundedMapObjects.BoundedMap.constructor` | commandlifecycle/bounded.go:25-32 | A new map is empty and remembers its capacity. |
| `BoundedMapObjects.BoundedMap.Get` | commandlifecycle/bounded.go:34-38 | Returns the binding, or the zero value and false for a missing key. |
| `BoundedMapObjects.BoundedMap.Put` | commandlifecycle/bounded.go:42-52 | The object with its eviction call changes exactly as the specification function says. |
| `BoundedMapObjects.BoundedMap.Delete` | commandlifecycle/bounded.go:54-62 | As above, for deletion and the compaction it may trigger. |
| `BoundedMapObjects.BoundedMap.EvictOldest` | commandlifecycle/bounded.go:68-87 | The popping loop computes the recursive specification of eviction. |
| `BoundedMapObjects.BoundedMap.MaybeCompact` | commandlifecycle/bounded.go:91-106 | The rebuilding loop keeps exactly the live slots, in order, when stale entries dominate, and does nothing otherwise. |
| `Recorders.ResolveEffect` | commandlifecycle/recorder.go:251-286 | The version handed out is one above the cached one, or above the stream length on a miss; a failed seed load changes nothing; other cached versions stay or are evicted. |
| `Recorders.ResetEffect` | commandlifecycle/recorder.go:288-296 | A reset forgets one version only. |
| `Recorders.EmitFrames` | commandlifecycle/recorder.go:190-227 | An emit touches no other stream and no other cached version except by eviction. |
| `Recorders.EmitEffect` | commandlifecycle/recorder.go:190-227 | For every fault: the event is appended with the next version if and only if the save is reached, let through, and the cached version was right; afterwards the version is right again unless event creation failed, and after a recorded event it is cached and is the stream length. |
| `Recorders.RightVersionLosesNothing` | commandlifecycle/recorder.go:190-296 | With a right cached version, healthy emits append every payload in order with consecutive versions. |
| `Recorders.PendingStep` | commandlifecycle/recorder.go:190-296 | A cached version can be wrong only on streams with an event-creation failure that no failed save has followed. |
| `Recorders.SameStep` | commandlifecycle/recorder.go:190-296 | One emit with a right version writes what a recorder without a cache writes. |
| `Recorders.AnyCapacityWritesTheSame` | commandlifecycle/recorder.go:251-286 | In sequential runs, through any save failures, a recorder of any cache capacity writes exactly the streams of one that re-reads the length on every emit, as long as failed event creations are absorbed. |
| `Recorders.AheadStep` | commandlifecycle/recorder.go:190-227 | For every cache capacity, the versions that run ahead are exactly those of pending streams that are still cached. |
| `Recorders.LossIsPermanent` | commandlifecycle/recorder.go:190-227 | An event lost to a wrong version is never made up for. |
| `Recorders.SameStreamsExactlyWhenAbsorbed` | commandlifecycle/recorder.go:190-227 | For every cache capacity the two recorders write the same streams if and only if every failed event creation is absorbed, by a failed save or an eviction, before an event is sent on its stream: `emit` does not reset the version after one. |
| `Recorders.FailedCreationLosesTheNext` | commandlifecycle/recorder.go:190-227 | The loss at an input, for every recorder and stream: after one failed creation the next event is not stored though nothing fails for it, while a recorder without a cache stores it. |
| `Recorders.UnboundedIsAbsorbedExactlyWhen` | commandlifecycle/recorder.go:190-227 | For a cache that never evicts, that condition is one on the emissions alone. |
| `RecorderSystem.StepKeepsStreams` | commandlifecycle/recorder.go:190-296 | One step of any emitter, outside writer or reset keeps all streams numbered and only extends them. |
| `RecorderSystem.RunsKeepStreamsNumbered` | commandlifecycle/recorder.go:190-296 | Under every interleaving of emitters, outside writers, evictions and store errors, streams stay versioned 1..n and no stored event is overwritten, moved or lost. |
| `RecorderSystem.UninterruptedStepsAreTheEmit` | commandlifecycle/recorder.go:190-296 | Under every fault the steps of one emit, taken without interruption, leave exactly the streams and versions of the sequential emit. |
| `RecorderSystem.OtherStepsAreElsewhere` | commandlifecycle/recorder.go:190-296 | A step about another stream leaves the stream and its emitters alone, and its cached version alone or evicted. |
| `RecorderSystem.CalmStepAccounts` | commandlifecycle/recorder.go:190-296 | One step of a run that is sequential and healthy on a stream loses an event only when it begins one on a stale cached version. |
| `RecorderSystem.CalmRunAccounts` | commandlifecycle/recorder.go:190-296 | So does a whole run: every event begun is stored or foreseen, except the first on a stale version. |
| `RecorderSystem.WrongVersionCostsOneEvent` | commandlifecycle/recorder.go:190-296 | From any state without an emitter on a stream, once emits on it are sequential and the store healthy for it, at most the first is lost, and only if the cached version was wrong; the cache then agrees with the store. Emitters on other streams, in flight or new, outside writers of them, evictions, faults and resets interleave freely. |
| `RecorderObjects.EventStore.constructor` | storage/memory/store.go:33-48 | A new store has no streams. |
| `RecorderObjects.EventStore.Load` | storage/memory/log_store.go:145-168 | Returns the stream; a missing one has no events. |
| `RecorderObjects.EventStore.Save` | storage/memory/store.go:52-76 | Appends if and only if the stream has the expected length and the write goes through; an unacknowledged write appends and still reports an error. |
| `RecorderObjects.Recorder.constructor` | commandlifecycle/recorder.go:83-101 | A new recorder has an empty version cache of the given capacity. |
| `RecorderObjects.Recorder.NextVersion` | commandlifecycle/recorder.go:251-286 | The locked read-or-seed and increment computes the specified version and cache. |
| `RecorderObjects.Recorder.ResetVersion` | commandlifecycle/recorder.go:291-296 | Computes the specified reset. |
| `RecorderObjects.Recorder.EmitEvent` | commandlifecycle/recorder.go:190-227 | The emit with its error paths computes the specified state, and reports an error only in strict mode. |
| `LifecycleTraces.SoundHandleTrace` | commandlifecycle/middleware.go:114-180 | From the i-th attempt on, a sound configuration emits (failed, retried)* and one proper ending. |
| `LifecycleTraces.SoundConfigGivesLifecycle` | commandlifecycle/middleware.go:70-91 | For every predicate that decides which errors are retried: if none of them is a rejection and exhaustion is no rejection, every dispatch emits received, (failed i, retried i)* and then completed, or failed n, dead-lettered n, or rejected n. |
| `LifecycleTraces.UnsoundConfigBreaksLifecycle` | commandlifecycle/middleware.go:114-180 | Every other configuration has a handler whose dispatch emits a malformed trace, so the condition is exact. |
| `LifecycleTraces.RetryConflictsIsSoundExactlyWhen` | middleware/retry.go:46-58 | The suggested override that retries version conflicts too is sound if and only if neither transient, conflict nor infrastructure errors are recorded as rejections. |
| `LifecycleTraces.RetriedRejectionLosesItsDeadLetter` | commandlifecycle/middleware.go:127-137 | A retried rejection keeps its mark: a command that later exhausts its attempts gets no terminal event. |
| `LifecycleTraces.FindLastAttempt` | middleware/retry.go:75-149 | Every script has a last attempt: the first that succeeds, fails for good, is the last allowed, or whose wait is cancelled. |
| `LifecycleTraces.AloneTraceFollowsTheScript` | commandlifecycle/middleware.go:114-180 | From the script alone, with k the last attempt: the trace is received, then failed or rejected i and retried i for i = 1..k-1 and nothing between, then the verdict of attempt k, which is completed if and only if attempt k succeeds. |
| `LifecycleSystem.RoomForInflight` | commandlifecycle/middleware.go:16-28 | With at most 1024 commands in flight a new tracker entry never evicts. |
| `LifecycleSystem.NextAttemptMoves` | commandlifecycle/middleware.go:30-38 | Counting an attempt changes only the command's own entries, whatever the others do. |
| `LifecycleSystem.MarkRejectedMoves` | commandlifecycle/middleware.go:49-54 | Marking a rejection changes only the command's own mark. |
| `LifecycleSystem.ClearMoves` | commandlifecycle/middleware.go:40-46 | Clearing removes exactly the command's two entries. |
| `LifecycleSystem.EvictedCommandRestartsAtOne` | commandlifecycle/middleware.go:30-38 | At capacity a new command evicts the count of another, whose next attempt then reports 1. |
| `LifecycleSystem.MiddlewareStaysOnTrace` | commandlifecycle/middleware.go:114-180 | Every tracker step or local move keeps the events emitted plus those still to come equal to the lone trace. |
| `LifecycleSystem.RecorderStepKeeps` | commandlifecycle/recorder.go:190-227 | Under any fault, each recorder step leaves the stream a subsequence of the events whose recording has ended. |
| `LifecycleSystem.RecorderStepExact` | commandlifecycle/recorder.go:190-227 | With a healthy store each recorder step leaves the stream equal to them. |
| `LifecycleSystem.RecordingIsOneEmit` | commandlifecycle/recorder.go:190-227 | Under every fault the recorder steps of a dispatch, taken without interruption, are one emit, after which it goes on where it should. |
| `LifecycleSystem.ReturnStaysOnTrace` | commandlifecycle/middleware.go:56-68 | When a dispatch returns, the tracker holds nothing of it and still suits the others. |
| `LifecycleSystem.StepKeepsInv` | commandlifecycle/middleware.go:114-180 | Every step of every command keeps all of this for all commands in flight. |
| `LifecycleSystem.RunKeepsInv` | commandlifecycle/middleware.go:114-180 | So does every run. |
| `LifecycleSystem.EveryDispatchRunsAsIfAlone` | commandlifecycle/middleware.go:70-91 | In every interleaving of at most 1024 commands with distinct ids, each emits its lone trace, leaves the tracker clean, and persists a subsequence of what it emitted, whatever fails. |
| `LifecycleSystem.EveryDispatchEmitsALifecycle` | commandlifecycle/middleware.go:70-91 | With a sound configuration each finished dispatch of every interleaving has emitted received, (failed i, retried i)* and one proper ending. |
| `LifecycleSystem.EveryDispatchFollowsItsScript` | commandlifecycle/middleware.go:70-91 | In every interleaving of at most 1024 commands each finished dispatch has emitted exactly the events of its script: attempts 1..k with k its last attempt, a retry between each two, and the verdict of attempt k. |
| `LifecycleSystem.StepGoesOn` | commandlifecycle/middleware.go:114-180 | Every step of an unfinished dispatch brings it nearer to its end, whatever the tracker, the cache and the store hold and whatever fails. |
| `LifecycleSystem.EveryDispatchCanFinish` | middleware/retry.go:75-149 | In every run with any number of commands, a dispatch finishes by its own steps alone from wherever the run has left it, within 16 steps for each attempt allowed and 23 more, whatever fails. |
| `LifecycleSystem.StepStaysExact` | commandlifecycle/recorder.go:190-227 | A healthy step of a command, or any step of another, keeps the command's stream equal to what it has recorded. |
| `LifecycleSystem.HealthyStoreHoldsTheTrace` | commandlifecycle/middleware.go:114-180 | If none of its own recordings meets a fault, the stream of a command is at every moment exactly what it has recorded, and its whole trace once done, with consecutive versions: whatever fails for other commands, for any version-cache capacity. |
| `LifecycleOverflow.WaitedState` | commandlifecycle/middleware.go:114-180 | A dispatched command whose first attempt is refused comes to wait with its own count, and mark if refusals are rejections, in the tracker, and leaves the other commands as they are. |
| `LifecycleOverflow.LineUp` | commandlifecycle/middleware.go:114-180 | For every n up to 1024 a run after which n commands wait, all on their lone traces. |
| `LifecycleOverflow.OneIsForgotten` | commandlifecycle/middleware.go:30-54 | The 1025th makes the tracker forget the mark of one of them, or its count if refusals are no rejections. |
| `LifecycleOverflow.ForgottenLeavesTheTrace` | commandlifecycle/middleware.go:10-20 | Run to its end, the forgotten command has emitted a second verdict, or one with 0 attempts. |
| `LifecycleOverflow.OverflowLeavesTheTrace` | commandlifecycle/middleware.go:16-28 | For every configuration a run with 1025 commands in which a finished dispatch has not emitted its lone trace. |
| `LifecycleOverflow.RunsAsIfAloneExactlyWhen` | commandlifecycle/middleware.go:16-28 | For every configuration, every finished dispatch of every run has emitted its lone trace if and only if at most 1024 commands may be in flight. |
| `LifecycleObjects.AttemptTracker.constructor` | commandlifecycle/middleware.go:22-28 | A new tracker is empty. |
| `LifecycleObjects.AttemptTracker.Next` | commandlifecycle/middleware.go:30-38 | Counts one more attempt of one command. |
| `LifecycleObjects.AttemptTracker.ClearEntries` | commandlifecycle/middleware.go:40-46 | Drops the command's count and mark. |
| `LifecycleObjects.AttemptTracker.Mark` | commandlifecycle/middleware.go:49-54 | Sets the command's mark. |
| `LifecycleObjects.AttemptTracker.Take` | commandlifecycle/middleware.go:58-68 | Hands out count and mark and clears both. |
| `LifecycleObjects.Pipeline.BeginAttempt` | commandlifecycle/middleware.go:151-158 | The i-th attempt counts i and records a retry if and only if i > 1. |
| `LifecycleObjects.Pipeline.RecordFailure` | commandlifecycle/middleware.go:160-170 | A failed attempt records rejected or failed with its number and marks a rejection. |
| `LifecycleObjects.Pipeline.RunAttempt` | commandlifecycle/middleware.go:151-180 | The attempt middleware around one handler call: its events and what it leaves in the tracker. |
| `LifecycleObjects.Pipeline.TryOnce` | middleware/retry.go:84-141 | One turn of the retry loop takes the attempt's events off the lone trace and goes on if and only if the error is retried, attempts are left and the wait is not cancelled. `AloneTraceFollowsTheScript` says what that trace is. |
| `LifecycleObjects.Pipeline.RunRetries` | middleware/retry.go:75-149 | The retry loop emits the rest of the lone trace up to the terminal events and succeeds if and only if an attempt does before retries stop. |
| `LifecycleObjects.Pipeline.Finish` | commandlifecycle/middleware.go:119-138 | The outer middleware ends a failed dispatch with the terminal events and a clean tracker. |
| `LifecycleObjects.Pipeline.Complete` | commandlifecycle/middleware.go:139-146 | A successful dispatch ends with completed and a clean tracker. |
| `LifecycleObjects.Pipeline.Dispatch` | commandlifecycle/middleware.go:114-149 | One dispatch makes attempts 1..k with k the last attempt of its script, emits exactly their events with a retry between each two, records them event by event, cleans the tracker, and returns success if and only if attempt k succeeds. |
| `Deciders.FoldConcat` | decider/load.go:49-72 | Folding a concatenation is folding its parts in turn, failures included. |
| `Deciders.FoldAppliesEveryEvent` | decider/load.go:49-72 | Folding gives a state if and only if a chain of states, one more than there are events, leads to it by applying each event to the state before it; it gives none if and only if such a chain reaches an event that is refused. |
| `Deciders.ReplayMeans` | decider/load.go:16-47 | So a full replay is the end of the chain over the whole stream, with its length as version, or fails at a refused event. |
| `Deciders.GroundedGrows` | decider/cache.go:21-25 | A state that is the fold of the first v events stays so when the stream grows. |
| `Deciders.GroundedAdvances` | decider/load.go:230-267 | Folding the tail onto such a state gives the full replay, and fails exactly when that fails. |
| `Deciders.LoadPathsAgree` | decider/decider.go:213-258 | With sound caches, cache hit and full replay at one point return the same state and version, and fail together; a snapshot load agrees with them if and only if its snapshot has a stream. |
| `Deciders.OrphanSnapshotFails` | decider/snapshot_load.go:25-72 | Every usable snapshot without a stream fails a load that a replay starts from the initial state. |
| `Deciders.AppendedStream` | storage/memory/log_store.go:110-120 | Appending extends one stream only; a stream comes into being with its first event, so appending nothing creates none. |
| `DeciderSystem.NextPcOk` | decider/decider.go:116-183 | Every step of a call, reading any prefix, keeps the state it holds grounded in the stream. |
| `DeciderSystem.NextWorldSound` | decider/decider.go:163-180 | Every cache put, even of an older state over a newer, and every snapshot keeps cache and snapshots sound. |
| `DeciderSystem.CommitIsSerial` | decider/decider.go:134-161 | A save that appends decided on the fold of the whole stream at that moment. |
| `DeciderSystem.StepKeepsInv` | decider/decider.go:116-183 | Every step, eviction, snapshot deletion and outside append keeps the invariant. |
| `DeciderSystem.RunKeepsInv` | decider/decider.go:116-183 | So does every run. |
| `DeciderSystem.EveryRunIsSerial` | decider/decider.go:134-161 | In every interleaving the streams equal a serial execution of the committed calls in commit order; each applied at its place, and each call is committed once if it got past its save and never otherwise. |
| `DeciderSystem.EveryCommitExtendsOneStream` | decider/decider.go:134-161 | In every interleaving the i-th commit extends one stream only: a call by a non-empty batch it decided on the state to which all events before it lead, one after the other, and on their number; the first starts from the streams found and the last ends at those of the run. |
| `DeciderSystem.SavedIsCommitted` | decider/decider.go:134-161 | What an accepted save appends is the batch its call decides on when run alone at that place in commit order. |
| `DeciderSystem.StepPublishes` | decider/decider.go:134-183 | Every step keeps every published batch, and every batch about to be published, the committed batch of its call. |
| `DeciderSystem.EveryPublicationIsCommitted` | decider/decider.go:134-183 | In every interleaving each published batch is the one its committed call appended at its place in commit order; a call publishes exactly once if it got past its publish and never otherwise. |
| `DeciderSystem.RunBacked` | decider/decider.go:116-183 | No run makes a usable snapshot of a stream that does not exist. |
| `DeciderSystem.LoadPathsAlwaysAgree` | decider/decider.go:230-255 | In every reachable state each cached or snapshotted pair is a fold of its prefix and the load paths agree, the snapshot path if and only if its snapshot has a stream, which every run keeps. |
| `DeciderAlone.LoadsAlone` | decider/decider.go:213-258 | The steps of a load that nothing interrupts lead to the full replay or to the load error, exactly as the failed reads and the stored snapshot determine, and leave the replay in the cache. |
| `DeciderAlone.SavesAlone` | decider/decider.go:134-183 | The steps behind a decision lead to the result that the failing access determines; after a success cache and due snapshot hold the replay of the longer stream. |
| `DeciderAlone.UninterruptedStepsAreTheCall` | decider/decider.go:116-183 | A call whose steps nothing interrupts ends, with the world, the result and the publication that the full replay of its stream, the decision and the failed accesses determine. |
| `DeciderAlone.AloneInTheSystem` | decider/decider.go:116-183 | Those steps are a run of the concurrent system that leaves all other calls as they are. |
| `DeciderAlone.EveryCallAloneIsTheCall` | decider/decider.go:116-183 | So in every reachable state of the concurrent system, whatever ran before. |
| `DeciderObjects.Repository.constructor` | decider/decider.go:60-90 | A new repository has an empty cache and no snapshots. |
| `DeciderObjects.Repository.FoldEvents` | decider/load.go:49-72 | The loop computes the fold: the state to which applying every event in turn leads, or none because one of them is refused. |
| `DeciderObjects.Repository.PutState` | decider/cache.go:80-82 | Stores a grounded entry and keeps the cache sound. |
| `DeciderObjects.Repository.Invalidate` | decider/cache.go:84-86 | Drops one entry and keeps the cache sound. |
| `DeciderObjects.Repository.LoadFromStore` | decider/load.go:16-47 | Full replay, or failure when the store fails. |
| `DeciderObjects.Repository.LoadFromSnapshot` | decider/snapshot_load.go:25-72 | A snapshot is used unless both shapes are declared and differ; then its stream must exist and only the tail is read. Whatever it holds, a successful load is the full replay; with working reads the load is the full replay, failing or not, if and only if a snapshot that is used has a stream. |
| `DeciderObjects.Repository.LoadFromCache` | decider/load.go:230-267 | A hit is the full replay and refreshes the entry; anything else drops it. It is a hit if and only if there is an entry, the tail can be read and the replay succeeds. |
| `DeciderObjects.Repository.LoadUncached` | decider/decider.go:239-243 | Behind the cache, snapshot or replay, the load is the full replay, or fails exactly when a read it needs fails or a snapshot it uses has no stream. |
| `DeciderObjects.Repository.LoadCached` | decider/decider.go:213-258 | What a call loads, and what the load leaves in the cache, for every combination of failing reads. |
| `DeciderObjects.LoadsUnlessStranded` | decider/decider.go:213-258 | With working reads a load is the full replay, failing or not, if and only if it does not use a snapshot without a stream. |
| `DeciderObjects.Repository.LoadRef` | decider/decider.go:213-258 | A successful load is, whichever path served it, the state to which applying every event of the stream in turn leads, with the stream length as version; with working reads it is that replay, failing or not, if and only if it does not use a snapshot without a stream, and then fails only because an event is refused. |
| `DeciderObjects.Repository.Save` | storage/memory/store.go:52-76 | Appends if and only if the expected version is the stream length and the write works; an empty batch creates no stream. |
| `DeciderObjects.Repository.SaveSnapshotAfterEvents` | decider/snapshot_save.go:19-87 | Stores only a fold of the new events with its version, and only when due and encodable. |
| `DeciderObjects.Repository.UpdateCacheAfterExecute` | decider/snapshot_save.go:92-110 | Caches the fold of the new events, or drops the entry when the fold fails. |
| `DeciderObjects.Repository.AfterSave` | decider/decider.go:163-183 | After a save the batch is published or an error returned; published, the cache holds the replay of the whole stream with its length, or no entry where that fails, and so do the snapshots if one is due and can be encoded. |
| `DeciderObjects.Repository.SaveAndPublish` | decider/decider.go:134-183 | A batch onto the full replay is appended unless the save fails; the result names the first access that fails, and only a saved call publishes and changes cache and snapshots. |
| `DeciderObjects.Repository.DecideAndSave` | decider/decider.go:134-183 | After a load that is the full replay: rejected if and only if the decision refuses, no events if and only if it is empty, and otherwise the result of the first access that fails; the call saves if and only if it applies and the write works. |
| `DeciderObjects.Repository.ExecuteRef` | decider/decider.go:116-183 | A call leaves exactly what an uninterrupted run of its steps leaves: result, streams, cache, snapshots and publications. It is one step of the serial reference when it saves and leaves the streams alone otherwise; with working reads it is a load error, rejected or without events if and only if the replay and the decision say so; if nothing fails it saves if and only if it applies and does not use a snapshot without a stream. It makes no snapshot without a stream. |
| `ClaimTables.ClaimAlwaysPossible` | claiming/rich.go:39-66 | Whatever the table, some set of rows answers the claim. |
| `ClaimTables.ClaimTakesTheFirstCandidates` | claiming/rich.go:13-81 | A claim takes min(limit, candidates) due rows without a live lease, before every candidate it leaves, and touches nothing else, in particular no other keyspace. `ClaimInColumns` says the same in columns. |
| `ClaimTables.PicksTakeEarliest` | claiming/rich.go:68-81 | In columns: an answer of ORDER BY and LIMIT holds rows of the keyspace that are due, have no lease running and are not locked, as many as the limit allows, and none with a later due time than one it leaves, or a greater value of the caller's expression if there is one. |
| `ClaimTables.ClaimInColumns` | claiming/rich.go:13-81 | A claim takes such rows, earliest due first, gives each the new lease and, if configured, the owner, and changes no other row and no other column. |
| `ClaimTables.StampedRowsLeaveExactlyWhenLeaseIsLive` | claiming/rich.go:68-81 | Claimed rows stop being candidates if and only if the lease outlives the claim's clock. |
| `ClaimTables.DrainLeaves` | claiming/rich.go:149-202 | Successive claims only take rows out of the candidates, and how many are left. |
| `ClaimTables.BatchSize` | claiming/rich.go:149-202 | The i-th claim takes a full batch or the rest. |
| `ClaimTables.BatchesFollowClaimOrder` | claiming/spec.go:54-62 | Two claims of a drain are disjoint and follow claim order: no row of the earlier one is due later than a row of the later one, or has a greater value of the caller's expression if there is one. |
| `ClaimTables.DrainTakesCeilingManyClaims` | claiming/rich.go:149-202 | n candidates are drained exactly after ceil(n/k) claims of limit k, and exactly those claims are non-empty. |
| `ClaimTables.ExpiredLeaseNeverDrains` | claiming/rich.go:68-81 | A lease that does not outlive the clock claims the same rows for ever. |
| `ClaimStatements.ItoaReadsBack` | claiming/rich.go:305-311 | The digits read back as the number, so ordinals have distinct texts. |
| `ClaimBuilders.PostgresClaimStmt` | claiming/rich.go:83-142 | The counter and argument list grown step by step give the statement and arguments of the specification. |
| `ClaimBuilders.NumberedClaimStmt` | claiming/rich.go:149-202 | As above for SQLite and DuckDB. |
| `ClaimBuilders.MySQLClaimSelect` | claiming/rich.go:204-233 | As above for the locking SELECT. |
| `ClaimBuilders.MySQLStampStmt` | claiming/rich.go:240-274 | The loop binds one argument per id, in order, between the SET values and the filter. |
| `ClaimBuilders.ClaimStmt` | claiming/rich.go:53-66 | Each dialect gets its statement; an unknown one none. |
| `ClaimProofs.TextualOrder` | claiming/rich.go:83-274 | The placeholders of a statement's tokens, left to right, are those of its clauses in order. |
| `ClaimProofs.PostgresClaimIsBound` | claiming/rich.go:83-142 | For every Spec and parameter combination each placeholder has an argument and each argument a placeholder. |
| `ClaimProofs.NumberedClaimIsBound` | claiming/rich.go:149-202 | As above, in both placeholder styles. |
| `ClaimProofs.MySQLClaimIsBound` | claiming/rich.go:204-233 | Bound by position: the k-th `?` is the k-th argument. |
| `ClaimProofs.EveryDialectIsBound` | claiming/rich.go:53-66 | Each known dialect gets a statement bound in its own placeholder style; an unknown one gets none. |
| `ClaimTexts.ScanFindsPlaceholders` | claiming/rich.go:83-274 | Scanning rendered text finds exactly the placeholders of its tokens, in order, each with its own ordinal. |
| `ClaimTexts.StatementIsLegible` | claiming/rich.go:83-343 | In every statement no text holds a placeholder mark and no text runs on into an ordinal. |
| `ClaimTexts.TextCarriesThePlaceholders` | claiming/rich.go:83-343 | A driver scanning the text of any statement finds one placeholder per clause value in order, numbered as the clauses number it or bare. |
| `ClaimTexts.EveryClaimTextIsBound` | claiming/rich.go:53-66 | On every dialect the text of the claim names an argument at each placeholder and a placeholder for each argument. |
| `ClaimTexts.TextHasOnePlaceholderPerValueExactlyWhen` | claiming/rich.go:83-343 | Names are spliced in unquoted: a driver finds as many placeholders as the clauses have values if and only if no text of the statement holds the mark, and never fewer. |
| `ClaimClauses.ClauseMeans` | claiming/rich.go:68-81 | Every WHERE clause as written, a named column, an operator and a bound value, read as SQL reads it, NULL included, holds of a row if and only if the clause of the model does. |
| `ClaimClauses.WhereIsWritten` | claiming/rich.go:68-81 | Every WHERE clause is written as the conjunction of those. |
| `ClaimClauses.WhereMeans` | claiming/rich.go:68-81 | That conjunction holds of exactly the rows that the statement works on. |
| `ClaimClauses.ClaimWhereSaysCandidate` | claiming/rich.go:53-81 | On every dialect the WHERE clause of the claim, so read, holds of a row if and only if it is due, not leased and in the keyspace asked for. |
| `ClaimClauses.SetsMean` | claiming/rich.go:83-100 | The assignments as written change a row as the claim should. |
| `ClaimClauses.OrderMeans` | claiming/rich.go:83-144 | Without an ORDER BY of the caller's the statement says, and the claim follows, the due column in ascending order. |
| `ClaimClauses.JoinMeans` | claiming/rich.go:121-143 | The UPDATE writes exactly the rows that agree with a picked row on the columns that it is written to join on. |
| `ClaimLayouts.EveryStatementIsText` | claiming/rich.go:83-343 | Every statement in every placeholder style, as one string of its names, clauses, assignments and keywords. |
| `ClaimProofs.MySQLStampIsBound` | claiming/rich.go:235-274 | As above, for every id list. |
| `ClaimProofs.ClaimPredsMean` | claiming/rich.go:68-81 | The bound WHERE clause selects exactly the candidates. |
| `ClaimProofs.UpdateMeansStamp` | claiming/rich.go:83-202 | The bound SET clause stamps lease and owner and nothing else. |
| `ClaimProofs.JoinGivesBack` | claiming/rich.go:83-142 | Where ids identify rows, the join of the UPDATE gives back exactly the rows picked. |
| `ClaimProofs.PostgresRunMeans` | claiming/rich.go:83-142 | What a run of the bound Postgres statement picks, writes and leaves on any table: the rows joined to the picked ones are stamped. |
| `ClaimProofs.NumberedRunMeans` | claiming/rich.go:149-202 | The same for SQLite and DuckDB: the joined rows that pass the WHERE clause again are stamped. |
| `ClaimProofs.PostgresClaimMeans` | claiming/rich.go:83-142 | Where ids identify rows, running the bound Postgres statement is the relational claim, in both directions. |
| `ClaimProofs.NumberedClaimMeans` | claiming/rich.go:149-202 | So is the SQLite and DuckDB statement. |
| `ClaimProofs.MySQLSelectMeans` | claiming/rich.go:204-233 | The locking SELECT picks what the relational claim picks. |
| `ClaimProofs.StampMatches` | claiming/rich.go:235-274 | The stamp's WHERE matches exactly the rows picked, though it only knows their ids. |
| `ClaimProofs.MySQLClaimMeans` | claiming/rich.go:204-274 | The two MySQL statements together are the relational claim, so the three dialects agree up to ties. |
| `ClaimProofs.PostgresStaysExactlyWhen` | claiming/rich.go:83-142 | Without a filter, every run at every limit writes only picked rows if and only if no candidate shares its id with another row of the table. |
| `ClaimProofs.NumberedStaysExactlyWhen` | claiming/rich.go:149-202 | On SQLite and DuckDB if and only if no two candidates share an id. |
| `ClaimProofs.MySQLStaysExactlyWhen` | claiming/rich.go:204-274 | On MySQL the condition is that of Postgres. |
| `ClaimProofs.SharedIdIsStampedThoughNotDue` | claiming/rich.go:83-142 | A table with one id in two keyspaces where a row that is not due gets stamped. |
| `ClaimProofs.ZeroParamsBuildTheLegacyStatements` | claiming/stmt.go:14-71 | With zero-valued optional fields the Postgres and MySQL builders build the legacy claims, text and arguments alike. |
| `ClaimProofs.LegacyStampDiffersInSpacingOnly` | claiming/mysql.go:20-38 | With them the MySQL stamp differs from the legacy one in the spacing of its id list only: same placeholders, arguments and effect on every table. |
| `ClaimProofs.NumberedClaimRefinesLegacySQLite` | claiming/stmt.go:39-48 | With them the ordered IN form changes the table exactly as the legacy UPDATE. |
| `ClaimTransactions.ReplayAppend` | claiming/rich.go:204-274 | Replaying a longer log of atomic claims and outside writes is replaying the shorter one and its last act. |
| `ClaimTransactions.SkippedRowsStayDisjoint` | claiming/stmt.go:50-58 | Skipping locked rows keeps the rows of open transactions disjoint. |
| `ClaimTransactions.LockRowsKeepsInv` | claiming/rich.go:204-233 | Locking keeps every transaction's rows due, free and its own. |
| `ClaimTransactions.StampIdsKeepsInv` | claiming/rich.go:240-274 | Stamping by id without looking again matches exactly the locked rows. |
| `ClaimTransactions.CommitKeepsInv` | claiming/mysql.go:11-44 | A commit is one atomic claim on the table it meets. |
| `ClaimTransactions.EndFreesItsRows` | claiming/mysql.go:11-44 | A transaction that commits or crashes frees the rows it locked and no others. |
| `ClaimTransactions.CrashLeavesItsRowsClaimable` | claiming/mysql.go:11-44 | A crash changes no row, and every row that it had locked may be claimed at once. |
| `ClaimTransactions.WriteKeepsInv` | claiming/mysql.go:11-16 | Writers that wait for row locks disturb no open transaction. |
| `ClaimTransactions.StepKeepsInv` | claiming/rich.go:204-274 | Every step, crashes included, keeps the invariant. |
| `ClaimTransactions.RunKeepsInv` | claiming/rich.go:204-274 | So does every run. |
| `ClaimTransactions.RunLocksFirst` | claiming/rich.go:204-233 | In every run each transaction and each committed claim locked its rows in a step of its own, as the first candidates in claim order, up to its limit, that no transaction open at that moment had locked. |
| `ClaimTransactions.TransactionsRefineAtomicClaims` | claiming/rich.go:204-274 | Every interleaving is a sequence of atomic claims in commit order; each took, by order and limit, the first candidates of the table it met that were not in the hands of open transactions; rows stamped were still due and free at commit; no row is in the hands of two open transactions. |
| `ClaimTransactions.CommittedClaimsTakeTheEarliest` | claiming/rich.go:204-274 | In columns, for every committed claim of every interleaving: it took due and unleased rows of its keyspace, at most its limit and all that were free below it, and none of those it left was due earlier, or came earlier in the caller's order, than one it took. |
| `ClaimTransactions.LoneTransactionIsTheClaim` | claiming/rich.go:204-274 | Alone, lock, stamp and commit are the relational claim. |
| `Leases.RenewalMeans` | claiming/stmt.go:78-100 | The fence-only renewal writes every live row with the id, whoever holds it, and nothing else. |
| `Leases.ScopedRenewalMeans` | claiming/rich.go:316-343 | The scoped renewal writes the one row of the keyspace if it is live for the caller, and nothing otherwise. |
| `Leases.OwnedRenewalMeans` | claiming/rich.go:279-303 | Where ids are unique the owner-fenced renewal does the same. |
| `Leases.OwnedRenewalWritesTheCallersRows` | claiming/rich.go:279-320 | On every table the owner-fenced renewal writes every row with the id that is live for the caller; without a filter column the scoped one does the same. |
| `Leases.ScopeIsDroppedWithoutOwnerColumn` | claiming/rich.go:316-343 | Without an owner column both renewals fall back to the fence alone, in every keyspace. |
| `Leases.RenewalsAreBound` | claiming/rich.go:279-343 | All renewals bind every placeholder, in every style. |
| `Leases.ClaimKeepsInv` | claiming/rich.go:68-81 | An owner-stamped claim keeps running grants and running leases the same thing, however old the clock it was built with. |
| `Leases.RenewKeepsInv` | claiming/rich.go:279-303 | So does a renewal, granted or refused, of an existing row or a deleted one, however late it takes effect. `RenewalGrants` says what it changes. |
| `Leases.RenewStepIsTheScopedRenewal` | claiming/rich.go:316-343 | A renewal step leaves the table that a run of the scoped renewal leaves, and no other: it writes its row if it succeeds, and nothing otherwise. |
| `Leases.RenewStepIsTheOwnedRenewal` | claiming/rich.go:279-303 | Where ids are unique it is a run of the owner-fenced renewal too. |
| `Leases.RenewalGrants` | claiming/claiming.go:69-76 | After a renewal that succeeds the worker believes it holds the row at a moment if and only if that is before the new end, and the row says so; after one that fails it believes nothing of the row. Nobody else's belief and no other row changes. |
| `Leases.ClaimGrants` | claiming/claiming.go:1-7 | After a claim its worker believes it holds each picked row at a moment if and only if that is before the end of the lease, and the row says so; nobody else's belief and no other row changes. |
| `Leases.WriteKeepsInv` | claiming/spec.go:20-23 | So do writers that leave leases alone, delete rows, and insert free rows under keys without a running grant. |
| `Leases.RunKeepsInv` | claiming/rich.go:279-303 | So does every run. |
| `Leases.RenewalSucceedsExactlyForTheHolder` | claiming/claiming.go:69-76 | A renewal succeeds if and only if its row exists and its caller holds a running grant. |
| `Leases.AtMostOneHolder` | claiming/claiming.go:1-7 | In every run, at every later moment, at most one worker believes it holds a row, and exactly that one can renew it while the row exists. |
| `Leases.ReinsertedRowHasTwoBelievers` | claiming/rich.go:68-81 | A row deleted under a running grant and inserted again can be claimed by a second worker, and then two believe they hold it. |
| `Leases.FenceOnlyRenewalStealsALease` | claiming/rich.go:279-283 | Without an owner column a worker whose lease ran out extends the next holder's lease. |
| `Leases.OwnerlessClaimLeavesThePreviousOwner` | claiming/rich.go:83-142 | A claim without an owner value leaves the previous owner, who can then renew it. |
| `LeaseTransactions.RenewalWaitsOnlyForItsRow` | claiming/rich.go:279-303 | A renewal has to wait only for a transaction that has locked its row. |
| `LeaseTransactions.StepIsALeaseStep` | claiming/rich.go:204-274 | A commit is, on the committed leases, an atomic owner-stamped claim; renewals and writes are themselves; every other step of a transaction changes nothing. |
| `LeaseTransactions.RunIsALeaseRun` | claiming/rich.go:204-274 | So every interleaving of transactions, renewals and writers is a run of the atomic lease system in commit order. |
| `LeaseTransactions.TransactionsHaveOneHolder` | claiming/mysql.go:11-44 | In every such interleaving, although each transaction chose its rows by a clock older than its commit, at most one worker believes it holds a row, and exactly that one can renew it while the row exists. |
| `Reservoirs.AllDrawsAreTheValidOnes` | benchkit/metrics.go:103-107 | The enumeration the counts range over is exactly the sequences of in-range random indices. |
| `Reservoirs.EachDrawIsListedOnce` | benchkit/metrics.go:103-107 | It lists each of them once. |
| `Reservoirs.SampleIsDistinct` | benchkit/metrics.go:98-107 | The reservoir always holds different positions of samples recorded so far. |
| `Reservoirs.EverySampleIsRetainedEquallyOften` | benchkit/metrics.go:81-108 | For n samples and capacity m, each sample is retained in exactly m/n of all index sequences. |
| `Reservoirs.EverySubsetIsRetainedEquallyOften` | benchkit/metrics.go:81-108 | Each m-subset of m + k samples is what is retained in exactly k! of them: uniform over subsets. |
| `LatencyStatistics.MinIsExactExactlyWhen` | benchkit/metrics.go:90-92 | `Min` is the true minimum if and only if some sample is negative, none is zero, or the latest is zero; so for positive samples always. |
| `LatencyStatistics.ZeroIsForgotten` | benchkit/metrics.go:90-92 | Samples 0, 5 report a minimum of 5. |
| `LatencyStatistics.MinIsLeastAfterTheLastZero` | benchkit/metrics.go:90-92 | Without negative samples `Min` is the least sample recorded after the last zero. |
| `LatencyStatistics.MaxIsExactExactlyWhen` | benchkit/metrics.go:94-96 | `P100` is the true maximum if and only if some sample is not negative, and 0 otherwise. |
| `LatencyStatistics.MeanIsBetween` | benchkit/metrics.go:148-148 | The truncated mean lies between any bounds of the samples, negative ones included. |
| `LatencyStatistics.SumAddsUp` | benchkit/metrics.go:88-88 | The running sum of any history, split anywhere, is the sum of its parts. |
| `LatencyStatistics.MeanField` | benchkit/metrics.go:135-149 | The count is the number of samples ever recorded, and the mean their sum over it, with the remainder dropped towards zero. |
| `LatencyStatistics.SortSorts` | benchkit/metrics.go:133-133 | Sorting orders the samples and keeps their multiset. |
| `LatencyStatistics.SortIsUnique` | benchkit/metrics.go:133-133 | Every sorting algorithm returns the same sequence. |
| `LatencyStatistics.PercentileGrows` | benchkit/metrics.go:155-167 | The default percentile never falls as p grows. |
| `LatencyStatistics.PercentileCovers` | benchkit/metrics.go:155-167 | At least p percent of the retained samples are at most the default p-th percentile. |
| `LatencyStatistics.PercentileRanksAt` | benchkit/metrics.go:155-167 | The default p-th percentile is the retained sample with index ceil(n * p / 100), or n - 1 at the top, in sorted order: at most that many are less, and more than that many are not greater. |
| `LatencyStatistics.RankedFields` | benchkit/metrics.go:135-149 | Each of P50, P75, P90, P95 and P99 is the percentile that its name says, of the retained samples. |
| `LatencyStatistics.NearestRankIsLeast` | benchkit/metrics.go:153-154 | The documented rank is the least sample that p percent of the samples do not exceed. |
| `LatencyStatistics.IndexIsNearestRankExactlyAtTheEnd` | benchkit/metrics.go:153-166 | The code reads the documented rank if and only if n * p > 100 * (n - 1), and the sample one above it otherwise. |
| `LatencyStatistics.MedianOfFive` | benchkit/metrics.go:43-50 | P50 of five samples is the fourth smallest, not the third. |
| `LatencyStatistics.InterpolatedExactly` | benchkit/metrics.go:173-194 | Without rounding the interpolation equals a rule in whole numbers. |
| `LatencyStatistics.InterpolatedIsBetween` | benchkit/metrics.go:169-194 | Under every rounding that keeps order and whole numbers up to 2^53, the interpolated value lies between the two samples around its rank. |
| `LatencyStatistics.InterpolatedFields` | benchkit/metrics.go:135-194 | In exact arithmetic each interpolated percentile lies at its own rank p * (n - 1) / 100 between the two retained samples around it, its fraction rounded down. |
| `LatencyStatistics.RoundedFields` | benchkit/metrics.go:135-194 | Under every such rounding each lies between the two samples around its own rank. |
| `LatencyStatistics.InterpolatedGrows` | benchkit/metrics.go:173-194 | Under every such rounding it never falls as p grows. |
| `LatencyStatistics.RetainedStep` | benchkit/metrics.go:98-107 | Recording into a full reservoir overwrites exactly the drawn slot, if the draw names one. |
| `LatencyStatistics.RetainedIsSubMultiset` | benchkit/metrics.go:98-107 | The retained samples are a sub-multiset of the history for any draws; their number is min(count, maxLen). |
| `LatencyStatistics.StatsAreOrdered` | benchkit/metrics.go:110-151 | For any history whose extremes are tracked, any draws, both modes and any such rounding: Min and P100 are the true extremes, Min <= P50 <= P75 <= P90 <= P95 <= P99 <= P100 and Min <= Mean <= P100. What each field is, `StatsMean` says. |
| `LatencyObjects.StatsMean` | benchkit/metrics.go:110-151 | All of this about one history: the count, the mean, every percentile at its own rank in both modes, the extremes and the order. |
| `LatencyStatistics.ExactStatsAreOrdered` | benchkit/metrics.go:110-151 | In exact arithmetic, which is such a rounding, the interpolated statistics are ordered with nothing asked of the machine. |
| `LatencyStatistics.PositiveSamplesTrackExtremes` | benchkit/metrics.go:83-96 | Positive samples always track their extremes. |
| `LatencyObjects.LatencyCollector.constructor` | benchkit/metrics.go:63-79 | A limit <= 0 means 10000. |
| `LatencyObjects.LatencyCollector.Record` | benchkit/metrics.go:83-108 | Updates every field so that it is the specified function of the longer history and draws. |
| `LatencyObjects.LatencyCollector.Stats` | benchkit/metrics.go:118-151 | Reports the count, the truncated mean of all samples, each percentile at its own rank of the retained ones in both modes, and the tracked extremes; all zero without samples, in order where extremes are tracked. |
| `WorkerPool.Workers` | benchkit/runner_concurrent.go:164-170 | The clamps give min(max(1, concurrency), max(0, total)) workers: none if and only if there is no work, at most one if and only if total or concurrency is at most 1. |
| `WorkerPool.FillsUp` | benchkit/runner_concurrent.go:172-211 | For every k up to that number a run after which k operations are in flight at once. |
| `WorkerPool.AccountedStep` | benchkit/runner_concurrent.go:185-211 | Every index sent stays in flight with one worker, succeeded or failed, and in only one of these. |
| `WorkerPool.ReportingStep` | benchkit/runner_concurrent.go:188-194 | Every failure is on its way to the error channel or has been reported. |
| `WorkerPool.FirstReportStep` | benchkit/runner_concurrent.go:188-216 | The channel, and then the result, holds the first report. |
| `WorkerPool.StoppingStep` | benchkit/runner_concurrent.go:185-216 | Nobody stops early without a failure or an outside cancellation. |
| `WorkerPool.StepKeepsInv` | benchkit/runner_concurrent.go:159-216 | Every step keeps all of this. |
| `WorkerPool.RunKeepsInv` | benchkit/runner_concurrent.go:159-216 | So does every run. |
| `WorkerPool.StepMeasure` | benchkit/runner_concurrent.go:159-216 | Every step lowers a measure, so no run goes on for ever. |
| `WorkerPool.RunMeasure` | benchkit/runner_concurrent.go:159-216 | A run is no longer than the drop of the measure. |
| `WorkerPool.NeverStuck` | benchkit/runner_concurrent.go:159-216 | Until the caller has returned and the feeder has ended some step is possible: no deadlock, no blocked send, no leaked goroutine. |
| `WorkerPool.ReturnedResult` | benchkit/runner_concurrent.go:157-158 | An error is returned if and only if an operation failed, and it is a failed operation's; without failure or cancellation every index succeeded. |
| `WorkerPool.EveryRunIsRight` | benchkit/runner_concurrent.go:157-216 | Every run has at most 6 * total + workers + 3 steps, starts indices in order and each at most once, with at most `Workers` at a time, and returns the right result. |
| `WorkerPool.CanReturn` | benchkit/runner_concurrent.go:159-216 | From every reachable state some run goes on to the caller's return. |
| `WorkerPool.CanceledRunReturnsNoError` | benchkit/runner_concurrent.go:198-216 | For every total >= 1 and every concurrency, a cancelled run that returns no error although no index ran. |
| `WorkerPool.NoErrorMeansCompleteExactlyWhen` | benchkit/runner_concurrent.go:157-216 | Every run without an error has run every index if and only if the caller cannot cancel or there is nothing to run. |
| `WorkerPool.FirstFailureCanLoseTheRace` | benchkit/runner_concurrent.go:157-158 | For every total and concurrency of at least 2, a run that returns the error of the operation that failed second. |
| `WorkerPool.FirstErrorIsFirstFailureExactlyWhen` | benchkit/runner_concurrent.go:157-158 | Every run that returns an error returns the first failure if and only if total or concurrency is at most 1, so that there is at most one worker. |
| `Discoveries.FirstSeenIsExact` | benchkit/runner_discovery.go:96-120 | The reference list holds exactly the events that are first with their stream id, in journal order. |
| `Discoveries.EveryStreamIsFoundExactlyWhen` | benchkit/runner_discovery.go:103-118 | Without a cap every stream is found if and only if no id is used under two stream types. |
| `Discoveries.SharedIdHidesAStream` | benchkit/runner_discovery.go:103-118 | Of two streams of different types that share an id, the second is not found. |
| `Discoveries.EveryIdIsListed` | benchkit/runner_discovery.go:103-118 | Every event shares its stream id with a listed stream. |
| `Discoveries.ListedOnce` | benchkit/runner_discovery.go:103-118 | No two listed streams share an id. |
| `Discoveries.PositionOfIsLast` | storage/memory/log_store.go:110-120 | The id index gives the last position of an id, also of one stored twice. |
| `Discoveries.ReadFromContinues` | storage/memory/log_store.go:196-224 | Reading after the last event read returns the events behind the last visible one with that id, up to the limit. |
| `Discoveries.SkipsNothingExactlyWhen` | storage/memory/log_store.go:196-224 | The next page starts where the last one ended if and only if the last id read is not visible again. |
| `Discoveries.ReadOrSkipped` | benchkit/runner_discovery.go:58-76 | Conservation: after any number of reads of any journal, every event up to the end of the last page was read once or skipped. |
| `Discoveries.UnskippedIsPrefix` | benchkit/runner_discovery.go:58-76 | Without a skip, what was read is a prefix of the journal, in order. |
| `Discoveries.PagingCoversAPrefix` | benchkit/runner_discovery.go:49-79 | When no full page's last id occurs again, paging a journal that may grow meanwhile covers a prefix of it: all its last read saw, or the full pages before the read that failed or was cancelled. |
| `Discoveries.PagingIsCompleteExactlyWhen` | benchkit/runner_discovery.go:46-79 | Paging a quiet journal reads all of it if and only if no full page's last id occurs again and nothing stops it before its last event is read. |
| `Discoveries.StoppedPagingFallsShort` | benchkit/runner_discovery.go:60-63 | However late a read fails or the context is cancelled, a journal of which paging then reads less than all. |
| `Discoveries.RepeatedIdFallsShort` | benchkit/runner_discovery.go:58-76 | A journal of 1001 events with one id, of which paging reads less than all. |
| `DiscoveryObjects.Runner.CollectStreamIDs` | benchkit/runner_discovery.go:98-120 | Collecting a page on top of a prefix leaves what one scan of both would. |
| `DiscoveryObjects.Runner.TakePage` | benchkit/runner_discovery.go:60-76 | One turn of the paging loop reads the next page and leaves what one scan of all pages so far would. |
| `DiscoveryObjects.Runner.DiscoverFromSeekable` | benchkit/runner_discovery.go:49-79 | Paging terminates, goes on after every full page until a short one, a failed read or a cancellation, and leaves the total and what one scan of its pages would. |
| `DiscoveryObjects.Runner.DiscoverFromJournal` | benchkit/runner_discovery.go:83-94 | One scan finds the same; a failed read finds nothing. |
| `DiscoveryObjects.Runner.DiscoverStreams` | benchkit/runner_discovery.go:19-44 | Whole discovery gives the total and the streams of the journal in the order they first appear, all of them or the first `maxStreams`; paged discovery of a quiet journal gives the same total, and then the same streams, if and only if no full page's last id occurs again and nothing stops it early, and reports no error either way. |

## Left out

- SQL text: clauses, assignments, the default order and the join are read as SQL reads comparisons of named columns; that a server parses whole statements, that FOR UPDATE SKIP LOCKED locks and skips, and what an ORDER BY expression of the caller's evaluates to is taken as given.
- ClaimClauses.WhereMeans: asks that the columns a spec names have different names; a model row has one value for each of them.
- ClaimTexts.TextCarriesThePlaceholders: asks that no table or column name holds the placeholder mark itself; `TextHasOnePlaceholderPerValueExactlyWhen` shows what happens otherwise.
- SQL engines and isolation levels: row locks, SKIP LOCKED and atomic statements are modelled as steps; lock waits, deadlock detection and phantom reads are not.
- An empty id list for the stamp statement: it is built and bound as the source does, and matches no row; servers that refuse `IN ()` are not modelled.
- Fixed integer widths: versions, counters and durations are unbounded integers; the wrap-around of the 64-bit sum behind the mean is not modelled.
- LatencyStatistics.InterpolatedExactly: states the exact value without rounding; under rounding only its order and its bounds are stated.
- LatencyStatistics.Rounds: every floating-point operation rounds by itself; the fused multiply-and-subtract that Go may use for the fraction of a rank on some platforms is not modelled.
- LatencyStatistics.InterpolatedIsBetween: asks that the number of samples and their differences stay within 2^53, where 64-bit floating point is exact (differences of up to 104 days).
- LatencyStatistics.SortSorts: `slices.Sort` is a library call, modelled as a function on values rather than in place; `SortIsUnique` shows that its result does not depend on the algorithm.
- LatencyStatistics.StatsAreOrdered: asks that the extremes are tracked, the exact condition of the two lemmas on Min and P100, because outside it Min itself is wrong.
- DiscoveryObjects.Runner.DiscoverFromSeekable: asks that no event has the zero id, which the id generator provides: behind a full page that ends with one the source reads the first page again, for ever. The `seen` map is passed and returned as a value. A negative `maxStreams` makes the source panic when it allocates, so `DiscoverStreams` asks for a natural number.
- LifecycleSystem.EveryDispatchRunsAsIfAlone: asks for at most 1024 commands in flight, the exact condition of `RunsAsIfAloneExactlyWhen`, and for distinct ids.
- The unpaired `Middleware` and `AttemptMiddleware` constructors, whose halves do not share a tracker.
- Recorders.AnyCapacityWritesTheSame: asks that no seed load fails, because the two recorders load at different moments; its condition on event-creation failures speaks of the emissions alone and is sufficient, the exact one is in `SameStreamsExactlyWhenAbsorbed`.
- Recorders.SameStreamsExactlyWhenAbsorbed: asks that no seed load fails, as above.
- Leases.AtMostOneHolder: every worker claims with its own owner value and renews with the owner fence, and the moments spoken of are not before the latest clock reading used; writers leave leases alone and do not insert under a running grant, as `ReinsertedRowHasTwoBelievers` shows is needed; the fence-only renewal has no such guarantee, as its lemma shows.
- ClaimProofs.PostgresClaimMeans: asks that ids are unique in the table or the claim is filtered to one keyspace, as the lemmas on shared ids show is needed.
- DeciderSystem.EveryPublicationIsCommitted: a repository without a publisher publishes nothing; what a publisher does with a batch it refuses is not modelled.
- DeciderSystem.EveryRunIsSerial: load coalescing and lagging reads are modelled as reads of any prefix; the singleflight group itself and the cache's admission policy are not.
- WorkerPool.EveryRunIsRight: an operation is a step that ends in success or failure, so it is taken to terminate; goroutines and channels are steps, not objects.
- Time-travel loads, command and query buses, and the typed stores: thin wrappers around what is modelled.
- Tracing, metrics, logging, error texts, metadata, enrichers and payload codecs other than the law that decoding undoes encoding.
- The catalog: registering and copying message descriptions, display names and one-pass validation.
- claiming/migrate.go: probing a database for columns and running its DDL.
- The benchkit phases, reports, JSON artifacts, sweeps, soak trends and environment probes: timing, input and output around the algorithms.
- The metaengine, queue, scheduling and projection packages.
