# Consistency protocols of the qx framework, verified in Dafny

The project models the parts of the framework that promise something about every interleaving, crash or retry, and
a few algorithms with exact specifications. Tables are maps or sequences, one committed transaction or one Lua script
is one atomic step, and a publish is a step that may fail or be followed by a crash. Code that changes state is a class
whose methods are proved equal to functions on values; the theorems are about every run of those functions.

| files | what they model |
|---|---|
| `EventStore`, `EventStoreRuns` | event-sourced aggregates, optimistic appends, snapshots |
| `UnitOfWork`, `Relay`, `OutboxRuns` | unit of work, outbox rows, sharded relays, broker |
| `Saga`, `SagaRuns` | saga rows, manager, compensation, timeouts |
| `TokenBucket` | the rate limiter script and its key expiry |
| `Container`, `ContainerLaws`, `ContainerOverrides` | dependency resolution, lifetimes, overrides |
| `Idempotency`, `Pipeline` | the idempotency store and behavior, behavior chain, retry and transaction |
| `Projections`, `ProjectionRuns` | the projection runner, and its batches interleaved with appends |
| `OrderService`, `OrderSnapshots`, `OrderCommands` | order aggregate, its snapshots and command handlers |
| `OrderProjectionRuns`, `OrderOverlaps` | the order summary under runs that die, and under runs that overlap |
| `Replicator`, `ReplicatorRuns`, `Uuids` | the region replicator, its cursor, and its steps interleaved with the local relay |
| `Search`, `Cursor`, `DistributedLock` | in-memory search, cursor text, the lock |
| `Options`, `Sorting`, `Batches`, `Lexicographic`, `Json`, `Bytes` | shared definitions |

`dafny verify dfyconfig.toml` checks everything.

## Where the code differs from what is said about it

Each of these is proved with the exact condition under which the promise holds, or with a run that breaks it.

- A default from a factory is set by the constructor and by a snapshot, but not by a full replay
  (`PublicFieldsAreFaithfulIff`, `LoadEqualsReplayIff`).
- Snapshots drop fields that are private or not declared as dataclass fields. `Order` declares none, so any snapshot of
  it loses all it was placed with (`LoadEqualsReplayIff`, `SnapshotLosesOrder`, `SnapshotIsReachedIff`), and an order
  whose newest event is covered by a snapshot cannot be confirmed and can be cancelled again (`ActsOnReplayIff`,
  `OnlyLifeCyclesIff`).
- An append drains its buffer first, so after a version conflict the events are gone and repeating the append answers
  success (`RetriedConflictIsSilent`).
- The order handlers ignore what the append returns, so a command overtaken by another one is answered with success
  (`SuccessIsRecordedIff`).
- A unit of work whose commit took effect but whose acknowledgement was lost is marked rolled back
  (`RolledBackHasRowIff`, `FailedCommitLeavesRowIff`), and two equal aggregates that are different objects are not both
  drained (`AllDrainedIff`).
- A saga whose timeout handler marks failure is stored as compensated without a call of `compensate`, and the two
  flags have opposite precedence on the two paths (`CompensatedWithoutCompensateIff`, `FlagPrecedence`).
- The expiry of a token bucket is harmless for refill rates of 0.0005 per second and above, and for empty buckets
  (`ExpiryHarmlessIff`); a clock that steps back between the ends of a window can grant it too much
  (`WindowsHoldIffClockSteady`).
- A scoped provider cannot use another scoped one; a singleton that needs an uncached singleton of the same container
  is never built; a singleton first built inside an override keeps the replacement (`ScopedSucceedsIff`,
  `ScopedCannotUseScoped`, `SingletonSucceedsIff`, `SingletonOnSingletonHangs`, `OverrideLeavesCachesIff`,
  `HarmlessRequests`, `OverrideLeaksIntoDependents`).
- A null result makes the handler run again, and a key whose first request failed refuses everyone until it expires
  (`AtMostOnceIff`, `AbandonedForever`).
- The documentation of the retry behavior promises a fresh transaction for each attempt; in the recommended order all
  attempts share one (`RetryIsFreshIff`).
- A rebuild applies one batch, not the whole log (`RebuildThenCatchUpIff`); rows of other streams are lost because
  sequences count per aggregate (`SecondStreamIsLost`). Nothing keeps runs and rebuilds of several processes apart:
  overlapping ones apply rows twice or skip them (`ExactlyOnceIff`, `ModelIsFoldToCheckpointIff`,
  `OverlappingRunsApplyTwice`, `RebuildOverlapLoses`).
- Summary handlers are idempotent for batches but not for single events (`Absorb`, `ReplayingTwiceIff`); a rebuild
  that dies early leaves rows missing (`InterruptedRebuildIff`); a total above 32 bits stops the projection
  (`CatchesUpIff`, `SomeRunPassesIff`); an attempt overtaken by another one can set a cancelled order back for good
  (`AlwaysRepairableIff`, `SlowRunUncancels`).
- The replicator skips rows that become published behind its checkpoint, or behind what its batch in flight is about to
  commit, for good, and sends rows again after a lost commit (`NeverGapsIff`, `GapIsForever`, `ResendsIff`).
- The two ways to scroll differ for batch sizes below one (`ScrollsAgreeIff`).
- `renew` with a time-to-live below one reports success and deletes the lock; an unheard renewal that shortens a lease
  breaks mutual exclusion (`RenewedIsHeldIff`, `AlwaysBackedIff`, `UnheardRenewalSplits`).


## Model

| member | source | states |
|---|---|---|
| EventSourcing.Aggregate.RecordEvent | packages/qx-eventstore/src/qx/eventstore/aggregate.py:45-48 | records an event: the buffer grows by it and the state is its application, nothing else changes |
| EventSourcing.Aggregate.PullEvents | packages/qx-eventstore/src/qx/eventstore/aggregate.py:50-54 | returns the whole buffer and leaves it empty |
| EventSourcing.Aggregate.ReplayEvents | packages/qx-eventstore/src/qx/eventstore/aggregate.py:67-75 | the loop computes the fold of the apply methods and sets the version, without buffering |
| EventSourcing.Aggregate.Restore | packages/qx-eventstore/src/qx/eventstore/store.py:223-245 | restoring takes public fields from the stored state, else their defaults; private fields are never set |
| EventSourcing.EventStore.Append | packages/qx-eventstore/src/qx/eventstore/store.py:71-125 | new log, snapshot, handle and outcome of one append for every buffer, version and fault; the buffer is empty afterwards and the fields stay, whatever the outcome |
| EventSourcing.EventStore.LoadAggregate | packages/qx-eventstore/src/qx/eventstore/store.py:127-176 | loads nothing, the history replayed on an instance without factory defaults, or snapshot plus tail, with the version of the last row |
| EventStoreRuns.AppendVerdict | packages/qx-eventstore/src/qx/eventstore/store.py:83-125 | on a well-formed log an append conflicts exactly when the handle is behind, and otherwise extends the log by its own events |
| EventStoreRuns.AppendAnswers | packages/qx-eventstore/src/qx/eventstore/store.py:83-125 | on any store: which of the four outcomes an append has, the rows and the snapshot it writes, and that the buffer is drained in every case |
| EventStoreRuns.RetriedConflictIsSilent | packages/qx-eventstore/src/qx/eventstore/store.py:83-117 | a conflict loses the buffered events: until the instance records again, every retried append answers success at the old version and stores nothing |
| EventStoreRuns.TailInOrder | packages/qx-eventstore/src/qx/eventstore/store.py:153-162 | the rows read after a snapshot are all later ones, in sequence order |
| EventStoreRuns.RestoreSets | packages/qx-eventstore/src/qx/eventstore/store.py:223-245 | restoring sets a public field from the state, else from its default, and nothing else |
| EventStoreRuns.DefaultsSet | packages/qx-eventstore/src/qx/eventstore/aggregate.py:77-90 | a constructed instance has all defaults, one made for replay only the plain ones |
| EventStoreRuns.EveryRunLogOk | packages/qx-eventstore/src/qx/eventstore/store.py:83-125 | in every interleaving of any number of handles stored sequences are exactly 1..n and the log is only ever extended |
| EventStoreRuns.ConflictIsForever | packages/qx-eventstore/src/qx/eventstore/store.py:83-117 | a handle that met a conflict never again appends a non-empty batch, whatever anyone does |
| EventStoreRuns.SnapshotRoundTrip | packages/qx-eventstore/src/qx/eventstore/store.py:216-245 | restoring a snapshot gives the state back exactly when it holds nothing but public dataclass fields |
| EventStoreRuns.PublicFieldsAreFaithfulIff | packages/qx-eventstore/src/qx/eventstore/aggregate.py:77-90 | where all fields are public with defaults and apply methods set no others, snapshots are faithful if and only if no default comes from a factory |
| EventStoreRuns.LoadIsFullReplay | packages/qx-eventstore/src/qx/eventstore/store.py:139-176 | snapshot plus tail equals the replay of the whole log when the snapshot restores to a replayed prefix |
| EventStoreRuns.EveryRunWorldOk | packages/qx-eventstore/src/qx/eventstore/store.py:83-125 | every reachable handle is in sync with the log or behind it, and every snapshot at version v restores to the replay of the first v events |
| EventStoreRuns.NoLostUpdate | packages/qx-eventstore/src/qx/eventstore/store.py:83-125 | a successful append was decided on the whole log, replayed or recorded by the instance itself: no write rests on a stale state |
| EventStoreRuns.LoadEqualsReplayIff | packages/qx-eventstore/src/qx/eventstore/store.py:139-176 | over all runs load equals full replay if and only if snapshots of the class lose no field a replay sets and add none, factory defaults included |
| UnitOfWork.Unit.Track | packages/qx-db/src/qx/db/uow/__init__.py:76-84 | tracks an aggregate unless an equal one is tracked |
| UnitOfWork.AllDrainedIff | packages/qx-core/src/qx/core/entities/__init__.py:127-130 | every aggregate handed to `track` is drained at commit if and only if equal ones among them are one object |
| UnitOfWork.Unit.Drain | packages/qx-db/src/qx/db/uow/__init__.py:100-119 | empties every tracked buffer and returns the stamped events of both kinds in tracking order |
| UnitOfWork.Unit.Write | packages/qx-db/src/qx/db/uow/__init__.py:121-130 | dispatch, outbox rows and commit in one transaction, with the outcome of each possible failure |
| UnitOfWork.Unit.Commit | packages/qx-db/src/qx/db/uow/__init__.py:86-130 | the whole commit: drained buffers, new table, flags and outcome; after success the new rows carry the tracked integration events one by one and in order, enriched from the context |
| UnitOfWork.OfKindPicks | packages/qx-db/src/qx/db/uow/__init__.py:100-119 | draining picks exactly the events of one kind, in order, each of correlation, tenant and actor kept when set, else taken from the context |
| UnitOfWork.Unit.Rollback | packages/qx-db/src/qx/db/uow/__init__.py:132-136 | a rollback discards staged rows once, and never after a commit |
| UnitOfWork.Unit.Exit | packages/qx-db/src/qx/db/uow/__init__.py:143-154 | leaving closes the session, and marks the unit rolled back exactly when it was open and not committed |
| Relay.OutboxRelay.PublishRows | packages/qx-events/src/qx/events/outbox_relay/__init__.py:164-185 | publishes the rows one by one; acknowledged and failed rows are told apart |
| Relay.OutboxRelay.RecordFailures | packages/qx-events/src/qx/events/outbox_relay/__init__.py:199-210 | one update per failed row: one more attempt and the truncated error |
| Relay.OutboxRelay.ProcessOneBatch | packages/qx-events/src/qx/events/outbox_relay/__init__.py:138-212 | table, broker log and count after one batch, for any claim the query may return |
| Relay.SettlePointwise | packages/qx-events/src/qx/events/outbox_relay/__init__.py:187-210 | settling touches exactly the claimed rows: acknowledged ones are stamped, others get one more attempt |
| Relay.BatchWrites | packages/qx-events/src/qx/events/outbox_relay/__init__.py:187-210 | every column of every row after a batch: the time of an acknowledged row, one more attempt and at most 2000 characters of the error for any other |
| Relay.SentInOrder | packages/qx-events/src/qx/events/outbox_relay/__init__.py:164-185 | the broker gets the rows not refused, in the order of the claim |
| Relay.AckedInOrder | packages/qx-events/src/qx/events/outbox_relay/__init__.py:164-185 | acknowledged rows are noted and counted in the order of the claim |
| Relay.ClaimExists | packages/qx-events/src/qx/events/outbox_relay/__init__.py:138-162 | the query can always answer, with the oldest selectable rows first |
| Relay.ShardsPartition | packages/qx-events/src/qx/events/outbox_relay/__init__.py:78-83 | for every hash, including the least 32-bit one, exactly one shard owns a row: the remainder of its absolute value |
| Relay.DrainIsBounded | packages/qx-events/src/qx/events/outbox_relay/__init__.py:122-130 | with no new rows the remaining attempts bound the rows all later batches claim together |
| Relay.DrainingEnds | packages/qx-events/src/qx/events/outbox_relay/__init__.py:122-130 | with no new rows, after more rounds over all shards than attempts are left, every row is published or exhausted, whatever the broker does |
| Relay.DrainedIff | packages/qx-events/src/qx/events/outbox_relay/__init__.py:146-150 | all shard queries are empty if and only if every row is published or exhausted |
| Relay.ZeroLimitNeverDrains | packages/qx-events/src/qx/events/outbox_relay/__init__.py:75 | a batch size of zero, which the constructor accepts, never drains anything |
| OutboxRuns.EveryRunOk | packages/qx-events/src/qx/events/outbox_relay/__init__.py:138-212 | every interleaving of units, relays and crashes keeps all invariants; rows, marks and broker log are never taken back |
| OutboxRuns.EndToEnd | packages/qx-events/src/qx/events/outbox_relay/__init__.py:138-212 | every broker message comes from a unit that committed or whose commit took effect unheard; a published row has a broker copy, attempts stay within the maximum, no row is in two batches |
| OutboxRuns.RolledBackHasRowIff | packages/qx-db/src/qx/db/uow/__init__.py:86-154 | in every run a rolled-back unit has a row in the outbox if and only if the acknowledgement of a commit that wrote rows was lost |
| OutboxRuns.FailedCommitLeavesRowIff | packages/qx-db/src/qx/db/uow/__init__.py:121-143 | from every reachable state, committing and then leaving with an exception rolls back over a written row exactly when dispatch and recording passed, there were rows, and the acknowledgement was lost |
| OutboxRuns.LostAckLeavesRow | packages/qx-db/src/qx/db/uow/__init__.py:127-136 | a run in which that happens |
| OutboxRuns.PublishesRun | packages/qx-events/src/qx/events/outbox_relay/__init__.py:166-185 | publishing step by step sends exactly what the loop sends |
| OutboxRuns.BatchIsSteps | packages/qx-events/src/qx/events/outbox_relay/__init__.py:138-212 | the steps of an undisturbed batch add up to what the batch method promises |
| Saga.SagaStore.Load | packages/qx-saga/src/qx/saga/store.py:76-91 | finds the row of a key or nothing |
| Saga.SagaStore.Create | packages/qx-saga/src/qx/saga/store.py:93-132 | inserts a running row at version 0 unless the key or id is taken |
| Saga.SagaStore.Save | packages/qx-saga/src/qx/saga/store.py:134-166 | compare-and-swap on the version: row and instance both move on, or neither |
| Saga.SagaStore.LoadTimedOut | packages/qx-saga/src/qx/saga/store.py:168-181 | exactly the running rows of the type older than the threshold |
| Saga.SagaManager.CompensateWithRetry | packages/qx-saga/src/qx/saga/manager.py:232-258 | the retry loop computes the state and number of calls of the specification |
| Saga.SagaManager.DispatchTo | packages/qx-saga/src/qx/saga/manager.py:125-170 | one dispatch: create if missing, nothing on a terminal row, else run, compensate and save |
| Saga.SagaManager.RunTimeout | packages/qx-saga/src/qx/saga/manager.py:188-209 | one timeout: run, compensate on an exception only, and save |
| Saga.CompensateStopsAtFirstSuccess | packages/qx-saga/src/qx/saga/manager.py:243-252 | compensation is called until its first success or the attempts run out, each call on the state the last one left |
| Saga.RunStores | packages/qx-saga/src/qx/saga/manager.py:151-209 | for every trigger and all flags: the stored state is the handler's own with the status the flags ask for, or, after an exception or a failed event, what the calls of `compensate` made of it |
| Saga.CompensatedWithoutCompensateIff | packages/qx-saga/src/qx/saga/manager.py:197-204 | a run ends compensated without a call of `compensate` exactly when a timeout handler only marks failure, or no attempt is allowed |
| Saga.FlagPrecedence | packages/qx-saga/src/qx/saga/manager.py:155-161 | with both flags set an event fails the saga and a timeout completes it; otherwise the two paths agree |
| SagaRuns.EveryRunOk | packages/qx-saga/src/qx/saga/manager.py:125-209 | all invariants hold in every interleaving of dispatches and timeouts on stale instances, and histories only grow |
| SagaRuns.OneChainPerKey | packages/qx-saga/src/qx/saga/store.py:93-166 | a key has at most one row, and version k+1 is one run of one trigger of its saga type on the state at version k |
| SagaRuns.TerminalIsFrozen | packages/qx-saga/src/qx/saga/manager.py:148-149 | a completed or compensated row never changes again |
| SagaRuns.QuietDispatchesFold | packages/qx-saga/src/qx/saga/manager.py:148-170 | n undisturbed dispatches that set no flag leave the fold of the handlers over the stored state, n versions on |
| SagaRuns.SecondSaveIsLost | packages/qx-saga/src/qx/saga/store.py:142-162 | of two workers holding the same version the second save changes nothing |
| TokenBucket.Bucket.Take | packages/qx-auth/src/qx/auth/rate_limit/__init__.py:31-64 | one run of the script on whatever the key still holds: hash, decision, and the count cut to an integer by the reply |
| TokenBucket.LevelIsLeastHeadroom | packages/qx-auth/src/qx/auth/rate_limit/__init__.py:50-59 | the level of a bucket is the least headroom of any window that ends now |
| TokenBucket.AllowedIffEveryWindowFits | packages/qx-auth/src/qx/auth/rate_limit/__init__.py:41-63 | a call is allowed if and only if it fits every window that ends with it, for any refill rate; where calls took negative numbers, every window that opens with a refill |
| TokenBucket.WindowNeverExceeded | packages/qx-auth/src/qx/auth/rate_limit/__init__.py:50-59 | no window inside which the clock is steady is granted more than the capacity plus the inflow, whatever the clock did before |
| TokenBucket.WindowsHoldIffClockSteady | packages/qx-auth/src/qx/auth/rate_limit/__init__.py:50-61 | calls at given times stay within every window, for all limits and takes, if and only if the clock does not step back between the ends of a window |
| TokenBucket.StepBackOvergrants | packages/qx-auth/src/qx/auth/rate_limit/__init__.py:50-61 | for every window inside which the clock steps back, limits and takes that are granted more than it allows |
| TokenBucket.SafeIffFull | packages/qx-auth/src/qx/auth/rate_limit/__init__.py:94-98 | the time-to-live outlasts the refill time exactly for the safe rates |
| TokenBucket.UnsafeRun | packages/qx-auth/src/qx/auth/rate_limit/__init__.py:94-98 | a run that an expired key decides differently, for every unsafe rate |
| TokenBucket.ExpiryHarmlessIff | packages/qx-auth/src/qx/auth/rate_limit/__init__.py:94-98 | expiry changes no decision and no count in any run if and only if the rate is safe |
| Container.DiContainer.ResolveKey | packages/qx-di/src/qx/di/container.py:285-318 | resolution equals its specification and gives back the in-flight set and the locks on success and on error |
| Container.DiContainer.ResolveSingleton | packages/qx-di/src/qx/di/container.py:344-357 | cached with the owner, built under its lock, without the scope |
| Container.DiContainer.ResolveScoped | packages/qx-di/src/qx/di/container.py:359-371 | cached in the scope, built without it, refused when no scope is active |
| Container.DiContainer.CallFactory | packages/qx-di/src/qx/di/container.py:417-447 | arguments left to right; a failed one falls back on its default or ends the call |
| ContainerLaws.NearestIsUsed | packages/qx-di/src/qx/di/container.py:285-332 | the provider used is that of the nearest container with an override or a registration, the override first; the class itself only where there is none |
| ContainerLaws.NearestInstanceIsResolved | packages/qx-di/src/qx/di/container.py:285-332 | a key the nearest container has as an instance resolves to it, whatever the ancestors hold |
| ContainerLaws.ArgsMatchParams | packages/qx-di/src/qx/di/container.py:417-447 | the i-th argument is what the i-th parameter resolves to after the ones before it |
| ContainerLaws.FirstFailureEnds | packages/qx-di/src/qx/di/container.py:417-447 | a failed argument list ended at its first parameter without a value, with the outcome that says why |
| ContainerLaws.FactoryBuilds | packages/qx-di/src/qx/di/container.py:417-447 | a factory makes an object of its key and lifetime from these arguments, or fails as they do |
| ContainerLaws.ResolveSucceedsIff | packages/qx-di/src/qx/di/container.py:285-318 | for graphs of transients resolution succeeds if and only if every reachable key is constructible and no cycle is reachable |
| ContainerLaws.ScopedSucceedsIff | packages/qx-di/src/qx/di/container.py:359-371 | with all singletons cached, a scoped key not yet in the scope is built if and only if no gap, no cycle and no other scoped key is reachable from it |
| ContainerLaws.SingletonSucceedsIff | packages/qx-di/src/qx/di/container.py:344-357 | an uncached singleton is built if and only if no gap, no cycle and nothing scoped is reachable and all other singletons of its container in reach are cached |
| ContainerLaws.MixedSucceedsIff | packages/qx-di/src/qx/di/container.py:285-374 | transient, scoped and cached singleton providers together: in a fresh scope a key is resolved if and only if no gap and no cycle is reachable and no path meets two scoped keys |
| ContainerLaws.SingletonsAreScopeFree | packages/qx-di/src/qx/di/container.py:344-374 | no run ever caches a singleton built, at any depth, from a scoped instance or a scope |
| ContainerLaws.SingletonIsStable | packages/qx-di/src/qx/di/container.py:344-357 | a resolved singleton is the same object ever after |
| ContainerLaws.ScopedCannotUseScoped | packages/qx-di/src/qx/di/container.py:359-371 | whatever its other parameters, a scoped provider that needs another scoped one, directly or through transients, is never built |
| ContainerLaws.SingletonOnSingletonHangs | packages/qx-di/src/qx/di/container.py:350-357 | whatever its other parameters, a singleton that needs an uncached singleton of the same container, directly or through transients, is never built; as the first parameter it hangs on the lock |
| ContainerOverrides.OverrideRestores | packages/qx-di/src/qx/di/container.py:470-499 | leaving an override gives back registrations and the cached singleton of the key, whatever was resolved inside |
| ContainerOverrides.OverrideLeavesCachesIff | packages/qx-di/src/qx/di/container.py:470-499 | the singletons cached after the block are those of before if and only if nothing but the overridden key was newly cached inside |
| ContainerOverrides.HarmlessRequests | packages/qx-di/src/qx/di/container.py:470-499 | requests that reach no uncached singleton but the overridden key leave the cached singletons as they were |
| ContainerOverrides.OverrideLeaksIntoDependents | packages/qx-di/src/qx/di/container.py:481-499 | after any requests inside the block, a singleton first built there on the overridden key holds what the replacement made and is served after the block; in the same container the key had to be resolved before |
| ContainerOverrides.ReplacementStays | packages/qx-di/src/qx/di/container.py:481-499 | a run that does so for every container, key and replacement instance |
| Idempotency.IdempotencyStore.Begin | packages/qx-cache/src/qx/cache/idempotency/__init__.py:69-152 | hash and result of one `begin`, for both ways a call can fail |
| Idempotency.IdempotencyStore.Complete | packages/qx-cache/src/qx/cache/idempotency/__init__.py:154-172 | hash after one `complete` |
| Idempotency.BeginAnswers | packages/qx-cache/src/qx/cache/idempotency/__init__.py:69-152 | granted, mismatch, busy or replay, for every state of the key and every payload; what a call that fails leaves |
| Idempotency.ReplaysOrRefuses | packages/qx-cache/src/qx/cache/idempotency/__init__.py:69-172 | after a stored result the same payload gets its image and any other a mismatch |
| Idempotency.FaithfulCodecExists | packages/qx-cache/src/qx/cache/idempotency/__init__.py:60-67 | the text of a value determines it, so results can be read back and payloads told apart |
| Idempotency.IdempotencyStore.Handle | packages/qx-cqrs/src/qx/cqrs/pipeline/__init__.py:548-574 | the behavior without interference: reply, hash and whether the handler ran |
| Idempotency.SentinelsAreNotJson | packages/qx-cache/src/qx/cache/idempotency/__init__.py:129-152 | no stored response reads as one of the three replies of the script |
| Idempotency.EveryRunOk | packages/qx-cache/src/qx/cache/idempotency/__init__.py:94-152 | in every interleaving with non-null results the key is unclaimed or has exactly one owner |
| Idempotency.AtMostOnce | packages/qx-cqrs/src/qx/cqrs/pipeline/__init__.py:548-574 | with non-null results the handler runs at most once, and every replay is the stored image of that run for the same payload |
| Idempotency.NullRunsTwice | packages/qx-cqrs/src/qx/cqrs/pipeline/__init__.py:564-570 | a handler returning null runs a second time |
| Idempotency.AtMostOnceIff | packages/qx-cqrs/src/qx/cqrs/pipeline/__init__.py:564-574 | a handler returning v runs at most once in every interleaving if and only if v is not stored as null |
| Idempotency.AbandonedForever | packages/qx-cqrs/src/qx/cqrs/pipeline/__init__.py:570-573 | after the claiming request failed, no later request runs the handler or gets a value while the key lives |
| Pipeline.BehaviorChain.Execute | packages/qx-cqrs/src/qx/cqrs/pipeline/__init__.py:120-152 | the loop from the last behavior to the first builds the nesting with the first behavior outermost |
| Pipeline.RetryBehavior.Handle | packages/qx-cqrs/src/qx/cqrs/pipeline/__init__.py:464-474 | the loop equals the recursive specification of retrying |
| Pipeline.CallsStopAtFirstFinal | packages/qx-cqrs/src/qx/cqrs/pipeline/__init__.py:452-474 | all attempts but the last failed with a retryable error, and the last was final or the last allowed |
| Pipeline.SecondCallIff | packages/qx-cqrs/src/qx/cqrs/pipeline/__init__.py:452-474 | a second attempt is made exactly after an infrastructure or timeout failure with an allowed code |
| Pipeline.RetryInsideShares | packages/qx-cqrs/src/qx/cqrs/pipeline/__init__.py:386-402 | in the recommended order a success commits the writes of all attempts, a failure none |
| Pipeline.RetryOutsideIsFresh | packages/qx-cqrs/src/qx/cqrs/pipeline/__init__.py:386-402 | in the opposite order only the writes of the last attempt can be committed |
| Pipeline.RetryIsFreshIff | packages/qx-cqrs/src/qx/cqrs/pipeline/__init__.py:419-423 | each attempt gets a fresh transaction, as documented, exactly when the command fails or its failed attempts wrote nothing |
| Projections.ProjectionRunner.RunProjection | packages/qx-projections/src/qx/projections/runner.py:85-122 | one batch: model, checkpoint and count |
| Projections.ProjectionRunner.Rebuild | packages/qx-projections/src/qx/projections/runner.py:72-83 | reset, then one batch from the beginning |
| Projections.ProjectionRunner.RunOnce | packages/qx-projections/src/qx/projections/runner.py:62-70 | one batch for every registered projection, each from its own checkpoint, and the total of the rows applied |
| Projections.BatchFacts | packages/qx-projections/src/qx/projections/runner.py:95-103 | a batch holds different rows after the old checkpoint and none after the new one |
| ProjectionRuns.AppliedAtMostOnce | packages/qx-projections/src/qx/projections/runner.py:85-122 | over arbitrary logs and overlapping batches no row is applied twice between rebuilds if every batch still lies after the checkpoint when it finishes |
| ProjectionRuns.LostUntilRebuild | packages/qx-projections/src/qx/projections/runner.py:95-103 | a row the checkpoint passed over stays unapplied until a rebuild |
| ProjectionRuns.StepExactlyOnceIff | packages/qx-projections/src/qx/projections/runner.py:85-122 | query, append and the end of any batch in flight are steps of their own; a step loses or doubles a row exactly when its guard fails |
| ProjectionRuns.ExactlyOnceIff | packages/qx-projections/src/qx/projections/runner.py:62-122 | over any log, with any number of overlapping runs and rebuilds: the rows up to the checkpoint are applied once each at every moment if and only if rows arrive after the checkpoint and every finishing batch lies after it and is complete |
| ProjectionRuns.SelectedIsFitIff | packages/qx-projections/src/qx/projections/runner.py:95-103 | a batch just selected may finish if and only if it is not cut between equal sequences |
| ProjectionRuns.AppendLeavesFitIff | packages/qx-projections/src/qx/projections/runner.py:95-121 | a row that arrives meanwhile leaves it so exactly when it does not fall between the checkpoint and the end of the batch |
| ProjectionRuns.MovedLeavesFitIff | packages/qx-projections/src/qx/projections/runner.py:95-121 | other batches leave it so exactly when they moved the checkpoint over no row |
| ProjectionRuns.OverlappingRunsApplyTwice | packages/qx-projections/src/qx/projections/runner.py:85-122 | two runs that overlap apply every row of their batch twice |
| ProjectionRuns.RebuildOverlapLoses | packages/qx-projections/src/qx/projections/runner.py:72-122 | a run that overlaps the rebuild of a longer history skips every row between the two batches |
| ProjectionRuns.SecondStreamIsLost | packages/qx-eventstore/src/qx/eventstore/table.py:38 | sequences count per aggregate, so the first event of a second stream is lost when a batch ran before it or was in flight |
| ProjectionRuns.ModelIsFoldToCheckpointIff | packages/qx-projections/src/qx/projections/runner.py:62-122 | over an increasing log, with overlapping runs and rebuilds, the read model is at every moment the fold of the rows up to the checkpoint if and only if every finishing run meets the checkpoint it was selected after |
| ProjectionRuns.GuardIffCurrent | packages/qx-projections/src/qx/projections/runner.py:95-121 | on an increasing log a batch may finish if and only if it meets its checkpoint |
| ProjectionRuns.OneAtATimeIsCurrent | packages/qx-projections/src/qx/projections/runner.py:62-122 | one batch at a time is enough for that |
| ProjectionRuns.RepeatReachesEndIff | packages/qx-projections/src/qx/projections/runner.py:62-70 | n batches reach the end of the log exactly when they are long enough together |
| ProjectionRuns.RebuildThenCatchUpIff | packages/qx-projections/src/qx/projections/runner.py:72-83 | a rebuild applies one batch only: with n runs after it the whole log is applied exactly when n+1 batches hold it |
| Batches.IterateTakes | packages/qx-projections/src/qx/projections/runner.py:62-70 | if each batch takes the next rows up to the limit, n of them take the first n times the limit |
| OrderService.Place | examples/order-service/src/order_service/domain/aggregates/order/__init__.py:133-162 | an order with one recorded event, or the error for no items or a total that is not positive |
| OrderService.Order.Confirm | examples/order-service/src/order_service/domain/aggregates/order/__init__.py:168-177 | on any instance allowed exactly in status pending; an order that stands for its whole history keeps doing so |
| OrderService.Order.Cancel | examples/order-service/src/order_service/domain/aggregates/order/__init__.py:179-185 | on any instance allowed in every status but cancelled; a placed order that stands for its whole history keeps doing so |
| OrderService.ValidHistoryIff | examples/order-service/src/order_service/domain/aggregates/order/__init__.py:133-201 | when commands act on fully replayed orders the histories are exactly the four short life cycles |
| OrderService.PlacedIsRemembered | examples/order-service/src/order_service/domain/aggregates/order/__init__.py:191-201 | an order keeps what it was placed with, and its newest event sets the status |
| OrderService.OrderSummaryProjection.Apply | examples/order-service/src/order_service/infrastructure/projections/order_summary.py:67-95 | row inserted, updated or left alone; the insert raises for totals the column cannot hold |
| OrderService.RowsAreIndependent | examples/order-service/src/order_service/infrastructure/projections/order_summary.py:67-95 | each summary row depends on the events of its own order only |
| OrderService.SummaryAgreesWithReplay | examples/order-service/src/order_service/infrastructure/projections/order_summary.py:67-95 | for any interleaving of valid histories every summary row is what its aggregate replays to |
| OrderService.Absorb | examples/order-service/src/order_service/infrastructure/projections/order_summary.py:54-59 | re-applying a batch after any part of it gives the table of applying it once, whatever the table |
| OrderService.PrefixesDiffer | examples/order-service/src/order_service/infrastructure/projections/order_summary.py:67-95 | no event of a valid log leaves the table as it was |
| OrderService.ReplayingTwiceIff | examples/order-service/src/order_service/infrastructure/projections/order_summary.py:7-8 | replaying one event again is a no-op exactly for placements and for the last event of an order |
| OrderSnapshots.SnapshotLosesOrder | examples/order-service/src/order_service/domain/aggregates/order/__init__.py:121-127 | an order loaded through any snapshot has at most its status; the full replay has customer, items, total and status |
| OrderSnapshots.ItemRoundTrip | examples/order-service/src/order_service/domain/aggregates/order/__init__.py:104-113 | an item read back from what is stored of it is the item |
| OrderSnapshots.SnapshotIsReachedIff | packages/qx-eventstore/src/qx/eventstore/store.py:122-123 | an order can meet a snapshot exactly when one is taken every three events or more often |
| OrderCommands.LoadedStatus | packages/qx-eventstore/src/qx/eventstore/store.py:127-176 | in every state the handlers can reach, a loaded order knows its status exactly when no snapshot covers its newest event |
| OrderCommands.ActsOnReplayIff | examples/order-service/src/order_service/application/commands/cancel_order.py:38-63 | every command decides as on the full replay if and only if no snapshot covers the newest event, or that event is a confirmation |
| OrderCommands.CancelledAgain | examples/order-service/src/order_service/application/commands/cancel_order.py:57-61 | a cancelled order covered by a snapshot is cancelled once more, and its history is no life cycle |
| OrderCommands.OnlyLifeCyclesIff | examples/order-service/src/order_service/domain/aggregates/order/__init__.py:8-12 | all sequences of commands produce life cycles only, if and only if snapshots are rarer than every three events |
| OrderCommands.SuccessIsRecordedIff | examples/order-service/src/order_service/application/commands/cancel_order.py:41-63 | a handler that answers success recorded its event if and only if nothing was appended since it loaded the order; refusals change nothing |
| OrderProjectionRuns.SummaryRunner.RunProjection | packages/qx-projections/src/qx/projections/runner.py:85-122 | one attempt that may die or raise anywhere: rows applied so far stay, the checkpoint moves only at the end |
| OrderProjectionRuns.SummaryRunner.RebuildProjection | packages/qx-projections/src/qx/projections/runner.py:72-83 | a rebuild that may die: the table is emptied at once, the checkpoint kept until the end |
| OrderProjectionRuns.InterruptedRecoverable | examples/order-service/src/order_service/infrastructure/projections/order_summary.py:54-59 | an interrupted run may set back a status but never past repair |
| OrderProjectionRuns.InterruptedRebuildIff | packages/qx-projections/src/qx/projections/runner.py:81-83 | a rebuild that dies is harmless exactly when it got as far as the checkpoint it leaves in place |
| OrderProjectionRuns.EveryRunRecoverable | examples/order-service/src/order_service/infrastructure/projections/order_summary.py:54-59 | attempts one after the other: whatever runs die half-way, completing the next batch yields the summary of the log up to its end |
| OrderProjectionRuns.FinishedRunReports | examples/order-service/src/order_service/infrastructure/projections/order_summary.py:67-99 | attempts one after the other: after a finished operation every row agrees with its aggregate at the checkpoint |
| OrderOverlaps.SelectIsBatch | packages/qx-projections/src/qx/projections/runner.py:95-103 | the rows an overlapping run selects are those of the query |
| OrderOverlaps.RepairableIff | examples/order-service/src/order_service/infrastructure/projections/order_summary.py:54-99 | in every state of overlapping runs catching up repairs the table exactly when every order cancelled before the checkpoint shows as cancelled |
| OrderOverlaps.StepRepairableIff | examples/order-service/src/order_service/infrastructure/projections/order_summary.py:67-99 | a row, checkpoint or append leaves a repairable table repairable exactly when its guard holds |
| OrderOverlaps.AlwaysRepairableIff | examples/order-service/src/order_service/infrastructure/projections/order_summary.py:54-99 | for rows of any number of runs interleaving one by one: always repairable if and only if no run confirms an order cancelled before the checkpoint and none moves the checkpoint over a cancellation the table does not show |
| OrderOverlaps.CaughtUpReports | examples/order-service/src/order_service/infrastructure/projections/order_summary.py:67-99 | a repairable table that has caught up reports every order as its aggregate does |
| OrderOverlaps.SlowRunUncancels | examples/order-service/src/order_service/infrastructure/projections/order_summary.py:79-95 | a run in which a slower attempt leaves a cancelled order confirmed for good |
| OrderProjectionRuns.OversizedOrderBlocks | examples/order-service/src/order_service/infrastructure/projections/order_summary.py:43 | no run gets the checkpoint past an order whose total exceeds the 32-bit column |
| OrderProjectionRuns.CatchesUpIff | packages/qx-projections/src/qx/projections/runner.py:62-122 | from any state some run without appends reaches the end of the log if and only if every row still ahead fits |
| OrderProjectionRuns.SomeRunPassesIff | packages/qx-projections/src/qx/projections/runner.py:62-122 | some run gets past the first m rows of a log if and only if each of them fits |
| Uuids.TextOrderIsIdOrder | packages/qx-regions/src/qx/regions/replicator.py:103-109 | comparing the canonical text of identifiers agrees with ordering the identifiers |
| Uuids.TextIsCanonical | packages/qx-regions/src/qx/regions/replicator.py:103-109 | that text is 8-4-4-4-12 lower-case digits, two for each octet |
| Replicator.RegionReplicator.ProcessOneBatch | packages/qx-regions/src/qx/regions/replicator.py:93-163 | messages forwarded and checkpoint after one batch that may be cut short or lose its commit |
| Replicator.EligibleInOrder | packages/qx-regions/src/qx/regions/replicator.py:111-123 | the query returns exactly the published rows beyond the checkpoint, in strict (occurred_at, id) order |
| Replicator.EligibleByTime | packages/qx-regions/src/qx/regions/replicator.py:111-123 | earlier times first, and within one time the smaller octets |
| Replicator.BeyondLast | packages/qx-regions/src/qx/regions/replicator.py:103-163 | after a batch exactly the rows later than its last one are still to be read |
| ReplicatorRuns.SafeIffNoGapAhead | packages/qx-regions/src/qx/regions/replicator.py:93-163 | the safety condition on a state holds if and only if no continuation of the replicator alone shows a gap |
| ReplicatorRuns.StepSafeIff | packages/qx-regions/src/qx/regions/replicator.py:93-163 | query, send and commit are steps of their own; from a safe state only a publication behind the checkpoint or behind what the batch in flight can commit is unsafe |
| ReplicatorRuns.NeverGapsIff | packages/qx-regions/src/qx/regions/replicator.py:93-163 | with publications during batches, crashes and lost commits: no published row up to the checkpoint is ever missing remotely, nor can the batch in flight bring that about, if and only if rows become published beyond the stored checkpoint and beyond what that batch may put behind it |
| ReplicatorRuns.InOrderNeverGaps | packages/qx-regions/src/qx/regions/replicator.py:93-163 | publication in key order is enough, and the checkpoint then marks a published row |
| ReplicatorRuns.GapIsForever | packages/qx-regions/src/qx/regions/replicator.py:103-109 | a row the checkpoint has passed is never forwarded any more |
| ReplicatorRuns.ResendsIff | packages/qx-regions/src/qx/regions/replicator.py:26-29 | what a batch had acknowledged is selected again exactly when its commit was lost |
| ReplicatorRuns.BatchIsSteps | packages/qx-regions/src/qx/regions/replicator.py:93-163 | the steps of an undisturbed batch add up to what the batch method promises |
| ReplicatorRuns.DrainForwards | packages/qx-regions/src/qx/regions/replicator.py:93-163 | k undisturbed batches forward the next k times limit rows, once each and in order |
| Search.InMemorySearchRepository.Search | packages/qx-testing/src/qx/testing/doubles/__init__.py:270-292 | the page and the total, or the error of incomparable keys |
| Search.InMemorySearchRepository.SortHits | packages/qx-testing/src/qx/testing/doubles/__init__.py:280-288 | the loop over the reversed keys computes the nested stable sorts |
| Search.InMemorySearchRepository.Scroll | packages/qx-testing/src/qx/testing/doubles/__init__.py:242-268 | the chunks of the ranked hits, or the error |
| Search.InMemorySearchRepository.ScrollByPages | packages/qx-search/src/qx/search/repository/__init__.py:145-163 | the page loop of the base class run over this search |
| Search.ResultsAreLexicographic | packages/qx-testing/src/qx/testing/doubles/__init__.py:280-288 | the ranked hits are the one permutation of the matches in lexicographic order of the whole key list, ties in store order |
| Search.RankedAreMatches | packages/qx-testing/src/qx/testing/doubles/__init__.py:270-279 | a position is among the results, once, if and only if its document passes the filters and, for a text, has a text field that contains it, case ignored; the score counts those fields |
| Search.ResultsAreRanked | packages/qx-testing/src/qx/testing/doubles/__init__.py:280-288 | the first key on which two results differ decides, numbers and text in their own order, descending where asked; without keys the score |
| Search.RankingFailsIff | packages/qx-testing/src/qx/testing/doubles/__init__.py:280-288 | ranking raises if and only if some key meets two values that are neither both numbers nor both text |
| Search.PageHolds | packages/qx-testing/src/qx/testing/doubles/__init__.py:289-292 | page p holds the results from (p - 1) times the size on |
| Search.PageFromEnd | packages/qx-testing/src/qx/testing/doubles/__init__.py:289-292 | page 0 is empty and earlier pages count from the end |
| Search.ChunksCover | packages/qx-testing/src/qx/testing/doubles/__init__.py:267-268 | the chunks put together are all hits, each full but the last |
| Search.PagesOfNegativeSize | packages/qx-search/src/qx/search/repository/__init__.py:145-163 | what the page loop yields for sizes below one |
| Search.ScrollsAgreeIff | packages/qx-search/src/qx/search/repository/__init__.py:145-163 | both ways to scroll give the same outcome exactly for sizes of at least one, failed rankings, and negative sizes that cover all hits |
| DistributedLocks.DistributedLock.Acquire | packages/qx-cache/src/qx/cache/distributed_lock/__init__.py:57-65 | key, token and reply of one acquire, lost requests and replies included |
| DistributedLocks.DistributedLock.Renew | packages/qx-cache/src/qx/cache/distributed_lock/__init__.py:67-79 | key and reply of one renewal; a time-to-live below one deletes the key |
| DistributedLocks.DistributedLock.Release | packages/qx-cache/src/qx/cache/distributed_lock/__init__.py:81-86 | deletes only the own key, and forgets the token unless the call raised |
| DistributedLocks.StepsAreCalls | packages/qx-cache/src/qx/cache/distributed_lock/__init__.py:57-86 | a step of the runs does to the key and to the token what the call of the lock object promises |
| DistributedLocks.StepBackedIff | packages/qx-cache/src/qx/cache/distributed_lock/__init__.py:67-79 | a step leaves an unexpired lease without its key exactly when it is an unheard shortening renewal |
| DistributedLocks.AlwaysBackedIff | packages/qx-cache/src/qx/cache/distributed_lock/__init__.py:57-86 | in every timed run all unexpired leases are backed if and only if no unheard renewal shortened one |
| DistributedLocks.MutualExclusion | packages/qx-cache/src/qx/cache/distributed_lock/__init__.py:57-65 | no two clients have unexpired leases, and no acquire succeeds during one |
| DistributedLocks.OthersCannotTouch | packages/qx-cache/src/qx/cache/distributed_lock/__init__.py:33-38 | until a lease ends nothing other clients do, late renewals and releases included, touches its key |
| DistributedLocks.RenewedIsHeldIff | packages/qx-cache/src/qx/cache/distributed_lock/__init__.py:67-79 | a renewal that reports success kept the lock exactly for a positive time-to-live |
| DistributedLocks.LockIsHandedOver | packages/qx-cache/src/qx/cache/distributed_lock/__init__.py:33-65 | after a release, or once key and lease ran out, the next acquire succeeds, and not before |
| DistributedLocks.UnheardRenewalSplits | packages/qx-cache/src/qx/cache/distributed_lock/__init__.py:72-79 | a run in which two clients count on the lock at once |
| Cursor.StripRemovesOnlyPadding | packages/qx-db/src/qx/db/pagination/__init__.py:29-35 | stripping removes nothing but padding, and the length alone restores it |
| Cursor.GroupValue | packages/qx-db/src/qx/db/pagination/__init__.py:29-31 | four characters as base-64 digits are the number their three bytes are in base 256 |
| Cursor.KnownCursors | packages/qx-db/src/qx/db/pagination/__init__.py:29-31 | the test vectors of section 10 of RFC 4648 and the URL-safe characters |
| Cursor.RoundTrip | packages/qx-db/src/qx/db/pagination/__init__.py:29-37 | every byte string survives encoding and decoding |
| Cursor.ReencodesIff | packages/qx-db/src/qx/db/pagination/__init__.py:34-37 | a cursor of alphabet characters decodes unless one is left alone, and encodes back to itself exactly when it has no left-over bits |

## Left out

- SQLAlchemy, Postgres, Redis, NATS and OpenSearch clients: a committed transaction and a Lua script are one step each.
- Partial visibility inside a transaction of the event store: insert, snapshot and commit are one step, and a handle whose append raised anything but a conflict is dropped.
- Python reflection: annotations, imports and handler lookup become a given graph, a given class description and given apply functions.
- pydantic models and the text of events: payloads are JSON values that survive storage; in the text of a value only quotes and backslashes are escaped.
- ProjectionRuns.ModelIsFoldToCheckpointIff: requires each new row's sequence to exceed all earlier ones, because sequences count per aggregate; what happens otherwise is ExactlyOnceIff.
- ProjectionRuns.Step: the writes of a projection commit together with its checkpoint (OrderProjectionRuns has them commit on their own); rows of equal sequence are read in log order, where the database may choose any order.
- Projections.ProjectionRunner.Rebuild: the KeyError for a projection nobody registered is not modelled.
- TokenBucket.WindowsHoldIffClockSteady: for takes that are not negative; without refill time plays no part, so the refill rate is positive.
- TokenBucket.Bucket.Take: reals instead of floating point, and one clock for the script and the key expiry.
- ContainerLaws.ResolveSucceedsIff: for graphs whose providers are transients with required parameters; MixedSucceedsIff adds scoped providers and cached singletons, SingletonSucceedsIff uncached ones. Several uncached singletons succeed or not by the order of the calls, and defaults swallow errors; the specification covers both, and the two limits hold for any parameters.
- Container.DiContainer.ResolveKey: one asyncio task at a time; concurrent ones of one container and disposers are not modelled.
- Idempotency.AtMostOnce: requires non-null results and no expiry of the key during the run; fingerprints are collision-free and the codec is a parameter.
- Relay.OutboxRelay.ProcessOneBatch: the order by `occurred_at` among equal times and the sleeping between batches are not modelled.
- OutboxRuns.EndToEnd: delivery is at least once and unordered; the leader lock of the relay is not part of it, as its lease is never renewed.
- Saga.SagaManager.DispatchTo: back-off delays, the timeout lock and loading failures are not modelled; failed creates and saves are not retried, as in the code.
- Pipeline.BehaviorChain.Execute: the tracing wrapper, the logging, validation, authorization and idempotency behaviors and the delays are not modelled; writes are opaque numbers and commits do not fail here.
- ReplicatorRuns.Step: one replicator for a target region; a second one at the same time would send rows again.
- Replicator.RegionReplicator.ProcessOneBatch: headers and envelope of a message; text is compared by code points, as the C collation does.
- Search.InMemorySearchRepository.Search: lower-casing of letters outside ASCII, and field values other than null, numbers and text.
- Search.InMemorySearchRepository.ScrollByPages: the store does not change between two pages.
- Cursor.ReencodesIff: cursors made of alphabet characters; Python's decoder also skips foreign characters and stops at padding.
- Cursor.RoundTrip: works on the bytes of the JSON text, not on the JSON values.
- DistributedLocks.MutualExclusion: requires that no renewal whose reply was lost shortened a lease; it holds for every run without lost replies.
- OrderCommands.Step: one stream, a snapshot frequency other than zero (which raises), and appends that fail for no other reason than a conflict.
- OrderCommands.OnlyLifeCyclesIff: the database's JSON serializer is taken to accept the identifier in a snapshot; where it does not, a snapshot after every event makes placing an order raise.
- OrderSnapshots.SnapshotIsReachedIff: likewise.
- OrderProjectionRuns.EveryRunRecoverable: attempts follow one another; rows appended during one come after every row of the log, so appending them after it gives the same state. Overlapping runs are OrderOverlaps.AlwaysRepairableIff.
- OrderProjectionRuns.FinishedRunReports: likewise.
- OrderOverlaps.AlwaysRepairableIff: runs only; a rebuild empties the table under the runs that overlap it, as RebuildOverlapLoses shows for the runner.
- OrderService.OrderSummaryProjection.Apply: the columns `placed_at` and `updated_at`.
- HTTP and gRPC layers, command line, templates, logging, metrics, tracing, tokens, tenancy, feature flags: plumbing.
- Result combinators, health aggregation, role matching, the registry: each is a lookup or a fold without state that outlives the call.
