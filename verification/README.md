# Verified model of the sync engine

The plugin keeps versioned source secrets in a key/value store and mirrors them to
remote providers through an outbox. A write appends a version and queues one operation
per association and object; a dispatcher claims each operation, calls the provider
outside its lock and commits the result. The store offers neither transactions (on the
path modelled here) nor compare-and-swap, so the engine protects itself with
write-ahead intents, ordered single writes, leases and epochs. This project models
those mechanisms in Dafny and proves what they are for.

`dafny verify dfyconfig.toml` checks everything.

## How it is built

- **Storage** (`records.dfy`): one store as maps over structured keys, and a `Storage`
  object whose every Put or Delete may be the last one before a crash. Each method over
  it is proved to perform a prefix of an ordered list of writes, or all of it (`Ran`).
  Crash properties are then proved about all prefixes of those lists.
- **Crash safety** (`source_mutations`, `recovery`, `write_effects`, `interruption`,
  `crash_safety`, `restarts`, `requeues`, `crash_run`, `crash_examples`, `recovery_pass`,
  `source_history`, `repeated_mutations`, `association_recovery`): write-ahead intents and
  recovery from every cut.
- **Source versions** (`source_storage`, `source_runs`): metadata, version records and
  pruning over all runs of source requests.
- **Outbox** (`outbox_storage`, `outbox_queries`, `terminal_pruning`, `queue_depth`,
  `association_enqueue`): indexes, listings, pruning, capacity, re-enqueue.
- **Leases and progress** (`claims`, `lease_overwrites`, `dispatch`, `retry`): the claim
  state machine over any interleaving with a clock in seconds that never goes back, what
  source mutations do to leases, and the dispatch loop.
- **Name reservations** (`association_storage`, `reservations`, `association_requests`).
- **Runtime cache** (`runtime_cache`): the class with its two epochs and a ghost history,
  and every interleaving of its locked sections.
- **Providers and naming** (`gitlab_*`, `numbers`, `kubernetes`, `naming`, `text`),
  and sizes of sets (`sets`).

## Where a promise does not hold

Each of these is kept as the code has it; the exact condition is proved and a concrete
case given.

- A source mutation is not always all-or-nothing. A write that queues nothing has no
  intent; destroying a version that is already soft-deleted does not change whether it
  is available, so recovery takes its intent alone for a committed mutation; and an
  older record with the same operation id is kept by recovery but replaced by the
  commit. `CrashSafety.AllOrNothingExactly` is the exact condition for mutations that
  change a version record, `RepeatedMutations.VersionMutationIsAllOrNothing` covers those
  that do not; the cases are in `CrashExamples`. Recovery is restartable all the same
  (`Restarts.RecoveryIsRestartable`).
- Nor is an enqueue of associations: recovery adds missing operations but leaves finished
  ones as they are. `AssociationRecovery.EnqueueIsAtomicExactly` is the exact condition,
  `CrashExamples.EnqueueSplits` a case.
- The version mutations store their operations without looking at a record of the same
  id. The lease of a worker that is delivering that operation is lost, and a second
  worker can claim it with an equal claim. `LeaseOverwrites.CommitKeepsLeasesExactly` is
  the exact condition, `Claims.GuardIsExact` the check that would be enough and no more
  than needed, `LeaseOverwrites.DestroyRobsTheWorker` a case. The run theorems of `Claims`
  cover every overwriting that passes this check.
- A source path of at most 22 bytes that begins with `path#`, or an object id that begins
  with `object#`, is printed raw and read back as a hash, so its own writer is not
  recognised as owner. `GitlabOwnership.OwnerIsRecognised` is the exact condition,
  `MarkedExample` and `MarkedObjectExample` are cases.
- The base retry delay is shifted left on 64 bits. From the 30th attempt on it may be
  negative or zero; `Retry.RetryDelayBounds` is the exact condition,
  `Retry.ThirtiethAttemptOverflows` a case. Automatic retries stop at three attempts, so
  the dispatcher never gets there.
- An accepted Kubernetes upsert does not always make the same plan a noop: a payload left
  in a Secret of another type keeps that type. `KubernetesSecrets.UpsertSettlesPlan` is the
  exact condition, `OtherTypeIsKept` a case. The condition also asks for a complete
  identity, which the engine always sends.
- A Kubernetes plan does not check the size limit that the upsert enforces.
  `KubernetesSecrets.PlanPredictsUpsert` is the exact condition,
  `OversizedPayloadIsPlanned` a case.
- Association ids are hashes of a text that different associations can share
  (`AssociationStorage.AssociationTextsCollide`).

Results of recovery are compared up to update times and stale index entries, because
`recoverEnqueueIntent` stamps the records it stores with its own time.

## Model

| member | source | states |
|---|---|---|
| `CrashSafety.AllOrNothingExactly` | internal/backend/recovery.go:38-80 | A planned source mutation, cut off after any storage write and then recovered by any number of interrupted attempts and a complete one, ends exactly as before it or exactly as after it, with no intent left, if and only if it queues something, no different record with the id of one of its operations is stored, and it changes whether the version is available (or recovery before that change would find nothing to do) |
| `CrashSafety.RecoverableIsAllOrNothing` | internal/backend/recovery.go:38-80 | The "if" half, for every cut, every sequence of interrupted recovery attempts and every clock not before the request |
| `Restarts.RecoveryIsRestartable` | internal/backend/recovery.go:38-80 | After every cut of every planned mutation, whether or not it is all-or-nothing, interrupted attempts followed by a complete one end where a single complete one ends, up to update times |
| `Restarts.MovingRestarts` | internal/backend/recovery.go:38-80 | The same from every store in which a mutation is in flight or only its queue is left |
| `Restarts.AttemptsFinish` | internal/backend/recovery.go:38-80 | Any attempts and a complete one restore the source, cancel what the mutation replaces, keep every stored operation as it is and add the missing ones as planned |
| `Requeues.RequeueIsAtomicExactly` | internal/backend/recovery.go:38-80 | A commit that leaves its version record alone is all-or-nothing if and only if it replaces no stored record by a different one, or replaces one and neither cancels nor adds anything |
| `Requeues.RequeueIsRestartable` | internal/backend/recovery.go:38-80 | Recovery of such a commit is restartable from every cut |
| `AssociationRecovery.EnqueueIsAtomicExactly` | internal/backend/association_enqueue.go:49-102 | An enqueue of associations, cut off and recovered, is all-or-nothing if and only if no requested operation was finished before, or one was and all others were stored already |
| `AssociationRecovery.EnqueueIsRestartable` | internal/backend/association_enqueue.go:76-102 | Its recovery is restartable from every cut |
| `CrashSafety.RecoverInFlight` | internal/backend/recovery.go:38-80 | Complete recovery after the version record was changed stores the metadata the request would have stored, the versions it would have kept and all of its operations, and removes its intent |
| `CrashSafety.RecoverInFlightPrefix` | internal/backend/recovery.go:38-80 | Recovery cut off before its last write leaves the mutation still in flight, so the next attempt finds the same situation |
| `CrashSafety.RecoverVersioned` | internal/backend/recovery.go:169-202 | Metadata recovered from the intent and the version record, after any part of the pruning, is the metadata of the interrupted request, and the remaining pruning is completed |
| `CrashSafety.MutationIsCommitted` | internal/backend/recovery.go:149-167 | All operations of an intent are recoverable or none is, according to whether the version is available |
| `CrashSafety.WithoutOperations` | internal/backend/path_data.go:222-279 | A mutation that queues nothing is never all-or-nothing: no intent repairs a version record without its metadata |
| `CrashSafety.ConflictBreaks` | internal/backend/recovery.go:111-147 | An older record with the id of a new operation makes recovery and commit disagree |
| `CrashSafety.MistakenQueue` | internal/backend/recovery.go:160-167 | A mutation that keeps availability is queued by recovery although its version record was never changed |
| `Interruption.CommitPrefix` | internal/backend/path_data.go:222-279 | Every prefix of the writes of a commit: nothing, the intent alone, in flight, or complete; the outbox indexes are complete at each of them |
| `CrashRun.CommitAndRecover` | internal/backend/recovery.go:15-36 | A commit that storage cuts off anywhere, then recovery attempts that storage may cut off too: if one completes, the mutation happened entirely or not at all |
| `SourceHistory.DataWriteIsAllOrNothing` | internal/backend/path_data.go:222-279 | For a data write on consistent storage the condition is: it queues an operation and meets no different record with one of their ids |
| `RepeatedMutations.VersionMutationIsAllOrNothing` | internal/backend/path_versions.go:181-336 | The exact condition for every soft-delete, undelete and destroy of the current version that enqueues, also for a delete or destroy that finds its work done |
| `SourceHistory.ChangingMutationIsAllOrNothing` | internal/backend/path_versions.go:181-336 | The part about changed records; destroying a soft-deleted version is atomic only if it has nothing to add or cancel |
| `RepeatedMutations.CancellationsAreAtomicExactly` | internal/backend/path_versions.go:200-227 | A repeated delete that queues nothing is atomic if and only if it cancels one operation at most |
| `CrashExamples.WriteWithoutOperationsSplits` | internal/backend/path_data.go:222-279 | A concrete write without operations that a crash splits |
| `CrashExamples.DestroyAfterDeleteSplits` | internal/backend/path_versions.go:409-437 | A concrete destroy of a soft-deleted version that a crash splits |
| `CrashExamples.EnqueueSplits` | internal/backend/recovery.go:60-79 | A concrete enqueue of a new and of a failed operation that a crash splits |
| `CrashExamples.OlderRecordSplits` | internal/backend/recovery.go:111-147 | A concrete finished record of the same operation that makes a soft-delete split |
| `RecoveryPass.RecoverIsSafe` | internal/backend/recovery.go:38-80 | Whatever the intent and the store, every prefix of recovery keeps the outbox indexes complete, and a complete one removes that intent and no other |
| `RecoveryPass.RecoverIncompleteIntents` | internal/backend/recovery.go:15-36 | With no intents nothing changes; otherwise each intent it recovers goes and no other, the limit is respected, and without a limit none is left |
| `SourceMutations.CommitDataWritePlan` | internal/backend/path_data.go:222-279 | Refuses exactly when the queue would grow beyond capacity, and then changes nothing; otherwise performs the ordered writes of the commit, or a prefix of them if storage fails |
| `SourceMutations.CommitWrite` | internal/backend/path_data.go:247-278 | The order of single writes: intent, version, pruning, metadata, cancellations, operations, intent removal |
| `SourceMutations.CommitCurrentVersionMutation` | internal/backend/path_versions.go:181-336 | Refuses exactly when the queue is full or an operation it would replace is claimed, and then changes nothing; otherwise the ordered writes, or a prefix |
| `SourceMutations.CommitMutation` | internal/backend/path_data.go:465-533 | The shared ordered writes of the version mutations |
| `SourceMutations.CommitQueue` | internal/backend/path_data.go:258-278 | Cancellations first, then the operations, then the removal of the intent |
| `Recovery.RecoverEnqueueIntent` | internal/backend/recovery.go:38-80 | Metadata, cancellations, operations and intent removal, in this order, decided from the surviving version record |
| `Recovery.RecoverSourceMetadata` | internal/backend/recovery.go:169-202 | Prunes and stores metadata for a newer version, rewrites a differing entry of the current one, and otherwise writes nothing |
| `Recovery.RecoverOperations` | internal/backend/recovery.go:69-78 | Stores each operation unless a record with its id exists |
| `Recovery.RecoverQueue` | internal/backend/recovery.go:55-80 | Cancels only if the mutation was committed, and removes the intent last |
| `Claims.HeldIffNotSuperseded` | internal/backend/dispatcher.go:1077-1083 | In every reachable state the commit check passes exactly for the workers whose record nobody has touched since their claim |
| `Claims.StepKeepsValid` | internal/backend/dispatcher.go:150-182 | Claim, reclaim, discard, commit, failure, manual retry, removal, re-enqueue, creation over any record without an active claim and the passing of time all keep the lease invariant |
| `Claims.StepSupersedes` | internal/backend/dispatcher.go:184-193 | A step changes a claimed record only after the lease ran out, and any claim stored later expires later, even when re-creation has reset the attempt counter |
| `Claims.RunsStayValid` | internal/backend/dispatcher.go:150-199 | The invariant at every point of every run |
| `Claims.OneUnexpiredClaim` | internal/backend/dispatcher.go:184-193 | Two workers never hold unexpired claims on one operation |
| `Claims.CommitsAreExclusive` | internal/backend/dispatcher.go:1051-1075 | A superseded worker changes neither outbox nor status; any other worker finds its record as it claimed it |
| `Claims.SupersededForever` | internal/backend/dispatcher.go:1051-1083 | No later step lets a superseded worker commit |
| `Claims.ReplacingKeepsLeasesExactly` | internal/backend/dispatcher.go:1051-1083 | Replacing records by unclaimed ones keeps the lease invariant if and only if no worker counts on an unexpired claim of a changed one |
| `Claims.OverwritingKeepsLeasesExactly` | internal/backend/enqueue.go:203-210 | The same for one operation stored over whatever has its id |
| `Claims.GuardIsExact` | internal/backend/dispatcher.go:184-193 | Whatever workers there are, such a write is harmless if and only if the stored record has no active claim, which the writer could check |
| `LeaseOverwrites.CommitKeepsLeasesExactly` | internal/backend/path_versions.go:181-233 | A complete source mutation keeps the lease invariant if and only if no worker counts on its claim of one of the stored operations; those it cancels it has checked |
| `LeaseOverwrites.UnclaimedOperationsKeepLeases` | internal/backend/path_data.go:465-533 | It does if none of its operations is stored with an active claim |
| `LeaseOverwrites.DestroyRobsTheWorker` | internal/backend/path_versions.go:226 | A concrete destroy of a soft-deleted version passes every check, and a second worker can then claim the delete the first is delivering, with an equal claim |
| `Dispatch.Dispatcher.ClaimRecord` | internal/backend/dispatcher.go:87-182 | Claims exactly a due, supported, unclaimed record, discards an unsupported due one, and otherwise changes nothing |
| `Dispatch.Dispatcher.CommitSuccess` | internal/backend/dispatcher.go:402-433 | Removes the operation and stores its status exactly when the claim still matches |
| `Dispatch.Dispatcher.CommitFailure` | internal/backend/dispatcher.go:1006-1027 | Stores the retry or terminal record and its status exactly when the claim still matches |
| `Dispatch.Dispatcher.CancelClaimed` | internal/backend/dispatcher.go:1040-1049 | Removes a stale upsert exactly when the claim still matches |
| `Dispatch.Dispatcher.OperatorRetry` | internal/backend/path_queue.go:299-336 | Resets a retryable record, never one with an active claim |
| `Dispatch.Dispatcher.OperatorCancel` | internal/backend/path_queue.go:338-376 | Removes a record without an active claim and refuses otherwise |
| `Dispatch.Dispatcher.DeleteForAssociation` | internal/backend/storage_outbox.go:278-303 | Removes all operations of one association, or stops at an active claim having removed only unclaimed ones |
| `Reservations.ValidateReservations` | internal/backend/path_associations.go:1547-1569 | Accepts exactly when no other stored association of the destination reserves one of the names |
| `Reservations.ReservationUpdates` | internal/backend/path_data.go:281-320 | Succeeds exactly when the names computed for the payload are free and pairwise separate, and returns the changed associations in order |
| `Reservations.NoteNames` | internal/backend/path_data.go:299-307 | Detects a name that an earlier association of the same payload took |
| `Reservations.CheckNames` | internal/backend/path_data.go:294-310 | Both checks on one association, against storage and against the associations before it |
| `Reservations.PutKeepsUnique` | internal/backend/storage_association.go:9-57 | Storing a validated association keeps names unique per destination |
| `Reservations.UpdatesKeepUnique` | internal/backend/path_data.go:246-250 | So does any prefix of the updates of a data write, although a name may pass from one association to another |
| `Reservations.UpdatesAreCompatible` | internal/backend/path_data.go:281-320 | The accepted updates of a payload can be stored one by one in this order |
| `Reservations.WriteKeepsSound` | internal/backend/path_associations.go:565-617 | Creating or updating an association keeps names unique, and a failed enqueue leaves the associations as they were |
| `Reservations.EnableKeepsSound` | internal/backend/path_associations.go:345-448 | Enabling keeps names unique, also when it is rolled back |
| `Reservations.OthersKeepSound` | internal/backend/path_associations.go:306-343 | Disabling and deleting keep names unique |
| `Reservations.DataWriteKeepsSound` | internal/backend/path_data.go:246-250 | A data write keeps names unique after any number of its association updates |
| `Reservations.RunsStaySound` | internal/backend/path_associations.go:1547-1569 | At every point of every run of requests no two associations of a destination reserve one name |
| `AssociationRequests.WritePlan` | internal/backend/path_associations.go:565-617 | Refuses exactly when a name cannot be resolved or is taken, and then changes nothing; otherwise stores the record and rolls back if the enqueue fails |
| `AssociationRequests.StoreOrRollBack` | internal/backend/path_associations.go:591-673 | The single writes of storing an association and, after a failed enqueue, of its rollback |
| `AssociationRequests.RollbackRestores` | internal/backend/path_associations.go:663-673 | A complete rollback leaves all associations exactly as they were and all indexed |
| `AssociationRequests.StoreUpdates` | internal/backend/path_data.go:246-250 | The updates are stored in order, or a prefix if storage fails |
| `AssociationRequests.UpdateWritesPrefix` | internal/backend/path_data.go:246-250 | After every single storage write of the updates, some number of them is stored, the rest is untouched, names are unique and indexes complete |
| `RuntimeCaching.RuntimeCache.constructor` | internal/backend/provider_runtime_cache.go:199-209 | An empty cache satisfies the invariant |
| `RuntimeCaching.RuntimeCache.Find` | internal/backend/provider_runtime_cache.go:37-87 | A hit has the requested fingerprint; otherwise the caller joins the running build of the destination or starts the only one |
| `RuntimeCaching.RuntimeCache.Open` | internal/backend/provider_runtime_cache.go:89-105 | A newly opened runtime belongs to its builder |
| `RuntimeCaching.RuntimeCache.Publish` | internal/backend/provider_runtime_cache.go:107-149 | Publishing hands the runtime to the cache and the replaced one to the builder |
| `RuntimeCaching.RuntimeCache.Unregister` | internal/backend/provider_runtime_cache.go:107-149 | A build removes its own record only, never that of a build started after a clear |
| `RuntimeCaching.RuntimeCache.Finish` | internal/backend/provider_runtime_cache.go:107-149 | Caches exactly when neither epoch moved since the build started; otherwise the builder keeps the runtime to release it |
| `RuntimeCaching.RuntimeCache.Close` | internal/backend/provider_runtime_cache.go:211-216 | Closes a runtime its caller owns, for the first and only time |
| `RuntimeCaching.RuntimeCache.Invalidate` | internal/backend/provider_runtime_cache.go:169-180 | Removes the cached runtime, hands it to the caller and moves the epoch of the destination |
| `RuntimeCaching.RuntimeCache.Clear` | internal/backend/provider_runtime_cache.go:182-197 | Hands every cached runtime to the caller, moves the cache epoch and forgets the others |
| `RuntimeCaching.RuntimeCache.OpenUncached` | internal/backend/provider_runtime_cache.go:23-35 | With caching disabled the caller owns the runtime |
| `RuntimeCaching.RuntimeCache.LatePublishIsRefused` | internal/backend/provider_runtime_cache.go:107-149 | A build started before the latest clear, or before the latest invalidation of its destination, fails the epoch check, although a clear resets the destination epochs |
| `RuntimeCaching.RuntimeCache.OneBuildCanPublish` | internal/backend/provider_runtime_cache.go:37-87 | No two builds of one destination can both still publish |
| `RuntimeCaching.HandoverKeepsOwnership` | internal/backend/provider_runtime_cache.go:107-149 | Replacing a cached runtime keeps every runtime exactly one of cached, owned by one caller or closed once |
| `RuntimeCaching.Interleave` | internal/backend/provider_runtime_cache.go:37-216 | Every interleaving of lookups, opens, finishes, invalidations, clears and releases keeps the invariant, and every unclosed runtime outside the cache has its one owner |
| `OutboxStorage.OutboxWritesKeepIndexes` | internal/backend/storage_outbox.go:24-123 | After every single write of a put or a delete each stored operation still has its path, state and due-time entries |
| `OutboxStorage.SafeWritesKeepIndexes` | internal/backend/storage_outbox.go:24-123 | The same for any prefix of writes none of which takes an entry from a stored operation |
| `OutboxStorage.PutEffect` | internal/backend/storage_outbox.go:24-94 | A complete put replaces one record and touches index entries otherwise |
| `OutboxStorage.DeleteEffect` | internal/backend/storage_outbox.go:96-123 | A complete delete removes one record and touches index entries otherwise |
| `OutboxStorage.PutOutboxRecord` | internal/backend/storage_outbox.go:24-46 | The order of single writes: new entries, the record, stale entries |
| `OutboxStorage.DeleteOutboxRecord` | internal/backend/storage_outbox.go:96-114 | The order of single writes: the record, then its entries |
| `OutboxStorage.CancelQueuedOutboxIds` | internal/backend/storage_outbox.go:581-598 | Skips unknown and finished operations and stops at an active claim, keeping the deletions already made |
| `OutboxStorage.ListIdsForState` | internal/backend/storage_outbox.go:158-166 | Each operation in that state once and nothing else, despite stale entries |
| `OutboxStorage.ListQueuedIds` | internal/backend/storage_outbox.go:154-178 | Each queued operation once and nothing else |
| `OutboxStorage.ListQueuedIdsForPath` | internal/backend/storage_outbox.go:616-639 | Each queued operation of the path once and nothing else |
| `AssociationStorage.AssociationWritesKeepIndexes` | internal/backend/storage_association.go:9-128 | After every single write of a put or a delete each stored association still has its destination and name entries |
| `AssociationStorage.AssociationTextsCollide` | internal/backend/storage_records.go:335-345 | Two different associations whose ids are hashes of the same text |
| `AssociationStorage.PutAssociationEffect` | internal/backend/storage_association.go:9-57 | A complete put replaces one record and touches index entries otherwise |
| `AssociationStorage.DeleteAssociationEffect` | internal/backend/storage_association.go:81-98 | A complete delete removes one record and touches index entries otherwise |
| `AssociationStorage.PutAssociationRecord` | internal/backend/storage_association.go:9-57 | The order of single writes: new entries, the record, stale entries |
| `AssociationStorage.DeleteAssociationRecord` | internal/backend/storage_association.go:81-128 | The order of single writes of a delete |
| `AssociationStorage.ListReservingIds` | internal/backend/storage_association.go:181-210 | Equals a scan of all associations for those reserving the name, each once |
| `AssociationStorage.ListIdsForDestination` | internal/backend/storage_association.go:152-179 | Equals a scan of all associations for those of the destination, each once |
| `GitlabOwnership.OwnerIsRecognised` | internal/providers/gitlab/project_variables.go:1135-1165 | The identity that wrote a description is recognised from it if and only if all of it is set and neither the source path nor the object id begins with the mark of a hash without being that hash, unless the lengths of the earlier descriptions make it printed as a hash |
| `GitlabOwnership.PrintedRaw` | internal/providers/gitlab/project_variables.go:784-805 | Which identities are printed raw, told from the lengths of the descriptions tried before |
| `GitlabOwnership.UnmarkedOwnerIsRecognised` | internal/providers/gitlab/project_variables.go:1135-1165 | So every complete identity without those marks owns what it wrote, at every compaction stage and whatever is escaped |
| `GitlabOwnership.MarkedPathIsDisowned` | internal/providers/gitlab/project_variables.go:903-914 | A source path of at most 22 bytes that begins with `path#` is never recognised |
| `GitlabOwnership.MarkedObjectIsDisowned` | internal/providers/gitlab/project_variables.go:903-914 | Nor is an object id of at most 22 bytes that begins with `object#` |
| `GitlabOwnership.MarkedExample` | internal/providers/gitlab/project_variables.go:964-1006 | The concrete path `path#app` is disowned by its own writer |
| `GitlabOwnership.MarkedObjectExample` | internal/providers/gitlab/project_variables.go:964-1006 | So is the concrete object id `object#key` |
| `GitlabOwnership.DescriptionReadsBack` | internal/providers/gitlab/project_variables.go:784-859 | Parsing what was printed succeeds and returns the association id, version, payload hash and format, at every compaction stage |
| `GitlabOwnership.HumanReadsBack` | internal/providers/gitlab/project_variables.go:812-953 | Every field of any printed metadata with some non-empty field reads back |
| `GitlabOwnership.FieldsReadBack` | internal/providers/gitlab/project_variables.go:1025-1044 | Joined escaped fields split and parse into the map of the non-empty ones |
| `GitlabOwnership.SummaryReadBack` | internal/providers/gitlab/project_variables.go:964-1006 | The three summary parts read back, with spaces and separators inside them |
| `GitlabOwnership.DescriptionFits` | internal/providers/gitlab/project_variables.go:784-805 | Descriptions of ordinary metadata with versions below 1000 have at most 255 bytes |
| `GitlabOwnership.CompactLength` | internal/providers/gitlab/project_variables.go:784-805 | In the last stage a description has at most 252 bytes and the version digits |
| `GitlabDescription.StageFrom` | internal/providers/gitlab/project_variables.go:784-805 | The stage chosen fits unless it is the last, and no stage tried before it fits |
| `GitlabDescription.ParseDescriptionFields` | internal/providers/gitlab/project_variables.go:1025-1044 | The loop computes the field map of the split text, or fails exactly when some field is malformed |
| `GitlabEscaping.EscapeValue` | internal/providers/gitlab/project_variables.go:861-901 | The loop computes the escaping of every character that separates or escapes |
| `GitlabEscaping.SplitEscaped` | internal/providers/gitlab/project_variables.go:1046-1100 | The loop splits at unescaped separators only, trimming the parts |
| `GitlabEscaping.CutSummary` | internal/providers/gitlab/project_variables.go:1008-1023 | The loop cuts at the first unescaped semicolon |
| `GitlabEscaping.UnescapeValue` | internal/providers/gitlab/project_variables.go:1102-1133 | The loop undoes the escapes, or fails exactly on an unknown or unfinished one |
| `GitlabEscaping.UnescapeOfEscape` | internal/providers/gitlab/project_variables.go:861-901 | Unescaping an escaped value gives the value back, whatever it contains |
| `GitlabEscaping.ScanOfEscape` | internal/providers/gitlab/project_variables.go:1046-1100 | An escaped value is never split |
| `GitlabEscaping.CutOfEscape` | internal/providers/gitlab/project_variables.go:1008-1023 | An escaped value never ends the summary |
| `Numbers.ItoaRead` | internal/providers/gitlab/project_variables.go:988-1003 | A printed version reads back, with nothing in it to escape |
| `KubernetesSecrets.PlanPredictsUpsert` | internal/providers/kubernetessecrets/provider.go:165-287 | A planned create, update, noop and refusal are one create call, one update call, no write and an error of the upsert, despite the different order of checks, if and only if the payload is within the size limit or the plan refuses anyway |
| `KubernetesSecrets.UpsertSettlesPlan` | internal/providers/kubernetessecrets/provider.go:237-287 | After an accepted upsert the same plan is a noop if and only if the request names its owner completely (for a new Secret) and the Secret is Opaque or its payload was rewritten |
| `KubernetesSecrets.OversizedPayloadIsPlanned` | internal/providers/kubernetessecrets/provider.go:242-244 | A concrete payload over the limit that is planned as a create and refused by the upsert |
| `KubernetesSecrets.OtherTypeIsKept` | internal/providers/kubernetessecrets/provider.go:262-287 | A concrete Secret of another type whose upsert is planned again and again |
| `KubernetesSecrets.IncompleteIdentityIsDisowned` | internal/providers/kubernetessecrets/provider.go:840-857 | A request without a mount identity does not own the Secret it creates |
| `KubernetesSecrets.ForeignKeysStay` | internal/providers/kubernetessecrets/provider.go:668-772 | A data-map upsert sets exactly the desired keys and keeps every unmanaged one; a delete removes exactly the managed ones, and the whole Secret exactly when nothing else is in it; foreign labels and annotations stay |
| `KubernetesSecrets.MergeDataMap` | internal/providers/kubernetessecrets/provider.go:1051-1063 | The loops compute the existing data without its managed keys, overlaid with the desired data |
| `KubernetesSecrets.FindUnmanagedConflict` | internal/providers/kubernetessecrets/provider.go:1036-1049 | A conflict is a desired key that is stored and not managed |
| `KubernetesSecrets.NoopHasNoConflict` | internal/providers/kubernetessecrets/provider.go:894-915 | A data map already in place never hides a conflict, so the order of the checks does not matter |
| `Retry.RetryDelayBounds` | internal/backend/dispatcher.go:1215-1236 | A retry is due between 30 seconds and 5 minutes later if and only if its attempt is below the 30th, or below the 55th with the bit of 29296875 that reaches the sign of the 64-bit shift clear |
| `Retry.EarlyAttemptsFit` | internal/backend/dispatcher.go:1227-1236 | The first 29 attempts have enough bits |
| `Retry.ShiftedSign` | internal/backend/dispatcher.go:1227-1236 | From the 30th attempt on the shifted delay is negative, zero or beyond the maximum, by that bit |
| `Retry.ThirtiethAttemptOverflows` | internal/backend/dispatcher.go:1227-1236 | The delay of a 30th attempt would be negative, that of a 55th zero |
| `Retry.RetryDelayGrows` | internal/backend/dispatcher.go:1215-1269 | A later attempt never waits less than an earlier one, whatever the jitter |
| `Retry.ComputeJitterSlot` | internal/backend/dispatcher.go:1256-1269 | The loop stays below the number of slots and depends on identity and attempt only |
| `Retry.RetrySeconds` | internal/backend/dispatcher.go:1215-1225 | An automatic retry waits between 30 and 300 seconds |
| `Dispatch.ProcessingUsesAttempts` | internal/backend/dispatcher.go:964-1004 | Each processed operation lowers the number of attempts left over all queued operations |
| `Dispatch.PassLeavesNothingDue` | internal/backend/dispatcher.go:41-85 | A pass over all due operations leaves none that could have been claimed at its start |
| `Dispatch.Dispatcher.ProcessClaimed` | internal/backend/dispatcher.go:221-319 | A processed operation is gone, terminal, or due again between 30 seconds and 5 minutes later; every other operation is untouched |
| `Dispatch.Dispatcher.DispatchOne` | internal/backend/dispatcher.go:60-80 | One turn processes one operation or none and touches no other |
| `Dispatch.Dispatcher.ProcessDue` | internal/backend/dispatcher.go:41-85 | Processed operations plus attempts left never exceed the attempts left before; without reaching its limit the pass leaves nothing due |
| `Dispatch.Dispatcher.RunEventDispatch` | internal/backend/event_dispatch.go:126-156 | The loop ends, and then nothing can be claimed at its last clock reading |
| `Dispatch.Dispatcher.PruneTerminal` | internal/backend/storage_outbox.go:324-351 | As a dispatch step pruning removes finished operations only |
| `QueueDepths.DepthAfterMutation` | internal/backend/enqueue.go:21-43 | A finished mutation changes the queue depth by exactly newly queued minus replaced |
| `QueueDepths.MutationWithinCapacity` | internal/backend/enqueue.go:21-43 | A mutation that passed the check leaves the queue within capacity or no deeper than it was |
| `QueueDepths.WriteWithinCapacity` | internal/backend/path_data.go:230-245 | The same for data writes, with or without operations |
| `QueueDepths.VersionMutationWithinCapacity` | internal/backend/path_versions.go:181-336 | The same for deletes, undeletes and destroys of the current version, also those that only cancel or repeat |
| `CrashSafety.CompletedOutbox` | internal/backend/path_data.go:258-278 | A complete commit removes what it replaces, stores each of its operations and touches no other record |
| `QueueDepths.AdditionalCounts` | internal/backend/enqueue.go:72-88 | The count of additional operations is the number of different new ids that are not queued yet |
| `SourceMutations.EnsureCapacity` | internal/backend/enqueue.go:21-43 | Passes exactly when nothing is added on balance or the result fits, counting the stored records themselves |
| `SourceMutations.AdditionalOperations` | internal/backend/enqueue.go:72-88 | The loop counts operations whose id is not queued |
| `SourceMutations.StaleUpsertIds` | internal/backend/enqueue.go:90-133 | Lists exactly the queued upserts of the same objects that a new version replaces and that no active claim protects, each once |
| `SourceMutations.EnsureUnclaimed` | internal/backend/storage_outbox.go:600-614 | Passes exactly when no listed queued operation has an active claim |
| `AssociationEnqueue.EnqueueAssociations` | internal/backend/association_enqueue.go:21-102 | Refuses exactly when the additional operations do not fit, and then changes nothing |
| `AssociationEnqueue.ReenqueueEffect` | internal/backend/association_enqueue.go:21-102 | A re-enqueue leaves every queued record, its claim and its schedule as they were, queues every requested operation, and deepens the queue by exactly the additional ones, within capacity |
| `AssociationEnqueue.PreserveQueued` | internal/backend/association_enqueue.go:59-75 | The loop keeps queued records and carries creation time and claim counter over from finished ones |
| `AssociationEnqueue.CommitEnqueue` | internal/backend/association_enqueue.go:76-102 | Intent, operations and intent removal in this order, or a prefix |
| `OutboxQueries.ListDueIds` | internal/backend/storage_outbox.go:180-207 | Exactly the queued operations due by now, in due-time-then-id order, each once, despite stale entries and the early exit |
| `OutboxQueries.NextFutureDueTime` | internal/backend/storage_outbox.go:209-246 | The least due time after now, so every queued operation is in the due listing or due no earlier than it |
| `SourceRuns.WriteKeepsSource` | internal/backend/path_data.go:334-373 | After a write the metadata mirrors the versions, the new version is current, and precisely the versions older than the window that no queued upsert references are gone |
| `SourceRuns.MutationKeepsSource` | internal/backend/path_versions.go:181-336 | A current-version mutation changes one version record and its metadata entry alike |
| `SourceRuns.DirectKeepsSource` | internal/backend/path_versions.go:157-179 | So does a mutation of any stored version outside the enqueue path |
| `SourceRuns.ChangeKeepsSource` | internal/backend/path_metadata.go:135-180 | A changed version limit prunes precisely the versions that are too old and not referenced |
| `SourceRuns.NextKeepsSource` | internal/backend/storage_source.go:141-212 | Every source request keeps the mirror, a stored current version and the least retained version |
| `SourceRuns.RunsKeepSource` | internal/backend/storage_source.go:141-212 | The same at every point of every run |
| `SourceRuns.CommitSource` | internal/backend/path_data.go:334-373 | What a complete commit does to metadata and versions |
| `SourceRuns.WriteMetadata` | internal/backend/path_metadata.go:135-180 | Pruning first, then the metadata, or a prefix |
| `SourceStorage.PruneExcessVersions` | internal/backend/storage_source.go:141-172 | Deletes exactly the prunable versions, in the order of the map, and drops the same ones from the metadata |
| `SourceStorage.OldestVersion` | internal/backend/storage_source.go:174-180 | The least key of the version map, zero if it is empty |
| `SourceStorage.QueuedUpsertVersionsForPath` | internal/backend/storage_source.go:195-212 | Exactly the versions that queued upserts of the path reference |
| `SourceStorage.CommitSourceMetadata` | internal/backend/path_data.go:353-373 | Pruning first, then the advanced metadata, or a prefix |
| `Naming.ObjectNamesAreInjective` | internal/backend/granularity.go:133-154 | With `{{ key }}` in the template, equal rendered names come from equal keys, even after slash trimming and whatever other tokens the template holds |
| `Naming.DistinctObjectsHaveDistinctNames` | internal/backend/granularity.go:113-131 | One association never sends two objects to one remote name |
| `Naming.DataKeysAreInjective` | internal/backend/granularity.go:63-72 | Equal rendered data keys come from equal source keys |
| `Naming.BuildDataMap` | internal/backend/dispatcher.go:871-897 | Succeeds exactly when every key and value is acceptable, and then holds one entry per source key with its value, whatever the iteration order |
| `TerminalPruning.SelectionIsBoundedAndOldest` | internal/backend/storage_outbox.go:353-393 | A selection has at most the excess limit plus the expired limit if both are positive, is empty exactly when nothing is over the maximum or expired, and takes an unexpired record only if it is older than all it leaves |
| `TerminalPruning.PruneCandidates` | internal/backend/storage_outbox.go:353-393 | Sorts by retention time and id, and selects the oldest above the maximum, then expired ones, each group up to its limit |
| `TerminalPruning.Select` | internal/backend/storage_outbox.go:378-458 | The loop with its two counters computes that selection |
| `TerminalPruning.SortByRetention` | internal/backend/storage_outbox.go:360-367 | The same records, oldest first |
| `TerminalPruning.PruneOne` | internal/backend/storage_outbox.go:395-422 | Deletes a listed record only if it is unchanged and no claim on it is active; a failed delete keeps the indexes complete |
| `TerminalPruning.PruneTerminalRecords` | internal/backend/storage_outbox.go:324-351 | A pass, complete or cut short, removes finished operations only and no more than the limits allow |
| `TerminalPruning.PassShrinks` | internal/backend/storage_outbox.go:324-393 | A pass strictly shrinks the finished operations unless there is nothing to prune, and then changes nothing |
| `TerminalPruning.PassesSettle` | internal/backend/storage_outbox.go:324-393 | At a fixed clock, as many passes as there are finished operations leave at most the maximum and none expired |

## Left out

- Native storage transactions: the model is the path without them, where every Put and Delete stands alone.
- Requests between a crash and the recovery that follows it: handlers do not recover first, and the crash properties are about a crash followed by recovery.
- Crashes inside mutations without an intent (metadata changes, direct mutations of older versions, deletion of a whole path): nothing repairs them, and the run properties take them as complete.
- Association updates of a data write when it is cut off: they are not undone by recovery; `AssociationRequests.UpdateWritesPrefix` says what remains of them.
- Salted enqueues (manual sync, drift repair, changed association settings): the same writes with ids that are always new.
- Check-and-set: a comparison of the requested version with the current one before the write.
- Status records beyond version, operation, verdict and time; resolved names and hashes in them.
- SHA-256 ids, hashes and fingerprints: compared only for equality, or functions assumed injective where a property needs it; the GitLab identity hash is any function to 22 base64url characters.
- Ids made of joined text: association and operation ids are taken to identify what they name, which is an assumption about the names as well as about the hash.
- JSON encoding, time parsing and random ids: parameters or plain values. Times are seconds, and zero stands for an unparsable time where the code falls back.
- Integer widths of version counters, epochs and `strconv.Atoi`: unbounded here. The retry shift is modelled on 64 bits.
- Invalid UTF-8 in GitLab identities: strings are sequences of characters, and lengths count their UTF-8 bytes.
- Provider calls: a nondeterministic success, error class, stale upsert or interruption. The global switch, destination policy and source eligibility checks around them are not part of the model.
- Kubernetes API rejections, Secret name and key rules: the request carries the verdict of the name and key rules. Error classes of a failed upsert are not told apart.
- The GitLab HTTP client, variable options, masking and hiding rules.
- AWS provider, endpoint address checks, association prefix policy, request parsing, responses, metrics, logging and replication checks.
- Goroutines, timers and channels of the event loop and of build waiting: each locked section is one atomic step, and a waiter simply looks again.
- Dispatch in place on storage: `Dispatch.Dispatcher` keeps outbox and status as maps in fields; that every storage write of a put or delete keeps listings right is proved in `OutboxStorage`, but a dispatch step cut off inside one commit is not modelled.
