# SarembokVE: verified models

This project models the stateful core of SarembokVE in Dafny and proves what its documentation, tests and structure
promise of it, over every input and every run. Where the code and its promise part ways, the model follows the code, one
lemma gives an input that shows it, and another states exactly when the promise holds.

**The knowledge store** (`Lifecycle`, `EventBus`, `EventLog`, `StateReducer`, `JsonText`, `CanonicalJson`,
`StateSnapshot`, `Sorting`, `Recovery`, `Decoding`, `Sqlite`, `Persistence`, `Runtime`, `Api`) is a small event-sourced
database: a lifecycle graph, a gap-free durable log, a reducer that folds it, digest-checked snapshots, recovery, and an
API that plans events. The classes follow the source's objects method by method and are proved against pure functions.
`StoreModel` puts those functions together, and `StoreRuns` runs them as a machine of durable tables and volatile memory
in which a publish is four separate steps (log, store, reduce, deliver), any write can fail and a crash can come between
any two steps. The main result is `StoreRuns.CrashSafety`. It rests on `PlannedEventFits`: an event is made durable
before the reducer checks it, and only the way the API builds events keeps the log foldable (`RefusedEventPoisonsTheLog`
says what any other event does). `DirectPublish` runs the same machine with any events at all. `TransitionRules`,
`RecoveryReports` and `StoreRules` say which transitions happen, what recovery reports and what each part accepts, in
terms of states, texts and rows alone. `StoreCounterexamples` holds the failing inputs.

**The ledgers** (`AuditLedger`, `AuditTampering`, `WalStore`, `WalRuns`, `WalLimits`, `WalTampering`,
`WalCounterexamples`) keep their real header texts. SHA-256 is a parameter (`Hashing`); a claim that rests on collision
resistance names the finitely many texts on which no collision may occur.

**Context paging** (`Paging`, `PagingRuns`, `PagingRecency`, `PagingAccount`, `PagingLimit`, `PagingCollisions`) is a
heap of page objects moving between two tiers, compared with a dictionary that has none.

**The smaller pieces** are the group-commit writer (`GroupCommit`, `GroupCommitRuns`, `GroupCommitStops`,
`GroupCommitFutures`), the long-horizon task engine (`LongHorizon`), the contract gate (`ContractDiff`, `ContractGate`,
`ContractSight`, `ContractDetect`, `ContractExact`, `ContractBlind`, `ContractReport`), the consensus network
(`Consensus`, `ConsensusRuns`, `ConsensusRules`), the loop detector (`LoopDetector`, `LoopReports`) and the bracket
check (`Brackets`). `Results`, `Text`, `SortedKeys`, `Folding` and `Hashing` are shared.

Clock readings, generated ids, failures of a backend, arrivals from other threads and results of semantic search are
inputs of the operations. Floats are exact reals.

## Where code and promise differ

Each point names the failing input and the exact condition.

- `verify_chain_integrity` says that no record was altered, deleted or backdated. It knows nothing but the ledger itself
  and passes exactly the ledgers whose hashes are recomputed from their contents (`VerifiesExactlyWhenRehashed`), so any
  contents can be made to pass (`ForgedLedgerVerifies`, `LastRecordCanBeRewritten`). Such a rewriting changes every
  block hash from the first altered record on (`HashKeptExactlyBeforeAlterations`): against a remembered last hash
  alteration is noticed exactly (`AlterationIsNoticed`), but for digits of the timestamp beyond the sixth and for an
  agent id with a colon, which lets the attribution move between agent and mutation (`ColonShiftsAttribution`;
  `AgentTextSplits`). Deletion goes unnoticed exactly at the end of the ledger (`DeletionIsNoticed`; any rearrangement:
  `OnlyPrefixesVerify`).
- `recover` with a target returns the whole log's state, and no error, when no checkpoint lies at or before the target
  (`TargetIsIgnored`; `PointInTime`).
- An event published past the planning API is stored before the reducer refuses it. No process starts then, until the
  one that published it takes a checkpoint; after that one starts without the event (`LateEventBlocksRestart`,
  `CheckpointForgetsLateEvent`; `AnyRunRestartsExactly`).
- The digest of a snapshot protects against alterations under an unchanged digest (`TamperingIsNoticed`), not against a
  recomputed one (`ForgedSnapshotIsBelieved`) and not against unreadable payloads: one that does not decode keeps the
  process from starting (`EmptyPayloadBlocksRestart`; `RestartNeedsReadablePayloads`).
- A failing event handler is reported after the event is durable and applied (`FailingHandlerLeavesTheEvent`;
  `RaisesAfterStoring`).
- `verifyIntegrity` says that it throws if any log frame was modified. It passes exactly the rows whose stored hashes
  are absent or recomputed from the payloads (`VerifiesExactlyWhenHashesFit`; `BlankedRowsVerify`,
  `RehashedRowsVerify`); with the hashes unchanged it notices exactly changes of payloads
  (`EditIsNoticedExactlyInPayloads`). The last row of a session can be removed unnoticed (`RemovalIsNoticed`).
- `verifyIntegrity` without a session throws as soon as two sessions have rows (`TwoSessionsFailTogether`;
  `WholeTableNeedsOneSession`), and a session with the empty id is verified that way too (`VerifyIntegrityAfterRuns`). A
  reused task id breaks the chain it is taken from (`ReusedIdInTwoRows`, `ForeignIdInTwoRows`; `ReusedIdBreaksOwnChain`,
  `ReusedIdBreaksOtherChain`).
- The working-set limit is enforced on allocation only: a fault served while the set is full exceeds it
  (`EveryLimitCanBeExceeded`; `LimitBrokenExactlyByServedFault`, `RunKeepsLimitExactly`).
- An underscore in a pid can make two pages share a document (`UnderscorePidsCollide`;
  `PagingIsAMapExactlyWithoutCollision`).
- A stop that the writer notices before its shutdown message leaves the message for the next writer, which may end on it
  while the manager counts as running (`StaleShutdownEndsTheNextWriter`; `LeftoversEndWriterExactly`).
- A completed or failed task can be recovered and run again (`CompletedTaskRunsAgain`; `RecoveryRevives`).
- The drift gate is documented as exact on breaking changes. Between plain names it is exact on endpoints, statuses and
  typed property paths of up to five levels (`GateDetectsExactly`). It does not see types of bodies and array items
  (`RetypedBodyPasses`, `RetypedItemsPass`), the content type a field belongs to (`DroppedContentTypePasses`) and
  anything below the fifth level (`DeepRemovalPasses`), and of what responses promise by path and type that is all it
  does not see (`GateAndUnseenMakeTheWhole`). A dotted name can hide a removal (`DottedRemovalPasses`), and a second
  spelling of a method is reported as breaking though nothing was removed (`SecondSpellingFailsTheGate`; for any
  spellings `GatePassesExactlyOnLastSpellings`).
- Rollback searches below 0.88 whatever the network's own threshold (`RollbackIsSafeExactlyUpToBound`, with the run).
- The bracket check accepts text that is never closed (`OpenBracketIsAccepted`; `AcceptsExactlyThePrefixes`).
- Loop-detector limits below one repeat or two cycles stop every trajectory within a fixed length, whatever its calls
  (`OtherLimitsNeverStayQuiet`, for every such input; the longest quiet ones: `OtherLimitsBoundIsMet`).

## Model

| member | source | states |
|---|---|---|
| `Lifecycle.TrustNeedsVerification` | Runtime/sarembok_knowledge_lifecycle.py:39-56 | on every walk of the transition graph from a state that is neither trusted nor pending, a verifying, trusted or pending end has been verifying at some point since which it was never discovered, quarantined or retired |
| `Lifecycle.WhoMayEnter` | Runtime/sarembok_knowledge_lifecycle.py:39-56 | the whole graph by the state entered: discovered from nowhere, quarantined from all but itself and retired, and so on for each |
| `Lifecycle.StateTextReadsBack` | Runtime/sarembok_knowledge_lifecycle.py:19-25 | each state is parsed back from its own text |
| `EventBus.KnowledgeLifecycleEventBus.Publish` | Runtime/sarembok_knowledge_event_bus.py:38-49 | an event is recorded once, after the three checks and before the handlers run, so a failing handler leaves it recorded |
| `EventLog.KnowledgeEventLog.Append` | Runtime/sarembok_knowledge_event_log.py:33-41 | the next sequence number and an unused id, or the error and no change |
| `EventLog.KnowledgeEventLog.Undo` | Runtime/sarembok_knowledge_persistence.py:58-61 | taking back an append restores entries and ids exactly |
| `EventLog.KnowledgeEventLog.Replay` | Runtime/sarembok_knowledge_event_log.py:46-56 | the events handed to the handler and their count, for any start, or the error |
| `EventLog.ReplayIsSuffix` | Runtime/sarembok_knowledge_event_log.py:46-56 | on a gap-free log, replay from k+1 hands over exactly the entries after the first k |
| `StateReducer.KnowledgeStateReducer.Apply` | Runtime/sarembok_knowledge_state_reducer.py:35-60 | the new state map is the checked update of the old one; a refused event changes nothing |
| `StateReducer.KnowledgeStateReducer.Rebuild` | Runtime/sarembok_knowledge_state_reducer.py:62-72 | the loop computes the fold of the log from the empty map, and on an error leaves the part folded before it |
| `StateReducer.FoldedPartIsLongestPrefix` | Runtime/sarembok_knowledge_state_reducer.py:62-72 | what a failed rebuild leaves behind is the fold of the longest prefix that folds |
| `StateReducer.FoldSplits` | Runtime/sarembok_knowledge_state_reducer.py:62-72 | folding a concatenation is folding its second half onto the fold of the first, errors included |
| `StateReducer.FoldPrefix` | Runtime/sarembok_knowledge_state_reducer.py:62-72 | every prefix of a foldable log folds, and the rest folds onto it to the same state |
| `StateReducer.FoldedIsGapFree` | Runtime/sarembok_knowledge_state_reducer.py:64-71 | a log that folds is numbered without gaps |
| `StateReducer.FoldWithin` | Runtime/sarembok_knowledge_state_reducer.py:44-60 | no item's last sequence exceeds the number of events folded |
| `JsonText.StringReadsBack` | Runtime/sarembok_knowledge_state_snapshot.py:72-72 | a JSON string literal, with short escapes, unicode escapes and surrogate pairs, reads back as the string it was written for and stops where it ended |
| `CanonicalJson.StatesReadBack` | Runtime/sarembok_knowledge_sqlite.py:146-178 | the text saved for a state map reads back as that map, whatever the keys and field texts contain |
| `CanonicalJson.DigestTextInjective` | Runtime/sarembok_knowledge_state_snapshot.py:63-73 | two different pairs of sequence and states never have the same hashed text |
| `CanonicalJson.InsertionOrderForgotten` | Runtime/sarembok_knowledge_state_snapshot.py:67-70 | for any insertion order of a dict, sorting its items gives the text of the map it stands for |
| `CanonicalJson.OneItemText` | Runtime/sarembok_knowledge_state_snapshot.py:67-73 | the text of one item, key by key as it is written |
| `StateSnapshot.FreshSnapshotIsIntact` | Runtime/sarembok_knowledge_state_snapshot.py:33-47 | a snapshot just created restores |
| `StateSnapshot.TamperingIsNoticed` | Runtime/sarembok_knowledge_state_snapshot.py:40-44 | under an unchanged digest a snapshot restores if and only if it is unchanged, up to a collision on exactly the two texts involved |
| `StoreCounterexamples.ForgedSnapshotIsBelieved` | Runtime/sarembok_knowledge_state_snapshot.py:40-47 | any states at all, saved with their digest recomputed at the last sequence, are what a process starts with |
| `StateSnapshot.KnowledgeStateSnapshotManager.RestoreAndReplay` | Runtime/sarembok_knowledge_state_snapshot.py:49-61 | the restored reducer holds the fold of the later entries onto the snapshot's states, or the error of the first entry that does not fit |
| `Sorting.SortRestoresLog` | Runtime/sarembok_knowledge_recovery.py:44-44 | sorting by sequence undoes any shuffling of a log with increasing sequences |
| `Recovery.KnowledgeRecoveryManager.Recover` | Runtime/sarembok_knowledge_recovery.py:37-81 | the loops compute the recovery function: usable checkpoints, the latest of them, its delta, or the full replay, with every error |
| `Recovery.CheckpointIndependence` | Runtime/sarembok_knowledge_recovery.py:37-81 | without a target, whichever checkpoints exist (each the true fold of its prefix or failing its digest) and in whatever order the events come, recovery succeeds with the fold of the whole log and its final sequence; a prefix covered by an intact checkpoint may even be missing |
| `Recovery.PointInTime` | Runtime/sarembok_knowledge_recovery.py:54-81 | for a target within the log recovery succeeds, and reaches the target's prefix and sequence if and only if an intact checkpoint lies at or before it or it is the end of the log; otherwise it returns the whole log's state |
| `Recovery.BeyondTheLog` | Runtime/sarembok_knowledge_recovery.py:59-81 | for a target past the end: the whole log if any checkpoint is intact, the empty state if there is nothing at all, an error otherwise |
| `Recovery.LongerPrefixDiffers` | Runtime/sarembok_knowledge_recovery.py:57-81 | different prefixes of a log never fold to the same state, so reaching a point in time is not a coincidence |
| `RecoveryReports.ReportIsDetermined` | Runtime/sarembok_knowledge_recovery.py:37-81 | for any event order, any true or broken checkpoints and any target the whole report or the error: recovered from the greatest usable last sequence with the number of events left to the stop, or empty, or a full replay, or a target past the end |
| `RecoveryReports.StoreReport` | Runtime/sarembok_knowledge_runtime.py:37-44 | of any sound database: the latest stored snapshot and the number of events behind it, or a full replay, or empty |
| `StoreRules.RecoversFromFirstLatest` | Runtime/sarembok_knowledge_recovery.py:44-56 | for any checkpoints, events and target: recovery starts from the latest checkpoint that restores and is not beyond the target, the first listed among equals, and from nothing only where there is none |
| `StoreRules.SnapshotReplaysToLog` | Runtime/sarembok_knowledge_state_snapshot.py:49-61 | replaying the rest of a log onto an intact snapshot of its beginning gives the state of the whole log |
| `StoreRules.WrongStartIsReported` | Runtime/sarembok_knowledge_recovery.py:62-78 | entries that do not begin right after the snapshot, or a log that does not begin with one, raise the error that says so |
| `StoreCounterexamples.TargetIsIgnored` | Runtime/sarembok_knowledge_recovery.py:54-81 | an input: two events, no checkpoint, target 1; recovery reports success with both events applied |
| `Decoding.DecodesRowwise` | Runtime/sarembok_knowledge_sqlite.py:130-144 | loading succeeds exactly when every row decodes, and yields the decoded rows in order |
| `Decoding.DecodeRows` | Runtime/sarembok_knowledge_sqlite.py:165-178 | the decoding loop computes that, stopping at the first row that fails |
| `Sqlite.RowReadsBack` | Runtime/sarembok_knowledge_sqlite.py:104-144 | an event entry comes back from its row unchanged |
| `Sqlite.SnapshotReadsBack` | Runtime/sarembok_knowledge_sqlite.py:146-178 | a snapshot comes back from its row unchanged, so its digest still checks |
| `Sqlite.InsertKeepsConstraints` | Runtime/sarembok_knowledge_sqlite.py:53-60 | an insert that violates no constraint keeps sequences ascending and event ids unique |
| `Sqlite.LogLoads` | Runtime/sarembok_knowledge_sqlite.py:121-144 | a stored gap-free log loads as itself |
| `Sqlite.LogExtends` | Runtime/sarembok_knowledge_sqlite.py:104-119 | appending the next entry with a new id extends the table by exactly its row |
| `Sqlite.UpsertIsIdempotent` | Runtime/sarembok_knowledge_sqlite.py:153-158 | saving the same snapshot row again changes nothing |
| `Sqlite.UpsertKeepsOrder` | Runtime/sarembok_knowledge_sqlite.py:153-164 | saving keeps the snapshot table in key order, one row a sequence |
| `Sqlite.SQLiteKnowledgePersistenceBackend.AppendEvent` | Runtime/sarembok_knowledge_sqlite.py:104-119 | the row is inserted, or the constraint or backend error is raised with the tables unchanged |
| `Sqlite.SQLiteKnowledgePersistenceBackend.CreateKnowledge` | Runtime/sarembok_knowledge_sqlite.py:69-82 | the entity is inserted under its initial state, or the error is raised with the tables unchanged |
| `Persistence.KnowledgePersistenceAdapter.HydrateEventLog` | Runtime/sarembok_knowledge_persistence.py:44-52 | the in-memory log becomes the stored one, or the gap error is raised |
| `Persistence.KnowledgePersistenceAdapter.Append` | Runtime/sarembok_knowledge_persistence.py:54-62 | an entry is logged and stored together; when the backend fails neither is left |
| `Persistence.LoadedInOrder` | Runtime/sarembok_knowledge_persistence.py:86-90 | the table's constraints make loaded entries arrive in order under distinct ids |
| `Persistence.StoredLogLoads` | Runtime/sarembok_knowledge_persistence.py:44-52 | a stored gap-free log is hydrated, and loaded, as itself |
| `StoreRules.HydratesExactly` | Runtime/sarembok_knowledge_persistence.py:38-52 | a database loads if and only if the rows numbered from one on decode and run without a gap |
| `StoreRuns.CrashSafety` | Runtime/sarembok_knowledge_runtime.py:37-57 | after every interleaving of create, transition, checkpoint, recover, failed writes and crashes, also between the steps of a publish: the stored log is numbered 1..n under distinct ids and folds, every stored snapshot is the true fold of its prefix, recovery and restart succeed with the fold of what is on disk, and whenever no publish is in progress memory holds the same entries and ids and the reducer is that fold |
| `StoreRuns.EveryRunKeepsInv` | Runtime/sarembok_knowledge_runtime.py:27-57 | the invariant behind it holds after every run |
| `StoreRuns.PlannedEventFits` | Runtime/sarembok_knowledge_api.py:56-67 | whatever the API plans from the current state is an event the reducer accepts at the end of the log |
| `StoreRuns.LawfulFolds` | Runtime/sarembok_knowledge_state_reducer.py:35-72 | a log built from such events never fails to fold, and folds to each item's latest state |
| `StoreRuns.StoredPublishFinishes` | Runtime/sarembok_knowledge_runtime.py:46-50 | once an event is durable, the rest of its publish cannot be refused |
| `StoreRuns.DurableLogOnlyGrows` | Runtime/sarembok_knowledge_persistence.py:54-62 | the durable log of any earlier point of a run is a prefix of every later one, across failures and crashes |
| `StoreRuns.RecoveryChangesNothing` | Runtime/sarembok_knowledge_runtime.py:37-44 | recovering while nothing is in progress changes nothing |
| `StoreRuns.SecondCheckpointChangesNothing` | Runtime/sarembok_knowledge_runtime.py:52-57 | checkpointing again with no new events stores exactly what is stored |
| `StoreRuns.SoundDatabaseRecovers` | Runtime/sarembok_knowledge_runtime.py:27-44 | from a sound database a new process comes up with the fold of the log, whatever snapshots it starts from |
| `StoreRuns.ItemsWalkTheGraph` | Runtime/sarembok_knowledge_api.py:56-75 | in every run an item's events form a walk of the allowed graph from its initial state, the API answers the end of that walk, and an item not created trusted or pending is trusted only after a verification since which it was never discovered, quarantined or retired |
| `TransitionRules.PlannedExactlyWhenPermitted` | Runtime/sarembok_knowledge_api.py:56-67 | a transition is planned if and only if a reason is given and the text of the target names a state that may be entered from the item's current one, the moves spelled out; the plan is that move |
| `TransitionRules.RefusedExactly` | Runtime/sarembok_knowledge_api.py:56-67 | which of the six errors a refused transition raises, by the stored texts and the arguments |
| `TransitionRules.PermittedMoveHappens` | Runtime/sarembok_knowledge_api.py:56-75 | a permitted move under a new event id is stored, published and answered with the next sequence, and leaves the item in the target state |
| `StoreRuns.PublishIsItsSteps` | Runtime/sarembok_knowledge_runtime.py:46-50 | a whole transition call, with or without a failure, ends where the run of its single steps ends |
| `StoreRuns.RefusedEventPoisonsTheLog` | Runtime/sarembok_knowledge_runtime.py:46-50 | for any event handed to publish directly: from the database it leaves, a process can start if and only if the reducer accepted the event |
| `StoreCounterexamples.LateEventBlocksRestart` | Runtime/sarembok_knowledge_runtime.py:46-50 | an input: an event that leaves the state its item was created in after the item has left it; it is stored and refused, and no process starts from the database |
| `DirectPublish.ReplayMeetsLive` | Runtime/sarembok_knowledge_state_reducer.py:62-72 | replaying the rest of a log onto the running reducer's states succeeds if and only if that reducer refused none of it, and gives its states |
| `DirectPublish.AnyRunRestartsExactly` | Runtime/sarembok_knowledge_runtime.py:27-57 | in every run in which any events are published, with failing writes, checkpoints, recoveries and crashes at any step: a process can start from the database if and only if every event that the running reducer refused lies under a later snapshot, and it starts with the states from which the refused events are missing |
| `DirectPublish.RefusalLastsUntilCheckpoint` | Runtime/sarembok_knowledge_runtime.py:46-57 | after one refused event no process can start, until the process that published it takes a checkpoint; from that a process starts, and the event is missing from its states |
| `StoreCounterexamples.CheckpointForgetsLateEvent` | Runtime/sarembok_knowledge_runtime.py:52-57 | an input for that: two events in the log, the second missing from the states of the process that starts |
| `StoreRuns.RaisesAfterStoring` | Runtime/sarembok_knowledge_runtime.py:46-50 | publish raises although the event is stored if and only if the event was logged, the write succeeded, and the reducer or a handler raises |
| `StoreCounterexamples.FailingHandlerLeavesTheEvent` | Runtime/sarembok_knowledge_event_bus.py:38-49 | an input: a legal event and a raising handler; the caller gets the error and the event is stored |
| `StoreRuns.RestartNeedsReadablePayloads` | Runtime/sarembok_knowledge_sqlite.py:160-178 | with a foldable log, a process can start if and only if the canonical reader reads every stored snapshot payload; the reader is as strict as json.loads and also refuses equivalent spellings that json.loads takes; a failing digest is survived, an unreadable payload is not |
| `StoreCounterexamples.EmptyPayloadBlocksRestart` | Runtime/sarembok_knowledge_sqlite.py:160-178 | an input: one snapshot row with an empty payload; without it the process starts, with it it does not |
| `Runtime.PersistentKnowledgeRuntime.Publish` | Runtime/sarembok_knowledge_runtime.py:46-50 | the new tables, log, reducer and bus are those of the modelled publish, for every outcome |
| `Runtime.PersistentKnowledgeRuntime.Recover` | Runtime/sarembok_knowledge_runtime.py:37-44 | the reducer and report are replaced by the recovered ones, or the error leaves them |
| `Runtime.PersistentKnowledgeRuntime.Checkpoint` | Runtime/sarembok_knowledge_runtime.py:52-57 | the tables hold the snapshot of the reducer at the last stored sequence |
| `StoreRules.CheckpointsAtLastStored` | Runtime/sarembok_knowledge_runtime.py:52-57 | for any tables that load: the snapshot row carries the number of the last stored event, the reducer's states and the digest of both |
| `Api.KnowledgeRuntimeAPI.TransitionKnowledge` | Runtime/sarembok_knowledge_api.py:56-75 | the new world is that of planning and publishing, and the answer is the plan's error, the publish's error, or the item's new state with the event's id and sequence; every refusal by the plan leaves tables and memory alone |
| `Api.KnowledgeRuntimeAPI.CanTransitionKnowledge` | Runtime/sarembok_knowledge_api.py:77-92 | the error of an unknown item or state text, otherwise membership in the allowed graph from the item's current state, which is whether a transition with a reason would be planned |
| `Api.KnowledgeRuntimeAPI.CreateKnowledge` | Runtime/sarembok_knowledge_api.py:40-41 | the entity stored and answered, or the first of the four errors that applies and no change |
| `Api.KnowledgeRuntimeAPI.Checkpoint` | Runtime/sarembok_knowledge_api.py:94-96 | the snapshot answered is the one stored: the reducer's states at the last stored sequence, with their digest |
| `AuditLedger.TamperEvidentAuditLedger.RecordMutation` | Runtime/tamper_evident_audit.py:104-145 | the ledger grows by exactly the next block, unless its block hash is already taken, which raises |
| `AuditLedger.RecordsExactly` | Runtime/tamper_evident_audit.py:104-145 | on any ledger a mutation is refused if and only if some block has the new hash; otherwise the block appended carries the request, the digest of the payload, the previous block's hash and the digest of all of these joined by colons |
| `AuditLedger.TimestampIsNearest` | Runtime/tamper_evident_audit.py:84-84 | the time in a header is the nearest number of microseconds, a tie going to the even one, under its own sign |
| `AuditLedger.TamperEvidentAuditLedger.VerifyChainIntegrity` | Runtime/tamper_evident_audit.py:160-205 | the loop returns the list of violations in order, and true if and only if every block is linked and rehashes |
| `AuditLedger.NoViolationsMeansChained` | Runtime/tamper_evident_audit.py:174-200 | no violation is found if and only if every block names its predecessor and carries the hashes of its payload and header |
| `AuditLedger.ViolationsListed` | Runtime/tamper_evident_audit.py:174-200 | a violation is listed if and only if some block has it: a link that is not the hash before it, a payload or a header that does not hash to the stored one |
| `AuditLedger.RecordedLedgerVerifies` | Runtime/tamper_evident_audit.py:104-145 | every ledger built by recording mutations verifies and is numbered from zero |
| `AuditLedger.MutationIsRecorded` | Runtime/tamper_evident_audit.py:137-144 | nothing is refused as long as the headers involved do not collide |
| `AuditLedger.TimestampTextInjective` | Runtime/tamper_evident_audit.py:84-84 | the six-decimal text determines sign and microseconds |
| `AuditLedger.HeaderDetermines` | Runtime/tamper_evident_audit.py:75-85 | the header text determines index, timestamp text, joint agent-and-mutation text and both hashes, read from both ends |
| `AuditLedger.AgentTextSplits` | Runtime/tamper_evident_audit.py:84-84 | the joint text splits the same way if and only if the agent ids have equally many colons |
| `AuditLedger.HeadDeterminesLedger` | Runtime/tamper_evident_audit.py:160-205 | two ledgers that verify and share the last block hash have the same length and agree block by block in index, timestamp text, joint agent text, payload and all hashes |
| `AuditLedger.HeadDeterminesAgents` | Runtime/tamper_evident_audit.py:160-205 | without colons in agent ids they agree in agent and mutation separately |
| `AuditLedger.ColonShiftsAttribution` | Runtime/tamper_evident_audit.py:84-84 | with a colon they need not: two agents, one header |
| `AuditLedger.PrefixVerifies` | Runtime/tamper_evident_audit.py:160-205 | every prefix of a verifying ledger verifies |
| `AuditTampering.OnlyPrefixesVerify` | Runtime/tamper_evident_audit.py:160-205 | whatever records are deleted, moved or repeated, the outcome verifies if and only if it is a prefix, as far as the hash has no collision on the texts involved |
| `AuditTampering.DeletionIsNoticed` | Runtime/tamper_evident_audit.py:160-205 | deleting a stretch of records is noticed if and only if it is not empty and something follows it |
| `AuditTampering.HeadsAreDistinct` | Runtime/tamper_evident_audit.py:160-205 | no two prefixes of a ledger end in the same hash, so a known last hash betrays a truncation |
| `AuditTampering.AlterationIsNoticed` | Runtime/tamper_evident_audit.py:160-205 | against a remembered last hash, which the source does not keep: an altered ledger verifies and ends in it if and only if it agrees with the original in index, timestamp text, joint agent text, payload and all hashes |
| `AuditTampering.EditInPlaceIsNoticed` | Runtime/tamper_evident_audit.py:160-205 | an edit that leaves the whole column of block hashes unchanged verifies if and only if it agrees in the same way |
| `AuditTampering.VerifiesExactlyWhenRehashed` | Runtime/tamper_evident_audit.py:160-205 | of any ledger at all: it verifies if and only if its three hash columns are those recomputed from its other columns |
| `AuditTampering.ForgedLedgerVerifies` | Runtime/tamper_evident_audit.py:160-205 | so any contents verify once their hashes are recomputed |
| `AuditTampering.LastRecordCanBeRewritten` | Runtime/tamper_evident_audit.py:104-145 | an input: the last record replaced by any other mutation, recorded in its place |
| `AuditTampering.HashKeptExactlyBeforeAlterations` | Runtime/tamper_evident_audit.py:160-205 | of two ledgers that verify, the block hashes at a position are equal if and only if the ledgers agree up to there, so a rewriting that passes changes every block hash from the first altered record on |
| `WalStore.WalStore.CommitMicroStep` | fabric/wal_store.js:199-297 | sessions, agents and log become those of the modelled commit; unknown sessions or agents are refused with no change |
| `WalStore.WalStore.VerifyIntegrity` | fabric/wal_store.js:424-464 | the loop returns the entry count and head hash of the replayed chain, or throws exactly where the replay fails |
| `WalStore.WalStore.ReconstituteState` | fabric/wal_store.js:331-377 | the committed rows of the session in order and its account, or the missing-session error |
| `WalRuns.EverySessionVerifies` | fabric/wal_store.js:424-464 | after any interleaving across sessions of commits under fresh task ids, rollbacks and the rest, the rows of every session verify, count exactly its accepted commits and have the head hash of their payloads |
| `WalRuns.StepIsStored` | fabric/wal_store.js:231-282 | after any run a step is stored if and only if its session was initialised and its sender registered: as one row at the end that carries the step, the link to the session's last row and the digest of position, link and payload |
| `WalTampering.VerifyIntegrityAfterRuns` | fabric/wal_store.js:424-433 | the call itself then succeeds for every session id but the empty one, which reads the whole table and succeeds if and only if that holds rows of one session |
| `WalRuns.VerifiedHead` | fabric/wal_store.js:433-463 | any chain that verifies, whatever its rows carry, has the head its payloads determine |
| `WalRuns.SameHeadSamePayloads` | fabric/wal_store.js:424-464 | two chains that verify with the same head hash hold the same payload sequence |
| `WalRuns.ViewIsSurvivors` | fabric/wal_store.js:313-377 | the reconstituted state is the commit history with refused, uncommitted and rolled-back steps removed, order kept |
| `WalRuns.RollbacksCommute` | fabric/wal_store.js:313-321 | rollbacks commute and are idempotent |
| `WalRuns.TokensAreConserved` | fabric/wal_store.js:116-157 | a session's burned tokens are the positive counts of its accepted steps plus its direct burns since it was last initialised; rollbacks give nothing back |
| `WalRuns.CapIsLastInit` | fabric/wal_store.js:116-157 | a session's status and cap are those of its last initialisation: no step, burn or rollback moves them |
| `WalLimits.RemovalIsNoticed` | fabric/wal_store.js:436-457 | removing a row from a chain is noticed if and only if it is not the last one |
| `WalTampering.VerifiesExactlyWhenHashesFit` | fabric/wal_store.js:436-457 | any rows verify if and only if each stored hash is absent or the one recomputed from the payloads; nothing else is looked at |
| `WalTampering.EditIsNoticedExactlyInPayloads` | fabric/wal_store.js:436-457 | with both hash columns unchanged, an edited session verifies if and only if its payloads are unchanged |
| `WalTampering.BlankedRowsVerify` | fabric/wal_store.js:439-457 | inputs: any rows with both hashes blanked verify |
| `WalTampering.RehashedRowsVerify` | fabric/wal_store.js:436-457 | inputs: any rows with both hashes recomputed verify |
| `WalLimits.ReusedIdBreaksOwnChain` | fabric/wal_store.js:256-277 | committing into a verifying session keeps it verifying if and only if the task id is not already one of the session's |
| `WalLimits.ReusedIdBreaksOtherChain` | fabric/wal_store.js:256-277 | another session keeps verifying if and only if the task id is none of its own or that of its last row |
| `WalCounterexamples.ReusedIdInTwoRows` | fabric/wal_store.js:256-277 | an input: a third step under the first one's id; the session verified before and does not after |
| `WalCounterexamples.ForeignIdInTwoRows` | fabric/wal_store.js:256-277 | an input: the same id used in another session; the first session does not verify after |
| `WalLimits.WholeTableNeedsOneSession` | fabric/wal_store.js:424-433 | verifying without a session succeeds on honest rows if and only if they all belong to one session |
| `WalCounterexamples.TwoSessionsFailTogether` | fabric/wal_store.js:424-433 | an input: one step in each of two sessions; both verify alone and the table does not |
| `Paging.Lru` | Runtime/dual_tier_memory.py:390-394 | the page chosen is active, was accessed longest ago and is the earliest among equals |
| `Paging.ContextPageFaultEngine.AllocatePage` | Runtime/dual_tier_memory.py:380-410 | pages, index and counters become those of the modelled allocation, with a fresh page object; without a page to evict the call raises |
| `Paging.ContextPageFaultEngine.SwapOutPage` | Runtime/dual_tier_memory.py:412-441 | an active page moves to the index and is counted; anything else changes nothing |
| `Paging.ContextPageFaultEngine.AccessPage` | Runtime/dual_tier_memory.py:443-522 | a hit touches one page; a miss is counted, and served from the index or the fallback, or raises |
| `Paging.ContextPageFaultEngine.SwapIdleProcesses` | Runtime/dual_tier_memory.py:524-533 | for every order that visits all pages: each idle active page is swapped out, every other page is untouched, and the number of swaps is returned |
| `PagingRecency.ActivePageShowsLastUse` | Runtime/dual_tier_memory.py:380-522 | over every run an active page's clock is the time of the last operation that allocated or accessed its key |
| `PagingRecency.ActiveCountCounts` | Runtime/dual_tier_memory.py:387-388 | what is held against the limit is the number of the pid's pages in the hot tier |
| `PagingRecency.OneUsedLongestAgo` | Runtime/dual_tier_memory.py:390-394 | by the operations alone, exactly one active page of a pid that has any was used longest ago, the earliest inserted among equals |
| `PagingRecency.FullSetGivesUpOldest` | Runtime/dual_tier_memory.py:380-410 | after every run, an allocation into a full working set moves to the index the page of that pid used longest ago and no other, and no other page changes but the allocated one |
| `PagingRecency.OtherAllocationsGiveUpNothing` | Runtime/dual_tier_memory.py:387-394 | below the limit nothing is moved, and where nothing can be moved nothing happens |
| `PagingRecency.SwapOutMovesPage` | Runtime/dual_tier_memory.py:412-441 | swapping out a page of the hot tier moves that page with its data, and any other request changes nothing |
| `PagingRecency.SweepMovesUnused` | Runtime/dual_tier_memory.py:524-533 | after every run a sweep moves exactly the pages it visits that are in the hot tier and were last used at least the threshold ago |
| `PagingRecency.CounterCountsServedUses` | Runtime/dual_tier_memory.py:380-522 | over every run a page's counter is the number of its uses served since it was last allocated |
| `PagingRecency.CountersCountMisses` | Runtime/dual_tier_memory.py:443-494 | over every run the fault and swap-in counters are the numbers of missed and of served accesses |
| `Paging.SweepMovesIdle` | Runtime/dual_tier_memory.py:524-533 | a sweep in any order, with repetitions and gaps, swaps out exactly the idle pages it visits |
| `PagingAccount.SweepCountsIdle` | Runtime/dual_tier_memory.py:524-533 | a sweep of all pages makes as many swap-outs as there were idle pages |
| `PagingRuns.PagingIsAMap` | Runtime/dual_tier_memory.py:380-533 | through any run, an access to a key returns the data last stored for it, under any limit, as long as the keys in play have different document ids |
| `PagingRuns.UnderscoreFreePidsDoNotCollide` | Runtime/dual_tier_memory.py:419-419 | pids without underscores never collide |
| `PagingCollisions.MemoryIsPlain` | Runtime/dual_tier_memory.py:380-522 | with a limit of at least one, what a run stores is what a dictionary without tiers stores |
| `PagingCollisions.PagingIsAMapExactlyWithoutCollision` | Runtime/dual_tier_memory.py:380-533 | every run over a set of keys answers every access as a plain dictionary would, if and only if no two of the keys share a document id |
| `PagingCollisions.UnderscorePidsCollide` | Runtime/dual_tier_memory.py:419-419 | two keys with one document id |
| `PagingAccount.WorkingSetIsBounded` | Runtime/dual_tier_memory.py:387-394 | a pid's active pages never exceed the limit by more than the faults taken on that pid |
| `PagingLimit.LimitBrokenExactlyByServedFault` | Runtime/dual_tier_memory.py:380-522 | one operation takes a working set over its limit if and only if it is an access served by a fault while the set is full |
| `PagingLimit.RunKeepsLimitExactly` | Runtime/dual_tier_memory.py:380-533 | a run keeps a pid within its limit throughout if and only if it never serves such a fault |
| `PagingLimit.EveryLimitCanBeExceeded` | Runtime/dual_tier_memory.py:380-522 | for every limit, pid and data a run that exceeds it |
| `PagingAccount.LimitIsExceededByAFault` | Runtime/dual_tier_memory.py:443-494 | the shortest case, at a limit of one |
| `PagingAccount.SwapsBalance` | Runtime/dual_tier_memory.py:412-494 | swap-outs plus swap-ins of never-allocated pages equal swap-ins plus pages still out plus swapped pages replaced by reallocation |
| `GroupCommit.WalMemoryManager.DrainQueue` | Runtime/wal_memory_manager.py:156-165 | the loop takes what the drain function takes: up to a hundred, until empty or a shutdown |
| `GroupCommit.WalMemoryManager.ExecuteBatch` | Runtime/wal_memory_manager.py:168-195 | the batch is one transaction: all its statements or none |
| `GroupCommit.WalMemoryManager.CheckStopEvent` | Runtime/wal_memory_manager.py:145-145 | the loop head: the writer ends on a set stop event, otherwise it goes on to its get |
| `GroupCommit.WalMemoryManager.TakeMessage` | Runtime/wal_memory_manager.py:147-216 | the loop body for every queue, whatever arrives meanwhile and whether or not a stop was signalled since the head: a timeout, the end on a shutdown, or one batch with its futures |
| `GroupCommitRuns.TakenIsAPrefix` | Runtime/wal_memory_manager.py:137-165 | in every run what was taken, followed by what still waits, is what was enqueued |
| `GroupCommitRuns.EveryTakenWriteIsTriedOnce` | Runtime/wal_memory_manager.py:147-195 | every write taken is tried in exactly one transaction, in queue order, in batches of one to a hundred |
| `GroupCommitRuns.BatchFillsUp` | Runtime/wal_memory_manager.py:156-165 | a batch starts with the first message and ends at a hundred writes, at a shutdown or when the queue is found empty, and not before |
| `GroupCommitFutures.TransactionIsSerial` | Runtime/wal_memory_manager.py:168-195 | a transaction commits if and only if the database does not fail by the commit and a serial writer gets through its statements, and leaves what that writer leaves |
| `GroupCommitRuns.TablesAreSerialWrites` | Runtime/wal_memory_manager.py:168-195 | the tables are what a one-at-a-time writer leaves after exactly the statements of the committed batches, none of which fails |
| `GroupCommitRuns.LastCommittedStepWins` | Runtime/wal_memory_manager.py:172-187 | each step row is the last one committed for its id |
| `GroupCommitRuns.LastCommittedStateWins` | Runtime/wal_memory_manager.py:186-193 | each system state row is the last one committed for its key |
| `GroupCommitRuns.SerialStep` | Runtime/wal_memory_manager.py:171-195 | a raw statement does what the database makes of it, and no kind of statement touches the other table |
| `GroupCommitRuns.FutureTellsTheTruth` | Runtime/wal_memory_manager.py:198-216 | a future is true if and only if its operation is among the stored ones, and failed if and only if its batch was rolled back |
| `GroupCommitFutures.PassSettles` | Runtime/wal_memory_manager.py:198-216 | a batch settles the future of each of its writes whose caller can be reached: true if it committed, failed if it was rolled back, and one already done stays |
| `GroupCommitFutures.SettledExactlyWhenReached` | Runtime/wal_memory_manager.py:147-216 | over every run the settled futures are exactly those of the writes taken in a round that could reach the caller |
| `GroupCommitFutures.ReachedCallerLearnsWhetherStored` | Runtime/wal_memory_manager.py:147-216 | such a future is true if and only if its statement is among the committed ones |
| `GroupCommitStops.WriterEndsExactly` | Runtime/wal_memory_manager.py:145-154 | one action ends a live writer if and only if it is a get that finds a shutdown in front or a look at the set stop event |
| `GroupCommitStops.AtMostOneBatchAfterStop` | Runtime/wal_memory_manager.py:145-165 | after the stop event at most one more batch is taken, and only by a writer already at its get |
| `GroupCommitStops.BlockedWriterTakesItsShutdown` | Runtime/wal_memory_manager.py:147-154 | a writer blocked at an empty queue takes its own shutdown, and the stop leaves nothing behind |
| `GroupCommitStops.FlaggedWriterLeavesItsShutdown` | Runtime/wal_memory_manager.py:130-145 | a writer that reads the stop event instead leaves the shutdown in the queue |
| `GroupCommitStops.LeftoversEndWriterExactly` | Runtime/wal_memory_manager.py:115-165 | whatever shutdowns are left in the queue: without another stop the new writer ends if and only if it has taken the first of them that stands where a get meets it |
| `GroupCommitStops.StaleShutdownEndsWriterExactly` | Runtime/wal_memory_manager.py:115-165 | a single one with p writes ahead ends it if and only if it is taken and p is a multiple of a hundred |
| `GroupCommitStops.StaleShutdownEndsTheNextWriter` | Runtime/wal_memory_manager.py:115-154 | an input: a stop noticed at an empty queue, then a start; the new writer ends while the manager counts as initialised |
| `GroupCommitStops.EndedWriterStoresNothing` | Runtime/wal_memory_manager.py:115-135 | from then on, until a stop is completed, nothing is taken or stored, however much is enqueued and however often start is called |
| `LongHorizon.EveryRunIsSound` | Runtime/sarembok_long_horizon.py:65-98 | in every run of a fresh task the checkpoint is the last multiple of the interval reached, and steps and attempts stay within the horizon |
| `LongHorizon.CheckpointHoldsLatestState` | Runtime/sarembok_long_horizon.py:76-81 | over every run a task has a checkpoint if and only if some advance ended on one, and it holds the state handed in by the latest, empty without one |
| `LongHorizon.StatusMovesExactly` | Runtime/sarembok_long_horizon.py:65-98 | for every task and action, exactly when the status becomes running, checkpointed, failed, recovering or completed |
| `LongHorizon.MultipleIsNear` | Runtime/sarembok_long_horizon.py:78-78 | which is less than one interval behind, for negative intervals too |
| `LongHorizon.WorkIsConserved` | Runtime/sarembok_long_horizon.py:70-93 | the steps taken are the current step plus what recoveries took back |
| `LongHorizon.TotalWork` | Runtime/sarembok_long_horizon.py:65-98 | the step-taking advances of any run are at most the maximal steps plus, for each recovery, the least of one less than the interval and the steps left after the first interval, or nothing where the steps do not reach one interval |
| `LongHorizon.BoundIsMet` | Runtime/sarembok_long_horizon.py:65-98 | and for every horizon with an interval other than zero some run meets that bound exactly |
| `LongHorizon.ZeroIntervalTakesNoStep` | Runtime/sarembok_long_horizon.py:78-78 | with an interval of zero no step is ever taken |
| `LongHorizon.RecoveryRevives` | Runtime/sarembok_long_horizon.py:83-93 | a recovery and a start set any task running again, completed ones too, if and only if it has a checkpoint and an attempt left |
| `LongHorizon.CompletedTaskRunsAgain` | Runtime/sarembok_long_horizon.py:83-98 | an input: a task of one step, completed and running again |
| `ContractDiff.FieldSet.CollectInto` | bin/contract-diff.js:26-36 | the recursion adds exactly the collected fields to the shared set |
| `ContractDiff.Fingerprint` | bin/contract-diff.js:38-58 | the nested loops build the fingerprint, a later spelling of a method replacing an earlier row |
| `ContractDiff.Diff` | bin/contract-diff.js:60-84 | the loops list exactly the removed endpoints and fields, then the new ones, in order |
| `ContractGate.CollectGrows` | bin/contract-diff.js:26-36 | a schema that extends another at every depth promises all its fields, wherever the depth cut falls |
| `ContractGate.AdditiveReleasePasses` | bin/contract-diff.js:38-84 | a specification that extends another, methods distinct ignoring case, is never reported as breaking |
| `ContractGate.ChainOfReleasesPasses` | bin/contract-diff.js:38-84 | neither is any later release of a chain against any earlier one |
| `ContractGate.GatePassesExactlyWhenKept` | bin/contract-diff.js:66-75 | nothing breaking is reported if and only if every endpoint and field of the baseline is still there |
| `ContractReport.ReportNamesExactly` | bin/contract-diff.js:60-84 | between any two specifications the breaking list names exactly the endpoints gone and the fields an endpoint of both lost, the additive list exactly the new endpoints and the fields gained |
| `ContractGate.SecondSpellingFailsTheGate` | bin/contract-diff.js:42-54 | an input that shows the premise on methods to be needed: an empty second spelling of a method fails the gate though nothing was removed |
| `ContractDetect.GatePassesExactlyOnLastSpellings` | bin/contract-diff.js:38-75 | for any two specifications, repeated spellings included: nothing breaking is reported if and only if every method of every path keeps, in its last spelling, all fields of its last spelling in the baseline |
| `ContractDetect.FieldReadsBack` | bin/contract-diff.js:31-35 | with status codes and property names free of dots, colons and brackets, the text of a field determines code, path and type |
| `ContractDetect.GateDetectsExactly` | bin/contract-diff.js:26-75 | with such names and methods distinct ignoring case, nothing breaking is reported if and only if every endpoint, every status and every property path of up to five segments is still promised with its type, under whichever content type of the status |
| `ContractDetect.GateIsExactOnShallow` | bin/contract-diff.js:26-75 | if moreover no response of the baseline is more than five hops deep, the same holds of property paths of any length |
| `ContractExact.LeadsExactlyToNamed` | bin/contract-diff.js:26-36 | of all parts of a schema (body, items and properties with their types) the fingerprint's paths are exactly those that end in a property name |
| `ContractExact.GateAndUnseenMakeTheWhole` | bin/contract-diff.js:26-75 | everything promised by endpoint, status, content type and path, with the types of bodies and items, is kept if and only if nothing breaking is reported and what the gate never looks at is kept: types of bodies and items, parts more than five hops down, and the content type of each field |
| `ContractExact.GateMissesOnlyBodyAndItemTypes` | bin/contract-diff.js:26-75 | with one and the same content type per status and nothing too deep, everything is kept if and only if nothing breaking is reported and the types of bodies and items are kept |
| `ContractBlind.DroppedContentTypePasses` | bin/contract-diff.js:46-50 | inputs: a response in two content types, one of them dropped, for any schema; nothing breaking is reported and the specification does not extend its baseline |
| `ContractBlind.RetypedItemsPass` | bin/contract-diff.js:31-35 | inputs: an array property whose items change from any type to any other; nothing breaking is reported |
| `ContractBlind.RetypedBodyPasses` | bin/contract-diff.js:46-50 | inputs: a body of any schema whose own type changes; nothing breaking is reported |
| `ContractSight.FieldsAreTheReachable` | bin/contract-diff.js:26-36 | the fields are exactly the properties within five hops of the response schema, by an independent definition of hops |
| `ContractSight.DeepPartsAreInvisible` | bin/contract-diff.js:27-27 | cutting one schema off below that changes none of its collected fields |
| `ContractSight.FiveLevelsShow` | bin/contract-diff.js:26-33 | for any names: five nested levels show, each under its path and as any without a type, and the sixth does not |
| `ContractSight.MethodsInAnyCase` | bin/contract-diff.js:24-24 | the seven methods count in either case, and other members of a path do not |
| `ContractBlind.DroppingDeepPartsPasses` | bin/contract-diff.js:26-75 | so for a specification with one response, of any schema, the gate passes whatever is dropped more than five hops down |
| `ContractBlind.DeepRemovalPasses` | bin/contract-diff.js:26-75 | an input: a property removed on the sixth level; nothing breaking is reported and the specification does not extend its baseline |
| `ContractSight.DottedNameHidesARemoval` | bin/contract-diff.js:31-32 | two schemas with the same collected fields: a property named with a dot stands in for a nested one |
| `ContractBlind.DottedRemovalPasses` | bin/contract-diff.js:26-75 | an input: a nested property replaced by one with a dotted name; the gate passes and the specification does not extend its baseline |
| `Consensus.ShannonEntropyMonitor.RecordEntropy` | Runtime/consensus_network.py:98-107 | the window holds the latest samples, negative ones as zero, and the answer is their mean |
| `Consensus.RollbackStateMachine.TriggerRollback` | Runtime/consensus_network.py:152-186 | the backwards search restores the latest checkpoint below the bound, or the empty state |
| `Consensus.AutomatedConsensusNetwork.Tally` | Runtime/consensus_network.py:290-302 | the loop computes the effective weights of all, approving and rejecting votes |
| `Consensus.AutomatedConsensusNetwork.ResolveConsensus` | Runtime/consensus_network.py:253-339 | answer and new state for every outcome: drift, veto, no weight, failure, consensus |
| `ConsensusRuns.WeightIgnoresOrder` | Runtime/consensus_network.py:290-302 | the tally does not depend on the order of votes |
| `ConsensusRuns.DecisionIgnoresOrder` | Runtime/consensus_network.py:278-314 | neither does the decision, up to which vetoing auditor is named |
| `ConsensusRuns.ApprovalKeepsConsensus` | Runtime/consensus_network.py:290-312 | one more approval never undoes a consensus |
| `ConsensusRuns.DissentMakesConsensusExactly` | Runtime/consensus_network.py:278-312 | one more rejection or abstention makes a consensus if and only if the quorum is zero or less, nothing of weight was cast before, the vote has weight and no auditor vetoes; under a positive quorum never |
| `ConsensusRules.FirstObjectionVetoes` | Runtime/consensus_network.py:278-287 | the first auditor who rejects with a confidence of at least 0.85 vetoes and is named, whatever the other votes and the quorum |
| `ConsensusRules.VetoedExactlyOnObjection` | Runtime/consensus_network.py:278-287 | a decision is a veto if and only if there is such a vote |
| `ConsensusRules.PassesExactlyOnShare` | Runtime/consensus_network.py:289-312 | otherwise the proposal passes if and only if something of weight was cast and the approvals weigh at least the quorum's share, a strategist's confidence counting a quarter more and an auditor's a half more; the answer carries the share |
| `ConsensusRules.RoleDecidesDuel` | Runtime/consensus_network.py:205-209 | one approval against one worker's rejection passes up to a quorum of 3/5 from an auditor, 5/9 from a strategist, 1/2 from anyone else |
| `ConsensusRules.DriftExactly` | Runtime/consensus_network.py:261-276 | after every run a resolution reports drift if and only if the entropy given or the mean of the last ten reported reaches the threshold; otherwise the votes cast since the proposal was created decide |
| `ConsensusRules.ObjectionBlocksProposal` | Runtime/consensus_network.py:253-339 | after every run a proposal an auditor objects to is not committed: the veto names the first objector and leaves the state, and no checkpoint is added, drift or not |
| `ConsensusRules.ObjectionKeepsState` | Runtime/consensus_network.py:253-339 | up to a threshold of 0.88 the current state stays in either case |
| `ConsensusRuns.CheckpointsAreSound` | Runtime/consensus_network.py:136-150 | in every run the retained checkpoints, at most twenty, are below the threshold and end with the last consensus |
| `ConsensusRules.LastTwentyAreKept` | Runtime/consensus_network.py:136-150 | over every run the checkpoints are those of the last twenty resolutions that reached consensus, each with its proposal and mean entropy |
| `ConsensusRuns.StateIsLastConsensus` | Runtime/consensus_network.py:253-339 | with a threshold of at most 0.88 the current state is always the last consensus, and rollback leaves it unchanged |
| `ConsensusRuns.RollbackIsSafeExactlyUpToBound` | Runtime/consensus_network.py:152-175 | that holds of every run if and only if the threshold is at most 0.88 or no quorum can be reached |
| `ConsensusRuns.CalmWindowIsDeterministic` | Runtime/consensus_network.py:98-111 | as many calm samples as the window holds make the network deterministic again, whatever came before |
| `LoopDetector.LoopDetector.InspectStep` | Runtime/eval_harness.py:158-223 | for all limits, negative ones too: the call joins the history, and the first rule that applies is reported, or the IndexError of a window too short to compare is raised |
| `LoopDetector.SensibleInspection` | Runtime/eval_harness.py:173-212 | with a repeat limit of at least one and a cycle limit of at least two nothing raises, and silence means that no pattern ends with this call |
| `LoopReports.ReportNamesLastTools` | Runtime/eval_harness.py:166-223 | which rule speaks for such limits, and what it names: the step count, the tool called last, the last two or three tools, or the entropy |
| `LoopReports.CollapsesExactly` | Runtime/eval_harness.py:214-217 | the entropy rule applies if and only if there are six calls or more, the entropy is below its threshold and no third tool was ever called |
| `LoopReports.CallTextDetermines` | Runtime/eval_harness.py:104-111 | two calls have the same signed text if and only if tool and arguments agree, as long as no tool name has a colon |
| `LoopDetector.OtherLimitsNeverStayQuiet` | Runtime/eval_harness.py:173-212 | under any other limits every trajectory longer than a bound, computed from the limits alone, is stopped whatever its calls |
| `LoopDetector.OtherLimitsBoundIsMet` | Runtime/eval_harness.py:173-212 | the bound is the longest: for all such limits, every hash and entropy, some trajectory of three different calls is quiet up to it |
| `LoopDetector.QuietExactlyWhenClean` | Runtime/eval_harness.py:158-223 | every call returned None if and only if the trajectory is within the budget and shows no repeat, alternation, rotation or entropy collapse anywhere |
| `LoopDetector.RepetitionIsReported` | Runtime/eval_harness.py:173-212 | a trajectory that starts to repeat with period one, two or three is reported within three, four or six steps under the default limits |
| `LoopDetector.RepeatedPairEscapes` | Runtime/eval_harness.py:198-212 | a three-cycle with a repeated call in it is never reported while the entropy of the names stays up |
| `Brackets.CheckBrackets` | Runtime/handlers/artifact_factory.py:417-424 | the loop goes on to the end if and only if the scan does |
| `Brackets.EmptyStackExactlyWhenBalanced` | Runtime/handlers/artifact_factory.py:417-424 | it ends with an empty stack if and only if the text has a derivation as a balanced text |
| `Brackets.ShortTextsBalance` | Runtime/handlers/artifact_factory.py:417-424 | balanced texts of two brackets are exactly the three pairs, and no single bracket is balanced |
| `Brackets.AcceptsExactlyThePrefixes` | Runtime/handlers/artifact_factory.py:417-424 | it accepts a text if and only if some suffix completes it to a balanced one |
| `Brackets.OpenBracketIsAccepted` | Runtime/handlers/artifact_factory.py:417-424 | an input: an opening bracket that is never closed |
| `Brackets.StackIsTheShortestCompletion` | Runtime/handlers/artifact_factory.py:417-424 | the closers left on the stack are such a suffix, and none is shorter |

## Left out

- SQLite, Redis, threads and asyncio as libraries: the model has table contents, queue order and atomic steps. A failed write is a write that did not happen; a failure reported after the commit went through is not modelled.
- SHA-256, UUIDs, clocks and logarithms are parameters or inputs.
- StoreRuns.RestartNeedsReadablePayloads: the reader accepts canonical JSON only, so a payload edited by hand into an equivalent spelling, which `json.loads` would read, counts as unreadable; integers of more than 4300 digits, which `json.loads` refuses, are read. Lone surrogates have no character to stand for.
- Event handlers are known by whether they fail, not by what they do; `RecoveryReport.reason` and other message texts of reports are not kept.
- `created_at` and the ordering of `list_knowledge`, `list_knowledge` itself and the `dispatch` table: they only pass values through.
- A reducer whose state is changed from outside, and snapshots shared by reference with the reducer: values are copied where the source copies dicts of frozen records.
- The L1 cache contents, latency lists, embeddings and telemetry of the paging engine. The nested `page_table` is one list in insertion order. The data dict of a returned page is a value, so a caller that edits it in place is outside the model.
- The semantic search behind a fault is the `fallback` input: any answer is allowed.
- WalStore.WalStore.CommitMicroStep: one fixed signature; the decoding of its overloaded arguments is left out, and so is a crash between the row insert and the token burn, which the source does not do in one transaction.
- `verifyIntegrity` reports which row failed in its message; the model keeps only that it threw.
- AuditLedger.TamperEvidentAuditLedger.VerifyChainIntegrity: violations are kept as kind and block, without the shortened hashes of the messages.
- GroupCommitRuns.FutureTellsTheTruth: errors inside a batch that are not SQLite errors are not modelled. They can arise, for instance a UnicodeEncodeError from a state value with a lone surrogate; the batch is rolled back then and its futures are never settled.
- The group-commit writer runs one thread at a time: after a stop whose three-second join expires, a start beside the old writer does nothing here, where the source starts a second one.
- Wal reads (`get_agent_history`, `get_latest_state`) and the explicit WAL checkpoint are queries and pragmas.
- Of the consensus network: hashes and rationales of votes, rounding of reported figures, and later mutation of a committed payload by its caller. Roles arrive in upper case.
- ContractExact.GateAndUnseenMakeTheWhole: a promise is a path with a type, under an endpoint, a status and a content type; required lists, enums, formats, parameters and request bodies are outside it, and outside the fingerprint.
- ContractDiff.Fingerprint: field lists are sorted by code point; the source sorts by UTF-16 unit, which changes the order of messages only.
- LoopDetector.LoopDetector.InspectStep: the entropy is an uninterpreted function of the tool names, and the limits quoted in the message texts are not kept.
- Reports of the evaluation harness around the loop detector, and everything in the artifact factory but the bracket loop.
- OpenShell, sandboxing, policies, secrets, voice, GUI, web, CLIs, SDKs, MCP and SSH tools: plumbing around foreign calls.
- Threshold classifiers, role weights outside the tally and scheduling clamps: single comparisons without state, which say nothing beyond their own text.
