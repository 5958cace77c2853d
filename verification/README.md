# Verification of the ArtStore control plane

A Dafny model of the parts of ArtStore where several stores, clocks and processes have to agree, with proofs about
whole runs. `dafny verify dfyconfig.toml` checks everything.

| Files | What they model |
|---|---|
| `FileRegistry` | the `files` table, its event stream and the cache folded from it |
| `Cleanup`, `RunEffects`, `GarbageCollector` | the decision rules of the garbage collector, what a committed run does to every row, file, copy and counter, and the collector as a service over one database session without autoflush |
| `FileLifecycle`, `NoDataLoss`, `SafetyMargins`, `PendingUniqueness` | registry, finalize driver, cleanup queue, Storage Element contents and any number of collector sessions as one interleaved system, and what holds over all its runs |
| `LossCriterion`, `LossWitness`, `LossConditions` | the exact criterion for a file that can still be lost, both halves of its proof, and what each undisciplined step costs |
| `LifecycleLimits`, `UniquenessLimits` | runs from the empty system that break one rule and lose bytes or queue a copy twice |
| `GcQueue`, `GcRecovery`, `GcRefinement`, `CollectorEvents` | whole runs of the serial collector: termination, liveness, crash recovery, its place in the interleaved system, and the event stream it bypasses |
| `JwtKeys`, `KeyRotation`, `KeyRotationLimits`, `RotationBounds`, `RotationSchedule`, `ScheduledContinuity`, `RotationLock`, `TokenService` | JWT key rotation as a timed distributed protocol, its exact bounds, fixed check intervals inside it, its Redis lock, and multi-key verification |
| `RateLimit`, `RateLimitShared`, `RateLimitRace` | the sliding-window limiter: one request at a time, requests that share a member, and interleaved |
| `ServiceDiscovery`, `StorageSync` | Storage Element sync, the published configuration, and the endpoints of an Ingester |
| `AdminLockout`, `PasswordPolicy`, `SecretRotation` | login lockout, password generation and validation, secret rotation and history |

Code that changes fields is modelled as a class whose methods are proved equal to functions of the old state; the
theorems are about those functions, and what each function does to a row is stated once more on its columns, with the
texts and numbers of the code. Protocols are state machines: `Enabled` says what the code lets happen, `Take`
what a step does, and an extra predicate (`Disciplined`, `OnTime`, `Fresh`, `Serial`) says what is assumed besides.
Answers of SELECTs without a total order, replies of remote services,
clock readings and random draws are inputs or nondeterministic choices, so every theorem is for all of them.

## Assumptions of the theorems

`FileLifecycle.Disciplined` and `PendingUniqueness.Serial` state them. The finalize driver
(`ingester-module/app/services/finalize_service.py`, called by `endpoints/finalize.py`) and the upload service are
part of the model as they are written; they do not guarantee all of this by themselves.

- A transaction is marked COMPLETED only after its registry update took effect. The driver does not wait for that.
- No copy that the registry or a verified transaction counts on is overwritten by other bytes or taken back by a
  roll-back. The driver's roll-back deletes nothing yet; its TODO announces that it will. Any number of transactions of
  one file may be open at once.
- Source and target of a finalization differ.
- Ids are fresh at upload, and the Ingester registers a file after it has uploaded it, and not after an orphan scan has
  queued its id.
- Retention and placement of a file change through the finalize driver only.
- For the uniqueness of pending rows: one collector session at a time, within the safety margin; completions recorded
  promptly; no second COMPLETED transaction of a file.
- Lock values are distinct where `RotationLock` says `FreshRun`.

`LossConditions` says exactly when a mark, a roll-back, an overwritten copy, a registration or an edit that breaks the
first, second, fourth or fifth of these rules costs a file, and that reusing an id at upload costs none; the rule that
source and target differ has no such condition. `UniquenessLimits` shows that no duplicates arise iff all four rules of
`Serial` are kept. The runs in `LifecycleLimits` and `UniquenessLimits` break the rules one at a time.

## Findings

Where the code does not do what it or its documentation promises, the model follows the code. Most findings are
stated by a member of the table below, with an exact condition or a concrete run; the stamping of finalized rows, the
re-queueing of completed transactions and signing without a look at the expiry show in the definitions
`Cleanup.Stamp`, `Cleanup.FinalizedItem` and `JwtKeys.IsLatest`.

- The finalize driver swallows `AdminClientError` from the registry update and marks the transaction COMPLETED all the
  same (`finalize_service.py:277-295`). After the safety margin the collector deletes the source, which is the only
  copy the registry knows. The file can be lost exactly when the update has not taken effect and the file will still be
  protected when the margin ends (`LossConditions.SwallowedUpdateLosesIff`).
- Promoting a file in place through `update_file` while a delete of it is planned lets the collector delete a
  permanent file. An orphan scan between upload and registration leads to a delete after the grace period; the registry
  is not looked at again. `is_pending` does not count FAILED transactions: if the roll-back deleted the copy, as its
  TODO at `finalize_service.py:613` says, a late one could delete the copy that a later transaction committed.
- Nothing keeps two finalizations of one file from running side by side. No bytes are lost by that, but once both are
  COMPLETED the finalized producer queues the source twice.
- A queue row that met an unavailable element the maximum number of times stays pending for ever and blocks the TTL
  cleanup of its file, and of no other. The collector stamps rows of finalized files as deleted too, over any earlier
  stamp, and sends no event for it; a COMPLETED transaction is queued again in every run after its row was processed.
- An empty file, or one without content type or uploader, is committed before its event metadata is validated, so
  its event is never sent. An update of a soft-deleted row sends an event that revives it in the caches.
- The check interval of 24 hours renews a key 23 hours after it has expired; of the accepted settings only 1, 5 and 25
  hours keep all tokens verifiable. The need for a rotation is checked
  outside the lock. Forced rotations can drop keys whose tokens are alive. Signing does not look at the expiry.
- `decode_token` documents ExpiredSignatureError, but raises it only for tokens of the file-based key.
  `validate_token` with its default kind accepts no service account token.
- Rate limit entries are keyed by clock reading and middleware object, so simultaneous requests share an entry: with c
  of them per entry a window can admit c * (limit - 1) + 1 requests.
- A failed publication is forgotten; only a later change or the scheduled publication repairs it. A failed discovery
  is reported as a change from "offline" to "offline". When the last writable element disappears, an Ingester keeps
  its old endpoints.
- `history_size = 0` is accepted and means an unlimited history. The current secret is not part of the history.

## Model

| member | source | states |
|---|---|---|
| NoDataLoss.NoDataLossEver | admin-module/app/services/garbage_collector_service.py:195-268 | In every interleaving of registry calls, uploads, orphan scans, finalize transactions (any number per file, registry updates arriving late, roll-backs with or without a delete) and collector sessions, committed or rolled back, that keeps `FileLifecycle.Disciplined`: each permanent file, and each temporary file whose TTL has not run out, has its registered bytes on the element its row names; and every queue row with `success = true` names bytes that are gone. |
| NoDataLoss.NoDataLossWithoutScans | admin-module/app/services/garbage_collector_service.py:394-585 | The same when only the TTL and finalized producers run; then registration only has to follow the upload. |
| NoDataLoss.StepKeepsInv | admin-module/app/services/garbage_collector_service.py:270-388 | One step of any kind keeps the inductive invariant: each queued delete names an expired temporary file on its own element or a permanent file that lives elsewhere. |
| NoDataLoss.DeleteIsHarmless | admin-module/app/services/garbage_collector_service.py:347-365 | A delete of a queued target takes away no protected bytes. |
| NoDataLoss.CopyTargetIsFree | ingester-module/app/services/finalize_service.py:413-487 | No queued or uncommitted row claims that the copy a transaction writes was deleted, however many transactions of the file there are. |
| FileLifecycle.PromotionMeans | ingester-module/app/services/finalize_service.py:252-295 | The registry update of a transaction makes the row permanent, moves it to the target and the new path, sets the finalization time, clears the TTL, and changes no other column and no other row. |
| FileLifecycle.FailAndRollBackIff | ingester-module/app/services/finalize_service.py:597-616 | A transaction can fail until it is completed, failed or rolled back; failing and rolling back without a delete changes nothing but the transaction. |
| LossCriterion.SafeRun | admin-module/app/services/garbage_collector_service.py:195-268 | From any state at all, a file for which the criterion finds no danger is never lost by a disciplined run, and no further copy of it becomes exposed. |
| LossCriterion.InvIsSafe | admin-module/app/services/garbage_collector_service.py:195-268 | In the states of disciplined runs the criterion finds no danger for any file. |
| LossWitness.DriveToCommit | admin-module/app/services/garbage_collector_service.py:195-268 | Every open session can be brought to its commit without touching bytes, and the queue then holds each row it held. |
| LossWitness.Drain | admin-module/app/services/garbage_collector_service.py:297-345 | While no element is online, whole sessions use up the retries of the rows ahead of a due row until the SELECT can return it, whatever the batch size and the priorities; nothing else changes. |
| LossWitness.FileCanBeLostIff | admin-module/app/services/garbage_collector_service.py:270-388 | Some disciplined run loses a registered file iff its bytes are missing now; or a pending row with retries left, a picked row not yet done or a row that a session is going to write names an exposed copy (the registered one while the file is protected, or one the file may still move to); or a COMPLETED transaction whose registry update did not take effect falls due while the file is protected and each pending row that keeps the producer from queueing the copy is one that an open session finishes. Any number of sessions may be open, in any phase. |
| LossConditions.SwallowedUpdateLosesIff | ingester-module/app/services/finalize_service.py:252-295 | After a transaction is marked COMPLETED its file can be lost iff the registry update has not taken effect and the file will still be protected when the safety margin ends. |
| LossConditions.RollBackLosesIff | ingester-module/app/services/finalize_service.py:597-616 | Deleting the copy of a failed transaction costs the file iff the registry or a verified transaction counts on that copy. |
| LossConditions.LateRollBackLosesIff | ingester-module/app/services/finalize_service.py:597-616 | A FAILED transaction whose deleting roll-back is still to come can cost the file iff the file is on its target, or may come there: by a finalization that may still begin, or by a transaction already under way. |
| LossConditions.BeginBesideFailedIff | ingester-module/app/api/v1/endpoints/finalize.py:139-156 | Beginning a finalization beside a FAILED one whose deleting roll-back is still to come: without a further finalization that roll-back can cost the file afterwards iff both have the same target, or it already could. |
| LossConditions.RegistrationLosesIff | admin-module/app/services/file_service.py:56-163 | A newly registered file can be lost iff it is protected and its registered bytes are not there, or a row left for its id threatens it on its element, or on any other element while it may be finalized there. |
| LifecycleLimits.PromotionInPlaceLosesBytes | admin-module/app/services/file_service.py:245-270 | A run allowed by the code in which `update_file` promotes an expired, queued file in place and the collector then deletes a permanent file. |
| LossConditions.PromotionInPlaceLosesIff | admin-module/app/services/file_service.py:245-270 | A file promoted in place can be lost iff its bytes are missing or a delete of it is planned: a pending row with retries left, a picked row not yet done, or a row that a session is going to write. |
| LossConditions.EditLosesIff | admin-module/app/services/file_service.py:204-310 | After any edit, relocation and promotion included, the file can be lost iff it is protected and the element its row names now does not hold its bytes, or a row threatens it there (or elsewhere while it may be finalized), or a COMPLETED transaction starts from that element and no pending row holds the producer. |
| LossConditions.OverwriteLosesIff | ingester-module/app/services/finalize_service.py:413-487 | Writing the copy of a transaction costs the file iff the registry or a verified transaction counts on that copy and the bytes are not the registered ones. |
| LossConditions.ReusedIdLosesNothing | ingester-module/app/services/upload_service.py:340-363 | An upload under an id that rows name already loses no registered file; it makes a recorded delete untrue iff a row records the delete of that very copy. |
| LifecycleLimits.SwallowedUpdateLosesBytes | ingester-module/app/services/finalize_service.py:277-295 | A run from the empty system, disciplined but for one MarkCompleted, that loses a temporary file long before its TTL. |
| LifecycleLimits.OrphanScanRaceLosesBytes | admin-module/app/services/garbage_collector_service.py:629-668 | A file uploaded before and registered after an orphan scan is deleted when the grace period ends, although its row exists by then. |
| LifecycleLimits.LateRollBackLosesBytes | admin-module/app/models/finalize_transaction.py:195-216 | `is_pending` leaves out FAILED: with one pending transaction at a time, a late roll-back that deletes, as announced, takes the copy a later transaction committed. |
| SafetyMargins.SafetyMarginsEver | admin-module/app/services/garbage_collector_service.py:510-566 | In every run, disciplined or not, each DELETE sent for a finalized file goes out at least the safety margin after the recorded completion of a transaction of that file and element, and each one sent for an orphan at least the grace period after an orphan scan of the run that listed it on that element. |
| PendingUniqueness.PendingUniquenessEver | admin-module/app/services/garbage_collector_service.py:443-566 | With one collector session at a time, each reaching the finalized producer within the safety margin, completions recorded promptly and at most one COMPLETED transaction per file, no two pending rows ever name the same file and element, although the producers read the queue without their own additions. |
| UniquenessLimits.ConcurrentSessionsDuplicate | admin-module/app/services/garbage_collector_service.py:443-470 | A disciplined run from the empty system that breaks only the first rule: two interleaved sessions both queue the same expired file. |
| UniquenessLimits.SlowSessionDuplicates | admin-module/app/services/garbage_collector_service.py:510-566 | The same for the second rule: a session that reaches its finalized producer after the margin queues a file it already queued as expired. |
| UniquenessLimits.LateCompletionDuplicates | ingester-module/app/services/finalize_service.py:249-295 | The same for the third rule: a completion recorded as a day old. |
| UniquenessLimits.TwoCompletedDuplicate | admin-module/app/services/garbage_collector_service.py:530-566 | The same for the fourth rule: two COMPLETED transactions of one file each queue its source. |
| UniquenessLimits.AllRulesIff | admin-module/app/services/garbage_collector_service.py:443-566 | Over all disciplined runs, for every configuration and delay: a set of these rules rules out duplicate pending rows iff it is all four. |
| GcQueue.QueueTerminates | admin-module/app/services/garbage_collector_service.py:297-386 | Without producers, the number of non-empty picks is at most the sum of the retries left over the pending rows. |
| GcQueue.TwoRunsCleanExpiredIff | admin-module/app/services/garbage_collector_service.py:422-470 | Two committed runs that are answered for one expired file (its rows and its COMPLETED transactions on its own element), with batches large enough, leave it stamped deleted and absent from its element iff it had no pending row, or one of its own rows has retries left and is due by the second run; if all its rows are due, iff it is not stuck. Rows of other files do not matter. |
| GcQueue.ExhaustedRowBlocksForever | admin-module/app/services/garbage_collector_service.py:443-455 | A file whose pending rows have used up their retries is never touched again by any number of runs. |
| GcQueue.UnavailableRunsStick | admin-module/app/services/garbage_collector_service.py:325-345 | A file with one fresh pending row is stuck after exactly `maxRetry` runs that pick the row and find its element unavailable, and no sooner. |
| GcQueue.StuckIsReached | admin-module/app/services/garbage_collector_service.py:325-345 | Such a run exists for every setting: an expired file, queued once by the TTL producer, with its element offline; the bytes, whatever they are, stay where they are. |
| CollectorEvents.CollectorKeepsAgreementIff | admin-module/app/services/garbage_collector_service.py:740-764 | A committed run keeps the fold of the event stream equal to the live rows iff it stamps no row that was live. |
| GcRecovery.RolledBackRunRemovesOnlyTargets | admin-module/app/services/garbage_collector_service.py:246-250 | Bytes missing after a run that was rolled back at any point were named by an eligible row of a reachable element. |
| GcRecovery.CommittedSuccessMeansAbsent | admin-module/app/services/garbage_collector_service.py:347-365 | A committed `success = true` means the element no longer holds the file. |
| GcRecovery.InterruptedRunsConverge | admin-module/app/services/garbage_collector_service.py:724-738 | After any number of attempts cut off anywhere and rolled back, one answered run commits the same tables, up to timestamps, as an uninterrupted one, and leaves the same bytes if the attempts picked no other rows. |
| GcRecovery.QuietInputStaysValid | admin-module/app/services/garbage_collector_service.py:297-311 | If no row becomes due in between, the later run's SELECTs may return the rows the first run was given. |
| GcRefinement.UndisturbedSessionCommits | admin-module/app/services/garbage_collector_service.py:195-268 | In the interleaved system a session that nobody disturbs, with the clock moving between its phases, reaches exactly the tables and bytes that the serial run commits. |
| GcRefinement.UndisturbedSessionRollsBack | admin-module/app/services/garbage_collector_service.py:246-250 | Rolled back after any number of turns it leaves the tables as they were and exactly the bytes of a serial run that crashed there. |
| GcRefinement.SerialRunLosesNothing | admin-module/app/services/garbage_collector_service.py:195-268 | From every safe state a serial run, committed or crashed anywhere, keeps every protected file's bytes. |
| GarbageCollector.GarbageCollectorService.constructor | admin-module/app/services/garbage_collector_service.py:167-190 | Missing and zero settings both mean the default. |
| GarbageCollector.GarbageCollectorService.RunGarbageCollection | admin-module/app/services/garbage_collector_service.py:195-268 | A committed run is `Cleanup.Committed` and satisfies `RunEffects.RunMeans`: every picked row, file, copy and new row, and each of the six counters, read off the tables before and after by their columns. A run that is rolled back leaves all tables as they were; the deletes that went out stay either way. |
| GarbageCollector.GarbageCollectorService.ProcessCleanupQueue | admin-module/app/services/garbage_collector_service.py:325-388 | The queue loop, stopped anywhere, has given exactly the first rows their turn; the first counter is the number of turns whose DELETE was answered with 200, 204 or 404 by an online element, the second that of the others and of those whose UPDATE raised. |
| GarbageCollector.GarbageCollectorService.ProcessItem | admin-module/app/services/garbage_collector_service.py:325-386 | One turn, column by column: unknown element, unavailable element, failed delete, failing UPDATE, success; the cleaned counter rises exactly when the DELETE was answered, the failed one when it was not or the UPDATE raised. |
| GarbageCollector.GarbageCollectorService.DeleteFileFromStorage | admin-module/app/services/garbage_collector_service.py:703-738 | 200, 204 and 404 are success; every transport error is a failure, not an exception. |
| GarbageCollector.GarbageCollectorService.MarkFileAsDeleted | admin-module/app/services/garbage_collector_service.py:740-764 | A direct UPDATE for every cleanup reason, over an earlier stamp too. |
| GarbageCollector.GarbageCollectorService.CleanupExpiredTtl | admin-module/app/services/garbage_collector_service.py:394-484 | One new row per selected file without a committed pending row, its columns included; a file with exactly one adds neither row nor failure, and one with several counts as a failure. |
| GarbageCollector.GarbageCollectorService.CleanupFinalizedFiles | admin-module/app/services/garbage_collector_service.py:486-585 | One new row per selected transaction whose source has no committed pending row, its columns included; one pending row adds nothing, several count as a failure. |
| GarbageCollector.GarbageCollectorService.CleanupOrphanedFiles | admin-module/app/services/garbage_collector_service.py:587-684 | One new row per listed id without a registry row, due after the grace period. |
| GarbageCollector.GarbageCollectorService.AddToCleanupQueue | admin-module/app/services/garbage_collector_service.py:789-840 | Appends without a duplicate check. |
| GarbageCollector.GarbageCollectorService.Commit | admin-module/app/core/database.py:249-255 | Changed and added rows reach the queue at the commit only: the session has no autoflush. |
| GarbageCollector.GarbageCollectorService.Rollback | admin-module/app/services/garbage_collector_service.py:246-250 | The tables are those of the last commit. |
| RunEffects.CountsAddUp | admin-module/app/services/garbage_collector_service.py:347-386 | Cleaned and failed add up to the batch, except that a row whose UPDATE raised is counted on both sides. |
| RunEffects.CommittedRunMeans | admin-module/app/services/garbage_collector_service.py:195-268 | Every committed run, on the tables before and after: picked rows show what became of their request, a file is stamped by the last turn that deleted it and otherwise untouched, a copy is gone iff an online element removed it, the new rows are exactly those the two producers owe, and the counters count these rows. |
| RunEffects.CountersMeanRows | admin-module/app/services/garbage_collector_service.py:347-386 | `queue_processed` is the number of picked rows that end processed with `success = true`, or whose UPDATE raised; `queue_failed` is the number of picked rows whose `retry_count` rose. |
| RunEffects.PickedRowAfterRun | admin-module/app/services/garbage_collector_service.py:325-386 | What a committed run leaves of each queue row, by the status of its element, the answer to its DELETE and the fate of its UPDATE; a row that was not picked is as it was. |
| RunEffects.UrgentRowsFirst | admin-module/app/services/garbage_collector_service.py:297-311 | If an eligible row is left alone and another is worked off, the batch was full and the other row has a higher priority, or the same one and no later schedule. |
| RunEffects.PickMeans | admin-module/app/services/garbage_collector_service.py:297-311 | The queue SELECT column by column, both ways: due rows only, each once, none ahead of a more urgent one, and none left out unless the batch is full of rows at least as urgent. |
| RunEffects.SelectionsMean | admin-module/app/services/garbage_collector_service.py:418-525 | The SELECTs of the TTL and the finalized producer column by column, both ways: only expired live temporary files, or transactions completed at least the margin ago, each once, and all of them unless the batch is full. |
| RunEffects.TtlProducerMeans | admin-module/app/services/garbage_collector_service.py:443-470 | The TTL producer adds a row with the source's columns for exactly the selected files without a pending row; the files with several pending rows are its failures. |
| RunEffects.FinalizedProducerMeans | admin-module/app/services/garbage_collector_service.py:530-566 | The same for the sources of the selected transactions. |
| RunEffects.OrphanProducerMeans | admin-module/app/services/garbage_collector_service.py:629-668 | An orphan scan adds a row with the source's columns for exactly the listed ids without a registry row and without a pending row on that element. |
| FileRegistry.FileService.RegisterFile | admin-module/app/services/file_service.py:56-163 | Every column of the stored row is the requested one, the errors are told apart by their exact conditions, and row and event are as `Register` says, including the row that stays behind when its metadata is invalid. |
| FileRegistry.FileService.UpdateFile | admin-module/app/services/file_service.py:204-310 | Each mentioned column gets the requested value and each other one stays; the rejected downgrade and the missing row change nothing; row and event are as `Update` says. |
| FileRegistry.FileService.ApplyUpdate | admin-module/app/services/file_service.py:245-270 | For every request: each mentioned column has the requested value, a promotion clears the TTL, and the other columns are unchanged. |
| FileRegistry.FileService.DeleteFile | admin-module/app/services/file_service.py:312-406 | Row and event exactly as `Delete` says; a second delete changes nothing. |
| FileRegistry.EventPublisher.Publish | admin-module/app/services/event_publisher.py:91-174 | Appends iff initialized, enabled and accepted by Redis; otherwise the event is dropped in silence. |
| FileRegistry.CallKeepsAgreementIff | admin-module/app/services/file_service.py:88-138 | A call whose event is delivered keeps the folded event log equal to the live rows iff the call is publishable: a fresh row has a positive size, a content type and an uploader, and an update names no soft-deleted row that could be published. |
| FileRegistry.EventLogRefinesRegistry | admin-module/app/services/file_service.py:499-533 | Whole runs of publishable calls: the fold of the log is exactly the live rows under `_to_event_metadata`, whose columns `CacheShowsLiveRows` spells out. |
| FileRegistry.CacheShowsLiveRows | admin-module/app/services/file_service.py:499-533 | After any run of publishable calls a file is in the cache iff its row is live, and each of the fourteen published columns of the entry equals the column of the row. |
| FileRegistry.RegistrationMeans | admin-module/app/services/file_service.py:88-163 | A registration of a new id stores each requested column, touches no other row, and appends one created event with the element and the published columns of the row, or none when size, content type or uploader is missing. |
| FileRegistry.UpdateMeans | admin-module/app/services/file_service.py:245-310 | An accepted update changes exactly the mentioned columns and `updated_at`, and appends one updated event with the published columns of the new row. |
| FileRegistry.DeleteMeans | admin-module/app/services/file_service.py:350-406 | A delete of a live row changes three columns and appends one deleted event with the element the file was on. |
| FileRegistry.DeletedIdsStayDeleted | admin-module/app/services/file_service.py:56-88 | No run revives a soft-deleted row or registers its id again. |
| FileRegistry.EmptyFileIsRegisteredButNeverPublished | admin-module/app/services/file_service.py:88-138 | An empty file is committed and its event never published. |
| FileRegistry.UpdateAfterDeleteResurrectsInCache | query-module/app/services/cache_sync.py:152-186 | An update of a soft-deleted row puts it back into the consumers' cache. |
| JwtKeys.LatestExists | admin-module/app/models/jwt_key.py:190-213 | The latest-key query has an answer unless no key is active. |
| JwtKeys.ActiveAfterRotationsIff | admin-module/app/models/jwt_key.py:249-280 | Through any number of rotations rows are kept and dates unchanged, and a key is still active iff no rotation cleaned up after its expiry. |
| JwtKeys.RotatedMeans | admin-module/app/services/jwt_key_rotation_service.py:119-135 | One rotation column by column: exactly the active keys whose expiry has not passed stay active, the counter of every key that was active rises by one, and the new key is an active RS256 key that lives 25 hours with counter 0. |
| JwtKeys.JwtKeyRotationService.CheckRotationNeeded | admin-module/app/services/jwt_key_rotation_service.py:263-304 | True iff every active key expires within the hour (in particular if there is none), or the check raised. |
| JwtKeys.JwtKeyRotationService.AcquireLock | admin-module/app/services/jwt_key_rotation_service.py:177-221 | Acquired iff the first answer other than "busy" among three is a success; never more than three SETs. |
| JwtKeys.JwtKeyRotationService.CleanupExpiredKeys | admin-module/app/models/jwt_key.py:249-280 | Exactly the expired active rows are deactivated, and their number is returned. |
| JwtKeys.JwtKeyRotationService.CountRotation | admin-module/app/services/jwt_key_rotation_service.py:128-131 | The increments reach every key active in the database before the rotation, just deactivated ones included, the new one not. |
| JwtKeys.JwtKeyRotationService.RotateKeys | admin-module/app/services/jwt_key_rotation_service.py:79-175 | Returns whether the table was rotated; a lost lock or any exception leaves it unchanged. |
| JwtKeys.JwtKeyRotationService.RotationJob | admin-module/app/core/scheduler.py:52-70 | The need is checked once, before the lock. |
| KeyRotation.TokenContinuity | admin-module/app/services/jwt_key_rotation_service.py:108-135 | Over every interleaving of needed, on-time rotation jobs of any number of instances, each at most `d` from check to commit, and of signers: if two jobs end to end are at most 25h, every token of lifetime at most 24h - d signed by the latest key has an active key at every moment of its life. The lock is not needed for this. |
| KeyRotation.StepKeepsInv | admin-module/app/services/jwt_key_rotation_service.py:277-299 | One step keeps the invariant: a living token's key is active, no job in flight will drop it, and every longer-lived key is too fresh to be renewed in the token's life. |
| KeyRotationLimits.WholeRotationIsRotated | admin-module/app/services/jwt_key_rotation_service.py:119-135 | A job that nobody disturbs changes the table exactly as the serial service does, however its time is spent, and is on time iff it is unforced, short enough and not late. |
| KeyRotationLimits.DailyChecksStrandTokens | admin-module/app/core/config.py:700 | With checks every 24 hours a token becomes unverifiable the moment it is signed. |
| KeyRotationLimits.ForcedRotationsStrandTokens | admin-module/app/api/v1/endpoints/jwt_keys.py:126-165 | Two forced rotations make a three-hour-old token unverifiable. |
| KeyRotationLimits.ForcedRotationsStrandIff | admin-module/app/services/jwt_key_rotation_service.py:79-135 | With rotations forced at will, a living token can be stranded iff it outlives its key. |
| RotationBounds.ContinuityIff | admin-module/app/services/jwt_key_rotation_service.py:108-135 | Exactly which lifetimes are safe, for every job length d: over all on-time interleavings no token of lifetime `life` is ever stranded iff life + d is at most 24h and 2 * d is at most 25h. |
| RotationBounds.SlowCommitStrands | admin-module/app/services/jwt_key_rotation_service.py:119-135 | For each lifetime and job length that together exceed 24h an on-time run strands a token signed just before a slow commit. |
| RotationBounds.LongJobsStrand | admin-module/app/services/jwt_key_rotation_service.py:119-135 | Jobs longer than half a key's validity: an on-time run strands a token the moment it is signed. |
| KeyRotationLimits.StaleCheckRotatesTwice | admin-module/app/core/scheduler.py:61-66 | Two jobs that both check before either commits leave two new keys. |
| RotationBounds.SecondKeyIff | admin-module/app/core/scheduler.py:61-66 | After a commit, in some unforced run another job adds a second key while the new one has at least an hour left, iff it had made its check before that commit. |
| ScheduledContinuity.ScheduleContinuityIff | admin-module/app/services/jwt_key_rotation_service.py:277-299 | A deployment that checks at a fixed interval keeps every token of at most 24 hours verifiable over all its runs, whatever is signed between the checks, iff (24h / interval + 1) * interval is at most 25h. |
| ScheduledContinuity.ScheduleIsOnTimeRun | admin-module/app/core/scheduler.py:52-70 | Every run of such a schedule is an on-time run of the interleaved system. |
| ScheduledContinuity.HourlyChecksKeepTokens | admin-module/app/services/jwt_key_rotation_service.py:277-299 | Every interval of at most one hour keeps every token of at most 24 hours. |
| ScheduledContinuity.AllowedIntervalsContinuousIff | admin-module/app/core/config.py:774-779 | Of the settings 1 to 168 hours only 1, 5 and 25 keep every token of at most 24 hours; the default of 24 does not. |
| RotationSchedule.NewestIsLatest | admin-module/app/models/jwt_key.py:190-213 | On every schedule the newest row is the signing key. |
| RotationLock.MutualExclusion | admin-module/app/services/jwt_key_rotation_service.py:189-213 | With distinct lock values, in every run with ticking time, lost replies and dropped commands, at most one call is within its sixty seconds, and the key holds its value. |
| RotationLock.ShortSectionsNeverOverlap | admin-module/app/services/jwt_key_rotation_service.py:51-55 | Any two rotations shorter than the lock timeout are disjoint in time. |
| RotationLock.ReleaseIsRecorded | admin-module/app/services/jwt_key_rotation_service.py:171-175 | Each release of a run is among the rotations compared, with the time since which its call held the lock. |
| RotationLock.ReleaseSparesOthers | admin-module/app/services/jwt_key_rotation_service.py:240-257 | A release, however late and whatever its fate, never changes a key that holds another call's value. |
| RotationLock.AtMostThreeTries | admin-module/app/services/jwt_key_rotation_service.py:189-221 | No call ever sends more than three SETs, and one that gives up although every reply came back has sent exactly three. |
| RotationLock.SetsAreSpaced | admin-module/app/services/jwt_key_rotation_service.py:206-213 | Any two SETs of one call are at least a second apart. |
| RotationLock.ExclusionIff | admin-module/app/services/jwt_key_rotation_service.py:102 | Over all runs in which the calls draw given values the lock excludes iff no two calls draw the same value. The value is a clock reading. |
| RotationLock.EqualValuesBreakExclusion | admin-module/app/services/jwt_key_rotation_service.py:240-257 | For any two calls with the same value a run in which the release of the first lets a third call in beside the second. |
| TokenService.TokenService.DecodeToken | admin-module/app/services/token_service.py:121-204 | For any number and order of active keys: a payload iff the token is current and signed by an active database key or the file key; ExpiredSignatureError iff it is expired under the file key. |
| TokenService.TokenService.ValidateToken | admin-module/app/services/token_service.py:206-235 | Claims come back iff decoding succeeds and the kind matches. |
| TokenService.TokenService.CreateAccessToken | admin-module/app/services/token_service.py:264-346 | Signed by the latest active key, else by the file key, else an error; the claims carry the issue time and lifetime in whole seconds. |
| TokenService.DecodeAfterRotations | admin-module/app/services/token_service.py:141-178 | At every moment of its life, after any on-time run of rotations, `decode_token` gives back the claims of a token signed by the latest key. |
| TokenService.ExpiredDatabaseTokenIsJwtError | admin-module/app/services/token_service.py:160-178 | An expired token of a database key is reported as JWTError, against the documentation. |
| TokenService.DefaultKindRejectsIssuedTokens | admin-module/app/services/token_service.py:206-231 | The default kind "access" rejects every issued service account token. |
| RateLimit.RateLimiter.CheckRateLimit | admin-module/app/middleware/rate_limit.py:93-147 | Admits iff fewer than the limit are in the window; `retry_after` is the first whole second after the oldest entry leaves. |
| RateLimit.RateLimiter.Oldest | admin-module/app/middleware/rate_limit.py:131-132 | A member with the lowest score. |
| RateLimit.SlidingWindowBound | admin-module/app/middleware/rate_limit.py:119-145 | For every trace with distinct members in time order and every T, at most `limit` requests are admitted in (T - 60s, T]. |
| RateLimit.RunIsFaithful | admin-module/app/middleware/rate_limit.py:124-145 | For every trace in time order the sorted set holds exactly the admitted members still in the window, and its key outlives them. |
| RateLimit.AdmittedIff | admin-module/app/middleware/rate_limit.py:119-145 | For every trace in time order: a request is admitted iff fewer than `limit` of the members admitted before it lie in the minute that ends with it. |
| RateLimit.AdmittedIsCounted | admin-module/app/middleware/rate_limit.py:141-142 | Each admitted request is counted under its own time and instance. |
| RateLimit.KeyExpiryIsInvisible | admin-module/app/middleware/rate_limit.py:145 | The 120s key expiry never changes an answer. |
| RateLimit.RetryAfterIsEnough | admin-module/app/middleware/rate_limit.py:129-137 | A denied client that comes back after `retry_after`, with nobody admitted in between, is admitted iff the limit is positive. |
| RateLimit.SharedMemberIsNeverFull | admin-module/app/middleware/rate_limit.py:141-142 | Requests that share clock reading and instance share one member: with a limit of two or more any number of them is admitted. |
| RateLimitShared.SharedBound | admin-module/app/middleware/rate_limit.py:119-145 | For every trace in time order with at most c requests per clock reading and instance, and a positive limit, at most c * (limit - 1) + 1 requests are admitted in any (T - 60s, T], counted as requests. |
| RateLimitShared.SharedBoundIsTight | admin-module/app/middleware/rate_limit.py:119-145 | For every c and every limit some trace admits exactly that many. |
| RateLimitShared.LimitHoldsIff | admin-module/app/middleware/rate_limit.py:141-142 | The limit holds for the requests of every window of every such trace iff c is at most one or the limit is at most one. |
| RateLimitRace.InterleavedBound | admin-module/app/middleware/rate_limit.py:124-142 | With purge, count and add interleaving and at most c requests in flight, the set never exceeds limit + c - 1. |
| RateLimitRace.UndisturbedIsSerial | admin-module/app/middleware/rate_limit.py:119-145 | In any state, a request whose commands nobody interrupts does exactly what one check does that is a single step. |
| RateLimitRace.BoundIsTight | admin-module/app/middleware/rate_limit.py:124-142 | For every limit and every c some interleaving reaches exactly that many. |
| StorageSync.StorageSyncService.CollectChanges | admin-module/app/services/storage_sync_service.py:115-190 | Lists exactly the fields that would change, each once, with the old value of the row and the reported one; empty iff nothing published would change. |
| StorageSync.StorageSyncService.BuildConfig | admin-module/app/services/storage_element_publish_service.py:116-162 | One entry per row in order, with a version one higher. |
| StorageSync.StorageSyncService.PublishAll | admin-module/app/services/storage_element_publish_service.py:164-223 | When the store succeeds the configuration agrees with the database; every error is answered with zero. |
| StorageSync.StorageSyncService.SyncStorageElement | admin-module/app/services/storage_sync_service.py:214-326 | Succeeds iff the row exists, the element answered, the commit went through and no other row has the reported id; then the texts of the stored mode and status are the reported ones (`rw` and online for unknown ones), the numbers and the id are the reported ones, and no other row changes. Not found, collision, failed discovery (with "offline" as old and new value) and unexpected error are told apart. |
| StorageSync.StorageSyncService.SyncAll | admin-module/app/services/storage_sync_service.py:328-369 | A mass sync is the run of its single syncs, cut where an error escapes; it visits exactly the rows, or the online rows, in the order of their ids. |
| StorageSync.SelectedMeans | admin-module/app/services/storage_sync_service.py:328-369 | The ids read for a mass sync are those of all rows, or of the online ones, each once and ascending. |
| ServiceDiscovery.EmptyDiffIffSameProjection | admin-module/app/services/storage_sync_service.py:130-190 | The seven compared fields are exactly the published ones a sync can change. |
| ServiceDiscovery.AppliedMeans | admin-module/app/services/storage_sync_service.py:95-113 | What a sync stores, column by column and against the reported texts. |
| ServiceDiscovery.DiffMeans | admin-module/app/services/storage_sync_service.py:130-190 | Each change names a column with its old and its new value, and every changed column of the seven has one. |
| ServiceDiscovery.SyncIsIdempotent | admin-module/app/services/storage_sync_service.py:192-212 | Repeating a sync changes only the health check time and publishes nothing. |
| ServiceDiscovery.SyncKeepsValid | admin-module/app/models/storage_element.py:74-84 | Primary keys and the UNIQUE constraint survive every sync. |
| ServiceDiscovery.GrownIsValid | admin-module/app/models/storage_element.py:74-84 | A valid table stays valid when it grows by a row with a higher key and a new element id, or none. |
| ServiceDiscovery.BuiltAgreesIff | admin-module/app/services/storage_element_publish_service.py:129-162 | A configuration agrees with a table iff the rows it was built from have the same projection. |
| ServiceDiscovery.ConfigAgreesOverRuns | admin-module/app/services/storage_sync_service.py:256-301 | Over every run of syncs, scheduled publications and edits that loses no publication with something new to say, the Redis configuration agrees with the database. |
| ServiceDiscovery.ConfigAgreesIff | admin-module/app/services/storage_element_publish_service.py:164-223 | Over every run, lossy or not: the configuration agrees with the database iff nothing published has changed, on the whole, since a publication was last delivered. |
| ServiceDiscovery.SilentSyncsNeverRepair | admin-module/app/services/storage_sync_service.py:262-280 | A swallowed publish error is not remembered: syncs without a diff leave the stale configuration for ever. |
| ServiceDiscovery.TargetsUnique | ingester-module/app/main.py:140-164 | A table determines its endpoint and priority maps. |
| StorageSync.CapacityMonitor.FetchEndpointsFromRedis | ingester-module/app/main.py:96-187 | From an agreeing configuration: exactly the `is_writable` rows with non-empty id and URL, with their URLs and priorities. |
| StorageSync.EndpointsAfterRun | ingester-module/app/main.py:132-164 | End to end: after any run that loses no publication with something new to say, the endpoints read from Redis are exactly the writable elements of the database. |
| StorageSync.ReportedAwayIsNoEndpoint | ingester-module/app/main.py:132-164 | An element whose last stored report said "ro", "ar", "offline", "degraded" or "maintenance" is in no endpoint map that agrees with the database, whatever syncs failed since. |
| StorageSync.CapacityMonitor.Reload | ingester-module/app/main.py:228-275 | After a reload the monitor agrees with the database iff some element is writable or it was empty before; otherwise the last known endpoints stay. |
| AdminLockout.AdminUser.Authenticate | admin-module/app/services/admin_auth_service.py:110-235 | Disabled, locked, wrong and right password told apart; a success clears counter and lock and sets the login time, a wrong password raises the counter by one and locks for fifteen minutes from the fifth on, the other answers change nothing. |
| AdminLockout.AdminUser.IncrementLoginAttempts | admin-module/app/models/admin_user.py:217-230 | Every failure from the fifth on locks again. |
| AdminLockout.AdminUser.ResetLoginAttempts | admin-module/app/models/admin_user.py:210-215 | The counter is zero and the lock is gone. |
| AdminLockout.LockoutRate | admin-module/app/models/admin_user.py:197-230 | In every serialized run and interval the failed password checks number at most five per stretch between clearings plus one per whole fifteen minutes. |
| AdminLockout.LockoutRateWithoutClearing | admin-module/app/services/admin_auth_service.py:168-212 | Without a success or reset: at most 5 + T/15 in T minutes. |
| AdminLockout.LockoutRateIsTight | admin-module/app/models/admin_user.py:217-230 | The bound is reached for every number of lock periods. |
| AdminLockout.CounterIsFailures | admin-module/app/models/admin_user.py:210-230 | From a cleared account, after any run, the counter is the number of failed checks since the last clearing, and there is a lock iff these are at least five: until fifteen minutes after the last of them. |
| AdminLockout.LockedIff | admin-module/app/models/admin_user.py:197-208 | A login is answered "locked" iff at least five failed checks came since the last clearing, the last of them less than fifteen minutes ago: never before five. |
| AdminLockout.LastChangeHolds | admin-module/app/models/admin_user.py:197-230 | Enabling, password and login time are those of the last event that set them. |
| SecretRotation.PasswordHistory.CheckReuse | admin-module/app/core/password_policy.py:245-267 | True iff the secret was hashed at one of the last `history_size` positions of the history, or at any of them for size 0. |
| SecretRotation.ReusedIff | admin-module/app/core/password_policy.py:257-267 | The slice `[-n:]` holds the secret iff one of the recent positions does. |
| SecretRotation.PasswordHistory.AddToHistory | admin-module/app/core/password_policy.py:269-292 | A suffix of the history with the new hash at its end: min(n + 1, size) hashes for a positive size, all of them for size 0. |
| SecretRotation.ServiceAccount.RotateSecret | admin-module/app/services/service_account_service.py:366-443 | Succeeds iff the commit does and one of three candidates differs from the secrets at the recent positions of the history; the result is the first such candidate. A failure changes nothing. |
| SecretRotation.HistoryIsLastReplaced | admin-module/app/services/service_account_service.py:420-428 | After any run the history is the last `size` of what was remembered and replaced. |
| SecretRotation.HistoryFromEmpty | admin-module/app/services/service_account_service.py:420-428 | From an empty history: exactly the last min(n, size) of the n replaced hashes, in order. |
| SecretRotation.NoRecentReuse | admin-module/app/services/service_account_service.py:397-408 | Over any run secret number i differs from the `size` secrets before its predecessor. |
| SecretRotation.FreshRotationsSucceed | admin-module/app/services/service_account_service.py:397-408 | If each rotation of a run is offered a secret the account has not had, and no commit fails, every rotation succeeds. |
| SecretRotation.SizeZeroForgetsNothing | admin-module/app/core/password_policy.py:257-292 | The accepted setting `history_size = 0` keeps and checks the whole history. |
| PasswordPolicy.PasswordValidator.Validate | admin-module/app/core/password_policy.py:81-116 | Accepts iff the password is long enough and has a character of each required alphabet; otherwise names the first requirement that is not met, in the order length, uppercase, lowercase, digit, special. |
| PasswordPolicy.PasswordGenerator.Generate | admin-module/app/core/password_policy.py:171-225 | For every policy, length, draw and shuffle: a compliant password of the effective length (by default four more than the minimum) with characters of the required alphabets only, or IndexError iff there is nothing to draw from. |
| PasswordPolicy.PasswordGenerator.Shuffle | admin-module/app/core/password_policy.py:219-223 | In place, and a permutation for every sequence of draws. |
| PasswordPolicy.GenerateAndValidate | admin-module/app/core/password_policy.py:93-116 | The validator accepts whatever the generator of the same policy produces. |

## Left out

- The finalize driver keeps its transactions in the memory of one Ingester, and no code of the repository writes the table of the Admin Module that the collector reads; the model lets that table mirror the driver's transactions step by step.
- WAL, storage selector, capacity polling and attribute-file caches: only what they do to the registry, the transactions and the contents is modelled. The choice of a target and the retries of the checksum request are free.
- LossWitness.FileCanBeLostIff: sessions and the file's transactions are well formed (`LossCriterion.Wf`, kept by every step, and `LossCriterion.FileTxns`, kept by every disciplined one).
- LossConditions.PromotionInPlaceLosesIff: the state before the promotion is one of a disciplined run; LossWitness.FileCanBeLostIff covers any other. The same holds for the other conditions, the registration excepted.
- LossConditions.EditLosesIff: leaves out the relocation of a temporary file that has transactions, which then start from an element the file has left.
- What it costs when source and target of a finalization are the same element.
- Real HTTP, Redis, PostgreSQL, RSA, JWT encoding and bcrypt: replies per call, atomic commands, transactional tables, a signature that verifies under exactly one pair, a hash that verifies exactly one secret.
- A failing UPDATE inside a collector run leaves the transaction usable in the model; PostgreSQL would refuse the rest of the run and the commit would fail, which is the roll-back case.
- Metrics, logging, audit rows, error texts and the `errors` lists of results.
- Manual cleanup rows: `add_to_cleanup_queue` is modelled as a method, but its callers are not part of the interleaved system.
- The listing of a Storage Element in an orphan scan is an input; its paging and transport errors are not modelled.
- The bounded length of the Redis event stream and the consumer groups of the Query Module: the fold sees every event once and in order.
- `rotation_count` under overlapping rotations: any value may be written there; it is exact in the serial service.
- The synchronous call of asynchronous methods in the rotation job, and the float rounding of the remaining hours.
- Refresh tokens: seven days are longer than any key lives, so no continuity holds.
- Hot reload of the file-based key; signing and verifying use one pair.
- The limiter's fail-open path on Redis errors, and the extraction of client and limit from the token.
- The 3600 s lifetime of the published configuration, malformed JSON in Redis, and the contents of the Admin Module's fallback API, whose answer is an input of the reload.
- Publications of several Admin instances that overtake each other.
- A session whose rolled-back objects are read again after an unexpected sync error.
- Non-ASCII digits, which the validator's digit class also accepts.
- Concurrent logins of one account, and failures whose commit is lost.
- Password expiry, strength score, `AdminUser` password history, RBAC, mode transitions of Storage Elements, `AuditLog`: decided by reading one branch, or without state.
