# Remembra: durable protocols and numeric kernels, verified

Remembra is a memory service. This project models the parts of it that are hardest to get right by
reading: the batch idempotency ledger and its keyed client, the journalled SQLite restore, the unified
diff, the rate limiter with its two quota stores, the durable job ledger with its workers, the bounded
job queue, rank fusion, keyset pagination and the quantile estimate. Each is modelled in the form it has
in the source (classes whose methods update fields or arrays in place, loops with invariants, pure
functions where the source is pure) and proved against an independent specification.

`dafny verify dfyconfig.toml` checks everything.

## How it is laid out

| file | what it holds |
|---|---|
| `Batch.dfy`, `BatchLedger.dfy`, `BatchProtocol.dfy` | outcome classification; the claim ledger as transactions and as an object; many processes, crashes and the restore gate as a step relation with theorems over whole runs |
| `BatchCalls.dfy` | what callers of the claim ledger are answered, state by state, and a keyed call from its claim to its retry |
| `BatchInvalidation.dfy`, `BatchGate.dfy` | what an invalidation may cut off, and exactly when it is safe; exactly how long a gate stays shut |
| `SqliteRestore.dfy` | the restore, its error handler and the reconciler as trails of durable states |
| `Lines.dfy`, `Diff.dfy`, `UnifiedDiff.dfy` | the LCS table and script; hunks, checked by an independent patcher for the unified format of IEEE Std 1003.1 (`diff -u`) |
| `SlidingWindow.dfy`, `RateLimiter.dfy` | full charge histories; the pruned window map against them |
| `QuotaPlan.dfy`, `Quota.dfy`, `RedisQuota.dfy`, `QuotaAgreement.dfy`, `QuotaRuns.dfy`, `QuotaFleet.dfy` | what a request is charged; the two-phase quota; the sorted-set script; both in lockstep, and over whole runs; many instances on one store |
| `JobStore.dfy`, `JobStores.dfy`, `JobCalls.dfy`, `JobEquivalence.dfy`, `LeaseProtocol.dfy`, `WorkerOutcomes.dfy` | the job ledger step by step; both stores as objects; what each call means to its caller; their observational equality; workers, leases and reclaims as a step relation; how a run may end |
| `JobQueue.dfy` | the in-process queue, one method per stretch between two awaits |
| `Sorting.dfy`, `Ranking.dfy`, `SearchOrder.dfy`, `SearchResults.dfy`, `Suppression.dfy`, `SearchSelection.dfy` | sorting, fusion, search order and what it means, suppression of copies and diverse selection and what they mean |
| `Pagination.dfy`, `Histogram.dfy` | pages, quantiles |
| `Wrappers.dfy`, `Tables.dfy` | options and results; sums over a keyed table |

## What turned out false, and exactly when it holds

- `completeRestore` does not ask for the database flag. When `beginRestore` creates the marker and then
  fails to finish writing it, the flag is reverted and the marker stays; a later `completeRestore` then
  drops a claim in progress, and one key can be written twice (`MarkerOnlyGateAdmitsSecondWrite`). An
  invalidation is safe if and only if no call is under way with a claim (`InvalidationSafeIffIdle`). That no
  claim is in progress is what the database can tell of it, and the flag guarantees that
  (`QuietInvalidationsAreIdle`, `FlaggedInvalidationsAreIdle`).
- The restore gate has no owner. Any invalidation and the compensation of any `beginRestore` that failed to
  write its marker clear the flag without asking whose it is. A gate that was shut with flag and marker in
  place can therefore open before its closing invalidation, and a claim be granted behind it
  (`AnotherRevertOpensGate`). Until an invalidation commits, the flag keeps the ledger as it is if and only
  if no `beginRestore` may still revert it (`GateHoldsIffNoneMayRevert`).
- A reconciliation that finds a `prepared` journal and nothing but the target moves the target away and
  reports an error; the next one puts it back. A restore comes to that state exactly when its handler had the
  previous database in place and the rollback path free, and a crash kept it from dropping the journal
  (`SecondAttemptIsNeededWhen`, `SecondAttemptPutsBack`). A database larger than the default verification cap of
  1 GiB never settles (`TwoAttemptsSettle`, `UnverifiedNeverSettles`). A restore accepts a rollback path in
  another directory, but the reconciler refuses every journal that names one, so an interrupted restore
  with such a path never settles (`ElsewhereNeverSettles`).
- A restore never looks for the journal of an earlier one. One without `keepPrevious` leaves it where it
  is, and the next reconciliation may then replace the restored database by the one that the crashed
  restore had staged (`ForgottenJournalRun`); exactly which journals do so is `ForgottenJournalUndoes`.
  The restored database is then at the rollback path (`AttemptsHoldTarget`). A finished restore with
  `keepPrevious` leaves no journal, not even an earlier one (`FinishedRestore`).
- A restore checks that an occupied rollback path may be overwritten, but only once `overwrite` was given for
  the target, so the check never refuses: a database kept at the rollback path is replaced without being
  asked for (`RefusalMeans`).
- The comment on `QuotaRateLimiter` says that a rejected request cannot drain a budget. It cannot, but
  with a full identity map a rejected request or a mere check can refill another identity's, by evicting
  it (`CheckThatForgets`); it does so exactly when the identity is new and no tracked one has expired
  (`Evaluate`).
- The two quota stores agree on an allowed answer except for its label: the shared one reports the first
  planned budget, the in-process one the tightest (`Lockstep`; `ServeBoth` for whole runs). The shared
  `check` counts charges exactly as old as the window, so it may refuse what `consume` allows, and never
  the other way round.
- The two job stores differ for a reused id, for an empty type list and for renewing an expired lease,
  and, for a caller that never reads `runAfter`, nowhere else (`StepAgrees`, `RunsAgree`). A failure without
  a new delay keeps an elapsed `runAfter` in memory and clears it in SQL, so a caller that reads it sees the
  difference in a later `get` or `claim` of that job, and in nothing else (`StepAgreesInFull`,
  `RunsAgreeInFull`, `KeptDelayShows`).
- A worker that claims a job again after its own lease was reclaimed cannot be told from its earlier run:
  the earlier run may report completion (`StaleRunCanReport`). At most one run ever does, and none need to
  (`CompletionMayGoUnreported`).
- The documentation says that `dedupeSameSource` also collapses copies from one source. It collapses those
  and no others, so it removes less than the default and never more; it removes as much if and only if every
  copy has an earlier one from its own source (`SameSourceRemovesLess`, `SameSourceKeepsMore`).
- The relevance term of the diversity pass compares the query with the memories already selected and not
  with the candidate. Between candidates with embeddings the query therefore decides nothing
  (`SelectionIgnoresQuery`).

## Assumptions

Each SQLite transaction, rename (into another directory too), unlink, journal write and Redis script is one
atomic, durable step. Digests are injective and MACs valid. Clock readings are natural numbers that do not run backwards, and
the shared store's clock is the one its callers read. A batch item that fails with NOT_FOUND, CONFLICT or
INVALID_INPUT has written nothing. A torn staged copy does not verify, and the random names of staged copies
never collide. Ids are compared in the same order everywhere.

## Model

| member | source | states |
|---|---|---|
| `Batch.SettlementIsExclusive` | src/service.ts:362-378 | a keyed write batch is persisted, released or left in progress, exclusively; it is released exactly when it has items and every one failed with NOT_FOUND, CONFLICT or INVALID_INPUT, and left in progress exactly when some item failed and some item succeeded or failed with another code |
| `Batch.StoredExactlyWhen` | src/service.ts:281-356 | which results may be stored or replayed: those of a store, update or delete whose 1 to 100 requested items all succeeded with texts of at most 2048 characters, with exactly the counts that go with them |
| `BatchLedger.FileBatchIdempotencyStore.Claim` | src/batch-idempotency-store.ts:700-774 | answer and new ledger are those of the claim transaction, for any marker, any input (malformed ones included) and any state; a refusal leaves the ledger as it was |
| `BatchLedger.FileBatchIdempotencyStore.Complete` | src/batch-idempotency-store.ts:776-820 | the same for completing a claim: size cap, missing, stale, foreign, repeated and released claims each get their own refusal |
| `BatchLedger.FileBatchIdempotencyStore.Abandon` | src/batch-idempotency-store.ts:827-865 | the same for releasing a claim: only an in-progress claim of the same request is turned into a tombstone |
| `BatchLedger.FileBatchIdempotencyStore.BeginRestore` | src/batch-idempotency-store.ts:895-941 | flag first, marker second; a failed marker write reverts the flag but not a marker that was already created |
| `BatchLedger.FileBatchIdempotencyStore.CompleteRestore` | src/batch-idempotency-store.ts:943-969 | the marker goes before the invalidation, whether or not the flag is set |
| `BatchLedger.FileBatchIdempotencyStore.Invalidate` | src/batch-idempotency-store.ts:971-986 | every row goes, the generation advances by one and the flag is cleared, unless the generation would leave the safe integers |
| `BatchLedger.FileBatchIdempotencyStore.Totals` | src/batch-idempotency-store.ts:735-740 | the three aggregates of the capacity query, by a loop over the rows |
| `BatchLedger.LighterRowKeepsCapacity` | src/batch-idempotency-store.ts:801-813 | replacing a row by one that weighs no more keeps all three capacity limits |
| `BatchLedger.TombstoneWeighsNothing` | src/batch-idempotency-store.ts:735-745 | a released row counts for none of the three limits, so deleting it frees nothing |
| `BatchLedger.InsertKeepsCapacity` | src/batch-idempotency-store.ts:741-765 | a claim admitted by the capacity check keeps all three limits |
| `BatchLedger.ClaimKeepsLedger` | src/batch-idempotency-store.ts:700-767 | every claim keeps the ledger sound and within capacity; one refused for capacity leaves a tombstone untouched |
| `BatchLedger.CompleteKeepsLedger` | src/batch-idempotency-store.ts:776-813 | completing keeps the ledger sound and never raises the byte total |
| `BatchLedger.AbandonKeepsLedger` | src/batch-idempotency-store.ts:827-858 | releasing keeps the ledger sound and never raises the byte total |
| `BatchLedger.GrantIsExact` | src/batch-idempotency-store.ts:705-746 | a claim is granted if and only if no restore is pending, the capacity is not used up, and the key is unknown or released for the same named operation; deleting the tombstone first makes no difference to the capacity |
| `BatchLedger.CompletedClaimReplays` | src/batch-idempotency-store.ts:725-733 | a completed key replays its first response to the same request and refuses any other; it can be completed again without effect and never released |
| `BatchLedger.ReleaseUndoesClaim` | src/batch-idempotency-store.ts:822-858 | a release gives back every count and byte its claim took, and the key is then granted again to the same operation and to no other |
| `BatchLedger.GateKeepsLedger` | src/batch-idempotency-store.ts:895-986 | raising, reverting and clearing the gate keep the ledger sound |
| `BatchLedger.FlagRefusesEverything` | src/batch-idempotency-store.ts:706 | with the flag set no claim, completion or release changes anything |
| `BatchProtocol.StepKeepsInv` | src/service.ts:1758-1814 | one step of any process (check, claim, item, completion, release, replay, gate step, crash) keeps the protocol invariant, given that invalidations commit while no call is under way with a claim; claims of crashed calls and of calls that gave up may be invalidated |
| `BatchProtocol.AtMostOneExecutionWrites` | src/service.ts:1758-1814 | at most once: in every interleaving of any number of processes, with crashes anywhere and with invalidations whenever no call is under way with a claim, two executions of one key never write in the same generation, and two grants in one generation mean that one was released having written nothing |
| `BatchProtocol.ReplaysAgree` | src/service.ts:1767-1777 | replay agreement: every answer for a key in a generation is the response of its one completed execution, given only to the same request, and a stored response never fails validation on replay |
| `BatchProtocol.AnswersAgree` | src/service.ts:1767-1777 | two answers for one key in one generation carry the same response, valid for the request, and the same unreleased execution is behind both |
| `BatchProtocol.LedgerHoldsInEveryRun` | src/batch-idempotency-store.ts:679-767 | in every reachable state capacity holds, every row carries the current generation (so the stale-generation branches are never taken) and the flag implies that no claim is in progress |
| `BatchProtocol.ShutGateFreezesLedger` | src/batch-idempotency-store.ts:895-986 | with the flag set and no `beginRestore` left that may revert it, no claim, completion or release succeeds until an invalidation commits, marker or no marker, whoever crashes and whatever else is begun |
| `BatchProtocol.UnrevertedGateFreezesLedger` | src/batch-idempotency-store.ts:895-986 | from any world with the flag set no claim, completion or release succeeds until an invalidation or a revert commits |
| `BatchProtocol.QuietInvalidationsAreIdle` | src/batch-idempotency-store.ts:902-905 | what the database alone can tell is enough: an invalidation that finds no claim in progress is covered by the results above |
| `BatchProtocol.FlaggedInvalidationsAreIdle` | src/batch-idempotency-store.ts:902-905 | so is every invalidation that commits with the flag set |
| `BatchInvalidation.InvalidationSafeIffIdle` | src/batch-idempotency-store.ts:971-979 | exactly when an invalidation is safe: every continuation whose further invalidations are themselves safe keeps at most once and the agreement of answers if and only if no call is under way with a claim under which it can still write or settle |
| `BatchInvalidation.CutOffItemWrites` | src/batch-idempotency-store.ts:971-979 | a call with an item left that is cut off from its claim: the key can be written twice in the new generation |
| `BatchInvalidation.StaleReleaseAdmitsAnother` | src/batch-idempotency-store.ts:840-858 | a release by a call that was cut off frees the key under the call that holds it now, and a third one writes |
| `BatchInvalidation.StaleCompletionIsReplayed` | src/batch-idempotency-store.ts:790-813 | a completion by a call that was cut off settles the claim of the call that holds the key now, and a replay repeats what nobody executed in that generation |
| `BatchInvalidation.MarkerOnlyGateAdmitsSecondWrite` | src/batch-idempotency-store.ts:917-969 | a run without any bare invalidation in which one key is written twice: the marker of a half-failed `beginRestore` lets `completeRestore` drop a claim in progress |
| `BatchGate.GateHoldsIffNoneMayRevert` | src/batch-idempotency-store.ts:895-986 | in a reachable ledger with the flag set, every continuation without an invalidation leaves the ledger as it is if and only if no `beginRestore` is left that may still revert the flag |
| `BatchGate.AnotherRevertOpensGate` | src/batch-idempotency-store.ts:917-941 | a run: a `beginRestore` has returned with flag and marker in place, the delayed compensation of an earlier one clears the flag, and a claim is granted with no invalidation in between |
| `BatchCalls.CountsMean` | src/batch-idempotency-store.ts:735-740 | the two counts of the capacity query are the numbers of claims, in all and in the scope, that are not released |
| `BatchCalls.DigestMeans` | src/batch-idempotency-store.ts:154 | a scope is 64 lower-case hexadecimal digits |
| `BatchCalls.LabelMeans` | src/batch-idempotency-store.ts:163 | an operation label is a letter and up to 15 letters, digits and underscores, lower case |
| `BatchCalls.LimitsMean` | src/batch-idempotency-store.ts:498-515 | the limits that a store can be opened with, in numbers |
| `BatchCalls.ClaimAnswers` | src/batch-idempotency-store.ts:705-746 | for every state of a sound ledger the answer of a claim, error by error: pending, other request, still running, replay of the stored response, released without or with another operation, no room |
| `BatchCalls.GrantedRow` | src/batch-idempotency-store.ts:747-767 | a granted claim adds exactly one live row, which reserves the largest response and carries the time and the operation |
| `BatchCalls.CompleteAnswers` | src/batch-idempotency-store.ts:790-813 | for every state the answer of a completion; an accepted one stores the response and frees what it leaves of its reservation |
| `BatchCalls.AbandonAnswers` | src/batch-idempotency-store.ts:836-858 | for every state the answer of a release, and which operation the tombstone keeps |
| `BatchCalls.OperationsAreLabels` | src/batch-idempotency-store.ts:163-165 | the operation names are valid labels and no two operations share one |
| `BatchCalls.FinishMeans` | src/service.ts:1780-1814 | from the outcomes alone: released if there are any and all failed harmlessly, stored with its counts if all succeeded within the limits, left in progress otherwise |
| `BatchCalls.RetryIsDecidedByOutcomes` | src/service.ts:1758-1815 | from a granted claim to the retry of the same call: the retry replays the stored response, or executes again, or is refused for ever, and the codes of the items decide which |
| `BatchCalls.CheckMeans` | src/batch-idempotency-store.ts:700-701 | while marker or flag is there no call gets past the check in front of its transaction |
| `BatchCalls.MarkerKeepsOut` | src/batch-idempotency-store.ts:868-885 | over whole runs: as long as the marker is there no call that starts gets a claim or writes |
| `BatchCalls.ReplayNeedsAuthorization` | src/service.ts:1767-1777 | a stored response is handed out exactly to a caller that is still authorized |
| `SqliteRestore.RecoveryDirectory.RestoreSqliteBackup` | src/sqlite-recovery.ts:284-349 | the durable states it passes through, its error and its result are those of the trail: for every failing forward step, torn copy and failing handler rename, and with or without the journal of an earlier restore; success says whether the previous database was kept, and a failure names its step |
| `SqliteRestore.RefusalMeans` | src/sqlite-recovery.ts:284-311 | a restore is refused exactly for a cap below 1024, a backup that does not verify under the cap, an existing target without `overwrite`, a sidecar, or a rollback path equal to the target, and reports the first of these; an occupied rollback path never refuses it |
| `SqliteRestore.FailsExactlyAt` | src/sqlite-recovery.ts:316-348 | a failing step makes the restore fail exactly if this restore comes to that step |
| `SqliteRestore.RecoveryDirectory.ReconcileSqliteRestore` | src/sqlite-recovery.ts:121-209 | the durable states, the reported action and the error are those of the reconciler, branch by branch, the refusal of a journal with a rollback path in another directory included |
| `SqliteRestore.ReconcileReports` | src/sqlite-recovery.ts:160-209 | which action or error every directory is answered with, and whose file is at the target after a success |
| `SqliteRestore.RestoreStaysRecoverable` | src/sqlite-recovery.ts:317-348 | every crash point of a restore that keeps the previous database, its error handler included, leaves everything as it was or is recoverable; without the journal of an earlier restore all are recoverable |
| `SqliteRestore.ReconcileStaysRecoverable` | src/sqlite-recovery.ts:160-209 | every crash point of a reconciliation is recoverable again |
| `SqliteRestore.CrashSafety` | src/sqlite-recovery.ts:160-349 | crash anywhere, reconcile any number of times, crash anywhere again: some file always holds the whole old or new database, whatever an earlier restore left behind; once the journal of this restore is written, or without an earlier one, two uninterrupted attempts leave one of them at the target without a journal if the rollback path lies beside the target and both verify; with a path elsewhere a journal that a crash left behind stays for ever |
| `SqliteRestore.TwoAttemptsSettle` | src/sqlite-recovery.ts:145-209 | for every directory with a journal: two attempts settle exactly when the rollback path lies beside the target and the image they choose verifies under the default cap; one is enough exactly when, besides, the journal is not `prepared` with nothing but the target present |
| `SqliteRestore.AttemptsKeepChoice` | src/sqlite-recovery.ts:160-209 | for every directory with a journal: attempts in any number, cut off anywhere, settle on the image chosen at the start or not at all |
| `SqliteRestore.SecondAttemptIsNeededWhen` | src/sqlite-recovery.ts:317-347 | a restore can leave the state that needs the second attempt exactly when moving the previous database failed with nothing at the rollback path, or the second journal write failed and the handler put the previous database back |
| `SqliteRestore.SecondAttemptPutsBack` | src/sqlite-recovery.ts:176-208 | there the first attempt moves the only database away and reports an error, and the second one puts it back |
| `SqliteRestore.ElsewhereNeverSettles` | src/sqlite-recovery.ts:145-149 | with a rollback path in another directory every attempt refuses the journal and leaves everything as it is |
| `SqliteRestore.UnverifiedNeverSettles` | src/sqlite-recovery.ts:229-235 | if neither image verifies (one larger than the default cap, say) no number of attempts settles the restore |
| `SqliteRestore.PlainRestoreIsAtomic` | src/sqlite-recovery.ts:305-339 | without `keepPrevious` the target is at every crash point the old one or the new one, and the journal of an earlier restore and the files it names stay |
| `SqliteRestore.FinishedPlainRestore` | src/sqlite-recovery.ts:316-348 | a finished restore without `keepPrevious` leaves the new database if it came to publishing it and the old one otherwise, and no copy of its own |
| `SqliteRestore.ForgottenJournalUndoes` | src/sqlite-recovery.ts:284-349 | a finished restore without `keepPrevious` is undone by the next two reconciliations exactly when the journal of an earlier one is `prepared`, names a rollback path beside the target with no file there, and its staged copy is present and another database, or the restored one does not verify under the default cap |
| `SqliteRestore.ForgottenJournalRun` | src/sqlite-recovery.ts:169-199 | a run of it: a crashed restore, a second one that succeeds, and a reconciliation that publishes the first |
| `SqliteRestore.FinishedRestore` | src/sqlite-recovery.ts:340-348 | what a finished restore with `keepPrevious` leaves: the new database, or the old one put back, and no journal, not even an earlier one; no target exactly when the handler's own rename fails after the old one was moved |
| `Diff.LcsBounds` | src/diff.ts:20-30 | the table recurrence is an upper bound for every common subsequence of the two lists |
| `Diff.LcsOps` | src/diff.ts:20-50 | the script drops to the old list without its additions and to the new list without its removals, keeps as many lines as the table says, and lists removals before additions in every stretch of changes |
| `Diff.FillTable` | src/diff.ts:24-30 | the flat array holds the recurrence in every cell, in 32-bit words that never overflow |
| `Diff.KeptIsCommon` | src/diff.ts:31-49 | the kept lines of any script are a common subsequence of both lists |
| `Diff.ScriptIsOptimal` | src/diff.ts:20-50 | no common subsequence is longer than the kept lines, and no script between the two lists changes fewer lines |
| `Lines.JoinSplit` | src/diff.ts:58-59 | splitting at newlines and joining again gives the text back |
| `UnifiedDiff.FindEnd` | src/diff.ts:84-103 | a changed run bridges gaps of at most four kept lines, ends with a change, and is followed by more kept lines or by nothing but kept lines |
| `UnifiedDiff.HunkIsCompact` | src/diff.ts:82-133 | two kept lines lead and trail every hunk, or fewer where a text begins or ends; inside, no more than four come in a row |
| `UnifiedDiff.BuildHunk` | src/diff.ts:107-132 | start lines, counts and marked lines of a hunk are those of the stretch of the script |
| `UnifiedDiff.HunkApplies` | src/diff.ts:104-133 | a hunk applies where its header says and turns the old stretch into the new one |
| `UnifiedDiff.HunkSpansBothSides` | src/diff.ts:104-131 | both counts of every hunk are at least one, and hunks do not overlap |
| `UnifiedDiff.GroupHunks` | src/diff.ts:76-135 | the hunks, applied by an independent patcher, turn the old lines into the new ones, are disjoint, increasing and compact, and carry every changed line and no other |
| `UnifiedDiff.CoarseHunk` | src/diff.ts:61-70 | beyond the cell budget one hunk replaces everything, and applies |
| `UnifiedDiff.Unified` | src/diff.ts:56-137 | no diff exactly for equal texts; otherwise, under the two labels, the patch applied to `prev` gives `next` back; up to 4,000,000 cells it changes as few lines as possible, beyond that one hunk replaces everything |
| `SlidingWindow.LiveIsSuffix` | src/rate-limiter.ts:223-228 | in an ascending history the live charges are its last ones |
| `SlidingWindow.IntervalBound` | src/rate-limiter.ts:229-230 | no half-open interval of one window length holds more than `limit` charges |
| `SlidingWindow.RetryIsExact` | src/rate-limiter.ts:234-238 | the oldest live charge gives the exact earliest time of the next admission |
| `RateLimiter.HistoryMeans` | src/rate-limiter.ts:223-230 | the recursive form of a sound history says: ascending, spaced, none from the future |
| `RateLimiter.AgreesMeans` | src/rate-limiter.ts:223-226 | what is kept is a suffix of the history that leaves out only expired charges |
| `RateLimiter.ClockAdvances` | src/rate-limiter.ts:213 | time passing keeps the kept windows in step with the full histories |
| `RateLimiter.InProcessRateLimiter.Evaluate` | src/rate-limiter.ts:212-247 | the pruned, swept and bounded window map answers as the full history dictates; exactly one charge is added when it is allowed and charged, and another identity is forgotten exactly when the ceiling leaves no choice; the identity becomes the most recently used, and expired windows go exactly every `sweepEvery` operations |
| `RateLimiter.InProcessRateLimiter.Sweep` | src/rate-limiter.ts:254-259 | exactly the windows without a live charge go |
| `RateLimiter.InProcessRateLimiter.Evict` | src/rate-limiter.ts:266-281 | expired windows go first; only if there is none, the least recently used identity |
| `RateLimiter.InProcessRateLimiter.Reset` | src/rate-limiter.ts:193-195 | one identity is forgotten and nothing else |
| `RateLimiter.RefusalIsExact` | src/rate-limiter.ts:234-238 | a refused request without further charges is allowed at a later time if and only if `retryAfterMs` has passed |
| `RateLimiter.VerdictMeans` | src/rate-limiter.ts:205-250 | a request is allowed exactly while fewer charges than the limit lie within the window; what remains, with the charge, makes up the limit; a refusal leaves nothing and has to wait |
| `RateLimiter.WindowsNeverOverfull` | src/rate-limiter.ts:229-230 | every interval of one window, at any position, holds at most `limit` charges |
| `RateLimiter.AllowedStaysAllowed` | src/quota.ts:259-276 | an allowed check stays allowed while time passes, so the charge of the second phase cannot fail |
| `RateLimiter.CheckThatForgets` | src/rate-limiter.ts:217 | a concrete run in which a mere check of a new identity lets another one exceed its limit |
| `QuotaPlan.OrderIsExact` | src/quota.ts:151-158 | the constructor keeps every configured dimension once, in declared order |
| `QuotaPlan.DeclaredOrder` | src/rate-limiter.ts:28-39 | the nine dimensions in their order of precedence |
| `QuotaPlan.PlanIsExact` | src/quota.ts:190-193 | one request is charged the configured dimensions that it carries, once each and in order, and the base budget last |
| `QuotaPlan.DeciderIsUnique` | src/quota.ts:262-285 | first denial, or else first of the tightest: one budget decides |
| `QuotaPlan.ReportMeans` | src/quota.ts:262-292 | the decision is reported with the numbers of the deciding budget, the base budget as the global dimension, and one less left once the request is charged |
| `Quota.QuotaRateLimiter.constructor` | src/quota.ts:149-167 | one limiter of its own for every configured budget, none charged yet |
| `Quota.NewLimiters` | src/quota.ts:161-166 | one fresh limiter per configured budget, no two of them the same object, each enforcing the policy of its budget |
| `Quota.QuotaRateLimiter.EvaluatePlan` | src/quota.ts:259-286 | the decision over one plan: phase one asks in declared order, phase two charges all or none, and the reported entry is that of the deciding budget |
| `Quota.QuotaRateLimiter.EvaluateLocked` | src/quota.ts:250-291 | all or nothing: the first denial in declared order, or else the tightest budget, decides from the full histories; when all allow, every planned budget is charged exactly once, even as the clock moves between the phases; otherwise none is; other budgets are untouched |
| `Quota.DecideAndCharge` | src/quota.ts:250-291 | both phases over the planned limiters: checks first, then every charge or none |
| `Quota.CheckAll` | src/quota.ts:251-260 | the checks of phase one answer from the histories and charge nothing |
| `Quota.ConsumeAll` | src/quota.ts:269-276 | every charge of phase two succeeds and evicts nobody |
| `Quota.Tightest` | src/quota.ts:282-285 | the first of the budgets with the least remaining |
| `RedisQuota.KeysAreDistinct` | src/redis.ts:340-349 | no two budgets or identities share a key, whatever the prefix and the values |
| `RedisQuota.ReapKeepsSlot` | src/redis.ts:256 | the expiry of a key discards no live entry |
| `RedisQuota.PruneStep` | src/redis.ts:240-241 | pruning by score leaves exactly the live charges of the full history, and no other key changes |
| `RedisQuota.ChargeStep` | src/redis.ts:255-256 | a charge with a fresh member adds one entry at the end of its key and changes no other key |
| `RedisQuota.RedisQuotaRateLimiter.PassOne` | src/redis.ts:237-248 | the first pass stops at the first budget that is used up, with the wait for its oldest live charge |
| `RedisQuota.RedisQuotaRateLimiter.PassTwo` | src/redis.ts:250-263 | the second pass charges every key once and finds the first of the tightest |
| `RedisQuota.RedisQuotaRateLimiter.QuotaScript` | src/redis.ts:232-264 | the whole script: a denial charges nothing, an allowed request charges every key |
| `RedisQuota.RedisQuotaRateLimiter.Consume` | src/redis.ts:376-404 | the answer is the one that the full histories of all keys dictate, for one shared store and any number of earlier charges; an allowed answer is labelled with the first planned budget |
| `RedisQuota.ChargedOnce` | src/redis.ts:252-262 | after an allowed request every planned key has one charge more, and no other key has |
| `RedisQuota.RedisQuotaRateLimiter.CheckScript` | src/redis.ts:267-283 | counting the live charges and those exactly as old as the window, the check refuses with the first budget that is used up, and otherwise reports the least that remains |
| `RedisQuota.RedisQuotaRateLimiter.CheckedIsAllowed` | src/redis.ts:267-283 | what a check allows, the quota allows |
| `RedisQuota.RedisQuotaRateLimiter.Check` | src/redis.ts:368-404 | a check changes no history, and what it allows the full histories allow |
| `QuotaFleet.ServeAll` | src/redis.ts:217-264 | any number of instances with different tags on one store, serving any interleaving of requests: every answer is the one that the shared histories dictate at that moment, and every instance stays sound |
| `QuotaFleet.InstancesDoNotMatter` | src/redis.ts:217-264 | two runs of the same requests from the same histories give the same answers, whichever instance served which request |
| `QuotaAgreement.StartBoth` | src/quota.ts:149-167 | a new in-process quota and a new shared one correspond |
| `QuotaAgreement.Lockstep` | src/redis.ts:232-264 | from corresponding states and with the same clock both quotas agree on allowed, remaining and retryAfterMs, agree entirely on a denial, and agree on the label of an allowed answer exactly when the tightest budget is labelled like the first; they stay in correspondence unless a full local limiter forgets an identity |
| `QuotaRuns.FewIdentitiesFit` | src/rate-limiter.ts:266-281 | a limiter with a place for every identity it was ever charged for never forgets one |
| `QuotaRuns.ServeBoth` | src/redis.ts:232-264 | over any run of requests from new stores, as long as the run names no more identities per budget than a limiter may track, both quotas decide every request alike |
| `JobLedger.FirstIsUnique` | src/job-store.ts:202-204 | oldest first, then by id, names one job |
| `JobLedger.FirstExists` | src/job-store.ts:202-204 | whenever something is claimable, something is first |
| `JobStores.SelectFirst` | src/job-store.ts:202-204 | the selection loop finds the first claimable job, or none |
| `JobStores.InMemoryJobStore.Claim` | src/job-store.ts:193-216 | the first claimable job, started under a lease |
| `JobStores.InMemoryJobStore.ReclaimExpired` | src/job-store.ts:254-270 | exactly the running jobs with an expired lease are given up, and counted |
| `JobStores.InMemoryJobStore.Prune` | src/job-store.ts:276-286 | exactly the terminal jobs settled long enough ago go, and are counted |
| `JobStores.InMemoryJobStore.ReadStats` | src/job-store.ts:288-292 | every job is counted once, under its own state |
| `JobStores.SqliteJobStore.Claim` | src/job-store.ts:365-395 | the claim statement, with an empty type list as no condition |
| `JobCalls.EnqueueMeans` | src/job-store.ts:175-191 | the stored job has the type, payload, tenant and attempt budget that were handed in and the time of the call; it can be claimed exactly from the end of its delay on by a claim that asks for its type and tenant; only SQL refuses a taken id |
| `JobCalls.ClaimMeans` | src/job-store.ts:193-218 | nothing found exactly when nothing is offered; otherwise the oldest offered job, by id among equals, with one more attempt and under a lease that no other claim sees and that ends exactly with its length |
| `JobCalls.CompleteMeans` | src/job-store.ts:218-229 | in both stores the answer is true exactly for the owner of the running job, which is then completed and held by nobody; every other job, and on a refusal every job, is as it was |
| `JobCalls.FailMeans` | src/job-store.ts:231-245 | in both stores exactly the owner fails its job; with attempts left it is retrying and can be claimed exactly from the end of its retry delay on, whatever an earlier delay was, and otherwise it has failed; type, payload and tenant stay |
| `JobCalls.RenewMeans` | src/job-store.ts:247-252 | in both stores a renewal keeps reclaims away for exactly the new lease; exactly the owner gets one, in the SQL store only before the old lease is over |
| `JobCalls.ReclaimMeans` | src/job-store.ts:254-270 | in both stores exactly the jobs whose lease is over lose their owner, for another attempt or for good, and are counted; a second reclaim finds none left |
| `JobCalls.PruneMeans` | src/job-store.ts:276-286 | in both stores exactly the completed, failed and cancelled jobs go that were settled long enough ago, counted from completion or else from creation; what goes and what stays add up, and a second call finds nothing to remove |
| `JobCalls.UnownedIsRefused` | src/job-store.ts:397-430 | in both stores a job that nobody holds can be completed, failed or renewed by nobody |
| `JobCalls.GetMeans` | src/job-store.ts:272-274 | a look shows the whole record and changes nothing |
| `JobCalls.StatsMean` | src/job-store.ts:289-293 | every state is counted under its own name |
| `JobEquivalence.StepAgrees` | src/job-store.ts:193-470 | from related states one call gives the same answer, `runAfter` aside, and related states again, if and only if it is not one of the three diverging ones: a reused id, an empty type list while something is claimable, a renewal by the owner of an expired lease |
| `JobEquivalence.StepAgreesInFull` | src/job-store.ts:231-245 | the whole answers are equal if and only if the call does not diverge and shows no job whose delay only memory has kept, which is one that last failed without a new delay while it had one |
| `JobEquivalence.RunsAgree` | src/job-store.ts:193-470 | over any sequence of calls with a clock that does not run backwards, a caller that never reads `runAfter` can tell the two stores apart if and only if some call diverges |
| `JobEquivalence.RunsAgreeInFull` | src/job-store.ts:193-470 | over any sequence of calls a caller that reads `runAfter` can tell the stores apart if and only if some call diverges or shows a delay that only memory has kept; which delays those are is read off the calls and the SQL rows |
| `JobEquivalence.KeptDelayShows` | src/job-store.ts:412-430 | a run: an elapsed delay, a claim, a failure without a new delay and a `get`, none of which diverge, and the whole answers differ |
| `JobEquivalence.NewStoresAgree` | src/job-store.ts:193-470 | both comparisons from two new stores, without and with `runAfter` |
| `JobEquivalence.ReclaimAgrees` | src/job-store.ts:254-270 | both reclaim the same jobs, because a running job always has a lease |
| `JobEquivalence.FailAgrees` | src/job-store.ts:231-245 | keeping the old delay in memory and clearing it in SQL comes to the same, because it is over by then |
| `LeaseProtocol.StepKeeps` | src/durable-worker.ts:252-336 | every action of every worker and of the upkeep keeps the lease invariant and every terminal record |
| `LeaseProtocol.AtMostOneRunCompletes` | src/durable-worker.ts:252-336 | in every interleaving, for both stores and with calls that are carried out but answered with an error: a job is claimed at most as often as its budget allows, has an owner exactly while running, and at most one run ever reports it completed, and only if its record says so |
| `LeaseProtocol.CompletionMayGoUnreported` | src/durable-worker.ts:308-331 | a concrete run in which a job is completed on record and no run ever reports it |
| `LeaseProtocol.TerminalIsFinal` | src/job-store.ts:218-286 | a terminal record never changes again, and no run claims or reports its job again, whatever happens |
| `LeaseProtocol.CompletionNeedsNewestOwner` | src/durable-worker.ts:308-314 | a completion is accepted if and only if the job is running and its newest claim carries the run's owner name |
| `LeaseProtocol.StaleRunCanReport` | src/durable-worker.ts:308-315 | a concrete run in which a stale run reports completion while the same worker's newer run of the job is still going |
| `WorkerOutcomes.LostExactlyByFailedRenewal` | src/durable-worker.ts:264-281 | over any interleaving a run knows that it lost its lease exactly when one of its renewals was refused or erred |
| `WorkerOutcomes.FailedRenewalNeverReports` | src/durable-worker.ts:301-307 | for both stores: one refused or failing renewal while the handler is at work, and whatever happens next the run never reports completion |
| `WorkerOutcomes.LostLeaseNeverReports` | src/durable-worker.ts:301-307 | the same from any state with the lease lost |
| `WorkerOutcomes.ReturnMeans` | src/durable-worker.ts:301-308 | a handler that returns goes on to complete exactly if no renewal failed before; otherwise the run ends as having lost its lease |
| `WorkerOutcomes.ThrowMeans` | src/durable-worker.ts:284-330 | a run that throws, in its handler or while completing, ends cancelled if its lease was lost by then and failed otherwise; an unreadable payload always ends failed |
| `WorkerOutcomes.FailureGivesBack` | src/durable-worker.ts:160-173 | a failing run gives its job back under the label of its error, a stopping worker under LEASE_RELEASED; both at once and only while the job is theirs |
| `JobQueue.JobQueue.Enqueue` | src/job-queue.ts:147-175 | the exact refusals (closed, no handler, full), or the job joins the line and as many of its front as fit enter the pool |
| `JobQueue.JobQueue.Pump` | src/job-queue.ts:207-218 | afterwards an open queue with waiting jobs has a full pool; waiters are released exactly when queue and pool are empty |
| `JobQueue.JobQueue.HandlerReturns` | src/job-queue.ts:227-237 | completed, or cancelled when aborted meanwhile; the result is resolved once |
| `JobQueue.JobQueue.HandlerThrows` | src/job-queue.ts:238-247 | cancelled, failed for good, or waiting for another attempt within the budget |
| `JobQueue.JobQueue.RetryWaitEnds` | src/job-queue.ts:247-252 | another attempt, or cancelled |
| `JobQueue.JobQueue.Leave` | src/job-queue.ts:211-215 | the pool refills from the line; waiters are released exactly when this was the last job |
| `JobQueue.JobQueue.Drain` | src/job-queue.ts:178-181 | returns at once exactly when queue and pool are empty |
| `JobQueue.JobQueue.Shutdown` | src/job-queue.ts:188-201 | waiting jobs are cancelled at once and resolved once, every job in the pool is aborted |
| `JobQueue.ShutMeans` | src/job-queue.ts:193-199 | a shutdown cancels and aborts every waiting job, aborts every job in the pool without settling it, and leaves settled ones alone |
| `JobQueue.JobQueue.Register` | src/job-queue.ts:139-145 | one handler per type, none after closing |
| `JobQueue.JobQueue.DrainedMeansSettled` | src/job-queue.ts:308-312 | with queue and pool empty every job ever accepted has settled exactly once and nobody still waits |
| `JobQueue.JobQueue.ClosedCancels` | src/job-queue.ts:193-199 | after a shutdown whatever is not settled yet is in the pool and aborted |
| `JobQueue.StartingWorks` | src/job-queue.ts:207-210 | entering the pool uses up continuations |
| `JobQueue.JobQueue.WorkIsDue` | src/job-queue.ts:207-218 | short of an empty queue and pool some job of the pool has a continuation due, and no work is left exactly with both empty |
| `JobQueue.JobQueue.RunDown` | src/job-queue.ts:177-254 | a queue without new jobs drains: whichever job continues next and however its handler ends, queue and pool are empty after at most as many continuations as there was work and at least as many as there were jobs in the pool |
| `Ranking.AddList` | src/retrieval.ts:669-682 | one list adds to each of its ids the weight over (k + average rank), ranks counted from scores and not from positions, and changes no other id |
| `Ranking.RrfFuse` | src/retrieval.ts:660-686 | the fused score of every id is the sum of its shares in both lists |
| `Ranking.SingleListRanks` | src/retrieval.ts:1005-1020 | the short cut gives the shares of the one list |
| `Ranking.FuseScores` | src/retrieval.ts:1021-1026 | all three branches give the fused score, so a single list is fusion with an empty other one |
| `Ranking.GroupRank` | src/retrieval.ts:673-675 | begin and end of a group of ties give the rank that the scores alone dictate |
| `Ranking.RanksAddUp` | src/retrieval.ts:674-675 | whatever the ties, the ranks of n items add up to n(n + 1)/2 |
| `SearchOrder.ResultsIgnoreOrder` | src/retrieval.ts:996-1085 | permuting the memories changes neither the fused scores nor the ordered list nor what superseded copies it drops |
| `SearchOrder.ListIsRanked` | src/retrieval.ts:996-1003 | the lists that are fused have falling scores and no id twice |
| `SearchResults.ResultsAreRanked` | src/retrieval.ts:1053 | the results come by falling final score, then by later update, then by smaller id |
| `SearchResults.ResultsMembers` | src/retrieval.ts:1072-1085 | the results are exactly the memories whose replacement is not available |
| `SearchResults.BetterMatchComesFirst` | src/retrieval.ts:990-1053 | between results that are alike in all else, one that is no worse in either signal and better in one comes first |
| `SearchResults.TotalMeans` | src/retrieval.ts:1031-1050 | the final score is the scaled fused share plus the modifiers, and a standing instruction gains exactly 1000 |
| `SearchResults.ShareMeans` | src/retrieval.ts:1010-1024 | the share of a tie group is the weight over the constant plus the middle of its positions |
| `SearchResults.BetterRankGetsMore` | src/retrieval.ts:1010-1024 | in one list a higher score gets a larger share, an equal one an equal share, and all are positive |
| `SearchResults.ListMembers` | src/retrieval.ts:996-1003 | each list holds exactly the memories with a positive score of its signal, with that score |
| `Suppression.DedupeResults` | src/retrieval.ts:252-299 | of the positions in the window, exactly those go that repeat an earlier text (from the same source, if that is asked for), each with the id of the best-ranked copy; blank texts and everything past the window stay |
| `Suppression.BestCopySurvives` | src/retrieval.ts:246-250 | the first copy of every text survives, and a position repeats an earlier one exactly when it is not its own first copy |
| `Suppression.SurvivorsAreDistinct` | src/retrieval.ts:252-295 | no two survivors are copies of each other |
| `Suppression.SuppressionIsIdempotent` | src/retrieval.ts:252-299 | suppressing copies twice is suppressing them once |
| `Suppression.NothingIsLost` | src/retrieval.ts:252-299 | what survives and what is reported as removed add up to what was looked at |
| `Suppression.SameSourceRemovesLess` | src/retrieval.ts:272-288 | asking for `sameSource` never removes more than `exact` does, and as much if and only if every copy has an earlier copy from its own source |
| `Suppression.SameSourceKeepsMore` | src/retrieval.ts:272-288 | a concrete list of which `sameSource` keeps a copy that the default removes |
| `Suppression.MmrDedup` | src/retrieval.ts:853-893 | a list that fits is left as it is; otherwise each selected memory is the first of those left with the greatest marginal value |
| `Suppression.SelectionIsPart` | src/retrieval.ts:859-892 | selection and leftovers are together the candidates |
| `Suppression.TopRankedIsKept` | src/retrieval.ts:859-892 | the best-ranked candidate always comes first |
| `Suppression.SelectionIgnoresQuery` | src/retrieval.ts:872-884 | between candidates that all have embeddings the selection is the same for every query, because the relevance term does not look at the candidate |
| `Suppression.FinalListIgnoresOrder` | src/retrieval.ts:1053-1108 | permuting the memories leaves the final list unchanged, through suppression, selection and limit |
| `SearchSelection.SurvivesExactly` | src/retrieval.ts:263-288 | a memory without text always stays; any other stays exactly if no earlier one has its text, and its source if that is asked for |
| `SearchSelection.RemovedExactly` | src/retrieval.ts:272-283 | what is reported of a removed copy: its id, the id of the first copy, and the rule |
| `SearchSelection.LookedMeans` | src/retrieval.ts:257 | how many results are looked at: 200 by default, at least one, never more than there are |
| `SearchSelection.LessSimilarIsPreferred` | src/retrieval.ts:877-891 | a candidate is never picked while another one with an embedding is less similar to what is already selected |
| `SearchSelection.SimilarityIsAverage` | src/retrieval.ts:877-886 | the similarity counted against a candidate lies between its least and greatest similarity to the selected ones |
| `SearchSelection.RelevanceIsGreatest` | src/retrieval.ts:877-884 | the relevance term is the greatest similarity of the query to a selected memory, and never negative |
| `SearchSelection.FinalListMeans` | src/retrieval.ts:1087-1110 | the final list is as long as limit and survivors allow, holds survivors only, begins with the best, and without diversity is their beginning |
| `Sorting.SortWorks` | src/retrieval.ts:1053 | sorting by a strict order gives the same elements in order |
| `Sorting.SortIgnoresOrder` | src/retrieval.ts:1053 | what comes out of a sort does not depend on the order of what goes in |
| `Pagination.CompareIsOrder` | src/service.ts:272-276 | the comparison is a strict total order on (updatedAt, id) |
| `Pagination.SortedIsRight` | src/service.ts:1848 | the list is in descending order and holds exactly the eligible memories |
| `Pagination.NewestFirst` | src/service.ts:272-276 | later updates first, larger ids among equal ones, in code-unit order |
| `Pagination.LessMeans` | src/service.ts:272-276 | the string order: the first differing character decides, a proper prefix comes first |
| `Pagination.PageMeans` | src/service.ts:1849-1864 | total, remaining, the slice behind offset and cursor, and the cursor at its last memory exactly if more follow |
| `Pagination.RefusedExactly` | src/service.ts:1850-1852 | cursor and offset together are refused, and nothing else is |
| `Pagination.UnpagedMeans` | src/service.ts:1857-1861 | without offset, limit and cursor everything comes on one page without a cursor |
| `Pagination.AfterIsRest` | src/service.ts:1854 | what follows the cursor of a listed memory is the rest of the list |
| `Pagination.PagesAreTheList` | src/service.ts:1848-1864 | following `nextCursor` with any limit of at least one ends within one page per memory, and the pages together are the whole list |
| `Pagination.StableMemoriesAppearOnce` | src/service.ts:1848-1864 | with any changes to the store between pages, a memory that stays eligible under the same key is delivered exactly once by a finished walk, and no key is delivered twice |
| `Histogram.Series.Observe` | src/metrics.ts:58-73 | bucket counts, sum and total are those of the values observed |
| `Histogram.Series.Quantile` | src/metrics.ts:89-107 | zero outside [0, 1] or without observations, otherwise the estimate at q times the total |
| `Histogram.CountsAreCumulative` | src/metrics.ts:69 | bucket counts are cumulative and at most the total |
| `Histogram.EstimateIsMonotone` | src/metrics.ts:94-106 | a higher quantile is never estimated lower |
| `Histogram.EstimateIsInTheRightBucket` | src/metrics.ts:94-106 | for q > 0 and a true quantile at or below the last edge, estimate and true quantile lie in the same bucket |
| `Histogram.EstimateDividesBucket` | src/metrics.ts:94-106 | the estimate divides its bucket as the rank divides the observations in it |
| `Histogram.EstimateAtTheEnds` | src/metrics.ts:94-110 | a rank that no bucket reaches is estimated at the last edge, rank zero at zero or at the edge of an empty first bucket |

## Left out

- HTTP, MCP, SDK, CLI, logging, policy parsing, redaction, encryption and the provider adapters: input and output, or calls into code that is not part of this model.
- HMACs, digests, file modes, symbolic links, directory syncs, cold-start polling and the migration of old ledger schemas.
- The content of the restore marker and the `restoreReason` getter; the marker is present or absent.
- Bare `invalidate()` under a call with a claim: the at-most-once and replay theorems assume that invalidations commit while no such call is under way, and `InvalidationSafeIffIdle` shows that nothing less would do.
- The optional `abandon` of other idempotency stores: the file store has it.
- `rollbackSqliteBackup` and `backupSqlite`, a failing journal removal inside the error handler, and a crash that reorders renames.
- The decimal rendering of hunk headers and the joining of the diff into one text; hunks carry their numbers.
- The digest check of rate-limit identities and the parsing of `REMEMBRA_QUOTAS`: identities and policies come validated.
- The promise chain of `serialize`: each decide-and-charge is one call, which is what the chain provides.
- `resetLocked`, `clear` and the statistics getters: single assignments.
- QuotaRuns.ServeBoth: its runs consist of `consume` calls; a `check` of the in-process quota may itself evict (`CheckThatForgets`).
- Two shared-store instances interleaving inside one script: the script is atomic. Instance tags are taken to differ; the source draws them at random.
- Job type, tenant and error label normalization, payload encoding and its size limit: the fields come normalized.
- JobEquivalence.StepAgrees: an answer is compared without `runAfter`; `StepAgreesInFull` compares it whole.
- JobEquivalence.RunsAgree: likewise, with `RunsAgreeInFull` for whole answers.
- `SqliteJobStore.stats`: the grouped count is the specification itself.
- The polling loop of `DurableWorker` (`pump`, `wait`, `start`): its saturated branch continues without awaiting, so no progress claim holds as written; claims are made in any order instead.
- Handlers and callbacks of `JobQueue` that call back into the queue synchronously; a handler's result and error values.
- In `searchQ`: scoring, scope and temporal modifiers (given as numbers), the candidate seed list, reranking and the budget; rounding of reported components. Ids and update times enter by their place in string order.
- The base64 and JSON form of cursors, filters other than eligibility, and the text of the listing.
- Floating point: scores, sums and quantiles are exact reals.
- src/lock.ts, src/migration-state.ts, the shutdown coordinator, process roles, authorization and consolidation: not derivable or single-branch.
