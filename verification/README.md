# Verified protocols of taquba

A Dafny model of the state-keeping protocols of taquba (a durable queue), taquba-workflow (durable
runs over it) and taquba-cron (a scheduler over it), with proofs of what each keeps in every run.
`dafny verify dfyconfig.toml` checks the project.

| part | modules | what is modelled |
|---|---|---|
| Claim cursor | `ClaimCursor`, `ClaimProtocol`, `CursorLog` | the per-queue cache of where a claim scan starts, beside commits, late notes, one claim in flight, clean closes, opens and crashes that keep any prefix of the write-ahead log |
| Owned runs | `OwnedRuns` | owned submissions beside lease expiry, re-claims, the seal of a step, and the three ways an owner terminates |
| Cron | `CronExpressions`, `Cron`, `CronFloors`, `CronScheduler` | ticks, watermark, lookback, failed calls, restarts, the registry and the run loop at one time |
| Counts and effects | `Counts`, `Effects`, `StoreRuns` | transactional counts with one waiter, the dedup index, and settlements that commit whole or not at all |
| Payload objects | `Payloads` | objects written before their records and deleted after the removal is durable |
| Expiry index | `ExpiryKeys`, `Expiry`, `ExpiryProtocol` | the key codec, one pass, and passes beside commits, other passes and restarts |
| Workflow keys | `Keys` | run ids, the owner header, the index of owned runs and its ranges |
| Run groups | `Groups`, `GroupRuns` | member run ids, the numbers of a member's runs, and the removal of a group |
| Current step | `CurrentStep` | the two reads of a run's pointer and its job |
| Completion waiters | `Completion`, `CompletionProtocol` | registration, settlement and withdrawal in every interleaving |

`Wrappers`, `Bytes` and `Decimal` hold the option and result types, byte strings under
lexicographic order, and decimal text.

Objects that the source changes in place are classes whose methods follow the source's methods and
loops. Each method is proved against functions or predicates of its old state. Concurrent protocols
are transition systems: an event is one atomic access, one commit or one read, `Enabled` and `Apply`
give its meaning, and the main lemmas speak of every `IsRun`.

Inputs from outside are parameters: clock readings, generated ids, failures of the store, the
callback of an expiry pass, and the digest of a group's members, which is assumed to be injective.

## Findings

The model follows the code. These statements, which the documentation suggests, do not hold in every
interleaving. Each has a run that shows it and its exact condition.

- A note between the begin of a claim and its snapshot can put a live key behind the bound that the
  claim observed, and the claim passes over it (`ClaimProtocol.NoteDuringBeginIsPassedOver`). A claim
  takes what a front scan takes if and only if its bound yields the least live key
  (`ClaimProtocol.BoundScanIsFrontScan`). The documentation of `Queue::claim` describes
  a fallback to a front scan after a scan from the bound; the code has a front scan only without a
  bound.
- The notes of a commit follow an await of its durability, so an enqueue whose future is dropped there
  leaves a committed insert without a note. A close can then write a record whose bound is past a live
  key, and the next session does not cover the key (`CursorLog.LostNoteMakesAFalseRecord`). A history
  is safe at every point if and only if each of its closes finds every lost note after the bound of a
  queue not known to be empty (`CursorLog.HistoryIsSafeIff`).
- The cancel of a queued owner reads the owner's queues before its transaction, and can miss a queue
  (`OwnedRuns.CancelCanMissAQueue`). It reaches every queue with an owned run if and only if the
  queues did not change since (`OwnedRuns.CancelIsSafeIffUnchanged`).
- A submission reads the run record outside its transaction, and the dedup key of a first step is
  held only while the step is queued. A member's run number can start twice, also after a success
  (`GroupRuns.RunZeroCanStartTwice`, `GroupRuns.RunCanStartAfterSuccess`). It does if and only if
  another submission of it committed in between and its first step left the queue
  (`GroupRuns.ReuseIffTheRunLeftTheQueue`, `GroupRuns.StartsAfterSuccessIff`). A submission outside
  this case is called fresh. After one that is not, a removal of the group can leave the state of a
  run (`GroupRuns.RemovalCanMissARun`), exactly when it is not of the last run
  (`GroupRuns.CoversAfterSubmissionIff`).
- A wait that began on an active job can report that no job has the id
  (`CompletionProtocol.ActiveJobCanBeNotFound`). It does if and only if it reads between the removal
  of the record and its settlement (`CompletionProtocol.NotFoundIffReadBeforeTheSettlement`).
- A pair of a pointer and its job can span two committed states (`CurrentStep.PairCanSpanTwoStates`).
  It is one state if and only if the job's record did not change after the last state, between the
  two reads, that points at the job (`CurrentStep.PairIsOneStateIff`).

## Model

| member | source | states |
|---|---|---|
| `ClaimCursor.Cursor.BeginClaim` | taquba/src/claim_cursor.rs:112-129 | the bound, the epoch and the emptiness of the queue are observed, with those of a fresh state for a queue without an entry |
| `ClaimCursor.Cursor.Advance` | taquba/src/claim_cursor.rs:131-156 | dropped when the bound moved after the observation, otherwise past the claimed key or clamped to the least insert ahead |
| `ClaimCursor.Cursor.MarkEmpty` | taquba/src/claim_cursor.rs:158-167 | the queue is then known to be empty if and only if the observed epoch is the current one, and the bound stays |
| `ClaimCursor.Cursor.IsKnownEmpty` | taquba/src/claim_cursor.rs:169-177 | true exactly when emptiness is recorded at the current epoch |
| `ClaimCursor.Cursor.NotePendingInserts` | taquba/src/claim_cursor.rs:179-239 | the bound moves back to an insert before it or to the claimed key itself, an unknown bound stays unknown unless the queue was known empty, and at most 64 waiters wake |
| `ClaimCursor.Cursor.Export` | taquba/src/claim_cursor.rs:241-261 | exactly the queues with a bound or known emptiness, each with its state |
| `ClaimCursor.Cursor.Restore` | taquba/src/claim_cursor.rs:263-275 | the bound, and emptiness at the current epoch |
| `ClaimCursor.Cursor.RestoreCursorState` | taquba/src/claim_cursor.rs:336-378 | every readable record is restored in order, and every record is deleted, readable or not |
| `ClaimCursor.RestoredFromRecords` | taquba/src/claim_cursor.rs:336-378 | after an open each queue with a record exports that record again, and a queue without one is fresh |
| `ClaimCursor.ScanAfterAdvance` | taquba/src/claim_cursor.rs:131-156 | a scan after an advance reads exactly the keys after the claimed one, or from an insert recorded at or before it, and a bound that moved stays |
| `ClaimCursor.ScanAfterNote` | taquba/src/claim_cursor.rs:179-239 | a scan after a note reads exactly what it read before and the keys from the noted one, known emptiness is revoked, and the clamp is the least insert ahead |
| `ClaimCursor.ScanPending` | taquba/src/queue_core/claim.rs:88-133 | the candidates are the first keys from the bound in order, and drained means the scan ran out of keys |
| `ClaimProtocol.ScanClaim` | taquba/src/queue_core/claim.rs:88-133 | the loop takes the unique first keys that the bound yields, and is drained exactly when fewer than the batch are live after the bound |
| `ClaimProtocol.StepKeepsInv` | taquba/src/claim_cursor.rs:20-40 | every event (commit, note, removal, begin, snapshot, claim commit, advance, mark, abandon) keeps coverage, emptiness and the state of the claim in flight |
| `ClaimProtocol.NoteKeepsClaimSound` | taquba/src/claim_cursor.rs:179-239 | a note during a claim leaves the claim able to advance: the bound moved, or the noted key is at or after the clamp |
| `ClaimProtocol.AdvanceKeepsInv` | taquba/src/claim_cursor.rs:131-156 | an advance, dropped or clamped, leaves every live key covered or in an insert not yet noted |
| `ClaimProtocol.RunIsSafe` | taquba/src/claim_cursor.rs:131-239 | in every run from a sound state each live key is at or after the bound or belongs to an insert not yet noted |
| `ClaimProtocol.ColdRunIsSafe` | taquba/src/claim_cursor.rs:20-40 | the same from a process start with any live keys |
| `ClaimProtocol.FirstKeysUnique` | taquba/src/queue_core/claim.rs:121-133 | what a scan takes is determined by the keys it reads |
| `ClaimProtocol.BoundScanIsFrontScan` | taquba/src/queue_core/claim.rs:98-124 | a bounded scan takes what a front scan takes if and only if the bound yields the least live key |
| `ClaimProtocol.ClaimTakesTheFront` | taquba/src/claim_cursor.rs:112-129 | without an outstanding note and with the bound as observed, a claim takes what a front scan of all live keys takes |
| `ClaimProtocol.ClaimPassesNoKnownKey` | taquba/src/claim_cursor.rs:112-177 | with notes outstanding a claim takes or stops before every live key that was noted when it began |
| `ClaimProtocol.EmptyPollIsExact` | taquba/src/claim_cursor.rs:83-88 | a queue known to be empty without an outstanding note has no live key |
| `ClaimProtocol.MarkRecordsEmptiness` | taquba/src/claim_cursor.rs:158-167 | a mark makes the queue known to be empty if and only if no note changed the epoch since the claim began, and leaves the bound |
| `ClaimProtocol.DrainedClaimAnswersTheNextPoll` | taquba/src/queue_core/claim.rs:134-141 | over every run from its begin, a claim that marks the queue makes the next poll answer without a scan if and only if no note was applied in between |
| `ClaimProtocol.AdvancePassesTheClaim` | taquba/src/claim_cursor.rs:131-156 | without a recorded insert the next scan starts strictly after the claimed key |
| `ClaimProtocol.RaceIsARun` | taquba/src/queue_core/claim.rs:78-86 | a note can commit and apply between the begin of a claim and its snapshot |
| `ClaimProtocol.FirstClaimIsARun` | taquba/src/queue_core/claim.rs:78-133 | a claim from a process start reaches the state in which the race begins |
| `ClaimProtocol.NoteDuringBeginIsPassedOver` | taquba/src/queue_core/claim.rs:78-124 | a run from a process start in which that claim passes over a live noted key |
| `CursorLog.RestoreIsSound` | taquba/src/claim_cursor.rs:336-378 | a restored sound record starts a session in which coverage and emptiness hold |
| `CursorLog.RestoreKnowsTheRecord` | taquba/src/claim_cursor.rs:263-275 | a session knows the emptiness of its record if and only if the record has it, and has its bound |
| `CursorLog.CloseAndOpenRoundTrip` | taquba/src/claim_cursor.rs:308-378 | a close and the next open keep the pending keys, the bound and the known emptiness |
| `CursorLog.CloseRecordSound` | taquba/src/claim_cursor.rs:308-334 | the record of a close is true of the pending keys if and only if every lost note has its keys after the bound of a queue not known to be empty |
| `CursorLog.CloseKeepsInvIff` | taquba/src/claim_cursor.rs:308-334 | a close keeps every log prefix sound if and only if every lost note is read |
| `CursorLog.HistoryIsSafeIff` | taquba/src/claim_cursor.rs:308-378 | over any history of sessions, closes with or without lost notes, opens and crashes at any log prefix, every point is safe if and only if every close finds every lost note read |
| `CursorLog.HistoryIsSafe` | taquba/src/claim_cursor.rs:308-378 | after a history whose closes find every lost note read, a record in any prefix of the log is true of that prefix |
| `CursorLog.NewStoreIsSafe` | taquba/src/claim_cursor.rs:308-378 | the same from a new store, with coverage and emptiness in every session |
| `CursorLog.AllNotedIsSound` | taquba/src/claim_cursor.rs:308-334 | closes without a lost note meet the condition |
| `CursorLog.LostNoteMakesAFalseRecord` | taquba/src/txn.rs:318-333 | a history from a new store in which a dropped enqueue makes the record of a close false, and the next session leaves a live key uncovered |
| `OwnedRuns.SubmitCommitIsLive` | taquba-workflow/src/owner.rs:226-278 | an owned submission commits only under the claim of the present record while its step runs |
| `OwnedRuns.NoCommitAfterTermination` | taquba-workflow/src/owner.rs:226-278 | no owned run commits once the owner has terminated |
| `OwnedRuns.SubmitCommitKeepsInv` | taquba-workflow/src/owner.rs:250-278 | the compare of the queue list puts the queue of every committed run on the list once |
| `OwnedRuns.WorkerStepKeepsInv` | taquba-workflow/src/worker.rs:377-446 | seal, read of the queues and terminating settlement, in that order, list every queue with an owned run |
| `OwnedRuns.ClaimStepKeepsInv` | taquba/src/queue_core/claim.rs:173-217 | expiry, re-queue and re-claim keep the registry and the fences of older claims sound |
| `OwnedRuns.RunKeepsInv` | taquba-workflow/src/owner.rs:190-278 | every run in which each cancel commits with unchanged queues keeps the whole invariant |
| `OwnedRuns.WorkerPathIsSafe` | taquba-workflow/src/worker.rs:195-217 | in every run that ends in a worker settlement or a reconciliation, every queue with an owned run has a cancel job and no owned run commits later |
| `OwnedRuns.CancelJobsAreExact` | taquba-workflow/src/owner.rs:209-224 | in every such run the queues with a cancel job are exactly those with an owned run |
| `OwnedRuns.WorkerTerminationCancels` | taquba-workflow/src/worker.rs:377-446 | a run in which a step submits, terminates and leaves the cancel job |
| `OwnedRuns.CancelIsSafeIffUnchanged` | taquba-workflow/src/runtime/cancel.rs:25-67 | the cancel of a queued owner reaches every queue if and only if the list did not change after its read |
| `OwnedRuns.CancelCanMissAQueue` | taquba-workflow/src/runtime/cancel.rs:25-67 | a reachable run leaves an owned run on a queue without a cancel job |
| `CronExpressions.NextIsLeast` | taquba-cron/src/lib.rs:304-310 | the next time is the least occurrence strictly after the anchor, or none is after it |
| `CronExpressions.PreviousIsGreatest` | taquba-cron/src/lib.rs:311-323 | the previous time is the greatest occurrence strictly before any instant, whole second or not |
| `CronExpressions.UnroundedPreviousMisses` | taquba-cron/src/lib.rs:311-323 | without the rounding the search is right if and only if the instant is whole or its second has no occurrence |
| `CronExpressions.PreviousOfNext` | taquba-cron/src/lib.rs:304-323 | the two searches invert each other on occurrences |
| `Decimal.SignedRoundTrip` | taquba-cron/src/lib.rs:236-247 | a watermark parses to the time it was written with |
| `Cron.TickKeepsInv` | taquba-cron/src/lib.rs:792-840 | a tick at any clock reading, with or without failed calls, keeps the firings increasing and the watermark at the last one |
| `Cron.FireKeepsSlot` | taquba-cron/src/lib.rs:876-919 | a firing appends one job with its interval header and moves the watermark with it |
| `Cron.SearchStartsAt` | taquba-cron/src/lib.rs:842-875 | an unset next firing is found as the least occurrence after the clock reading, the lookback, or the later of the watermark and the lookback, by the cases of the schedule |
| `Cron.FailedCallsRetry` | taquba-cron/src/lib.rs:801-840 | a failed read or enqueue under backfill leaves the firing and asks for attention a second later, and a tick before the firing asks at the firing |
| `Cron.NoBackfillSkipsToNow` | taquba-cron/src/lib.rs:801-840 | without backfill a due tick skips to the clock reading, fails or not, and writes no watermark |
| `Cron.FiringMovesTheWatermark` | taquba-cron/src/lib.rs:876-919 | under backfill a successful firing leaves the watermark at its time, also when its job is pending already, and the next firing at the least occurrence after it |
| `Cron.DedupKeyIsFree` | taquba-cron/src/lib.rs:883-919 | under backfill a due firing is never suppressed by its dedup key |
| `Cron.BackfillRunIsSound` | taquba-cron/src/lib.rs:792-919 | over any ticks, failures, restarts and schedule changes the firings strictly increase, the watermark is the last one, and only occurrences at or before the floor of a search are skipped |
| `Cron.NewBackfillRunIsSound` | taquba-cron/src/lib.rs:842-875 | the same from a schedule without a watermark |
| `CronFloors.SearchRaisesToALookback` | taquba-cron/src/lib.rs:842-875 | a search that sets the next firing above the watermark raises it to the tick's clock reading less the lookback |
| `CronFloors.FloorsAreSound` | taquba-cron/src/lib.rs:792-919 | at every point of every run the floor of each search and firing is the lookback of a tick that found the next firing unset since a start, a restart or a re-registration |
| `CronFloors.SkippedOnlyBeforeALookback` | taquba-cron/src/lib.rs:792-919 | after the first firing an occurrence is skipped only at a tick that follows a restart or a re-registration, and only when it is at or before the tick's clock reading less the lookback |
| `CronFloors.FiringFollowsTheLookback` | taquba-cron/src/lib.rs:866-875 | over every run the firing that such a tick finds is the least occurrence after the later of the last firing and the clock reading less the lookback |
| `Cron.ConsecutiveIntervalsTile` | taquba-cron/src/lib.rs:883-892 | the intervals of consecutive firings meet if and only if the first firing occurs in the second's expression with nothing between, which holds for one expression unless a lookback floor is between them |
| `Cron.TickFiresTheFirst` | taquba-cron/src/lib.rs:801-840 | a healthy tick enqueues the first remaining due firing and leaves exactly the others |
| `Cron.TickKeepsAccount` | taquba-cron/src/lib.rs:801-840 | firings enqueued followed by firings due stay the same sequence over ticks at one time |
| `Cron.WakeIsDueWhileFiringsRemain` | taquba-cron/src/lib.rs:801-840 | the instant a tick returns is due if and only if a firing remains |
| `Cron.TickMakesProgress` | taquba-cron/src/lib.rs:774-840 | a tick lowers the count of remaining firings by one until none is left |
| `CronScheduler.AcceptedStartHasAFloor` | taquba-cron/src/lib.rs:516-532 | an accepted start at the lookback has a floor at every clock reading |
| `CronScheduler.Validate` | taquba-cron/src/lib.rs:516-532 | no error if and only if no header is reserved and the start is bounded |
| `CronScheduler.Registry.Register` | taquba-cron/src/lib.rs:535-549 | appends exactly when the schedule is acceptable, the scheduler runs and the name is new; otherwise the error of the first of these that fails, and nothing changes |
| `CronScheduler.Registry.Stop` | taquba-cron/src/lib.rs:600-604 | a stopped registry keeps its entries |
| `CronScheduler.Registry.Unschedule` | taquba-cron/src/lib.rs:642-655 | removes exactly the entry with the name, and counts a version only for a change |
| `CronScheduler.Registry.ReplaceAll` | taquba-cron/src/lib.rs:552-584 | all or nothing, reports a change if and only if the sets differ, and a registered schedule keeps its allocation |
| `CronScheduler.Registry.Match` | taquba-cron/src/lib.rs:563-577 | each schedule has its registered entry when one is equal, otherwise a new one, and the count is of the registered ones |
| `CronScheduler.EqualCounts` | taquba-cron/src/lib.rs:570-577 | with unique names the sets are equal if and only if the counts are and every schedule is registered |
| `CronScheduler.Scheduler.Sync` | taquba-cron/src/lib.rs:745-766 | the active entries are the registry's, retained entries keep their next firing, and new ones start without one |
| `CronScheduler.Scheduler.TickEntry` | taquba-cron/src/lib.rs:801-840 | one entry and its stored slot tick as `Cron` states, and no other changes |
| `CronScheduler.Scheduler.FireEntry` | taquba-cron/src/lib.rs:883-919 | the job, its dedup key and the watermark commit together, and a dedup hit writes only the watermark |
| `CronScheduler.Scheduler.Step` | taquba-cron/src/lib.rs:774-790 | every entry ticks once from the same state, and the result is the earliest instant that one needs attention |
| `CronScheduler.Scheduler.HealthyStep` | taquba-cron/src/lib.rs:774-790 | a step, synced first, lowers the total of remaining firings while its instant is due, and leaves none otherwise |
| `CronScheduler.Scheduler.StepTo` | taquba-cron/src/lib.rs:704-743 | repeated steps at one time end, and every backfill entry of the registry has then fired exactly what was due, in order |
| `CronScheduler.StepMakesProgress` | taquba-cron/src/lib.rs:774-790 | the sum over all entries falls with each step that returns a due instant |
| `Counts.CountChangeKeepsInv` | taquba/src/count.rs:40-60 | a change adds to its count alone and keeps every waiter recorded on a count that is not zero |
| `Counts.ZeroWakesTheWaiter` | taquba/src/count.rs:48-60 | the change that leaves a count at zero makes its waiting job pending, and no other job moves |
| `Counts.WaitKeepsWaiters` | taquba/src/count.rs:62-92 | an accepted wait makes the job the only recorded waiter of a count that is not zero, or pending at once |
| `Counts.WaitAcceptedIff` | taquba/src/count.rs:62-92 | a wait is accepted if and only if the count is zero or no job waits on it; the job is then pending without a wait, or the recorded waiter of the same number |
| `Counts.InsertKeepsDedup` | taquba/src/effects.rs:429-456 | a new job with a free key keeps the dedup index exact |
| `Counts.TransitionKeepsInv` | taquba/src/txn.rs:76-113 | every move, claim and removal of a job keeps the waiters and the dedup index exact |
| `Counts.TransitionOutcome` | taquba/src/txn.rs:76-113 | the state, the run time, the waits and the dedup key that each transition leaves, with every other job and every count as it was |
| `Effects.PreparedOf` | taquba/src/effects.rs:230-282 | an enqueue is prepared if and only if a wait comes with a `run_at`, and the record is scheduled with the request's time and waits exactly for a time after now |
| `Effects.Prepare` | taquba/src/effects.rs:325-360 | accepted if and only if every value is within the cap, no key is written and deleted, and every wait has a time; each record is then as its request asks |
| `Effects.ChangeOneMore` | taquba/src/effects.rs:393-395 | one more change after any set of others is the change of all of them, so the map order does not matter |
| `Effects.Txn.StageCountChange` | taquba/src/count.rs:40-60 | the staged store is the changed one, with the record deleted and the waiter woken at zero |
| `Effects.Txn.StageWake` | taquba/src/queue_core/control.rs:33-69 | moves a job to pending only while it waits on that count |
| `Effects.Txn.StageCountChanges` | taquba/src/effects.rs:393-395 | in any order of the names, every count has its sum and exactly the waiters of counts at zero are awake |
| `Effects.Txn.StageJobWrites` | taquba/src/effects.rs:415-456 | dedup hit, duplicate id, second waiter, or the record with its index entry |
| `Effects.Txn.StageJobs` | taquba/src/effects.rs:396-402 | the batch in order, or the error of its first failing enqueue |
| `Effects.Txn.StageKv` | taquba/src/effects.rs:403-408 | in any order of the keys, every write and every delete |
| `Effects.Txn.StageEffects` | taquba/src/effects.rs:362-413 | an ended claim of the fence, then the first compare that does not match, then the first failing stage is the error; otherwise counts, enqueues and KV are staged in that order |
| `Effects.EnqueueOutcome` | taquba/src/effects.rs:429-456 | a hit leaves the store as it was, and a new job is stored as prepared or pending when its count is zero |
| `Effects.EnqueueFailsIff` | taquba/src/effects.rs:429-456 | without a dedup hit an enqueue fails if and only if its supplied id has a job or another job waits on its count |
| `Effects.JobWrittenKeepsInv` | taquba/src/effects.rs:415-456 | an enqueue keeps the waiters and the dedup index exact |
| `Effects.IndexAfterBatch` | taquba/src/effects.rs:429-456 | after a batch the index has for each key the id indexed before, or the first of the batch |
| `Effects.ResultsOfABatch` | taquba/src/effects.rs:396-402 | each result is new for a job without a key or the first of an unindexed key, and otherwise the id of the key's owner |
| `Effects.OneNewJobPerDedupKey` | taquba/src/effects.rs:367-368 | of two enqueues with one key the later returns the id of the earlier and is not new |
| `Effects.BatchStoresNewJobs` | taquba/src/effects.rs:396-456 | every new job of a batch is stored as prepared, or pending when its count is zero, and no later enqueue replaces it |
| `StoreRuns.StepKeepsInv` | taquba/src/queue_core/settle.rs:31-48 | a move, a terminal settlement, an enqueue with effects and effects alone keep the store's invariant and change each count by their delta |
| `StoreRuns.RunKeepsInv` | taquba/src/count.rs:1-7 | over every run the number of a count is the sum of the committed changes |
| `StoreRuns.ReachableCounts` | taquba/src/count.rs:22-92 | in every reachable store a record exists if and only if the changes do not sum to zero, each waiting job is the recorded waiter of such a record, and a count has at most one waiter |
| `StoreRuns.NoWaiterAtZero` | taquba/src/count.rs:40-60 | no job waits on a count whose changes sum to zero |
| `StoreRuns.ReachableDedup` | taquba/src/effects.rs:429-456 | in every reachable store a key is indexed to a job if and only if the job is pending or scheduled with the key |
| `StoreRuns.Queue.Settle` | taquba/src/effects.rs:362-413 | effects alone commit if and only if the claim of the fence is live, every compare matches and staging succeeds, then whole, and otherwise nothing |
| `StoreRuns.Queue.SettleClaim` | taquba/src/queue_core/settle.rs:15-48 | the transition of a live claim and, when it is terminal, all of its effects in one commit; an ended claim, a failed compare or a failed stage commits nothing |
| `StoreRuns.Queue.CommitEffects` | taquba/src/queue_core/enqueue.rs:13-30 | an error changes nothing, and a commit has every write, every delete, every count sum, one result per enqueue, and each new job stored as its request asks against the changed counts |
| `Payloads.PayloadStore.Offload` | taquba/src/payload_store.rs:91-113 | writes one object exactly for a payload over the threshold |
| `Payloads.PayloadStore.OffloadAll` | taquba/src/payload_store.rs:115-132 | succeeds unless the write of a payload over the threshold fails, with an object exactly for each such payload; after a failure the objects are as they were |
| `Payloads.PayloadStore.Discard` | taquba/src/effects.rs:293-299 | deletes exactly the objects of the jobs |
| `Payloads.PayloadStore.Finish` | taquba/src/effects.rs:301-323 | without a commit deletes the object of every job, and after one exactly those of the enqueues that are not new |
| `Payloads.KeptAfterFinish` | taquba/src/effects.rs:301-323 | the objects that remain of a settlement are those of its new jobs |
| `Payloads.SettleWithPayloads` | taquba/src/effects.rs:284-360 | a failed offload or a settlement without a commit leaves the objects as before, and a commit adds exactly those of the new jobs |
| `Payloads.StepKeepsInv` | taquba/src/payload_store.rs:10-13 | writes, commits, failures, flushes, deletes and crashes keep every record of every possible crash state backed by its object |
| `Payloads.RecordsHaveObjects` | taquba/src/payload_store.rs:10-13 | at every instant of every run, also after a crash, each record has its object |
| `Payloads.NoOrphansAtRest` | taquba/src/effects.rs:284-323 | once every settlement has ended the objects are exactly those of the records, absent crashes and failed deletes |
| `Payloads.EndedCanDelete` | taquba/src/payload_store.rs:141-160 | once its commit is durable an ended settlement can delete each object left to it, and no record has it |
| `ExpiryKeys.ParseInvertsEntryKey` | taquba/src/expiry.rs:78-97 | the key of every time and suffix parses back to them |
| `ExpiryKeys.EntryKeyInvertsParse` | taquba/src/expiry.rs:91-97 | a key parses to an entry if and only if it is the key of that entry |
| `ExpiryKeys.EntryKeyOrder` | taquba/src/expiry.rs:83-89 | keys sort by time and then by suffix, for all times and suffixes |
| `ExpiryKeys.ScanStart` | taquba/src/expiry.rs:127-133 | a scan from the key of a time reads exactly the entries at that time or later |
| `Expiry.TimeBound.constructor` | taquba/src/time_bound.rs:20-25 | the bound starts at zero |
| `Expiry.TimeBound.Lower` | taquba/src/time_bound.rs:27-32 | the minimum of the bound and the time |
| `Expiry.TimeBound.Begin` | taquba/src/time_bound.rs:34-51 | takes the bound when it can be due, and leaves it otherwise |
| `Expiry.DueIff` | taquba/src/time_bound.rs:54-56 | an entry is due if and only if its retention has passed or the clock is at its largest reading, and later entries only with earlier ones |
| `Expiry.ExpiryIndex.constructor` | taquba/src/expiry.rs:69-76 | a new index bounds every entry that the store has |
| `Expiry.ExpiryIndex.Write` | taquba/src/expiry.rs:99-102 | adds one entry and keeps every entry at or after the bound |
| `Expiry.ExpiryIndex.Pass` | taquba/src/expiry.rs:104-174 | a pass that completes calls the callback on exactly the due entries in time order, removes and counts exactly those not kept, deletes the malformed keys before the first entry that is not due, and leaves the bound at the earliest entry; a failed or dropped pass removes only such entries and leaves the bound where it began |
| `Expiry.ExpiryIndex.Scan` | taquba/src/expiry.rs:125-173 | the loop over the keys from the bound, with malformed keys deleted without a call |
| `Expiry.ExpiryIndex.One` | taquba/src/expiry.rs:134-171 | one key: passed, removed, the stop at the first entry that is not due, or a failure |
| `ExpiryProtocol.StepKeepsInv` | taquba/src/time_bound.rs:10-14 | every commit, note, withdrawal, page read, removal, end and restart keeps each recorded entry at or after the bound or covered by a scan in flight |
| `ExpiryProtocol.NoEntryBelowTheBound` | taquba/src/time_bound.rs:7-14 | with no scan in flight no committed and recorded entry is below the bound, and a pass that returns early has none to remove |
| `ExpiryProtocol.EntryBelowTheBoundIsCovered` | taquba/src/time_bound.rs:58-106 | with scans in flight an entry below the bound is still to be read by one, or after a time it retained |
| `ExpiryProtocol.CompletedPassIsExact` | taquba/src/expiry.rs:104-174 | a completed pass removed, oldest first, exactly the due entries not kept of those it found, whatever passes failed before and whatever committed meanwhile |
| `ExpiryProtocol.LonePassOwesAll` | taquba/src/expiry.rs:104-133 | a pass that begins alone owes every committed and recorded entry |
| `Keys.RangeIsPrefix` | taquba-workflow/src/keys.rs:166-173 | for all byte strings, a key is in `[p/, p0)` if and only if it starts with `p/` |
| `Keys.RangeOfOneId` | taquba-workflow/src/keys.rs:183-189 | the range of an id has the keys of that id and of no other, for the owner queues and the run KV entries |
| `Keys.HeaderRoundTrip` | taquba-workflow/src/owner.rs:93-111 | a header value parses back to its owner |
| `Keys.OwnedKeyInRange` | taquba-workflow/src/keys.rs:158-173 | an index entry is in the range of an owner and queue if and only if it is theirs |
| `Keys.OwnedKeyEnds` | taquba-workflow/src/owner.rs:303-307 | the last segment of an index entry is its run id |
| `Keys.ScanYieldsTheOwnedRuns` | taquba-workflow/src/owner.rs:290-308 | the scan yields a run id if and only if it is indexed for that owner submission and queue |
| `Keys.RunIdsOf` | taquba-workflow/src/owner.rs:303-308 | the ids of the keys of a scan whose last segment is a valid run id |
| `Keys.CancelOwned` | taquba-workflow/src/owner.rs:280-333 | every run is cancelled, an error is returned if and only if a cancel fails, and it is the first to complete with one |
| `Groups.RerunOfMember` | taquba-workflow/src/group.rs:43-62 | the rerun number of a derived run id is its number, for every 32-bit number |
| `Groups.MemberRunIdValid` | taquba-workflow/src/group.rs:43-54 | every derived run id is valid |
| `Groups.MemberRunIdInjective` | taquba-workflow/src/group.rs:43-54 | no two groups, members or runs share a run id |
| `Groups.SubmissionNumber` | taquba-workflow/src/group.rs:64-81 | the run id of a submission is that of run 0, of the active run, of the run after a failed one, or none after a success |
| `GroupRuns.SubmissionByRecord` | taquba-workflow/src/group.rs:64-81 | a submission without another step in between starts run 0 of a new member, the next run of a failed one, and none of an active or succeeded one |
| `GroupRuns.NumberedWithoutReuse` | taquba-workflow/src/group.rs:569-606 | in every interleaving of fresh submissions the runs are numbered 0, 1, 2 and so on, each after the failure of the one before |
| `GroupRuns.StopsAfterSuccess` | taquba-workflow/src/group.rs:64-81 | with fresh submissions no run starts after a success, also from one computed before it |
| `GroupRuns.StartsAfterSuccessIff` | taquba-workflow/src/runtime/enqueue.rs:132-248 | after a success a submission starts a run if and only if it is not fresh |
| `GroupRuns.RunCanStartAfterSuccess` | taquba-workflow/src/runtime/enqueue.rs:132-248 | a run in which it does |
| `GroupRuns.ReuseIffTheRunLeftTheQueue` | taquba-workflow/src/runtime/enqueue.rs:132-248 | a number starts again if and only if its run is present and its first step has left the queue |
| `GroupRuns.UninterruptedIsFresh` | taquba-workflow/src/runtime/enqueue.rs:152-165 | a submission without another commit since its read is fresh |
| `GroupRuns.RunZeroCanStartTwice` | taquba-workflow/src/runtime/enqueue.rs:132-248 | a run of two submissions starts run 0 twice |
| `GroupRuns.CommitPage` | taquba-workflow/src/group.rs:346-378 | deletes the stored records of a page if and only if every member is as it was read |
| `GroupRuns.Remove` | taquba-workflow/src/group.rs:333-387 | complete if and only if every member is unchanged when its page commits, and then every member's record is compared and gone; a page deletes the stored records of its members and nothing else, and the first changed member ends the removal |
| `GroupRuns.Forget` | taquba-workflow/src/group.rs:275-285 | forgets if and only if every member has terminated and is unchanged when its page commits; every record that a page deletes has terminated and is one that the removal read |
| `GroupRuns.SubmittedSinceIsKept` | taquba-workflow/src/group.rs:333-387 | over every run, with fresh submissions or not, once a run of a member has started after the removal read its terminated or absent record, the page of the member does not commit, also when that run has ended again |
| `GroupRuns.RecordSince` | taquba-workflow/src/group.rs:815-835 | over every run the record is as it was and no run started, or a submission or a later end wrote it |
| `GroupRuns.FreshSubmissionChangesTheRecord` | taquba-workflow/src/group.rs:333-387 | with fresh submissions a started run changes the record also of a member that was active at the read |
| `GroupRuns.RemovalCoversEveryRun` | taquba-workflow/src/group.rs:400-415 | with fresh submissions the numbers removed are exactly those of the member's runs |
| `GroupRuns.CoversAfterSubmissionIff` | taquba-workflow/src/group.rs:400-415 | after a submission the numbers removed cover every run if and only if the submission is fresh or of the last run |
| `GroupRuns.RemovalCanMissARun` | taquba-workflow/src/group.rs:400-415 | a run after which they do not |
| `CurrentStep.CurrentJob` | taquba-workflow/src/view.rs:299-323 | ends under any writer steps, fails only when a committed state has a pointer without its job, and returns a committed pointer with a later record of its job |
| `CurrentStep.PairIsOneStateIff` | taquba-workflow/src/view.rs:299-323 | with consistent states the pair is of one committed state if and only if the job's record did not change after the last state between the reads that points at the job |
| `CurrentStep.PairCanSpanTwoStates` | taquba-workflow/src/view.rs:309-323 | the pair can be of two consistent states, when the job's record outlives the pointer |
| `Completion.CompletionWaiters.Register` | taquba/src/completion.rs:37-59 | adds one registration under a new key |
| `Completion.CompletionWaiters.HasWaiters` | taquba/src/completion.rs:61-68 | true if and only if some key is registered on the job |
| `Completion.CompletionWaiters.Settle` | taquba/src/completion.rs:70-83 | sends the outcome to every waiter of the job and to no other, once |
| `Completion.CompletionWaiters.Withdraw` | taquba/src/completion.rs:94-102 | removes one registration and leaves every other |
| `CompletionProtocol.StepKeepsInv` | taquba/src/completion.rs:3-9 | every step keeps each waiter of an active job with its outcome sent, or registered on a job that is active or about to settle |
| `CompletionProtocol.NoLostCompletion` | taquba/src/completion.rs:3-9 | a waiter that read an active job has a committed outcome, or is registered on a job that is active or about to settle |
| `CompletionProtocol.SettledWaitersHaveOutcomes` | taquba/src/queue_core.rs:98-139 | once no settlement is due every waiter of a job that is not active has its outcome |
| `CompletionProtocol.NotFoundIffReadBeforeTheSettlement` | taquba/src/queue.rs:996-1019 | a wait that began on an active job reports no job if and only if it reads between the removal and its settlement |
| `CompletionProtocol.ActiveJobCanBeNotFound` | taquba/src/queue.rs:1012-1018 | a run in which it does |

## Left out

- The storage engine: transactions are serial commits, a conflict is a retry that is not seen, and the write-ahead log is a sequence of commits. An error is one after which nothing is committed.
- MessagePack encoding, SHA-256 and the text form of a ULID: records are datatypes, the digest is an injective function to 64 hex digits, and a submission id is its 26 characters. A header whose ULID is spelled in lower case is not modelled.
- The grammar of cron expressions and the calendar search: an expression is its increasing sequence of whole-second occurrences.
- The range of the clock type at its upper end, the 64-bit range of counts and epochs, and the reserved range of rerun numbers: numbers are unbounded, or bounded where a lemma says so. The lower end of the clock is modelled in the lookback.
- Wakeups, sleeps, tickers and streams: only the order of steps that they allow.
- Validation of queue names and supplied job ids in an enqueue, the counters of statistics, attempt history and priorities.
- The memo sweep, which deletes run records without a compare, and the deletion of memo entries and of the manifest in a group removal.
- Effects.Prepare: the validation of queue names and of supplied job ids is not modelled.
- Expiry.ExpiryIndex.Pass: the effects that a callback returns are not modelled, only whether its entry stays.
- GroupRuns.Remove: the KV entries of the removed runs are modelled by the run numbers of `RemovalCoversEveryRun`.
- CurrentStep.CurrentJob: the writers are a finite history of committed states.
- Webhook delivery, metrics, the reader processes and the command-line tools.
