# Verification of the cart-abandonment event pipeline

This Dafny project models the stateful core of the pipeline that turns browser events into
interventions, and proves what that core keeps over every run. Redis is a shared map with a clock and
per-key deadlines, and one Lua script is one atomic step. Kafka is a log with a fetch position and a
committed offset. Objects that the source updates in place are classes whose methods are proved
against specification functions; the properties are lemmas about those functions and about runs.

| file | what it models |
|---|---|
| `Options.dfy`, `Clock.dfy` | optional values; seconds and days |
| `Redis.dfy`, `SortedSets.dfy` | string keys with deadlines; sorted sets against the history that filled them |
| `LockService.dfy`, `BudgetService.dfy` | the per-user lease, the sent marker, the daily budget counter |
| `Orchestrator.dfy` | automatic and manual interventions as step machines over those keys, at any interleaving |
| `RateLimiter.dfy`, `SessionWindow.dfy` | the two sliding-window scripts: trimming and expiry against the full history |
| `DecisionConsumer.dfy` | priority processing, in-order resolving, commits over crashes and redeliveries |
| `Batcher.dfy`, `AnalyticsConsumer.dfy` | two row buffers kept across batches: flush, rollback, discard |
| `BloomWindow.dfy`, `Pipeline.dfy` | the two-day duplicate filter; one envelope, and runs of envelopes that overlap |
| `CacheService.dfy` | the multi-level cache against one map; the batch read's index bookkeeping |
| `ExportCsv.dfy`, `Experiment.dfy`, `RiskScorer.dfy` | the CSV encoder, FNV-1a bucketing, the weighted risk aggregate |

`dafny verify dfyconfig.toml` checks all of it.

## Main results

- Leases exclude each other over every interleaving (`Orchestrator.LeasesExcludeEachOther`), Phase 2 is under its
  lease exactly when its heartbeats were in time (`Orchestrator.Phase2IsLeasedExactlyWhen`), and deliveries stay
  within the budget (`Orchestrator.DeliveredStaysWithinBudget`).
- The limiter's window keeps its limit wherever it is placed (`RateLimiter.WindowsAdmitAtMostLimit`), for exactly
  the clock drift and the member names that `RateLimiter.DriftIsSafeExactlyUpToASecond` and
  `RateLimiter.AnyMembersAreSafeExactlyUpToOne` name.
- The session counts equal the full history exactly under long enough TTLs
  (`SessionWindow.CountsAreExactExactlyWhen`, `SessionWindow.CartDeltaIsExactExactlyWhen`).
- The sent marker stops an execution exactly when, at its read, a mark is in force
  (`Orchestrator.GuardStopsExactlyWhen`).
- Every decision message below a committed offset was processed exactly if the Kafka client leaves resolving to the
  handler (`DecisionConsumer.CommitsAreProcessedExactlyWhen`), which the source leaves at the client's default; the
  processing order is closed under priority (`DecisionConsumer.ProcessedIsClosedUnderPriority`).
- Over any calls of the analytics consumer every row taken is drained, buffered, rolled back or discarded, each once
  (`AnalyticsConsumer.RowsAreConserved`); which rows a flush loses and which rolled-back or discarded rows the
  handler commits is exact (`AnalyticsConsumer.FlushLosesRowsExactlyWhen`,
  `AnalyticsConsumer.RolledBackRowIsCommittedExactlyWhen`, `AnalyticsConsumer.DiscardedRowIsCommittedExactlyWhen`).
- However envelopes overlap, an event is dropped as a duplicate exactly when its id was recorded on this UTC day or
  the one before (`Pipeline.DroppedAsDuplicateExactlyWhen`); what an envelope produces is the ids it accepts, in
  order (`Pipeline.ProducedIsAccepted`).
- The cache agrees with one map under evictions (`CacheService.GetIsAMissOrTheCurrentValue`), and the batch read with
  its simple definition (`CacheService.Service.MGet`).
- CSV round trip (`ExportCsv.RoundTripExactlyWhenThereIsAColumn`), hash collisions
  (`Experiment.OneDifferenceNeverCollides`), bucket shares (`Experiment.SharesAreWeightsExactlyWhen`), and a trigger's
  bounded pull on the risk (`RiskScorer.TriggerMovesTheAggregateByItsShare`).

## Assumptions

- The clock that one key lives on does not run backwards along the steps that touch it. A key is gone
  at its deadline instant, the earliest moment at which Redis may drop it.
- The limiter has two clocks, the replicas' and Redis's; that the second gains at most one second on the
  first is a hypothesis (`BoundedDrift`), shown to be the exact slack for every limit and width.
- Lock tokens are distinct (they are random UUIDs). Limiter members are distinct only where a lemma says so.
- Redis calls of the lock, budget, limiter and session services succeed. Their fail-open branches answer
  as if the guard were absent, and void these guarantees by design.
- Money, risk and weights are `int` or `real`. The logarithm and the exponential are any functions with
  the signs the weight needs.
- What the outside world answers (send results, dead-letter sends, quotas, failures, throwing metrics, heartbeats
  and commits, breaks, clocks) comes in as data and is arbitrary.

## Where the code and its comments differ

The model follows the code; each point is stated by a lemma.

- The lock is documented as released on every path. An automatic execution that throws releases user -1, and
  a manual one refused by the budget returns without release and with its heartbeat running
  (`EndingKeepsTheLockExactlyWhen`, `RefusedManualLeavesALeak`, `LeakedHeartbeatLocksTheUserOut`).
- A holder that lost its lease "must abort Phase 2"; the failed renewal is only logged, so Phase 2 is under its lease
  exactly when the heartbeats were in time (`LostLeaseStillDispatches`, `Phase2IsLeasedExactlyWhen`).
- The sent marker is meant to prevent a second intervention within ten minutes. It stops an execution if and only if
  at its read a mark for the user, written less than ten minutes before, has not been cleared by a purchase
  (`GuardStopsExactlyWhen`). It is read before the lock is taken, so two executions can both pass it
  (`GuardBeforeLockAllowsTwoDispatches`), and an execution that crashes before its mark leaves none
  (`CrashBeforeTheMarkAllowsASecondDispatch`). Of two close dispatches, the later one read the marker before the
  earlier one dispatched, or while it stood before its mark, or after it had failed or crashed there
  (`CloseDispatchesOverlap`).
- The budget counter "covers midnight rollover safely": exactly for scripts that answer within a day of reading the
  date (`LateIsSafeExactlyUpToADay`).
- "Nothing is silently dropped" by a flush: the insert call counts failures in its result and still returns, and a
  failed dead-letter send is only logged (`FlushLosesRowsExactlyWhen`). Rows are resolved before they are stored, a
  rollback leaves them resolved, and a flush of the other buffer in the same call commits them
  (`RolledBackRowIsCommittedExactlyWhen`).
- Rows discarded when a partition is revoked are meant to be processed again by its next owner. They stay resolved,
  and those that a flush of the other buffer has committed are not delivered again
  (`DiscardedRowIsCommittedExactlyWhen`, `DiscardedEarlierRowIsCommittedExactlyWhen`).
- "We never commit past an unprocessed message": only if the client leaves resolving to the handler, an option that
  this call does not set (`CommitsAreProcessedExactlyWhen`).
- The five-minute count is kept in sets whose default lifetime is five minutes, which drops a hit exactly that
  old (`DefaultsMissTheFiveMinuteCount`). A cart delta of exactly -1 is reported as 0
  (`ReportedDeltaIsRightExactlyWhen`).
- Limiter members are numbered per process, so replicas can draw the same one (`CollidingMembersAreAllAdmitted`).
- A missing or unknown priority is said to rank with `normal`; it ranks after it (`UnknownPriorityComesAfterNormal`).
  Deciding is said to be tried three times; it is tried four times (`DecisionConsumer.Handler.WithRetry`).
- Copies of an envelope that overlap are both produced (`OverlappingCopiesBothProduce`), as is a new id repeated inside
  one envelope (`TwinsAreBothProduced`): an envelope produces an id more than once exactly when two accepted entries
  share it (`ProducedTwiceExactlyWhen`). The response body then may not report every outcome
  (`SecondOutcomeHidesTheFirst`, `BodyReportsEveryEntry`).
- A write or an invalidation that some cache level fails leaves that level with the older value, which can be read
  back (`FailedWriteDisagreesExactlyWhen`, `ReadAfterFailedSetIsFreshExactlyWhen`,
  `FailedInvalidateDisagreesExactlyWhen`, `ReadAfterFailedInvalidateMissesExactlyWhen`). A batch read with an invalid
  key returns fewer results than keys (`ResultsLineUpExactlyWhenKeysAreValid`).
- A CSV without columns does not decode to its empty rows (`RoundTripExactlyWhenThereIsAColumn`).

## Model

| member | source | states |
|---|---|---|
| LockService.Service.AcquireUserLock | apps/decision-engine/src/services/lock.service.ts:67-80 | a token is granted exactly when nobody holds the key; afterwards somebody does, for 30 s if it is the caller |
| LockService.Service.RenewUserLock | apps/decision-engine/src/services/lock.service.ts:86-97 | answers yes exactly to the current holder, and then restarts the 30 s; no other key changes |
| LockService.Service.ReleaseUserLock | apps/decision-engine/src/services/lock.service.ts:103-110 | afterwards the token does not hold the key; another holder and every other user's lock are untouched |
| LockService.Service.CheckSent | apps/decision-engine/src/services/lock.service.ts:116-124 | answers whether the marker is unexpired |
| LockService.Service.RecordSent | apps/decision-engine/src/services/lock.service.ts:131-137 | from then on the marker reads as set exactly until 600 s later |
| LockService.Service.ClearSent | apps/decision-engine/src/services/lock.service.ts:143-149 | the marker reads as unset at every time |
| LockService.RenewalsKeepTheLease | apps/decision-engine/src/services/lock.service.ts:19-26 | over any calls by anyone, renewals less than 30 s apart keep the lease alive, and every other acquire in between is refused |
| LockService.LostForever | apps/decision-engine/src/services/lock.service.ts:37-51 | a token that has lost the key never holds it again; all its later renewals answer no, and its renewals and releases change nothing |
| BudgetService.Service.RunReserveScript | apps/decision-engine/src/services/budget.service.ts:8-24 | reserves exactly when the live counter, or zero, leaves room for the amount; the deadline is set only at creation |
| BudgetService.Service.CheckAndReserve | apps/decision-engine/src/services/budget.service.ts:63-100 | amounts that are not positive pass without touching a counter; others are charged to the UTC date read before the script runs |
| BudgetService.Service.CheckAvailable | apps/decision-engine/src/services/budget.service.ts:40-56 | answers what a reservation at this moment would answer, and reserves nothing |
| BudgetService.AnswerWithinADayIsOnTime | apps/decision-engine/src/services/budget.service.ts:70-73 | the 48 h lifetime covers every script that answers within a day of its call, whatever the time of day |
| BudgetService.ApprovedExactlyWhenItFits | apps/decision-engine/src/services/budget.service.ts:8-24 | counter expiry is unobservable: after any on-time run a request is approved exactly when the approved total of its store and date leaves room |
| BudgetService.SpentStaysWithinLimit | apps/decision-engine/src/services/budget.service.ts:58-62 | over any run the approved positive amounts of a store and date never exceed the largest limit asked with |
| BudgetService.LateIsSafeExactlyUpToADay | apps/decision-engine/src/services/budget.service.ts:70-73 | a bound on how long after its date was read a script answers keeps every run of any requests within its limits if and only if it is at most a day |
| BudgetService.LateRequestOverspends | apps/decision-engine/src/services/budget.service.ts:72-73 | a script that answers a day and a millisecond after its call meets an expired counter: 120 is approved against a limit of 100 |
| Orchestrator.LeaseIsTheHeldKey | apps/decision-engine/src/services/intervention.service.ts:236-249 | in every reachable state an execution's view of its lease is what Redis holds |
| Orchestrator.LeasesExcludeEachOther | apps/decision-engine/src/services/intervention.service.ts:236-323 | over every interleaving of both paths, heartbeats, crashes and time, two executions for one user never both have an unexpired lease |
| Orchestrator.LostLeaseStaysLost | apps/decision-engine/src/services/intervention.service.ts:242-249 | a lapsed execution never holds the key again, its heartbeats change nothing, and ending it leaves all locks alone |
| Orchestrator.EndingKeepsTheLockExactlyWhen | apps/decision-engine/src/services/intervention.service.ts:333-341 | an execution that ends holding the lock keeps it exactly when it crashed, threw on the automatic path for a user other than -1, or was refused by the budget on the manual path |
| Orchestrator.LeakedHeartbeatLocksTheUserOut | apps/decision-engine/src/services/intervention.service.ts:377-395 | after such a refusal, while the forgotten heartbeat beats once per lease, every other execution for the user is refused the lock |
| Orchestrator.RefusedManualLeavesALeak | apps/decision-engine/src/services/intervention.service.ts:388-395 | a reachable state in which a refused manual intervention has returned, its heartbeat runs and the lock is held |
| Orchestrator.Phase2IsLeasedExactlyWhen | apps/decision-engine/src/services/intervention.service.ts:236-249 | over every interleaving, an execution in Phase 2 is under its lease if and only if, at every step since its grant, less than 30 s had passed since the grant or its latest heartbeat |
| Orchestrator.TimelyHeartbeatsExcludeEachOther | apps/decision-engine/src/services/intervention.service.ts:242-249 | with timely heartbeats two executions for one user are never both in Phase 2 |
| Orchestrator.LostLeaseStillDispatches | apps/decision-engine/src/services/intervention.service.ts:242-249 | a reachable state in which a holder without a lease has dispatched beside the new holder |
| Orchestrator.SentExactlyWhenMarked | apps/decision-engine/src/services/lock.service.ts:116-149 | over every interleaving the marker reads as set if and only if some execution for the user marked less than 600 s before with no purchase of the user since |
| Orchestrator.GuardStopsExactlyWhen | apps/decision-engine/src/services/intervention.service.ts:231-234 | an execution that reads the marker ends as already sent if and only if such a mark is in force at its read, and passes the guard otherwise |
| Orchestrator.MarkBlocksLaterReads | apps/decision-engine/src/services/intervention.service.ts:231-234 | after a mark no purchase clears, an execution that reads the marker within 600 s ends without dispatch and never dispatches |
| Orchestrator.GuardWasRead | apps/decision-engine/src/services/intervention.service.ts:365-375 | an execution without override past the guard did read the marker, and found it unset |
| Orchestrator.LaterReadBeforeTheMark | apps/decision-engine/src/services/intervention.service.ts:232-318 | of two dispatches to one user less than 600 s apart, the later one read the marker before any mark of the earlier one |
| Orchestrator.CloseDispatchesOverlap | apps/decision-engine/src/services/intervention.service.ts:232-318 | at that read the earlier one had not dispatched yet, or stood between its dispatch and its mark, or had failed or crashed there, in which case it never marks |
| Orchestrator.CrashBeforeTheMarkAllowsASecondDispatch | apps/decision-engine/src/services/intervention.service.ts:315-319 | a reachable state in which an execution crashed between dispatch and mark, and one begun 30 s later has dispatched to the same user |
| Orchestrator.GuardBeforeLockAllowsTwoDispatches | apps/decision-engine/src/services/intervention.service.ts:231-240 | a reachable state in which two executions have dispatched to one user at one instant, each under its lock |
| Orchestrator.BudgetHolds | apps/decision-engine/src/services/intervention.service.ts:251-258 | over every interleaving each budget counter stands for what executions were approved for, within the largest limit they read |
| Orchestrator.DeliveredStaysWithinBudget | apps/decision-engine/src/services/intervention.service.ts:251-315 | automatic and manual deliveries against a store and date together stay within approved reservations and the limit; nothing is dispatched unapproved |
| SortedSets.TrackedRange | apps/enrichment-session/src/idempotency.rs:31-34 | a range query reaching back less than the lifetime of its key sees exactly the untrimmed history, live or expired |
| SortedSets.DistinctHitsAreTheirMembers | apps/ingestion/src/rate_limiter.rs:130-133 | with no repeated member, counting members of a window is counting its hits |
| RateLimiter.DistributedStoreLimiter.SlidingWindow | apps/ingestion/src/rate_limiter.rs:124-139 | refuses exactly when the trimmed live set has reached the limit; a refusal trims and leaves the deadline alone |
| RateLimiter.DistributedStoreLimiter.CheckRedis | apps/ingestion/src/rate_limiter.rs:178-198 | every call, refused or not, takes a fresh sequence number and runs the script under a member made of it |
| RateLimiter.DistributedStoreLimiter.IsLimited | apps/ingestion/src/rate_limiter.rs:148-176 | disabled: nothing is touched; dry run: never limits, and still records |
| RateLimiter.RefusedExactlyWhenWindowIsFull | apps/ingestion/src/rate_limiter.rs:124-139 | trimming and expiry are unobservable: refused exactly when the untrimmed history holds the limit of members in the last window |
| RateLimiter.RefusedExactlyWhenCountReachesLimit | apps/ingestion/src/rate_limiter.rs:124-139 | with distinct members, refused exactly when that many admissions lie in (now - win, now] |
| RateLimiter.WindowsAdmitAtMostLimit | apps/ingestion/src/rate_limiter.rs:95-103 | with distinct members no half-open window of that width, wherever placed, holds more than the limit of admissions |
| RateLimiter.WindowsAdmitAtMostLimitMembers | apps/ingestion/src/rate_limiter.rs:95-103 | with any members, no such window admits more than the limit of different ones |
| RateLimiter.DriftIsSafeExactlyUpToASecond | apps/ingestion/src/rate_limiter.rs:134-134 | for every positive limit and width, a bound on the drift keeps every window of every run within the limit if and only if it is at most 1000 ms |
| RateLimiter.DriftBeyondTheSlackAdmitsTooMany | apps/ingestion/src/rate_limiter.rs:134-134 | for every positive limit and width, a run of distinct members with 1001 ms of drift that admits one more than the limit in one window |
| RateLimiter.MembersNameTheirNumbers | apps/ingestion/src/rate_limiter.rs:185-186 | two equal members have equal stamps and equal sequence numbers |
| RateLimiter.OneProcessHasDistinctMembers | apps/ingestion/src/rate_limiter.rs:114-115 | the members of one process are distinct whatever its clock does, for any store's share of the process-wide numbers |
| RateLimiter.CollidingMembersAreAllAdmitted | apps/ingestion/src/rate_limiter.rs:185-186 | with any limit of two or more, any number of requests under one member in one millisecond are all admitted |
| RateLimiter.AnyMembersAreSafeExactlyUpToOne | apps/ingestion/src/rate_limiter.rs:130-133 | windows keep the limit on every run whatever the members if and only if the limit is at most one |
| SessionWindow.WindowService.TouchWindow | apps/enrichment-session/src/idempotency.rs:31-49 | adds, refreshes and trims one set when its event type feeds it, and leaves every other set alone |
| SessionWindow.WindowService.TouchCart | apps/enrichment-session/src/idempotency.rs:115-135 | the delta is the sum over the members in range of the updated cart set |
| SessionWindow.WindowService.SumCart | apps/enrichment-session/src/idempotency.rs:130-135 | the summing loop adds every member once, in whatever order they come |
| SessionWindow.WindowService.TouchHash | apps/enrichment-session/src/idempotency.rs:107-152 | time on site and recency are measured from the hash as it was; the highest step only rises, the current one follows |
| SessionWindow.WindowService.Update | apps/enrichment-session/src/idempotency.rs:25-183 | answers duplicate exactly while the idempotency key lives, changing nothing; otherwise every reported number is that of the updated keys |
| SessionWindow.LongTtlsCountTheHistory | apps/enrichment-session/src/idempotency.rs:56-59 | with both TTLs longer than the reach, each rolling count equals the count over the full history of accepted events |
| SessionWindow.ShortTtlMiscounts | apps/enrichment-session/src/idempotency.rs:29-34 | for every configuration with a TTL no longer than the reach, a run of two events on which the count is wrong |
| SessionWindow.CountsAreExactExactlyWhen | apps/enrichment-session/src/idempotency.rs:25-59 | a count is right on every run if and only if both TTLs are strictly longer than its reach |
| SessionWindow.DefaultsMissTheFiveMinuteCount | apps/enrichment-session/src/config.rs:55-61 | with the default 300 s every count is exact but the five-minute one, which is wrong on some run |
| SessionWindow.CartDeltaIsHistory | apps/enrichment-session/src/idempotency.rs:115-135 | on an add or remove, with an idempotency TTL of at least 120 s, the delta is the signed sum over (now - 120000, now] of the full history |
| SessionWindow.CartDeltaIsExactExactlyWhen | apps/enrichment-session/src/idempotency.rs:115-135 | on adds and removes the delta equals that sum on every run if and only if the idempotency TTL is at least 120 s |
| SessionWindow.CartDeltaBetweenCartEvents | apps/enrichment-session/src/idempotency.rs:129-135 | on any other event the member exactly 120 s old still counts, unless it was the last and its key expired, or a cart event of the same millisecond trimmed it |
| SessionWindow.ReportedDeltaIsRightExactlyWhen | apps/enrichment-session/src/idempotency.rs:319-320 | the reported delta is the true one if and only if that is not exactly -1 |
| SessionWindow.HashSummarisesTheEpisode | apps/enrichment-session/src/idempotency.rs:107-158 | over every run the hash holds the first and last time, the highest and the latest checkout step since the session was last idle for its TTL |
| DecisionConsumer.SortIsStable | apps/decision-engine/src/kafka/decision.consumer.ts:160-166 | processing order is a permutation sorted by rank that keeps the order within each rank |
| DecisionConsumer.StableOrderIsUnique | apps/decision-engine/src/kafka/decision.consumer.ts:164-166 | there is one such order, so any stable sort by rank gives it |
| DecisionConsumer.ProcessedIsClosedUnderPriority | apps/decision-engine/src/kafka/decision.consumer.ts:175-176 | wherever the loop breaks, a processed message implies all of better rank and all earlier ones of its rank |
| DecisionConsumer.Handler.WithRetry | apps/decision-engine/src/kafka/decision.consumer.ts:36-55 | succeeds exactly when the operation fails at most three times, after one attempt more than its failures, and gives up after four |
| DecisionConsumer.Handler.Handle | apps/decision-engine/src/kafka/decision.consumer.ts:178-245 | each message has exactly one effect, by the first guard that applies to it |
| DecisionConsumer.UnknownPriorityComesAfterNormal | apps/decision-engine/src/kafka/decision.consumer.ts:22-28 | wherever it stands in the batch, a message without a known priority is processed only after every normal one |
| DecisionConsumer.Handler.ProcessInOrder | apps/decision-engine/src/kafka/decision.consumer.ts:168-246 | the effects and the done set are those of the messages before the break, in processing order |
| DecisionConsumer.Handler.ResolvePrefix | apps/decision-engine/src/kafka/decision.consumer.ts:248-256 | resolves exactly the longest partition-order prefix of messages that are done |
| DecisionConsumer.Handler.EachBatch | apps/decision-engine/src/kafka/decision.consumer.ts:164-256 | effects follow processing order up to the break; the resolved offsets are the longest partition-order prefix that was processed |
| DecisionConsumer.CommittedWasProcessed | apps/decision-engine/src/kafka/decision.consumer.ts:248-258 | if the client leaves resolving to the handler, an option this call leaves at its default: over any batches, breaks, crashes, restarts and redeliveries, every message below the committed offset was processed |
| DecisionConsumer.CommitsAreProcessedExactlyWhen | apps/decision-engine/src/kafka/decision.consumer.ts:129-138 | every message below the commit is processed on every run if and only if the client leaves resolving to the handler, an option this call leaves at its default |
| DecisionConsumer.EarlyBreakSkipsExactlyWhenAutoResolved | apps/decision-engine/src/kafka/decision.consumer.ts:175-176 | an early break leaves an unprocessed message behind the fetch position exactly when the client also resolves batches by itself |
| DecisionConsumer.UnbrokenBatchIsResolved | apps/decision-engine/src/kafka/decision.consumer.ts:253-258 | a batch that is not broken off and commits is committed to its end |
| Batcher.Batcher.Add | apps/analytics-consumer/src/batcher.ts:29-32 | rows and offsets stay paired; the timer is untouched |
| Batcher.Batcher.Drain | apps/analytics-consumer/src/batcher.ts:64-69 | hands over all pairs in order, empties the buffer and restarts the timer |
| Batcher.Batcher.Rollback | apps/analytics-consumer/src/batcher.ts:75-78 | removes exactly the last rows and their offsets, all of them if there are fewer, none for zero |
| Batcher.SpliceTail | apps/analytics-consumer/src/batcher.ts:75-78 | the splice from a negative start, also from -0 and past the beginning, drops just that tail |
| AnalyticsConsumer.Consumer.InsertWithRetry | packages/utils/src/lib/executeWithRetry.ts:120-158 | stops at the first attempt that returns, throws when none of `maxRetries` does, and may store the rows several times |
| AnalyticsConsumer.Consumer.SendToDlq | apps/analytics-consumer/src/consumer.ts:172-179 | one send per row in order, passing over those that fail, until a metric throws out of the branch |
| AnalyticsConsumer.Consumer.Flush | apps/analytics-consumer/src/consumer.ts:121-185 | the rows are stored as often as attempts stored them and dead-lettered as far as sends arrive when anything threw; it commits unless the commit itself, or a throw in the dead-letter branch, prevents it |
| AnalyticsConsumer.Consumer.TakeMessage | apps/analytics-consumer/src/consumer.ts:299-385 | one message changes the state exactly as its fate says, flushing the buffer it filled, also when a metric, the flush or the heartbeat throws |
| AnalyticsConsumer.Consumer.HandleBatch | apps/analytics-consumer/src/consumer.ts:264-400 | a whole call, returned or thrown, equals the specified loop followed by the time-based flushes it reaches, on both buffers |
| AnalyticsConsumer.InsertOutcome | packages/utils/src/lib/executeWithRetry.ts:120-158 | the retries store nothing if and only if no attempt made stored anything, and throw if and only if every attempt made threw |
| AnalyticsConsumer.SilentFailureMeans | packages/clickhouse_client/src/lib/clickhouseClient.ts:670-749 | the insert reports success with nothing stored if and only if its first attempt to return, and every one before it, stored nothing |
| AnalyticsConsumer.FlushLosesRowsExactlyWhen | apps/analytics-consumer/src/consumer.ts:121-185 | a drained row reaches neither table nor dead-letter topic if and only if no attempt stored the batch and either nothing threw, or its own dead letter failed or was never reached |
| AnalyticsConsumer.ThrowStopsTheLoop | apps/analytics-consumer/src/consumer.ts:283-386 | a call that throws has taken every message before some one completely, and threw in the turn of that one |
| AnalyticsConsumer.MessagesLandByFate | apps/analytics-consumer/src/consumer.ts:283-386 | conservation: each message taken lands in exactly one of dead-lettered or lost parse errors, duplicates, dropped or its buffer, in order, and rows pass to flushes unchanged, also when the last turn throws at its flush or heartbeat |
| AnalyticsConsumer.RowsAreConserved | apps/analytics-consumer/src/consumer.ts:264-400 | over any calls, stopped, stale and thrown ones among them, the rows of each flow taken so far are, as a multiset, those drained, buffered, rolled back and discarded |
| AnalyticsConsumer.MessagesAreConserved | apps/analytics-consumer/src/consumer.ts:283-386 | over any such calls the resolved offsets are those of the messages taken, in order, and the duplicates and drops are those of that fate |
| AnalyticsConsumer.BuffersStayBelowBatchSize | apps/analytics-consumer/src/consumer.ts:362-383 | over any calls, thrown ones among them, at every loop head both buffers hold fewer rows than a batch |
| AnalyticsConsumer.CommitsWhatIsResolved | apps/analytics-consumer/src/consumer.ts:376-382 | over any calls a commit covers no more than what has been resolved |
| AnalyticsConsumer.LoopTracksOwnRows | apps/analytics-consumer/src/consumer.ts:279-282 | the two counters always name the tail of their buffer that this call added; before it is what earlier calls left |
| AnalyticsConsumer.RollbackRemovesExactlyOwnRows | apps/analytics-consumer/src/consumer.ts:284-290 | an interrupted call takes back its own rows and none of earlier calls, and undoes no flush, resolve or commit |
| AnalyticsConsumer.RolledBackRowIsCommittedExactlyWhen | apps/analytics-consumer/src/consumer.ts:284-396 | for a rolled-back row of any message of the call and of either buffer: its offset stays resolved, and the same call commits it if and only if a flush in or after its turn commits, or the call ends with the committing flush of a buffer that is due |
| AnalyticsConsumer.DiscardedRowIsCommittedExactlyWhen | apps/analytics-consumer/src/consumer.ts:291-297 | when a revoked partition stops the call, a row of the call that no turn flushed is discarded, stays resolved, and is committed by the call if and only if a flush in or after its turn, of the other buffer, commits |
| AnalyticsConsumer.DiscardedEarlierRowIsCommittedExactlyWhen | apps/analytics-consumer/src/consumer.ts:291-297 | a row that earlier calls left in a buffer the call does not flush is discarded too, and is committed after it if and only if it was before or some flush of the call commits |
| AnalyticsConsumer.BufferedRowsAreResolved | apps/analytics-consumer/src/consumer.ts:362-373 | over any calls every row in a buffer has its offset resolved already |
| BloomWindow.Filter.CheckBloom | apps/ingestion/src/pipeline.rs:317-350 | the interleaved answers yield exactly the ids found under today's or yesterday's key |
| BloomWindow.Filter.RecordBloom | apps/ingestion/src/pipeline.rs:361-399 | adds the ids to today's key and renews its 48 h; an empty list does nothing |
| BloomWindow.DuplicateExactlyWhenWrittenTodayOrYesterday | apps/ingestion/src/pipeline.rs:294-350 | key expiry is unobservable: a duplicate at any moment is an id written on this UTC day or the one before |
| BloomWindow.WrittenIdIsRecognisedForADay | apps/ingestion/src/pipeline.rs:294-310 | a written id is recognised to the end of the next UTC day, so for at least 24 h |
| Pipeline.BucketsAgreeWithTopics | apps/ingestion/src/pipeline.rs:156-181 | quota buckets and topics agree on every event name about commerce and exceptions |
| Pipeline.ClientClockDoesNotMatter | apps/ingestion/src/pipeline.rs:474-595 | the skew correction moves a timestamp by at most 30 minutes, and within that cancels any offset of the client's clock |
| Pipeline.BatchResult.Push | apps/ingestion/src/response.rs:56-61 | appends one entry and raises the flag exactly for a retry |
| Pipeline.Service.ProcessEvent | apps/ingestion/src/pipeline.rs:499-731 | one event leaves one entry and its sends by the first check it fails, or aborts and leaves nothing |
| Pipeline.Service.CheckAndProcess | apps/ingestion/src/pipeline.rs:482-731 | the result and the sends are those of the specified run on the duplicates the check found, the flag is set exactly when some entry is a retry, and the filter is not written |
| Pipeline.Service.RecordProduced | apps/ingestion/src/pipeline.rs:733-746 | the filter gains exactly the accepted ids, if the write succeeds |
| Pipeline.Service.ProcessEnvelope | apps/ingestion/src/pipeline.rs:451-749 | an envelope no other overlaps is a check step followed by its record step; an aborted one records nothing |
| Pipeline.OneEntryPerEvent | apps/ingestion/src/pipeline.rs:499-731 | an envelope that is not aborted gets one entry per event, in input order |
| Pipeline.AbortIsFinal | apps/ingestion/src/pipeline.rs:625-627 | an event that cannot be serialized ends the envelope; no later event is looked at |
| Pipeline.AnyRetryMeans | apps/ingestion/src/response.rs:45-47 | the flag accumulated by pushing stands for the existence of a retry entry |
| Pipeline.OutcomeTellsTheSend | apps/ingestion/src/pipeline.rs:709-730 | at most one send that is not a dead letter; accepted exactly when it succeeded, retry exactly when it failed, drop exactly when there was none |
| Pipeline.RouteOfAnEvent | apps/ingestion/src/pipeline.rs:671-690 | age wins over heat and heat over type; only overflow has an empty key; the checkout topic and the checkout bucket coincide |
| Pipeline.FilterIsItsWrites | apps/ingestion/src/pipeline.rs:733-746 | over any interleaving of checks and records the filter is what its writes make of it, in order |
| Pipeline.WriteIsWhatWasAccepted | apps/ingestion/src/pipeline.rs:733-746 | over any interleaving, a record step writes what its envelope accepted, if the write succeeds, and a check writes nothing |
| Pipeline.DuplicateExactlyWhenRecorded | apps/ingestion/src/pipeline.rs:294-350 | however envelopes overlap, an id is a duplicate if and only if some envelope that accepted it recorded it on this UTC day or the one before |
| Pipeline.DroppedAsDuplicateExactlyWhen | apps/ingestion/src/pipeline.rs:482-529 | a valid event is dropped as a duplicate if and only if the check works and its id was so recorded |
| Pipeline.UnacceptedIsNeverDuplicate | apps/ingestion/src/pipeline.rs:715-746 | however envelopes overlap, an id no envelope accepted is in no filter, so a resubmitted retry is never dropped as a duplicate |
| Pipeline.AcceptedIsDuplicateForADay | apps/ingestion/src/pipeline.rs:523-529 | however envelopes overlap, an accepted and recorded event sent again before the end of the next UTC day is dropped as a duplicate |
| Pipeline.OverlappingCopiesBothProduce | apps/ingestion/src/pipeline.rs:482-495 | an envelope checked again before its first copy is recorded gets the same outcomes, so what the first copy produced is produced twice |
| Pipeline.BodyReportsEveryEntry | apps/ingestion/src/response.rs:64-69 | the response body has the ids of the entries and reports every entry if and only if entries that share an id are the same |
| Pipeline.ProducedIsAccepted | apps/ingestion/src/pipeline.rs:709-730 | the successful sends of an envelope that are no dead letters are, in order, the ids of its accepted entries, also when it aborts |
| Pipeline.ProducedTwiceExactlyWhen | apps/ingestion/src/pipeline.rs:709-730 | an envelope produces an id more than once if and only if two of its accepted entries share it |
| Pipeline.TwinsAreBothProduced | apps/ingestion/src/pipeline.rs:482-495 | two valid events with one new id in one envelope, with nothing in the way of either, are both accepted and the id is produced twice |
| Pipeline.SecondOutcomeHidesTheFirst | apps/ingestion/src/response.rs:64-69 | when the second send of a repeated event fails, the body reports only its retry, though the first was accepted and produced |
| CacheService.LookupIsFirstHolder | packages/cache/src/cache.service.ts:357-383 | a read is a miss exactly when no answering level holds a value, else the value of the first that does |
| CacheService.Service.Get | packages/cache/src/cache.service.ts:341-394 | returns that value and names the first level that holds it; an invalid key misses |
| CacheService.Service.Set | packages/cache/src/cache.service.ts:718-755 | every enabled level that does not fail takes the value; an invalid key or undefined value changes nothing |
| CacheService.Service.MSet | packages/cache/src/cache.service.ts:596-636 | every enabled level that does not fail takes exactly the valid, defined entries |
| CacheService.Service.Invalidate | packages/cache/src/cache.service.ts:760-790 | every enabled level that does not fail loses the key, and nothing else |
| CacheService.LevelsAgreeWithOneMap | packages/cache/src/cache.service.ts:596-636 | over every run with evictions anywhere, what an enabled level holds is what the single map holds |
| CacheService.GetIsAMissOrTheCurrentValue | packages/cache/src/cache.service.ts:341-394 | over every such run a read, whichever levels fail it, is a miss or the last value set since the last invalidation; levels holding a key agree |
| CacheService.FailedWriteDisagreesExactlyWhen | packages/cache/src/cache.service.ts:748-753 | a write that some levels fail keeps agreement if and only if no failing enabled level holds another value for a written key |
| CacheService.ReadAfterFailedSetIsFreshExactlyWhen | packages/cache/src/cache.service.ts:740-755 | the next read returns the new value if and only if a level has it and every enabled level before that one failed and is empty |
| CacheService.FailedInvalidateDisagreesExactlyWhen | packages/cache/src/cache.service.ts:768-783 | an invalidation that some levels fail keeps agreement if and only if no failing enabled level holds the key |
| CacheService.ReadAfterFailedInvalidateMissesExactlyWhen | packages/cache/src/cache.service.ts:768-783 | the read after it is a miss if and only if no enabled level that failed has a value |
| CacheService.Service.Fill | packages/cache/src/cache.service.ts:565-580 | the missing places take what was found, in order, all others keep their value, and the places not found remain |
| CacheService.Service.MGet | packages/cache/src/cache.service.ts:530-591 | equals the simple definition key by key, and asks each level exactly for the keys the levels before it lacked, in order |
| CacheService.ResultsLineUpExactlyWhenKeysAreValid | packages/cache/src/cache.service.ts:535-542 | there is one result per key if and only if all keys are valid; otherwise there are fewer |
| ExportCsv.ExportIsTheTableInLines | apps/frontend/src/utils/exportToCSV.ts:17-48 | the exported text is the byte order mark and the quoted lines of the header and the cells |
| ExportCsv.RoundTripExactlyWhenThereIsAColumn | apps/frontend/src/utils/exportToCSV.ts:13-48 | decoded by RFC 4180, section 2, with LF for CRLF, the text gives back exactly the header and cell strings if and only if there is a column |
| ExportCsv.TextDeterminesTheTable | apps/frontend/src/utils/exportToCSV.ts:20-47 | two exports with the same text hold the same header and cells |
| Experiment.Fnv1a | apps/decision-engine/src/services/experiment.service.ts:22-29 | computes the hash, a 32-bit word, of the code units in order |
| Experiment.StepIsInjective | apps/decision-engine/src/services/experiment.service.ts:24-27 | from the hash after a step and the unit the hash before it is recovered, and the unit from the two hashes |
| Experiment.CommonEndingIsIrrelevant | apps/decision-engine/src/services/experiment.service.ts:22-29 | strings with a common ending share a hash exactly when they do without it |
| Experiment.OneDifferenceNeverCollides | apps/decision-engine/src/services/experiment.service.ts:22-29 | two strings of one length that differ in exactly one place never share a hash |
| Experiment.PublishedValues | apps/decision-engine/src/services/experiment.service.ts:23-26 | the empty string and "a" hash to the values published for 32-bit FNV-1a |
| Experiment.KeysAreDistinct | apps/decision-engine/src/services/experiment.service.ts:50-50 | different customers or experiments are hashed from different strings |
| Experiment.NeighboursHashApart | apps/decision-engine/src/services/experiment.service.ts:50-50 | customers whose numbers differ only in the last digit never share a hash in an experiment |
| Experiment.GetVariant | apps/decision-engine/src/services/experiment.service.ts:45-63 | the name of the first variant whose cumulative weight is above the bucket, else control; control without an experiment or on an error |
| Experiment.ShareIsTheRiseOfThePeak | apps/decision-engine/src/services/experiment.service.ts:52-56 | for any integer weights, a variant gets as many of the 100 buckets as it raises the highest cumulative weight, up to 100 |
| Experiment.ControlGetsTheRest | apps/decision-engine/src/services/experiment.service.ts:58-58 | control gets the buckets above that peak |
| Experiment.SharesAreWeightsExactlyWhen | apps/decision-engine/src/services/experiment.service.ts:52-58 | every variant gets exactly its weight if and only if no weight is negative and they add to at most 100 |
| RiskScorer.AggregateUserRisk | apps/decision-engine/src/services/risk-scorer.service.ts:170-254 | the accumulating loop computes the clamped weighted mean of the sessions that have a hash, and the trigger score when there are none or reading fails |
| RiskScorer.HeuristicRiskRisesWithSignals | apps/decision-engine/src/services/risk-scorer.service.ts:260-270 | no signal lowers a sibling's risk, and a frustrated session is above any that is not |
| RiskScorer.WeightInRange | apps/decision-engine/src/services/risk-scorer.service.ts:234-243 | with a non-negative cart and clicks every weight lies in [1, 20] |
| RiskScorer.OneSignalReachesTheCap | apps/decision-engine/src/services/risk-scorer.service.ts:237-243 | 95 clicks, or a logarithm of 38, alone bring a session to the cap |
| RiskScorer.RecentActivityWeighsMore | apps/decision-engine/src/services/risk-scorer.service.ts:231-241 | with an increasing exponential a session active later never weighs less |
| RiskScorer.AggregateWithinRisks | apps/decision-engine/src/services/risk-scorer.service.ts:249-253 | the aggregate lies between any bounds in [0, 1] of the counted risks, where the clamp changes nothing |
| RiskScorer.NoSessionHoldsMoreThanItsShare | apps/decision-engine/src/services/risk-scorer.service.ts:21-26 | of n counted sessions none holds more than 20 / (n + 19) of the weight |
| RiskScorer.TriggerMovesTheAggregateByItsShare | apps/decision-engine/src/services/risk-scorer.service.ts:239-253 | the aggregate is monotone in the trigger score and rises by at most 20 / (n + 19) of its rise |
| RiskScorer.UncountedTriggerDoesNotMatter | apps/decision-engine/src/services/risk-scorer.service.ts:218-218 | a trigger whose own session is not counted does not move the aggregate at all |

## Left out

- The per-event duplicate mode of ingestion: it records an id before producing, so the retry property is not meant for it.
- False positives and the capacity of the Bloom filter, and the HyperLogLog count of event types: the filter is an exact set.
- Parsing of UUIDs, the list of illegal ids, payload text and headers, and the in-memory and quota limiters of ingestion: attributes or answers given with an event. Field lengths are in characters, where the source counts bytes.
- The other hash fields of the session script: the two moving averages, add, rage and checkout recency, and the intervention history; they are read and written like the fields modelled.
- Phase 1 of the decision engine (rules, inference, recommendation storage), the cooldown key (an execution may give up at its start), the discount, writer and outbound services (an execution may throw there), and intervention ids.
- The scheduler's due list, which removes every due entry though it returns at most 100, and the user-session index of the risk scorer.
- Priority names inherited from `Object.prototype`, which the rank table would resolve to functions.
- Kafka client internals: the client may resolve a batch by itself (an option) and may or may not find a commit due in the decision consumer; in the analytics consumer a commit call that succeeds is taken to cover everything resolved so far. What the client does after a call that throws (it may commit what was resolved, and fetches the rest again) is not part of this model; the rows such a call leaves buffered are there for the next call. Nor are the client's own periodic commits after a call that returns: the analytics consumer leaves them on (`autoCommit` is set only by the decision consumer), so the lemmas about rolled-back and discarded rows are about the handler's own commits only.
- The PostgreSQL mirror of lifecycle events, the bloom filter write after a flush, the final flush at shutdown, which only logs on failure, and the pairing of a dead-letter record with its topic and partition.
- Cache levels that answer a batch read with fewer results than keys; increments, tags, patterns, warming, TTLs and statistics of the cache; calls of the cache that overlap in time.
- The download link of the exporter: DOM only. Cell values other than text are given as their strings.
- Experiment weights that are not integers, and where a store's experiment is loaded from.
- Widths of counters and rounding of floats (also a budget amount that is not a number): integers are unbounded and reals exact, except the 32-bit words of the hash.
- RiskScorer.WeightInRange: does not cover carts or clicks below zero, for which the weight formula is not meant.
