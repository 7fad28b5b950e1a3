# Verification of the platform backend

A Dafny model of the parts of this NestJS backend that hold state machines, concurrent protocols and ledgers, and proofs
of what they keep. `dafny verify dfyconfig.toml` checks everything.

- `StableStringify.dfy`, `Idempotency.dfy`: the idempotency interceptor, its canonical JSON printer, and the protocol of
  lookup, lock, handler, store, unlock and wait that requests run over an expiring Redis.
- `RedisThrottler.dfy`, `ThrottlerFallback.dfy`: the rate limiter's Redis path, command by command, its in-memory
  fallback, and the refinement between the two.
- `Payments.dfy`: webhooks statement by statement with row locks, checkout writes, link regeneration, cleanup.
- `CommentsLedger.dfy`, `CommentRaces.dfy`: comment statuses and the counter each post keeps, call by call and with
  transactions that overlap.
- `RolePeriods.dfy`, `StaffRaces.dfy`, `PostReviews.dfy`, `ReviewRaces.dfy`: histories with uniqueness, the reads outside
  transactions that endanger them, and role changes, assignments and verdicts that overlap.
- `Sessions.dfy`, `SessionsBound.dfy`: the login's choice of id, clean-up and upsert, alone and interleaved, and runs that
  attain the bound on sessions.
- `UploadPool.dfy`, `PostFiles.dfy`, `MainImages.dfy`: the upload workers; quotas and main images of posts, the latter also
  statement by statement.
- `Messages.dfy`, `MessageRaces.dfy`, `MessagePaging.dfy`: chat messages with attachments, operation by operation and call
  by call; cursor paging.
- `CacheInvalidation.dfy`, `RedisScan.dfy`, `CommentsCache.dfy`, `PostsCache.dfy`: keys and patterns, the scan that
  deletes by pattern, and the freshness of cached lists.
- `Sums.dfy`, `Wrappers.dfy`: sums over finite sets; option and result.

Protocols are state machines: a state, the events enabled in it, and a function that applies one. A run is a sequence of
states linked by events, and each main result is about every run. Services that update rows are classes whose methods are
proved against the same step functions the run theorems are about, and their contracts say besides, field by field, what
is written and what stays. Redis is a map with expiry times and a clock that never
goes back, one command a step. A Prisma transaction is one step, except where its statements are the point: payment
webhooks, comment verdicts and deletions, reviews, main-image changes and role changes are split and see only committed
rows. Clock readings, random choices, new ids and the outcomes of foreign services are parameters.

Where code and documentation disagree the model follows the code. What does not hold is shown by an input or a run, and
beside it stands when it does hold, for all inputs:

- at most one handler per key: `Idempotency.HandlerRunsTwice`, `RunsAgainExactly`; `OverstayingOverlaps`,
  `OverlapThreshold`
- one limiter whichever path serves it: `ThrottlerRefinement.AgreementIsSharp`, `FallbackRefinesRedis`;
  `NonPositiveTtlPathsPart`, `NonPositiveTtlHistory`
- a link only for what is unpaid: `Payments.PaidPaymentRegenerated`, `RegeneratedAsOriginal`
- a donation history that adds up: `Payments.LateCheckoutHidesDonation`, `CleanupDeletesDonation`,
  `HistoryAccountsForIncrease`
- exact comment totals: `CommentsLedger.EditAfterApprovalDrifts`, `TotalIsCountPlusDrift`; `VerdictBeforeNoteDrifts`,
  `NoteDriftsExactly`; `CommentRaces.TwoApprovalsCountTwice`, `TwoDeletionsGoBelowZero`, `WriteKeepsBooksExactly`
- deletions that stay: `CommentRaces.ApprovalRevives`, `SettledUnlessReadBefore`
- role records and staff: `RolePeriods.TwoStaleRequestsOpenTwice`, `RecordKeptExactly`; `SecondAdminCannotStepDown`,
  `GuardExactly`; `StaffRaces.ThreeStepDown`, `HeldExactly`, `StaffThreshold`; `StaleRequestsLeaveNone`,
  `UndisturbedLosesExactly`, `RolePeriods.StaffKeptExactly`
- one active review: `PostReviews.VerdictDuringHandOverDoubles`, `ReplaceKeepsExactly`;
  `ReviewRaces.TwoVerdictsBothActive`, `OnlyActiveExactly`
- a login that works, and five devices: `Sessions.OverlappingFirstLogins`, `TokenLifetime`;
  `SessionsBound.BoundAttained`, `SessionsBounded`
- one main image: `MainImages.TwoChangesLeaveTwo`, `CommitKeepsExactly`, `OverlapKeepsExactly`
- typed messages: `MessageRaces.EditOutlivesFile`, `TypingKeptExactly`
- paging that shows everything: `MessagePaging.TieLosesMessage`, `EveryWalkShowsExactly`
- fresh comment lists: `CommentsCache.StaleListServed`, `ServedReflectInvalidations`

## Model

| member | source | states |
|---|---|---|
| `StableStringify.StringifyExact` | src/infrastructure/http/interceptors/idempotency.interceptor.ts:296-310 | For all JSON values, two print the same exactly when they are equal up to the order of object members, numbers taken by printed form |
| `JsonQuoting.QuotePrefixFree` | src/infrastructure/http/interceptors/idempotency.interceptor.ts:302-309 | No quoted string is a proper prefix of another followed by text: a printed string can be read back in one way only, escapes included |
| `StableStringify.PayloadTextExact` | src/infrastructure/http/interceptors/idempotency.interceptor.ts:97-103 | Two requests hash the same text exactly when body, route parameters and query agree up to member order |
| `StableStringify.OverflowingNumberCollidesWithNull` | src/infrastructure/http/interceptors/idempotency.interceptor.ts:297-299 | A number too large for a double prints like null, so the two are not told apart |
| `Idempotency.OverlapThreshold` | src/infrastructure/http/interceptors/idempotency.interceptor.ts:141-204 | Two handlers of one operation key can run at once in a run whose requests hold the lock for at most d ms exactly when d reaches the 30 s time to live; below that no two requests hold it together |
| `Idempotency.OverstayingOverlaps` | src/infrastructure/http/interceptors/idempotency.interceptor.ts:141 | A run in which the lock expires under its holder and a second request enters |
| `Idempotency.LockIsHeldExactly` | src/infrastructure/http/interceptors/idempotency.interceptor.ts:141-204 | In every run whose requests are at the lock for less than 30 s, handlers that throw included: the lock entry exists only while some request is at it, up to the first request that crashes or loses Redis at the lock without giving it back, and that one leaves it behind |
| `Idempotency.FreeLockIsTaken` | src/infrastructure/http/interceptors/idempotency.interceptor.ts:141-168 | Without such a request, whoever tries the lock gets to its handler exactly when nobody is at it, and waits otherwise |
| `Idempotency.AbandonedLockExpires` | src/infrastructure/http/interceptors/idempotency.interceptor.ts:141 | After any crashes: once nobody has taken the lock for 30 s, the next request to try it gets to its handler |
| `Idempotency.LookupExactly` | src/infrastructure/http/interceptors/idempotency.interceptor.ts:126-138 | Over runs: a request that looks up before the latest stored response is over gets that very reply if its payload is equal up to member order, else the conflict; from its time to live on it goes for the lock |
| `Idempotency.CreatedWasStored` | src/infrastructure/http/interceptors/idempotency.interceptor.ts:170-187 | A request that ends as created has stored its reply for later ones |
| `Idempotency.CreatedIsOwn` | src/infrastructure/http/interceptors/idempotency.interceptor.ts:170-187 | and the reply is one its own handler returned |
| `Idempotency.ReplaySound` | src/infrastructure/http/interceptors/idempotency.interceptor.ts:126-239 | In every interleaving a replayed reply was returned by a handler for the same payload, and a conflict is reported only after a reply for a different one |
| `Idempotency.LateRequestNeverRuns` | src/infrastructure/http/interceptors/idempotency.interceptor.ts:126-141 | A request that looks up after a response is stored never runs the handler while that response lives |
| `Idempotency.RunsAgainExactly` | src/infrastructure/http/interceptors/idempotency.interceptor.ts:126-141 | The response is not looked up again under the lock: once stored, the handler can run again exactly when some request has already missed it and not yet tried the lock |
| `Idempotency.HandlerRunsTwice` | src/infrastructure/http/interceptors/idempotency.interceptor.ts:126-204 | So at most once is false: a run in which two equal requests both run the handler, within the lock time |
| `Idempotency.WaiterLookups` | src/infrastructure/http/interceptors/idempotency.interceptor.ts:257-269 | In every run a waiter makes at most 54 lookups |
| `Idempotency.PollExactly` | src/infrastructure/http/interceptors/idempotency.interceptor.ts:257-269 | A waiter gives up at a poll exactly when it was turned away 8 s ago or more; before, it takes a live response by the rule of the lookup, and else waits 150 ms more |
| `Idempotency.WaitForResponse` | src/infrastructure/http/interceptors/idempotency.interceptor.ts:257-269 | The polling loop returns the first response found before the timeout and gives up only after it, in at most 54 lookups |
| `ThrottlerCommon.KeysSeparate` | src/infrastructure/http/throttling/redis-throttler.storage.ts:93-98 | Each throttler and client has two Redis keys of its own, hit and block keys never clash |
| `RedisThrottler.LimitPerLifetime` | src/infrastructure/http/throttling/redis-throttler.storage.ts:118-167 | In every interleaving of Redis commands one lifetime of the hit key lets at most `limit` calls through |
| `RedisThrottler.LetThroughExactly` | src/infrastructure/http/throttling/redis-throttler.storage.ts:118-167 | In every interleaving a finished call was let through exactly when it has counted and its number is within the limit; the numbers of one lifetime run from 1 without a gap, each for one call |
| `RedisThrottler.BlockLastsExactly` | src/infrastructure/http/throttling/redis-throttler.storage.ts:127-151 | In every interleaving a call that looks for a block goes on to count exactly when each block so far was written at least its length ago: `blockDuration` if positive, else the ttl if positive, else a second |
| `RedisThrottler.ExceedingBlocks` | src/infrastructure/http/throttling/redis-throttler.storage.ts:147-151 | The call that exceeds the limit writes a block that ends that long from now, and tells it in the fewest whole seconds that cover it |
| `RedisThrottler.UnexpiringKeyOwed` | src/infrastructure/http/throttling/redis-throttler.storage.ts:135-145 | A live hit key without expiry has its creator still before PEXPIRE (or crashed there), and no call counted in it has got past the repair |
| `ThrottlerFallback.SizeBounded` | src/infrastructure/http/throttling/redis-throttler.storage.ts:261-291 | Each local map stays within one entry of the cap after every call |
| `ThrottlerFallback.BlockHolds` | src/infrastructure/http/throttling/redis-throttler.storage.ts:221-234 | A call before the end of its block is blocked for the rest of it and changes neither hits nor block |
| `ThrottlerFallback.BlockedUntil` | src/infrastructure/http/throttling/redis-throttler.storage.ts:221-258 | Over any history: from the call that exceeds the limit, every call of the client until now and `blockDuration` (or the ttl, or a second) is refused and told the seconds left, unless its block is evicted |
| `ThrottlerFallback.LetThroughExactly` | src/infrastructure/http/throttling/redis-throttler.storage.ts:236-258 | Over any history, for a key that is not evicted: a call under no block passes exactly when its window has not yet let the limit through |
| `ThrottlerFallback.RefusedExactly` | src/infrastructure/http/throttling/redis-throttler.storage.ts:236-258 | A call under no block is refused exactly when its number is past the limit, and then the client is blocked from now for the block time |
| `ThrottlerFallback.WindowExactly` | src/infrastructure/http/throttling/redis-throttler.storage.ts:236-244 | It counts one more than its window, which lasts the ttl from its first call, or a second when the ttl is not positive |
| `ThrottlerFallback.CompactionInvisible` | src/infrastructure/http/throttling/redis-throttler.storage.ts:261-275 | Dropping expired entries changes neither the verdict nor the block time of a call |
| `ThrottlerFallback.HistoryExists` | src/infrastructure/http/throttling/redis-throttler.storage.ts:211-259 | Every sequence of calls has its sequence of states, so the history theorems are about all call sequences |
| `ThrottlerFallback.LimitPerWindow` | src/infrastructure/http/throttling/redis-throttler.storage.ts:236-258 | For a key that is not evicted each window lets at most `limit` calls through |
| `ThrottlerFallback.RedisThrottlerStorage.CompactInMemoryState` | src/infrastructure/http/throttling/redis-throttler.storage.ts:261-291 | The dropping and evicting loops leave exactly what the specification says |
| `ThrottlerFallback.RedisThrottlerStorage.IncrementInMemory` | src/infrastructure/http/throttling/redis-throttler.storage.ts:211-259 | The stateful operation is the specified one, record and maps |
| `ThrottlerFallback.RedisThrottlerStorage.RedisUnavailableFallback` | src/infrastructure/http/throttling/redis-throttler.storage.ts:190-209 | With Redis down exactly the two payment throttlers are refused, and count nothing; any other call is the in-memory operation |
| `ThrottlerRefinement.FallbackRefinesRedis` | src/infrastructure/http/throttling/redis-throttler.storage.ts:118-259 | On any sequential history with positive ttl and no eviction the fallback and the Redis path return the same record, but for the time to expire of a blocked call whose window is over |
| `ThrottlerRefinement.RedisBlockedUntil` | src/infrastructure/http/throttling/redis-throttler.storage.ts:118-167 | The Redis path likewise: from the call that exceeds the limit every call of the client before the block time is over is refused and told the seconds left |
| `ThrottlerRefinement.FewCallsAgree` | src/infrastructure/http/throttling/redis-throttler.storage.ts:118-291 | In particular any calls with positive ttl, up to one more than the cap, get the same records from both paths |
| `ThrottlerRefinement.AgreementIsSharp` | src/infrastructure/http/throttling/redis-throttler.storage.ts:118-291 | All histories of a number of calls with positive ttl get the same records from both paths exactly when they are no more than the cap and one: with one more a key is evicted that Redis still blocks |
| `ThrottlerRefinement.NonPositiveTtlHistory` | src/infrastructure/http/throttling/redis-throttler.storage.ts:135-151 | Why the ttl must be positive: in any history of calls with ttl 0 or less the Redis path keeps no key, counts no call past one and lets every call through |
| `ThrottlerRefinement.NonPositiveTtlPathsPart` | src/infrastructure/http/throttling/redis-throttler.storage.ts:135-259 | There the paths part, whatever the limit: of the same call made once more than the limit the fallback refuses exactly the last, which the Redis path lets through |
| `ThrottlerRefinement.NonPositiveTtlNeverBlocks` | src/infrastructure/http/throttling/redis-throttler.storage.ts:135-151 | One such call on absent keys leaves Redis as it was |
| `Payments.StatusesFollowAttempts` | src/modules/payments/repo/payments.repo.ts:277-368 | In every interleaving SUCCESS holds exactly when there is a confirmation time, any status but PENDING is that of the last attempt, and a payment enters SUCCESS at most twice |
| `Payments.AmountIsCredited` | src/modules/payments/repo/payments.repo.ts:277-368 | In every interleaving of webhook statements, checkout writes, regenerations and cleanup a post's amount is its start plus each payment's amount for each entry into SUCCESS |
| `Payments.CreatedAsAsked` | src/modules/payments/services/payments.service.ts:36-75 | In every run a payment is created PENDING and unconfirmed, for an approved post and the amount asked for, and stays for them |
| `Payments.RegeneratedAsOriginal` | src/modules/payments/services/payments.service.ts:85-103 | In every run a regenerated payment is a new PENDING one without attempts for the post and the amount of its original, which was not expired, whose post is approved, and which stays as it is |
| `Payments.RegeneratedPays` | src/modules/payments/services/payments.service.ts:85-103 | Followed to the end: when it succeeds, the original's post grows by the original's amount |
| `Payments.PaidPaymentRegenerated` | src/modules/payments/repo/payments.repo.ts:72-96 | A run in which a payment that has succeeded is regenerated: the query does not look at the status, though the message promises pending or failed |
| `Payments.SuccessAdds` | src/modules/payments/repo/payments.repo.ts:277-331 | The commit of a success sets status, confirmation and last attempt, adds the payment's amount to its post and records the attempt, and does nothing else |
| `Payments.FailureOnlyMarks` | src/modules/payments/repo/payments.repo.ts:333-368 | The commit of another verdict sets status and last attempt, the time too if it is an expiry, and no post changes |
| `Payments.CheckoutWrites` | src/modules/payments/repo/payments.repo.ts:98-107 | The checkout write makes its payment pending, unconfirmed and due after its lifetime, whatever a webhook has made of it |
| `Payments.DeliveriesRecordedOnce` | src/modules/payments/repo/payments.repo.ts:277-368 | In every interleaving a payment of the provider is recorded by at most one attempt, however often it is delivered |
| `Payments.SelectionIsStale` | src/modules/maintenance/jobs/expired-pending-payments-cleanup.job.ts:22-47 | What a cleanup selects, 100 at most, is pending, past its expiry and without attempts at that moment |
| `Payments.DeletionTakes` | src/modules/maintenance/jobs/expired-pending-payments-cleanup.job.ts:53-60 | Its deletion takes what was selected and is still there, with its attempts, and nothing else |
| `Payments.HistoryAccountsForIncrease` | src/modules/payments/repo/payments.repo.ts:203-275 | The donation history lists the whole increase exactly when no checkout write took a success back and no success was deleted |
| `Payments.LateCheckoutHidesDonation` | src/modules/payments/services/payments.service.ts:71-75 | A run in which the checkout write comes after the success: the amount is counted and the history is empty |
| `Payments.CleanupDeletesDonation` | src/modules/maintenance/jobs/expired-pending-payments-cleanup.job.ts:41-60 | A run in which a payment succeeds between the cleanup's select and its delete: the amount is counted, the payment is gone, and the history is empty |
| `Payments.ExpiredPendingPaymentsCleanupJob.Handle` | src/modules/maintenance/jobs/expired-pending-payments-cleanup.job.ts:19-72 | Run alone, the batch loop deletes exactly the rows that were pending, past their expiry and without attempts, and counts them |
| `CommentsLedger.TotalIsCountPlusDrift` | src/modules/posts/comments/repo/comments.repo.ts:119-126 | In every run a post's total is its number of counted comments plus the number of times `update`, `setModerationProcessing` or `markModerationServiceUnavailable` hit a counted one; exact precisely when that is zero |
| `CommentsLedger.LedgerStep` | src/modules/posts/comments/repo/comments.repo.ts:182-376 | One call moves the counter with the number of counted comments, short of a drift |
| `CommentsLedger.CountedIsApproved` | src/modules/posts/comments/repo/comments.repo.ts:392-404 | Of the rows a run can leave, exactly the approved ones count: the other columns of the test follow |
| `CommentsLedger.ExactWithoutUnaccountedCalls` | src/modules/posts/comments/repo/comments.repo.ts:182-376 | Runs of creations, verdicts, retries and deletions keep every total exact, bulk deletions included |
| `CommentsLedger.SettledStaysSettled` | src/modules/posts/comments/repo/comments.repo.ts:302-304 | A deleted or rejected comment is never counted again by verdicts, retries or deletions |
| `CommentsLedger.EditAfterApprovalDrifts` | src/modules/posts/comments/repo/comments.repo.ts:169-180 | Approving a comment and editing it leaves the total at one with nothing counted |
| `CommentsLedger.GroupsAreTheDeletion` | src/modules/posts/comments/repo/comments.repo.ts:246-277 | Decrementing by the groups of the rows found lowers each total by the counted comments deleted |
| `CommentsLedger.CommentsRepo.HardDeleteMany` | src/modules/posts/comments/repo/comments.repo.ts:227-286 | Group, delete and decrement loops have the effect of the specified bulk deletion, and the books balance as before |
| `CommentsLedger.CommentsRepo.MarkModeratedApproved` | src/modules/posts/comments/repo/comments.repo.ts:288-331 | A comment neither deleted nor rejected becomes APPROVED by AGENT at that time without a reason, any other is left alone, and every total less its counted comments stays as it was |
| `CommentsLedger.CommentsRepo.Delete` | src/modules/posts/comments/repo/comments.repo.ts:182-225 | The comment becomes DELETED and keeps the rest, and every total less its counted comments stays as it was |
| `CommentsLedger.CommentsRepo.SetModerationProcessingIfFailed` | src/modules/posts/comments/repo/comments.repo.ts:128-140 | The caller is told it won exactly when the comment was FAILED |
| `CommentsLedger.FailedIsClaimedOnce` | src/modules/posts/comments/repo/comments.repo.ts:128-140 | A comment marked as failed is claimed by the first retry and not by a second |
| `CommentsLedger.CommentsRepo.EnqueueOrThrow` | src/modules/posts/comments/services/comments-moderation-retry.handler.ts:29-80 | With any calls of others in between, the verdict's included: succeeds exactly when queue and update work and the comment is still there, and leaves it PROCESSING if that was asked for; any failure leaves it FAILED with the reason if that still can be done |
| `CommentsLedger.ProcessingDriftsExactly` | src/modules/posts/comments/services/comments-moderation-retry.handler.ts:29-80 | Noting a comment as processing drifts the total exactly when it counts by then |
| `CommentsLedger.NoteDriftsExactly` | src/modules/posts/comments/services/comments-moderation-retry.handler.ts:29-80 | Noting a queued comment that did not count as processing drifts the total exactly when one of the calls in between publishes it and none after that takes it out |
| `CommentsLedger.VerdictBeforeNoteDrifts` | src/modules/posts/comments/services/comments-moderation-retry.handler.ts:29-80 | Create, enqueue, approve, note: the total is one with nothing counted |
| `CommentRaces.TotalIsCountPlusSkews` | src/modules/posts/comments/repo/comments.repo.ts:182-376 | With reading and writing of verdicts, deletions and bulk deletions as separate steps of overlapping transactions: a total is its count and the sum over all writes of the comments counted when written less those counted when read |
| `CommentRaces.WriteKeepsBooksExactly` | src/modules/posts/comments/repo/comments.repo.ts:182-376 | From reading to write, a transaction keeps the books exactly when on every post as many of its rows count at the write as at the reading |
| `CommentRaces.VerdictKeepsBooksExactly` | src/modules/posts/comments/repo/comments.repo.ts:288-376 | A verdict or a deletion does exactly when the comment counts at the write just if it did at the reading |
| `CommentRaces.UndisturbedWriteIsStep` | src/modules/posts/comments/repo/comments.repo.ts:182-376 | A transaction that writes rows as it has read them is the single call of the run theorems |
| `CommentRaces.SettledUnlessReadBefore` | src/modules/posts/comments/repo/comments.repo.ts:302-304 | A deleted or rejected comment is brought back only by an approval that had read it before: with none under way it stays settled whatever verdicts, deletions and retries overlap |
| `CommentRaces.TwoApprovalsCountTwice` | src/modules/posts/comments/repo/comments.repo.ts:288-331 | A run in which two approvals read one comment before either writes: a total of two with one counted |
| `CommentRaces.TwoDeletionsGoBelowZero` | src/modules/posts/comments/repo/comments.repo.ts:182-225 | A run in which two deletions of one published comment leave a total of minus one |
| `CommentRaces.ApprovalRevives` | src/modules/posts/comments/repo/comments.repo.ts:288-331 | A run in which an approval brings a deleted comment back |
| `RolePeriods.OpenPeriodsMatchRoles` | src/modules/user-role-periods/services/user-role-period.service.ts:16-98 | In every run whose changes act on snapshots that still hold, a user has an open period exactly when the role is tracked, then one with the current role, and periods never overlap |
| `RolePeriods.PeriodsReplayHistory` | src/modules/user-role-periods/repo/user-role-period.repo.ts:22-49 | The rows at the end of such a run give back the role held at any past instant |
| `RolePeriods.RecordKeptExactly` | src/modules/admin/services/admin.service.ts:118-163 | An accepted change keeps the record right if and only if its snapshot, read before the transaction, still supports it |
| `RolePeriods.FirstHarmBreaks` | src/modules/admin/services/admin.service.ts:118-163 | The first change of a run on a snapshot that does not support it breaks the record at once |
| `RolePeriods.RowsAreHistory` | src/modules/user-role-periods/repo/user-role-period.repo.ts:22-49 | Over every run, however stale its changes: no row is lost, reopened or given another user, role, start or author, and one is closed once, by a change of its own user's role |
| `RolePeriods.StepWrites` | src/modules/admin/services/admin.service.ts:65-163 | A new user is USER unless an admin says otherwise; a change with enough staff left writes its role, closes the open rows if the old role was tracked and opens one with role, instant and author if the new one is; any other writes nothing |
| `RolePeriods.TwoStaleRequestsOpenTwice` | src/modules/admin/services/admin.service.ts:118-163 | Two requests that both read USER leave two open periods |
| `RolePeriods.GuardExactly` | src/modules/admin/services/admin.service.ts:121-149 | The guard subtracts the user twice: it accepts exactly when one admin and one moderator remain, and one more of the role given up |
| `RolePeriods.AcceptedChangeLeavesStaff` | src/modules/admin/services/admin.service.ts:121-149 | An accepted change that is not read as none leaves an admin and a moderator when nothing comes between its count and its write, however stale its snapshot |
| `RolePeriods.StaffKeptExactly` | src/modules/admin/services/admin.service.ts:118-163 | In every run of undisturbed changes with any snapshots, a role somebody holds stays held until the first change that skips the guard, having read the role it asks for, and takes the other from its only holder; after that nobody holds it |
| `StaffRaces.HeldExactly` | src/modules/admin/services/admin.service.ts:112-163 | With reading, count and write as separate steps of overlapping requests: after a write a role is held exactly when the write gives it, or the others who held it at the count, with those who gained it and less those who lost it since, are more than none |
| `StaffRaces.StaffThreshold` | src/modules/admin/services/admin.service.ts:118-163 | For every snapshot and wish of a guarded change: some run in which that many others lose the role between its count and its write leaves it unheld exactly when they are as many as the guard had to spare |
| `StaffRaces.StaffSurvivesOverlap` | src/modules/admin/services/admin.service.ts:118-163 | A guarded change leaves the role held if fewer others lose it meanwhile than the guard had to spare and others gained |
| `StaffRaces.ThreeStepDown` | src/modules/admin/services/admin.service.ts:118-163 | A run in which three admins step down at once, each counted by the others, and no admin is left |
| `StaffRaces.UndisturbedLosesExactly` | src/modules/admin/services/admin.service.ts:118-123 | A change with nothing between its count and its write loses a role exactly when it was read as none, asks for another role, and its user is by then the only holder |
| `StaffRaces.UndisturbedChange` | src/modules/admin/services/admin.service.ts:112-163 | Reading, count and write with nothing between are the transaction of `RolePeriods`: let through exactly when enough staff is left, and then the role is written |
| `StaffRaces.StaleRequestsLeaveNone` | src/modules/admin/services/admin.service.ts:112-163 | A run in which no two transactions overlap and two requests that had read the role they ask for leave no admin |
| `RolePeriods.SecondAdminCannotStepDown` | src/modules/admin/services/admin.service.ts:121-149 | With two admins and a moderator the guard refuses to let an admin step down |
| `RolePeriods.AdminService.HandleRoleChange` | src/modules/user-role-periods/services/user-role-period.service.ts:16-98 | Closes the user's open rows if the old role was tracked and adds one with role, instant and author if the new one is, and changes no other row; rows right for the old role are right for the new one |
| `RolePeriods.RoleChangedOpen` | src/modules/user-role-periods/services/user-role-period.service.ts:16-98 | Whatever the rows before: one open period exactly for the old role when it is tracked becomes one open period exactly for the new role when that is |
| `RolePeriods.AdminService.ChangeRolesTransaction` | src/modules/admin/services/admin.service.ts:118-163 | Goes through exactly when enough staff is left; then the role is written and the rows are closed and opened as for it, and else nothing changes |
| `RolePeriods.AdminService.ChangeRoles` | src/modules/admin/services/admin.service.ts:112-163 | Run alone, a change is refused exactly for an unknown user or too little staff, and otherwise writes role and rows, keeps every record right and leaves both kinds of staff |
| `RolePeriods.AdminService.CreateUserByAdmin` | src/modules/admin/services/admin.service.ts:65-81 | The user gets the role given, or USER; a role other than USER opens a period naming the admin in the same step, and every record stays right |
| `PostReviews.StaffStepsKeepReviews` | src/modules/posts/services/posts-review.service.ts:158-213 | In every run of staff steps with timely reassignments a post has at most one active review, exactly one once assigned, APPROVED and REJECTED verdicts agreeing with the post |
| `PostReviews.InForceIsNewest` | src/modules/posts/repos/posts-review.repo.ts:79-89 | In such runs the active review is the last one written for its post |
| `PostReviews.ReplaceKeepsExactly` | src/modules/posts/services/posts-review.service.ts:68-133 | A reassignment keeps those rules exactly when every row it read is still active when it replaces them |
| `PostReviews.VerdictDuringHandOverDoubles` | src/modules/posts/services/posts-review.service.ts:68-133 | A verdict between the read and the replacement leaves two active reviews |
| `PostReviews.RowsSurvive` | src/modules/posts/repos/posts-review.repo.ts:91-100 | Rows keep post, reviewer, verdict and reason for ever and are never made active again |
| `PostReviews.VerdictStands` | src/modules/posts/services/posts-review.service.ts:202-213 | In every run, from a verdict until a step concerns the post again: its only active review is the judging user's, with the verdict and the reason given, and the post has the status given |
| `PostReviews.AssignmentStands` | src/modules/posts/services/posts-review.service.ts:34-57 | From an assignment likewise: a pending review of the reviewer chosen, for a post pending review |
| `PostReviews.NothingLeftBehind` | src/modules/posts/services/posts-review.service.ts:68-133 | After a reassignment the demoted moderator holds no active review on a pending or blocked post, no status changes, and only the rows handed over become inactive |
| `PostReviews.OneForOne` | src/modules/posts/services/posts-review.service.ts:97-133 | Each review handed over has one successor on its post, by another moderator, rejected if the post is blocked and else pending |
| `ReviewRaces.OnlyActiveExactly` | src/modules/posts/services/posts-review.service.ts:34-57 | Statement by statement, with the row locks they take: an assignment or a verdict leaves its review as the only active one of the post exactly when no other has committed since it began to suspend |
| `ReviewRaces.TwoVerdictsBothActive` | src/modules/posts/services/posts-review.service.ts:202-214 | A run in which two verdicts at once leave two active reviews |
| `PostReviews.PostsReviewService.AssignReviewer` | src/modules/posts/services/posts-review.service.ts:34-57 | Fails exactly without moderators, changing nothing; else the post is pending review and its only active row is a pending one of the moderator picked |
| `PostReviews.PostsReviewService.ModifyPostReviewStatus` | src/modules/posts/services/posts-review.service.ts:148-213 | Accepted exactly when reasons and statuses are consistent and the user may judge the active review, with the error of the first thing missing; then the post has the status given and its only active row the verdict, the user and the reason |
| `PostReviews.PostsReviewService.CreateInBatches` | src/modules/posts/services/posts-review.service.ts:127-132 | The loop of 250-row batches inserts each assignment once and in order |
| `PostReviews.PostsReviewService.ReassignPostsFromDemotedModerator` | src/modules/posts/services/posts-review.service.ts:59-145 | Fails exactly when nobody else moderates; else retires exactly the demoted moderator's open rows and adds rows of other moderators for their posts, rejected if blocked and else pending, with the hand-over's reason |
| `Sessions.SessionsBounded` | src/modules/auth/sessions/services/sessions-policy.service.ts:16-36 | From any number of sessions and in any interleaving, once one clean-up has run a user has at most five sessions, one more for each login that may be under way at once, and one more for each clean-up that failed: six, one at a time |
| `SessionsBound.BoundAttained` | src/modules/auth/sessions/services/sessions-policy.service.ts:16-36 | The bound is sharp: for any number of logins at once and of failed clean-ups a run stores just as many sessions |
| `Sessions.CurrentDeviceSpared` | src/modules/auth/sessions/services/sessions-policy.service.ts:21-31 | In every run, whatever came between look and delete, no row that the logging-in device has by then goes; the victims are as many as there were too many, and none was more recently used than another spared |
| `Sessions.DeletionIsCleanup` | src/modules/auth/sessions/services/sessions-policy.service.ts:24-31 | Filter, sort and slice choose least recently used sessions of other devices |
| `Sessions.TokenLifetime` | src/modules/auth/sessions/repo/session-repo.ts:19-37 | At any later moment of any run a login's token validates exactly while it is unexpired, its upsert found no row for the device or the one whose id was chosen, and nothing since has written, cleaned up or removed that row |
| `Sessions.UndisturbedLoginTokenGood` | src/modules/auth/services/auth.service.ts:91-111 | Unless another login creates the device's row under another id between choice and upsert, the token is good until it expires or its row is touched |
| `Sessions.UpsertLeaves` | src/modules/auth/sessions/repo/session-repo.ts:19-37 | In every run an upsert leaves the device's row with the login's token and expiry, last used now; a row that was there keeps id and age, and no other row changes |
| `Sessions.OverlappingFirstLogins` | src/modules/auth/services/auth.service.ts:91-111 | A run in which two first logins of one device overlap: the first token dies at the second upsert, and the second validates at no moment of any continuation |
| `Sessions.SessionsService.PrepareForLogin` | src/modules/auth/sessions/services/sessions-policy.service.ts:16-36 | Deletes what a clean-up may delete, and nothing when the database fails |
| `Sessions.SessionsService.Login` | src/modules/auth/services/auth.service.ts:91-111 | Run alone: the exact number of sessions afterwards, the device's row used now with this token and expiry, a token good until then, no other row changed but those cleaned up |
| `Sessions.SessionsService.ValidateSession` | src/modules/auth/sessions/services/sessions.service.ts:81-95 | Accepts exactly an unexpired row that holds the token's hash |
| `UploadPool.Upload` | src/modules/files/services/clients/cloudinary-client.service.ts:50-90 | For any worker count and any order of completions each file is tried once, the stored files come back in input order, the failed ones by name, none is lost, and the pool throws exactly when nothing is stored |
| `UploadPool.RunWorkers` | src/modules/files/services/clients/cloudinary-client.service.ts:59-82 | The workers over the shared index, at most as many uploads under way as there are workers |
| `UploadPool.StoredOrLost` | src/modules/files/services/clients/cloudinary-client.service.ts:66-79 | Every file is either stored or failed |
| `UploadPool.StoredInOrder` | src/modules/files/services/clients/cloudinary-client.service.ts:66-90 | A stored file comes back right after all those stored before it in the input |
| `PostFiles.QuotasHold` | src/modules/posts/posts-files/services/post-files.service.ts:32-75 | Every run of links, main-image changes and deletions, each a step, keeps a post at ten files, 25 MiB and one main image |
| `MainImages.CommitKeepsExactly` | src/modules/posts/posts-files/repos/post-files.repo.ts:133-155 | Statement by statement, with the row locks they take: a change or a link leaves at most one main image exactly when every main image by its commit was in its sight |
| `MainImages.OverlapKeepsExactly` | src/modules/posts/posts-files/services/post-files.service.ts:32-68 | From its look to its commit: a change, or a link that brings a main image, leaves at most one exactly when no other transaction has meanwhile brought, unseen by it, a main image that still is one |
| `MainImages.UndisturbedCommitKeeps` | src/modules/posts/posts-files/services/post-files.service.ts:32-68 | So it does whenever no other transaction has committed a main image since it looked |
| `MainImages.UndisturbedChangeMarks` | src/modules/posts/posts-files/repos/post-files.repo.ts:133-155 | A change nothing disturbs leaves the file it was asked for as the one main image |
| `MainImages.MainsExactly` | src/modules/posts/posts-files/repos/post-files.repo.ts:133-155 | In every interleaving a file is a main image exactly when some commit made it one, and no deletion of it and no commit of a change that had cleared it came after |
| `MainImages.FilesExactly` | src/modules/posts/posts-files/repos/post-files.repo.ts:10-104 | and it is there exactly when a link has brought it and no deletion of it came after |
| `MainImages.TwoChangesLeaveTwo` | src/modules/posts/posts-files/repos/post-files.repo.ts:133-155 | A run in which two changes at once leave two main images |
| `PostFiles.LinkMainExactly` | src/modules/posts/posts-files/services/post-files.service.ts:65-68 | A link adds a main image exactly when the post has none and the designated file is not skipped as a duplicate |
| `PostFiles.NormalizeMainImageValues` | src/modules/posts/posts-files/services/post-files.service.ts:216-250 | The in-place loop leaves no main image if the post has one or the batch is empty and else exactly one, the first that asked or the first of all, and changes nothing else |
| `PostFiles.NormalizedMains` | src/modules/posts/posts-files/services/post-files.service.ts:216-250 | The number of main images of a normalised batch is 0 if the post has one or the batch is empty and else 1; it is the first file that asked, or the first of all |
| `PostFiles.InsertedKeys` | src/modules/posts/posts-files/repos/post-files.repo.ts:10-18 | A bulk insert that skips duplicates leaves exactly the old keys and the batch's taken, each by one row |
| `PostFiles.NothingInsertedExactly` | src/modules/posts/posts-files/services/post-files.service.ts:68-71 | Nothing is linked exactly when every file of the batch was linked before |
| `PostFiles.InsertedRows` | src/modules/posts/posts-files/repos/post-files.repo.ts:10-18 | It changes no old row, and each new one has the next id and is a file of the batch, whole, the first with its key |
| `PostFiles.ScopeValidExactly` | src/modules/posts/posts-files/services/post-files.service.ts:200-214 | A batch passes the scope check exactly when it is not empty, all of one post and one user, and each key holds that user's posts folder, backslashes read as slashes |
| `PostFiles.CountedExactly` | src/modules/posts/posts-files/repos/post-files.repo.ts:106-131 | The counting queries count the rows of the post, and its main images |
| `PostFiles.SetMainMakesMain` | src/modules/posts/posts-files/repos/post-files.repo.ts:133-155 | After a change of main image the file is the one main image of its post |
| `PostFiles.DeletedAll` | src/modules/posts/posts-files/services/post-files.service.ts:78-141 | Deleting a post's files by the keys read leaves it none and touches no other post |
| `PostFiles.PostFilesService.UploadFilesToPost` | src/modules/posts/posts-files/services/post-files.service.ts:21-76 | Each refusal exactly when it is due (10 files, 25 MiB), and then nothing changes; else every old row stays, each key of the batch is there once, each new row is a file of the batch with the next id, and one becomes the main image just if the post had none |
| `PostFiles.PostFilesService.SetMainImage` | src/modules/posts/posts-files/repos/post-files.repo.ts:133-155 | Succeeds exactly when the file is the post's; then it is the post's one main image, nothing else about any row changes, and every post stays within its quotas |
| `PostFiles.PostFilesService.DeleteFileById` | src/modules/posts/posts-files/services/post-files.service.ts:143-175 | The row goes exactly when it is there and the storage works; every other row stays |
| `PostFiles.PostFilesService.DeleteFilesByPostId` | src/modules/posts/posts-files/services/post-files.service.ts:78-141 | All rows of the post go if the storage works, and are counted; every other row stays |
| `Messages.LiveMessagesWellTyped` | src/modules/message/services/message.service.ts:53-67 | In every run of send, edit, delete-file and delete-message, one at a time, a live message has text or an attachment and, if not SYSTEM, the type those call for |
| `MessageRaces.TypingKeptExactly` | src/modules/message/services/message.service.ts:228-356 | With every repository and storage call a step, in any interleaving: a live message at which nobody is at work, and no operation was broken off, has text or an attachment, and the type those call for exactly when the last type write agreed with its row just before |
| `MessageRaces.AgreeingWritesKeepTyping` | src/modules/message/services/message.service.ts:228-356 | So writes that all agree keep every message right, however operations interleave |
| `MessageRaces.EditOutlivesFile` | src/modules/message/services/message.service.ts:235-343 | A run from the start in which an edit and the deletion of the only file leave a text message of type MIXED |
| `MessageRaces.DeletionTakesTextExactly` | src/modules/message/services/message.service.ts:325-343 | Deleting the last file of a message without text, decided at a re-reading, takes text with it exactly when an edit writes it in between, and never takes a file |
| `MessageRaces.DeletedHaveNoFiles` | src/modules/message/services/message.service.ts:266-300 | In every interleaving, failures and operations broken off included, a deleted message has no attachments |
| `MessageRaces.NothingOrphaned` | src/modules/message/services/message.service.ts:69-356 | In every interleaving with failures in which no operation is broken off, a stored file without a row belongs to a message being sent, a row without its file to one being deleted, and with nobody at work storage and rows agree |
| `MessageRaces.SendAlone` | src/modules/message/services/message.service.ts:69-180 | A send whose calls nothing comes between has the effect of the single step |
| `MessageRaces.EditAlone` | src/modules/message/services/message.service.ts:228-264 | So has an edit; its second write comes exactly when a file message got text |
| `MessageRaces.DeleteAlone` | src/modules/message/services/message.service.ts:266-300 | So has the deletion of a message, with or without files |
| `MessageRaces.DeleteFileAlone` | src/modules/message/services/message.service.ts:302-356 | So has the deletion of a file, whatever its re-reading calls for |
| `Messages.NoOrphans` | src/modules/message/services/message.service.ts:266-300 | One at a time, storage and rows hold the same files after each operation, and a deleted message has none |
| `Messages.SystemTypeLost` | src/modules/message/services/message.service.ts:338-343 | Taking a file from a system message that keeps something makes it an ordinary message |
| `Messages.EditRacesDeleteFile` | src/modules/message/services/message.service.ts:249-253 | The same from any state: an edit whose type write comes after the deletion of the only file leaves MIXED |
| `Messages.TrimTwice` | src/modules/message/services/message.service.ts:71-72 | Text stored trimmed still counts as text when read back |
| `Messages.TrimIsTrimmed` | src/modules/message/services/message.service.ts:71-72 | Trimming leaves what is between the blanks at both ends, and no blank at either end |
| `Messages.MessageService.SendMessage` | src/modules/message/services/message.service.ts:69-180 | Refused exactly in the stated cases, each with its error; a failed write takes the uploads back; the row stored and returned has the chat, sender, trimmed text and type, the files their rows, and nothing else changes |
| `Messages.MessageService.EditMessage` | src/modules/message/services/message.service.ts:228-264 | Accepted exactly for the sender or an admin, a live message and non-empty text; then the content is the new text without the blanks around it, a FILE message becomes MIXED, chat, sender and files stay, and no other message changes |
| `Messages.MessageService.DeleteMessage` | src/modules/message/services/message.service.ts:266-300 | Refused exactly in the stated cases; else the message is marked, its files go from rows and storage, and nothing else changes; deleting twice succeeds without effect |
| `Messages.MessageService.DeleteFile` | src/modules/message/services/message.service.ts:302-356 | Refused exactly in the stated cases; else just that file goes from rows and storage, and its message is re-typed, or deleted if nothing is left of it |
| `MessagePaging.FindMessages` | src/modules/message/repos/message.repo.ts:83-113 | A page is the newest messages older than the cursor; there is more exactly when one of those is left out, and then the cursor is the last one's time |
| `MessagePaging.GetMessages` | src/modules/message/services/message.service.ts:182-226 | Members only; a page of the newest messages with the limit asked for between 1 and 50, and 20 when none is given |
| `MessagePaging.LaterPagesOlder` | src/modules/message/repos/message.repo.ts:83-113 | Without any assumption on creation times no message is shown twice: later pages are strictly older |
| `MessagePaging.CutPossibleExactly` | src/modules/message/repos/message.repo.ts:83-113 | Some page can cut a message off exactly when fewer eligible messages than the limit are newer and more than the limit are not older |
| `MessagePaging.EveryWalkShowsExactly` | src/modules/message/repos/message.repo.ts:83-113 | Every walk to the end over the same messages shows a message that stays live exactly when at no page of it fewer than the limit are newer and more than the limit not older: a condition on the data alone |
| `MessagePaging.TieLosesMessage` | src/modules/message/repos/message.repo.ts:83-113 | A walk that loses one of two messages of one instant, with a limit of one |
| `MessagePaging.WalkShowsExactly` | src/modules/message/repos/message.repo.ts:83-113 | One walk to the end shows a message that stays live exactly when none of its pages stops within that message's instant and leaves it out |
| `MessagePaging.WalkShowsAllOnce` | src/modules/message/repos/message.repo.ts:83-113 | With distinct creation times each message that stays live is on exactly one page, whatever arrives or goes on the way |
| `MessagePaging.WalkStops` | src/modules/message/repos/message.repo.ts:109-112 | The walk stops: full pages times the limit never exceed the messages there at the start |
| `CacheInvalidation.CommentsPatternExact` | src/modules/posts/comments/services/comments-cache.service.ts:41-43 | The pattern matches the keys of that post's comment lists and nothing else |
| `CacheInvalidation.CommentsPatternOtherPosts` | src/modules/posts/comments/services/comments-cache.service.ts:41-43 | It never hits another post: 5 does not hit 57 |
| `CacheInvalidation.MutationHitsExactly` | src/modules/posts/services/posts-cache.service.ts:96-137 | A change to posts hits every list and by-id entries exactly of those posts, for every viewer |
| `CacheInvalidation.LikeHitsExactly` | src/modules/posts/services/posts-cache.service.ts:57-94 | A like hits the post's by-id entries and only the lists of the user who likes |
| `CacheInvalidation.KeysSeparate` | src/modules/posts/services/posts-cache.service.ts:139-145 | No two lists or by-id entries share a key |
| `RedisScan.RedisService.DelByPattern` | src/modules/cache/services/redis.service.ts:35-48 | Whatever other clients write meanwhile, after the scan a matching key is there only if it was written on the way, and no other key has suffered |
| `RedisScan.RedisService.DelAllMatching` | src/modules/cache/services/redis.service.ts:35-48 | With nobody writing, exactly what matches is gone, and counted |
| `PostsCache.PostsCacheService.InvalidatePostMutationCache` | src/modules/posts/services/posts-cache.service.ts:96-137 | Whatever others write in the course of every command, what the change hits is there afterwards only if it was written meanwhile, and no other key has suffered |
| `CommentsCache.InvalidatePostComments` | src/modules/posts/comments/services/comments-cache.service.ts:41-50 | Whatever others write during the scan, the post's lists are there afterwards only if written meanwhile, and no other key has suffered |
| `CommentsCache.ServedWithinTtl` | src/modules/posts/comments/services/comments-cache.service.ts:19-39 | A served list was read less than one time to live ago, plus the delay of its store |
| `CommentsCache.ServedReflectInvalidations` | src/modules/posts/comments/services/comments-cache.service.ts:19-50 | With invalidations as sweeps of bucket after bucket, cached lists reflect every invalidation that has passed their keys in every run whose stores none overtakes, and the first store overtaken leaves a stale list |
| `CommentsCache.StepFreshExactly` | src/modules/posts/comments/services/comments-cache.service.ts:28-50 | A step keeps all lists fresh exactly when it is not a store that an invalidation begun after its read has passed |
| `CommentsCache.CachedExactly` | src/modules/posts/comments/services/comments-cache.service.ts:19-50 | In every run a key is cached exactly when some step stored it and it was neither replaced nor swept since, and holds what that step's request had read |
| `CommentsCache.ServedAsRead` | src/modules/posts/comments/services/comments-cache.service.ts:19-39 | A served list was read by a miss of its own post and query |
| `CommentsCache.ServedAfterInvalidation` | src/modules/posts/comments/services/comments-cache.service.ts:19-50 | In a run without overtaken stores, what is served after an invalidation of the post is complete was read after that invalidation began |
| `CommentsCache.StaleListServed` | src/modules/posts/comments/services/comments-cache.service.ts:19-50 | A run in which the list read before an invalidation began is served after it is complete |

## Left out

- Controllers, DTO validation, guards, configuration, logging, metrics, health checks, mail, sockets, Swagger: no state worth proving.
- Argon2, JWT, HMAC and SHA-256: hashes are taken as injective, and the token of a login compares with its own hash only.
- WayForPay, Cloudinary, Google, Gemini, Resend and BullMQ: outcomes are parameters; queue order and deduplication are not assumed.
- Number printing: a JSON number is known by its printed form, and that form uses only digits, sign, point and exponent marks.
- Idempotency: one operation key a machine; a Redis command that fails is taken to have had no effect; a malformed cached response, which the code treats as a miss, does not arise; bodies that are not JSON values are not modelled.
- Throttler: the two paths are compared on calls that run at one instant each; the switch between them when Redis goes away in the middle of a history is not modelled.
- Payments: rows are changed by the events of the machine rather than by class methods, since the point is their interleaving; fees, currencies, signatures and listings are left out; isolation is READ COMMITTED.
- Comments: content, likes, provider and score are left out, and the queue's own retries; a call is one step in `CommentsLedger`, and `CommentRaces` splits the transactions, under READ COMMITTED and without deadlocks.
- RolePeriods.AcceptedChangeLeavesStaff: count and update are one step here, and a change read as none is not covered: `RolePeriods.StaffKeptExactly` covers it, and `StaffRaces` splits the steps, without period rows.
- Role periods: user names, deletion of users and changes of roles from seed scripts are left out; users start as USER or are created by an admin.
- Post reviews: the reads before a verdict are taken with its transaction, which suspends all rows whatever was read; archiving, which deletes rows, is left out; a reassignment lists what it reads by id; assignments and verdicts are one step there, and `ReviewRaces` splits them, for one post and its active rows only.
- Sessions: the interleaved machine is about one user, whose rows no query of another user touches; an id is not used again for another device.
- PostFiles.QuotasHold: a change of the main image is one step here; it takes no lock on the post, and `MainImages` splits it into its statements, for one post and its main images only, under READ COMMITTED.
- Messages.LiveMessagesWellTyped: an operation is one step here, and so in `Messages.NoOrphans`; `MessageRaces` splits it into its calls.
- MessageRaces: chat membership is a parameter; the message cache is left out; a call that fails is taken to have had no effect.
- Message paging: times are whole milliseconds; invalid cursors and the cached pages of the last 15 seconds are left out.
- Caches: glob characters other than the star do not occur in the patterns; an invalidation whose Redis command fails is only logged there: in the freshness machine its sweep ends where it is, and `PostsCache` leaves it out; the freshness machine is about comment lists, and the buckets of the key space do not change during a sweep.
- Offset pagination, like toggles, the other maintenance jobs and `retry.util.ts`: easy members.
