# Merope: proofs about the core

A Dafny model of the parts of Merope that are state machines, ledgers and algorithms:
replay protection for mutations, wallets and escrows, four rate limiters, the LRU cache,
the progression engine, orders and stock, feed pagination, refresh-token rotation, the
realtime hub and the audit chain.

`dafny verify dfyconfig.toml` checks the whole project.

## How it is built

Every component has a specification on values: a state, the step each operation takes,
and a run (`Run`, oldest event first) of any number of steps. The theorems are about
every run. Beside it stands the component as the program executes it: a class whose
methods change fields, maps, slices and arrays statement by statement, each proved to
take exactly the specified step. What the steps come to is then stated on the events of
the run, with the arithmetic written out: which requests are answered how, which calls
are admitted, and what a payment, an order or an event is worth.

- A database transaction is a working copy that is installed at the commit. A `Fault`
  says at which statement the database fails, or that the commit took effect and its
  answer was lost.
- Redis scripts and single commands are atomic. A key is gone from its expiry time on.
- Time is an input that never decreases. Nanoseconds unless a file says otherwise.
- Concurrency is interleaving: requests of the idempotency handler, finance requests
  (down to single statements under row locks), visitors of the token buckets, token
  rotations, feed clients and hub events advance in any order.
- UUID parsing, trimming, digests and ids are function parameters or inputs. Different
  strings may parse to one UUID. Collisions of a digest are never assumed away: the
  lemmas produce them.

| files | component |
|---|---|
| `Wrappers`, `Admission` | options, runs, faults; the trace every limiter is judged by |
| `Idempotency`, `Replays`, `Duplicates`, `IdempotencyGateway` | replay protection |
| `Ledger`, `FinanceService`, `EscrowSettlement`, `Payments`, `FinanceRepository` | money |
| `SlidingWindow`, `FixedWindow`, `GapLimiter`, `TokenBuckets`, `Visitors`, `VisitorBuckets` | admission control |
| `LruCache` | the in-memory cache |
| `Progression`, `ProgressionAccounts`, `Streaks`, `Awards`, `Quests`, `GrowthRepository` | the progression engine |
| `Marketplace`, `Sales`, `MarketplaceRepository`, `MarketplaceService` | orders and stock |
| `Feed`, `FeedCursors` | pagination and the hot cache |
| `RefreshTokens` | token rotation |
| `Registry`, `Hub` | the realtime hub |
| `AuditChain` | the audit chain |

## What the code does not promise

Where an expected property is false of the code, the model follows the code, a lemma
gives the failing run, and another says when the property holds.

- The idempotency handler does not look the stored response up again under the lock, so
  a mutation can run twice without any expiry (`HandlerCanRunTwice`). Once a response is
  stored it can still run again, in whatever continuation, exactly while some request is
  between its lookup and the end of the handler (`NeverRunsAgainExactlyWhen`).
- The fixed window drops the fraction of a second from the window. Twice the limit per
  interval holds exactly for windows of at least a second that are whole seconds or have
  a limit of one (`TwiceTheLimitExactly`).
- A sweep of idle visitors can be observed even if three minutes refill a bucket, exactly
  when it falls between a request's lookup of an idle bucket and its spend
  (`SweepUnobservableExactlyWhen`).
- A stock of 0 means unlimited, so a product can be oversold; `OversoldExactlyWhen`
  says when. An order that repeats a product never commits, because of the primary key
  of `order_items` (`CommitsExactlyWhen`).
- With pages of 100 or more, a feed of more than 100 items ends after its first hundred
  (`LargePagesLoseTheRest`). An id at the end of a page that is empty or has occurred
  before breaks the cursors; elsewhere it is harmless (`EachOnceExactlyWhen`). Pages of an
  older feed stay cached under their cursors; `SessionsFollowExactlyWhen` says when that
  shows.
- A refresh token has a second name, `v2:` and its digest. Presented as a token it
  validates and rotates, and takes the live token with it (`AliasTakesTheToken`). It is
  the only such string, and a token not yet presented stands exactly until it is used
  (`StandsUnlessTakenByAlias`).
- A rotation with a lifetime below a second deletes the old token and sets no new one
  (`RotationMoves`); a token in both namespaces survives a rotation
  (`DiesUnlessInBoth`).
- The streak columns follow the calendar exactly when server and database agree on the
  date of every event that is applied (`AlwaysFollowsExactlyWhen`).
- Quest progress goes by dates alone: once a daily quest has a row for the first day of a
  week, the other days of that week count towards it too (`RowsSayHits`).
- The audit root does not bind the number of leaves (`LengthIsNotBound`), and a user id
  with a colon can stand for another user's action (`SameTextExactlyWhen`).

## Model

| member | source | states |
|---|---|---|
| `Idempotency.AlwaysInv` | backend/internal/core/middleware/idempotency.go:70-141 | over every interleaving of any number of requests, with crashes, lost answers and expiries: every request at work whose lock has not expired has its own token in the lock, and every stored response was produced by a recorded handler run for that resource and body hash |
| `Idempotency.OverlapNeedsExpiry` | backend/internal/core/middleware/idempotency.go:106-140 | two requests for one resource are at work at once only if the lock of one of them has expired meanwhile |
| `Idempotency.MutualExclusion` | backend/internal/core/middleware/idempotency.go:106-140 | in a run in which no lock expires, two requests for one resource that are both in the handler are the same request |
| `Idempotency.ReleaseOnlyOwnLock` | backend/internal/core/middleware/idempotency.go:23-28 | whatever has expired, a release leaves every lock in place that another request still holds |
| `Idempotency.ResourceTextInjective` | backend/internal/core/middleware/idempotency.go:73 | the text that is hashed pins down user, method, path and key, whatever the path contains |
| `Idempotency.ReplayIsOfSameRequest` | backend/internal/core/middleware/idempotency.go:70-98 | a replayed response is one that the handler run of another request returned, for the same user, method, path, key and body; the only way out is a collision of the digest |
| `Idempotency.DuplicateLookedUpBeforeStore` | backend/internal/core/middleware/idempotency.go:78-104 | a request on its way to the handler, or in it, while a response for its resource is stored made its lookup before that response was stored |
| `Duplicates.NeverRunsAgainExactlyWhen` | backend/internal/core/middleware/idempotency.go:78-126 | from any state with a response stored: in every continuation in which that response does not expire the number of executions for the resource stays what it is, exactly when no request for it is past its lookup and not yet through the handler |
| `Duplicates.AtMostPendingRunAgain` | backend/internal/core/middleware/idempotency.go:78-140 | from any state with a response stored, in every such continuation: the executions for the resource plus the requests still between lookup and end of the handler never grow |
| `Idempotency.HandlerCanRunTwice` | backend/internal/core/middleware/idempotency.go:78-140 | at-most-once execution fails: for every guarded request and storable outcome there is a run without any expiry in which two duplicates both run the handler to the end |
| `Replays.AnsweredByLastStore` | backend/internal/core/middleware/idempotency.go:78-104 | on every run: a guarded request whose lookup follows an applied store of a response for its resource that has not expired since ends with exactly that response, which the handler of the request that stored it returned, if the bodies have one digest, and is refused as a reuse of the key if not; without such a store it goes on to take the lock |
| `Replays.LookUpAnswers` | backend/internal/core/middleware/idempotency.go:46-104 | what a lookup leads to in every case: passed through, key or user refused, Redis down, answered by the last store, or on to the lock |
| `Replays.LastStoreIsReturned` | backend/internal/core/middleware/idempotency.go:126-140 | the last store holds what the handler of a request of the run, with that resource and body digest, returned without error |
| `Replays.HandlerExactlyWhenNoLockStands` | backend/internal/core/middleware/idempotency.go:106-120 | an answered attempt at the lock leads to the handler exactly when no lock stands that was taken and has neither expired nor been released by its holder; otherwise the request is told it is in progress |
| `Replays.ToldWhatTheHandlerDid` | backend/internal/core/middleware/idempotency.go:122-141 | a request that went through the handler is told what its own handler did |
| `IdempotencyGateway.Gateway.LookUpResponse` | backend/internal/core/middleware/idempotency.go:46-104 | the checks and the GET, in place on the request and the keys, are the LookUp step of the protocol |
| `IdempotencyGateway.Gateway.AcquireLock` | backend/internal/core/middleware/idempotency.go:106-120 | SETNX, with an answer, without effect, or with its answer lost, is the TakeLock step |
| `IdempotencyGateway.Gateway.StoreResponse` | backend/internal/core/middleware/idempotency.go:129-139 | storing the response, when there is one worth keeping, is the Store step |
| `IdempotencyGateway.Gateway.ReleaseLock` | backend/internal/core/middleware/idempotency.go:122-124 | the deferred release script is the Release step |
| `Ledger.TransferConserves` | backend/internal/modules/finance/infra/postgres_repository.go:135-169 | a transfer keeps every account, the total and solvency, also when sender and receiver strings name one wallet |
| `Ledger.HoldConserves` | backend/internal/modules/finance/infra/postgres_repository.go:208-232 | a hold moves money from the wallet into the escrow and keeps every account and the total |
| `Ledger.ReleaseConserves` | backend/internal/modules/finance/infra/postgres_repository.go:302-337 | a release keeps every account, the total and solvency |
| `Ledger.RefundConserves` | backend/internal/modules/finance/infra/postgres_repository.go:357-392 | a refund keeps every account, the total and solvency, with its own ledger row not counted |
| `Ledger.TransferPaysExactlyWhen` | backend/internal/modules/finance/infra/postgres_repository.go:135-169 | a transfer succeeds exactly when the payer holds the amount and the payee has room for it; then the payer has it less and the payee more, every other wallet is as it was, and one row names payer, payee, amount and kind |
| `Ledger.HoldHoldsExactlyWhen` | backend/internal/modules/finance/infra/postgres_repository.go:208-232 | a hold succeeds exactly when the buyer holds the amount, both are users and the id is new; then the buyer has it less and one held escrow of that amount stands between the two |
| `Ledger.SettlesExactlyWhen` | backend/internal/modules/finance/infra/postgres_repository.go:302-392 | a settlement succeeds exactly when the escrow is held and the wallet to be paid has room; then that wallet has the amount more, only this escrow has changed its status, and one row says so |
| `FinanceService.CommitIsAtomic` | backend/internal/modules/finance/infra/postgres_repository.go:129-176 | a transaction that has run all its statements, interleaved with others under row locks, commits exactly the effect it would have had alone at that moment |
| `FinanceService.Serializable` | backend/internal/modules/finance/service/finance_service.go:20-113 | whatever the interleaving of checks, statements, aborts and commits, the tables are what the committed transactions give one at a time in commit order; aborted ones leave no trace |
| `FinanceService.Reconciles` | backend/internal/modules/finance/infra/postgres_repository.go:110-340 | on every run, for each user: wallet + held escrows as buyer = initial balance + received - sent over the ledger (refund rows aside); wallets + held escrows is constant; no balance is negative |
| `Payments.AppliedOnceAsAsked` | backend/internal/modules/finance/service/finance_service.go:20-113 | on every interleaved run a request that has gone through changed the tables at exactly one moment, and in just the way its own words ask: who pays whom how much in one ledger row, an escrow of that buyer, seller and amount paid by the buyer, or the payout of that escrow; the caller is told of success unless the answer was lost |
| `Payments.OnlyAppliedRequestsWrite` | backend/internal/modules/finance/service/finance_service.go:20-113 | whenever the tables change on a run, it is the commit of a request that has gone through, doing what that request asks |
| `Payments.SuccessIsApplied` | backend/internal/modules/finance/service/finance_service.go:20-113 | a caller that is told of success has had what it asked for |
| `Payments.GoesThroughExactlyWhen` | backend/internal/modules/finance/service/finance_service.go:20-113 | with no row locked by others, a request goes through exactly under conditions on its words and the tables, written out for payments, holds and settlements; then the tables change as it asked, otherwise not at all, and no lock stays |
| `EscrowSettlement.EscrowOnlySettles` | backend/internal/modules/finance/infra/postgres_repository.go:302-363 | no step of any run changes an escrow except from held to released or from held to refunded |
| `EscrowSettlement.PaidOutExactlyOnce` | backend/internal/modules/finance/infra/postgres_repository.go:287-395 | the ledger has no payout of a held escrow, exactly one to the seller of a released one, exactly one to the buyer of a refunded one, each of the full amount |
| `EscrowSettlement.AlwaysAuthorized` | backend/internal/modules/finance/service/finance_service.go:87-113 | every request past the service check was made by the party that may make it, although check and update are separate steps of racing requests |
| `EscrowSettlement.SettledOnceByRightParty` | backend/internal/modules/finance/service/finance_service.go:87-113 | a settled escrow has been settled by exactly one request: a release by the buyer or a refund by the seller; a held one by none |
| `FinanceRepository.PostgresFinanceRepository.Transfer` | backend/internal/modules/finance/infra/postgres_repository.go:110-176 | either the whole transfer or nothing, for a fault at any statement; the answer is true only when it committed and the commit was answered |
| `FinanceRepository.PostgresFinanceRepository.CreateEscrow` | backend/internal/modules/finance/infra/postgres_repository.go:178-243 | either the whole hold or nothing, for a fault at any statement; amounts beyond 32 bits are refused before, buyers and sellers who are no users by the insert |
| `FinanceRepository.PostgresFinanceRepository.ReleaseEscrow` | backend/internal/modules/finance/infra/postgres_repository.go:287-340 | either the whole release or nothing, for a fault at any statement |
| `FinanceRepository.PostgresFinanceRepository.RefundEscrow` | backend/internal/modules/finance/infra/postgres_repository.go:342-395 | either the whole refund or nothing, for a fault at any statement |
| `Admission.SlidingBound` | backend/internal/core/middleware/rate_limit_redis.go:19-27 | if every admission found fewer than the limit in the window that ends at it, then no window anywhere holds more than the limit |
| `SlidingWindow.SetIsHistory` | backend/internal/core/middleware/rate_limit_redis.go:19-23 | after any history, also across expiry of the whole key, the pruned set is exactly the members and times of the admissions that still count |
| `SlidingWindow.BlockedExactlyWhenFull` | backend/internal/core/middleware/rate_limit_redis.go:19-27 | a request is blocked exactly when `limit` admissions lie in (now - window, now], and the reply counts them |
| `SlidingWindow.WindowBound` | backend/internal/core/middleware/rate_limit_redis.go:13-28 | no half-open interval of the window's length ever holds more than `limit` admissions |
| `SlidingWindow.RedisKey.Eval` | backend/internal/core/middleware/rate_limit_redis.go:13-28 | the script on the key, command by command, is the step the theorems speak of |
| `GapLimiter.BucketIsChain` | backend/internal/modules/ai/service/ai_service.go:83-107 | count and last-accepted time are the length and end of the last chain of admissions without a gap, and decide the next call |
| `GapLimiter.AtMostRatePerWindow` | backend/internal/modules/ai/service/ai_service.go:83-107 | no closed interval of the window's length ever holds more than max(1, rate) admissions |
| `GapLimiter.RateLimiter.Allow` | backend/internal/modules/ai/service/ai_service.go:83-107 | one call moves the caller's bucket by one step and touches nobody else's |
| `FixedWindow.WindowBound` | backend/internal/core/security/auth.go:24-30 | of all calls in one window, counted from the call that opened it, at most `limit` are admitted |
| `FixedWindow.IntervalBound` | backend/internal/core/security/auth.go:230-244 | in any interval of the configured length at most 2 limit admissions for whole seconds, at most 3 limit - 1 otherwise |
| `FixedWindow.ThreeWindows` | backend/internal/core/security/auth.go:235 | the bound is reached: for every window with a fraction of a second a run with 3 limit - 1 admissions in one interval of its length |
| `FixedWindow.TwoWindows` | backend/internal/core/security/auth.go:24-30 | the bound is reached: for every window of whole seconds a run with 2 limit admissions in one interval of its length |
| `FixedWindow.TwiceTheLimitExactly` | backend/internal/core/security/auth.go:230-244 | the bound of 2 limit per interval holds exactly for windows of at least a second that are whole seconds or have a limit of one |
| `FixedWindow.CounterKey.RateLimitCheck` | backend/internal/core/security/auth.go:230-244 | invalid requests are errors that leave the counter alone; a valid one runs the script and is admitted exactly when its count is within the limit |
| `TokenBuckets.Budget` | backend/internal/core/middleware/security.go:62-76 | tokens left plus admissions since s never exceed the capacity plus rate times the seconds since s |
| `TokenBuckets.AdmissionBound` | backend/internal/core/middleware/security.go:62-76 | in any interval [s, t] at most capacity + rate * (t - s) admissions, the interval in seconds |
| `TokenBuckets.AdmittedExactlyWhen` | backend/internal/core/middleware/security.go:62-76 | on every run a call is admitted exactly when, counting it, the calls admitted since each earlier call stay within the capacity plus rate times the seconds since that call, and all of them within what the bucket started with |
| `TokenBuckets.TokensStayNonNegative` | backend/internal/core/middleware/security.go:62-76 | tokens stay between 0 and capacity and the refill time is that of the last call |
| `Visitors.SweepUnobservableExactlyWhen` | backend/internal/core/middleware/security.go:36-76 | with rate * 180 s >= capacity, after any run whatever: a sweep is unobservable by all requests that may follow exactly when it drops no bucket a waiting request has looked up (or a bucket is too small to admit anything) |
| `Visitors.SweepShows` | backend/internal/core/middleware/security.go:36-76 | otherwise these requests tell: the waiting one spends, and as many calls as a full bucket admits follow at once |
| `Visitors.EvictionUnobservable` | backend/internal/core/middleware/security.go:36-60 | with rate * 180 s >= capacity, over a run with any number of sweeps that drop no such bucket, every reply is the one without any sweep |
| `Visitors.SweepBetweenLookupAndSpend` | backend/internal/core/middleware/security.go:36-76 | an instance: one token a second, a bucket idle for 200 seconds looked up and not yet spent, and a sweep that shows |
| `VisitorBuckets.RepliesExactlyWhen` | backend/internal/core/middleware/security.go:51-76 | while the janitor has not run, a request that has looked its visitor up is admitted exactly when one more token can be had from the one bucket of that visitor, full when the visitor was first seen |
| `Visitors.TokenBucket.Allow` | backend/internal/core/middleware/security.go:62-76 | refill by rate times the seconds passed, cap, and spend if there is a whole token, in place; the arithmetic is written out and is the bucket's step and reply |
| `Visitors.RateLimiter.GetVisitor` | backend/internal/core/middleware/security.go:51-60 | returns the visitor's bucket or files a full new one, and touches no other |
| `Visitors.RateLimiter.Cleanup` | backend/internal/core/middleware/security.go:36-49 | the loop drops exactly the buckets idle for more than three minutes |
| `LruCache.KeysAreHistory` | backend/internal/core/util/lru_cache.go:29-68 | after any Gets, Puts and Clears the list's keys are the first `capacity` distinct keys of the reversed history of Puts and hitting Gets (a capacity below one acts as one) |
| `LruCache.ValuesAreLastPut` | backend/internal/core/util/lru_cache.go:42-59 | every cached value is the last one put under its key |
| `LruCache.LRUCache.Get` | backend/internal/core/util/lru_cache.go:29-40 | a hit moves the element to the front and returns its value, a miss changes nothing; map and list stay in one-to-one agreement |
| `LruCache.LRUCache.Put` | backend/internal/core/util/lru_cache.go:42-59 | overwrites and moves to the front, or evicts the oldest and inserts; map and list stay in one-to-one agreement |
| `LruCache.LRUCache.RemoveOldest` | backend/internal/core/util/lru_cache.go:61-68 | takes the last element off the list and its key, and no other, off the map |
| `LruCache.LRUCache.Clear` | backend/internal/core/util/lru_cache.go:70-75 | empties map and list |
| `Progression.LevelCurve` | backend/internal/modules/growth/infra/postgres_repository.go:409-410 | the stored level exceeds L exactly when XP has reached the threshold shown for L; each level covers 100 (L-1)^2 <= xp < 100 L^2 |
| `Progression.AwardBounds` | backend/internal/modules/growth/infra/postgres_repository.go:175-181 | an award lies between base and 4 base + 20, its multiplier between 1 and 4, its bonus between 0 and 20 |
| `Progression.LevelIsRoot` | backend/internal/modules/growth/infra/postgres_repository.go:409-410 | level L is from 100 (L-1)^2 up to, and not including, 100 L^2 points |
| `ProgressionAccounts.AlwaysAccounted` | backend/internal/modules/growth/infra/postgres_repository.go:128-301 | on every run: XP = awards of distinct (action, source) events + rewards of distinct claimed quest periods + rewards of distinct unlocked achievements; reputation likewise; each season's score = awards made in it; level = level of the XP |
| `ProgressionAccounts.AlwaysBounded` | backend/internal/modules/growth/infra/postgres_repository.go:133-181 | every award ever recorded is for a supported action and lies between its base and 4 base + 20 |
| `ProgressionAccounts.LevelFitsXp` | backend/internal/modules/growth/infra/postgres_repository.go:181-193 | level L and XP satisfy 100 (L-1)^2 <= xp < 100 L^2 exactly when XP is not negative, which holds unless some reward takes XP away |
| `ProgressionAccounts.UnlockAllAccounts` | backend/internal/modules/growth/infra/postgres_repository.go:388-405 | unlocking any achievements adds exactly their rewards and moves the level with the XP |
| `ProgressionAccounts.MatchesAreNew` | backend/internal/modules/growth/infra/postgres_repository.go:369-384 | the query returns achievements that are not unlocked yet, each once |
| `ProgressionAccounts.MarkClaimedPays` | backend/internal/modules/growth/infra/postgres_repository.go:288-298 | claiming marks one unclaimed row, whose reward is then accounted for once |
| `Awards.AlwaysDue` | backend/internal/modules/growth/infra/postgres_repository.go:133-181 | on every run every recorded event was awarded, beside its bonus, its action's base times 1.0 plus a tenth for each event before it in the chain of events within 300 seconds of each other that it ends, at most 2.0, doubled under a boost, rounded half up |
| `Awards.BaseIsWorth` | backend/internal/modules/growth/infra/postgres_repository.go:133-139 | the twelve supported actions are worth their points, all others are refused |
| `Awards.CallNotes` | backend/internal/modules/growth/infra/postgres_repository.go:142-147 | a call that applies leaves one row with its action, source, season, day and time; any other call leaves none |
| `Awards.ShieldsAreMilestones` | backend/internal/modules/growth/infra/postgres_repository.go:239-245 | on every run a user has one shield plus one for each event that took the streak up to 7 or 30 days, at most three |
| `Quests.RowsSayHits` | backend/internal/modules/growth/infra/postgres_repository.go:207-301 | on every run a quest has a row for a period exactly when recorded events count towards it, the row's progress is their number up to the target, and it is claimed exactly when a claim was committed after the target had been reached |
| `Quests.UnlockedExactlyWhenEarned` | backend/internal/modules/growth/infra/postgres_repository.go:368-406 | on every run the unlocked achievements are exactly those that some recorded event earned, by the count of its action, the streak or the level it led to |
| `Streaks.StreaksFollowCalendar` | backend/internal/modules/growth/infra/postgres_repository.go:166-193 | on nondecreasing days, with the dates of server and database agreeing whenever an event is applied: the current streak is the length of the maximal block of active days ending at the last active day, the longest is the maximum over all blocks, and each block's last day was paid min(length, 20) once |
| `Streaks.RecordFollowsExactlyWhen` | backend/internal/modules/growth/infra/postgres_repository.go:166-193 | a new event leaves the columns true to the calendar exactly when server and database agree on the date, whichever is ahead |
| `Streaks.AlwaysFollowsExactlyWhen` | backend/internal/modules/growth/infra/postgres_repository.go:166-193 | the columns are true to the calendar after every call of a run exactly when the dates agree whenever an event is applied |
| `Streaks.PaidExactlyOnce` | backend/internal/modules/growth/infra/postgres_repository.go:179-181 | every active day was paid the streak bonus exactly once, min(length of its block, 20) |
| `Streaks.DatesMustAgree` | backend/internal/modules/growth/infra/postgres_repository.go:166-190 | an instance: with the database a day behind, two events of one day make a streak of two and are both paid |
| `GrowthRepository.PostgresGrowthRepository.Compute` | backend/internal/modules/growth/infra/postgres_repository.go:166-183 | the branches that compute streak, combo, multiplier, bonus and award give the specified profile, award and bonus |
| `GrowthRepository.PostgresGrowthRepository.UnlockAchievements` | backend/internal/modules/growth/infra/postgres_repository.go:388-406 | the loop applies exactly the found achievements, or fails at the statement the database fails at |
| `GrowthRepository.PostgresGrowthRepository.Work` | backend/internal/modules/growth/infra/postgres_repository.go:128-245 | the statements on the working copy give exactly the specified transaction, or nothing when refused or failing |
| `GrowthRepository.PostgresGrowthRepository.RecordEvent` | backend/internal/modules/growth/infra/postgres_repository.go:128-254 | either the whole event or nothing, for a fault at any statement |
| `GrowthRepository.PostgresGrowthRepository.ClaimQuest` | backend/internal/modules/growth/infra/postgres_repository.go:274-301 | either the whole claim or nothing; refused when inactive, claimed or incomplete |
| `Marketplace.ReserveSums` | backend/internal/modules/marketplace/infra/postgres_repository.go:135-166 | also with repeated products: the total is the sum of price times quantity over items and over lines and fits 32 bits, no stock becomes negative, prices stay |
| `Marketplace.KeysAreRepeats` | backend/db/migrations/20260917_marketplace_contract.sql:45-51 | the primary key of the order lines is met exactly when no product is repeated, however its id is spelled |
| `Marketplace.CommitsExactlyWhen` | backend/internal/modules/marketplace/infra/postgres_repository.go:99-187 | an order commits exactly when buyer and items exist, no product is repeated, every item could be ordered alone, and the sum fits 32 bits |
| `Marketplace.CommittedOrder` | backend/internal/modules/marketplace/infra/postgres_repository.go:146-181 | a committed order is the buyer's, has line by line the items at the table's prices, totals the sum of price times quantity, took its units from every limited stock and changed nothing else |
| `Marketplace.OneItem` | backend/internal/modules/marketplace/infra/postgres_repository.go:99-187 | an order of one item in full: exactly when it commits, that it costs price times quantity, and the stock it leaves |
| `Sales.AlwaysSound` | backend/internal/modules/marketplace/infra/postgres_repository.go:99-202 | over any orders: stocks and prices stay non-negative, only stocks change, every order's total is the sum over its lines within 32 bits |
| `Sales.StockIsConserved` | backend/internal/modules/marketplace/infra/postgres_repository.go:146-154 | units sold + units left = initial stock, until something is taken from an empty stock; then more was sold than there was, and the stock stays 0 |
| `Sales.OversoldExactlyWhen` | backend/internal/modules/marketplace/infra/postgres_repository.go:146-154 | more is sold than there was exactly when some order takes the product after its stock has reached 0 |
| `Sales.LastUnitSoldTwice` | backend/internal/modules/marketplace/infra/postgres_repository.go:148-149 | a concrete run that sells one unit twice |
| `MarketplaceRepository.PostgresMarketplaceRepository.ReserveOne` | backend/internal/modules/marketplace/infra/postgres_repository.go:135-166 | one turn of the loop in 32- and 64-bit arithmetic, without wrap, is the reservation of one item and adds price times quantity to the total |
| `MarketplaceRepository.PostgresMarketplaceRepository.ReserveStock` | backend/internal/modules/marketplace/infra/postgres_repository.go:126-167 | the loop reserves all items in order, or stops at the first refused one or at a fault |
| `MarketplaceRepository.PostgresMarketplaceRepository.InsertLines` | backend/internal/modules/marketplace/infra/postgres_repository.go:178-184 | the lines are inserted exactly when their keys are unique |
| `MarketplaceRepository.PostgresMarketplaceRepository.FillIn` | backend/internal/modules/marketplace/infra/postgres_repository.go:195-200 | the table's price per item, and as subtotal price times quantity, in 32 bits without wrap |
| `MarketplaceRepository.PostgresMarketplaceRepository.CreateOrder` | backend/internal/modules/marketplace/infra/postgres_repository.go:99-202 | either the whole order or nothing, for a fault at any statement; the receipt shows the sum and per item the table's price and price times quantity |
| `MarketplaceService.MarketplaceService.CheckOne` | backend/internal/modules/marketplace/service/marketplace_service.go:80-99 | the check of one item passes exactly when it could be ordered alone and the running total fits 32 bits; total and subtotal do not wrap |
| `MarketplaceService.MarketplaceService.Purchase` | backend/internal/modules/marketplace/service/marketplace_service.go:71-118 | with nothing happening in between, the check in advance turns away no order that would have committed, and the outcome is CreateOrder's |
| `Feed.PageAt` | backend/internal/core/feeds/editor.go:254-280 | at a cursor that marks its position the page is the next `limit` items, and its cursor is where it ends |
| `FeedCursors.PagesAreTheList` | backend/internal/core/feeds/editor.go:254-280 | for distinct non-empty ids, following the cursors from the empty one ends after as many pages as it takes, and the pages concatenated are the list |
| `FeedCursors.EachOnceExactlyWhen` | backend/internal/core/feeds/editor.go:254-280 | for every list: following the cursors ends having shown every item once, in order, exactly when the id at the end of every page but the last is not empty and no earlier item has it |
| `FeedCursors.ReadsLikeListExactlyWhen` | backend/internal/core/feeds/editor.go:254-280 | when every item has an id, the same is the exact condition for it to end with pages that read like the list |
| `FeedCursors.EmptyIdHidesALoop` | backend/internal/core/feeds/editor.go:260-278 | with an empty id the pages can read like the list by accident, although items were shown twice and others never |
| `FeedCursors.RepeatedIdLoops` | backend/internal/core/feeds/editor.go:260-267 | an instance: a list with a repeated id whose cursors go round for ever |
| `Feed.HotKeyInjective` | backend/internal/core/feeds/editor.go:157 | cache keys of users without a colon never meet |
| `Feed.SessionReceives` | backend/internal/core/feeds/editor.go:149-178 | if page ends are marked and what is still cached there has the same page: among any other requests, evictions and rankings for others, a client has after n requests exactly its first n pages, or has ended with the list or with its first hundred items |
| `Feed.SessionsFollowExactlyWhen` | backend/internal/core/feeds/editor.go:149-211 | for a feed whose page ends are marked, whatever the engine holds from before: every session follows the cursors to exactly the feed if and only if the feed has at most 100 items or pages are smaller than 100, and what is still cached under the cursors at its page ends has the same page there |
| `Feed.FollowingTheCursors` | backend/internal/core/feeds/editor.go:149-211 | under those conditions the client ends after as many requests as pages and has received exactly the feed |
| `Feed.LargePagesLoseTheRest` | backend/internal/core/feeds/editor.go:207-211 | otherwise the first page is the first 100 items and there is no next one |
| `Feed.OldPageIsServed` | backend/internal/core/feeds/editor.go:157-161 | the failing case: a page of an older feed cached under the client's next cursor is served although the feed has been ranked anew |
| `Feed.FeedEngine.Paginate` | backend/internal/core/feeds/editor.go:254-280 | the loop and the slicing compute the specified page and cursor |
| `Feed.FeedEngine.GetFeed` | backend/internal/core/feeds/editor.go:149-178 | answers from the hot cache, else from Redis and keeps the list, else empty |
| `Feed.FeedEngine.StoreRanked` | backend/internal/core/feeds/editor.go:201-211 | stores the whole list in Redis and the first hundred items in the cache |
| `RefreshTokens.NamespacesMeet` | backend/internal/core/security/refresh_rotation.go:31-38 | a string names a token's entry of the new namespace by its old key exactly when it is "v2:" and the token's digest |
| `RefreshTokens.NamespacesApart` | backend/internal/core/security/auth.go:79-85 | tokens of the generated alphabet are no such string |
| `RefreshTokens.RotationMoves` | backend/internal/core/security/refresh_rotation.go:15-66 | whatever is presented: a rotation succeeds exactly when the string validates and the new lifetime is at least a second; then the new token stands for the user, the string is dead, no other key has changed; below a second the token is lost |
| `RefreshTokens.RotationCounts` | backend/internal/core/security/refresh_rotation.go:15-29 | every user's number of live tokens is unchanged exactly when the new lifetime is at least a second |
| `RefreshTokens.DiesUnlessInBoth` | backend/internal/core/security/refresh_rotation.go:15-29 | whatever is presented is dead after a rotation exactly when it was not alive in both namespaces |
| `RefreshTokens.BothNamespacesRotateTwice` | backend/internal/core/security/refresh_rotation.go:16-27 | a token alive in both namespaces still validates after its first rotation |
| `RefreshTokens.RotatedAtMostOnce` | backend/internal/core/security/refresh_rotation.go:47-66 | for any string and any interleaving of rotations of anything a client presents: its entries are never changed, only deleted; exactly one rotation of it succeeds if the first came while it was alive with a lifetime of a second or more, none otherwise; from the first on it is dead |
| `RefreshTokens.NeverValidatesAgain` | backend/internal/core/security/refresh_rotation.go:68-81 | a string presented for rotation never validates again |
| `RefreshTokens.StandsUnlessTakenByAlias` | backend/internal/core/security/refresh_rotation.go:15-29 | until a generated token is itself presented it stands as it was exactly when no rotation has found it by its alias, "v2:" and its digest |
| `RefreshTokens.StoredTokenValidates` | backend/internal/core/security/refresh_rotation.go:40-81 | a stored token validates as the user it was stored for until it expires, and not after |
| `RefreshTokens.StoredTokenStands` | backend/internal/core/security/refresh_rotation.go:40-81 | and so it does after any run in which it is not presented for rotation nor found by its alias |
| `RefreshTokens.AliasTakesTheToken` | backend/internal/core/security/refresh_rotation.go:52-56 | the alias validates and rotates as the user, and the live token, never presented, is dead |
| `RefreshTokens.NoRotationSucceeds` | backend/internal/core/security/refresh_rotation.go:47-66 | so for every live token there is a run in which it was alive at the start and no rotation of it succeeds |
| `RefreshTokens.RefreshTokenStore.StoreRefreshToken` | backend/internal/core/security/refresh_rotation.go:40-45 | stores under the digest key, or refuses invalid input |
| `RefreshTokens.RefreshTokenStore.RunScript` | backend/internal/core/security/refresh_rotation.go:15-29 | the commands of the script, including the failing SET, are the specified step |
| `RefreshTokens.RefreshTokenStore.RotateRefreshToken` | backend/internal/core/security/refresh_rotation.go:47-66 | checks, script and the reading of its reply are the specified rotation |
| `RefreshTokens.RefreshTokenStore.ValidateRefreshToken` | backend/internal/core/security/refresh_rotation.go:68-81 | looks in the new namespace first, then in the old |
| `Registry.RemovesOne` | backend/internal/core/realtime/websocket.go:96-105 | removal deletes exactly one occurrence of the client and nothing else |
| `Registry.ClientsAreStanding` | backend/internal/core/realtime/websocket.go:73-121 | if every client registers once, the hub knows at every moment exactly the clients registered and not unregistered or stopped since, in order of registration |
| `Registry.FnvTestValues` | backend/internal/core/realtime/websocket.go:64-71 | the hash agrees with the published FNV-1a values for the empty string, for "a" and for "foobar" byte by byte, whose shard is 8 |
| `Registry.ShardIndex` | backend/internal/core/realtime/websocket.go:70 | the shard is the hash modulo 32 |
| `Hub.Hub.GetShard` | backend/internal/core/realtime/websocket.go:64-71 | the loop computes the shard of the user |
| `Hub.Hub.Append` | backend/internal/core/realtime/websocket.go:83 | append writes in place while there is room and otherwise into a new array |
| `Hub.Hub.CutOut` | backend/internal/core/realtime/websocket.go:98 | the in-place cut shifts the rest down by one and keeps order |
| `Hub.Hub.Register` | backend/internal/core/realtime/websocket.go:78-87 | adds the client to its user's list and leaves every other list alone; users stay in their own shard, lists non-empty, arrays unshared |
| `Hub.Hub.Unregister` | backend/internal/core/realtime/websocket.go:89-108 | removes one occurrence from its user's list, drops an empty list, leaves every other list alone |
| `Hub.Hub.Stop` | backend/internal/core/realtime/websocket.go:243-255 | empties all 32 shards |
| `Hub.Hub.Snapshot` | backend/internal/core/realtime/websocket.go:214-217 | the delivery's copy is a fresh array holding the user's clients |
| `Hub.Hub.LocalDelivery` | backend/internal/core/realtime/websocket.go:205-222 | a delivery before each write of which any registrations, removals and stops happen still reaches everyone who was there when it began, in order, and nobody else |
| `Hub.Run` | backend/internal/core/realtime/websocket.go:73-110 | through any sequence of events the 32 shards hold for every user the registry's list |
| `AuditChain.SameRoot` | backend/internal/core/audit/merkle_audit.go:40-53 | two non-empty lists with one root: a collision is exhibited, or the shorter is the longer with its first leaves folded into their root |
| `AuditChain.FoldedHasSameRoot` | backend/internal/core/audit/merkle_audit.go:40-53 | and conversely folding the first leaves keeps the root |
| `AuditChain.RootBindsLeaves` | backend/internal/core/audit/merkle_audit.go:33-53 | two lists of equal length with one root are equal, or a collision is exhibited |
| `AuditChain.LengthIsNotBound` | backend/internal/core/audit/merkle_audit.go:40-48 | lists of different length can share a root |
| `AuditChain.RootBindsHistory` | backend/internal/core/audit/merkle_audit.go:23-53 | two histories of (user, action) of equal length with one root agree action by action, up to one user id reading on past a colon into the other's action, or a collision is exhibited |
| `AuditChain.AlikeHaveOneRoot` | backend/internal/core/audit/merkle_audit.go:23-53 | and histories that agree so have one root |
| `AuditChain.PlainAlikeAreEqual` | backend/internal/core/audit/merkle_audit.go:28 | without colons in user ids they are the same history |
| `AuditChain.SameTextExactlyWhen` | backend/internal/core/audit/merkle_audit.go:28 | two different actions have one hashed text exactly when one user id reads on, past a colon, into the other's action |
| `AuditChain.ColonConfuses` | backend/internal/core/audit/merkle_audit.go:28 | a user id with a colon can stand for another user's action |
| `AuditChain.MerkleAuditTree.Append` | backend/internal/core/audit/merkle_audit.go:44 | append writes into the backing array only while there is room |
| `AuditChain.MerkleAuditTree.AppendPrivacyAction` | backend/internal/core/audit/merkle_audit.go:23-30 | adds one leaf in an array of its own and leaves the others as they are |
| `AuditChain.MerkleAuditTree.GetRootHash` | backend/internal/core/audit/merkle_audit.go:33-53 | the loop computes the root of all leaves and alters none of them |

## Left out

- HTTP, Fiber, NATS, S3, push, search and analytics clients, JSON encoding, logging and tracing: they are I/O or library code.
- SHA-256, base64, UUID text, random tokens and ids: parameters or inputs, with freshness required where a property needs it.
- Idempotency: a request passed through untouched is not followed further; locks and stored responses are two maps by resource digest, as their key texts differ only by a suffix; header trimming is applied before the model starts.
- Idempotency: stored responses that are not valid JSON count as ones without a request hash.
- Finance concurrency is modelled with row locks held to the commit; deadlocks are aborts, at any statement.
- Finance: `escrow_refund` rows are not counted in the ledger equation, because they name the seller as sender although no money left the seller's wallet.
- Finance: `UpdateEscrowStatus`, which nothing calls and which has no guard.
- Finance: nil pools and listings of wallets and transactions; the content lookup before an unlock is an input.
- Sliding window: the factor a role puts on the limit; each request carries its own limit, and the bound is by the largest.
- Token counts and refills are real numbers, combo multipliers are tenths, and the level curve uses the integer square root; floating-point rounding is not part of this model.
- LRU cache: the standard library's linked list is a sequence of element objects; the mutex makes each method one step.
- Visitors.EvictionUnobservable: no converse for slower refills, because whether a fuller bucket shows depends on the fractions of tokens left.
- Visitors.SweepUnobservableExactlyWhen: what follows the sweep are requests; runs with more sweeps are the subject of EvictionUnobservable, as a later sweep can be observed by itself.
- VisitorBuckets.RepliesExactlyWhen: runs without sweeps; EvictionUnobservable carries its replies over to runs with sweeps.
- Visitors.RateLimiter.Cleanup: one pass of the loop; the sleep between passes is the time input.
- Growth: energy, `ActivateBoost` and `ClaimStreakShield`, whose transactions never commit; a boost is an input of each call.
- Growth: calls are atomic steps, because `ClaimQuest` reads the quest row without a lock.
- Growth: achievement rows are read completely before they are applied; the order in which the query returns them is by index.
- Growth: the XP and level in the returned result, which are computed before achievements are applied.
- Growth: the day, time, season, boost and bonus kept with an event row are history for the proofs; columns are unbounded integers.
- ProgressionAccounts.AlwaysAccounted: does not model `UpdateInfluence`, which also writes the reputation and which nothing calls.
- Quests.RowsSayHits: without `ListQuests`, which adds unclaimed rows without progress; after it the rest of a week counts towards a daily row of its first day although no event came that day.
- Marketplace: orders are atomic steps, as the row locks of the stock updates are held to the commit; products are not added, edited or restocked.
- MarketplaceService.MarketplaceService.Purchase: nothing happens between the check and the order; CreateOrder's own contract does not depend on the check.
- Marketplace: names, addresses, currencies and statuses, which are stored as given.
- Feed: ranking, time decay and `injectDiversity` are an input list; the hot cache may lose any entry at any time, and its order of eviction is the LRU cache's.
- Feed.SessionsFollowExactlyWhen: during a session the user's feed is neither ranked again nor dropped from Redis, and user ids have no colon.
- Feed: `chunkFollowers`, `chunkTasks` and the buffer of `fanoutWorker`, which would only add easy members.
- RefreshTokens.RotatedAtMostOnce: a string that is in both namespaces from the start; DiesUnlessInBoth says what becomes of it. Tokens handed out later have other digests and other keys than the string followed.
- Refresh tokens: the two GETs of a validation are read at one moment; neither has an effect, and after a rotation neither key is live at any later moment.
- Hub: sockets, pings, messages and the channels; a full unregister channel only closes the connection. Stop's closing of connections is I/O.
- Hub: a client pointer is a value with an identity; the growth of a Go slice beyond its capacity is to any larger array.
- Audit: `RequestInclusionProof` returns a constant.
- Login lockout, circuit breakers, worker pool, permissions, community and content listings: not part of this model.
