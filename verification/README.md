# Avigo: a verified model of the marketplace backend

Avigo is a marketplace backend over Postgres, Redis and Kafka. This project models its stateful protocols in Dafny and
proves what they guarantee. `dafny verify dfyconfig.toml` checks everything.

There are two layers. A *protocol* is a state machine on plain values whose actions are the atomic steps the servers see
(a transaction commits, a Redis command runs, a message is appended), with crashes, lost answers and lost locks among
them; its theorems are about every reachable state of every interleaving. The *code* is the Go methods as classes with
the same branches and loops, each proved equal to a specification function of the old state. A lemma named `...IsRun` or
`...KeepsInv` then says that what the code does is a run of the protocol, so the protocol's theorems are the code's.

| files | what they model |
|---|---|
| OutboxProtocol, OutboxOrder | any number of relays over the outbox table: duplicates, order |
| OutboxRelay, OutboxRefinement, OutboxReports | `ProcessPending`, `drain` and `Run` as they execute; they refine a plain walk and the protocol; what they report and get done |
| Events, Decimal | event payloads, what JSONB may make of their text, what the worker reads back |
| Consumption, Analytics, Counters | consumer group offsets, the consumer loop, the event handler, Redis counters |
| Pipeline, WorkerRefinement, WorkerProgress | outbox, topics and worker as one system; the consumer loop is a run of it, and how far it comes |
| Market, Feed, Repositories, MarketEffects | listings, boosts and their events; the order of the feed; who may change what, and what it does |
| Marketplace | Market driving Pipeline: from a listing or boost to the counters |
| CacheKey, ListCache, ListCacheFaults, ListingService | the versioned cache of feed pages |
| Rotation, AuthService | one-time refresh tokens and their sessions |
| RateLimit | the fixed-window limiter |
| Chat, ChatService | who may write to whom; exact paging |
| Common | options, results, sequences, ascending ids, LIMIT and OFFSET |

## Assumptions

- Each Redis command or transaction pipeline, each broker append and each Postgres commit is one atomic step. What the
  network, the clock and the servers do arrives as parameters: replies, faults, times, how long a process lives, what others
  commit between two calls of the relay, and when the server ends a transaction that a call left open.
- Newly made jti values are fresh, and only tokens the service signed pass signature verification.
- Outbox rows keep their ids. Order theorems ask that a row becomes visible before a higher id is acknowledged or claimed
  for publishing, and that no claim overtakes an unacknowledged row that another open transaction still locks.
- Cache freshness is about listing writes. Boosts change the feed without invalidating; for them only the TTL bound holds.
- Database times never run backwards; the application clock is arbitrary. NOW() is the time a transaction began.

## What the proofs found

- A relay that is alone can still publish out of order, although the comments promise insertion order. Nothing in the code
  waits for the server to end a transaction: after a crash (`OutboxOrder.OrphanedLockReorders`), or after one COMMIT that is
  lost with its connection (`OutboxRefinement.LostCommitReorders`, with no crash and for every batch size), `SKIP LOCKED`
  passes over the rows that are still locked and later ones go first. A claim delivers in order if and only if no other
  transaction locks a row below its last one that was never acknowledged (`OutboxOrder.ClaimOrderExact`). `Relay.Run`
  delivers in order as long as no claim overtakes such a row (`OutboxRefinement.RelayPublishesInOrder`), in particular
  whenever no transaction outlives its call (`OutboxRefinement.TidyRelayPublishesInOrder`).
- `drain` never ends if and only if the batch size is zero, which `NewRelay` accepts, no begin, select or commit ever
  fails and the process does not die (`OutboxRelay.ZeroBatchNeverStops`).
- The limiter's "limit per window" admits `2 * limit - 1` requests within one window's length. `RateLimit.Bound` is reached
  for every limit, window and length (`RateLimit.AdmissionBound`, `RateLimit.BoundIsReached`).
- One failed version read or one lost `INCR` is enough to serve a page from before an acknowledged write
  (`ListCacheFaults.OneFaultServesStale`), but it costs no more than the call or the write it hits
  (`ListCache.FaultsStayLocal`, `ListCache.MissesExactly`), and the page is never older than the TTL bound says
  (`ListCacheFaults.BoundedStaleness`).
- Filters whose prices round to the same cents share a cache key, although the comment on the key says that results of
  different requests cannot mix (`CacheKey.SubCentPricesCollide`). Two different categories share a key if and only if the
  longer one is the shorter one followed by what reads as `:price:price:number:number`, and then nothing or another colon
  (`CacheKey.CategoriesCollideExactly`); every category has such continuations (`CacheKey.ColonCategoriesCollide`).
- `CreateActive` checks for an active boost without a lock, and two of them can both succeed
  (`Market.ConcurrentBoostsOverlap`). Boosts stay disjoint if and only if no boost is committed while another one of its
  listing is active (`Market.BoostsDisjointExactly`); a lock per listing would be enough (`Market.LockedBoostsAreDisjoint`).
  The order of the feed and the events do not need this.
- A logout ends the session if and only if none of its refreshes is in flight and its current record is the presented
  token's (`Rotation.LogoutEndsSession`).

## Model

| member | source | states |
|---|---|---|
| OutboxProtocol.DuplicateAccounting | backend/internal/outbox/store.go:39-91 | in every reachable state, with any number of relays, crashes, failed or unheard commits and locks lost mid-loop: acknowledged publishes of a row = its mark + rolled-back claims that acknowledged it + live claims that did; at most one live claim; a marked row was acknowledged; every acknowledgement has a stored copy, every copy a row |
| OutboxProtocol.ExactlyOnceWithoutRollback | backend/internal/outbox/store.go:79-90 | a row no rolled-back transaction ever held is acknowledged at most once, exactly once if marked |
| OutboxProtocol.StepKeepsInv | backend/internal/outbox/store.go:39-91 | every protocol step keeps lock disjointness, claim shape and the accounting of every row |
| OutboxProtocol.OneLiveClaim | backend/internal/outbox/store.go:46-52 | under the invariant, at most one live claim has acknowledged a given row |
| OutboxOrder.SingleRelayOrder | backend/internal/outbox/relay.go:71-86 | for every run of a relay that claims only once its last transaction is over, with crashes, restarts, failed and unheard commits and ambiguous publishes: every acknowledged publish comes after one of each visible row with a smaller id, and first deliveries come in ascending id order |
| OutboxOrder.PrefixOrder | backend/internal/outbox/store.go:46-77 | the same for any number of relays, as long as no claim is made while another transaction locks an unacknowledged row below its last one |
| OutboxOrder.FirstDeliveriesAscend | backend/internal/outbox/store.go:71-77 | first deliveries come in ascending id order in such runs |
| OutboxOrder.SkipsExactlyByLocks | backend/internal/outbox/store.go:46-52 | a claim passes over an unacknowledged row exactly when another transaction locks one below its last row |
| OutboxOrder.ClaimOrderExact | backend/internal/outbox/store.go:46-52 | a claim whose publishes all succeed keeps prefix order if and only if no other transaction locks an unacknowledged row below its last one |
| OutboxOrder.OrphanedLockReorders | backend/internal/outbox/store.go:32-38 | one relay, one crash with the lock still held at the server: a reachable run breaks prefix order |
| OutboxRelay.WalkPrefix | backend/internal/outbox/store.go:71-77 | the publish loop acknowledges a prefix of the batch, all of it exactly when nothing failed |
| OutboxRelay.PendingAfterMark | backend/internal/outbox/store.go:79-84 | marking the first n claimable rows leaves the other claimable rows, in order |
| OutboxRelay.PgStore.Enqueue | backend/internal/outbox/store.go:13-21 | one new pending row under the next id, nothing else changes |
| OutboxRelay.PgStore.PublishLoop | backend/internal/outbox/store.go:69-77 | the loop with its early stop equals the walk: acknowledged ids, broker log, first failed row |
| OutboxRelay.PgStore.ProcessPending | backend/internal/outbox/store.go:39-91 | table, broker, open transactions, count and error for each place where the call can fail, with the transaction ended or left open at the server, and for a death inside the call |
| OutboxReports.CallReports | backend/internal/outbox/store.go:65-90 | without database faults: takes the first min(limit, claimable) rows, marks and acknowledges exactly those before the first failed reply, reports their number, and no error if and only if no reply failed; otherwise the publish error of that row |
| OutboxReports.CallAdmitsFaults | backend/internal/outbox/store.go:39-90 | success is reported only if no begin, select, mark or commit failed, unheard ones included; each failure has its own error and the count zero |
| OutboxRelay.FullBatchShrinks | backend/internal/outbox/relay.go:71-86 | a call after which drain goes on marked exactly the first batchSize claimable rows and left no transaction open |
| OutboxRelay.Relay.DrainStore | backend/internal/outbox/relay.go:71-86 | for every batch size and lifetime of the process: table, broker, acknowledgements, open transactions, number of calls, and whether the loop returned, with others committing and transactions ending between its calls |
| OutboxRelay.Run | backend/internal/outbox/relay.go:52-67 | the ticking loop equals the fold of ticks and of what happens between and during its drains, up to cancellation or the end of the process, for every batch size |
| OutboxRelay.DrainRefinesWalk | backend/internal/outbox/relay.go:71-86 | draining in batches of any size leaves exactly the world that one walk over all claimable rows to the first failure leaves, with the rest claimable in order |
| OutboxRelay.DrainCalls | backend/internal/outbox/relay.go:71-86 | with P claimable rows and no failures drain is over exactly when the process lives for more than P / batchSize calls; it then made P / batchSize + 1 and left nothing to claim |
| OutboxRelay.DrainStops | backend/internal/outbox/relay.go:71-86 | with a nonzero batch size the loop is over after at most one call more than there are unpublished rows, written or still to be written, whatever fails |
| OutboxRelay.ZeroBatchNeverStops | backend/internal/outbox/relay.go:46-48 | drain goes on for ever if and only if the batch size is zero, no begin, select or commit ever fails and the process dies in no call |
| OutboxRelay.LastTickEmpties | backend/internal/outbox/relay.go:52-67 | whatever was written between ticks, the last tick of a failure-free run that the process survives publishes every row that no open transaction locks |
| OutboxReports.EveryWriteIsPublished | backend/internal/outbox/relay.go:52-86 | in a failure-free run every event written meanwhile is in the table in writing order, and marked as published after the last tick |
| OutboxReports.CancelStops | backend/internal/outbox/relay.go:60-63 | nothing after the cancellation has any effect |
| OutboxRefinement.LoopIsRun | backend/internal/outbox/store.go:69-77 | the publish loop is a sequence of protocol publishes with the same acknowledgements and stored copies |
| OutboxRefinement.ProcessIsRun | backend/internal/outbox/store.go:39-91 | a ProcessPending call, with what happened before it, is a protocol run with the same table, broker log, acknowledgements and open transactions, whatever fails, and an orderly one if its claim overtakes nothing |
| OutboxRefinement.DriveIsRun | backend/internal/outbox/relay.go:52-86 | so is Relay.Run with all its drains, faults, deaths, transactions left open and ended later, and the writes between any two calls, for every batch size |
| OutboxReports.MarkedIsAtBroker | backend/internal/outbox/store.go:79-84 | behind every relay state a marked row was acknowledged and its message is at the broker |
| OutboxRefinement.RelayPublishesInOrder | backend/internal/outbox/relay.go:52-86 | what any succession of relay processes gets acknowledged from an empty table on is in prefix order, as long as no claim overtakes an unacknowledged row that an open transaction locks |
| OutboxRefinement.TidyRelayPublishesInOrder | backend/internal/outbox/relay.go:52-86 | in particular when no transaction outlives its call, whatever else fails |
| OutboxRefinement.LostCommitReorders | backend/internal/outbox/store.go:79-90 | one relay, no crash, any batch size: a failed publish whose COMMIT is lost with the connection makes Relay.Run publish row 2 before row 1 |
| Events.RenderDecodes | backend/internal/analytics/processor.go:36-40 | every layout of a flat object of integers, with white space anywhere between tokens, reads back as its fields |
| Events.ListingEventReadable | backend/internal/listing/repository.go:66-69 | a listing.created payload, keys reordered and spaced as JSONB likes, reads back as the same ids and is counted |
| Events.BoostEventReadable | backend/internal/boost/repository.go:70-73 | the same for boost.created with its three ids |
| Events.PayloadIsLayout | backend/migrations/006_outbox.sql:4-11 | the text the repositories write is one of the layouts covered |
| Counters.Redis.TxIncr | backend/internal/storage/ratelimit.go:23-31 | INCR and EXPIRE NX as one step: a new window or one more, never a longer one; an error may hide an applied step |
| Counters.CountsUntilFirstExpiry | backend/internal/analytics/counter.go:19-33 | increments while the first TTL lasts are all counted and none prolongs it |
| Consumption.StepKeepsInv | backend/internal/kafka/consumer.go:40-66 | fetch, handle, commit and restart keep: no committed offset passes an unhandled message; handler calls <= increments + failures |
| Consumption.EventsAreHandled | backend/internal/kafka/consumer.go:36-39 | distinct events below committed offsets + increments that no call reported <= increments + reported failures |
| Analytics.Processor.Handle | backend/internal/analytics/processor.go:36-52 | counts exactly the readable events with nonzero id and user_id; which of the three errors otherwise |
| WorkerProgress.OutcomeExactly | backend/internal/analytics/processor.go:36-52 | counts exactly the countable events whose increment Redis confirmed, rejects exactly the others |
| WorkerProgress.ListingJudged | backend/internal/analytics/processor.go:36-43 | a listing event in any JSONB layout is countable if and only if both ids are nonzero, else invalid |
| WorkerProgress.BoostJudged | backend/internal/analytics/processor.go:36-43 | the same for a boost event |
| WorkerProgress.CountedExactly | backend/internal/analytics/counter.go:11-33 | one more on the day's counter of the topic, which keeps its expiry or lives ninety days if new; every other counter stays |
| WorkerProgress.KeysDiffer | backend/internal/analytics/processor.go:45 | different topics and days have different counters |
| Analytics.Consumer.Run | backend/internal/kafka/consumer.go:40-66 | the loop over any partitions equals its specification: offsets, counters and returned error for each fetch and commit outcome and for a death inside the handler; handler errors are skipped |
| WorkerProgress.SteadyProgress | backend/internal/kafka/consumer.go:36-66 | for every payload and every Redis fault, rounds that deliver and commit move each committed offset by the messages delivered, each handled in order, and end with no error |
| WorkerProgress.SteadyCounts | backend/internal/kafka/consumer.go:40-66 | if the payloads are countable and Redis answers, each of those messages is counted once |
| WorkerProgress.RunEnds | backend/internal/kafka/consumer.go:42-64 | after such rounds a failed fetch or commit ends the loop with exactly that error, a cancelled one with none, and nothing after it matters |
| Analytics.RunKeepsInv | backend/internal/kafka/consumer.go:40-66 | every run of the loop keeps the protocol's invariant and leaves the topic as the next run may find it |
| WorkerRefinement.RunIsWork | backend/internal/kafka/consumer.go:40-66 | on any topic of the joint system, every run of the loop is a run of its worker steps that leaves the topic as the loop does and touches nothing else, so the end-to-end theorems are about it |
| Analytics.DayCounterIsCounted | backend/internal/analytics/processor.go:44-47 | after any run within a day, faults and deaths included, the day's Redis counter is the number of increments that got through |
| Pipeline.StepKeepsInv | backend/internal/outbox/store.go:69-90 | each step of the joint system keeps: acknowledged rows are in their topic's log, logs hold only their own rows, all rows are readable |
| Pipeline.EndToEnd | backend/internal/kafka/consumer.go:36-66 | in every reachable state of the joint system: handler calls that returned + increments that no call reported = increments + reported failures; so those cover the distinct events below a committed offset, and the marked rows once the group has caught up; offsets pass only handled messages |
| Pipeline.EveryEventIsCounted | backend/internal/analytics/processor.go:36-52 | while increments do not fail, nothing is ever rejected and a caught-up worker has counted every marked row, beyond the increments of killed calls |
| Marketplace.PipelineOf | backend/internal/listing/repository.go:66-75 | every joint run of domain transactions, relays and worker is a run of the pipeline, and the outbox rows stay exactly the committed events, with their topics and keys |
| Marketplace.WritesArrive | backend/internal/outbox/relay.go:1-5 | in every reachable joint state with a caught-up worker: listings (boosts) ever committed + unreported increments <= unpublished rows of the topic + increments + failures |
| Marketplace.EveryWriteIsCounted | backend/internal/analytics/processor.go:36-52 | while Redis answers, once all rows are published and the worker has caught up, every listing and boost ever committed has been counted |
| CacheKey.KeyRoundTrip | backend/internal/listing/service.go:36-48 | for categories without a colon a parser recovers version and filter, prices as signed cents, for every query string |
| CacheKey.KeyHasVersion | backend/internal/listing/service.go:46-48 | equal keys have equal versions, whatever the filters are |
| CacheKey.KeysAgree | backend/internal/listing/service.go:44-48 | for categories neither of which continues the other, equal keys if and only if equal version and equal filter up to cents |
| CacheKey.CategoriesCollideExactly | backend/internal/listing/service.go:44-48 | two different categories share some key if and only if one is the other followed by a colon, two prices, two numbers, and then nothing or another colon |
| CacheKey.ContinuationCollides | backend/internal/listing/service.go:44-48 | then every filter of the longer category shares its key with one of the shorter |
| CacheKey.KeysIdentify | backend/internal/listing/service.go:44-48 | with whole-cent prices and such categories, equal keys if and only if equal version and filter |
| CacheKey.SubCentPricesCollide | backend/internal/listing/service.go:36-41 | two different prices that share a key, for every filter and version |
| CacheKey.ColonCategoriesCollide | backend/internal/listing/service.go:44-48 | for every filter a longer category and a filter of the first category that shares its key |
| ListCache.FaultsStayLocal | backend/internal/listing/service.go:24-83 | in every run, with any filters, faults of other calls and lost INCRs: an answer from the database shows every write acknowledged before the List started; one from the cache, if its own version read succeeded, every write whose INCR had taken effect, hence every acknowledged one whose INCR was not lost |
| ListCache.Freshness | backend/internal/listing/service.go:24-83 | so a List that starts after a write returned shows that write |
| ListCache.MissesExactly | backend/internal/listing/service.go:43-55 | at any Get of any interleaving whose version read succeeded: an unexpired entry older than an acknowledged write, the only way for the Get to miss that write, means the INCR of that write was lost |
| ListCache.StaleExactly | backend/internal/listing/cache.go:53-68 | the same for a List started in any reachable state, for every filter |
| ListCache.RunFresh | backend/internal/listing/cache.go:53-68 | whatever fails, every entry under version v shows all writes whose invalidation moved the version to v or less, in every reachable state |
| ListCacheFaults.BoundedStaleness | backend/internal/listing/service.go:11-67 | under any Redis faults, boosts and clock steps: a hit was read less than five minutes plus its filling call's read-to-Set delay ago and shows every older commit |
| ListCacheFaults.NeverAnotherFiltersPage | backend/internal/listing/service.go:44-55 | under any faults a List answers with a page of its own filter, when keys tell the filters of the run apart |
| ListCacheFaults.OneFaultServesStale | backend/internal/listing/cache.go:53-68 | a reachable run in which one lost INCR, or one failed version read, serves a page without an acknowledged write |
| ListingService.Service.List | backend/internal/listing/service.go:43-67 | cache and answer of one call for each combination of faults |
| ListingService.ListAnswers | backend/internal/listing/service.go:43-67 | whatever Redis does, the answer is the unexpired entry found or the page read now; only a miss with a failing database fails |
| ListingService.SecondListHits | backend/internal/listing/service.go:50-66 | a page read without faults is served for exactly 300 seconds while the version stays, whatever is committed and even if the database fails; after that it is read again |
| ListingService.ListTouchesOwnKey | backend/internal/listing/service.go:62-64 | a List changes at most the entry under its own key, and only after a miss |
| ListingService.ListAfterWriteReadsAnew | backend/internal/listing/service.go:69-83 | once the version moved, a List reads the database unless the new version is filled already |
| ListingService.Service.Write | backend/internal/listing/service.go:69-83 | commit, then invalidation; a reported error invalidates nothing |
| ListingService.ServeIsRun | backend/internal/listing/service.go:43-67 | one List call is a protocol run with the same cache and answer |
| ListingService.WriteIsRun | backend/internal/listing/service.go:24-30 | one write call is a protocol run, acknowledged exactly when the code answers; an unheard commit never invalidates |
| Rotation.RotationSafety | backend/internal/auth/token_store.go:36-63 | over all interleavings and failures: no token consumed twice, one live record per login chain, one successor per token, live records = saves - consumes - deletes - expiries |
| Rotation.ChainIdentityAndLifetime | backend/internal/auth/service.go:49-82 | every token of a chain carries the login's user; the stored/claimed mismatch never happens; an accepted token is used within seven days of issue; its record outlives its exp claim |
| Rotation.UsedTokensAreRefused | backend/internal/auth/service.go:151-169 | once a token's record is gone, by refresh, logout or expiry, every later Refresh with it is refused and changes no record |
| Rotation.LogoutEndsSession | backend/internal/auth/service.go:171-178 | a Logout that reaches the store ends the session, for ever, if and only if no call of it is in flight and its record, if any, is the presented token's; a token that still has its record always meets this |
| Rotation.ChainStaysDead | backend/internal/auth/service.go:151-169 | a session without record and without call in flight never gets one again |
| Rotation.LiveChainGoesOn | backend/internal/auth/service.go:64-83 | any other session has a run on which it has a record |
| Rotation.EndedSessionRefuses | backend/internal/auth/service.go:154-169 | every Refresh with any token of an ended session is refused and changes no record |
| Rotation.DeadStaysDead | backend/internal/auth/token_store.go:43-56 | no run brings a removed record back |
| AuthService.AcceptsExactly | backend/internal/auth/service.go:121-149 | a token is accepted if and only if it is a signed, unexpired refresh token with user id and non-empty jti |
| AuthService.TokenStore.Consume | backend/internal/auth/token_store.go:43-56 | read and removal in one step; absent or expired is an invalid token |
| AuthService.Service.GenerateTokens | backend/internal/auth/service.go:64-83 | a pair for the user and one saved record, or an error of minting or of the store |
| AuthService.IssueIsRun | backend/internal/auth/service.go:64-83 | issuing is a mint and a save of the protocol, and the refresh token handed out is the minted one |
| AuthService.AnswerIsUsable | backend/internal/auth/service.go:49-83 | the refresh token of an answer is accepted for its user until seven days later and not after; the access token carries the user and fifteen minutes and is never accepted as a refresh token |
| AuthService.IssueSaves | backend/internal/auth/token_store.go:36-41 | an answer leaves its record for seven days, and no other record changes |
| AuthService.Service.Login | backend/internal/auth/service.go:102-117 | tokens exactly for a known email and the right password; otherwise the store is untouched |
| AuthService.Service.Refresh | backend/internal/auth/service.go:154-169 | store and answer for each way the call can go |
| AuthService.RefreshExactly | backend/internal/auth/service.go:154-169 | answered if and only if the token is accepted, its record is read, unexpired and of the same user, and a new pair is made and saved |
| AuthService.RefreshUsesUp | backend/internal/auth/service.go:154-169 | a presented record is gone whatever else fails, and only it and the new one change |
| AuthService.SessionGoesOn | backend/internal/auth/service.go:151-169 | the refresh token of an answer can be refreshed until it expires; the new one works for the same user and the old one no more |
| AuthService.Service.Logout | backend/internal/auth/service.go:172-178 | removes the presented token's record and no other |
| AuthService.LoginIsRun | backend/internal/auth/service.go:102-117 | a Login past its checks is a protocol run with the same store that hands out the token it minted |
| AuthService.RotateIsRun | backend/internal/auth/service.go:154-169 | a Refresh with a signed token is a protocol run with the same store, answered exactly when the code answers, with the token it minted |
| AuthService.LogoutIsRun | backend/internal/auth/service.go:172-178 | a Logout with a live signed token is one protocol delete |
| RateLimit.Limiter.Handle | backend/pkg/middleware/ratelimit.go:24-42 | rejects exactly above the limit, lets pass on a store error |
| RateLimit.FaultsPass | backend/pkg/middleware/ratelimit.go:28-33 | every request that meets a failing store is let through, in every trace, for every limit |
| RateLimit.WindowAdmitsExactly | backend/pkg/middleware/ratelimit.go:35-41 | in an open window a counted request passes if and only if fewer than limit increments of its key came before it there; a rejected one is told the window's seconds; the window never grows |
| RateLimit.OpenerAdmitted | backend/pkg/middleware/ratelimit.go:35-41 | the first request of a window passes if and only if the limit is positive |
| RateLimit.WindowsSeparate | backend/pkg/middleware/ratelimit.go:26 | different route groups and clients have different counters |
| RateLimit.AdmissionBound | backend/internal/storage/ratelimit.go:23-31 | for every trace and stretch of length T: admitted per key <= Bound, which is below limit * (ceil(T / window) + 1), plus the requests that met a failing store |
| RateLimit.TwoWindowsAtMost | backend/pkg/middleware/ratelimit.go:24-42 | at most 2 * limit - 1 within any stretch of one window without faults |
| RateLimit.BoundIsReached | backend/pkg/middleware/ratelimit.go:24-42 | for every key, limit, window and length a fault-free trace that reaches Bound |
| RateLimit.RetryAfterSuffices | backend/pkg/middleware/ratelimit.go:35-39 | after any trace, whoever was rejected and waits Retry-After is let through if fewer than limit requests came on the key meanwhile |
| RateLimit.CrowdedRetryIsRejected | backend/pkg/middleware/ratelimit.go:35-39 | limit requests on the key just before the retry get it rejected again |
| Market.BoostsDisjointExactly | backend/internal/boost/repository.go:32-82 | for every interleaving of checks and inserts: boosts are disjoint all along if and only if no boost is committed while another one of its listing is active |
| Market.StepDisjointExactly | backend/internal/boost/repository.go:39-59 | each step keeps boosts disjoint if and only if it commits no boost over an active one, however old its check |
| Market.BoostsAreDisjoint | backend/internal/boost/repository.go:32-82 | when CreateActive transactions run one after another, whatever expiries the application computed: boosts of a listing do not overlap, at most one is active at any instant |
| Market.LockedBoostsAreDisjoint | backend/internal/boost/repository.go:32-82 | overlapping transactions keep boosts disjoint if none is committed while another call of its listing is in flight |
| Market.OwnersBoost | backend/internal/boost/service.go:29-36 | every live boost that went through the service's owner lookup is by its listing's owner, however lookups, checks, inserts and deletes interleave |
| MarketEffects.BoostAnswers | backend/internal/boost/repository.go:39-79 | refused exactly while a boost is active; recorded exactly if none is, the listing exists and nothing fails; otherwise nothing is written |
| MarketEffects.BoostRecords | backend/internal/boost/repository.go:51-79 | one boost with the given expiry, from now on, the flag, one event, and nothing else |
| MarketEffects.BoostLasts | backend/internal/boost/repository.go:39-49 | until its expiry, and not after, the listing sorts first and another boost is refused; other listings never notice |
| Market.AppendExact | backend/internal/boost/repository.go:39-49 | inserting keeps disjointness if and only if the query of CreateActive finds no active boost at that time |
| Market.AloneIsCheckThenInsert | backend/internal/boost/repository.go:32-82 | CreateActive alone is a check with its insert right behind it |
| Market.ConcurrentBoostsOverlap | backend/migrations/002_boost.sql:2-8 | from any state without an active boost, a run of two checks and then two inserts leaves two active boosts |
| Market.EventConservation | backend/internal/listing/repository.go:44-78 | through any interleaving, rollbacks, unheard commits and deletes: every listing and boost ever committed has its one outbox row, which names it, its user and the listing of a boost, and every row its one write |
| Market.EventsDistinctAndReadable | backend/internal/boost/repository.go:70-79 | no two rows announce the same thing; every row's payload is counted whatever text JSONB returns, and the written text is one such |
| Market.ListingReadsBack | backend/internal/analytics/processor.go:36-43 | the event of every listing ever committed decodes to its id and user, deleted since or not |
| Market.BoostReadsBack | backend/internal/analytics/processor.go:36-43 | the event of every boost ever committed decodes to its id, listing and user |
| Feed.FlagIsRedundant | backend/internal/listing/repository.go:114-117 | in every reachable state of every interleaving, overlapping boosts included, the sort key equals "an active boost exists", with no expiry job |
| Feed.BoostedComeFirst | backend/internal/listing/repository.go:108-119 | row i of the feed is boosted now if and only if i is below the number of boosted matches, however ties are broken |
| Feed.BoostedComeFirstOnPages | backend/internal/listing/repository.go:104-155 | the same for each page |
| Feed.NewestFirstWithin | backend/internal/listing/repository.go:114-118 | among the boosted rows, and among the others, newer listings come first |
| MarketEffects.FeedShowsWanted | backend/internal/listing/repository.go:108-113 | the feed holds each listing of the category, within both price bounds and found by the search, exactly once and no other |
| Repositories.Database.Create | backend/internal/listing/repository.go:44-78 | listing and event in one commit or neither; what each failure leaves and reports |
| Repositories.Database.List | backend/internal/listing/repository.go:104-155 | the page's rows in order, or an error if reading any row fails |
| Repositories.Database.Update | backend/internal/listing/repository.go:157-171 | changes the four editable fields of the owner's row, NotFound otherwise |
| Repositories.Database.Delete | backend/internal/listing/repository.go:173-185 | removes the owner's row and, by cascade, its boosts; the outbox stays |
| MarketEffects.CreateExactly | backend/internal/listing/repository.go:44-78 | a Create that takes effect stores its five fields under a new id with one event; any other leaves listings, boosts and events alone |
| MarketEffects.UpdateExactly | backend/internal/listing/repository.go:157-171 | only the owner changes a listing, and only title, description, price and category; any other attempt changes nothing |
| MarketEffects.DeleteExactly | backend/internal/listing/repository.go:173-185 | only the owner deletes a listing, with its boosts; all other listings, boosts and events stay |
| MarketEffects.StatementFails | backend/internal/listing/repository.go:162-165 | a failed statement is reported and has done nothing, unless only its answer was lost |
| Repositories.Database.CreateActive | backend/internal/boost/repository.go:32-82 | tables and error for each outcome; the record is filled exactly when the insert took place |
| Repositories.BoostService.Boost | backend/internal/boost/service.go:29-50 | owner check first; then exactly CreateActive with expiry clock + duration |
| Chat.RepliesFollowMessages | backend/internal/chat/service.go:31-66 | in every reachable state with interleaved senders and deletions: sender and receiver differ, exactly one owns the listing, and an owner's message follows one from its receiver |
| Chat.InsertKeepsInv | backend/internal/chat/repository.go:31-41 | an insert, however late after its check, keeps causality and every other call's entitlement |
| Chat.DeleteKeepsInv | backend/migrations/003_chat.sql:1-12 | deleting a listing with its messages keeps causality on the others |
| ChatService.PagingIsExact | backend/internal/chat/repository.go:43-64 | pages at offsets 0, limit, 2 * limit, ... concatenate to the user's messages in (created_at, id) order, with multiplicity |
| ChatService.PagesArePrefix | backend/internal/chat/repository.go:49 | the first n pages are the first n * limit messages |
| ChatService.ReadOnce | backend/internal/chat/repository.go:44-48 | each message is read once when ids differ |
| ChatService.OnlyParticipantsRead | backend/internal/chat/repository.go:46 | a message is visible to its two participants on its listing and to nobody else |
| ChatService.Repo.GetForUser | backend/internal/chat/repository.go:43-64 | the row loop returns the page, or an error if reading any row fails |
| ChatService.Repo.Send | backend/internal/chat/repository.go:31-41 | appends the message and fills id and time, or changes no message |
| ChatService.Service.Send | backend/internal/chat/service.go:31-66 | table and answer for each branch: receiver forced to the owner, or the owner's three refusals |
| ChatService.SendSucceedsExactly | backend/internal/chat/service.go:31-66 | succeeds if and only if the listing exists, no statement fails, and the sender is not the owner or answers somebody else who wrote first |
| ChatService.SendStores | backend/internal/chat/service.go:56-65 | the message is stored last with listing, sender, body and time, to the owner from anybody else and to the named receiver from the owner; a failed Send stores nothing |
| ChatService.SendRefusals | backend/internal/chat/service.go:32-54 | each refusal exactly for its reason |
| ChatService.SentIsRead | backend/internal/chat/repository.go:43-76 | both sides read what was sent, and the owner may answer the buyer from then on |
| ChatService.SendIsRun | backend/internal/chat/service.go:31-66 | one Send is a protocol run with the same table and answer |

## Left out

- Analytics.Processor.Handle: payloads are flat objects of integers, as the repositories write them; other JSON that
  `Unmarshal` accepts (nested values, strings, escapes, null, fractions, keys in other letter case) counts as undecodable,
  and integers do not overflow 64 bits.
- OutboxRelay.PgStore.Enqueue: a row becomes visible as its id is drawn; in OutboxProtocol and OutboxOrder rows may become
  visible in any order.
- ListingService.Service.Write: one method for Create, Update and Delete, whose bodies differ only in the repository call.
- ListCache.FaultsStayLocal: a page is the filter, the number of commits visible and the time of its query, not its rows;
  JSON encoding of pages is taken as lossless, and an undecodable entry counts as a failed Get.
- RateLimit.RetryAfterSuffices: for windows of whole seconds; what the Redis client makes of other windows is not modelled.
- Market.EventConservation: Create, Update and Delete are single steps, as their transactions have one statement that others
  can see; only CreateActive is split in two.
- Methods of the classes run without interruption, but for what happens to the relay's store between two calls;
  interleavings are in the protocols, step by step.
- The outbox protocol lets rows of different topics share one order; order across Kafka partitions is not claimed.
- Kafka internals (partition choice, replication, rebalancing): an append-only log per partition, one session at a time.
- Postgres MVCC beyond atomic commits, row locks with skip, and a stale check in CreateActive.
- Eviction of the version key `listings:ver` by Redis itself; only page entries are evicted here.
- Full-text search: any predicate on listing and query.
- NaN and infinite prices, and prices too fine for a 64-bit float: prices are reals.
- bcrypt, HS256 and the JWT text format; Register and the access-token middleware.
- Order among feed rows that tie on creation time, hence stable paging of the public feed.
- HTTP handlers, pagination clamping, price parsing, error-to-status mapping, logging, configuration, migrations tooling.
