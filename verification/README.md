# A verified model of the PhonePe gateway

The gateway takes payment requests from many tenants, opens checkout sessions at PhonePe, and keeps a ledger of what PhonePe reports about each order. Four services write that ledger independently: order creation, status polling, inbound webhooks and refunds, with a reconciliation pass on top. This project models them and their supporting parts, and proves what holds over whole runs rather than within one function.

## How it is laid out

| file | content |
|---|---|
| `Basics.dfy`, `StatusMaps.dfy`, `Decimals.dfy` | optional values with Python's truthiness, `scalar_one_or_none`, the status tables and `str.upper()`, decimal numerals and colon-joined keys |
| `Ledger.dfy` | stored rows, each request handler as a function on a store, requests and runs |
| `Services.dfy` | the services as static methods that change a session's rows in place, and the commit-or-rollback envelope, each proved equal to its handler |
| `Effects.dfy` | what each request makes of every field of the rows, stated from the rows and PhonePe's answer alone |
| `LedgerInvariants.dfy`, `LedgerResults.dfy`, `ReportHistory.dfy` | what every step keeps and every run satisfies |
| `Reconciliation.dfy`, `Isolation.dfy` | accounting of a reconciliation pass; tenants do not interfere |
| `Witnesses.dfy` | for every tenant and order, reachable stores on which the gaps between design and code show |
| `CreateRace.dfy` | interleaved creation: lookup, flush, upstream call, commit or rollback as separate steps |
| `TimedCache.dfy`, `RateLimiter.dfy`, `TokenClient.dfy` | the in-memory cache, the limiter that counts in it, the OAuth token cache with its retry on 401 |
| `Delivery.dfy`, `KeyRotation.dfy`, `ApiKeys.dfy`, `Dashboard.dfy`, `Redaction.dfy` | outbound webhooks, master-key rotation, API keys, dashboard figures, log redaction |

Classes are proved against functions on values; lemmas about those functions state the results. A handler's result is a `Reply`: the session's private copy and an outcome. `Step` keeps the copy when the handler returned and the old store when it raised. PhonePe is an oracle: each upstream answer, success with any payload or an exception, is an argument of the event. Clock readings, fresh ids and nonces are arguments too.

## Assumptions

- Outside `CreateRace.dfy` each request is one atomic step. In `CreateRace.dfy` creates interleave at will, with each other and with whole other requests; `Linearizable` then carries every result about runs over to the interleavings.
- The database is reliable, commits do not fail, and there is no crash between an upstream success and its commit. Foreign keys and the unique constraint on (tenant, merchant order id) are enforced at flush; an uncommitted insert reserves its key.
- The schema checks on request bodies (a positive amount, an id of 1 to 255 characters) are part of a request: one that fails them raises before the handler runs.
- The batch query of reconciliation may return any selection its filter and limit allow.
- One call of the limiter takes less than a window and reads a clock that does not run back during the call. Between calls the clock is unconstrained.
- The upper-casing of status strings is exact wherever the result can meet a table key, including the ten non-ASCII characters whose upper case is plain ASCII.
- The hash and the cipher are abstract. Decryption inverts encryption under the same key, and ciphertexts are not empty; the hash is injective only where a lemma says so.

## Where code and documents differ

The model follows the code.

- Statuses do not absorb: a later webhook overwrites any of them. Over any run an order keeps its status exactly when nothing was reported about it or the last report is of that status (`ReportHistory.StatusStaysExactlyWhen`, `Witnesses.CompletedReopens`).
- `docs/requirement.md` asks that a repeated create return the existing order. A session gives the answer of a whole request exactly when it does not flush a key committed since it looked; once a key is committed, exactly the sessions that had already looked in vain end with an integrity error (`CreateRace.ClosesLikeAtomic`, `CreateRace.CommittedKeyIsFinal`; an interleaving from every start in `CreateRace.RivalCanLose`).
- `docs/requirement.md` makes the merchant order id unique per tenant, but a webhook looks it up across tenants. A genuine or unsigned webhook reaches the order it names exactly when no other tenant uses the same id, and raises otherwise (`LedgerResults.HookReachesExactlyUnshared`, `Witnesses.SharedReference`).
- A PAYMENT entry takes the amount the webhook reports, whatever the order's. Along a run the entries carry their orders' amounts exactly when every accepted webhook reports the amount of the order it reaches, or none (`LedgerResults.PaymentAmounts`, `Witnesses.AmountDiffers`).
- A creation that PhonePe refuses flushes a FAILED row with an error code and then raises, so the row is rolled back: no committed order ever carries an error code (`LedgerInvariants.ReachableInv`).
- The scheduled reconciliation pass closes its session without a commit: it counts and announces changes that are not stored (`Services.ReconciliationService.RunInBackground`, `Reconciliation.CountsExactlyWhenSettled`, and an instance in `Witnesses.BackgroundPassAnnounces`). A pass on a supplied session is stored when its owner commits.
- `docs/requirement.md` asks for idempotent refunds; the code checks each refund alone. Repetition is harmless exactly when the request is refused, and the total stays within the amount exactly when each grant fits what the earlier ones left (`LedgerResults.RefundIdempotentExactlyWhen`, `LedgerResults.RefundsBoundedExactlyWhen`; `Witnesses.TwoFullRefunds`).
- `docs/requirement.md` asks that unverified webhooks not be processed; one whose signature would not hold is processed exactly when it carries no signature header (`LedgerResults.ForgedHookWritesExactlyWhenUnsigned`, `Witnesses.UnsignedHookOpensRefund`).
- The limiter is described as a sliding window; it counts in fixed windows. The limit holds over one window's length exactly from the starts of buckets; elsewhere up to twice the limit gets through, never more (`RateLimiter.SlidesExactlyWhenAligned`, `RateLimiter.AllowedPerStretch`).
- An outbound log row reads FORWARDED from the moment it is created, with no attempts; that row alone leaves the outcome open (`Delivery.RowTellsOutcome`).

## Model

| member | source | states |
|---|---|---|
| `Services.OrderService.CreateOrGetOrder` | app/services/order_service.py:30-102 | updating rows step by step ends in exactly the store and outcome of the creation handler, on every path, including the flushed FAILED row of a refused call and credentials that do not decrypt |
| `Services.OrderService.GetAndSyncOrderStatus` | app/services/order_service.py:105-156 | the poll changes the order and adds an entry only when PhonePe reports a different status; an upstream exception changes nothing |
| `Services.RefundService.Process` | app/services/refund_service.py:17-78 | guards in order, amount choice, the error of unreadable credentials, and one REFUND entry on success only |
| `Services.WebhookService.ProcessInbound` | app/services/webhook_service.py:26-173 | log, resolution of order and tenant, signature verdict, status overwrite, entry, dispatch, in every combination of found and missing rows |
| `Services.ReconciliationService.RunOnSession` | app/services/reconciliation.py:36-103 | the loop over the batch equals the pass on values, errors of single orders being swallowed |
| `Services.ReconciliationService.RunInBackground` | app/services/reconciliation.py:28-33 | the scheduled pass counts exactly when PhonePe settles a pick, dispatches what a stored pass would, and leaves the committed store as it was |
| `Services.HandleRequest` | app/database.py:52-62 | a request that returns commits its session, one that raises leaves the committed store unchanged, and either way the invariant of the ledger survives |
| `StatusMaps.MapsAgree` | app/services/webhook_service.py:108-120 | the webhook table and the poll table, with their PENDING defaults, read every string alike although one has an entry more |
| `StatusMaps.CaseInsensitive` | app/services/phonepe_client.py:213-227 | the three status tables do not distinguish a string from its upper-cased form |
| `StatusMaps.Readings` | app/services/phonepe_client.py:213-227 | for every text, in capitals: which mean COMPLETED, FAILED or EXPIRED to webhooks and polls, which SUCCESS or FAILED to refunds; everything else is PENDING |
| `StatusMaps.PaidCodes` | app/services/webhook_service.py:108-111 | the three codes of a payment read COMPLETED in webhooks and polls, SUCCESS in refunds |
| `StatusMaps.FailedCodes` | app/services/webhook_service.py:112-115 | the four codes of a failure read FAILED |
| `StatusMaps.OtherCodes` | app/services/webhook_service.py:116-119 | EXPIRED reads EXPIRED; the pending codes, INITIATED included, read PENDING |
| `StatusMaps.UpperForeign` | app/services/webhook_service.py:120 | apart from ten characters, no character outside ASCII has an upper case in it, so no other spelling meets a table key |
| `StatusMaps.UpperAscii` | app/services/webhook_service.py:120 | upper-casing plain text moves lower-case letters by 32 and keeps every other character in place |
| `Effects.CreateOpens` | app/services/order_service.py:51-95 | a create opens an order if and only if it is well formed, its key and id are new, its tenant exists and PhonePe accepts; every field of the row, PhonePe's id and checkout address included, and of its first entry |
| `Effects.CreateRepeats` | app/services/order_service.py:39-49 | a create whose key has an order returns that order as it stands |
| `Effects.CreateFails` | app/services/order_service.py:62-102 | which error a create without an order ends in, exactly, and the row that was flushed before it: FAILED with code and message after a refusal, CREATED when credentials do not decrypt |
| `Effects.UnknownOrder` | app/services/order_service.py:114-120 | polls and refunds of a key without an order raise "not found" |
| `Effects.PollEffect` | app/services/order_service.py:122-156 | a poll asks when forced or the order is CREATED or PENDING; the order takes the status that PhonePe's state reads as and keeps all else; one entry, field by field, exactly on a change |
| `Effects.HookEffect` | app/services/webhook_service.py:76-173 | an unsigned or genuine webhook for an order: status, transaction id, entry with the reported or the order's amount, log row and notification, and nothing else |
| `Effects.HookRefused` | app/services/webhook_service.py:95-105 | a forged one leaves a rejected log row that names order and tenant; unreadable credentials raise and leave nothing |
| `Effects.StrayHook` | app/services/webhook_service.py:87-105 | a webhook without an order changes no order and no entry; its tenant is the one registered under its merchant id, two make it raise, and with none no signature is checked |
| `Effects.RefundEffect` | app/services/refund_service.py:33-78 | a refund is of the amount asked for, or of the whole order when none is named; every error and the entry, field by field |
| `Effects.PickEffect` | app/services/reconciliation.py:55-68 | what a pass leaves of each pick: of an active tenant, the status PhonePe's state reads as; of an inactive one, or on a failed call, the order as it was |
| `Effects.PassSkips` | app/services/reconciliation.py:37-58 | whatever the batch, orders younger than the threshold, settled, or of inactive tenants stay, and at most a hundred change |
| `LedgerInvariants.StepKeeps` | app/database.py:52-62 | every request keeps the ledger invariant, only adds rows, and never alters an order beyond its status and PhonePe id; one that raises changes nothing |
| `LedgerInvariants.RunKeeps` | app/services/order_service.py:51-102 | the same over any sequence of requests, from any store that satisfies the invariant |
| `LedgerInvariants.ReachableInv` | app/models/order.py:29 | every reachable store has unique (tenant, merchant order id), positive amounts, no CREATED order, no error code, a PAYMENT entry per order in agreement with its status, justified refunds, and no log left at RECEIVED |
| `LedgerResults.LatestPaymentAgrees` | app/services/order_service.py:131-151 | the latest PAYMENT entry of every order carries its status, COMPLETED read as SUCCESS, whatever mix of services wrote |
| `LedgerResults.RefundFollowsSuccess` | app/services/refund_service.py:36-69 | every REFUND entry is positive, at most the order's amount, and the nearest PAYMENT entry before it is SUCCESS |
| `LedgerResults.RefundServedExactlyWhen` | app/services/refund_service.py:33-43 | a refund goes through if and only if the order is COMPLETED, the amount is covered and PhonePe agrees; no order is ever in status SUCCESS |
| `LedgerResults.RefundIdempotentExactlyWhen` | app/services/refund_service.py:33-43 | repeating a refund request leaves the store as the first one left it if and only if the guard refuses it |
| `LedgerResults.StepRefunds` | app/services/refund_service.py:26-69 | a request adds to an order's refunds exactly the amount its guard grants, and nothing when it is refused, names another order, or is of another kind |
| `LedgerResults.RefundsBoundedExactlyWhen` | app/services/refund_service.py:41-69 | over any run an order's refunds equal the earlier ones plus what the requests granted one by one; they stay within its amount if and only if each grant fits what was left when it was made, a check no request makes |
| `LedgerResults.RefundsAccumulate` | app/services/refund_service.py:41-69 | n repetitions of a granted request add n times its amount |
| `LedgerResults.ForgedHookWritesExactlyWhenUnsigned` | app/services/webhook_service.py:95-105 | a webhook whose signature would not hold writes to the order it names if and only if it carries no signature header; with one it leaves orders and entries alone |
| `LedgerResults.OrderOrigin` | app/services/order_service.py:52-63 | every order goes back to exactly one request of the run, the create answered with it as newly created, and keeps that request's owner, amount, currency and URLs for good |
| `LedgerResults.StepAmounts` | app/services/webhook_service.py:122-139 | a request keeps all PAYMENT entries at their orders' amounts if and only if it is not an accepted webhook with an amount other than that of the order it reaches |
| `LedgerResults.PaymentAmounts` | app/services/webhook_service.py:134 | over any run every PAYMENT entry carries its order's amount if and only if it did before and every webhook accepted along the run reports the amount of the order it reaches, or none |
| `LedgerResults.HookReachesExactlyUnshared` | app/services/webhook_service.py:76-85 | in every reachable store a genuine or unsigned webhook that names an order writes to it if and only if no other tenant has an order of the same merchant order id; otherwise it raises and nothing changes |
| `LedgerResults.WebhookAndPollAgree` | app/services/webhook_service.py:122-139 | a webhook and a forced poll of the same upstream state bring the order to the same status in either order, and the poll after the webhook writes nothing |
| `ReportHistory.StepReplays` | app/services/order_service.py:123-151 | each request moves an order and its entries exactly as the reports it carries about that order say |
| `ReportHistory.StepCreates` | app/services/order_service.py:77-93 | only a create adds an order, and it starts PENDING with a single PENDING entry |
| `ReportHistory.RunReplays` | app/services/webhook_service.py:120-139 | over any run from any valid store, status and PAYMENT entries are the replay of the order's report history |
| `ReportHistory.LedgerIsReplay` | app/services/order_service.py:123-151 | an order's status is its last report or PENDING; its PAYMENT entries number 1 + accepted webhooks + polls that changed the status, with exactly the statuses those reports give |
| `ReportHistory.StatusStaysExactlyWhen` | app/services/webhook_service.py:122-123 | over any run an order ends in the status it started in if and only if nothing was reported about it or the last report is of that status |
| `ReportHistory.EveryWebhookLogged` | app/services/webhook_service.py:61-70 | the inbound log holds one PROCESSED row for each webhook that wrote to an order and no other |
| `Witnesses.CompletedReopens` | app/services/webhook_service.py:123 | no status absorbs: for every tenant and order a reachable COMPLETED order goes back to PENDING |
| `Witnesses.UnsignedHookOpensRefund` | app/services/webhook_service.py:95-123 | for every tenant and order, a reachable PENDING order whose refund is refused becomes one whose refund is served by a single unsigned webhook |
| `Witnesses.TwoFullRefunds` | app/services/refund_service.py:41-69 | for every tenant and order, a reachable COMPLETED order is refunded in full twice |
| `Witnesses.BackgroundPassAnnounces` | app/services/reconciliation.py:28-33 | for every active tenant with a webhook URL, a reachable store on which a pass counts and dispatches one change |
| `Witnesses.AmountDiffers` | app/services/webhook_service.py:134 | for every tenant and order, a genuine webhook with any other amount leaves a PAYMENT entry of that amount on a reachable order |
| `Witnesses.SharedReference` | app/services/webhook_service.py:76-80 | any two tenants can use one merchant order id, and on the store reached every webhook that names it raises |
| `Reconciliation.PassMoves` | app/services/reconciliation.py:51-101 | the accounting of the pass by induction along the batch, over every selection of distinct PENDING orders |
| `Reconciliation.PassAccounts` | app/services/reconciliation.py:36-103 | count = orders changed = entries written = drop in open orders; exactly the reported orders of active tenants move; one dispatch per changed order with a webhook URL |
| `Reconciliation.CountsExactlyWhenSettled` | app/services/reconciliation.py:70-74 | a pass reports a positive count if and only if PhonePe settles a pick of an active tenant |
| `Reconciliation.FullPassDrains` | app/services/reconciliation.py:37-44 | with fewer than a hundred picks, a pass in which every pick is settled leaves open only orders too young or of inactive tenants |
| `Isolation.OthersUntouched` | app/services/order_service.py:17-27 | a tenant's create, poll or refund changes no row of another tenant |
| `Isolation.SameAnswerSameRows` | app/services/order_service.py:30-156 | stores that agree on a tenant's rows give it equal answers and still agree afterwards |
| `Isolation.ForeignUntouched` | app/services/webhook_service.py:76-93 | a webhook that names no order of a tenant, a batch without one, and other tenants' requests and rows leave that tenant's rows alone |
| `Isolation.PassAlike` | app/services/reconciliation.py:55-67 | for one tenant a reconciliation batch is the forced polls of its own picks: the same rows and the same results of the status calls, whatever the rest of the batch |
| `Isolation.NonInterference` | app/services/webhook_service.py:76-139 | for every run of requests, webhooks, tenant changes and batches: reducing it to one tenant's share, its requests, its row, the webhooks that reach its orders and the polls of its picks, changes neither its rows nor any of its answers |
| `CreateRace.AtMostOnePayment` | app/services/order_service.py:39-102 | in every interleaving at most one session per key is between its flush and its end, and initiate_payment returns normally at most once per key |
| `CreateRace.Linearizable` | app/services/order_service.py:62-95 | the committed rows of every interleaving equal those of a run of whole requests, each create placed at its commit |
| `CreateRace.InterleavingsStayReachable` | app/database.py:52-62 | so every store an interleaving commits satisfies all results about reachable stores |
| `CreateRace.ClosesLikeAtomic` | app/services/order_service.py:39-102 | a session ends with the answer the whole request would give at that moment if and only if it does not flush a key committed since it looked; then it raises where the whole request would return the existing order |
| `CreateRace.CommittedKeyIsFinal` | app/models/order.py:29 | once a key is committed, every continuation keeps its order and calls upstream for it no more; every session on it still to end does so with an integrity error if it had already looked in vain, and with that order if it had not |
| `CreateRace.LaterCreateReturnsOrder` | app/services/order_service.py:39-49 | every create that begins after the commit, or had begun without looking yet, ends in every continuation with that same order, never with an error and without an upstream call |
| `CreateRace.CallsMade` | app/services/order_service.py:65-74 | initiate_payment is called exactly in the upstream steps taken with readable credentials, once each |
| `CreateRace.FlushWaitsExactlyForRivals` | app/models/order.py:29 | an insert waits if and only if another session holds an uncommitted row of the same key or id |
| `CreateRace.NoDeadlock` | app/services/order_service.py:39-102 | after any interleaving every open session can still be brought to its end |
| `CreateRace.RivalCanLose` | app/services/order_service.py:39-63 | from every world before any create, for every tenant and new key, an interleaving of two creates in which one commits and the other raises, where the same request made whole would return the committed order |
| `TimedCache.RedisManager.Get` | app/redis.py:36-49 | the lookup answers and evicts as the value functions say |
| `TimedCache.RedisManager.Set` | app/redis.py:51-61 | the entry written, with no expiry for an absent or zero lifetime |
| `TimedCache.RedisManager.Delete` | app/redis.py:63-71 | the key is gone and nothing else |
| `TimedCache.RedisManager.CheckRateLimit` | app/redis.py:85-114 | the verdict and the stored counter for three separate clock readings |
| `TimedCache.IdealExactlyWithoutRegret` | app/redis.py:36-71 | for every sequence of operations on any clock, the lazily evicting cache answers as an ideal timed map if and only if no get reads a time before a deadline that an earlier get has read past |
| `TimedCache.CacheIsTimedMap` | app/redis.py:36-71 | in particular on every clock that does not run back |
| `TimedCache.ExpiryExact` | app/redis.py:59 | an entry lives as long as intended if and only if its expiry does not land on time 0 |
| `TimedCache.ClockMustNotRunBack` | app/redis.py:45-48 | after one set, two gets on arbitrary clocks answer ideally if and only if not t2 < expiry <= t1 |
| `RateLimiter.LimiterKeyInjective` | app/redis.py:90-93 | different (identifier, bucket) pairs never share a key, whatever colons the identifier holds |
| `RateLimiter.HitWrites` | app/redis.py:90-111 | one call writes one more than the number it read, under the key of its identifier and bucket, to expire two windows later; text that is no number makes it fail and stays |
| `RateLimiter.CountsAfter` | app/redis.py:108-111 | after any traffic the entry of each bucket holds the number of its calls and outlives the bucket by a window |
| `RateLimiter.CountKeptExactlyWhileLive` | app/redis.py:109-111 | one more call keeps a bucket's count exact if and only if it reads the counter before its expiry: the reason a call must not outlast its window |
| `RateLimiter.LimiterExact` | app/redis.py:108-114 | a call is allowed exactly when fewer than its limit came before it in its bucket; reset lies in 1..W and lands on the next bucket |
| `RateLimiter.AllowedPerBucket` | app/redis.py:108-114 | of n calls in a bucket exactly min(n, limit) are allowed |
| `RateLimiter.AllowedPerStretch` | app/redis.py:91-93 | any stretch of one window's length admits at most twice the limit |
| `RateLimiter.BoundIsReached` | app/redis.py:85-93 | from every start that is not a bucket's own, for every limit and window, some traffic gets twice the limit through in one window's length |
| `RateLimiter.SlidesExactlyWhenAligned` | app/redis.py:85-93 | every traffic stays within the limit over the window's length from a given start if and only if that start is where a bucket begins |
| `TokenClient.PhonePeClient.GetAccessToken` | app/services/phonepe_client.py:33-87 | cache lookup, exchange and caching with the 60 second buffer, on every path |
| `TokenClient.PhonePeClient.Send` | app/services/phonepe_client.py:89-143 | send, and on 401 one refresh and one more send, with the counts of sends and exchanges, and a network error on either send |
| `TokenClient.RetryRecovers` | app/services/phonepe_client.py:99-139 | whatever the cache held, a request whose exchanges succeed makes at most two sends and two exchanges, is sent again if and only if the first came back with 401, and ends in 401 if and only if the second does too: for a token not granted before and an endpoint that does not itself answer 401, if and only if it is sent outside that token's lifetime |
| `TokenClient.AuthFailsExactlyWhen` | app/services/phonepe_client.py:61-87 | a request fails for want of a token if and only if an exchange it needs yields none, and how often it was sent by then |
| `TokenClient.FetchedTokenServes` | app/services/phonepe_client.py:71-83 | a fetched token answers later requests without an exchange for exactly its lifetime less 60 s, at least 60 s, and 3540 s when none or zero is reported; a forced request always exchanges |
| `TokenClient.ServedOnlyWhileValid` | app/services/phonepe_client.py:80-82 | the cache serves a token only within its lifetime if and only if the lifetime covers 60 s plus the latency and the latency stays within 60 s |
| `TokenClient.CachedTokensAreOwnAndFresh` | app/services/phonepe_client.py:30-43 | in every history a cached token belongs to the tenant and environment that asks, is unexpired under that condition, and has more than 60 s less the latency left when its lifetime is at least 120 s |
| `TokenClient.KeysDisjoint` | app/services/phonepe_client.py:30-31 | token keys and limiter keys never meet in the shared dictionary |
| `Delivery.Dispatcher.Dispatch` | app/services/webhook_service.py:194-240 | attempts = POSTs <= limit; delivered if and only if some attempt within the limit succeeds, at the first such attempt; total sleep 2^(k-1)-1; every committed row is a crash state of the design |
| `Delivery.LastCodeExact` | app/services/webhook_service.py:213-232 | the code left on the row is that of the last answer; attempts that failed to connect leave it |
| `Delivery.RowTellsOutcome` | app/services/webhook_service.py:203-207 | a committed row determines whether the tenant gets the event if and only if it is not (FORWARDED, 0), which is compatible with either outcome |
| `KeyRotation.Store.RotateKeys` | scripts/rotate_master_key.py:22-52 | rotation succeeds if and only if every row can be rotated, then keeps every tenant's credentials readable and equal; otherwise the store is unchanged |
| `KeyRotation.EncryptThenDecrypt` | app/core/security.py:19-37 | decryption returns what was encrypted, the empty string included |
| `KeyRotation.RotationsCompose` | app/services/tenant_service.py:149-157 | after any chain of rotations the credentials read under the last key equal those read under the first |
| `KeyRotation.RotatedIsRotatableBack` | scripts/rotate_master_key.py:32-43 | after a successful rotation every row can be rotated back, and any such rotation restores the original reading under the old key |
| `KeyRotation.RotatedReads` | scripts/rotate_master_key.py:32-43 | after a rotation a tenant reads the secret that was encrypted, and its client id whether it had been stored encrypted, in the clear or empty |
| `KeyRotation.RotatableExactlyWhen` | scripts/rotate_master_key.py:32-49 | a secret that does not decrypt stops a rotation; one that does is no obstacle under a well-formed new key; rows without secrets never are |
| `ApiKeys.TenantService.CreateApiKey` | app/services/tenant_service.py:83-99 | the row inserted, or the error of a missing tenant or taken hash |
| `ApiKeys.TenantService.RevokeApiKey` | app/services/tenant_service.py:102-109 | the key's active flag is cleared and nothing else |
| `ApiKeys.TenantService.AuthenticateApiKey` | app/services/tenant_service.py:118-146 | the answer, and the last-used time written on success only |
| `ApiKeys.StripPadding` | app/core/security.py:53-55 | white space around a key does not matter |
| `ApiKeys.IssuedKeyAuthenticates` | app/services/tenant_service.py:83-146 | in every run a key handed out authenticates, padded or not, to itself and its tenant exactly while both are active |
| `ApiKeys.RevokedForGood` | app/services/tenant_service.py:102-109 | after a revocation no later operations make any spelling of the key authenticate again |
| `ApiKeys.OnlyTheRawKey` | app/services/tenant_service.py:126-136 | with an injective hash no other string authenticates to the key |
| `ApiKeys.IssuesExactlyWhen` | app/core/security.py:40-50 | a key is issued if and only if the tenant exists and id and hash are new; its form, stored hash and stored prefix of twelve characters, for both environments |
| `ApiKeys.IssuedKeyLogged` | app/core/logging.py:8 | redacted, every issued key is the prefix of its own row followed by the mask |
| `ApiKeys.AuthenticationWrites` | app/services/tenant_service.py:118-146 | an accepted key gets its time of use and nothing else changes; blank text and text of no stored hash are refused |
| `ApiKeys.HashIgnoresPadding` | app/core/security.py:53-55 | a key's hash is that of the key without white space around it |
| `ApiKeys.RevokeAndSwitch` | app/services/tenant_service.py:102-140 | a revocation clears one flag and nothing else; switching a tenant touches no key and decides whether its keys are accepted |
| `Dashboard.GetStats` | app/api/admin/stats.py:40-85 | the figures, and the loop's seven days as consecutive day windows ending today |
| `Dashboard.DaysTile` | app/api/admin/stats.py:63-79 | n consecutive day windows tile their range: daily orders and volumes add up to it |
| `Dashboard.DashboardAddsUp` | app/api/admin/stats.py:41-85 | on every reachable store the three status counts partition the orders, the week adds up, and no window outgrows the all-time volume |
| `Dashboard.DayExact` | app/api/admin/stats.py:63-79 | each day counts the orders created from its midnight on and before the next; its volume lies between the bounds of the COMPLETED ones' amounts |
| `Dashboard.VolumeExact` | app/api/admin/stats.py:54-55 | the same for the all-time volume |
| `Dashboard.SumConcat` | app/api/admin/stats.py:54-73 | a volume adds up over any division of the rows, so that those bounds fix it row by row |
| `Redaction.Redact` | app/core/logging.py:31-38 | the loop over the first two patterns leaves no substring that matches either |
| `Redaction.NothingLeft` | app/core/logging.py:7-9 | the same for every string: the second pass does not bring back a match of the first |
| `Redaction.RedactedTwice` | app/core/logging.py:31-38 | redaction is idempotent |
| `Redaction.SubShowsCut` | app/core/logging.py:36-37 | of any leftmost-greedy cut, a pass copies everything outside the matches unchanged and in order, and of each match shows its fixed start and the mask |
| `Redaction.EveryStringShown` | app/core/logging.py:31-38 | every string has such a cut, and the pass shows it |
| `Redaction.ApiKeyShown` | app/core/logging.py:8 | a live or test key of five or more letters and digits shows its mark and four of them, and the text after it is redacted in turn; a shorter one is no match |
| `Redaction.WebhookSecretShown` | app/core/logging.py:9 | a webhook secret shows its mark alone; the bare mark is no match |

## Left out

- HTTP transport, routing, JSON and base64 decoding, schema parsing: events carry decoded fields.
- Endpoint paths, hosts and request bodies sent to PhonePe: only the answers enter the model.
- The check of the webhook signature itself and the signing of outbound payloads: the verdict is an input, the signature a constant of the row.
- A real Redis connection and its fall-through on errors: the model is the in-memory path.
- Fields with no effect on the results: names, metadata, customer data, response payloads, `updated_at`, and ids of transactions and logs, which are positions in their sequences.
- Overlapping polls, webhooks and refunds on one committed order: stale reads can break the agreement of order and ledger, so no claim is made.
- Isolation.NonInterference: a webhook that raises because two tenants share its reference is in no tenant's share, and the reduced run leaves it out; when exactly that happens is `LedgerResults.HookReachesExactlyUnshared`. The inbound log is not among a tenant's rows.
- Unsupported HTTP methods in the request sender: its callers only use GET and POST.
- `int()` on a stored counter accepts more spellings than plain digits; the limiter never stores any other, and the model reads any other as an error.
- Rupee rounding and the success rate of the dashboard: the model works in paise.
- Tenant and key listings, tenant updates beyond replacing a row, and the dashboard's tenant and key counts: easy members.
- Redaction patterns 3 to 7, which need case folding and optional white space, and the filter's treatment of non-string arguments.
