# Verified protocols of the workspace template

Dafny 4.11 models of the parts of this repository whose correctness rests on order, time or
rewriting, with proofs of what they promise. `dafny verify dfyconfig.toml` checks everything.

| file | subject |
|---|---|
| `Redis.dfy`, `FiniteSets.dfy`, `Optional.dfy` | keys with an optional expiry, as the Redis service sets them; sizes of sets; absent values |
| `CacheKeys.dfy`, `CanonicalJson.dfy`, `JsonText.dfy` | key text, eviction patterns, the canonical text that is hashed into keys |
| `CacheProtocol.dfy` | the cache service and interceptor as interleaved atomic steps of any number of requests on any number of instances over one Redis, with a clock and failing Redis commands |
| `CacheService.dfy` | the same steps in place: each method is one stretch of code between two awaits, is proved to be one protocol step and keeps the protocol's invariants |
| `CacheInvariant.dfy`, `CacheIsolation.dfy`, `CacheAge.dfy` | what every value's history is, version isolation, age of hits |
| `CacheFlight.dfy`, `CacheLock.dfy` | single flight, handler counts, the stampede lock |
| `CacheAnswers.dfy`, `CacheProgress.dfy` | what every request is answered, error or value; that a request left to itself is answered |
| `CacheRuns.dfy` | concrete runs from an empty Redis that show where the exact conditions bite |
| `RateLimit.dfy` | the sliding-window script, its window bound, its exact denials, its refinement of a plain counter |
| `Sessions.dfy`, `Proxy.dfy` | session table and outbox log; the dashboard's gate, alone and composed with the session backend |
| `Idempotency.dfy` | the key row and the find / begin / run / complete-or-fail protocol in any interleaving |
| `Notifications.dfy` | fan-out over five channels with arbitrary failures |
| `EmailVerification.dfy`, `Keyset.dfy`, `Slug.dfy` | one usable token; paging while the table changes; slugs |

Time is in milliseconds; numbers are unbounded, and no modelled quantity comes near a limit of
the original's doubles or 64-bit counters.

## Where the code differs from what one would expect

Each of these is stated as a lemma, with the exact condition:

- The first bump of a prefix without a version counter evicts nothing, since an absent counter reads
  as 1 and INCR makes it 1 (`CacheIsolation.UnseededBumpIsLost`, `CacheIsolation.BumpRaises`, and the run `CacheRuns.LostBumpHappens`).
- A cache write whose ttl + max(staleTtl, 0) is 0 is stored without expiry and then served, as stale,
  until the version changes (`CacheAge.WindowBoundsAge`).
- Deleting an entity deletes the locks of its versions as well, held or not, so that an eviction can let
  a second compute in (`CacheLock.EvictionDropsHeldLock`, `CacheLock.SecondHolderIff`, and the run `CacheRuns.TwoHoldersHappen`).
- Prefix "a" with id "b:c" and prefix "a:b" with id "c" share keys (`CacheKeys.VersionedKeysCollide`).
- An own property named `__proto__` is lost in `normalize`, so such inputs share a cache key
  (`JsonText.ProtoFieldsCollide`; it is part of what agreement means in `JsonText.SameTextIffSame`).
- A failed idempotency row keeps the body it was claimed with, so a retry with another body is a
  conflict (`Idempotency.FailedIsRetryable`); a failed `complete` re-opens a key whose handler succeeded
  (`Idempotency.LostCompletionRunsAgain`, and the run `Idempotency.TwoSuccessesHappen`).
- An erasure handled late also revokes sessions begun after the erasure was published, which no event
  reports (`Sessions.LateErasureIff`).
- A refresh endpoint that answers a success without data is taken for neither a rotation nor a failure, and
  redirects between the login page and the home page need not end (`Proxy.BoundedIffNeverEmpty`).
- On a public path a lost refresh reply leaves the browser with a dead refresh cookie
  (`Proxy.StaysInStep`).

## Model

| member | source | states |
|---|---|---|
| `CacheServices.CacheService.GetVersionedKey` | packages/server/cache/src/cache.service.ts:391-394 | building a key reads the counter once, an absent one as 1, and is exactly the protocol step `ReadVersion` |
| `CacheServices.CacheService.Resolve` | packages/server/cache/src/cache.service.ts:128-146 | a caller joins the promise in flight for its key on its instance, or registers its own and starts reading; a bypass goes straight to its handler |
| `CacheServices.CacheService.ReadRaw` | packages/server/cache/src/cache.service.ts:277-279 | a failed or empty read counts as nothing found |
| `CacheServices.CacheService.ClassifyStored` | packages/server/cache/src/cache.service.ts:148-179 | what was found is served, a stale one with a refresh behind it; a miss goes on to compute |
| `CacheServices.CacheService.AcquireLock` | packages/server/cache/src/cache.service.ts:199-211 | SET NX EX takes a free lock; a failed reply counts as not acquired even when the lock was set |
| `CacheServices.CacheService.SetLock` | packages/server/infrastructure/redis/src/services/redis.service.ts:96-99 | a free lock is set for its TTL, unless the command was not carried out; acquired means free and answered |
| `CacheServices.CacheService.WaitForValue` | packages/server/cache/src/cache.service.ts:256-269 | one poll: a stored value ends the wait, an undefined one or the last round leads to computing without writing |
| `CacheServices.CacheService.FactorySettles` | packages/server/cache/src/cache.service.ts:188-248 | after the factory: write if `shouldCache` accepts, otherwise give the lock back or settle; a throw skips the write |
| `CacheServices.CacheService.StoreEnvelope` | packages/server/cache/src/cache.service.ts:281-292 | the envelope is kept for ttl + max(staleTtl, 0) seconds, without expiry when that is 0, and refused when negative |
| `CacheServices.CacheService.WriteRaw` | packages/server/cache/src/cache.service.ts:250-292 | a write stores the envelope or fails, then the thread completes with its value or its error |
| `CacheServices.CacheService.ReleaseLock` | packages/server/cache/src/cache.service.ts:208-210 | the lock key is deleted whoever holds it; a failed deletion is ignored |
| `CacheServices.CacheService.ForgetPromise` | packages/server/cache/src/cache.service.ts:141-145 | the in-flight entry goes when its promise settles, by value or by error |
| `CacheServices.CacheService.BumpVersion` | packages/server/cache/src/cache.service.ts:397-401 | INCR: an absent counter becomes 1, a present one grows by one, without expiry |
| `CacheServices.CacheService.DeleteMatching` | packages/server/cache/src/cache.service.ts:315-320 | the listed keys of an entity's pattern go, which never include the version counter |
| `CacheServices.CacheService.HandleEviction` | packages/server/cache/src/cache.interceptor.ts:240-250 | an evicting request starts by running its handler, once |
| `CacheServices.CacheService.HandlerSettles` | packages/server/cache/src/cache.interceptor.ts:249-264 | evictions follow a handler that succeeded; one that threw is rethrown |
| `CacheServices.CacheService.AnswerEviction` | packages/server/cache/src/cache.interceptor.ts:249-264 | the request is answered when its evictions are over, failed or not |
| `CacheServices.CacheService.Answer` | packages/server/cache/src/cache.service.ts:128-146 | after any sequence of calls, an answered value was made by the factory of a request for the same entity at the same version; a hit was accepted by that request's `shouldCache`; a joiner ran no handler |
| `CacheInvariant.RunKeepsInv` | packages/server/cache/src/cache.service.ts:128-292 | in every interleaving of any requests on any instances: every value in a program point, in flight or in Redis was made for its key, by a factory started after its request read the version in that key; versions never decrease |
| `CacheIsolation.VersionIsolation` | packages/server/cache/src/cache.service.ts:391-434 | if an INCR hits a present counter, no request that reads the version afterwards ever returns a value whose factory was started before it, whatever older fills, refreshes or write-throughs land later |
| `CacheIsolation.VersionAfterBumps` | packages/server/cache/src/cache.service.ts:391-401 | after k bumps of an absent counter the version read is max(1, k); of a present one, its value plus k |
| `CacheIsolation.ServesWhatIsStored` | packages/server/cache/src/cache.service.ts:128-168 | a lone request returns, as a hit, the envelope stored under the current version's key |
| `CacheIsolation.UnseededBumpIsLost` | packages/server/cache/src/cache.service.ts:391-401 | the first bump of an unseeded prefix evicts nothing: a value cached before it is served to a request that reads the version after it |
| `CacheRuns.LostBumpHappens` | packages/server/cache/src/cache.service.ts:391-401 | from an empty Redis: a fill, an eviction's bump, and a later reader that is given the value made before the bump |
| `CacheAge.Provenance` | packages/server/cache/src/cache.service.ts:148-186 | every value `resolve` returns was made by the factory of a request for exactly that key; one taken from the cache was accepted by its request's `shouldCache` |
| `CacheAge.OnlyStorableIsStored` | packages/server/cache/src/cache.service.ts:250-254 | nothing rejected by `shouldCache` is ever in Redis, and nothing under a key it was not made for |
| `CacheAge.HitAge` | packages/server/cache/src/cache.service.ts:271-292 | a hit is unmarked if and only if it is at most its writer's ttl old when judged; any hit is at most ttl + max(staleTtl, 0) old when read, unless that sum is 0 |
| `CacheAge.WindowBoundsAge` | packages/server/infrastructure/redis/src/services/redis.service.ts:16-23 | the age of what can be read after a write is bounded by the window if and only if the window is not 0: a zero TTL is stored without expiry |
| `CacheFlight.RunKeepsFlight` | packages/server/cache/src/cache.service.ts:128-146 | in every interleaving each instance's map holds exactly its resolutions in flight, followers point at a resolution of their key, and handler counts fit every program point |
| `CacheFlight.SingleFlight` | packages/server/cache/src/cache.service.ts:128-146 | at every step at most one resolution per key and instance is in flight |
| `CacheFlight.MapHoldsWhatIsResolving` | packages/server/cache/src/cache.service.ts:138-145 | a key is in the map if and only if some request is resolving it: entries go exactly when their promise settles, by success or failure |
| `CacheFlight.JoinersShareTheOutcome` | packages/server/cache/src/cache.service.ts:133-136 | whoever joined gets the leader's one outcome and never runs a handler |
| `CacheFlight.HandlerRunsAtMostOnce` | packages/server/cache/src/cache.interceptor.ts:128-267 | on every path (hit, stale hit, miss, lock wait, bypass, evict) a request's handler runs at most once, background refresh included; an evicting request has run it once when it answers |
| `CacheAnswers.ThrewIff` | packages/server/cache/src/cache.service.ts:148-224 | in every interleaving an answer is an error if and only if its author's factory threw, or its author's write was not confirmed or had a negative time to live; the author of a joiner's answer is the request it joined |
| `CacheAnswers.EveryAnswerHasASource` | packages/server/cache/src/cache.service.ts:148-269 | in every interleaving a returned value is the author's factory's result, not reported as a hit; or what its read found under its key, reported as a hit; or what it found there while waiting |
| `CacheAnswers.AnswersTheFactory` | packages/server/cache/src/cache.service.ts:177-224 | in every interleaving a request whose own factory settles is answered with that result, as a miss, or with an error |
| `CacheAnswers.EvictionAnswersTheHandler` | packages/server/cache/src/cache.interceptor.ts:249-266 | an evicting request is answered as its handler ended, however its evictions went |
| `CacheProgress.MissAnswers` | packages/server/cache/src/cache.service.ts:170-197 | a request left to itself on a miss is answered with its factory's result, which is stored under its key if and only if `shouldCache` accepts it |
| `CacheProgress.LockedMissAnswers` | packages/server/cache/src/cache.service.ts:199-211 | with the lock, which is free, the same, and the lock is given back |
| `CacheProgress.WaitingMissAnswers` | packages/server/cache/src/cache.service.ts:213-223 | while somebody else keeps the lock, five polls that find nothing lead to the request's own result, and nothing is written |
| `CacheProgress.WaiterTakesTheValue` | packages/server/cache/src/cache.service.ts:256-269 | a value that appears under the key while the request waits is its answer |
| `CacheProgress.BypassAnswers` | packages/server/cache/src/cache.interceptor.ts:150-160 | a bypass is answered with its handler's result, which is written through if accepted |
| `CacheProgress.StaleIsRefreshed` | packages/server/cache/src/cache.service.ts:162-168 | a stale value is served at once and replaced by the refresh's result; the lock is given back |
| `CacheLock.LockExclusion` | packages/server/cache/src/cache.service.ts:188-248 | if the holders of a key's lock finish within its TTL and no eviction deletes that lock while held, at most one foreground compute or background refresh holds it, in every interleaving and whatever happens to other keys' locks |
| `CacheLock.RunWritesUnderLease` | packages/server/cache/src/cache.service.ts:199-248 | with `lock: true` a resolution writes its key only under the lease, and every background refresh writes under one; a bypass writes through without it |
| `CacheLock.OneWriterPerKey` | packages/server/cache/src/cache.service.ts:188-248 | under the same premises at most one background refresh, or resolution with `lock: true`, writes a key at a time |
| `CacheLock.SecondHolderIff` | packages/server/cache/src/cache.service.ts:201-211 | after time passes, or keys are deleted, a second request acquires a held lock if and only if the deadline was overrun, or the lock was among the keys |
| `CacheLock.EvictionDropsHeldLock` | packages/server/cache/src/cache.service.ts:315-320 | an entity eviction's pattern covers the locks of the entity's versions, so an eviction drops a lock that is held |
| `CacheRuns.TwoHoldersHappen` | packages/server/cache/src/cache.service.ts:188-224 | from an empty Redis: a held lock is overrun, or evicted, and a second request holds it beside the first |
| `CacheKeys.VersionedKeysCollide` | packages/server/cache/src/cache.service.ts:424-434 | two versioned keys are equal if and only if the versions are and prefix and id spell the same text, prefixes included |
| `CacheKeys.VersionedKeyInjective` | packages/server/cache/src/cache.service.ts:424-428 | under one prefix a key determines id and version |
| `CacheKeys.ListKeyIsVersioned` | packages/server/cache/src/cache.service.ts:430-434 | list keys are versioned keys of ids that start with "list:", so isolation covers them |
| `CacheKeys.KindsDisjoint` | packages/server/cache/src/cache.service.ts:403-434 | versioned keys, lock keys and version counters never coincide |
| `CacheKeys.EntityPatternReach` | packages/server/cache/src/cache.service.ts:315-320 | deleting an entity removes a versioned key if and only if it belongs to the id or to an id nested below it; it removes its locks, and never the counter or the unversioned key |
| `CanonicalJson.NormalFormsDecide` | packages/server/cache/src/cache.service.ts:500-516 | two values have the same normal form if and only if they agree up to key order, dropped fields, and undefined, null and request-like objects being one |
| `CanonicalJson.NormalFormAgrees` | packages/server/cache/src/cache.service.ts:500-516 | the normal form is well formed, has no undefined left and agrees with its input |
| `CanonicalJson.NormalizeIdempotent` | packages/server/cache/src/cache.service.ts:500-516 | `normalize` is idempotent |
| `JsonText.TextUnique` | packages/server/cache/src/cache.service.ts:525-535 | JSON text is uniquely readable: inside any text, equal texts come from equal values with equal rests |
| `JsonText.SameTextIffSame` | packages/server/cache/src/cache.service.ts:490-535 | two inputs are hashed from the same text if and only if they agree |
| `JsonText.FieldCounts` | packages/server/cache/src/cache.service.ts:508-514 | changing the value of one field changes an object's text if and only if the field appears or disappears or its value's text changes, for every key but `__proto__` |
| `JsonText.ItemsCount` | packages/server/cache/src/cache.service.ts:500-516 | arrays share a text if and only if they are as long and their items do, place by place |
| `JsonText.NullTextIff` | packages/server/cache/src/cache.service.ts:500-507 | a text is "null" if and only if the value is undefined, null or an object with own keys `headers` and `method` |
| `JsonText.ScalarsCount` | packages/server/cache/src/cache.service.ts:490-492 | booleans, integers and strings share a text if and only if they are equal |
| `JsonText.OrderNeverCounts` | packages/server/cache/src/cache.service.ts:508-514 | objects with the same fields share a text in whatever order they list them |
| `JsonText.ProtoFieldsCollide` | packages/server/cache/src/cache.service.ts:500-516 | an own `__proto__` property makes no difference to the text |
| `RateLimit.Limiter.RunScript` | packages/server/rate-limit/src/rate-limit.service.ts:21-52 | the script in place: prune, count, refuse with the reset time, or add and set the expiry |
| `RateLimit.Limiter.Check` | packages/server/rate-limit/src/rate-limit.service.ts:65-102 | the decision: allowed with the exact remainder and a reset a whole window away, or denied with the least whole number of seconds, at least 1, that reaches the reset |
| `RateLimit.NeverOverfull` | packages/server/rate-limit/src/rate-limit.service.ts:21-52 | over every run the sorted set never holds more than `limit` entries |
| `RateLimit.WindowBound` | packages/server/rate-limit/src/rate-limit.service.ts:21-77 | over every run with callers' clocks in a band of width d around Redis time, every interval (a, a + window - d] of Redis time admits at most `limit` calls |
| `RateLimit.StillStored` | packages/server/rate-limit/src/rate-limit.service.ts:44-49 | neither pruning nor the windowSeconds + 5 expiry loses an entry that still counts |
| `RateLimit.WindowBoundIsTight` | packages/server/rate-limit/src/rate-limit.service.ts:21-77 | for every limit >= 1 and every d with 1 <= d <= window, a run shows that one millisecond more than window - d admits limit + 1 calls |
| `RateLimit.RefinesPlainCounter` | packages/server/rate-limit/src/rate-limit.service.ts:29-51 | with one non-decreasing callers' clock at most 5 s out of step, the script admits exactly the calls that a counter of all past admissions in (now - window, now] admits |
| `RateLimit.DeniedUntilReset` | packages/server/rate-limit/src/rate-limit.service.ts:34-42 | after a denial every call before the reset is denied and changes nothing |
| `RateLimit.ResetIsExact` | packages/server/rate-limit/src/rate-limit.service.ts:34-42 | after a denial the next call is denied if and only if it comes before `resetAtMs`, whatever the traffic between |
| `RateLimit.RemainingIsExact` | packages/server/rate-limit/src/rate-limit.service.ts:44-51 | after an admission exactly `remaining` more calls stamped with the same millisecond get in, whenever they reach Redis before the admitted entry can expire |
| `RateLimit.AdmittedResetIsExact` | packages/server/rate-limit/src/rate-limit.service.ts:44-51 | the reset time of an admission is a whole window later, and the next call finds nothing counted if and only if it comes no earlier |
| `RateLimit.KeyExpiresIff` | packages/server/rate-limit/src/rate-limit.service.ts:44-51 | without further admissions the key is gone if and only if it has outlived the window by five seconds |
| `Sessions.AuthService.Issue` | modules/auth/src/application/services/session-issuer.service.ts:34-107 | one row per user and device is replaced or created, unrevoked, with the new session id, and the created fact is appended |
| `Sessions.AuthService.Refresh` | modules/auth/src/application/use-cases/refresh-token.use-case.ts:34-63 | a known, unrevoked, unexpired session of an active user is revoked, reported and replaced; anything else changes nothing |
| `Sessions.AuthService.Logout` | modules/auth/src/application/use-cases/logout.use-case.ts:30-46 | the row is revoked, the access token blacklisted for the time it has left, the revocation reported |
| `Sessions.AuthService.Erase` | modules/auth/src/infrastructure/event-handlers/revoke-sessions-on-erasure.handler.ts:38-49 | all rows of the subject's user are revoked; a subject without a user changes no row |
| `Sessions.LogReplaysToTable` | modules/auth/src/application/services/session-issuer.service.ts:47-99 | over any run, folding the events gives exactly the unrevoked rows, although an overwritten session is never reported as revoked |
| `Sessions.EndedForGood` | modules/auth/src/application/use-cases/refresh-token.use-case.ts:34-63 | over any run with fresh ids a session id that is not active is never active again |
| `Sessions.EndsSession` | modules/auth/src/application/services/session-issuer.service.ts:47-84 | rotation, sign-out, erasure and a new login on the same device each end the session they replace |
| `Sessions.SingleUse` | modules/auth/src/application/use-cases/refresh-token.use-case.ts:34-63 | a refresh token works once: after its rotation no later refresh with it succeeds |
| `Sessions.RotatesIff` | packages/server/auth/core/src/strategies/refresh-token.strategy.ts:38-58 | an unrevoked session's token rotates if and only if it has not expired and its user is not suspended; the new session is the same user's, on the request's device, with a full lifetime |
| `Sessions.LoginRefreshesIff` | modules/auth/src/application/use-cases/refresh-token.use-case.ts:34-63 | after a login, through any run that spares the session, its token rotates if and only if the refresh lifetime has not passed and the last suspension does not name the user |
| `Sessions.RotationRefreshesIff` | modules/auth/src/application/use-cases/refresh-token.use-case.ts:34-63 | the same of a session begun by a rotation |
| `Sessions.SessionsDoNotMultiply` | modules/auth/src/application/services/session-issuer.service.ts:34-84 | a login adds at most one active session for its user, every other step none, even a rotation onto another device; other users are untouched |
| `Sessions.SignedOutStaysBlacklisted` | modules/auth/src/application/use-cases/logout.use-case.ts:33-38 | over any run a signed-out session's access token is blacklisted for as long as it would be valid |
| `Sessions.LateErasureIff` | modules/auth/src/infrastructure/event-handlers/revoke-sessions-on-erasure.handler.ts:38-49 | when the handler runs some time after the erasure was published, the log still replays to the table if and only if the user has no new unrevoked session by then |
| `Proxy.Handle` | apps/dashboard/src/proxy.ts:40-110 | the gate in place: when it calls the refresh endpoint, where it redirects, which cookies it sets or clears, and what it forwards downstream |
| `Proxy.CalledIff` | apps/dashboard/src/proxy.ts:51-54 | the endpoint's answer matters if and only if there is a refresh cookie and no readable access token good for more than a minute |
| `Proxy.PagesGetGoodTokens` | apps/dashboard/src/proxy.ts:51-92 | with a refresh cookie and an endpoint that grants a good pair, every page is rendered with an access token good for more than a minute |
| `Proxy.QuietAfterRotation` | apps/dashboard/src/proxy.ts:95-128 | after a rotation, for all but the last 61 seconds of the granted time, no sequence of requests calls the endpoint or changes the jar |
| `Proxy.RefreshCookieLasts` | apps/dashboard/src/proxy.ts:104-107 | a rotation's refresh cookie is sent for thirty days |
| `Proxy.StrangersSee` | apps/dashboard/src/proxy.ts:22-79 | without auth cookies exactly the public pages are served, everything else leads to the login page, which remembers the path |
| `Proxy.MembersSee` | apps/dashboard/src/proxy.ts:42-64 | with a good access token every page is served but those for logging in, which lead home |
| `Proxy.RedirectsSettle` | apps/dashboard/src/proxy.ts:40-93 | from any path, cookies and passage of time, if every refresh answer carries a pair or fails, following redirects reaches a page after at most two of them |
| `Proxy.BoundedIffNeverEmpty` | apps/dashboard/src/proxy.ts:40-149 | redirect chains are bounded if and only if the refresh endpoint never answers a success without data: such an answer is neither a rotation nor a failure, and clears nothing |
| `Proxy.TwoRedirectsHappen` | apps/dashboard/src/proxy.ts:62-79 | two is the least bound: a visit to the login page can take two redirects |
| `Proxy.LoginRedirectLeavesNothing` | apps/dashboard/src/proxy.ts:66-79 | unless the refresh answer was a success without data, a redirect to the login page leaves no auth cookie the browser would still send |
| `Proxy.StaysInStep` | apps/dashboard/src/proxy.ts:48-109 | a request made with a live refresh cookie leaves the browser with a dead one if and only if a refresh was attempted, its reply was lost and the path is public; the render sees the cookie the browser gets |
| `Proxy.DeliveredKeepsLive` | apps/dashboard/src/proxy.ts:48-109 | with delivered replies the browser holds a live refresh cookie after every request, on every path |
| `Idempotency.KeyRepository.Begin` | packages/server/infrastructure/persistence/outbox/src/adapters/prisma-idempotency-key.adapter.ts:24-69 | EXECUTE if and only if the key is new, its last attempt failed, or it is stuck past its TTL; otherwise SKIP with the stored response, if completed |
| `Idempotency.KeyRepository.Complete` | packages/server/infrastructure/persistence/outbox/src/adapters/prisma-idempotency-key.adapter.ts:71-84 | the row is completed, a null result leaving the stored payload as it was; without a row the update fails |
| `Idempotency.KeyRepository.Fail` | packages/server/infrastructure/persistence/outbox/src/adapters/prisma-idempotency-key.adapter.ts:86-94 | the row is marked failed and keeps its body hash; without a row the update fails |
| `Idempotency.KeyRepository.DeleteExpiredKeys` | packages/server/infrastructure/persistence/outbox/src/adapters/prisma-idempotency-key.adapter.ts:133-138 | exactly the rows past their TTL go |
| `Idempotency.Intercept` | packages/server/idempotency/src/idempotency.interceptor.ts:46-105 | an uninterrupted request is the protocol run find, begin, then complete or fail |
| `Idempotency.AtMostOneSuccess` | packages/server/idempotency/src/idempotency.interceptor.ts:46-105 | in every interleaving over any keys and of any length, the handler succeeds for at most one request of a key that is not claimed past its TTL while its holder works, not purged while held or completed, and whose completions are recorded |
| `Idempotency.DayIsSafe` | packages/server/idempotency/src/idempotency.interceptor.ts:16-76 | a claim protects its key for 24 hours: every shorter run over any keys in which the key's completions are recorded keeps to the premises of the guarantees |
| `Idempotency.OneSuccessADay` | packages/server/idempotency/src/idempotency.interceptor.ts:46-105 | within 24 hours the handler succeeds for at most one request of a key, with no premise but recorded completions |
| `Idempotency.ReplaysForADay` | packages/server/idempotency/src/idempotency.interceptor.ts:58-100 | within 24 hours a request that comes after the success is given its response, or a conflict, and runs nothing |
| `Idempotency.CompletedStays` | packages/server/infrastructure/persistence/outbox/src/adapters/prisma-idempotency-key.adapter.ts:24-69 | a completed key keeps its response, under the same premises about that key alone |
| `Idempotency.ReplaysTheResponse` | packages/server/idempotency/src/idempotency.interceptor.ts:58-100 | after a recorded success, in every further interleaving, a request that had not looked the key up yet runs nothing: with the same body its only answer is the recorded response, with another body a conflict |
| `Idempotency.LookedBeforeReplays` | packages/server/infrastructure/persistence/outbox/src/adapters/prisma-idempotency-key.adapter.ts:40-46 | a request that had looked before the key existed is given the stored response whatever its body, in every further interleaving |
| `Idempotency.FailedIsRetryable` | packages/server/idempotency/src/idempotency.interceptor.ts:96-100 | after a thrown handler the next request runs its handler if and only if it carries the same body; with another body it is a conflict |
| `Idempotency.UnrecordedFailureBlocks` | packages/server/infrastructure/persistence/outbox/src/adapters/prisma-idempotency-key.adapter.ts:48-68 | when the failure cannot be recorded either, a retry runs if and only if the TTL has passed |
| `Idempotency.SecondRunIffExpired` | packages/server/infrastructure/persistence/outbox/src/adapters/prisma-idempotency-key.adapter.ts:48-68 | a second request runs the handler beside a first if and only if the first has outlived its key |
| `Idempotency.LostCompletionRunsAgain` | packages/server/idempotency/src/idempotency.interceptor.ts:82-100 | when recording a completion fails, carried out or not, a retry succeeds a second time if and only if it carries the same body |
| `Idempotency.PurgedRunsAgainIff` | packages/server/infrastructure/persistence/outbox/src/adapters/prisma-idempotency-key.adapter.ts:133-138 | after a purge a request for a completed key runs its handler if and only if the TTL has passed |
| `Idempotency.TwoSuccessesHappen` | packages/server/idempotency/src/idempotency.interceptor.ts:82-100 | from an empty table: a refused completion, then a retry that succeeds again |
| `Idempotency.TwoRunsHappen` | packages/server/infrastructure/persistence/outbox/src/adapters/prisma-idempotency-key.adapter.ts:48-68 | from an empty table: a handler that outlives its key, and a second one beside it |
| `Notifications.Dispatcher.Dispatch` | modules/notifications/src/application/services/notification-dispatch.service.ts:129-225 | the calls made are the channels' own decisions, in order, whatever fails; it always returns |
| `Notifications.Dispatcher.PushToDevices` | modules/notifications/src/application/services/notification-dispatch.service.ts:203-222 | one record and send per device, in order, up to the first failure |
| `Notifications.Dispatcher.DispatchInApp` | modules/notifications/src/application/services/notification-dispatch.service.ts:247-318 | gate if the user is known, create, store, publish |
| `Notifications.Dispatcher.DispatchGated` | modules/notifications/src/application/services/notification-dispatch.service.ts:322-350 | override, then preference, then the channel's own calls |
| `Notifications.Dispatcher.CreateRecord` | modules/notifications/src/application/services/notification-dispatch.service.ts:352-395 | a notification, then its delivery with the channel's provider |
| `Notifications.ChannelsDoNotInterfere` | modules/notifications/src/application/services/notification-dispatch.service.ts:129-238 | for every failure pattern and device list a channel's calls equal those of a dispatch carrying that channel alone |
| `Notifications.EverySendIsRecorded` | modules/notifications/src/application/services/notification-dispatch.service.ts:352-380 | every email, SMS, WhatsApp and push send comes right after the creation of its own notification and delivery record |
| `Notifications.GatedOnlyWhenAllowed` | modules/notifications/src/application/services/notification-dispatch.service.ts:322-350 | records, device listings and sends behind the gate happen only if forced or not opted out |
| `Notifications.SentIff` | modules/notifications/src/application/services/notification-dispatch.service.ts:129-200 | an email, SMS or WhatsApp message is sent once, to the address asked for, if and only if it was asked for, both records exist and, but for email, the user is known and the gate passes |
| `Notifications.PassesIff` | modules/notifications/src/application/services/notification-dispatch.service.ts:334-347 | the gate opens if and only if delivery is forced, or it is not and the preference could be looked up and is unset or enabled |
| `Notifications.InAppIff` | modules/notifications/src/application/services/notification-dispatch.service.ts:247-318 | an in-app notification is created if and only if it is asked for and addressed to somebody who, if a known user, may be contacted; what is created is stored, and what is stored for a known user is published |
| `Notifications.PushReaches` | modules/notifications/src/application/services/notification-dispatch.service.ts:203-222 | push sends go to the devices in order up to and including the first that fails; they reach a prefix of the devices, and all of them if and only if nothing failed |
| `Notifications.PushChannelReaches` | modules/notifications/src/application/services/notification-dispatch.service.ts:203-222 | the same of a whole dispatch's push channel, whose devices are none unless it is asked for, allowed and they could be listed |
| `EmailVerification.VerificationService.RequestVerification` | modules/auth/src/application/use-cases/request-email-verification.use-case.ts:45-84 | all earlier tokens of the user are spent, then one is created and mailed |
| `EmailVerification.VerificationService.VerifyEmail` | modules/auth/src/application/use-cases/verify-email.use-case.ts:49-85 | an unknown or spent token is invalid, an overdue one expired; otherwise mark, flag, event and eviction |
| `EmailVerification.RunGuarantees` | modules/auth/src/application/use-cases/verify-email.use-case.ts:49-82 | over any run: at most one unused token per user, one event per token, every event's token spent, and flagged users are exactly those with an event |
| `EmailVerification.OlderNeverVerifies` | modules/auth/src/application/use-cases/request-email-verification.use-case.ts:45-59 | after a newer request an older token never verifies, whatever happens in between |
| `EmailVerification.VerifiesOnce` | modules/auth/src/application/use-cases/verify-email.use-case.ts:49-82 | a token that verified never verifies again |
| `EmailVerification.FreshTokenVerifiesIff` | modules/auth/src/application/use-cases/request-email-verification.use-case.ts:18-59 | a new token that is not superseded or used verifies its user's email if and only if 24 hours have not passed, whatever other users do |
| `Keyset.NothingTwice` | modules/profiles/src/application/application-port/profiles-application.service.ts:81-95 | whatever is written between the pages, following `nextAfterId` yields strictly increasing ids |
| `Keyset.NothingMissed` | modules/profiles/src/application/application-port/profiles-application.service.ts:81-95 | a profile that stays active and included through a scan that ends is yielded |
| `Keyset.NothingInvented` | modules/profiles/src/application/application-port/profiles-application.service.ts:81-95 | everything yielded was an active, included row of a table that was read |
| `Keyset.FixedTable` | modules/profiles/src/application/application-port/profiles-application.service.ts:81-95 | over an unchanging table the scan ends and yields exactly the active profiles not owned by the excluded user, in id order, even when whole pages are filtered away |
| `Keyset.FixedTableYields` | modules/profiles/src/application/application-port/profiles-application.service.ts:81-95 | over an unchanging table a scan yields a profile if and only if it is not deleted and not the excluded user's, once each, in id order |
| `Keyset.CompleteIff` | modules/profiles/src/application/application-port/profiles-application.service.ts:87 | the scan is complete if and only if the page size is at least 1 or there is nothing to yield |
| `Keyset.BatchIsBounded` | modules/profiles/src/application/application-port/profiles-application.service.ts:81-95 | a batch never carries more than `limit` profiles; with nobody excluded it hands out a key if and only if it is full |
| `Slug.Slugify` | packages/client/lib/src/utils/index.ts:119-149 | the five passes and the cut equal one scan that keeps letters and digits and joins words by single hyphens |
| `Slug.JoinsWords` | packages/client/lib/src/utils/index.ts:136-141 | two alphanumeric words with spaces, underscores or hyphens between them are joined by one hyphen; such characters around a text disappear |
| `Slug.GrowTogether` | packages/client/lib/src/utils/index.ts:137-138 | two words with only other characters between them grow together |
| `Slug.SlugShape` | packages/client/lib/src/utils/index.ts:136-148 | the slug has only letters, digits and single inner hyphens, is lower-case if asked, and respects a positive maxLength |
| `Slug.CutIsLongest` | packages/client/lib/src/utils/index.ts:143-146 | a cut slug is the longest prefix of the full slug that fits and is a slug, at most one character under the limit |
| `Slug.FixedIffSlug` | packages/client/lib/src/utils/index.ts:119-149 | `slugify` leaves a text alone if and only if it is a slug |
| `Slug.SlugifyIdempotent` | packages/client/lib/src/utils/index.ts:119-149 | with any options a second `slugify` changes nothing |
| `Slug.UnslugifyKeepsSlug` | packages/client/lib/src/utils/index.ts:151-158 | `unslugify` never changes a text's slug |
| `Slug.UnslugifySpells` | packages/client/lib/src/utils/index.ts:151-158 | a slug is spelled out: hyphens become spaces, words get capitals, nothing else changes |
| `Slug.RoundTripIff` | packages/client/lib/src/utils/index.ts:119-158 | `slugify(unslugify(s))` is s if and only if s is a lower-case slug |

## Left out

- Cache requests as running code: a request's frame is a value (`Task`) in `CacheService`'s field, since its steps interleave with other requests'; the methods are the stretches between awaits, and timers, retries' sleeps and the order of microtasks are covered by arbitrary interleaving and clock steps.
- Failing version reads and `condition`: a request whose version read fails never reaches the cache and one whose condition is false runs only its handler.
- CacheFlight.HandlerRunsAtMostOnce: an evicting request's own INCR and DEL commands are `Bump` and `Delete` actions, which the model lets happen at any time, not only between that request's handler and its answer.
- Unversioned keys, `setEntity`, `setList`, and pattern evictions that match a `:version` key: they set values or counters outside the versioned fill protocol; other keys may change arbitrarily (`Env`), and evictions are deletions of arbitrary key sets that spare the counter.
- Two prefixes of which one extends the other: the protocol is stated for the keys of one prefix, whose keys nobody else writes; `CacheKeys.VersionedKeysCollide` says when that can fail.
- md5 and sha256: facts are proved about the text that is hashed; `hashArgs` applies the same canonical text to the list of arguments.
- JsonText.SameTextIffSame: numbers are integers; floating-point numbers, lone surrogates, Date, Map, Buffer, BigInt, functions and cyclic objects are not modelled.
- RateLimit.WindowBound, RateLimit.RefinesPlainCounter: the random suffixes of members are distinct and callers' clocks are not before 1970; Redis' `EVAL` does not fail. The guard, the metrics and the key helpers around the limiter are not modelled.
- Sessions.LogReplaysToTable: every use case is one atomic step, so the erasure handler runs with its event; what a late handler changes is `Sessions.LateErasureIff`.
- Concurrent refreshes of one token and two first logins racing on one device: outside the atomic steps. JWT signing and verification, hashing and device-id derivation are parameters.
- Sessions.AuthService.Refresh: reading the user and the strategy's checks are one test of the row and of a set of inactive users; the duration parser is a parameter in seconds.
- Proxy.Handle: the refresh endpoint's answer is a parameter, and a pair it grants is complete; cookie domains and the router's matcher are not modelled; a token is what its `exp` claim says.
- Idempotency.AtMostOneSuccess: holds under premises on the one key; what happens without each is `Idempotency.SecondRunIffExpired`, `Idempotency.PurgedRunsAgainIff` and `Idempotency.LostCompletionRunsAgain`. The two statements of `begin` are one atomic step, as its contract demands. Requests without the header or the decorator run the handler directly.
- Notifications.Dispatcher.Dispatch: ports answer from their channel's own calls; rendering of texts, realtime payloads and logging are not modelled.
- EmailVerification.RunGuarantees: requests and verifications run one after another; two overlapping requests of one user could leave two unused tokens, and two overlapping verifications two events. Tokens are known by their hash, and the resending of mails is the queue's.
- Keyset.FixedTable: ids are compared as numbers; the database compares strings, and any strict total order serves.
- Slug.Slugify: ASCII text and the default separator only; other scripts change length under case folding and other separators take part in the character classes.
- Routing compiler, dispatch engine, outbox drain, subscription registry, controllers, DTOs, configuration, React components, logging, metrics and captcha: plumbing, or not among the protocols above.
