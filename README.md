# Rate-limiting engine of an API gateway, in Dafny

This project models the rate-limiting core of a Java API gateway and proves properties of that model. The gateway admits or rejects each request against two token buckets kept in a shared store: one per endpoint (the global tier) and one per endpoint and caller (the user tier). It then hands allowed requests to a backend.

The model has these parts, one Dafny module each:

- `TokenBucket` is the per-key bucket `(tokens, lastRefill)` and the atomic refill-and-consume script (`Script`). It also holds the Java wrapper that turns the script's reply into a decision (`Interpret`, which fails open on a null reply, a malformed reply or a store error). `Check` is one whole call. The class `TokenBucketStore` holds the store as a `map<string, Bucket>`. Its `IsAllowed` runs the script step by step, and `Reset` deletes a key. Its field `reachable` stands for the connection to the store, so an outage can be modelled.
- `KeyBuilder` holds `sanitize`, the removal of every `"/gateway"` from the endpoint (Java's `String.replace`), and the user, global and reset keys.
- `RateLimiterService` is the two-tier policy. `Decide` is the whole decision as a function of the store, the settings and the services found. The class `RateLimiterService` runs it imperatively through the store and the registry. Its outcome is `Allowed | Blocked | NoService`. This takes the place of the thrown `RateLimitExceededException` and the "no service" runtime error.
- `Registry` is the class `ServiceRegistry`: a name→config map with register, get, search by path prefix, list, update, unregister, count and clear.
- `ServiceConfigs` holds a service's record, prefix matching and `transformPath`.
- `RateLimiterResponse` holds the decision record, its `allowed`/`blocked` builders and the retry-after computation.
- `IdentifierExtractor` reads the caller's identity from an abstract HTTP request. That request is a header map, a parameter map, an optional session and a remote address. `RateLimitInterceptor` builds the policy's request from it.

Clock readings are parameters (`now`, in epoch seconds). The `@Value` settings become a `Settings` value. Java `null` is `Option.None`. Lua numbers are reals, and `math.floor` is `.Floor`.

Behaviours of the code that the model keeps, some of them easy to miss:

- `sanitize("")` is `""`. Only `null` becomes `"unknown"` (RateLimiterService.java:120-125).
- A blocked check writes only `last_refill`, not the refilled token count (TokenBucketAlgorithm.java:57-58). Any refill accrued before a blocked check is lost. As a result, a caller who retries exactly at the reported `resetAt` can be blocked again (`RetryAtResetCanBlockAgain`). `WaitingLongEnoughIsAllowed` gives the wait that does suffice.
- A blocked check's `resetAt` is at least `now`, but not always later. `floor` can make it equal to `now` (`BlockedResetCanBeNow`).
- The search by path returns the first match in the hash map's iteration order. That order is unspecified, so the model promises only some matching service, not the first registered.
- `"/gateway"` is removed wherever it occurs in the endpoint, not only as a leading segment: at each first occurrence the removal keeps what comes before it, drops it and carries on after it (`RemoveAllSkipsToFirstOccurrence`), as Java's `replace` loop does. The removal is a single pass, so it is not idempotent (`RequestPathNotIdempotent`).
- The reset operations build their keys from the raw endpoint. They skip the `"/gateway"` removal and the `ip:` fallback. So for an endpoint that contains `"/gateway"`, a reset deletes a different key than the one the checks use (`ResetGlobalMissesGatewayEndpoint`). The same holds for a request without an identifier (`ResetUserMissesIpFallback`) and for one with an empty identifier (`ResetUserMissesEmptyIdentifier`), which the check treats like a missing one.

## Model

| member | source | states |
|---|---|---|
| RateLimiterResponse.Allowed | src/main/java/com/ratelimiter/responseDto/RateLimiterResponse.java:23-30 | an allowed decision with the given limit, remaining and reset time, and no identifier or reason |
| RateLimiterResponse.Blocked | src/main/java/com/ratelimiter/responseDto/RateLimiterResponse.java:32-40 | a refused decision with nothing remaining, the given reset time and the given reason |
| RateLimiterResponse.RetryAfterSeconds | src/main/java/com/ratelimiter/responseDto/RateLimiterResponse.java:42-45 | the wait is never negative, reaches resetAt, and is either 0 or exactly resetAt - now |
| RateLimiterResponse.RetryAfterCountsDown | src/main/java/com/ratelimiter/responseDto/RateLimiterResponse.java:42-45 | no wait once the clock reaches resetAt; before that the wait drops by one each second |
| TokenBucket.RefillRate | src/main/java/com/ratelimiter/algorithm/TokenBucketAlgorithm.java:70 | the rate is positive, and a full window at that rate refills exactly the limit |
| TokenBucket.Loaded | src/main/java/com/ratelimiter/algorithm/TokenBucketAlgorithm.java:30-40 | a stored key is read as stored; a missing key starts with tokens = capacity and last_refill = now |
| TokenBucket.Refilled | src/main/java/com/ratelimiter/algorithm/TokenBucketAlgorithm.java:43-46 | refill is exactly min(capacity, tokens + elapsed·rate): never above either bound and equal to one of them; it loses no tokens and keeps a non-negative count non-negative |
| TokenBucket.Script | src/main/java/com/ratelimiter/algorithm/TokenBucketAlgorithm.java:22-63 | the script writes only its key and sets its last_refill to now; with t the refilled count, t ≥ 1 stores t-1 and replies (1, floor(t-1), floor(now + (capacity-(t-1))/rate)), otherwise it stores the pre-refill count and replies (0, 0, floor(now + (1-t)/rate)) |
| TokenBucket.FailOpen | src/main/java/com/ratelimiter/algorithm/TokenBucketAlgorithm.java:84-88 | fail-open is allowed, with remaining = limit and resetAt = now + window |
| TokenBucket.Interpret | src/main/java/com/ratelimiter/algorithm/TokenBucketAlgorithm.java:84-99 | a reply that is not three longs fails open; otherwise the decision is allowed iff the flag is 1, an allowed one carries the reply's remaining, and resetAt is the reply's; a refusal has remaining 0 and reason "Rate limit exceeded" |
| TokenBucket.Check | src/main/java/com/ratelimiter/algorithm/TokenBucketAlgorithm.java:66-107 | an unreachable store is left alone and the call fails open; otherwise the key is created if missing, stamped with now, and no other key changes; a refusal has remaining 0 and reason "Rate limit exceeded" |
| TokenBucket.CheckOutcome | src/main/java/com/ratelimiter/algorithm/TokenBucketAlgorithm.java:34-62 | allowed iff the refilled count t is at least 1; an allowed check stores t-1, reports floor(t-1) (0 ≤ remaining < limit) and resets at floor(now + (limit-(t-1))/rate); a refused check stores the pre-refill count and resets at floor(now + (1-t)/rate); either way resetAt ≥ now |
| TokenBucket.CheckKeepsTokensNonNegative | src/main/java/com/ratelimiter/algorithm/TokenBucketAlgorithm.java:43-58 | a check keeps every stored count ≥ 0 and leaves the checked key with at most `limit` tokens |
| TokenBucket.BurstOnFreshKey | src/main/java/com/ratelimiter/algorithm/TokenBucketAlgorithm.java:34-56 | on a fresh key, the first C checks at one instant are allowed with remaining C-1, …, 0 |
| TokenBucket.BurstOverflowBlocks | src/main/java/com/ratelimiter/algorithm/TokenBucketAlgorithm.java:57-62 | check C+1 of that burst is refused, with remaining 0 and reason "Rate limit exceeded" |
| TokenBucket.EleventhCheckResetsAfterSixSeconds | src/main/java/com/ratelimiter/algorithm/TokenBucketAlgorithm.java:57-62 | with capacity 10 over 60 s, ten checks at t=0 pass (remaining 9..0), and the eleventh is refused with resetAt 6 |
| TokenBucket.CheckAfterResetStartsFull | src/main/java/com/ratelimiter/algorithm/TokenBucketAlgorithm.java:109-115 | after a reset, the key's next check sees a full bucket: allowed with limit-1 remaining |
| TokenBucket.WaitingLongEnoughIsAllowed | src/main/java/com/ratelimiter/algorithm/TokenBucketAlgorithm.java:43-50 | a check is allowed once enough time has passed since last_refill for the stored count to reach one token |
| TokenBucket.RetryAtResetCanBlockAgain | src/main/java/com/ratelimiter/algorithm/TokenBucketAlgorithm.java:57-62 | a refused check keeps the pre-refill count (0 at t=3), so the retry at its resetAt (6) is refused again |
| TokenBucket.BlockedResetCanBeNow | src/main/java/com/ratelimiter/algorithm/TokenBucketAlgorithm.java:59-62 | because of floor, a refused check can report resetAt equal to now |
| TokenBucket.FailuresFailOpen | src/main/java/com/ratelimiter/algorithm/TokenBucketAlgorithm.java:101-105 | a null reply, a malformed reply and an error all give the fail-open decision (allowed, remaining = limit, reset one window on); an unreachable store is left as it was |
| TokenBucket.TokenBucketStore.IsAllowed | src/main/java/com/ratelimiter/algorithm/TokenBucketAlgorithm.java:66-107 | the new store and the decision are exactly `Check` of the old store; stored counts stay non-negative |
| TokenBucket.TokenBucketStore.Reset | src/main/java/com/ratelimiter/algorithm/TokenBucketAlgorithm.java:109-116 | deletes exactly that key and keeps every stored count non-negative; with the store unreachable nothing changes and nothing is raised |
| KeyBuilder.SanitizeChars | src/main/java/com/ratelimiter/service/RateLimiterService.java:124 | the same length; every output character is in [A-Za-z0-9_:.-]; safe characters kept, the others become '_' |
| KeyBuilder.Sanitize | src/main/java/com/ratelimiter/service/RateLimiterService.java:120-125 | null gives "unknown"; otherwise the same length, safe characters kept and every other character replaced by '_', so the output is all safe characters |
| KeyBuilder.SanitizeKeepsSafe | src/main/java/com/ratelimiter/service/RateLimiterService.java:124 | a string of safe characters is unchanged |
| KeyBuilder.SanitizeIdempotent | src/main/java/com/ratelimiter/service/RateLimiterService.java:120-125 | sanitizing twice equals sanitizing once |
| KeyBuilder.SanitizeCollides | src/main/java/com/ratelimiter/service/RateLimiterService.java:124 | "a/b" and "a b" both sanitize to "a_b" |
| KeyBuilder.RemoveAll | src/main/java/com/ratelimiter/service/RateLimiterService.java:81 | never longer; the string is unchanged exactly when the target occurs nowhere in it, and otherwise strictly shorter |
| KeyBuilder.RemoveAllSkipsToFirstOccurrence | src/main/java/com/ratelimiter/service/RateLimiterService.java:81 | for every string and every first occurrence of the target at i, the result is the text before i followed by the removal applied to the text after the occurrence: each occurrence the scan meets is removed, the text between occurrences is kept |
| KeyBuilder.OccursAtShift | src/main/java/com/ratelimiter/service/RateLimiterService.java:81 | an occurrence in the string's tail is an occurrence in the string one place later, and conversely |
| KeyBuilder.RequestPath | src/main/java/com/ratelimiter/service/RateLimiterService.java:81 | the path is the endpoint with "/gateway" removed by `RemoveAll`; it is never longer than the endpoint, and equals it exactly when the endpoint contains no "/gateway" |
| KeyBuilder.RequestPathRemovesInnerSegment | src/main/java/com/ratelimiter/service/RateLimiterService.java:81 | "/gateway/api" becomes "/api" and "/x/gateway" becomes "/x": an occurrence is removed wherever it stands, not only at the start |
| KeyBuilder.RequestPathRemovesEveryOccurrence | src/main/java/com/ratelimiter/service/RateLimiterService.java:81 | "/gateway/a/gateway/b" becomes "/a/b": both occurrences are removed |
| KeyBuilder.RequestPathNotIdempotent | src/main/java/com/ratelimiter/service/RateLimiterService.java:81 | one pass over "/ga/gatewayteway" leaves "/gateway", and a second pass gives "" |
| KeyBuilder.GlobalKey | src/main/java/com/ratelimiter/service/RateLimiterService.java:83-84 | starts with "rate_limit:global:" and is as long as that prefix plus the path |
| KeyBuilder.GlobalKeyShape | src/main/java/com/ratelimiter/service/RateLimiterService.java:83-84 | after the prefix comes exactly the sanitized path, all safe characters |
| KeyBuilder.UserIdentity | src/main/java/com/ratelimiter/service/RateLimiterService.java:111-116 | a non-empty identifier is used as is; a null or empty one becomes exactly "ip:" + the address, with a null address written as "null" |
| KeyBuilder.UserKey | src/main/java/com/ratelimiter/service/RateLimiterService.java:110-118 | starts with "rate_limit:user:", has ':' right after the path part, and is as long as the prefix, the path, the ':' and the identity together |
| KeyBuilder.UserKeyShape | src/main/java/com/ratelimiter/service/RateLimiterService.java:110-118 | after the prefix come exactly sanitize(path), ':' and sanitize(identity), all safe characters |
| KeyBuilder.ResetUserKey | src/main/java/com/ratelimiter/service/RateLimiterService.java:136-139 | always under "rate_limit:user:"; for any endpoint and non-empty identifier, the user key of the raw endpoint (no "/gateway" removal); a null identifier gives the endpoint's ":unknown" key, not the ip fallback; a null endpoint gives "rate_limit:user:unknown:" + sanitize(identifier); an empty identifier gives the endpoint's key ending in ":", not the ip fallback |
| KeyBuilder.ResetGlobalKey | src/main/java/com/ratelimiter/service/RateLimiterService.java:143-146 | for any endpoint, the reset key is the global key of the raw endpoint (no "/gateway" removal); a null endpoint gives "rate_limit:global:unknown" |
| KeyBuilder.TierKeysDisjoint | src/main/java/com/ratelimiter/constants/CommonConstants.java:7-8 | no user-tier key equals a global-tier key |
| KeyBuilder.UserKeyAmbiguous | src/main/java/com/ratelimiter/service/RateLimiterService.java:117 | endpoint "/a:b" with identifier "c" and endpoint "/a" with "b:c" share one user key |
| KeyBuilder.ResetKeysMatchCheckKeys | src/main/java/com/ratelimiter/service/RateLimiterService.java:136-148 | for an endpoint without "/gateway" and a non-empty identifier, the resets delete exactly the keys the checks use |
| KeyBuilder.ResetGlobalMissesGatewayEndpoint | src/main/java/com/ratelimiter/service/RateLimiterService.java:143-146 | for "/gateway/api" the global reset deletes a key other than the checked one |
| KeyBuilder.ResetUserMissesIpFallback | src/main/java/com/ratelimiter/service/RateLimiterService.java:136-139 | without an identifier, the user reset deletes a key other than the one the check uses ("unknown" against "ip:" + address) |
| KeyBuilder.ResetUserMissesEmptyIdentifier | src/main/java/com/ratelimiter/service/RateLimiterService.java:136-139 | with an empty identifier, the user reset deletes a key other than the one the check uses (the check falls back to "ip:" + address) |
| ServiceConfigs.Matches | src/main/java/com/ratelimiter/requestDto/ServiceConfig.java:21-26 | false for a null path or prefix; otherwise true iff the path's first |prefix| characters are the prefix |
| ServiceConfigs.TransformPath | src/main/java/com/ratelimiter/requestDto/ServiceConfig.java:28-37 | without stripping, or when the prefix does not match, the path is unchanged; when it strips, the result starts with "/" |
| ServiceConfigs.TransformPathKeepsRest | src/main/java/com/ratelimiter/requestDto/ServiceConfig.java:30-34 | a stripped result is the rest after the prefix, with '/' added exactly when the rest lacks one; prefix + result gives back the path |
| ServiceConfigs.TransformPathOfPrefixIsRoot | src/main/java/com/ratelimiter/requestDto/ServiceConfig.java:30-33 | a path equal to the prefix becomes "/" |
| ServiceConfigs.MatchedPathIsStripped | src/main/java/com/ratelimiter/requestDto/ServiceConfig.java:21-34 | for a matching path, the result starts with "/" and is at most one longer than the rest after the prefix |
| Registry.ServiceRegistry.constructor | src/main/java/com/ratelimiter/service/ServiceRegistry.java:16 | the registry starts empty |
| Registry.ServiceRegistry.RegisterService | src/main/java/com/ratelimiter/service/ServiceRegistry.java:18-29 | a null config or name fails with InvalidConfig and changes nothing; otherwise name ↦ config, overwriting, and other names are unchanged |
| Registry.ServiceRegistry.GetService | src/main/java/com/ratelimiter/service/ServiceRegistry.java:34-40 | succeeds iff the name is registered, with its config; otherwise fails with ServiceNotFound(name) |
| Registry.ServiceRegistry.FindServiceByPath | src/main/java/com/ratelimiter/service/ServiceRegistry.java:42-49 | returns a registered config that matches the path; fails iff no registered config matches |
| Registry.ServiceRegistry.IsServiceRegistered | src/main/java/com/ratelimiter/service/ServiceRegistry.java:51-53 | true iff getService would succeed |
| Registry.ServiceRegistry.GetAllServices | src/main/java/com/ratelimiter/service/ServiceRegistry.java:58-60 | one config per registered name, each exactly once, as many as there are names |
| Registry.ServiceRegistry.UpdateService | src/main/java/com/ratelimiter/service/ServiceRegistry.java:65-71 | an absent name fails and changes nothing; otherwise only that entry is replaced |
| Registry.ServiceRegistry.UnregisterService | src/main/java/com/ratelimiter/service/ServiceRegistry.java:76-82 | removes a present name; an absent name fails with ServiceNotFound and changes nothing |
| Registry.ServiceRegistry.GetServiceCount | src/main/java/com/ratelimiter/service/ServiceRegistry.java:87-89 | the number of registered names; 0 iff the registry is empty |
| Registry.ServiceRegistry.ClearAllServices | src/main/java/com/ratelimiter/service/ServiceRegistry.java:94-97 | the registry becomes empty and the count becomes 0 |
| Registry.RegisterReplacesOrAdds | src/main/java/com/ratelimiter/service/ServiceRegistry.java:22 | a second registration under a name fully replaces the first and keeps the count; a new name adds one |
| Registry.UnregisterUndoesRegister | src/main/java/com/ratelimiter/service/ServiceRegistry.java:77 | unregistering a newly registered name restores the registry |
| RateLimiterService.DisabledResponse | src/main/java/com/ratelimiter/service/RateLimiterService.java:127-134 | allowed, with limit = remaining = Integer.MAX_VALUE and resetAt = now + 3600 |
| RateLimiterService.GlobalPhase | src/main/java/com/ratelimiter/service/RateLimiterService.java:80-93 | without a matching service the phase fails with the path and changes nothing; with one, the new store and the response are exactly those of the token-bucket check of the global key of the path, with the service's global limit and the global window; it creates that key when the store is up and leaves every other key as it was |
| RateLimiterService.UserPhase | src/main/java/com/ratelimiter/service/RateLimiterService.java:95-108 | without a matching service the phase fails with the path and changes nothing; with one, the new store and the response are exactly those of the token-bucket check of the caller's user key, with the service's per-user limit and the default window; it creates that key when the store is up and leaves every other key as it was |
| RateLimiterService.UserDecision | src/main/java/com/ratelimiter/service/RateLimiterService.java:71-77 | no service iff no service was found (and then nothing changes); otherwise the store is the one the user check leaves, the outcome is Allowed iff that check allows and Blocked iff it refuses, with its remaining count and reset time and the per-user limit; a refusal has reason "User rate limit exceeded"; an allow carries the request's identifier and no reason |
| RateLimiterService.Decide | src/main/java/com/ratelimiter/service/RateLimiterService.java:56-78 | a disabled limiter returns exactly the disabled response (allowed, limit = remaining = Integer.MAX_VALUE, reset an hour on) and touches no bucket, with or without an endpoint, whatever the quotas; when enabled: a missing global service is NoService with the path with "/gateway" removed; a refusal of the global check is Blocked with the global check's store, reset time and the reason "Global rate limit exceeded"; once the global tier passes or is off, a missing user service is NoService, and otherwise the store is the one the user check leaves (after the global check's), the outcome is Allowed iff the user check allows and Blocked iff it refuses, with its remaining count and reset time; an allow carries the request's identifier and no reason |
| RateLimiterService.GlobalBlockSparesUserBucket | src/main/java/com/ratelimiter/service/RateLimiterService.java:62-69 | a global block gives Blocked with reason "Global rate limit exceeded", and the caller's user bucket is unchanged |
| RateLimiterService.GlobalTierOffSparesGlobalBucket | src/main/java/com/ratelimiter/service/RateLimiterService.java:62-75 | with the global tier off, the global bucket is unchanged and any block has reason "User rate limit exceeded" |
| RateLimiterService.BlockReasonNamesTier | src/main/java/com/ratelimiter/service/RateLimiterService.java:62-75 | a Blocked decision has remaining 0; its reason is "Global rate limit exceeded" iff the global tier was on and refused, and "User rate limit exceeded" otherwise |
| RateLimiterService.UnmatchedPathIsNoService | src/main/java/com/ratelimiter/service/RateLimiterService.java:80-108 | when no service matches the path, the outcome is NoService (not fail-open) and no bucket changes |
| RateLimiterService.StoreOutageFailsOpen | src/main/java/com/ratelimiter/service/RateLimiterService.java:62-77 | with the store down, the decision is allowed with the full per-user quota, resets one user window on, carries the identifier, and changes no bucket |
| RateLimiterService.DecisionResetsNotBeforeNow | src/main/java/com/ratelimiter/service/RateLimiterService.java:56-78 | every Allowed or Blocked decision has resetAt ≥ now |
| RateLimiterService.RateLimiterService.CheckGlobalRateLimit | src/main/java/com/ratelimiter/service/RateLimiterService.java:80-93 | called, as in the source, only while the limiter and the global tier are on; finds a matching service for the path with "/gateway" removed, and the new store and result are `GlobalPhase` of the old store: the token-bucket check of "rate_limit:global:"+sanitize(path) against its globalLimit and the global window; fails when no service matches |
| RateLimiterService.RateLimiterService.CheckUserRateLimit | src/main/java/com/ratelimiter/service/RateLimiterService.java:95-108 | called, as in the source, only while the limiter is on; finds a matching service, and the new store and result are `UserPhase` of the old store: the token-bucket check of the user key against its perUserLimit and the default window; fails when no service matches |
| RateLimiterService.RateLimiterService.CheckRateLimit | src/main/java/com/ratelimiter/service/RateLimiterService.java:56-78 | the new store and outcome are `Decide` of the old store: disabled short-circuit (no endpoint needed), then the global tier, then the user tier; both lookups return valid search results |
| RateLimiterService.RateLimiterService.ResetUserRateLimit | src/main/java/com/ratelimiter/service/RateLimiterService.java:136-141 | with any settings and quotas, deletes exactly "rate_limit:user:"+sanitize(endpoint)+":"+sanitize(identifier) when the store is reachable, and nothing else |
| RateLimiterService.RateLimiterService.ResetGlobalRateLimit | src/main/java/com/ratelimiter/service/RateLimiterService.java:143-148 | with any settings and quotas, deletes exactly "rate_limit:global:"+sanitize(endpoint) when the store is reachable, and nothing else |
| IdentifierExtractor.FirstUsableHeader | src/main/java/com/ratelimiter/utils/IdentifierExtractor.java:26-35 | the position of a usable header (non-null, non-empty, not "unknown" in any case) with no usable header before it; none iff no candidate is usable |
| IdentifierExtractor.SelectedIpHeader | src/main/java/com/ratelimiter/utils/IdentifierExtractor.java:26-28 | none iff no candidate header is usable; otherwise the value of a usable candidate with no usable candidate before it |
| IdentifierExtractor.BeforeFirstComma | src/main/java/com/ratelimiter/utils/IdentifierExtractor.java:30 | a comma-free prefix that stops at the first comma |
| IdentifierExtractor.TrimStart | src/main/java/com/ratelimiter/utils/IdentifierExtractor.java:30 | a suffix that drops only characters ≤ ' ' and is empty or starts with a character > ' ' |
| IdentifierExtractor.TrimEnd | src/main/java/com/ratelimiter/utils/IdentifierExtractor.java:30 | a prefix that drops only characters ≤ ' ' and is empty or ends with a character > ' ' |
| IdentifierExtractor.TrimKeepsCharacters | src/main/java/com/ratelimiter/utils/IdentifierExtractor.java:30 | `trim` (the two halves above, one after the other) keeps only characters of its input |
| IdentifierExtractor.TrimEndsAreNotBlank | src/main/java/com/ratelimiter/utils/IdentifierExtractor.java:30 | what `trim` keeps is empty or begins and ends with a character above ' ' |
| IdentifierExtractor.ExtractIpAddress | src/main/java/com/ratelimiter/utils/IdentifierExtractor.java:24-40 | the remote address when no header is usable; the selected header value when it has no comma; otherwise exactly trim of the text before its first comma, which is comma-free |
| IdentifierExtractor.ForwardedListGivesFirstAddress | src/main/java/com/ratelimiter/utils/IdentifierExtractor.java:26-33 | a forwarded list " 1.2, 3.4" yields its first address, trimmed: "1.2" |
| IdentifierExtractor.UnknownHeaderIsSkipped | src/main/java/com/ratelimiter/utils/IdentifierExtractor.java:26-33 | an X-Forwarded-For of "UnKnOwN" is passed over and the next usable header (X-Real-IP) is used |
| IdentifierExtractor.UnknownIgnoringCaseExamples | src/main/java/com/ratelimiter/utils/IdentifierExtractor.java:28 | the "unknown" test accepts any case mix and the Kelvin sign for 'k', rejects other spellings and lengths; a usable value is non-null, non-empty and not "unknown" |
| IdentifierExtractor.ExtractUserId | src/main/java/com/ratelimiter/utils/IdentifierExtractor.java:42-67 | a non-empty X-User-Id header wins; when that header is missing or empty the result is the session's userId attribute, or null without a session |
| IdentifierExtractor.ExtractApiKey | src/main/java/com/ratelimiter/utils/IdentifierExtractor.java:69-85 | a non-empty X-API-Key header wins over the api_key parameter; any result is non-empty and comes from one of the two; null iff neither is non-empty |
| IdentifierExtractor.ExtractSessionId | src/main/java/com/ratelimiter/utils/IdentifierExtractor.java:87-94 | present iff a session exists, and then it is the session's id |
| IdentifierExtractor.ExtractEndpoint | src/main/java/com/ratelimiter/utils/IdentifierExtractor.java:113-115 | the endpoint is the request URI |
| IdentifierExtractor.ExtractPrimaryIdentifier | src/main/java/com/ratelimiter/utils/IdentifierExtractor.java:96-111 | the identifier is non-empty, and it carries the "ip:" tag exactly when the request has no user id, API key or session |
| IdentifierExtractor.PrimaryIdentifierPicksBestSource | src/main/java/com/ratelimiter/utils/IdentifierExtractor.java:96-111 | the identifier parses back to a kind tag ("user:", "apikey:", "session:", "ip:") and that kind's value, and every higher-priority kind is absent from the request |
| RateLimitInterceptor.BuildRateLimiterRequest | src/main/java/com/ratelimiter/interceptor/RateLimitInterceptor.java:52-61 | the request has the URI as endpoint, the primary identifier (non-empty) as identifier, and the extracted address, user id and API key in their fields, stamped with now |
| RateLimitInterceptor.HttpRequestsKeyOnPrimaryIdentifier | src/main/java/com/ratelimiter/service/RateLimiterService.java:110-118 | for requests built from HTTP, the user key uses the primary identifier and never the policy's ip fallback |

## Left out

- Redis I/O and `EXPIRE key 3600` are left out. The store is an in-memory map and keys never expire. In the source, the TTL is set only when a key is created, not on later accesses.
- Atomicity across processes and the thread-safety of the registry's concurrent map are not modelled. The script is taken as atomic, so one sequential store models it.
- Floating point is not modelled. Token counts and rates are exact reals. Double rounding, the text form of the refill rate passed to the script, and the text form in which Redis stores the count are all left out.
- Integer widths are not modelled. Java `int`/`long` are unbounded integers, and the service's `long` quotas are passed where the store takes an `int`.
- Quotas and windows that a decision reads must be positive (`QuotasPositive`, `SettingsUsable`): a zero rate divides by zero in the script. The per-user quota and the default window are required only while the limiter is enabled, and the global quota and the global window only while the global tier is on as well; a disabled limiter or tier demands nothing of them.
- A selected proxy header made only of commas is excluded (`IpHeadersWellFormed`). On such a value, `split(",")[0]` throws.
- Header names are matched exactly. The servlet container's case-insensitive header lookup is not modelled.
- Strings are sequences of Unicode scalar values, not UTF-16 code units.
- Inputs that make the source throw a NullPointerException are excluded or not representable:
  - `checkRateLimit` with a null endpoint while the limiter is enabled (a disabled limiter allows it, and the model does too);
  - `transformPath` with stripping on and a null path or a null prefix;
  - `getService`, `updateService` or `unregisterService` with a null name;
  - `updateService` with a null config.
- `transformPath` with stripping off returns a null path as null. The model's path is a string, so that case is not represented.
- The clock is read once per decision. In the source, each `isAllowed` call (global tier, then user tier) reads it, `createAllowedResponse` reads it, and the fail-open path reads it again. The model gives all of these the same `now`, so it does not capture a second boundary falling between the two tiers.
- RateLimiterService.RateLimiterService.CheckRateLimit: it states that each of its two lookups returns some matching service, chosen independently. In the source, both iterate over the same unchanged map and so would normally return the same service.
- TokenBucket.Check: a store call fails only as a whole, before the script runs (`reachable` false, nothing stored). A failure after the script has run on the server, such as a lost reply or a reply timeout, is not modelled: there the source fails open although the bucket was already consumed.
- TokenBucket.Check: one `reachable` flag serves both tiers of a decision, so a failure of one tier's call while the other tier's call succeeds is not modelled.
- `TokenBucket.TokenBucketStore.reachable` stands for the connection state. The in-memory script always replies with three numbers, so malformed replies appear only as inputs of `Interpret`.
- Logging, the HTTP response writing of the interceptor (status 429, headers, JSON body), the proxy forwarding, the controllers, the exception handler and the configuration loading are not part of this model.
