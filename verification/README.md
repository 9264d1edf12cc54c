# TrafficCTRL: a verified model of the limiter, the reputation system and the admission chain

TrafficCTRL is a reverse proxy that decides, request by request, whether to forward or to answer 429. Its state lives in
Redis: one hash per limiter key, changed by one of four Lua scripts, and one reputation hash per tenant, changed by a
fifth. Seven nested HTTP handlers call the scripts. This project models all of that in Dafny and proves what holds over
whole runs: how much a key can admit although Redis may drop it, what `retry_after` is worth, how bans begin and end, and
what concurrent requests with failing store calls can and cannot cause.

## How the model is built

- **Scripts.** `TokenBucket.dfy`, `LeakyBucket.dfy`, `FixedWindow.dfy`, `SlidingWindow.dfy` and `Reputation.dfy` follow the
  Lua scripts command by command as methods on the class `RedisDb.Redis`, which holds raw hashes: every field may be
  present, also fields another algorithm left behind. Each method is proved to refine a function on an abstract state
  (`Limits.Check`, `Reputation.Updated`) that has no leftovers.
- **Runs.** `Runs.dfy` plays any sequence of calls on one key. A call carries its configuration, its timestamp and whether
  Redis had dropped the key, which it may do at any instant from the expiry on (`Feasible`). All bounds are about such runs.
- **Chain.** `Chain.dfy` makes the handlers a state machine with one step per store call. Every call may work, never reach
  the store, or run with its reply lost. `Interleaving.dfy` interleaves the steps of any number of requests;
  `Middleware.dfy` holds the handlers as nested methods on the Redis object and ties them to the steps of a request that
  runs alone.

Module by module: `BucketBound`, `Bisimulation`, `EagerRefill` (buckets), `WindowBound` (fixed window), `SlidingLog`,
`SlidingBound` (sliding window), `ReplyLaw`, `Lifetime`, `RetryAfter`, `Observation`, `DeniedCalls`, `Expiry`, `ConfigChange`, `AdmissionLaw` (all
algorithms), `SharpBound`, `ReputationTables`, `ReputationRuns`, `Ranking`, `Keys`, `Endpoints`, `Paths`, then `ChainPlan`, `ChainSafety`, `Conservation`,
`ForwardBound`, `BackendLoad`, `FrozenBan`, `Forgiveness`, `Pardon` (end to end).

## Assumptions

- Lua numbers are exact: integers stay below 2^53 and the TTL quotient is the exact rational. Scores are exact reals.
- `math.sqrt` is a parameter of each reputation update; where it matters it is required to be a nonnegative `s` with `s * s == v`.
- `config_hash` is injective on what reaches the script, so a configuration stands for its own hash. The code hashes the whole
  `AlgorithmConfig`, including parameters of other algorithms and sub-millisecond parts of durations: configurations that
  differ only there have different hashes but are one `Algorithm` here, and between them the code restarts a key where
  the model does not.
- Capacities, limits and rates are at least 1 where validation demands it (`Valid`); the scripts themselves are modelled for
  capacity and limit 0 as well. Validation only demands a positive duration, so a sub-millisecond period would reach Lua as
  0: periods and windows of at least 1 ms are part of the type `Policy`.
- `now` is the proxy's clock. Lemmas that need timestamps that never decrease say so (`Ordered`). An expiry is measured on
  that clock too: `EXPIRE key s` at `now` permits the key to vanish from `now + 1000 * s` on, and never forces it to.

## Where code and documentation part

- The sliding window is documented as an exact log with at most `limit` requests in any window
  (docs/limiter_package.md:220-229). The code counts per whole second, and the quota holds on closed intervals of length `d`
  if and only if `d <= W - 999` ms (`QuotaHoldsIff`).
- `RetryAfter` is documented as the time until the next allowed request (docs/limiter_package.md:25). For the sliding window
  it is one millisecond short, and fails for a client that returns at that very millisecond (`SlidingAdviceFails`). For the
  fixed window it is exact. For both buckets it is exact if and only if the key outlives a period (`AdviceHoldsIff`); otherwise
  the key can lapse and let a client in early.
- The documentation blocks below 0.3 (docs/limiter_package.md:348); the code blocks at 0.3 as well.
- The documentation has one good mark per admitted request (docs/limiter_package.md:355); with per-tenant limiting on, the code
  gives two.
- The time-based recovery and the fast recovery for clean tenants never change a score: a tenant without violations always
  has score 1.
- A failed check in dry-run mode dereferences a nil result; the recovery handler then forwards the request. A panic in the
  proxy itself makes the recovery handler forward the request a second time.
- A failed reputation read counts as a perfect score (internal/limiter/reputation.go:174-176), so under overload it lets a
  banned tenant through at once, long before its record expires; a failed global check does the same (`GateHoldsIff`).
- The comment on endpoint keys shows `|` between their parts (internal/limiter/limiter.go:101); the code writes `:`.
- A sliding window shorter than a second forgets, late in each second, what it has admitted in it: `remaining` then promises
  less than is admitted (`RemainingIsExactIff`).
- The leaky bucket's restart after a configuration change admits without a capacity check.
- A rule path that contains `:` can share keys with another rule of the same methods.
- The comparison with `"*"` is dead, because the path has been given a leading slash by then; a `*` rule still catches
  everything as a prefix wildcard.

## Model

| member | source | states |
|---|---|---|
| TokenBucketScript.Eval | internal/limiter/token_bucket.go:13-83 | Whatever fields other algorithms left in the hash, reply, new bucket and expiry are those of the abstract token bucket; no other key changes; the hash stays well formed. |
| LeakyBucketScript.Eval | internal/limiter/leaky_bucket.go:13-77 | The same for the leaky bucket, its restart without a capacity check included. |
| FixedWindowScript.OpenWindow | internal/limiter/fixed_window.go:20-51 | The three rewrites before the decision leave exactly the window that `now` is charged to, with the expiry untouched. |
| FixedWindowScript.Eval | internal/limiter/fixed_window.go:13-71 | Refines the abstract fixed window; a denial keeps the old expiry. |
| SlidingWindowScript.Scan | internal/limiter/sliding_window.go:38-64 | In whatever order the fields come: the total is the sum of the buckets in the window, the oldest is their minimum (or `now`), and exactly the stale ones are marked for deletion. |
| SlidingWindowScript.OpenHistogram | internal/limiter/sliding_window.go:25-36 | A changed configuration leaves an empty histogram without expiry; an unchanged one leaves its buckets and expiry. |
| SlidingWindowScript.Eval | internal/limiter/sliding_window.go:13-87 | Refines the abstract histogram: stale buckets gone, one bucket bumped exactly on admission. |
| Middleware.EvalScript | internal/limiter/limiter.go:72-86 | Dispatch runs the script of the configured algorithm on the key and touches nothing else. |
| ReplyLaw.RemainingIsExactIff | internal/limiter/fixed_window.go:53-70 | For every algorithm and from every state within its limits: an admission replies retry_after 0 and a `remaining` of n such that exactly the next n calls at that instant are admitted, if and only if a sliding window still counts the second it is in (always, for a window of a second or more); a denial replies remaining 0 and is repeated at that instant. |
| ReplyLaw.RemainingAfterRunIsExactIff | internal/limiter/sliding_window.go:71-86 | The same at the end of every run, whatever configurations, clocks and lapses it had. |
| Lifetime.KeyLifetime | internal/limiter/leaky_bucket.go:61-68 | Two-sided, to the second, for all four scripts: a bucket key lives for its full refill time rounded up and a minute after every call, a window key for a minute past the instant its content goes stale, rounded up, after an admission; a denied window call leaves the expiry alone. |
| BucketBound.AdmissionBound | internal/limiter/token_bucket.go:44-82 | In every run of one configuration with ordered timestamps, the key vanishing whenever its TTL allows: admissions in [s, t] times period are at most capacity * period + rate * (t - s + period - 1). |
| BucketBound.AdmissionBoundIsTight | internal/limiter/token_bucket.go:44-82 | A run from any instant for every validated configuration with rate at most capacity that meets the bound with equality. |
| SharpBound.SharperBound | internal/limiter/token_bucket.go:51-75 | In runs without expiry min(rate, capacity) replaces the rate in the bound. |
| SharpBound.SharperBoundIsTight | internal/limiter/token_bucket.go:51-75 | Every token bucket, whatever its rate, has a run from any instant that meets the sharper bound with equality. |
| SharpBound.ExpiryBound | internal/limiter/token_bucket.go:44-75 | With expiry allowed and for every rate: min(rate, capacity) replaces the rate if the shorter of period and TTL replaces the period. |
| SharpBound.ExpiryBoundIsTight | internal/limiter/token_bucket.go:44-75 | Where the TTL is shorter than the period, runs that let the key lapse n times meet that bound with equality, for every n. |
| BucketBound.StepSpendsCredit | internal/limiter/token_bucket.go:51-75 | The ledger behind the bound: a call never creates credit beyond the elapsed time's refill, an admission costs one period, and neither the cap nor an expiry can add any. |
| BucketBound.TtlCoversFullRefill | internal/limiter/token_bucket.go:48 | The TTL is at least the time in which an empty bucket refills, plus a minute; this is why an expiry grants nothing. |
| BucketBound.TtlIsExact | internal/limiter/token_bucket.go:27-75 | The TTL in seconds is a minute more than the full refill time rounded up: less 60 it covers the refill, less 61 it does not. |
| Bisimulation.Bisimilar | internal/limiter/leaky_bucket.go:23-76 | Leaky and token bucket give the same triple on every call of every run, under any mix of configurations, any clock and any expiry; the same runs are possible for both; level is capacity minus tokens and the TTLs agree throughout. |
| Bisimulation.MirrorNeedsCapacity | internal/limiter/leaky_bucket.go:24-28 | The two agree from all matching states if and only if the capacity is at least 1. |
| EagerRefill.LazyIsEager | internal/limiter/token_bucket.go:51-60 | The closed-form refill lands where a timer ticking once per period does, cap included. |
| EagerRefill.RefillsCompose | internal/limiter/token_bucket.go:51-60 | Refilling at t1 and again at t2 is refilling once at t2. |
| EagerRefill.ScriptIsTimerBucket | internal/limiter/token_bucket.go:38-82 | Over every run without expiry, under any clock, all replies are those of a timer-driven reference bucket. |
| EagerRefill.BothScriptsAreTimerBuckets | internal/limiter/leaky_bucket.go:30-76 | The same from an unused key, and for the leaky bucket as well. |
| WindowBound.CurrentCountIsExact | internal/limiter/fixed_window.go:20-51 | Whether a call finds the key, a stale window or nothing after an expiry, the counter it decides by is the number of requests admitted in its own window. |
| WindowBound.RunAccounts | internal/limiter/fixed_window.go:20-61 | After every run, expiry included, the stored count is the number of requests admitted in the stored window, and no window holds more than the limit. |
| WindowBound.CountingBound | internal/limiter/fixed_window.go:20-70 | Any [s, t] admits at most limit * (t/W - s/W + 1), so at most twice the limit within one window's length; expiry included. |
| WindowBound.BoundaryBurst | internal/limiter/fixed_window.go:20-70 | Twice the limit within two adjacent milliseconds does occur, at every window boundary, in an ordered run of the configuration, for every window of at least 2 ms. |
| SlidingLog.StepRefines | internal/limiter/sliding_window.go:21-86 | A call is admitted if and only if the request log, read in whole seconds, has room; after it the hash again agrees with the log on every bucket still in the window, also across an expiry. |
| SlidingLog.StoresTheLog | internal/limiter/sliding_window.go:38-77 | For windows of at least one second the stored buckets are exactly the per-second counts of admitted requests in the window. |
| SlidingBound.CountedTotal | internal/limiter/sliding_window.go:38-64 | The counted total lies between the exact log counts of the last W - 999 ms and of the last W ms. |
| SlidingBound.DecisionsMatchTheLog | internal/limiter/sliding_window.go:71-86 | After any run: a denial implies a full quota in the last W ms, an admission implies less than one in the last W - 999 ms. |
| SlidingBound.QuotaHoldsIff | internal/limiter/sliding_window.go:21-86 | From whatever instant on: every closed interval of length d admits at most the limit in every run if and only if d <= W - 999. |
| RetryAfter.RetryIsExactIff | internal/limiter/token_bucket.go:77-81 | The advice r of a denial (all earlier calls denied, the first call at or after it admitted) is exact under all further traffic if and only if the key outlives it: capacity * period > 1000 * rate * (ceil(r / 1000) - 61). |
| RetryAfter.AdviceHoldsIff | internal/limiter/token_bucket.go:69-81 | From whatever instant on: every denial of every run of a configuration gives exact advice if and only if capacity * period > 1000 * rate * (ceil(period / 1000) - 61). |
| RetryAfter.RetryIsExactWhen | internal/limiter/token_bucket.go:75-81 | A capacity of at least the rate, or a period of at most a minute, is enough for that. |
| RetryAfter.LeakyAdviceHoldsIff | internal/limiter/leaky_bucket.go:70-75 | The same equivalence, in the same three parameters, for the leaky bucket. |
| RetryAfter.FixedRetryIsExact | internal/limiter/fixed_window.go:64-69 | The fixed window's advice is exact under all further traffic, expiry or not, and at least 1 ms. |
| RetryAfter.FixedAdviceHolds | internal/limiter/fixed_window.go:64-69 | Every denial of every run of every validated fixed window gives exact advice. |
| RetryAfter.SlidingRetryIsOneShort | internal/limiter/sliding_window.go:53-85 | The first admissible instant is one millisecond after the advised one; the advice is exact if and only if nobody calls at the advised millisecond itself. |
| RetryAfter.SlidingAdviceFitsIff | internal/limiter/sliding_window.go:53-85 | The same for every denial of every run from an unused key. |
| RetryAfter.SlidingAdviceFails | internal/limiter/sliding_window.go:53-85 | For every validated sliding window and every whole second a concrete run whose advice fails: the quota there, a denial that advises W, and another denial W later. |
| RetryAfter.SlidingAdviceNeverHolds | internal/limiter/sliding_window.go:53-85 | So from no instant on is the advice of a sliding window exact in all runs. |
| Observation.ViewDecides | internal/limiter/limiter.go:72-86 | Answer and next state depend only on what is neither stale nor of another configuration. |
| DeniedCalls.DenialIsSilent | internal/limiter/token_bucket.go:72-81 | After a denied call no later call of any configuration can tell that it was made; shown for all four scripts. |
| DeniedCalls.DeniedCallsAreInvisible | internal/limiter/sliding_window.go:66-86 | Striking any of the denied calls out of a run leaves every other reply as it was, also when algorithms and configurations change along the run. |
| Expiry.LapsedShowsNothing | internal/limiter/fixed_window.go:37-61 | When the key of a window algorithm may expire, nothing in it is visible to any later call. |
| Expiry.ExpiryIsInvisibleToWindows | internal/limiter/sliding_window.go:53-77 | A run of the window algorithms with expiries has the replies of the same run without any. |
| ConfigChange.RestartIsBlank | internal/limiter/token_bucket.go:21-36 | After a configuration change the call behaves as on a deleted key, in reply, state and expiry; shown for all four scripts. |
| ConfigChange.RestartNeedsCapacity | internal/limiter/leaky_bucket.go:21-28 | The restart replies like a deleted key in all cases unless the algorithm is the leaky bucket with capacity 0, and then it does not. |
| ConfigChange.ConfigChangesRestartCleanly | internal/limiter/limiter.go:108-115 | For any sequence of algorithms, configurations, timestamps and expiries on one key, each maximal block of one configuration replies as on a deleted key. |
| AdmissionLaw.EveryAlgorithmIsLawful | internal/limiter/limiter.go:72-86 | One interval bound per algorithm, for every run from an unused key, expiry included. |
| AdmissionLaw.EveryBlockIsLawful | internal/limiter/limiter.go:72-86 | On a key driven by any sequence of algorithms, configurations and expiries, each stretch under one configuration that begins with a change obeys that configuration's bound. |
| Keys.KeyDeterminesId | internal/limiter/limiter.go:88-106 | The key has a left inverse: level, methods, path and tenant can be read back when methods hold neither `:` nor `_` and paths no `:`; tenant keys are arbitrary. |
| Keys.RulesCollideIff | internal/limiter/limiter.go:100-102 | Two rules can share a key for some tenants if and only if their joined methods agree and one path equals the other or continues it past a `:`. |
| Keys.KeyFormat | internal/limiter/limiter.go:90-102 | One key of each level spelled out. |
| Conservation.KeyspacesAreDisjoint | internal/limiter/reputation.go:129 | No limiter key is a reputation key. |
| Endpoints.MapRequestToEndpointConfig | internal/shared/map.go:11-29 | The loop returns the first rule in order that matches, and nothing exactly when none does. |
| Endpoints.StarCatchesAll | internal/shared/map.go:32-62 | The rule path `*` matches every request path although it never equals `*` when compared. |
| Paths.PathMatchesIff | internal/shared/map.go:32-65 | Cut at the slashes, one leading and one trailing slash ignored: a rule whose last segment is a star matches if and only if the segments before it begin the request's; any other rule if and only if the segments are equal. |
| Paths.MethodMatchesIff | internal/shared/map.go:67-79 | A rule without methods matches every method; with methods, those whose upper-case form is that of an entry. |
| Reputation.Eval | internal/limiter/reputation.go:19-126 | One update changes one record to the specified one, with the TTL of its tier; a missing record reads as a perfect newcomer. |
| ReputationTables.ViolationTable | internal/limiter/reputation.go:40-70 | The new score in counts and instants: a base cost of 0.15 up to five good requests, 0.05 from nineteen, and 1/(good + 1) between; times 1, 1.5 from the fifth and 2 from the tenth violation; plus 0.2 if the last violation was at a positive instant at most 999 ms ago; cut off at 0. |
| ReputationTables.TwoViolations | internal/limiter/reputation.go:58-63 | A newcomer is at 0.85 after one violation, and at 0.5 after a second if that comes at most 999 ms after a first at a positive instant, else at 0.7. |
| ReputationTables.GoodRequestTable | internal/limiter/reputation.go:71-98 | A good request adds a gain that times the root of the violation count v is 0.005 - 0.0005 * v up to seven violations and 0.001 from eight, capped at 1; the date of the last violation stays. |
| ReputationTables.RestTable | internal/limiter/reputation.go:31-38 | The dormant recovery branches, should a clean tenant ever be below 1: nothing for ten minutes, then 0.1 per hour of idleness up to 0.05; 0.02 per good request. |
| ReputationTables.LifetimeTable | internal/limiter/reputation.go:101-118 | The record lives half an hour, doubled once for each of 0.7, 0.3 and 0.1 that the score is below and once more from ten violations on. |
| Ranking.PunishmentBites | internal/limiter/reputation.go:40-63 | A violation costs between 0.05 and 0.15 times the escalation factor, plus 0.2 within a second of the last one, cut off at 0; exactly the most with at most five good requests on record, exactly the least with nineteen or more. |
| Ranking.WorseStaysWorse | internal/limiter/reputation.go:40-118 | Of two tenants the one with no higher score, no fewer violations, no more good requests and no older last violation stays so through any equal sequence of violations and good requests, and its record lives no shorter. |
| ReputationRuns.ReachableIsHealthy | internal/limiter/reputation.go:34-92 | In every run scores stay in [0, 1], and a score below 1 implies a violation on record. |
| ReputationRuns.CleanRecoveryIsDormant | internal/limiter/reputation.go:31-38 | After any run from an empty key, the script does what it would do without its recovery by time and its recovery for clean tenants. |
| ReputationRuns.ElevenViolationsBan | internal/limiter/reputation.go:40-63 | From every healthy record, eleven or more violations in a row end at or below the threshold. |
| ReputationRuns.BanTakesEleven | internal/limiter/reputation.go:215-217 | From whatever instant on: k violations in a row ban after every possible history if and only if k is at least 11. |
| ReputationRuns.RewardIsTiny | internal/limiter/reputation.go:76-86 | From eight violations on, a good update adds exactly 0.001/sqrt(v), clamped at 1. |
| ReputationRuns.HealingIsSlow | internal/limiter/reputation.go:76-86 | With nine violations on record, g good updates lift a score by at most g/3000, whatever violations come between. |
| ReputationRuns.BanOutlastsNineHundred | internal/limiter/reputation.go:76-86 | From whatever instant on: every tenant brought to score 0 with nine violations stays banned through any g good updates if and only if g is at most 900. |
| Middleware.CheckLimit | internal/limiter/limiter.go:31-86 | One check over the raw database equals the chain's abstract check: unknown algorithm and refused call change nothing, a lost reply changes the key and still fails. |
| Middleware.UpdateReputation | internal/limiter/reputation.go:128-145 | An update changes the tenant's record and nothing else, or nothing when the store cannot be reached. |
| Middleware.EndpointLimit | internal/middleware/endpoint_limit.go:12-58 | The handler, store included, does what the steps of an undisturbed request do from the endpoint phase on. |
| Middleware.TenantLimit | internal/middleware/tenant_limit.go:12-60 | The same from the tenant phase on. |
| Middleware.GlobalLimit | internal/middleware/global_limit.go:13-71 | The same from the global phase on, the overload gate included. |
| Middleware.DryRun | internal/middleware/dry_run.go:11-70 | The same from the dry-run phase on; a failed check ends in the panic that the recovery handler picks up. |
| Middleware.Classifier | internal/middleware/classifier.go:15-60 | The same from arrival on: requests without a rule, with a bypass rule or without a tenant key go through unchecked. |
| Middleware.Serve | internal/proxy/server.go:28-43 | The whole handler equals an undisturbed run of the chain; in dry-run mode with a working proxy the outcome is exactly one pass; with the store down the request is forwarded. |
| ChainPlan.ClassifiedIff | internal/middleware/classifier.go:24-47 | A request is limited if and only if its tenant is known and the first rule it matches does not bypass; then it is limited under that rule and as that tenant. |
| ChainPlan.UnlimitedPass | internal/middleware/classifier.go:27-46 | Any other request makes no check, changes nothing and is never turned away. |
| ChainPlan.RequestsFollowThePlan | internal/proxy/server.go:32-42 | Under every interleaving and whatever fails: a forwarded limited request has been put before exactly the limiters in use, once each and in order, up to the first whose parameters are missing (an unknown algorithm only fails its own check); one turned away by a tier has been put before those up to that tier. |
| ChainPlan.DryRunChecksAll | internal/middleware/dry_run.go:32-58 | In dry run, under every interleaving and whatever fails: a finished limited request has been put before its global, tenant and endpoint limiter once each, also after an earlier check failed; no reputation record has changed. |
| ChainPlan.DryRunChargesAll | internal/middleware/dry_run.go:32-45 | With the store up it has run each of the three scripts exactly once on its own key, under that layer's configuration. |
| Interleaving.RequestsFinish | internal/proxy/server.go:32-42 | However requests interleave and whatever fails, a request is answered after a bounded number of its own steps. |
| ChainSafety.RejectionIsEarned | internal/middleware/global_limit.go:34-60 | For every interleaving and failure pattern: a rejection at a tier implies that this tier's script ran for the request and answered 0, and at the global tier also that a stored score of at most 0.3 was read. |
| ChainSafety.FailOpen | internal/middleware/recover.go:12-30 | A request for which the store never answers is forwarded. |
| ChainSafety.DryRunForwardsOnce | internal/middleware/dry_run.go:32-68 | In dry-run mode, for every interleaving and failure pattern, a request whose proxy pass does not panic is passed on exactly once, the nil dereference included. |
| ChainSafety.ForwardedOnceIff | internal/middleware/recover.go:14-28 | In any mode a forwarded request reaches the backend twice if and only if its first pass panicked in the proxy, and once otherwise. |
| ChainSafety.SoloRun | internal/proxy/server.go:32-42 | The nested handlers are one of the interleavings, so every theorem about interleavings holds for them. |
| Conservation.RecordFrame | internal/middleware/tenant_limit.go:41-56 | A step changes a tenant's record only by an update that one of the tenant's own requests causes and that reaches the store. |
| Conservation.BooksBalance | internal/middleware/endpoint_limit.go:37-56 | Over every interleaving in which this tenant's updates reach an unexpired record, its violation count grows with its 429s of the two lower tiers, and its good count with its credited admissions, one for one; what happens to other tenants' updates does not matter. |
| Conservation.RecordIsTally | internal/middleware/tenant_limit.go:41-58 | Once every request is answered, violation count and good count are their old values plus the number of 429s and of admissions at either tier. |
| ForwardBound.KeyFrame | internal/limiter/limiter.go:72-106 | A step of the chain changes a limiter key exactly when it runs a script on that key, and then as that call alone would. |
| ForwardBound.KeyIsIsolated | internal/limiter/limiter.go:88-106 | Under every interleaving a key ends up as its own calls, in order, would leave it. |
| ForwardBound.VerdictsAreProjected | internal/limiter/limiter.go:72-106 | Under every interleaving, what the handlers are told by the checks on a key are the replies of the key's own calls made alone, less those lost on the way. |
| ForwardBound.PassedWithinLog | internal/middleware/endpoint_limit.go:27-56 | Never more requests pass a tier on a key in [from, to] than the key's script admitted there. |
| ForwardBound.ForwardedAreAdmitted | internal/middleware/tenant_limit.go:31-58 | Under every interleaving and whatever fails: a forwarded request was admitted by each tier in force, unless its check by that tier failed or one of its checks panicked; neither happens while every layer is configured and the store answers the requests under the key. |
| ForwardBound.ForwardedIsLawful | internal/proxy/server.go:32-42 | Under every interleaving and whatever fails: the forwarded requests that were admitted on one key in [from, to] obey the bound of the one configuration that the key sees. |
| ForwardBound.TenantKeySeesOneConfig | internal/limiter/limiter.go:44-55 | Whatever rules and tenants exist, the only configuration a tenant's key ever sees is the tenant layer's. |
| BackendLoad.EndpointKeyDeterminesRule | internal/shared/map.go:16-26 | Among rules whose methods are words and whose paths hold no colon, requests that share an endpoint key fall under the same rule, its algorithm included, and belong to the same tenant. |
| BackendLoad.EndpointKeySeesOneConfig | internal/limiter/limiter.go:57-70 | So the only configuration an endpoint key ever sees is that of its rule. |
| BackendLoad.DeliveredArePassed | internal/middleware/endpoint_limit.go:27-56 | Under every interleaving and whatever fails: the requests that make a pass to the backend in [from, to], other than those that failed open past the tier, were admitted there or up to the forwarding delay earlier. |
| BackendLoad.TenantLoadIsLawful | internal/middleware/tenant_limit.go:29-58 | A tenant's forwarded requests admitted in [from, to] obey the per-tenant bound; its requests passed on to the backend in [from, to], other than those that failed open, obey it for the interval stretched by the longest delay between admission and forwarding; expiry included, whatever store calls fail. |
| BackendLoad.EndpointLoadIsLawful | internal/middleware/endpoint_limit.go:23-56 | The same for the requests under each matched rule and that rule's bound. |
| FrozenBan.GateHoldsIff | internal/middleware/global_limit.go:34-69 | A request of a banned tenant gets past the global tier if and only if its global check did not answer with a denial, or its reputation read failed or found the record gone; if it ends there, it is with a 429. |
| FrozenBan.BanIsFrozen | internal/middleware/global_limit.go:44-60 | As long as none of these loopholes occurs: of a tenant at or below the threshold with no request between the global tier and its end, no request gets past the global tier, and its record, the record's expiry and its limiter keys stay exactly as they were, whatever other requests do and whatever else fails. |
| FrozenBan.BanHoldsIff | internal/middleware/global_limit.go:34-69 | The ban holds at every instant of a run if and only if the run has no loophole. |
| FrozenBan.BannedIsRejected | internal/middleware/global_limit.go:55-60 | Each of its unfinished requests that is given its steps while there is no loophole ends as a 429 of the global tier. |
| FrozenBan.ReleaseHasACause | internal/middleware/global_limit.go:34-69 | When a run has a loophole, the first release is by a global check that failed, panicked or admitted, by a failed reputation read, or by a read at or after the expiry of the record that banned the tenant, untouched until then. |
| FrozenBan.GateDecides | internal/limiter/reputation.go:169-199 | Under overload and with records dropped on time the gate turns a banned tenant away if and only if the read works and the record has not expired; a failed read lets it through at any time, and every read does from 28800 s after the last update on. |
| FrozenBan.RecordsStayDated | internal/limiter/reputation.go:101-118 | Whatever happens in the chain, a record expires between 1800 s and 28800 s after its last update. |
| FrozenBan.TenantKeyIsOwn | internal/limiter/limiter.go:97-99 | The tenant-layer key is touched by that tenant's requests alone. |
| FrozenBan.EndpointKeyIsOwn | internal/limiter/limiter.go:100-102 | So are the tenant's endpoint keys, for rules whose methods are words and whose paths hold no colon. |
| Forgiveness.ScoreIsOwed | internal/middleware/tenant_limit.go:53 | An invariant of every interleaving in which this tenant's updates reach an unexpired record: a repeat offender's score is at most 1/3000 per admission whose request has not been turned away since, punishments and clamps included, whatever other tenants do. |
| Forgiveness.BanOutlasts450Forwards | internal/middleware/endpoint_limit.go:52 | A tenant at score 0 with nine violations is still at or below the threshold after up to 450 forwarded requests, with any number of 429s in between. |
| Pardon.BanOutlastsIff | internal/middleware/endpoint_limit.go:52 | Exactness at the backend, from whatever instant on: over all settings, interleavings, other tenants and histories of 429s, a ban whose updates reach an unexpired record is certain to outlast n forwarded requests if and only if n is at most 450; a run of 451 ends one. |
| Pardon.OutcastIsReachable | internal/limiter/reputation.go:40-62 | The record that this run of 451 starts from is where nine violations in one millisecond take a newcomer. |

## Left out

- Conservation.BooksBalance: covers runs in which the tenant's own updates reach the store and find its record unexpired; a refused update or a lapsed record loses counts, as in the code.
- FrozenBan.BanIsFrozen: a request of the tenant that is already past the global tier is excluded until it ends; it still updates the record and the keys, as in the code.
- BackendLoad.EndpointKeySeesOneConfig: rule paths that contain a colon are excluded; rules that share a key then drive it with several configurations.
- FrozenBan.EndpointKeyIsOwn: rule paths that contain a colon are excluded, because such rules really can share keys (`RulesCollideIff`).
- Middleware.UpdateReputation: the values the script returns are not modelled; Redis truncates them and no caller uses them. The stored fields are.
- Endpoints.MapRequestToEndpointConfig: method names are compared case-insensitively on ASCII letters only.
- SlidingWindowScript.Scan: Lua's limit on the number of stale buckets that `unpack` can pass to `HDEL` at once is not modelled, nor is the rendering of bucket names as text.
- Middleware.Serve: the world's choices are fixed per phase of one request; concurrent requests are covered by the interleaving lemmas.
- IEEE rounding of scores, and of the TTL quotient.
- The Redis client: connections, TLS, RESP conversion, the five-second deadline. A call is one atomic step with a failure choice.
- SHA-256 and JSON in the configuration hash.
- HTTP serving, reverse proxying, the metadata handler (request ids and client address headers), start-up and shutdown.
- Logging, metrics and the text of responses; a rejection is kept as the tier that rejected.
- YAML loading, environment overrides and the validators as functions.
- Tenant extraction and key sanitising: a request carries the tenant key it would yield, or none.
