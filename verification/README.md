# A verified model of the server's state machines and arithmetic

This project models the parts of the repository whose correctness is hard to see by reading, and
proves what they promise. Each file is one Dafny module.

**OAuth grants** (`GrantStore`, `GrantLifecycle`, `GrantRuns`, `GrantSessions`, `FirestoreStore`,
`FirestoreStates`, `FirestoreGrants`). Codes, refresh grants and access tokens under any number of concurrent
requests. `GrantStore` has the transition rules, the store's operations as functions on its
contents, and the in-memory store as a class proved against them. `GrantLifecycle` makes each
request a program counter with its local snapshot and each store call one atomic step; `GrantRuns`
states what holds over every run, and `GrantSessions` follows whole requests through it: what an
exchange or refresh that gets through has read, stored and minted, where every token comes from and
exactly when it is accepted. `FirestoreStore` models the production store's retried
transaction closures and proves the store linearizable to the in-memory one; `FirestoreStates` does
the same for authorization states, and `FirestoreGrants` runs the lifecycle on that store and
carries the main results over.

**User pool** (`UserPool`, `PoolRequests`, `PoolLock`, `PoolSteps`). Singleflighted builds, in-flight
counts and two evictors, with the steps that run outside the pool lock interleaved freely; which
request is served what; the locked sections on the mutable map, and the proof that these are those
steps.

**Profile cache** (`ProfileCache`, `CacheBudget`, `CacheSteps`, `Prefetch`). The byte-bounded LRU
as a class refining an abstract LRU, many caches sharing the process-wide counter at its atomic
additions, the proof that the class's operations are those steps, and the prefetch that fills a
cache without evicting what it still needs.

**Profile analysis** (`CallTree`, `FlatScan`, `CallTrie`, `Flamegraph`, `FlameCuts`,
`ProfilePaging`). The flat scan and the call trie built from the same samples agree; the pruned
flame graph is the first part of the tree cut by depth and percentage, and is described by the
samples alone; the paged listing loses and repeats nothing.

**Cross-group fold** (`GroupFold`). The streaming pass over per-group series equals its closed form.

**Signal statistics** (`Reals`, `Signals`, `SpikeStatistics`, `TrendRegression`, `TrendMeaning`,
`Percentiles`, `RobustBaseline`, `Classify`). The inequalities that the thresholds rest on, what the
numbers measure, and exactly when each verdict is given.

**Spans and log entries** (`SpanTree`, `ByteOrder`, `Options`, `Utf8`, `LogEncoding`, `LogBounds`,
`LogFallback`). A span tree from an arbitrary parent relation; the unconditional size bound of a
log entry, what each stage leaves of it, and when its content is given up.

`dafny verify dfyconfig.toml` checks the whole project.

## What the model assumes

- Randomness is ideal: a newly drawn secret, code or family was never drawn, issued or presented
  before, and nobody presents a secret that was drawn but not yet handed out. SHA-256 is injective
  and sealed blobs cannot be forged.
- Clocks are arbitrary: no two times read in a run are related, except where a result says so.
- Numbers that are floats in the program are reals, and machine integers are unbounded; which
  reduced values count as finite is a parameter of the fold, and the square root is a parameter
  of the statistics. The length of an encoded log entry is assumed to fit a Go `int`.
- The profile listing does not change between the calls that page through it.
- Nobody else uses a profile cache, or moves the process counter, while a prefetch fills it. In the
  program a single fetch of the same user may run meanwhile and evict what the prefetch has cached
  (`Prefetch.NilKeepEvicts`), and other users' caches move the counter; `Prefetch.PrefetchOne`
  holds from any cache and counter and so does not depend on this.
- A Firestore transaction commits only if the document it read is unchanged, and otherwise runs
  its closure again or gives up.

## Where the code and its comments or documentation part

- `codeRedemptionDecision` tests expiry before replay, so a replay after the code's own expiry is
  reported as not found and does not revoke the family (`GrantStore.ReplayRevokesExactlyBeforeExpiry`).
- The ten-point gate before spike detection is meant to lose nothing at the default threshold. That
  holds exactly when the threshold's square exceeds 8, so for 3 but not for 2.5, the default for
  error rates: nine points can hold a z-score of the square root of 8
  (`SpikeStatistics.PointGateHidesNothingIff`).
- The ratio gate of the spike branch always passes exactly when the threshold's square exceeds
  20/3. At 2.5 it does not: a window with four spikes among 25 points reaches the threshold and is
  not called a spike (`SpikeStatistics.RatioGateAlwaysPassesIff`,
  `Classify.RatioGateDecidesAtErrorRate`).
- The span count of a trace is the number of nodes in its tree only when no span is its own
  ancestor; spans on or below a parent cycle are not emitted (`SpanTree.CountMatchesIff`).
- The routing-only fallback of a log entry is said to be for a huge identity or error field. It also
  replaces entries whose reduced form fits by less than the marks of what was cut take, up to 219
  bytes, although a further reduction would have fitted (`LogFallback.RoutedIff`,
  `LogFallback.RoutedThoughSmall`).
- Without a better direction no change is meant to be a step regression. The rule for measured steps
  does not look at the direction, so an SLO-breaching step is one all the same
  (`Classify.StepWithoutDegradingIff`, `Classify.StepRegressionWithoutDirection`).
- Verdicts on unreliable data are said to become noisy or stable; the code answers insufficient data
  (`Classify.VerdictsAreSupported`, `Classify.GapsAreInsufficient`).
- The prefetch's count is said to be the wanted profiles in the cache at the end. It is too small by
  the wanted profiles that were cached before and that the scan does not come to, because it stops
  early or they are not listed, and too large by those the listing repeats; it is exact if and only
  if these are equally many (`Prefetch.CachedIsExactIff`, `Prefetch.FullCacheIsNotCounted`,
  `Prefetch.UnlistedIsNotCounted`, `Prefetch.RepeatedProfileHidesAnother`).
- The robust baseline's deviation is said to vanish only when every bucket mean is identical. It
  vanishes exactly when more than half of them equal their median
  (`RobustBaseline.DeviationVanishesIff`, `RobustBaseline.DeviationVanishesThoughMeansDiffer`).

## Model

| member | source | states |
|---|---|---|
| `GrantStore.ExecKeepsConsistent` | internal/authsrv/store.go:201-221 | No store call leaves the consistent states: a code is active or used, codes do not share a family, and a family has a grant exactly when its code was redeemed |
| `GrantStore.ExecIsMonotone` | internal/authsrv/store.go:201-271 | Whatever a caller passes, no single call reopens a used code or a revoked grant, or removes or re-identifies anything, provided a rotation carries over expiry and identity |
| `GrantStore.ReplayRevokesExactlyBeforeExpiry` | internal/authsrv/grants.go:261-269 | A second redemption revokes the family if and only if it runs before the code's own expiry, because expiry is tested before replay; later it is reported as not found and changes nothing |
| `GrantStore.PutRedeemRotate` | internal/authsrv/store.go:181-249 | A code that was put can be redeemed until it expires and not after; the redemption stores the grant under the code's family, whose secret rotates it exactly while it is active and unexpired |
| `GrantStore.CurrentSecretRevokes` | internal/authsrv/grants.go:286-289 | Revocation by the current secret answers Ok and revokes, also on an expired or revoked family and again on a second call; any other secret changes nothing and says so |
| `GrantStore.MemoryStateStore.PutAuthorizationState` | internal/authsrv/store.go:143-151 | A state is stored once; a second put on the key fails and changes nothing |
| `GrantStore.MemoryStateStore.UseAuthorizationState` | internal/authsrv/store.go:163-179 | Consumes a state: success exactly when it exists, is unexpired and active, and then it is used; each error has its own exact condition and changes nothing |
| `GrantStore.MemoryStateStore.PutCode` | internal/authsrv/store.go:181-189 | The new contents and error are those of the specified store call |
| `GrantStore.MemoryStateStore.RedeemCode` | internal/authsrv/store.go:201-221 | The new contents and error are those of the specified store call, replay revocation included |
| `GrantStore.MemoryStateStore.RotateGrant` | internal/authsrv/store.go:233-249 | The new contents and error are those of the specified compare-and-set, replay revocation included |
| `GrantStore.MemoryStateStore.RevokeGrant` | internal/authsrv/store.go:251-260 | The new contents are those of the specified call; a missing grant is left alone |
| `GrantStore.MemoryStateStore.RevokeGrantIfSecret` | internal/authsrv/store.go:262-271 | Revokes exactly when the stored hash matches, and says whether it did |
| `GrantLifecycle.SameHashSameGeneration` | internal/authsrv/grants.go:271-279 | Comparing the active hash is free of the ABA problem: a matching hash means the generation of the snapshot is still the current one |
| `GrantLifecycle.ReplayCallsCommitNothing` | internal/authsrv/grants.go:79-82 | The redemption and rotation calls that the two replay paths make with an all-zero grant never succeed |
| `GrantLifecycle.StepEvolves` | internal/authsrv/grants.go:69-252 | Every step of every request moves the store forward only: codes become used, grants keep expiry and identity, generations do not fall, revocation stays, and a hash changes only to a never presented secret |
| `GrantLifecycle.StepKeepsGrants` | internal/authsrv/grants.go:148-168 | Every stored grant names a secret issued for exactly this family and generation, although a rotation builds its record from an old snapshot |
| `GrantLifecycle.StepKeepsIssues` | internal/authsrv/grants.go:148-168 | Every issued secret was drawn by the server and belongs to a stored family at or past its generation; only issued secrets are handed out |
| `GrantLifecycle.StepKeepsInv` | internal/authsrv/grants.go:69-252 | The system invariant is inductive over all eighteen kinds of step |
| `GrantLifecycle.MintedExpiry` | internal/authsrv/token.go:113-124 | An access token expires with Google's token or one access-token lifetime after minting, whichever comes first |
| `GrantRuns.ZeroGrantNeverCommitted` | internal/authsrv/grants.go:128-134 | In every interleaving the all-zero grant is never committed and no stored grant is without a secret |
| `GrantRuns.MismatchIsForever` | internal/authsrv/grants.go:128-134 | A refresh secret that did not match when PrepareRefresh read the grant matches at no later point of the run |
| `GrantRuns.GrantsOnlyMoveForward` | internal/authsrv/grants.go:271-284 | Along every run a grant's expiry and identity never change, its generation never falls and a revoked grant stays revoked |
| `GrantRuns.CodesOnlyMoveForward` | internal/authsrv/grants.go:261-269 | Along every run a code keeps its fields and a used code stays used |
| `GrantRuns.RevocationSticks` | internal/authsrv/grants.go:281-284 | After any of the five ways to revoke a family has committed, the family is revoked at every later point |
| `GrantRuns.GenerationCountsRotations` | internal/authsrv/grants.go:148-168 | From its redemption on, a grant's generation is one plus the rotations committed so far, and its expiry is the redemption time plus the refresh lifetime |
| `GrantRuns.RotatedSecretIsDead` | internal/authsrv/grants.go:271-279 | A refresh secret that was rotated away is never the current one of its family again |
| `GrantRuns.SecretRotatesOnce` | internal/authsrv/grants.go:271-279 | Each refresh secret wins at most one rotation, over all requests (section 10.4 of RFC 6749) |
| `GrantRuns.CodeRedeemedOnce` | internal/authsrv/store.go:201-221 | Each authorization code commits at most one redemption in any interleaving (section 4.1.2 of RFC 6749) |
| `GrantRuns.ReplayKillsFamily` | internal/authsrv/store.go:201-221 | After a redemption, any redemption call on the code before its expiry revokes the family for good; a later one leaves the store alone |
| `GrantRuns.RefreshReplayKillsFamily` | internal/authsrv/grants.go:128-134 | Once a request that presented a secret other than the current one has made its replay call, the family is revoked at every later point; the grant's expiry cannot get in the way (section 10.4 of RFC 6749) |
| `GrantRuns.RotatedSecretIsReplay` | internal/authsrv/grants.go:123-134 | Presenting a rotated-away secret never prepares a refresh: the request goes to its replay call while the grant is active and ends otherwise |
| `GrantRuns.RotatedSecretRevokesNothing` | internal/authsrv/grants.go:240-247 | A revocation whose secret is rotated away between its read and its commit revokes nothing |
| `GrantRuns.GrantHasRedemption` | internal/authsrv/grants.go:69-112 | Every stored grant goes back to one committed redemption of a code of its family |
| `GrantSessions.RequestsEnd` | internal/authsrv/grants.go:69-252 | A request takes at most four steps beyond its read, so every request ends |
| `GrantSessions.NeverStuck` | internal/authsrv/grants.go:69-252 | A request that is under way can always take a step other than dying |
| `GrantSessions.RequestGetsThrough` | internal/authsrv/token.go:61-97 | An exchange or refresh that is admitted and not overtaken stores exactly its grant: generation, hash, status, expiry, identity and times, with Google's new refresh token if it gave one and the old one if not; it then hands out its secret and its token exactly if Google's credentials are still alive |
| `GrantSessions.TokenHasTrail` | internal/authsrv/token.go:94-124 | Every access token ever minted ends such a request: its code or grant was active, unexpired and rightly presented at the read and still current at the write, its googleExpiry is the one sealed in that code or answered to that very refresh, and its expiry the earlier of that and the token lifetime |
| `GrantSessions.SourceGives` | internal/authsrv/token.go:94-96 | That expiry is found at a step: a committed redemption of a code with this googleExpiry, or Google's answer to the same request |
| `GrantSessions.RejectionRevokes` | internal/authsrv/token.go:69-92 | A refresh that Google refuses, or whose account lost the pinned project, revokes its family for good unless the request dies first |
| `GrantSessions.StaleSecretRevokes` | internal/authsrv/grants.go:128-134 | From the presentation on: a secret other than the current one of an active grant leads to the family's revocation for good unless the request dies first (section 10.4 of RFC 6749) |
| `GrantSessions.UsedCodeRevokes` | internal/authsrv/grants.go:77-82 | From the presentation on: a redeemed code leads to its family's revocation for good when presented before the code's expiry, and to nothing after it (section 4.1.2 of RFC 6749) |
| `GrantSessions.PossessionRevokes` | internal/authsrv/grants.go:224-251 | Revocation by refresh token revokes exactly when the secret is current at the read and still at the write, whatever the grant's status and expiry |
| `GrantSessions.AccessTokenRevokes` | internal/authsrv/grants.go:217-223 | Revocation by access token always revokes the token's family, for good |
| `GrantSessions.RevokedHasRevocation` | internal/authsrv/grants.go:281-284 | Every revoked grant goes back to one of the five committed revocations |
| `GrantSessions.SessionBound` | internal/authsrv/grants.go:179-208 | An access token accepted at time t was minted by an admitted request, t is before the expiry Google gave to that very request and within one token lifetime of its minting, t < redemption time + refresh lifetime whatever refreshes happened, and no revocation of its family committed before the accepting read |
| `GrantSessions.AcceptedExactly` | internal/authsrv/grants.go:179-208 | A minted token is accepted if and only if its expiry and its family's refresh lifetime are not over, the domain is allowed and no revocation of the family has committed |
| `FirestoreStore.AttemptIsAtomic` | internal/authsrv/firestore_store.go:135-177 | An attempt whose read is current does what the mutex store would do, with the same reply; its create never meets an existing grant and its merge never creates one |
| `FirestoreStore.StepRefinesMutexStore` | internal/authsrv/firestore_store.go:135-283 | Every step that answers is one atomic call on the mutex store with the same reply, every other step leaves the documents alone, and no commit is refused |
| `FirestoreStore.Linearizable` | internal/authsrv/firestore_store.go:135-283 | For any number of concurrent transactions, conflicts and abandoned calls, the answers are those of the mutex store executing the answered calls one at a time |
| `FirestoreStore.DifferencesAreOffTheReachableStates` | internal/authsrv/firestore_store.go:147-166 | On contents no run reaches, create against overwrite and merge on a missing document do make the two stores differ |
| `FirestoreStates.StepRefinesMutexStore` | internal/authsrv/firestore_store.go:56-109 | For authorization states too, every step that answers is one call on the mutex store with its reply and effect, and a create never overwrites |
| `FirestoreStates.StateUsedOnce` | internal/authsrv/firestore_store.go:81-109 | However many requests and retried transactions race, an authorization state is used by at most one of them |
| `FirestoreGrants.StepRefines` | internal/authsrv/firestore_store.go:135-283 | Every step of the requests on the production store, with reads, retried transactions and failures, is one step of the lifecycle on the mutex store or none, and a waiting call stays valid while others go on |
| `FirestoreGrants.RunsOnMutexStore` | internal/authsrv/firestore_store.go:135-283 | So every run on the production store is, with the waiting left out, a run of the lifecycle on the mutex store |
| `FirestoreGrants.SecretRotatesOnce` | internal/authsrv/firestore_store.go:194-233 | In production each refresh secret wins at most one rotation (section 10.4 of RFC 6749) |
| `FirestoreGrants.CodeRedeemedOnce` | internal/authsrv/firestore_store.go:135-177 | In production each authorization code is redeemed at most once (section 4.1.2 of RFC 6749) |
| `FirestoreGrants.RefreshReplayKillsFamily` | internal/authsrv/firestore_store.go:194-233 | In production a replay call with a secret other than the current one revokes the family for good |
| `FirestoreGrants.SessionBound` | internal/authsrv/grants.go:179-208 | In production the bound on every session holds: the time is before the expiry that Google gave, at an earlier step, to the request that minted the token and was under way all the time in between; within the token lifetime and the refresh lifetime; and no revocation committed before the accepting read |
| `UserPool.StepKeepsInv` | internal/server/userpool.go:194-357 | The pool invariant (counts, places, duties, one builder, one owner) is inductive over all twelve kinds of step, locked and unlocked |
| `UserPool.PoolBoundedAndSingleflight` | internal/server/userpool.go:194-242 | In every interleaving the map never exceeds its cap and no key is being built twice |
| `UserPool.NeverClosedInUse` | internal/server/userpool.go:289-357 | No assembly is closed while a request holds it, and a closed one is held by nobody |
| `UserPool.ClosedOnce` | internal/server/userpool.go:343-357 | Each assembly is closed at most once |
| `UserPool.EveryAssemblyAccountedFor` | internal/server/userpool.go:289-347 | Every built assembly is in the map and open, or out of it with exactly one evictor that will close it, or closed once |
| `UserPool.DeleteIsItsOwn` | internal/server/userpool.go:260-264 | The delete by key after a failed build removes the builder's own entry, and a request being served has an open, built assembly |
| `PoolRequests.BuilderIsServed` | internal/server/userpool.go:233-274 | A build publishes its outcome for its entry only: the builder is served when it succeeded and reports the failure when it did not |
| `PoolRequests.OutcomeIsBuilds` | internal/server/userpool.go:79-98 | The outcome an entry shows is that of a build run for it earlier |
| `PoolRequests.BuiltOnce` | internal/server/userpool.go:77-81 | An entry is built at most once |
| `PoolRequests.WaiterSharesBuild` | internal/server/userpool.go:197-211 | A request that found an entry is served that entry if and only if its one build succeeded, and leaves if and only if it failed |
| `PoolRequests.WaiterWakesOrLeaves` | internal/server/userpool.go:201-205 | A waiting request stops waiting when the build is over or it is cancelled, and a cancelled one leaves |
| `PoolRequests.EveryBuildIsRun` | internal/server/userpool.go:244-247 | Every entry still being built has a request on its way to run the builder, so nobody waits for a build that nobody runs |
| `PoolRequests.FailureIsDropped` | internal/server/userpool.go:250-264 | After a failed build the builder's next step takes its key out of the map |
| `PoolRequests.EachStepIsNearer` | internal/server/userpool.go:194-357 | Every step brings its thread nearer to its end, at which a request is counted out of the entry it was counted into |
| `PoolRequests.NeverStuck` | internal/server/userpool.go:194-357 | A thread that is not done can take a step unless it waits for a build still being run |
| `PoolRequests.LastUseIsLastRequest` | internal/server/userpool.go:22-25 | An entry's last use is the time of the last request for it, so the idle limit slides |
| `PoolLock.LockedPool.TakeOneEvictable` | internal/server/userpool.go:289-305 | Removes the least recently used evictable entry, or nothing exactly when none is evictable |
| `PoolLock.LockedPool.TakeIdle` | internal/server/userpool.go:327-341 | Takes out exactly the evictable entries idle since before the cutoff, each once |
| `PoolLock.LockedPool.Insert` | internal/server/userpool.go:213-230 | A miss inserts a building entry that counts the caller, evicting the least recently used first at the cap, and changes nothing when the pool is full |
| `PoolLock.LockedPool.Enter` | internal/server/userpool.go:194-232 | A hit counts the caller in and touches the entry, building or not; a miss inserts |
| `PoolSteps.Enter` | internal/server/userpool.go:194-242 | On the mutable map and entries, the locked part of entryFor is exactly the pool step hit, insert or replace, or none when the pool is full |
| `PoolSteps.TakeIdle` | internal/server/userpool.go:326-347 | The locked part of the idle sweep is exactly the pool's sweep step |
| `PoolSteps.CountsAreHolders` | internal/server/userpool.go:194-242 | So an entry object's in-flight count is the number of requests that hold it, a closed one is unused, and the map is within its cap |
| `ProfileCache.Cache.Index` | internal/gcpdata/profiler_cache.go:63-67 | The position of the key's entry, or -1 exactly when there is none |
| `ProfileCache.Cache.Get` | internal/gcpdata/profiler_cache.go:50-77 | A hit returns the stored entry and moves it to the most recently used end, and that is all |
| `ProfileCache.Cache.PlanEviction` | internal/gcpdata/profiler_cache.go:102-116 | The eviction loop stays in bounds, passes over the key's own entry, finds the least number of oldest others that is enough, and is blocked exactly when that prefix holds a kept key |
| `ProfileCache.Cache.Put` | internal/gcpdata/profiler_cache.go:89-129 | Drops the shortest sufficient prefix of the other entries and appends the new one; each rejection has its exact condition and leaves cache and process counter unchanged |
| `ProfileCache.Cache.Delete` | internal/gcpdata/profiler_cache.go:132-143 | Removes the key's entry and gives back exactly its bytes |
| `ProfileCache.Cache.Close` | internal/gcpdata/profiler_cache.go:146-153 | Empties the cache for good and gives back exactly its bytes |
| `ProfileCache.Spliced` | internal/gcpdata/profiler_cache.go:122-127 | The slice deletions leave exactly the other entries from the evicted prefix on, wherever the replaced entry lay |
| `ProfileCache.KeptEntriesSurvive` | internal/gcpdata/profiler_cache.go:81-82 | An accepted insert keeps every other entry the caller asked to keep |
| `CacheBudget.StepKeepsInv` | internal/gcpdata/profiler_cache.go:89-153 | One atomic step of any cache keeps the counter equal to all bytes plus what running operations owe, and within the budget net of rollbacks |
| `CacheBudget.BudgetHolds` | internal/gcpdata/profiler_cache.go:89-153 | For any number of caches interleaved at the atomic add, that balance and bound hold throughout the run |
| `CacheBudget.NoBudgetLeaks` | internal/gcpdata/profiler_cache.go:89-153 | Whenever no operation is under way the counter is exactly the sum of all cache bytes, whatever was rejected, deleted or closed |
| `CacheSteps.Put` | internal/gcpdata/profiler_cache.go:89-129 | A Put of the cache class is a reservation and its application, a reservation and its rollback, or no step, exactly as its reply says |
| `CacheSteps.Delete` | internal/gcpdata/profiler_cache.go:131-144 | A Delete of the class is the splice and the release of exactly its bytes |
| `CacheSteps.Close` | internal/gcpdata/profiler_cache.go:146-153 | A Close of the class is the release of all bytes and the clearing |
| `CacheSteps.RunsKeepInv` | internal/gcpdata/profiler_cache.go:89-153 | Such steps keep a process within its budget, so the operations of the class do |
| `Prefetch.PrefetchOne` | internal/gcpdata/profiler.go:853-874 | From any cache: a hit or an insert succeeds, and each refusal has its exact condition and changes nothing; no wanted entry goes, nothing but the profile comes |
| `Prefetch.PrefetchProfiles` | internal/gcpdata/profiler.go:824-877 | Every profile looked at is unwanted, kept (and in the cache at the end), skipped as unfit, or the one that stops the scan because the cache could take it only by evicting a wanted one or the budget not at all; without a stop the scan ends only at the end of the listing, the scan limit, or when all wanted are found; how far it looks is a function of the input |
| `Prefetch.CachedIsExactIff` | internal/gcpdata/profiler.go:809-812 | The count falls short of the wanted profiles in the cache at the end by those cached before that the scan did not come to, and exceeds it by those it counted again; it is exact if and only if these are as many, and without a wanted profile listed twice if and only if none was missed |
| `Prefetch.FullCacheIsNotCounted` | internal/gcpdata/profiler.go:866-868 | A full cache that holds the wanted profile listed second: the first one ends the scan and the count is 0 with one wanted profile in the cache |
| `Prefetch.UnlistedIsNotCounted` | internal/gcpdata/profiler.go:838-843 | A wanted profile that is cached and not listed is not counted |
| `Prefetch.RepeatedProfileHidesAnother` | internal/gcpdata/profiler.go:843-851 | A listing that repeats a wanted profile: counted twice, and the other wanted one is never looked at |
| `Prefetch.NilKeepEvicts` | internal/gcpdata/profiler.go:386-388 | An insert that asks to keep nothing, as a single fetch makes, evicts a profile the prefetch has cached |
| `CallTree.CumulativeAgrees` | internal/gcpdata/profiler.go:1121-1168 | For samples of any sign and any recursion, a function's flat cumulative cost is the node costs summed over its occurrences without an ancestor of the same name |
| `CallTree.SelfAgrees` | internal/gcpdata/profiler.go:1121-1168 | The flat self cost is the node self costs summed over all occurrences |
| `FlatScan.ScanSample` | internal/gcpdata/profiler.go:1130-1165 | One sample changes exactly the tracked functions on its path: cumulative once each, self once per leaf line |
| `FlatScan.ScanFunctionCosts` | internal/gcpdata/profiler.go:1121-1168 | The scan returns exactly the tracked functions that occur, each with its flat self and cumulative cost, and the profile total |
| `CallTrie.ShapedGrows` | internal/gcpdata/profiler.go:608-614 | Creating a missing child keeps the trie a tree with one node per path |
| `CallTrie.LeafTest` | internal/gcpdata/profiler.go:616-618 | The code's leaf test, location zero, is membership in the last part of the path |
| `CallTrie.UnvisitedCostsNothing` | internal/gcpdata/profiler.go:608-618 | A path no sample visited has no cost, so a new node starts right |
| `CallTrie.Trie.Child` | internal/gcpdata/profiler.go:608-612 | Finds or creates the child of a node, costs untouched |
| `CallTrie.Trie.Enter` | internal/gcpdata/profiler.go:608-619 | One line: the child is charged the sample's value, its self cost too at the leaf location |
| `CallTrie.Trie.AddSample` | internal/gcpdata/profiler.go:597-622 | Walking a sample from the root adds exactly that sample to every node on its path |
| `CallTrie.Trie.AddAll` | internal/gcpdata/profiler.go:590-622 | A node's cumulative cost is the value of the samples whose path starts with its path; nodes are exactly the visited paths |
| `CallTrie.TrieAgreesWithScan` | internal/gcpdata/profiler.go:1121-1168 | The scan's two costs of every function equal the sums over the built trie's own numbers |
| `Flamegraph.PercentIsRounded` | internal/gcpdata/profiler.go:1310-1315 | A percentage is within 0.005 of the exact one |
| `Flamegraph.RoundsHalfAwayFromZero` | internal/gcpdata/profiler.go:1314 | The rounding is to the nearest, away from zero when two are as near, and symmetric |
| `ByteOrder.LessMeans` | internal/gcpdata/profiler.go:1306-1308 | Names compare as Go strings do: a proper prefix first, otherwise by the first place that differs |
| `Flamegraph.BeforeIsOrder` | internal/gcpdata/profiler.go:1306-1308 | The sibling order is transitive, antisymmetric, and total on distinct names |
| `Flamegraph.RankedIsSorted` | internal/gcpdata/profiler.go:1300-1308 | The ranked list of children is sorted by it |
| `Flamegraph.SortedChildren` | internal/gcpdata/profiler.go:1300-1302 | Returns the one list of all children that the order allows |
| `Flamegraph.Pruner.Convert` | internal/gcpdata/profiler.go:639-664 | The returned tree is the first nodes, in preorder, of the tree cut by depth and percentage only, as many as the budget allows; depth is bounded; returned nodes - 1 + pruned is the number of trie children of all returned nodes |
| `Flamegraph.PreorderCounts` | internal/gcpdata/profiler.go:639-664 | The preorder of a returned tree has as many entries as the tree has nodes |
| `Flamegraph.ReturnedOnce` | internal/gcpdata/profiler.go:639-664 | It lists no trie node twice, so every returned node is a different one |
| `Flamegraph.FindInTrie` | internal/gcpdata/profiler.go:1267-1297 | Finds the only non-root node whose name contains the text, or says that there is none, or gives the first ten matching names in cost order and the number of the others |
| `Flamegraph.Flamegraph` | internal/gcpdata/profiler.go:584-668 | From samples to a bounded tree: at most max(1, maxNodes) nodes, depth at most maxDepth, conservation of children, over the trie of exactly these samples |
| `FlameCuts.ReturnedPaths` | internal/gcpdata/profiler.go:639-664 | Told by the samples: while the budget is not spent the returned paths are exactly those below the subtree's root, at most maxDepth deeper, on which every path from the root on has a share of the total of at least minPct; a spent budget returns the first of these; they come depth first, the costlier sibling before the other |
| `FlameCuts.ReturnedTree` | internal/gcpdata/profiler.go:640-646 | Every node of the returned tree carries the self cost, cumulative cost and percentage that the samples give to the path its place in the tree spells |
| `FlameCuts.AncestorsPass` | internal/gcpdata/profiler.go:656 | Without negative values every ancestor of a path that passes the percentage cut passes it too |
| `FlameCuts.CutByOwnShare` | internal/gcpdata/profiler.go:656 | So then the cut is decided by the path's own share |
| `ProfilePaging.ListProfiles` | internal/gcpdata/profiler.go:118-201 | One call scans from its cursor to a definite position, returns exactly the matches between, and its next cursor points exactly there; it stops only at the page limit, the scan limit or the end; refused cursors get their error |
| `ProfilePaging.ScanPages` | internal/gcpdata/profiler.go:135-188 | The outer loop over API pages keeps that account across page boundaries and empty pages |
| `ProfilePaging.ScanPage` | internal/gcpdata/profiler.go:147-183 | The inner loop over one API page, with the two early exits |
| `ProfilePaging.ResumeAfter` | internal/gcpdata/profiler.go:148-154 | The resume point recorded after each profile is the position after it |
| `ProfilePaging.SelectsTheMatches` | internal/gcpdata/profiler.go:150-163 | The matches of a part of the listing are the profiles at its matching positions, each position once and in listing order |
| `ProfilePaging.UnparsedCounts` | internal/gcpdata/profiler.go:154-157 | The excluded count is the number of profiles whose start time does not parse |
| `ProfilePaging.StoppedAnswers` | internal/gcpdata/profiler.go:164-196 | A scan that stops at a limit hands out a cursor the listing accepts, at the position reached |
| `ProfilePaging.FollowedYields` | internal/gcpdata/profiler.go:118-201 | For any mix of page sizes, the calls so far yield exactly the matches of the part of the listing scanned, in order, and every non-final call makes progress |
| `ProfilePaging.NothingLostOrRepeated` | internal/gcpdata/profiler.go:118-201 | Following next_page_token to the end yields exactly the filtered listing |
| `ProfilePaging.ListAll` | internal/gcpdata/profiler.go:118-201 | Such a client is never refused and comes to an end, for every page size |
| `GroupFold.ApplyReducer` | internal/gcpdata/metrics.go:671-704 | Sum, greatest, least and mean of the values |
| `GroupFold.IndexKeepsLast` | internal/gcpdata/metrics.go:556-565 | A timestamp repeated within a series keeps its last value |
| `GroupFold.SortedTimestamps` | internal/gcpdata/metrics.go:544-554 | The distinct timestamps of all series, strictly ascending |
| `GroupFold.BucketsAreNotEmpty` | internal/gcpdata/metrics.go:623-625 | Every bucket has a contributing series, so the guard against empty buckets never fires |
| `GroupFold.ContributesExactly` | internal/gcpdata/metrics.go:596-622 | A series counts with its latest value in that bucket and the next three; it is carried in those three and departed from the fourth on |
| `GroupFold.ValuesAreContributions` | internal/gcpdata/metrics.go:595-622 | A bucket's values are those of the series that count in it, each once and in their order |
| `GroupFold.KindMeans` | internal/gcpdata/metrics.go:626-641 | A bucket is dropped exactly when its value is not finite, else counted as departed exactly when some series has been silent for more than three buckets, and all fresh exactly when no started series is silent |
| `GroupFold.ReturnedPoints` | internal/gcpdata/metrics.go:642-646 | The points returned are exactly the timestamps and values of the buckets not dropped |
| `GroupFold.DepartedMeansGap` | internal/gcpdata/metrics.go:608-618 | The series counted as departed are exactly those silent for more than three buckets after a fresh one |
| `GroupFold.Visit` | internal/gcpdata/metrics.go:596-622 | One series in one bucket follows the closed form: it contributes its latest fresh value exactly while that is at most three buckets old |
| `GroupFold.FoldBucket` | internal/gcpdata/metrics.go:591-622 | One bucket's values and its carry and departure counts are those of the closed form |
| `GroupFold.FoldGroupSeries` | internal/gcpdata/metrics.go:543-648 | The streaming pass equals the closed form, and each warning counter moves by exactly the buckets, or series, of its kind |
| `GroupFold.Determined` | internal/gcpdata/metrics.go:543-648 | The closed form leaves one result: it fixes the buckets, each bucket's value and kind, and so the points returned |
| `GroupFold.CountersAgree` | internal/gcpdata/metrics.go:536-542 | Output strictly ascends, returned plus non-finite buckets are the distinct timestamps, and carry-forward plus departed buckets are at most the returned ones |
| `SpikeStatistics.Samuelson` | internal/metrics/processor.go:244-247 | For N points the square of any z-score is at most N - 1 |
| `SpikeStatistics.PointGateHidesNothingIff` | internal/metrics/processor.go:15-18 | The ten-point gate hides no spike if and only if the threshold's square exceeds 8: true of the default 3, false of 2.5 |
| `SpikeStatistics.Chebyshev` | internal/metrics/processor.go:264-272 | At most a fraction 1/k^2 of the points lies k or more standard deviations out |
| `SpikeStatistics.RatioGateAlwaysPassesIff` | internal/metrics/classify.go:140-145 | The spike ratio always stays below 0.15 if and only if the threshold's square exceeds 20/3 |
| `SpikeStatistics.ComputeSpikes` | internal/metrics/processor.go:248-273 | Counts exactly the points at or above the threshold, the largest z-score and their ratio, and nothing when gated |
| `SpikeStatistics.ZIsSquare` | internal/metrics/processor.go:265-271 | z >= k says the same as the comparison of squares used in these results |
| `SpikeStatistics.SpikeRatioBounded` | internal/metrics/processor.go:264-272 | What computeSpikes counts is at most N/k^2 |
| `SpikeStatistics.FourOfTwentyFive` | internal/metrics/processor.go:264-272 | A window of 25 points of which 4 are spikes at threshold 2.5 |
| `TrendRegression.RegressionByPairs` | internal/metrics/processor.go:146-163 | The numerator and the denominator of the slope are sums over all pairs of points |
| `TrendRegression.DenominatorSign` | internal/metrics/processor.go:157-161 | The denominator is never negative and is zero exactly when all timestamps coincide |
| `TrendRegression.FittableIff` | internal/metrics/processor.go:140-161 | There is a slope exactly for three or more points not all at one time |
| `TrendRegression.NumeratorSign` | internal/metrics/processor.go:163-164 | Chebyshev's sum inequality: never falling values give no negative numerator, never rising ones no positive one |
| `TrendRegression.MonotoneTrend` | internal/metrics/processor.go:140-189 | A series that never falls has slope >= 0 and never trends down, whatever its baseline; the mirror holds |
| `TrendRegression.LinearSlope` | internal/metrics/processor.go:163-164 | An exactly linear series gets its own slope back |
| `TrendRegression.ComputeTrend` | internal/metrics/processor.go:140-189 | The fields set are the regression's slope, the drift over the window relative to baseline or mean, and the direction by the flat band |
| `TrendMeaning.LeastSquares` | internal/metrics/processor.go:146-164 | The slope is that of a best line: no other line, of any slope and intercept, has a smaller squared error |
| `TrendMeaning.ScoreIgnoresClock` | internal/metrics/processor.go:135-139 | The score is independent of the window's length: stretching all timestamps by one positive factor and moving them leaves it as it is |
| `TrendMeaning.ScoreIgnoresUnit` | internal/metrics/processor.go:135-139 | Nor does it depend on the unit of the metric while the baseline is not near zero |
| `TrendMeaning.LinearScore` | internal/metrics/processor.go:166-178 | On a linear series the score is the last value minus the first over the baseline's magnitude, or over the mean's when the baseline is near zero, and 0 when both are |
| `TrendMeaning.LinearTrend` | internal/metrics/processor.go:180-187 | A linear series trends up, or down, exactly when it moved that way by more than 2% of what it is measured against |
| `TrendMeaning.TrendFollowsDrift` | internal/metrics/processor.go:166-187 | Any series trends up, or down, exactly when the change along its best line over the window exceeds 2% of it in that direction |
| `Percentiles.PercentileMonotone` | internal/metrics/processor.go:471-490 | percentile never decreases with p |
| `Percentiles.PercentileBounded` | internal/metrics/processor.go:471-490 | percentile lies between the least and the greatest value |
| `Percentiles.PercentileEnds` | internal/metrics/processor.go:471-490 | It is the least value at 0 and the greatest at 1 |
| `Percentiles.PercentileOfLine` | internal/metrics/processor.go:471-490 | On evenly spaced values a, a + b, ... the p-quantile of n values is exactly a + b p (n - 1) |
| `Percentiles.PercentileBlends` | internal/metrics/processor.go:478-489 | Between two neighbours it moves in a straight line: at p (n - 1) = k + t it takes 1 - t of value k and t of value k + 1 |
| `Percentiles.AffinePercentile` | internal/metrics/processor.go:471-490 | A change of unit or origin changes a percentile with the values |
| `Percentiles.SortCounts` | internal/metrics/processor.go:83 | Sorting keeps the number of values beyond any bound |
| `Percentiles.Average` | internal/metrics/processor.go:444-453 | The mean, 0 for no values |
| `Percentiles.Deviation` | internal/metrics/processor.go:459-469 | The population standard deviation, 0 below two values |
| `Percentiles.BasicStatistics` | internal/metrics/processor.go:72-93 | Min <= P50 <= P95 <= P99 <= Max, the extremes are attained, the coefficient of variation is the deviation over the floored mean and never more than it is over the floor, and the tail ratio is at least 1 when set |
| `RobustBaseline.Reliable` | internal/metrics/baseline.go:101-109 | Reliable exactly from seven points on and, when an expectation is known, from half of it, rounded down |
| `RobustBaseline.MedianBetween` | internal/metrics/baseline.go:112-114 | The median lies between the two middle values |
| `RobustBaseline.MedianFloor` | internal/metrics/baseline.go:112-114 | With fewer than half of the values below a bound the median is not below it |
| `RobustBaseline.MedianCeiling` | internal/metrics/baseline.go:112-114 | With fewer than half of the values above a bound the median is not above it |
| `RobustBaseline.ComputeBaselineStats` | internal/metrics/baseline.go:21-34 | Plain mean and standard deviation, zero for no points |
| `RobustBaseline.ComputeRobustBaselineStats` | internal/metrics/baseline.go:40-98 | The median of the bucket means, with dispersion from the median absolute deviation or the mean within-bucket deviation; the plain mean below two non-empty buckets |
| `RobustBaseline.OneBucketCannotMoveTheMean` | internal/metrics/baseline.go:36-69 | Whatever one bucket holds, the robust mean stays between the least and greatest mean of the others, if at least two others hold points |
| `RobustBaseline.DeviationFollowsUnit` | internal/metrics/baseline.go:67-78 | The median absolute deviation is a deviation: moving all bucket means together leaves it alone and a change of unit scales it |
| `RobustBaseline.OneBucketCannotInflateTheDeviation` | internal/metrics/baseline.go:67-78 | Whatever one bucket holds, it is at most 1.4826 times the spread of the other buckets' means |
| `RobustBaseline.DeviationVanishesIff` | internal/metrics/baseline.go:79-89 | It vanishes, and the mean deviation within buckets takes its place, exactly when more than half of the bucket means equal their median |
| `RobustBaseline.DeviationVanishesThoughMeansDiffer` | internal/metrics/baseline.go:79-89 | It vanishes for bucket means 1, 1 and 5, although the comment has it only for identical means |
| `Classify.VerdictsAreSupported` | internal/metrics/classify.go:233-255 | Delta-based verdicts rest on a reliable window and baseline, flapping on a reliable window, and saturation is never downgraded |
| `Classify.GapsAreInsufficient` | internal/metrics/classify.go:113-119 | A regression on a window with gaps becomes insufficient data, where the comment says noisy |
| `Classify.NoDirectionNoRegression` | internal/metrics/classify.go:134-221 | Without a better direction there is no sustained regression or improvement, and without an SLO either, no recovery or flapping |
| `Classify.StepWithoutDegradingIff` | internal/metrics/classify.go:178-184 | A change that is not for the worse is still called a step regression exactly when it is an otherwise unexplained quiet step that breaches the SLO, on reliable data |
| `Classify.StepRegressionWithoutDirection` | internal/metrics/classify.go:257-271 | Such a change without any direction, although the comment says that is not possible |
| `Classify.VerdictsAreSymmetric` | internal/metrics/classify.go:134-221 | Turning the better direction, the delta and the trend around turns no verdict |
| `Classify.VerdictsMatchDirection` | internal/metrics/classify.go:171-219 | Improvement, sustained regression and recovery claim only the direction that was measured |
| `Classify.VerdictExactly` | internal/metrics/classify.go:128-221 | On reliable data, for each of the nine verdicts exactly when it is given, in the measurements, the worse direction's sign and the documented numbers: noisy and stable part at the noise thresholds, and a worsening no rule explains is a step regression up to variation 0.4 |
| `Classify.UnreliableData` | internal/metrics/classify.go:223-255 | On other data the verdict is the same when it does not need what is missing, and insufficient data otherwise |
| `Classify.MoreNoise` | internal/metrics/classify.go:161-219 | Raising the variation never turns noisy into anything else, and changes a verdict only to noisy, or away from a step regression |
| `Classify.RatioGateNeverDecides` | internal/metrics/classify.go:140-145 | At a threshold whose square exceeds 20/3 the ratio gate never decides: the spike branch is taken exactly by z-score and delta |
| `Classify.RatioGateDecidesAtErrorRate` | internal/metrics/classify.go:140-145 | At the default 2.5 for error rates it does: a window whose largest z-score reaches the threshold, with no delta, is not called a spike |
| `SpanTree.DepthIsBounded` | internal/gcpdata/traces.go:251-259 | A parent chain that ends is shorter than the list, which bounds the recursion on every input |
| `SpanTree.ParentMeans` | internal/gcpdata/traces.go:237-249 | A span hangs under the last span with its parent's ID, and is a root exactly when it names none or one that is not listed |
| `SpanTree.IndexById` | internal/gcpdata/traces.go:218-223 | The index map keeps the last span of each ID |
| `SpanTree.LinkChildren` | internal/gcpdata/traces.go:237-249 | Each span is listed under its parent, or among the roots when it has none in the list |
| `SpanTree.BelowSplits` | internal/gcpdata/traces.go:251-259 | What lies under a span is the span and, once each, what lies under its children |
| `SpanTree.TimesPermute` | internal/gcpdata/traces.go:257 | Sorting siblings does not change how often a span occurs |
| `SpanTree.SortByStart` | internal/gcpdata/traces.go:270-274 | The siblings in start order, none added or lost; ties in any order |
| `SpanTree.Build` | internal/gcpdata/traces.go:251-259 | The subtree of a span holds it and everything below it exactly once, in place and sorted |
| `SpanTree.BuildSpanTree` | internal/gcpdata/traces.go:216-268 | On every list of spans, with cycles, self-parents or repeated IDs: a span is emitted exactly once when its parent chain reaches a root and never otherwise, under its parent, siblings sorted |
| `SpanTree.CountMatchesIff` | internal/gcpdata/traces.go:40-41 | The emitted nodes number as many as the reported count exactly when no span is its own ancestor |
| `SpanTree.SelfParentIsLost` | internal/gcpdata/traces.go:216-268 | A single span that names itself as its parent is counted and not emitted |
| `Utf8.TruncateUtf8` | internal/gcpdata/logs.go:619-628 | The latest cut within the limit that does not precede a continuation byte |
| `Utf8.TruncatedIff` | internal/gcpdata/logs.go:619-628 | That cut is unique, so truncation is a function of the string and the limit |
| `Utf8.CutsAreBoundaries` | internal/gcpdata/logs.go:619-628 | In valid UTF-8 these cuts are exactly the ones that leave a valid prefix |
| `Utf8.TruncationIsLongest` | internal/gcpdata/logs.go:619-628 | For valid UTF-8 the result is the longest valid prefix within the limit |
| `Utf8.EscapedBound` | internal/gcpdata/logs.go:541-545 | Escaping expands a string at most sixfold |
| `LogBounds.BoundStringMap` | internal/gcpdata/logs.go:630-647 | The first labels in key order, keys and values truncated; when several keys are cut to the same one the last wins; `changed` is true exactly when the result differs from the input |
| `LogBounds.BoundedIsUnique` | internal/gcpdata/logs.go:630-647 | This leaves one result |
| `LogBounds.ShrinkPayload` | internal/gcpdata/logs.go:548-556 | The payload stage: a JSON payload becomes text of at most 4096 bytes, a longer text is cut to that, and exactly what was cut is marked |
| `LogBounds.ShrinkRequest` | internal/gcpdata/logs.go:557-566 | The request stage: URL and user agent become their truncations, marked exactly when longer |
| `LogBounds.ShrinkLabels` | internal/gcpdata/logs.go:567-577 | The label stage: both label maps are bounded, whatever they held, and marked exactly when changed |
| `LogBounds.DropUntilFits` | internal/gcpdata/logs.go:578-593 | The last resorts are taken in their order, the fewest that make the entry fit or all four, each with its mark |
| `LogBounds.DropsFewest` | internal/gcpdata/logs.go:578-593 | The number of last resorts taken is the least that makes the entry fit, or all four |
| `LogBounds.RungExactly` | internal/gcpdata/logs.go:578-593 | With n last resorts taken: no labels, then no resource labels, then no request, then the text cut to 1024 bytes, and nothing else changed |
| `LogBounds.MarksExactly` | internal/gcpdata/logs.go:594-597 | The reduced entry lists exactly the fields that were cut, and as omitted bytes what its encoding before that number is short of the original's |
| `LogBounds.RoutingFits` | internal/gcpdata/logs.go:598-614 | The routing-only record fits in 8192 bytes for any contents |
| `LogBounds.BoundLogEntry` | internal/gcpdata/logs.go:541-616 | For every entry the result encodes to at most 8192 bytes and is unchanged if it already fitted; otherwise it is the staged entry after the fewest last resorts, with its marks, and the routing-only record only if the marks leave that too large |
| `LogBounds.NothingUnmarked` | internal/gcpdata/logs.go:546-547 | The entry returned with its marks is made of cut parts of the original, its identity untouched, and nothing is cut without its mark |
| `LogFallback.LastRungFits` | internal/gcpdata/logs.go:590-597 | With identity, error, operation and resource type of at most 1811 bytes encoded, the entry after all last resorts fits with its marks, however large everything else was |
| `LogFallback.RoutedIff` | internal/gcpdata/logs.go:598-600 | Such an entry is given up for the routing-only record exactly when the first reduced form that fits leaves less room than its marks take, at most 219 bytes: not only for huge identity or error fields |
| `LogFallback.RoutedThoughSmall` | internal/gcpdata/logs.go:594-600 | An entry with empty identity that is given up although its text cut to 1024 bytes would have fitted |

## Left out

- HTTP handlers, consent and error pages, metadata, CORS, URL and domain checks, PKCE, tool registration: plumbing or single branches.
- Cryptography, base64, JSON syntax and SHA-256: idealised as described above; JSON enters only through encoded lengths.
- Store outages, corrupt records and TTL deletion, except as a request that fails with nothing committed.
- The authorization-state record returned by Firestore's UseAuthorizationState, which is the one read, before it was marked; the in-memory one is modelled.
- A change of the refresh lifetime while the server runs: it is one constant per run.
- Pool behaviour after Close, the per-user limit on concurrent calls, and the swapping of token sources.
- UserPool.StepKeepsInv: lets an evictor take any evictable entries, which covers the least recently used or idle choice even when a release lands during its scan; the choice itself is in PoolLock.LockedPool.TakeOneEvictable and PoolLock.LockedPool.TakeIdle, which are single critical sections.
- CacheSteps.Put: runs alone, so its two steps follow each other; CacheBudget has the other caches' steps between them.
- CacheBudget.StepKeepsInv: takes a hit's most-recently-used move and a rejected insert without growth as one step, since neither touches the shared counter.
- File names in function costs and trie nodes; a Go trie node's pointers to its children are indices into one sequence, so aliasing of nodes is not captured.
- peekFunction, which adds a recursive function once per occurrence, and comparison profiles, whose merge is library code.
- ProfilePaging.ListProfiles: does not model the counts by type and target in the summary, or the warning texts; the filter is an arbitrary function from a profile to match and parse error, and the cursor's encoding round trip is taken as ideal.
- Prefetch.PrefetchProfiles: does not model the caller's cancellation or a failing list call, which end the scan with what was cached so far.
- collectLogEntries as a pager: at its limit it skips entries buffered from a part-read page.
- GroupFold.FoldGroupSeries: keeps the four parallel buffers as one array of records; a panic on an unknown reducer is outside the reducer type.
- Step changes, SLO breach streaks, saturation, data quality and confidence of internal/metrics/processor.go; they enter Classify as given features.
- Percentiles.BasicStatistics: leaves out the deltas against the baseline.
- SpanTree.BuildSpanTree: the formatted start time is an ordered number and the remaining fields of a span travel with its index; ties between siblings may land in any order, as with an unstable sort.
- LogBounds.BoundLogEntry: the resource and request are values, so that the original also writes the shortened labels and URL through the caller's pointers is not captured; entries that do not encode are outside the model.
