# Vexic protocol models

Vexic is a memory service: it stores conversation messages, distils them into long-term facts in
background "dream" phases, and serves many tenants from several containers. This project models its
concurrent and crash-prone protocols, and the selection logic around the Deep phase, in Dafny 4.11 and
proves what they guarantee. `dafny verify dfyconfig.toml` checks everything.

How the models are built:

- Code that updates state is a class with the source's fields (`TenantTokenCache`,
  `HostedInMemoryRateLimiter`, `LeaseTable`, `DreamTriggerLock`, `SweepTable`, `HostedApiKeyStore`,
  `TenantTable`, `DataVolume`) or a method with the source's loops. Each method is proved equal to a
  specification function on values.
- A protocol is a transition function over a sequence of actions: one action is one atomic block under a
  lock, one committed statement, or one effect on disk. Storage calls may answer, fail before their
  effect or fail after it, and a caller may stop for good between any two steps. A theorem quantifies
  over every action sequence from the initial state.
- What lies outside (the judge, the neighbour search, the database factory, the partial-date parser, the
  scoring curves, fresh identifiers, clock readings) is an arbitrary function or an action parameter.

| module | subject |
|---|---|
| `TokenCache`, `TokenCacheLru`, `TokenCacheLruRuns`, `TokenCacheSystem`, `TokenCacheTheorems` | single-flight LRU/TTL cache of database tokens |
| `DreamLease`, `DreamLeaseTheorems` | in-process lock and durable lease in front of a dream job |
| `DreamSweeper`, `DreamSweeperTheorems` | sweep state, due rule, job chain and recorder |
| `DeepPhase`, `DeepPhaseTheorems`, `DeepPhaseAccounting`, `DeepPhaseVerdicts` | contradiction resolution among promotion candidates |
| `RateLimiter`, `RateLimiterTheorems` | fixed-window rate limiter |
| `DreamTimeline`, `DreamTimelineTheorems`, `PromotionAttribution` | recovering dream cycles from rows without a phase column, and attributing facts to them |
| `SetupTokens`, `SetupTokenTheorems`, `SetupTokenRecords` | exchange of one-time setup tokens for API keys |
| `Provisioning`, `ProvisioningTheorems`, `ProvisioningChanges` | tenant provisioning, retirement and database replacement |
| `OwnershipRepair`, `OwnershipRepairTheorems` | crash-resumable ownership repair of the data volume |
| `PromotionRanking`, `PromotionRankingTheorems`, `ForwardDrain` | promotion ranking, its diagnostic mirror, backlog drain |
| `StratifiedSelection` | weighted round robin over question types |
| `Common` | options, faults and sequence facts |

Where the code does not do what one would read into its documentation, the model follows the code, shows
a case, and proves the exact condition:

- A setup token revoked between its committed consumption and the insertion of the key row still yields a
  live key (`RevokeLosesTheRace`); a revoked or consumed token mints again exactly when an exchange already
  stands at that point (`MintsAfterClosingIff`).
- A finished exchange accounts for the key it minted (listed, named in the error, or not live) exactly when
  it had read the key back and the operating system did not refuse the compensating revoke of the unlisted
  key, or the key is not live (`AccountedIff`). Three runs orphan a live key: a failed read-back
  (`FailedReadBackOrphansTheKey`), a key row whose insertion commits and then raises
  (`RaisingInsertOrphansTheKey`), and a file-permission error that the compensation swallows
  (`RefusedRevokeOrphansTheKey`).
- Setup-token expiry is compared as text, and the text of a whole second sorts after the same second with a
  fraction. Text order is clock order exactly outside that case (`TextOrderIff`); an exchange up to a second
  late can be accepted (`LateExchangeAccepted`), never a later one (`OneKeyPerToken`).
- A dream job cancelled before its task's first step never runs its clean-up, so its in-process claim stays.
  Every claim belongs to a running job exactly when no such cancellation happened in a process still alive
  (`EveryClaimHasAJobIff`); the process then refuses the scope until it restarts (`StrandedUntilRestart`).
- A candidate can beat an earlier pending promotion and then lose to a later one; the beaten group then
  appears in no decision (`UndecidedHappens`), and only in that case (`UndecidedIffDisplaced`).
- A history whose cycle has two adjacent all-zero Light rows is read back with a spurious cycle;
  the round trip holds exactly when there is no such pair (`RoundTrip`).
- A negative `top_n` makes the selection keep all but the last few while the diagnostic comparison keeps
  none; the two agree exactly when the bound is non-negative or cuts everything (`SelectionIsTopRanks`).
- Started without a matching ownership sentinel, the repair's early return guarantees the sentinel's own
  owner exactly when a stale sentinel was already there, or the root was mis-owned, or the runtime user is the
  superuser (`SentinelCoveredIff`); otherwise a crash right after the sentinel's text leaves it mis-owned for
  good (`SentinelMayStayMisowned`).
- A database replacement that commits after a retirement it did not see reactivates the tenant with its
  retirement stamp still set, and retiring it again is refused (`RetiredTenantRevived`, a run from the empty
  control plane). Retired tenants are inactive throughout a run exactly when that never happens
  (`RetirementHoldsThroughoutIff`).

## Model

| member | source | states |
|---|---|---|
| `TokenCache.TenantTokenCache.Len` | adapters/turso_adapter.py:371-374 | the number of cached entries, never above the bound |
| `TokenCache.TenantTokenCache.EnterBlock` | adapters/turso_adapter.py:393-412 | the first block under the lock: a fresh hit moves to the recent end; otherwise, expired entries included, the caller claims the mint unless one is in flight |
| `TokenCache.TenantTokenCache.MintFailedBlock` | adapters/turso_adapter.py:418-423 | a failed mint frees its registration and its invalidation flag and leaves the cache alone |
| `TokenCache.TenantTokenCache.PublishBlock` | adapters/turso_adapter.py:425-436 | an unflagged token is inserted as most recent and the oldest entries are evicted to the bound; a flagged one is discarded |
| `TokenCache.TenantTokenCache.Invalidate` | adapters/turso_adapter.py:441-451 | drops the entry and flags an in-flight mint |
| `TokenCacheLru.EnterRefinesTouch` | adapters/turso_adapter.py:393-399 | the ordered dictionary looks up a plain map with last-use times and touches exactly the slot it serves |
| `TokenCacheLru.PublishRefinesPut` | adapters/turso_adapter.py:425-433 | publishing refines a map insert that drops the least recently used key, never the new one, within the bound |
| `TokenCacheLru.InvalidateRefinesDrop` | adapters/turso_adapter.py:448-449 | invalidating refines dropping the key from the map |
| `TokenCacheLruRuns.RunIsLru` | adapters/turso_adapter.py:376-451 | over every run the dictionary is the map with last-use times that the log of hits, publications and invalidations builds |
| `TokenCacheLruRuns.HitServesSlot` | adapters/turso_adapter.py:393-399 | in every reachable state a lock step hits exactly on a fresh slot of that map and serves its token |
| `TokenCacheLruRuns.MissClaimsTheMint` | adapters/turso_adapter.py:396-402 | in every reachable state a lookup without a fresh slot and without a mint in flight claims the mint |
| `TokenCacheLruRuns.MissFollowsTheMint` | adapters/turso_adapter.py:403-412 | one that meets a mint in flight claims nothing, and waits for it until a full timeout after it first followed one, when it gives up |
| `TokenCacheLruRuns.MintEnds` | adapters/turso_adapter.py:424-439 | a returned mint is served and cached exactly when no invalidation followed its claim; otherwise its call starts over |
| `TokenCacheLruRuns.FailedMintFreesTheDatabase` | adapters/turso_adapter.py:418-423 | a failed mint ends its call and lets the database be minted again |
| `TokenCacheLruRuns.FollowersMoveOn` | adapters/turso_adapter.py:403-412 | a woken follower looks again under its old deadline; an expired one gives up, and not before |
| `TokenCacheSystem.RunInv` | adapters/turso_adapter.py:376-451 | the invariant behind the cache theorems holds after every interleaving of blocks |
| `TokenCacheTheorems.ServedTokenPostdatesInvalidate` | adapters/turso_adapter.py:391-451 | in every interleaving a token served after an invalidation comes from a mint claimed after it |
| `TokenCacheTheorems.EpochsAreCurrent` | adapters/turso_adapter.py:391-451 | no cached entry predates an invalidation, and an in-flight mint is flagged exactly when one followed its claim |
| `TokenCacheTheorems.OneMintPerDatabase` | adapters/turso_adapter.py:400-436 | at most one mint per database is in flight, registrations are exactly the mints, and the size bound holds |
| `TokenCacheTheorems.HitIsFresh` | adapters/turso_adapter.py:393-399 | a hit serves a token published less than the time to live ago |
| `TokenCacheTheorems.MintsAreBounded` | adapters/turso_adapter.py:391-439 | a call mints at most once more than invalidations land in its own mints |
| `TokenCacheTheorems.TimeoutsWaitedInFull` | adapters/turso_adapter.py:403-411 | a follower gives up only after following for the whole wait timeout |
| `DreamLease.LeaseTable.AcquireDreamLease` | src/vexic/hosted_local.py:1159-1195 | the conditional upsert claims an absent or lapsed row and nothing else |
| `DreamLease.LeaseTable.RenewDreamLease` | src/vexic/hosted_local.py:1197-1222 | a renewal extends the holder's own row and never resurrects a stolen one |
| `DreamLease.LeaseTable.ReleaseDreamLease` | src/vexic/hosted_local.py:1224-1242 | a release deletes the row exactly when it is the caller's own |
| `DreamLease.DreamTriggerLock.Acquire` | src/vexic/hosted.py:873-893 | the in-process claim survives only a claimed lease, whatever way the catalog call goes |
| `DreamLease.DreamTriggerLock.Release` | src/vexic/hosted.py:895-916 | the in-process claim always goes; the row goes unless the job was cancelled or the call failed |
| `DreamLeaseTheorems.OverlapNeedsLapse` | src/vexic/hosted.py:873-993 | of two jobs alive on one scope one has gone a full lease period without a confirmed renewal |
| `DreamLeaseTheorems.ClaimsMatchJobs` | src/vexic/hosted.py:873-916 | a confirmed job's row is in the table, and in-process claims are exactly those of running jobs and of jobs cancelled before they began, through every storage fault |
| `DreamLeaseTheorems.EveryClaimHasAJobIff` | src/vexic/hosted.py:1117-1165 | every claim belongs to a running job exactly when no process still alive had a job cancelled before it began |
| `DreamLeaseTheorems.StrandedUntilRestart` | src/vexic/hosted.py:873-878 | a claim left that way keeps its process from running the scope until a restart |
| `DreamLeaseTheorems.CancelBeforeBeginStrands` | src/vexic/hosted.py:1139-1157 | one start and one cancellation leave such a claim |
| `DreamLeaseTheorems.OnlyOwnFinishFrees` | src/vexic/hosted_local.py:1224-1242 | an unexpired lease leaves its holder in no step but the end of that holder's own job |
| `DreamLeaseTheorems.LeaseStaysWithHolder` | src/vexic/hosted_local.py:1159-1242 | over a run, a lease kept from expiring stays with its holder until its own job ends |
| `DreamLeaseTheorems.StartsIffFree` | src/vexic/hosted.py:873-893 | in every reachable state a job starts exactly when its process holds no claim and the row is absent or expired; it then owns the row for twenty minutes |
| `DreamLeaseTheorems.FinishFreesTheScope` | src/vexic/hosted_local.py:1224-1242 | in every reachable state finishing, unless the release fails before its effect, deletes the row and the claim, and until somebody starts again any process without a claim can start at once |
| `DreamLeaseTheorems.FailedReleaseBlocks` | src/vexic/hosted.py:895-916 | a release that fails before its effect blocks the scope for every process until the row lapses |
| `DreamLeaseTheorems.RaisedAcquireBlocks` | src/vexic/hosted.py:878-893 | an acquisition that raises starts and claims nothing; one that took effect all the same blocks the scope until its row lapses |
| `DreamLeaseTheorems.HeartbeatDecides` | src/vexic/hosted.py:952-985 | an answered heartbeat extends the row and confirms the job, or stops a job whose lease is lost; one that raises tells the job nothing |
| `DreamLeaseTheorems.EveryJobCanEnd` | src/vexic/hosted.py:1117-1165 | no job is stuck: each can finish, drain or be cancelled |
| `DreamLeaseTheorems.OrphanedRowStays` | src/vexic/hosted.py:895-916 | a row nobody renews or releases stays as it is until it expires, and no job joins its scope meanwhile |
| `DreamLeaseTheorems.CancelledBlocksUntilLapse` | src/vexic/hosted.py:1287-1296 | after a cancellation no job starts on the scope, in any process, until the lease lapses |
| `DreamLeaseTheorems.CrashedScopeIsClaimable` | src/vexic/hosted.py:123-127 | a crash at t leaves every scope it held startable from t plus the lease period |
| `DreamLeaseTheorems.CrashBlocksUntilLapse` | src/vexic/hosted.py:123-127 | and until then what the crashed process held stays blocked |
| `DreamSweeper.SweepTable.DreamSweepState` | src/vexic/hosted_local.py:1054-1075 | the stored state of a scope, or the never-run one |
| `DreamSweeper.SweepTable.Record` | src/vexic/hosted_local.py:1077-1157 | the three monotone upserts, with their first-row cases |
| `DreamSweeper.SweepTable.RecordWithRetry` | src/vexic/hosted_sweeper.py:34-45 | a retryable failure is tried once more; a write repeated after landing leaves what one write leaves; success is reported exactly when a call answered |
| `DreamSweeper.RunSystemDreamJob` | src/vexic/hosted.py:1189-1284 | the phases dispatched are those up to the first that does not succeed, and both reported bits say what happened |
| `DreamSweeper.ReportedBits` | src/vexic/hosted.py:1189-1284 | the two bits read off the phases alone: recorded when every phase reached succeeded or left its error row, summarized when SUMMARIZE was reached and its worker started |
| `DreamSweeper.Decide` | src/vexic/hosted_sweeper.py:227-262 | the decision for one scope: the full chain exactly when dreams are possible and the latest stamp has waited (the interval after a completion, the backoff after a failure or a tie), otherwise a summarize sweep exactly for new messages |
| `DreamSweeper.SweepTenant` | src/vexic/hosted_sweeper.py:202-285 | a tick hands over exactly the wanted jobs of the free scopes, up to the first wanted one without ports, the full chain exactly where the wait is over, and its report counts them |
| `DreamSweeper.RecordStamp` | src/vexic/hosted_sweeper.py:416-445 | exactly one stamp without faults, a failure stamp when the completion write fails |
| `DreamSweeper.AwaitAndRecord` | src/vexic/hosted_sweeper.py:363-445 | what a recorder may leave for a finished job under any faults, nothing for a cancelled one |
| `DreamSweeperTheorems.OrderAndRepetitionDoNotMatter` | src/vexic/hosted_local.py:1077-1157 | two write logs over any scopes with the same entries leave equal tables |
| `DreamSweeperTheorems.DueWindow` | src/vexic/hosted_sweeper.py:310-328 | due implies every stamp is at least the shorter wait old; stamps all older than the longer wait imply due |
| `DreamSweeperTheorems.WatermarkWasSummarized` | src/vexic/hosted_sweeper.py:226-449 | in every run a stored watermark belongs to a finished job whose chain started SUMMARIZE |
| `DreamSweeperTheorems.StampsAreEarned` | src/vexic/hosted_sweeper.py:363-449 | in every run a stored completion stamp is the end of a full chain recorded for good, a failure stamp the end of one not cancelled |
| `DreamSweeperTheorems.StampIsTheEnd` | src/vexic/hosted_sweeper.py:373-392 | the time a recorder may stamp is its job's own end, however late it writes |
| `DreamSweeperTheorems.LatestStampGoverns` | src/vexic/hosted_sweeper.py:225-328 | in every run the latest landed stamp its read could see decides: full chain exactly after the interval or the backoff, at once with none |
| `DreamSweeperTheorems.IncapableNeverDreams` | src/vexic/hosted_sweeper.py:287-289 | without dream ports no full chain is scheduled |
| `DreamSweeperTheorems.ChainsKeepTheirDistance` | src/vexic/hosted_sweeper.py:226-328 | a full chain is scheduled only at least min(interval, backoff) after every stamp its read could see |
| `DreamSweeperTheorems.TableIsItsWrites` | src/vexic/hosted_sweeper.py:363-449 | in every run the stored state is the one any order or repetition of the landed writes leaves |
| `DeepPhase.JudgeNeighbors` | src/vexic/deep.py:259-270 | every neighbour is judged once and the contradicted ones are kept in order |
| `DeepPhase.BlockingWinner` | src/vexic/deep.py:271-289 | finds the strongest contradicted fact that is at least as confident as the candidate |
| `DeepPhase.Confront` | src/vexic/deep.py:294-335 | the pending list after a candidate meets it: who survives, who is absorbed, who absorbs |
| `DeepPhase.RunDecisions` | src/vexic/deep.py:250-345 | the nested loops compute the declarative decisions and judge-call count, whose meaning the verdict and accounting theorems give in terms of the single judgments |
| `DeepPhase.RunDeepPhase` | src/vexic/deep.py:239-345 | with judging deferred and no judge supplied every selected candidate is promoted as it stands; otherwise the loop decides |
| `DeepPhaseTheorems.PromotionsContradictionFree` | src/vexic/deep.py:294-335 | no final promotion was judged, at confidence one half or more, to contradict one ahead of it |
| `DeepPhaseTheorems.PromotionsRetireWeaker` | src/vexic/deep.py:290-335 | a promotion retires exactly the facts it was judged to contradict, all strictly less confident, and directly or transitively only candidates no more confident than it |
| `DeepPhaseVerdicts.RetirementIff` | src/vexic/deep.py:259-291 | a fact retires a candidate exactly when it was judged to contradict it at one half or more, is at least as confident, and is the most confident such fact, then the most similar, then the first |
| `DeepPhaseVerdicts.BlockedIsRetired` | src/vexic/deep.py:271-291 | one such fact is enough to retire the candidate |
| `DeepPhaseVerdicts.LoserJoinsFirst` | src/vexic/deep.py:296-327 | an unblocked candidate is retired under the first pending promotion it contradicts without being more confident |
| `DeepPhaseVerdicts.WinnerIsPending` | src/vexic/deep.py:296-335 | with none it is pending, and exactly the promotions it contradicts are not |
| `DeepPhaseVerdicts.NoObjectionPromotesAll` | src/vexic/deep.py:183-345 | when no judgment is a contradiction at one half or more, every candidate is promoted bare, in order, and the call bound is attained |
| `DeepPhaseTheorems.StrongestIsPromoted` | src/vexic/deep.py:294-335 | a candidate of maximum confidence, once pending, is promoted |
| `DeepPhaseAccounting.EverySelectedOnce` | src/vexic/deep.py:250-345 | with distinct ids each selected candidate is in exactly one class: promoted, retired by a fact, retired under one promotion, or undecided |
| `DeepPhaseAccounting.UndecidedIffDisplaced` | src/vexic/deep.py:294-335 | undecided exactly when the candidate or the promotion that had absorbed it was displaced by a more confident candidate that lost later in the same pass |
| `DeepPhaseAccounting.UndecidedHappens` | src/vexic/deep.py:296-327 | such a pass exists: the beaten candidate is in no decision |
| `DeepPhaseAccounting.CallsBounded` | src/vexic/deep.py:252-327 | n candidates with at most k neighbours cost at most n*k + n(n-1)/2 judge calls |
| `DeepPhaseAccounting.CallsWithinEstimate` | src/vexic/live_retrieval_baseline.py:254-260 | the pass and the four calls beside it stay within one row's charge |
| `DeepPhaseVerdicts.EstimateIsAttained` | src/vexic/live_retrieval_baseline.py:254-260 | and a full selection without objections costs exactly that charge |
| `RateLimiter.HostedInMemoryRateLimiter.Check` | src/vexic/hosted.py:505-536 | one call: prune, then open, count, restart or refuse |
| `RateLimiter.Configured` | src/vexic/hosted.py:486-498 | rules passed in win over the shipped ones, which stay for every other operation |
| `RateLimiter.HostedInMemoryRateLimiter.Prune` | src/vexic/hosted.py:538-550 | exactly the expired buckets go and the next prune time is the least expiry left |
| `RateLimiter.HostedInMemoryRateLimiter.ShortestRetryAfter` | src/vexic/hosted.py:552-559 | the least whole-second wait over all buckets, at least one |
| `RateLimiterTheorems.PruneIsComplete` | src/vexic/hosted.py:515-516 | after the prune check no expired bucket remains, because the next prune time bounds every expiry |
| `RateLimiterTheorems.BucketsBounded` | src/vexic/hosted.py:505-550 | in every run the bucket count and the expiry bound hold |
| `RateLimiterTheorems.RetryAfterIsHonest` | src/vexic/hosted.py:516-536 | a refused caller that waits the reported time undisturbed is accepted, for both refusals (section 10.2.3 of RFC 9110) |
| `RateLimiterTheorems.RefusedUntilExpiry` | src/vexic/hosted.py:534-535 | over its limit a caller is refused exactly while its window is open |
| `RateLimiterTheorems.AtMostTwiceTheLimit` | src/vexic/hosted.py:505-550 | any closed interval of one window of the operation's own rule, or the default one, holds at most twice that rule's limit of accepted calls of one key |
| `RateLimiterTheorems.DreamRequestsPerHour` | src/vexic/hosted.py:472-498 | with the shipped rules at most twelve dream requests of a key are accepted in any hour |
| `RateLimiterTheorems.RefusalMeansFull` | src/vexic/hosted.py:516-536 | a refusal means a window that holds exactly the limit of the operation's rule, or a full table |
| `RateLimiterTheorems.AcceptedIsRecorded` | src/vexic/hosted.py:520-536 | the history counted by the bound holds every accepted call |
| `DreamTimeline.SplitBatches` | scripts/replay_deep_backlog.py:170-191 | the loop computes the batches: light rows, then all rows up to the next clearly-Light one |
| `DreamTimeline.PairTailRows` | scripts/replay_deep_backlog.py:193-248 | the right-to-left loop pairs a tail as the recursive grammar does |
| `DreamTimeline.DreamCycleTimeline` | scripts/replay_deep_backlog.py:267-278 | the whole reconstruction equals pairing each maximal run of rows that are not clearly Light |
| `DreamTimelineTheorems.RoundTrip` | scripts/replay_deep_backlog.py:129-278 | stated over the counters, retirement-only Deep rows included: the timeline of a history is its Deep rows in order exactly when no cycle has two adjacent all-zero Light rows |
| `DreamTimelineTheorems.TimelineFaithful` | scripts/replay_deep_backlog.py:170-278 | for arbitrary rows every row with promotions or retirements yields exactly one cycle with its own fields, and cycles follow row order |
| `PromotionAttribution.FindOwner` | scripts/replay_deep_backlog.py:332-338 | the interval scan finds the first cycle that owns a time |
| `PromotionAttribution.PromotionEvents` | scripts/replay_deep_backlog.py:327-354 | the loop's counts, attributions, left-overs and consistency bit, for any facts |
| `PromotionAttribution.LastOwnedFactDecides` | scripts/replay_deep_backlog.py:327-343 | a candidate is attributed to the cycle of its last owned fact |
| `PromotionAttribution.AttributedHasOwnedFact` | scripts/replay_deep_backlog.py:327-343 | and only a candidate with an owned fact is attributed |
| `PromotionAttribution.UnownedAreEarly` | scripts/replay_deep_backlog.py:332-340 | the unattributed are the candidates of facts created before every cycle |
| `PromotionAttribution.UnattributedIffBeforeAll` | scripts/replay_deep_backlog.py:309-338 | a fact is unattributed exactly when it precedes every cycle, even with starts out of order |
| `PromotionAttribution.OwnerIsLastBegun` | scripts/replay_deep_backlog.py:309-338 | with starts in order the owner is the last cycle that had begun |
| `PromotionAttribution.FactsAreConserved` | scripts/replay_deep_backlog.py:327-343 | attributed and unattributed facts add up to all facts |
| `PromotionAttribution.ConsistentAccountsForAll` | scripts/replay_deep_backlog.py:345-348 | a consistent attribution has exactly as many facts as the cycles reported promotions |
| `SetupTokens.HostedApiKeyStore.MintControlPlaneKey` | src/vexic/hosted_local.py:1883-1920 | the in-memory mint adds one key with its listing record; the key admits exactly the one agent of the scope, requests without an agent when it is shared or blank |
| `SetupTokens.HostedApiKeyStore.ExchangeSetupToken` | src/vexic/hosted_local.py:2125-2205 | the in-memory exchange succeeds exactly for a known, unconsumed, unrevoked, unexpired token, and then does all of it; the key admits exactly the token's agent |
| `SetupTokens.HostedApiKeyStore.RevokeSetupToken` | src/vexic/hosted_local.py:2207-2237 | revocation needs the right tenant and project, keeps the first stamp and reports the first transition |
| `SetupTokens.HostedApiKeyStore.RevokeApiKey` | src/vexic/hosted_local.py:1801-1825 | key revocation keeps the first stamp and reports the live-to-revoked transition |
| `SetupTokenTheorems.OneKeyPerToken` | src/vexic/hosted_local.py:2125-2205 | in every interleaving a token mints at most one key, in an exchange that presented its hash, consumed it, and began before expiry in text order and so less than a second after it; the key carries exactly the token's grant |
| `SetupTokenTheorems.MintedKeyAdmits` | src/vexic/hosted_local.py:1893-1902 | in every run a minted key admits exactly its token's agent: a shared one admits requests without an agent and no others |
| `SetupTokenRecords.RowsNameTheKey` | src/vexic/hosted_local.py:2177-2199 | in every run a listed key carries the grant and name of its token, and a token whose exchange returned names the returned key |
| `SetupTokenRecords.FirstStampsStay` | src/vexic/hosted_local.py:2226-2267 | in every run the first consumption and the first revocation of a token or key stand |
| `SetupTokenRecords.RevocationStamps` | src/vexic/hosted_local.py:2226-2267 | a revocation of something unrevoked stamps its own time and actor |
| `SetupTokenRecords.CompensationEnds` | src/vexic/hosted_local.py:1952-1974 | how the compensating revoke ends under each fault, and whether the error names the key |
| `SetupTokenRecords.RaisedCallsLandOrNot` | src/vexic/hosted_local.py:2150-2200 | a raising call on the durable store has had its whole effect or none |
| `SetupTokenRecords.RaisedCallEnds` | src/vexic/hosted_local.py:1922-1976 | and ends its exchange with an error that names no key, but a failed listing goes on to revoke the key |
| `SetupTokenTheorems.TextOrderIff` | src/vexic/hosted_local.py:2648-2653 | stored time texts order as the clock does exactly unless one of two times in a second is whole, whose text is then the later one |
| `SetupTokenTheorems.LateExchangeAccepted` | src/vexic/hosted_local.py:2161-2172 | a run in which an exchange begun up to a second after expiry is accepted |
| `SetupTokenTheorems.MintsAfterClosingIff` | src/vexic/hosted_local.py:2159-2184 | a consumed or revoked token still mints in some continuation exactly when an exchange stands between its consume and its key row |
| `SetupTokenTheorems.ClosedRun` | src/vexic/hosted_local.py:2174-2176 | otherwise it stays closed and mints nothing in any continuation, a failed mint included |
| `SetupTokenTheorems.NoOrphanAfterReadBack` | src/vexic/hosted_local.py:1883-1976 | after a successful read-back, unless the compensation is refused, a minted key is listed, no longer live, or named in the error; a returned key is listed |
| `SetupTokenTheorems.AccountedIff` | src/vexic/hosted_local.py:1893-1976 | a finished exchange has accounted for its key exactly when it read the key back and its compensation was not refused, or the key is not live |
| `SetupTokenTheorems.UndisturbedExchange` | src/vexic/hosted_local.py:2125-2205 | undisturbed and without faults the durable exchange succeeds for the same tokens as the in-memory one and leaves the same rows, given field by field |
| `SetupTokenTheorems.RevokeLosesTheRace` | src/vexic/hosted_local.py:2159-2184 | a run in which a committed revoke does not stop the key |
| `SetupTokenTheorems.FailedReadBackOrphansTheKey` | src/vexic/hosted_local.py:1893-1903 | a run in which a failed read-back leaves a live, unlisted, unnamed key |
| `SetupTokenTheorems.RaisingInsertOrphansTheKey` | src/vexic/hosted_local.py:1703-1722 | a run in which the key row commits, the insertion raises and the key is orphaned without any read-back |
| `SetupTokenTheorems.RefusedRevokeOrphansTheKey` | src/vexic/hosted_local.py:1955-1966 | a run in which the swallowed permission error leaves a read-back key live, unlisted and unnamed |
| `Provisioning.TenantTable.Insert` | src/vexic/hosted_local.py:474-487 | a row is inserted, inactive, exactly when neither the tenant nor the file name is taken |
| `Provisioning.TenantTable.Activate` | src/vexic/hosted_local.py:533-550 | activation clears the retirement stamp and overwrites the target only when one was minted or passed |
| `Provisioning.TenantTable.Retire` | src/vexic/hosted_local.py:748-785 | retirement needs a known, unretired tenant |
| `Provisioning.TenantTable.Repoint` | src/vexic/hosted_local.py:946-969 | a replacement moves the file or the target, activates, and counts a generation, unless the file is another tenant's |
| `ProvisioningTheorems.ActiveRowsAreInitialised` | src/vexic/hosted_local.py:447-553 | in every interleaving active rows name initialised files, files are never shared, and the factory is only asked for tenants with a row |
| `ProvisioningTheorems.RowsOutliveEverything` | src/vexic/hosted_local.py:447-553 | a tenant's one row is never lost, its generation never falls, and its file only moves to an initialised one |
| `ProvisioningChanges.RowStep` | src/vexic/hosted_local.py:534-550 | what each step does to an existing row: a committed replacement, an activation or a retirement changes the stated fields, everything else leaves it |
| `ProvisioningChanges.RowAppears` | src/vexic/hosted_local.py:474-487 | a row appears inactive, on a file no other row names, with the target that was passed |
| `ProvisioningChanges.ReplacementStands` | src/vexic/hosted_local.py:946-971 | over every run a committed replacement counts one generation and leaves the tenant on the new file or target, until the next replacement or an activation that carries a target |
| `ProvisioningChanges.ActivationTargets` | src/vexic/hosted_local.py:609-616 | in every run an activation sets the target its caller passed, or one the factory made for this tenant, or none |
| `ProvisioningChanges.FoundTargetIsKept` | src/vexic/hosted_local.py:514-524 | a caller without a target keeps the one it finds and asks the factory only when there is none |
| `ProvisioningChanges.LoserTakesTheRow` | src/vexic/hosted_local.py:488-508 | the loser of the insert race takes up the winner's row, and fails when there is none |
| `ProvisioningChanges.UndisturbedProvision` | src/vexic/hosted_local.py:447-553 | without faults or company a new tenant ends active on an initialised new file with the right target |
| `ProvisioningChanges.RaisedStepsLandOrNot` | src/vexic/hosted_local.py:470-553 | a raising step has had its whole effect or none |
| `ProvisioningChanges.RaisedStepEnds` | src/vexic/hosted_local.py:470-553 | and its caller fails |
| `ProvisioningChanges.RaisedReplacementsLandOrNot` | src/vexic/hosted_local.py:903-971 | a raising step of a replacement has had its whole effect or none |
| `ProvisioningChanges.RaisedReplacementEnds` | src/vexic/hosted_local.py:903-971 | and ends the replacement |
| `ProvisioningChanges.DrawnNameIsFree` | src/vexic/hosted_local.py:1557-1575 | a drawn file name that some row uses is drawn again |
| `ProvisioningTheorems.ProvisionersConverge` | src/vexic/hosted_local.py:470-553 | with a deterministic factory, no explicit target and no replacement all provisioners return one file and one target |
| `ProvisioningTheorems.RetirementHoldsIff` | src/vexic/hosted_local.py:890-971 | a step leaves retired rows inactive unless it is a replacement committing over an unseen retirement |
| `ProvisioningTheorems.RetirementHoldsThroughoutIff` | src/vexic/hosted_local.py:890-971 | over every run from the empty control plane retired rows stay inactive exactly when no replacement commits over an unseen retirement |
| `ProvisioningTheorems.RetirementOvertaken` | src/vexic/hosted_local.py:748-785 | whenever a replacement waits to commit, a retirement followed by the commit leaves the tenant active, stamped, and refused by every later retirement |
| `ProvisioningTheorems.RetiredTenantRevived` | src/vexic/hosted_local.py:748-971 | the same as a full run: provision, replace, retire, commit |
| `OwnershipRepair.DataVolume.ChownTree` | src/vexic/hosted_entrypoint.py:25-62 | one boot cut off after any number of effects leaves the corresponding prefix of the repair |
| `OwnershipRepairTheorems.WalkCovers` | src/vexic/hosted_entrypoint.py:55-59 | the bottom-up walk changes exactly the entries of the tree at every depth |
| `OwnershipRepairTheorems.WalkIsBottomUp` | src/vexic/hosted_entrypoint.py:55-59 | no directory is changed before something inside it |
| `OwnershipRepairTheorems.DirectoriesBeforeFiles` | src/vexic/hosted_entrypoint.py:58-59 | in one listing directories and links to directories come before files |
| `OwnershipRepairTheorems.SentinelMatchesIff` | src/vexic/hosted_entrypoint.py:37-41 | the sentinel matches exactly when its text is the stamp, possibly surrounded by white space |
| `OwnershipRepairTheorems.EarlyReturnIsSafe` | src/vexic/hosted_entrypoint.py:25-62 | whatever boots crash, when the guard holds the root and every entry but perhaps the sentinel are right |
| `OwnershipRepairTheorems.EarlyReturnCoversSentinel` | src/vexic/hosted_entrypoint.py:55-62 | with a mis-owned root or a stale sentinel at the start the early return covers the sentinel as well |
| `OwnershipRepairTheorems.SentinelMayStayMisowned` | src/vexic/hosted_entrypoint.py:60-62 | with a root right from the start and no sentinel one crash leaves the sentinel mis-owned through every later boot |
| `OwnershipRepairTheorems.SentinelCoveredIff` | src/vexic/hosted_entrypoint.py:25-62 | the exact condition under which the early return covers the sentinel in every history of boots |
| `OwnershipRepairTheorems.WholeBootRepairs` | src/vexic/hosted_entrypoint.py:25-62 | an uninterrupted boot repairs everything and every later boot returns early |
| `PromotionRanking.MaxHitCount` | src/vexic/deep.py:162-162 | the largest hit count of the pool, attained by a member |
| `PromotionRanking.SortPlaces` | src/vexic/deep.py:176-180 | the stable sort puts each candidate at the number of candidates that outrank it |
| `PromotionRankingTheorems.RankCountsOutranking` | src/vexic/longmemeval.py:1193-1218 | the diagnostic rank is one more than the number of candidates that outrank it |
| `PromotionRankingTheorems.FiltersAgree` | src/vexic/longmemeval.py:917-943 | both gates keep the same candidates of the unpromoted, embedded pool |
| `PromotionRankingTheorems.EligibleIff` | src/vexic/longmemeval.py:917-943 | the diagnostic gate keeps exactly the unpromoted, embedded candidates that are not dateless events |
| `PromotionRankingTheorems.SelectionSkipsDateless` | src/vexic/deep.py:146-160 | dateless events are never selected, and everything else is when the bound has room |
| `PromotionRankingTheorems.SelectionIsTopRanks` | src/vexic/deep.py:122-180 | the selection is, in rank order, the candidates ranked at most N, exactly when N is non-negative or cuts everything |
| `PromotionRankingTheorems.TiesKeepLoadOrder` | src/vexic/deep.py:176-180 | of two equal scores the one loaded first ranks better |
| `PromotionRankingTheorems.NothingBetterLeftOut` | src/vexic/deep.py:122-180 | no eligible unselected candidate outranks a selected one |
| `PromotionRankingTheorems.MeritIsSelected` | src/vexic/deep.py:99-180 | a candidate no worse in recency, hits, and importance with boost than a selected one is selected too, unless they tie and it loaded later; ten points of importance weigh one of boost |
| `ForwardDrain.ForwardSimulate` | scripts/replay_deep_backlog.py:866-909 | each eligible candidate is promoted at one round or unassigned, each round promotes the top ranks of what remained, the round count is min(max_rounds, ceil(pool / top_n)), and nothing is unassigned exactly when the rounds allowed can hold the pool |
| `ForwardDrain.RoundPromotes` | scripts/replay_deep_backlog.py:894-901 | a round promotes min(top_n, remaining) of what remained |
| `ForwardDrain.TopRankedTakes` | scripts/replay_deep_backlog.py:897-898 | the rank comparison picks that many, for every pool and time |
| `ForwardDrain.RoundCount` | scripts/replay_deep_backlog.py:893-901 | the round count for any way of picking, with the non-positive cases |
| `ForwardDrain.NothingUnassignedIff` | scripts/replay_deep_backlog.py:893-909 | the same for what is left unassigned |
| `StratifiedSelection.GroupRows` | src/vexic/longmemeval.py:679-683 | groups in order of first appearance, each with its rows in order |
| `StratifiedSelection.FirstSeenInOrder` | src/vexic/longmemeval.py:679-683 | of two groups the earlier one has a row before every row of the later one |
| `StratifiedSelection.SelectInstances` | src/vexic/longmemeval.py:655-702 | every mode and error, too small a weight exactly when some weight is below one; the stratified mode returns min(limit, total) rows of the full round-robin order |
| `StratifiedSelection.PassesContribute` | src/vexic/longmemeval.py:685-701 | after p complete passes a group has contributed its first min(size, p * weight) rows, the weight being one unless given |
| `StratifiedSelection.FullOrderIsFair` | src/vexic/longmemeval.py:685-702 | the full order holds every row exactly once, each group in its own order |
| `StratifiedSelection.SelectionKeepsPrefixes` | src/vexic/longmemeval.py:685-702 | however it is cut off, each group contributes a prefix and no row repeats |

## Left out

- HTTP routes, headers, MCP and CLI parsing, and payload shapes: plumbing without deep state.
- SQL text, drivers and connections: a statement or committed transaction is one step on maps.
- Provider calls, embeddings and prompts: arbitrary functions that may fail.
- Hashing, token text and identifier generation: hashes are compared as values and identifiers are fresh; malformed raw tokens are not modelled.
- Whitespace stripping and blank-argument checks of tenant, project and scope names, other than the default scope.
- Floating point: scores, clocks and confidences are real; the logarithm ratio and the decay are arbitrary functions.
- Lease and sweep time stamps are compared as integers, which agrees with their texts because those end in "+00:00"; texts that do not parse as a stamp, and naive time zones, are not modelled.
- RateLimiter: calls are sequential on a clock that never runs backwards, although the source reads its clock before taking the lock.
- RateLimiter: a full table reports the wait of the earliest bucket, and other callers may take that room first.
- DreamLease: a renewal still in flight when its job ends.
- DreamLease: the heartbeat's five-minute schedule; renewals may come at any time or never.
- DreamSweeper: disabled tenants, staggering and the tenant list of a tick.
- DreamSweeper: a recorder that learns of a job without an outcome reads its clock in that same step.
- TokenCache: blocking inside the condition variable is a waiting state with its deadline; the order of wake-ups is free.
- DeepPhase: committing the decisions, usage totals and error rows of the dream run.
- The watermark runs of the timeline script (`_light_runs`): a one-pass filter that would add easy members.
- The undated-event test of the replay script treats malformed dates differently from `select_promotions`; no agreement of the two is claimed.
- SetupTokens: creation inserts a token whose identifier is unused; project records and audit rows are not modelled.
- SetupTokens: threads racing inside the in-memory store; its methods are sequential.
- Provisioning: `provision_customer_account`, which asks the factory inside its own transaction, project memberships, and the validation of a replacement (a failed one never advances).
- Provisioning: the schema of remote databases; only customer files are tracked as initialised.
- Provisioning: giving up after a hundred draws of a taken file name.
- OwnershipRepair: effects reach the disk in program order, the tree does not change under the walk, all boots use one owner, and listing order within a directory is fixed.
- ForwardDrain: the id lists it sorts for its report are sets here.
- StratifiedSelection: offsets are kept by group position instead of by group name.
