# MCP gateway: a verified model of the decision core

The gateway puts a stack of layers in front of an MCP server: authentication, a token bucket per API
key, role permissions with wildcards, policies with a write limit, and an audit log; its database
schema is migrated at start-up by every process. This project models the state of these layers, their
methods and the interleavings of concurrent requests, and proves what they guarantee over every run.

Code that updates objects (the bucket, the limiter, the permission service, the write tracker, the
policy engine's cache, the audit logger, the migration runner, the request and response wrappers) is
a class or a loop proved against functions of the old state. The theorems are about those functions.
Where calls have several steps that others can come between, a state machine has one event for each
step, and the theorems hold for every sequence of events.

| module | what it is about | main results |
|---|---|---|
| `Glob`, `GlobLaws` | the wildcard matcher | the loop decides exactly the instances of a pattern; containment; exact worst-case cost |
| `Authorization` | the decision on a permission list | covered rows are redundant; when a first permission closes a key |
| `PermissionCache`, `CacheProtocol` | cached permission lists | atomic: transparent; interleaved: one list per epoch, exactly when an invalidation works |
| `TokenBucket`, `RetryAfter` | one bucket | equal to a full-history checker; when an obedient retry is refused |
| `Limiter`, `LimiterLives`, `IdleCleanup` | all buckets, calls atomic | each key's verdicts are those of one bucket per life; what a verdict's wait means; exactly when removing idle buckets cannot be noticed |
| `LimiterThreads`, `LimiterRaces` | all buckets, calls interleaved | admission bound for every bucket; an undisturbed call is atomic; exactly when a bucket has its configuration and when a removal is clean |
| `WriteTracker`, `WriteWindows`, `PolicyEngine` | one write limit, requests one by one | compaction in place; pruning is invisible; bounded windows |
| `WriteRaces` | one write limit, requests interleaved | tight bounds for clock reading, count and record as separate steps |
| `TwoLimits`, `ManyLimits` | several write limits on one list | exactly how many writes pass in a window of each of two, and in a shortest window of any number |
| `PolicyCache` | the cached policy list | how old the list behind a decision can be |
| `AuditLogger` | the bounded audit queue | accounting and order; the close drains |
| `Migrations` | the migration runner | applied in order, once, by any number of processes; exactly who can lose the race |
| `Bodies` | body and response sharing | every layer sees the same 64 KiB |
| `Gateway`, `GatewayVerdicts` | the whole stack | tokens, denials, forwards and audit entries add up; end-to-end rate bound; every answer of every layer explained |

Units: times are integers in nanoseconds, and tokens are counted in units of 1/60,000,000,000, so that
a refill is the elapsed time multiplied by the requests per minute, without rounding.

## What the proofs show to be false

Some statements one would expect of the code do not hold. Each has a lemma with a concrete run, and
next to it the exact condition, or the best bound, that does hold.

- A client that waits as long as the Retry-After header says can be refused again
  (`RetryAfter.ObedientClientRefused`): `RetryAfter.RetryAtHeader` says exactly when, and
  `RetryAfter.SecondRetryIsAdmitted` that it happens once only. With clock
  readings applied out of order the header can also exceed 60 (`RetryAfter.LateReadingLengthensWait`):
  `RetryAfter.HeaderWithinMinute` says exactly when.
- A permission change without an invalidation can be missed for good
  (`PermissionCache.UninvalidatedChangeIsMissed`): `PermissionCache.MissedExactlyWhenItMatters`. And
  `InvalidateCache` does not stop a load already in flight from storing the old list, which then
  stays (`CacheProtocol.StaleListSurvivesInvalidation`): `CacheProtocol.InvalidationTakesEffect` says
  exactly when an invalidation works.
- Two `rate_of_change` policies share one list per key. The shorter window erases what the longer one
  counts, and each records the write for itself (`TwoLimits.SecondLimitErasesTheFirst`,
  `TwoLimits.SecondLimitCountsTwice`). `TwoLimits.FirstLimitExactly` and
  `TwoLimits.SecondLimitExactly` give, from the four numbers of the two policies, exactly how many
  writes can pass in a window of each, and so when a limit keeps what it says;
  `ManyLimits.ShortWindowsExactly` does so for any number of limits in a window no longer than theirs.
- Concurrent writes can exceed the write limit: a request reads the clock, counts and records in three
  steps. `WriteRaces.InterleavedBound` bounds the excess and `WriteRaces.InterleavedBoundIsMet` shows
  that the bound cannot be lowered.
- A bucket can keep the default configuration while another one is cached
  (`LimiterRaces.BucketCanMissItsConfig`): `LimiterRaces.BucketsAgreeIff` says exactly when not, over
  all runs, and `LimiterRaces.ReplacementAgreesIff` after one new configuration. A
  bucket replaced while a call holds it admits twice its burst
  (`LimiterRaces.ReplacedBucketDoublesBurst`): `LimiterRaces.RemovalIsCleanIff` says exactly when a
  removal leaves the key a single bucket.
- Removing idle buckets can be noticed for keys whose burst is more than ten times their rate
  (`IdleCleanup.CleanupShows`, `IdleCleanup.CleanupInvisibleIff`).
- A process that migrates an empty database can fail although nothing went wrong
  (`Migrations.LoserFails`): `Migrations.StartIsSafeIff` and `Migrations.CanLoseIffAtRisk` say exactly
  when. Never do all fail (`Migrations.SomebodySurvives`).

Where the code and its documentation differ, the model follows the code: ARCHITECTURE.md:49 speaks of a
ten-minute idle cleanup, but no program calls `Cleanup`, nor `SetConfig` or `InvalidateCache`; the
policy layer stands between RBAC and auditing (cmd/gateway/main.go:92-102), where ARCHITECTURE.md:27-31
has none; a body longer than 64 KiB reaches the proxy cut off; and a permission query that fails opens
the key for that request, like a key without permissions.

## Model

| member | source | states |
|---|---|---|
| `Glob.Match` | internal/rbac/rbac.go:41-62 | the matcher says yes exactly when the value is the pattern with every star replaced by some bytes, and makes exactly `Calls` calls |
| `Glob.AcceptsIffInstance` | internal/rbac/rbac.go:35-39 | the byte-by-byte reading of a pattern and its declarative meaning (existence of fillers for the stars) coincide |
| `Glob.StarTriesEverySuffix` | internal/rbac/rbac.go:48-53 | a leading star accepts exactly the values with some suffix that the rest of the pattern accepts |
| `GlobLaws.AcceptsItself` | internal/rbac/rbac.go:41-62 | matching is reflexive on texts of patterns |
| `GlobLaws.AcceptsComposes` | internal/rbac/rbac.go:41-62 | matching is transitive |
| `GlobLaws.InstanceIsContainment` | internal/rbac/rbac.go:41-62 | p matches the text q exactly when p matches every value that q matches |
| `GlobLaws.ContainmentOnPlainValues` | internal/rbac/rbac.go:41-62 | the same with values free of stars only, as soon as one byte is unused by p |
| `GlobLaws.InstanceSplits` | internal/rbac/rbac.go:41-62 | a concatenated pattern matches exactly the values that can be cut into a match of each part |
| `GlobLaws.StarRunsCollapse` | internal/rbac/rbac.go:41-62 | two adjacent stars mean one, anywhere in a pattern |
| `GlobLaws.InstanceReverses` | internal/rbac/rbac.go:41-62 | reversing pattern and value does not change the answer |
| `GlobLaws.PlainOrStar` | internal/rbac/rbac.go:41-62 | a pattern without stars matches its own text only, and a lone star everything |
| `GlobLaws.MatcherIsSensible` | internal/rbac/rbac.go:35-62 | each byte matches itself, the star anything, and a concatenation the concatenations |
| `GlobLaws.MeaningIsUnique` | internal/rbac/rbac.go:35-62 | and no other relation does that |
| `GlobLaws.CallsAreAtMostBinomial` | internal/rbac/rbac.go:41-62 | with k stars and n bytes, at most n+k+1 choose k calls |
| `GlobLaws.CallsArePolynomial` | internal/rbac/rbac.go:41-62 | hence at most (n+2) to the k calls |
| `GlobLaws.BinomialIsReached` | internal/rbac/rbac.go:41-62 | the binomial bound is reached for every k and n |
| `Authorization.Decide` | internal/rbac/rbac.go:90-102 | allowed exactly when the list is nil or some row matches both resource and action |
| `Authorization.PlainRowsAreLiteral` | internal/rbac/rbac.go:92-101 | rows without stars grant exactly the requests they spell out, resource by resource and action by action; the nil list grants everything |
| `Authorization.StarColumns` | internal/rbac/rbac.go:97 | a row with a star for the resource judges the action only, and one with a star for the action the resource only |
| `Authorization.CoversIffPatternsMatch` | internal/rbac/rbac.go:96-100 | a row grants all that another grants exactly when its two patterns match the other's two texts |
| `Authorization.DecisionGrowsWithTheSet` | internal/rbac/rbac.go:96-101 | on lists, the decision depends on the set of rows only and never shrinks with more rows |
| `Authorization.CoveredRowIsRedundant` | internal/rbac/rbac.go:96-101 | a row covered by another can be deleted without changing any decision |
| `Authorization.FirstPermissionCloses` | internal/rbac/rbac.go:88-101 | a first permission leaves everything allowed exactly when both its patterns match a star |
| `PermissionCache.Service.LoadPermissions` | internal/rbac/rbac.go:64-86 | hands out the cached list, or the fetched one, which it caches, or nil after a failure, which it does not cache |
| `PermissionCache.Service.StoreFirst` | internal/rbac/rbac.go:78-85 | the re-checked store keeps the first list and hands that out |
| `PermissionCache.Service.IsAllowed` | internal/rbac/rbac.go:90-102 | the answer is the decision on the list that the load hands out |
| `PermissionCache.Service.InvalidateCache` | internal/rbac/rbac.go:105-109 | forgets the key's list and no other |
| `PermissionCache.CacheIsTransparent` | internal/rbac/rbac.go:64-109 | with an invalidation after each change, every answer of every run is that of a service without cache, except that a failed query may open what is closed, for that answer only |
| `PermissionCache.MissedExactlyWhenItMatters` | internal/rbac/rbac.go:64-70 | for a cached key, after any run that does not invalidate it, the next answer differs from the direct one exactly when the cached list and the list then in the table decide the request differently |
| `PermissionCache.FirstListStays` | internal/rbac/rbac.go:64-86 | the list in the table at the first successful question, the nil list included, judges every later question until an invalidation |
| `PermissionCache.FirstPermissionsAreMissed` | internal/rbac/rbac.go:64-94 | so a key that has been asked about stays open when it gets its first permissions |
| `PermissionCache.FailedQuestionIsOpen` | internal/rbac/rbac.go:72-76 | a failed query opens the key for that question and is not remembered |
| `PermissionCache.UninvalidatedChangeIsMissed` | internal/rbac/rbac.go:64-70 | of two rows the one that grants a request is revoked without an invalidation, and the request is still allowed |
| `CacheProtocol.NextKeepsSourced` | internal/rbac/rbac.go:64-86 | every step keeps all lists in the cache, on their way or handed out equal to a version of the table |
| `CacheProtocol.NextKeepsAgreed` | internal/rbac/rbac.go:64-86 | every step keeps the lists handed out in one epoch of a key equal |
| `CacheProtocol.OneListPerEpoch` | internal/rbac/rbac.go:64-109 | under any interleaving, between two invalidations of a key all requests whose query does not fail get the same list, and the table did hold it |
| `CacheProtocol.FreshExactlyWhenNoneOlder` | internal/rbac/rbac.go:64-109 | no future request gets a list older than a version exactly when neither the cache nor a load between query and store holds one |
| `CacheProtocol.InvalidationTakesEffect` | internal/rbac/rbac.go:104-109 | an invalidation hides all earlier lists for good exactly when no load of the key holds an outdated list at that moment |
| `CacheProtocol.StaleListSurvivesInvalidation` | internal/rbac/rbac.go:72-85 | the race in six steps: an old list is stored after the invalidation and then served |
| `CacheProtocol.UninterruptedLoadIsLookup` | internal/rbac/rbac.go:64-86 | refinement: the steps of one load without interruption, failed or not, do what the atomic load does |
| `TokenBucket.Cell.constructor` | internal/ratelimit/ratelimit.go:124-129 | a new bucket is full |
| `TokenBucket.Cell.Allow` | internal/ratelimit/ratelimit.go:42-60 | refill with cap, then one token or a wait of whole milliseconds, at least a second |
| `TokenBucket.TokensWithinAllowance` | internal/ratelimit/ratelimit.go:46-53 | the tokens never exceed what is left of any window from the creation or an earlier call, in any order of readings |
| `TokenBucket.TokensMeetAllowance` | internal/ratelimit/ratelimit.go:46-53 | unless the bucket is full, its tokens are exactly what is left of some window |
| `TokenBucket.AdmitsIffNoWindowBreaks` | internal/ratelimit/ratelimit.go:46-53 | a call is admitted exactly when no window from an earlier call or the creation to it would hold too many admissions |
| `TokenBucket.BucketIsHistoryChecker` | internal/ratelimit/ratelimit.go:42-60 | on every run the bucket answers like a checker that remembers all readings and answers |
| `TokenBucket.WindowBound` | internal/ratelimit/ratelimit.go:46-53 | a window that ends with an admitted call holds at most capacity plus rate times its length |
| `RetryAfter.WaitIsTwoSided` | internal/ratelimit/ratelimit.go:46-59 | without other calls: admitted from one millisecond after the wait on, short of less than a millisecond's refill at the wait, and refused at any time before a wait above one second |
| `RetryAfter.RetryAtWait` | internal/ratelimit/ratelimit.go:55-58 | a call exactly at the wait is admitted exactly when the true wait is at most a second or a whole number of milliseconds |
| `RetryAfter.HeaderRounds` | internal/ratelimit/ratelimit.go:55-58 | the header rounds the true wait up to seconds, but loses an excess of less than a millisecond |
| `RetryAfter.RetryAtHeader` | internal/ratelimit/ratelimit.go:151-154 | a client that obeys the header is refused exactly when the true wait exceeds a positive number of seconds by less than a millisecond |
| `RetryAfter.ObedientClientRefused` | internal/ratelimit/ratelimit.go:55 | such a client: a run of two calls whose second is refused, and refused again at the header's time |
| `RetryAfter.SecondRetryIsAdmitted` | internal/ratelimit/ratelimit.go:46-59 | the refused retry is told one second, and the retry after that second is admitted |
| `RetryAfter.HeaderWithinMinute` | internal/ratelimit/ratelimit.go:151-154 | after any refusal the header is at most 60 exactly when less than a minute and a millisecond of refill is missing |
| `RetryAfter.HeaderRange` | internal/ratelimit/ratelimit.go:151-154 | with room for a token, a positive rate and an ordered clock, every refusal of every run says 1 to 60 |
| `RetryAfter.LateReadingLengthensWait` | internal/ratelimit/ratelimit.go:136 | without the ordered clock it can say 90 |
| `Limiter.RateLimiter.LoadConfig` | internal/ratelimit/ratelimit.go:81-104 | the cached configuration, or the found row, which is cached, or the default, which is not |
| `Limiter.RateLimiter.GetBucket` | internal/ratelimit/ratelimit.go:106-132 | the key's bucket, made when missing; the buckets of other keys are the same objects with the same contents |
| `Limiter.RateLimiter.Allow` | internal/ratelimit/ratelimit.go:134-137 | charges the key's bucket only, and answers from it |
| `Limiter.RateLimiter.Cleanup` | internal/ratelimit/ratelimit.go:170-184 | the loop removes exactly the buckets and configurations idle for more than ten minutes |
| `Limiter.RateLimiter.SetConfig` | internal/ratelimit/ratelimit.go:187-192 | sets the configuration and removes the bucket |
| `LimiterLives.LimiterIsLives` | internal/ratelimit/ratelimit.go:81-192 | refinement: on every run, whatever other keys do, each key's bucket and configuration are what its own calls, settings and idle cleanups say |
| `LimiterLives.VerdictsAreOfOneBucket` | internal/ratelimit/ratelimit.go:106-137 | every verdict of every run is that of the full-history checker of the key's current bucket, and a refusal's wait is that bucket's |
| `LimiterLives.WaitOfVerdict` | internal/ratelimit/ratelimit.go:55-59 | with an ordered clock, a refusal's header is 1 to 60; the key's next call is admitted from a millisecond after the wait on, and refused before a wait above one second |
| `LimiterLives.RetryOfVerdict` | internal/ratelimit/ratelimit.go:151-154 | exactly when a client that obeys the header of a verdict is refused again |
| `LimiterLives.BurstThenRefused` | internal/ratelimit/ratelimit.go:124-129 | at one reading exactly the burst is admitted, and the next call waits for one token in whole milliseconds, at least a second |
| `LimiterLives.EleventhCall` | internal/ratelimit/ratelimit.go:29-32 | with the default configuration the eleventh call is refused with a wait of one second |
| `IdleCleanup.NewIsTwinOfIdle` | internal/ratelimit/ratelimit.go:124-129 | an idle bucket with a forgettable configuration answers like a new one |
| `IdleCleanup.RelatedRunsAgree` | internal/ratelimit/ratelimit.go:106-184 | bisimulation: with an ordered clock and forgettable configurations, a run with cleanups anywhere gives the answers and waits of the run without |
| `IdleCleanup.CleanupInvisibleIff` | internal/ratelimit/ratelimit.go:170-184 | cleanups are invisible on all runs exactly when every configuration in use is forgettable |
| `IdleCleanup.CleanupShows` | internal/ratelimit/ratelimit.go:179-182 | the run that shows one for any other configuration |
| `IdleCleanup.ForgettableInPractice` | internal/ratelimit/ratelimit.go:93-96 | for 32-bit columns and a positive burst, forgettable means burst at most ten times the rate |
| `IdleCleanup.BucketsMatchConfigs` | internal/ratelimit/ratelimit.go:114-130 | with atomic calls a live bucket always has the cached configuration |
| `IdleCleanup.LiveBucketIgnoresRows` | internal/ratelimit/ratelimit.go:106-112 | once a key has a bucket, what the query would return makes no difference to any later answer |
| `LimiterThreads.NextKeepsSound` | internal/ratelimit/ratelimit.go:81-192 | every step of every thread, cleanups and replacements included, keeps each bucket ever made in the state, and with the answers, of sequential calls at the readings of its updates, and keeps it to its key |
| `LimiterThreads.NextKeepsSettled` | internal/ratelimit/ratelimit.go:106-137 | as long as no bucket is taken away, every step keeps all threads and updates of a key on the bucket of the map |
| `LimiterThreads.OneBucketPerKey` | internal/ratelimit/ratelimit.go:106-132 | under any interleaving without removals, the updates of a key are exactly the updates of one bucket |
| `LimiterThreads.AdmissionBound` | internal/ratelimit/ratelimit.go:42-60 | on every run, for every bucket: admissions up to an admitted update are at most burst plus rate times its reading minus the creation, and likewise from any earlier update |
| `LimiterThreads.UninterruptedCallIsAtomic` | internal/ratelimit/ratelimit.go:134-137 | refinement: the steps of one call without interruption do what the atomic call does |
| `LimiterThreads.RemovalsAreAtomic` | internal/ratelimit/ratelimit.go:170-192 | replacement and cleanup do to the shared limiter what the atomic ones do, and leave the calls under way alone |
| `LimiterRaces.BucketsAgreeIff` | internal/ratelimit/ratelimit.go:81-192 | a live bucket has the cached configuration on every run, with any cleanups and replacements, exactly when all possible answers to the key's query and all configurations set for it amount to one configuration |
| `LimiterRaces.ReplacementAgreesIff` | internal/ratelimit/ratelimit.go:81-192 | after one new configuration and until the next removal, bucket and cache agree exactly when no call of the key was on its way with another configuration, or in a query that may return another one |
| `LimiterRaces.BucketCanMissItsConfig` | internal/ratelimit/ratelimit.go:114-130 | a bucket with the default while the row is cached |
| `LimiterRaces.OneBucketFromIff` | internal/ratelimit/ratelimit.go:106-137 | from any reachable state, the next updates of a key all go to one bucket exactly when every thread that holds a bucket of the key holds the one of the map |
| `LimiterRaces.RemovalIsCleanIff` | internal/ratelimit/ratelimit.go:170-192 | after a new configuration or an idle removal, the key gets a single bucket exactly when no call holds one of its buckets at that moment |
| `LimiterRaces.ReplacedBucketDoublesBurst` | internal/ratelimit/ratelimit.go:187-192 | a call that holds a replaced bucket admits a second burst |
| `WriteTracker.Tracker.Record` | internal/policy/policy.go:61-65 | appends to the key's list, in its array while there is room, and changes no other list |
| `WriteTracker.Tracker.Append` | internal/policy/policy.go:64 | the append itself: in place or into a larger array, with the old elements and the new one |
| `WriteTracker.Tracker.CountInWindow` | internal/policy/policy.go:67-82 | keeps exactly the times not before the start, in order, counts them, and changes no other list |
| `WriteTracker.Tracker.Compact` | internal/policy/policy.go:71-79 | the compaction inside the same array, although it overwrites what it reads |
| `WriteWindows.StoredTracksGranted` | internal/policy/policy.go:67-82 | from any later window start on, the pruned list and the full history agree |
| `WriteWindows.PruningIsInvisible` | internal/policy/policy.go:260-269 | a write is granted exactly when fewer than the limit of all earlier granted writes lie in its closed window; the list never exceeds the limit |
| `WriteWindows.GrantedIsBounded` | internal/policy/policy.go:260-269 | no closed window of the policy's length holds more than the limit |
| `WriteWindows.DenialIsRecent` | internal/policy/policy.go:260-266 | denied exactly when the limit-th last granted write is not older than the window |
| `WriteWindows.BetweenCounts` | internal/policy/policy.go:67-82 | what the window laws count is the number of positions in the closed interval |
| `WriteRaces.CountKeepsValid` | internal/policy/policy.go:260-264 | for every window, the count keeps this: until a count starts after the window nothing of it is pruned, and from then on only requests in flight with that count can still be added |
| `WriteRaces.InterleavedBound` | internal/policy/policy.go:128-268 | with at most N requests between clock reading and record, no closed window holds more than limit + 2(N - 1) granted writes; with counts in the order of the readings and at most N between count and record, no more than limit + N - 1 |
| `WriteRaces.InterleavedBoundIsMet` | internal/policy/policy.go:128-268 | for every limit, N and length some run reaches each of the two bounds |
| `WriteRaces.OneAtATimeIsAtomic` | internal/policy/policy.go:128-268 | with N = 1 the three steps refine the atomic requests of `WriteWindows`: same grants and same list |
| `PolicyEngine.EvaluateRule` | internal/policy/policy.go:146-157 | verdict and tracker list of one policy; other keys' lists stay |
| `PolicyEngine.EvaluateRateOfChange` | internal/policy/policy.go:240-270 | counts the recorded writes of the window, denies at the limit and records below it, for writes of key holders under positive numbers only |
| `PolicyEngine.Evaluate` | internal/policy/policy.go:130-142 | the loop over the policies up to the first denial |
| `PolicyEngine.LimitsConcernWritesOnly` | internal/policy/policy.go:240-258 | for reads, anonymous requests and limits without positive numbers: denied exactly when some other policy denies, and nothing is recorded |
| `PolicyEngine.OneLimit` | internal/policy/policy.go:130-142 | with one write limit: denied exactly when an earlier policy, the limit or a later policy denies; recorded before a later policy may deny |
| `PolicyEngine.LimitInSeconds` | internal/policy/policy.go:240-269 | with one limit of most writes in a number of seconds: a write is denied by it exactly when the most-th last write it let through is at most that many times 1,000,000,000 nanoseconds old, and passes unless an earlier or later policy denies |
| `PolicyEngine.PassedWritesAreSpread` | internal/policy/policy.go:240-269 | any most + 1 consecutive passed writes are more than that far apart |
| `PolicyEngine.PassedWritesAreBounded` | internal/policy/policy.go:240-269 | so no closed window of that many seconds holds more than most passed writes, and the list stays small |
| `TwoLimits.BothRecord` | internal/policy/policy.go:71-80 | a write granted by two limits leaves what the shorter window keeps, and itself twice |
| `TwoLimits.StepCases` | internal/policy/policy.go:130-142 | what a list with two limits, and plain verdicts before, between and after them, does with a write |
| `TwoLimits.RunKeepsValid` | internal/policy/policy.go:240-269 | on every run the list holds both records of the writes of each short window, until the first limit has granted a later write over them |
| `TwoLimits.FirstLimitExactly` | internal/policy/policy.go:240-269 | for limits a in Wa then b in Wb: a window of the first holds at most n passed writes on every ordered run exactly when n >= min((a-1)/2, b/2) * (Wa/(Wb+1)) + min((a+1)/2, b/2) |
| `TwoLimits.SecondLimitExactly` | internal/policy/policy.go:240-269 | and a window of the second exactly when n >= min((a+1)/2, b/2) * (Wb/(Wa+1) + 1) |
| `ManyLimits.WholeList` | internal/policy/policy.go:130-142 | a write through a list with any limits among any other policies loses nothing of a short window, and when it passes it is recorded once for each limit, each of which had room |
| `ManyLimits.ShortWindowsExactly` | internal/policy/policy.go:240-269 | with limits a_1 to a_k, a window no longer than the shortest of theirs holds at most n passed writes on every ordered run exactly when (a_i + k - i) / k is at most n for some i |
| `TwoLimits.SecondLimitErasesTheFirst` | internal/policy/policy.go:71-80 | with a second, shorter limit, a limit of three lets four writes pass |
| `TwoLimits.SecondLimitCountsTwice` | internal/policy/policy.go:260-268 | with a second limit, a limit of two refuses the second write |
| `PolicyCache.Engine.LoadPolicies` | internal/policy/policy.go:93-114 | a fresh non-nil list or, after a failure, any old list is served unchanged; otherwise the fetched list is stored and served |
| `PolicyCache.NextKeepsValid` | internal/policy/policy.go:93-114 | every step keeps cached, queried and served lists truthful and recent |
| `PolicyCache.JudgedByRecentList` | internal/policy/policy.go:84-114 | if no load takes longer than D from query to store, a request whose load did not fail is judged by a list less than 30 s + D old; nil is never served from the cache |
| `PolicyCache.ChangeIsEnforced` | internal/policy/policy.go:93-114 | a lasting change of the policies is enforced from 30 s + D after it on |
| `PolicyCache.AgeBoundIsMet` | internal/policy/policy.go:95 | a list one nanosecond below that age can be served |
| `PolicyCache.FailureServesAnyAge` | internal/policy/policy.go:102-107 | after a failed load a list of any age can be served |
| `PolicyCache.UninterruptedLoad` | internal/policy/policy.go:93-114 | refinement: the steps of one load without interruption do what the atomic load does |
| `AuditLogger.Logger.LogEntry` | internal/audit/logger.go:44-56 | accepted while there is room or the consumer waits, dropped otherwise, a panic after the close; never blocks |
| `AuditLogger.Logger.Process` | internal/audit/logger.go:67-87 | one step of the consumer |
| `AuditLogger.Logger.Close` | internal/audit/logger.go:62-65 | returns with the consumer gone and every accepted entry attempted once, in order |
| `AuditLogger.NextKeepsValid` | internal/audit/logger.go:44-87 | every step keeps the accounting, the order and the bound of the queue |
| `AuditLogger.EveryCallIsAccounted` | internal/audit/logger.go:34-87 | on every run, calls = accepted + dropped + panicked, and accepted = attempted, then the one in flight, then the queue |
| `AuditLogger.CallIsAcceptedIff` | internal/audit/logger.go:44-56 | after any run, a call on an open log adds its entry exactly when the consumer waits or the buffer has room; otherwise it counts one drop, with a whole buffer accepted and not attempted |
| `AuditLogger.FirstCallsAreAccepted` | internal/audit/logger.go:34-56 | of an open log, the first calls, as many as the buffer holds, are all accepted, in order |
| `AuditLogger.DrainingDecreases` | internal/audit/logger.go:62-87 | after the close each consumer step brings the exit one closer, and the consumer is blocked only when it is gone |
| `AuditLogger.CloseDrains` | internal/audit/logger.go:62-87 | the consumer leaves after exactly that many steps, with all accepted entries attempted, whatever calls come in |
| `Migrations.Database.Migrate` | internal/database/database.go:53-85 | succeeds exactly when no fault hits a file that matters, and has then appended, in order, what was missing; in any case a first part of that |
| `Migrations.MissingCompletes` | internal/database/database.go:53-61 | on a log that is a prefix of the list, what is missing completes the list |
| `Migrations.MissingExactly` | internal/database/database.go:53-61 | what is missing is what is in the list and not applied |
| `Migrations.NextKeepsValid` | internal/database/database.go:53-83 | every step of every process keeps the log a prefix of the list |
| `Migrations.MigrationsApplyInOrderOnce` | internal/database/database.go:53-85 | however processes interleave, fail and crash, the log only grows, is a prefix of the list, holds no file twice, and every success leaves all its files applied |
| `Migrations.SomebodySurvives` | internal/database/database.go:76-79 | without other faults the race for the key never makes all processes fail |
| `Migrations.CanSucceed` | internal/database/database.go:53-85 | from any reachable state, a process between two files succeeds when nobody holds a key and nobody disturbs it |
| `Migrations.CanLoseIffAtRisk` | internal/database/database.go:54-79 | from any reachable state, an unfinished process can still fail without any fault exactly when it has found a file missing, or has an uncommitted file ahead besides one whose key it holds |
| `Migrations.StartIsSafeIff` | internal/database/database.go:54-79 | before it is started: exactly when some file that it sees is not committed |
| `Migrations.LoserFails` | internal/database/database.go:54-79 | so the first process on an empty database can |
| `Bodies.Request.ReadAndRestore` | internal/audit/middleware.go:69-80 | for every chunking of the stream, and errors reported with or after the last bytes: sees the first 64 KiB and leaves exactly these; a failed read sees nothing and leaves the body closed |
| `Bodies.LayersSeeTheSame` | internal/policy/policy.go:272-283 | however many layers read, each sees what the first saw, and the proxy gets that |
| `Bodies.JudgedToolIsLogged` | internal/rbac/rbac.go:164-178 | the tool that RBAC judges is the tool name that the audit layer logs; any other request is not judged and logged under its method (internal/audit/middleware.go:95-109), or under nothing when it cannot be decoded |
| `Bodies.ResponseCapture.Write` | internal/audit/middleware.go:29-39 | the captured bytes are the first 64 KiB of all that the handler wrote, however much of each write the connection takes; what it takes is passed on and reported |
| `Bodies.CaptureIsFirst` | internal/audit/middleware.go:29-39 | so it is for every division of a response into writes |
| `Gateway.BuildStack` | cmd/gateway/main.go:84-102 | exactly the layers that the settings ask for, each once, in the order authentication, limiter, RBAC, policies, auditing |
| `Gateway.RankedIsUnique` | cmd/gateway/main.go:84-102 | which determines the stack |
| `Gateway.NextKeepsTokens` | cmd/gateway/main.go:84-104 | every event keeps the account of tokens |
| `Gateway.TokensAreSpent` | cmd/gateway/main.go:84-104 | on every run, tokens taken = forwarded + denied by RBAC + denied by policy + on their way, for each key |
| `Gateway.ForwardsAreAudited` | internal/audit/middleware.go:41-67 | forwarded = audit calls + not yet back + handlers that panicked, and calls = accepted + dropped while the log is open, so requests stopped earlier leave no entry |
| `GatewayVerdicts.AnswersAreRight` | cmd/gateway/main.go:84-104 | on every run, each answer of the limiter is that of the full-history checker, each answer of RBAC is yes exactly for no resource, the nil list or a row of the key's first list whose patterns match resource and action, and each answer of the policies is no exactly when they deny, given the key's recorded writes; tokens, refusals and denials count these answers |
| `GatewayVerdicts.ForwardsAreCleared` | cmd/gateway/main.go:84-104 | a forwarded request was let through by limiter, RBAC and policies |
| `GatewayVerdicts.TokensAreAdmissions` | internal/ratelimit/ratelimit.go:139-168 | the tokens that a key took are the admissions of one bucket called at the key's readings |
| `GatewayVerdicts.ForwardsAreRateLimited` | internal/ratelimit/ratelimit.go:139-168 | the requests of a key that reach the upstream server are at most the burst plus the rate over the time from the making of its bucket to an admitted call, with burst and rate as first read, whatever the other layers do |

## Left out

- Rounding of `float64` and overflow of `time.Duration` in the bucket: the arithmetic is exact. With a rate of zero the code converts an infinite number to an integer, which Go leaves open; the result is the parameter `infinite`, and no theorem depends on it.
- Overflow of the window of a `rate_of_change` policy, above 9,223,372,036 seconds (internal/policy/policy.go:260): its length is exact.
- JSON decoding, lower-casing, the write indicators, the content and time-of-day policies and time zones: a decoded request, a yes or no for "is a write", and a fixed verdict for each such policy are given.
- Tokens, hashing and the validation of keys: a request comes with its caller.
- SQL beyond a unique key and atomic commits: queries return a value or fail, and the failures are part of the runs. The growth of Go slices is some growth, not Go's.
- Listing and sorting the migration directory, and the creation of the version table: the list of distinct names is given.
- Several writers of one array outside the tracker: its arrays are private to it, as in the code.
- `WriteWindows.StoredTracksGranted`: requests of the key one at a time, so readings in order; with overlapping requests the list can lose entries that a later count should see, and `WriteRaces` says by how much.
- `WriteWindows.PruningIsInvisible`: likewise.
- `WriteWindows.GrantedIsBounded`: likewise; `WriteRaces.InterleavedBound` is the bound for any overlap.
- `PolicyEngine.PassedWritesAreBounded`: one write limit and requests of a key one at a time; `TwoLimits` covers two limits, `ManyLimits` the shortest windows of any number and `WriteRaces` overlapping requests; several limits with overlapping requests, and the longer windows of three or more limits, are not covered.
- `Gateway.TokensAreSpent`: the visit of one layer is one event, so that the steps inside a layer, which `LimiterThreads`, `CacheProtocol`, `WriteRaces` and `PolicyCache` interleave, are not interleaved a second time here; the policies in force are an input of each visit, and so are the default configuration and the size of the audit buffer.
- `AuditLogger.CloseDrains`: each insert is assumed to return, as its five-second timeout intends; no wall-clock bound.
- The dashboard, templates, cookies, charts, reverse proxy, HTTP servers, metrics, health probes, configuration, key generation and examples.
- Other fields of an audit entry (address, latency, status code formatting): an entry is opaque to the queue.
