# Verified models of the adaptive MFA engine

The engine decides, for each Keycloak login, how strong a second factor to ask for. Its risky
logic sits in small stateful protocols and order-sensitive algorithms. This project models
those and proves what they guarantee, for every input, every interleaving and every run.

| file | what it models |
|---|---|
| `DiscoveryCache.dfy` | the failure cache and the attempt window that bound outbound OIDC discovery |
| `DiscoveryFlight.dfy` | single-flight discovery: calls that race, lead, wait, share and time out, step by step |
| `LeaseMutex.dfy` | the Redis lease mutex and the config-lock read, with their polling loops |
| `AuthProcesses.dfy` | authentication processes, the expiring open pointer, and the two ways to close one |
| `SlidingWindow.dfy` | the sorted-set rate limiter that prunes and expires |
| `IpRanges.dfy` | the merged range table of the IP lists and its bisection |
| `Keyset.dfy` | keyset pagination of the monitoring events, cursor text included |
| `WeightScoring.dfy` | weight-mode scoring end to end, and the decay over clean logins |
| `LogOdds.dfy` | log-odds scoring |
| `DecisionHistory.dfy` | the decisions stored for one user over time, in either mode |
| `Parameters.dfy`, `ParamsStore.dfy`, `ParamsService.dfy` | the versioned parameter store and the settings and scoring writes |
| `ParamsReader.dfy` | the settings read and the overlay a decision is scored with |
| `HealthLimiter.dfy` | the limiter of /health probes |
| `Prelude.dfy` | options, results and counting facts |

Where the source updates fields, a class does: its methods are tied to a relation or function on
values, and the state machines, invariants and theorems are about that relation. Times are reals,
and a step system has one clock that never goes back; a call's own reading of it may be old by the
time it takes a lock. Tables are maps, and one repository call is one atomic step.

## What the code does not do, and exactly when it does

Each of these is a proved statement. The lemmas named after a failure build the run or the input
in which it happens. One more difference is between the code and its own wording: in the
single-signal relaxation the recorded reason speaks of Risk 1, but the code returns
DEFAULT_RISK_LEVEL (src/service/decision.py:1041-1047); the model follows the code.

- The mutex keeps every holder's claim throughout a run exactly when no DELETE in it hits another
  holder's live key (`LeasesOwnedIff`), and then clients exclude each other (`Exclusion`). That is
  so when no DELETE reaches Redis after its sender's lease ended (`PromptIsHarmless`). One late
  DELETE can put two clients inside together (`LateDeleteBreaksExclusion`) and can make a client
  that is on time delete a third client's key (`LateDeleteSpoilsPromptClient`). What a client can
  see to: over all runs whose DELETEs follow their SETs within some time, clients exclude each other
  exactly when that time is shorter than the lease (`HoldExcludesIff`). Were GET and DELETE one
  step, the comparison alone would do (`AtomicReleasesExclude`).
- A lock timeout means that somebody acquired the key after the waiter arrived exactly when the
  budget covers a lease plus the longest time an answer takes to come back (`TimeoutTellsIff`), and
  the same holds for a config read (`ReadTellsIff`). `mark_config_lock` and `check_no_config_lock`
  set the budget to exactly one lease, which any slow answer defeats (`SlowAnswerTimesOut`,
  `SlowAnswerFailsRead`).
- A follower of a discovery flight gets its leader's outcome exactly when the discovery document was
  not JSON other than an object: such a document crashes the leader, which then fills neither field
  of the flight (`FollowersShare`, `CrashedIffNoObject`, with the run in `CrashReachesFollower`).
- A failed discovery is remembered from the moment its leader arrived, so a fetch that takes longer
  than the lifetime to fail is never remembered (`SlowFailureForgotten`, with the run in
  `SlowFailureRefetched`). Both the fetch timeout
  and the lifetime of an unreachable issuer are 5 seconds by default.
- The attempt window bounds fetches per window when each is dated by the latest reading so far
  (`AttemptsInWindow`), and by its own reading when readings reach the lock in order. When a
  reading can reach the lock up to some skew behind another, the limit holds for intervals shorter
  than the window by exactly that skew (`SkewedBoundIff`). In a run whose checks follow their
  readings within a delay, the same length bounds the fetches by when they started
  (`FetchStartBound`).
- The sorted set answers like a full log unless a key expired although the request's reading is
  less than a window past an accepted one (`ExpiryHarmlessIff`). The reading is taken before the
  script runs; when the script can run up to some delay later, the limit holds for intervals
  shorter than the window by exactly that delay (`DelayBoundIff`).
- More changed signals never lower a weight-mode decision, for non-negative weights and a non-empty
  set, exactly for the settings of `Orderly` (`MonotoneIffOrderly`): one change already counts as
  many, or DEFAULT_RISK_LEVEL is at most 3 (at most 4 if two changes count as many and always score
  4) and, when sums can fall below, into and above its band, at least 1. Levels 1, 2 and 3 always
  are orderly.
- The schema admits negative weights. One more change is safe in weight mode exactly when its weight
  is not negative, or two changes already count as many, or the weight alone counts as Risk 3
  (`AddingIsSafeIff`, `NegativeWeightLowers`); in log-odds mode exactly when it is not negative
  (`LogOdds.AddingIsSafeIff`), and in a given context it lowers the level exactly when its swing
  takes the odds under a threshold (`LevelLowersIff`).
- A clean login can score above one with a change (`CleanCanScoreHigher`), on an allow list too.
  `CleanIsSafestIff` says exactly when it cannot, from the settings, the last level, the idle time,
  the lists and the familiarity.
- A process's status goes down exactly when an error closes, through the pointer, a process that
  ended in a login; over a run statuses only climb exactly when no event does that
  (`StepClimbsIff`, `StatusesClimbIff`). No event that could come next does it exactly when no
  pointer names a login of its realm, and a decision keeps that exactly when its id names none
  (`NextEventClimbsIff`, `DecisionKeepsIff`).
- A decision whose id is used is refused, but only after it has set the pointer; the route deletes
  the pointer once the mutex is released (src/api/decision_route.py:52-73). If no outcome of the
  user falls into that window, statuses climb whatever ids decisions carry, replays included
  (`ClearedRunClimbs`). If an error does, it undoes the login of a replayed decision
  (`ReplayUndoesLogin`); after the clean-up it does not (`ClearedReplayKeepsLogin`).
- Whether or not the route cleans up, open pointers stay in order throughout a run exactly when
  every decision in it is safe (`PointersOpenIff`): its id names no finished or foreign row and
  creates no row another user's pointer waits for, as a fresh id does not (`FreshIsSafe`). Then
  statuses climb as well (`StatusOnlyClimbs`).
- The settings read and the decision agree exactly when no enabled entry is overwritten by a later
  different one of its name (`ReadersAgreeIff`), and every accepted settings write has that form
  (`WrittenReadsAsScored`).
- A settings write that fails its size check, as every list with a duplicate or unknown name does
  (`SizeCheckMeansPermutation`), has already dropped the absent groups: the contract of
  `UpdateRealmParams` gives that for every answer but the wrong-realm one.

## Model

| member | source | states |
|---|---|---|
| DiscoveryCache.FailureCache.Prune | src/utils/auth/token_verifier.py:184-197 | a prune leaves all unexpired entries, or the newest up to the cap, and drops the unreachable flags of what it removes |
| DiscoveryCache.FailureCache.DropExpired | src/utils/auth/token_verifier.py:185-188 | exactly the entries older than their own lifetime go, with their flags |
| DiscoveryCache.FailureCache.DropOverflow | src/utils/auth/token_verifier.py:192-197 | over the cap, exactly the cap stays and nothing dropped is newer than anything kept |
| DiscoveryCache.OldestFirst | src/utils/auth/token_verifier.py:194 | the issuers, each once, by failure time |
| DiscoveryCache.PruneBounds | src/utils/auth/token_verifier.py:184-197 | after a prune: at most the cap, nothing expired, flags only on kept entries, times and lifetimes unchanged, and nothing unexpired dropped but for the cap, the oldest first |
| DiscoveryCache.AttemptWindow.Check | src/utils/auth/token_verifier.py:200-206 | pops stale heads, refuses at the limit without recording, else records the reading |
| DiscoveryCache.AttemptKeepsWindow | src/utils/auth/token_verifier.py:200-206 | the deque stays a suffix of all admitted readings, within the limit, and what fell off is a window behind |
| DiscoveryCache.AttemptsSpaced | src/utils/auth/token_verifier.py:200-206 | whatever the order of readings, an attempt and the one max-attempts before it are more than a window apart, dated by the latest reading so far |
| DiscoveryCache.AttemptsInWindow | src/utils/auth/token_verifier.py:200-206 | so at most max-attempts fall in any closed window |
| DiscoveryCache.OrderedLatest | src/utils/auth/token_verifier.py:217 | readings in order are dated by themselves |
| DiscoveryCache.OrderedLikeFullLog | src/utils/auth/token_verifier.py:200-206 | readings in order are counted as a log of every admitted attempt would count them |
| DiscoveryCache.SkewedBound | src/utils/auth/token_verifier.py:217 | readings out of order by at most a skew: every closed interval a skew shorter than the window holds at most max-attempts of them |
| DiscoveryCache.SkewedBoundIff | src/utils/auth/token_verifier.py:200-217 | and the limit holds for no longer interval; with a limit of one it holds for the whole window |
| DiscoveryFlight.Discovery.Enter | src/utils/auth/token_verifier.py:219-240 | one region under the lock: prune, answer from the cache, claim, refuse or park |
| DiscoveryFlight.Discovery.Record | src/utils/auth/token_verifier.py:271-276 | the failure is recorded at the leader's reading and flagged by its kind |
| DiscoveryFlight.Discovery.Pop | src/utils/auth/token_verifier.py:289-290 | the issuer leaves the in-flight map and nothing else changes |
| DiscoveryFlight.Discovery.Unpark | src/utils/auth/token_verifier.py:250-252 | the waiter counter goes down by one and nothing else changes |
| DiscoveryFlight.Discovery.SpendAttempt | src/utils/auth/token_verifier.py:200-206 | the attempt window decides on the leader's reading |
| DiscoveryFlight.ClaimsKept | src/utils/auth/token_verifier.py:228-232 | every step keeps: in-flight entries and calls between claim and pop match one to one |
| DiscoveryFlight.WaitersKept | src/utils/auth/token_verifier.py:233-252 | every step keeps: the counter is the number of parked calls, within its bound |
| DiscoveryFlight.FollowersKept | src/utils/auth/token_verifier.py:248-257 | every step keeps: a follower's flight belongs to a leader of its issuer, and a finished wait saw that leader return |
| DiscoveryFlight.CacheKept | src/utils/auth/token_verifier.py:184-197 | every step keeps: an unevicted failure within its lifetime is in the cache with that time and lifetime |
| DiscoveryFlight.AttemptsKept | src/utils/auth/token_verifier.py:221-232 | every step keeps: no call attempts a fetch under a standing failure |
| DiscoveryFlight.RunInv | src/utils/auth/token_verifier.py:209-291 | all of these hold in every state of every interleaving |
| DiscoveryFlight.SingleFlight | src/utils/auth/token_verifier.py:209-291 | at most one leader per issuer between claim and pop, owning the in-flight entry; waiters counted exactly, 0 to the bound |
| DiscoveryFlight.QuietWhenReturned | src/utils/auth/token_verifier.py:288-291 | once all calls returned, nothing is in flight and nobody is counted |
| DiscoveryFlight.FollowersShare | src/utils/auth/token_verifier.py:248-257 | a woken call returns its leader's outcome exactly when the fetched document did not crash the leader; otherwise, and on a timeout, the 503 |
| DiscoveryFlight.CrashedIffNoObject | src/utils/auth/token_verifier.py:278-291 | a leader crashes exactly when the run has it fetch JSON that is no object |
| DiscoveryFlight.LeaderAnswers | src/utils/auth/token_verifier.py:259-291 | in every run a leader returns a URI exactly if it fetched that URI in a document of its own issuer, the 403 exactly for a document of another issuer, crashes exactly on JSON that is no object, and gives a 503 in every other case |
| DiscoveryFlight.AnswerHasSource | src/utils/auth/token_verifier.py:209-291 | whoever returns a URI, follower or leader, got it from such a document fetched by a leader of its issuer; a 403 likewise; every other error is a 503 |
| DiscoveryFlight.TurnedAwayAnswer | src/utils/auth/token_verifier.py:221-240 | a call that neither led nor followed got a 503 |
| DiscoveryFlight.NoRefetchWithinTtl | src/utils/auth/token_verifier.py:219-240 | no fetch starts or runs for an issuer until its last recorded failure outlived its lifetime, unless capacity evicted it |
| DiscoveryFlight.SuppressedWithinTtl | src/utils/auth/token_verifier.py:221-227 | a standing failure answers every call; a lapsed one answers no call that read the clock after it |
| DiscoveryFlight.RememberedFailed | src/utils/auth/token_verifier.py:265-276 | in every run an issuer is remembered only after a fetch for it failed, not after a rate-limit refusal or an unusable document |
| DiscoveryFlight.SlowFailureForgotten | src/utils/auth/token_verifier.py:217-272 | a fetch slower than the lifetime is never remembered against a later call |
| DiscoveryFlight.FetchesAreAdmitted | src/utils/auth/token_verifier.py:259-266 | in any run the fetches started are exactly the attempts the window admitted |
| DiscoveryFlight.CrashReachesFollower | src/utils/auth/token_verifier.py:248-291 | for every issuer and setting, a run in which the leader crashes and the follower that waited to the end gets the 503 |
| DiscoveryFlight.SlowFailureRefetched | src/utils/auth/token_verifier.py:217-276 | for every issuer and lifetime, a run in which a slow failure is recorded and the next call leads again |
| DiscoveryFlight.FetchWindowBound | src/utils/auth/token_verifier.py:134-135 | across all issuers and however old the readings, at most max-attempts fetches fall in any closed window, dated by the latest reading so far |
| DiscoveryFlight.StartsDated | src/utils/auth/token_verifier.py:217-260 | the latest reading never dates a fetch after its start, nor its own reading more than the delay before it |
| DiscoveryFlight.FetchStartBound | src/utils/auth/token_verifier.py:200-206 | when checks follow their readings within a delay, at most max-attempts fetches fall in any closed interval a delay shorter than the window, by their own readings and by when they started |
| LeaseMutex.LockKey.SetNx | src/utils/synchronization/dist_mutex.py:117-122 | acquires exactly when no live key exists, and then for one lease |
| LeaseMutex.LockKey.Get | src/utils/synchronization/dist_mutex.py:152 | the owner under a live key, or nothing |
| LeaseMutex.LockKey.Delete | src/utils/synchronization/dist_mutex.py:154 | removes whatever is there |
| LeaseMutex.LeasesKept | src/utils/synchronization/dist_mutex.py:111-166 | every step with a harmless DELETE keeps: a holder within its lease has its own entry under the key |
| LeaseMutex.ReleaseSafeIff | src/utils/synchronization/dist_mutex.py:152-154 | one DELETE keeps all holders' claims exactly when the key is not another holder's live one |
| LeaseMutex.LeasesOwnedIff | src/utils/synchronization/dist_mutex.py:111-166 | over any run, all holders keep their claims exactly when every DELETE in it is harmless |
| LeaseMutex.Exclusion | src/utils/synchronization/dist_mutex.py:111-166 | as long as DELETEs are harmless, late or not, at most one client is inside within its unexpired lease |
| LeaseMutex.DeletesOwnKey | src/utils/synchronization/dist_mutex.py:152-154 | ... and a DELETE that is on time removes only its own client's entry |
| LeaseMutex.DeletesOnlyIfFound | src/utils/synchronization/dist_mutex.py:152-154 | a DELETE is sent only by a client whose GET, earlier in the run, found its own value under a live key |
| LeaseMutex.ForeignKeyLeft | src/utils/synchronization/dist_mutex.py:152-154 | a client whose GET found no key, or a foreign value, leaves the key alone |
| LeaseMutex.AtomicReleasesExclude | src/utils/synchronization/dist_mutex.py:152-154 | in every run where each release follows its GET at once, all DELETEs are harmless and clients exclude each other, however long their work took |
| LeaseMutex.PromptIsHarmless | src/utils/synchronization/dist_mutex.py:152-154 | when no DELETE is late, all are harmless |
| LeaseMutex.PromptExclusion | src/utils/synchronization/dist_mutex.py:111-166 | so without late DELETEs clients exclude each other and delete only their own keys |
| LeaseMutex.HoldExcludesIff | src/utils/synchronization/dist_mutex.py:111-166 | clients whose DELETEs follow their SETs within some time exclude each other in every run exactly when that time is shorter than the lease |
| LeaseMutex.LateDeleteBreaksExclusion | src/utils/synchronization/dist_mutex.py:152-154 | for every lease, a run with one late DELETE and two clients inside within their leases |
| LeaseMutex.LateDeleteSpoilsPromptClient | src/utils/synchronization/dist_mutex.py:152-154 | for every lease, a run where a client with GET and DELETE inside its lease removes another client's key |
| LeaseMutex.TimeoutMeansOvertaken | src/utils/synchronization/dist_mutex.py:133-141 | with a budget of a lease plus the answer's delay, the key that stopped a timed-out waiter was acquired, by a SET of the run, after the waiter arrived |
| LeaseMutex.SlowAnswerTimesOut | src/utils/synchronization/global_lock_control.py:25-36 | for every smaller budget, a run in which a waiter times out although nobody acquired after it arrived |
| LeaseMutex.TimeoutTellsIff | src/utils/synchronization/dist_mutex.py:111-143 | over all runs with answers at most that slow, timeouts mean an acquisition after arrival exactly when the budget covers a lease and the delay |
| LeaseMutex.AcquireLoop | src/utils/synchronization/dist_mutex.py:111-143 | terminates within a stated number of attempts, at the first free key or the first check over the budget |
| LeaseMutex.CheckNoConfigLock | src/utils/synchronization/global_lock_control.py:60-78 | terminates within a stated number of reads, at the first absent key or the first check at the budget |
| LeaseMutex.ReadTimeoutMeansOvertaken | src/utils/synchronization/global_lock_control.py:72-76 | with such a budget, the key a config read gave up on was acquired, by a SET of the run, after the read began |
| LeaseMutex.SlowAnswerFailsRead | src/utils/synchronization/global_lock_control.py:45-76 | for every smaller budget, a run in which a read gives up although nobody acquired after it began |
| LeaseMutex.ReadTellsIff | src/utils/synchronization/global_lock_control.py:60-78 | over all runs with answers at most that slow, reads that give up mean an acquisition after they began exactly when the budget covers a lease and the delay |
| AuthProcesses.Store.Decide | src/service/decision.py:192-206 | the pointer is replaced, and a scored decision with an unused id inserts its pre-auth row |
| AuthProcesses.Store.Vanish | src/service/decision.py:204-206 | the pointer expires or is cleared and nothing else changes |
| AuthProcesses.Store.ProcessEvent | src/service/auth_event.py:58-106 | one webhook event: link, insert, settle by id or by pointer, or raise |
| AuthProcesses.Store.OwnProcess | src/service/auth_event.py:140-163 | the named decision, only if it is this realm's and this user's |
| AuthProcesses.Store.CreateEvent | src/service/auth_event.py:101 | the insert is refused on a malformed or used id, or a link to no row |
| AuthProcesses.EventKeepsPointers | src/service/auth_event.py:103-106 | an event keeps open pointers on pre-auth rows of their own user, and lowers no status |
| AuthProcesses.StatusOnlyClimbs | src/service/auth_event.py:176-205 | over any run of safe decisions, retries included, with or without clean-ups, of expiries and of events, status only climbs pre-auth, LOGIN_ERROR, LOGIN |
| AuthProcesses.StepClimbsIff | src/service/auth_event.py:176-205 | from any state, a step lowers a status exactly if it is an error that closes a login through the pointer |
| AuthProcesses.StatusesClimbIff | src/service/auth_event.py:58-106 | over any run whatever, statuses only climb exactly when none of its events is such an error |
| AuthProcesses.NextEventClimbsIff | src/service/auth_event.py:188-205 | no possible next event lowers a status exactly when no pointer names a login of its realm |
| AuthProcesses.DecisionKeepsIff | src/service/decision.py:192-206 | a decision keeps it so exactly when its id names no login of its realm |
| AuthProcesses.ClearedRunClimbs | src/api/decision_route.py:52-73 | whatever ids decisions carry: if no outcome of a user falls between a refused decision and its clean-up, statuses climb and every other pointer names a pre-auth row of its own user |
| AuthProcesses.PointersOpenIff | src/service/decision.py:192-206 | over any run, open pointers name pre-auth rows of their own realm and user exactly when every decision in it is safe |
| AuthProcesses.DecideSafeIff | src/service/decision.py:192-206 | a decision keeps the pointers in order exactly when its id names no finished or foreign row and no pending pointer |
| AuthProcesses.OwnOutcome | src/service/auth_event.py:176-186 | an outcome naming its decision is stored, linked to it, settles only that row, LOGIN winning, and clears the pointer exactly if it names that row |
| AuthProcesses.UnnamedOutcome | src/service/auth_event.py:188-205 | any other accepted outcome is stored, linked to the open process, closes it, pre-auth and of that user, and clears the pointer |
| AuthProcesses.OtherEvent | src/service/auth_event.py:73-101 | other events settle nothing and are linked to the open process |
| AuthProcesses.EventsKept | src/service/auth_event.py:58-106 | a refused event changes no row or pointer, a stored event is never overwritten, and an accepted one is stored as it came |
| AuthProcesses.RunLinksExist | src/service/auth_event.py:73-99 | in every run each stored link names a stored process |
| AuthProcesses.RealmsApart | src/service/auth_event.py:140-205 | in any state one realm's event changes no row or pointer of another |
| AuthProcesses.UsersApart | src/service/decision.py:192-206 | no step changes the pointer of a user it is not about, and what a decision or an expiry changes is just its own |
| AuthProcesses.ReplayUndoesLogin | src/service/auth_event.py:188-205 | an error that arrives after a replayed decision was refused and before its clean-up turns a LOGIN into LOGIN_ERROR |
| AuthProcesses.ClearedReplayKeepsLogin | src/api/decision_route.py:69-73 | the same error after the clean-up leaves the LOGIN |
| SlidingWindow.LimiterKey.Run | src/utils/middleware/rate_limit.py:28-43 | one run of the script: prune, count, refuse or add and expire |
| SlidingWindow.StepRefines | src/utils/middleware/rate_limit.py:35-42 | a timely request is answered as the complete log would answer, and the set keeps tracking that log |
| SlidingWindow.AnswersLikeFullLog | src/utils/middleware/rate_limit.py:28-43 | so is every request of a timely run |
| SlidingWindow.WindowBound | src/utils/middleware/rate_limit.py:24-27 | every half-open interval of a window's length, at any time, holds at most the limit of accepted requests |
| SlidingWindow.KeyExpires | src/utils/middleware/rate_limit.py:40-41 | a non-empty set always has an expiry, a window after one of its requests |
| SlidingWindow.PromptReadingsAreTimely | src/utils/middleware/rate_limit.py:80-96 | ordered readings taken when the script runs make every run timely |
| SlidingWindow.ExpiryHarmlessIff | src/utils/middleware/rate_limit.py:41 | on an expired key the answer matches the log for every limit exactly when the reading is a window past all accepted ones |
| SlidingWindow.DelayedBound | src/utils/middleware/rate_limit.py:80-96 | scripts that run at most a delay after the reading: every half-open interval a delay shorter than the window holds at most the limit |
| SlidingWindow.DelayBoundIff | src/utils/middleware/rate_limit.py:28-43 | and the limit holds for no longer interval |
| IpRanges.Sorted | src/utils/info_provider/ip_intel/ranges.py:28 | the same ranges in pair order |
| IpRanges.Merge | src/utils/info_provider/ip_intel/ranges.py:27-34 | merging gives disjoint, non-touching ascending ranges with the same cover |
| IpRanges.VersionTable.constructor | src/utils/info_provider/ip_intel/ranges.py:26-36 | a table built from a list is canonical and covers exactly the list's integers |
| IpRanges.BisectRight | src/utils/info_provider/ip_intel/ranges.py:42 | the insertion point after all elements not above the value |
| IpRanges.VersionTable.Contains | src/utils/info_provider/ip_intel/ranges.py:41-43 | bisection answers what a scan of all ranges would |
| IpRanges.CanonicalUnique | src/utils/info_provider/ip_intel/ranges.py:26-36 | a set of integers has one canonical table |
| IpRanges.CanonicalShortest | src/utils/info_provider/ip_intel/ranges.py:26-36 | no interval list covering the set is shorter |
| IpRanges.TableIsCanonicalForm | src/utils/info_provider/ip_intel/ranges.py:21-43 | two lists build the same table exactly when they cover the same integers, and no longer than either list |
| IpRanges.IpRangeIndex.FromLines | src/utils/info_provider/ip_intel/ranges.py:54-84 | each family's table covers exactly its parsed lines, and exists exactly when there are some |
| IpRanges.IpRangeIndex.CoversVersion | src/utils/info_provider/ip_intel/ranges.py:86-91 | whether a family has any data |
| IpRanges.IpRangeIndex.Contains | src/utils/info_provider/ip_intel/ranges.py:93-97 | membership in the family's own table, false without one |
| Keyset.OrderByOrdered | src/data/repository/monitoring.py:179-184 | ordering by (event_time, id) is strict and loses no row |
| Keyset.AscendingMeans | src/core/sql_dialect.py:131-139 | the walking direction is by (event_time, id), earliest first or latest first as asked |
| Keyset.NormalizeLimit | src/data/repository/monitoring.py:30-37 | a requested size from 1 to 500 is the page size, a larger one is capped at 500, none or a non-positive one gives 100 |
| Keyset.CursorRoundTrip | src/data/repository/monitoring.py:49-67 | every ordering key survives its cursor text |
| Keyset.DecodesIff | src/data/repository/monitoring.py:53-67 | a cursor text names a row exactly if it is a date and a UUID around its first separator |
| Keyset.PageAnswers | src/data/repository/monitoring.py:449-486 | a page fails exactly for a cursor that names no row; else it has at most the requested number of rows, all filtered, and the total when asked for or, by default, on the first page |
| Keyset.MatchingSuffix | src/core/sql_dialect.py:131-139 | the rows past a row's key are exactly what follows it in the listing, in both directions |
| Keyset.PageIsSlice | src/data/repository/monitoring.py:464-486 | over a fixed table page k is the k-th slice, with a next cursor exactly when it is full |
| Keyset.FixedWalk | src/data/repository/monitoring.py:449-486 | a completed walk returns exactly the filtered rows, in order, in floor(n / limit) + 1 pages for a requested limit up to 500, with their number as first total |
| Keyset.FixedWalkEnds | src/data/repository/monitoring.py:464-486 | a walk over a fixed table has at most floor(n / limit) + 1 pages and is complete exactly at that number |
| Keyset.GrowingOrdered | src/data/repository/monitoring.py:156-184 | while rows are inserted, the rows returned stay in strict order, so none comes twice |
| Keyset.NoneSkipped | src/data/repository/monitoring.py:167-177 | a row present when some page is read, past the cursor, is returned or still ahead |
| Keyset.GrowingWalk | src/data/repository/monitoring.py:449-486 | a completed walk over a growing table repeats nothing and skips nothing that was there at its start |
| WeightScoring.DecisionService.PartialDecisions | src/service/decision.py:1158-1182 | the band of the summed weights |
| WeightScoring.DecisionService.HazardActivation | src/service/decision.py:1003-1068 | the level and the floor the hazard rules give |
| WeightScoring.DecisionService.EvaluateRisk | src/service/decision.py:536-565 | hazard or decay, then familiarity, then the lists |
| WeightScoring.DecisionService.ProcessDecision | src/service/decision.py:253-289 | the history gate before all of it |
| WeightScoring.DecisionReachesIff | src/service/decision.py:253-289 | for each level, exactly which inputs reach it: history, lists, number and weights of the changes, last decisions, failures, idle time and both credibilities |
| WeightScoring.FamiliarityPoints | src/service/decision.py:554-560 | familiarity is below 0.3, 0.6 and 0.85 exactly when 11 parts device and 9 parts network location are below 6, 12 and 17 |
| WeightScoring.WeighMonotone | src/service/decision.py:1163-1166 | with non-negative weights a larger set never weighs less |
| WeightScoring.HazardMonotone | src/service/decision.py:1003-1068 | the hazard level and floor respect inclusion, relaxation and escalation included |
| WeightScoring.MoreChangesNeverSafer | src/service/decision.py:416-565 | end to end, a larger non-empty changed set never scores lower in the same context |
| WeightScoring.MonotoneIffOrderly | src/service/decision.py:1003-1182 | for every setting, that holds over all contexts exactly when the setting is orderly: a condition on the thresholds, the bands and the middle level |
| WeightScoring.MonotoneIffSane | src/service/decision.py:1168-1174 | with ordered positive bands and at least three changes counting as many, that is: the middle level is 1, 2 or 3 |
| WeightScoring.NegativeWeightLowers | src/service/decision.py:1163-1166 | for every negative weight below Risk 3, a login whose extra change takes it below Risk 3 |
| WeightScoring.AddingIsSafeIff | src/service/decision.py:1003-1182 | over all contexts, one more change of a given weight never lowers the decision exactly when the weight is not negative, or two changes count as many, or the weight alone counts as Risk 3 |
| WeightScoring.CleanCanScoreHigher | src/service/decision.py:536-552 | after a Risk 4, a clean login scores above one with a light change |
| WeightScoring.CleanIsSafestIff | src/service/decision.py:536-565 | exactly in which contexts, allow-list matches included, a clean login scores no higher than any login with changes |
| WeightScoring.FamiliarNeverRiskier | src/service/decision.py:894-980 | raising either credibility never raises the decision |
| WeightScoring.DecisionInRange | src/service/decision.py:169-183 | a decision is from 1 to 4 if the last one is at most 4 |
| WeightScoring.RefusedIff | src/service/decision.py:416-565 | exactly which contexts and changes score Risk 4 |
| WeightScoring.FloorHolds | src/service/decision.py:1017-1029 | familiarity never undoes the many-changes level; only an allow-list match does |
| WeightScoring.CleanLoginsDecay | src/service/decision.py:1184-1238 | k clean logins, each familiar or on an allow list, take at least k levels off, never below 1, for any decay setting |
| WeightScoring.CleanRaisesIff | src/service/decision.py:910-923 | a clean login raises the level exactly when the context is unfamiliar, on no allow list, and the level was below 3 |
| LogOdds.Score | src/service/risk_evaluation/scoring/log_odds.py:160-209 | the contributions are exactly the evidence of each signal and the credibility; evidence, probability and level follow |
| LogOdds.Sum | src/service/risk_evaluation/scoring/log_odds.py:189 | the sum over the entries, in any order |
| LogOdds.LogisticFormula | src/service/risk_evaluation/scoring/log_odds.py:211-217 | both branches equal 1 / (1 + exp(-x)), strictly between 0 and 1 |
| LogOdds.LogisticMonotone | src/service/risk_evaluation/scoring/log_odds.py:211-217 | more log-odds, no less probability |
| LogOdds.MoreEvidenceNeverSafer | src/service/risk_evaluation/scoring/log_odds.py:160-227 | more changed signals and less credibility never lower the level, nor the decision after the lists |
| LogOdds.OneMoreChange | src/service/risk_evaluation/scoring/log_odds.py:164-179 | the exact swing of one more changed signal, in numbers, and that it is negative exactly for a counted signal of negative weight |
| LogOdds.BareEvidence | src/service/risk_evaluation/scoring/log_odds.py:181-189 | without signals the evidence is 2.5 less 2.75 per device and 2.25 per network credibility |
| LogOdds.FamiliarityMoves | src/service/risk_evaluation/scoring/log_odds.py:181-187 | with any signals, the credibilities move the evidence by just that |
| LogOdds.TrustMoves | src/service/risk_evaluation/scoring/log_odds.py:164-173 | a counted identity signal that stayed put takes a sixth per point of weight off, up to a half |
| LogOdds.LevelByOdds | src/service/risk_evaluation/scoring/log_odds.py:219-227 | the level counts the thresholds that the odds of evidence and bias have reached |
| LogOdds.LevelLowersIff | src/service/risk_evaluation/scoring/log_odds.py:160-227 | in a given context one more change lowers the level exactly when it counts, its weight is negative and its swing takes the odds under a threshold |
| LogOdds.AddingIsSafeIff | src/service/risk_evaluation/scoring/log_odds.py:160-227 | over all settings and contexts, one more change of a given weight never lowers the level exactly when the weight is not negative |
| DecisionHistory.StoredInRange | src/service/decision.py:253-414 | over any history of stored decisions, each behind the history gate and scored in either mode, every one is from 1 to 4 |
| DecisionHistory.ListsOverride | src/service/decision.py:416-472 | in either mode a deny-list match gives 4, both lists 3, an allow-list match at most 2, and no match leaves a log-odds level alone |
| ParamsStore.ConfigStore.FindActive | src/data/repository/decision_params_config.py:157-168 | an active row of the group, or none exactly when there is none |
| ParamsStore.ConfigStore.FindVersion | src/data/repository/decision_params_config.py:240-246 | the row of a hash, or none exactly when there is none |
| ParamsStore.ConfigStore.Activate | src/data/repository/decision_params_config.py:239-305 | row by row: others of the group and phantom rows go inactive, the version is reused or inserted with the scoring in force |
| ParamsStore.ConfigStore.Deactivate | src/data/repository/decision_params_config.py:195-211 | exactly the group's rows go inactive |
| ParamsStore.ConfigStore.UpdateScoring | src/data/repository/decision_params_config.py:325-344 | the active row's scoring is replaced, or nothing changes when there is none |
| ParamsStore.ActivateConsistent | src/data/repository/decision_params_config.py:221-224 | an activation leaves exactly that row active in its group and one row per version |
| ParamsStore.ActivatedMeans | src/data/repository/decision_params_config.py:239-305 | exactly which rows are active after an activation, phantom ones among those that are not, and that rows keep everything else but the scoring carried forward |
| ParamsStore.DeactivatedMeans | src/data/repository/decision_params_config.py:195-211 | a deactivation empties exactly its group and changes nothing else |
| ParamsStore.ScoringSetMeans | src/data/repository/decision_params_config.py:325-344 | a scoring write changes exactly the scoring in force of its group, if it has an active row |
| ParamsStore.RunConsistent | src/data/repository/decision_params_config.py:195-344 | after any calls: at most one active row per group, one row per group and hash |
| ParamsStore.RunKeepsScoring | src/data/repository/decision_params_config.py:248-263 | no settings call changes a realm's default scoring in force or loses its active row |
| ParamsStore.SeededScoringLands | src/service/params_config.py:148-162 | after seeding, the retried scoring write lands whatever settings calls came in between |
| ParamsService.SizeCheckMeansPermutation | src/service/params_config.py:70-106 | a default-group list passes the size check exactly when its names are the shipped ones, each once |
| ParamsService.SubmittedMeans | src/service/params_config.py:44-52 | a submission is read entry by entry in order, an unset group counting as the default one |
| ParamsService.StoredMeans | src/service/params_config.py:78-91 | what is stored begins with what was submitted; only the default group is completed, with exactly the shipped entries of other names |
| ParamsService.ParamsConfigService.GroupUp | src/service/params_config.py:44-52 | groups a submission in order, an unset group counting as the default one |
| ParamsService.ParamsConfigService.BackFill | src/service/params_config.py:78-91 | appends exactly the shipped defaults not named |
| ParamsService.ParamsConfigService.DropAbsent | src/service/params_config.py:57-68 | no override group absent from the submission stays active |
| ParamsService.ParamsConfigService.StoreGroup | src/service/params_config.py:70-121 | completes, checks and activates one group, disturbing no other |
| ParamsService.ParamsConfigService.UpdateRealmParams | src/service/params_config.py:30-124 | which error, what each group holds afterwards, that other realms and every default scoring stay as they were, and that a write that fails or has no default entry leaves the default row as it was |
| ParamsService.ParamsConfigService.UpdateScoringConfig | src/service/params_config.py:140-173 | always lands on the group's active row, seeding the defaults when there is none |
| ParamsReader.SeedMissingDefaults | src/data/factory/decision_params.py:29-53 | saved entries first, then the shipped ones missing |
| ParamsReader.FillEffectiveInactiveDays | src/data/factory/decision_params.py:55-79 | only the dormancy entry changes, to the threshold the engine enforces |
| ParamsReader.GetAllParametersByRealm | src/data/factory/decision_params.py:81-128 | what the settings read lists, row by row |
| ParamsReader.SettingsReadLists | src/data/factory/decision_params.py:81-128 | the settings read lists exactly the override entries as stored and, for a default row, its entries and the shipped signals it lacks, each with the threshold in force |
| ParamsReader.SettingsReadComplete | src/data/factory/decision_params.py:113-119 | every shipped signal is listed whenever a default row, or no row, is active |
| ParamsReader.SettingsReadAgrees | src/data/factory/decision_params.py:100-290 | with one active default row, the enabled entries listed are exactly those scored, if and only if none is shadowed |
| ParamsReader.GetActiveParams | src/data/factory/decision_params.py:182-290 | the enabled signals and their resolved entries, exactly |
| ParamsReader.GetActiveParamsForRealmGroup | src/data/factory/decision_params.py:130-249 | which rows are overlaid, which id is reported, and that scoring is the base row's |
| ParamsReader.DecidedMeans | src/data/factory/decision_params.py:141-249 | the scoring is the one in force for the default group, the id that of the group's own row if it has one |
| ParamsReader.ScoredIffEnabled | src/data/factory/decision_params.py:184-290 | a signal is scored exactly if the list that decides it, override, else base, else shipped, has it enabled |
| ParamsReader.ReadersAgreeIff | src/data/factory/decision_params.py:100-290 | for the default group the two readers agree exactly when no enabled entry is shadowed |
| ParamsReader.WrittenReadsAsScored | src/service/params_config.py:78-121 | every default-group list a write accepted reads back as it is scored |
| ParamsReader.OverridesResolve | src/data/factory/decision_params.py:141-236 | each signal resolves to override, else base, else shipped, duplicate names included, under the realm's effective threshold |
| ParamsReader.ShadowedDuplicateDisagrees | src/data/factory/decision_params.py:184-186 | a duplicate the page shows enabled and the decision does not score |
| HealthLimiter.HealthRoute.Begin | src/api/health_route.py:88-103 | shares, refuses or starts, changing only this dependency's lists |
| HealthLimiter.StillRunning | src/api/health_route.py:91-95 | the unfinished checks and how many are not yet stuck |
| HealthLimiter.ChecksTrackedAndSpaced | src/api/health_route.py:88-103 | no unfinished check is dropped, and starts are at least the interval apart |
| HealthLimiter.RunningBound | src/api/health_route.py:15-20 | at every moment at most three checks are unfinished and younger than the stuck age |
| HealthLimiter.AtMostThreeRun | src/api/health_route.py:15-20 | the same, counted over all checks ever started: unfinished and begun less than 30 seconds ago |
| HealthLimiter.CallAnswers | src/api/health_route.py:88-110 | a call shares the last started check exactly within a second of its start, else is refused exactly when three are running, else starts its own |
| HealthLimiter.StartsByHistory | src/api/health_route.py:88-103 | a call starts a check exactly when the full history of checks allows it |

## Left out

- HTTP routing, request schemas, SQL compilation, migrations, logging and explanation text.
- Token and key cryptography, issuer validation and URL parsing; a discovery fetch is an arbitrary outcome. The per-issuer client cache of `_jwks_client` and the signing-key cache are not modelled.
- How a follower's wait measures its timeout: a wait may give up at any moment, so the results cover every timeout.
- The order of entries with equal failure times: a prune may drop any of them first.
- The signal detectors (travel, clustering, intervals, screens) and the computation of credibility: the set of changed signals and the credibilities are inputs. The detector's list names no signal twice, so a set loses nothing.
- Floating point: scores, times and probabilities are reals, and the exponential is any positive, monotone function with exp(x) * exp(-x) = 1 (strictly increasing where AddingIsSafeIff needs a failing input).
- Whole-second rounding of the lease by the Redis client: the lease is the one Redis applies.
- Redis and database failures, except an insert refused by its keys and a client that dies holding the mutex.
- The daily, weekly and monthly event counters in Redis, and the count of failed attempts read from them, which is an input to scoring.
- Event-loop interleavings inside one user's decision or event: the per-user mutex serialises them.
- Text of CIDR lines: a line is ignored or is one network with its first and last address.
- Changes and deletions of monitoring rows during a walk: a walked table stays or grows.
- The other monitoring aggregates, joins and filters; a filter is an arbitrary predicate on rows.
- Rows whose stored parameters are missing or not a list, and schema validation of stored entries.
- Hash collisions: the settings writes assume the hash of a parameter list is injective.
- The waiting half of a health probe, after it has a check to wait for.
