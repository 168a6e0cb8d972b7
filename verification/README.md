# Verification models of the investment backend and its client

These Dafny modules model the protocols and calculations of the backend that are
hardest to get right by reading: small protocols over a shared Redis with
expiring keys and a moving clock, transformations of database tables, and
arithmetic over lists of any length. Check them with
`dafny verify dfyconfig.toml`.

## What is modelled

Protocols are state machines. A `State` holds what Redis (and the client) holds,
an `Action` is one Redis command or one stretch of code between two awaits, `Run`
plays any sequence of actions, and the main theorems are about all of them. Where
the code is a method that changes things, a class with those fields does the same
and is proved equal to the machine or to a specification function.

* `Redis`, `Wrappers`, `Counting`: strings with TTL, sorted sets with an expiring
  key, and shared counting facts.
* `RateLimiter`, `LimiterLag`, `LimiterAcquire`, `LimiterRetries`: the sliding window
  shared by many callers, with commands interleaved and clocks lagging, with whole
  attempts, the `acquire` loop, and its retries.
* `RefreshTokens`, `PasswordChange`, `AuthService`, `ClientSession`: token rotation on
  the server, what a password change ends, the service methods, and the client's
  single-flight refresh against it.
* `ResetLimiter`: the fixed window in front of password resets.
* `Calendar`, `Scheduler`: market sessions with overrides, and the scheduler's
  plans, claims and whole runs of ticks.
* `IndicatorCache`, `IndicatorOverlap`: the six cached indicators of an instrument,
  with loads and write-backs that take no time.
* `IndicatorCommands`, `IndicatorMixing`, `IndicatorAges`, `IndicatorSplits`,
  `IndicatorClient`: the same cache with every GET and SET a step of its own: when
  full hits mix two calls, how old their readings are, when a split's invalidation
  takes effect, and the functions that run the commands.
* `DuplicateGuard`, `SafetyGuardian`: the duplicate-order window and the order of
  the pre-trade checks.
* `SyncLock`: the lock around a portfolio sync.
* `Upserting`, `PositionSync`, `OrderSync`, `SyncService`: a sync's effect on the
  tables.
* `SplitAdjust`, `SplitDetection`, `CorporateActions`: split adjustment of stored
  prices.
* `Concentration`, `Scores`: the Herfindahl index and the two blended scores.
* `Grouping`, `PortfolioIntelligence`, `Benchmarks`: grouped shares, and the two
  benchmark formulas.
* `FinBert`: batch scoring against pointwise scoring through a cache.
* `Synthesizer`: the recommendation from whatever engines are present.

Assumptions. All parties read one nondecreasing clock. A ZADD and the EXPIRE
after it are one step. Tokens are fresh values and hashes are injective; the
client's secure store does not fail. A market's local dates follow the clock, and
a session with the minute after it lies in its own local date. A scheduler claim
follows its tick by less than 48 hours less 59 seconds, which dispatching once needs
(`Scheduler.SentOnceIffPrompt`). Indicator readings are never NaN; in
`IndicatorCache` and `IndicatorOverlap` alone, the six GETs of a load and the six SETs
of a write-back are one instant. Amounts, prices, weights and scores are real
numbers; rounding to one or six decimals is any function to a nearest tenth or
millionth. Symbol resolution, rates, library calendars and the sentiment model are
parameters that do not change during a call. A violated unique constraint rolls the
whole sync back.

## What the proofs found

* The sliding limiter's bound max + N - 1 is about the window that ends now. In
  hindsight, and with two callers or more, it holds for stretches of a given length
  exactly when length and lag (of a check behind its caller's clock reading) fit the
  window together (`LimiterLag.StretchIffPrompt`), so for full windows exactly when
  nothing lags. Whatever the lag, max + 2N - 1 is the tight bound.
* A password change ends a login chain exactly when, at that moment, no login or
  refresh of the chain is about to read `pw_v` for a token
  (`PasswordChange.ChangeEndsChainIff`). With whole requests it always does.
* `technical.py:502-505` says stale and fresh indicators are never mixed. That holds
  exactly when no frame reaches 200 bars, or calls for one instrument do not overlap
  and no frame has 30 to 199 bars (`IndicatorMixing.NeverMixesIff`). A call that never
  finishes counts as overlapping the later ones. Were each write-back one instant,
  frames of 30 to 199 bars alone would matter (`IndicatorOverlap.OverlapMixesIff`).
* A split deletes the cached indicators before it commits
  (`corporate_actions.py:286-310`). Full hits of calls begun after the commit are free
  of earlier readings exactly when the commit finds no key live and no open call that
  may still set one (`IndicatorSplits.CommitEffectiveIff`), and at any later moment
  exactly when no live key holds an earlier reading and no call that read earlier
  prices may still set a key (`IndicatorSplits.SplitEffectiveIff`).
* A full bucket that is empty at the ZRANGE makes `acquire` try again at once
  (`rate_limiter.py:111-113`). Such retries are bounded by the time they take
  (`LimiterRetries.RetriesTakeTime`), but not by `max_wait_seconds`
  (`LimiterRetries.RetriesGoOn`).
* The reset limiter's 2 * max for one window's length is never reached; the exact
  bound is 2 * max - 1 (`ResetLimiter.PeakOfWindow`).
* The scheduler's documentation (`scheduler.py:18-23`) has the post-close batch
  follow the first tick on or after the close. The code plans it only during the
  60 seconds after the close, so a run without a tick in that minute sends none
  (`Scheduler.PostCloseExactlyOnce`).
* The duplicate window shrinks by as long as a call stalls between its clock and
  its ZADD: identical orders stay a given gap apart exactly when gap and stall fit the
  window together (`DuplicateGuard.SpacedIff`). The member is made from the text of the
  quantity, so 1 and 1.0 are different orders.
* A failed position fetch zeroes the connection's positions
  (`PositionSync.FailedFetchClosesAll`), and two response rows for one new
  instrument fail the sync (`PositionSync.FlushSucceedsIff`).
  `portfolio_sync.py:6-8` says that re-running a sync produces no duplicates: for
  orders the re-run succeeds exactly when every mapped order has a broker id, and
  otherwise the database rejects it (`OrderSync.RepeatSucceedsIff`). Both adapters
  fall back to an empty id (`alpaca.py:255`, `zerodha.py:434`).
* A split is adjusted for once if it is detected only while no row records it
  (`SplitDetection.EachSplitOnce`). The code does not look, and a second detection
  adjusts again, whether the first was applied (`SplitDetection.AppliedAdjustsAgain`)
  or not (`SplitDetection.RedetectedAdjustsTwice`).
* The two benchmark formulas part on stale benchmarks, missing rates and
  nonpositive rates (`Benchmarks.FormulasAgreeIff` says exactly when).
* An AI share would have to exceed 6/13 before it could turn a buy into a sell
  (`Synthesizer.FlipPossibleIff`); the cap is 0.30.

## Model

| member | source | states |
|---|---|---|
| RateLimiter.Configure | backend/app/brokers/rate_limiter.py:64-87 | which arguments are refused and with which error; otherwise window and budget in whole milliseconds rounded down, and the key's life the least whole number of seconds above two windows, at least two |
| RateLimiter.StepKeepsInv | backend/app/brokers/rate_limiter.py:89-106 | every single Redis command of every caller keeps: bucket size plus callers past the check at most max + N - 1, and no stamp of the current window is lost |
| RateLimiter.InterleavedBound | backend/app/brokers/rate_limiter.py:89-106 | over every interleaving of N callers, the bucket plus the callers past the check, and the admissions stamped in the window ending now, never exceed max + N - 1; neither trimming nor key expiry drops a stamp of that window |
| RateLimiter.HindsightBound | backend/app/brokers/rate_limiter.py:89-106 | whatever the lags, looking back over the finished history no window holds more than max + 2N - 1 stamps |
| LimiterLag.PromptBound | backend/app/brokers/rate_limiter.py:89-106 | if no check lags its caller's clock reading by more than lag, then in hindsight no stretch of window - lag holds more than max + N - 1 stamps |
| LimiterLag.LagBreaksStretch | backend/app/brokers/rate_limiter.py:89-106 | for every configuration and any two or more callers, a stretch that with the lag exceeds the window can hold max + N stamps |
| LimiterLag.StretchIffPrompt | backend/app/brokers/rate_limiter.py:89-106 | two or more callers keep max + N - 1 in every stretch of a given length of every run, in hindsight, exactly when length and lag together fit the window |
| LimiterLag.FullWindowIffPrompt | backend/app/brokers/rate_limiter.py:89-106 | so they keep it in every full window exactly when no check lags its clock |
| LimiterLag.SingleCallerIff | backend/app/brokers/rate_limiter.py:87-106 | a single caller keeps max in every stretch of a given length of every run exactly when it is no longer than the window and, with the lag, no longer than the key lives |
| LimiterLag.HindsightBoundReached | backend/app/brokers/rate_limiter.py:89-106 | every configuration with any number of callers has a run that reaches max + 2N - 1 |
| LimiterAcquire.AttemptIsRun | backend/app/brokers/rate_limiter.py:89-106 | a whole attempt is four interleaved steps taken back to back |
| LimiterAcquire.AtomicBound | backend/app/brokers/rate_limiter.py:89-106 | with atomic attempts no window of any run, past or present, holds more than max admissions |
| LimiterAcquire.AtomicBoundInSeconds | backend/app/brokers/rate_limiter.py:64-106 | in the constructor's units: no stretch of window_seconds less a millisecond admits more than max_requests |
| LimiterAcquire.GlobalRateLimiter.TryOnce | backend/app/brokers/rate_limiter.py:95-113 | one pass of the loop equals the atomic attempt; the empty-ZRANGE retry cannot happen; a refusal reports the oldest stamp of a full bucket |
| LimiterAcquire.GlobalRateLimiter.Acquire | backend/app/brokers/rate_limiter.py:89-146 | with rivals that act in whole attempts, the loop ends; it sleeps at most max_wait in naps of at least 5 ms; it is a run of atomic attempts; admission leaves its own stamp in the bucket; refusal means that no member leaves the window within the budget; without competitors and with a budget of one window it is admitted after at most one nap |
| LimiterRetries.WatchKeepsInv | backend/app/brokers/rate_limiter.py:108-113 | with single commands interleaved: max admissions for every empty ZRANGE of a caller, and the bucket holds only admissions made since its last one |
| LimiterRetries.RetriesTakeTime | backend/app/brokers/rate_limiter.py:95-113 | over any run and any part of it, every empty ZRANGE of a caller but the first costs max new admissions, and those are bounded by the number of windows the part takes |
| LimiterRetries.RetriesGoOn | backend/app/brokers/rate_limiter.py:95-113 | otherwise the retries are unbounded: for every configuration and every r, one rival can make a caller retry r times in a row, without a sleep or a look at the budget, for r key lifetimes |
| RefreshTokens.RotationSafety | backend/app/services/auth.py:107-128 | over every interleaving of the Redis steps of logins, refreshes, logouts and password changes: a token is redeemed at most once and is dead afterwards, a login chain has at most one live token and none while a request holds it, and pw_v comparisons accept exactly the tokens with no increment since the read at their issue |
| RefreshTokens.VerdictIsSound | backend/app/services/auth.py:202-207 | a token's stored version equals the current one exactly when its user's counter was not incremented between the two reads |
| PasswordChange.ChangeEndsChainIff | backend/app/services/auth.py:107-238 | over every interleaving: a password change ends a login chain, whatever happens afterwards, exactly when at its INCR no login or refresh of the chain is about to read pw_v for a token |
| PasswordChange.EveryChainOwned | backend/app/services/auth.py:184-215 | every chain of every reachable state belongs to one user, so the condition above applies to all of them |
| PasswordChange.StepKeepsEnded | backend/app/services/auth.py:184-238 | once ended, a chain stays ended through every Redis step: what it still holds was read before the change, and every check refuses it |
| RefreshTokens.ChainOutlivesPasswordChange | backend/app/services/auth.py:184-215 | a witness for that condition, from any state: a password change between the check and the second read of pw_v leaves the chain alive under the new version |
| RefreshTokens.LoginServed | backend/app/services/auth.py:161-182 | a whole login starts a chain of its own with one live token under the current version and touches no other token |
| RefreshTokens.RefreshServed | backend/app/services/auth.py:184-215 | a whole refresh spends the presented token whatever the outcome and succeeds exactly for a live, version-current token of an active user, keeping its chain |
| RefreshTokens.NoOldTokenAfterPasswordChange | backend/app/services/auth.py:221-238 | with whole requests: no token issued before a password change is accepted after it, for any requests before, in between and afterwards |
| RefreshTokens.RotatesUntilChanged | backend/app/services/auth.py:161-238 | a login and two whole refreshes leave exactly the last token live; with a password change in between, none |
| AuthService.Service.IssueTokens | backend/app/services/auth.py:107-128 | a fresh token is stored under the user's version read at that moment |
| AuthService.Service.Register | backend/app/services/auth.py:132-159 | registration fails exactly for a known email; success starts a chain |
| AuthService.Service.Login | backend/app/services/auth.py:161-182 | succeeds exactly for an active user with the right password, and then serves the login request of the protocol |
| AuthService.Service.Refresh | backend/app/services/auth.py:184-215 | serves the refresh request; succeeds exactly for a live, version-current token of an active user, with a fresh token in its place; which of the three refusals is given, exactly; the presented token is gone in every case and others are untouched |
| AuthService.Service.Logout | backend/app/services/auth.py:217-219 | deletes exactly the presented token, present or not |
| AuthService.Service.ChangePassword | backend/app/services/auth.py:221-238 | changes the hash and raises the version exactly when the current password is right |
| AuthService.Service.ResetPassword | backend/app/services/auth.py:316-343 | a reset token is consumed used or refused; the password and version change exactly for an active owner |
| ResetLimiter.IntervalBound | backend/app/services/auth.py:242-264 | over every run: the counter never lacks a TTL, each window passes at most max, and a half-open interval of length L passes at most max * (ceil(L/W) + 1) |
| ResetLimiter.IntervalBoundReadings | backend/app/services/auth.py:242-264 | so 2 * max for L = W, and never more than max * (floor(L/W) + 2) |
| ResetLimiter.IntervalPeakIff | backend/app/services/auth.py:242-264 | the exact bound: over all runs and all intervals of length L, no more than b pass exactly when b is at least the peak, which is max for every window that can open inside and, unless those fill L exactly, max - 1 of one before |
| ResetLimiter.PeakReached | backend/app/services/auth.py:242-264 | for every configuration and length, a run and an interval that reach the peak |
| ResetLimiter.PeakOfWindow | backend/app/services/auth.py:242-264 | for L = W the peak is 2 * max - 1, so 2 * max is never reached |
| ResetLimiter.ExpireNx | backend/app/services/auth.py:255-258 | the transaction leaves a TTL on the key and does not touch the count |
| ResetLimiter.Counter.CheckRateLimit | backend/app/services/auth.py:242-264 | the method is the step of that machine and allows exactly what the step records as passed |
| ClientSession.SessionSafety | mobile/src/api/client.ts:80-130 | client and server over every interleaving after sign-in: one refresh at a time, every request replayed at most once, every queued handler called at most once, no token presented twice, and with no refresh in flight a non-null client token is the one live token of its chain |
| ClientSession.PresentsOnlyLiveTokens | mobile/src/store/auth.ts:173-191 | every token the client presents is live at that moment, was never redeemed, and is the one the server then redeems |
| ClientSession.RefreshServesAll | mobile/src/api/client.ts:80-130 | from any signed-in state with a current token there is a run in which two requests that get 401 cause one refresh, are both replayed with the new pair and succeed, while the old token is gone and the new one live in the same chain |
| ClientSession.LostRefreshSignsOut | mobile/src/api/client.ts:80-130 | a refresh call that is lost fails its request and signs the client out |
| ClientSession.SendAndLose | mobile/src/api/client.ts:72-78 | a request leaves with the access token of the moment; a lost refresh call leads to clearing the store |
| ClientSession.ApiClient.DrainWaiters | mobile/src/api/client.ts:47-55 | with a token every queued request is sent again with it, without one it fails; each handler is called once, the others are untouched and the queue is emptied |
| ClientSession.ApiClient.HandleResponse | mobile/src/api/client.ts:82-113 | any response but a first 401 settles the request as it is; a first 401 queues it behind a running refresh or starts one with the stored token |
| ClientSession.ApiClient.StoreTokens | mobile/src/store/auth.ts:173-191 | the store's half of a refresh: both tokens replaced by the pair, or both cleared, and refresh() returns it |
| ClientSession.ApiClient.ResumeAfterRefresh | mobile/src/api/client.ts:113-130 | with a token the queue and the leader are sent again with it and the flag falls; without one the queue fails and the leader goes on to sign out; nothing else changes |
| ClientSession.ApiClient.FinishSignOut | mobile/src/api/client.ts:115-128 | after onAuthFailure both tokens are gone, the leading request has failed and the flag falls |
| Calendar.CalendarService.IsMarketOpen | backend/app/services/calendar.py:129-159 | open exactly when the session of ts's local date stands after overrides and open <= ts < close |
| Calendar.CalendarService.GetSessionHours | backend/app/services/calendar.py:161-212 | a date's hours are the library session unless vetoed |
| Calendar.CalendarService.NextSessionClose | backend/app/services/calendar.py:214-235 | succeeds exactly when a standing close at or after ts lies on the 20 dates walked, and returns the least such close of all dates |
| Calendar.ReportsCloseExactlyTheirDays | backend/app/services/calendar.py:239-292 | after any sequence of reports exactly the reported dates are closed in addition |
| Scheduler.RunHolds | backend/app/scheduling/scheduler.py:253-292 | over every run of claims by any workers, every dispatch still holds its dedupe key and no key is dispatched twice |
| Scheduler.SentIffClaimed | backend/app/scheduling/scheduler.py:253-292 | a key is dispatched exactly once if any worker claimed it, and otherwise never |
| Scheduler.SentOnceIffPrompt | backend/app/scheduling/scheduler.py:253-292 | where an exchange has a session: no run of claims dispatches a key twice exactly when claims lag their ticks by less than 48 hours less 59 seconds |
| Scheduler.LateClaims | backend/app/scheduling/scheduler.py:191-292 | with any longer lag, two ticks of a close minute dispatch the post-close batch twice |
| Scheduler.CloseMinuteIsUnique | backend/app/scheduling/scheduler.py:132-177 | the 60 seconds after a close contain exactly one whole minute |
| Scheduler.PostCloseExactlyOnce | backend/app/scheduling/scheduler.py:191-292 | over any run of ticks the post-close batch of an exchange and date is dispatched once if some tick falls into its close minute, and otherwise never; it is marked a half day exactly for a session over an hour shorter than usual |
| Scheduler.PeriodicCount | backend/app/scheduling/scheduler.py:191-245 | with a tick in every minute of a session, the ticks of the session dispatch recalc_indicators exactly ceil(close/5min) - ceil(open/5min) times, and sync_portfolios likewise per hour |
| Scheduler.SessionAwareScheduler.Plan | backend/app/scheduling/scheduler.py:191-251 | plans exactly what is due: per exchange with a standing session, recalc_indicators in its five-minute marks, sync_portfolios on its hours, the post-close batch of its date in the minute after it, under the keys and TTLs of each |
| Scheduler.PlannedIffDue | backend/app/scheduling/scheduler.py:132-251 | the same of one exchange and minute |
| Scheduler.SessionAwareScheduler.Apply | backend/app/scheduling/scheduler.py:253-292 | dispatches exactly the plans whose key it could claim, in order |
| IndicatorCache.CompositeBetween | backend/app/analysis/technical.py:393-402 | a composite exists exactly when some indicator is scored, and lies between the least and the greatest scored signal, so the clamp never acts |
| IndicatorCache.FullComposite | backend/app/analysis/technical.py:70-77 | with all six scored the composite is the plain weighted sum of the documented weights |
| IndicatorCache.CompositeOfBars | backend/app/analysis/technical.py:328-402 | for every frame, by its number of bars: no composite below 30, four indicators from 30, MACD from 35, all six from 200, each sum over its total weight; the action is that of the composite |
| IndicatorCache.ActionBands | backend/app/analysis/technical.py:80-86 | the score range of each action |
| IndicatorCache.EnoughBars | backend/app/analysis/technical.py:340-380 | the bars each indicator needs, and that its signal is passed on |
| IndicatorCache.LongCallServes | backend/app/analysis/technical.py:489-513 | in the instantaneous version, a call of 200 bars or more answers all calls of exactly its TTL, whatever their frames |
| IndicatorCache.StepKeepsInv | backend/app/analysis/technical.py:489-513 | with each load and each write-back at one instant: time, whole calls with any number of bars, and invalidation all keep that a live ma_alignment key comes with all six keys of its own analysis |
| IndicatorCache.FullHitIsOneAnalysis | backend/app/analysis/technical.py:489-549 | in that instantaneous version, over every run of whole calls a full hit returns readings, composite and action of one analysis, written less than one TTL ago |
| IndicatorOverlap.CallIsLoadWrite | backend/app/analysis/technical.py:489-513 | a whole call is a load and, after a miss, a write-back with nobody in between |
| IndicatorOverlap.EventMixesIff | backend/app/analysis/technical.py:489-513 | with write-backs at one instant, from a clean state: a load, write-back, lapse of time or invalidation mixes readings exactly if it writes back 30 to 199 bars while ma_alignment is live |
| IndicatorOverlap.OverlapMixesIff | backend/app/analysis/technical.py:489-513 | with write-backs at one instant, over every interleaving of them with loads: no full hit ever mixes two analyses exactly when no write-back of 30 to 199 bars lands while ma_alignment is live |
| IndicatorOverlap.CleanHitIsOneAnalysis | backend/app/analysis/technical.py:489-549 | in such instantaneous runs every full hit answers with one analysis written less than one TTL ago |
| IndicatorOverlap.OverlapMixesGenerations | backend/app/analysis/technical.py:489-513 | in any clean state two calls that miss, the shorter one writing last, make the next full hit a mixture, contrary to the function's own documentation |
| IndicatorCommands.SafeHitIsOneCall | backend/app/analysis/technical.py:444-513 | command by command, over every run without frames of 200 bars, or without overlapping calls and frames of 30 to 199 bars: every full hit found six readings of one earlier call |
| IndicatorCommands.GetKeepsOne | backend/app/analysis/technical.py:467-486 | each GET of the one open call keeps what it found to one generation, the one still in the cache |
| IndicatorCommands.SetKeepsOne | backend/app/analysis/technical.py:444-464 | each SET of the one open call keeps the keys behind it to its own generation and those ahead to one older generation |
| IndicatorMixing.NeverMixesIff | backend/app/analysis/technical.py:444-513 | whatever the TTLs, over every run of single GETs and SETs with any delays: no full hit ever mixes two calls exactly when no frame has 200 bars, or calls do not overlap and no frame has 30 to 199 bars |
| IndicatorMixing.OverlapMixes | backend/app/analysis/technical.py:444-513 | two overlapping calls with any two frames of 200 bars or more, and any TTL, can mix |
| IndicatorMixing.SpreadMixes | backend/app/analysis/technical.py:444-513 | a frame of 200 bars or more and then one of 30 to 199, one call after the other, can mix if the first call's SETs are one instant apart |
| IndicatorSplits.CommitEffectiveIff | backend/app/services/corporate_actions.py:286-310 | from every reachable state, over every continuation with the new prices: all full hits of the calls begun after a commit are free of earlier readings exactly when the commit finds no key live and no open call that may still set one |
| IndicatorSplits.SplitEffectiveIff | backend/app/services/corporate_actions.py:286-335 | from every state of every run, over every continuation without another commit: the full hits of calls begun from then on are free of earlier readings exactly when no live key holds one and no call that read earlier prices may still set a key |
| IndicatorSplits.QuietSplitEffective | backend/app/services/corporate_actions.py:286-335 | if no call is open when a split deletes the keys and commits, all later full hits are free of earlier readings |
| IndicatorSplits.StaleHit | backend/app/analysis/technical.py:444-513 | if such a call comes to a SET, it replaces one key of a fresh analysis, and the next full hit contains it |
| IndicatorSplits.ReadsBehind | backend/app/analysis/technical.py:444-513 | if a live key holds an earlier reading and another key is missing, one call can rewrite the keys ahead of it while a second reads right behind, so that a full hit still contains it |
| IndicatorClient.Cache.LoadCachedIndicators | backend/app/analysis/technical.py:467-486 | the loop, with any delay before each GET, is the first six commands of the machine, and returns what they found |
| IndicatorClient.Cache.CacheIndicators | backend/app/analysis/technical.py:444-464 | the loop, with any delay before each SET, is the remaining commands, which set exactly the sufficient indicators |
| IndicatorClient.Cache.AnalyzeWithCache | backend/app/analysis/technical.py:489-549 | a call is the machine's whole call with those delays; it answers from what it found exactly on six hits, and otherwise from its own frame |
| IndicatorClient.SafeHitAnswers | backend/app/analysis/technical.py:489-549 | in every such safe run, a full hit answers with the readings, composite and action of one earlier analysis |
| IndicatorAges.FoundIsRecent | backend/app/analysis/technical.py:444-486 | in every run of single commands, each reading that a call found was set by the call it names, less than that call's TTL before the GET that found it |
| IndicatorClient.HitAtOnce | backend/app/analysis/technical.py:467-486 | without delays a call hits exactly when all six keys are live, as in the instantaneous version |
| IndicatorClient.WriteAtOnce | backend/app/analysis/technical.py:444-464 | without delays the SETs together are the write-back of the instantaneous version |
| DuplicateGuard.StepKeepsInv | backend/app/safety/guardian.py:251-261 | every Redis command of every call keeps: an accepted order is remembered until its window, less the longest lag, has passed |
| DuplicateGuard.AcceptsApart | backend/app/safety/guardian.py:225-283 | over every interleaving of checks and records, accepted identical orders are at least window - lag apart, where lag is the longest a ZADD came after its clock reading; the key lapses only when all its orders are older than the window |
| DuplicateGuard.SpacedIff | backend/app/safety/guardian.py:225-283 | over every run whose ZADDs lag their clocks by at most d, accepted identical orders are at least a given gap apart exactly when gap and d together fit the window |
| DuplicateGuard.FullWindowIffPrompt | backend/app/safety/guardian.py:225-283 | so they are a whole window apart exactly when d is 0 |
| DuplicateGuard.LagIsLost | backend/app/safety/guardian.py:225-283 | with any number of callers, a run in which a stall of d costs exactly d of the window |
| DuplicateGuard.CheckIsRun | backend/app/safety/guardian.py:225-283 | a whole check is three interleaved steps taken back to back |
| DuplicateGuard.RecordIsRun | backend/app/safety/guardian.py:285-309 | a whole record is two interleaved steps, and a call that has begun goes on |
| DuplicateGuard.AcceptedIffNotRecent | backend/app/safety/guardian.py:225-309 | with whole calls a check is accepted exactly when the order was neither accepted nor recorded less than a window ago, so rejected retries never extend the window |
| DuplicateGuard.RetryAfter | backend/app/safety/guardian.py:225-309 | an accepted or recorded order is accepted again exactly a window later, whatever rejected retry came in between |
| SafetyGuardian.MembersDistinguish | backend/app/safety/guardian.py:222-223 | orders without a separator in symbol or side get the same member only if all three fields are the same text |
| SafetyGuardian.Guardian.ValidatePositionSize | backend/app/safety/guardian.py:81-133 | rejects exactly a worthless portfolio or a value over its share, with one audit row |
| SafetyGuardian.Guardian.CheckDailyLoss | backend/app/safety/guardian.py:137-173 | rejects exactly when the value has fallen by the share since the start of the day, stated without the quotient |
| SafetyGuardian.Guardian.CheckMaxDrawdown | backend/app/safety/guardian.py:177-213 | the same against the peak |
| SafetyGuardian.Guardian.CheckDuplicateOrder | backend/app/safety/guardian.py:225-283 | the Redis step of the machine for that user, one audit row exactly on rejection |
| SafetyGuardian.Guardian.ValidateAction | backend/app/safety/guardian.py:311-391 | returns the first violation in the fixed order; touches Redis only if the read-only checks pass; writes exactly one audit row exactly on rejection |
| SafetyGuardian.ViolationMeans | backend/app/safety/guardian.py:311-391 | which code is given, in terms of the value and of the losses as shares of the start of the day and of the peak |
| SafetyGuardian.SlotClaimedIffAllowed | backend/app/safety/guardian.py:311-391 | an allowed action's slot carries this instant, a rejected duplicate leaves no new score, and no order of the window is dropped |
| SyncLock.StepKeepsInv | backend/app/api/portfolio.py:176-190 | acquire, release and time keep the invariant that relates holders to locks |
| SyncLock.MutualExclusion | backend/app/api/portfolio.py:176-245 | in every interleaving, for each user none of whose requests stayed a whole TTL: no two syncs of that user overlap, its holders hold its lock, and each of its releases deletes the releaser's own lock; a caller refused with 409 never deletes a lock, overstayers or not |
| SyncLock.LockLapses | backend/app/api/portfolio.py:176-190 | in any reachable state a waiting caller gets in one TTL later at the latest |
| SyncLock.EnterMeans | backend/app/api/portfolio.py:176-190 | a waiting request enters if its user's lock is free and is refused for good if not |
| SyncLock.OverstayerAdmitsAnother | backend/app/api/portfolio.py:176-245 | in every reachable state with a holder inside for a whole TTL, the next request of that user finds or makes two syncs at once, and the overstayer's release then deletes the newcomer's lock |
| SyncLock.OverstayerBreaksExclusion | backend/app/api/portfolio.py:242-245 | an instance: the first of three requests overstays, and all three are admitted beside each other |
| SyncLock.SyncEndpoint.SyncPortfolio | backend/app/api/portfolio.py:150-245 | a refused call changes nothing; every other outcome, a crash included, leaves the lock free; the connection expires exactly on stale credentials or an auth error |
| Upserting.UniqueIff | backend/app/services/portfolio_sync.py:177-209 | an upsert over an index frozen before the loop keeps keys unique exactly when no two items with a new key share it |
| Upserting.UpsertAgain | backend/app/services/portfolio_sync.py:235-288 | such an upsert, repeated, changes nothing |
| PositionSync.LastPositionWins | backend/app/services/portfolio_sync.py:180-209 | of several response rows for one instrument the last one stands |
| PositionSync.FlushSucceedsIff | backend/app/services/portfolio_sync.py:167-233 | the unique constraint holds after the sync exactly when no two response rows resolve to one instrument without a local row |
| PositionSync.OthersUntouched | backend/app/services/portfolio_sync.py:167-233 | no row is deleted, moved or re-pointed, other connections' rows are untouched, and new rows are the connection's |
| PositionSync.Converges | backend/app/services/portfolio_sync.py:167-233 | after a successful sync each mapped instrument has a row with its last reported figures, and every other row of the connection is zero |
| PositionSync.Idempotent | backend/app/services/portfolio_sync.py:167-233 | repeating a successful sync changes only as_of and closes nothing |
| PositionSync.FailedFetchClosesAll | backend/app/services/portfolio_sync.py:108-114 | a failed fetch, taken for an empty response, zeroes every position of the connection |
| OrderSync.OrderRowAfter | backend/app/services/portfolio_sync.py:255-286 | an existing order takes the last reported status and quantity, keeps a limit price the response omits, and keeps its instrument, side, type and id |
| OrderSync.StatusTable | backend/app/services/portfolio_sync.py:51-59 | which broker statuses each status of the table stands for |
| OrderSync.OrdersAppendOnly | backend/app/services/portfolio_sync.py:235-288 | no order row is deleted, moved or re-pointed, and other connections' rows are untouched |
| OrderSync.OrdersUniqueIff | backend/app/services/portfolio_sync.py:243-286 | one row per broker id stays so exactly when no two mapped orders share an id without a row |
| OrderSync.OrdersConverge | backend/app/services/portfolio_sync.py:235-288 | each reported order's row shows its last status, quantity and limit price |
| OrderSync.OrdersIdempotent | backend/app/services/portfolio_sync.py:235-288 | repeating the sync changes no order row |
| OrderSync.OrderFlushSucceedsIff | backend/app/services/portfolio_sync.py:262-279 | the idempotency key holds after the sync exactly when no two orders without a row share id and instrument, and no order without an id meets an id-less row of its instrument |
| OrderSync.RepeatSucceedsIff | backend/app/services/portfolio_sync.py:235-288 | once a sync of orders has succeeded, repeating it succeeds exactly when every mapped order of the response has an id |
| OrderSync.EmptyIdBreaksRepeat | backend/app/services/portfolio_sync.py:243-247 | the smallest case: one order with an empty id is inserted again and violates its idempotency key |
| SyncService.PortfolioSyncService.UpsertPositions | backend/app/services/portfolio_sync.py:180-209 | the first loop computes the specified upsert, the number of mapped rows and the seen instruments |
| SyncService.PortfolioSyncService.ClosePositions | backend/app/services/portfolio_sync.py:211-222 | the second loop zeroes exactly the old rows not seen and counts those that were nonzero |
| SyncService.PortfolioSyncService.SyncPositions | backend/app/services/portfolio_sync.py:167-233 | the two loops together give the specified table; upserted + skipped is the size of the response, and each skipped symbol is warned about; closed counts exactly the nonzero rows that vanished |
| SyncService.PortfolioSyncService.SyncOrders | backend/app/services/portfolio_sync.py:235-288 | the order loop gives the specified table |
| SyncService.PortfolioSyncService.SyncConnection | backend/app/services/portfolio_sync.py:93-163 | exactly which responses violate each constraint; then nothing changes; otherwise both tables are the specified ones and one audit row is added |
| SyncService.WarningsMean | backend/app/services/portfolio_sync.py:93-163 | warns of exactly a failed fetch of either kind and of each symbol without an instrument |
| SplitAdjust.MarkedIsApplied | backend/app/services/corporate_actions.py:289-291 | a marked row is recognised as applied, whatever its notes were |
| SplitAdjust.BarsAreRawTimesProduct | backend/app/services/corporate_actions.py:227-318 | after any calls in any order, with repeats, each bar is its raw bar with prices times the product of the factors of the distinct applied splits whose window contains it |
| SplitAdjust.ApplyRewrites | backend/app/services/corporate_actions.py:227-282 | an unmarked row's split rewrites exactly its instrument's bars of the history days before the ex-date: prices times the factor, volume over a nonzero one |
| SplitAdjust.ApplyAgain | backend/app/services/corporate_actions.py:238-246 | a marked or unknown row's application changes nothing |
| SplitAdjust.CachedUntilAdjusted | backend/app/services/corporate_actions.py:286-335 | a cached key stays until its instrument is adjusted |
| SplitAdjust.AppliedIff | backend/app/services/corporate_actions.py:238-246 | a row counts as applied exactly when its notes contain the marker |
| SplitAdjust.OrderAndRepeatsIrrelevant | backend/app/services/corporate_actions.py:227-318 | two call sequences that apply the same splits leave the same bars, whatever their orders and repeats |
| SplitAdjust.ShapeAndValueKept | backend/app/services/corporate_actions.py:262-282 | positive factors keep low <= open, close <= high; nonzero factors keep close * volume |
| SplitAdjust.ValueKeptIffNonzero | backend/app/services/corporate_actions.py:262-282 | one adjustment conserves a bar's traded value exactly when its factor is not zero |
| SplitAdjust.CacheDropped | backend/app/services/corporate_actions.py:286-287 | after an adjustment no cached indicator of the instrument is left and the others all are |
| SplitDetection.EachSplitOnce | backend/app/services/corporate_actions.py:118-151 | in every run that detects a split only while no row records it and applies rows as recorded, the applied splits are pairwise different and those on record, so each is adjusted for at most once |
| SplitDetection.RedetectedAdjustsTwice | backend/app/services/corporate_actions.py:118-151 | from any state, detecting a recorded split again before it is applied leads to a run that multiplies its factor in twice |
| SplitDetection.AppliedAdjustsAgain | backend/app/services/corporate_actions.py:118-151 | from any state, detecting a split again after it was applied, and applying that row, multiplies every covered price by its factor once more |
| CorporateActions.CorporateActionsService.DetectFromAdjustmentFactor | backend/app/services/corporate_actions.py:118-151 | a row is inserted, and a detection returned, exactly for a factor other than 1 |
| CorporateActions.CorporateActionsService.DetectBrokerPositionAnomaly | backend/app/services/corporate_actions.py:153-223 | flags exactly a change over tolerance that the filled orders of the period do not explain |
| CorporateActions.SignedSumMeans | backend/app/services/corporate_actions.py:153-223 | those orders count bought less sold quantities of this connection, instrument and period |
| CorporateActions.CorporateActionsService.InvalidateIndicatorCache | backend/app/services/corporate_actions.py:320-335 | deletes and counts exactly the instrument's keys |
| CorporateActions.CorporateActionsService.ApplySplit | backend/app/services/corporate_actions.py:227-318 | fails exactly for an unknown row; adjusts at most once per row; returns the number of the instrument's bars in the history days before the ex-date, or 0 for a marked row; one audit row per adjustment |
| Concentration.HhiBounds | backend/app/analysis/risk_meter.py:123-133 | the index of n weights lies in [1/n, 1] and is 1 exactly when one weight is nonzero |
| Concentration.MergeRaisesHhi | backend/app/analysis/risk_meter.py:123-133 | merging two same-signed holdings keeps the total and never lowers the index; it stays equal exactly when one of them was empty |
| Concentration.MergeMovesScores | backend/app/analysis/health_score.py:79-94 | such a merge never lowers the concentration score and never raises the diversification score, and neither appears or disappears |
| Concentration.ScoresOfHhi | backend/app/analysis/health_score.py:84-94 | the scores in terms of the index: 100 times it, and 100 * (1 - it) / 0.95 capped at 100; exactly when the diversification score reaches its ends |
| Concentration.NothingToWeigh | backend/app/analysis/risk_meter.py:118-124 | there are no scores exactly when every weight is zero |
| Scores.OverallBetween | backend/app/analysis/risk_meter.py:349-358 | the overall score lies between the least and the greatest present component, and is 0 without any |
| Scores.RiskWeights | backend/app/analysis/risk_meter.py:53-56 | the meter weighs concentration, volatility, drawdown and events 30, 30, 20 and 20 per cent of those present |
| Scores.HealthWeights | backend/app/analysis/health_score.py:212-240 | the health score weighs its four components equally among those present |
| Scores.MissingIsIgnored | backend/app/analysis/health_score.py:232-239 | a missing component does not change the overall score |
| Scores.OverallMonotone | backend/app/analysis/risk_meter.py:349-358 | raising a component never lowers the overall score |
| Scores.MergeNeverImproves | backend/app/analysis/risk_meter.py:327-364 | for every rounding to a nearest tenth, merging two same-signed holdings never lowers the displayed risk meter or its colour and never raises the displayed health score |
| Scores.ProximityMeaning | backend/app/analysis/risk_meter.py:302-308 | the event score is zero exactly when no event lies within the next four days, and an event today saturates it |
| Scores.ProximityAdds | backend/app/analysis/risk_meter.py:302-308 | an event so many days ahead adds as many fifths as it is short of five days |
| Scores.EventsMeans | backend/app/analysis/risk_meter.py:281-313 | no calendar scores 0, a full window or more 100, anything less its proximity in per cent |
| Scores.ComputeEvents | backend/app/analysis/risk_meter.py:281-313 | the loop computes that score within [0, 100] and counts the events of the window |
| Scores.Blend | backend/app/analysis/risk_meter.py:349-357 | the blending loop computes the renormalised average |
| Scores.ComputeRiskMeter | backend/app/analysis/risk_meter.py:327-364 | the displayed meter is the rounded average of its four components, in [0, 100], with the bands at 30 and 60 |
| Scores.ComputeHealthScore | backend/app/analysis/health_score.py:212-240 | the displayed score is the rounded average of its four components, in [0, 100] |
| FinBert.ScalarFromLabels | backend/app/analysis/finbert.py:142-163 | the last positive score less the last negative one, in [-1, 1], other labels ignored |
| FinBert.ScalarMeans | backend/app/analysis/finbert.py:142-163 | the scalar is what the last positive label says less what the last negative one says, cut at -1 and 1 |
| FinBert.ScoreMeans | backend/app/analysis/finbert.py:124-139 | all labels of a prediction count, or its best one alone |
| FinBert.StripMeans | backend/app/analysis/finbert.py:166-171 | a text is scored without the spaces at its ends |
| FinBert.SlotsClose | backend/app/analysis/finbert.py:192-234 | with a coherent cache every slot is within half a millionth of its own text's score |
| FinBert.RepeatedBatch | backend/app/analysis/finbert.py:192-234 | a batch repeated before its entries lapse is answered from the cache alone with the rounded scores |
| FinBert.CachedCoherent | backend/app/analysis/finbert.py:187-188 | writing roundings keeps the cache coherent |
| FinBert.Scorer.ScoreText | backend/app/analysis/finbert.py:166-189 | the score within half a millionth; fails exactly on a miss without a model; keeps the cache coherent |
| FinBert.Scorer.FirstPass | backend/app/analysis/finbert.py:200-215 | fills exactly the blank and cached slots and lists every other one |
| FinBert.Scorer.SecondPass | backend/app/analysis/finbert.py:219-230 | fills exactly the listed slots and caches exactly their texts |
| FinBert.Scorer.ScoreBatch | backend/app/analysis/finbert.py:192-234 | one score per text, in order, duplicates included, none missing, each within half a millionth of the pointwise score; keeps the cache coherent; fails exactly when something must be scored without a model |
| Grouping.GroupsSumToTotal | backend/app/intelligence/portfolio.py:326-335 | the accumulated groups add up to the total |
| Grouping.SharesSumToOne | backend/app/intelligence/portfolio.py:337-347 | the shares of a nonzero total sum to 1 |
| Grouping.Accumulate | backend/app/intelligence/portfolio.py:356-361 | the accumulating loop gives each key the sum of its values |
| Grouping.RankByValue | backend/app/intelligence/portfolio.py:337-347 | lists every entry once, the greatest values first |
| PortfolioIntelligence.SectorAllocation | backend/app/intelligence/portfolio.py:323-348 | a market is reported exactly when its total is positive, with each sector's share of it, the greatest first |
| PortfolioIntelligence.SectorSharesSumToOne | backend/app/intelligence/portfolio.py:323-348 | each reported market's sector shares sum to 1 and are nonnegative for nonnegative positions |
| PortfolioIntelligence.Diversification | backend/app/intelligence/portfolio.py:350-366 | geography shares and sector index of the whole, or nothing without a positive total |
| PortfolioIntelligence.GeographySumsToOne | backend/app/intelligence/portfolio.py:350-366 | geography shares sum to 1 and the sector index lies in [0, 1] |
| PortfolioIntelligence.RebalancingSuggestions | backend/app/intelligence/portfolio.py:520-545 | suggests exactly the sectors above 40 per cent, with their shares, the greatest first |
| PortfolioIntelligence.AtMostTwoSuggestions | backend/app/intelligence/portfolio.py:520-545 | nonnegative positions give at most two suggestions |
| PortfolioIntelligence.HeavyMeans | backend/app/intelligence/portfolio.py:533-535 | the sectors suggested are those whose value over the total exceeds 0.40 |
| Benchmarks.RateMeans | backend/app/services/fx.py:82-106 | a currency has rate 1 to itself; the stored pair counts, and without it the inverse of the stored inverse, if that is not zero |
| Benchmarks.ObserveMeans | backend/app/services/benchmark.py:96-170 | a return is last close over first less 1, and a stale zero without closes |
| Benchmarks.MarketTables | backend/app/intelligence/portfolio.py:105-126 | the tables of exchanges and of venues, in letters of either case |
| Benchmarks.ServiceMeans | backend/app/services/benchmark.py:193-219 | the service's return is the gain of one unit of the base currency put into the index and back |
| Benchmarks.EngineMeans | backend/app/intelligence/portfolio.py:480-518 | the engine's return is the index's compounded with its currency's |
| Benchmarks.FormulasAgreeIff | backend/app/services/benchmark.py:193-219 | for any rates, missing and nonpositive ones included, exactly when the engine's and the service's return of an index are the same |
| Benchmarks.ConvertibleAgreeIff | backend/app/services/benchmark.py:193-219 | where rates exist, they agree exactly when the closes are fresh with a positive first one, or the currency did not move |
| Benchmarks.MissingRate | backend/app/intelligence/portfolio.py:496-518 | without a rate the engine goes on unconverted and the service fails |
| Benchmarks.BlendsAgree | backend/app/services/benchmark.py:222-254 | the two blended returns are one number when venue weights add up to market shares and the benchmarks involved are fresh and convertible |
| Benchmarks.BlendedPortfolioReturn | backend/app/services/benchmark.py:222-254 | the loop over venues fails exactly when some mapped venue's return does, and otherwise sums weight times return |
| Benchmarks.BlendedBenchmarkReturn | backend/app/intelligence/portfolio.py:438-494 | the loop over markets sums allocation times compounded return over the two benchmarked markets |
| Benchmarks.EngineBlendMeans | backend/app/intelligence/portfolio.py:464-494 | that sum over India and the United States, with shares that are not positive left out |
| Synthesizer.NormalizeSignals | backend/app/intelligence/synthesizer.py:136-155 | every signal lies in [-1, 1], and there are none exactly when no engine has one |
| Synthesizer.SignalOf | backend/app/intelligence/synthesizer.py:90-155 | each engine's signal: technical and sentiment as they are, fundamentals and risk from scores around 50, a high risk bearish, all within [-1, 1] |
| Synthesizer.ActionBands | backend/app/intelligence/synthesizer.py:105-114 | the composite range of each action |
| Synthesizer.AiWeightMeans | backend/app/intelligence/synthesizer.py:165-184 | no AI share in shadow mode or without a score; otherwise the configured one within [0, 0.30] |
| Synthesizer.WeightsSumToOne | backend/app/intelligence/synthesizer.py:158-184 | for every nonempty set of engines the weights, with the AI share, sum to 1 |
| Synthesizer.FullDeterministic | backend/app/intelligence/synthesizer.py:76-81 | with all four engines the documented weights are used as they are |
| Synthesizer.CompositeBetween | backend/app/intelligence/synthesizer.py:255-258 | the composite lies between the least and the greatest input used |
| Synthesizer.FlipPossibleIff | backend/app/intelligence/synthesizer.py:105-114 | an AI share can turn some buy into a sell, or the reverse, exactly when it exceeds 6/13 |
| Synthesizer.AiNeverFlips | backend/app/intelligence/synthesizer.py:165-184 | so at the 0.30 cap it never does, for any engines, setting or score |
| Synthesizer.ConfidenceMeaning | backend/app/intelligence/synthesizer.py:262-265 | confidence lies in [0, 100] and is full exactly when fresh engines all equal the composite |
| Synthesizer.EvenDeviation | backend/app/intelligence/synthesizer.py:262-265 | engines that all lie d from the composite, however many, cost 100 * d of the confidence |
| Synthesizer.StalenessMeans | backend/app/intelligence/staleness.py:55-89 | the age range of each level, and what each costs in confidence |
| Synthesizer.Oldest | backend/app/intelligence/synthesizer.py:235-237 | the least timestamp of the engines used, or now without any |
| Synthesizer.ComputeConfidence | backend/app/intelligence/staleness.py:75-89 | confidence from the mean deviation, less the staleness penalty |
| Synthesizer.Synthesize | backend/app/intelligence/synthesizer.py:187-294 | no recommendation exactly without signals or when the oldest engine is too stale; otherwise the blended composite, its action and its confidence |
| Redis.OldestScore | backend/app/brokers/rate_limiter.py:108-109 | the least score of a sorted set, or nothing exactly when it is empty |
| Redis.Strings.SetNxEx | backend/app/scheduling/scheduler.py:284-292 | SET NX EX succeeds exactly when the key is missing or lapsed |

## Left out

- HTTP routes, schemas, migrations, task wiring, notification channels, AI providers, data and broker clients: plumbing or network code.
- Redis being unavailable (`lock_acquired = True`, `redis is None`, swallowed cache errors): those paths deliberately drop the guarantees.
- Logging and the texts of reasons, details and warnings: only codes, symbols, counts and audit rows are modelled.
- The rate limiter's `async with` entry points and per-process singleton: wrappers around `acquire`.
- Malformed token payloads, rehashing on login, timing equalisation and the e-mail part of a password reset: no effect on the token protocol.
- `hydrate` at app start, overlapping sign-in and sign-out, and token expiry on the client: the client model starts after sign-in; 401s arriving while `onAuthFailure` runs stay queued until a later refresh, and nothing more is claimed of them.
- Spellings of exchange names: `normalize_exchange` is a lookup, and exchanges are enumerated.
- Indicator formulas and the raw readings' meaning: signals are arbitrary values in [-1, 1]; `insufficient_data_flags` follow from the results.
- IndicatorCache.StepKeepsInv: each call is one instant; IndicatorCommands.SafeHitIsOneCall has the statement command by command.
- IndicatorCache.FullHitIsOneAnalysis: the same; IndicatorClient.SafeHitAnswers and IndicatorAges.FoundIsRecent have the statement command by command.
- IndicatorOverlap.EventMixesIff: a write-back is one instant; IndicatorMixing.NeverMixesIff has the condition command by command.
- IndicatorOverlap.OverlapMixesIff: the same.
- IndicatorOverlap.CleanHitIsOneAnalysis: the same; IndicatorClient.SafeHitAnswers and IndicatorAges.FoundIsRecent have the statement command by command.
- Corrupt cache payloads: the cache holds only what the code writes.
- `normalize_symbol` itself, including its error when an order's symbol is listed on two exchanges: resolution is a parameter that finds an instrument or does not.
- BIGINT rounding of adjusted volumes, re-fetched bars overwriting adjusted ones, and the review of flagged anomalies: volumes are real and bars fixed during a run.
- Volatility, drawdown, fundamental, technical and risk-adjusted components: numeric library code; they enter the blends as arbitrary scores.
- The order of equal values in sorted lists of shares.
- `_per_market_alpha` and `_portfolio_return_base`: placeholders that return zero.
- The cache of `BenchmarkService.get_return` and currency codes in lower case: an observation is a value, and codes are upper case.
- The digest in the sentiment cache's key: the key is the text itself.
- The explainer and the labels of top factors: text.
