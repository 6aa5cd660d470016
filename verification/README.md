# Verified model of the limiter and of the optimization loop

A Dafny model of the parts of this repository whose correctness spans many calls, workers or
rounds, with proofs of what they promise.

**The rate limiter.** `RedisStore` holds the Redis keys of one limiter key (two scored sets, a
cached token total, a concurrency counter and an adaptive hash, each with its deadline) as fields
of a class, and every Lua script as one atomic method; clock ticks and key expiry are methods of
their own. A ghost log records every admission and is never read by the scripts. The store is
proved to compute exactly what `SlidingWindow` says about that log: cached totals, lazy pruning
and TTLs are invisible (`RedisLimiter.SendAll`), so sliding-window safety and the counter bounds
can be proved on the log alone (`LimiterRuns`, `RetryHints`) and carried back to the store
(`SendAllUnderFixedLimits`, `SendAllUnderCeiling`). `RedisLimiter.Acquire` is the polling loop, with
arbitrary other workers between its attempts. `InvokeLlm` is the call that acquires and releases,
with its exact trace for every way its collaborators can fail; `WorkerCalls` interleaves any number
of such traces, step by step, with time, lost keys and crashes, and accounts for every slot;
`StoreCalls` runs those steps as scripts on the store.
`Adaptive`, `EffectiveConcurrency` and `ConcurrencyPeak` are the adaptive hash, the two derivations
of the allowance and the per-minute peak.

**The optimization loop.** `IterationLoop` runs rounds against a world that may answer anything
or throw at every step. Each round generates a prompt version (`Generate`, `VariableRules`,
`AutoPatch`, on top of the placeholder scanner in `Placeholders`), compares and decides (`Goals`)
and may stop. The promises about a whole run are collected in `LogOk`, `HistoryMirrors`,
`FromWorld` and `StoppedRight`, which `RunIterationLoop` establishes.

**Around them.** `Renderer` substitutes values into a body, `TokenBudget` and `EvidenceBudget`
fit material into token budgets, `ClassificationMetrics` computes confusion and F1 from bucketed
rows.

`SortedSets`, `TpmMember`, `OrderedSets`, `RecordKeys`, `RealFacts` and `Wrappers` hold what these
need. Time is
an integer number of milliseconds that never decreases; averages, factors and scores are real
numbers. `dafny verify dfyconfig.toml` checks everything.

Where the code does not keep a promise in full, the model keeps the code and states exactly when
it does: `RpmHintExactIff` with `LoweredLimitMakesHintEarly` (the hint after a lowered limit),
`WhitelistCoversRendererIff` with `DottedNameSlipsThrough` (names with dots and dashes),
`LongTextFitsIff` (a limit shorter than the marker), and `SlotsAccountedForIff`, `LossPossibleIff`
and `CeilingAtRiskIff` with `ExpiryCanOveradmit` (a slot held longer than the idle TTL). A 429 need
not lower the allowance (`ThrottleCanLeaveTheCeiling`), since the clamp comes after the backoff;
`ThrottleBites` spells the clamp out. A window under half a minute can lose a minute's peak
(`PeakReadExactIff`, `ShortWindowLosesPeak`). With no goals configured, the goal check inside the loop is vacuously
true after the first completed round, while `goals.ts` and `round-outcome.ts` answer "not met";
the model follows each of them (`StoppedRight`, `AllGoalsMet`, `DecideRoundOutcome`). The header of
`per-class.ts` says rows are bucketed by expected output; a correct row is in fact counted under its
decision label, and so it is here.

## Model

| member | source | states |
|---|---|---|
| `TpmMember.TokensRoundTrip` | packages/limiter/src/redis-limiter.ts:53-56 | the token count read back from a set member is the count that was encoded into it, whatever the request id looks like |
| `TpmMember.EncodeInjective` | packages/limiter/src/redis-limiter.ts:220 | two admissions share a token-set member only if they share request id and count, so ZADD never merges two requests |
| `SlidingWindow.LiveLive` | packages/limiter/src/redis-limiter.ts:67-74 | lazy pruning is invisible: pruning at an early cutoff and again later leaves what the later cutoff alone leaves |
| `SlidingWindow.CountsForOneWindow` | packages/limiter/src/redis-limiter.ts:67-74 | an admission counts from its own instant on for exactly one window length |
| `SlidingWindow.GrantKeepsRpmSafe` | packages/limiter/src/redis-limiter.ts:187-194 | a granted attempt cannot push any window of the given length, wherever it ends, over the request limit |
| `SlidingWindow.GrantKeepsTpmSafe` | packages/limiter/src/redis-limiter.ts:196-213 | the same for the token limit |
| `SortedSets.SumSplits` | packages/limiter/src/redis-limiter.ts:76-112 | the tokens of the expired range and of what remains add up to the whole, so subtracting the expired part from the cached total is exact |
| `RedisStore.PruneBacks` | packages/limiter/src/redis-limiter.ts:67-112 | pruning keeps the key in step with the log: same admissions, same count, same tokens |
| `RedisStore.AddBacks` | packages/limiter/src/redis-limiter.ts:219-222 | the ZADD and PEXPIRE of a new request keep the key in step with the extended log, and its deadline outlives every live entry |
| `RedisStore.ExpiryLosesNothing` | packages/limiter/src/redis-limiter.ts:221-222 | a key whose 2 x window deadline has passed holds no live admission |
| `RedisStore.TpmHintExact` | packages/limiter/src/redis-limiter.ts:196-212 | the entry at which the running projection first fits gives the first instant at which the request fits the token limit |
| `RetryHints.RpmHintExactIff` | packages/limiter/src/redis-limiter.ts:187-194 | the request hint is never late, and it is the first instant with room if and only if the live admissions that do not expire together with the oldest are below the limit |
| `RetryHints.RpmHintExactAtLimit` | packages/limiter/src/redis-limiter.ts:187-194 | in particular it is exact whenever the live count equals the limit |
| `LimiterRuns.LoweredLimitMakesHintEarly` | packages/limiter/src/redis-limiter.ts:187-194 | after the limit was lowered below the live count the hint can be too early: a concrete run with limits 2, 2 and 1 |
| `RedisStore.Store.Expire` | packages/limiter/src/redis-limiter.ts:219-248 | any subset of keys past their deadlines may vanish, peak keys included: the log is unchanged, and the counter drops to zero only when its own key does |
| `RedisStore.Store.PruneRpm` | packages/limiter/src/redis-limiter.ts:67-74 | returns exactly the number of admissions inside the window |
| `RedisStore.Store.PruneTpm` | packages/limiter/src/redis-limiter.ts:76-112 | returns exactly the tokens admitted inside the window, both when the cached total survived and when it was rebuilt, and stores that total |
| `RedisStore.Store.TpmRetryAfter` | packages/limiter/src/redis-limiter.ts:196-213 | now + retry_after is the first instant at which the request fits; a request larger than the limit gets the whole window and indeed never fits |
| `RedisStore.Store.Acquire` | packages/limiter/src/redis-limiter.ts:146-251 | which verdict when: the first of requests, tokens and slots that has no room rejects; verdict, admission, counter, allowance and retry hints are those of the plain sliding-window log; a rejection changes nothing observable; a slot taken is entered into the peak of its minute; an admission renews the deadlines of the keys it writes |
| `RetryHints.VerdictsExactly` | packages/limiter/src/redis-limiter.ts:187-217 | each verdict if and only if its own limit has no room and those checked before it have |
| `RetryHints.RoomIsWhatFits` | packages/limiter/src/redis-limiter.ts:187-196 | a limit has room exactly when the window ending now, with the request in it, keeps to the limit, so no rejection is needless |
| `RedisStore.Store.Release` | packages/limiter/src/redis-limiter.ts:324-341 | counts down by one but never below zero, and says whether there was a slot |
| `RedisStore.Store.Report` | packages/limiter/src/redis-limiter.ts:255-292 | the stored hash becomes the one described by Adaptive.Reported, and nothing else changes; its deadline is renewed |
| `RedisStore.Store.ReadUsage` | packages/limiter/src/redis-limiter.ts:294-320 | returns the exact live count and token sum, the counter, the rounded averages and the peak of the current minute since its key was last dropped, and changes nothing observable |
| `ConcurrencyPeak.PeakIsHighest` | packages/limiter/src/redis-limiter.ts:236-243 | the peak of a minute is the highest level that a slot taken in it led to |
| `ConcurrencyPeak.PeakReadExactIff` | packages/limiter/src/redis-limiter.ts:305-306 | a reading is never too high, and it is the peak of the minute if and only if no slot taken before its key was last dropped led higher than those taken since; always, if 2 x window covers a minute |
| `RedisStore.ShortWindowLosesPeak` | packages/limiter/src/redis-limiter.ts:236-243 | with a window under half a minute, the scripts run one after another (acquire, tick, expiry, usage) read 0 for a peak of 1 |
| `LimiterRuns.RunsKeepRpmSafe` | packages/limiter/src/redis-limiter.ts:171-230 | over every run with a fixed positive request limit no window in the history ever exceeds it |
| `LimiterRuns.RunsKeepTpmSafe` | packages/limiter/src/redis-limiter.ts:171-230 | the same for the token limit |
| `LimiterRuns.RejectionHappensAtLimit` | packages/limiter/src/redis-limiter.ts:187-194 | with a fixed limit a request rejection happens exactly at the limit, where the hint is exact |
| `LimiterRuns.RunsKeepCeiling` | packages/limiter/src/redis-limiter.ts:215-244 | the counter never exceeds the ceiling that every attempt was given |
| `LimiterRuns.CounterExactIff` | packages/limiter/src/redis-limiter.ts:215-234 | over any run of workers the counter equals the slots taken and not given back, at every moment, if and only if its key is never dropped while it counts slots |
| `LimiterRuns.ExactnessAtRiskIff` | packages/limiter/src/redis-limiter.ts:232-234 | from an exact counter some possible step makes it wrong if and only if the counter is in use and was not touched for its whole TTL |
| `LimiterRuns.CeilingAtRiskIff` | packages/limiter/src/redis-limiter.ts:215-234 | from a counter within the ceiling further workers can take more slots than the ceiling if and only if the counter counts fewer slots than are taken |
| `LimiterRuns.CounterNeverExceedsTaken` | packages/limiter/src/redis-limiter.ts:215-244 | whatever leaks and expires, the counter never claims more slots than were taken |
| `LimiterRuns.TouchedIsKept` | packages/limiter/src/redis-limiter.ts:232-234 | a slot taken, or one given back while others stay, keeps the counter for its whole TTL and no longer; nothing else prolongs it |
| `LimiterRuns.LossComesAfterTtl` | packages/limiter/src/redis-limiter.ts:324-341 | in every run at least the TTL lies between such a step and a loss of the counter |
| `LimiterRuns.ExpiryCanOveradmit` | packages/limiter/src/redis-limiter.ts:232-234 | without that condition the bound fails: a concrete schedule in which the idle TTL drops a held slot |
| `RedisLimiter.Send` | packages/limiter/src/redis-limiter.ts:395-460 | each script, tick or expiry on the store is the matching event on the plain log |
| `RedisLimiter.SendAll` | packages/limiter/src/redis-limiter.ts:395-460 | every interleaving of scripts, ticks and expiries is a run of the plain log: caching, lazy pruning and TTLs are invisible |
| `RedisLimiter.SendAllUnderFixedLimits` | packages/limiter/src/redis-limiter.ts:171-230 | from an empty store, every interleaving under fixed positive limits leaves a history that is safe at every instant |
| `RedisLimiter.SendAllUnderCeiling` | packages/limiter/src/redis-limiter.ts:215-244 | on the store itself, every interleaving whose attempts carry ceilings between one and c leaves the counter at most c |
| `RedisLimiter.Acquire` | packages/limiter/src/redis-limiter.ts:387-436 | terminates within one attempt per poll interval and one more, whatever each script call takes and whatever other workers do; the time reported is that of one script call per attempt plus the sleeps between them and their overruns, and each sleep is as long as the hint of the rejection before it says, at least a poll interval, cut at what remains of the timeout; success leaves exactly one log entry and reports the allowance, factor and latency of the stored state, an error none; an error comes only after the timeout, names the limit that rejects at that moment, and carries its hint; undisturbed, with a store clock that keeps up and a timeout for two waits, a request that fits its limits and finds a free slot if it wants one is admitted within three attempts |
| `RetryHints.WaitingHelps` | packages/limiter/src/redis-limiter.ts:187-213 | waiting for the hint of a rejection settles one more limit: the request limit first, then the token limit |
| `Adaptive.BackoffStaysBounded` | packages/limiter/src/redis-limiter.ts:267-287 | over any report sequence the backoff factor stays in [floor, 1] |
| `Adaptive.ThrottleStreak` | packages/limiter/src/redis-limiter.ts:285-288 | k throttles in a row give max(floor, bf x mult^k) and touch nothing else |
| `Adaptive.SuccessStreak` | packages/limiter/src/redis-limiter.ts:283 | n successes give min(1, bf + n x step) |
| `Adaptive.SampleMovesAverages` | packages/limiter/src/redis-limiter.ts:273-282 | a sample moves an average by alpha times its distance, or starts one; without a measurement nothing moves, and only a missing latency gets the default |
| `Adaptive.EqualSamplesConverge` | packages/limiter/src/redis-limiter.ts:273-282 | n equal samples s bring an average v to s + (1 - alpha)^n (v - s), latency and tokens alike |
| `Adaptive.LatencyStaysWithinSamples` | packages/limiter/src/redis-limiter.ts:273-278 | the latency average stays within whatever range contains its seed and samples, and exists exactly after a seed or a success |
| `Adaptive.TokensStayWithinSamples` | packages/limiter/src/redis-limiter.ts:279-282 | the token average stays between zero and its greatest sample or seed |
| `EffectiveConcurrency.DerivationsAgree` | packages/limiter/src/redis-limiter.ts:30-50 | the TypeScript and Lua derivations, written out separately, agree on every stored hash |
| `EffectiveConcurrency.NoTokensCountAsOne` | packages/limiter/src/redis-limiter.ts:41 | a token average that is not positive counts as one token |
| `EffectiveConcurrency.ComputeInRange` | packages/limiter/src/redis-limiter.ts:139-142 | the result is in [1, ceiling] for a ceiling of at least one, and the ceiling otherwise |
| `EffectiveConcurrency.EffectiveMonotone` | packages/limiter/src/redis-limiter.ts:38-49 | monotone in backoff, latency and ceiling |
| `EffectiveConcurrency.EffectiveFollowsBudget` | packages/limiter/src/redis-limiter.ts:40-45 | monotone in positive limits and antitone in tokens while the rate stays below BIG |
| `EffectiveConcurrency.SustainsTheBudget` | packages/limiter/src/redis-limiter.ts:28-50 | Little's law: away from the clamp it is the least number of slots that sustains the budgeted rate |
| `EffectiveConcurrency.AllowanceCarriesTheRate` | packages/limiter/src/redis-limiter.ts:28-50 | the allowance is the least number of slots that carries, at the measured latency, every rate the requests and tokens per minute allow, scaled by the backoff factor, rounded halves up and clamped; the ceiling takes its place exactly when no limit is below 10^15 a second |
| `EffectiveConcurrency.ThrottleBites` | packages/limiter/src/redis-limiter.ts:39-49 | the clamp spelled out: a throttle lowers an allowance that sits at the ceiling if and only if the scaled target falls more than half a slot below it |
| `EffectiveConcurrency.ThrottleCanLeaveTheCeiling` | packages/limiter/src/redis-limiter.ts:45-48 | so a throttle need not lower anything: a concrete model |
| `InvokeLlm.InvokeProviderWithRetry` | packages/llm-client/src/invoke.ts:871-906 | stops at the first reply or the first final failure, within maxRetries + 1 calls, every earlier failure being retryable |
| `InvokeLlm.WhatIsRetried` | packages/llm-client/src/invoke.ts:908-922 | the failures worth another attempt |
| `InvokeLlm.InvokeLLM` | packages/llm-client/src/invoke.ts:69-235 | release is called exactly when a slot was reserved, once and last, on every path; the counter still counts the slot afterwards if and only if the reply of the acquire was lost after its script ran or the release did not get through; a rate-limit rejection does nothing; a throttle is reported exactly for a 429; the run result is written once, after every provider call and after the success report, if and only if a reply was there, was parsed and is wanted, and success is reported likewise |
| `InvokeLlm.EffectsOf` | packages/llm-client/src/invoke.ts:80-234 | how often each effect occurs in a call, for every way its collaborators can answer |
| `InvokeLlm.EffectsInOrder` | packages/llm-client/src/invoke.ts:80-234 | admission, provider calls, success report, run result, throttle report and release come in this order |
| `InvokeLlm.OutcomeIs` | packages/llm-client/src/invoke.ts:80-234 | the call succeeds if and only if no step throws and the release it owes gets through; otherwise its error is that of the release, else of the failure log, else of the first step that threw |
| `InvokeLlm.SlotDiscipline` | packages/llm-client/src/invoke.ts:80-234 | at every step of a call it holds no slot or one, admits only first and releases only last while holding |
| `WorkerCalls.InterleavingsAreFeasible` | packages/llm-client/src/invoke.ts:92-103 | every interleaving of calls of invokeLLM, with throws, lost replies, failed releases and crashes anywhere, is a feasible run of workers |
| `WorkerCalls.SlotsAccountedForIff` | packages/llm-client/src/invoke.ts:205-234 | at every moment the counter equals the calls that hold a slot plus the leaked slots, if and only if the counter key is never dropped while it counts slots |
| `WorkerCalls.LossPossibleIff` | packages/limiter/src/redis-limiter.ts:232-234 | such a drop is possible if and only if the counter is in use and nothing touched it for its whole TTL |
| `WorkerCalls.CounterNeverOverstates` | packages/limiter/src/redis-limiter.ts:215-244 | whatever happens, the counter never claims more than that |
| `WorkerCalls.SlotsWithinCeiling` | packages/limiter/src/redis-limiter.ts:215-244 | with a fixed ceiling of at least one, calls that hold a slot and leaked slots together never exceed it while no counted slot is dropped |
| `WorkerCalls.NothingLeaksIff` | packages/llm-client/src/invoke.ts:229-234 | no slot is leaked if and only if every call that returned could give its slot back and no call died holding one |
| `StoreCalls.Drive` | packages/limiter/src/redis-limiter.ts:215-244 | on the store itself, for any interleaving of calls, scripts, time and expiry: each move given becomes the one step of the fleet it stands for (an acquire goes on exactly when its script grants it), the levels returned are what the counter key held after each, and they are at every moment the calls that hold a slot plus the leaked slots, if and only if no expiry drops a counted slot; the adaptive state changes by the reports of the calls |
| `Placeholders.MatchAtExact` | packages/optimization-strategy/src/error-pattern-analysis/prompts.ts:809 | greedy reading at a position finds a match exactly when the pattern has one there, and it is the only one |
| `Placeholders.MatchIsText` | packages/orchestration-shared/src/prompt-renderer.ts:22 | a match is the text of two braces, white space, a name, white space, two braces |
| `Placeholders.CharacterClasses` | packages/orchestration-shared/src/prompt-renderer.ts:22 | the characters of names for validator and renderer, and the white space |
| `Placeholders.MatchesNeverOverlap` | packages/orchestration-shared/src/prompt-renderer.ts:22 | no match of either pattern starts inside a match of either |
| `Placeholders.ScanFindsEveryMatch` | packages/optimization-strategy/src/error-pattern-analysis/prompts.ts:812-814 | resuming at the end of each match misses none that starts anywhere in the text |
| `Placeholders.ExtractVariableNames` | packages/optimization-strategy/src/error-pattern-analysis/prompts.ts:808-816 | returns the distinct names of all matches in order of first appearance |
| `OrderedSets.DistinctInOrder` | packages/optimization-strategy/src/error-pattern-analysis/prompts.ts:808-816 | distinct names are the names at their first occurrences, in order |
| `Placeholders.ValidatorSeesTheIdentifiers` | packages/optimization-strategy/src/error-pattern-analysis/prompts.ts:808-816 | the validator finds exactly the identifiers among the names the renderer matches, in the same order |
| `Placeholders.NamesAcrossSeam` | packages/optimization-strategy/src/error-pattern-analysis/generate.ts:101-111 | behind white space and a character no placeholder can hold, the names of a concatenation are the names of its parts, whatever the front ends with |
| `VariableRules.OkMeansUsable` | packages/optimization-strategy/src/error-pattern-analysis/parse.ts:581-603 | validation passes if and only if the body uses only whitelisted names and keeps every whitelisted name of its base |
| `VariableRules.WhitelistCoversRendererIff` | packages/orchestration-shared/src/prompt-renderer.ts:22 | an accepted body has only whitelisted placeholders for the renderer if and only if each rendered name that is no identifier is whitelisted |
| `VariableRules.DottedNameSlipsThrough` | packages/orchestration-shared/src/prompt-renderer.ts:22 | a name that is no identifier does pass the validator and is rendered: a concrete body |
| `AutoPatch.PatchedNames` | packages/optimization-strategy/src/error-pattern-analysis/generate.ts:101-111 | for any body and any missing identifiers, scanning the patched body gives exactly the body's names followed by the missing ones |
| `AutoPatch.PatchRepairs` | packages/optimization-strategy/src/error-pattern-analysis/generate.ts:283-297 | a body that only lost required names always validates after patching |
| `AutoPatch.HeaderSpeaks` | packages/optimization-strategy/src/error-pattern-analysis/generate.ts:107-110 | the header of the patch is the one of the prompt language |
| `Generate.UnknownChanges` | packages/optimization-strategy/src/error-pattern-analysis/generate.ts:431-443 | the check accepts exactly the replies whose non-empty change ids are all known |
| `Generate.GenerateNextVersion` | packages/optimization-strategy/src/error-pattern-analysis/generate.ts:227-333 | at most three calls, each but the last only having lost placeholders; an error is a fault of the last reply itself, the first not merely missing placeholders, so the error after patching is unreachable; whatever is returned is usable: only whitelisted placeholders, every whitelisted one of the base, only known applied changes |
| `Goals.CountUnmet` | packages/optimization-strategy/src/loop/best.ts:6-13 | the loop counts the goals that are missed or unmeasured |
| `Goals.IsBetterThan` | packages/optimization-strategy/src/loop/best.ts:27-44 | the loops compute the order that the next lemmas are about |
| `Goals.TargetIsTheBoundary` | packages/optimization-strategy/src/loop/goals.ts:14-31 | on its target a goal is met unless it asks for more, beyond it in its own direction always, short of it never |
| `Goals.ReadsItsOwnMetric` | packages/optimization-strategy/src/loop/goals.ts:4-12 | a goal reads its own metric in its own scope and nothing else |
| `Goals.AllMetMeans` | packages/optimization-strategy/src/loop/goals.ts:33-36 | all goals are met if there are some and each is achieved |
| `Goals.TieBreak` | packages/optimization-strategy/src/loop/best.ts:15-44 | with as many goals unmet, a candidate is better if and only if all its metrics are there and either one of the current ones is not, or its gains in each goal's direction outweigh its losses |
| `Goals.DominanceWins` | packages/optimization-strategy/src/loop/best.ts:15-44 | metrics that are nowhere worse and somewhere different are better |
| `Goals.MeasuredBeatsMissing` | packages/optimization-strategy/src/loop/best.ts:16-19 | all else equal a measured metric never loses to a missing one |
| `Goals.BetterIsStrictWeakOrder` | packages/optimization-strategy/src/loop/best.ts:27-44 | irreflexive, asymmetric, transitive, and "neither is better" is transitive too, missing metrics included |
| `Goals.MeetingAllGoalsWins` | packages/optimization-strategy/src/loop/best.ts:33-35 | meeting all goals beats missing one |
| `Goals.BestIsEarliestMaximal` | packages/optimization-strategy/src/loop/best.ts:27-44 | the running best is the earliest maximal element of what it has seen |
| `Goals.ReplacesIffBeatsAll` | packages/optimization-strategy/src/loop/best.ts:27-44 | a candidate replaces the running best exactly when it beats everything before it |
| `Goals.GoalsMetByTheRound` | packages/optimization-strategy/src/loop/round-outcome.ts:25-31 | while the best misses a goal, a round is decided "goals met" exactly when it meets them itself, and then it is the best |
| `Goals.ProgressIsOfTheBest` | packages/optimization-strategy/src/loop/round-outcome.ts:25-31 | the progress and the decision "goals met" are those of the best after the round, which changes only for something better |
| `IterationLoop.ComputeNoBestStreak` | packages/optimization-strategy/src/loop/run-iteration-loop.ts:31-38 | counts the trailing rounds that were not best |
| `IterationLoop.TrailingExactly` | packages/optimization-strategy/src/loop/run-iteration-loop.ts:31-38 | the count is n exactly when the last n flags are down and the one before them is up |
| `IterationLoop.ToExamine` | packages/optimization-strategy/src/loop/run-iteration-loop.ts:144-147 | the analysis looks at version, results and metrics of the previous round exactly when it regressed, at those of the best otherwise |
| `IterationLoop.ProduceVersion` | packages/optimization-strategy/src/loop/run-iteration-loop.ts:149-215 | the version written is generated from the best, is one of the replies (possibly patched), is usable, and is sent with the id of that best as its parent; a failure is the first throw in program order, and nothing is written then |
| `IterationLoop.RecordRun` | packages/optimization-strategy/src/loop/run-iteration-loop.ts:227-278 | best version, metrics and results move together; the regression remembered names the best, although it was read through the previous one |
| `IterationLoop.RunRound` | packages/optimization-strategy/src/loop/run-iteration-loop.ts:140-278 | one round adds at most its own version and record, keeps the invariant even when it throws, and fails with the first throw of its steps in program order, or not at all |
| `IterationLoop.AfterRound` | packages/optimization-strategy/src/loop/run-iteration-loop.ts:281-291 | after a round the goal check fires exactly when that round itself meets the goals, and then it is the best |
| `IterationLoop.Advance` | packages/optimization-strategy/src/loop/run-iteration-loop.ts:140-307 | after each round the loop goes on or stops for the reason that fits the recorded rounds |
| `IterationLoop.RunIterationLoop` | packages/optimization-strategy/src/loop/run-iteration-loop.ts:103-311 | over every run: every version is generated from the best of its time, uses only whitelisted placeholders and keeps those of the original; rounds carry the right decision; the outcome is the best of everything; the reason is the first that applied, a fatal error being the first throw of the round reached, in program order; each version is written once, as a child of the one it came from, and each round recorded once; recordFinal is called exactly once with that outcome, also when it throws, and not at all if and only if the run reached a round whose control signal could not be read |
| `IterationLoop.BestOfTheRun` | packages/optimization-strategy/src/loop/run-iteration-loop.ts:228-233 | no recorded round beats the final best, it beats everything before it, and a round is flagged best exactly when it beats the baseline and every earlier round; the progress recorded with a round is that of the best up to then |
| `IterationLoop.BestSoFar` | packages/optimization-strategy/src/loop/run-iteration-loop.ts:227-233 | at any point of a run the best is the earliest maximum of the baseline and the rounds before |
| `IterationLoop.SourcesOfTheRun` | packages/optimization-strategy/src/loop/run-iteration-loop.ts:140-215 | each version's parent is the version of the best of its time; analysed were the run results of the last round if it was worse than that, and those of the best otherwise |
| `IterationLoop.PlaceholdersOfTheRun` | packages/optimization-strategy/src/loop/run-iteration-loop.ts:140-215 | each version uses only whitelisted placeholders and every whitelisted one of its parent and of the base prompt |
| `IterationLoop.FirstThrowCounts` | packages/optimization-strategy/src/loop/run-iteration-loop.ts:140-226 | of the steps of a round up to its experiment, the first that throws gives the error |
| `IterationLoop.ChangeLeadsOn` | packages/optimization-strategy/src/loop/run-iteration-loop.ts:314-341 | the change in a history entry leads from the previous round's value to this round's |
| `Renderer.BuildInputVariables` | packages/orchestration-shared/src/prompt-renderer.ts:40-46 | the loop binds the variables as InputVariables describes |
| `Renderer.LastDeclarationWins` | packages/orchestration-shared/src/prompt-renderer.ts:40-46 | the last declaration of a name gives its value, for every name but `__proto__` |
| `Renderer.OnlyDeclaredNames` | packages/orchestration-shared/src/prompt-renderer.ts:40-46 | only declared names are bound, and never `__proto__`, which plain assignment does not make a property |
| `Renderer.RenderIsFillingHoles` | packages/orchestration-shared/src/prompt-renderer.ts:78-85 | the body splits into literals and placeholders that concatenate back to it; rendering replaces known placeholders by their values and leaves all else verbatim; the placeholders are exactly the pattern's matches |
| `Renderer.RenderedParts` | packages/orchestration-shared/src/prompt-renderer.ts:29-85 | part by part: literals stay, unbound placeholders stay as written, bound ones become the text of their value, nothing for an absent one |
| `Renderer.SegmentLiteralsArePlain` | packages/orchestration-shared/src/prompt-renderer.ts:78-85 | no literal between the placeholders holds a placeholder of its own |
| `Renderer.UnknownNamesStay` | packages/orchestration-shared/src/prompt-renderer.ts:83 | a body that mentions no bound name renders to itself |
| `TokenBudget.FitSamplesToBudget` | packages/optimization-strategy/src/error-pattern-analysis/token-budget.ts:42-61 | splits the input greedily into two order-preserving parts, keeps the first minSamples, stays in budget beyond them, and drops only what would not fit |
| `TokenBudget.SelectKeepsOrder` | packages/optimization-strategy/src/error-pattern-analysis/token-budget.ts:42-61 | the parts of the split are the elements at the marked places, in order |
| `TokenBudget.FitBatch` | packages/optimization-strategy/src/error-pattern-analysis/analyze.ts:333-368 | a non-empty input keeps a sample; it is the forced, field-truncated head exactly when none fits alone; an unforced fit keeps the call within the batch limit |
| `TokenBudget.KeepBatches` | packages/optimization-strategy/src/error-pattern-analysis/analyze.ts:541-563 | keeps confusion batches first and at least one batch, greedily, and counts the dropped ones |
| `TokenBudget.ConfusionFirstSorts` | packages/optimization-strategy/src/error-pattern-analysis/analyze.ts:543-549 | every confusion batch precedes every other, and batches of a kind stay in their order |
| `TokenBudget.LongTextFitsIff` | packages/optimization-strategy/src/error-pattern-analysis/token-budget.ts:85-91 | with the head computed as the double product rounds it, the limit is respected if and only if the text already did or the limit leaves room for the marker |
| `TokenBudget.MarkerOverLimit` | packages/optimization-strategy/src/error-pattern-analysis/token-budget.ts:85-91 | where the marker alone is over the limit, the text loses a few characters at its end and gets the marker |
| `TokenBudget.LongTextKeepsEnds` | packages/optimization-strategy/src/error-pattern-analysis/token-budget.ts:85-91 | a shortened text starts and ends like the original around the marker |
| `TokenBudget.HeadFits` | packages/optimization-strategy/src/error-pattern-analysis/token-budget.ts:88-89 | on doubles too, the floored product of 0.7 leaves room for the tail, and is negative exactly when there is no room |
| `TokenBudget.HeadIsSevenTenths` | packages/optimization-strategy/src/error-pattern-analysis/token-budget.ts:88 | for every room a text can have the head is seven tenths of it, to within one character |
| `TokenBudget.TruncationOnlyShortens` | packages/optimization-strategy/src/error-pattern-analysis/token-budget.ts:66-82 | nothing changes but strings over the limit, and those keep their first characters |
| `TokenBudget.TruncationSettles` | packages/optimization-strategy/src/error-pattern-analysis/token-budget.ts:66-82 | every string anywhere in the value ends within limit plus marker, values within the limit are untouched, and a second pass changes nothing |
| `EvidenceBudget.SortPatternsSorts` | packages/optimization-strategy/src/error-pattern-analysis/generate.ts:452-454 | sorting by weight reorders and sorts, and costs no characters |
| `EvidenceBudget.SortPatternsStable` | packages/optimization-strategy/src/error-pattern-analysis/generate.ts:452-454 | the affected count decides, or the plain count where there is none, and equals stay in their order |
| `EvidenceBudget.SortChangesSorts` | packages/optimization-strategy/src/error-pattern-analysis/generate.ts:455-459 | sorting by priority and count reorders and sorts, and costs no characters |
| `EvidenceBudget.SortChangesStable` | packages/optimization-strategy/src/error-pattern-analysis/generate.ts:446-459 | high comes before medium, low and none, then the affected count decides, and equals stay in their order |
| `EvidenceBudget.TurnTakesAway` | packages/optimization-strategy/src/error-pattern-analysis/generate.ts:481-504 | while changes are no fewer than patterns a turn takes the last change, otherwise the last pattern and exactly the changes that address patterns but none of those left |
| `EvidenceBudget.EveryElementCounts` | packages/optimization-strategy/src/error-pattern-analysis/generate.ts:468 | every element adds its own size and, behind another, a comma |
| `EvidenceBudget.TokensHoldFour` | packages/llm-client/src/token-estimate.ts:10-15 | the token count is the least that holds the characters four to a token, and at least one |
| `EvidenceBudget.FitEvidenceBundleToBudget` | packages/optimization-strategy/src/error-pattern-analysis/generate.ts:464-516 | terminates; every drop was needed; kept patterns are a non-empty prefix of the sorted list; once a pattern is dropped every kept change addresses a kept pattern or none; truncated exactly when the original exceeded the budget |
| `ClassificationMetrics.ComputePerClassConfusion` | packages/metrics/src/classification/per-class.ts:18-53 | every label met except the null bucket and `__proto__`, once, in the order a record enumerates them, with exactly the counts its rows give it, support being tp + fn |
| `RecordKeys.IndicesComeFirst` | packages/metrics/src/classification/per-class.ts:47-52 | that order: array-index labels first, ascending, then the others as they were met |
| `RecordKeys.IndicesAreDecimals` | packages/metrics/src/classification/per-class.ts:47-52 | the labels enumerated as indices are the decimals of the numbers below 2^32 - 1 |
| `RecordKeys.KeptInOrder` | packages/metrics/src/classification/per-class.ts:47-52 | the labels of a kind stay in their order |
| `RecordKeys.RecordOrderKeeps` | packages/metrics/src/classification/per-class.ts:47-52 | and it loses and repeats no label |
| `ClassificationMetrics.SupportIsSum` | packages/metrics/src/classification/per-class.ts:35-44 | per label the samples counted as having it, correct ones by decision and incorrect ones by expectation, are tp + fn |
| `ClassificationMetrics.ConfusionConserves` | packages/metrics/src/classification/per-class.ts:29-45 | null bucket included, true positives sum to the correct count, false positives and false negatives both to the incorrect count, supports to all judged |
| `ClassificationMetrics.BucketsMeanSamples` | packages/metrics/src/classification/per-class.ts:29-45 | every quantity of bucketed rows equals that of the expanded single samples |
| `ClassificationMetrics.SumIgnoresOrder` | packages/metrics/src/classification/accuracy.ts:8-13 | no count depends on the order of the rows |
| `ClassificationMetrics.MacroDependsOnCounts` | packages/metrics/src/classification/precision-recall.ts:32-40 | the macro averages depend on nothing but the counts of each label |
| `ClassificationMetrics.MacroMeansSamples` | packages/metrics/src/classification/f1.ts:17-21 | each macro average of bucketed rows is that of the single samples, although empty buckets bring up labels no sample has |
| `ClassificationMetrics.ReportMeansSamples` | packages/metrics/src/classification/index.ts:15-45 | totals, accuracy and averages in the report of bucketed rows are those of the single samples, and so is the entry of every label some sample counts for; token usage and cost, which buckets do not attribute to samples, are not compared |
| `ClassificationMetrics.MacroIgnoresRowOrder` | packages/metrics/src/classification/precision-recall.ts:32-40 | no macro average depends on the order of the rows |
| `ClassificationMetrics.F1IsTheHarmonicMean` | packages/metrics/src/classification/f1.ts:8-15 | F1 is present exactly when tp + fp > 0 and tp + fn > 0, and then equals 2tp / (2tp + fp + fn) and lies in [0, 1] |
| `ClassificationMetrics.ComputeAccuracy` | packages/metrics/src/classification/accuracy.ts:5-19 | correct over total, both over all rows |
| `ClassificationMetrics.ComputeClassificationMetrics` | packages/metrics/src/classification/index.ts:15-45 | the report composes the parts: each entry, each macro average, the accuracy, the failure count and the usage are those of the rows |
| `ClassificationMetrics.EntryMeans` | packages/metrics/src/classification/precision-recall.ts:16-30 | each entry read off the rows: precision is the share of the correct samples in the judged ones decided as the label, recall in those having it, F1 twice the correct ones in both together; each absent exactly without a whole |
| `ClassificationMetrics.ReportMeans` | packages/metrics/src/classification/index.ts:15-58 | total, correct and failed read off the rows; accuracy their share; each macro average the mean of the entries that have the measure, absent exactly if none has |
| `ClassificationMetrics.LabelsAsMet` | packages/metrics/src/classification/per-class.ts:18-53 | labels are met row by row, the decision before the expected output; all become classes but the null bucket and the name of the prototype |
| `ClassificationMetrics.UsageAddsUp` | packages/metrics/src/classification/index.ts:25-30 | every row adds its own tokens and cost |

## Left out

- Rounding of averages, factors and scores, and Redis number formatting: reals are exact here, and token totals of 10^14 and more, which Lua prints with an exponent, are not distinguished.
- RedisLimiter.Acquire: timers are assumed not to fire early, request ids not to repeat, and a sleeping worker's own clock to advance by at least the time slept.
- Several limiter keys at once: keys do not share state, so one key is modelled, with one window length for its lifetime.
- InvokeLlm.InvokeLLM: image preprocessing, adapter lookup and token estimation are one step that may throw; message contents, usage and cost are not modelled; reports whose own failure is swallowed are recorded as attempted; a client library that resends a script after a reconnect is not modelled.
- IterationLoop.RunIterationLoop: the analysis is an arbitrary answer (the change ids it offers) or a throw; error classes are reduced to what was thrown; the previous round's run results only matter here through whether reading them throws; timestamps, change summaries, applied changes and tips and the toolbox hint are not modelled.
- Generate.GenerateNextVersion: replies arrive parsed; JSON repair, output-schema proposals, prompt wording and log lines are not modelled.
- ClassificationMetrics.ComputeClassificationMetrics: a real class named `__null__` shares the null bucket, as in the code.
- TokenBudget.LongTextKeepsEnds: lengths count characters, where JavaScript counts UTF-16 units.
- TokenBudget.KeepBatches: the field truncation before it is covered by TruncationSettles only.
- EvidenceBudget.FitEvidenceBundleToBudget: an absent conflicts list is an empty one, and the size of an element is an input, since JSON encoding is not modelled.
- fitRoundHistoryToBudget: a fixed ladder of three shortenings, settled by reading its branches.
- Renderer.BuildInputVariables: a sample field named like an inherited property of objects (`toString`, `constructor`) but absent from the sample is read as absent, where the code finds the inherited function.
- Renderer.RenderIsFillingHoles: the text form of numbers and JSON values is an input; image references and the output-format section are not modelled.
- The connectivity probe, the admission dispatcher, queue and provider adapters, persistence and user interface: no invariant of their own is modelled.
