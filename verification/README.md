# SilentPass backend: a verified model of its decision and state-keeping core

SilentPass verifies phone numbers for tenants: silently through telco adapters, else by one-time codes, and it
decides by policies how much a result is trusted. This project models the parts of its Go backend that decide and
that keep state, and proves what they promise over all inputs and over all runs.

Every part has the same shape. Functions on values say what a call does and what a whole run of calls amounts to;
lemmas prove the promises about those functions; classes and methods in the form of the Go code (mutable fields,
slices compacted or sorted in place, loops) are proved against the same functions. The limiters, the smart router,
the token client, the OTP router, the verification service and the pricing engine carry the list of their calls as a
ghost field, and `Valid` ties their state to the run of these calls, so what is proved of runs holds of the objects.

| file | what it models |
|---|---|
| Options.dfy | a value that may be missing |
| SliceSort.dfy | `sort.Slice`: an in-place permutation with non-decreasing keys, unstable |
| PolicyModel.dfy, PolicyFold.dfy, PolicyPlans.dfy, PolicyEngine.dfy | policies, rules, the evaluation with its running score, the sorts, the responses |
| PolicySwaps.dfy, PolicyTies.dfy, PolicySafety.dfy, PolicyLaws.dfy | when order matters, what equal priorities leave open, that more risk never softens a decision, and what a decision comes to in plain terms |
| RateLimiter.dfy, RedisLimiter.dfy | the in-memory sliding window and the Redis bucket counter |
| Routing.dfy, Selection.dfy, SmartRouter.dfy, TelcoRouter.dfy | adapter statistics, circuit breaker, selection and what it means in counters, country index; the plain router |
| LabelKeys.dfy, LabelTexts.dfy, Metrics.dfy | label sets as text, which texts are shared, counter cells, histogram series |
| TokenCache.dfy | the OAuth2 token cache under any number of callers |
| Otp.dfy, OtpRouter.dfy | code stores, sending with SMS fallback, verification over all providers |
| SessionRuns.dfy, SessionRaces.dfy, TenantIsolation.dfy, SessionService.dfy | sessions and the verification service on top of the OTP router, calls one by one and overlapping, and what tenants see of each other |
| PricingRules.dfy, Pricing.dfy | rules, tiers, discounts, tenant plans and price overrides |

## Choices

- Floats are `real`; a rate above 0.5 is then exactly a majority. Times are integers (nanoseconds), and the clock
  reading of a call is a parameter. Go's readings are monotonic, so calls that read the clock under a lock see it not
  go back.
- Random choices and outside answers are parameters: the iteration order of a Go map, generated codes, fresh
  session ids, the answers of telco adapters, token endpoint and OTP services, the reachability of Redis.
- A phone hash is the text that the service works with; SHA-256 and token signing do not appear.
- The circuit breaker comment at internal/adapter/telco/smart_router.go:153 speaks of 5 consecutive failures. The
  code tests only for more than 10 requests with more than half failed, and so does the model.
- internal/middleware/ratelimit_redis.go:13 announces a sliding window. The code counts in fixed buckets, so twice
  the limit can pass within a moment; `FixedBuckets.TwiceTheLimitPassesAtOnce` gives that run for every limit.
- A Redis key is modelled as the pair of caller key and bucket number; the number is what follows the last colon,
  so the text determines the pair. Counters of one metric name are likewise indexed by the pair of name and label
  text, which stands for the two nested maps.
- Channels are registered before the OTP router serves: a registration starts its list of calls afresh.
- An evaluation uses one UTC hour, and a selection or verification one clock reading, where the code reads the
  clock again for every rule, adapter or provider.

## What is not so

Some expected properties fail, and the model says exactly when or why:

- The order of rules can matter: two of them can be swapped anywhere exactly when their other conditions rule each
  other out or neither's adjustment can carry the score over the other's threshold
  (`PolicySwaps.SwapIsSafeExactlyWhenCommuting`). So equal priorities can let the sort decide between blocking and
  allowing (`PolicyTies.TiesLetTheSortDecide`), for one policy with two tied rules exactly when these do not commute
  (`PolicyTies.TwoTiedRulesExactly`). The stored order as such never matters (`PolicyTies.StoredOrderNeverMatters`).
- A higher initial score can end lower, where a rule with a negative adjustment reads the score; no other rule turns
  the order of two evaluations around (`PolicyFold.KeepsOrderExactly`).
- Adding a rule can lower the score, exactly when it has a negative adjustment and its hour range holds an hour
  (`PolicyFold.InsertionIsSafeExactlyWhenNotNegative`).
- The Redis limiter bounds an interval by the limit exactly when the interval lies in one bucket
  (`FixedBuckets.IntervalIsBoundedExactlyInBucket`), so a window exactly when it ends with a bucket. It bounds a bucket
  by every limit exactly when no call of the bucket reaches Redis a window or more after the one before it; one that
  reads the clock late in the bucket and is slow can find the counter gone
  (`FixedBuckets.BucketPassesExactlyWhenKeepingUp`).
- `IsSupported` and the selection disagree at the very instant of recovery (`Routing.SupportedUpToTheInstant`).
- Label values with quotes let two label sets share a series (`LabelKeys.QuotesMakeKeysCollide`); exactly which texts
  belong to one label set alone is `LabelTexts.OwnsItsTextExactlyWhenAlone`, and exactly which do among label sets with
  the same names, as one metric records them, is `LabelTexts.SharesAmongNamesExactlyWhenAmbiguous`.
- A colon in a product or country lets two pairs share an override (`PricingRuns.KeyIsOwnExactlyWithoutColons`).
- A discount above 100 percent, which nothing rejects, turns the order of prices around
  (`PricingRules.MonotoneExactlyUpToHundred`).
- A verified session does not stay verified: a silent verification after its expiry marks it expired, and a code
  can verify it again later (`SessionRuns.VerifiedExactlyWhenConfirmed`). With overlapping calls, a telco answer that
  comes late can also verify a session already marked expired (`SessionRaces.EndsExactlyAsEarned`).
- Codes are kept by phone alone, so a code sent for one tenant can verify a session of another, exactly when the two
  are for the same phone (`TenantIsolation.IsolatedExactlyWhenPhonesDiffer`).

## Model

| member | source | states |
|---|---|---|
| PolicyModel.HoursAreAnArc | internal/service/policy/engine.go:199-212 | an hour range is the arc of the clock from its first hour to before its second, across midnight if need be, and empty for equal hours |
| PolicyModel.CompatibleExactly | internal/service/policy/engine.go:150-215 | two conditions can match for one input and hour exactly when no list, flag or hour range of one rules out the other |
| PolicyModel.CanMatchExactly | internal/service/policy/engine.go:150-215 | a condition can match at all unless its hour range holds none of the 24 hours |
| PolicyFold.FiringAccounts | internal/service/policy/engine.go:142-145 | a rule that fires adds its adjustment to the score and its reasons, in order, to the reasons |
| PolicyFold.RunFollowsLog | internal/service/policy/engine.go:125-148 | the final score is the initial one plus exactly the fired adjustments, and the reasons are the in-order firing log |
| PolicyFold.RunTakesMostSevere | internal/service/policy/engine.go:73-81 | the final verdict is the most severe of the starting one and all that fired, and never an unknown text that it did not start with |
| PolicyFold.KeepsOrderExactly | internal/service/policy/engine.go:138-146 | an entry keeps the order of any two outcomes, for all inputs, iff it can never fire, or does not lower the score, or does not read it |
| PolicyFold.MoreEntriesNeverLower | internal/service/policy/engine.go:125-148 | monotonicity with feedback: starting riskier and evaluating more entries anywhere in the order never ends with a lower score or severity, if the added entries do not lower the score and the others do not or do not read it |
| PolicyFold.InsertionIsSafeExactlyWhenNotNegative | internal/service/policy/engine.go:138-146 | a rule can be inserted after any entries and before any that keep order without lowering score or verdict iff it is disabled, its hour range holds no hour, or its adjustment is not negative |
| PolicyFold.RunAddsTally | internal/service/policy/engine.go:138-146 | if no rule reads the score, a run adds the sum of adjustments, the maximal severity and the bag of reasons of its entries |
| PolicyPlans.ResponsesAreExplained | internal/service/policy/engine.go:32-64 | every response is explained by what fired in one of the orders of the stored policies that the sorts allow: verdict the most severe of built-in and fired ones and always a known one, risk level from the sum of initial, built-in and fired scores, reasons in order, action from the verdict |
| PolicyPlans.RecordTallyIgnoresRuleOrder | internal/service/policy/engine.go:133-136 | without feedback the effect of a policy does not depend on the stored order of its rules |
| PolicyPlans.OrderDoesNotMatter | internal/service/policy/engine.go:133-146 | if no enabled rule of a participating policy reads the score, all orders of the stored policies and rules, and all ways to break ties, give the same verdict, risk level, action and bag of reasons |
| PolicySwaps.SwapIsSafeExactlyWhenCommutingAt | internal/service/policy/engine.go:138-146 | for one input and hour, two entries can be swapped between any others, from any score, with the same score, severity, reasons and firing entries iff one of them cannot fire or neither adjustment carries the score over the other's threshold |
| PolicySwaps.SwapIsSafeExactlyWhenCommuting | internal/service/policy/engine.go:138-146 | the same for all inputs and hours, iff the other conditions rule each other out or neither disturbs the other |
| PolicyTies.CommutingTiesDoNotMatter | internal/service/policy/engine.go:133-146 | if tied rules of a policy, and all rules of tied policies, commute, all ways to break the ties give the same decision |
| PolicyTies.FeedbackFreeTiesCommute | internal/service/policy/engine.go:133-146 | where no rule reads the score all ties commute |
| PolicyTies.StoredOrderNeverMatters | internal/handler/policy.go:132-139 | whatever the rules, every reordering of the stored policies and of their rules has the same possible responses |
| PolicyTies.TwoTiedRulesExactly | internal/service/policy/engine.go:134-136 | a policy with two tied rules: some initial score makes the order of the sort show in what fires iff the rules do not commute for the input and hour |
| PolicyTies.TiesLetTheSortDecide | internal/service/policy/engine.go:134-136 | one stored policy with two rules of equal priority, one reading the score, has both Block and Allow as possible verdicts for one input |
| PolicySafety.PrioritiesDecide | internal/service/policy/engine.go:237-239 | with pairwise different priorities the response is the same for every order in which the store lists the policies, reasons included |
| PolicySafety.SomeResponseIsPossible | internal/service/policy/engine.go:32-64 | every stored list and input has a possible response |
| PolicySafety.NoTiesCommute | internal/service/policy/engine.go:237-239 | pairwise different priorities leave nothing that could fail to commute |
| PolicySafety.RaisingScoreNeverSoftens | internal/service/policy/engine.go:32-64 | where every rule keeps order, a higher initial score has for each possible response one that is no softer, and conversely; if ties commute, every response is no softer than every one before |
| PolicySafety.AddingPolicyNeverSoftens | internal/service/policy/engine.go:221-241 | both forms for storing one more policy, if its own rules do not lower the score and the others keep order; the second form if ties commute before or after |
| PolicySafety.AddingRuleNeverSoftens | internal/service/policy/engine.go:125-148 | both forms for one more rule that does not lower the score, in any stored policy |
| PolicyLaws.PlansFollowPriorities | internal/service/policy/engine.go:133-136 | in every plan the priorities of the policies, and those of the rules of each policy, do not rise |
| PolicyLaws.HigherPriorityComesFirst | internal/service/policy/engine.go:134-146 | a stored policy with two rules of different priorities has one possible response: its SIM swap action, then the rule of higher priority, then the other one |
| PolicyLaws.FirstRaisesSecondBlocks | internal/service/policy/engine.go:133-146 | for example, a rule of priority 20 that adds 30 and one of priority 10 that blocks above 25 lead to Block, "deny_operation" and medium risk |
| PolicyLaws.RunIsRanked | internal/service/policy/engine.go:73-81 | the verdict is Block if anyone asks for it, else Review, else Challenge, else the one it started with |
| PolicyLaws.SwapActionsFire | internal/service/policy/engine.go:126-131 | the SIM swap actions of all policies fire if a swap was detected, and none otherwise |
| PolicyLaws.OnlyMatchingRulesFire | internal/service/policy/engine.go:138-146 | only enabled rules of the policies fire, and only if their condition matches at some score |
| PolicyLaws.FieldsAskFor | internal/service/policy/engine.go:151-215 | what each field of a condition asks of the input, the score and the hour when it stands alone |
| PolicyLaws.ConditionsMatchByField | internal/service/policy/engine.go:151-215 | a condition matches iff each of its fields does |
| PolicyLaws.ResponsesInPlainTerms | internal/service/policy/engine.go:32-122 | every response by literal values: verdict, action, thresholds 50 and 20 for the risk level, 50, 20, 15 and 10 for the signals, and the reasons in order |
| PolicyEngine.EvaluationResult.Escalate | internal/service/policy/engine.go:74-81 | severity only grows; a non-empty reason is appended |
| PolicyEngine.EvaluationResult.AddRisk | internal/service/policy/engine.go:83-88 | the score grows by the adjustment; a non-empty reason is appended |
| PolicyEngine.EvaluateBuiltinSignals | internal/service/policy/engine.go:91-122 | the four built-in signals amount to a closed form of score, verdict and reasons |
| PolicyEngine.FilterPolicies | internal/service/policy/engine.go:221-241 | the result holds exactly the active policies for the use case and country of the input, each as often as stored, and their priorities do not rise |
| PolicyEngine.EvaluatePolicyRules | internal/service/policy/engine.go:125-148 | the loops with in-place sorts compute the fold over one of the allowed orders and leave every rule slice a permutation of itself, shared slices included |
| PolicyEngine.Evaluate | internal/service/policy/engine.go:32-64 | the answer is one of the possible responses of the listed policies, of none without resolver or on a listing error; stored rules are at most permuted |
| SlidingWindow.WindowIsBounded | internal/middleware/ratelimit.go:26-49 | a limiter that forgets nothing admits at most `limit` calls of a key in every interval (t - window, t] of every run |
| SlidingWindow.StoredIsRecentHistory | internal/middleware/ratelimit.go:33-40 | the compacted list of a key is its full admission history cut to the window of its last call |
| SlidingWindow.CompactionIsExact | internal/middleware/ratelimit.go:33-48 | with a clock that does not go back, the limiter that compacts admits exactly the calls that the one with full history admits |
| SlidingWindow.AllowedIsBounded | internal/middleware/ratelimit.go:26-49 | the bound of `limit` per window for the limiter as it is, over every run, key and time |
| SlidingWindow.AllowsExactlyWhenRoom | internal/middleware/ratelimit.go:42-48 | a call is refused iff its key already has `limit` admissions in the window that ends with it |
| SlidingWindow.StoredIsBounded | internal/middleware/ratelimit.go:42-47 | the stored list of a key never exceeds the limit, or zero for a negative one |
| SlidingWindow.KeysAreIndependent | internal/middleware/ratelimit.go:33-48 | what is admitted of a key is what is admitted when no other key calls |
| RateLimiter.Compact | internal/middleware/ratelimit.go:34-40 | the in-place loop leaves exactly the times after the cutoff, in order, at the front of the same storage |
| RateLimiter.Append | internal/middleware/ratelimit.go:47-47 | append adds one time, in the same storage while capacity lasts, else in a fresh copy |
| RateLimiter.RateLimiter.Allow | internal/middleware/ratelimit.go:26-49 | the decision is that of the compacting limiter, every list stays what its calls leave behind, and keys never share storage |
| FixedBuckets.CountersTellArrivals | internal/middleware/ratelimit_redis.go:24-27 | a counter lives one window from the last arrival and holds at most the arrivals of its bucket, all of them iff each arrived less than a window after the one before it |
| FixedBuckets.PromptCallsKeepUp | internal/middleware/ratelimit_redis.go:24-27 | the refreshed time to live keeps a counter alive to the end of its bucket: calls that arrive in the bucket of their clock reading keep up |
| FixedBuckets.CallFindsArrivals | internal/middleware/ratelimit_redis.go:21-34 | a call finds on its counter the earlier calls of its key in its bucket, at most, and all of them iff the bucket keeps up |
| FixedBuckets.BucketPasses | internal/middleware/ratelimit_redis.go:34-50 | each bucket that keeps up lets through exactly the smaller of limit and arrivals |
| FixedBuckets.BucketPassesExactlyWhenKeepingUp | internal/middleware/ratelimit_redis.go:21-50 | a bucket lets through the smaller of limit and arrivals for every limit iff none of its calls arrives a window or more after the one before it |
| FixedBuckets.AnyWindowPassesTwiceTheLimit | internal/middleware/ratelimit_redis.go:21-52 | calls that read the clock within one window length pass at most twice the limit, in every run in which the key keeps up |
| FixedBuckets.WholeBucketPassesTheLimit | internal/middleware/ratelimit_redis.go:21-52 | calls that read the clock within a bucket pass at most the limit, in every run in which the key keeps up |
| FixedBuckets.TwiceTheLimitPassesAtOnce | internal/middleware/ratelimit_redis.go:13-21 | for every limit and window there is a run that passes twice the limit within two nanoseconds |
| FixedBuckets.IntervalIsBoundedExactlyInBucket | internal/middleware/ratelimit_redis.go:21-50 | every run in which the key keeps up passes at most the limit of calls that read the clock between two times iff the limit is not positive or the times lie in one bucket |
| FixedBuckets.SlidingBoundHoldsExactlyAtBucketEnds | internal/middleware/ratelimit_redis.go:13-50 | the bound of a sliding window holds for a window iff the limit is not positive or the window ends with a bucket |
| FixedBuckets.KeysAreIndependent | internal/middleware/ratelimit_redis.go:21-50 | what passes of a key is what passes when no other key calls |
| RedisLimiter.RateLimiter.Handle | internal/middleware/ratelimit_redis.go:15-53 | a window of no whole second fails; with Redis out of reach the call goes uncounted; else it passes as its counter at its arrival allows, and the remaining count is what the bucket has left, at least zero, if its calls keep up |
| Routing.StatsTellTheReports | internal/adapter/telco/smart_router.go:130-161 | counters equal the reports since registration, and the circuit is open iff the last report failed, there were more than 10, and more than half failed; recovery time is that of the last tripping report |
| Routing.ProbeDecides | internal/adapter/telco/smart_router.go:138-159 | on an open circuit a success closes it and a failure, the probe after the cooldown included, opens it again at once for 30 seconds |
| Routing.RecoveryTakesSuccesses | internal/adapter/telco/smart_router.go:154-160 | with f failures in t > 10 calls the next failure leaves the circuit closed iff at least 2f + 1 - t successes come before it |
| Routing.ScoreBounds | internal/adapter/telco/smart_router.go:115-128 | scores lie in [0, 100], so the starting value -1 of the selection is below all |
| Routing.SuccessOutweighsLatency | internal/adapter/telco/smart_router.go:123-127 | a success rate better by more than three sevenths wins against any latencies |
| Routing.BetterScoresNoLower | internal/adapter/telco/smart_router.go:120-127 | over the same number of calls, more successes and less latency never score lower |
| Selection.PicksInCounters | internal/adapter/telco/smart_router.go:80-128 | while some adapter is not blocked, the first one is selected to which no other is preferred in counters: successes, calls and latency |
| Selection.PreferredExactly | internal/adapter/telco/smart_router.go:115-128 | one score is higher than another iff the adapter is preferred in counters, an adapter without calls counting 50 |
| Selection.CalledAgainstNew | internal/adapter/telco/smart_router.go:115-128 | an adapter with calls is selected over one without calls before it iff `7 * success > 5 * total` at an average latency of a second or more, and with the latency counted in otherwise |
| Selection.CalledBeforeNew | internal/adapter/telco/smart_router.go:115-128 | the same with the adapter with calls first, where a tie is enough |
| Selection.CalledAgainstCalled | internal/adapter/telco/smart_router.go:120-127 | the later of two adapters with calls is selected iff its merit per call is higher |
| Routing.ExactlyOneIsPicked | internal/adapter/telco/smart_router.go:80-110 | whatever the statistics, the selection rule determines exactly one of the adapters that serve a country |
| Routing.SupportedPicksUnblocked | internal/adapter/telco/smart_router.go:50-95 | after a positive `IsSupported` a later selection from the same statistics takes an unblocked adapter |
| Routing.SupportedUpToTheInstant | internal/adapter/telco/smart_router.go:60-87 | selection finds an unblocked adapter iff `IsSupported` holds or an open circuit recovers at this very instant |
| RouterRuns.IndexIsServing | internal/adapter/telco/smart_router.go:39-48 | in every run the country index is the registration list filtered by country, in order and with multiplicity |
| RouterRuns.IndexHasStats | internal/adapter/telco/smart_router.go:84-84 | every indexed adapter has statistics, so no lookup in selection fails |
| RouterRuns.InFlightHaveStats | internal/adapter/telco/smart_router.go:130-147 | every call in flight finds statistics to record into, whatever was registered meanwhile |
| RouterRuns.StatsAreReports | internal/adapter/telco/smart_router.go:39-48 | under any interleaving the statistics of a name are those of its reports since its latest registration |
| RouterRuns.RunsKeepTheBreaker | internal/adapter/telco/smart_router.go:115-161 | in every run scores stay in [0, 100], totals are successes plus failures, and circuits are open iff tripped |
| RouterRuns.SelectedAreFinishedOrInFlight | internal/adapter/telco/smart_router.go:163-180 | selected calls are the finished ones and those in flight |
| RouterRuns.TotalsAreFinishedCalls | internal/adapter/telco/smart_router.go:130-151 | once registration is over, the totals of all names add up to the finished calls |
| SmartRouter.SmartRouter.CircuitTellsTheReports | internal/adapter/telco/smart_router.go:130-161 | of the running router: after any interleaving of its methods a circuit is open iff the reports of its name since the latest registration trip it |
| SmartRouter.SmartRouter.Register | internal/adapter/telco/smart_router.go:39-48 | one registration step: list and index are extended and the statistics of the name reset |
| SmartRouter.SmartRouter.IsSupported | internal/adapter/telco/smart_router.go:50-65 | true iff the circuit of some adapter of the country is closed or past its recovery time |
| SmartRouter.SmartRouter.BestUnblocked | internal/adapter/telco/smart_router.go:80-96 | the loop finds the first unblocked adapter of maximal score, and nothing iff all are blocked |
| SmartRouter.SmartRouter.EarliestRecovery | internal/adapter/telco/smart_router.go:98-108 | the fallback finds the first adapter with the earliest recovery time |
| SmartRouter.SmartRouter.SelectBest | internal/adapter/telco/smart_router.go:71-111 | an error iff no adapter serves the country, else a selection step: the adapter of the selection rule, now in flight |
| SmartRouter.SmartRouter.RecordSuccess | internal/adapter/telco/smart_router.go:130-142 | one finishing step, whatever happened since the selection: one success is counted for the name and nothing else changes |
| SmartRouter.SmartRouter.RecordFailure | internal/adapter/telco/smart_router.go:144-161 | one finishing step: one failure is counted for the name, the circuit trips on a majority of failures, and nothing else changes |
| SmartRouter.SmartRouter.SilentVerify | internal/adapter/telco/smart_router.go:163-180 | the selected adapter gets exactly one report, a failure iff the call failed or answered "failed" |
| SmartRouter.SmartRouter.CheckSIMSwap | internal/adapter/telco/smart_router.go:182-199 | the selected adapter gets exactly one report, a failure iff the call failed |
| TelcoRouter.ServingEndsWith | internal/adapter/telco/adapter.go:34-39 | an adapter that lists a country becomes the last of those that serve it, and no other country changes its last one |
| TelcoRouter.Router.Register | internal/adapter/telco/adapter.go:34-39 | in every run of registrations each country is mapped to the last adapter that serves it, the last entry of the smart router's index |
| TelcoRouter.Router.IsSupported | internal/adapter/telco/adapter.go:41-44 | true iff some registered adapter serves the country, open circuits or not |
| TelcoRouter.Router.Chosen | internal/adapter/telco/adapter.go:46-60 | a call goes to the adapter registered last for the country, and fails iff there is none |
| LabelKeys.ParseUndoesRender | internal/metrics/metrics.go:192-196 | a parser gives back the pairs from their text, for names without '=' and values without '"' |
| LabelKeys.RenderUndoesParse | internal/metrics/metrics.go:192-196 | whatever parses is the text of what it parses to |
| LabelKeys.ListingIsUnique | internal/metrics/metrics.go:187-191 | a label set has one sorted listing of its names |
| LabelKeys.LessIsLexicographic | internal/metrics/metrics.go:191-191 | names are listed in the order of dictionaries |
| LabelKeys.LabelsKey | internal/metrics/metrics.go:183-197 | the text of a label set is the same for every iteration order of the map |
| LabelKeys.KeyIsInjective | internal/metrics/metrics.go:183-197 | clean label sets share a text only if they are equal |
| LabelTexts.OwnsItsTextExactlyWhenAlone | internal/metrics/metrics.go:183-197 | over names without '=', the text of a label set belongs to no other one iff it has no label, or one whose value contains no `",name="` for a later name |
| LabelTexts.KeyOfTwo | internal/metrics/metrics.go:192-196 | the text of two labels, by its characters |
| LabelTexts.SameNamesShareExactly | internal/metrics/metrics.go:183-197 | label sets with the same names share a text iff their values, joined by the separators of the names, are the same |
| LabelTexts.SharesAmongNamesExactlyWhenAmbiguous | internal/metrics/metrics.go:183-197 | a label set shares its text with another one of the same names iff its joined values can be split elsewhere at some separator |
| LabelTexts.TwoNamesAreAmbiguousExactly | internal/metrics/metrics.go:192-196 | for two names that is a second occurrence of the separator `",name="` in the joined values |
| LabelKeys.QuotesMakeKeysCollide | internal/metrics/metrics.go:194-194 | two different label sets with the same names share a text when values may hold quotes |
| MetricSeries.TextIndexIsExact | internal/metrics/metrics.go:34-48 | over clean label sets a cell holds what was recorded for exactly that name and label set |
| MetricSeries.CellIsItsLabelSet | internal/metrics/metrics.go:42-48 | a cell exists iff something was recorded for its label set, and summarises exactly that |
| MetricSeries.BucketsByBound | internal/metrics/metrics.go:78-100 | the buckets of a series count its observations up to 50, 100, 250, 500, 1000, 2500, 5000 and 10000 |
| MetricSeries.BucketsAreCumulative | internal/metrics/metrics.go:145-152 | buckets do not decrease with their bound and never exceed the count, printed as the +Inf bucket |
| Metrics.Counters.AddCounter | internal/metrics/metrics.go:42-48 | every counter cell stays the sum of what was added under its name and text |
| Metrics.Counters.IncrCounter | internal/metrics/metrics.go:34-40 | an increment adds one |
| Metrics.HistData.Observe | internal/metrics/metrics.go:94-100 | after an observation bucket i holds the number of observations not above bound i, next to count and sum |
| Metrics.Histograms.ObserveHistogram | internal/metrics/metrics.go:77-101 | every series counts exactly its own observations and no two share storage |
| TokenRuns.AtMostOneRefresh | internal/adapter/telco/oauth2.go:56-63 | with any number of callers the requests sent are the answers received plus at most one |
| TokenRuns.WaitingHaveMissed | internal/adapter/telco/oauth2.go:44-58 | callers wait for the write lock exactly from a look that missed until their second look |
| TokenRuns.RefreshesAreSpaced | internal/adapter/telco/oauth2.go:60-97 | a refresh after a grant of a non-empty token with lifetime E starts no earlier than E - 60 s after that grant arrived, in every run |
| TokenRuns.ReturnedTokenIsFresh | internal/adapter/telco/oauth2.go:44-50 | a token from the cache has more than 60 - d seconds left when its answer took d seconds to arrive |
| TokenRuns.ServedExactlyWhenLongLived | internal/adapter/telco/oauth2.go:93-95 | after a grant, and without another one, the run can go on to a call that gets the cached token iff the token is not empty and lives longer than 60 s |
| TokenCache.OAuth2Client.CachedToken | internal/adapter/telco/oauth2.go:45-51 | the look under the read lock, a step among those of any callers: the token iff it is a hit |
| TokenCache.OAuth2Client.GetToken | internal/adapter/telco/oauth2.go:44-54 | a hit changes nothing; otherwise a second look under the lock decides, a failure leaves the cache as it was, a grant replaces it |
| TokenCache.OAuth2Client.RefreshToken | internal/adapter/telco/oauth2.go:56-98 | what happens under the write lock, steps among those of any callers: the double check, then the answer of the endpoint stored with its margin |
| OtpRuns.VerifyFindsAcceptance | internal/adapter/otp/adapter.go:40-49 | verification succeeds iff some channel's provider accepts the code in the state before the call |
| OtpRuns.AnswerIgnoresOrder | internal/adapter/otp/adapter.go:42-47 | the answer does not depend on the iteration order of the providers |
| OtpRuns.StoresHoldLiveCodes | internal/adapter/otp/whatsapp.go:86-95 | in every run a stored code is the latest one sent through that provider to that phone and not accepted since |
| OtpRuns.SuccessSpendsTheLiveCode | internal/adapter/otp/whatsapp.go:156-180 | single use: a success through a self-managed provider presents its live code, over WhatsApp at most 10 minutes old; a sandbox also takes 000000 while one is outstanding |
| OtpRuns.LiveCodeIsAccepted | internal/adapter/otp/whatsapp.go:156-180 | the other direction: presenting the live code of a registered provider succeeds, over WhatsApp within 10 minutes |
| OtpRuns.SucceedsExactlyWhenConfirmed | internal/adapter/otp/adapter.go:40-49 | over every run a verification succeeds iff some channel confirms the code: an upstream service says so, a sandbox has a live code and is presented it or 000000, or WhatsApp has it live and at most 10 minutes old |
| OtpRuns.WinnerConfirms | internal/adapter/otp/adapter.go:40-49 | and the provider that accepts it has that reason |
| OtpRuns.SandboxTakesTestCode | internal/adapter/otp/sandbox.go:46-64 | while a sandbox that serves a channel has a live code for the phone, that code and 000000 are accepted, whatever the clock says |
| OtpRuns.CodesAreConserved | internal/adapter/otp/adapter.go:28-49 | for each phone, successful verifications and outstanding codes never exceed the sends, over all self-managed providers and every run |
| OtpRouter.WhatsAppProvider.Send | internal/adapter/otp/whatsapp.go:86-95 | the code replaces the previous one for 10 minutes even if delivery fails |
| OtpRouter.WhatsAppProvider.Verify | internal/adapter/otp/whatsapp.go:156-180 | accepts the stored unexpired code once; drops an expired one |
| OtpRouter.SandboxProvider.Send | internal/adapter/otp/sandbox.go:32-44 | the code replaces the previous one |
| OtpRouter.SandboxProvider.Verify | internal/adapter/otp/sandbox.go:46-64 | accepts the stored code or 000000 once |
| OtpRouter.Router.HoldsNoMoreThanSent | internal/adapter/otp/adapter.go:28-49 | of the running router: successful verifications and codes now held for a phone never exceed the sends |
| OtpRouter.Router.SucceedsExactlyWhenConfirmedHere | internal/adapter/otp/adapter.go:40-49 | of the running router: verification succeeds iff some channel confirms the code |
| OtpRouter.Router.Register | internal/adapter/otp/adapter.go:24-38 | sends on the channel, and on channels without a provider if it is SMS, now go to the provider; all others go where they went |
| OtpRouter.Router.Send | internal/adapter/otp/adapter.go:28-38 | the send goes to the channel's provider, else to that for SMS, else fails and changes nothing |
| OtpRouter.Router.Verify | internal/adapter/otp/adapter.go:40-49 | the loop over providers that change under it computes the verification on values, providers shared by channels included |
| SessionRuns.OtherTenantsChangeNothing | internal/service/verification/service.go:104-106 | a call by another tenant or on an unknown session changes neither sessions nor codes |
| TenantIsolation.UnauthorisedCallsDoNotMatter | internal/service/verification/service.go:98-155 | leaving out of a run all calls by other tenants and on unknown sessions leaves the same sessions and codes |
| TenantIsolation.TenantsAreIsolated | internal/service/verification/service.go:98-176 | over every run, a tenant whose sessions share no phone with those of others has the sessions that its own calls alone lead to |
| TenantIsolation.IsolatedExactlyWhenPhonesDiffer | internal/service/verification/service.go:140-164 | with the sessions there are, this stays so however the run goes on, with a clock that does not go back, iff no phone is shared or no provider keeps codes |
| SessionRuns.StepEvolves | internal/service/verification/service.go:98-176 | a call touches at most the session it names and moves its status to verified or expired only |
| SessionRuns.RunsEvolve | internal/service/verification/service.go:60-176 | between any two moments of a run tenant, phone, country, creation and expiry of a session are the same and its status has moved to verified or expired at most |
| SessionRuns.ExpiryIsSet | internal/service/verification/service.go:72-73 | every session expires 10 minutes after its creation |
| SessionRuns.TrafficDrivesOtp | internal/service/verification/service.go:130-158 | the code stores of the service are those of the OTP traffic of its authorised calls |
| SessionRuns.VerifiedStep | internal/service/verification/service.go:108-164 | one call leaves a session verified iff it confirms it, or it was verified and the call does not find it expired |
| SessionRuns.VerifiedExactlyWhenConfirmed | internal/service/verification/service.go:98-176 | over every run a session is verified iff it was confirmed and not found expired since; confirmed means by the telco on that session within 10 minutes of creation, or by a code for its phone that had been sent before (or that an outside service vouches for) |
| SessionRaces.LandingAtOnceIsNext | internal/service/verification/service.go:98-176 | a call whose status update lands before any other call starts is the step of the runs above |
| SessionRaces.OnlyStatusesRace | internal/service/verification/service.go:98-176 | however calls overlap, codes and all of the sessions but their status are those of the same calls one by one |
| SessionRaces.WritesAreDecisions | internal/service/verification/service.go:108-164 | conservation: status updates landed and under way are exactly the decisions of the calls, each once |
| SessionRaces.VerifiedWasConfirmed | internal/service/verification/service.go:98-176 | provenance under any overlap: a verified session was confirmed by the telco, checked within 10 minutes of creation, or by a code for its phone sent before; an expired one was found expired |
| SessionRaces.EndsExactlyAsEarned | internal/service/verification/service.go:108-164 | when all updates have landed, the statuses that a session can have are exactly those that its calls earned: overlap matters iff it was both confirmed and found expired, and then it can end either way |
| SessionService.Service.VerifiedExactlyWhenConfirmedHere | internal/service/verification/service.go:98-176 | of the running service: a stored session is verified iff the calls so far confirmed it and it has not lapsed since |
| SessionService.SessionRepo.CreateSession | internal/repository/session.go:24-29 | the session is stored under its id and the others are unchanged |
| SessionService.SessionRepo.UpdateSessionStatus | internal/repository/session.go:41-50 | exactly the status of exactly the named session changes, if it exists |
| SessionService.Service.CreateSession | internal/service/verification/service.go:60-96 | the session is stored as pending for 10 minutes, and silent verification is recommended iff its type allows it and the country is supported |
| SessionService.Service.SilentVerify | internal/service/verification/service.go:98-128 | every reply and what becomes of the sessions: not found, failed and expired, fallback, or the answer of the telco, verified if it says so |
| SessionService.Service.SendOTP | internal/service/verification/service.go:130-147 | every reply: not found for an unauthorised call, sent iff the channel, or else SMS, has a provider and that delivers or is the sandbox, and an error otherwise; the step on values |
| SessionService.Service.CheckOTP | internal/service/verification/service.go:149-176 | every reply and what becomes of the sessions: not found, verified iff a provider accepts the code, failed otherwise |
| PricingRules.FindRule | internal/service/pricing/engine.go:190-205 | the first rule for exactly the country, else the first wildcard rule, else none |
| PricingRules.FindTier | internal/service/pricing/engine.go:211-225 | sorting a copy and scanning it backwards finds the tier with the largest lower bound that the volume reaches, else the lowest tier |
| PricingRules.TierIsTheInterval | internal/service/pricing/engine.go:211-225 | for contiguous tiers stored in any order, the tier found is the only one documented for the volume |
| PricingRules.DiscountIsFloor | internal/service/pricing/engine.go:175-177 | a discount of 0 to 100 percent is exact up to a fraction of a microcent, rounded down, without 64-bit overflow for prices up to 2^63 / 100 |
| PricingRules.DiscountRoundsTowardZero | internal/service/pricing/engine.go:175-177 | any positive discount takes its percentage rounded toward zero while nothing overflows, and another one is ignored |
| PricingRules.WrapIsSigned64 | internal/service/pricing/engine.go:176-176 | beyond that the result is the signed 64-bit integer that differs by a multiple of 2^64 |
| PricingRules.DiscountIsMonotone | internal/service/pricing/engine.go:175-177 | a lower list price or a larger discount never costs more |
| PricingRules.MonotoneExactlyUpToHundred | internal/service/pricing/engine.go:175-177 | a lower list price leads to a lower quote iff the discount is at most 100 percent |
| PricingRules.MoreVolumeNeverCostsMore | internal/service/pricing/engine.go:173-226 | where prices fall from tier to tier, more volume and more discount never cost more per unit |
| PricingRules.SeededPlansAreGood | internal/service/pricing/engine.go:80-141 | all rules of all seeded plans have contiguous tiers with falling prices |
| PricingRuns.KeyIsOwnExactlyWithoutColons | internal/service/pricing/engine.go:157-157 | the text of a product and country belongs to no other pair iff neither has a colon |
| PricingRuns.PlanIsLatest | internal/service/pricing/engine.go:239-246 | plan and discount of a tenant are those of its latest plan command, pay-as-you-go without one |
| PricingRuns.OverrideIsLatest | internal/service/pricing/engine.go:239-258 | the stored overrides are the latest prices since the latest plan, which clears them |
| PricingRuns.TextIndexIsExact | internal/service/pricing/engine.go:249-258 | over products without a colon each pair finds its own latest price and never that of another |
| PricingRuns.QuotesFallWithVolume | internal/service/pricing/engine.go:145-188 | after any commands, quotes never rise with the volume for discounts of at most 100 percent, and an override does not depend on it |
| PricingRuns.OtherCostsDoNotMatter | internal/service/pricing/engine.go:228-236 | upstream costs of other products and countries leave a quote as it is |
| PricingRuns.PaygPrices | internal/service/pricing/engine.go:81-97 | the list prices of the pay-as-you-go plan for every country and volume |
| PricingRuns.GrowthPrices | internal/service/pricing/engine.go:99-119 | those of the growth plan, by volume |
| PricingRuns.EnterprisePrices | internal/service/pricing/engine.go:122-137 | those of the enterprise plan |
| PricingEngine.Engine.constructor | internal/service/pricing/engine.go:57-142 | the seeded engine has only good plans, under their names, the seeded upstream costs and no tenants |
| PricingEngine.Engine.SetTenantPlan | internal/service/pricing/engine.go:239-246 | the tenant's record becomes the plan and discount without overrides, the others stay |
| PricingEngine.Engine.SetCustomPrice | internal/service/pricing/engine.go:249-258 | one override is set, for a new tenant on pay-as-you-go, the others stay |
| PricingEngine.Engine.FindPrice | internal/service/pricing/engine.go:190-226 | a list price of the plan, the default price without a matching rule, and none, where the code fails, iff the matching rule has no tiers |
| PricingEngine.Engine.CalculatePrice | internal/service/pricing/engine.go:145-188 | the quote is what all commands so far call for: the latest override as it stands, else the discounted list price of the latest known plan; the upstream cost is that of the pair, else of the product, else 10000; the margin is price minus upstream cost |

## Left out

- Handlers, authentication, webhooks, logs, statistics, dashboards and the client SDKs: plumbing around this core.
- The PostgreSQL repositories: the in-memory ones give the same interface.
- Gauges and the printing of the metrics page, beyond the values that it prints.
- `SIMSwapMaxAgeHours`, `ForceChannel` and `Notify` of rules, and monthly fees and commitments of plans: no engine reads them.
- Rounding of floating-point scores; with it, sums in different orders could differ in the last digit.
- Wrap-around of the 64-bit counters, of latency sums and of durations beyond 292 years; prices do wrap in the model.
- Interleavings inside one OTP verification, whose read and delete take the lock separately: each call is one step.
- A Redis pipeline that fails, or is interleaved with another one, between its two commands.
- Rule slices that overlap without being the same slice.
- RateLimiter.Append: the growth of the capacity is one possible choice; Go leaves it open.
- TokenCache.OAuth2Client.GetToken: a call that no other comes between; its two locked parts, `CachedToken` and `RefreshToken`, interleave freely.
- PolicyEngine.Evaluate: one evaluation at a time, at one UTC hour. The in-memory store hands out the same policies to all, so concurrent evaluations sort the same rule slices in place, a data race; and the code reads the clock again for every rule with an hour range, so an evaluation across a full hour is not covered.
- RedisLimiter.RateLimiter.Handle: negative windows; of others whole seconds count, as in the code.
- SmartRouter.SmartRouter.SilentVerify: a call that no other comes between; its two locked parts, `SelectBest` and the recording, interleave freely.
- SmartRouter.SmartRouter.CheckSIMSwap: the same.
- SessionService.Service.SilentVerify: a call that meets no other; overlapping calls are the runs of `SessionRaces`.
- SessionService.Service.CheckOTP: a call that meets no other; overlapping calls are the runs of `SessionRaces`.
- LabelKeys.KeyIsInjective: the condition on names and values is sufficient; exact conditions are in `LabelTexts`.
