# Verified kernels of the product-selection platform

This project models the decision-making kernels of the platform — the commercial go/no-go and
return-on-investment engine, the human approval manager, the market concentration and opportunity
score, the release gate protocol, and seven smaller kernels — and proves what their callers rely on.
Each source file has a module of its own; a second module beside it (`RoiTheory`, `MarketTheory`, …)
holds what is proved about it where that is long. Lemmas named `…FromThe…` tie an operation to its raw
inputs: their statements write out the factors, limits and fields in place of the functions that compute
with them. `dafny verify dfyconfig.toml` checks everything.

| modules | source | form |
|---|---|---|
| `Roi`, `RoiTheory`, `RoiReport`, `RoiFacts` | `src/agents/commercial.py`, ROI predictor | loops proved against sums and a bisection bracket |
| `DecisionRules`, `GoNoGo` | `src/agents/commercial.py`, rules and score | key loop and dict edits as methods; the score as functions |
| `Approvals`, `HumanInLoop` | `src/agents/human_in_loop.py` | classes with shared, mutable requests, refined to a transition system |
| `MarketInsight`, `MarketTheory`, `MarketFacts` | `src/agents/market_insight.py` | functions |
| `ReleaseGates` | `scripts/release_*.py` | a class for the two shared files, refined to a transition system with a clock |
| `FixAsync`, `FixAsyncTheory`, `FixAsyncTwice`, `Text` | `fix_async.py` | the line loop, refined to a flag-free description of the output |
| `Readiness`, `ReadinessTheory` | `src/agents/framework_adapter.py` | the collecting loop; one tool's verdict as a function |
| `TaskViews`, `TaskRuns`, `TaskRepository` | `scripts/run_local_selection_main_chain_acceptance.py` | a repository of mutable tasks, refined to task values |
| `PerfReport`, `Sorting` | `scripts/perf_report_parser.py` | functions |
| `LlmJson` | `src/agents/base.py`, JSON extraction | the two loops, refined to a candidate list |
| `ApiContract` | `src/core/api_contract.py`, `frontend/lib/api.ts` | the mirroring loop, functions for middleware and client |
| `EnvOverrides` | `scripts/bootstrap_local_graph_rag_neo4j.py` | a mutable environment, refined to map operations |

`Common`, `PyValues`, `Numbers`, `Text` and `Sorting` hold shared ground: results and options, dynamic
Python values, powers and half-to-even rounding, string operations, stable sorting.

Floats are real numbers. `b ** (m / 12)` is the m-th power of a twelfth root, a function parameter `root`
of which only `TwelfthRoot(root)` is assumed: it is nonnegative and its twelfth power is its argument.
Clocks, generated identifiers, exit codes of gate commands, `json.loads`, `str()` of non-strings and the
regular expression class `\w` are parameters, so every result holds for all of their behaviours. An exception
of the source is a `Failure`, and each contract says exactly when it happens.

## Where the source and its documentation disagree

The model follows the code. The differences that matter to a caller, each with the member that states it:

- The approval configuration says requests scored below the automatic threshold pass; the code passes those at
  or above it (`RulingIsMonotone`). Its timeout setting is never read: every
  request lives for 30 minutes (`TimeoutIsIgnored`).
- A risk request listed as needing a human is still rejected by the system when its score is below 20 or missing
  (`RequiredKindIsLeftToAHumanIff`, `UnscoredRiskIsRejected`), and an expired request can still be approved until
  a sweep after the expiry removes it (`ApprovalTakesIff`).
- A market with a single product, the most concentrated there is, gets index 0, the top competition tier and a
  low entry barrier (`MonopolyLooksCompetitive`). The nominal 100-point opportunity score cannot exceed 96.375 (`ScoreRanges`).
- The predictor's payback is documented as investment over yearly profit and computed as investment over monthly
  profit. Under growth the two internal-rate conditions of its verdict never decide anything, payback does, for every
  monthly profit from 1.5 cents up (`VerdictIsDecidedByPayback`). No smaller bound will do: the rate is computed from
  flows rounded to cents, and profits from 1.33425 to 1.5 cents can pay back in under two years and still not be
  recommended (`OneCentFlowsAreNotDecidedByPayback`). At half a cent or less every flat flow rounds to zero and even a
  one-month payback is not recommended (`TinyProfitIsNeverRecommended`).
- The growth scenarios of the sensitivity analysis repeat the base case: their growth is computed and never used
  (`GrowthScenariosAreTheBaseCase`).
- A test or staging deployment lists migration checks as required that the check does not enforce (`RequiredGatesHonouredIff`).
- The line rewriter is not idempotent: it is so exactly when no rewritten line awaits twice (`FixingTwiceIff`).
- A zero error rate in a load report can hide failures, up to one request in two million (`ZeroErrorRateIff`).
- Confidence is not monotone in the score, unless the two thresholds coincide, or the lower is 0 and the
  upper at most 12.5 (`ConfidenceIsMonotoneIff`, `ConfidenceOnPercentagesIff`, `WhereConfidenceDrops`).
- A tool collection can be governed as enterprise ready while its count of enterprise-ready tools is zero (`EnterpriseReadyWithoutAny`).

## Model

| member | source | states |
|---|---|---|
| Roi.InternalRate | src/agents/commercial.py:1106-1115 | after 100 halvings, for any flows: the interval has width exactly 5.5/2^100, a lower end that moved has positive value, an upper end that moved has none |
| Roi.ProjectCashFlows | src/agents/commercial.py:1089-1104 | the three running totals and the row list of the 36-month loop equal the discounted sum, the undiscounted sum and the rounded flows of the closed list of flows |
| Roi.PredictRoi | src/agents/commercial.py:1058-1161 | the predictor raises exactly for growth below -100% or a zero break-even denominator; otherwise payback, value, rate, ratios, verdict and risk of the report are the ones specified |
| Roi.Ratios | src/agents/commercial.py:1117-1120 | margin times break-even revenue pays the costs, return times investment is the first-year surplus, and the unused unit figure is the only thing that can divide by zero |
| RoiTheory.PresentValueAntitone | src/agents/commercial.py:1110 | for nonnegative flows with a positive one, a larger monthly divisor gives a strictly smaller value |
| RoiTheory.NpvAntitone | src/agents/commercial.py:1110-1111 | net present value falls strictly with the yearly rate |
| RoiTheory.IrrFindsTheRoot | src/agents/commercial.py:1106-1115 | a zero of the value within the range is unique, lies in the final interval, and is within 5.5/2^101 of the midpoint |
| RoiTheory.SignChangeIsBracketed | src/agents/commercial.py:1106-1114 | if the value is positive at -50% and not at 500%, every rate up to the lower end still pays and every rate from the upper end on does not |
| RoiTheory.IrrSaturates | src/agents/commercial.py:1106-1115 | without a sign change the reported rate is the matching end of the range: 500.0 or -50.0 |
| RoiTheory.LossesSaturateBelow | src/agents/commercial.py:1106-1115 | flows that are never positive report -50.0 |
| RoiTheory.IrrClears | src/agents/commercial.py:1106-1115 | rounded to a tenth, the reported rate is on the right side of every tenth of a per cent, according to whether the flows still pay there |
| RoiTheory.SumClosedForm | src/agents/commercial.py:1092-1097 | the accumulated flow of n months is the geometric sum |
| RoiTheory.PresentValueClosedForm | src/agents/commercial.py:1092-1096 | the accumulated discounted flow of n months is the geometric sum of the quotient |
| RoiTheory.NpvClosedForm | src/agents/commercial.py:1089-1096 | after 36 months the value is fixed by the cubes of the two yearly factors |
| RoiTheory.PaybackIsPaidBack | src/agents/commercial.py:1086-1098 | with nonnegative growth and positive profit the cumulative flow is nonnegative at every month from the payback month on |
| RoiTheory.DiscountingLoses | src/agents/commercial.py:1095-1097 | discounting nonnegative flows never gains |
| RoiTheory.NpvBeatsInvestmentIffRootAboveTen | src/agents/commercial.py:1095-1115 | on unrounded flows the value at ten per cent exceeds the investment iff the zero-value rate exceeds ten per cent |
| RoiTheory.RoundingGap | src/agents/commercial.py:1099-1110 | rounding flows to cents before the bisection moves a value by at most half a cent a month |
| RoiTheory.NpvAndIrrAgree | src/agents/commercial.py:1089-1115 | the reported value and the reported rate agree about ten per cent outside an 18-cent band, for gains and losses |
| RoiTheory.VerdictIsDecidedByPayback | src/agents/commercial.py:1099-1154 | with nonnegative growth the verdict is a function of the payback alone, for every profit from 1.5 cents up and from above 0.5 to 1.3342 cents |
| RoiTheory.RoundedShare | src/agents/commercial.py:1101 | at these profits rounding to cents keeps at least 74.9512 per cent, and 75.1 per cent up to 1.33 cents and from 1.5 on |
| RoiTheory.FlatValue | src/agents/commercial.py:1092-1096 | the value of 36 equal flows is the annuity formula in the monthly root |
| RoiTheory.IrrClearsRate | src/agents/commercial.py:1106-1115 | the reported rate is on the right side of any rate in the range, up to its own rounding and 0.0006 per cent |
| RoiTheory.StillPays | src/agents/commercial.py:1106-1115 | flows of a given size clear a reported rate whenever the annuity formula says they are worth the investment |
| RoiTheory.OneCentFlowsAreNotDecidedByPayback | src/agents/commercial.py:1099-1154 | flat profits between 0.5 and 1.5 cents carry no investment of 32.0217 cents, which from 1.33425 cents on has a payback under two years |
| RoiTheory.TinyProfitIsNeverRecommended | src/agents/commercial.py:1099-1154 | flat profit up to half a cent reports -50.0 and is not recommended, however quick the payback |
| RoiReport.Sensitivity | src/agents/commercial.py:1122-1137 | the scenario loop gives, for each of the six factor sets, what the base formulas give on the adjusted inputs |
| RoiReport.Respond | src/agents/commercial.py:1058-1161 | the whole answer: raises when the prediction does, and otherwise shows a specified report, rounded and cut to 12 rows, with the six scenarios |
| RoiReport.GrowthScenariosAreTheBaseCase | src/agents/commercial.py:1127-1137 | the growth scenarios, and any other growth, give the base case |
| RoiReport.OutcomesAreMonotone | src/agents/commercial.py:1134-1137 | more profit never shows less profit or return, nor a longer payback, after rounding |
| RoiReport.ScenariosBracketTheBaseCase | src/agents/commercial.py:1122-1137 | with nonnegative revenue and cost the revenue and cost scenarios lie on their own sides of the base case |
| RoiReport.ShownPaybackTells | src/agents/commercial.py:1142-1154 | a shown payback off a whole limit is on the side of the limit that the verdict and the risk level used |
| RoiFacts.RowsFromTheInputs | src/agents/commercial.py:1092-1104 | each of the 36 rows, from revenue, cost and growth: month, flow profit times the i-th power of the monthly root of 1 + growth/100, and that flow discounted |
| RoiFacts.YearsFromTheInputs | src/agents/commercial.py:1092-1104 | the flows of months 1, 13 and 25 are the profit times whole powers of 1 + growth/100, rounded to cents |
| RoiFacts.CumulativeFromTheInputs | src/agents/commercial.py:1091-1103 | each row's cumulative figure is the geometric sum of the flows so far less the investment |
| RoiFacts.ValueFromTheInputs | src/agents/commercial.py:1088-1096 | the reported value solves the closed form with (1 + growth/100) cubed and 1.331 written out; at ten per cent growth it is 36 equal months |
| RoiFacts.FlatRateFromTheInputs | src/agents/commercial.py:1106-1115 | without growth the reported rate is on the side of every tenth of a per cent that the annuity formula on revenue less cost gives |
| RoiFacts.FiguresFromTheInputs | src/agents/commercial.py:1083-1159 | payback, break-even revenue, first-year return, verdict and risk from the inputs, with all limits written out |
| RoiFacts.ShownFromTheReport | src/agents/commercial.py:1138-1160 | each shown figure is its exact one to half a unit of the last place, and the shown rows are the first twelve |
| RoiFacts.OutcomeFromTheProfit | src/agents/commercial.py:1133-1137 | a scenario's payback and return follow from its profit, to half a unit of the last place |
| RoiFacts.ScenarioProfits | src/agents/commercial.py:1122-1133 | the six profits: revenue down and up a fifth, cost up and down 15 per cent, and twice the base case |
| Numbers.TiesGoToEven | src/agents/commercial.py:1101 | rounding takes a half to the even neighbour |
| Numbers.RootMonotone | src/agents/commercial.py:1093-1095 | the twelfth root inherits the strict order of its argument, which is all the discounting needs |
| Numbers.RootCubed | src/agents/commercial.py:1092-1095 | 36 monthly factors are three yearly ones |
| DecisionRules.NormalizeDecisionRules | src/agents/commercial.py:224-256 | the copy-and-edit normaliser refines the specification of each rule part, for any dynamic value |
| DecisionRules.MergeWeights | src/agents/commercial.py:241-252 | the key loop with its early exit accepts exactly when every given weight is absent, null or nonnegative, and then merges them over the defaults |
| DecisionRules.ResolveDecisionRules | src/agents/commercial.py:258-270 | two-layer resolution refines normalise-over-normalised, including the exception for a section that is no mapping |
| DecisionRules.NormalizedIsWellFormed | src/agents/commercial.py:224-256 | any value normalises to 0 <= no-go <= go <= 100 with nonnegative weights summing to one |
| DecisionRules.ResolvedIsWellFormed | src/agents/commercial.py:258-270 | the same for every pair of config and input layers |
| DecisionRules.ResolvedRaises | src/agents/commercial.py:267-268 | resolution raises exactly for a truthy input section that is no dict |
| DecisionRules.WellFormedIsFixed | src/agents/commercial.py:224-256 | well-formed rules are fixed points of normalisation |
| DecisionRules.NormalizingIsIdempotent | src/agents/commercial.py:224-256 | normalising twice is normalising once |
| DecisionRules.CompleteInputHidesConfig | src/agents/commercial.py:265-269 | a complete, well-formed input layer wins over any config |
| DecisionRules.SecondResolutionIsIdentity | src/agents/commercial.py:399-540 | resolving resolved rules again, under any config, gives them back |
| DecisionRules.WeightsAreScaleFree | src/agents/commercial.py:251-254 | scaling a complete weight set by a positive factor changes nothing |
| DecisionRules.ThresholdOverride | src/agents/commercial.py:229-267 | for any threshold override over any config: an absent one keeps the config's, an invalid or null one brings the built-in one back, and an inverted pair is replaced as a whole |
| DecisionRules.NullGoForgetsTheConfig | src/agents/commercial.py:231-267 | a null upper threshold drops the config's upper threshold |
| DecisionRules.GoOverride | src/agents/commercial.py:229-267 | a valid upper threshold alone keeps the config's lower one, unless that inverts the pair: then both are built-in |
| DecisionRules.WeightOverride | src/agents/commercial.py:240-269 | the input's weights alone decide validity; one invalid weight, or a zero sum, replaces all of the config's weights by the built-in set, otherwise the merged ones are scaled |
| DecisionRules.NullWeightsForgetTheConfig | src/agents/commercial.py:244-269 | null input weights do not keep the config's weights: nulling all four restores the built-in set |
| DecisionRules.ThresholdsFromTheNumbers | src/agents/commercial.py:229-238 | two given thresholds count from 0 to 100, else as 70 and 40, and an inverted pair becomes 70 and 40 |
| DecisionRules.WeightsFromTheNumbers | src/agents/commercial.py:240-254 | four given weights are scaled by their sum if none is negative and the sum not zero, else 0.4, 0.3, 0.2 and 0.1 |
| DecisionRules.OneWeightGiven | src/agents/commercial.py:240-254 | one given weight stands beside the other three built-in ones before scaling |
| DecisionRules.NothingGiven | src/agents/commercial.py:224-256 | without usable sections the rules are the built-in numbers |
| DecisionRules.LayersOfRules | src/agents/commercial.py:258-269 | the input's sections overlay those of the normalised config and are normalised together |
| DecisionRules.NumbersGiven | src/agents/commercial.py:233-249 | what counts as a number: numbers, and booleans as 0 and 1 |
| GoNoGo.ReportedRulesDecide | src/agents/commercial.py:399-568 | score, decision and confidence of a run come from the very rules the run reports |
| GoNoGo.BasesArePercentages | src/agents/commercial.py:544-551 | with nonnegative inputs the four bases are percentages |
| GoNoGo.ScoreIsAPercentage | src/agents/commercial.py:544-558 | so is the weighted score, for all well-formed rules |
| GoNoGo.ScoreOfOneFactor | src/agents/commercial.py:553-558 | with all the weight on one factor the score is that factor's base, so no weight meets the wrong base |
| GoNoGo.DecisionIsMonotone | src/agents/commercial.py:544-568 | better margins, later revenue or budget and lower risk never lower score or decision |
| GoNoGo.BasesFromTheFigures | src/agents/commercial.py:544-551 | the four percentages from margins, risk, revenues and investment, with factors and caps written out |
| GoNoGo.AssessmentFromTheFigures | src/agents/commercial.py:518-604 | the whole assessment of a run: the score weighs each percentage with its own weight, the decision compares it to the reported thresholds, factors and conditions follow |
| GoNoGo.ScoreSlopes | src/agents/commercial.py:544-558 | below the cap a point of gross margin is worth 1.5 margin weights, of net margin one, and a point of risk costs one risk weight |
| GoNoGo.ConfidenceFromTheScore | src/agents/commercial.py:560-568 | confidence point by point, with slopes 1, 0.8 and 1.5 and its floors and ceilings |
| GoNoGo.ReasonsFromTheFigures | src/agents/commercial.py:570-589 | each factor and each condition is listed for its own reason and with its own weight |
| GoNoGo.ConfidenceBands | src/agents/commercial.py:560-568 | [60,95], [50,85] and [30,60) for the three decisions, for every score and all resolved rules |
| GoNoGo.ConfidenceIsMonotoneWithinADecision | src/agents/commercial.py:560-568 | confidence falls with a rising score only where the decision changes; with the default rules it falls from score 69 to 70 |
| GoNoGo.ConfidenceIsMonotoneIff | src/agents/commercial.py:560-568 | for ordered thresholds, confidence never falls with a rising score iff the thresholds coincide |
| GoNoGo.ConfidenceOnPercentagesIff | src/agents/commercial.py:560-568 | on scores from 0 to 100 it never falls iff the thresholds coincide, or the lower is 0 and the upper at most 12.5 |
| GoNoGo.WhereConfidenceDrops | src/agents/commercial.py:560-568 | it falls on turning conditional iff the thresholds differ, on turning from conditional to go iff they are more than 12.5 apart, and never on jumping from no-go to go |
| GoNoGo.FactorsAreBalanced | src/agents/commercial.py:570-578 | the list has a negative factor iff the risk score is below 15 and the neutral stand-in iff not |
| GoNoGo.ConditionsFitTheDecision | src/agents/commercial.py:580-589 | conditions are listed exactly for a conditional decision, each once, the small trial exactly when nothing else is wrong |
| Approvals.StepKeepsInv | src/agents/human_in_loop.py:178-292 | each call keeps: unique ids, and the pending keys are the ids of the pending history entries, in order |
| Approvals.StepEvolves | src/agents/human_in_loop.py:178-292 | a call appends at most its own entry and changes only a pending one, in the one way that call may |
| Approvals.RunKeepsInv | src/agents/human_in_loop.py:178-292 | the invariant holds after every sequence of calls with fresh ids |
| Approvals.DecisionsAreFinal | src/agents/human_in_loop.py:178-292 | between any two points of a run the history only grows at its end and no decided or expired request changes |
| Approvals.RequiredKindsNeedAHuman | src/agents/human_in_loop.py:206-247 | an approved request of a required kind carries the reviewer, comment and time of an approve call of that run |
| Approvals.TotalsAreConserved | src/agents/human_in_loop.py:294-300 | after every run total = approved + rejected + pending dict + expired |
| Approvals.MarkedPending | src/agents/human_in_loop.py:244-289 | deleting dict keys and marking shared requests keep dict and history in step |
| Approvals.PendingIsStatus | src/agents/human_in_loop.py:238-264 | a key is in the dict iff its own request is pending |
| Approvals.SweepIsExact | src/agents/human_in_loop.py:275-292 | a sweep expires exactly the pending requests past their expiry and keeps the unparsable ones |
| Approvals.SweepTwice | src/agents/human_in_loop.py:275-292 | sweeping again at the same or an earlier time changes nothing |
| Approvals.SessionViewIsExact | src/agents/human_in_loop.py:266-273 | the session view holds each entry of that session as often as the history does, and no other |
| Approvals.RulingIsMonotone | src/agents/human_in_loop.py:206-230 | a higher score never gets a worse ruling, and the automatic threshold itself passes |
| Approvals.RequiredKindIsLeftToAHumanIff | src/agents/human_in_loop.py:206-235 | a required request waits for a human iff it is not a risk request scored below 20 or unscored |
| Approvals.UnscoredRiskIsRejected | src/agents/human_in_loop.py:204-226 | a required risk request without a score is rejected by the system |
| Approvals.PendingIff | src/agents/human_in_loop.py:178-292 | in every run an id is pending iff some call queued it and no later call decided it or swept it after its expiry |
| Approvals.ApprovalTakesIff | src/agents/human_in_loop.py:238-248 | in every run an approve call takes effect iff the id still waits in that sense, whatever the time, so also past the expiry |
| Approvals.LateApproval | src/agents/human_in_loop.py:238-292 | approving a pending request works at any time; after a sweep at that same instant, only if it was not past its expiry |
| Approvals.TimeoutIsIgnored | src/agents/human_in_loop.py:95-97 | no run depends on the configured timeout, and every request expires 30 minutes after it was made |
| Approvals.RequestIsRecorded | src/agents/human_in_loop.py:178-236 | a request call records its arguments, expires after 1800 seconds, and is decided at once by its kind and score with 20 written out, by the automatic reviewer |
| Approvals.DecisionIsRecorded | src/agents/human_in_loop.py:238-260 | in every run a decision on a waiting id leaves the status, comment and time of the call and the reviewer it named, or the configured one if none, and changes nothing else |
| Approvals.RequiredKindsNameTheirReviewer | src/agents/human_in_loop.py:206-247 | the approve call behind an approved request of a required kind passed the recorded reviewer, or none and the configured one is recorded |
| Approvals.SessionViewKeepsOrder | src/agents/human_in_loop.py:266-273 | the session view is in history order and misses no entry of the session |
| HumanInLoop.ApprovalRequest.constructor | src/agents/human_in_loop.py:90-97 | a new request is pending and expires in 30 minutes |
| HumanInLoop.ApprovalRequest.Approve | src/agents/human_in_loop.py:115-120 | approving changes the four review fields and no other |
| HumanInLoop.ApprovalRequest.Reject | src/agents/human_in_loop.py:122-127 | rejecting changes the four review fields and no other |
| HumanInLoop.HumanInLoopManager.constructor | src/agents/human_in_loop.py:173-176 | starts in the initial state of the transition system |
| HumanInLoop.HumanInLoopManager.RequestApproval | src/agents/human_in_loop.py:178-236 | refines the request step; raises, leaving everything unchanged, exactly when a rule compares a score that is no number |
| HumanInLoop.HumanInLoopManager.ApplyRules | src/agents/human_in_loop.py:206-230 | the two rules, approval first |
| HumanInLoop.HumanInLoopManager.Record | src/agents/human_in_loop.py:230-236 | dict and history receive the same object |
| HumanInLoop.HumanInLoopManager.ApproveRequest | src/agents/human_in_loop.py:238-248 | refines the approve step through the shared object; true iff the id was pending |
| HumanInLoop.HumanInLoopManager.RejectRequest | src/agents/human_in_loop.py:250-260 | refines the reject step through the shared object; true iff the id was pending |
| HumanInLoop.HumanInLoopManager.Close | src/agents/human_in_loop.py:244-245 | deleting the key after deciding the object is one step of the transition system |
| HumanInLoop.HumanInLoopManager.CheckExpired | src/agents/human_in_loop.py:275-292 | refines the sweep step and returns exactly the expired requests, in dict order |
| HumanInLoop.HumanInLoopManager.SweepItems | src/agents/human_in_loop.py:280-290 | deleting while iterating a snapshot visits every item once |
| HumanInLoop.HumanInLoopManager.Stats | src/agents/human_in_loop.py:294-307 | the four figures, whose difference is the number of expired requests, and the rounded approval rate, absent exactly for an empty history |
| HumanInLoop.HumanInLoopManager.GetPendingRequests | src/agents/human_in_loop.py:262-264 | exactly the pending requests, in history order |
| HumanInLoop.HumanInLoopManager.GetRequestHistory | src/agents/human_in_loop.py:266-273 | the whole history, or exactly one session's entries, in order |
| MarketTheory.CauchySchwarz | src/agents/market_insight.py:409-413 | n times the sum of squares exceeds the squared sum by exactly the sum of squared pairwise differences |
| MarketTheory.ConcentrationIsQuotient | src/agents/market_insight.py:409-413 | the share-based index is the sum of squared counts over the squared total |
| MarketTheory.ConcentrationBounds | src/agents/market_insight.py:399-413 | 10000/n <= index < 10000 for n >= 2 firms, the bound being met exactly by equal shares |
| MarketTheory.ConcentrationPermutes | src/agents/market_insight.py:409-413 | the order of firms does not matter |
| MarketTheory.ConcentrationScales | src/agents/market_insight.py:409-413 | the unit of counting does not matter |
| MarketTheory.MergerRaisesConcentration | src/agents/market_insight.py:409-413 | a merger raises the index by exactly 20000 times the product of the two shares |
| MarketTheory.HhiAtLeast | src/agents/market_insight.py:399-415 | two to n products never get an index below the integers up to 10000/n, even after rounding |
| MarketTheory.FewFirmsCapTheScore | src/agents/market_insight.py:384-486 | at most 10, 5 and 3 products cap the competition score at 15, 8 and 3; at most 9 and 4 force a medium and a high barrier |
| MarketTheory.MonopolyLooksCompetitive | src/agents/market_insight.py:384-486 | one product, whose share-based index is 10000, is scored as full competition |
| MarketTheory.TrendRanges | src/agents/market_insight.py:445-446 | strength lies in [0,100], confidence in [50,95] and under its size limit |
| MarketTheory.ScoreRanges | src/agents/market_insight.py:458-501 | each part keeps its range through the whole pipeline, so the total lies in (9.25, 96.375] |
| MarketTheory.StrongRecommendationNeedsFourProducts | src/agents/market_insight.py:473-501 | no market of fewer than four products is strongly recommended |
| MarketTheory.FourProductsCanBeStronglyRecommended | src/agents/market_insight.py:473-501 | four can be: a market that scores 77 |
| MarketFacts.HhiFromTheCounts | src/agents/market_insight.py:399-415 | from the review counts, none below one: the index is 10000 times the sum of squares over the square of the sum, to half a hundredth |
| MarketFacts.DominantProduct | src/agents/market_insight.py:399-415 | a product holding a share of the counts forces the index to 10000 times the share squared, less half a hundredth |
| MarketFacts.DominanceCapsTheScore | src/agents/market_insight.py:384-486 | shares of 0.317, 0.448 and 0.548 close the competition tiers above 15, 8 and 3 and force a medium or high barrier |
| MarketFacts.PriceRangeFromTheProducts | src/agents/market_insight.py:367-393 | the price range is met by products and contains every price that counts |
| MarketFacts.TrendFromTheProducts | src/agents/market_insight.py:426-446 | strength, confidence and direction from the numbers of rated and well-rated products and the total of prices, with all limits written out |
| MarketFacts.ScoreFromTheAnalysis | src/agents/market_insight.py:473-509 | the four parts, total, recommendation and risks with every factor and limit written out |
| MarketFacts.RunFromTheProducts | src/agents/market_insight.py:362-519 | what a run over products scores: its own index, barrier, price range and trend |
| ReleaseGates.Artifacts.constructor | scripts/release_deploy.py:13-15 | both files are missing at first |
| ReleaseGates.Artifacts.RunMode | scripts/release_quality_gates.py:82-100 | the loop with early exit returns the steps up to the first failure and its code |
| ReleaseGates.Artifacts.RunQualityGates | scripts/release_quality_gates.py:103-115 | refines the gate step: one overwritten record, none for a missing or unknown mode, exit code 2 there |
| ReleaseGates.Artifacts.DeployMain | scripts/release_deploy.py:51-94 | refines the deploy step: release record and exit code |
| ReleaseGates.Artifacts.RollbackMain | scripts/release_rollback.py:9-25 | a rollback replaces the release record and leaves the gate record alone |
| ReleaseGates.FromGate | scripts/release_quality_gates.py:94-99 | the remaining gates succeed iff every exit code is 0; recorded steps are the gates in order, all but a failing last one passed |
| ReleaseGates.RecordTellsTheRun | scripts/release_quality_gates.py:32-115 | a record says "passed" iff every gate of its mode passed, with all four in order for a full run |
| ReleaseGates.LastWriteIsLast | scripts/release_quality_gates.py:103-115 | the most recent run that wrote a record |
| ReleaseGates.FileIsLastWrite | scripts/release_quality_gates.py:32-41 | in every run the file holds the record of the most recent completed gate run with its time, or is missing |
| ReleaseGates.ClockNeverGoesBack | scripts/release_deploy.py:36 | time stamps never lie in the future of a run |
| ReleaseGates.DeployIsEarned | scripts/release_deploy.py:58-94 | in every run a checked deploy goes through iff the most recent gate run was wide enough for the target, passed throughout and is at most 24 hours old |
| ReleaseGates.ProductionNeedsAllFour | scripts/release_deploy.py:22-65 | for preprod and prod: all four gates, in order, each with exit code 0 |
| ReleaseGates.LaterRunDecides | scripts/release_deploy.py:58-65 | a later gate run alone decides: a failing or too narrow one revokes the permission |
| ReleaseGates.PermissionExpires | scripts/release_deploy.py:26-36 | over any steps without a gate run the permission lasts exactly a day |
| ReleaseGates.BlockedReasonTellsTheRun | scripts/release_deploy.py:39-48 | in every run the recorded reason says what the most recent gate run lacked: none ever completed, it failed, it was too narrow, or it is over a day old |
| ReleaseGates.RequiredGatesHonouredIff | scripts/release_deploy.py:84-90 | the gates a deployment lists as required all passed iff the admitting run was a full one |
| ReleaseGates.FullRecordFromTheCodes | scripts/release_quality_gates.py:32-100 | a full run's record from its four exit codes: status, exit code, and steps in the order smoke, migration, performance, security |
| ReleaseGates.SingleRecordFromTheCode | scripts/release_quality_gates.py:89-91 | a single gate's record from its exit code |
| ReleaseGates.DeployFromTheRuns | scripts/release_deploy.py:22-94 | in every run, for test and staging: deployed iff the last completed gate run was smoke or full, passed, and at most 86400 seconds old; for preprod and prod iff it was full |
| ReleaseGates.ReleaseFromTheTarget | scripts/release_deploy.py:84-90 | the gates a release lists by target, the explicit override, and the rollback |
| FixAsync.FixAwaitInSyncFunc | fix_async.py:3-36 | the line loop refines the state machine over split lines |
| FixAsync.FixLine | fix_async.py:9-34 | one turn of the loop is one step: flags after it and lines appended |
| FixAsyncTheory.FlagsMean | fix_async.py:6-29 | the flags mean: a test is open, and an `await` has been seen in it |
| FixAsyncTheory.EmitIsPiece | fix_async.py:26-34 | each step emits what a flag-free description of the line says |
| FixAsyncTheory.ProcessIsPieces | fix_async.py:9-34 | so the output is the concatenation of these pieces |
| FixAsyncTheory.OutputIsALineImage | fix_async.py:26-36 | without the imports the output is the input line for line, rewritten exactly where a test awaits |
| FixAsyncTheory.OneImportPerTest | fix_async.py:26-29 | an awaiting test gets exactly one import, directly above its first rewritten line |
| FixAsyncTwice.SecondAwait | fix_async.py:31-33 | a rewritten line still awaits iff its remainder did |
| FixAsyncTwice.RewriteIsPlain | fix_async.py:31-33 | rewriting never turns a line into a test header, a definition or a class |
| FixAsyncTwice.QuietIsStable | fix_async.py:3-36 | an output without a remaining `await` passes a second run unchanged |
| FixAsyncTwice.NoisyGrows | fix_async.py:3-36 | any other output gets longer |
| FixAsyncTwice.FixingTwiceIff | fix_async.py:3-36 | on whole files, running twice equals running once iff no rewritten line awaits a second time |
| FixAsyncTwice.NestedAwaitIsNotStable | fix_async.py:31-33 | a file with a nested `await` that a second run changes |
| FixAsyncTheory.RewriteFromTheLine | fix_async.py:31-33 | what stands before and after the first `await ` decides the rewritten line |
| FixAsyncTheory.ImportFromTheLine | fix_async.py:26-29 | the import is indented by as many spaces as the line has leading spaces of any kind |
| FixAsyncTheory.HeaderFromTheLine | fix_async.py:9-15 | a stripped line `def test_`, word characters, `(self):` opens a test, whatever follows |
| FixAsyncTheory.TestDefFromTheText | fix_async.py:12 | nothing else does |
| FixAsyncTheory.CloserFromTheLine | fix_async.py:17-23 | what closes a test: any other `def ` and a `class ` with a word character after it |
| Text.StripMeans | fix_async.py:10 | stripping removes spaces at both ends and only them |
| Text.SpacesAreSpaces | fix_async.py:10 | blanks, tabs and line ends are spaces, visible ASCII characters are not |
| Text.SplitOfJoin | fix_async.py:4-36 | splitting joined newline-free lines gives them back |
| Text.StripAround | src/agents/base.py:385 | stripping takes only the spaces outside a core that begins and ends with a non-space |
| Readiness.BuildCollectionReadiness | src/agents/framework_adapter.py:164-221 | the loop over the payloads refines the collection read off the dict; of what it computes from the payloads, it raises exactly when some tool's next actions cannot be iterated |
| Readiness.ActionsFromTheField | src/agents/framework_adapter.py:116 | stated actions: a dict gives its keys, a string its characters, and a number, a bool or null cannot be iterated |
| Readiness.TierFollowsInterpretation | src/agents/framework_adapter.py:118-149 | without a stated tier, tier and interpretation agree except for tools ready only locally |
| Readiness.StatedReadinessOverridesMode | src/agents/framework_adapter.py:118-149 | with stated readiness, changing the mode changes no flag and can only swap mock and not ready |
| Readiness.UnstatedReadinessFollowsMode | src/agents/framework_adapter.py:122-149 | without it the mode alone decides, no tool is ready merely locally, and none raises |
| Readiness.ToolFromThePayload | src/agents/framework_adapter.py:106-161 | a tool's flags, provider, mode, tier, actions and interpretation from the payload's own entries, the local flag defaulting to the enterprise one |
| ReadinessTheory.ListsPartitionTools | src/agents/framework_adapter.py:178-193 | a name is on a list iff it is a tool of that interpretation |
| ReadinessTheory.ListsCountEveryTool | src/agents/framework_adapter.py:178-214 | the four lists together are as long as the table: nothing lost or listed twice |
| ReadinessTheory.ToolsAreTheDicts | src/agents/framework_adapter.py:178-182 | the tools are exactly the dict-valued payloads |
| ReadinessTheory.GovernanceMeans | src/agents/framework_adapter.py:195-205 | each of the six statuses as an exact statement about the tools' interpretations; unknown iff there is no tool |
| ReadinessTheory.EnterpriseStatusIffFlag | src/agents/framework_adapter.py:195-385 | the status and the flag the collaboration report computes apart from it never disagree |
| ReadinessTheory.EnterpriseCountIff | src/agents/framework_adapter.py:195-217 | under that status every tool is at least locally ready, and the enterprise count is full iff none is ready only locally |
| ReadinessTheory.EnterpriseReadyWithoutAny | src/agents/framework_adapter.py:141-217 | one locally ready tool without a fallback makes the status with a count of zero |
| ReadinessTheory.OrderDoesNotMatter | src/agents/framework_adapter.py:178-221 | the same dict in another order gives the same collection, sorted lists included |
| ReadinessTheory.ListsAreSorted | src/agents/framework_adapter.py:211-214 | the four lists are in code-point order of the names |
| ReadinessTheory.LexMeans | src/agents/framework_adapter.py:211-214 | that order: a prefix first, otherwise by the first difference |
| ReadinessTheory.CountsOfTheTools | src/agents/framework_adapter.py:209-217 | the two counts are those of the flagged tools, and fallbacks are reported by the summary or a tool validated only locally |
| ReadinessTheory.ActionsOfTheTools | src/agents/framework_adapter.py:183-219 | the next actions are those of the tools together |
| TaskViews.HistoryIsAWindow | scripts/run_local_selection_main_chain_acceptance.py:144-158 | after any updates the history is the last 20 of the initial entries followed by all phased updates, and untouched without a phase |
| TaskViews.WindowFromTheEnd | scripts/run_local_selection_main_chain_acceptance.py:147-158 | once an update had a phase, the history is the end of initial and phased entries together, of length 20 or less if there are fewer |
| TaskViews.LastEntryIsTheUpdate | scripts/run_local_selection_main_chain_acceptance.py:147-157 | after an update with a phase the history ends with its status, phase, reason and time |
| TaskViews.PhasedEntriesAre | scripts/run_local_selection_main_chain_acceptance.py:147-156 | the phased entries are those of the updates with a phase, in order, none missing |
| TaskViews.CompletedAtRemembers | scripts/run_local_selection_main_chain_acceptance.py:159-160 | the completion time is set iff the task was ever completed, and is the last such time |
| TaskViews.LastGivenTextWins | scripts/run_local_selection_main_chain_acceptance.py:140-146 | summary and reason are the last ones given in any run of updates, status and time the last update's |
| TaskViews.Latest | scripts/run_local_selection_main_chain_acceptance.py:142-146 | the last text given, and the initial one when none was |
| TaskViews.IdentityIsKept | scripts/run_local_selection_main_chain_acceptance.py:129-161 | id, creation details, creation time and tenant survive every update |
| TaskViews.MatchingIsExact | scripts/run_local_selection_main_chain_acceptance.py:113-115 | the list holds exactly the tasks of the status, as often as the repository does, newest first |
| TaskViews.TiesKeepCreationOrder | scripts/run_local_selection_main_chain_acceptance.py:113 | tasks of one instant keep the order of their creation |
| TaskViews.PagesCoverEverything | scripts/run_local_selection_main_chain_acceptance.py:106-117 | consecutive pages of any size give the whole list, nothing lost, repeated or reordered |
| TaskRuns.TasksTellTheirUpdates | scripts/run_local_selection_main_chain_acceptance.py:68-161 | after any run of creates and updates the tasks are those created, in order, each with exactly the later updates of its id applied |
| TaskRuns.EveryTaskHasItsHistory | scripts/run_local_selection_main_chain_acceptance.py:68-161 | in every run each task's history window, completion and status are those of its own later updates |
| TaskRuns.EveryTaskKeepsItsLastEntries | scripts/run_local_selection_main_chain_acceptance.py:68-161 | in every run of the repository a task's history is the last 20 of its initial and phased entries and ends with its last phased update |
| TaskViews.PageFromTheList | scripts/run_local_selection_main_chain_acceptance.py:113-117 | a page is the part of the filtered list from offset to offset plus limit, with the list's length |
| TaskViews.SliceFromTheEnd | scripts/run_local_selection_main_chain_acceptance.py:117 | negative bounds count from the end, and bounds beyond an end stop there |
| TaskRepository.Task.constructor | scripts/run_local_selection_main_chain_acceptance.py:82-100 | a new task is pending and not completed |
| TaskRepository.InMemorySelectionRepo.constructor | scripts/run_local_selection_main_chain_acceptance.py:65-66 | starts empty |
| TaskRepository.InMemorySelectionRepo.CreateTask | scripts/run_local_selection_main_chain_acceptance.py:68-104 | appends one fresh task, whose config has the tenant when one is given |
| TaskRepository.InMemorySelectionRepo.ListTasks | scripts/run_local_selection_main_chain_acceptance.py:106-117 | sorting and filtering the objects gives the page and total of the values |
| TaskRepository.InMemorySelectionRepo.Select | scripts/run_local_selection_main_chain_acceptance.py:114-115 | keeps exactly the tasks of the status, in order |
| TaskRepository.InMemorySelectionRepo.GetTask | scripts/run_local_selection_main_chain_acceptance.py:119-127 | found iff the id exists and the tenants do not contradict each other |
| TaskRepository.Task.Apply | scripts/run_local_selection_main_chain_acceptance.py:140-160 | the in-place changes of one task are one update of its value |
| TaskRepository.InMemorySelectionRepo.UpdateTaskStatus | scripts/run_local_selection_main_chain_acceptance.py:129-161 | refines one step of a run: that task takes the update, every other task stays as it was |
| PerfReport.PercentileIsNearestRank | scripts/perf_report_parser.py:9-14 | the percentile is a sample with at least index+1 samples at or below it and n-index at or above it |
| PerfReport.PercentilesAreMonotone | scripts/perf_report_parser.py:9-14 | a higher percentile is never lower and all lie between the extremes |
| PerfReport.PercentilePermutes | scripts/perf_report_parser.py:12-14 | the order of the samples does not matter |
| PerfReport.ReportIgnoresOrder | scripts/perf_report_parser.py:17-39 | nor does the order of the requests for any field of the report |
| PerfReport.ReportIsConsistent | scripts/perf_report_parser.py:22-38 | p95 <= p99 after rounding, the error rate is a percentage, successes do not exceed requests |
| PerfReport.ThroughputIsSuccessRate | scripts/perf_report_parser.py:24-25 | throughput times duration is the number of successes to half a hundredth a second; a zero duration counts as one second, a negative one gives zero |
| PerfReport.AverageIsBetweenExtremes | scripts/perf_report_parser.py:35 | the reported average lies between the rounded extremes of the samples |
| PerfReport.RankIsNearest | scripts/perf_report_parser.py:13 | the rank is within a half of p times one less than the number of samples |
| PerfReport.PercentilesOfTheReport | scripts/perf_report_parser.py:36-37 | the report's p95 and p99 are rounded samples of rank nearest to 0.95 and 0.99 of the way, with their counts below and above |
| PerfReport.FiguresOfTheReport | scripts/perf_report_parser.py:22-35 | error rate and average are those of the requests to half a unit of the last place, and all figures of an empty report are zero |
| PerfReport.SuccessesAre | scripts/perf_report_parser.py:23 | all requests are counted as successes iff all are marked ok, none iff none is |
| PerfReport.ZeroErrorRateIff | scripts/perf_report_parser.py:26 | the rounded error rate is zero iff at most one request in two million failed |
| Sorting.SortIsCanonical | scripts/perf_report_parser.py:12 | sorting depends only on the elements when ties are equal |
| Sorting.SortIsStable | scripts/run_local_selection_main_chain_acceptance.py:113 | elements that tie keep their order |
| LlmJson.ParseLlmJsonResponse | src/agents/base.py:380-412 | collecting and trying the candidates refines the first object among the candidates, for any `loads`; empty for a non-string or blank answer |
| LlmJson.EarliestObjectWins | src/agents/base.py:405-412 | the result is the object of the earliest candidate that parses to one, and empty iff none does |
| LlmJson.SplitIsFaithful | src/agents/base.py:390-391 | the fence chunks joined again are the text, and none contains a fence |
| LlmJson.SliceIsTheObjectIff | src/agents/base.py:400-403 | the brace slice is exactly an embedded object iff no opening brace precedes it and no closing one follows |
| LlmJson.EmbeddedObjectIsFound | src/agents/base.py:385-412 | unfenced prose around such an object yields exactly what the object parses to |
| LlmJson.PlainPieces | src/agents/base.py:390-391 | any number of backtick-free pieces joined by fences splits into those pieces |
| LlmJson.FirstChunkWins | src/agents/base.py:389-412 | in any fenced text the first chunk holding an object wins, unless the whole text is one |
| LlmJson.UntagOfTag | src/agents/base.py:395-396 | a tag in any case is dropped with the spaces around the body |
| LlmJson.FencedObjectIsFound | src/agents/base.py:385-412 | for any number of fences, tagged or not, the first piece holding an object is the answer |
| LlmJson.FencedSliceIsLast | src/agents/base.py:389-412 | in a fenced text without an object in any chunk the slice between the outer braces decides |
| LlmJson.TagLetters | src/agents/base.py:395 | exactly the letters j, s, o, n in either case make a tag |
| LlmJson.TagsInUse | src/agents/base.py:395-396 | the tag is dropped as json, JSON and Json, and a body that starts otherwise stays as it is |
| LlmJson.NothingToExtract | src/agents/base.py:382-387 | what is no string, or blank, gives nothing |
| ApiContract.MirrorInto | src/core/api_contract.py:40-43 | the mirroring loop adds exactly the keys the envelope does not have |
| ApiContract.BuildSuccessEnvelope | src/core/api_contract.py:32-44 | the success envelope is its five fields over the mirrored payload |
| ApiContract.BuildErrorEnvelope | src/core/api_contract.py:47-68 | the error envelope is its seven fields over the mirrored detail |
| ApiContract.RoundTripIff | frontend/lib/api.ts:20-24 | the client gets the payload back iff it was neither null nor an envelope, or an envelope without data |
| ApiContract.WrapIsIdempotent | src/core/api_contract.py:142-145 | wrapping again, under another request, is wrapping once |
| ApiContract.ReservedFieldsWin | src/core/api_contract.py:32-44 | code, message, data, request id and time are those of the call: no payload key overwrites a reserved field; all others are mirrored and nothing else appears |
| ApiContract.ErrorFieldsWin | src/core/api_contract.py:47-68 | the same for the seven fields of an error, whose detail is never null |
| ApiContract.DispatchIsIdempotent | src/core/api_contract.py:121-149 | the middleware changes only JSON bodies of successful API responses, and stacking it is harmless |
| ApiContract.DispatchFromTheResponse | src/core/api_contract.py:121-149 | which responses are wrapped, and the five fields of the wrapped body, written out |
| ApiContract.UnwrapFromThePayload | frontend/lib/api.ts:20-24 | the client takes non-null data of an object, else the payload as it is |
| ApiContract.ClientSeesThePayload | frontend/lib/api.ts:20-24 | through middleware and client, every non-null payload that is no envelope arrives as it was sent |
| EnvOverrides.Environment.WithEnv | scripts/bootstrap_local_graph_rag_neo4j.py:141-146 | the loop writes every override and saves each old value or its absence, in any key order |
| EnvOverrides.Environment.RestoreEnv | scripts/bootstrap_local_graph_rag_neo4j.py:149-154 | the loop gives every saved key its value back, or removes it |
| EnvOverrides.RestoreUndoesOverride | scripts/bootstrap_local_graph_rag_neo4j.py:141-154 | restoring gives the whole environment back whatever happened to the overridden keys in between |
| EnvOverrides.ScopesContainTheirWrites | scripts/bootstrap_local_graph_rag_neo4j.py:157-185 | under any nesting, and whether or not the body raises, a key not written outside the scopes that override it is unchanged |
| EnvOverrides.RaiseEndsTheRun | scripts/bootstrap_local_graph_rag_neo4j.py:169-185 | nothing after a raise is run, and without one the next part starts from the environment left |
| EnvOverrides.WellNestedIsIdentity | scripts/bootstrap_local_graph_rag_neo4j.py:157-185 | well-nested scopes of any depth compose to the identity |

## Left out

- RoiTheory.IrrFindsTheRoot: takes a zero-value rate as given, because the existence of one (an intermediate value) is not expressible over real numbers alone; SignChangeIsBracketed covers the case without it.
- RoiTheory.NpvAndIrrAgree: states agreement outside an 18-cent band, because the bisection works on flows rounded to cents while the value does not; losses on a negative investment are not covered.
- RoiTheory.VerdictIsDecidedByPayback: says nothing of profits between 1.3342 and 1.33425 cents; the verdict turns there, where 36 one-cent flows valued at 8.05 per cent meet 24 profits, and the proof brackets that value by decimals. For all other positive profits the claim is proved or refuted.
- Readiness.BuildCollectionReadiness: the number and sources of fallbacks copied from the external summary, the exceptions that `int` and `list` raise on a summary whose count is no number or whose sources cannot be iterated, each tool's source channel, and the order of a tool's own next actions (kept as a set).
- MarketInsight.Reviews: a product whose stored review count is null raises in the source; here a missing count is 1.
- Floating point: NaN, infinities and rounding error; only the explicit `round` calls are modelled.
- Price elasticity, pricing range, break-even month, cost tables and business-plan texts.
- Texts: comments, recommendations, factor names, descriptions, release versions and reasons.
- Approval callbacks, colliding generated ids, and holders of a request changing it directly: a run consists of manager calls with fresh ids.
- Average price, top-player list, market-size estimate and trend description of the market analysis.
- Gate records written by other tools that are no JSON object or have a time without zone; both raise in the deploy script.
- The regular expression class `\w` and `str.lower` beyond the letters of a tag.
- Roi.PredictRoi: the figures as shown and the scenarios are RoiReport's.
- HumanInLoop.HumanInLoopManager.GetRequestHistory: leaves out the context each record carries; only its score is ever read.
- TaskRepository.InMemorySelectionRepo.CreateTask: leaves out config keys other than tenant, reason and history, which the repository never touches.
- The status-transition rules documented elsewhere, which this repository does not enforce.
- OpenAPI schema wrapping, response headers, background tasks and the client's error branch.
- Agent life cycle, tools, retrieval, language-model calls, message bus, services, web pages and infrastructure scripts: input and output or plumbing.
