# RainCheck core, modelled in Dafny

RainCheck assesses household rainwater harvesting. This project models the
four deterministic pieces of its front end:

- **The feasibility engine** (`generateFeasibilityReport`). From the roof area,
  the annual rainfall, the tank size, the household size, the installation
  cost and the optional per-capita use, water tariff and roof type, it derives
  a report with these parts:
  - hydrology;
  - financials, including a five-year cost/benefit series;
  - environmental impact;
  - a clamped reliability estimate;
  - a ten-year rainfall projection;
  - a twelve-month chart;
  - a score out of 100 with its category.
- **The decision summary** (`generateDecisionWithGemini`). A language model's
  reply is cleaned, parsed and checked for a verdict and a message. Without a
  usable reply, the local rule table `fallbackDecision` decides.
- **The recommendations** (`generateRecommendationsWithGemini`). The lines of
  the model's reply are stripped of bullets and blanks. When no line is left,
  the rule-based list of `generateFallbackRecommendations` is used instead,
  built from figures read out of the site data.
- **The plan parser** (`ModelPlanParser`). It cleans the model's reply of
  Markdown fences and escaped line breaks, then parses it. If that fails, it
  retries on the text from the first `{` to the last `}`. The result is
  normalised so that every key of the plan exists, and `emptyPlan` is the
  fallback.

## Files

- `js_values.dfy` (module `JsValues`) covers the JavaScript values the sources
  handle:
  - parsed JSON;
  - numbers, which may be NaN;
  - optional chaining, `??`, truthiness and `Number(...)`.

  `JSON.parse` is a field of the `Runtime` datatype; it returns `None` where
  JavaScript throws. The string/number conversions are `Runtime` fields too.
- `js_strings.dfy` (module `JsStrings`) covers the string primitives:
  - `trim`, `split("\n")`, `replace` with a global pattern;
  - `indexOf`, `lastIndexOf` and `slice`;
  - control-character removal, and a proof that removing every "```" leaves none.
- `feasibility.dfy` (module `Feasibility`): the engine, as pure functions over
  exact reals, with lemmas about them.
- `decision.dfy` (module `Decision`): the rule table, the reply cleaner and the
  schema check that routes to the fallback.
- `recommendations.dfy` (module `Recommendations`): input extraction, the
  line cleaner, and the fallback generator. The generator is an imperative
  method that appends item by item, proved against the list function
  `FallbackList`.
- `plan_parser.dfy` (module `PlanParser`): cleaning, the brace-slice retry,
  `normalize` and `emptyPlan`.

`Math.round` is `Feasibility.Round`, which rounds halves up.
`Number(x.toFixed(k))` is `Feasibility.ToFixed`, which rounds halves away
from zero.

## Model

| member | source | states |
|---|---|---|
| Feasibility.RunoffCoefficient | apps/frontend/src/app/analysis/lib/feasibility.ts:24-37 | 0.85 / 0.9 / 0.8 / 0.82 / 0.75 for Concrete / Metal Sheet / Tile / Asbestos / Other; an absent roof type is Concrete and an unknown name gets 0.85; always within [0.75, 0.9] |
| Feasibility.GrossHarvest | apps/frontend/src/app/analysis/lib/feasibility.ts:45 | the gross harvest is non-negative for a non-negative roof area and rainfall |
| Feasibility.NetHarvest | apps/frontend/src/app/analysis/lib/feasibility.ts:42-49 | the net harvest is never negative; for a non-negative gross harvest it is exactly 93% of it, so never more; it is 0 when the gross is not positive |
| Feasibility.NetOf | apps/frontend/src/app/analysis/lib/feasibility.ts:45-49 | 0 <= net, and net <= gross whenever gross >= 0 |
| Feasibility.AnnualDemand | apps/frontend/src/app/analysis/lib/feasibility.ts:51-52 | the yearly demand is non-negative for valid inputs |
| Feasibility.Utilization | apps/frontend/src/app/analysis/lib/feasibility.ts:54-55 | 0 when there is no demand; otherwise utilisation times demand is 100 times the net harvest (not capped at 100); non-negative |
| Feasibility.OverflowLoss | apps/frontend/src/app/analysis/lib/feasibility.ts:57 | the overflow is non-negative, at least net minus tank, equal to 0 or to net minus tank, and 0 whenever the tank holds the net harvest |
| Feasibility.ProjectedRainfall | apps/frontend/src/app/analysis/lib/feasibility.ts:64-67 | ten figures; year i is the rounded base rainfall less 5 i mm, floored at 0 |
| Feasibility.RoundShift | apps/frontend/src/app/analysis/lib/feasibility.ts:66 | `Math.round(x - k)` is `Math.round(x) - k` for a whole number k |
| Feasibility.ProjectionDeclines | apps/frontend/src/app/analysis/lib/feasibility.ts:65-67 | the projection never rises, and falls by exactly 5 mm a year while it stays positive |
| Feasibility.ClimateResilience | apps/frontend/src/app/analysis/lib/feasibility.ts:68 | the resilience is the constant 96, whatever the input |
| Feasibility.Round | apps/frontend/src/app/analysis/lib/feasibility.ts:73 | `Math.round` gives the integer within half a unit, halves going up |
| Feasibility.RoundMonotone | apps/frontend/src/app/analysis/lib/feasibility.ts:73 | `Math.round` never maps a larger value to a smaller integer |
| Feasibility.ToFixed | apps/frontend/src/app/analysis/lib/feasibility.ts:75 | `Number(x.toFixed(k))`: the result times 10^k is the integer `ScaledRound(x, k)`; it keeps the sign of x and lies within half a unit of the k-th decimal of x |
| Feasibility.AnnualSavings | apps/frontend/src/app/analysis/lib/feasibility.ts:73 | the savings are the net harvest priced at the tariff, within half a rupee (`Math.round`), and non-negative for a non-negative harvest and tariff |
| Feasibility.PaybackYears | apps/frontend/src/app/analysis/lib/feasibility.ts:74-75 | the payback is null exactly when the savings are at most 0; otherwise it is within 0.05 of cost over savings, and non-negative for a non-negative cost |
| Feasibility.RoiPercent | apps/frontend/src/app/analysis/lib/feasibility.ts:76-79 | the ROI is 0 when the cost is not positive; otherwise it is within 0.05 of savings over cost times 100, and non-negative for non-negative savings |
| Feasibility.CostBenefitTrend | apps/frontend/src/app/analysis/lib/feasibility.ts:83-90 | five entries; entry i has year i+1, the installation cost, and the savings grown for i years and rounded |
| Feasibility.GrownIsPow | apps/frontend/src/app/analysis/lib/feasibility.ts:88 | growing the savings by 3% for i years is multiplying by `Math.pow(1.03, i)` |
| Feasibility.Grown | apps/frontend/src/app/analysis/lib/feasibility.ts:88 | savings grown by 3% a year never fall below the non-negative starting amount |
| Feasibility.GrownMonotone | apps/frontend/src/app/analysis/lib/feasibility.ts:88 | non-negative savings grown for more years are never smaller |
| Feasibility.YearSavingsMonotone | apps/frontend/src/app/analysis/lib/feasibility.ts:88 | for non-negative savings, a later year's rounded savings are never smaller |
| Feasibility.CostBenefitSavingsGrow | apps/frontend/src/app/analysis/lib/feasibility.ts:82-90 | the first year saves exactly the annual savings, and the series never decreases |
| Feasibility.Co2SavedKg | apps/frontend/src/app/analysis/lib/feasibility.ts:95 | the CO2 figure is within 0.05 kg of 2.5 kg per kL harvested; non-negative for a non-negative harvest and exactly 0 without harvest |
| Feasibility.ReliabilityPercent | apps/frontend/src/app/analysis/lib/feasibility.ts:103-113 | the reliability is an integer in [25, 95], and at least 50 for a non-negative tank and utilisation |
| Feasibility.ReliabilityMonotone | apps/frontend/src/app/analysis/lib/feasibility.ts:103-113 | a bigger tank or a higher utilisation never lowers the reliability |
| Feasibility.ReliabilityOf | apps/frontend/src/app/analysis/lib/feasibility.ts:103-113 | the site's reliability is in [25, 95], and at least 50 with a non-negative tank |
| Feasibility.DistributionTotal | apps/frontend/src/app/analysis/lib/feasibility.ts:118-121 | the twelve month weights add up to 1.025 |
| Feasibility.NormalizedDistribution | apps/frontend/src/app/analysis/lib/feasibility.ts:118-122 | twelve non-negative normalised weights |
| Feasibility.NormalizedSumsToOne | apps/frontend/src/app/analysis/lib/feasibility.ts:121-122 | the normalised weights add up to exactly 1 |
| Feasibility.MonthlyColumn | apps/frontend/src/app/analysis/lib/feasibility.ts:125-130 | twelve monthly figures, each non-negative when the annual figure is |
| Feasibility.MonthlyColumnNearAnnual | apps/frontend/src/app/analysis/lib/feasibility.ts:125-130 | the twelve rounded monthly figures add up to the annual figure, give or take 6 |
| Feasibility.MonthlyTrend | apps/frontend/src/app/analysis/lib/feasibility.ts:123-130 | twelve points, January to December, each holding that month's rainfall, gross and net harvest |
| Feasibility.MonthlyNetNearAnnual | apps/frontend/src/app/analysis/lib/feasibility.ts:125-130 | the chart's monthly net harvests add up to the annual net harvest, give or take 6 L |
| Feasibility.CoverageScore | apps/frontend/src/app/analysis/lib/feasibility.ts:135 | at most 30 points, non-negative for a non-negative utilisation |
| Feasibility.PaybackScore | apps/frontend/src/app/analysis/lib/feasibility.ts:136 | between 0 and 25 points; a null payback earns 0 |
| Feasibility.PaybackScoreAntitone | apps/frontend/src/app/analysis/lib/feasibility.ts:136 | a shorter positive payback never scores less |
| Feasibility.ReliabilityScore | apps/frontend/src/app/analysis/lib/feasibility.ts:137 | at most 25 points, non-negative for a non-negative reliability |
| Feasibility.EnvironmentalScore | apps/frontend/src/app/analysis/lib/feasibility.ts:138 | between 0 and 20 points; 0 without net harvest, the corrected case of the finding below |
| Feasibility.FinalScore | apps/frontend/src/app/analysis/lib/feasibility.ts:140 | the capped, rounded sum of non-negative parts is an integer in [0, 100] |
| Feasibility.Category | apps/frontend/src/app/analysis/lib/feasibility.ts:141-142 | "Feasible" iff score >= 75, "Marginal" iff 50 <= score < 75, "Not Feasible" iff score < 50 |
| Feasibility.ScoreOf | apps/frontend/src/app/analysis/lib/feasibility.ts:135-140 | the site's score is in [0, 100] for every input |
| Feasibility.GenerateFeasibilityReport | apps/frontend/src/app/analysis/lib/feasibility.ts:160-209 | the report's invariants: score and category agree; net harvest, overflow, recharge, utilisation, CO2 and tanker trips are non-negative; net <= gross when gross >= 0; reliability in [25, 95]; payback null iff no savings; ROI 0 at zero cost; subsidy iff cost > 30000; series of 5, 10 and 12 entries with their years, costs and months; the summary's verdict, ROI, reliability and payback are the sections' own; no recommendations |
| Feasibility.ReportFigures | apps/frontend/src/app/analysis/lib/feasibility.ts:160-209 | the report carries the engine's score and coefficient, one recharge figure (0.4 of the net harvest, rounded) in both sections, the grown savings per year and the monthly series |
| Feasibility.NoRainScoreIsNaN | apps/frontend/src/app/analysis/lib/feasibility.ts:138-142 | as written, a site without rain gets the score NaN and the category "Not Feasible" |
| Feasibility.ScoreAsWrittenAgrees | apps/frontend/src/app/analysis/lib/feasibility.ts:135-142 | with any net harvest, the corrected score and category equal the ones the source computes |
| Feasibility.NoHarvestCategoryAgrees | apps/frontend/src/app/analysis/lib/feasibility.ts:135-142 | without net harvest, the corrected score is at most 20 and the category is "Not Feasible", as in the source |
| Feasibility.CoverageMonotone | apps/frontend/src/app/analysis/lib/feasibility.ts:54-55 | more net harvest, for the same demand, never lowers the coverage score |
| Feasibility.RoofAreaMonotone | apps/frontend/src/app/analysis/lib/feasibility.ts:45-55 | a larger roof never harvests less, gross or net, and never lowers the coverage score |
| Feasibility.ReferenceSiteReport | apps/frontend/src/app/analysis/lib/feasibility.ts:16-142 | for 120 m² of concrete, 850 mm, 8000 L, four people and 36000 INR: gross 86700 L, net 80631 L, savings 1613, ROI 4.5, reliability 80, score 56, "Marginal" |
| Decision.Verdict | apps/frontend/src/app/analysis/lib/generateDecisionWithGemini.ts:78-91 | one of four verdicts; "Highly Feasible" iff score >= 75 or (ROI >= 10 and reliability >= 80); then "Moderately Feasible" iff score >= 50; then "Low Feasibility" iff score > 0; otherwise "Feasibility Unknown"; every comparison with NaN fails |
| Decision.Message | apps/frontend/src/app/analysis/lib/generateDecisionWithGemini.ts:78-91 | the message is never empty, and it is the insufficient-data text exactly for the unknown verdict |
| Decision.ScoreField | apps/frontend/src/app/analysis/lib/generateDecisionWithGemini.ts:73 | a present, non-null `score` is the one read |
| Decision.FallbackDecision | apps/frontend/src/app/analysis/lib/generateDecisionWithGemini.ts:72-94 | the verdict is one of the four, is the rule table's for the report's figures, and both strings are non-empty; the message is the insufficient-data text iff the verdict is unknown |
| Decision.HighScoreIsHighlyFeasible | apps/frontend/src/app/analysis/lib/generateDecisionWithGemini.ts:73-84 | a report whose own score is a number of at least 75 gets the verdict "Highly Feasible", whatever its other figures |
| Decision.AsJson | apps/frontend/src/app/analysis/lib/generateDecisionWithGemini.ts:93 | the decision object has exactly the keys `verdict` and `message`, holding the decision's two strings |
| Decision.MissingScoreDefaults | apps/frontend/src/app/analysis/lib/generateDecisionWithGemini.ts:73 | without `score` the summary's score is read, and without either the score is 0 |
| Decision.VerdictMonotoneInScore | apps/frontend/src/app/analysis/lib/generateDecisionWithGemini.ts:82-91 | raising the score, the other figures fixed, never weakens the verdict |
| Decision.VerdictFollowsCategory | apps/frontend/src/app/analysis/lib/generateDecisionWithGemini.ts:82-91 | on an engine score: "Feasible" gives "Highly Feasible", "Marginal" gives at least "Moderately Feasible", and "Not Feasible" never gives "Moderately Feasible" |
| Decision.CleanReply | apps/frontend/src/app/analysis/lib/generateDecisionWithGemini.ts:42-46 | the cleaned reply has no control character, no blank at either end and no character the reply lacks; a reply with no backtick comes back trimmed, stripped of its control characters (line breaks included) and trimmed again; a reply whose trimmed form is wrapped in a "```json" ... "```" fence comes back as the body between the fences without control characters, trimmed; for a reply without control characters these reduce to "merely trimmed" and "its trimmed body" |
| Decision.FencedReplyCleans | apps/frontend/src/app/analysis/lib/generateDecisionWithGemini.ts:42-45 | on a fenced reply without control characters, the trim, the two fence removals and the control-character removal leave exactly the body |
| Decision.ReplyCleaning | apps/frontend/src/app/analysis/lib/generateDecisionWithGemini.ts:42-45 | before the last trim, a reply without backticks has only lost its control characters, and a trimmed fenced reply has become its body without control characters |
| Decision.FencedLinesJoin | apps/frontend/src/app/analysis/lib/generateDecisionWithGemini.ts:42-46 | the line break between two lines of a fenced reply is dropped: the reply cleans to the first line joined to the second line's text without control characters, trimmed |
| Decision.GenerateDecision | apps/frontend/src/app/analysis/lib/generateDecisionWithGemini.ts:12-66 | the result always has a truthy verdict and message; no reply gives the fallback; a parsed reply with both fields is returned as parsed; any other result is the fallback |
| Recommendations.NumberAt | apps/frontend/src/app/analysis/lib/recommendations.ts:9-31 | `Number(a ?? b ?? 0)`: the preferred value unless null or absent, then the alternative, then 0 |
| Recommendations.EmptyDataGivesZeros | apps/frontend/src/app/analysis/lib/recommendations.ts:9-31 | missing or empty site data gives five zero figures |
| Recommendations.FallbackListShape | apps/frontend/src/app/analysis/lib/recommendations.ts:125-165 | 6 items iff roof < 100 or roof > 200, else 5 (for a number roof: 5 iff 100 <= roof <= 200); the extra item is the catchment text iff roof < 100 and the inlets text iff roof > 200; recharge pits iff rainfall < 700, else first flush; subsidies iff ROI < 5, else greywater; dual tank iff resilience < 70, else monitoring; maintenance iff score >= 75, else downpipes; the sensor item last |
| Recommendations.FallbackListDistinct | apps/frontend/src/app/analysis/lib/recommendations.ts:125-165 | no recommendation appears twice |
| Recommendations.GenerateFallbackRecommendations | apps/frontend/src/app/analysis/lib/recommendations.ts:112-166 | the pushed list is the fallback list, of 5 or 6 items, ending with the sensor item |
| Recommendations.CleanLine | apps/frontend/src/app/analysis/lib/recommendations.ts:88 | a cleaned line has no blank at either end and no character the line lacks; it is the trimmed line, or, after a leading bullet, the trimmed rest of the line |
| Recommendations.OneBulletRemoved | apps/frontend/src/app/analysis/lib/recommendations.ts:88 | exactly one leading bullet is dropped: the rest is only trimmed, even if it starts with another bullet |
| Recommendations.CleanEach | apps/frontend/src/app/analysis/lib/recommendations.ts:88 | each line is cleaned in place |
| Recommendations.NonEmpty | apps/frontend/src/app/analysis/lib/recommendations.ts:89 | the kept strings are non-empty and come from the input; every non-empty input is kept; all-empty input gives nothing |
| Recommendations.CleanLinesKeepsContent | apps/frontend/src/app/analysis/lib/recommendations.ts:86-89 | every line of the reply that is not blank once cleaned is kept |
| Recommendations.NoLinesIffAllBlank | apps/frontend/src/app/analysis/lib/recommendations.ts:86-92 | the cleaned reply is empty iff every line cleans to nothing |
| Recommendations.GenerateRecommendations | apps/frontend/src/app/analysis/lib/recommendations.ts:7-107 | the result is never empty; it is the cleaned lines when the reply text is a string with some line left, and otherwise the fallback list for the extracted figures |
| PlanParser.Leaf | apps/frontend/src/app/planning/services/ModelPlanParser.ts:62-88 | a leaf keeps any non-null given value (0, "" and false included) and otherwise takes its default; never null |
| PlanParser.List | apps/frontend/src/app/planning/services/ModelPlanParser.ts:78-80 | the list is the given array, or [] when the key holds anything else or is missing |
| PlanParser.Normalize | apps/frontend/src/app/planning/services/ModelPlanParser.ts:59-90 | every leaf is present and non-null, and the three lists are the given arrays or [] |
| PlanParser.EmptyPlan | apps/frontend/src/app/planning/services/ModelPlanParser.ts:95-126 | the empty plan is complete, with empty lists |
| PlanParser.AsJson | apps/frontend/src/app/planning/services/ModelPlanParser.ts:60-89 | the plan object has exactly the eight keys: five sections that are objects and three arrays |
| PlanParser.TankRoundTrip | apps/frontend/src/app/planning/services/ModelPlanParser.ts:61-66 | normalising a complete plan's tank section gives it back |
| PlanParser.FiltrationRoundTrip | apps/frontend/src/app/planning/services/ModelPlanParser.ts:67-71 | normalising a complete plan's filtration section gives it back |
| PlanParser.CostRoundTrip | apps/frontend/src/app/planning/services/ModelPlanParser.ts:72-77 | normalising a complete plan's cost section gives it back |
| PlanParser.MaintenanceRoundTrip | apps/frontend/src/app/planning/services/ModelPlanParser.ts:81-84 | normalising a complete plan's maintenance section gives it back |
| PlanParser.MetaRoundTrip | apps/frontend/src/app/planning/services/ModelPlanParser.ts:85-88 | normalising a complete plan's meta section gives it back |
| PlanParser.ListsRoundTrip | apps/frontend/src/app/planning/services/ModelPlanParser.ts:78-80 | normalising a plan's three lists gives them back |
| PlanParser.NormalizeAsJson | apps/frontend/src/app/planning/services/ModelPlanParser.ts:59-90 | a complete plan survives its JavaScript form and `normalize` unchanged |
| PlanParser.NormalizeIdempotent | apps/frontend/src/app/planning/services/ModelPlanParser.ts:59-90 | `normalize` is idempotent |
| PlanParser.NormalizeEmptyPlan | apps/frontend/src/app/planning/services/ModelPlanParser.ts:59-126 | `normalize(emptyPlan())` is `emptyPlan()` |
| PlanParser.NormalizeNullIsNotEmptyPlan | apps/frontend/src/app/planning/services/ModelPlanParser.ts:59-126 | normalising nothing differs from the empty plan in the tank type and the meta notes |
| PlanParser.CleanPlanText | apps/frontend/src/app/planning/services/ModelPlanParser.ts:23-27 | the cleaned text has no "```" and no escaped line break left, no blank at either end, and only characters of the reply or line breaks; a reply with no backtick comes back with every escaped line break replaced, then trimmed; a reply wrapped in a "```json" ... "```" fence comes back as its body with every escaped line break replaced, then trimmed; without backslashes these reduce to "merely trimmed" and "its trimmed body" |
| PlanParser.FencedPlanCleans | apps/frontend/src/app/planning/services/ModelPlanParser.ts:23-26 | on a fenced reply without backslashes, the three replacements leave exactly the body |
| PlanParser.FencedEscapeUnescaped | apps/frontend/src/app/planning/services/ModelPlanParser.ts:23-27 | an escaped line break inside a fenced plan becomes a real line break; the text before it is kept and the text after it is unescaped alike |
| PlanParser.BraceSlice | apps/frontend/src/app/planning/services/ModelPlanParser.ts:40-43 | no slice iff a brace is missing; an empty slice iff the last `}` comes before the first `{`; otherwise a contiguous piece of the reply that starts with `{`, ends with `}`, has no `{` before it and no `}` after it |
| PlanParser.Parse | apps/frontend/src/app/planning/services/ModelPlanParser.ts:15-53 | the plan is complete and a fixed point of `normalize`; a missing, empty or non-string reply gives the empty plan; a cleaned text that parses gives its normalisation; otherwise the brace slice's normalised parse, or the empty plan |
| JsValues.Field | apps/frontend/src/app/analysis/lib/recommendations.ts:83 | optional chaining finds something iff the value is an object with that key |
| JsValues.Coalesce | apps/frontend/src/app/planning/services/ModelPlanParser.ts:62 | `v ?? d` is v unless v is null or absent, and d otherwise |
| JsStrings.Trim | apps/frontend/src/app/analysis/lib/generateDecisionWithGemini.ts:46 | the trimmed text is no longer than the input, has no blank at either end, and is the input itself when that has none |
| JsStrings.TrimIdempotent | apps/frontend/src/app/analysis/lib/generateDecisionWithGemini.ts:46 | trimming twice is trimming once |
| JsStrings.SplitLines | apps/frontend/src/app/analysis/lib/recommendations.ts:87 | splitting on line breaks gives at least one piece, none holding a line break |
| JsStrings.JoinSplitLines | apps/frontend/src/app/analysis/lib/recommendations.ts:87 | joining the pieces with line breaks gives the text back |
| JsStrings.RemoveFencesLeavesNone | apps/frontend/src/app/planning/services/ModelPlanParser.ts:25 | replacing every "```" by nothing leaves no "```" |
| JsStrings.ReplaceKeepsNoFence | apps/frontend/src/app/planning/services/ModelPlanParser.ts:26 | replacing the escaped line break by a line break creates no "```" |
| JsStrings.RemoveControlChars | apps/frontend/src/app/analysis/lib/generateDecisionWithGemini.ts:45 | a character occurs in the result iff it occurs in the input and is not below U+0020; a one-character input is kept or dropped by that test; input without control characters is unchanged |
| JsStrings.IndexOf | apps/frontend/src/app/planning/services/ModelPlanParser.ts:40 | the first position of the character, or -1 iff it is absent |
| JsStrings.LastIndexOf | apps/frontend/src/app/planning/services/ModelPlanParser.ts:41 | the last position of the character, or -1 iff it is absent |
| Feasibility.ScaledRound | apps/frontend/src/app/analysis/lib/feasibility.ts:75 | the integer nearest x times 10^k, halves going away from zero: within half a unit of it and of the sign of x |
| Feasibility.ToFixedWithin | apps/frontend/src/app/analysis/lib/feasibility.ts:148-150 | rounding to 1, 2 or 3 places moves a value by at most 0.05, 0.005 or 0.0005 |
| Feasibility.TankTerm | apps/frontend/src/app/analysis/lib/feasibility.ts:109 | the tank term is at most 30 and non-negative for a non-negative tank |
| Feasibility.UtilizationTerm | apps/frontend/src/app/analysis/lib/feasibility.ts:110 | the utilisation term is at most 15 and non-negative for a non-negative utilisation |
| Feasibility.HydrologyOf | apps/frontend/src/app/analysis/lib/feasibility.ts:163-173 | the hydrology section: the roof area and coefficient; rounded gross and net harvest with 0 <= net, and net <= gross when gross >= 0; non-negative overflow, 0 when the tank holds the net harvest; recharge is 0.4 of the net rounded; utilisation non-negative and within 0.005 of the engine's |
| Feasibility.FinancialsOf | apps/frontend/src/app/analysis/lib/feasibility.ts:174-182 | the financial section: the cost, the savings, payback, ROI and the five-year series of the engine; ten-year net savings are ten years' savings less the cost, rounded; subsidy iff cost > 30000 |
| Feasibility.EnvironmentalImpactOf | apps/frontend/src/app/analysis/lib/feasibility.ts:183-189 | the environmental section: the recharge, the non-negative CO2 figure, tonnes within 0.0005 of kilograms / 1000, tanker trips as the net over 5000 L rounded and non-negative, and the flood figure 2.5 |
| Feasibility.SummaryOf | apps/frontend/src/app/analysis/lib/feasibility.ts:147-155 | harvest and demand in kL within 0.005 of the figures in litres / 1000, coverage within 0.05 of the utilisation, the other four fields as given |
| Feasibility.SummaryFigures | apps/frontend/src/app/analysis/lib/feasibility.ts:147-155 | the report's summary harvest, demand and coverage are the engine's net harvest, demand and utilisation up to their rounding |
| Feasibility.EnvironmentalScoreAsWritten | apps/frontend/src/app/analysis/lib/feasibility.ts:138 | as written, the environmental score is NaN exactly when there is no net harvest, and otherwise at most 20 |
| Feasibility.ScoreAsWritten | apps/frontend/src/app/analysis/lib/feasibility.ts:135-140 | as written, the final score is NaN exactly when there is no net harvest, and otherwise at most 100 |
| Feasibility.CategoryAsWritten | apps/frontend/src/app/analysis/lib/feasibility.ts:141-142 | as written, a NaN score is "Not Feasible"; a number is "Feasible" iff >= 75 and "Marginal" iff in [50, 75) |
| Decision.Figure | apps/frontend/src/app/analysis/lib/generateDecisionWithGemini.ts:74-76 | `report.section?.key ?? 0`: a present, non-null figure is read as is, and otherwise the figure is 0 |
| Decision.ReadFigures | apps/frontend/src/app/analysis/lib/generateDecisionWithGemini.ts:73-76 | each figure reads as `Number(... ?? 0)`: the score is the report's own score when present and not null, else the summary's score, else 0; the ROI, reliability and coverage are `financials.roi_percent`, `reliability.reliability_percent` and `summary.coverage_percent` when present and not null, else 0; a report that is not an object reads four zeros |
| JsValues.ReadsAs | apps/frontend/src/app/analysis/lib/recommendations.ts:9-31 | the meaning of `Number(a ?? b ?? 0)`: the preferred value when present and not null, else the alternative on the same terms, else 0 |
| Decision.CleanTextUntouched | apps/frontend/src/app/analysis/lib/generateDecisionWithGemini.ts:42-46 | on a reply with no backtick and no control character, the three replacements and the final trim change nothing beyond the first trim |
| Decision.LacksFields | apps/frontend/src/app/analysis/lib/generateDecisionWithGemini.ts:58 | a parsed reply that passes the schema check is an object whose `verdict` and `message` are present and not null |
| Recommendations.ExtractInputs | apps/frontend/src/app/analysis/lib/recommendations.ts:9-31 | each of the five figures is `Number(a ?? b ?? 0)` over its two keys: `roofArea`/`roofArea_m2`, `annualRainfall`/`annualRainfall_mm`, `economicAnalysis.roi`/`financials.roi_percent`, `score`, `climateTrend.climateResilience`/`climate.resilience`: the first key when present and not null, else the second, else 0; no data at all gives five zeros |
| Recommendations.FallbackList | apps/frontend/src/app/analysis/lib/recommendations.ts:125-165 | the rule list has 5 or 6 items and ends with the sensor item |
| Recommendations.StripBullet | apps/frontend/src/app/analysis/lib/recommendations.ts:88 | the result is a suffix of the line; without a leading bullet it is the line; with one it is shorter, drops only the bullet and the blanks after it, and does not start with a blank |
| Recommendations.StrippedLineTrim | apps/frontend/src/app/analysis/lib/recommendations.ts:88 | stripping a bullet and trimming is trimming the line, or the line past its bullet |
| Recommendations.StrippedLineChars | apps/frontend/src/app/analysis/lib/recommendations.ts:88 | stripping a bullet and trimming keeps only characters of the line |
| Recommendations.TrimAfterTrimStart | apps/frontend/src/app/analysis/lib/recommendations.ts:88 | trimming a left-trimmed line is trimming the line |
| Recommendations.NonEmptyCounts | apps/frontend/src/app/analysis/lib/recommendations.ts:89 | `filter(Boolean)` keeps every non-empty string exactly as often as it occurs and drops every empty one |
| Recommendations.NonEmptyAppend | apps/frontend/src/app/analysis/lib/recommendations.ts:89 | filtering a concatenation is concatenating the filtered parts, so the order of the lines is kept |
| Recommendations.CleanLines | apps/frontend/src/app/analysis/lib/recommendations.ts:86-89 | no cleaned line is empty, holds a line break, or starts or ends with a blank |
| Recommendations.CleanPieceWellFormed | apps/frontend/src/app/analysis/lib/recommendations.ts:88 | a piece without line breaks cleans to nothing or to a well-formed line |
| Recommendations.CleanEachWellFormed | apps/frontend/src/app/analysis/lib/recommendations.ts:88 | each piece without line breaks cleans to nothing or to a well-formed line |
| Recommendations.NonEmptyWellFormed | apps/frontend/src/app/analysis/lib/recommendations.ts:89 | dropping the empty strings of such a list leaves only well-formed lines |
| Recommendations.CleanEachKeepsContent | apps/frontend/src/app/analysis/lib/recommendations.ts:88-89 | every line that does not clean to nothing survives the filter |
| Recommendations.ReplyText | apps/frontend/src/app/analysis/lib/recommendations.ts:83 | `...?.text ?? ""` is never null, and no response gives the empty string; what it reads is stated by `Recommendations.ReplyTextOfResponse` |
| Recommendations.ReplyTextOfResponse | apps/frontend/src/app/analysis/lib/recommendations.ts:83 | the text of the first part of the first candidate's content, whatever non-null value it is, is the reply text |
| Recommendations.ReplyTextMissing | apps/frontend/src/app/analysis/lib/recommendations.ts:83 | a response object without candidates gives the empty string |
| PlanParser.NormalizeTank | apps/frontend/src/app/planning/services/ModelPlanParser.ts:61-66 | no tank leaf is null; without a tank section the tank is 0, "Not specified", [] and "No justification provided." |
| PlanParser.NormalizeFiltration | apps/frontend/src/app/planning/services/ModelPlanParser.ts:67-71 | no filtration leaf is null; without the section it is "Not provided", [] and "" |
| PlanParser.NormalizeCost | apps/frontend/src/app/planning/services/ModelPlanParser.ts:72-77 | no cost leaf is null; without the section all four figures are 0 |
| PlanParser.NormalizeMaintenance | apps/frontend/src/app/planning/services/ModelPlanParser.ts:81-84 | no maintenance leaf is null; without the section it is [] and "Not specified" |
| PlanParser.NormalizeMeta | apps/frontend/src/app/planning/services/ModelPlanParser.ts:85-88 | no meta leaf is null; without the section it is 0 and "No notes available." |
| PlanParser.PlainTextUntouched | apps/frontend/src/app/planning/services/ModelPlanParser.ts:23-26 | on a reply with no backtick and no backslash, the three replacements change nothing |
| PlanParser.TrimKeepsNoFence | apps/frontend/src/app/planning/services/ModelPlanParser.ts:27 | trimming a text with no "```" creates none |
| PlanParser.TrimKeepsNoEscapedNewline | apps/frontend/src/app/planning/services/ModelPlanParser.ts:27 | trimming a text with no escaped line break creates none |
| JsValues.First | apps/frontend/src/app/analysis/lib/recommendations.ts:83 | `?.[0]` finds something only in an array or object; on an array it finds the first item iff the array is non-empty |
| JsValues.CoalesceOpt | apps/frontend/src/app/analysis/lib/recommendations.ts:9 | `a ?? b` on possibly absent values: a unless null or absent, then b; absent iff both are |
| JsValues.Truthy | apps/frontend/src/app/analysis/lib/generateDecisionWithGemini.ts:58 | a truthy value is present and not null; every array and object is truthy |
| JsValues.ToNumber | apps/frontend/src/app/analysis/lib/generateDecisionWithGemini.ts:73 | `Number(v)`: a number is itself; null, a boolean and [] give a number; NaN only from a string, an object or a non-empty array |
| JsStrings.TrimStart | apps/frontend/src/app/analysis/lib/generateDecisionWithGemini.ts:46 | the result is the suffix left after dropping blanks, and starts with no blank |
| JsStrings.TrimEnd | apps/frontend/src/app/analysis/lib/generateDecisionWithGemini.ts:46 | the result is the prefix left after dropping blanks, and ends with no blank |
| JsStrings.TrimIsSlice | apps/frontend/src/app/analysis/lib/generateDecisionWithGemini.ts:46 | the trimmed text is the contiguous piece of the input that starts after its leading blanks |
| JsStrings.TrimDropsOnlyBlanks | apps/frontend/src/app/analysis/lib/generateDecisionWithGemini.ts:46 | every character dropped by the trim, before or after the kept piece, is a blank |
| JsStrings.TrimKeepsChars | apps/frontend/src/app/analysis/lib/generateDecisionWithGemini.ts:46 | trimming keeps only characters of the input |
| JsStrings.ReplaceAll | apps/frontend/src/app/planning/services/ModelPlanParser.ts:24-26 | a global replace uses only characters of the text or the replacement, and leaves a text that never meets the pattern's first character unchanged (the replacing cases are in the two rows below) |
| JsStrings.ReplaceAllPrefix | apps/frontend/src/app/planning/services/ModelPlanParser.ts:24-26 | a prefix none of whose characters can start a match is kept as is, and the replace goes on after it |
| JsStrings.ReplaceAllMatch | apps/frontend/src/app/planning/services/ModelPlanParser.ts:24-26 | a text that opens with the pattern has that occurrence replaced, and the replace goes on after it |
| JsStrings.UnwrapFence | apps/frontend/src/app/planning/services/ModelPlanParser.ts:24-25 | dropping "```json" and then "```" from a fenced body without backticks leaves exactly the body |
| JsStrings.NoTicksNoFences | apps/frontend/src/app/planning/services/ModelPlanParser.ts:24-25 | dropping "```json" and then "```" leaves a text without backticks unchanged |
| JsStrings.FencedJsonUnwraps | apps/frontend/src/app/planning/services/ModelPlanParser.ts:24-25 | dropping "```json" and then "```" from a fenced reply leaves exactly what lies between the fences |
| JsStrings.FencedAround | apps/frontend/src/app/planning/services/ModelPlanParser.ts:24-25 | a body without backticks, wrapped in the fences, is a fenced reply with that body and no blank at either end |
| JsStrings.UnescapeFirst | apps/frontend/src/app/planning/services/ModelPlanParser.ts:26 | the first escaped line break is replaced by a line break, the text before it is kept, and the rest is replaced alike |
| JsStrings.RemoveFencesLeadTicks | apps/frontend/src/app/planning/services/ModelPlanParser.ts:25 | after removing every "```", the leading backticks left are the original run modulo 3 |
| JsStrings.UnescapeLeavesNone | apps/frontend/src/app/planning/services/ModelPlanParser.ts:26 | replacing every escaped line break by a line break leaves no escaped line break |
| JsStrings.RemoveControlCharsAppend | apps/frontend/src/app/analysis/lib/generateDecisionWithGemini.ts:45 | removing control characters from a concatenation is concatenating the cleaned parts |
| JsStrings.RemoveControlCharsBreak | apps/frontend/src/app/analysis/lib/generateDecisionWithGemini.ts:45 | a line break between two texts is removed, and a first text without control characters is kept |
| JsStrings.Slice | apps/frontend/src/app/planning/services/ModelPlanParser.ts:43 | `s.slice(a, b)` has length b - a when a < b and 0 otherwise, holding s's characters from a on |

## Left out

- The Gemini calls are not modelled: the API-key check, `generateContent` and `fetch`. Each reply is a parameter, and `None` stands for "no key, or the call threw".
- The prompt texts are not modelled. Neither are the figures read only for the prompt in `recommendations.ts`: harvest, category, payback, CO2 and subsidy eligibility.
- Console logging is not modelled.
- Arithmetic is over exact reals, not IEEE-754 doubles. Infinities and rounding errors of floating point are not modelled. NaN is modelled only where the sources can produce it.
- `Number(x.toFixed(k))` for |x| >= 1e21 is not modelled; there `toFixed` switches to exponent notation.
- `Number(...)` of a non-empty array goes through the array's string form in JavaScript; here it is NaN.
- JavaScript's conversions between strings and numbers are parameters (`Runtime`), and so is `JSON.parse`.
- `Feasibility.RunoffCoefficient`: a roof-type name inherited by every object, such as "constructor", is looked up on the prototype in JavaScript. Here it is an unknown name and gets 0.85.
- Feasibility: the optional inputs are absent or numbers. In the source the defaults of `avgDailyUse_L`, `waterCost_INR_L` and `roofType` (apps/frontend/src/app/analysis/lib/feasibility.ts:22-24) replace only `undefined`. An explicit `null` daily use or tariff is not replaced by 135 or 0.02; it is multiplied as 0. An explicit `null` is not a possible input of this model, so that behaviour is not modelled.
- Feasibility: the engine accepts any numbers. The monotonicity lemmas and some bounds hold only for non-negative inputs, which `ValidInput` states.
- `Decision.FallbackDecision`: requires a report that is not null. In the source, reading `report.score` of `null` throws.
- Decision.GenerateDecision: requires a report that is not null, like `Decision.FallbackDecision`. With a null report and a usable reply the source would still return the parsed reply; every caller in the front end passes a report object, so that case is not modelled.
- `Decision.CleanReply`: does not state that no "```" is left. Removing a control character can join two backtick runs into a new fence, so the source does not promise it.
- Case-insensitive matching of "```json" folds ASCII letters only.
- The React components, the feasibility context, the prompt builder, the map and the back end are not part of this model.

## Findings

| source | as written | input that shows it | evidently intended | confidence | as-written member | corrected member |
|---|---|---|---|---|---|---|
| apps/frontend/src/app/analysis/lib/feasibility.ts:138 | the environmental score divides the CO2 figure by the net harvest in kL. Without net harvest that is 0 / 0, i.e. NaN, which makes the final score NaN | annualRainfall_mm = 0 (or roofArea_m2 = 0): the report's score is NaN and its category "Not Feasible" | a site without net harvest earns no environmental points; its score is a number (at most 20) and its category is still "Not Feasible" | not executed | Feasibility.NoRainScoreIsNaN | Feasibility.NoHarvestCategoryAgrees |
