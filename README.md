# Aadhaar ecosystem health scoring engine, in Dafny

This project models the scoring core of the Aadhaar ecosystem health analysis
(`src/aadhaar_analysis.py`). It takes three record streams: enrolments by age
band, biometric updates and demographic updates. From them it builds three
views of the data:

- a state view: an outer union of the states in all three streams, with
  missing fields zero-filled;
- a (state, district) view;
- a (state, month) view.

Each state then gets five pillar metrics:

- IDI, the infrastructure deficit: enrolment share minus update share;
- UBI, the update balance: the biometric fraction of the state's updates;
- YIR, youth inclusion: the state's youth-to-adult update ratio relative to
  the national one;
- GCI, geographic concentration: the Gini coefficient of the district totals;
- TCS, temporal consistency: 1 minus the coefficient of variation of the
  monthly totals.

The pillars are rescaled to 0–100 scores and combined into a weighted health
score. Each state is classified into one of seven archetypes by a first-match
rule cascade, with a display symbol. Finally, five problem-risk percentages
and their mean are attached, using a left merge with the state view.

Counts are `nat` and all metrics are exact `real` arithmetic. The proofs
cover:

- the aggregation: sums per key, zero-fill, the outer union of keys,
  conservation of national totals, and district and month views that add up
  to the state view;
- the Gini calculator: its range, equal values giving 0, and the clamp never
  firing;
- the pillar metrics: every division fallback, every range, and the IDI
  column summing to exactly 0;
- the health score: its ranges and the weights summing to 1;
- the archetype cascade: its priority order, and a symbol for every label;
- the risks: their ranges, the fallbacks, and a left merge that never misses
  a state.

Files and modules:

- `grouping.dfy` (`Grouping`): the generic groupby-sum, the outer union of keys, and refinement of fine groups into coarse ones.
- `aggregation.dfy` (`Aggregation`): the record types and the state, district and month views.
- `gini.dfy` (`Gini`): the Gini calculator.
- `metrics.dfy` (`Metrics`): national totals, the five pillars, the per-state loop `PillarsLoop`, and `CalculateMetrics`, which takes the national totals and then runs the loop.
- `health.dfy` (`Health`): the pillar scores and the health score.
- `archetype.dfy` (`Archetype`): the rule cascade and the symbol map.
- `risks.dfy` (`Risks`): the merge with the state view and the five risks.
- `pipeline.dfy` (`Pipeline`): the stages composed, with facts about the final table.

One behaviour of the code worth noting: a state with no adult updates gets a
state youth ratio of 0, not its youth updates divided by 1
(`src/aadhaar_analysis.py:267`). `Metrics.YouthRatio` follows the code.

## Model

| member | source | states |
|---|---|---|
| Grouping.Distinct | src/aadhaar_analysis.py:150-151 | the outer union of keys: no key twice, every input key present, nothing else present |
| Grouping.GroupSum | src/aadhaar_analysis.py:128-147 | a groupby-sum cell: at most the column total, 0 for a key no record carries (the zero fill), the whole total when every record has the key |
| Grouping.GroupSumAdditive | src/aadhaar_analysis.py:105-106 | grouping commutes with adding two columns (totals derived before or after grouping agree) |
| Grouping.GroupSumAdditive3 | src/aadhaar_analysis.py:100-104 | grouping commutes with adding three columns (total enrolment of a state is the sum of its age-band sums) |
| Grouping.KeyedSumRefines | src/aadhaar_analysis.py:170-180 | summing the fine (state, sub) groups of one state gives that state's group sum, when the fine keys list every record key once |
| Grouping.SumLast | src/aadhaar_analysis.py:232-233 | a column total taken from the last row equals the one taken from the first |
| Aggregation.RecordEnrolment | src/aadhaar_analysis.py:99-103 | the per-record total_enrolment, the sum of the three age bands; Grouping.GroupSumAdditive3 shows grouping it gives the sum of the grouped bands |
| Aggregation.RecordUpdates | src/aadhaar_analysis.py:105-106 | the per-record total_bio / total_demo, the sum of the two age bands; Grouping.GroupSumAdditive shows grouping it gives the sum of the grouped bands |
| Aggregation.StateRowOf | src/aadhaar_analysis.py:128-155 | a state row: derived totals agree with the age bands, total_updates = total_bio + total_demo, zeros for every dataset the state is missing from |
| Aggregation.AggregateByState | src/aadhaar_analysis.py:119-162 | the state view: each state once, a state is present iff it occurs in any of the three datasets, each row is that state's sums, every row consistent |
| Grouping.DistinctMembers | src/aadhaar_analysis.py:150-151 | a key is in the outer union of keys iff it is in one of the inputs |
| Aggregation.StateKeysCover | src/aadhaar_analysis.py:150-152 | every record's state has a row in the state view |
| Aggregation.StateRowsTotals | src/aadhaar_analysis.py:128-155 | column totals over state rows are the added group sums of those states |
| Aggregation.StateViewConservesTotals | src/aadhaar_analysis.py:128-155 | national enrolment, biometric and demographic totals of the state view equal the totals over the records; total updates is their sum |
| Aggregation.SubRowOf | src/aadhaar_analysis.py:170-180 | the row of a (state, sub) key: each dataset's total is at most that dataset's update total and is 0 (the fill) when no record of the dataset has the key; total_updates = total_bio + total_demo |
| Aggregation.AggregateBySub | src/aadhaar_analysis.py:165-201 | the shared shape of the district and month views: each (state, sub) key once, every row's key carried by some update record and every record's key present, each row that key's sums |
| Aggregation.AggregateByDistrict | src/aadhaar_analysis.py:165-182 | each (state, district) key once; a key has a row iff some update record carries it; each row holds that key's biometric and demographic sums, and total_updates is their sum |
| Aggregation.AggregateByMonth | src/aadhaar_analysis.py:185-201 | each (state, month) key once; a key has a row iff some update record carries it; each row holds that key's biometric and demographic sums, and total_updates is their sum |
| Aggregation.SubRowsUpdatesOfState | src/aadhaar_analysis.py:178-180 | a state's (state, sub) row totals are the keyed sums over biometric plus demographic records |
| Aggregation.SubKeysCover | src/aadhaar_analysis.py:178 | every record's (state, sub) key has a row in the view |
| Aggregation.SubViewSumsToState | src/aadhaar_analysis.py:170-180 | for any key that keeps the state, a state's sub-view update totals add up to its state-view total_updates |
| Aggregation.DistrictViewSumsToState | src/aadhaar_analysis.py:170-180 | for every state, its district rows' total_updates add up to its state-view total_updates |
| Aggregation.MonthViewSumsToState | src/aadhaar_analysis.py:189-199 | for every state, its month rows' total_updates add up to its state-view total_updates |
| Gini.Positives | src/aadhaar_analysis.py:211 | the kept entries are all positive, come from the input, and are the whole input when it is all positive |
| Gini.PositivesKeepsPositiveEntries | src/aadhaar_analysis.py:211 | `values[values > 0]` exactly: every positive entry is kept as often as it occurs, and nothing else |
| Gini.Insert | src/aadhaar_analysis.py:216 | inserting into a sorted sequence keeps it sorted and adds exactly one occurrence of the value |
| Gini.SortAsc | src/aadhaar_analysis.py:216 | the result is ascending and a permutation of the input |
| Gini.SortedPositives | src/aadhaar_analysis.py:211-216 | the ranked values are ascending, positive and a permutation of the positive entries |
| Gini.Total | src/aadhaar_analysis.py:218 | the sum (`cumsum[-1]`); Gini.TotalPositive, Gini.TotalAppend and Gini.TotalAtMost state its properties |
| Gini.TotalAppend | src/aadhaar_analysis.py:218 | the sum of a concatenation is the sum of the parts |
| Gini.RankWeighted | src/aadhaar_analysis.py:219 | the rank-weighted sum with 1-based ranks; Gini.RankWeightedBounds bounds it |
| Gini.Formula | src/aadhaar_analysis.py:219 | the discrete formula; Gini.FormulaBounds and Gini.FormulaAtEqualValues state its range and its zero |
| Gini.RawGini | src/aadhaar_analysis.py:216-219 | the unclamped coefficient; Gini.RawGiniBounds and Gini.RawGiniOfEqualValues state its range and its zero |
| Gini.TotalPositive | src/aadhaar_analysis.py:218-219 | the sum of positive values is positive, so the formula's divisor is never 0 |
| Gini.Clamp01 | src/aadhaar_analysis.py:220 | the clamp lands in [0, 1] and leaves values already there unchanged |
| Gini.Gini | src/aadhaar_analysis.py:208-220 | the coefficient lies in [0, 1]; fewer than two positive entries give 0 |
| Gini.GiniIgnoresNonPositive | src/aadhaar_analysis.py:211 | entries that are zero or negative do not change the coefficient |
| Gini.ConstantSums | src/aadhaar_analysis.py:218-219 | for n equal values c the sum is n*c and twice the rank-weighted sum is c*n*(n+1) |
| Gini.FormulaAtEqualValues | src/aadhaar_analysis.py:219 | the formula is 0 at the sums of n equal values |
| Gini.RawGiniOfEqualValues | src/aadhaar_analysis.py:216-219 | equal positive values give an unclamped coefficient of 0 |
| Gini.GiniOfEqualValues | src/aadhaar_analysis.py:208-220 | two or more positive entries that are all equal give coefficient 0 |
| Gini.TotalAtMost | src/aadhaar_analysis.py:218 | n values each at most x sum to at most n*x |
| Gini.RankWeightedBounds | src/aadhaar_analysis.py:216-219 | for ascending positive values, (n+1)*sum <= 2*rank-weighted sum and rank-weighted sum <= n*sum |
| Gini.RankStep | src/aadhaar_analysis.py:219 | appending a largest value keeps both rank-weighted bounds |
| Gini.FormulaBounds | src/aadhaar_analysis.py:219 | under those bounds the formula lies in [0, (n-1)/n] and below 1 |
| Gini.RawGiniBounds | src/aadhaar_analysis.py:216-219 | the unclamped coefficient of ascending positive values lies in [0, (n-1)/n] |
| Gini.GiniClampInactive | src/aadhaar_analysis.py:219-220 | with two or more positive entries the clamp never changes the value, which is at most (n-1)/n |
| Gini.GiniBelowOne | src/aadhaar_analysis.py:208-220 | the coefficient is always strictly below 1 |
| Metrics.YouthRatio | src/aadhaar_analysis.py:243-245 | youth per adult update is non-negative, 0 when there are no adult updates, and 0 exactly when either count is 0 |
| Metrics.NationalOf | src/aadhaar_analysis.py:231-245 | the national totals of a state table; over the state view they are the record totals, as Metrics.NationalOfStateView proves |
| Metrics.NationalOfStateView | src/aadhaar_analysis.py:231-235 | over the state view, national enrolment is the enrolment over all records, national bio and demo are the update totals of the two datasets, and national updates is their sum |
| Metrics.Share | src/aadhaar_analysis.py:256-257 | a share is non-negative, 0 when the national total is 0, at most 1 when the part is within the whole, and 1 for the whole itself |
| Metrics.Ubi | src/aadhaar_analysis.py:261-262 | UBI lies in [0, 1], is 0.5 with no updates, 0 exactly when only demographic updates exist and 1 exactly when only biometric ones do |
| Metrics.Yir | src/aadhaar_analysis.py:268 | YIR is 1 when the national ratio is not positive, non-negative for a non-negative state ratio, and otherwise 0 exactly when the state ratio is 0 |
| Metrics.YirAtLeastOne | src/aadhaar_analysis.py:268 | with a positive national ratio, YIR >= 1 exactly when the state ratio is at least the national one |
| Metrics.Gci | src/aadhaar_analysis.py:271-272 | GCI lies in [0, 1) and is 0 for at most one district row |
| Metrics.TotalsOfState | src/aadhaar_analysis.py:271-275 | the selected totals are no more than the view's rows and all non-negative; Metrics.TotalsOfStateSelectsRows ties them to the rows of the state |
| Metrics.TotalsOfStateSelectsRows | src/aadhaar_analysis.py:271-275 | one value per row of the state in the view, adding up to those rows' total_updates |
| Metrics.GciFallback | src/aadhaar_analysis.py:271-272 | a state with at most one row in the district view has GCI 0 |
| Metrics.Mean | src/aadhaar_analysis.py:276-277 | `np.mean`; Metrics.MeanOfZeroTotal and Metrics.TcsOfSteadyMonths state its values |
| Metrics.MeanOfZeroTotal | src/aadhaar_analysis.py:276 | values adding up to 0 have mean 0 |
| Metrics.TcsFallback | src/aadhaar_analysis.py:275-280 | a state with at most one row in the month view, or with no updates in any month, has TCS 0.5 |
| Metrics.SquaredDeviations | src/aadhaar_analysis.py:277 | a sum of squared deviations is non-negative |
| Metrics.Variance | src/aadhaar_analysis.py:277 | the population variance is non-negative |
| Metrics.Tcs | src/aadhaar_analysis.py:275-280 | TCS lies in [0, 1] and is 0.5 with at most one month row or a non-positive mean |
| Metrics.SquaredDeviationsOfConstant | src/aadhaar_analysis.py:277 | constant values have no deviation from their value |
| Metrics.TcsOfSteadyMonths | src/aadhaar_analysis.py:276-278 | two or more months with the same positive total give TCS = 1 |
| Metrics.Idi | src/aadhaar_analysis.py:255-258 | enrolment share minus update share; Metrics.IdiRange bounds it |
| Metrics.IdiRange | src/aadhaar_analysis.py:255-258 | a state holding part of both national totals has IDI in [-1, 1]; with both national totals 0 its IDI is 0 |
| Metrics.PillarsOf | src/aadhaar_analysis.py:253-295 | one state's metrics row keeps its state, has every pillar in range and IDI = enrolment share - update share |
| Metrics.PillarsTable | src/aadhaar_analysis.py:250-297 | one metrics row per state row, in order, each in range and carrying its state |
| Metrics.MetricsTable | src/aadhaar_analysis.py:223-297 | the metrics table has one in-range row per state of the view, in order |
| Metrics.ShareAdditive | src/aadhaar_analysis.py:256-257 | shares of the same national total add up |
| Metrics.IdiTotalIsShareDifference | src/aadhaar_analysis.py:256-258 | the IDI values of any rows add up to their enrolment share minus their update share |
| Metrics.IdiSumOfRows | src/aadhaar_analysis.py:250-301 | the IDI column of the metrics table adds up to the IDI values of the state rows |
| Metrics.IdiSumsToZero | src/aadhaar_analysis.py:299-301 | the IDI column sums to exactly 0 when both national totals are positive (in general: 1 per positive total, enrolment minus updates) |
| Metrics.StateMetrics | src/aadhaar_analysis.py:253-295 | the loop body computes exactly the metrics row of its state |
| Metrics.PillarsLoop | src/aadhaar_analysis.py:249-297 | for any national totals, the loop appends exactly the metrics row of each state row, in row order |
| Metrics.CalculateMetrics | src/aadhaar_analysis.py:223-303 | with national totals taken from the state view, the result is the metrics table of that view, one row per state |
| Health.MinIdi | src/aadhaar_analysis.py:316 | the minimum IDI is at most every row's IDI and is some row's IDI |
| Health.MaxIdi | src/aadhaar_analysis.py:316 | the maximum IDI is at least every row's IDI and is some row's IDI |
| Health.Clip | src/aadhaar_analysis.py:321 | a clipped value lies in the bounds and is unchanged when already inside |
| Health.Abs | src/aadhaar_analysis.py:320 | the absolute value is non-negative and 0 only at 0 |
| Health.IdiScore | src/aadhaar_analysis.py:317 | the inverted min-max normalisation; Health.IdiScoreRange and Health.IdiScoreAntitone state its range and order |
| Health.IdiScoreRange | src/aadhaar_analysis.py:316-317 | within the table's IDI range the score lies in (0, 100] and is 100 exactly at the minimum IDI |
| Health.IdiScoreAntitone | src/aadhaar_analysis.py:317 | a larger IDI never scores higher |
| Health.UbiRaw | src/aadhaar_analysis.py:320 | the unclipped UBI score is at most 100, reached exactly at the ideal 0.425 |
| Health.UbiScore | src/aadhaar_analysis.py:320-321 | the UBI score lies in [0, 100] |
| Health.UbiScoreFacts | src/aadhaar_analysis.py:320-321 | the UBI score is 100 exactly at 0.425, 0 exactly outside (0, 0.85), and symmetric about 0.425 |
| Health.YirScore | src/aadhaar_analysis.py:324 | the YIR score lies in [0, 100] for YIR >= 0 and is 100 from YIR = 1.5 on |
| Health.YirScoreMonotone | src/aadhaar_analysis.py:324 | a higher YIR never scores lower |
| Health.GciScore | src/aadhaar_analysis.py:327 | the GCI score lies in [0, 100] for GCI in [0, 1] and is positive for GCI < 1 |
| Health.TcsScore | src/aadhaar_analysis.py:330 | the TCS score lies in [0, 100] for TCS in [0, 1] |
| Health.Composite | src/aadhaar_analysis.py:333-339 | the weighted sum; Health.CompositeRange states its range |
| Health.CompositeRange | src/aadhaar_analysis.py:333-339 | the weights sum to 1: scores in [0, 100] give a health score in [0, 100], which is 100 exactly when every score is |
| Health.ScoreRow | src/aadhaar_analysis.py:316-339 | a scored row keeps its metrics row |
| Health.ScoreRowRange | src/aadhaar_analysis.py:316-339 | an in-range row inside the IDI range has every score in [0, 100] and health in (0, 100] |
| Health.ScoreRows | src/aadhaar_analysis.py:316-339 | every row is scored against the same IDI range, in order |
| Health.HealthTable | src/aadhaar_analysis.py:306-343 | the scored table has the metrics rows in order |
| Health.HealthTableRange | src/aadhaar_analysis.py:316-339 | over in-range rows, every score and every health score lies within its range |
| Health.HealthTableIdiOrder | src/aadhaar_analysis.py:316-317 | IDI scores order states inversely to IDI, and a state scores 100 exactly when it has the minimum IDI |
| Archetype.Classify | src/aadhaar_analysis.py:351-378 | the chosen archetype's own rule holds (Archetype.ClassifyFirstFiring adds that no earlier rule does) |
| Archetype.ClassifyFirstFiring | src/aadhaar_analysis.py:351-378 | the chosen archetype's rule holds and no rule earlier in the priority order does |
| Archetype.ClassifyCharacterised | src/aadhaar_analysis.py:351-372 | Excluded (Youth), Excluded (Update Imbalance), Excluded (Geographic), Sleepwalker and Digital Leader each hold exactly under their conjunction of earlier failures and own test |
| Archetype.DigitalLeaderPassesExclusions | src/aadhaar_analysis.py:355-372 | a Digital Leader passes every exclusion test and is not a Sleepwalker |
| Archetype.SymbolTotal | src/aadhaar_analysis.py:391-400 | every label has a symbol; the three exclusions share "[!]" and every other archetype has its own |
| Archetype.LabelsDistinct | src/aadhaar_analysis.py:391-399 | distinct archetypes have distinct labels and every key of the symbol map is a label |
| Archetype.ClassifyRow | src/aadhaar_analysis.py:388-401 | a classified row's archetype is the one whose rule fires first and holds for the row; its symbol is "[!]" exactly for the exclusions and always three characters in brackets; the display text is that symbol, a space and the label |
| Archetype.ArchetypeTable | src/aadhaar_analysis.py:388-401 | every row is classified, in order |
| Archetype.DisplayShape | src/aadhaar_analysis.py:400-401 | the symbol is three characters in brackets and the display is symbol, space, label |
| Risks.LookupState | src/aadhaar_analysis.py:435-438 | the merge finds a row of the state view with that state, and misses exactly when the state is not in the view |
| Risks.LookupOwnRow | src/aadhaar_analysis.py:435-438 | in a view without repeated states the merge finds each state's own row |
| Risks.UpdateGapRisk | src/aadhaar_analysis.py:442-454 | the PDS/DBT risk lies in [0, 100] and is 0 with no adult enrolment |
| Risks.RatioFacts | src/aadhaar_analysis.py:444 | over a positive count, a ratio is at least 1 exactly when the part is at least the count, and 0 exactly when the part is 0 |
| Risks.PdsRisk | src/aadhaar_analysis.py:442-447 | the PDS risk lies in [0, 100] and is 0 with no adult enrolment |
| Risks.DbtRisk | src/aadhaar_analysis.py:450-454 | the DBT risk lies in [0, 100] and is 0 with no adult enrolment |
| Risks.OtpRisk | src/aadhaar_analysis.py:462-466 | the OTP risk lies in [0, 100] and is 0 with no enrolment aged 5-17 |
| Risks.UpdateGapRiskFacts | src/aadhaar_analysis.py:442-454 | the PDS/DBT risk is 0 exactly when nobody is enrolled or all have updated, and 100 exactly when nobody has |
| Risks.UpdateGapRiskAntitone | src/aadhaar_analysis.py:442-454 | more updates never raise the PDS/DBT risk |
| Risks.OtpRiskIsUpdateGap | src/aadhaar_analysis.py:462-466 | the OTP formula is the same gap risk over the 5-17 enrolment, so it lies in [0, 100] and is 0 when age_5_17 is 0 |
| Risks.ScholarshipRisk | src/aadhaar_analysis.py:458 | the scholarship risk lies in [0, 100], is 0 exactly when YIR >= 1 and 100 exactly when YIR <= 0 |
| Risks.BankingRisk | src/aadhaar_analysis.py:470 | the banking risk lies in [0, 100] and with a health score in [0, 100] adds up with it to 100 |
| Risks.Mean5 | src/aadhaar_analysis.py:473-476 | the row mean of the five risks; Risks.Mean5Range states its range |
| Risks.Mean5Range | src/aadhaar_analysis.py:473-476 | the mean of five percentages lies in [0, 100], is 0 exactly when all are 0 and 100 exactly when all are 100 |
| Risks.CountsOrZero | src/aadhaar_analysis.py:435-438 | a missing merged row reads as zero enrolment counts |
| Risks.RiskRowOf | src/aadhaar_analysis.py:432-476 | a risk row keeps its classified row and merged counts; a missed merge gives PDS = DBT = OTP = 0 |
| Risks.RiskRowRange | src/aadhaar_analysis.py:442-476 | every risk of a row and their mean lie in [0, 100] |
| Risks.RiskTable | src/aadhaar_analysis.py:416-476 | every row gets its risks, in order |
| Pipeline.ReportOf | src/aadhaar_analysis.py:1231-1243 | the stages composed as `main` runs them: one report row per state of the state view, in order |
| Pipeline.ReportFacts | src/aadhaar_analysis.py:435-476 | over the state view, the final table has one row per state, in order; the merge finds every state's own counts; health lies in (0, 100] and every risk in [0, 100] |

## Left out

- **Input handling.** CSV loading, date parsing, month extraction and the
  strip/title-case canonicalisation of state and district names are not
  modelled. Records arrive with canonical keys, and months are opaque
  integer keys.
- **Floating point.** Every value is an exact `real`. IEEE rounding is not
  modelled, and neither are NaN or infinities beyond the missed-merge case
  described below.
- **Square root.** The standard deviation in TCS needs a square root. The
  square root is a parameter `sqrt` whose results are typed non-negative
  (`NonNegReal`). Only TCS facts that hold for any such function are stated, plus
  TCS = 1 for steady months, which assumes `sqrt(0) = 0`.
- **Row order.** pandas `groupby` and the outer merges sort their keys. The
  model lists keys in order of first appearance instead, so rows come out in
  a different order. No computed value depends on row order: the Gini
  calculator sorts its input, and the other reductions are sums, means,
  minima and maxima.
- **Printing, plots and reports.** Printed summaries, charts, the insights
  and recommendation reports, state profiles, CSV output and the driver
  `main` are not modelled.
- **Missed merges.** In `calculate_problem_risks`, a state missing from the
  state view would carry NaN counts. Comparisons with NaN are false, so such
  a state takes the zero-denominator branch. `Risks.CountsOrZero` models
  this as zero counts. `Pipeline.ReportFacts` proves that the miss never
  happens in the pipeline.
- **Empty input.** With no states at all, `calculate_metrics` builds a
  frame without columns, and reading its IDI column at
  `src/aadhaar_analysis.py:300` raises `KeyError`. The model does not model
  this error path: it returns an empty metrics table, and every later stage
  an empty table. Errors for malformed records are not part of this code.
- **Counts.** Counts are `nat`, so every count is taken to be non-negative.
  The code never checks this; the ranges of UBI, the shares and the risks
  rely on it.
- Metrics.CalculateMetrics: its postcondition does not restate the
  zero IDI sum that the source prints as a check at lines 299-301. That
  property is `Metrics.IdiSumsToZero`, stated about `Metrics.MetricsTable`,
  which the method's postcondition says it returns.
- **The prototype.** The superseded prototype `aadhaar_analysis.py` at the
  repository root has different archetype rules and is not part of this
  model.
