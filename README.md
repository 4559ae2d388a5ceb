# Crop profit and loan estimator: a Dafny model of the estimation pipeline

This project models the estimation pipeline of a crop advisory tool. Given a
pincode and a land area, the pipeline does six things in order:

1. It looks the pincode up in the pincode table and takes the coordinates of the first matching row.
2. It fetches a year of daily weather for those coordinates.
3. It summarises that year into the mean temperature, the mean humidity and the total rainfall.
4. It asks a trained classifier for a suitability score per crop class and keeps the two best, best first.
5. It turns those two scores into a land-allocation ratio. Each score is scaled to a per-mille integer by truncation, and the pair is reduced by its gcd.
6. It allocates the land by the ratio. It looks each crop up case-insensitively in the crop economics table and totals the profit and the cost of production. The loan is set at 80% of that cost.

The pipeline stops at the first failing stage: unknown pincode, no weather data, or unusable weather data. It then reports only that failure. A land area of 0 or less is not a failure: the result keeps the weather, the crops and the ratio, and carries a guidance message instead of figures. A crop missing from the economics table adds nothing to the totals.

Modules, one per component:

- `Wrappers` (wrappers.dfy): `Option`.
- `Pincodes` (pincodes.dfy): the pincode table and the lookup.
- `Weather` (weather.dfy): the archive response, `Sum`, `Mean` and the summariser.
- `Ranking` (ranking.dfy): the classifier's (class, score) pairs and the top-two selection.
- `Ratio` (ratio.dfy): truncation, Euclid's gcd and its properties, and the simplified ratio as a specification function and as the method that computes it.
- `Finance` (finance.dfy): the economics table, case-insensitive lookup, land allocation, and the accumulation loop with its specification.
- `Estimator` (estimator.dfy): the result type, the first three stages (`ClimateFor`, `ClimateFailure`), and the orchestrating method `EstimateProfitAndLoan`, which hands a successful summary to `EstimateForClimate` for the remaining stages.

Two collaborators are parameters of `Estimator.EstimateProfitAndLoan`: the weather fetch, a function from coordinates to an optional response, and the classifier, a function from the annual summary to (class, score) pairs. Scores, areas and money are `real`.

Notes on the source's behaviour:

- When both per-mille scores are 0 while the second score is positive, `math.gcd` returns 0 and the floor division raises `ZeroDivisionError`. The model makes it a distinct outcome, `Estimate.DivisionByZero`, rather than a precondition.
- With two candidates and a second score that is positive but truncates to 0, the code shows the label `1:0` (`Parts(1, 0)`), not "(single recommendation)". The whole area still goes to the leading crop.
- With two candidates and a second score of 0, the code still goes through the two-crop allocation branch (ratio 1:0). The leader gets the whole area and the runner-up gets an area of 0 (`Finance.ZeroRunnerUpGetsNoLand`).
- The three daily series are not checked to have the same length, and neither is anything else about them beyond presence and non-emptiness.

## Model

| member | source | states |
|---|---|---|
| Pincodes.RowsWithPincode | app_logic.py:28 | the filter keeps only rows of the table that carry the pincode, and no more rows than the table has; `Pincodes.FirstMatchWins` pins down which row comes first |
| Pincodes.LatLonFromPincode | app_logic.py:16-34 | a found location is the coordinates of some row carrying the pincode; `Pincodes.NotFoundIffAbsent` and `Pincodes.FirstMatchWins` say when it is found and which row it is |
| Pincodes.NotFoundIffAbsent | app_logic.py:28-34 | the lookup answers "not found" exactly when no row carries the pincode |
| Pincodes.FirstMatchWins | app_logic.py:28-32 | when row i is the first row with the pincode, the lookup returns row i's latitude and longitude |
| Weather.Sum | app_logic.py:89 | np.sum of a series; its bounds are `Weather.SumBounds` and `Weather.NonNegativeSum` |
| Weather.Mean | app_logic.py:87-88 | the mean taken once per day adds up to the series total; `Weather.MeanBounds` bounds it |
| Weather.ProcessWeatherResponse | app_logic.py:75-91 | the summary is refused exactly when the response is missing, lacks `daily`, or has a temperature, humidity or precipitation series that is missing or empty; otherwise it is (mean temperature, mean humidity, total precipitation) |
| Weather.SumBounds | app_logic.py:89 | a total of n daily values within [lo, hi] lies within [n·lo, n·hi] |
| Weather.MeanBounds | app_logic.py:87-88 | the mean of a series lies within any bounds on its values |
| Weather.NonNegativeSum | app_logic.py:89 | the rainfall total is not negative when no day has negative rainfall |
| Weather.SummaryWithinDailyRange | app_logic.py:87-91 | the annual mean temperature and humidity stay within the daily bounds, and the rainfall total is not negative |
| Weather.ConstantSeriesMean | app_logic.py:87-88 | a series of identical days has that value as its mean |
| Ranking.TopTwo | app_logic.py:142 | the positions picked hold the min(2, n) best scores, are distinct, go best first, and no other class scores above the last one |
| Ranking.TopTwoExtended | app_logic.py:142 | inserting one more class into the top two of the others gives the top two of all the classes |
| Ranking.Pick | app_logic.py:143 | helper for the list comprehension: the pair at each picked position, in order; what the picked pairs satisfy is proved by `Ranking.TopCropsShape` |
| Ranking.PickedAreTopCrops | app_logic.py:142-143 | the pairs at top-two positions form a top-two selection in the sense the pipeline's contract uses, for any tie order |
| Ranking.TopCropsShape | app_logic.py:142-144 | any top-two selection has min(2, n) entries, each one of the classifier's pairs, in non-increasing score order, and is empty only when there are no classes; its first entry scores at least as high as every class, and no class left out scores above its last entry |
| Ranking.TopIsMaximum | app_logic.py:142 | the first position picked holds a maximum score of all classes |
| Ranking.RunnerUpBounded | app_logic.py:142 | the runner-up of any top-two selection scores no higher than the runner-up of another |
| Ranking.TopScoresDetermined | app_logic.py:142 | two top-two selections that break ties differently keep the same scores in the same places |
| Ratio.Trunc | app_logic.py:155-156 | `int()` truncates toward zero: the result is within 1 of the argument, on the side of zero |
| Ratio.Gcd | app_logic.py:157 | Euclid's algorithm on naturals; characterised by `Ratio.GcdZero`, `Ratio.GcdDivides` and `Ratio.GcdGreatest` |
| Ratio.PyGcd | app_logic.py:157 | `math.gcd` on integers is the gcd of their absolute values, and is 0 exactly for (0, 0) |
| Ratio.PerMille | app_logic.py:155-156 | `int(p * 1000)`: a probability in [0, 1] gives a whole number from 0 to 1000 |
| Ratio.GcdZero | app_logic.py:157 | the gcd is 0 exactly when both per-mille scores are 0 |
| Ratio.GcdDivides | app_logic.py:157 | a positive gcd divides both operands |
| Ratio.GcdGreatest | app_logic.py:157 | every common divisor of the operands divides their gcd |
| Ratio.GcdScale | app_logic.py:157 | gcd(k·x, k·y) = k·gcd(x, y) |
| Ratio.ReducedIsCoprime | app_logic.py:157-159 | dividing both operands by their positive gcd leaves two numbers whose gcd is 1 |
| Ratio.SimplifiedRatio | app_logic.py:147-170 | no candidates give 1:0 labelled "No clear recommendation"; one candidate, or a second score of 0 or less, gives 1:0 labelled with the leading crop as a single recommendation; a num:den label always matches the ratio |
| Ratio.SimplifyRatio | app_logic.py:147-170 | the branch-by-branch reassignment of the ratio and its label produces `SimplifiedRatio`, and returns the zero-gcd outcome where the source divides by 0 |
| Ratio.RatioInLowestTerms | app_logic.py:154-160 | for ranked scores p1 ≥ p2 > 0 with per-mille values a ≥ b ≥ 0: the division by 0 happens exactly when a = 0; otherwise num·b = den·a, gcd(num, den) = 1, num > 0 and num ≥ den |
| Ratio.ReducedPair | app_logic.py:157-159 | for whole numbers a ≥ b ≥ 0: the gcd is 0 exactly when a = 0, and otherwise the quotients by it are in the proportion of a to b, have gcd 1, and keep their order |
| Ratio.ReductionScaleInvariant | app_logic.py:155-159 | per-mille pairs that differ by a common factor reduce to the same num:den |
| Ratio.RiceMaizeRatio | app_logic.py:154-160 | scores 0.62 and 0.38 give 620:380, gcd 20, ratio 31:19 |
| Ratio.RescaledScoresSameRatio | app_logic.py:154-160 | scores (0.6, 0.4) and (0.06, 0.04) both give 3:2 |
| Finance.Lower | app_logic.py:182 | `str.lower` keeps the length and leaves no upper-case letter |
| Finance.RowsForCrop | app_logic.py:182 | the filter keeps only rows of the table whose crop name equals the commodity ignoring case |
| Finance.LookupEconomics | app_logic.py:182-185 | the first row naming the crop ignoring case, or nothing; characterised by `Finance.LookupIsFirstFilteredRow` and `Finance.LookupFindsFirstMatch` |
| Finance.LowerIdempotent | app_logic.py:182 | lower-casing twice is lower-casing once |
| Finance.LookupIsFirstFilteredRow | app_logic.py:182-185 | the economics lookup is the first row of the case-insensitive filter, or nothing when the filter is empty |
| Finance.LookupFindsFirstMatch | app_logic.py:182-185 | the lookup finds nothing exactly when no row names the crop ignoring case, and otherwise returns the first such row |
| Finance.LookupIgnoresCase | app_logic.py:182 | a crop name and its lower-case form find the same row |
| Finance.AllocatedLand | app_logic.py:187-193 | the land for the crop at rank i; `Finance.LandConserved` shows the two shares add up to the area |
| Finance.Contribution | app_logic.py:195-199 | what one crop adds to the totals, nothing without an economics row; see `Finance.MissingCropAddsNothing` and `Finance.FoundContribution` |
| Finance.FoundContribution | app_logic.py:183-199 | a crop found under a row adds its allocated land times that row's per-hectare profit and cost |
| Finance.Accumulated | app_logic.py:176-199 | the totals after the first k ranked crops; the loop `Finance.AccumulateTotals` computes it and `Finance.TwoCropTotals` evaluates it for two found crops |
| Finance.AccumulateTotals | app_logic.py:176-200 | the loop over the ranked crops yields the totals of `Accumulated`: each crop with a row adds its allocated land times its per-hectare profit and cost, and a crop without one adds nothing |
| Finance.LandConserved | app_logic.py:187-191 | with two candidates and num + den > 0, the shares are num/(num+den) and den/(num+den) of the area and add up to the whole area |
| Finance.TwoCropTotals | app_logic.py:187-199 | with both crops in the table under rows r₀ and r₁, (num+den)·profit = area·(num·profit₀ + den·profit₁), and likewise for cost |
| Finance.MissingCropAddsNothing | app_logic.py:182-202 | a crop without an economics row adds nothing: the totals are those of the other crop, or zero for a single candidate |
| Finance.NoCandidatesNoTotals | app_logic.py:176-177 | with no candidates the totals stay 0 |
| Finance.SingleCropTakesAllLand | app_logic.py:192-196 | a single candidate found in the table is costed on the whole area |
| Finance.CostNonNegative | app_logic.py:196-209 | with non-negative ratio parts, area and per-hectare costs, the total cost is not negative and the loan, 80% of it, lies between 0 and the cost |
| Finance.TenHectaresAt31To19 | app_logic.py:187-191 | 10 hectares at 31:19 split into 6.2 and 3.8 hectares |
| Finance.ZeroRunnerUpGetsNoLand | app_logic.py:187-191 | at 1:0 (a runner-up score of 0) the leader gets the whole area and the runner-up gets none |
| Estimator.ClimateFor | app_logic.py:111-123 | stages 1-3 chained: a summary is produced only for a pincode some table row carries |
| Estimator.ClimateFailure | app_logic.py:111-123 | the failure of stages 1-3 names the pincode, and is "not found" exactly when no row carries it |
| Estimator.EstimateForClimate | app_logic.py:125-215 | from a summary on, the request never reports a stage 1-3 failure; it divides by 0 only for a ranking whose ratio has a zero gcd, and otherwise holds that summary, a top-two selection of the classifier's scores, its ratio label, and either the `Accumulated` totals with the loan at 80% of the cost (area > 0) or only the guidance message |
| Estimator.EstimateProfitAndLoan | app_logic.py:93-215 | the pipeline fails exactly when lookup, fetch or summary fails, and reports the first failing stage's error and nothing else. A division by 0 happens only for a top-two ranking whose ratio has a zero gcd. Otherwise the result holds the summary, a top-two selection of the classifier's scores for it, and that selection's ratio label. A positive area yields the totals of `Accumulated` under that ratio with loan = 0.80 × cost and no message; an area ≤ 0 yields no figures and only the guidance message |

## Left out

- `get_weather_data` (app_logic.py:36-62): the HTTP request to the weather archive and its exception handling. The pipeline takes it as a function from coordinates to an optional response.
- The classifier (`model.predict_proba`, `model.classes_`): a pickled scikit-learn model. The pipeline takes it as a function from the annual summary to (class name, score) pairs in class order. The order of the three features is carried by the summary record's fields.
- The tie order of `argsort`: numpy does not specify it. `Ranking.TopTwo` breaks ties one way, but the pipeline's contract holds for every tie order.
- Floating point: scores, areas and money are exact reals. The rounding of `p * 1000` before `int()` is not modelled. A score held in floating point just below a multiple of 0.001 truncates to one per mille less than its exact value would. The summation order of `np.sum` and `np.mean` is not modelled either.
- Finance.Lower: folds only ASCII letters; Python's `str.lower` folds all of Unicode.
- A `daily` entry that is present but `null` (`{"daily": null}`): the model represents it as a missing `daily` (`Response(None)`) and does not tell the two apart. The source passes the check at app_logic.py:75 and then raises `AttributeError` on `None.get` at line 80; the model reports `WeatherUnprocessable` for it instead of an uncaught exception.
- JSON values inside the daily series: the model takes them as numbers. A `null` day, which would make `np.mean` fail or return NaN, is not modelled.
- NaN coordinates or figures in the tables: not modelled.
- The pandas DataFrames are sequences of records. The `results` dictionary, filled key by key, is the final `Estimate` value.
- The text of the error messages: a failure carries its kind and the pincode. The ratio label carries its kind and numbers, not the formatted string.
- The `print` warnings (app_logic.py:61, 202).
- streamlit_app.py: layout, cached loading of the CSV files and the model, and the widget input checks (6-digit pincode, area > 0). None of it is part of this model.
