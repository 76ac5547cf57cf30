# Statistical-Analysis: a Dafny model of the statistics engine

This project models the statistics engine of the Statistical-Analysis server
and proves properties about it. The server is an Express API that
- draws the normal, binomial, Poisson and exponential distributions as `(x, y)` grids,
- runs a one-sample t-test,
- fits an ordinary least-squares line.

The engine lives in three places, and each is modelled:

- **The modular server.**
  - `server/utils/statistics.js` holds the shared functions:
    - `normalPdf`, `factorial`, `binomialPmf`, `poissonPmf`, `exponentialPdf`;
    - the critical-value table `getCriticalValue`;
    - `calculateBasicStats` and `calculateLinearRegression`.
  - The three controllers use them:
    - `distributionController.js`, the four grid loops;
    - `hypothesisController.js`, the t-test;
    - `regressionController.js`, the fit and its per-point predictions.
- **The older single-file server.** `server/src/index.js` inlines its own copies of the same computations.
- **The seed script.** `server/scripts/initDatabase.js` has a third copy of the normal grid and a seeded regression whose predictions come from a stored line.

## Modules

| file | module | models |
|---|---|---|
| `Wrappers.dfy` | `Wrappers` | `Option` (a field the handler leaves `undefined`, or a query parameter `parseFloat` turns into `NaN`) and `Result` (a 400 response carrying its error message, or success) |
| `JsMath.dfy` | `JsMath` | JavaScript numbers as `Finite(v) \| PosInf \| NegInf \| NaN` over exact reals, with the IEEE rules for `+ − × ÷`, `Math.abs`, `Math.sqrt` and `>`. `Math.sqrt`, `Math.exp` and `Math.PI` are a `MathLib` parameter with the laws the proofs use. Also `Math.pow` to a natural exponent and `Math.ceil`. |
| `Sums.dfy` | `Sums` | the `reduce` folds (`Σx`, `Σx²`, `Σxy`, `Σ(x − c)²`, residual sums) and their algebra |
| `Combinatorics.dfy` | `Combinatorics` | Pascal's binomial coefficient and the binomial theorem |
| `Statistics.dfy` | `Statistics` | `server/utils/statistics.js` |
| `DistributionController.dfy` | `DistributionController` | the four grid endpoints: validation, then a loop that pushes points |
| `HypothesisController.dfy` | `HypothesisController` | `performHypothesisTest` |
| `RegressionController.dfy` | `RegressionController` | `performRegressionAnalysis` and its `predictions` map |
| `LegacyStatistics.dfy` | `LegacyStatistics` | the statistics `server/src/index.js` inlines: nested `factorial`, the mass functions, the critical-value table, the regression formulas |
| `LegacyServer.dfy` | `LegacyServer` | the endpoints of `server/src/index.js` |
| `Seed.dfy` | `Seed` | `generateNormalDistribution` and the seeded regression and t-test of `initDatabase.js` |

### How JavaScript numbers are modelled

- `Number` models the arithmetic, not the rounding. Every operation is exact on finite values.
  - `0/0` is `NaN` and `x/0` is `±Infinity`.
  - `NaN` propagates through every operation, and `NaN > c` is false.

  This exposes the code's degenerate behaviour as the code has it:
  - a one-element sample divides by `n − 1 = 0`;
  - a constant sample gives a `±Infinity` t statistic, or `NaN` when its value equals the hypothesised mean;
  - equal x values in a regression give a `NaN` slope.
- The mass and density functions use `Math.exp`, `Math.sqrt` and `Math.PI`, which appear only through the uninterpreted `MathLib` and its laws (`Lawful`):
  - `π > 0`;
  - `√x ≥ 0` and `√x·√x = x` for `x ≥ 0`;
  - `exp(x) > 0` and `exp(0) = 1`.

  The proofs therefore concern the algorithm, not transcendental values.

### Where the code and its documented behaviour differ

The model follows the code in each of these cases:
- The t-test accepts a one-element sample. Only a missing or empty sample is rejected. The `n − 1 = 0` divisor then makes the variance and the statistic `NaN`, and `rejectNull` is `false` (`HypothesisController.SingleValueSample`).
- A test kind other than `'t-test'` is not rejected. It falls through with the statistic, p-value, critical value and decision left `undefined`, and a "fail to reject" interpretation (`HypothesisController.OtherTestTypesFallThrough`).
- Regression on equal x values is not rejected. Its slope, intercept, R², correlation and every prediction are `NaN` (`Statistics.ConstantXIsNaN`, `RegressionController.ConstantXAccepted`).
- Regression on a horizontal line (all y equal) gives R² `= 1 − 0/0 = NaN`, not 1 (`Statistics.PerfectFit`).
- For the ten-score example at α = 0.05, `df = 9` falls in the lowest bracket, so the critical value is 2.776, not 2.228 (`HypothesisController.TenSamplesAtFivePercent`, `HypothesisController.ExampleTTest`).

### What the seed stores against what the handlers compute

`initDatabase.js` stores literal results beside its inputs. The lemmas in `Seed` show they are not what the handlers compute on the same inputs.

**Seeded regression**
- The stored line is slope 2.02, intercept 0.15.
- The least-squares fit of the seeded data has slope `1653.5/825 ≈ 2.0042` and intercept `22/825 ≈ 0.0267`.
- The seeded residuals add up to −2.1. The fitted residuals cancel.

**Seeded t-test**
- The stored values are statistic 2.15, critical value 2.262 and standard deviation 4.97.
- The handler computes `3.3/1.7 ≈ 1.94`, 2.776 and `√28.9 ≈ 5.38`.
- The decision (do not reject) is the same.

## Model

| member | source | states |
|---|---|---|
| `Statistics.NormalPdf` | server/utils/statistics.js:10-14 | the normal density `1/(σ√(2π))·e^(−(x−μ)²/(2σ²))` is positive for every x when σ > 0 |
| `Statistics.NormalPdfSymmetric` | server/utils/statistics.js:10-14 | the density takes the same value at `μ + d` and `μ − d` |
| `Statistics.Factorial` | server/utils/statistics.js:21-24 | `factorial(num)` is at least 1, and at least `num` for `num ≥ 1` (it is 1 for every `num ≤ 1` by its first branch) |
| `Statistics.FactorialStep` | server/utils/statistics.js:21-24 | `factorial(num) == num · factorial(num − 1)` for `num ≥ 1` |
| `Statistics.FactorialChoose` | server/utils/statistics.js:21-24 | `n! == C(n, k) · k! · (n − k)!` with `C` given by Pascal's rule, for `0 ≤ k ≤ n` |
| `Statistics.BinomialCoefficient` | server/utils/statistics.js:34 | `factorial(n) / (factorial(k) · factorial(n − k))` is exactly the whole number `C(n, k)` |
| `Statistics.BinomialCoefficientSymmetric` | server/utils/statistics.js:34 | the coefficient is symmetric, `C(n, k) == C(n, n − k)` |
| `Statistics.BinomialCoefficientEnds` | server/utils/statistics.js:34 | the coefficient is 1 at `k = 0` and at `k = n` |
| `Statistics.BinomialPmf` | server/utils/statistics.js:33-36 | `binomialPmf(k, n, p)` is the k-th term `C(n,k)·p^k·(1−p)^(n−k)` of the expansion of `(p + (1 − p))^n`, and is non-negative for `0 ≤ p ≤ 1` |
| `Combinatorics.BinomialTheorem` | server/utils/statistics.js:33-36 | `Σ_{k=0..n} C(n,k)·a^k·b^(n−k) == (a + b)^n` |
| `Statistics.BinomialMassesSumToOne` | server/utils/statistics.js:33-36 | the masses for `k = 0..n` add up to 1, for every p |
| `Statistics.PoissonPmf` | server/utils/statistics.js:44-46 | `poissonPmf(k, λ) · k! == λ^k · e^(−λ)` |
| `Statistics.PoissonPmfPositive` | server/utils/statistics.js:44-46 | the Poisson mass is positive for λ > 0 |
| `Statistics.ExponentialPdf` | server/utils/statistics.js:54-56 | the exponential density is 0 left of the origin |
| `Statistics.ExponentialPdfProperties` | server/utils/statistics.js:54-56 | for λ > 0 the density is positive on `x ≥ 0` and equals λ at 0 |
| `Statistics.GetCriticalValue` | server/utils/statistics.js:75-83 | every critical value lies between 1.645 and 3.747 |
| `Statistics.CriticalValueTable` | server/utils/statistics.js:75-83 | level 0.05 gives 1.96 / 2.086 / 2.228 / 2.776, level 0.01 gives 2.576 / 2.845 / 3.169 / 3.747, and every other level gives 1.645 / 1.725 / 1.812 / 2.132, for `df > 30` / `> 20` / `> 10` / otherwise |
| `Statistics.CriticalValueNonIncreasing` | server/utils/statistics.js:76-81 | at a fixed level the critical value never grows as df grows |
| `Statistics.CriticalValueLevelOrder` | server/utils/statistics.js:76-81 | at a fixed df the 0.01 value exceeds the 0.05 value, which exceeds the value of any other level |
| `Statistics.CalculateBasicStats` | server/utils/statistics.js:90-97 | `n == |data|`; the mean is `Σx/n` (NaN when empty); the variance is `Σ(x − mean)²/(n − 1)` for `n ≥ 2` and NaN for `n == 1`; `stdDev == √variance` |
| `Statistics.DeviationsSumToZero` | server/utils/statistics.js:92-93 | the deviations from the computed mean add up to 0 |
| `Statistics.VarianceProperties` | server/utils/statistics.js:93-94 | for `n ≥ 2` the variance is finite and ≥ 0, it is 0 exactly when all values are equal, and the standard deviation is its non-negative square root |
| `Statistics.MeanOf` | server/utils/statistics.js:113-114 | `sum / n` is NaN on no data and the plain mean otherwise |
| `Statistics.ResidualSumSquares` | server/utils/statistics.js:122-125 | for a finite line the fold is `Σ(y − (slope·x + intercept))²`; a NaN slope or intercept makes it NaN |
| `Statistics.SlopeSign` | server/utils/statistics.js:129 | the sign factor is +1 exactly when `slope > 0`, otherwise −1 (a zero or NaN slope gets −1) |
| `Statistics.CalculateLinearRegression` | server/utils/statistics.js:105-139 | `n == |xs|` and the equation carries slope and intercept; slope and intercept are finite exactly when the x values are not all equal, and all four results are NaN when they are; `correlation == √rSquared · (slope > 0 ? 1 : −1)` |
| `Statistics.SlopeDenominatorSign` | server/utils/statistics.js:117 | `n·Σx² − (Σx)² ≥ 0`, and it is 0 exactly when all x are equal |
| `Statistics.ConstantXIsNaN` | server/utils/statistics.js:117-126 | on equal x values, slope, intercept and R² are NaN (0/0, nothing guards it) |
| `Statistics.NonConstantXIsFinite` | server/utils/statistics.js:117-118 | on x values that are not all equal the denominator is positive, and slope and intercept are the finite quotients of the formulas |
| `Statistics.TotalSumSquaresSpread` | server/utils/statistics.js:121 | `Σy² − n·meanY²` is `Σ(y − meanY)²`, so it is ≥ 0, and it is 0 exactly when all y are equal |
| `Statistics.RegressionLineProperties` | server/utils/statistics.js:113-125 | the fitted line passes through `(meanX, meanY)`, its residuals add up to 0, and the residual sum of squares is finite and ≥ 0 |
| `Statistics.RegressionRecoversLine` | server/utils/statistics.js:117-125 | on data with `y = a·x + b` and x not all equal, `slope == a`, `intercept == b` and the residual sum of squares is 0 |
| `Statistics.PerfectFit` | server/utils/statistics.js:117-129 | on an exact line with slope `a ≠ 0`, `rSquared == 1` and `correlation == ±1` with the sign of a; on a horizontal line, R² and correlation are NaN |
| `Statistics.NormalEquations` | server/utils/statistics.js:107-118 | for x not all equal, the fitted slope `a` and intercept `b` satisfy both normal equations of least squares: `Σy == a·Σx + n·b` and `Σxy == a·Σx² + b·Σx` |
| `Statistics.LeastSquaresMinimal` | server/utils/statistics.js:117-125 | for x not all equal, no line `(a', b')` leaves a smaller residual sum of squares than the fitted line |
| `Statistics.RSquaredBounded` | server/utils/statistics.js:121-126 | when neither x nor y is constant, `SST > 0`, `0 ≤ SSE ≤ SST` and `rSquared == 1 − SSE/SST`, so `0 ≤ rSquared ≤ 1` |
| `Sums.SumSquaredDeviationsZero` | server/utils/statistics.js:93 | `Σ(x − c)² == 0` exactly when every x equals c |
| `Sums.SumSquaredResidualsExpand` | server/utils/statistics.js:107-125 | the residual fold equals `Σy² − 2a·Σxy − 2b·Σy + a²·Σx² + 2ab·Σx + n·b²` over the handler's sums |
| `Sums.FlatLineResiduals` | server/utils/statistics.js:121-125 | the squared residuals from the horizontal line at `c` are the squared deviations of y from `c` |
| `Sums.CenteredSumSquares` | server/utils/statistics.js:117-121 | `n·Σx² − (Σx)² == n·Σ(x − mean)²` and `Σx² − n·mean² == Σ(x − mean)²` |
| `DistributionController.GetNormalDistribution` | server/controllers/distributionController.js:10-32 | a missing mean or a missing or non-positive stdDev fails with the exact error message; otherwise the loop answers exactly the 200-point normal grid |
| `DistributionController.NormalGrid` | server/controllers/distributionController.js:20-32 | the grid has 200 points, from `mean − 4σ` to `mean + 4σ`, consecutive x differ by `8σ/199`, x is strictly increasing and every y is positive (before rounding) |
| `DistributionController.NormalGridSymmetric` | server/controllers/distributionController.js:24-30 | point i and point 199 − i mirror each other about the mean and have equal density |
| `DistributionController.GetBinomialDistribution` | server/controllers/distributionController.js:66-79 | a missing or non-positive n or a p outside [0, 1] fails with the exact error message; otherwise the loop answers the points `(k, binomialPmf(k, n, p))` for `k = 0..n` |
| `DistributionController.BinomialGrid` | server/controllers/distributionController.js:75-79 | the grid has `n + 1` points with `x == k`, every y ≥ 0, and the y values add up to 1 |
| `DistributionController.MaxK` | server/controllers/distributionController.js:102 | `maxK = max(20, ceil(λ + 5√λ))` is at least 20 and at least `λ + 5√λ` |
| `DistributionController.GetPoissonDistribution` | server/controllers/distributionController.js:93-108 | a missing or non-positive λ fails with the exact error message; otherwise the loop with its early `break` answers the Poisson grid |
| `DistributionController.PoissonFromShape` | server/controllers/distributionController.js:104-108 | the points from k on are `(k + i, poissonPmf(k + i, λ))`, none of them meets the stop rule, and a grid that ends before `maxK` ends at the first k that meets it |
| `DistributionController.PoissonGrid` | server/controllers/distributionController.js:101-108 | x runs `0, 1, 2, …`, there are at most `maxK + 1` points, no emitted point meets `y < 0.001 && k > λ + 3√λ`, and a shorter grid stops exactly at the first k that does |
| `DistributionController.PoissonCoversBulk` | server/controllers/distributionController.js:106 | every k up to `λ + 3√λ` is emitted |
| `DistributionController.GetExponentialDistribution` | server/controllers/distributionController.js:122-138 | a missing or non-positive λ fails with the exact error message; otherwise the loop answers the 200-point exponential grid |
| `DistributionController.ExponentialGrid` | server/controllers/distributionController.js:130-138 | the grid has 200 points, `x_0 == 0`, `x_199 == 5/λ`, every x is ≥ 0 and x is strictly increasing; the density is λ at 0 and positive throughout |
| `HypothesisController.PerformHypothesisTest` | server/controllers/hypothesisController.js:10-44 | a missing or empty sample, and only that, fails with "Sample data is required."; the result echoes n, mean and stdDev from the basic stats; statistic, p-value, critical value and decision are present exactly for `'t-test'`, where the critical value is `getCriticalValue(level, n − 1)` and `rejectNull == |t| > criticalValue`; the interpretation rejects exactly when `rejectNull` is true |
| `HypothesisController.Interpret` | server/controllers/hypothesisController.js:31-33 | the "reject" sentence is chosen exactly when `rejectNull` is true (an `undefined` decision chooses "fail to reject"), naming the level and the hypothesized mean |
| `HypothesisController.OtherTestTypesFallThrough` | server/controllers/hypothesisController.js:18-33 | any other test kind succeeds with statistic, p-value, critical value and decision undefined and a "fail to reject" interpretation |
| `HypothesisController.SingleValueSample` | server/controllers/hypothesisController.js:12-29 | a one-value sample passes validation; the statistic and p-value are NaN and `rejectNull` is false |
| `HypothesisController.PValueRange` | server/controllers/hypothesisController.js:27 | for `df > 0` and a finite statistic, `2·(1 − |t|/(|t| + √df))` is finite, lies in `(0, 2]`, and is 2 exactly when `t == 0` |
| `HypothesisController.TTestOnSpreadSample` | server/controllers/hypothesisController.js:20-28 | on a sample that is not constant, `t == (mean − μ0)/(stdDev/√n)` is finite, the critical value is the table's value at `df = n − 1`, the decision compares `|t|` with it, and the p-value is the approximation `2·(1 − |t|/(|t| + √df))` of that finite `t` (bounded by `PValueRange`) |
| `HypothesisController.ConstantSample` | server/controllers/hypothesisController.js:16-29 | a sample of at least two equal values `c` has mean `c` and stdDev 0; the statistic is NaN when `c == μ0` and the null is kept, and otherwise `±Infinity` with the sign of `c − μ0` and the null is rejected |
| `HypothesisController.TenSamplesAtFivePercent` | server/controllers/hypothesisController.js:22-24 | any 10-value sample at α = 0.05 gets critical value 2.776 |
| `HypothesisController.ExampleTTest` | server/controllers/hypothesisController.js:16-33 | the scores 85, 92, 78, 96, 83, 89, 94, 87, 91, 88 against 85 at 5% give mean 88.3, size 10, critical value 2.776, `t = 3.3/1.7`, and no rejection |
| `RegressionController.PredictAt` | server/controllers/regressionController.js:23 | `slope·x + intercept` is the finite line value for a finite fit and NaN for a NaN fit |
| `RegressionController.Predictions` | server/controllers/regressionController.js:21-25 | one prediction per x, in order, with `predictions[i].x == xData[i]` |
| `RegressionController.PerformRegressionAnalysis` | server/controllers/regressionController.js:10-25 | exactly missing, mismatched or shorter-than-2 arrays fail with the exact error message; otherwise the response is the `calculateLinearRegression` result and the predictions run over xData |
| `RegressionController.PredictionsOfFiniteFit` | server/controllers/regressionController.js:21-25 | for a finite fit every `yPredicted == slope·x + intercept` and `residual == y − yPredicted`, and the residuals add up to the residual sum |
| `RegressionController.PredictionsOnFittedLine` | server/controllers/regressionController.js:18-25 | on x values that are not all equal the predictions lie on the fitted line, each residual is `y − yPredicted`, and the residuals add up to 0 |
| `RegressionController.FitResidualsCancel` | server/controllers/regressionController.js:18-24 | the residuals of the least-squares line add up to 0 |
| `RegressionController.ConstantXAccepted` | server/controllers/regressionController.js:12-25 | equal x values pass validation, and the response and every prediction and residual are NaN |
| `RegressionController.PerfectFitResiduals` | server/controllers/regressionController.js:21-25 | on data lying exactly on a line, with x not all equal, every residual is 0 |
| `LegacyStatistics.InlineFactorial` | server/src/index.js:21-24 | the nested factorial is at least 1 |
| `LegacyStatistics.InlineFactorialAgrees` | server/src/index.js:31-34 | the nested factorial is the shared `factorial` |
| `LegacyStatistics.InlineCoefficientAgrees` | server/src/index.js:26 | the inline quotient of factorials is `C(n, k)` |
| `LegacyStatistics.InlineBinomialAgrees` | server/src/index.js:20-28 | the inline `binomialPmf` is the shared one |
| `LegacyStatistics.InlinePoissonAgrees` | server/src/index.js:30-37 | the inline `poissonPmf` is the shared one |
| `LegacyStatistics.InlineCriticalValueAgrees` | server/src/index.js:158-164 | the inline table has the same three rows and four brackets as `getCriticalValue` |
| `LegacyStatistics.InlineRegression` | server/src/index.js:194-225 | the inline slope, intercept, R², correlation and n are exactly those of the shared `calculateLinearRegression` |
| `LegacyStatistics.InlineSlopeAgrees` | server/src/index.js:195-205 | the inline slope `(n·sumXY − sumX·sumY) / (n·sumXX − sumX·sumX)` is the shared least-squares slope on every input |
| `LegacyServer.NormalDistribution` | server/src/index.js:54-77 | same validation and error as the modular endpoint; the loop answers the same 200-point normal grid |
| `LegacyServer.BinomialDistribution` | server/src/index.js:80-95 | same validation and error; the loop over the inline mass answers the same `n + 1` points |
| `LegacyServer.PoissonDistribution` | server/src/index.js:98-115 | same validation and error; the loop with the same `maxK` and early break answers the same grid |
| `LegacyServer.ExponentialDistribution` | server/src/index.js:118-136 | same validation and error; the loop answers the same 200-point grid |
| `LegacyServer.HypothesisTest` | server/src/index.js:139-184 | the inline handler fails exactly when the modular one does, with the same message, and otherwise answers the modular result without `sampleStdDev` |
| `LegacyServer.Regression` | server/src/index.js:187-226 | exactly missing, mismatched or shorter-than-2 arrays fail; the inline handler fails exactly when the modular one does, with the same message, and otherwise answers the same slope, intercept, R², correlation and n, without `equation` |
| `Seed.GenerateNormalDistribution` | server/scripts/initDatabase.js:185-203 | the seed's loop produces exactly the normal endpoint's 200-point grid: same ends, spacing and density |
| `Seed.SeededNormalCurves` | server/scripts/initDatabase.js:75-104 | the two seeded curves run from −4 to 4 and from 40 to 160, matching their stored ranges, and each is symmetric about its mean |
| `Seed.SeedPredictions` | server/scripts/initDatabase.js:154-158 | one seeded prediction per x, with that x and a finite residual |
| `Seed.SeedResults` | server/scripts/initDatabase.js:146-153 | the stored results carry slope 2.02, intercept 0.15 and `n = 10` |
| `Seed.SeedPredictionsFollowHandler` | server/scripts/initDatabase.js:154-158 | the seeded predictions are the regression handler's predictions for the stored line: `yPredicted == 2.02·x + 0.15` and `residual == y − yPredicted` |
| `Seed.SeededFitDiffers` | server/scripts/initDatabase.js:138-153 | the least-squares fit of the seeded data has slope `1653.5/825` and intercept `22/825`, not the stored 2.02 and 0.15 |
| `Seed.SeededResidualsDoNotCancel` | server/scripts/initDatabase.js:154-158 | the stored residuals add up to −2.1, while the fitted line's residuals on the same data add up to 0 |
| `Seed.SeededTestDiffers` | server/scripts/initDatabase.js:110-124 | on the seeded t-test input the handler's statistic, critical value and standard deviation differ from the stored 2.15, 2.262 and 4.97; its decision (do not reject) agrees |

## Left out

- The HTTP plumbing is left out: Express routing, `res.status(...).json(...)`, CORS, `listen` and logging. Each endpoint is modelled as a function or method from its parsed parameters to a `Result`.
- Persistence is left out: every `saveToDb` branch, `save`/`insertMany`/`deleteMany`, the rest of `initDatabase.js`, the Mongoose models and `analysisController.js`. None of them computes statistics.
- Query parsing is left out.
  - `parseFloat` and `parseInt` are not modelled.
  - A parameter arrives as `Option`, with `None` standing for `NaN`.
  - A number in the request body arrives as a real.
  - Infinite and non-numeric inputs are not modelled.
- `toFixed` rounding is left out. It applies to the grid points (4 decimals for x, 4 or 6 for y) and to the `equation` string. The grids carry exact values, and the equation is a pair of numbers rather than formatted text.
- The interpretation sentence is modelled as its choice (reject or fail to reject), its level and its hypothesized mean, not as text.
- Floating-point rounding, signed zero and the overflow of `factorial` beyond 170 are left out. Numbers are exact reals.
- The values of `Math.exp`, `Math.sqrt` and `Math.PI` are left out. They enter only through the laws listed above. No property depends on a transcendental value.
- `tCdf` is left out: nothing calls it, and it is not a distribution function.
- `Statistics.NormalPdf` requires `stdDev > 0`. Every caller validates this first (the endpoints) or passes 1 or 15 (the seed).
- `Seed.GenerateNormalDistribution`: requires `stdDev > 0`, which both seeded calls satisfy; the script itself does not validate.
- `Statistics.CalculateLinearRegression` requires equal lengths. Its one caller, the modular regression handler (server/controllers/regressionController.js:18), rejects other input first. The seed lemmas apply it only to the seeded data, whose two arrays hold 10 values each.
- `DistributionController.PoissonCoversBulk`: shows that every `k ≤ λ + 3√λ` is emitted. It does not bound how far past that the loop runs, beyond `maxK`.
