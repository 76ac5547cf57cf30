/**
 * The statistics that the older single-file server (`server/src/index.js`)
 * inlines instead of importing: a factorial nested in each mass function, the
 * critical-value table of its hypothesis handler and the regression formulas of
 * its regression handler. Each copy is proved equal to the shared one.
 */
module LegacyStatistics {
  import opened JsMath
  import opened Sums
  import opened Statistics
  import Combinatorics

  /** The `factorial` nested inside `binomialPmf` and `poissonPmf`. */
  function InlineFactorial(num: int): (r: nat)
    ensures r >= 1
    decreases num
  {
    if num <= 1 then 1 else num * InlineFactorial(num - 1)
  }

  /** The nested factorial is the shared one. */
  lemma {:induction false} InlineFactorialAgrees(num: int)
    ensures InlineFactorial(num) == Factorial(num)
    decreases num
  {
    if num > 1 {
      InlineFactorialAgrees(num - 1);
    }
  }

  /** The quotient `factorial(n) / (factorial(k) * factorial(n - k))` inside the inline `binomialPmf`. */
  function InlineCoefficient(n: nat, k: nat): real
    requires k <= n
  {
    InlineFactorial(n) as real / (InlineFactorial(k) * InlineFactorial(n - k)) as real
  }

  /** The inline `binomialPmf`: the coefficient times `p^k * (1 - p)^(n - k)`. */
  function InlineBinomialPmf(k: nat, n: nat, p: real): real
    requires k <= n
  {
    Combinatorics.WeightedTerm(InlineCoefficient(n, k), n, k, p, 1.0 - p)
  }

  /** The inline `poissonPmf`: `λ^k · e^(−λ) / factorial(k)`. */
  function InlinePoissonPmf(m: MathLib, k: nat, lambda: real): real
  {
    InlineFactorialAgrees(k);
    Pow(lambda, k) * m.exp(-lambda) / InlineFactorial(k) as real
  }

  /** The inline binomial mass is the shared one. */
  lemma {:induction false} InlineBinomialAgrees(k: nat, n: nat, p: real)
    requires k <= n
    ensures InlineBinomialPmf(k, n, p) == BinomialPmf(k, n, p)
  {
    InlineCoefficientAgrees(n, k);
  }

  /** The coefficient the inline mass computes is the binomial coefficient. */
  lemma {:induction false} InlineCoefficientAgrees(n: nat, k: nat)
    requires k <= n
    ensures InlineCoefficient(n, k) == Combinatorics.Choose(n, k) as real
  {
    InlineFactorialAgrees(n);
    InlineFactorialAgrees(k);
    InlineFactorialAgrees(n - k);
    SameRatio(InlineFactorial(n), InlineFactorial(k), InlineFactorial(n - k), Factorial(n), Factorial(k), Factorial(n - k));
    assert BinomialCoefficient(n, k) == Combinatorics.Choose(n, k) as real;
  }

  lemma {:induction false} SameRatio(a: nat, b: nat, c: nat, a': nat, b': nat, c': nat)
    requires a == a' && b == b' && c == c' && b * c >= 1
    ensures a as real / (b * c) as real == a' as real / (b' * c') as real
  {
  }

  /** The inline Poisson mass is the shared one. */
  lemma {:induction false} InlinePoissonAgrees(m: MathLib, k: nat, lambda: real)
    ensures InlinePoissonPmf(m, k, lambda) == PoissonPmf(m, k, lambda)
  {
    InlineFactorialAgrees(k);
  }

  /** The inline critical-value table of the hypothesis handler. */
  function InlineCriticalValue(significanceLevel: real, df: int): real
  {
    if significanceLevel == 0.05 then
      (if df > 30 then 1.96 else if df > 20 then 2.086 else if df > 10 then 2.228 else 2.776)
    else if significanceLevel == 0.01 then
      (if df > 30 then 2.576 else if df > 20 then 2.845 else if df > 10 then 3.169 else 3.747)
    else
      (if df > 30 then 1.645 else if df > 20 then 1.725 else if df > 10 then 1.812 else 2.132)
  }

  /** The inline table is `getCriticalValue`: the same three rows and four brackets. */
  lemma {:induction false} InlineCriticalValueAgrees(significanceLevel: real, df: int)
    ensures InlineCriticalValue(significanceLevel, df) == GetCriticalValue(significanceLevel, df)
  {
  }

  /** The legacy regression response: `slope, intercept, rSquared, correlation, n`, no `equation`. */
  datatype LegacyRegressionResponse = LegacyRegressionResponse(
    slope: Number, intercept: Number, rSquared: Number, correlation: Number, n: nat)

  /** The inline slope `(n·sumXY − sumX·sumY) / (n·sumXX − sumX·sumX)`. */
  function InlineSlope(xs: seq<real>, ys: seq<real>): Number
    requires |xs| == |ys|
  {
    var n := |xs| as real;
    var sumX, sumY, sumXY, sumXX := Sum(xs), Sum(ys), SumProducts(xs, ys), SumSquares(xs);
    Div(Finite(n * sumXY - sumX * sumY), Finite(n * sumXX - sumX * sumX))
  }

  /** The inline slope is the shared least-squares slope. */
  lemma {:induction false} InlineSlopeAgrees(xs: seq<real>, ys: seq<real>)
    requires |xs| == |ys|
    ensures InlineSlope(xs, ys) == LeastSquaresSlope(xs, ys)
  {
    NumeratorFromSums(xs, ys, |xs| as real, Sum(xs), Sum(ys), SumProducts(xs, ys));
    DenominatorFromSums(xs, |xs| as real, Sum(xs), SumSquares(xs));
  }

  /**
   * The regression formulas of the single-file server, with its sums computed in
   * place: slope and intercept, total and residual sums of squares, R² and the
   * signed square root of R².
   */
  function InlineRegression(m: MathLib, xs: seq<real>, ys: seq<real>): (r: LegacyRegressionResponse)
    requires |xs| == |ys|
    ensures var shared := CalculateLinearRegression(m, xs, ys);
      r == LegacyRegressionResponse(shared.slope, shared.intercept, shared.rSquared, shared.correlation, shared.n)
  {
    InlineSlopeAgrees(xs, ys);
    RegressionParts(m, xs, ys);
    var n := |xs| as real;
    var sumX, sumY, sumYY := Sum(xs), Sum(ys), SumSquares(ys);
    var meanX, meanY := Div(Finite(sumX), Finite(n)), Div(Finite(sumY), Finite(n));
    var slope := InlineSlope(xs, ys);
    var intercept := Sub(meanY, Mul(slope, meanX));
    var totalSumSquares := Sub(Finite(sumYY), Mul(Mul(Finite(n), meanY), meanY));
    var residualSumSquares := ResidualSumSquares(xs, ys, slope, intercept);
    var rSquared := Sub(Finite(1.0), Div(residualSumSquares, totalSumSquares));
    var correlation := Mul(Sqrt(m, rSquared), Finite(if Greater(slope, Finite(0.0)) then 1.0 else -1.0));
    LegacyRegressionResponse(slope, intercept, rSquared, correlation, |xs|)
  }
}
