/**
 * The shared statistics helpers of the server (`server/utils/statistics.js`):
 * the densities and masses the distribution endpoints sample, the recursive
 * factorial, the critical-value table of the t-test, the sample mean and
 * variance, and the least-squares line.
 *
 * JavaScript numbers are exact reals here. The hypothesis test and the
 * regression can divide by zero on inputs the server accepts, so their results
 * are `Number`s that carry JavaScript's NaN and infinities.
 */
module Statistics {
  import opened JsMath
  import opened Sums
  import Combinatorics

  /** `normalPdf(x, mean, stdDev)`: the normal density, for the positive `stdDev` callers pass. */
  function NormalPdf(m: MathLib, x: real, mean: real, stdDev: real): (r: real)
    requires Lawful(m) && stdDev > 0.0
    ensures r > 0.0
  {
    SqrtPositive(m, 2.0 * m.pi);
    ProductPositive(stdDev, m.sqrt(2.0 * m.pi));
    ProductPositive(stdDev, stdDev);
    var coefficient := 1.0 / Product(stdDev, m.sqrt(2.0 * m.pi));
    var exponent := -Square(x - mean) / (2.0 * Square(stdDev));
    PositiveTimes(coefficient, m.exp(exponent));
    coefficient * m.exp(exponent)
  }

  /** The normal density is symmetric about the mean. */
  lemma {:induction false} NormalPdfSymmetric(m: MathLib, d: real, mean: real, stdDev: real)
    requires Lawful(m) && stdDev > 0.0
    ensures NormalPdf(m, mean + d, mean, stdDev) == NormalPdf(m, mean - d, mean, stdDev)
  {
    assert (mean + d) - mean == d && (mean - d) - mean == -d;
    assert Square(-d) == Square(d);
  }

  lemma {:induction false} PositiveTimes(a: real, b: real)
    requires a > 0.0 && b > 0.0
    ensures a * b > 0.0
  {
  }

  /** `factorial(num)`: 1 up to `num = 1`, and `num * factorial(num - 1)` above. */
  function Factorial(num: int): (r: nat)
    ensures r >= 1
    ensures num >= 1 ==> r >= num
    decreases num
  {
    if num <= 1 then 1 else num * Factorial(num - 1)
  }

  /** The factorial recursion holds from `num = 1` on, where `factorial(0) == 1` ends it. */
  lemma {:induction false} FactorialStep(num: int)
    requires num >= 1
    ensures Factorial(num) == num * Factorial(num - 1)
  {
  }

  lemma {:induction false} PascalFactorial(n: int, k: int, c1: int, c2: int, fk1: int, fnk1: int, fk: int, fnk: int, f1: int)
    requires fk == k * fk1 && fnk == (n - k) * fnk1
    requires f1 == c1 * fk1 * fnk && f1 == c2 * fk * fnk1
    ensures (c1 + c2) * fk * fnk == n * f1
  {
    calc {
      (c1 + c2) * fk * fnk;
      c1 * fk * fnk + c2 * fk * fnk;
      c1 * (k * fk1) * fnk + c2 * fk * ((n - k) * fnk1);
      k * (c1 * fk1 * fnk) + (n - k) * (c2 * fk * fnk1);
      k * f1 + (n - k) * f1;
      n * f1;
    }
  }

  /** `n! = C(n, k) · k! · (n − k)!`, with `C` the binomial coefficient of Pascal's rule. */
  lemma {:induction false} FactorialChoose(n: nat, k: nat)
    requires k <= n
    ensures Factorial(n) == Combinatorics.Choose(n, k) * Factorial(k) * Factorial(n - k)
  {
    if k == 0 {
    } else if k == n {
      Combinatorics.ChooseAll(n);
    } else {
      FactorialChoose(n - 1, k - 1);
      FactorialChoose(n - 1, k);
      FactorialStep(k);
      FactorialStep(n - k);
      FactorialStep(n);
      PascalFactorial(n, k, Combinatorics.Choose(n - 1, k - 1), Combinatorics.Choose(n - 1, k),
        Factorial(k - 1), Factorial(n - 1 - k), Factorial(k), Factorial(n - k), Factorial(n - 1));
    }
  }

  lemma {:induction false} DivideOut(c: nat, a: nat, b: nat, f: nat)
    requires a >= 1 && b >= 1 && f == c * a * b
    ensures (a * b) as real >= 1.0
    ensures f as real / (a * b) as real == c as real
  {
    assert a * b >= 1 * b;
    assert f == c * (a * b);
  }

  /**
   * The coefficient `factorial(n) / (factorial(k) * factorial(n - k))` that
   * `binomialPmf` computes: a whole number, the binomial coefficient of Pascal's rule.
   */
  function BinomialCoefficient(n: nat, k: nat): (r: real)
    requires k <= n
    ensures r == Combinatorics.Choose(n, k) as real
  {
    FactorialChoose(n, k);
    DivideOut(Combinatorics.Choose(n, k), Factorial(k), Factorial(n - k), Factorial(n));
    Factorial(n) as real / (Factorial(k) * Factorial(n - k)) as real
  }

  /** The binomial coefficient is symmetric, `C(n, k) == C(n, n − k)`. */
  lemma {:induction false} BinomialCoefficientSymmetric(n: nat, k: nat)
    requires k <= n
    ensures Combinatorics.Choose(n, k) == Combinatorics.Choose(n, n - k)
  {
    var a, b := BinomialCoefficient(n, k), BinomialCoefficient(n, n - k);
    assert Factorial(k) * Factorial(n - k) == Factorial(n - k) * Factorial(n - (n - k));
  }

  /** The binomial coefficient is 1 at both ends of the row. */
  lemma {:induction false} BinomialCoefficientEnds(n: nat)
    ensures BinomialCoefficient(n, 0) == 1.0 && BinomialCoefficient(n, n) == 1.0
  {
    Combinatorics.ChooseAll(n);
  }

  /** `binomialPmf(k, n, p)`, at the `k` from 0 to `n` where the endpoints evaluate it. */
  function BinomialPmf(k: nat, n: nat, p: real): (r: real)
    requires k <= n
    ensures r == Combinatorics.BinomialTerm(n, k, p, 1.0 - p)
    ensures 0.0 <= p <= 1.0 ==> r >= 0.0
  {
    Combinatorics.WeightedTerm(BinomialCoefficient(n, k), n, k, p, 1.0 - p)
  }

  /** The masses `binomialPmf(k, n, p)` for `k = 0..n`, with zeros past `n`. */
  function BinomialMasses(n: nat, p: real): nat -> real
  {
    (k: nat) => if k <= n then BinomialPmf(k, n, p) else 0.0
  }

  /** The binomial masses over `k = 0..n` add up to one: the binomial theorem at `(p + (1 − p))^n`. */
  lemma {:induction false} BinomialMassesSumToOne(n: nat, p: real)
    ensures Combinatorics.SumTo(BinomialMasses(n, p), n + 1) == 1.0
  {
    var f, g := BinomialMasses(n, p), Combinatorics.Expansion(n, p, 1.0 - p);
    forall k: nat | k < n + 1 ensures f(k) == g(k) {
    }
    Combinatorics.SumCongruent(f, g, n + 1);
    Combinatorics.BinomialTheorem(n, p, 1.0 - p);
    assert p + (1.0 - p) == 1.0;
  }

  /** `poissonPmf(k, lambda)`: `lambda^k · e^(−lambda) / k!`. */
  function PoissonPmf(m: MathLib, k: nat, lambda: real): (r: real)
    ensures r * Factorial(k) as real == Pow(lambda, k) * m.exp(-lambda)
  {
    Pow(lambda, k) * m.exp(-lambda) / Factorial(k) as real
  }

  /** A Poisson mass at a positive rate is positive. */
  lemma {:induction false} PoissonPmfPositive(m: MathLib, k: nat, lambda: real)
    requires Lawful(m) && lambda > 0.0
    ensures PoissonPmf(m, k, lambda) > 0.0
  {
    PositiveTimes(Pow(lambda, k), m.exp(-lambda));
  }

  /** `exponentialPdf(x, lambda)`: `lambda · e^(−lambda·x)` from 0 on, zero left of it. */
  function ExponentialPdf(m: MathLib, x: real, lambda: real): (r: real)
    ensures x < 0.0 ==> r == 0.0
  {
    if x >= 0.0 then lambda * m.exp(-lambda * x) else 0.0
  }

  /** The exponential density is positive on `[0, ∞)` and equals the rate at 0. */
  lemma {:induction false} ExponentialPdfProperties(m: MathLib, x: real, lambda: real)
    requires Lawful(m) && lambda > 0.0 && x >= 0.0
    ensures ExponentialPdf(m, x, lambda) > 0.0
    ensures ExponentialPdf(m, 0.0, lambda) == lambda
  {
    PositiveTimes(lambda, m.exp(-lambda * x));
    assert -lambda * 0.0 == 0.0;
  }

  /**
   * `getCriticalValue(significanceLevel, df)`: a two-sided t critical value read off a
   * table with one row for 0.05, one for 0.01 and one for every other level, and four
   * degrees-of-freedom brackets: above 30, above 20, above 10, and the rest.
   */
  function GetCriticalValue(significanceLevel: real, df: int): (r: real)
    ensures 1.645 <= r <= 3.747
  {
    if significanceLevel == 0.05 then
      (if df > 30 then 1.96 else if df > 20 then 2.086 else if df > 10 then 2.228 else 2.776)
    else if significanceLevel == 0.01 then
      (if df > 30 then 2.576 else if df > 20 then 2.845 else if df > 10 then 3.169 else 3.747)
    else
      (if df > 30 then 1.645 else if df > 20 then 1.725 else if df > 10 then 1.812 else 2.132)
  }

  /** The degrees-of-freedom bracket of the table: 0 above 30, 1 above 20, 2 above 10, 3 otherwise. */
  function Bracket(df: int): (b: nat)
    ensures b <= 3
  {
    if df > 30 then 0 else if df > 20 then 1 else if df > 10 then 2 else 3
  }

  /** The table, row by row, indexed by bracket. */
  lemma {:induction false} CriticalValueTable(significanceLevel: real, df: int)
    ensures significanceLevel == 0.05 ==>
      GetCriticalValue(significanceLevel, df) == [1.96, 2.086, 2.228, 2.776][Bracket(df)]
    ensures significanceLevel == 0.01 ==>
      GetCriticalValue(significanceLevel, df) == [2.576, 2.845, 3.169, 3.747][Bracket(df)]
    ensures significanceLevel != 0.05 && significanceLevel != 0.01 ==>
      GetCriticalValue(significanceLevel, df) == [1.645, 1.725, 1.812, 2.132][Bracket(df)]
  {
  }

  /** More degrees of freedom never raise the critical value. */
  lemma {:induction false} CriticalValueNonIncreasing(significanceLevel: real, df1: int, df2: int)
    requires df1 <= df2
    ensures GetCriticalValue(significanceLevel, df2) <= GetCriticalValue(significanceLevel, df1)
  {
  }

  /** At equal degrees of freedom the 0.01 row is above the 0.05 row, which is above every other level's. */
  lemma {:induction false} CriticalValueLevelOrder(otherLevel: real, df: int)
    requires otherLevel != 0.05 && otherLevel != 0.01
    ensures GetCriticalValue(0.01, df) > GetCriticalValue(0.05, df) > GetCriticalValue(otherLevel, df)
  {
  }

  /** The result of `calculateBasicStats`. */
  datatype BasicStats = BasicStats(mean: Number, variance: Number, stdDev: Number, n: nat)

  /**
   * `calculateBasicStats(data)`: the mean, the sample variance with divisor `n − 1`,
   * its square root, and the count. An empty array gives a NaN mean (0 / 0), and a
   * one-element array a NaN variance (0 / 0).
   */
  function CalculateBasicStats(m: MathLib, data: seq<real>): (r: BasicStats)
    ensures r.n == |data|
    ensures |data| == 0 ==> r.mean.NaN?
    ensures |data| > 0 ==> r.mean == Finite(Sum(data) / |data| as real)
    ensures |data| == 1 ==> r.variance.NaN? && r.stdDev.NaN?
    ensures |data| >= 2 ==>
      r.variance == Finite(SumSquaredDeviations(data, r.mean.v) / (|data| - 1) as real)
    ensures r.stdDev == Sqrt(m, r.variance)
  {
    var n := |data|;
    var mean := Div(Finite(Sum(data)), Finite(n as real));
    // The fold over an empty array is its initial value 0.
    var squares := if n == 0 then 0.0 else SumSquaredDeviations(data, mean.v);
    if n == 1 then
      SingleValue(data);
      var variance := Div(Finite(squares), Finite(n as real - 1.0));
      BasicStats(mean, variance, Sqrt(m, variance), n)
    else
      var variance := Div(Finite(squares), Finite(n as real - 1.0));
      BasicStats(mean, variance, Sqrt(m, variance), n)
  }

  lemma {:induction false} SingleValue(data: seq<real>)
    requires |data| == 1
    ensures Sum(data) == data[0] && SumSquaredDeviations(data, data[0]) == 0.0
  {
    assert data[..0] == [];
    assert Square(data[0] - data[0]) == 0.0;
  }

  /** The deviations from the mean of a non-empty sample add up to zero. */
  lemma {:induction false} DeviationsSumToZero(m: MathLib, data: seq<real>)
    requires |data| > 0
    ensures Sum(Deviations(data, CalculateBasicStats(m, data).mean.v)) == 0.0
  {
    var mean := CalculateBasicStats(m, data).mean.v;
    SumDeviations(data, mean);
    assert Sum(data) == |data| as real * mean;
  }

  /**
   * From two values on, the sample variance is a finite non-negative number, zero
   * exactly when all values are equal, and the standard deviation is its square root.
   */
  lemma {:induction false} VarianceProperties(m: MathLib, data: seq<real>)
    requires |data| >= 2
    ensures var s := CalculateBasicStats(m, data);
      && s.variance.Finite? && s.variance.v >= 0.0
      && (s.variance.v == 0.0 <==> Constant(data))
      && (Lawful(m) ==> s.stdDev.Finite? && s.stdDev.v >= 0.0 && s.stdDev.v * s.stdDev.v == s.variance.v)
  {
    var s := CalculateBasicStats(m, data);
    var n := |data| as real;
    var mean := s.mean.v;
    var squares := SumSquaredDeviations(data, mean);
    assert Sum(data) == n * mean;
    SumSquaredDeviationsNonNegative(data, mean);
    SumSquaredDeviationsZero(data, mean);
    AllEqualMeanIffConstant(data, mean);
    QuotientSign(squares, n - 1.0);
  }

  lemma {:induction false} QuotientSign(a: real, d: real)
    requires a >= 0.0 && d > 0.0
    ensures a / d >= 0.0 && (a / d == 0.0 <==> a == 0.0)
  {
  }

  /** `Math.pow(a, 2)` on JavaScript numbers. */
  function SquareOf(a: Number): (r: Number)
    ensures a.Finite? ==> r == Finite(Square(a.v))
    ensures a.NaN? ==> r.NaN?
  {
    Mul(a, a)
  }

  /** `sum / n` for a JavaScript array of numbers: NaN for an empty array. */
  function MeanOf(xs: seq<real>): (r: Number)
    ensures |xs| == 0 ==> r.NaN?
    ensures |xs| > 0 ==> r == Finite(Sum(xs) / |xs| as real)
  {
    Div(Finite(Sum(xs)), Finite(|xs| as real))
  }

  /** The slope numerator `n·Σxy − Σx·Σy`. */
  function SlopeNumerator(xs: seq<real>, ys: seq<real>): real
    requires |xs| == |ys|
  {
    Product(|xs| as real, SumProducts(xs, ys)) - Product(Sum(xs), Sum(ys))
  }

  /** The slope denominator `n·Σx² − (Σx)²`. */
  function SlopeDenominator(xs: seq<real>): real
  {
    Product(|xs| as real, SumSquares(xs)) - Product(Sum(xs), Sum(xs))
  }

  /** The least-squares slope `(n·Σxy − Σx·Σy) / (n·Σx² − (Σx)²)`, unguarded. */
  function LeastSquaresSlope(xs: seq<real>, ys: seq<real>): Number
    requires |xs| == |ys|
  {
    Div(Finite(SlopeNumerator(xs, ys)), Finite(SlopeDenominator(xs)))
  }

  /** The slope numerator from the sums, written as the handlers compute it. */
  lemma {:induction false} NumeratorFromSums(xs: seq<real>, ys: seq<real>, n: real, sx: real, sy: real, sxy: real)
    requires |xs| == |ys| && n == |xs| as real
    requires sx == Sum(xs) && sy == Sum(ys) && sxy == SumProducts(xs, ys)
    ensures SlopeNumerator(xs, ys) == n * sxy - sx * sy
  {
  }

  /** The slope denominator from the sums, written as the handlers compute it. */
  lemma {:induction false} DenominatorFromSums(xs: seq<real>, n: real, sx: real, sxx: real)
    requires n == |xs| as real && sx == Sum(xs) && sxx == SumSquares(xs)
    ensures SlopeDenominator(xs) == n * sxx - sx * sx
  {
  }

  /** `meanY − slope·meanX`. */
  function LeastSquaresIntercept(xs: seq<real>, ys: seq<real>, slope: Number): Number
  {
    Sub(MeanOf(ys), Mul(slope, MeanOf(xs)))
  }

  /** `totalSumSquares = sumYY − n·meanY·meanY`. */
  function TotalSumSquares(ys: seq<real>): Number
  {
    Sub(Finite(SumSquares(ys)), Mul(Mul(Finite(|ys| as real), MeanOf(ys)), MeanOf(ys)))
  }

  /**
   * The residual fold of `calculateLinearRegression`:
   * `yData.reduce((sum, y, i) => sum + Math.pow(y - (slope * xData[i] + intercept), 2), 0)`.
   */
  function ResidualSumSquares(xs: seq<real>, ys: seq<real>, slope: Number, intercept: Number): (r: Number)
    requires |xs| == |ys|
    ensures slope.Finite? && intercept.Finite? ==>
      r == Finite(SumSquaredResiduals(xs, ys, slope.v, intercept.v))
    ensures |xs| > 0 && (slope.NaN? || intercept.NaN?) ==> r.NaN?
  {
    if |xs| == 0 then Finite(0.0)
    else
      var k := |xs| - 1;
      var predicted := Add(Mul(slope, Finite(xs[k])), intercept);
      Add(ResidualSumSquares(xs[..k], ys[..k], slope, intercept), SquareOf(Sub(Finite(ys[k]), predicted)))
  }

  /** `1 − residualSumSquares / totalSumSquares`. */
  function RSquared(residualSumSquares: Number, totalSumSquares: Number): Number
  {
    Sub(Finite(1.0), Div(residualSumSquares, totalSumSquares))
  }

  /** `slope > 0 ? 1 : -1`: the sign `calculateLinearRegression` gives the correlation. */
  function SlopeSign(slope: Number): (r: real)
    ensures r == 1.0 <==> Greater(slope, Finite(0.0))
    ensures r == 1.0 || r == -1.0
  {
    if Greater(slope, Finite(0.0)) then 1.0 else -1.0
  }

  /** The formatted equation `y = {slope}x + {intercept}`; the decimal formatting is not modelled. */
  datatype Equation = Equation(slope: Number, intercept: Number)

  /** The result of `calculateLinearRegression`. */
  datatype RegressionStats = RegressionStats(
    slope: Number, intercept: Number, rSquared: Number, correlation: Number, n: nat, equation: Equation)

  /**
   * `calculateLinearRegression(xData, yData)`: the ordinary least-squares line, its
   * coefficient of determination, and a correlation made of `√rSquared` and the sign
   * of the slope. Nothing guards a zero denominator: constant x data give NaN.
   */
  function CalculateLinearRegression(m: MathLib, xs: seq<real>, ys: seq<real>): (r: RegressionStats)
    requires |xs| == |ys|
    ensures r.n == |xs| && r.equation == Equation(r.slope, r.intercept)
    ensures r.slope.Finite? && r.intercept.Finite? <==> !Constant(xs)
    ensures Constant(xs) ==> r.slope.NaN? && r.intercept.NaN? && r.rSquared.NaN? && r.correlation.NaN?
    ensures r.correlation == Mul(Sqrt(m, r.rSquared), Finite(SlopeSign(r.slope)))
  {
    var slope := LeastSquaresSlope(xs, ys);
    var intercept := LeastSquaresIntercept(xs, ys, slope);
    var rSquared := RSquared(ResidualSumSquares(xs, ys, slope, intercept), TotalSumSquares(ys));
    var correlation := Mul(Sqrt(m, rSquared), Finite(SlopeSign(slope)));
    if Constant(xs) then
      ConstantXIsNaN(xs, ys);
      RegressionStats(slope, intercept, rSquared, correlation, |xs|, Equation(slope, intercept))
    else
      NonConstantXIsFinite(xs, ys);
      RegressionStats(slope, intercept, rSquared, correlation, |xs|, Equation(slope, intercept))
  }

  lemma {:induction false} ScaledSign(n: real, s: real, d: real, zero: bool, constant: bool)
    requires n > 0.0 && s >= 0.0 && d == Product(n, s)
    requires (s == 0.0 <==> zero) && (zero <==> constant)
    ensures d >= 0.0 && (d == 0.0 <==> constant)
  {
    if s > 0.0 {
      PositiveTimes(n, s);
    }
  }

  /**
   * The slope denominator `n·Σx² − (Σx)²` is `n` times the squared deviations of x
   * from their mean: never negative, and zero exactly when all x are equal.
   */
  lemma {:induction false} SlopeDenominatorSign(xs: seq<real>)
    ensures SlopeDenominator(xs) >= 0.0
    ensures SlopeDenominator(xs) == 0.0 <==> Constant(xs)
  {
    if |xs| > 0 {
      MeanTimesCount(Sum(xs), |xs| as real);
      SlopeDenominatorAround(xs, Sum(xs) / |xs| as real);
    }
  }

  lemma {:induction false} SlopeDenominatorAround(xs: seq<real>, mean: real)
    requires |xs| > 0 && Sum(xs) == |xs| as real * mean
    ensures SlopeDenominator(xs) >= 0.0
    ensures SlopeDenominator(xs) == 0.0 <==> Constant(xs)
  {
    SlopeDenominatorCentered(xs, mean);
    SumSquaredDeviationsZero(xs, mean);
    AllEqualMeanIffConstant(xs, mean);
  }

  /** Around the mean, the denominator is `n` times the squared deviations. */
  lemma {:induction false} SlopeDenominatorCentered(xs: seq<real>, mean: real)
    requires |xs| > 0 && Sum(xs) == |xs| as real * mean
    ensures SlopeDenominator(xs) >= 0.0
    ensures SlopeDenominator(xs) == 0.0 <==> SumSquaredDeviations(xs, mean) == 0.0
  {
    var d := SumSquaredDeviations(xs, mean);
    CenteredSumSquares(xs, mean);
    SumSquaredDeviationsNonNegative(xs, mean);
    ScaledSign(|xs| as real, d, SlopeDenominator(xs), d == 0.0, d == 0.0);
  }

  lemma {:induction false} MeanTimesCount(s: real, n: real)
    requires n > 0.0
    ensures s == n * (s / n)
  {
  }

  lemma {:induction false} ConstantHasNoSpread(xs: seq<real>, ys: seq<real>)
    requires |xs| == |ys| && |xs| > 0 && Constant(xs)
    ensures SlopeNumerator(xs, ys) == 0.0
  {
    var c := xs[0];
    assert AllEqual(xs, c);
    SumOfConstant(xs, c);
    SumProductsConstant(xs, ys, c);
    ConstantNumerator(|xs| as real, c, Sum(ys), SumProducts(xs, ys), Sum(xs), SlopeNumerator(xs, ys));
  }

  lemma {:induction false} ConstantNumerator(n: real, c: real, sy: real, sxy: real, sx: real, num: real)
    requires sxy == Product(c, sy) && sx == n * c && num == Product(n, sxy) - Product(sx, sy)
    ensures num == 0.0
  {
  }

  /** On constant x data (the empty array included) slope, intercept, R² and correlation are all NaN. */
  lemma {:induction false} ConstantXIsNaN(xs: seq<real>, ys: seq<real>)
    requires |xs| == |ys| && Constant(xs)
    ensures var slope := LeastSquaresSlope(xs, ys);
      var intercept := LeastSquaresIntercept(xs, ys, slope);
      && slope.NaN? && intercept.NaN?
      && RSquared(ResidualSumSquares(xs, ys, slope, intercept), TotalSumSquares(ys)).NaN?
  {
    SlopeDenominatorSign(xs);
    if |xs| > 0 {
      ConstantHasNoSpread(xs, ys);
    }
  }

  lemma {:induction false} NonConstantNeedsTwo(xs: seq<real>)
    requires !Constant(xs)
    ensures |xs| >= 2
  {
  }

  /** On non-constant x data the slope and the intercept are finite. */
  lemma {:induction false} NonConstantXIsFinite(xs: seq<real>, ys: seq<real>)
    requires |xs| == |ys| && !Constant(xs)
    ensures SlopeDenominator(xs) > 0.0
    ensures var slope := LeastSquaresSlope(xs, ys);
      && slope == Finite(SlopeNumerator(xs, ys) / SlopeDenominator(xs))
      && LeastSquaresIntercept(xs, ys, slope)
         == Finite(Sum(ys) / |xs| as real - slope.v * (Sum(xs) / |xs| as real))
  {
    NonConstantSlope(xs, ys);
    NonConstantNeedsTwo(xs);
    InterceptIsReal(xs, ys, LeastSquaresSlope(xs, ys));
  }

  lemma {:induction false} NonConstantSlope(xs: seq<real>, ys: seq<real>)
    requires |xs| == |ys| && !Constant(xs)
    ensures SlopeDenominator(xs) > 0.0
    ensures LeastSquaresSlope(xs, ys) == Finite(SlopeNumerator(xs, ys) / SlopeDenominator(xs))
  {
    SlopeDenominatorSign(xs);
  }

  /** On non-empty y data the total sum of squares is the squared deviations of y from their mean. */
  lemma {:induction false} TotalSumSquaresSpread(ys: seq<real>)
    requires |ys| > 0
    ensures var meanY := Sum(ys) / |ys| as real;
      TotalSumSquares(ys) == Finite(SumSquaredDeviations(ys, meanY))
    ensures TotalSumSquares(ys).v >= 0.0
    ensures TotalSumSquares(ys).v == 0.0 <==> Constant(ys)
  {
    TotalIsDeviations(ys);
    DeviationsAboutAverage(ys);
  }

  lemma {:induction false} TotalIsDeviations(ys: seq<real>)
    requires |ys| > 0
    ensures TotalSumSquares(ys) == Finite(SumSquaredDeviations(ys, Sum(ys) / |ys| as real))
  {
    MeanTimesCount(Sum(ys), |ys| as real);
    CenteredSumSquares(ys, Sum(ys) / |ys| as real);
    TotalSumSquaresValue(ys, |ys| as real, Sum(ys) / |ys| as real);
  }

  lemma {:induction false} DeviationsAboutAverage(ys: seq<real>)
    requires |ys| > 0
    ensures var d := SumSquaredDeviations(ys, Sum(ys) / |ys| as real);
      d >= 0.0 && (d == 0.0 <==> Constant(ys))
  {
    SumSquaredDeviationsNonNegative(ys, Sum(ys) / |ys| as real);
    SumSquaredDeviationsZero(ys, Sum(ys) / |ys| as real);
    MeanTimesCount(Sum(ys), |ys| as real);
    AllEqualMeanIffConstant(ys, Sum(ys) / |ys| as real);
  }

  lemma {:induction false} TotalSumSquaresValue(ys: seq<real>, n: real, mean: real)
    requires |ys| > 0 && n == |ys| as real && mean == Sum(ys) / n
    ensures TotalSumSquares(ys) == Finite(SumSquares(ys) - Product(n, Square(mean)))
  {
    assert MeanOf(ys) == Finite(mean);
    assert Mul(Finite(n), MeanOf(ys)) == Finite(n * mean);
    assert Mul(Finite(n * mean), Finite(mean)) == Finite(Product(n, Square(mean)));
  }

  lemma {:induction false} LineThroughMeansAlgebra(n: real, sx: real, sy: real, slope: real, intercept: real)
    requires n > 0.0
    requires intercept == sy / n - slope * (sx / n)
    ensures Product(n, intercept) == sy - Product(slope, sx)
  {
  }

  /**
   * For non-constant x data the fitted line passes through the point of means, its
   * residuals sum to zero, and the residual sum of squares is the finite, non-negative
   * sum of the squared residuals.
   */
  lemma {:induction false} RegressionLineProperties(xs: seq<real>, ys: seq<real>)
    requires |xs| == |ys| && !Constant(xs)
    ensures var slope := LeastSquaresSlope(xs, ys);
      var intercept := LeastSquaresIntercept(xs, ys, slope);
      && slope.Finite? && intercept.Finite?
      && Add(Mul(slope, MeanOf(xs)), intercept) == MeanOf(ys)
      && SumResiduals(xs, ys, slope.v, intercept.v) == 0.0
      && ResidualSumSquares(xs, ys, slope, intercept) == Finite(SumSquaredResiduals(xs, ys, slope.v, intercept.v))
      && SumSquaredResiduals(xs, ys, slope.v, intercept.v) >= 0.0
  {
    SlopeFinite(xs, ys);
    NonConstantNeedsTwo(xs);
    var slope := LeastSquaresSlope(xs, ys);
    InterceptThroughMeans(xs, ys, slope);
    SumSquaredResidualsNonNegative(xs, ys, slope.v, LeastSquaresIntercept(xs, ys, slope).v);
  }

  lemma {:induction false} SlopeFinite(xs: seq<real>, ys: seq<real>)
    requires |xs| == |ys| && !Constant(xs)
    ensures LeastSquaresSlope(xs, ys).Finite?
  {
    NonConstantXIsFinite(xs, ys);
  }

  /** Whatever finite slope it is given, `meanY − slope·meanX` puts the line through the means. */
  lemma {:induction false} InterceptThroughMeans(xs: seq<real>, ys: seq<real>, slope: Number)
    requires |xs| == |ys| && |xs| > 0 && slope.Finite?
    ensures var intercept := LeastSquaresIntercept(xs, ys, slope);
      && intercept.Finite?
      && Add(Mul(slope, MeanOf(xs)), intercept) == MeanOf(ys)
      && SumResiduals(xs, ys, slope.v, intercept.v) == 0.0
  {
    MeansOnLine(xs, ys, slope);
    ResidualsCancel(xs, ys, slope);
  }

  lemma {:induction false} MeansOnLine(xs: seq<real>, ys: seq<real>, slope: Number)
    requires |xs| == |ys| && |xs| > 0 && slope.Finite?
    ensures Add(Mul(slope, MeanOf(xs)), LeastSquaresIntercept(xs, ys, slope)) == MeanOf(ys)
  {
    InterceptValue(xs, ys, slope, |xs| as real, Sum(xs), Sum(ys), slope.v);
  }

  lemma {:induction false} ResidualsCancel(xs: seq<real>, ys: seq<real>, slope: Number)
    requires |xs| == |ys| && |xs| > 0 && slope.Finite?
    ensures LeastSquaresIntercept(xs, ys, slope).Finite?
    ensures SumResiduals(xs, ys, slope.v, LeastSquaresIntercept(xs, ys, slope).v) == 0.0
  {
    InterceptIsReal(xs, ys, slope);
    InterceptOfTimesCount(xs, ys, slope.v);
    SumResidualsBalanced(xs, ys, slope.v, InterceptOf(xs, ys, slope.v));
  }

  lemma {:induction false} CancelProduct(n: real, x: real, y: real)
    requires n != 0.0 && Product(n, x) == Product(n, y)
    ensures x == y
  {
    CancelFactor(n, x, y);
  }

  /** A line with `n·b = Σy − a·Σx` leaves residuals that sum to zero. */
  lemma {:induction false} SumResidualsBalanced(xs: seq<real>, ys: seq<real>, a: real, b: real)
    requires |xs| == |ys| && Product(|xs| as real, b) == Sum(ys) - Product(a, Sum(xs))
    ensures SumResiduals(xs, ys, a, b) == 0.0
  {
    SumResidualsExpand(xs, ys, a, b);
  }

  /** `meanY − a·meanX` on reals. */
  function InterceptOf(xs: seq<real>, ys: seq<real>, a: real): real
    requires |xs| > 0
  {
    Sum(ys) / |xs| as real - a * (Sum(xs) / |xs| as real)
  }

  lemma {:induction false} InterceptIsReal(xs: seq<real>, ys: seq<real>, slope: Number)
    requires |xs| == |ys| && |xs| > 0 && slope.Finite?
    ensures LeastSquaresIntercept(xs, ys, slope) == Finite(InterceptOf(xs, ys, slope.v))
  {
    InterceptValue(xs, ys, slope, |xs| as real, Sum(xs), Sum(ys), slope.v);
  }

  lemma {:induction false} InterceptOfTimesCount(xs: seq<real>, ys: seq<real>, a: real)
    requires |xs| > 0
    ensures Product(|xs| as real, InterceptOf(xs, ys, a)) == Sum(ys) - Product(a, Sum(xs))
  {
    LineThroughMeansAlgebra(|xs| as real, Sum(xs), Sum(ys), a, InterceptOf(xs, ys, a));
  }

  /** The intercept and the means, in terms of the count `n` and the sums `sx`, `sy`. */
  lemma {:induction false} InterceptValue(xs: seq<real>, ys: seq<real>, slope: Number, n: real, sx: real, sy: real, a: real)
    requires |xs| == |ys| && |xs| > 0 && slope == Finite(a)
    requires n == |xs| as real && sx == Sum(xs) && sy == Sum(ys)
    ensures LeastSquaresIntercept(xs, ys, slope) == Finite(sy / n - a * (sx / n))
    ensures MeanOf(xs) == Finite(sx / n) && MeanOf(ys) == Finite(sy / n)
  {
  }

  lemma {:induction false} SlopeOfLineAlgebra(n: real, sxx: real, sx: real, sxy: real, sy: real, a: real, b: real, num: real, den: real)
    requires n > 0.0 && den != 0.0
    requires sxy == Product(a, sxx) + Product(b, sx) && sy == Product(a, sx) + Product(n, b)
    requires num == Product(n, sxy) - Product(sx, sy) && den == Product(n, sxx) - Product(sx, sx)
    ensures num / den == a
  {
    assert num == a * den;
  }

  /**
   * Data lying exactly on the line `y = a·x + b` (with x not all equal) give back that
   * line with no residual: slope `a`, intercept `b`, residual sum of squares 0.
   */
  lemma {:induction false} RegressionRecoversLine(xs: seq<real>, ys: seq<real>, a: real, b: real)
    requires OnLine(xs, ys, a, b) && !Constant(xs)
    ensures var slope := LeastSquaresSlope(xs, ys);
      var intercept := LeastSquaresIntercept(xs, ys, slope);
      && slope == Finite(a) && intercept == Finite(b)
      && ResidualSumSquares(xs, ys, slope, intercept) == Finite(0.0)
  {
    NonConstantXIsFinite(xs, ys);
    SumProductsLine(xs, ys, a, b);
    SumLine(xs, ys, a, b);
    SlopeOfLineAlgebra(|xs| as real, SumSquares(xs), Sum(xs), SumProducts(xs, ys), Sum(ys), a, b,
      SlopeNumerator(xs, ys), SlopeDenominator(xs));
    var slope := LeastSquaresSlope(xs, ys);
    InterceptIsReal(xs, ys, slope);
    InterceptOfTimesCount(xs, ys, a);
    CancelProduct(|xs| as real, InterceptOf(xs, ys, a), b);
    SumSquaredResidualsLine(xs, ys, a, b);
  }

  /** On a line of non-zero slope `a` the y data are not all equal. */
  lemma {:induction false} SlopedLineSpreadsY(xs: seq<real>, ys: seq<real>, a: real, b: real)
    requires OnLine(xs, ys, a, b) && !Constant(xs) && a != 0.0
    ensures !Constant(ys)
  {
    var i, j :| 0 <= i < |xs| && 0 <= j < |xs| && xs[i] != xs[j];
    assert ys[i] - ys[j] == Product(a, xs[i] - xs[j]);
    ProductNonZero(a, xs[i] - xs[j]);
  }

  /** On a horizontal line the y data are all equal. */
  lemma {:induction false} FlatLineFixesY(xs: seq<real>, ys: seq<real>, b: real)
    requires OnLine(xs, ys, 0.0, b)
    ensures Constant(ys)
  {
    forall i, j | 0 <= i < |ys| && 0 <= j < |ys|
      ensures ys[i] == ys[j]
    {
      assert ys[i] == 0.0 * xs[i] + b && ys[j] == 0.0 * xs[j] + b;
    }
  }

  /** `calculateLinearRegression` is assembled from the least-squares parts above. */
  lemma {:induction false} RegressionParts(m: MathLib, xs: seq<real>, ys: seq<real>)
    requires |xs| == |ys|
    ensures var r := CalculateLinearRegression(m, xs, ys);
      var slope := LeastSquaresSlope(xs, ys);
      var intercept := LeastSquaresIntercept(xs, ys, slope);
      && r.slope == slope && r.intercept == intercept
      && r.rSquared == RSquared(ResidualSumSquares(xs, ys, slope, intercept), TotalSumSquares(ys))
  {
  }

  /**
   * `calculateLinearRegression` on data lying exactly on `y = a·x + b`: the line comes
   * back, R² is 1 and the correlation is the sign of `a` when `a ≠ 0`; a horizontal
   * line has a zero total sum of squares, so R² and the correlation are NaN.
   */
  lemma {:induction false} PerfectFit(m: MathLib, xs: seq<real>, ys: seq<real>, a: real, b: real)
    requires OnLine(xs, ys, a, b) && !Constant(xs)
    ensures var r := CalculateLinearRegression(m, xs, ys);
      && r.slope == Finite(a) && r.intercept == Finite(b)
      && (a != 0.0 ==> r.rSquared == Finite(1.0))
      && (a != 0.0 && Lawful(m) ==> r.correlation == Finite(if a > 0.0 then 1.0 else -1.0))
      && (a == 0.0 ==> r.rSquared.NaN? && r.correlation.NaN?)
  {
    RegressionParts(m, xs, ys);
    RegressionRecoversLine(xs, ys, a, b);
    TotalSumSquaresSpread(ys);
    if a != 0.0 {
      SlopedLineSpreadsY(xs, ys, a, b);
    } else {
      FlatLineFixesY(xs, ys, b);
    }
    if Lawful(m) {
      SqrtOne(m);
    }
    FitOfLine(m, CalculateLinearRegression(m, xs, ys), a, b, TotalSumSquares(ys));
  }

  lemma {:induction false} FitOfLine(m: MathLib, r: RegressionStats, a: real, b: real, tss: Number)
    requires r.slope == Finite(a) && r.intercept == Finite(b)
    requires r.rSquared == RSquared(Finite(0.0), tss)
    requires r.correlation == Mul(Sqrt(m, r.rSquared), Finite(SlopeSign(r.slope)))
    requires tss.Finite? && tss.v >= 0.0 && (tss.v == 0.0 <==> a == 0.0)
    ensures a != 0.0 ==> r.rSquared == Finite(1.0)
    ensures a != 0.0 && m.sqrt(1.0) == 1.0 ==> r.correlation == Finite(if a > 0.0 then 1.0 else -1.0)
    ensures a == 0.0 ==> r.rSquared.NaN? && r.correlation.NaN?
  {
    if a != 0.0 {
      PerfectRSquared(tss);
      UnitCorrelation(m, a);
    } else {
      FlatRSquared(tss);
    }
  }

  lemma {:induction false} UnitCorrelation(m: MathLib, a: real)
    requires a != 0.0
    ensures m.sqrt(1.0) == 1.0 ==>
      Mul(Sqrt(m, Finite(1.0)), Finite(SlopeSign(Finite(a)))) == Finite(if a > 0.0 then 1.0 else -1.0)
  {
  }

  lemma {:induction false} PerfectRSquared(tss: Number)
    requires tss.Finite? && tss.v > 0.0
    ensures RSquared(Finite(0.0), tss) == Finite(1.0)
  {
  }

  lemma {:induction false} FlatRSquared(tss: Number)
    requires tss == Finite(0.0)
    ensures RSquared(Finite(0.0), tss).NaN?
  {
  }

  /**
   * For x values that are not all equal, the fitted slope `a` and intercept `b` satisfy
   * both normal equations of least squares: `Σy = a·Σx + n·b` and `Σxy = a·Σx² + b·Σx`.
   */
  lemma {:induction false} NormalEquations(xs: seq<real>, ys: seq<real>)
    requires |xs| == |ys| && !Constant(xs)
    ensures var slope := LeastSquaresSlope(xs, ys);
      var intercept := LeastSquaresIntercept(xs, ys, slope);
      && slope.Finite? && intercept.Finite?
      && Sum(ys) == Product(slope.v, Sum(xs)) + Product(|xs| as real, intercept.v)
      && SumProducts(xs, ys) == Product(slope.v, SumSquares(xs)) + Product(intercept.v, Sum(xs))
  {
    NonConstantSlope(xs, ys);
    NonConstantNeedsTwo(xs);
    var a := LeastSquaresSlope(xs, ys).v;
    InterceptIsReal(xs, ys, LeastSquaresSlope(xs, ys));
    InterceptOfTimesCount(xs, ys, a);
    NormalAlgebra(|xs| as real, Sum(xs), Sum(ys), SumSquares(xs), SumProducts(xs, ys), a, InterceptOf(xs, ys, a),
      SlopeNumerator(xs, ys), SlopeDenominator(xs));
  }

  lemma {:induction false} NormalAlgebra(n: real, sx: real, sy: real, sxx: real, sxy: real, a: real, b: real, num: real, den: real)
    requires n > 0.0 && den > 0.0 && a == num / den
    requires num == Product(n, sxy) - Product(sx, sy) && den == Product(n, sxx) - Product(sx, sx)
    requires Product(n, b) == sy - Product(a, sx)
    ensures sxy == Product(a, sxx) + Product(b, sx)
  {
    assert Product(a, den) == num;
    assert Product(n, Product(a, sxx) + Product(b, sx)) == Product(a, den) + Product(sx, sy);
    CancelProduct(n, Product(a, sxx) + Product(b, sx), sxy);
  }

  /**
   * For x values that are not all equal, no line leaves a smaller residual sum of
   * squares than the fitted one: `Σ(y − (a·x + b))² ≤ Σ(y − (a'·x + b'))²` for every `a'`, `b'`.
   */
  lemma {:induction false} LeastSquaresMinimal(xs: seq<real>, ys: seq<real>, a': real, b': real)
    requires |xs| == |ys| && !Constant(xs)
    ensures var slope := LeastSquaresSlope(xs, ys);
      var intercept := LeastSquaresIntercept(xs, ys, slope);
      && slope.Finite? && intercept.Finite?
      && SumSquaredResiduals(xs, ys, slope.v, intercept.v) <= SumSquaredResiduals(xs, ys, a', b')
  {
    NormalEquations(xs, ys);
    NonConstantNeedsTwo(xs);
    SlopeDenominatorSign(xs);
    var slope := LeastSquaresSlope(xs, ys);
    var a, b := slope.v, LeastSquaresIntercept(xs, ys, slope).v;
    var n := |xs| as real;
    SumSquaredResidualsExpand(xs, ys, a, b);
    SumSquaredResidualsExpand(xs, ys, a', b');
    CountIsLength(xs);
    ExpandedGap(n, Sum(xs), Sum(ys), SumSquares(xs), SumProducts(xs, ys), SumSquares(ys), a, b, a', b');
    GapNonNegative(n, Sum(xs), SumSquares(xs), a' - a, b' - b);
  }

  /**
   * For non-constant x and y data R² is finite and lies in [0, 1], and it is exactly
   * `1 − SSres / SStot`: the fitted line leaves no more squared residual than the
   * horizontal line through the mean of y, whose squared residuals are SStot.
   */
  lemma {:induction false} RSquaredBounded(m: MathLib, xs: seq<real>, ys: seq<real>)
    requires |xs| == |ys| && !Constant(xs) && !Constant(ys)
    ensures var r := CalculateLinearRegression(m, xs, ys);
      var sse := SumSquaredResiduals(xs, ys, r.slope.v, r.intercept.v);
      var sst := SumSquaredDeviations(ys, Sum(ys) / |ys| as real);
      && sst > 0.0 && 0.0 <= sse <= sst
      && r.rSquared == Finite(1.0 - sse / sst)
      && 0.0 <= r.rSquared.v <= 1.0
  {
    RegressionLineProperties(xs, ys);
    TotalSumSquaresSpread(ys);
    var r := CalculateLinearRegression(m, xs, ys);
    var meanY := Sum(ys) / |ys| as real;
    LeastSquaresMinimal(xs, ys, 0.0, meanY);
    FlatLineResiduals(xs, ys, meanY);
    var sse := SumSquaredResiduals(xs, ys, r.slope.v, r.intercept.v);
    var sst := SumSquaredDeviations(ys, meanY);
    QuotientNonNegative(sse, sst);
    QuotientAtMostOne(sse, sst);
  }

  lemma {:induction false} QuotientAtMostOne(a: real, b: real)
    requires a <= b && b > 0.0
    ensures a / b <= 1.0
  {
  }

  lemma {:induction false} QuotientNonNegative(a: real, b: real)
    requires a >= 0.0 && b > 0.0
    ensures a / b >= 0.0
  {
  }
}
