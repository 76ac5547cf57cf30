/**
 * The hypothesis-test endpoint (`server/controllers/hypothesisController.js`): a
 * one-sample t-test of a sample against a hypothesised population mean, decided
 * with the bucketed critical-value table.
 *
 * Variables the handler declares with `let` and assigns only on the `'t-test'`
 * branch stay `undefined` for every other test type; they are `Option` fields here.
 */
module HypothesisController {
  import opened Wrappers
  import opened JsMath
  import opened Sums
  import opened Statistics

  const SampleError := "Sample data is required."
  const TTest := "t-test"

  /**
   * The interpretation sentence, chosen by `rejectNull`; it quotes the significance
   * level and the population mean (their decimal formatting is not modelled).
   */
  datatype Interpretation =
    | Reject(level: real, populationMean: real)
    | FailToReject(level: real, populationMean: real)

  /** The `results` object the handler sends. */
  datatype HypothesisResult = HypothesisResult(
    testStatistic: Option<Number>,
    pValue: Option<Number>,
    criticalValue: Option<real>,
    rejectNull: Option<bool>,
    interpretation: Interpretation,
    sampleMean: Number,
    sampleSize: nat,
    sampleStdDev: Number)

  /** `(sampleMean - populationMean) / (sampleStdDev / Math.sqrt(n))`. */
  function TStatistic(m: MathLib, stats: BasicStats, populationMean: real): Number
  {
    Div(Sub(stats.mean, Finite(populationMean)), Div(stats.stdDev, Finite(m.sqrt(stats.n as real))))
  }

  /** `2 * (1 - Math.abs(t) / (Math.abs(t) + Math.sqrt(df)))`: the handler's p-value approximation. */
  function PValue(m: MathLib, t: Number, df: nat): Number
  {
    Mul(Finite(2.0), Sub(Finite(1.0), Div(Abs(t), Add(Abs(t), Sqrt(m, Finite(df as real))))))
  }

  /** `Math.abs(testStatistic) > criticalValue`. */
  predicate Rejects(t: Number, criticalValue: real)
  {
    Greater(Abs(t), Finite(criticalValue))
  }

  /** `rejectNull ? <reject sentence> : <fail-to-reject sentence>`; `undefined` counts as false. */
  function Interpret(rejectNull: Option<bool>, level: real, populationMean: real): (r: Interpretation)
    ensures r.Reject? <==> rejectNull == Some(true)
    ensures r.level == level && r.populationMean == populationMean
  {
    if rejectNull == Some(true) then Reject(level, populationMean) else FailToReject(level, populationMean)
  }

  /**
   * `performHypothesisTest`: rejects a missing or empty sample; otherwise computes
   * the basic statistics and, for `'t-test'` only, the statistic, critical value,
   * p-value and decision.
   */
  function PerformHypothesisTest(
    m: MathLib, testType: string, sampleData: Option<seq<real>>, populationMean: real, significanceLevel: real)
    : (r: Result<HypothesisResult, string>)
    ensures r.Failure? <==> sampleData.None? || |sampleData.value| == 0
    ensures r.Failure? ==> r.error == SampleError
    ensures r.Success? ==>
      var stats := CalculateBasicStats(m, sampleData.value);
      && r.value.sampleSize == |sampleData.value|
      && r.value.sampleMean == stats.mean && r.value.sampleStdDev == stats.stdDev
      && (r.value.interpretation.Reject? <==> r.value.rejectNull == Some(true))
      && (testType == TTest <==> r.value.testStatistic.Some?)
      && (testType == TTest <==> r.value.pValue.Some?)
      && (testType == TTest <==> r.value.criticalValue.Some?)
      && (testType == TTest <==> r.value.rejectNull.Some?)
      && (testType == TTest ==>
            && r.value.criticalValue == Some(GetCriticalValue(significanceLevel, |sampleData.value| - 1))
            && r.value.rejectNull == Some(Rejects(r.value.testStatistic.value, r.value.criticalValue.value)))
  {
    if sampleData.None? || |sampleData.value| == 0 then Failure(SampleError)
    else
      var stats := CalculateBasicStats(m, sampleData.value);
      var n := stats.n;
      var (testStatistic, pValue, criticalValue, rejectNull) :=
        if testType == TTest then
          var t := TStatistic(m, stats, populationMean);
          var df := n - 1;
          var cv := GetCriticalValue(significanceLevel, df);
          (Some(t), Some(PValue(m, t, df)), Some(cv), Some(Rejects(t, cv)))
        else (None, None, None, None);
      var interpretation := Interpret(rejectNull, significanceLevel, populationMean);
      Success(HypothesisResult(
        testStatistic, pValue, criticalValue, rejectNull, interpretation, stats.mean, n, stats.stdDev))
  }

  /**
   * A test type other than `'t-test'` falls through: statistic, p-value, critical value
   * and decision stay undefined and the fail-to-reject sentence is chosen.
   */
  lemma {:induction false} OtherTestTypesFallThrough(
    m: MathLib, testType: string, sampleData: seq<real>, populationMean: real, significanceLevel: real)
    requires testType != TTest && |sampleData| > 0
    ensures var r := PerformHypothesisTest(m, testType, Some(sampleData), populationMean, significanceLevel);
      && r.Success?
      && r.value.testStatistic.None? && r.value.pValue.None?
      && r.value.criticalValue.None? && r.value.rejectNull.None?
      && r.value.interpretation == FailToReject(significanceLevel, populationMean)
  {
  }

  /**
   * A one-value sample passes validation, but its variance divides by `n − 1 = 0`:
   * the statistic and the p-value are NaN, and the null hypothesis is not rejected.
   */
  lemma {:induction false} SingleValueSample(m: MathLib, x: real, populationMean: real, significanceLevel: real)
    ensures var r := PerformHypothesisTest(m, TTest, Some([x]), populationMean, significanceLevel);
      && r.Success?
      && r.value.sampleSize == 1
      && r.value.testStatistic == Some(NaN) && r.value.pValue.Some? && r.value.pValue.value.NaN?
      && r.value.rejectNull == Some(false)
      && r.value.interpretation.FailToReject?
  {
  }

  lemma {:induction false} PValueAlgebra(a: real, d: real)
    requires a >= 0.0 && d > 0.0
    ensures 0.0 < 2.0 * (1.0 - a / (a + d)) <= 2.0
    ensures 2.0 * (1.0 - a / (a + d)) == 2.0 <==> a == 0.0
  {
    var s := a + d;
    assert a / s + d / s == s / s == 1.0;
    assert d / s > 0.0;
    assert a / s >= 0.0;
    if a > 0.0 {
      assert a / s > 0.0;
    }
  }

  lemma {:induction false} PValueOfFinite(m: MathLib, a: real, df: nat, d: real)
    requires a >= 0.0 && d > 0.0 && m.sqrt(df as real) == d
    ensures Mul(Finite(2.0), Sub(Finite(1.0), Div(Finite(a), Add(Finite(a), Sqrt(m, Finite(df as real))))))
         == Finite(2.0 * (1.0 - a / (a + d)))
  {
  }

  /**
   * For a finite statistic and `df > 0` the p-value lies in `(0, 2]`, and it is 2
   * exactly when the statistic is 0.
   */
  lemma {:induction false} PValueRange(m: MathLib, t: real, df: nat)
    requires Lawful(m) && df > 0
    ensures PValue(m, Finite(t), df).Finite?
    ensures 0.0 < PValue(m, Finite(t), df).v <= 2.0
    ensures PValue(m, Finite(t), df).v == 2.0 <==> t == 0.0
  {
    SqrtPositive(m, df as real);
    var a := if t < 0.0 then -t else t;
    assert Abs(Finite(t)) == Finite(a);
    PValueOfFinite(m, a, df, m.sqrt(df as real));
    PValueAlgebra(a, m.sqrt(df as real));
  }

  /** The `'t-test'` branch of the handler on a non-empty sample, field by field. */
  lemma {:induction false} TTestResult(
    m: MathLib, sampleData: seq<real>, populationMean: real, significanceLevel: real)
    requires |sampleData| > 0
    ensures var stats := CalculateBasicStats(m, sampleData);
      var t := TStatistic(m, stats, populationMean);
      var cv := GetCriticalValue(significanceLevel, |sampleData| - 1);
      PerformHypothesisTest(m, TTest, Some(sampleData), populationMean, significanceLevel)
        == Success(HypothesisResult(Some(t), Some(PValue(m, t, |sampleData| - 1)), Some(cv), Some(Rejects(t, cv)),
             Interpret(Some(Rejects(t, cv)), significanceLevel, populationMean), stats.mean, |sampleData|, stats.stdDev))
  {
  }

  /** A sample of at least two values that are not all equal has a positive standard deviation. */
  lemma {:induction false} SpreadStdDev(m: MathLib, sampleData: seq<real>)
    requires Lawful(m) && |sampleData| >= 2 && !Constant(sampleData)
    ensures var stats := CalculateBasicStats(m, sampleData);
      stats.mean.Finite? && stats.stdDev.Finite? && stats.stdDev.v > 0.0
  {
    var stats := CalculateBasicStats(m, sampleData);
    VarianceProperties(m, sampleData);
    SqrtPositive(m, stats.variance.v);
  }

  /** With a positive standard deviation the statistic is the finite quotient. */
  lemma {:induction false} FiniteTStatistic(m: MathLib, stats: BasicStats, populationMean: real)
    requires Lawful(m) && stats.n > 0 && stats.mean.Finite? && stats.stdDev.Finite? && stats.stdDev.v > 0.0
    ensures TStatistic(m, stats, populationMean)
         == Finite((stats.mean.v - populationMean) / (stats.stdDev.v / m.sqrt(stats.n as real)))
  {
    SqrtPositive(m, stats.n as real);
    assert stats.stdDev.v / m.sqrt(stats.n as real) > 0.0;
  }

  /** On a non-empty sample the critical value comes from the table and a finite statistic is compared by magnitude. */
  lemma {:induction false} TTestDecision(
    m: MathLib, sampleData: seq<real>, populationMean: real, significanceLevel: real)
    requires |sampleData| > 0
    ensures var r := PerformHypothesisTest(m, TTest, Some(sampleData), populationMean, significanceLevel);
      var cv := GetCriticalValue(significanceLevel, |sampleData| - 1);
      && r.Success? && r.value.testStatistic.Some?
      && r.value.criticalValue == Some(cv)
      && (r.value.testStatistic.value.Finite? ==> r.value.rejectNull == Some(Abs(r.value.testStatistic.value).v > cv))
  {
    TTestResult(m, sampleData, populationMean, significanceLevel);
  }

  /** On a spread sample the statistic is the finite quotient `(mean − μ0) / (s / √n)`. */
  lemma {:induction false} TTestStatistic(
    m: MathLib, sampleData: seq<real>, populationMean: real, significanceLevel: real)
    requires Lawful(m) && |sampleData| >= 2 && !Constant(sampleData)
    ensures var r := PerformHypothesisTest(m, TTest, Some(sampleData), populationMean, significanceLevel);
      var stats := CalculateBasicStats(m, sampleData);
      && r.Success?
      && stats.stdDev.Finite? && stats.stdDev.v > 0.0
      && r.value.testStatistic
         == Some(Finite((stats.mean.v - populationMean) / (stats.stdDev.v / m.sqrt(|sampleData| as real))))
  {
    var stats := CalculateBasicStats(m, sampleData);
    SpreadStdDev(m, sampleData);
    FiniteTStatistic(m, stats, populationMean);
    TTestResult(m, sampleData, populationMean, significanceLevel);
  }

  /** On a spread sample the statistic is finite and the p-value is computed from it. */
  lemma {:induction false} FiniteStatisticOnSpread(
    m: MathLib, sampleData: seq<real>, populationMean: real, significanceLevel: real)
    requires Lawful(m) && |sampleData| >= 2 && !Constant(sampleData)
    ensures var r := PerformHypothesisTest(m, TTest, Some(sampleData), populationMean, significanceLevel);
      && r.Success? && r.value.testStatistic.Some? && r.value.testStatistic.value.Finite?
      && r.value.pValue == Some(PValue(m, r.value.testStatistic.value, |sampleData| - 1))
  {
    TTestStatistic(m, sampleData, populationMean, significanceLevel);
    TTestResult(m, sampleData, populationMean, significanceLevel);
  }

  /**
   * For a sample of at least two values that are not all equal, the t-test statistic is
   * the finite `(mean − μ0) / (s / √n)`, the decision is `|t| > criticalValue` and the
   * p-value is the approximation of that finite statistic, which `PValueRange` places
   * in `(0, 2]`.
   */
  lemma {:induction false} TTestOnSpreadSample(
    m: MathLib, sampleData: seq<real>, populationMean: real, significanceLevel: real)
    requires Lawful(m) && |sampleData| >= 2 && !Constant(sampleData)
    ensures var r := PerformHypothesisTest(m, TTest, Some(sampleData), populationMean, significanceLevel);
      var n := |sampleData|;
      var stats := CalculateBasicStats(m, sampleData);
      && r.Success?
      && stats.stdDev.Finite? && stats.stdDev.v > 0.0
      && r.value.testStatistic
         == Some(Finite((stats.mean.v - populationMean) / (stats.stdDev.v / m.sqrt(n as real))))
      && r.value.criticalValue == Some(GetCriticalValue(significanceLevel, n - 1))
      && r.value.rejectNull
         == Some(Abs(r.value.testStatistic.value).v > GetCriticalValue(significanceLevel, n - 1))
      && r.value.pValue == Some(PValue(m, r.value.testStatistic.value, n - 1))
  {
    TTestStatistic(m, sampleData, populationMean, significanceLevel);
    FiniteStatisticOnSpread(m, sampleData, populationMean, significanceLevel);
    TTestDecision(m, sampleData, populationMean, significanceLevel);
  }

  /**
   * A sample of at least two equal values `c` has standard deviation 0, so the statistic
   * divides `c − μ0` by zero: NaN when `c == μ0` (the null hypothesis is kept),
   * otherwise an infinity with the sign of `c − μ0` (and the null hypothesis is rejected).
   */
  lemma {:induction false} ConstantSample(
    m: MathLib, sampleData: seq<real>, populationMean: real, significanceLevel: real)
    requires Lawful(m) && |sampleData| >= 2 && Constant(sampleData)
    ensures var r := PerformHypothesisTest(m, TTest, Some(sampleData), populationMean, significanceLevel);
      var c := sampleData[0];
      && r.Success?
      && r.value.sampleMean == Finite(c) && r.value.sampleStdDev == Finite(0.0)
      && r.value.testStatistic
         == Some(if c == populationMean then NaN else if c > populationMean then PosInf else NegInf)
      && r.value.rejectNull == Some(c != populationMean)
  {
    var stats := CalculateBasicStats(m, sampleData);
    ConstantStats(m, sampleData);
    ZeroSpreadStatistic(m, stats, sampleData[0], populationMean, GetCriticalValue(significanceLevel, |sampleData| - 1));
    TTestResult(m, sampleData, populationMean, significanceLevel);
  }

  lemma {:induction false} ConstantStats(m: MathLib, sampleData: seq<real>)
    requires Lawful(m) && |sampleData| >= 2 && Constant(sampleData)
    ensures var stats := CalculateBasicStats(m, sampleData);
      stats.mean == Finite(sampleData[0]) && stats.stdDev == Finite(0.0)
  {
    var c := sampleData[0];
    assert AllEqual(sampleData, c);
    SumOfConstant(sampleData, c);
    VarianceProperties(m, sampleData);
    var n := |sampleData| as real;
    assert Sum(sampleData) / n == c;
    SqrtZero(m);
  }

  lemma {:induction false} ZeroSpreadStatistic(m: MathLib, stats: BasicStats, c: real, populationMean: real, cv: real)
    requires Lawful(m) && stats.n > 0 && stats.mean == Finite(c) && stats.stdDev == Finite(0.0)
    ensures TStatistic(m, stats, populationMean)
         == (if c == populationMean then NaN else if c > populationMean then PosInf else NegInf)
    ensures Rejects(TStatistic(m, stats, populationMean), cv) == (c != populationMean)
  {
    SqrtPositive(m, stats.n as real);
  }

  /**
   * A sample of ten values has `df = 9`, in the lowest bracket of the table, so at
   * level 0.05 the critical value is 2.776.
   */
  lemma {:induction false} TenSamplesAtFivePercent(m: MathLib, sampleData: seq<real>, populationMean: real)
    requires |sampleData| == 10
    ensures var r := PerformHypothesisTest(m, TTest, Some(sampleData), populationMean, 0.05);
      r.Success? && r.value.criticalValue == Some(2.776)
  {
  }

  /** The ten-value sample used as the worked example of the t-test. */
  const ExampleSample: seq<real> := [85.0, 92.0, 78.0, 96.0, 83.0, 89.0, 94.0, 87.0, 91.0, 88.0]

  lemma {:induction false} PrefixStep(xs: seq<real>, k: nat, c: real)
    requires k < |xs|
    ensures Sum(xs[..k + 1]) == Sum(xs[..k]) + xs[k]
    ensures SumSquaredDeviations(xs[..k + 1], c) == SumSquaredDeviations(xs[..k], c) + Square(xs[k] - c)
  {
    assert xs[..k + 1][..k] == xs[..k];
  }

  lemma {:induction false} ExampleSums()
    ensures Sum(ExampleSample) == 883.0
    ensures SumSquaredDeviations(ExampleSample, 88.3) == 260.1
  {
    var data := ExampleSample;
    var k := 0;
    while k < 10
      invariant k <= 10
      invariant Sum(data[..k]) == [0.0, 85.0, 177.0, 255.0, 351.0, 434.0, 523.0, 617.0, 704.0, 795.0, 883.0][k]
      invariant SumSquaredDeviations(data[..k], 88.3)
        == [0.0, 10.89, 24.58, 130.67, 189.96, 218.05, 218.54, 251.03, 252.72, 260.01, 260.1][k]
    {
      PrefixStep(data, k, 88.3);
      k := k + 1;
    }
    assert data[..10] == data;
  }

  lemma {:induction false} RootRatio(a: real, b: real)
    requires a > 0.0 && b > 0.0 && a * a == 28.9 && b * b == 10.0
    ensures a / b == 1.7
  {
    var q := a / b;
    assert a == q * b;
    assert a * a == (q * q) * (b * b);
    assert q * q == 2.89;
    assert q > 0.0;
    if q > 1.7 {
      assert false;
    } else if q < 1.7 {
      assert false;
    }
  }

  /**
   * The worked example: the sample above against `μ0 = 85` at level 0.05 has mean 88.3,
   * size 10 and `df = 9`, so the critical value is 2.776; the statistic is
   * `3.3 / 1.7 ≈ 1.94`, and the null hypothesis is not rejected.
   */
  lemma {:induction false} ExampleTTest(m: MathLib)
    requires Lawful(m)
    ensures var r := PerformHypothesisTest(m, TTest, Some(ExampleSample), 85.0, 0.05);
      && r.Success?
      && r.value.sampleMean == Finite(88.3) && r.value.sampleSize == 10
      && r.value.criticalValue == Some(2.776)
      && r.value.testStatistic == Some(Finite(3.3 / 1.7))
      && r.value.rejectNull == Some(false)
      && r.value.interpretation == FailToReject(0.05, 85.0)
  {
    ExampleSums();
    var stats := CalculateBasicStats(m, ExampleSample);
    assert stats.mean == Finite(88.3);
    assert stats.variance == Finite(28.9);
    SqrtPositive(m, 28.9);
    SqrtPositive(m, 10.0);
    RootRatio(m.sqrt(28.9), m.sqrt(10.0));
    assert TStatistic(m, stats, 85.0) == Finite(3.3 / 1.7);
  }
}
