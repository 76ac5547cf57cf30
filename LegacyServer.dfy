/**
 * The endpoints of the older single-file server (`server/src/index.js`): the
 * four distribution loops over its inline mass functions, and the hypothesis-test
 * and regression handlers that compute their statistics in place. Its normal and
 * exponential densities are the same expressions as the shared ones and are used
 * from `Statistics` directly.
 *
 * Each endpoint is related to the modular one: the loops produce the same grids,
 * and the two handlers agree except in the fields their responses carry.
 */
module LegacyServer {
  import opened Wrappers
  import opened JsMath
  import opened Sums
  import opened Statistics
  import Combinatorics
  import opened LegacyStatistics
  import DC = DistributionController
  import HC = HypothesisController
  import RC = RegressionController

  // --------------------------------------------------------- distributions

  /** `GET /normal-distribution`: the same validation and the same 200-point grid. */
  method NormalDistribution(m: MathLib, mean: Option<real>, stdDev: Option<real>)
    returns (r: Result<seq<DC.DataPoint>, string>)
    requires Lawful(m)
    ensures !DC.ValidNormal(mean, stdDev) ==> r == Failure(DC.NormalError)
    ensures DC.ValidNormal(mean, stdDev) ==> r == Success(DC.NormalPoints(m, mean.value, stdDev.value))
  {
    if mean.None? || stdDev.None? || stdDev.value <= 0.0 {
      return Failure(DC.NormalError);
    }
    var mu, sigma := mean.value, stdDev.value;
    var numPoints := 200;
    var rangeMultiplier := 4.0;
    var minX := mu - rangeMultiplier * sigma;
    var maxX := mu + rangeMultiplier * sigma;
    var step := (maxX - minX) / (numPoints - 1) as real;
    assert minX == DC.NormalMinX(mu, sigma) && step == DC.NormalStep(mu, sigma);
    var points: seq<DC.DataPoint> := [];
    var i := 0;
    while i < numPoints
      invariant 0 <= i <= numPoints
      invariant |points| == i
      invariant forall j :: 0 <= j < i ==> points[j] == DC.NormalPoint(m, mu, sigma, j)
    {
      var x := minX + i as real * step;
      var y := NormalPdf(m, x, mu, sigma);
      assert x == DC.NormalPoint(m, mu, sigma, i).x;
      assert DC.DataPoint(x, y) == DC.NormalPoint(m, mu, sigma, i);
      points := points + [DC.DataPoint(x, y)];
      i := i + 1;
    }
    assert points == DC.NormalPoints(m, mu, sigma);
    return Success(points);
  }

  /** `GET /binomial-distribution`: the inline mass over `k = 0 .. n` gives the shared grid. */
  method BinomialDistribution(n: Option<int>, p: Option<real>) returns (r: Result<seq<DC.DataPoint>, string>)
    ensures !DC.ValidBinomial(n, p) ==> r == Failure(DC.BinomialError)
    ensures DC.ValidBinomial(n, p) ==> r == Success(DC.BinomialPoints(n.value, p.value))
  {
    if n.None? || p.None? || n.value <= 0 || p.value < 0.0 || p.value > 1.0 {
      return Failure(DC.BinomialError);
    }
    var trials: nat, prob := n.value, p.value;
    var points: seq<DC.DataPoint> := [];
    var k := 0;
    while k <= trials
      invariant 0 <= k <= trials + 1
      invariant |points| == k
      invariant forall j :: 0 <= j < k ==> points[j] == DC.DataPoint(j as real, BinomialPmf(j, trials, prob))
    {
      var y := InlineBinomialPmf(k, trials, prob);
      InlineBinomialAgrees(k, trials, prob);
      assert y == BinomialPmf(k, trials, prob);
      points := points + [DC.DataPoint(k as real, y)];
      k := k + 1;
    }
    assert points == DC.BinomialPoints(trials, prob);
    return Success(points);
  }

  /** `GET /poisson-distribution`: the same `maxK` bound and early `break`, with the inline mass. */
  method PoissonDistribution(m: MathLib, lambda: Option<real>) returns (r: Result<seq<DC.DataPoint>, string>)
    ensures !DC.ValidLambda(lambda) ==> r == Failure(DC.LambdaError)
    ensures DC.ValidLambda(lambda) ==> r == Success(DC.PoissonPoints(m, lambda.value))
  {
    if lambda.None? || lambda.value <= 0.0 {
      return Failure(DC.LambdaError);
    }
    var rate := lambda.value;
    var bound := Ceil(rate + 5.0 * m.sqrt(rate));
    var maxK: nat := if bound > 20 then bound else 20;
    var points: seq<DC.DataPoint> := [];
    var k: nat := 0;
    while k <= maxK
      invariant k <= maxK + 1
      invariant points + DC.PoissonFrom(m, rate, k, maxK) == DC.PoissonPoints(m, rate)
    {
      var y := InlinePoissonPmf(m, k, rate);
      InlinePoissonAgrees(m, k, rate);
      if y < 0.001 && k as real > rate + 3.0 * m.sqrt(rate) {
        break;
      }
      var point := DC.DataPoint(k as real, y);
      assert DC.PoissonFrom(m, rate, k, maxK) == [point] + DC.PoissonFrom(m, rate, k + 1, maxK);
      DC.AppendAssociative(points, [point], DC.PoissonFrom(m, rate, k + 1, maxK));
      points := points + [point];
      k := k + 1;
    }
    assert points == DC.PoissonPoints(m, rate);
    return Success(points);
  }

  /** `GET /exponential-distribution`: the same 200 points from 0 to `5/λ`. */
  method ExponentialDistribution(m: MathLib, lambda: Option<real>) returns (r: Result<seq<DC.DataPoint>, string>)
    ensures !DC.ValidLambda(lambda) ==> r == Failure(DC.LambdaError)
    ensures DC.ValidLambda(lambda) ==> r == Success(DC.ExponentialPoints(m, lambda.value))
  {
    if lambda.None? || lambda.value <= 0.0 {
      return Failure(DC.LambdaError);
    }
    var rate := lambda.value;
    var numPoints := 200;
    var maxX := 5.0 / rate;
    var points: seq<DC.DataPoint> := [];
    var i := 0;
    while i < numPoints
      invariant 0 <= i <= numPoints
      invariant |points| == i
      invariant forall j :: 0 <= j < i ==>
        points[j] == DC.DataPoint(DC.ExponentialX(rate, j), ExponentialPdf(m, DC.ExponentialX(rate, j), rate))
    {
      var x := (i as real / (numPoints - 1) as real) * maxX;
      var y := ExponentialPdf(m, x, rate);
      assert x == DC.ExponentialX(rate, i);
      points := points + [DC.DataPoint(x, y)];
      i := i + 1;
    }
    assert points == DC.ExponentialPoints(m, rate);
    return Success(points);
  }

  // ------------------------------------------------------- hypothesis test

  /** The legacy response: the modular one without `sampleStdDev`. */
  datatype LegacyHypothesisResult = LegacyHypothesisResult(
    testStatistic: Option<Number>,
    pValue: Option<Number>,
    criticalValue: Option<real>,
    rejectNull: Option<bool>,
    interpretation: HC.Interpretation,
    sampleMean: Number,
    sampleSize: nat)

  /** `POST /hypothesis-test` of the single-file server, with its statistics computed in place. */
  function HypothesisTest(
    m: MathLib, testType: string, sampleData: Option<seq<real>>, populationMean: real, significanceLevel: real)
    : (r: Result<LegacyHypothesisResult, string>)
    ensures var modular := HC.PerformHypothesisTest(m, testType, sampleData, populationMean, significanceLevel);
      && (r.Failure? <==> modular.Failure?)
      && (r.Failure? ==> r.error == modular.error)
      && (r.Success? ==> r.value == WithoutStdDev(modular.value))
  {
    if sampleData.None? || |sampleData.value| == 0 then Failure(HC.SampleError)
    else
      var data := sampleData.value;
      InlineCriticalValueAgrees(significanceLevel, |data| - 1);
      var n := |data|;
      var sampleMean := Div(Finite(Sum(data)), Finite(n as real));
      var sampleVariance := Div(Finite(SumSquaredDeviations(data, sampleMean.v)), Finite(n as real - 1.0));
      var sampleStdDev := Sqrt(m, sampleVariance);
      var (testStatistic, pValue, criticalValue, rejectNull) :=
        if testType == HC.TTest then
          var t := Div(Sub(sampleMean, Finite(populationMean)), Div(sampleStdDev, Finite(m.sqrt(n as real))));
          var df := n - 1;
          var cv := InlineCriticalValue(significanceLevel, df);
          var p := Mul(Finite(2.0), Sub(Finite(1.0), Div(Abs(t), Add(Abs(t), Sqrt(m, Finite(df as real))))));
          (Some(t), Some(p), Some(cv), Some(Greater(Abs(t), Finite(cv))))
        else (None, None, None, None);
      var interpretation :=
        if rejectNull == Some(true) then HC.Reject(significanceLevel, populationMean)
        else HC.FailToReject(significanceLevel, populationMean);
      Success(LegacyHypothesisResult(
        testStatistic, pValue, criticalValue, rejectNull, interpretation, sampleMean, n))
  }

  /** The modular result with its `sampleStdDev` field dropped. */
  function WithoutStdDev(r: HC.HypothesisResult): LegacyHypothesisResult
  {
    LegacyHypothesisResult(
      r.testStatistic, r.pValue, r.criticalValue, r.rejectNull, r.interpretation, r.sampleMean, r.sampleSize)
  }

  // ------------------------------------------------------------ regression

  /** `POST /regression` of the single-file server, with its sums computed in place. */
  function Regression(m: MathLib, xData: Option<seq<real>>, yData: Option<seq<real>>)
    : (r: Result<LegacyRegressionResponse, string>)
    ensures r.Failure? <==> !RC.ValidRegressionInput(xData, yData)
    ensures var modular := RC.PerformRegressionAnalysis(m, xData, yData);
      && (r.Failure? <==> modular.Failure?)
      && (r.Failure? ==> r.error == modular.error)
      && (r.Success? ==>
            var fit := modular.value.response;
            r.value == LegacyRegressionResponse(fit.slope, fit.intercept, fit.rSquared, fit.correlation, fit.n))
  {
    if xData.None? || yData.None? || |xData.value| != |yData.value| || |xData.value| < 2 then
      Failure(RC.RegressionError)
    else
      RC.AnalysisOutcome(m, xData.value, yData.value);
      Success(InlineRegression(m, xData.value, yData.value))
  }
}
