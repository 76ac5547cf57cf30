/**
 * The database seed script (`server/scripts/initDatabase.js`): the loop that
 * builds the two seeded normal curves, and the seeded regression analysis whose
 * predictions it derives from a stored line `y = 2.02x + 0.15`.
 *
 * The seed stores literal results beside its inputs; the lemmas here compare them
 * with what the handlers compute on the same inputs.
 */
module Seed {
  import opened Wrappers
  import opened JsMath
  import opened Sums
  import opened Statistics
  import DC = DistributionController
  import HC = HypothesisController
  import RC = RegressionController

  /**
   * `generateNormalDistribution(mean, stdDev)`: 200 points from `mean − 4σ` to
   * `mean + 4σ`, each with the normal density; the same grid the normal endpoint
   * answers with.
   */
  method GenerateNormalDistribution(m: MathLib, mean: real, stdDev: real) returns (points: seq<DC.DataPoint>)
    requires Lawful(m) && stdDev > 0.0
    ensures points == DC.NormalPoints(m, mean, stdDev)
  {
    var numPoints := 200;
    var rangeMultiplier := 4.0;
    var minX := mean - rangeMultiplier * stdDev;
    var maxX := mean + rangeMultiplier * stdDev;
    var step := (maxX - minX) / (numPoints - 1) as real;
    assert minX == DC.NormalMinX(mean, stdDev) && step == DC.NormalStep(mean, stdDev);
    points := [];
    var i := 0;
    while i < numPoints
      invariant 0 <= i <= numPoints
      invariant |points| == i
      invariant forall j :: 0 <= j < i ==> points[j] == DC.NormalPoint(m, mean, stdDev, j)
    {
      var x := minX + i as real * step;
      var y := NormalPdf(m, x, mean, stdDev);
      assert x == DC.NormalPoint(m, mean, stdDev, i).x;
      assert DC.DataPoint(x, y) == DC.NormalPoint(m, mean, stdDev, i);
      points := points + [DC.DataPoint(x, y)];
      i := i + 1;
    }
  }

  /**
   * The two seeded curves, `generateNormalDistribution(0, 1)` and
   * `generateNormalDistribution(100, 15)`, span −4 to 4 and 40 to 160, and are
   * mirror images about their means.
   */
  lemma {:induction false} SeededNormalCurves(m: MathLib)
    requires Lawful(m)
    ensures var standard := DC.NormalPoints(m, 0.0, 1.0);
      && |standard| == 200 && standard[0].x == -4.0 && standard[199].x == 4.0
      && forall i :: 0 <= i < 200 ==> standard[i].y == standard[199 - i].y
    ensures var scores := DC.NormalPoints(m, 100.0, 15.0);
      && |scores| == 200 && scores[0].x == 40.0 && scores[199].x == 160.0
      && forall i :: 0 <= i < 200 ==> scores[i].y == scores[199 - i].y
  {
    DC.NormalGrid(m, 0.0, 1.0);
    DC.NormalGrid(m, 100.0, 15.0);
    forall i | 0 <= i < 200
      ensures DC.NormalPoints(m, 0.0, 1.0)[i].y == DC.NormalPoints(m, 0.0, 1.0)[199 - i].y
      ensures DC.NormalPoints(m, 100.0, 15.0)[i].y == DC.NormalPoints(m, 100.0, 15.0)[199 - i].y
    {
      DC.NormalGridSymmetric(m, 0.0, 1.0, i);
      DC.NormalGridSymmetric(m, 100.0, 15.0, i);
    }
  }

  // ----------------------------------------------------------- the seeded regression

  const SeedX: seq<real> := [1.0, 2.0, 3.0, 4.0, 5.0, 6.0, 7.0, 8.0, 9.0, 10.0]
  const SeedY: seq<real> := [2.1, 3.9, 6.2, 7.8, 10.1, 12.3, 13.8, 16.2, 18.1, 20.0]

  /** The stored line of the seeded analysis: `slope: 2.02, intercept: 0.15`. */
  const SeedSlope := 2.02
  const SeedIntercept := 0.15

  /**
   * `xData.map((x, i) => ({ x, yPredicted: 2.02 * x + 0.15, residual: yData[i] − (2.02 * x + 0.15) }))`.
   */
  function SeedPredictions(xs: seq<real>, ys: seq<real>): (ps: seq<RC.Prediction>)
    requires |xs| == |ys|
    ensures |ps| == |xs|
    ensures forall i :: 0 <= i < |xs| ==> ps[i].x == xs[i] && ps[i].residual.Finite?
  {
    seq(|xs|, i requires 0 <= i < |xs| =>
      RC.Prediction(xs[i], Finite(SeedSlope * xs[i] + SeedIntercept),
        Finite(ys[i] - (SeedSlope * xs[i] + SeedIntercept))))
  }

  /** The stored results of the seeded analysis, with the fields the predictions read. */
  function SeedResults(): (r: RegressionStats)
    ensures r.slope == Finite(SeedSlope) && r.intercept == Finite(SeedIntercept) && r.n == 10
  {
    RegressionStats(Finite(SeedSlope), Finite(SeedIntercept), Finite(0.995), Finite(0.998), 10,
      Equation(Finite(SeedSlope), Finite(SeedIntercept)))
  }

  /**
   * The seed derives its predictions by the regression handler's own rule,
   * applied to the stored results instead of a fitted line.
   */
  lemma {:induction false} SeedPredictionsFollowHandler(xs: seq<real>, ys: seq<real>)
    requires |xs| == |ys|
    ensures SeedPredictions(xs, ys) == RC.Predictions(SeedResults(), xs, ys)
  {
    RC.PredictionsOfFiniteFit(SeedResults(), xs, ys);
  }

  /** The four sums of the seeded data that the regression reads. */
  lemma {:induction false} SeedSums()
    ensures Sum(SeedX) == 55.0 && SumSquares(SeedX) == 385.0
    ensures Sum(SeedY) == 110.5 && SumProducts(SeedX, SeedY) == 773.1
  {
    SeedXSum();
    SeedXSquares();
    SeedYSum();
    SeedProducts();
  }

  lemma {:induction false} SeedXSum()
    ensures Sum(SeedX) == 55.0
  {
    var k := 0;
    while k < 10
      invariant k <= 10
      invariant Sum(SeedX[..k]) == [0.0, 1.0, 3.0, 6.0, 10.0, 15.0, 21.0, 28.0, 36.0, 45.0, 55.0][k]
    {
      PrefixSums(SeedX, SeedY, k);
      k := k + 1;
    }
    assert SeedX[..10] == SeedX;
  }

  lemma {:induction false} SeedXSquares()
    ensures SumSquares(SeedX) == 385.0
  {
    var k := 0;
    while k < 10
      invariant k <= 10
      invariant SumSquares(SeedX[..k]) == [0.0, 1.0, 5.0, 14.0, 30.0, 55.0, 91.0, 140.0, 204.0, 285.0, 385.0][k]
    {
      PrefixSums(SeedX, SeedY, k);
      k := k + 1;
    }
    assert SeedX[..10] == SeedX;
  }

  lemma {:induction false} SeedYSum()
    ensures Sum(SeedY) == 110.5
  {
    var k := 0;
    while k < 10
      invariant k <= 10
      invariant Sum(SeedY[..k]) == [0.0, 2.1, 6.0, 12.2, 20.0, 30.1, 42.4, 56.2, 72.4, 90.5, 110.5][k]
    {
      PrefixSums(SeedX, SeedY, k);
      k := k + 1;
    }
    assert SeedY[..10] == SeedY;
  }

  lemma {:induction false} SeedProducts()
    ensures SumProducts(SeedX, SeedY) == 773.1
  {
    var k := 0;
    while k < 10
      invariant k <= 10
      invariant SumProducts(SeedX[..k], SeedY[..k])
        == [0.0, 2.1, 9.9, 28.5, 59.7, 110.2, 184.0, 280.6, 410.2, 573.1, 773.1][k]
    {
      PrefixSums(SeedX, SeedY, k);
      k := k + 1;
    }
    assert SeedX[..10] == SeedX && SeedY[..10] == SeedY;
  }

  lemma {:induction false} PrefixSums(xs: seq<real>, ys: seq<real>, k: nat)
    requires |xs| == |ys| && k < |xs|
    ensures Sum(xs[..k + 1]) == Sum(xs[..k]) + xs[k]
    ensures SumSquares(xs[..k + 1]) == SumSquares(xs[..k]) + xs[k] * xs[k]
    ensures Sum(ys[..k + 1]) == Sum(ys[..k]) + ys[k]
    ensures SumProducts(xs[..k + 1], ys[..k + 1]) == SumProducts(xs[..k], ys[..k]) + xs[k] * ys[k]
  {
    assert xs[..k + 1][..k] == xs[..k];
    assert ys[..k + 1][..k] == ys[..k];
  }

  /**
   * On the seeded data the regression handler fits slope `1653.5 / 825 ≈ 2.0042`
   * and intercept `22 / 825 ≈ 0.0267`, not the stored `2.02` and `0.15`.
   */
  lemma {:induction false} SeededFitDiffers(m: MathLib)
    ensures var fit := CalculateLinearRegression(m, SeedX, SeedY);
      && fit.slope == Finite(1653.5 / 825.0) && fit.intercept == Finite(22.0 / 825.0)
      && fit.slope != SeedResults().slope && fit.intercept != SeedResults().intercept
  {
    RegressionParts(m, SeedX, SeedY);
    SeedLine();
  }

  lemma {:induction false} SeedLine()
    ensures LeastSquaresSlope(SeedX, SeedY) == Finite(1653.5 / 825.0)
    ensures LeastSquaresIntercept(SeedX, SeedY, Finite(1653.5 / 825.0)) == Finite(22.0 / 825.0)
  {
    SeedSums();
    assert SlopeNumerator(SeedX, SeedY) == 1653.5;
    assert SlopeDenominator(SeedX) == 825.0;
    assert MeanOf(SeedX) == Finite(5.5);
    assert MeanOf(SeedY) == Finite(11.05);
  }

  /**
   * The residuals the seed stores add up to −2.1, while those of the handler's own
   * fit on the same data cancel.
   */
  lemma {:induction false} SeededResidualsDoNotCancel(m: MathLib)
    ensures Sum(RC.ResidualValues(SeedPredictions(SeedX, SeedY))) == -2.1
    ensures var fit := CalculateLinearRegression(m, SeedX, SeedY);
      var ps := RC.Predictions(fit, SeedX, SeedY);
      && (forall i :: 0 <= i < |ps| ==> ps[i].residual.Finite?)
      && Sum(RC.ResidualValues(ps)) == 0.0
  {
    SeedSums();
    var ps := SeedPredictions(SeedX, SeedY);
    SumOfResidualValues(SeedX, SeedY, SeedSlope, SeedIntercept, RC.ResidualValues(ps));
    SumResidualsExpand(SeedX, SeedY, SeedSlope, SeedIntercept);
    assert 1.0 != 2.0;
    RC.PredictionsOnFittedLine(m, SeedX, SeedY);
  }

  // ----------------------------------------------------------- the seeded hypothesis test

  /**
   * The seeded t-test stores `testStatistic: 2.15`, `criticalValue: 2.262` and
   * `sampleStdDev: 4.97` for the scores `85, 92, …, 88` against 85 at 5%; the
   * handler computes `3.3 / 1.7 ≈ 1.94`, `2.776` and `√28.9 ≈ 5.38` on the same
   * input, and reaches the same verdict: the null hypothesis stands.
   */
  lemma {:induction false} SeededTestDiffers(m: MathLib)
    requires Lawful(m)
    ensures var r := HC.PerformHypothesisTest(m, HC.TTest, Some(HC.ExampleSample), 85.0, 0.05);
      && r.Success?
      && r.value.testStatistic != Some(Finite(2.15))
      && r.value.criticalValue != Some(2.262)
      && r.value.sampleStdDev != Finite(4.97)
      && r.value.rejectNull == Some(false)
  {
    HC.ExampleTTest(m);
    HC.ExampleSums();
    var stats := CalculateBasicStats(m, HC.ExampleSample);
    assert stats.variance == Finite(28.9);
    var s := m.sqrt(28.9);
    assert s * s == 28.9;
    if s == 4.97 {
      assert false;
    }
  }
}
