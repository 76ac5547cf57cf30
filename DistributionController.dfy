/**
 * The distribution endpoints (`server/controllers/distributionController.js`):
 * each validates its query parameters and builds the array of `{ x, y }` points
 * a chart draws, by pushing one point per turn of a counted loop.
 *
 * Query parameters arrive already parsed: `None` stands for a parameter that
 * `parseFloat`/`parseInt` turns into NaN. The `toFixed` rounding of each point
 * and the optional database save are not modelled.
 */
module DistributionController {
  import opened Wrappers
  import opened JsMath
  import opened Sums
  import opened Statistics
  import Combinatorics

  /** One plotted point `{ x, y }`. */
  datatype DataPoint = DataPoint(x: real, y: real)

  const NormalError := "Invalid parameters: mean must be a number, stdDev must be a positive number."
  const BinomialError := "Invalid parameters: n must be positive integer, p must be between 0 and 1."
  const LambdaError := "Invalid parameters: lambda must be a positive number."

  /** `numPoints` of the normal and exponential grids. */
  const NumPoints: nat := 200
  /** `rangeMultiplier`: the normal grid spans this many standard deviations each side. */
  const RangeMultiplier: real := 4.0

  /** The x coordinates of a point array. */
  function Xs(points: seq<DataPoint>): (xs: seq<real>)
    ensures |xs| == |points| && forall i :: 0 <= i < |points| ==> xs[i] == points[i].x
  {
    seq(|points|, i requires 0 <= i < |points| => points[i].x)
  }

  /** The y coordinates of a point array. */
  function Ys(points: seq<DataPoint>): (ys: seq<real>)
    ensures |ys| == |points| && forall i :: 0 <= i < |points| ==> ys[i] == points[i].y
  {
    seq(|points|, i requires 0 <= i < |points| => points[i].y)
  }

  /** The x values strictly increase along the array. */
  predicate StrictlyIncreasing(points: seq<DataPoint>)
  {
    forall i, j :: 0 <= i < j < |points| ==> points[i].x < points[j].x
  }

  /** Points whose successive x values differ by `step > 0` increase strictly. */
  lemma {:induction false} EvenlySpacedIncreasing(points: seq<DataPoint>, step: real)
    requires step > 0.0
    requires forall i :: 0 <= i < |points| - 1 ==> points[i + 1].x == points[i].x + step
    ensures StrictlyIncreasing(points)
  {
    forall i, j | 0 <= i < j < |points|
      ensures points[i].x < points[j].x
    {
      var k := i;
      while k < j
        invariant i <= k <= j
        invariant points[i].x <= points[k].x
        invariant k > i ==> points[i].x < points[k].x
      {
        k := k + 1;
      }
    }
  }

  // ---------------------------------------------------------------- normal

  /** The parameters `getNormalDistribution` accepts: both numbers, `stdDev > 0`. */
  predicate ValidNormal(mean: Option<real>, stdDev: Option<real>)
  {
    mean.Some? && stdDev.Some? && stdDev.value > 0.0
  }

  /** `minX = mean - rangeMultiplier * stdDev`. */
  function NormalMinX(mean: real, stdDev: real): real
  {
    mean - RangeMultiplier * stdDev
  }

  /** `maxX = mean + rangeMultiplier * stdDev`. */
  function NormalMaxX(mean: real, stdDev: real): real
  {
    mean + RangeMultiplier * stdDev
  }

  /** `step = (maxX - minX) / (numPoints - 1)`. */
  function NormalStep(mean: real, stdDev: real): real
  {
    (NormalMaxX(mean, stdDev) - NormalMinX(mean, stdDev)) / (NumPoints - 1) as real
  }

  /** The i-th point of the normal grid: `x = minX + i * step`, `y = normalPdf(x, mean, stdDev)`. */
  function NormalPoint(m: MathLib, mean: real, stdDev: real, i: nat): DataPoint
    requires Lawful(m) && stdDev > 0.0
  {
    var x := NormalMinX(mean, stdDev) + i as real * NormalStep(mean, stdDev);
    DataPoint(x, NormalPdf(m, x, mean, stdDev))
  }

  /** The whole normal grid, one point per `i` in `0 .. numPoints - 1`. */
  function NormalPoints(m: MathLib, mean: real, stdDev: real): seq<DataPoint>
    requires Lawful(m) && stdDev > 0.0
  {
    seq(NumPoints, i requires 0 <= i < NumPoints => NormalPoint(m, mean, stdDev, i))
  }

  /**
   * `getNormalDistribution`: rejects a missing mean or a missing or non-positive
   * standard deviation, otherwise pushes the 200 grid points.
   */
  method GetNormalDistribution(m: MathLib, mean: Option<real>, stdDev: Option<real>)
    returns (r: Result<seq<DataPoint>, string>)
    requires Lawful(m)
    ensures !ValidNormal(mean, stdDev) ==> r == Failure(NormalError)
    ensures ValidNormal(mean, stdDev) ==> r == Success(NormalPoints(m, mean.value, stdDev.value))
  {
    if mean.None? || stdDev.None? || stdDev.value <= 0.0 {
      return Failure(NormalError);
    }
    var mu, sigma := mean.value, stdDev.value;
    var minX := mu - RangeMultiplier * sigma;
    var maxX := mu + RangeMultiplier * sigma;
    var step := (maxX - minX) / (NumPoints - 1) as real;
    assert minX == NormalMinX(mu, sigma) && step == NormalStep(mu, sigma);
    var points: seq<DataPoint> := [];
    var i := 0;
    while i < NumPoints
      invariant 0 <= i <= NumPoints
      invariant |points| == i
      invariant forall j :: 0 <= j < i ==> points[j] == NormalPoint(m, mu, sigma, j)
    {
      var x := minX + i as real * step;
      var y := NormalPdf(m, x, mu, sigma);
      assert x == NormalPoint(m, mu, sigma, i).x;
      assert DataPoint(x, y) == NormalPoint(m, mu, sigma, i);
      points := points + [DataPoint(x, y)];
      i := i + 1;
    }
    assert points == NormalPoints(m, mu, sigma);
    return Success(points);
  }

  /**
   * The normal grid has 200 points running from `mean − 4σ` to `mean + 4σ` in equal
   * steps of `8σ/199`, so x strictly increases; every density is positive.
   */
  lemma {:induction false} NormalGrid(m: MathLib, mean: real, stdDev: real)
    requires Lawful(m) && stdDev > 0.0
    ensures var points := NormalPoints(m, mean, stdDev);
      && |points| == 200
      && points[0].x == mean - 4.0 * stdDev
      && points[199].x == mean + 4.0 * stdDev
      && (forall i :: 0 <= i < 199 ==> points[i + 1].x - points[i].x == 8.0 * stdDev / 199.0)
      && StrictlyIncreasing(points)
      && (forall i :: 0 <= i < 200 ==> points[i].y > 0.0)
  {
    var points := NormalPoints(m, mean, stdDev);
    var step := NormalStep(mean, stdDev);
    assert step == 8.0 * stdDev / 199.0;
    forall i | 0 <= i < 199
      ensures points[i + 1].x == points[i].x + step
    {
      StepForward(NormalMinX(mean, stdDev), i as real, step);
    }
    EvenlySpacedIncreasing(points, step);
  }

  lemma {:induction false} StepForward(start: real, i: real, step: real)
    ensures start + (i + 1.0) * step == (start + i * step) + step
  {
  }

  /**
   * The normal grid is symmetric about the mean: the i-th and the (199 − i)-th points
   * lie at equal distances either side of it and carry the same density.
   */
  lemma {:induction false} NormalGridSymmetric(m: MathLib, mean: real, stdDev: real, i: nat)
    requires Lawful(m) && stdDev > 0.0 && i < 200
    ensures var points := NormalPoints(m, mean, stdDev);
      && points[i].x - mean == mean - points[199 - i].x
      && points[i].y == points[199 - i].y
  {
    var points := NormalPoints(m, mean, stdDev);
    var step := NormalStep(mean, stdDev);
    MirrorStep(mean, stdDev, i as real, step);
    NormalPdfSymmetric(m, points[i].x - mean, mean, stdDev);
    assert mean + (points[i].x - mean) == points[i].x;
    assert mean - (points[i].x - mean) == points[199 - i].x;
  }

  lemma {:induction false} MirrorStep(mean: real, stdDev: real, i: real, step: real)
    requires step == (8.0 * stdDev) / 199.0
    ensures (mean - 4.0 * stdDev + i * step) - mean == mean - (mean - 4.0 * stdDev + (199.0 - i) * step)
  {
  }

  // -------------------------------------------------------------- binomial

  /** The parameters `getBinomialDistribution` accepts: `n > 0` and `0 ≤ p ≤ 1`. */
  predicate ValidBinomial(n: Option<int>, p: Option<real>)
  {
    n.Some? && p.Some? && n.value > 0 && 0.0 <= p.value <= 1.0
  }

  /** The binomial grid: `{ x: k, y: binomialPmf(k, n, p) }` for `k = 0 .. n`. */
  function BinomialPoints(n: nat, p: real): seq<DataPoint>
  {
    seq(n + 1, k requires 0 <= k <= n => DataPoint(k as real, BinomialPmf(k, n, p)))
  }

  /** `getBinomialDistribution`: rejects bad parameters, otherwise pushes one point per `k`. */
  method GetBinomialDistribution(n: Option<int>, p: Option<real>) returns (r: Result<seq<DataPoint>, string>)
    ensures !ValidBinomial(n, p) ==> r == Failure(BinomialError)
    ensures ValidBinomial(n, p) ==> r == Success(BinomialPoints(n.value, p.value))
  {
    if n.None? || p.None? || n.value <= 0 || p.value < 0.0 || p.value > 1.0 {
      return Failure(BinomialError);
    }
    var trials: nat, prob := n.value, p.value;
    var points: seq<DataPoint> := [];
    var k := 0;
    while k <= trials
      invariant 0 <= k <= trials + 1
      invariant |points| == k
      invariant forall j :: 0 <= j < k ==> points[j] == DataPoint(j as real, BinomialPmf(j, trials, prob))
    {
      var y := BinomialPmf(k, trials, prob);
      points := points + [DataPoint(k as real, y)];
      k := k + 1;
    }
    assert points == BinomialPoints(trials, prob);
    return Success(points);
  }

  /**
   * The binomial grid has `n + 1` points with `x = 0 .. n`; for `0 ≤ p ≤ 1` its masses
   * are non-negative and sum to 1.
   */
  lemma {:induction false} BinomialGrid(n: nat, p: real)
    requires 0.0 <= p <= 1.0
    ensures var points := BinomialPoints(n, p);
      && |points| == n + 1
      && (forall k :: 0 <= k <= n ==> points[k].x == k as real && points[k].y >= 0.0)
      && Sum(Ys(points)) == 1.0
  {
    var ys := Ys(BinomialPoints(n, p));
    SumAsSeries(ys, BinomialMasses(n, p));
    BinomialMassesSumToOne(n, p);
  }

  // --------------------------------------------------------------- Poisson

  /** The parameter the Poisson and exponential endpoints accept: a positive `lambda`. */
  predicate ValidLambda(lambda: Option<real>)
  {
    lambda.Some? && lambda.value > 0.0
  }

  /** `maxK = Math.max(20, Math.ceil(lambda + 5 * Math.sqrt(lambda)))`. */
  function MaxK(m: MathLib, lambda: real): (r: nat)
    ensures r >= 20 && r as real >= lambda + 5.0 * m.sqrt(lambda)
  {
    var bound := Ceil(lambda + 5.0 * m.sqrt(lambda));
    if bound > 20 then bound else 20
  }

  /** The early exit of the Poisson loop: a small mass past `lambda + 3√lambda`. */
  predicate StopsAt(m: MathLib, lambda: real, k: nat, y: real)
  {
    y < 0.001 && k as real > lambda + 3.0 * m.sqrt(lambda)
  }

  /** The points the Poisson loop pushes from `k` on, up to `maxK` or the early exit. */
  function PoissonFrom(m: MathLib, lambda: real, k: nat, maxK: nat): seq<DataPoint>
    decreases maxK + 1 - k
  {
    if k > maxK then []
    else
      var y := PoissonPmf(m, k, lambda);
      if StopsAt(m, lambda, k, y) then []
      else [DataPoint(k as real, y)] + PoissonFrom(m, lambda, k + 1, maxK)
  }

  /** The Poisson grid for rate `lambda`. */
  function PoissonPoints(m: MathLib, lambda: real): seq<DataPoint>
  {
    PoissonFrom(m, lambda, 0, MaxK(m, lambda))
  }

  lemma {:induction false} AppendAssociative<T>(a: seq<T>, b: seq<T>, c: seq<T>)
    ensures (a + b) + c == a + (b + c)
  {
  }

  /** `getPoissonDistribution`: rejects a non-positive rate, otherwise runs the loop with its early `break`. */
  method GetPoissonDistribution(m: MathLib, lambda: Option<real>) returns (r: Result<seq<DataPoint>, string>)
    ensures !ValidLambda(lambda) ==> r == Failure(LambdaError)
    ensures ValidLambda(lambda) ==> r == Success(PoissonPoints(m, lambda.value))
  {
    if lambda.None? || lambda.value <= 0.0 {
      return Failure(LambdaError);
    }
    var rate := lambda.value;
    var bound := Ceil(rate + 5.0 * m.sqrt(rate));
    var maxK: nat := if bound > 20 then bound else 20;
    var points: seq<DataPoint> := [];
    var k: nat := 0;
    while k <= maxK
      invariant k <= maxK + 1
      invariant points + PoissonFrom(m, rate, k, maxK) == PoissonPoints(m, rate)
    {
      var y := PoissonPmf(m, k, rate);
      if y < 0.001 && k as real > rate + 3.0 * m.sqrt(rate) {
        break;
      }
      var point := DataPoint(k as real, y);
      assert PoissonFrom(m, rate, k, maxK) == [point] + PoissonFrom(m, rate, k + 1, maxK);
      AppendAssociative(points, [point], PoissonFrom(m, rate, k + 1, maxK));
      points := points + [point];
      k := k + 1;
    }
    assert points == PoissonPoints(m, rate);
    return Success(points);
  }

  /**
   * What the loop from `k` pushes: consecutive x from `k`, each with its Poisson mass and
   * none meeting the exit test, at most `maxK + 1 − k` of them; when it stops short of
   * `maxK`, the next `k` met the exit test.
   */
  lemma {:induction false} PoissonFromShape(m: MathLib, lambda: real, k: nat, maxK: nat)
    requires k <= maxK + 1
    ensures var points := PoissonFrom(m, lambda, k, maxK);
      && |points| <= maxK + 1 - k
      && (forall i :: 0 <= i < |points| ==>
            points[i] == DataPoint((k + i) as real, PoissonPmf(m, k + i, lambda))
            && !StopsAt(m, lambda, k + i, points[i].y))
      && (k + |points| <= maxK ==> StopsAt(m, lambda, k + |points|, PoissonPmf(m, k + |points|, lambda)))
    decreases maxK + 1 - k
  {
    if k <= maxK && !StopsAt(m, lambda, k, PoissonPmf(m, k, lambda)) {
      PoissonFromShape(m, lambda, k + 1, maxK);
      var rest := PoissonFrom(m, lambda, k + 1, maxK);
      var points := PoissonFrom(m, lambda, k, maxK);
      assert points == [DataPoint(k as real, PoissonPmf(m, k, lambda))] + rest;
      forall i | 0 <= i < |points|
        ensures points[i] == DataPoint((k + i) as real, PoissonPmf(m, k + i, lambda))
        ensures !StopsAt(m, lambda, k + i, points[i].y)
      {
        if i > 0 {
          assert points[i] == rest[i - 1];
          assert k + 1 + (i - 1) == k + i;
        }
      }
    }
  }

  /**
   * The Poisson grid: x runs `0, 1, 2, …` with the Poisson masses, it has at most
   * `maxK + 1` points where `maxK ≥ 20`, no emitted point meets the exit test, and a
   * grid shorter than `maxK + 1` ends where the first `k` met it.
   */
  lemma {:induction false} PoissonGrid(m: MathLib, lambda: real)
    ensures var points := PoissonPoints(m, lambda);
      var maxK := MaxK(m, lambda);
      && maxK >= 20
      && |points| <= maxK + 1
      && (forall k :: 0 <= k < |points| ==>
            points[k].x == k as real && points[k].y == PoissonPmf(m, k, lambda)
            && !StopsAt(m, lambda, k, points[k].y))
      && (|points| < maxK + 1 ==> StopsAt(m, lambda, |points|, PoissonPmf(m, |points|, lambda)))
  {
    var points := PoissonPoints(m, lambda);
    PoissonFromShape(m, lambda, 0, MaxK(m, lambda));
    forall k | 0 <= k < |points|
      ensures points[k].x == k as real && points[k].y == PoissonPmf(m, k, lambda)
      ensures !StopsAt(m, lambda, k, points[k].y)
    {
      assert points[k] == DataPoint((0 + k) as real, PoissonPmf(m, 0 + k, lambda));
    }
  }

  /**
   * With a lawful `Math.sqrt` and `lambda > 0`, every `k` up to `lambda + 3√lambda` is
   * on the Poisson grid: the early exit never cuts into the bulk of the distribution.
   */
  lemma {:induction false} PoissonCoversBulk(m: MathLib, lambda: real, k: nat)
    requires Lawful(m) && lambda > 0.0
    requires k as real <= lambda + 3.0 * m.sqrt(lambda)
    ensures k < |PoissonPoints(m, lambda)|
  {
    var points := PoissonPoints(m, lambda);
    var maxK := MaxK(m, lambda);
    PoissonGrid(m, lambda);
    assert m.sqrt(lambda) >= 0.0;
  }

  // ----------------------------------------------------------- exponential

  /** `x = (i / (numPoints - 1)) * maxX` with `maxX = 5 / lambda`. */
  function ExponentialX(lambda: real, i: nat): real
    requires lambda > 0.0
  {
    (i as real / (NumPoints - 1) as real) * (5.0 / lambda)
  }

  /** The exponential grid: 200 points with `y = exponentialPdf(x, lambda)`. */
  function ExponentialPoints(m: MathLib, lambda: real): seq<DataPoint>
    requires lambda > 0.0
  {
    seq(NumPoints, i requires 0 <= i < NumPoints =>
      DataPoint(ExponentialX(lambda, i), ExponentialPdf(m, ExponentialX(lambda, i), lambda)))
  }

  /** `getExponentialDistribution`: rejects a non-positive rate, otherwise pushes the 200 points. */
  method GetExponentialDistribution(m: MathLib, lambda: Option<real>) returns (r: Result<seq<DataPoint>, string>)
    ensures !ValidLambda(lambda) ==> r == Failure(LambdaError)
    ensures ValidLambda(lambda) ==> r == Success(ExponentialPoints(m, lambda.value))
  {
    if lambda.None? || lambda.value <= 0.0 {
      return Failure(LambdaError);
    }
    var rate := lambda.value;
    var maxX := 5.0 / rate;
    var points: seq<DataPoint> := [];
    var i := 0;
    while i < NumPoints
      invariant 0 <= i <= NumPoints
      invariant |points| == i
      invariant forall j :: 0 <= j < i ==>
        points[j] == DataPoint(ExponentialX(rate, j), ExponentialPdf(m, ExponentialX(rate, j), rate))
    {
      var x := (i as real / (NumPoints - 1) as real) * maxX;
      var y := ExponentialPdf(m, x, rate);
      assert x == ExponentialX(rate, i);
      points := points + [DataPoint(x, y)];
      i := i + 1;
    }
    assert points == ExponentialPoints(m, rate);
    return Success(points);
  }

  /**
   * The exponential grid has 200 points from `x = 0` to `x = 5/lambda`, all x ≥ 0 and
   * strictly increasing; its first density is `lambda`, and with a lawful `Math.exp`
   * every density is positive.
   */
  lemma {:induction false} ExponentialGrid(m: MathLib, lambda: real)
    requires lambda > 0.0
    ensures var points := ExponentialPoints(m, lambda);
      && |points| == 200
      && points[0].x == 0.0
      && points[199].x == 5.0 / lambda
      && (forall i :: 0 <= i < 200 ==> points[i].x >= 0.0)
      && StrictlyIncreasing(points)
      && (Lawful(m) ==> points[0].y == lambda && forall i :: 0 <= i < 200 ==> points[i].y > 0.0)
  {
    var points := ExponentialPoints(m, lambda);
    var c := 5.0 / lambda;
    var step := c / 199.0;
    forall i | 0 <= i < 200
      ensures points[i].x >= 0.0
    {
      NonNegativeFraction(i as real, c);
    }
    forall i | 0 <= i < 199
      ensures points[i + 1].x == points[i].x + step
    {
      FractionStep(i as real, c);
    }
    EvenlySpacedIncreasing(points, step);
    if Lawful(m) {
      forall i | 0 <= i < 200
        ensures points[i].y > 0.0
      {
        ExponentialPdfProperties(m, points[i].x, lambda);
      }
      ExponentialPdfProperties(m, 0.0, lambda);
    }
  }

  lemma {:induction false} NonNegativeFraction(i: real, c: real)
    requires i >= 0.0 && c > 0.0
    ensures (i / 199.0) * c >= 0.0
  {
  }

  lemma {:induction false} FractionStep(i: real, c: real)
    ensures ((i + 1.0) / 199.0) * c == (i / 199.0) * c + c / 199.0
  {
  }
}
