/**
 * The regression endpoint (`server/controllers/regressionController.js`): it
 * validates the two arrays, answers with the least-squares fit, and computes the
 * per-point predictions and residuals that it only stores with a saved analysis.
 */
module RegressionController {
  import opened Wrappers
  import opened JsMath
  import opened Sums
  import opened Statistics

  const RegressionError := "Invalid data: x and y must have same length and at least 2 points."

  /** One entry of `predictions`: `{ x, yPredicted, residual }`. */
  datatype Prediction = Prediction(x: real, yPredicted: Number, residual: Number)

  /** What the handler produces: the response body and the predictions it computes beside it. */
  datatype RegressionOutcome = RegressionOutcome(response: RegressionStats, predictions: seq<Prediction>)

  /** `results.slope * x + results.intercept`. */
  function PredictAt(results: RegressionStats, x: real): (r: Number)
    ensures results.slope.Finite? && results.intercept.Finite? ==>
      r == Finite(results.slope.v * x + results.intercept.v)
    ensures results.slope.NaN? || results.intercept.NaN? ==> r.NaN?
  {
    Add(Mul(results.slope, Finite(x)), results.intercept)
  }

  /** `xData.map((x, i) => ({ x, yPredicted, residual: yData[i] - yPredicted }))`. */
  function Predictions(results: RegressionStats, xs: seq<real>, ys: seq<real>): (ps: seq<Prediction>)
    requires |xs| == |ys|
    ensures |ps| == |xs|
    ensures forall i :: 0 <= i < |xs| ==> ps[i].x == xs[i]
  {
    seq(|xs|, i requires 0 <= i < |xs| =>
      Prediction(xs[i], PredictAt(results, xs[i]), Sub(Finite(ys[i]), PredictAt(results, xs[i]))))
  }

  /** The input `performRegressionAnalysis` accepts: both arrays present, equally long, at least two points. */
  predicate ValidRegressionInput(xData: Option<seq<real>>, yData: Option<seq<real>>)
  {
    xData.Some? && yData.Some? && |xData.value| == |yData.value| && |xData.value| >= 2
  }

  /**
   * `performRegressionAnalysis`: rejects exactly the missing, mismatched or too short
   * arrays; otherwise the response is the `calculateLinearRegression` result itself,
   * and the predictions run point by point over `xData`.
   */
  function PerformRegressionAnalysis(m: MathLib, xData: Option<seq<real>>, yData: Option<seq<real>>)
    : (r: Result<RegressionOutcome, string>)
    ensures r.Failure? <==> !ValidRegressionInput(xData, yData)
    ensures r.Failure? ==> r.error == RegressionError
    ensures r.Success? ==>
      && r.value.response == CalculateLinearRegression(m, xData.value, yData.value)
      && |r.value.predictions| == |xData.value|
      && (forall i :: 0 <= i < |xData.value| ==> r.value.predictions[i].x == xData.value[i])
  {
    if xData.None? || yData.None? || |xData.value| != |yData.value| || |xData.value| < 2 then
      Failure(RegressionError)
    else
      var results := CalculateLinearRegression(m, xData.value, yData.value);
      Success(RegressionOutcome(results, Predictions(results, xData.value, yData.value)))
  }

  /**
   * On x data that are not all equal every prediction is finite, lies on the fitted
   * line, and its residual is `y − yPredicted`; the residuals add up to zero.
   */
  lemma {:induction false} PredictionsOnFittedLine(m: MathLib, xs: seq<real>, ys: seq<real>)
    requires |xs| == |ys| >= 2 && !Constant(xs)
    ensures var fit := CalculateLinearRegression(m, xs, ys);
      var ps := Predictions(fit, xs, ys);
      && PerformRegressionAnalysis(m, Some(xs), Some(ys)) == Success(RegressionOutcome(fit, ps))
      && fit.slope.Finite? && fit.intercept.Finite?
      && (forall i :: 0 <= i < |ps| ==>
            && ps[i].yPredicted == Finite(fit.slope.v * xs[i] + fit.intercept.v)
            && ps[i].residual == Finite(ys[i] - ps[i].yPredicted.v))
      && Sum(ResidualValues(ps)) == 0.0
  {
    var fit := CalculateLinearRegression(m, xs, ys);
    AnalysisOutcome(m, xs, ys);
    FitResidualsCancel(m, xs, ys);
    PredictionsOfFiniteFit(fit, xs, ys);
  }

  lemma {:induction false} AnalysisOutcome(m: MathLib, xs: seq<real>, ys: seq<real>)
    requires |xs| == |ys| >= 2
    ensures var fit := CalculateLinearRegression(m, xs, ys);
      PerformRegressionAnalysis(m, Some(xs), Some(ys)) == Success(RegressionOutcome(fit, Predictions(fit, xs, ys)))
  {
  }

  lemma {:induction false} FitResidualsCancel(m: MathLib, xs: seq<real>, ys: seq<real>)
    requires |xs| == |ys| && !Constant(xs)
    ensures var fit := CalculateLinearRegression(m, xs, ys);
      && fit.slope.Finite? && fit.intercept.Finite?
      && SumResiduals(xs, ys, fit.slope.v, fit.intercept.v) == 0.0
  {
    RegressionParts(m, xs, ys);
    RegressionLineProperties(xs, ys);
  }

  /** The residual values of finite predictions, in order. */
  function ResidualValues(ps: seq<Prediction>): (rs: seq<real>)
    requires forall i :: 0 <= i < |ps| ==> ps[i].residual.Finite?
    ensures |rs| == |ps| && forall i :: 0 <= i < |ps| ==> rs[i] == ps[i].residual.v
  {
    seq(|ps|, i requires 0 <= i < |ps| => ps[i].residual.v)
  }

  /** One prediction of a finite fit: `a·x + b` and the residual `y − (a·x + b)`. */
  lemma {:induction false} PredictionOfFiniteFit(fit: RegressionStats, xs: seq<real>, ys: seq<real>, i: nat)
    requires |xs| == |ys| && fit.slope.Finite? && fit.intercept.Finite? && i < |xs|
    ensures var p := Predictions(fit, xs, ys)[i];
      var a, b := fit.slope.v, fit.intercept.v;
      && p.yPredicted == Finite(a * xs[i] + b)
      && p.residual == Finite(ys[i] - (a * xs[i] + b))
      && p.residual == Finite(Residual(xs[i], ys[i], a, b))
  {
    var ps := Predictions(fit, xs, ys);
    var a, b := fit.slope.v, fit.intercept.v;
    var y := a * xs[i] + b;
    assert ps[i] == Prediction(xs[i], PredictAt(fit, xs[i]), Sub(Finite(ys[i]), PredictAt(fit, xs[i])));
    assert PredictAt(fit, xs[i]) == Finite(y);
    assert Sub(Finite(ys[i]), Finite(y)) == Finite(ys[i] - y);
    assert Residual(xs[i], ys[i], a, b) == ys[i] - y;
  }

  /** For a finite fit, the predictions and residuals are the plain real ones. */
  lemma {:induction false} PredictionsOfFiniteFit(fit: RegressionStats, xs: seq<real>, ys: seq<real>)
    requires |xs| == |ys| && fit.slope.Finite? && fit.intercept.Finite?
    ensures var ps := Predictions(fit, xs, ys);
      && (forall i :: 0 <= i < |ps| ==>
            && ps[i].yPredicted == Finite(fit.slope.v * xs[i] + fit.intercept.v)
            && ps[i].residual == Finite(ys[i] - ps[i].yPredicted.v))
      && Sum(ResidualValues(ps)) == SumResiduals(xs, ys, fit.slope.v, fit.intercept.v)
  {
    var ps := Predictions(fit, xs, ys);
    var a, b := fit.slope.v, fit.intercept.v;
    forall i | 0 <= i < |ps|
      ensures ps[i].yPredicted == Finite(a * xs[i] + b)
      ensures ps[i].residual == Finite(ys[i] - ps[i].yPredicted.v)
      ensures ps[i].residual == Finite(Residual(xs[i], ys[i], a, b))
    {
      PredictionOfFiniteFit(fit, xs, ys, i);
    }
    SumOfResidualValues(xs, ys, a, b, ResidualValues(ps));
  }

  /**
   * Equal x values pass validation: the response carries a NaN slope, intercept, R²
   * and correlation, and every prediction and residual is NaN.
   */
  lemma {:induction false} ConstantXAccepted(m: MathLib, xs: seq<real>, ys: seq<real>)
    requires |xs| == |ys| >= 2 && Constant(xs)
    ensures var r := PerformRegressionAnalysis(m, Some(xs), Some(ys));
      && r.Success?
      && r.value.response.slope.NaN? && r.value.response.intercept.NaN?
      && r.value.response.rSquared.NaN? && r.value.response.correlation.NaN?
      && (forall i :: 0 <= i < |xs| ==>
            r.value.predictions[i].yPredicted.NaN? && r.value.predictions[i].residual.NaN?)
  {
  }

  /** Data on a line `y = a·x + b` (x not all equal) leave every residual at zero. */
  lemma {:induction false} PerfectFitResiduals(m: MathLib, xs: seq<real>, ys: seq<real>, a: real, b: real)
    requires OnLine(xs, ys, a, b) && |xs| >= 2 && !Constant(xs)
    ensures var r := PerformRegressionAnalysis(m, Some(xs), Some(ys));
      && r.Success?
      && forall i :: 0 <= i < |xs| ==> r.value.predictions[i].residual == Finite(0.0)
  {
    RegressionParts(m, xs, ys);
    RegressionRecoversLine(xs, ys, a, b);
    ZeroResiduals(CalculateLinearRegression(m, xs, ys), xs, ys, a, b);
  }

  lemma {:induction false} ZeroResiduals(fit: RegressionStats, xs: seq<real>, ys: seq<real>, a: real, b: real)
    requires OnLine(xs, ys, a, b) && fit.slope == Finite(a) && fit.intercept == Finite(b)
    ensures forall i :: 0 <= i < |xs| ==> Predictions(fit, xs, ys)[i].residual == Finite(0.0)
  {
    var ps := Predictions(fit, xs, ys);
    forall i | 0 <= i < |xs|
      ensures ps[i].residual == Finite(0.0)
    {
      PredictionOfFiniteFit(fit, xs, ys, i);
      assert ys[i] == a * xs[i] + b;
    }
  }
}
