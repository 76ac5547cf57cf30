/**
 * Finite sums over sequences of reals, folded from the left as JavaScript's
 * `Array.prototype.reduce` does, and the algebra of sums of squares that the
 * mean, the sample variance and the least-squares formulas rest on.
 */
module Sums {
  import opened JsMath
  import Combinatorics

  /** `xs.reduce((sum, x) => sum + x, 0)`. */
  function Sum(xs: seq<real>): real
  {
    if |xs| == 0 then 0.0 else Sum(xs[..|xs| - 1]) + xs[|xs| - 1]
  }

  /** `xs.reduce((sum, x) => sum + x * x, 0)`. */
  function SumSquares(xs: seq<real>): real
  {
    if |xs| == 0 then 0.0 else SumSquares(xs[..|xs| - 1]) + xs[|xs| - 1] * xs[|xs| - 1]
  }

  /** `xs.reduce((sum, x, i) => sum + x * ys[i], 0)`. */
  function SumProducts(xs: seq<real>, ys: seq<real>): real
    requires |xs| == |ys|
  {
    if |xs| == 0 then 0.0
    else SumProducts(xs[..|xs| - 1], ys[..|ys| - 1]) + xs[|xs| - 1] * ys[|ys| - 1]
  }

  /** `xs.reduce((sum, x) => sum + Math.pow(x - c, 2), 0)`. */
  function SumSquaredDeviations(xs: seq<real>, c: real): real
  {
    if |xs| == 0 then 0.0
    else SumSquaredDeviations(xs[..|xs| - 1], c) + Square(xs[|xs| - 1] - c)
  }

  /** A product of two factors of the same strict sign is positive. */
  lemma {:induction false} ProductPositive(a: real, b: real)
    requires (a > 0.0 && b > 0.0) || (a < 0.0 && b < 0.0)
    ensures Product(a, b) > 0.0
  {
    if a > 0.0 {
      assert a * b > 0.0;
    } else {
      assert a * b > 0.0;
    }
  }

  /** A product of two non-zero factors is non-zero. */
  lemma {:induction false} ProductNonZero(a: real, b: real)
    requires a != 0.0 && b != 0.0
    ensures Product(a, b) != 0.0
  {
    if (a > 0.0) == (b > 0.0) {
      ProductPositive(a, b);
    } else {
      ProductPositive(-a, b);
      assert Product(-a, b) == -Product(a, b);
    }
  }

  /** The square of a non-zero number is positive. */
  lemma {:induction false} SquarePositive(d: real)
    requires d != 0.0
    ensures Square(d) > 0.0
  {
    ProductPositive(d, d);
  }

  /** No square is negative. */
  lemma {:induction false} SquareNonNegative(d: real)
    ensures Square(d) >= 0.0
  {
    if d != 0.0 {
      SquarePositive(d);
    }
  }

  /** The residual of the point `(x, y)` from the line `a·x + b`. */
  function Residual(x: real, y: real, a: real, b: real): real
  {
    y - (a * x + b)
  }

  /** `ys.reduce((sum, y, i) => sum + Math.pow(y - (a * xs[i] + b), 2), 0)`. */
  function SumSquaredResiduals(xs: seq<real>, ys: seq<real>, a: real, b: real): real
    requires |xs| == |ys|
  {
    if |xs| == 0 then 0.0
    else
      var k := |xs| - 1;
      SumSquaredResiduals(xs[..k], ys[..k], a, b) + Square(Residual(xs[k], ys[k], a, b))
  }

  /** The plain sum of the residuals from the line `a·x + b`. */
  function SumResiduals(xs: seq<real>, ys: seq<real>, a: real, b: real): real
    requires |xs| == |ys|
  {
    if |xs| == 0 then 0.0
    else SumResiduals(xs[..|xs| - 1], ys[..|ys| - 1], a, b) + Residual(xs[|xs| - 1], ys[|ys| - 1], a, b)
  }

  /** Every element of `xs` equals `c`. */
  predicate AllEqual(xs: seq<real>, c: real)
  {
    forall i :: 0 <= i < |xs| ==> xs[i] == c
  }

  /** Every element of `xs` equals every other. */
  predicate Constant(xs: seq<real>)
  {
    forall i, j :: 0 <= i < |xs| && 0 <= j < |xs| ==> xs[i] == xs[j]
  }

  /** `xs` and `ys` are related by the line `y = a·x + b`. */
  predicate OnLine(xs: seq<real>, ys: seq<real>, a: real, b: real)
  {
    |xs| == |ys| && forall i :: 0 <= i < |xs| ==> ys[i] == a * xs[i] + b
  }

  /** The sequence `f(0), ..., f(|s| - 1)` sums as the series. */
  lemma {:induction false} SumAsSeries(s: seq<real>, f: nat -> real)
    requires forall i :: 0 <= i < |s| ==> s[i] == f(i)
    ensures Sum(s) == Combinatorics.SumTo(f, |s|)
  {
    if |s| > 0 {
      SumAsSeries(s[..|s| - 1], f);
    }
  }

  /** The deviations of `xs` from `c`, element by element. */
  function Deviations(xs: seq<real>, c: real): (ds: seq<real>)
    ensures |ds| == |xs|
  {
    seq(|xs|, i requires 0 <= i < |xs| => xs[i] - c)
  }

  /** Summing the deviations from `c` subtracts `c` once per element. */
  lemma {:induction false} SumDeviations(xs: seq<real>, c: real)
    ensures Sum(Deviations(xs, c)) == Sum(xs) - |xs| as real * c
  {
    if |xs| > 0 {
      var k := |xs| - 1;
      SumDeviations(xs[..k], c);
      assert Deviations(xs, c)[..k] == Deviations(xs[..k], c);
    }
  }

  /** A sum of squared deviations is never negative. */
  lemma {:induction false} SumSquaredDeviationsNonNegative(xs: seq<real>, c: real)
    ensures SumSquaredDeviations(xs, c) >= 0.0
  {
    if |xs| > 0 {
      SumSquaredDeviationsNonNegative(xs[..|xs| - 1], c);
      SquareNonNegative(xs[|xs| - 1] - c);
    }
  }

  lemma {:induction false} AllEqualLast(xs: seq<real>, c: real)
    requires |xs| > 0
    ensures AllEqual(xs, c) <==> AllEqual(xs[..|xs| - 1], c) && xs[|xs| - 1] == c
  {
    var init := xs[..|xs| - 1];
    if AllEqual(init, c) && xs[|xs| - 1] == c {
      forall i | 0 <= i < |xs| ensures xs[i] == c {
        if i < |xs| - 1 {
          assert xs[i] == init[i];
        }
      }
    }
  }

  /** A sum of squared deviations from `c` vanishes exactly when every element is `c`. */
  lemma {:induction false} SumSquaredDeviationsZero(xs: seq<real>, c: real)
    ensures SumSquaredDeviations(xs, c) == 0.0 <==> AllEqual(xs, c)
  {
    if |xs| > 0 {
      var init, d := xs[..|xs| - 1], xs[|xs| - 1] - c;
      SumSquaredDeviationsZero(init, c);
      SumSquaredDeviationsNonNegative(init, c);
      AllEqualLast(xs, c);
      if d != 0.0 {
        SquarePositive(d);
      }
    }
  }

  lemma {:induction false} ExpandSquareStep(x: real, c: real, q: real, s: real, m: real)
    ensures q - 2.0 * Product(c, s) + Product(m, Square(c)) + Square(x - c)
         == (q + x * x) - 2.0 * Product(c, s + x) + Product(m + 1.0, Square(c))
  {
  }

  /** The squared deviations from `c` expand to `Σx² − 2cΣx + n·c²`. */
  lemma {:induction false} SumSquaredDeviationsExpand(xs: seq<real>, c: real)
    ensures SumSquaredDeviations(xs, c)
         == SumSquares(xs) - 2.0 * Product(c, Sum(xs)) + Product(|xs| as real, Square(c))
  {
    if |xs| > 0 {
      var init, x := xs[..|xs| - 1], xs[|xs| - 1];
      SumSquaredDeviationsExpand(init, c);
      ExpandSquareStep(x, c, SumSquares(init), Sum(init), |init| as real);
    }
  }

  lemma {:induction false} CenteredAlgebra(n: real, q: real, s: real, mean: real, d: real)
    requires s == n * mean
    requires d == q - 2.0 * Product(mean, s) + Product(n, Square(mean))
    ensures Product(n, q) - Product(s, s) == Product(n, d)
    ensures d == q - Product(n, Square(mean))
  {
    calc {
      n * d;
      n * q - 2.0 * (n * mean) * s + (n * mean) * (n * mean);
      n * q - 2.0 * s * s + s * s;
    }
  }

  /**
   * About the mean `Σx / n`: the quantity `n·Σx² − (Σx)²` is `n` times the squared
   * deviations from the mean, and those deviations are `Σx² − n·mean²`.
   */
  lemma {:induction false} CenteredSumSquares(xs: seq<real>, mean: real)
    requires Sum(xs) == |xs| as real * mean
    ensures Product(|xs| as real, SumSquares(xs)) - Product(Sum(xs), Sum(xs))
         == Product(|xs| as real, SumSquaredDeviations(xs, mean))
    ensures SumSquaredDeviations(xs, mean) == SumSquares(xs) - Product(|xs| as real, Square(mean))
  {
    SumSquaredDeviationsExpand(xs, mean);
    CenteredAlgebra(|xs| as real, SumSquares(xs), Sum(xs), mean, SumSquaredDeviations(xs, mean));
  }

  /** The sum of a sequence whose every element is `c`. */
  lemma {:induction false} SumOfConstant(xs: seq<real>, c: real)
    requires AllEqual(xs, c)
    ensures Sum(xs) == |xs| as real * c
  {
    if |xs| > 0 {
      SumOfConstant(xs[..|xs| - 1], c);
    }
  }

  lemma {:induction false} CancelFactor(n: real, x: real, y: real)
    requires n != 0.0 && n * x == n * y
    ensures x == y
  {
  }

  /** A non-empty sequence equals its mean everywhere exactly when it is constant. */
  lemma {:induction false} AllEqualMeanIffConstant(xs: seq<real>, mean: real)
    requires |xs| > 0 && Sum(xs) == |xs| as real * mean
    ensures AllEqual(xs, mean) <==> Constant(xs)
  {
    if Constant(xs) {
      assert AllEqual(xs, xs[0]);
      SumOfConstant(xs, xs[0]);
      CancelFactor(|xs| as real, mean, xs[0]);
    }
  }

  lemma {:induction false} OnLinePrefix(xs: seq<real>, ys: seq<real>, a: real, b: real, k: nat)
    requires OnLine(xs, ys, a, b) && k <= |xs|
    ensures OnLine(xs[..k], ys[..k], a, b)
  {
    forall i | 0 <= i < k ensures ys[..k][i] == a * xs[..k][i] + b {
      assert ys[..k][i] == ys[i] && xs[..k][i] == xs[i];
    }
  }

  /** One step of `SumProductsLine`: the sums `p`, `q`, `s` grow by `x·y`, `x²`, `x`. */
  lemma {:induction false} LineProductStep(x: real, y: real, a: real, b: real, q: real, s: real, p: real, q': real, s': real, p': real)
    requires y == a * x + b
    requires p == Product(a, q) + Product(b, s)
    requires p' == p + x * y && q' == q + x * x && s' == s + x
    ensures p' == Product(a, q') + Product(b, s')
  {
  }

  /** On a line `y = a·x + b`, `Σx·y = a·Σx² + b·Σx`. */
  lemma {:induction false} SumProductsLine(xs: seq<real>, ys: seq<real>, a: real, b: real)
    requires OnLine(xs, ys, a, b)
    ensures SumProducts(xs, ys) == Product(a, SumSquares(xs)) + Product(b, Sum(xs))
  {
    if |xs| > 0 {
      var k := |xs| - 1;
      var px, py := xs[..k], ys[..k];
      OnLinePrefix(xs, ys, a, b, k);
      SumProductsLine(px, py, a, b);
      LineProductStep(xs[k], ys[k], a, b, SumSquares(px), Sum(px), SumProducts(px, py),
        SumSquares(xs), Sum(xs), SumProducts(xs, ys));
    }
  }

  /** On a line `y = a·x + b`, `Σy = a·Σx + n·b`. */
  lemma {:induction false} SumLine(xs: seq<real>, ys: seq<real>, a: real, b: real)
    requires OnLine(xs, ys, a, b)
    ensures Sum(ys) == Product(a, Sum(xs)) + Product(|xs| as real, b)
  {
    if |xs| > 0 {
      var k := |xs| - 1;
      OnLinePrefix(xs, ys, a, b, k);
      SumLine(xs[..k], ys[..k], a, b);
    }
  }

  /** Every residual from the line the data lie on is zero. */
  lemma {:induction false} SumSquaredResidualsLine(xs: seq<real>, ys: seq<real>, a: real, b: real)
    requires OnLine(xs, ys, a, b)
    ensures SumSquaredResiduals(xs, ys, a, b) == 0.0
  {
    if |xs| > 0 {
      var k := |xs| - 1;
      OnLinePrefix(xs, ys, a, b, k);
      SumSquaredResidualsLine(xs[..k], ys[..k], a, b);
      assert Residual(xs[k], ys[k], a, b) == 0.0;
      assert Square(0.0) == 0.0;
    }
  }

  /** A sum of squared residuals is never negative. */
  lemma {:induction false} SumSquaredResidualsNonNegative(xs: seq<real>, ys: seq<real>, a: real, b: real)
    requires |xs| == |ys|
    ensures SumSquaredResiduals(xs, ys, a, b) >= 0.0
  {
    if |xs| > 0 {
      var k := |xs| - 1;
      SumSquaredResidualsNonNegative(xs[..k], ys[..k], a, b);
      SquareNonNegative(Residual(xs[k], ys[k], a, b));
    }
  }

  /** The residuals from `a·x + b` add up to `Σy − a·Σx − n·b`. */
  lemma {:induction false} SumResidualsExpand(xs: seq<real>, ys: seq<real>, a: real, b: real)
    requires |xs| == |ys|
    ensures SumResiduals(xs, ys, a, b) == Sum(ys) - a * Sum(xs) - |xs| as real * b
  {
    if |xs| > 0 {
      var k := |xs| - 1;
      SumResidualsExpand(xs[..k], ys[..k], a, b);
    }
  }

  /** The number of points, counted as a real one by one alongside the other folds. */
  function Count(xs: seq<real>): real
  {
    if |xs| == 0 then 0.0 else Count(xs[..|xs| - 1]) + 1.0
  }

  lemma {:induction false} CountIsLength(xs: seq<real>)
    ensures Count(xs) == |xs| as real
  {
    if |xs| > 0 {
      CountIsLength(xs[..|xs| - 1]);
    }
  }

  /** `Σy² − 2a·Σxy − 2b·Σy + a²·Σx² + 2ab·Σx + n·b²`, the expansion of `Σ(y − (a·x + b))²`. */
  function ExpandedSquaredResiduals(n: real, sx: real, sy: real, sxx: real, sxy: real, syy: real, a: real, b: real): real
  {
    syy - 2.0 * Product(a, sxy) - 2.0 * Product(b, sy)
      + Product(Square(a), sxx) + 2.0 * Product(Product(a, b), sx) + Product(n, Square(b))
  }

  /** Each fold over non-empty data is the fold of all but the last point, plus that point's term. */
  lemma FoldsStep(xs: seq<real>, ys: seq<real>, a: real, b: real)
    requires |xs| == |ys| > 0
    ensures Count(xs) == Count(xs[..|xs| - 1]) + 1.0
    ensures Sum(xs) == Sum(xs[..|xs| - 1]) + xs[|xs| - 1]
    ensures Sum(ys) == Sum(ys[..|ys| - 1]) + ys[|ys| - 1]
    ensures SumSquares(xs) == SumSquares(xs[..|xs| - 1]) + xs[|xs| - 1] * xs[|xs| - 1]
    ensures SumSquares(ys) == SumSquares(ys[..|ys| - 1]) + ys[|ys| - 1] * ys[|ys| - 1]
    ensures SumProducts(xs, ys) == SumProducts(xs[..|xs| - 1], ys[..|ys| - 1]) + xs[|xs| - 1] * ys[|ys| - 1]
    ensures SumSquaredResiduals(xs, ys, a, b)
         == SumSquaredResiduals(xs[..|xs| - 1], ys[..|ys| - 1], a, b) + Square(Residual(xs[|xs| - 1], ys[|ys| - 1], a, b))
  {
  }

  /** The expansion is additive in the sums it is taken over. */
  lemma ExpandedAdd(n: real, sx: real, sy: real, sxx: real, sxy: real, syy: real,
    m: real, tx: real, ty: real, txx: real, txy: real, tyy: real,
    n': real, sx': real, sy': real, sxx': real, sxy': real, syy': real, a: real, b: real)
    requires n' == n + m && sx' == sx + tx && sy' == sy + ty
    requires sxx' == sxx + txx && sxy' == sxy + txy && syy' == syy + tyy
    ensures ExpandedSquaredResiduals(n', sx', sy', sxx', sxy', syy', a, b)
         == ExpandedSquaredResiduals(n, sx, sy, sxx, sxy, syy, a, b)
          + ExpandedSquaredResiduals(m, tx, ty, txx, txy, tyy, a, b)
  {
  }

  /** One squared residual, multiplied out. */
  lemma ResidualSquare(x: real, y: real, a: real, b: real)
    ensures Square(Residual(x, y, a, b))
         == ExpandedSquaredResiduals(1.0, x, y, x * x, x * y, y * y, a, b)
  {
  }

  /** The expansion carries over from all but the last point to the whole data. */
  lemma SquaredResidualsStep(xs: seq<real>, ys: seq<real>, a: real, b: real)
    requires |xs| == |ys| > 0
    requires var xs', ys' := xs[..|xs| - 1], ys[..|ys| - 1];
      SumSquaredResiduals(xs', ys', a, b) == ExpandedSquaredResiduals(
        Count(xs'), Sum(xs'), Sum(ys'), SumSquares(xs'), SumProducts(xs', ys'), SumSquares(ys'), a, b)
    ensures SumSquaredResiduals(xs, ys, a, b) == ExpandedSquaredResiduals(
      Count(xs), Sum(xs), Sum(ys), SumSquares(xs), SumProducts(xs, ys), SumSquares(ys), a, b)
  {
    FoldsStep(xs, ys, a, b);
    ResidualSquare(xs[|xs| - 1], ys[|ys| - 1], a, b);
    ExpandedAdd(Count(xs[..|xs| - 1]), Sum(xs[..|xs| - 1]), Sum(ys[..|ys| - 1]), SumSquares(xs[..|xs| - 1]),
      SumProducts(xs[..|xs| - 1], ys[..|ys| - 1]), SumSquares(ys[..|ys| - 1]),
      1.0, xs[|xs| - 1], ys[|ys| - 1], xs[|xs| - 1] * xs[|xs| - 1], xs[|xs| - 1] * ys[|ys| - 1], ys[|ys| - 1] * ys[|ys| - 1],
      Count(xs), Sum(xs), Sum(ys), SumSquares(xs), SumProducts(xs, ys), SumSquares(ys), a, b);
  }

  /** The squared residuals from `a·x + b`, expanded over the sums the handlers fold. */
  lemma {:induction false} SumSquaredResidualsExpand(xs: seq<real>, ys: seq<real>, a: real, b: real)
    requires |xs| == |ys|
    ensures SumSquaredResiduals(xs, ys, a, b) == ExpandedSquaredResiduals(
      Count(xs), Sum(xs), Sum(ys), SumSquares(xs), SumProducts(xs, ys), SumSquares(ys), a, b)
  {
    if |xs| > 0 {
      SumSquaredResidualsExpand(xs[..|xs| - 1], ys[..|ys| - 1], a, b);
      SquaredResidualsStep(xs, ys, a, b);
    }
  }

  /**
   * Where both normal equations `Σy = a·Σx + n·b` and `Σxy = a·Σx² + b·Σx` hold, moving
   * the line to `(a', b')` adds `u²·Σx² + 2uv·Σx + n·v²` with `u = a' − a`, `v = b' − b`.
   */
  lemma {:induction false} ExpandedGap(n: real, sx: real, sy: real, sxx: real, sxy: real, syy: real,
    a: real, b: real, a': real, b': real)
    requires sy == Product(a, sx) + Product(n, b) && sxy == Product(a, sxx) + Product(b, sx)
    ensures var u, v := a' - a, b' - b;
      ExpandedSquaredResiduals(n, sx, sy, sxx, sxy, syy, a', b')
        == ExpandedSquaredResiduals(n, sx, sy, sxx, sxy, syy, a, b)
         + (Product(Square(u), sxx) + 2.0 * Product(Product(u, v), sx) + Product(n, Square(v)))
  {
    ExpandedShift(n, sx, sy, sxx, sxy, syy, a, b, a', b');
    GapAlgebra(n, sx, sy, sxx, sxy, a, b, a' - a, b' - b);
  }

  lemma {:induction false} ExpandedShift(n: real, sx: real, sy: real, sxx: real, sxy: real, syy: real,
    a: real, b: real, a': real, b': real)
    ensures var u, v := a' - a, b' - b;
      ExpandedSquaredResiduals(n, sx, sy, sxx, sxy, syy, a', b')
         - ExpandedSquaredResiduals(n, sx, sy, sxx, sxy, syy, a, b)
      == -2.0 * (u * sxy) - 2.0 * (v * sy) + (2.0 * (a * u) + u * u) * sxx + 2.0 * (a * v + u * b + u * v) * sx
         + n * (2.0 * (b * v) + v * v)
  {
  }

  lemma {:induction false} GapAlgebra(n: real, sx: real, sy: real, sxx: real, sxy: real, a: real, b: real, u: real, v: real)
    requires sy == Product(a, sx) + Product(n, b) && sxy == Product(a, sxx) + Product(b, sx)
    ensures -2.0 * (u * sxy) - 2.0 * (v * sy)
         + (2.0 * (a * u) + u * u) * sxx + 2.0 * (a * v + u * b + u * v) * sx + n * (2.0 * (b * v) + v * v)
      == Product(Square(u), sxx) + 2.0 * Product(Product(u, v), sx) + Product(n, Square(v))
  {
  }

  /** With `n > 0` and `n·Σx² ≥ (Σx)²`, the gap `u²·Σx² + 2uv·Σx + n·v²` is never negative. */
  lemma {:induction false} GapNonNegative(n: real, sx: real, sxx: real, u: real, v: real)
    requires n > 0.0 && Product(n, sxx) - Product(sx, sx) >= 0.0
    ensures Product(Square(u), sxx) + 2.0 * Product(Product(u, v), sx) + Product(n, Square(v)) >= 0.0
  {
    var q := Product(Square(u), sxx) + 2.0 * Product(Product(u, v), sx) + Product(n, Square(v));
    var w := Product(u, sx) + Product(n, v);
    assert Product(n, q) == Square(w) + Product(Square(u), Product(n, sxx) - Product(sx, sx));
    SquareNonNegative(w);
    SquareNonNegative(u);
    ProductNonNegative(Square(u), Product(n, sxx) - Product(sx, sx));
    ScaledNonNegative(n, q);
  }

  lemma {:induction false} ProductNonNegative(a: real, b: real)
    requires a >= 0.0 && b >= 0.0
    ensures Product(a, b) >= 0.0
  {
  }

  lemma {:induction false} ScaledNonNegative(n: real, q: real)
    requires n > 0.0 && Product(n, q) >= 0.0
    ensures q >= 0.0
  {
  }

  /** The horizontal line at height `c` leaves the squared deviations of y from `c`. */
  lemma {:induction false} FlatLineResiduals(xs: seq<real>, ys: seq<real>, c: real)
    requires |xs| == |ys|
    ensures SumSquaredResiduals(xs, ys, 0.0, c) == SumSquaredDeviations(ys, c)
  {
    if |xs| > 0 {
      var k := |xs| - 1;
      FlatLineResiduals(xs[..k], ys[..k], c);
      assert Residual(xs[k], ys[k], 0.0, c) == ys[k] - c;
    }
  }

  lemma {:induction false} ConstantProductStep(c: real, x: real, y: real, p: real, s: real, p': real, s': real)
    requires x == c && p == Product(c, s)
    requires p' == p + x * y && s' == s + y
    ensures p' == Product(c, s')
  {
  }

  /** Over an `xs` whose every element is `c`, `Σx·y = c·Σy`. */
  lemma {:induction false} SumProductsConstant(xs: seq<real>, ys: seq<real>, c: real)
    requires |xs| == |ys| && AllEqual(xs, c)
    ensures SumProducts(xs, ys) == Product(c, Sum(ys))
  {
    if |xs| > 0 {
      var k := |xs| - 1;
      var px, py := xs[..k], ys[..k];
      assert AllEqual(px, c);
      SumProductsConstant(px, py, c);
      ConstantProductStep(c, xs[k], ys[k], SumProducts(px, py), Sum(py), SumProducts(xs, ys), Sum(ys));
    }
  }

  /** A sequence holding the residuals one by one sums to `SumResiduals`. */
  lemma {:induction false} SumOfResidualValues(xs: seq<real>, ys: seq<real>, a: real, b: real, rs: seq<real>)
    requires |xs| == |ys| == |rs|
    requires forall i :: 0 <= i < |rs| ==> rs[i] == Residual(xs[i], ys[i], a, b)
    ensures Sum(rs) == SumResiduals(xs, ys, a, b)
  {
    if |rs| > 0 {
      var k := |rs| - 1;
      SumOfResidualValues(xs[..k], ys[..k], a, b, rs[..k]);
    }
  }
}
