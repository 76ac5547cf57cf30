/**
 * The parts of JavaScript's number semantics and of its `Math` object that the
 * statistics engine relies on.
 *
 * A finite number is held as an exact `real`, so no rounding is modelled. What IS
 * modelled is how a division by zero, an infinity or a NaN propagates, because the
 * engine reaches those on ordinary inputs (a one-element sample, constant x data).
 * Signed zero is not distinguished: every zero that the engine divides by is +0.
 */
module JsMath {

  /** A JavaScript number. */
  datatype Number = Finite(v: real) | PosInf | NegInf | NaN {
    predicate IsInfinite() { PosInf? || NegInf? }
    /** The value is strictly positive (+Infinity included). */
    predicate IsPositive() { PosInf? || (Finite? && v > 0.0) }
    predicate IsZero() { Finite? && v == 0.0 }
  }

  /** Unary minus. */
  function Neg(a: Number): (r: Number)
    ensures a.Finite? ==> r == Finite(-a.v)
    ensures r.NaN? <==> a.NaN?
  {
    match a
    case Finite(x) => Finite(-x)
    case PosInf => NegInf
    case NegInf => PosInf
    case NaN => NaN
  }

  /** `a + b`. */
  function Add(a: Number, b: Number): (r: Number)
    ensures a.Finite? && b.Finite? ==> r == Finite(a.v + b.v)
    ensures a.NaN? || b.NaN? ==> r.NaN?
    ensures r.Finite? ==> a.Finite? && b.Finite?
  {
    if a.NaN? || b.NaN? then NaN
    else if (a.PosInf? && b.NegInf?) || (a.NegInf? && b.PosInf?) then NaN
    else if a.PosInf? || b.PosInf? then PosInf
    else if a.NegInf? || b.NegInf? then NegInf
    else Finite(a.v + b.v)
  }

  /** `a - b`. */
  function Sub(a: Number, b: Number): (r: Number)
    ensures a.Finite? && b.Finite? ==> r == Finite(a.v - b.v)
    ensures a.NaN? || b.NaN? ==> r.NaN?
    ensures r.Finite? ==> a.Finite? && b.Finite?
  {
    Add(a, Neg(b))
  }

  /** `a * b`; an infinity times zero is NaN. */
  function Mul(a: Number, b: Number): (r: Number)
    ensures a.Finite? && b.Finite? ==> r == Finite(a.v * b.v)
    ensures a.NaN? || b.NaN? ==> r.NaN?
    ensures r.Finite? ==> a.Finite? && b.Finite?
  {
    if a.NaN? || b.NaN? then NaN
    else if a.Finite? && b.Finite? then Finite(a.v * b.v)
    else if a.IsZero() || b.IsZero() then NaN
    else if a.IsPositive() == b.IsPositive() then PosInf
    else NegInf
  }

  /** `a / b`: a non-zero number over zero is an infinity, zero over zero is NaN,
      a finite number over an infinity is zero, an infinity over an infinity is NaN. */
  function Div(a: Number, b: Number): (r: Number)
    ensures a.Finite? && b.Finite? && b.v != 0.0 ==> r == Finite(a.v / b.v)
    ensures a.Finite? && b.IsZero() ==> r == (if a.v == 0.0 then NaN else if a.v > 0.0 then PosInf else NegInf)
    ensures a.NaN? || b.NaN? ==> r.NaN?
    ensures r.Finite? ==> a.Finite?
  {
    if a.NaN? || b.NaN? then NaN
    else if a.IsInfinite() && b.IsInfinite() then NaN
    else if b.IsInfinite() then Finite(0.0)
    else if b.v == 0.0 then (if a.IsZero() then NaN else if a.IsPositive() then PosInf else NegInf)
    else if a.IsInfinite() then (if a.IsPositive() == (b.v > 0.0) then PosInf else NegInf)
    else Finite(a.v / b.v)
  }

  /** `Math.abs(a)`. */
  function Abs(a: Number): (r: Number)
    ensures a.Finite? ==> r.Finite? && r.v >= 0.0 && (r.v == a.v || r.v == -a.v)
    ensures a.IsInfinite() ==> r.PosInf?
    ensures r.NaN? <==> a.NaN?
  {
    match a
    case Finite(x) => Finite(if x < 0.0 then -x else x)
    case PosInf => PosInf
    case NegInf => PosInf
    case NaN => NaN
  }

  /** `a > b`; every comparison with NaN is false. */
  predicate Greater(a: Number, b: Number)
    ensures Greater(a, b) ==> !a.NaN? && !b.NaN?
    ensures a.Finite? && b.Finite? ==> (Greater(a, b) <==> a.v > b.v)
  {
    if a.NaN? || b.NaN? then false
    else if a.PosInf? then !b.PosInf?
    else if b.NegInf? then !a.NegInf?
    else a.Finite? && b.Finite? && a.v > b.v
  }

  /**
   * The transcendental part of `Math`, which the model does not compute: `sqrt` on
   * non-negative finite arguments, `exp`, and the constant `PI`.
   */
  datatype MathLib = MathLib(sqrt: real -> real, exp: real -> real, pi: real)

  /** The only facts about `Math` the model relies on. */
  ghost predicate Lawful(m: MathLib) {
    && m.pi > 0.0
    && (forall x :: 0.0 <= x ==> 0.0 <= m.sqrt(x) && m.sqrt(x) * m.sqrt(x) == x)
    && (forall x :: 0.0 < m.exp(x))
    && m.exp(0.0) == 1.0
  }

  /** The square root of a positive number is positive. */
  lemma {:induction false} SqrtPositive(m: MathLib, x: real)
    requires Lawful(m) && x > 0.0
    ensures m.sqrt(x) > 0.0
  {
    assert m.sqrt(x) * m.sqrt(x) == x;
  }

  /** A fraction in [0, 1) squares to below one. */
  lemma {:induction false} FractionSquare(s: real)
    requires 0.0 <= s < 1.0
    ensures s * s < 1.0
  {
    assert s * s <= s * 1.0;
  }

  /** `Math.sqrt(0)` is 0. */
  lemma {:induction false} SqrtZero(m: MathLib)
    requires Lawful(m)
    ensures m.sqrt(0.0) == 0.0
  {
    var s := m.sqrt(0.0);
    assert s >= 0.0 && s * s == 0.0;
    if s > 0.0 {
      PositiveProduct(s, s);
    }
  }

  lemma {:induction false} PositiveProduct(a: real, b: real)
    requires a > 0.0 && b > 0.0
    ensures Product(a, b) > 0.0
  {
    assert a * b > 0.0;
  }

  /** `Math.sqrt(1)` is 1. */
  lemma {:induction false} SqrtOne(m: MathLib)
    requires Lawful(m)
    ensures m.sqrt(1.0) == 1.0
  {
    var s := m.sqrt(1.0);
    assert s >= 0.0 && s * s == 1.0;
    if s > 1.0 {
      assert false;
    } else if s < 1.0 {
      FractionSquare(s);
      assert false;
    }
  }

  /** `Math.sqrt(a)`: NaN below zero, +Infinity at +Infinity. */
  function Sqrt(m: MathLib, a: Number): (r: Number)
    ensures a.Finite? && a.v >= 0.0 ==> r == Finite(m.sqrt(a.v))
    ensures (a.Finite? && a.v < 0.0) || a.NegInf? || a.NaN? ==> r.NaN?
    ensures r.Finite? ==> a.Finite?
  {
    match a
    case Finite(x) => if x < 0.0 then NaN else Finite(m.sqrt(x))
    case PosInf => PosInf
    case NegInf => NaN
    case NaN => NaN
  }

  /**
   * `a * b`. Products whose factors are sums or powers are written with this
   * function, so that the same product reached in two ways is recognised as one.
   */
  function Product(a: real, b: real): real
  {
    a * b
  }

  /** `Math.pow(d, 2)`. */
  function Square(d: real): real
  {
    Product(d, d)
  }

  /** `Math.pow(x, k)` for a whole exponent `k`. */
  function Pow(x: real, k: nat): (r: real)
    ensures x > 0.0 ==> r > 0.0
    ensures x >= 0.0 ==> r >= 0.0
    ensures x == 1.0 ==> r == 1.0
  {
    if k == 0 then 1.0 else Product(x, Pow(x, k - 1))
  }

  /** `Math.ceil(x)`: the least integer not below `x`. */
  function Ceil(x: real): (r: int)
    ensures x <= r as real < x + 1.0
  {
    if x.Floor as real == x then x.Floor else x.Floor + 1
  }
}
