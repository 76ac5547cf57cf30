/**
 * Binomial coefficients, finite sums of real-valued sequences, and the binomial
 * theorem. The statistics engine computes binomial probabilities through
 * factorials; the facts here are what let the model state that those
 * probabilities add up to one.
 */
module Combinatorics {
  import opened JsMath

  /** The binomial coefficient "n choose k", defined by Pascal's rule. */
  function Choose(n: nat, k: nat): nat
  {
    if k == 0 then 1 else if n == 0 then 0 else Choose(n - 1, k - 1) + Choose(n - 1, k)
  }

  /** There is no way to choose more elements than there are. */
  lemma {:induction false} ChooseAbove(n: nat, k: nat)
    requires k > n
    ensures Choose(n, k) == 0
  {
    if n > 0 {
      ChooseAbove(n - 1, k - 1);
      ChooseAbove(n - 1, k);
    }
  }

  /** There is exactly one way to choose all elements. */
  lemma {:induction false} ChooseAll(n: nat)
    ensures Choose(n, n) == 1
  {
    if n > 0 {
      ChooseAll(n - 1);
      ChooseAbove(n - 1, n);
    }
  }

  /** `f(0) + f(1) + ... + f(j - 1)`. */
  function SumTo(f: nat -> real, j: nat): real
  {
    if j == 0 then 0.0 else SumTo(f, j - 1) + f(j - 1)
  }

  /** The sequence `f` multiplied term by term by `c`. */
  function Scale(c: real, f: nat -> real): nat -> real
  {
    (k: nat) => Product(c, f(k))
  }

  /** The term-by-term sum of `f` and `g`. */
  function Plus(f: nat -> real, g: nat -> real): nat -> real
  {
    (k: nat) => f(k) + g(k)
  }

  /** The sequence `f` moved one place to the right, with a zero in front. */
  function Shifted(f: nat -> real): nat -> real
  {
    (k: nat) => if k == 0 then 0.0 else f(k - 1)
  }

  lemma {:induction false} SumScale(c: real, f: nat -> real, j: nat)
    ensures SumTo(Scale(c, f), j) == Product(c, SumTo(f, j))
  {
    if j > 0 {
      SumScale(c, f, j - 1);
      assert SumTo(Scale(c, f), j) == SumTo(Scale(c, f), j - 1) + Product(c, f(j - 1));
      assert SumTo(f, j) == SumTo(f, j - 1) + f(j - 1);
    }
  }

  lemma {:induction false} SumPlus(f: nat -> real, g: nat -> real, j: nat)
    ensures SumTo(Plus(f, g), j) == SumTo(f, j) + SumTo(g, j)
  {
    if j > 0 {
      SumPlus(f, g, j - 1);
    }
  }

  lemma {:induction false} SumShifted(f: nat -> real, j: nat)
    ensures SumTo(Shifted(f), j + 1) == SumTo(f, j)
  {
    if j > 0 {
      SumShifted(f, j - 1);
    } else {
      assert SumTo(Shifted(f), 1) == Shifted(f)(0);
    }
  }

  /** Sums of sequences that agree on the summed range are equal. */
  lemma {:induction false} SumCongruent(f: nat -> real, g: nat -> real, j: nat)
    requires forall k: nat :: k < j ==> f(k) == g(k)
    ensures SumTo(f, j) == SumTo(g, j)
  {
    if j > 0 {
      SumCongruent(f, g, j - 1);
    }
  }

  lemma {:induction false} SumLast(f: nat -> real, n: nat)
    requires f(n) == 0.0
    ensures SumTo(f, n + 1) == SumTo(f, n)
  {
  }

  /** The row `a * f(k - 1) + b * f(k)` that Pascal's rule builds from row `f`. */
  function NextRow(f: nat -> real, a: real, b: real): nat -> real
  {
    Plus(Scale(a, Shifted(f)), Scale(b, f))
  }

  lemma {:induction false} NextRowSplit(f: nat -> real, a: real, b: real, j: nat)
    ensures SumTo(NextRow(f, a, b), j) == Product(a, SumTo(Shifted(f), j)) + Product(b, SumTo(f, j))
  {
    SumPlus(Scale(a, Shifted(f)), Scale(b, f), j);
    SumScale(a, Shifted(f), j);
    SumScale(b, f, j);
  }

  lemma {:induction false} NextRowShift(f: nat -> real, a: real, b: real, n: nat)
    ensures SumTo(NextRow(f, a, b), n + 1) == Product(a, SumTo(f, n)) + Product(b, SumTo(f, n + 1))
  {
    NextRowSplit(f, a, b, n + 1);
    SumShifted(f, n);
  }

  lemma {:induction false} NextRowLast(f: nat -> real, a: real, b: real, n: nat)
    requires f(n) == 0.0
    ensures SumTo(NextRow(f, a, b), n + 1) == Product(a, SumTo(f, n)) + Product(b, SumTo(f, n))
  {
    NextRowShift(f, a, b, n);
    SumLast(f, n);
  }

  /** Summing the next row multiplies the sum of a row by `a + b`. */
  lemma {:induction false} NextRowSum(f: nat -> real, a: real, b: real, n: nat)
    requires f(n) == 0.0
    ensures SumTo(NextRow(f, a, b), n + 1) == Product(a + b, SumTo(f, n))
  {
    NextRowLast(f, a, b, n);
    Distribute(a, b, SumTo(f, n));
  }

  lemma {:induction false} Distribute(a: real, b: real, s: real)
    ensures Product(a, s) + Product(b, s) == Product(a + b, s)
  {
  }

  lemma {:induction false} PowStep(x: real, n: nat)
    requires n > 0
    ensures Pow(x, n) == Product(x, Pow(x, n - 1))
  {
  }

  /** `c · a^k · b^(n − k)`: a coefficient times the two powers. */
  function WeightedTerm(c: real, n: nat, k: nat, a: real, b: real): (r: real)
    requires k <= n
    ensures c >= 0.0 && a >= 0.0 && b >= 0.0 ==> r >= 0.0
  {
    var x, y := Pow(a, k), Pow(b, n - k);
    NonNegativeProduct(c, x, y);
    Product(Product(c, x), y)
  }

  lemma {:induction false} NonNegativeProduct(c: real, x: real, y: real)
    ensures c >= 0.0 && x >= 0.0 && y >= 0.0 ==> Product(Product(c, x), y) >= 0.0
  {
    if c >= 0.0 && x >= 0.0 && y >= 0.0 {
      assert Product(c, x) >= 0.0;
    }
  }

  /** The `k`-th term of the expansion of `(a + b)^n`; zero beyond `k = n`. */
  function BinomialTerm(n: nat, k: nat, a: real, b: real): real
  {
    if k <= n then WeightedTerm(Choose(n, k) as real, n, k, a, b) else 0.0
  }

  function Expansion(n: nat, a: real, b: real): nat -> real
  {
    (k: nat) => BinomialTerm(n, k, a, b)
  }

  lemma {:induction false} PascalAlgebra(c1: real, c2: real, a: real, pa: real, b: real, pb: real)
    ensures Product(Product(c1 + c2, Product(a, pa)), Product(b, pb))
         == Product(a, Product(Product(c1, pa), Product(b, pb))) + Product(b, Product(Product(c2, Product(a, pa)), pb))
  {
  }

  lemma {:induction false} TermStepInside(n: nat, j: nat, a: real, b: real)
    requires 1 <= j < n
    ensures BinomialTerm(n, j, a, b) == Product(a, BinomialTerm(n - 1, j - 1, a, b)) + Product(b, BinomialTerm(n - 1, j, a, b))
  {
    var pa, pb := Pow(a, j - 1), Pow(b, n - 1 - j);
    var c1, c2 := Choose(n - 1, j - 1) as real, Choose(n - 1, j) as real;
    assert BinomialTerm(n, j, a, b) == Product(Product(c1 + c2, Product(a, pa)), Product(b, pb));
    assert BinomialTerm(n - 1, j - 1, a, b) == Product(Product(c1, pa), Product(b, pb));
    assert BinomialTerm(n - 1, j, a, b) == Product(Product(c2, Product(a, pa)), pb);
    PascalAlgebra(c1, c2, a, pa, b, pb);
  }

  lemma {:induction false} TermStepTop(n: nat, a: real, b: real)
    requires n > 0
    ensures BinomialTerm(n, n, a, b) == Product(a, BinomialTerm(n - 1, n - 1, a, b)) + Product(b, BinomialTerm(n - 1, n, a, b))
  {
    TermAll(n, a, b);
    TermAll(n - 1, a, b);
    PowStep(a, n);
  }

  lemma {:induction false} TermAll(m: nat, a: real, b: real)
    ensures BinomialTerm(m, m, a, b) == Pow(a, m)
  {
    ChooseAll(m);
    assert Pow(b, m - m) == 1.0;
  }

  /** Pascal's rule lifted to the terms of the expansion. */
  lemma {:induction false} TermStep(n: nat, j: nat, a: real, b: real)
    requires 1 <= j <= n
    ensures BinomialTerm(n, j, a, b) == Product(a, BinomialTerm(n - 1, j - 1, a, b)) + Product(b, BinomialTerm(n - 1, j, a, b))
  {
    if j < n {
      TermStepInside(n, j, a, b);
    } else {
      TermStepTop(n, a, b);
    }
  }

  lemma {:induction false} NextRowAt(f: nat -> real, a: real, b: real, k: nat)
    requires k > 0
    ensures NextRow(f, a, b)(k) == Product(a, f(k - 1)) + Product(b, f(k))
  {
  }

  lemma {:induction false} RowFirst(n: nat, a: real, b: real)
    requires n > 0
    ensures Expansion(n, a, b)(0) == NextRow(Expansion(n - 1, a, b), a, b)(0)
  {
    var f := Expansion(n - 1, a, b);
    assert Scale(a, Shifted(f))(0) == Product(a, 0.0) == 0.0;
    assert NextRow(f, a, b)(0) == Product(b, f(0));
    assert f(0) == Pow(b, n - 1);
    PowStep(b, n);
  }

  lemma {:induction false} RowMiddle(n: nat, k: nat, a: real, b: real)
    requires 1 <= k <= n
    ensures Expansion(n, a, b)(k) == NextRow(Expansion(n - 1, a, b), a, b)(k)
  {
    NextRowAt(Expansion(n - 1, a, b), a, b, k);
    TermStep(n, k, a, b);
  }

  lemma {:induction false} RowCongruent(n: nat, a: real, b: real)
    requires n > 0
    ensures SumTo(Expansion(n, a, b), n + 1) == SumTo(NextRow(Expansion(n - 1, a, b), a, b), n + 1)
  {
    var f := Expansion(n - 1, a, b);
    forall k: nat | k < n + 1 ensures Expansion(n, a, b)(k) == NextRow(f, a, b)(k) {
      if k == 0 {
        RowFirst(n, a, b);
      } else {
        RowMiddle(n, k, a, b);
      }
    }
    SumCongruent(Expansion(n, a, b), NextRow(f, a, b), n + 1);
  }

  lemma {:induction false} ExpansionEnd(n: nat, a: real, b: real)
    ensures Expansion(n, a, b)(n + 1) == 0.0
  {
  }

  lemma {:induction false} RowStep(n: nat, a: real, b: real)
    requires n > 0
    ensures SumTo(Expansion(n, a, b), n + 1) == Product(a + b, SumTo(Expansion(n - 1, a, b), n))
  {
    RowCongruent(n, a, b);
    ExpansionEnd(n - 1, a, b);
    NextRowSum(Expansion(n - 1, a, b), a, b, n);
  }

  lemma {:induction false} BinomialTheoremStep(n: nat, a: real, b: real)
    requires n > 0
    requires SumTo(Expansion(n - 1, a, b), n) == Pow(a + b, n - 1)
    ensures SumTo(Expansion(n, a, b), n + 1) == Pow(a + b, n)
  {
    RowStep(n, a, b);
    PowStep(a + b, n);
  }

  lemma {:induction false} BinomialTheoremBase(a: real, b: real)
    ensures SumTo(Expansion(0, a, b), 1) == Pow(a + b, 0)
  {
    assert SumTo(Expansion(0, a, b), 1) == Expansion(0, a, b)(0);
  }

  /** The binomial theorem: the terms `C(n, k) a^k b^(n-k)` for `k = 0..n` add up to `(a + b)^n`. */
  lemma {:induction false} BinomialTheorem(n: nat, a: real, b: real)
    ensures SumTo(Expansion(n, a, b), n + 1) == Pow(a + b, n)
  {
    if n == 0 {
      BinomialTheoremBase(a, b);
    } else {
      BinomialTheorem(n - 1, a, b);
      BinomialTheoremStep(n, a, b);
    }
  }
}
