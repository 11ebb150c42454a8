/** Sums over sequences of reals, shared by the modules that model floating-point code over the
    reals. */
module Reals {

  function Sum(s: seq<real>): real {
    if s == [] then 0.0 else Sum(s[..|s| - 1]) + s[|s| - 1]
  }

  function Squares(s: seq<real>): real {
    if s == [] then 0.0 else Squares(s[..|s| - 1]) + s[|s| - 1] * s[|s| - 1]
  }

  ghost predicate AtMost(s: seq<real>, top: real) {
    forall i | 0 <= i < |s| :: s[i] <= top
  }

  function Abs(x: real): real {
    if x < 0.0 then -x else x
  }

  lemma {:induction false} SumSplits(a: seq<real>, b: seq<real>)
    ensures Sum(a + b) == Sum(a) + Sum(b) && Squares(a + b) == Squares(a) + Squares(b)
  {
    if b == [] {
      assert a + b == a;
    } else {
      SumSplits(a, b[..|b| - 1]);
      assert (a + b)[..|a + b| - 1] == a + b[..|b| - 1];
    }
  }

  lemma SquareIsNonNegative(x: real)
    ensures x * x >= 0.0
  {
  }

  lemma {:induction false} SquaresNonNegative(s: seq<real>)
    ensures Squares(s) >= 0.0
  {
    if s != [] {
      SquaresNonNegative(s[..|s| - 1]);
      SquareIsNonNegative(s[|s| - 1]);
    }
  }

  lemma TwiceProduct(n: real, x: real, sum: real, squares: real)
    requires n > 0.0 && sum * sum <= n * squares
    ensures 2.0 * sum * x <= n * x * x + squares
  {
    SquareIsNonNegative(n * x - sum);
    assert (n * x - sum) * (n * x - sum) == n * (n * x * x) - 2.0 * n * (sum * x) + sum * sum;
    assert n * (n * x * x - 2.0 * (sum * x) + squares) >= 0.0;
    Positive(n, n * x * x - 2.0 * (sum * x) + squares);
  }

  lemma Positive(n: real, y: real)
    requires n > 0.0 && n * y >= 0.0
    ensures y >= 0.0
  {
  }

  lemma PositiveValue(a: real, b: real, v: real)
    requires a > 0.0 && b > 0.0 && v == a * b
    ensures v > 0.0
  {
  }

  lemma NonNegativeValue(a: real, b: real, v: real)
    requires a >= 0.0 && b >= 0.0 && v == a * b
    ensures v >= 0.0
  {
  }

  /** The Cauchy-Schwarz inequality against the constant sequence. */
  lemma {:induction false} SquareOfSum(s: seq<real>)
    ensures Sum(s) * Sum(s) <= |s| as real * Squares(s)
  {
    if |s| == 1 {
      assert s[..0] == [];
    } else if |s| > 1 {
      var init, x := s[..|s| - 1], s[|s| - 1];
      SquareOfSum(init);
      var n, sum, squares := |init| as real, Sum(init), Squares(init);
      TwiceProduct(n, x, sum, squares);
      Expand(n, x, sum, squares);
    }
  }

  lemma Expand(n: real, x: real, sum: real, squares: real)
    requires sum * sum <= n * squares && 2.0 * sum * x <= n * x * x + squares
    ensures (sum + x) * (sum + x) <= (n + 1.0) * (squares + x * x)
  {
    assert (sum + x) * (sum + x) == sum * sum + 2.0 * sum * x + x * x;
    assert (n + 1.0) * (squares + x * x) == n * squares + n * x * x + squares + x * x;
  }
}
