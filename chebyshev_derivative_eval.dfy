/** Evaluation of the x-derivative of a Chebyshev series at a point of [lb, ub]
    (Numerical Recipes in Fortran 77, routine chder), in the two forms of
    jpl_ephemeris/chebyshev/chebyshev_derivative_eval.hpp: with separate bounds and
    with lb and ub stored in front of the coefficients. */
module ChebyshevDerivativeEval {
  import opened Errors
  import opened ChebyshevUtil
  import opened ChebyshevSeries
  import opened ChebyshevEval

  /** What chder promises: an error in the order the checks are made, otherwise
      (2 / (ub - lb)) * sum_{k=1..N-1} c[k] T'_k(y), the chain rule applied to the
      series of ChebyshevEval with dy/dx = 2 / (ub - lb). c[0] does not enter. */
  function DerivSpec(x: real, lb: real, ub: real, c: seq<real>, tol: real): Result<real>
    requires lb != ub
  {
    if |c| < 1 then Err(CoeffSizeInvalid)
    else if OutsideLower(x, lb, tol) then Err(BelowLowerBound)
    else if OutsideUpper(x, ub, tol) then Err(AboveUpperBound)
    else Ok(ChainRule(lb, ub, DSeries(c, ToChebyshevRange(x, lb, ub), 1, |c| - 1)))
  }

  /** A derivative with respect to the Chebyshev variable y turned into one with
      respect to x: dy/dx = 2 / (ub - lb). */
  function ChainRule(lb: real, ub: real, dfdy: real): real
    requires lb != ub
  {
    (2.0 / (ub - lb)) * dfdy
  }

  /** chebyshev_derivative_eval with separate bounds. Unlike the value evaluator it has
      no order argument and accepts a single coefficient. */
  method ChebyshevDerivativeEvalBounds(x: real, lb: real, ub: real, coeff: seq<real>,
                                       tol: real := DefaultExtrapolationTol)
    returns (r: Result<real>)
    requires lb != ub
    ensures r == DerivSpec(x, lb, ub, coeff, tol)
  {
    if |coeff| < 1 {
      return Err(CoeffSizeInvalid);
    } else if x < lb && Abs(x - lb) > tol {
      return Err(BelowLowerBound);
    } else if x > ub && Abs(x - ub) > tol {
      return Err(AboveUpperBound);
    }
    var y := ToChebyshevRange(x, lb, ub);
    var d, dd, dp, ddp := CoupledRecurrence(coeff, |coeff| - 1, y);
    DerivativeResult(coeff, |coeff| - 1, y, d, dp, ddp);
    var factor := 2.0 / (ub - lb);
    var readOut := y * dp - ddp + d;
    assert readOut == DSeries(coeff, y, 1, |coeff| - 1);
    assert factor * readOut == ChainRule(lb, ub, readOut);
    r := Ok(factor * readOut);
  }

  /** The loop of chebyshev_derivative_eval: for k = n down to 1 it first advances the
      derivative pair with the old d, then the value pair, and ends with
      d = b_1, dd = b_2, dp = b'_1 and ddp = b'_2. */
  method CoupledRecurrence(coeff: seq<real>, n: nat, y: real)
    returns (d: real, dd: real, dp: real, ddp: real)
    requires n < |coeff|
    ensures d == B(coeff, n, y, 1) && dd == B(coeff, n, y, 2)
    ensures dp == BP(coeff, n, y, 1) && ddp == BP(coeff, n, y, 2)
  {
    var y2 := 2.0 * y;
    var sv, svp := 0.0, 0.0;
    d, dd, dp, ddp := 0.0, 0.0, 0.0, 0.0;
    var k := n;
    while k >= 1
      invariant 0 <= k <= n
      invariant d == B(coeff, n, y, k + 1) && dd == B(coeff, n, y, k + 1 + 1)
      invariant dp == BP(coeff, n, y, k + 1) && ddp == BP(coeff, n, y, k + 1 + 1)
      decreases k
    {
      RecurrenceStep(coeff, n, y, k);
      svp := dp;
      dp := y2 * dp - ddp + 2.0 * d;
      ddp := svp;
      sv := d;
      d := y2 * d - dd + coeff[k];
      dd := sv;
      k := k - 1;
    }
  }

  /** The derivative read off the final state of the coupled recurrence. */
  lemma DerivativeResult(c: seq<real>, n: nat, y: real, d: real, dp: real, ddp: real)
    requires n < |c|
    requires d == B(c, n, y, 1) && dp == BP(c, n, y, 1) && ddp == BP(c, n, y, 2)
    ensures ReadOut(DSeries(c, y, 1, n), y, dp, ddp, d)
  {
    ClenshawDerivative(c, n, y);
  }

  /** The meaning of the merged layout [lb, ub, c_0, ..., c_(N-3)]. */
  function DerivMergedSpec(x: real, lbUbCoeff: seq<real>, tol: real): Result<real>
    requires |lbUbCoeff| >= 3 ==> lbUbCoeff[0] != lbUbCoeff[1]
  {
    if |lbUbCoeff| < 3 then Err(MergedSizeInvalid)
    else DerivSpec(x, lbUbCoeff[0], lbUbCoeff[1], lbUbCoeff[2..], tol)
  }

  /** chebyshev_derivative_eval on a merged array. */
  method ChebyshevDerivativeEvalMerged(x: real, lbUbCoeff: seq<real>,
                                       tol: real := DefaultExtrapolationTol)
    returns (r: Result<real>)
    requires |lbUbCoeff| >= 3 ==> lbUbCoeff[0] != lbUbCoeff[1]
    ensures r == DerivMergedSpec(x, lbUbCoeff, tol)
  {
    if |lbUbCoeff| < 3 {
      return Err(MergedSizeInvalid);
    }
    var lb := lbUbCoeff[0];
    var ub := lbUbCoeff[1];
    var coeff := CopyCoefficients(lbUbCoeff);
    r := ChebyshevDerivativeEvalBounds(x, lb, ub, coeff[..], tol);
  }

  // ---------------------------------------------------------------------------
  // Properties of the specification

  /** With at least one coefficient, the derivative fails exactly outside
      [lb - tol, ub + tol]. */
  lemma DerivFailsExactlyOutsideWindow(x: real, lb: real, ub: real, c: seq<real>, tol: real)
    requires lb != ub && tol >= 0.0 && |c| >= 1
    ensures DerivSpec(x, lb, ub, c, tol).Ok? <==> lb - tol <= x <= ub + tol
    ensures x < lb - tol ==> DerivSpec(x, lb, ub, c, tol) == Err(BelowLowerBound)
  {
    ExtrapolationWindow(x, lb, ub, tol);
  }

  /** The constant term does not affect the derivative. */
  lemma ConstantTermIgnored(x: real, lb: real, ub: real, c1: seq<real>, c2: seq<real>, tol: real)
    requires lb != ub && |c1| == |c2|
    requires forall k :: 1 <= k < |c1| ==> c1[k] == c2[k]
    ensures DerivSpec(x, lb, ub, c1, tol) == DerivSpec(x, lb, ub, c2, tol)
  {
    if |c1| >= 1 {
      var y := ToChebyshevRange(x, lb, ub);
      SeriesOnlyReadsRange(c1, c2, y, 1, |c1| - 1);
      assert ChainRule(lb, ub, DSeries(c1, y, 1, |c1| - 1)) == ChainRule(lb, ub, DSeries(c2, y, 1, |c2| - 1));
    }
  }

  /** A single coefficient is a constant series: its derivative is zero at every point
      of the window, where the value evaluator rejects the same array. */
  lemma SingleCoefficientHasZeroDerivative(x: real, lb: real, ub: real, c: seq<real>, tol: real)
    requires lb != ub && |c| == 1
    requires !OutsideLower(x, lb, tol) && !OutsideUpper(x, ub, tol)
    ensures DerivSpec(x, lb, ub, c, tol) == Ok(0.0)
    ensures EvalOrderSpec(x, lb, ub, c, 0, DefaultCoeff0Factor, tol) == Err(CoeffSizeInvalid)
  {
  }

  /** At the upper bound T'_k = k^2, so the derivative is (2 / (ub - lb)) * sum k^2 c[k]. */
  lemma DerivAtUpperBound(lb: real, ub: real, c: seq<real>, tol: real)
    requires lb < ub && |c| >= 1
    ensures DerivSpec(ub, lb, ub, c, tol) == Ok((2.0 / (ub - lb)) * SquareWeightedSum(c, 1, |c| - 1))
  {
    Endpoints(lb, ub);
    assert ToChebyshevRange(ub, lb, ub) == 1.0;
    DSeriesAtOne(c, 1, |c| - 1);
    assert ChainRule(lb, ub, DSeries(c, 1.0, 1, |c| - 1)) == ChainRule(lb, ub, SquareWeightedSum(c, 1, |c| - 1));
  }

  /** sum_{k=lo..hi} k^2 c[k]. */
  function SquareWeightedSum(c: seq<real>, lo: nat, hi: int): real
    requires hi < |c|
    decreases hi - lo
  {
    if lo > hi then 0.0 else (lo * lo) as real * c[lo] + SquareWeightedSum(c, lo + 1, hi)
  }

  lemma {:induction false} DSeriesAtOne(c: seq<real>, lo: nat, hi: int)
    requires hi < |c|
    ensures DSeries(c, 1.0, lo, hi) == SquareWeightedSum(c, lo, hi)
    decreases hi - lo
  {
    if lo <= hi {
      ValuesAtOne(lo);
      DSeriesAtOne(c, lo + 1, hi);
    }
  }

  /** For two coefficients the series is affine in x, and the derivative evaluator
      returns exactly the slope between any two points of the window. */
  lemma {:induction false} LinearSeriesSlope(x1: real, x2: real, lb: real, ub: real,
                                             c: seq<real>, f: real, tol: real)
    requires lb != ub && |c| == 2
    requires !OutsideLower(x1, lb, tol) && !OutsideUpper(x1, ub, tol)
    requires !OutsideLower(x2, lb, tol) && !OutsideUpper(x2, ub, tol)
    ensures EvalOrderSpec(x1, lb, ub, c, 1, f, tol).Ok?
    ensures EvalOrderSpec(x2, lb, ub, c, 1, f, tol).Ok?
    ensures DerivSpec(x1, lb, ub, c, tol).Ok?
    ensures EvalOrderSpec(x2, lb, ub, c, 1, f, tol).value - EvalOrderSpec(x1, lb, ub, c, 1, f, tol).value
         == DerivSpec(x1, lb, ub, c, tol).value * (x2 - x1)
  {
    var y1 := ToChebyshevRange(x1, lb, ub);
    var y2 := ToChebyshevRange(x2, lb, ub);
    assert Series(c, y1, 1, 1) == c[1] * y1;
    assert Series(c, y2, 1, 1) == c[1] * y2;
    assert DSeries(c, y1, 1, 1) == c[1];
    SlopeOfAffineMap(x1, x2, lb, ub, c[1]);
  }

  /** The Chebyshev variable moves by (2 / (ub - lb)) per unit of x. */
  lemma SlopeOfAffineMap(x1: real, x2: real, lb: real, ub: real, a: real)
    requires lb != ub
    ensures a * ToChebyshevRange(x2, lb, ub) - a * ToChebyshevRange(x1, lb, ub)
         == (2.0 / (ub - lb)) * a * (x2 - x1)
  {
    var h := 0.5 * (ub - lb);
    var m := 0.5 * (ub + lb);
    assert ToChebyshevRange(x2, lb, ub) - ToChebyshevRange(x1, lb, ub) == (x2 - x1) / h;
    assert 2.0 / (ub - lb) == 1.0 / h;
    assert (x2 - x1) / h == (1.0 / h) * (x2 - x1);
  }
}
