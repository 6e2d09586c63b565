/** Evaluation of a Chebyshev series at a point of [lb, ub] by Clenshaw's recurrence
    (Numerical Recipes in Fortran 77, routine chebev), in the three forms of
    jpl_ephemeris/chebyshev/chebyshev_eval.hpp: with an explicit order, with the order
    taken from the coefficient count, and with lb and ub stored in front of the
    coefficients. Doubles are modelled as reals; a thrown std::invalid_argument is an
    Err result. */
module ChebyshevEval {
  import opened Errors
  import opened ChebyshevUtil
  import opened ChebyshevSeries

  /** The defaults of the C++ signatures. */
  const DefaultCoeff0Factor: real := 0.5
  const DefaultExtrapolationTol: real := 0.000001

  function Abs(r: real): (a: real)
    ensures a >= 0.0 && (a == r || a == -r)
  {
    if r < 0.0 then -r else r
  }

  /** x lies below lb by more than the extrapolation tolerance. */
  predicate OutsideLower(x: real, lb: real, tol: real)
  {
    x < lb && Abs(x - lb) > tol
  }

  /** x lies above ub by more than the extrapolation tolerance. */
  predicate OutsideUpper(x: real, ub: real, tol: real)
  {
    x > ub && Abs(x - ub) > tol
  }

  /** The order after the guard that lowers an order larger than N - 1 to N - 1. For
      N = 0 the C++ N - 1 wraps to the largest size_t, so the guard never fires. */
  function EffectiveOrder(n: nat, order: nat): (m: nat)
    ensures n >= 1 ==> m <= n - 1
    ensures n >= 1 && order <= n - 1 ==> m == order
  {
    if n >= 1 && order > n - 1 then n - 1 else order
  }

  /** What chebev promises: an error in the order the checks are made, otherwise
      factor * c[0] + sum_{k=1..m} c[k] T_k(y) with y the image of x in [-1, 1]. */
  function EvalOrderSpec(x: real, lb: real, ub: real, c: seq<real>, order: nat,
                         coeff0Factor: real, tol: real): Result<real>
    requires lb != ub
  {
    var m := EffectiveOrder(|c|, order);
    if m < 1 || |c| < 1 then Err(CoeffSizeInvalid)
    else if OutsideLower(x, lb, tol) then Err(BelowLowerBound)
    else if OutsideUpper(x, ub, tol) then Err(AboveUpperBound)
    else Ok(coeff0Factor * c[0] + Series(c, ToChebyshevRange(x, lb, ub), 1, m))
  }

  /** chebyshev_eval_order: Clenshaw's backward recurrence from k = order down to 1. */
  method ChebyshevEvalOrder(x: real, lb: real, ub: real, coeff: seq<real>, order: nat,
                            coeff0Factor: real := DefaultCoeff0Factor,
                            tol: real := DefaultExtrapolationTol)
    returns (r: Result<real>)
    requires lb != ub
    ensures r == EvalOrderSpec(x, lb, ub, coeff, order, coeff0Factor, tol)
  {
    var m := order;
    if |coeff| >= 1 && m > |coeff| - 1 {
      m := |coeff| - 1;
    }
    assert m == EffectiveOrder(|coeff|, order);
    if m < 1 || |coeff| < 1 {
      return Err(CoeffSizeInvalid);
    } else if x < lb && Abs(x - lb) > tol {
      return Err(BelowLowerBound);
    } else if x > ub && Abs(x - ub) > tol {
      return Err(AboveUpperBound);
    }
    var y := ToChebyshevRange(x, lb, ub);
    var d, dd := Recurrence(coeff, m, y);
    ClenshawResult(coeff, m, y, d, dd);
    var value := y * d - dd + coeff0Factor * coeff[0];
    assert value == coeff0Factor * coeff[0] + Series(coeff, y, 1, m);
    r := Ok(value);
  }

  /** The loop of chebyshev_eval_order: runs d <- 2y d - dd + c[k], dd <- d for
      k = m down to 1 and ends with d = b_1 and dd = b_2. */
  method Recurrence(coeff: seq<real>, m: nat, y: real) returns (d: real, dd: real)
    requires m < |coeff|
    ensures d == B(coeff, m, y, 1) && dd == B(coeff, m, y, 2)
  {
    var y2 := 2.0 * y;
    var sv := 0.0;
    d, dd := 0.0, 0.0;
    var k := m;
    while k >= 1
      invariant 0 <= k <= m
      invariant d == B(coeff, m, y, k + 1) && dd == B(coeff, m, y, k + 1 + 1)
      decreases k
    {
      RecurrenceStep(coeff, m, y, k);
      sv := d;
      d := y2 * d - dd + coeff[k];
      dd := sv;
      k := k - 1;
    }
  }

  /** The value read off the final state of the backward recurrence. */
  lemma ClenshawResult(c: seq<real>, n: nat, y: real, d: real, dd: real)
    requires n < |c|
    requires d == B(c, n, y, 1) && dd == B(c, n, y, 2)
    ensures Series(c, y, 1, n) == y * d - dd
  {
    ClenshawValue(c, n, y);
  }

  /** chebyshev_eval with separate bounds: the order is N - 1. */
  method ChebyshevEval(x: real, lb: real, ub: real, coeff: seq<real>,
                       coeff0Factor: real := DefaultCoeff0Factor,
                       tol: real := DefaultExtrapolationTol)
    returns (r: Result<real>)
    requires lb != ub
    ensures r == EvalOrderSpec(x, lb, ub, coeff, FullOrder(|coeff|), coeff0Factor, tol)
  {
    r := ChebyshevEvalOrder(x, lb, ub, coeff, FullOrder(|coeff|), coeff0Factor, tol);
  }

  /** N - 1 for a non-empty array. For N = 0 every order is rejected, so 0 stands in
      for the wrapped value. */
  function FullOrder(n: nat): nat
  {
    if n >= 1 then n - 1 else 0
  }

  /** The meaning of the array layout [lb, ub, c_0, ..., c_(N-3)] used for the
      planetary tables. */
  function EvalMergedSpec(x: real, lbUbCoeff: seq<real>, coeff0Factor: real, tol: real): Result<real>
    requires |lbUbCoeff| >= 3 ==> lbUbCoeff[0] != lbUbCoeff[1]
  {
    if |lbUbCoeff| < 3 then Err(MergedSizeInvalid)
    else EvalOrderSpec(x, lbUbCoeff[0], lbUbCoeff[1], lbUbCoeff[2..],
                       FullOrder(|lbUbCoeff| - 2), coeff0Factor, tol)
  }

  /** chebyshev_eval on a merged array: copies the coefficients out of the array and
      delegates. */
  method ChebyshevEvalMerged(x: real, lbUbCoeff: seq<real>,
                             coeff0Factor: real := DefaultCoeff0Factor,
                             tol: real := DefaultExtrapolationTol)
    returns (r: Result<real>)
    requires |lbUbCoeff| >= 3 ==> lbUbCoeff[0] != lbUbCoeff[1]
    ensures r == EvalMergedSpec(x, lbUbCoeff, coeff0Factor, tol)
  {
    if |lbUbCoeff| < 3 {
      return Err(MergedSizeInvalid);
    }
    var lb := lbUbCoeff[0];
    var ub := lbUbCoeff[1];
    var coeff := CopyCoefficients(lbUbCoeff);
    r := ChebyshevEval(x, lb, ub, coeff[..], coeff0Factor, tol);
  }

  /** The copy loop shared by both merged overloads: a fresh array holding
      lbUbCoeff[2..]. */
  method CopyCoefficients(lbUbCoeff: seq<real>) returns (coeff: array<real>)
    requires |lbUbCoeff| >= 3
    ensures fresh(coeff)
    ensures coeff[..] == lbUbCoeff[2..]
  {
    coeff := new real[|lbUbCoeff| - 2];
    var k := 0;
    while k < |lbUbCoeff| - 2
      invariant 0 <= k <= |lbUbCoeff| - 2
      invariant forall j :: 0 <= j < k ==> coeff[j] == lbUbCoeff[j + 2]
    {
      coeff[k] := lbUbCoeff[k + 2];
      k := k + 1;
    }
  }

  // ---------------------------------------------------------------------------
  // Properties of the specification

  /** For a non-negative tolerance the two extrapolation checks reject exactly the
      points more than tol outside [lb, ub]. */
  lemma ExtrapolationWindow(x: real, lb: real, ub: real, tol: real)
    requires tol >= 0.0
    ensures OutsideLower(x, lb, tol) <==> x < lb - tol
    ensures OutsideUpper(x, ub, tol) <==> x > ub + tol
  {
  }

  /** With a usable order, evaluation fails exactly outside [lb - tol, ub + tol], and
      the failure names the side that was crossed. */
  lemma {:induction false} EvalFailsExactlyOutsideWindow(x: real, lb: real, ub: real, c: seq<real>,
                                                         order: nat, f: real, tol: real)
    requires lb != ub && tol >= 0.0
    requires |c| >= 2 && order >= 1
    ensures EvalOrderSpec(x, lb, ub, c, order, f, tol).Ok? <==> lb - tol <= x <= ub + tol
    ensures x < lb - tol ==> EvalOrderSpec(x, lb, ub, c, order, f, tol) == Err(BelowLowerBound)
    ensures x > ub + tol && x >= lb ==> EvalOrderSpec(x, lb, ub, c, order, f, tol) == Err(AboveUpperBound)
  {
    ExtrapolationWindow(x, lb, ub, tol);
  }

  /** A single coefficient is always rejected, whatever order is asked for: the guard
      lowers the order to 0. */
  lemma OneCoefficientRejected(x: real, lb: real, ub: real, c: seq<real>, order: nat, f: real, tol: real)
    requires lb != ub && |c| == 1
    ensures EvalOrderSpec(x, lb, ub, c, order, f, tol) == Err(CoeffSizeInvalid)
  {
  }

  /** Hence a merged array of exactly three entries (lb, ub and one coefficient) is also
      rejected, after passing the merged size check. */
  lemma MergedThreeRejected(x: real, lbUbCoeff: seq<real>, f: real, tol: real)
    requires |lbUbCoeff| == 3 && lbUbCoeff[0] != lbUbCoeff[1]
    ensures EvalMergedSpec(x, lbUbCoeff, f, tol) == Err(CoeffSizeInvalid)
  {
    OneCoefficientRejected(x, lbUbCoeff[0], lbUbCoeff[1], lbUbCoeff[2..], 0, f, tol);
  }

  /** An order beyond N - 1 behaves as N - 1. */
  lemma ExcessOrderClamped(x: real, lb: real, ub: real, c: seq<real>, order: nat, f: real, tol: real)
    requires lb != ub && |c| >= 1 && order > |c| - 1
    ensures EvalOrderSpec(x, lb, ub, c, order, f, tol) == EvalOrderSpec(x, lb, ub, c, |c| - 1, f, tol)
  {
  }

  /** Coefficients above the effective order are never read. */
  lemma HigherCoefficientsIgnored(x: real, lb: real, ub: real, c1: seq<real>, c2: seq<real>,
                                  order: nat, f: real, tol: real)
    requires lb != ub && 1 <= order < |c1| && order < |c2|
    requires forall k :: 0 <= k <= order ==> c1[k] == c2[k]
    ensures EvalOrderSpec(x, lb, ub, c1, order, f, tol) == EvalOrderSpec(x, lb, ub, c2, order, f, tol)
  {
    assert EffectiveOrder(|c1|, order) == order == EffectiveOrder(|c2|, order);
    SeriesOnlyReadsRange(c1, c2, ToChebyshevRange(x, lb, ub), 1, order);
    assert f * c1[0] == f * c2[0];
    var y := ToChebyshevRange(x, lb, ub);
    assert Series(c1, y, 1, order) == Series(c2, y, 1, order);
    assert f * c1[0] + Series(c1, y, 1, order) == f * c2[0] + Series(c2, y, 1, order);
  }

  /** At the upper bound every T_k is 1, so the value is f * c[0] plus the plain sum of
      the remaining coefficients. */
  lemma EvalAtUpperBound(lb: real, ub: real, c: seq<real>, f: real, tol: real)
    requires lb < ub && |c| >= 2
    ensures EvalOrderSpec(ub, lb, ub, c, |c| - 1, f, tol) == Ok(f * c[0] + Sum(c, 1, |c| - 1))
  {
    Endpoints(lb, ub);
    assert ToChebyshevRange(ub, lb, ub) == 1.0;
    assert EffectiveOrder(|c|, |c| - 1) == |c| - 1;
    SeriesAtOne(c, 1, |c| - 1);
  }

  /** sum_{k=lo..hi} c[k]. */
  function Sum(c: seq<real>, lo: nat, hi: int): real
    requires hi < |c|
    decreases hi - lo
  {
    if lo > hi then 0.0 else c[lo] + Sum(c, lo + 1, hi)
  }

  lemma {:induction false} SeriesAtOne(c: seq<real>, lo: nat, hi: int)
    requires hi < |c|
    ensures Series(c, 1.0, lo, hi) == Sum(c, lo, hi)
    decreases hi - lo
  {
    if lo <= hi {
      ValuesAtOne(lo);
      SeriesAtOne(c, lo + 1, hi);
    }
  }
}
