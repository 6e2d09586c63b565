/** Chebyshev polynomials of the first kind, their y-derivatives, finite Chebyshev
    series, and the state of Clenshaw's backward recurrence (Numerical Recipes in
    Fortran 77, routines chebev and chder). The identities proved here are what let
    the two evaluators' backward loops be stated as Chebyshev sums. */
module ChebyshevSeries {

  /** T_k(y): T_0 = 1, T_1 = y, T_k = 2y T_(k-1) - T_(k-2). */
  function T(k: nat, y: real): real
  {
    if k == 0 then 1.0
    else if k == 1 then y
    else 2.0 * y * T(k - 1, y) - T(k - 2, y)
  }

  /** T'_k(y), the y-derivative of T_k, by differentiating the recurrence of T:
      T'_0 = 0, T'_1 = 1, T'_k = 2 T_(k-1) + 2y T'_(k-1) - T'_(k-2). */
  function DT(k: nat, y: real): real
  {
    if k == 0 then 0.0
    else if k == 1 then 1.0
    else 2.0 * T(k - 1, y) + 2.0 * y * DT(k - 1, y) - DT(k - 2, y)
  }

  /** The sum of c[k] * T_k(y) for lo <= k <= hi (zero when lo > hi). */
  function Series(c: seq<real>, y: real, lo: nat, hi: int): real
    requires hi < |c|
    decreases hi - lo
  {
    if lo > hi then 0.0 else c[lo] * T(lo, y) + Series(c, y, lo + 1, hi)
  }

  /** The sum of c[k] * T'_k(y) for lo <= k <= hi (zero when lo > hi). */
  function DSeries(c: seq<real>, y: real, lo: nat, hi: int): real
    requires hi < |c|
    decreases hi - lo
  {
    if lo > hi then 0.0 else c[lo] * DT(lo, y) + DSeries(c, y, lo + 1, hi)
  }

  /** Clenshaw's b_j for the coefficients c[1..n]:
      b_j = 2y b_(j+1) - b_(j+2) + c[j] for 1 <= j <= n, and b_j = 0 beyond n. */
  function B(c: seq<real>, n: nat, y: real, j: nat): real
    requires n < |c|
    decreases n - j
  {
    if j > n then 0.0 else 2.0 * y * B(c, n, y, j + 1) - B(c, n, y, j + 2) + c[j]
  }

  /** The derivative recurrence run beside b_j by chder:
      b'_j = 2y b'_(j+1) - b'_(j+2) + 2 b_(j+1) for 1 <= j <= n, and 0 beyond n. */
  function BP(c: seq<real>, n: nat, y: real, j: nat): real
    requires n < |c|
    decreases n - j
  {
    if j > n then 0.0
    else 2.0 * y * BP(c, n, y, j + 1) - BP(c, n, y, j + 2) + 2.0 * B(c, n, y, j + 1)
  }

  // The inductions below relate several recursive functions through products. Each
  // step fact is stated through one of the named predicates that follow, so that a
  // step of an induction closes by matching these facts rather than by nonlinear
  // arithmetic over the unfolded definitions.

  /** s = b0 t1 - b1 t0. */
  ghost predicate TwoTerm(s: real, b0: real, t1: real, b1: real, t0: real)
  {
    s == b0 * t1 - b1 * t0
  }

  /** s = b0 d1 - b1 d0 + p0 t1 - p1 t0. */
  ghost predicate FourTerm(s: real, b0: real, d1: real, b1: real, d0: real,
                           p0: real, t1: real, p1: real, t0: real)
  {
    s == b0 * d1 - b1 * d0 + p0 * t1 - p1 * t0
  }

  /** x2 = 2y x1 - x0 + e, the shape of the recurrences of T and of b. */
  ghost predicate ThreeTerm(x2: real, y: real, x1: real, x0: real, e: real)
  {
    x2 == 2.0 * y * x1 - x0 + e
  }

  /** d2 = 2 t1 + 2y d1 - d0, the recurrence of T'. */
  ghost predicate DerivRec(d2: real, y: real, d1: real, d0: real, t1: real)
  {
    d2 == 2.0 * t1 + 2.0 * y * d1 - d0
  }

  /** p0 = 2y p1 - p2 + 2 b1, the recurrence of b'. */
  ghost predicate CoupledRec(p0: real, y: real, p1: real, p2: real, b1: real)
  {
    p0 == 2.0 * y * p1 - p2 + 2.0 * b1
  }

  /** s0 = cj t + s1, one term split off a sum. */
  ghost predicate SumStep(s0: real, cj: real, t: real, s1: real)
  {
    s0 == cj * t + s1
  }

  lemma SeriesStep(c: seq<real>, n: nat, y: real, j: nat)
    requires n < |c| && j <= n
    ensures SumStep(Series(c, y, j, n), c[j], T(j, y), Series(c, y, j + 1, n))
    ensures SumStep(DSeries(c, y, j, n), c[j], DT(j, y), DSeries(c, y, j + 1, n))
  {
  }

  lemma RecurrenceStep(c: seq<real>, n: nat, y: real, j: nat)
    requires n < |c| && j <= n
    ensures ThreeTerm(B(c, n, y, j), y, B(c, n, y, j + 1), B(c, n, y, j + 1 + 1), c[j])
    ensures CoupledRec(BP(c, n, y, j), y, BP(c, n, y, j + 1), BP(c, n, y, j + 1 + 1), B(c, n, y, j + 1))
  {
  }

  lemma PolynomialStep(y: real, i: nat)
    ensures ThreeTerm(T(i + 1 + 1, y), y, T(i + 1, y), T(i, y), 0.0)
    ensures DerivRec(DT(i + 1 + 1, y), y, DT(i + 1, y), DT(i, y), T(i + 1, y))
  {
    var k := i + 1 + 1;
    assert k - 1 == i + 1 && k - 2 == i;
    assert T(k, y) == 2.0 * y * T(i + 1, y) - T(i, y);
    assert DT(k, y) == 2.0 * T(i + 1, y) + 2.0 * y * DT(i + 1, y) - DT(i, y);
  }

  /** The ring identity behind one step of ClenshawTail. */
  lemma ValueStep(cj: real, y: real, s0: real, s1: real, b0: real, b1: real, b2: real,
                  t0: real, t1: real, t2: real)
    requires SumStep(s0, cj, t1, s1)
    requires TwoTerm(s1, b1, t2, b2, t1)
    requires ThreeTerm(t2, y, t1, t0, 0.0)
    requires ThreeTerm(b0, y, b1, b2, cj)
    ensures TwoTerm(s0, b0, t1, b1, t0)
  {
  }

  /** The tail identity of Clenshaw's recurrence: for j = i + 1,
      sum_{k=j..n} c[k] T_k(y) = b_j T_j(y) - b_(j+1) T_(j-1)(y). */
  lemma {:induction false} ClenshawTail(c: seq<real>, n: nat, y: real, i: nat)
    requires n < |c| && i <= n
    ensures TwoTerm(Series(c, y, i + 1, n), B(c, n, y, i + 1), T(i + 1, y), B(c, n, y, i + 1 + 1), T(i, y))
    decreases n - i
  {
    if i < n {
      ClenshawTail(c, n, y, i + 1);
      SeriesStep(c, n, y, i + 1);
      RecurrenceStep(c, n, y, i + 1);
      PolynomialStep(y, i);
      ValueStep(c[i + 1], y, Series(c, y, i + 1, n), Series(c, y, i + 1 + 1, n),
                B(c, n, y, i + 1), B(c, n, y, i + 1 + 1), B(c, n, y, i + 1 + 1 + 1),
                T(i, y), T(i + 1, y), T(i + 1 + 1, y));
    }
  }

  /** Clenshaw's value identity: sum_{k=1..n} c[k] T_k(y) = y b_1 - b_2. */
  lemma ClenshawValue(c: seq<real>, n: nat, y: real)
    requires n < |c|
    ensures Series(c, y, 1, n) == y * B(c, n, y, 1) - B(c, n, y, 2)
  {
    ClenshawTail(c, n, y, 0);
  }

  /** The ring identity behind one step of ClenshawDerivativeTail. */
  lemma DerivativeStep(cj: real, y: real, s0: real, s1: real,
                       b0: real, b1: real, b2: real, p0: real, p1: real, p2: real,
                       t0: real, t1: real, t2: real, d0: real, d1: real, d2: real)
    requires SumStep(s0, cj, d1, s1)
    requires FourTerm(s1, b1, d2, b2, d1, p1, t2, p2, t1)
    requires ThreeTerm(t2, y, t1, t0, 0.0)
    requires DerivRec(d2, y, d1, d0, t1)
    requires ThreeTerm(b0, y, b1, b2, cj)
    requires CoupledRec(p0, y, p1, p2, b1)
    ensures FourTerm(s0, b0, d1, b1, d0, p0, t1, p1, t0)
  {
  }

  /** The tail identity of chder's coupled recurrence, the y-derivative of
      ClenshawTail's right-hand side: for j = i + 1,
      sum_{k=j..n} c[k] T'_k = b_j T'_j - b_(j+1) T'_(j-1) + b'_j T_j - b'_(j+1) T_(j-1). */
  lemma {:induction false} ClenshawDerivativeTail(c: seq<real>, n: nat, y: real, i: nat)
    requires n < |c| && i <= n
    ensures FourTerm(DSeries(c, y, i + 1, n),
                     B(c, n, y, i + 1), DT(i + 1, y), B(c, n, y, i + 1 + 1), DT(i, y),
                     BP(c, n, y, i + 1), T(i + 1, y), BP(c, n, y, i + 1 + 1), T(i, y))
    decreases n - i
  {
    if i < n {
      ClenshawDerivativeTail(c, n, y, i + 1);
      SeriesStep(c, n, y, i + 1);
      RecurrenceStep(c, n, y, i + 1);
      PolynomialStep(y, i);
      DerivativeStep(c[i + 1], y, DSeries(c, y, i + 1, n), DSeries(c, y, i + 1 + 1, n),
                     B(c, n, y, i + 1), B(c, n, y, i + 1 + 1), B(c, n, y, i + 1 + 1 + 1),
                     BP(c, n, y, i + 1), BP(c, n, y, i + 1 + 1), BP(c, n, y, i + 1 + 1 + 1),
                     T(i, y), T(i + 1, y), T(i + 1 + 1, y),
                     DT(i, y), DT(i + 1, y), DT(i + 1 + 1, y));
    }
  }

  /** s = y p1 - p2 + e, the read-out of a backward recurrence. */
  ghost predicate ReadOut(s: real, y: real, p1: real, p2: real, e: real)
  {
    s == y * p1 - p2 + e
  }

  /** chder's derivative identity: sum_{k=1..n} c[k] T'_k(y) = y b'_1 - b'_2 + b_1. */
  lemma ClenshawDerivative(c: seq<real>, n: nat, y: real)
    requires n < |c|
    ensures ReadOut(DSeries(c, y, 1, n), y, BP(c, n, y, 1), BP(c, n, y, 2), B(c, n, y, 1))
  {
    ClenshawDerivativeTail(c, n, y, 0);
    assert DT(1, y) == 1.0 && DT(0, y) == 0.0 && T(1, y) == y && T(0, y) == 1.0;
    ReadOutOfTail(DSeries(c, y, 1, n), y, B(c, n, y, 1), B(c, n, y, 2), BP(c, n, y, 1), BP(c, n, y, 2));
  }

  /** FourTerm at j = 1, where T'_1 = 1, T'_0 = 0, T_1 = y and T_0 = 1. */
  lemma ReadOutOfTail(s: real, y: real, b1: real, b2: real, p1: real, p2: real)
    requires FourTerm(s, b1, 1.0, b2, 0.0, p1, y, p2, 1.0)
    ensures ReadOut(s, y, p1, p2, b1)
  {
  }

  /** Only the coefficients with index in [lo, hi] enter the series. */
  lemma {:induction false} SeriesOnlyReadsRange(c1: seq<real>, c2: seq<real>, y: real, lo: nat, hi: int)
    requires hi < |c1| && hi < |c2|
    requires forall k :: lo <= k <= hi ==> c1[k] == c2[k]
    ensures Series(c1, y, lo, hi) == Series(c2, y, lo, hi)
    ensures DSeries(c1, y, lo, hi) == DSeries(c2, y, lo, hi)
    decreases hi - lo
  {
    if lo <= hi {
      SeriesOnlyReadsRange(c1, c2, y, lo + 1, hi);
    }
  }

  /** Sanity check of the recursive definitions against the closed forms at y = 1:
      T_k(1) = 1 and T'_k(1) = k^2. */
  lemma {:induction false} ValuesAtOne(k: nat)
    ensures T(k, 1.0) == 1.0
    ensures DT(k, 1.0) == (k * k) as real
  {
    if k >= 2 {
      ValuesAtOne(k - 1);
      ValuesAtOne(k - 2);
      assert (k - 1) * (k - 1) == k * k - 2 * k + 1;
      assert (k - 2) * (k - 2) == k * k - 4 * k + 4;
    }
  }
}
