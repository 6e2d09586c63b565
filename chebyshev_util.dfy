/** The affine change of variables between a polynomial's domain [lb, ub] and the
    Chebyshev interval [-1, 1]. */
module ChebyshevUtil {

  /** Maps the Chebyshev variable x in [-1, 1] back onto [lb, ub]. */
  function FromChebyshevRange(x: real, lb: real, ub: real): real
  {
    x * 0.5 * (ub - lb) + 0.5 * (ub + lb)
  }

  /** Maps x in [lb, ub] onto the Chebyshev interval [-1, 1]. The source divides by
      the half-width without checking it, so the model needs lb != ub. */
  function ToChebyshevRange(x: real, lb: real, ub: real): real
    requires lb != ub
  {
    (x - 0.5 * (ub + lb)) / (0.5 * (ub - lb))
  }

  /** Going to [-1, 1] and back is the identity. */
  lemma FromToRoundTrip(x: real, lb: real, ub: real)
    requires lb != ub
    ensures FromChebyshevRange(ToChebyshevRange(x, lb, ub), lb, ub) == x
  {
    var h := 0.5 * (ub - lb);
    var m := 0.5 * (ub + lb);
    var y := ToChebyshevRange(x, lb, ub);
    assert y * h == x - m;
    calc {
      FromChebyshevRange(y, lb, ub);
      y * 0.5 * (ub - lb) + m;
      y * h + m;
      x;
    }
  }

  /** Coming from [-1, 1] and mapping back is the identity. */
  lemma ToFromRoundTrip(y: real, lb: real, ub: real)
    requires lb != ub
    ensures ToChebyshevRange(FromChebyshevRange(y, lb, ub), lb, ub) == y
  {
    var h := 0.5 * (ub - lb);
    var m := 0.5 * (ub + lb);
    var x := FromChebyshevRange(y, lb, ub);
    assert x - m == y * h;
    assert (y * h) / h == y;
  }

  /** The endpoints and the midpoint land on -1, 1 and 0. */
  lemma Endpoints(lb: real, ub: real)
    requires lb != ub
    ensures ToChebyshevRange(lb, lb, ub) == -1.0
    ensures ToChebyshevRange(ub, lb, ub) == 1.0
    ensures ToChebyshevRange((lb + ub) / 2.0, lb, ub) == 0.0
  {
    var h := 0.5 * (ub - lb);
    assert lb - 0.5 * (ub + lb) == -h;
    assert ub - 0.5 * (ub + lb) == h;
    assert h != 0.0;
    assert (-h) / h == -1.0;
    assert h / h == 1.0;
  }

  /** For lb < ub the map is strictly increasing. */
  lemma StrictlyIncreasing(x1: real, x2: real, lb: real, ub: real)
    requires lb < ub && x1 < x2
    ensures ToChebyshevRange(x1, lb, ub) < ToChebyshevRange(x2, lb, ub)
  {
    var h := 0.5 * (ub - lb);
    var m := 0.5 * (ub + lb);
    assert h > 0.0;
    DivideMonotone(x1 - m, x2 - m, h);
  }

  /** For lb < ub, [lb, ub] is carried into [-1, 1], and points outside [lb, ub]
      are carried outside [-1, 1] (the evaluators use them unclamped). */
  lemma MapsDomainOntoInterval(x: real, lb: real, ub: real)
    requires lb < ub
    ensures lb <= x <= ub ==> -1.0 <= ToChebyshevRange(x, lb, ub) <= 1.0
    ensures x < lb ==> ToChebyshevRange(x, lb, ub) < -1.0
    ensures x > ub ==> ToChebyshevRange(x, lb, ub) > 1.0
  {
    Endpoints(lb, ub);
    if x < lb {
      StrictlyIncreasing(x, lb, lb, ub);
    } else if x > ub {
      StrictlyIncreasing(ub, x, lb, ub);
    } else {
      if lb < x { StrictlyIncreasing(lb, x, lb, ub); }
      if x < ub { StrictlyIncreasing(x, ub, lb, ub); }
    }
  }

  lemma DivideMonotone(a: real, b: real, h: real)
    requires a < b && h > 0.0
    ensures a / h < b / h
  {
    assert (b / h - a / h) * h == b - a;
  }
}
