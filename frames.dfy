/** How the three bodies' switches fit together. Each body's answer is a fixed signed
    combination of the base tables; over the reals these combinations are one
    consistent picture: every body has a position relative to the solar system
    barycenter, and "a relative to b" is the difference of the two. */
module Frames {
  import opened Errors
  import opened Vectors
  import opened CentralBodies
  import opened BaseTables
  import opened EarthFromSsbTable
  import EarthBody
  import MoonBody
  import SunBody

  /** An independent reference: a body relative to the solar system barycenter. */
  function Barycentric(tables: TableSet, t: real, body: CentralBody): Result<Vec3>
  {
    match body
    case SSB => Ok(Zero())
    case Sun => tables.sunFromSsb(t)
    case Earth => EarthFromSsb(tables, t)
    case Moon =>
      var earthFromSsb :- EarthFromSsb(tables, t);
      var moonFromEarth :- tables.moonFromEarth(t);
      Ok(Add(earthFromSsb, moonFromEarth))
  }

  /** The answer of the body class for target (Sun, Earth or Moon), by int tag. */
  function Of(target: CentralBody, tables: TableSet, t: real, centralBody: int): Result<Vec3>
    requires target != SSB
  {
    if target == Sun then SunBody.RelativeTo(tables, t, centralBody)
    else if target == Earth then EarthBody.RelativeTo(tables, t, centralBody)
    else MoonBody.RelativeTo(tables, t, centralBody)
  }

  /** A result negated when it is a vector; an error is kept. */
  function NegResult(r: Result<Vec3>): Result<Vec3>
  {
    if r.Ok? then Ok(Neg(r.value)) else r
  }

  /** When every table answers, each body's switch returns
      Barycentric(target) - Barycentric(central), for every central body. */
  lemma RelativeIsBarycentricDifference(target: CentralBody, tables: TableSet, t: real, central: CentralBody)
    requires target != SSB && AllSucceed(tables, t)
    ensures Barycentric(tables, t, target).Ok? && Barycentric(tables, t, central).Ok?
    ensures Of(target, tables, t, Encode(central))
         == Ok(Sub(Barycentric(tables, t, target).value, Barycentric(tables, t, central).value))
  {
    var a := Barycentric(tables, t, target).value;
    var b := Barycentric(tables, t, central).value;
    var r := Of(target, tables, t, Encode(central)).value;
    Componentwise(r, Sub(a, b));
  }

  /** A body is at the origin relative to itself, whatever the tables: no table is
      consulted. */
  lemma SelfIsZero(target: CentralBody, tables: TableSet, t: real)
    requires target != SSB
    ensures Of(target, tables, t, Encode(target)) == Ok(Zero())
  {
  }

  /** Antisymmetry, with errors: swapping target and central body negates the answer,
      and since both switches consult the same tables in the same order, a failing
      lookup gives the same error on both sides. */
  lemma Antisymmetric(a: CentralBody, b: CentralBody, tables: TableSet, t: real)
    requires a != SSB && b != SSB
    ensures Of(a, tables, t, Encode(b)) == NegResult(Of(b, tables, t, Encode(a)))
  {
    var ra := Of(a, tables, t, Encode(b));
    var rb := Of(b, tables, t, Encode(a));
    if a == b {
      assert Neg(Zero()) == Zero() by { Componentwise(Neg(Zero()), Zero()); }
    } else if ra.Ok? {
      Componentwise(ra.value, Neg(rb.value));
    }
  }

  /** Composition through an intermediate body: a relative to c is a relative to b plus
      b relative to c. */
  lemma Transitive(a: CentralBody, b: CentralBody, c: CentralBody, tables: TableSet, t: real)
    requires a != SSB && b != SSB && AllSucceed(tables, t)
    ensures Of(a, tables, t, Encode(c)).Ok?
    ensures Of(a, tables, t, Encode(c))
         == Ok(Add(Of(a, tables, t, Encode(b)).value, Of(b, tables, t, Encode(c)).value))
  {
    RelativeIsBarycentricDifference(a, tables, t, b);
    RelativeIsBarycentricDifference(b, tables, t, c);
    RelativeIsBarycentricDifference(a, tables, t, c);
    var pa := Barycentric(tables, t, a).value;
    var pb := Barycentric(tables, t, b).value;
    var pc := Barycentric(tables, t, c).value;
    Componentwise(Sub(pa, pc), Add(Sub(pa, pb), Sub(pb, pc)));
  }

  /** sun.cpp's Moon case as a composition of the other public answers:
      Sun(t, Moon) = Sun(t, SSB) - Earth(t, SSB) - Moon(t, Earth). */
  lemma SunFromMoonComposition(tables: TableSet, t: real)
    requires AllSucceed(tables, t)
    ensures SunBody.RelativeTo(tables, t, Encode(Moon))
         == Ok(Sub(Sub(SunBody.RelativeTo(tables, t, Encode(SSB)).value,
                       EarthBody.RelativeTo(tables, t, Encode(SSB)).value),
                   MoonBody.RelativeTo(tables, t, Encode(Earth)).value))
  {
  }
}
