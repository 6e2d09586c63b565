/** The 3-vectors (std::array<double, 3>) that every table and body returns,
    as sequences of three reals, with the component-wise operations the bodies use. */
module Vectors {

  type Vec3 = v: seq<real> | |v| == 3 witness [0.0, 0.0, 0.0]

  /** The {0., 0., 0.} every body starts from. */
  function Zero(): (r: Vec3)
    ensures forall k :: 0 <= k < 3 ==> r[k] == 0.0
  {
    [0.0, 0.0, 0.0]
  }

  function Add(a: Vec3, b: Vec3): (r: Vec3)
    ensures forall k :: 0 <= k < 3 ==> r[k] == a[k] + b[k]
  {
    [a[0] + b[0], a[1] + b[1], a[2] + b[2]]
  }

  function Sub(a: Vec3, b: Vec3): (r: Vec3)
    ensures forall k :: 0 <= k < 3 ==> r[k] == a[k] - b[k]
  {
    [a[0] - b[0], a[1] - b[1], a[2] - b[2]]
  }

  function Neg(a: Vec3): (r: Vec3)
    ensures forall k :: 0 <= k < 3 ==> r[k] == -a[k]
  {
    [-a[0], -a[1], -a[2]]
  }

  /** Two vectors that agree component by component are equal. */
  lemma Componentwise(a: Vec3, b: Vec3)
    requires forall k :: 0 <= k < 3 ==> a[k] == b[k]
    ensures a == b
  {
  }

  /** Reversing a difference negates it. */
  lemma NegSub(a: Vec3, b: Vec3)
    ensures Neg(Sub(a, b)) == Sub(b, a)
  {
    Componentwise(Neg(Sub(a, b)), Sub(b, a));
  }

  lemma SubSelf(a: Vec3)
    ensures Sub(a, a) == Zero()
  {
    Componentwise(Sub(a, a), Zero());
  }
}
