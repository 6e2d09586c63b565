/** The pure helpers of the table generator (jpl_ephemeris_data/jpl_ephemeris_parser.py):
    the CelestialBodies columns of the header table, get_table_parameters, jd_to_mjdj2k,
    and Python's list slicing, which the generator uses to cut coefficient ranges. */
module TableParameters {
  import opened Errors

  /** The bodies in the order of the header table's columns. */
  datatype CelestialBody =
    | Mercury | Venus | EMB | Mars | Jupiter | Saturn | Uranus | Neptune | Pluto
    | Moon | Sun | EarthFromEMB

  function Column(b: CelestialBody): (c: nat)
    ensures c < 12
  {
    match b
    case Mercury => 0
    case Venus => 1
    case EMB => 2
    case Mars => 3
    case Jupiter => 4
    case Saturn => 5
    case Uranus => 6
    case Neptune => 7
    case Pluto => 8
    case Moon => 9
    case Sun => 10
    case EarthFromEMB => 11
  }

  lemma ColumnsDistinct(a: CelestialBody, b: CelestialBody)
    ensures Column(a) == Column(b) <==> a == b
  {
  }

  /** The layout of one body inside a data block: its coefficient range, how many
      coefficients each polynomial has per axis, and how many polynomials cover the
      block's 32 days. */
  datatype Params = Params(startIndex: int, stopIndex: int, coeffPerPoly: int, numPoly: int)
  {
    /** days_per_poly = 32.0 / num_poly. The generator only uses it for k in
        range(num_poly), so only a positive count matters. */
    function DaysPerPoly(): real
      requires numPoly > 0
    {
      32.0 / numPoly as real
    }
  }

  /** Days covered by one data block of the ephemeris files. */
  const BlockDays: real := 32.0

  /** get_table_parameters: row 0 of the header table holds 1-based start indices
      (the next column's entry ends the range), row 1 the coefficients per polynomial and
      row 2 the polynomials per block. A table too small for the body's columns raises
      IndexError. */
  function GetTableParameters(b: CelestialBody, header: seq<seq<int>>): (r: Result<Params>)
    ensures r.Ok? <==> |header| >= 3 && Column(b) + 1 < |header[0]|
                       && Column(b) < |header[1]| && Column(b) < |header[2]|
    ensures r.Ok? ==> r.value.startIndex + 1 == header[0][Column(b)]
                      && r.value.stopIndex + 1 == header[0][Column(b) + 1]
                      && r.value.coeffPerPoly == header[1][Column(b)]
                      && r.value.numPoly == header[2][Column(b)]
  {
    var c := Column(b);
    if |header| < 3 || c + 1 >= |header[0]| || c >= |header[1]| || c >= |header[2]| then
      Err(HeaderTooSmall)
    else
      Ok(Params(header[0][c] - 1, header[0][c + 1] - 1, header[1][c], header[2][c]))
  }

  /** The polynomials of one block tile its 32 days exactly. */
  lemma PolynomialsTileBlock(p: Params)
    requires p.numPoly > 0
    ensures p.DaysPerPoly() * p.numPoly as real == BlockDays
    ensures p.DaysPerPoly() > 0.0
  {
  }

  /** Julian date of the J2000 epoch. */
  const J2000: real := 2451545.0

  /** jd_to_mjdj2k: days from the J2000 epoch. */
  function JdToMjdJ2k(jd: real): (mjd: real)
    ensures mjd + J2000 == jd
  {
    jd - J2000
  }

  /** The conversion is a shift: it keeps differences and order. */
  lemma JdShiftPreservesOrder(a: real, b: real)
    ensures JdToMjdJ2k(a) - JdToMjdJ2k(b) == a - b
    ensures JdToMjdJ2k(a) < JdToMjdJ2k(b) <==> a < b
  {
  }

  /** A Python slice bound: negative bounds count from the end, and the result is
      clamped to [0, n]. */
  function SliceBound(i: int, n: nat): (b: nat)
    ensures b <= n
  {
    if i < 0 then (if i + n < 0 then 0 else i + n)
    else if i > n then n
    else i
  }

  /** The cases of a slice bound: in range it is kept, past the end it is the length, a
      negative one counts back from the end and stops at 0. */
  lemma SliceBoundCases(i: int, n: nat)
    ensures 0 <= i <= n ==> SliceBound(i, n) == i
    ensures i > n ==> SliceBound(i, n) == n
    ensures i < 0 && 0 <= i + n ==> SliceBound(i, n) == i + n
    ensures i + n < 0 ==> SliceBound(i, n) == 0
  {
  }

  /** The elements of s from index a up to, not including, b: empty when b <= a. */
  function Range<T>(s: seq<T>, a: nat, b: nat): seq<T>
    requires a <= |s| && b <= |s|
    decreases b - a
  {
    if a >= b then [] else [s[a]] + Range(s, a + 1, b)
  }

  lemma {:induction false} RangeIsSubsequence<T>(s: seq<T>, a: nat, b: nat)
    requires a <= b <= |s|
    ensures Range(s, a, b) == s[a..b]
    decreases b - a
  {
    if a < b {
      RangeIsSubsequence(s, a + 1, b);
      assert s[a..b] == [s[a]] + s[a + 1..b];
    }
  }

  /** Python's s[lo:hi]: never fails, and is empty when the clamped bounds cross. */
  function PySlice<T>(s: seq<T>, lo: int, hi: int): seq<T>
  {
    Range(s, SliceBound(lo, |s|), SliceBound(hi, |s|))
  }

  /** Within bounds a Python slice is Dafny's subsequence. */
  lemma PySliceInRange<T>(s: seq<T>, lo: int, hi: int)
    requires 0 <= lo <= hi <= |s|
    ensures PySlice(s, lo, hi) == s[lo..hi]
    ensures |PySlice(s, lo, hi)| == hi - lo
  {
    RangeIsSubsequence(s, lo, hi);
  }

  /** Past the end a Python slice is empty rather than an error. */
  lemma PySlicePastEnd<T>(s: seq<T>, lo: int, hi: int)
    requires lo >= |s|
    ensures PySlice(s, lo, hi) == []
  {
  }
}
