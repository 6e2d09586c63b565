/** The coefficient-layout loops of the table generator (generate_ephemeris_file and
    generate_earth_relative_to_barycenter_file in jpl_ephemeris_data/jpl_ephemeris_parser.py).
    For every data block inside the requested window, each of a body's polynomials
    becomes one x, one y and one z segment: a start and stop date and the coefficients,
    cut from the body's range of the block as three consecutive slices. A date that
    already started a segment is skipped. The two source functions differ only in the
    coefficients they slice: the Earth-from-EMB table scales the Moon's coefficients by
    -1 / (1 + EMRAT) first, which the model expresses as an optional scale. */
module CoefficientTables {
  import opened Errors
  import opened TableParameters

  /** One emitted row: the dates it covers and its Chebyshev coefficients. */
  datatype Segment = Segment(start: real, stop: real, coeff: seq<real>)

  /** The four lists the loops append to. */
  datatype Emitted = Emitted(x: seq<Segment>, y: seq<Segment>, z: seq<Segment>, starts: seq<real>)

  const NothingEmitted := Emitted([], [], [], [])

  /** duplicate_start_date: a linear search of the dates emitted so far. */
  method DuplicateStartDate(vals: seq<real>, v: real) returns (found: bool)
    ensures found <==> v in vals
  {
    for i := 0 to |vals|
      invariant v !in vals[..i]
    {
      if vals[i] == v {
        return true;
      }
    }
    return false;
  }

  /** The start date of polynomial k of a block starting at blockStart: k spans of
      days_per_poly after it. */
  function PolyStart(blockStart: real, p: Params, k: nat): real
    requires p.numPoly > 0
  {
    if k == 0 then blockStart else PolyStart(blockStart, p, k - 1) + p.DaysPerPoly()
  }

  /** The start date is blockStart + days_per_poly * k, as the generator computes it; the
      last polynomial ends where the block's 32 days end. */
  lemma {:induction false} PolyStartIsProduct(blockStart: real, p: Params, k: nat)
    requires p.numPoly > 0
    ensures PolyStart(blockStart, p, k) == blockStart + p.DaysPerPoly() * k as real
  {
    if k > 0 {
      PolyStartIsProduct(blockStart, p, k - 1);
    }
  }

  /** The polynomials of a block are consecutive and strictly increasing in start date,
      and together they cover the block's 32 days. */
  lemma PolyStartsTileBlock(blockStart: real, p: Params, j: nat, k: nat)
    requires p.numPoly > 0
    ensures j < k ==> PolyStart(blockStart, p, j) < PolyStart(blockStart, p, k)
    ensures PolyStart(blockStart, p, p.numPoly) == blockStart + BlockDays
  {
    PolynomialsTileBlock(p);
    PolyStartIsProduct(blockStart, p, p.numPoly);
    PolyStartsIncrease(blockStart, p, j, k);
  }

  lemma {:induction false} PolyStartsIncrease(blockStart: real, p: Params, j: nat, k: nat)
    requires p.numPoly > 0
    ensures j < k ==> PolyStart(blockStart, p, j) < PolyStart(blockStart, p, k)
    decreases k
  {
    PolynomialsTileBlock(p);
    if j < k - 1 {
      PolyStartsIncrease(blockStart, p, j, k - 1);
    }
  }

  /** How many times range(num_poly) runs. */
  function PolyCount(p: Params): nat
  {
    if p.numPoly > 0 then p.numPoly else 0
  }

  /** The offset in a block's coefficient list of the e-th emitted polynomial: each one
      before it took three slices of n coefficients. */
  function Offset(n: int, e: nat): int
  {
    3 * n * e
  }

  lemma OffsetStep(n: int, e: nat)
    ensures Offset(n, e + 1) == Offset(n, e) + n + n + n
  {
  }

  /** The inner loop's state: the lists and cur_ind. */
  datatype Cursor = Cursor(out: Emitted, cur: int)

  /** One turn of the inner loop, for polynomial k: skipped without moving cur_ind when
      its start date was already emitted; otherwise x, y and z are the slices at cur_ind,
      cur_ind + n and cur_ind + 2n, and cur_ind moves on by 3n. */
  function EmitPoly(st: Cursor, coeff: seq<real>, blockStart: real, p: Params, k: nat): Cursor
    requires p.numPoly > 0
  {
    var s := PolyStart(blockStart, p, k);
    if s in st.out.starts then st
    else
      var n := p.coeffPerPoly;
      var stop := s + p.DaysPerPoly();
      var out := st.out;
      Cursor(Emitted(out.x + [Segment(s, stop, AxisSlice(coeff, st.cur, 0, n))],
                     out.y + [Segment(s, stop, AxisSlice(coeff, st.cur, n, n))],
                     out.z + [Segment(s, stop, AxisSlice(coeff, st.cur, n + n, n))],
                     out.starts + [s]),
             st.cur + n + n + n)
  }

  /** The n coefficients shift places past cur_ind. */
  function AxisSlice(coeff: seq<real>, cur: int, shift: int, n: int): seq<real>
  {
    PySlice(coeff, cur + shift, cur + shift + n)
  }

  /** The inner loop after polynomials 0 .. k-1. */
  function EmitPolys(st: Cursor, coeff: seq<real>, blockStart: real, p: Params, k: nat): Cursor
    requires k <= PolyCount(p)
  {
    if k == 0 then st
    else EmitPoly(EmitPolys(st, coeff, blockStart, p, k - 1), coeff, blockStart, p, k - 1)
  }

  /** The last turn of the inner loop after polynomials 0 .. k-1. */
  lemma EmitPolysLast(st: Cursor, coeff: seq<real>, blockStart: real, p: Params, k: nat)
    requires 0 < k <= PolyCount(p)
    ensures EmitPolys(st, coeff, blockStart, p, k)
         == EmitPoly(EmitPolys(st, coeff, blockStart, p, k - 1), coeff, blockStart, p, k - 1)
  {
  }

  /** One more turn of the inner loop, in the terms the loop computes it: the start date
      as a product, and the three slices taken one after the other, cur_ind moving on by n
      after each. */
  lemma EmitPolysNext(out0: Emitted, coeff: seq<real>, blockStart: real, p: Params, k: nat,
                      out: Emitted, cur: int)
    requires k < PolyCount(p)
    requires EmitPolys(Cursor(out0, 0), coeff, blockStart, p, k) == Cursor(out, cur)
    ensures var s := blockStart + p.DaysPerPoly() * k as real;
            var stop := s + p.DaysPerPoly();
            var n := p.coeffPerPoly;
            EmitPolys(Cursor(out0, 0), coeff, blockStart, p, k + 1) ==
              if s in out.starts then Cursor(out, cur)
              else Cursor(Emitted(out.x + [Segment(s, stop, PySlice(coeff, cur, cur + n))],
                                  out.y + [Segment(s, stop, PySlice(coeff, cur + n, cur + n + n))],
                                  out.z + [Segment(s, stop, PySlice(coeff, cur + n + n, cur + n + n + n))],
                                  out.starts + [s]),
                          cur + n + n + n)
  {
    PolyStartIsProduct(blockStart, p, k);
  }

  /** earth_rel_embary: the Moon's coefficients, each multiplied by -1 / (1 + EMRAT). */
  function EarthFromEmbCoefficients(moonCoeff: seq<real>, emRatio: real): (r: seq<real>)
    requires 1.0 + emRatio != 0.0
    ensures |r| == |moonCoeff|
    ensures forall i :: 0 <= i < |r| ==> r[i] * (1.0 + emRatio) == -moonCoeff[i]
  {
    seq(|moonCoeff|, i requires 0 <= i < |moonCoeff| => -moonCoeff[i] / (1.0 + emRatio))
  }

  /** The coefficients a block contributes: the body's range, scaled for Earth-from-EMB. */
  function BlockCoefficients(block: seq<real>, p: Params, emScale: Option<real>): seq<real>
    requires emScale.Some? ==> 1.0 + emScale.value != 0.0
  {
    var coeff := PySlice(block, p.startIndex, p.stopIndex);
    if emScale.Some? then EarthFromEmbCoefficients(coeff, emScale.value) else coeff
  }

  /** The window test: a block is skipped when it ends before t0 or starts after tf. */
  predicate OutsideWindow(blockStart: real, blockStop: real, t0: real, tf: real)
  {
    blockStop < t0 || blockStart > tf
  }

  /** One turn of the outer loop: read the block's Julian dates (a block shorter than
      two values raises), skip it outside the window, otherwise emit its polynomials. */
  function ProcessBlock(out: Emitted, block: seq<real>, p: Params, t0: real, tf: real,
                        emScale: Option<real>): Result<Emitted>
    requires emScale.Some? ==> 1.0 + emScale.value != 0.0
  {
    if |block| < 2 then Err(BlockTooShort)
    else
      var blockStart := JdToMjdJ2k(block[0]);
      var blockStop := JdToMjdJ2k(block[1]);
      if OutsideWindow(blockStart, blockStop, t0, tf) then Ok(out)
      else
        var coeff := BlockCoefficients(block, p, emScale);
        Ok(EmitPolys(Cursor(out, 0), coeff, blockStart, p, PolyCount(p)).out)
  }

  /** The outer loop over a prefix of the blocks. */
  function Generate(blocks: seq<seq<real>>, p: Params, t0: real, tf: real,
                    emScale: Option<real>): Result<Emitted>
    requires emScale.Some? ==> 1.0 + emScale.value != 0.0
  {
    if |blocks| == 0 then Ok(NothingEmitted)
    else
      var out :- Generate(blocks[..|blocks| - 1], p, t0, tf, emScale);
      ProcessBlock(out, blocks[|blocks| - 1], p, t0, tf, emScale)
  }

  // ---------------------------------------------------------------------------
  // The loops

  /** The inner loop of both generators, over one block's coefficients. */
  method EmitPolynomials(out0: Emitted, coeff: seq<real>, blockStart: real, p: Params)
    returns (out: Emitted)
    ensures out == EmitPolys(Cursor(out0, 0), coeff, blockStart, p, PolyCount(p)).out
  {
    out := out0;
    var curInd := 0;
    for k := 0 to PolyCount(p)
      invariant EmitPolys(Cursor(out0, 0), coeff, blockStart, p, k) == Cursor(out, curInd)
    {
      EmitPolysNext(out0, coeff, blockStart, p, k, out, curInd);
      ghost var next := EmitPolys(Cursor(out0, 0), coeff, blockStart, p, k + 1);
      var curStart := blockStart + p.DaysPerPoly() * k as real;
      var curStop := curStart + p.DaysPerPoly();
      var dup := DuplicateStartDate(out.starts, curStart);
      if dup {
        assert next == Cursor(out, curInd);
        continue;
      }
      var n := p.coeffPerPoly;
      var starts := out.starts + [curStart];
      var x := out.x + [Segment(curStart, curStop, PySlice(coeff, curInd, curInd + n))];
      curInd := curInd + n;
      var y := out.y + [Segment(curStart, curStop, PySlice(coeff, curInd, curInd + n))];
      curInd := curInd + n;
      var z := out.z + [Segment(curStart, curStop, PySlice(coeff, curInd, curInd + n))];
      curInd := curInd + n;
      out := Emitted(x, y, z, starts);
      assert next == Cursor(out, curInd);
    }
  }

  /** The outer loop of both generators. */
  method GenerateSegments(blocks: seq<seq<real>>, p: Params, t0: real, tf: real,
                          emScale: Option<real>)
    returns (r: Result<Emitted>)
    requires emScale.Some? ==> 1.0 + emScale.value != 0.0
    ensures r == Generate(blocks, p, t0, tf, emScale)
  {
    var out := NothingEmitted;
    for i := 0 to |blocks|
      invariant Generate(blocks[..i], p, t0, tf, emScale) == Ok(out)
    {
      assert blocks[..i + 1][..i] == blocks[..i];
      var block := blocks[i];
      if |block| < 2 {
        GenerateFailurePersists(blocks, p, t0, tf, emScale, i + 1);
        return Err(BlockTooShort);
      }
      var blockStart := JdToMjdJ2k(block[0]);
      var blockStop := JdToMjdJ2k(block[1]);
      if blockStop < t0 || blockStart > tf {
        continue;
      }
      var coeff := PySlice(block, p.startIndex, p.stopIndex);
      if emScale.Some? {
        coeff := EarthFromEmbCoefficients(coeff, emScale.value);
      }
      out := EmitPolynomials(out, coeff, blockStart, p);
    }
    assert blocks[..|blocks|] == blocks;
    r := Ok(out);
  }

  /** Once a prefix of the blocks fails, the whole run fails with the same error. */
  lemma {:induction false} GenerateFailurePersists(blocks: seq<seq<real>>, p: Params, t0: real, tf: real,
                                                   emScale: Option<real>, i: nat)
    requires emScale.Some? ==> 1.0 + emScale.value != 0.0
    requires i <= |blocks| && Generate(blocks[..i], p, t0, tf, emScale).Err?
    ensures Generate(blocks, p, t0, tf, emScale) == Generate(blocks[..i], p, t0, tf, emScale)
    decreases |blocks| - i
  {
    if i == |blocks| {
      assert blocks[..i] == blocks;
    } else {
      assert blocks[..i + 1][..i] == blocks[..i];
      GenerateFailurePersists(blocks, p, t0, tf, emScale, i + 1);
    }
  }

  /** generate_earth_relative_to_barycenter_file: the Moon's layout with scaled
      coefficients. */
  method GenerateEarthRelativeToBarycenter(blocks: seq<seq<real>>, emRatio: real, t0: real, tf: real,
                                           header: seq<seq<int>>)
    returns (r: Result<Emitted>)
    requires 1.0 + emRatio != 0.0
    ensures r == TableFor(blocks, emRatio, t0, tf, EarthFromEMB, header)
  {
    var p :- GetTableParameters(Moon, header);
    r := GenerateSegments(blocks, p, t0, tf, Some(emRatio));
  }

  /** generate_ephemeris_file: Earth-from-EMB is delegated; any other body is cut from its
      own column of the header table. The result is what the generator writes out. */
  method GenerateEphemerisFile(blocks: seq<seq<real>>, emRatio: real, t0: real, tf: real,
                               body: CelestialBody, header: seq<seq<int>>)
    returns (r: Result<Emitted>)
    requires body == EarthFromEMB ==> 1.0 + emRatio != 0.0
    ensures r == TableFor(blocks, emRatio, t0, tf, body, header)
  {
    if body == EarthFromEMB {
      r := GenerateEarthRelativeToBarycenter(blocks, emRatio, t0, tf, header);
    } else {
      var p :- GetTableParameters(body, header);
      r := GenerateSegments(blocks, p, t0, tf, None);
    }
  }

  /** The table written for a body. */
  function TableFor(blocks: seq<seq<real>>, emRatio: real, t0: real, tf: real,
                    body: CelestialBody, header: seq<seq<int>>): Result<Emitted>
    requires body == EarthFromEMB ==> 1.0 + emRatio != 0.0
  {
    if body == EarthFromEMB then
      var p :- GetTableParameters(Moon, header);
      Generate(blocks, p, t0, tf, Some(emRatio))
    else
      var p :- GetTableParameters(body, header);
      Generate(blocks, p, t0, tf, None)
  }

  // ---------------------------------------------------------------------------
  // Invariant of the lists

  /** The three lists run in step with the start dates, each row covers one polynomial
      span from its start date, and no start date repeats. */
  predicate Aligned(out: Emitted, days: real)
  {
    |out.x| == |out.starts| && |out.y| == |out.starts| && |out.z| == |out.starts|
    && (forall i :: 0 <= i < |out.starts| ==>
          out.x[i].start == out.starts[i] && out.y[i].start == out.starts[i]
          && out.z[i].start == out.starts[i]
          && out.x[i].stop == out.starts[i] + days && out.y[i].stop == out.starts[i] + days
          && out.z[i].stop == out.starts[i] + days)
    && (forall i, j :: 0 <= i < j < |out.starts| ==> out.starts[i] != out.starts[j])
  }

  lemma EmitPolyAligned(st: Cursor, coeff: seq<real>, blockStart: real, p: Params, k: nat)
    requires p.numPoly > 0 && Aligned(st.out, p.DaysPerPoly())
    ensures Aligned(EmitPoly(st, coeff, blockStart, p, k).out, p.DaysPerPoly())
  {
    var s := PolyStart(blockStart, p, k);
    if s !in st.out.starts {
      var starts := st.out.starts + [s];
      forall i, j | 0 <= i < j < |starts|
        ensures starts[i] != starts[j]
      {
        if j == |starts| - 1 {
          assert starts[i] == st.out.starts[i];
        }
      }
    }
  }

  lemma {:induction false} EmitPolysAligned(st: Cursor, coeff: seq<real>, blockStart: real, p: Params, k: nat)
    requires k <= PolyCount(p)
    requires p.numPoly > 0 ==> Aligned(st.out, p.DaysPerPoly())
    ensures p.numPoly > 0 ==> Aligned(EmitPolys(st, coeff, blockStart, p, k).out, p.DaysPerPoly())
  {
    if k > 0 {
      EmitPolysAligned(st, coeff, blockStart, p, k - 1);
      if p.numPoly > 0 {
        var prev := EmitPolys(st, coeff, blockStart, p, k - 1);
        assert EmitPolys(st, coeff, blockStart, p, k) == EmitPoly(prev, coeff, blockStart, p, k - 1);
        EmitPolyAligned(prev, coeff, blockStart, p, k - 1);
      }
    }
  }

  /** Every run keeps the lists aligned and the start dates pairwise distinct. */
  lemma {:induction false} GenerateAligned(blocks: seq<seq<real>>, p: Params, t0: real, tf: real,
                                           emScale: Option<real>)
    requires emScale.Some? ==> 1.0 + emScale.value != 0.0
    requires p.numPoly > 0
    ensures Generate(blocks, p, t0, tf, emScale).Ok? ==>
              Aligned(Generate(blocks, p, t0, tf, emScale).value, p.DaysPerPoly())
  {
    if |blocks| > 0 {
      var init := blocks[..|blocks| - 1];
      GenerateAligned(init, p, t0, tf, emScale);
      var prev := Generate(init, p, t0, tf, emScale);
      var block := blocks[|blocks| - 1];
      if prev.Ok? && |block| >= 2 {
        var coeff := BlockCoefficients(block, p, emScale);
        EmitPolysAligned(Cursor(prev.value, 0), coeff, JdToMjdJ2k(block[0]), p, PolyCount(p));
      }
    }
  }

  // ---------------------------------------------------------------------------
  // Layout of one block

  /** Axis a extends a0 row by row, cur is where the next row's coefficients start, and
      each added row holds the n coefficients at shift past its own start, 3n before the
      next row's. */
  predicate AxisSliced(a0: seq<Segment>, a: seq<Segment>, coeff: seq<real>, n: int, shift: int, cur: int)
    decreases |a|
  {
    if |a| <= |a0| then a == a0 && cur == 0
    else
      var prev := cur - (n + n + n);
      AxisSliced(a0, a[..|a| - 1], coeff, n, shift, prev)
      && a[|a| - 1].coeff == AxisSlice(coeff, prev, shift, n)
  }

  lemma AxisSlicedAppend(a0: seq<Segment>, a: seq<Segment>, coeff: seq<real>, n: int, shift: int,
                         cur: int, s: real, stop: real)
    requires AxisSliced(a0, a, coeff, n, shift, cur)
    ensures AxisSliced(a0, a + [Segment(s, stop, AxisSlice(coeff, cur, shift, n))],
                       coeff, n, shift, cur + n + n + n)
  {
    var a' := a + [Segment(s, stop, AxisSlice(coeff, cur, shift, n))];
    assert a'[..|a'| - 1] == a;
  }

  /** Along the layout a0 stays a prefix, and the cursor is 3n times the rows added. */
  lemma {:induction false} AxisSlicedCursor(a0: seq<Segment>, a: seq<Segment>, coeff: seq<real>, n: int,
                                            shift: int, cur: int)
    requires AxisSliced(a0, a, coeff, n, shift, cur)
    ensures |a0| <= |a| && a[..|a0|] == a0
    ensures cur == Offset(n, |a| - |a0|)
    decreases |a|
  {
    if |a| > |a0| {
      var init := a[..|a| - 1];
      AxisSlicedCursor(a0, init, coeff, n, shift, cur - (n + n + n));
      OffsetStep(n, |init| - |a0|);
      assert a[..|a0|] == init[..|a0|];
    } else {
      assert a[..|a0|] == a0;
    }
  }

  /** The layout read at one row: added row i holds the n coefficients at
      Offset(n, i - |a0|) + shift. */
  lemma {:induction false} AxisSlicedRow(a0: seq<Segment>, a: seq<Segment>, coeff: seq<real>, n: int,
                                         shift: int, cur: int, i: int)
    requires AxisSliced(a0, a, coeff, n, shift, cur) && |a0| <= i < |a|
    ensures a[i].coeff == AxisSlice(coeff, Offset(n, i - |a0|), shift, n)
    decreases |a|
  {
    var init := a[..|a| - 1];
    if i < |a| - 1 {
      AxisSlicedRow(a0, init, coeff, n, shift, cur - (n + n + n), i);
      assert a[i] == init[i];
    } else {
      AxisSlicedCursor(a0, init, coeff, n, shift, cur - (n + n + n));
    }
  }

  /** The start dates added after starts0 are each that of one of the block's polynomials. */
  predicate StartsFromBlock(starts0: seq<real>, starts: seq<real>, blockStart: real, p: Params)
    requires p.numPoly > 0
  {
    |starts0| <= |starts| && starts[..|starts0|] == starts0
    && forall i :: |starts0| <= i < |starts| ==>
         exists k: nat :: k < p.numPoly && starts[i] == PolyStart(blockStart, p, k)
  }

  lemma StartsFromBlockAppend(starts0: seq<real>, starts: seq<real>, blockStart: real, p: Params, k: nat)
    requires p.numPoly > 0 && k < p.numPoly
    requires StartsFromBlock(starts0, starts, blockStart, p)
    ensures StartsFromBlock(starts0, starts + [PolyStart(blockStart, p, k)], blockStart, p)
  {
    var s' := starts + [PolyStart(blockStart, p, k)];
    assert s'[..|starts0|] == starts[..|starts0|];
    forall i | |starts0| <= i < |s'|
      ensures exists k': nat :: k' < p.numPoly && s'[i] == PolyStart(blockStart, p, k')
    {
      if i < |starts| {
        assert s'[i] == starts[i];
      } else {
        assert s'[i] == PolyStart(blockStart, p, k);
      }
    }
  }

  /** The three coordinate lists of the output. */
  datatype Axis = X | Y | Z

  function AxisOf(out: Emitted, ax: Axis): seq<Segment>
  {
    match ax
    case X => out.x
    case Y => out.y
    case Z => out.z
  }

  /** Where an axis's slice starts past cur_ind: 0, n and 2n for x, y and z. */
  function Shift(ax: Axis, n: int): int
  {
    match ax
    case X => 0
    case Y => n
    case Z => n + n
  }

  /** Axis ax of the cursor's lists extends that of out0 row by row, as AxisSliced
      says, with the axis's shift. */
  predicate Laid(out0: Emitted, st: Cursor, coeff: seq<real>, n: int, ax: Axis)
  {
    AxisSliced(AxisOf(out0, ax), AxisOf(st.out, ax), coeff, n, Shift(ax, n), st.cur)
  }

  /** One turn of the inner loop keeps the layout of an axis. */
  lemma EmitPolyAxis(out0: Emitted, st: Cursor, r: Cursor, coeff: seq<real>, blockStart: real, p: Params, k: nat, ax: Axis)
    requires p.numPoly > 0
    requires r == EmitPoly(st, coeff, blockStart, p, k)
    requires Laid(out0, st, coeff, p.coeffPerPoly, ax)
    ensures Laid(out0, r, coeff, p.coeffPerPoly, ax)
  {
    var s := PolyStart(blockStart, p, k);
    var n := p.coeffPerPoly;
    EmitPolyOnAxis(st, coeff, blockStart, p, k, ax);
    if s in st.out.starts {
      assert r == st;
    } else {
      var a := AxisOf(st.out, ax);
      var row := Segment(s, s + p.DaysPerPoly(), AxisSlice(coeff, st.cur, Shift(ax, n), n));
      AxisSlicedAppend(AxisOf(out0, ax), a, coeff, n, Shift(ax, n), st.cur, s, s + p.DaysPerPoly());
      assert AxisOf(r.out, ax) == a + [row] && r.cur == st.cur + n + n + n;
    }
  }

  /** One turn of the inner loop seen on one axis: nothing changes for a duplicate,
      otherwise the axis gains the row sliced at its shift past cur_ind. */
  lemma EmitPolyOnAxis(st: Cursor, coeff: seq<real>, blockStart: real, p: Params, k: nat, ax: Axis)
    requires p.numPoly > 0
    ensures var s := PolyStart(blockStart, p, k);
            var n := p.coeffPerPoly;
            var r := EmitPoly(st, coeff, blockStart, p, k);
            if s in st.out.starts then r == st
            else AxisOf(r.out, ax) == AxisOf(st.out, ax) + [Segment(s, s + p.DaysPerPoly(), AxisSlice(coeff, st.cur, Shift(ax, n), n))]
                 && r.cur == st.cur + n + n + n
  {
  }

  /** The inner loop keeps the layout of every axis. */
  lemma {:induction false} EmitPolysAxis(out0: Emitted, coeff: seq<real>, blockStart: real, p: Params, k: nat, ax: Axis)
    requires p.numPoly > 0 && k <= p.numPoly
    ensures Laid(out0, EmitPolys(Cursor(out0, 0), coeff, blockStart, p, k), coeff, p.coeffPerPoly, ax)
  {
    if k > 0 {
      EmitPolysAxis(out0, coeff, blockStart, p, k - 1, ax);
      EmitPolysLast(Cursor(out0, 0), coeff, blockStart, p, k);
      EmitPolyAxis(out0, EmitPolys(Cursor(out0, 0), coeff, blockStart, p, k - 1),
                   EmitPolys(Cursor(out0, 0), coeff, blockStart, p, k), coeff, blockStart, p, k - 1, ax);
    }
  }

  /** The inner loop adds one start date per row on every axis, each that of one of the
      block's polynomials. */
  lemma {:induction false} EmitPolysStarts(out0: Emitted, coeff: seq<real>, blockStart: real, p: Params, k: nat)
    requires p.numPoly > 0 && k <= p.numPoly
    ensures var r := EmitPolys(Cursor(out0, 0), coeff, blockStart, p, k).out;
            StartsFromBlock(out0.starts, r.starts, blockStart, p)
            && |r.x| - |out0.x| == |r.starts| - |out0.starts|
            && |r.y| - |out0.y| == |r.starts| - |out0.starts|
            && |r.z| - |out0.z| == |r.starts| - |out0.starts|
  {
    if k == 0 {
      assert out0.starts[..|out0.starts|] == out0.starts;
    } else {
      EmitPolysStarts(out0, coeff, blockStart, p, k - 1);
      var st := EmitPolys(Cursor(out0, 0), coeff, blockStart, p, k - 1);
      if PolyStart(blockStart, p, k - 1) !in st.out.starts {
        StartsFromBlockAppend(out0.starts, st.out.starts, blockStart, p, k - 1);
      }
    }
  }

  /** Axis a extends a0, and its added row i holds the coeff_per_poly values at
      Offset(n, i - |a0|) + shift. */
  predicate RowsAt(a0: seq<Segment>, a: seq<Segment>, coeff: seq<real>, n: int, shift: int)
  {
    |a0| <= |a| && a[..|a0|] == a0
    && forall i :: |a0| <= i < |a| ==>
         a[i].coeff == PySlice(coeff, Offset(n, i - |a0|) + shift, Offset(n, i - |a0|) + shift + n)
  }

  lemma AxisRows(a0: seq<Segment>, a: seq<Segment>, coeff: seq<real>, n: int, shift: int, cur: int)
    requires AxisSliced(a0, a, coeff, n, shift, cur)
    ensures RowsAt(a0, a, coeff, n, shift)
  {
    AxisSlicedCursor(a0, a, coeff, n, shift, cur);
    forall i | |a0| <= i < |a|
      ensures a[i].coeff == PySlice(coeff, Offset(n, i - |a0|) + shift, Offset(n, i - |a0|) + shift + n)
    {
      AxisSlicedRow(a0, a, coeff, n, shift, cur, i);
    }
  }

  /** The layout of an in-window block: its rows are appended after the existing ones, in
      step on the three axes; the e-th added row's x, y and z coefficients are the slices
      of coeff_per_poly values at 3ne, 3ne + n and 3ne + 2n of the block's coefficient
      range; and each added start date is that of one of the block's polynomials. */
  lemma BlockLayout(out: Emitted, block: seq<real>, p: Params, t0: real, tf: real, emScale: Option<real>)
    requires emScale.Some? ==> 1.0 + emScale.value != 0.0
    requires p.numPoly > 0 && |block| >= 2
    requires !OutsideWindow(JdToMjdJ2k(block[0]), JdToMjdJ2k(block[1]), t0, tf)
    ensures ProcessBlock(out, block, p, t0, tf, emScale).Ok?
    ensures var r := ProcessBlock(out, block, p, t0, tf, emScale).value;
            var coeff := BlockCoefficients(block, p, emScale);
            var n := p.coeffPerPoly;
            && RowsAt(out.x, r.x, coeff, n, 0)
            && RowsAt(out.y, r.y, coeff, n, n)
            && RowsAt(out.z, r.z, coeff, n, n + n)
            && StartsFromBlock(out.starts, r.starts, JdToMjdJ2k(block[0]), p)
            && |r.x| - |out.x| == |r.starts| - |out.starts|
            && |r.y| - |out.y| == |r.starts| - |out.starts|
            && |r.z| - |out.z| == |r.starts| - |out.starts|
  {
    ProcessBlockEmits(out, block, p, t0, tf, emScale);
    EmitPolysLayout(out, BlockCoefficients(block, p, emScale), JdToMjdJ2k(block[0]), p);
  }

  /** An in-window block runs the inner loop over its coefficients. */
  lemma ProcessBlockEmits(out: Emitted, block: seq<real>, p: Params, t0: real, tf: real, emScale: Option<real>)
    requires emScale.Some? ==> 1.0 + emScale.value != 0.0
    requires |block| >= 2
    requires !OutsideWindow(JdToMjdJ2k(block[0]), JdToMjdJ2k(block[1]), t0, tf)
    ensures ProcessBlock(out, block, p, t0, tf, emScale)
         == Ok(EmitPolys(Cursor(out, 0), BlockCoefficients(block, p, emScale), JdToMjdJ2k(block[0]), p, PolyCount(p)).out)
  {
  }

  /** The layout the inner loop leaves, read row by row. */
  lemma EmitPolysLayout(out: Emitted, coeff: seq<real>, bs: real, p: Params)
    requires p.numPoly > 0
    ensures var r := EmitPolys(Cursor(out, 0), coeff, bs, p, PolyCount(p)).out;
            var n := p.coeffPerPoly;
            && RowsAt(out.x, r.x, coeff, n, 0)
            && RowsAt(out.y, r.y, coeff, n, n)
            && RowsAt(out.z, r.z, coeff, n, n + n)
            && StartsFromBlock(out.starts, r.starts, bs, p)
            && |r.x| - |out.x| == |r.starts| - |out.starts|
            && |r.y| - |out.y| == |r.starts| - |out.starts|
            && |r.z| - |out.z| == |r.starts| - |out.starts|
  {
    EmitPolysStarts(out, coeff, bs, p, PolyCount(p));
    EmitPolysRows(out, coeff, bs, p, X);
    EmitPolysRows(out, coeff, bs, p, Y);
    EmitPolysRows(out, coeff, bs, p, Z);
  }

  lemma EmitPolysRows(out: Emitted, coeff: seq<real>, bs: real, p: Params, ax: Axis)
    requires p.numPoly > 0
    ensures var n := p.coeffPerPoly;
            RowsAt(AxisOf(out, ax), AxisOf(EmitPolys(Cursor(out, 0), coeff, bs, p, PolyCount(p)).out, ax),
                   coeff, n, Shift(ax, n))
  {
    var n := p.coeffPerPoly;
    var st := EmitPolys(Cursor(out, 0), coeff, bs, p, PolyCount(p));
    EmitPolysAxis(out, coeff, bs, p, PolyCount(p), ax);
    AxisRows(AxisOf(out, ax), AxisOf(st.out, ax), coeff, n, Shift(ax, n), st.cur);
  }

  /** cur_ind after a block: 3n times the rows it added, so a skipped duplicate leaves it
      where it was. */
  lemma CursorCountsRows(out: Emitted, coeff: seq<real>, blockStart: real, p: Params)
    requires p.numPoly > 0
    ensures var st := EmitPolys(Cursor(out, 0), coeff, blockStart, p, p.numPoly);
            |out.starts| <= |st.out.starts|
            && st.cur == Offset(p.coeffPerPoly, |st.out.starts| - |out.starts|)
  {
    var st := EmitPolys(Cursor(out, 0), coeff, blockStart, p, p.numPoly);
    EmitPolysStarts(out, coeff, blockStart, p, p.numPoly);
    EmitPolysAxis(out, coeff, blockStart, p, p.numPoly, X);
    AxisSlicedCursor(out.x, st.out.x, coeff, p.coeffPerPoly, 0, st.cur);
  }

  // ---------------------------------------------------------------------------
  // A skipped duplicate and the polynomial after it

  /** The inner loop as its comments describe it: polynomial k is cut from the slices at
      3nk, 3nk + n and 3nk + 2n, whether or not an earlier polynomial was skipped. */
  function EmitPolysIntended(out: Emitted, coeff: seq<real>, blockStart: real, p: Params, k: nat): Emitted
    requires k <= PolyCount(p)
  {
    if k == 0 then out
    else
      var prev := EmitPolysIntended(out, coeff, blockStart, p, k - 1);
      EmitPoly(Cursor(prev, Offset(p.coeffPerPoly, k - 1)), coeff, blockStart, p, k - 1).out
  }

  /** In the intended loop a polynomial that is not a duplicate adds, on every axis, the
      slice at 3nk plus the axis's shift, and a duplicate adds nothing. */
  lemma IntendedRowAt(out: Emitted, coeff: seq<real>, blockStart: real, p: Params, k: nat, ax: Axis)
    requires k < PolyCount(p)
    ensures var prev := EmitPolysIntended(out, coeff, blockStart, p, k);
            var s := PolyStart(blockStart, p, k);
            var n := p.coeffPerPoly;
            var next := EmitPolysIntended(out, coeff, blockStart, p, k + 1);
            if s in prev.starts then next == prev
            else AxisOf(next, ax)
                 == AxisOf(prev, ax) + [Segment(s, s + p.DaysPerPoly(), PySlice(coeff, Offset(n, k) + Shift(ax, n), Offset(n, k) + Shift(ax, n) + n))]
  {
    var prev := EmitPolysIntended(out, coeff, blockStart, p, k);
    EmitPolyOnAxis(Cursor(prev, Offset(p.coeffPerPoly, k)), coeff, blockStart, p, k, ax);
  }

  /** As written, a skipped duplicate shifts the polynomials after it: when polynomial 0
      of a block is a duplicate and polynomial 1 is not, polynomial 1 is cut from the
      slices at 0, n and 2n, which hold polynomial 0's coefficients, while the intended
      loop cuts it from 3n, 4n and 5n. */
  lemma SkippedDuplicateShiftsSlices(out: Emitted, coeff: seq<real>, blockStart: real, p: Params)
    requires p.numPoly >= 2
    requires PolyStart(blockStart, p, 0) in out.starts && PolyStart(blockStart, p, 1) !in out.starts
    ensures var s := PolyStart(blockStart, p, 1);
            var n := p.coeffPerPoly;
            EmitPolys(Cursor(out, 0), coeff, blockStart, p, 2).out.x
              == out.x + [Segment(s, s + p.DaysPerPoly(), PySlice(coeff, 0, n))]
    ensures var s := PolyStart(blockStart, p, 1);
            var n := p.coeffPerPoly;
            EmitPolysIntended(out, coeff, blockStart, p, 2).x
              == out.x + [Segment(s, s + p.DaysPerPoly(), PySlice(coeff, n + n + n, n + n + n + n))]
  {
    assert EmitPolys(Cursor(out, 0), coeff, blockStart, p, 1) == Cursor(out, 0);
    assert EmitPolysIntended(out, coeff, blockStart, p, 1) == out;
    IntendedRowAt(out, coeff, blockStart, p, 1, X);
  }

  /** When a block overlaps the rows emitted so far not at all (the real files overlap by
      whole blocks), the loop as written and the intended loop agree: cur_ind reaches 3nk
      before polynomial k, and every start date already emitted lies before the block's
      next polynomial. */
  lemma {:induction false} FreshBlockAsIntended(out: Emitted, coeff: seq<real>, blockStart: real, p: Params, k: nat)
    requires 0 < p.numPoly && k <= p.numPoly
    requires forall j: nat :: j < p.numPoly ==> PolyStart(blockStart, p, j) !in out.starts
    ensures EmitPolys(Cursor(out, 0), coeff, blockStart, p, k)
         == Cursor(EmitPolysIntended(out, coeff, blockStart, p, k), Offset(p.coeffPerPoly, k))
    ensures forall v :: v in EmitPolysIntended(out, coeff, blockStart, p, k).starts ==>
              v in out.starts || v < PolyStart(blockStart, p, k)
  {
    if k > 0 {
      FreshBlockAsIntended(out, coeff, blockStart, p, k - 1);
      var prev := EmitPolysIntended(out, coeff, blockStart, p, k - 1);
      var s := PolyStart(blockStart, p, k - 1);
      var n := p.coeffPerPoly;
      assert s !in prev.starts;
      EmitPolysLast(Cursor(out, 0), coeff, blockStart, p, k);
      OffsetStep(n, k - 1);
      PolyStartsIncrease(blockStart, p, k - 1, k);
      var next := EmitPolysIntended(out, coeff, blockStart, p, k);
      assert next.starts == prev.starts + [s];
      forall v | v in next.starts
        ensures v in out.starts || v < PolyStart(blockStart, p, k)
      {
        if v in prev.starts {
          assert v in out.starts || v < s;
        }
      }
    }
  }

  // ---------------------------------------------------------------------------
  // Window filtering

  /** A block outside the window adds nothing; a block shorter than two values fails
      whatever the window. */
  lemma OutsideWindowSkipped(out: Emitted, block: seq<real>, p: Params, t0: real, tf: real, emScale: Option<real>)
    requires emScale.Some? ==> 1.0 + emScale.value != 0.0
    requires |block| >= 2 && OutsideWindow(JdToMjdJ2k(block[0]), JdToMjdJ2k(block[1]), t0, tf)
    ensures ProcessBlock(out, block, p, t0, tf, emScale) == Ok(out)
  {
  }

  /** The window test keeps exactly the blocks whose date interval meets [t0, tf]. */
  lemma WindowMeetsInterval(blockStart: real, blockStop: real, t0: real, tf: real)
    ensures !OutsideWindow(blockStart, blockStop, t0, tf) <==> blockStart <= tf && t0 <= blockStop
  {
  }

  // ---------------------------------------------------------------------------
  // The Earth-from-EMB scaling

  /** Axis b is axis a with every coefficient scaled by -1 / (1 + emRatio), on the same
      dates. */
  predicate AxisScaled(b: seq<Segment>, a: seq<Segment>, emRatio: real)
    requires 1.0 + emRatio != 0.0
  {
    |b| == |a|
    && forall i :: 0 <= i < |a| ==>
         b[i].start == a[i].start && b[i].stop == a[i].stop
         && b[i].coeff == EarthFromEmbCoefficients(a[i].coeff, emRatio)
  }

  lemma AxisScaledAppend(b: seq<Segment>, a: seq<Segment>, emRatio: real, s: real, stop: real,
                         c: seq<real>, cur: int, shift: int, n: int)
    requires 1.0 + emRatio != 0.0 && AxisScaled(b, a, emRatio)
    ensures AxisScaled(b + [Segment(s, stop, AxisSlice(EarthFromEmbCoefficients(c, emRatio), cur, shift, n))],
                       a + [Segment(s, stop, AxisSlice(c, cur, shift, n))], emRatio)
  {
    ScaleSlice(c, emRatio, cur + shift, cur + shift + n);
    var b' := b + [Segment(s, stop, AxisSlice(EarthFromEmbCoefficients(c, emRatio), cur, shift, n))];
    var a' := a + [Segment(s, stop, AxisSlice(c, cur, shift, n))];
    forall i | 0 <= i < |a'|
      ensures b'[i].start == a'[i].start && b'[i].stop == a'[i].stop
      ensures b'[i].coeff == EarthFromEmbCoefficients(a'[i].coeff, emRatio)
    {
      if i < |a| {
        assert a'[i] == a[i] && b'[i] == b[i];
      }
    }
  }

  /** b is a with every coefficient scaled by -1 / (1 + emRatio), in the same layout and
      with the same dates. */
  predicate ScaledCopy(b: Emitted, a: Emitted, emRatio: real)
    requires 1.0 + emRatio != 0.0
  {
    b.starts == a.starts && AxisScaled(b.x, a.x, emRatio) && AxisScaled(b.y, a.y, emRatio)
    && AxisScaled(b.z, a.z, emRatio)
  }

  /** Scaling before slicing equals slicing before scaling. */
  lemma ScaleSlice(c: seq<real>, emRatio: real, lo: int, hi: int)
    requires 1.0 + emRatio != 0.0
    ensures PySlice(EarthFromEmbCoefficients(c, emRatio), lo, hi)
         == EarthFromEmbCoefficients(PySlice(c, lo, hi), emRatio)
  {
    var a := SliceBound(lo, |c|);
    var b := SliceBound(hi, |c|);
    if a < b {
      RangeIsSubsequence(c, a, b);
      RangeIsSubsequence(EarthFromEmbCoefficients(c, emRatio), a, b);
    }
  }

  lemma EmitPolyScaled(sa: Cursor, sb: Cursor, c: seq<real>, emRatio: real, blockStart: real, p: Params, k: nat)
    requires 1.0 + emRatio != 0.0 && p.numPoly > 0
    requires ScaledCopy(sb.out, sa.out, emRatio) && sb.cur == sa.cur
    ensures ScaledCopy(EmitPoly(sb, EarthFromEmbCoefficients(c, emRatio), blockStart, p, k).out,
                       EmitPoly(sa, c, blockStart, p, k).out, emRatio)
    ensures EmitPoly(sb, EarthFromEmbCoefficients(c, emRatio), blockStart, p, k).cur
         == EmitPoly(sa, c, blockStart, p, k).cur
  {
    var s := PolyStart(blockStart, p, k);
    if s !in sa.out.starts {
      var n := p.coeffPerPoly;
      var stop := s + p.DaysPerPoly();
      var cur := sa.cur;
      AxisScaledAppend(sb.out.x, sa.out.x, emRatio, s, stop, c, cur, 0, n);
      AxisScaledAppend(sb.out.y, sa.out.y, emRatio, s, stop, c, cur, n, n);
      AxisScaledAppend(sb.out.z, sa.out.z, emRatio, s, stop, c, cur, n + n, n);
    }
  }

  lemma {:induction false} EmitPolysScaled(a: Emitted, b: Emitted, c: seq<real>, emRatio: real,
                                           blockStart: real, p: Params, k: nat)
    requires 1.0 + emRatio != 0.0 && k <= PolyCount(p)
    requires ScaledCopy(b, a, emRatio)
    ensures ScaledCopy(EmitPolys(Cursor(b, 0), EarthFromEmbCoefficients(c, emRatio), blockStart, p, k).out,
                       EmitPolys(Cursor(a, 0), c, blockStart, p, k).out, emRatio)
    ensures EmitPolys(Cursor(b, 0), EarthFromEmbCoefficients(c, emRatio), blockStart, p, k).cur
         == EmitPolys(Cursor(a, 0), c, blockStart, p, k).cur
  {
    if k > 0 {
      EmitPolysScaled(a, b, c, emRatio, blockStart, p, k - 1);
      EmitPolysLast(Cursor(a, 0), c, blockStart, p, k);
      EmitPolysLast(Cursor(b, 0), EarthFromEmbCoefficients(c, emRatio), blockStart, p, k);
      EmitPolyScaled(EmitPolys(Cursor(a, 0), c, blockStart, p, k - 1),
                     EmitPolys(Cursor(b, 0), EarthFromEmbCoefficients(c, emRatio), blockStart, p, k - 1),
                     c, emRatio, blockStart, p, k - 1);
    }
  }

  /** A scaled run emits exactly the rows of the unscaled run, with the same dates and the
      same layout, and every coefficient multiplied by -1 / (1 + emRatio); both runs fail
      on the same input with the same error. */
  lemma {:induction false} GenerateScaled(blocks: seq<seq<real>>, p: Params, t0: real, tf: real, emRatio: real)
    requires 1.0 + emRatio != 0.0
    ensures Generate(blocks, p, t0, tf, Some(emRatio)).Ok? <==> Generate(blocks, p, t0, tf, None).Ok?
    ensures Generate(blocks, p, t0, tf, None).Err? ==>
              Generate(blocks, p, t0, tf, Some(emRatio)) == Generate(blocks, p, t0, tf, None)
    ensures Generate(blocks, p, t0, tf, None).Ok? ==>
              ScaledCopy(Generate(blocks, p, t0, tf, Some(emRatio)).value,
                         Generate(blocks, p, t0, tf, None).value, emRatio)
  {
    if |blocks| == 0 {
    } else {
      var init := blocks[..|blocks| - 1];
      GenerateScaled(init, p, t0, tf, emRatio);
      var block := blocks[|blocks| - 1];
      var a := Generate(init, p, t0, tf, None);
      var b := Generate(init, p, t0, tf, Some(emRatio));
      if a.Ok? && |block| >= 2 && !OutsideWindow(JdToMjdJ2k(block[0]), JdToMjdJ2k(block[1]), t0, tf) {
        var c := PySlice(block, p.startIndex, p.stopIndex);
        EmitPolysScaled(a.value, b.value, c, emRatio, JdToMjdJ2k(block[0]), p, PolyCount(p));
      }
    }
  }

  /** The Earth-from-EMB table is the Moon table with every coefficient multiplied by
      -1 / (1 + EMRAT), on the same dates and in the same layout. */
  lemma EarthFromEmbIsScaledMoon(blocks: seq<seq<real>>, emRatio: real, t0: real, tf: real, header: seq<seq<int>>)
    requires 1.0 + emRatio != 0.0
    ensures TableFor(blocks, emRatio, t0, tf, EarthFromEMB, header).Ok?
        <==> TableFor(blocks, emRatio, t0, tf, Moon, header).Ok?
    ensures TableFor(blocks, emRatio, t0, tf, Moon, header).Ok? ==>
              ScaledCopy(TableFor(blocks, emRatio, t0, tf, EarthFromEMB, header).value,
                         TableFor(blocks, emRatio, t0, tf, Moon, header).value, emRatio)
  {
    var p := GetTableParameters(Moon, header);
    if p.Ok? {
      GenerateScaled(blocks, p.value, t0, tf, emRatio);
    }
  }
}
