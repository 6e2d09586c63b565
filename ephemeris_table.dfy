/** The segment lookup shared by every JPL ephemeris table
    (jpl_ephemeris/celestial_bodies/ephemeris_tables/jpl_ephemeris_table.cpp): a table
    covers [Start, Stop] in MJD from J2000 (TDB) with consecutive polynomials of a fixed
    span in days, and a time selects one of them. */
module EphemerisTable {
  import opened Errors

  /** First and last covered instant, MJD from J2000 in TDB (DE430 extract). */
  const Start: real := -8.5
  const Stop: real := 36535.5

  /** Days per polynomial and polynomial count of the three stored tables. */
  const MoonDaysPerPoly: real := 4.0
  const MoonRows: nat := 9136
  const EmbDaysPerPoly: real := 16.0
  const EmbRows: nat := 2284
  const EarthFromEmbDaysPerPoly: real := 4.0
  const EarthFromEmbRows: nat := 9136

  /** JPLEphemerisTable::get_index: a hard check against [Start, Stop] (no tolerance,
      both ends accepted), then the quotient (t - Start) / span truncated to an
      unsigned integer. The quotient is never negative there, so truncation is the
      floor. */
  function GetIndex(t: real, daysPerPoly: real): (r: Result<nat>)
    requires daysPerPoly > 0.0
    ensures r.Err? <==> t < Start || t > Stop
    ensures r.Err? ==> r.error == TimeOutOfRange
    ensures r.Ok? ==> SegmentStart(r.value, daysPerPoly) <= t < SegmentStart(r.value + 1, daysPerPoly)
  {
    if t < Start || t > Stop then Err(TimeOutOfRange)
    else
      FloorBracket(t - Start, daysPerPoly);
      Ok(((t - Start) / daysPerPoly).Floor)
  }

  /** The first instant covered by polynomial i of a table with the given span. */
  function SegmentStart(i: nat, daysPerPoly: real): real
  {
    Start + (i as real) * daysPerPoly
  }

  /** For a >= 0 and d > 0, floor(a / d) is a natural number i with i d <= a < (i + 1) d. */
  lemma FloorBracket(a: real, d: real)
    requires a >= 0.0 && d > 0.0
    ensures (a / d).Floor >= 0
    ensures ((a / d).Floor as real) * d <= a < ((a / d).Floor as real + 1.0) * d
  {
    var q := a / d;
    var f := q.Floor as real;
    var g := f + 1.0;
    assert q * d == a;
    assert f <= q < g;
    MultiplyMonotone(f, q, d);
    MultiplyStrict(q, g, d);
    assert a < g * d;
    assert g == (a / d).Floor as real + 1.0;
  }

  lemma MultiplyMonotone(x: real, y: real, d: real)
    requires x <= y && d > 0.0
    ensures x * d <= y * d
  {
  }

  lemma MultiplyStrict(x: real, y: real, d: real)
    requires x < y && d > 0.0
    ensures x * d < y * d
  {
  }

  /** A later time never selects an earlier segment. */
  lemma IndexMonotone(t1: real, t2: real, daysPerPoly: real)
    requires daysPerPoly > 0.0
    requires Start <= t1 <= t2 <= Stop
    ensures GetIndex(t1, daysPerPoly).Ok? && GetIndex(t2, daysPerPoly).Ok?
    ensures GetIndex(t1, daysPerPoly).value <= GetIndex(t2, daysPerPoly).value
  {
    var i1 := GetIndex(t1, daysPerPoly).value;
    var i2 := GetIndex(t2, daysPerPoly).value;
    // i2 < i1 would put t2 below the start of segment i1, which is at most t1.
    SegmentsOrdered(i2, i1, daysPerPoly);
  }

  /** The index of a segment is the only one whose half-open interval holds t. */
  lemma IndexUnique(t: real, daysPerPoly: real, i: nat)
    requires daysPerPoly > 0.0 && Start <= t <= Stop
    requires SegmentStart(i, daysPerPoly) <= t < SegmentStart(i + 1, daysPerPoly)
    ensures GetIndex(t, daysPerPoly) == Ok(i)
  {
    var j := GetIndex(t, daysPerPoly).value;
    SegmentsOrdered(i, j, daysPerPoly);
    SegmentsOrdered(j, i, daysPerPoly);
  }

  /** Segment i ends no later than a later segment j begins. */
  lemma SegmentsOrdered(i: nat, j: nat, d: real)
    requires d > 0.0
    ensures i < j ==> SegmentStart(i + 1, d) <= SegmentStart(j, d)
  {
    if i < j {
      MultiplyMonotone((i + 1) as real, j as real, d);
    }
  }

  /** Each stored table tiles exactly the covered range: span times rows is Stop - Start. */
  lemma TablesTileRange()
    ensures Stop - Start == 36544.0
    ensures MoonDaysPerPoly * MoonRows as real == Stop - Start
    ensures EmbDaysPerPoly * EmbRows as real == Stop - Start
    ensures EarthFromEmbDaysPerPoly * EarthFromEmbRows as real == Stop - Start
  {
  }

  /** For a table that tiles the range, every time before Stop selects a stored row. */
  lemma IndexInRowsBeforeStop(t: real, daysPerPoly: real, rows: nat)
    requires daysPerPoly > 0.0 && daysPerPoly * rows as real == Stop - Start
    requires Start <= t < Stop
    ensures GetIndex(t, daysPerPoly).Ok?
    ensures GetIndex(t, daysPerPoly).value < rows
  {
    var i := GetIndex(t, daysPerPoly).value;
    if i >= rows {
      MultiplyMonotone(rows as real, i as real, daysPerPoly);
    }
  }

  /** At t = Stop the lookup succeeds with an index equal to the row count, one past the
      last stored polynomial. */
  lemma StopIndexIsRowCount(daysPerPoly: real, rows: nat)
    requires daysPerPoly > 0.0 && daysPerPoly * rows as real == Stop - Start
    ensures GetIndex(Stop, daysPerPoly) == Ok(rows)
  {
    assert SegmentStart(rows, daysPerPoly) == Stop;
    MultiplyMonotone(rows as real, (rows + 1) as real, daysPerPoly);
    IndexUnique(Stop, daysPerPoly, rows);
  }

  /** The Moon table's instance of the edge: t = Stop selects row 9136 of 9136 rows. */
  lemma MoonStopIsPastLastRow()
    ensures GetIndex(Stop, MoonDaysPerPoly) == Ok(MoonRows)
    ensures GetIndex(Stop - 0.5, MoonDaysPerPoly) == Ok(MoonRows - 1)
  {
    StopIndexIsRowCount(MoonDaysPerPoly, MoonRows);
    IndexInRowsBeforeStop(Stop - 0.5, MoonDaysPerPoly, MoonRows);
    IndexUnique(Stop - 0.5, MoonDaysPerPoly, MoonRows - 1);
  }

  /** The lookup with the last polynomial's interval closed at Stop: identical to
      GetIndex except that t = Stop selects the last stored row. */
  function GetRowIndex(t: real, daysPerPoly: real, rows: nat): (r: Result<nat>)
    requires daysPerPoly > 0.0 && daysPerPoly * rows as real == Stop - Start
    ensures r.Err? <==> t < Start || t > Stop
    ensures r.Ok? ==> r.value < rows
    ensures r.Ok? ==> SegmentStart(r.value, daysPerPoly) <= t <= SegmentStart(r.value + 1, daysPerPoly)
    ensures t < Stop ==> r == GetIndex(t, daysPerPoly)
  {
    if t < Start || t > Stop then Err(TimeOutOfRange)
    else if t == Stop then
      StopIndexIsRowCount(daysPerPoly, rows);
      assert rows >= 1;
      Ok(rows - 1)
    else
      IndexInRowsBeforeStop(t, daysPerPoly, rows);
      GetIndex(t, daysPerPoly)
  }
}
