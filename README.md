# jpl_ephemeris in Dafny

A Dafny model of the computational core of jpl_ephemeris. The library is a C++ evaluator of Chebyshev-polynomial tables extracted from the JPL DE430 planetary ephemeris, together with the Python generator that produces those tables from JPL's ASCII files. The model has four parts.

- **Chebyshev evaluation** (`ChebyshevUtil`, `ChebyshevSeries`, `ChebyshevEval`, `ChebyshevDerivativeEval`):
  - the affine change of variables between [lb, ub] and [-1, 1];
  - Clenshaw's backward recurrence for the value (Numerical Recipes in Fortran 77, routine chebev) and for the derivative (routine chder);
  - the forms with an explicit order, with the full order, and with the bounds stored in front of the coefficients.

  The two backward loops are proved equal to the sums Σ c_k·T_k(y) and (2/(ub−lb))·Σ c_k·T'_k(y), with T_k defined by its three-term recurrence. Error paths come back as `Err` results, in the order the source checks them.
- **Segment lookup** (`EphemerisTable`): `JPLEphemerisTable::get_index`. It is a hard range check on [−8.5, 36535.5] MJD from J2000, followed by the truncated quotient (t − start)/span.
- **Frame composition** (`BaseTables`, `Vectors`, `CentralBodies`, `EarthFromSsbTable`, `EarthBody`, `MoonBody`, `SunBody`, `Frames`):
  - the four stored tables are abstract functions of time that may fail;
  - Earth-from-SSB is the sum of Earth-from-EMB and EMB-from-SSB;
  - each body's central-body switch is decoded from an int tag, so the `default:` throw is reachable.

  `Frames` proves that the three switches agree with one barycentric picture: "a relative to b" is the difference of barycentric positions, which makes the switches antisymmetric and transitive.
- **Table generator** (`TableParameters`, `TextLines`, `HeaderParser`, `BlockReader`, `CoefficientTables`). This part covers:
  - routing of the header's GROUP sections and the EMRAT lookup;
  - `get_table_parameters` and `jd_to_mjdj2k`;
  - the splitting of data files at "n 1018" lines;
  - the window filter and the duplicate-date check;
  - the x/y/z stride slicing;
  - the −1/(1 + EMRAT) scaling that turns the Moon table into the Earth-from-EMB table.

  Lines are their whitespace-separated tokens, and numbers are given reals.

All time and coordinate arithmetic is over `real`. Loops of the source are `while`/`for` loops proved against specification functions. The properties of those functions are proved as lemmas.

## Model

| member | source | states |
|---|---|---|
| ChebyshevUtil.FromToRoundTrip | jpl_ephemeris/chebyshev/chebyshev_util.cpp:5-13 | for lb ≠ ub, mapping x into [-1, 1] and back gives x |
| ChebyshevUtil.ToFromRoundTrip | jpl_ephemeris/chebyshev/chebyshev_util.cpp:5-13 | for lb ≠ ub, mapping y out of [-1, 1] and back gives y |
| ChebyshevUtil.Endpoints | jpl_ephemeris/chebyshev/chebyshev_util.cpp:11-13 | lb maps to −1, ub to 1, the midpoint to 0 |
| ChebyshevUtil.StrictlyIncreasing | jpl_ephemeris/chebyshev/chebyshev_util.cpp:11-13 | for lb < ub the map into [-1, 1] is strictly increasing |
| ChebyshevUtil.MapsDomainOntoInterval | jpl_ephemeris/chebyshev/chebyshev_util.cpp:11-13 | for lb < ub, x in [lb, ub] maps into [-1, 1]; x below lb maps below −1 and x above ub above 1 |
| ChebyshevSeries.ClenshawTail | jpl_ephemeris/chebyshev/chebyshev_eval.hpp:62-68 | for every i, the tail sum Σ_{k>i} c_k·T_k(y) is b_{i+1}·T_{i+1} − b_{i+2}·T_i, in terms of the Clenshaw values b_j |
| ChebyshevSeries.ClenshawValue | jpl_ephemeris/chebyshev/chebyshev_eval.hpp:62-71 | Σ_{k=1..n} c_k·T_k(y) = y·b_1 − b_2 |
| ChebyshevSeries.ClenshawDerivativeTail | jpl_ephemeris/chebyshev/chebyshev_derivative_eval.hpp:55-68 | for every i, the tail of Σ c_k·T'_k(y) expressed through b_j, the derivative recurrence b'_j, T_k and T'_k |
| ChebyshevSeries.ClenshawDerivative | jpl_ephemeris/chebyshev/chebyshev_derivative_eval.hpp:55-72 | Σ_{k=1..n} c_k·T'_k(y) = y·b'_1 − b'_2 + b_1 |
| ChebyshevSeries.SeriesOnlyReadsRange | jpl_ephemeris/chebyshev/chebyshev_eval.hpp:64-67 | the value and derivative sums over lo..hi depend only on the coefficients lo..hi |
| ChebyshevEval.EffectiveOrder | jpl_ephemeris/chebyshev/chebyshev_eval.hpp:43-45 | an order above N−1 becomes N−1; an order within range is kept |
| ChebyshevEval.ChebyshevEvalOrder | jpl_ephemeris/chebyshev/chebyshev_eval.hpp:39-72 | the result is the reference definition: CoeffSizeInvalid when the clamped order is below 1, then the lower and upper extrapolation errors, otherwise factor·c_0 + Σ_{k=1..m} c_k·T_k(to(x)) |
| ChebyshevEval.Recurrence | jpl_ephemeris/chebyshev/chebyshev_eval.hpp:62-68 | after the backward loop d and dd are Clenshaw's b_1 and b_2 |
| ChebyshevEval.ClenshawResult | jpl_ephemeris/chebyshev/chebyshev_eval.hpp:71 | y·d − dd built from the loop's d and dd is the series Σ_{k=1..n} c_k·T_k(y) |
| ChebyshevEval.ChebyshevEval | jpl_ephemeris/chebyshev/chebyshev_eval.hpp:94-98 | equals the reference definition with order N−1 |
| ChebyshevEval.ChebyshevEvalMerged | jpl_ephemeris/chebyshev/chebyshev_eval.hpp:121-140 | MergedSizeInvalid when N < 3; otherwise the separated form with lb = a[0], ub = a[1], coefficients a[2..] |
| ChebyshevEval.CopyCoefficients | jpl_ephemeris/chebyshev/chebyshev_eval.hpp:133-136 | a new array holding a[2..] of the merged array |
| ChebyshevEval.ExtrapolationWindow | jpl_ephemeris/chebyshev/chebyshev_eval.hpp:50-56 | for tol ≥ 0 the two guards mean exactly x < lb − tol and x > ub + tol |
| ChebyshevEval.EvalFailsExactlyOutsideWindow | jpl_ephemeris/chebyshev/chebyshev_eval.hpp:47-56 | with two or more coefficients: success iff lb − tol ≤ x ≤ ub + tol (exactly tol outside is accepted), with the error that names the side |
| ChebyshevEval.OneCoefficientRejected | jpl_ephemeris/chebyshev/chebyshev_eval.hpp:48-49 | a single coefficient is always rejected, whatever the order |
| ChebyshevEval.MergedThreeRejected | jpl_ephemeris/chebyshev/chebyshev_eval.hpp:126-139 | a merged array of three entries passes the size check but its one coefficient is rejected |
| ChebyshevEval.ExcessOrderClamped | jpl_ephemeris/chebyshev/chebyshev_eval.hpp:43-45 | an order above N−1 gives the same result as N−1 |
| ChebyshevEval.HigherCoefficientsIgnored | jpl_ephemeris/chebyshev/chebyshev_eval.hpp:64-67 | coefficients above the order never affect the result |
| ChebyshevEval.EvalAtUpperBound | jpl_ephemeris/chebyshev/chebyshev_eval.hpp:59-71 | at x = ub the value is factor·c_0 + c_1 + … + c_{N−1}, since T_k(1) = 1 |
| ChebyshevDerivativeEval.ChebyshevDerivativeEvalBounds | jpl_ephemeris/chebyshev/chebyshev_derivative_eval.hpp:36-73 | the result is the reference definition: CoeffSizeInvalid when N < 1, the two extrapolation errors, otherwise (2/(ub−lb))·Σ_{k=1..N−1} c_k·T'_k(to(x)) |
| ChebyshevDerivativeEval.CoupledRecurrence | jpl_ephemeris/chebyshev/chebyshev_derivative_eval.hpp:55-68 | after the coupled loop d, dd are b_1, b_2 of the value recurrence with order N−1, and dp, ddp are b'_1, b'_2 |
| ChebyshevDerivativeEval.DerivativeResult | jpl_ephemeris/chebyshev/chebyshev_derivative_eval.hpp:71-72 | y·dp − ddp + d built from the loop's values is Σ c_k·T'_k(y) |
| ChebyshevDerivativeEval.ChebyshevDerivativeEvalMerged | jpl_ephemeris/chebyshev/chebyshev_derivative_eval.hpp:94-113 | MergedSizeInvalid when N < 3; otherwise the separated form on a[0], a[1], a[2..] |
| ChebyshevDerivativeEval.DerivFailsExactlyOutsideWindow | jpl_ephemeris/chebyshev/chebyshev_derivative_eval.hpp:40-48 | success iff lb − tol ≤ x ≤ ub + tol; no order clamp and no order check |
| ChebyshevDerivativeEval.ConstantTermIgnored | jpl_ephemeris/chebyshev/chebyshev_derivative_eval.hpp:58-72 | c_0 never affects the derivative |
| ChebyshevDerivativeEval.SingleCoefficientHasZeroDerivative | jpl_ephemeris/chebyshev/chebyshev_derivative_eval.hpp:58-72 | with N = 1 inside the window the derivative is 0, while the value evaluator rejects the same array |
| ChebyshevDerivativeEval.DerivAtUpperBound | jpl_ephemeris/chebyshev/chebyshev_derivative_eval.hpp:51-72 | at x = ub the derivative is (2/(ub−lb))·Σ k²·c_k |
| ChebyshevDerivativeEval.LinearSeriesSlope | jpl_ephemeris/chebyshev/chebyshev_derivative_eval.hpp:51-72 | for two coefficients the derivative is exactly the slope of the value evaluator between any two points of the window |
| EphemerisTable.GetIndex | jpl_ephemeris/celestial_bodies/ephemeris_tables/jpl_ephemeris_table.cpp:8-16 | TimeOutOfRange iff t < −8.5 or t > 36535.5 (both ends accepted); otherwise i with start + i·span ≤ t < start + (i+1)·span |
| EphemerisTable.FloorBracket | jpl_ephemeris/celestial_bodies/ephemeris_tables/jpl_ephemeris_table.cpp:15 | the truncated non-negative quotient a/d is its floor: floor·d ≤ a < (floor+1)·d |
| EphemerisTable.IndexMonotone | jpl_ephemeris/celestial_bodies/ephemeris_tables/jpl_ephemeris_table.cpp:15 | the index never decreases as t grows within the range |
| EphemerisTable.IndexUnique | jpl_ephemeris/celestial_bodies/ephemeris_tables/jpl_ephemeris_table.cpp:15 | the segment containing t is the only index returned for t |
| EphemerisTable.TablesTileRange | jpl_ephemeris/celestial_bodies/ephemeris_tables/moon_gcrf_table.hpp:69-72 | stop − start = 36544 days = 4·9136 (Moon, Earth-from-EMB) = 16·2284 (EMB-from-SSB) |
| EphemerisTable.IndexInRowsBeforeStop | jpl_ephemeris/celestial_bodies/ephemeris_tables/jpl_ephemeris_table.cpp:15 | for a table that tiles the range, every t in [start, stop) selects a stored row |
| EphemerisTable.StopIndexIsRowCount | jpl_ephemeris/celestial_bodies/ephemeris_tables/jpl_ephemeris_table.cpp:9-15 | at t = stop the lookup succeeds with index = row count, one past the last row |
| EphemerisTable.MoonStopIsPastLastRow | jpl_ephemeris/celestial_bodies/ephemeris_tables/moon_gcrf_table.hpp:69-72 | for the Moon table, t = stop gives 9136 of 9136 rows and t = stop − 0.5 gives 9135 |
| EphemerisTable.GetRowIndex | jpl_ephemeris/celestial_bodies/ephemeris_tables/jpl_ephemeris_table.cpp:8-16 | same error condition; the index is always a stored row whose closed interval holds t; equal to get_index before stop |
| CentralBodies.Encode | jpl_ephemeris/celestial_bodies/central_body.hpp:12-17 | the four enumerators have tags 0..3 |
| CentralBodies.Decode | jpl_ephemeris/celestial_bodies/central_body.hpp:12-17 | a tag names no enumerator iff it lies outside 0..3 |
| CentralBodies.DecodeEncode | jpl_ephemeris/celestial_bodies/central_body.hpp:12-17 | decoding an enumerator's tag gives it back |
| CentralBodies.EncodeDecode | jpl_ephemeris/celestial_bodies/central_body.hpp:12-17 | a tag that decodes is the tag of what it decodes to |
| CentralBodies.DefaultIsEarth | jpl_ephemeris/celestial_bodies/earth.hpp:46 | the default central body is Earth |
| EarthFromSsbTable.Compute | jpl_ephemeris/celestial_bodies/ephemeris_tables/earth_from_ssb_gcrf_table.cpp:18-28 | the element loop yields the reference sum Earth-from-EMB + EMB-from-SSB, or the first lookup error |
| EarthFromSsbTable.GetPosition | jpl_ephemeris/celestial_bodies/ephemeris_tables/earth_from_ssb_gcrf_table.cpp:18-28 | the composition over the position tables |
| EarthFromSsbTable.GetVelocity | jpl_ephemeris/celestial_bodies/ephemeris_tables/earth_from_ssb_gcrf_table.cpp:32-42 | the same composition over the velocity tables |
| EarthFromSsbTable.Composition | jpl_ephemeris/celestial_bodies/ephemeris_tables/earth_from_ssb_gcrf_table.cpp:20-26 | a result exists iff both lookups succeed, and its component k is the sum of the two components k |
| EarthFromSsbTable.EmbFailureFirst | jpl_ephemeris/celestial_bodies/ephemeris_tables/earth_from_ssb_gcrf_table.cpp:20-21 | a failing EMB lookup is the error reported, whatever Earth-from-EMB does |
| EarthBody.Compute | jpl_ephemeris/celestial_bodies/earth.cpp:17-55 | SSB: EarthSSB; Sun: EarthSSB − SunSSB; Earth: zero; Moon: −MoonFromEarth; other tags: UnexpectedCentralBody |
| EarthBody.GetPosition | jpl_ephemeris/celestial_bodies/earth.cpp:17-55 | the switch over the position tables |
| EarthBody.GetVelocity | jpl_ephemeris/celestial_bodies/earth.cpp:59-97 | the identical switch over the velocity tables |
| EarthBody.DefaultIsZero | jpl_ephemeris/celestial_bodies/earth.hpp:46 | with the default central body the answer is zero, with no table consulted |
| EarthBody.InvalidTagRejected | jpl_ephemeris/celestial_bodies/earth.cpp:49-51 | a tag outside the enumeration is rejected |
| MoonBody.Compute | jpl_ephemeris/celestial_bodies/moon.cpp:17-59 | SSB: MoonFromEarth + EarthSSB; Sun: MoonFromEarth + EarthSSB − SunSSB; Earth: MoonFromEarth; Moon: zero; other tags rejected |
| MoonBody.GetPosition | jpl_ephemeris/celestial_bodies/moon.cpp:17-59 | the switch over the position tables |
| MoonBody.GetVelocity | jpl_ephemeris/celestial_bodies/moon.cpp:63-105 | the identical switch over the velocity tables |
| MoonBody.DefaultIsMoonTable | jpl_ephemeris/celestial_bodies/moon.hpp:46 | the default answer is the Moon table itself |
| MoonBody.SelfIsZero | jpl_ephemeris/celestial_bodies/moon.cpp:49-52 | relative to itself the Moon is at zero, whatever the tables |
| MoonBody.InvalidTagRejected | jpl_ephemeris/celestial_bodies/moon.cpp:53-55 | a tag outside the enumeration is rejected |
| SunBody.Compute | jpl_ephemeris/celestial_bodies/sun.cpp:17-58 | SSB: SunSSB; Sun: zero; Earth: SunSSB − EarthSSB; Moon: SunSSB − EarthSSB − MoonFromEarth; other tags rejected |
| SunBody.GetPosition | jpl_ephemeris/celestial_bodies/sun.cpp:17-58 | the switch over the position tables |
| SunBody.GetVelocity | jpl_ephemeris/celestial_bodies/sun.cpp:62-103 | the identical switch over the velocity tables |
| SunBody.SelfIsZero | jpl_ephemeris/celestial_bodies/sun.cpp:26-28 | relative to itself the Sun is at zero, whatever the tables |
| SunBody.InvalidTagRejected | jpl_ephemeris/celestial_bodies/sun.cpp:52-54 | a tag outside the enumeration is rejected |
| Frames.RelativeIsBarycentricDifference | jpl_ephemeris/celestial_bodies/sun.cpp:21-55 | when all tables answer, every body's switch returns its barycentric position minus the central body's |
| Frames.SelfIsZero | jpl_ephemeris/celestial_bodies/earth.cpp:37-40 | each of Earth, Moon and Sun is at zero relative to itself |
| Frames.Antisymmetric | jpl_ephemeris/celestial_bodies/moon.cpp:45-48 | a relative to b is −(b relative to a), e.g. Moon(t, Earth) = −Earth(t, Moon); a failing lookup gives the same error on both sides |
| Frames.Transitive | jpl_ephemeris/celestial_bodies/sun.cpp:40-51 | a relative to c = (a relative to b) + (b relative to c) |
| Frames.SunFromMoonComposition | jpl_ephemeris/celestial_bodies/sun.cpp:40-51 | Sun(t, Moon) = Sun(t, SSB) − Earth(t, SSB) − Moon(t, Earth) |
| TableParameters.Column | jpl_ephemeris_data/jpl_ephemeris_parser.py:110-121 | every body has one of the twelve columns 0..11 |
| TableParameters.ColumnsDistinct | jpl_ephemeris_data/jpl_ephemeris_parser.py:110-121 | distinct bodies have distinct columns |
| TableParameters.GetTableParameters | jpl_ephemeris_data/jpl_ephemeris_parser.py:125-152 | succeeds iff the table has the body's entries; start = h[0][i]−1, stop = h[0][i+1]−1, coefficients = h[1][i], polynomials = h[2][i] |
| TableParameters.PolynomialsTileBlock | jpl_ephemeris_data/jpl_ephemeris_parser.py:150 | days_per_poly is positive and num_poly of them make the 32-day block |
| TableParameters.JdToMjdJ2k | jpl_ephemeris_data/jpl_ephemeris_parser.py:156-161 | the result plus 2451545.0 is the Julian date |
| TableParameters.JdShiftPreservesOrder | jpl_ephemeris_data/jpl_ephemeris_parser.py:161 | the conversion keeps differences and order |
| TableParameters.SliceBoundCases | jpl_ephemeris_data/jpl_ephemeris_parser.py:337 | Python slice bounds: kept in range, clamped past the end, counted from the end when negative, clamped at 0 |
| TableParameters.PySliceInRange | jpl_ephemeris_data/jpl_ephemeris_parser.py:352 | a slice within bounds is the subsequence s[lo..hi], of length hi − lo |
| TableParameters.PySlicePastEnd | jpl_ephemeris_data/jpl_ephemeris_parser.py:352 | a slice starting past the end is empty, not an error |
| BlockReader.ReadInBlocks | jpl_ephemeris_data/jpl_ephemeris_parser.py:189-206 | the splitting loop returns the closed blocks followed by the open one |
| BlockReader.ScanInvariant | jpl_ephemeris_data/jpl_ephemeris_parser.py:193-203 | along the loop the blocks followed by the open one concatenate to the lines seen that are not two-token lines, and no closed block is empty |
| BlockReader.SplitBlocksProperties | jpl_ephemeris_data/jpl_ephemeris_parser.py:189-206 | at least one block; the blocks concatenate to all lines whose token count ≠ 2; every block but the last is non-empty |
| BlockReader.ScanAfterReset | jpl_ephemeris_data/jpl_ephemeris_parser.py:195-203 | once no block is open, the loop closes exactly the blocks the remaining lines would close on their own |
| BlockReader.SplitAtHeader | jpl_ephemeris_data/jpl_ephemeris_parser.py:197-201 | a "n 1018" line ends the block before it: the blocks of before + [header] + after are the blocks closed in before, then before's open block if non-empty, then the blocks of after |
| BlockReader.NoHeaderOneBlock | jpl_ephemeris_data/jpl_ephemeris_parser.py:195-206 | lines without a header line form exactly one block, holding all their data lines |
| BlockReader.OtherPairDropped | jpl_ephemeris_data/jpl_ephemeris_parser.py:197-201 | a two-token line that is not a header neither closes a block nor is kept |
| BlockReader.TrailingHeaderLeavesEmptyBlock | jpl_ephemeris_data/jpl_ephemeris_parser.py:197-206 | input ending in a header line ends with an empty block |
| HeaderParser.RouteGroups | jpl_ephemeris_data/jpl_ephemeris_parser.py:70-87 | the routing loop computes the routing fold, failing on a GROUP line without a second token |
| HeaderParser.PrefixFailurePersists | jpl_ephemeris_data/jpl_ephemeris_parser.py:75-78 | once a prefix of the lines fails, the routing fails with the same error |
| HeaderParser.RouteCollectsGroups | jpl_ephemeris_data/jpl_ephemeris_parser.py:70-87 | routing fails iff some GROUP line has no name; otherwise groups 1040, 1041 and 1050 hold exactly the non-GROUP lines after a GROUP line naming them, in order, so lines before the first GROUP line and GROUP lines are never stored |
| HeaderParser.OtherGroupDropsLines | jpl_ephemeris_data/jpl_ephemeris_parser.py:81-87 | inside any other group a line is dropped |
| HeaderParser.SplitBlock | jpl_ephemeris_data/jpl_ephemeris_parser.py:26-33 | the tokens are those of the group's lines after the first two, in order, blank lines contributing none |
| HeaderParser.FindEmrat | jpl_ephemeris_data/jpl_ephemeris_parser.py:35-40 | None iff no "EMRAT" token; otherwise the index of the first one |
| HeaderParser.EmratIndexIsFirst | jpl_ephemeris_data/jpl_ephemeris_parser.py:35-40 | the recursive index definition is the first occurrence, or None iff absent |
| HeaderParser.EmratValue | jpl_ephemeris_data/jpl_ephemeris_parser.py:46-55 | the token at the EMRAT index of group 1041, an error iff there is none |
| HeaderParser.NonBlankKeepsTokens | jpl_ephemeris_data/jpl_ephemeris_parser.py:57-65 | the kept rows are non-empty and hold all the group's tokens, in order |
| HeaderParser.NonBlankAppend | jpl_ephemeris_data/jpl_ephemeris_parser.py:60-64 | the rows of two runs of lines are the rows of the first followed by those of the second, so rows keep the order of the lines |
| HeaderParser.NonBlankSingle | jpl_ephemeris_data/jpl_ephemeris_parser.py:61-64 | a blank line gives no row; any other line gives exactly one row, itself |
| HeaderParser.ParseGroup1050 | jpl_ephemeris_data/jpl_ephemeris_parser.py:57-65 | the loop over group 1050's lines computes the rows defined by NonBlank |
| HeaderParser.ParseHeaderFile | jpl_ephemeris_data/jpl_ephemeris_parser.py:12-94 | the method computes the header reader's reference definition: route, find EMRAT, read its value, keep the table rows |
| HeaderParser.MissingEmratRejected | jpl_ephemeris_data/jpl_ephemeris_parser.py:89-91 | without an EMRAT token in group 1040 the header is rejected |
| HeaderParser.EmratAtSamePosition | jpl_ephemeris_data/jpl_ephemeris_parser.py:89-92 | on success the ratio is the group 1041 token at the position of group 1040's first EMRAT token |
| CoefficientTables.DuplicateStartDate | jpl_ephemeris_data/jpl_ephemeris_parser.py:282-291 | true iff the date is among those emitted |
| CoefficientTables.PolyStartIsProduct | jpl_ephemeris_data/jpl_ephemeris_parser.py:343 | polynomial k starts k·days_per_poly after the block start |
| CoefficientTables.PolyStartsTileBlock | jpl_ephemeris_data/jpl_ephemeris_parser.py:341-344 | start dates increase strictly with k, and num_poly spans reach block start + 32 |
| CoefficientTables.EarthFromEmbCoefficients | jpl_ephemeris_data/jpl_ephemeris_parser.py:425 | same length; each value times (1 + EMRAT) is minus the Moon value |
| CoefficientTables.EmitPolynomials | jpl_ephemeris_data/jpl_ephemeris_parser.py:340-369 | the inner loop yields the per-polynomial fold over k < num_poly |
| CoefficientTables.GenerateSegments | jpl_ephemeris_data/jpl_ephemeris_parser.py:326-369 | the outer loop yields the per-block fold, failing on a block without two dates |
| CoefficientTables.GenerateFailurePersists | jpl_ephemeris_data/jpl_ephemeris_parser.py:329-330 | once a prefix of the blocks fails, the whole run fails with the same error |
| CoefficientTables.GenerateEarthRelativeToBarycenter | jpl_ephemeris_data/jpl_ephemeris_parser.py:386-463 | the Moon's parameters with scaled coefficients |
| CoefficientTables.GenerateEphemerisFile | jpl_ephemeris_data/jpl_ephemeris_parser.py:295-382 | Earth-from-EMB is delegated; any other body is cut from its own column |
| CoefficientTables.GenerateAligned | jpl_ephemeris_data/jpl_ephemeris_parser.py:341-369 | x, y, z and the start list stay equal in length; row i of each axis covers [start_i, start_i + days_per_poly]; the start dates are pairwise distinct |
| CoefficientTables.BlockLayout | jpl_ephemeris_data/jpl_ephemeris_parser.py:337-369 | an in-window block appends rows in step on the three axes; its e-th row holds the slices at 3ne, 3ne + n and 3ne + 2n of the body's range; each start is one of the block's polynomial starts |
| CoefficientTables.CursorCountsRows | jpl_ephemeris_data/jpl_ephemeris_parser.py:347-369 | cur_ind after a block is 3n times the rows it added, so a skipped duplicate does not advance it |
| CoefficientTables.SkippedDuplicateShiftsSlices | jpl_ephemeris_data/jpl_ephemeris_parser.py:347-369 | as written: when polynomial 0 of a block is a duplicate and polynomial 1 is not, polynomial 1's x row gets coeff[0:n], while the intended loop gives it coeff[3n:4n] |
| CoefficientTables.IntendedRowAt | jpl_ephemeris_data/jpl_ephemeris_parser.py:340-369 | in the corrected loop, polynomial k, unless a duplicate, adds on each axis the slice at 3nk plus the axis's shift (0, n, 2n) |
| CoefficientTables.FreshBlockAsIntended | jpl_ephemeris_data/jpl_ephemeris_parser.py:340-369 | for a block none of whose start dates was emitted before, the loop as written equals the corrected loop, with cur_ind = 3nk before polynomial k |
| CoefficientTables.OutsideWindowSkipped | jpl_ephemeris_data/jpl_ephemeris_parser.py:333-334 | a block outside the window adds nothing |
| CoefficientTables.WindowMeetsInterval | jpl_ephemeris_data/jpl_ephemeris_parser.py:333-334 | a block is kept iff its date interval meets [t0, tf] |
| CoefficientTables.GenerateScaled | jpl_ephemeris_data/jpl_ephemeris_parser.py:422-458 | the scaled run succeeds iff the unscaled one does, with the same error; on success it has the same dates and layout, and every coefficient is scaled by −1/(1 + EMRAT) |
| CoefficientTables.EarthFromEmbIsScaledMoon | jpl_ephemeris_data/jpl_ephemeris_parser.py:404-425 | the Earth-from-EMB table is the Moon table with every coefficient scaled by −1/(1 + EMRAT) |

## Left out

- File opening and reading, `write_to_file` and its C++ text rendering, `"{0:0.15e}"` formatting, and the `__main__` driver: these are I/O. Lines arrive as token lists.
- `float()` and `int()` string parsing (including the `D` to `e` exponent rewrite): numbers are given reals and integers, and EMRAT is returned as its token.
- IEEE-754 rounding: all arithmetic is over `real`, so identities such as the Clenshaw sums, antisymmetry and composition hold exactly in the model only.
- The coefficient arrays of the stored tables and their lookup code: not part of this model. The four base tables are abstract functions of time that may fail.
- ChebyshevEval.ChebyshevEvalOrder: requires lb ≠ ub, because the source divides by ub − lb without checking. The same holds for the other evaluators. Lemmas about order and range assume lb < ub.
- EphemerisTable.GetIndex: the model returns an unbounded natural number. The source truncates to `unsigned int`; for the stored spans of 4 and 16 days the index stays far below that limit.
- CoefficientTables.EarthFromEmbCoefficients: requires 1 + EMRAT ≠ 0. The source would raise ZeroDivisionError there.
- TableParameters.Params.DaysPerPoly: requires a positive polynomial count. With num_poly ≤ 0, `range(num_poly)` is empty and the model emits nothing, as the source does. The source's numpy division by zero is not modelled.
- The assignment `prev_mjdj2k_stop = int(mjdj2k_stop)` is never read, so it is not modelled.
- CoefficientTables.GenerateEphemerisFile: for Earth-from-EMB the source discards the delegate's lists and returns None. The model returns the delegated lists, i.e. what is written to file.
- CoefficientTables.EmitPolynomials: the two generators' identical inner loops are one loop with an optional coefficient scale. The scaled list is computed before slicing, as in the source.
- BlockReader.ReadInBlocks: the source accumulates a block as a string of raw lines and tests it for emptiness. The model keeps the list of lines, which is empty exactly when the string is, since every line read holds at least its newline. Converting a block to floats is not modelled.
- HeaderParser.IsGroupLine: `"GROUP" in line` is modelled on the line's tokens. The two agree because the word contains no whitespace.
- numpy's ragged-array behaviour of `numpy.asarray` on rows of unequal length: the header table is a sequence of integer rows.

## Findings

| source | as written | input that shows it | evidently intended | confidence | as-written member | corrected member |
|---|---|---|---|---|---|---|
| jpl_ephemeris/celestial_bodies/ephemeris_tables/jpl_ephemeris_table.cpp:9-15 | t = stop passes the range check, and (stop − start)/span equals the row count | t = 36535.5 with span 4 gives index 9136 for a 9136-row table (valid rows 0..9135) | t = stop selects the last row, 9135 | not executed | EphemerisTable.StopIndexIsRowCount | EphemerisTable.GetRowIndex |
| jpl_ephemeris_data/jpl_ephemeris_parser.py:347-369 | a duplicate start date is skipped with `continue` before cur_ind moves, so the following polynomials are sliced from the positions of the skipped ones | a block whose polynomial 0 was already emitted and whose polynomial 1 was not: polynomial 1 gets coeff[0:n], polynomial 0's x coefficients | polynomial k is sliced at 3nk, 3nk + n, 3nk + 2n | not executed | CoefficientTables.SkippedDuplicateShiftsSlices | CoefficientTables.IntendedRowAt |

The JPL files overlap only by whole blocks, so every block either repeats all of its start dates or none of them. For a block that repeats none of them, `CoefficientTables.FreshBlockAsIntended` proves that the loop as written and the corrected loop `CoefficientTables.EmitPolysIntended` produce the same rows. The generator model therefore keeps the loop as written. The case of a block that repeats all of its dates is not proved.
