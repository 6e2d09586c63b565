/** EarthFromSSBGCRFTable
    (jpl_ephemeris/celestial_bodies/ephemeris_tables/earth_from_ssb_gcrf_table.cpp):
    the Earth relative to the solar system barycenter, composed from the EMB table and
    the Earth-from-EMB table. */
module EarthFromSsbTable {
  import opened Errors
  import opened Vectors
  import opened BaseTables

  /** EMB-from-SSB is looked up first, then Earth-from-EMB; a failing lookup ends the
      call; otherwise the sum earth_from_emb + emb_from_ssb. */
  function EarthFromSsb(tables: TableSet, t: real): Result<Vec3>
  {
    var embFromSsb :- tables.embFromSsb(t);
    var earthFromEmb :- tables.earthFromEmb(t);
    Ok(Add(earthFromEmb, embFromSsb))
  }

  /** get_position / get_velocity over one table set: the two lookups, then a
      zero-initialised vector filled component by component. */
  method Compute(tables: TableSet, t: real) returns (r: Result<Vec3>)
    ensures r == EarthFromSsb(tables, t)
  {
    var embFromSsb :- tables.embFromSsb(t);
    var earthFromEmb :- tables.earthFromEmb(t);
    var earthFromSsb: Vec3 := Zero();
    for k := 0 to 3
      invariant forall j :: 0 <= j < k ==> earthFromSsb[j] == earthFromEmb[j] + embFromSsb[j]
    {
      earthFromSsb := earthFromSsb[k := earthFromEmb[k] + embFromSsb[k]];
    }
    Componentwise(earthFromSsb, Add(earthFromEmb, embFromSsb));
    return Ok(earthFromSsb);
  }

  method GetPosition(eph: Ephemeris, t: real) returns (r: Result<Vec3>)
    ensures r == EarthFromSsb(eph.position, t)
  {
    r := Compute(eph.position, t);
  }

  method GetVelocity(eph: Ephemeris, t: real) returns (r: Result<Vec3>)
    ensures r == EarthFromSsb(eph.velocity, t)
  {
    r := Compute(eph.velocity, t);
  }

  /** The composition succeeds exactly when both lookups do; each output component is
      the sum of the same component of the two inputs. */
  lemma Composition(tables: TableSet, t: real)
    ensures EarthFromSsb(tables, t).Ok? <==> tables.embFromSsb(t).Ok? && tables.earthFromEmb(t).Ok?
    ensures EarthFromSsb(tables, t).Ok? ==>
              forall k :: 0 <= k < 3 ==>
                EarthFromSsb(tables, t).value[k]
                  == tables.earthFromEmb(t).value[k] + tables.embFromSsb(t).value[k]
  {
  }

  /** A failing EMB lookup is reported even when the Earth-from-EMB lookup would fail
      too, since it is made first. */
  lemma EmbFailureFirst(tables: TableSet, t: real)
    requires tables.embFromSsb(t).Err?
    ensures EarthFromSsb(tables, t) == Err(tables.embFromSsb(t).error)
  {
  }
}
