/** Sun::get_position / get_velocity (jpl_ephemeris/celestial_bodies/sun.cpp): the Sun
    relative to a chosen central body. */
module SunBody {
  import opened Errors
  import opened Vectors
  import opened CentralBodies
  import opened BaseTables
  import opened EarthFromSsbTable

  /** The switch of sun.cpp: SSB gives SunFromSSB; Sun gives zero without a lookup;
      Earth gives SunFromSSB minus EarthFromSSB; Moon gives SunFromSSB minus
      EarthFromSSB minus MoonFromEarth; any other tag is rejected. EarthFromSSB is
      looked up before SunFromSSB, and MoonFromEarth last. */
  function RelativeTo(tables: TableSet, t: real, centralBody: int): Result<Vec3>
  {
    match Decode(centralBody)
    case None => Err(UnexpectedCentralBody)
    case Some(SSB) => tables.sunFromSsb(t)
    case Some(Sun) => Ok(Zero())
    case Some(Earth) =>
      var earthFromSsb :- EarthFromSsb(tables, t);
      var sunFromSsb :- tables.sunFromSsb(t);
      Ok(Sub(sunFromSsb, earthFromSsb))
    case Some(Moon) =>
      var earthFromSsb :- EarthFromSsb(tables, t);
      var sunFromSsb :- tables.sunFromSsb(t);
      var moonFromEarth :- tables.moonFromEarth(t);
      Ok(Sub(Sub(sunFromSsb, earthFromSsb), moonFromEarth))
  }

  /** The body of get_position and get_velocity over one table set. */
  method Compute(tables: TableSet, t: real, centralBody: int) returns (r: Result<Vec3>)
    ensures r == RelativeTo(tables, t, centralBody)
  {
    var pos: Vec3 := Zero();
    match Decode(centralBody) {
      case None =>
        return Err(UnexpectedCentralBody);
      case Some(SSB) =>
        pos :- tables.sunFromSsb(t);
      case Some(Sun) =>
      case Some(Earth) =>
        var earthFromSsb :- EarthFromSsbTable.Compute(tables, t);
        var sunFromSsb :- tables.sunFromSsb(t);
        for k := 0 to 3
          invariant forall j :: 0 <= j < k ==> pos[j] == sunFromSsb[j] - earthFromSsb[j]
        {
          pos := pos[k := sunFromSsb[k] - earthFromSsb[k]];
        }
        Componentwise(pos, Sub(sunFromSsb, earthFromSsb));
      case Some(Moon) =>
        var earthFromSsb :- EarthFromSsbTable.Compute(tables, t);
        var sunFromSsb :- tables.sunFromSsb(t);
        var moonFromEarth :- tables.moonFromEarth(t);
        for k := 0 to 3
          invariant forall j :: 0 <= j < k ==>
                      pos[j] == sunFromSsb[j] - earthFromSsb[j] - moonFromEarth[j]
        {
          pos := pos[k := sunFromSsb[k] - earthFromSsb[k] - moonFromEarth[k]];
        }
        Componentwise(pos, Sub(Sub(sunFromSsb, earthFromSsb), moonFromEarth));
    }
    return Ok(pos);
  }

  method GetPosition(eph: Ephemeris, t: real, centralBody: int := DefaultCentralBody)
    returns (r: Result<Vec3>)
    ensures r == RelativeTo(eph.position, t, centralBody)
  {
    r := Compute(eph.position, t, centralBody);
  }

  method GetVelocity(eph: Ephemeris, t: real, centralBody: int := DefaultCentralBody)
    returns (r: Result<Vec3>)
    ensures r == RelativeTo(eph.velocity, t, centralBody)
  {
    r := Compute(eph.velocity, t, centralBody);
  }

  /** Relative to itself the Sun is at the origin, whatever the tables. */
  lemma SelfIsZero(tables: TableSet, t: real)
    ensures RelativeTo(tables, t, Encode(Sun)) == Ok(Zero())
  {
  }

  lemma InvalidTagRejected(tables: TableSet, t: real, centralBody: int)
    requires centralBody < 0 || centralBody > 3
    ensures RelativeTo(tables, t, centralBody) == Err(UnexpectedCentralBody)
  {
  }
}
