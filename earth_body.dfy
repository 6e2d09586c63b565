/** Earth::get_position / get_velocity (jpl_ephemeris/celestial_bodies/earth.cpp): the
    Earth relative to a chosen central body. */
module EarthBody {
  import opened Errors
  import opened Vectors
  import opened CentralBodies
  import opened BaseTables
  import opened EarthFromSsbTable

  /** The switch of earth.cpp: SSB gives EarthFromSSB; Sun gives EarthFromSSB minus
      SunFromSSB (looked up in that order); Earth gives zero without a lookup; Moon
      gives minus MoonFromEarth; any other tag is rejected. */
  function RelativeTo(tables: TableSet, t: real, centralBody: int): Result<Vec3>
  {
    match Decode(centralBody)
    case None => Err(UnexpectedCentralBody)
    case Some(SSB) => EarthFromSsb(tables, t)
    case Some(Sun) =>
      var earthFromSsb :- EarthFromSsb(tables, t);
      var sunFromSsb :- tables.sunFromSsb(t);
      Ok(Sub(earthFromSsb, sunFromSsb))
    case Some(Earth) => Ok(Zero())
    case Some(Moon) =>
      var moonPos :- tables.moonFromEarth(t);
      Ok(Neg(moonPos))
  }

  /** The body of get_position and get_velocity over one table set. */
  method Compute(tables: TableSet, t: real, centralBody: int) returns (r: Result<Vec3>)
    ensures r == RelativeTo(tables, t, centralBody)
  {
    var pos: Vec3 := Zero();
    match Decode(centralBody) {
      case None =>
        return Err(UnexpectedCentralBody);
      case Some(SSB) =>
        pos :- EarthFromSsbTable.Compute(tables, t);
      case Some(Sun) =>
        var earthFromSsb :- EarthFromSsbTable.Compute(tables, t);
        var sunFromSsb :- tables.sunFromSsb(t);
        for k := 0 to 3
          invariant forall j :: 0 <= j < k ==> pos[j] == earthFromSsb[j] - sunFromSsb[j]
        {
          pos := pos[k := earthFromSsb[k] - sunFromSsb[k]];
        }
        Componentwise(pos, Sub(earthFromSsb, sunFromSsb));
      case Some(Earth) =>
      case Some(Moon) =>
        var moonPos :- tables.moonFromEarth(t);
        for k := 0 to 3
          invariant forall j :: 0 <= j < k ==> pos[j] == -moonPos[j]
        {
          pos := pos[k := -moonPos[k]];
        }
        Componentwise(pos, Neg(moonPos));
    }
    return Ok(pos);
  }

  method GetPosition(eph: Ephemeris, t: real, centralBody: int := DefaultCentralBody)
    returns (r: Result<Vec3>)
    ensures r == RelativeTo(eph.position, t, centralBody)
  {
    r := Compute(eph.position, t, centralBody);
  }

  method GetVelocity(eph: Ephemeris, t: real, centralBody: int := DefaultCentralBody)
    returns (r: Result<Vec3>)
    ensures r == RelativeTo(eph.velocity, t, centralBody)
  {
    r := Compute(eph.velocity, t, centralBody);
  }

  /** With the default central body the Earth is at the origin, whatever the tables. */
  lemma DefaultIsZero(tables: TableSet, t: real)
    ensures RelativeTo(tables, t, DefaultCentralBody) == Ok(Zero())
  {
  }

  /** Outside the four enum values the call is rejected, whatever the tables. */
  lemma InvalidTagRejected(tables: TableSet, t: real, centralBody: int)
    requires centralBody < 0 || centralBody > 3
    ensures RelativeTo(tables, t, centralBody) == Err(UnexpectedCentralBody)
  {
  }
}
