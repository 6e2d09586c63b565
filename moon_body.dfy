/** Moon::get_position / get_velocity (jpl_ephemeris/celestial_bodies/moon.cpp): the
    Moon relative to a chosen central body. */
module MoonBody {
  import opened Errors
  import opened Vectors
  import opened CentralBodies
  import opened BaseTables
  import opened EarthFromSsbTable

  /** The switch of moon.cpp: SSB gives MoonFromEarth plus EarthFromSSB; Sun gives
      MoonFromEarth plus EarthFromSSB minus SunFromSSB; Earth gives MoonFromEarth; Moon
      gives zero without a lookup; any other tag is rejected. Lookups are made in
      the order EarthFromSSB, SunFromSSB, MoonFromEarth. */
  function RelativeTo(tables: TableSet, t: real, centralBody: int): Result<Vec3>
  {
    match Decode(centralBody)
    case None => Err(UnexpectedCentralBody)
    case Some(SSB) =>
      var earthFromSsb :- EarthFromSsb(tables, t);
      var moonFromEarth :- tables.moonFromEarth(t);
      Ok(Add(moonFromEarth, earthFromSsb))
    case Some(Sun) =>
      var earthFromSsb :- EarthFromSsb(tables, t);
      var sunFromSsb :- tables.sunFromSsb(t);
      var moonFromEarth :- tables.moonFromEarth(t);
      Ok(Sub(Add(moonFromEarth, earthFromSsb), sunFromSsb))
    case Some(Earth) => tables.moonFromEarth(t)
    case Some(Moon) => Ok(Zero())
  }

  /** The body of get_position and get_velocity over one table set. */
  method Compute(tables: TableSet, t: real, centralBody: int) returns (r: Result<Vec3>)
    ensures r == RelativeTo(tables, t, centralBody)
  {
    var pos: Vec3 := Zero();
    match Decode(centralBody) {
      case None =>
        return Err(UnexpectedCentralBody);
      case Some(SSB) =>
        var earthFromSsb :- EarthFromSsbTable.Compute(tables, t);
        var moonFromEarth :- tables.moonFromEarth(t);
        for k := 0 to 3
          invariant forall j :: 0 <= j < k ==> pos[j] == moonFromEarth[j] + earthFromSsb[j]
        {
          pos := pos[k := moonFromEarth[k] + earthFromSsb[k]];
        }
        Componentwise(pos, Add(moonFromEarth, earthFromSsb));
      case Some(Sun) =>
        var earthFromSsb :- EarthFromSsbTable.Compute(tables, t);
        var sunFromSsb :- tables.sunFromSsb(t);
        var moonFromEarth :- tables.moonFromEarth(t);
        for k := 0 to 3
          invariant forall j :: 0 <= j < k ==>
                      pos[j] == moonFromEarth[j] + earthFromSsb[j] - sunFromSsb[j]
        {
          pos := pos[k := moonFromEarth[k] + earthFromSsb[k] - sunFromSsb[k]];
        }
        Componentwise(pos, Sub(Add(moonFromEarth, earthFromSsb), sunFromSsb));
      case Some(Earth) =>
        pos :- tables.moonFromEarth(t);
      case Some(Moon) =>
    }
    return Ok(pos);
  }

  method GetPosition(eph: Ephemeris, t: real, centralBody: int := DefaultCentralBody)
    returns (r: Result<Vec3>)
    ensures r == RelativeTo(eph.position, t, centralBody)
  {
    r := Compute(eph.position, t, centralBody);
  }

  method GetVelocity(eph: Ephemeris, t: real, centralBody: int := DefaultCentralBody)
    returns (r: Result<Vec3>)
    ensures r == RelativeTo(eph.velocity, t, centralBody)
  {
    r := Compute(eph.velocity, t, centralBody);
  }

  /** With the default central body the answer is the Moon table itself. */
  lemma DefaultIsMoonTable(tables: TableSet, t: real)
    ensures RelativeTo(tables, t, DefaultCentralBody) == tables.moonFromEarth(t)
  {
  }

  /** Relative to itself the Moon is at the origin, whatever the tables. */
  lemma SelfIsZero(tables: TableSet, t: real)
    ensures RelativeTo(tables, t, Encode(Moon)) == Ok(Zero())
  {
  }

  lemma InvalidTagRejected(tables: TableSet, t: real, centralBody: int)
    requires centralBody < 0 || centralBody > 3
    ensures RelativeTo(tables, t, centralBody) == Err(UnexpectedCentralBody)
  {
  }
}
