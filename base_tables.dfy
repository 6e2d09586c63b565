/** The four stored Chebyshev tables as abstract functions of time (MJD from J2000, TDB)
    to a GCRF 3-vector or an error. Their coefficient data and lookup code are not part
    of this model; a lookup may fail, as JPLEphemerisTable::get_index does outside the
    covered range. */
module BaseTables {
  import opened Errors
  import opened Vectors

  datatype TableSet = TableSet(
    moonFromEarth: real -> Result<Vec3>,   // MoonGCRFTable
    earthFromEmb: real -> Result<Vec3>,    // EarthFromEMBGCRFTable
    embFromSsb: real -> Result<Vec3>,      // EMBFromSSBGCRFTable
    sunFromSsb: real -> Result<Vec3>)      // SunFromSSBGCRFTable

  /** The get_position tables and the get_velocity tables. */
  datatype Ephemeris = Ephemeris(position: TableSet, velocity: TableSet)

  /** Every base table answers at t. */
  predicate AllSucceed(tables: TableSet, t: real)
  {
    tables.moonFromEarth(t).Ok? && tables.earthFromEmb(t).Ok?
    && tables.embFromSsb(t).Ok? && tables.sunFromSsb(t).Ok?
  }
}
