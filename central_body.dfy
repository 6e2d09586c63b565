/** The central body a position or velocity is measured from
    (jpl_ephemeris/celestial_bodies/central_body.hpp), an enum class over int. A caller
    can hand the bodies any int cast to the enum, so the bodies take the tag as an int
    and decode it; a tag outside the four values reaches their default branch. */
module CentralBodies {
  import opened Errors

  datatype CentralBody = SSB | Sun | Earth | Moon

  function Encode(b: CentralBody): (tag: int)
    ensures 0 <= tag < 4
  {
    match b
    case SSB => 0
    case Sun => 1
    case Earth => 2
    case Moon => 3
  }

  function Decode(tag: int): (r: Option<CentralBody>)
    ensures r.None? <==> tag < 0 || tag > 3
  {
    if tag == 0 then Some(SSB)
    else if tag == 1 then Some(Sun)
    else if tag == 2 then Some(Earth)
    else if tag == 3 then Some(Moon)
    else None
  }

  /** The default argument of every get_position and get_velocity. */
  const DefaultCentralBody: int := 2

  lemma DefaultIsEarth()
    ensures Decode(DefaultCentralBody) == Some(Earth)
  {
  }

  /** Decoding inverts the enum's values, and every decoded tag is such a value. */
  lemma DecodeEncode(b: CentralBody)
    ensures Decode(Encode(b)) == Some(b)
  {
  }

  lemma EncodeDecode(tag: int)
    requires Decode(tag).Some?
    ensures Encode(Decode(tag).value) == tag
  {
  }
}
