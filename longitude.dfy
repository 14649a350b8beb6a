/** `tidylon`: longitudes measured on [0, 360] re-expressed on (-180, 180]. */
module Longitude {

  /** Longitudes above 180 are moved down by one full turn; the others are kept. */
  function TidyLon(longitude: real): (r: real)
    ensures r == longitude || r == longitude - 360.0
    ensures r <= 180.0 || longitude > 540.0
    ensures 0.0 <= longitude <= 360.0 ==> -180.0 < r <= 180.0
    ensures -180.0 < longitude <= 180.0 ==> r == longitude
  {
    if longitude <= 180.0 then longitude else longitude - 360.0
  }

  /** Normalising twice is normalising once, for every input whose first result is already in range. */
  lemma TidyLonIdempotent(longitude: real)
    requires longitude <= 540.0
    ensures TidyLon(TidyLon(longitude)) == TidyLon(longitude)
  {
  }

  lemma TidyLonExamples()
    ensures TidyLon(200.0) == -160.0 && TidyLon(180.0) == 180.0 && TidyLon(0.0) == 0.0
    ensures TidyLon(360.0) == 0.0
  {
  }
}
