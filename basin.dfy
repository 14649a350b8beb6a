/**
 * `find_basin`: the basin id of the basin-grid centre nearest to a query
 * point. Basin-grid centres sit on half-integer degrees with a 1-degree
 * spacing; the grid's first row is at latitude -77.5 and its first column at
 * longitude -179.5. Distances are compared squared, which orders the corners
 * as their square roots do.
 */
module Basin {
  import opened Wrappers

  const LonOrigin: real := -179.5
  const LatOrigin: real := -77.5
  /** The largest `usize` on a 64-bit target. */
  const UsizeMax: int := 0x1_0000_0000_0000_0000 - 1
  const I32Modulus: int := 0x1_0000_0000

  /** Basin-grid centres are the half-integers. */
  predicate IsCentre(x: real) {
    (x - 0.5).Floor as real == x - 0.5
  }

  /** Rust's `x.ceil()` for a real `x`. */
  function Ceil(x: real): (n: int)
    ensures x <= n as real < x + 1.0
  {
    -((-x).Floor)
  }

  /** `(c - 0.5).floor() + 0.5`: the nearest centre at or below `c`. */
  function Below(c: real): (r: real)
    ensures IsCentre(r) && r <= c < r + 1.0
  {
    (c - 0.5).Floor as real + 0.5
  }

  /** `(c - 0.5).ceil() + 0.5`: the nearest centre at or above `c`. */
  function Above(c: real): (r: real)
    ensures IsCentre(r) && r - 1.0 < c <= r
  {
    Ceil(c - 0.5) as real + 0.5
  }

  /** The ceiling is the floor, plus one unless the argument is whole. */
  lemma CeilOfFloor(x: real)
    ensures Ceil(x) == if x.Floor as real == x then x.Floor else x.Floor + 1
  {
    var f, g := x.Floor, (-x).Floor;
    assert f as real <= x < f as real + 1.0;
    assert g as real <= -x < g as real + 1.0;
    if f as real == x {
      assert g == -f;
    } else {
      assert -f - 1 < g + 1 && g < -f;
      assert g == -f - 1;
    }
  }

  /** The two bracketing centres coincide on a centre and are one degree apart elsewhere. */
  lemma BracketWidth(c: real)
    ensures Above(c) - Below(c) == if IsCentre(c) then 0.0 else 1.0
  {
    CeilOfFloor(c - 0.5);
  }

  /** No centre lies strictly between the two bracketing centres. */
  lemma NoCentreBetween(c: real, x: real)
    requires IsCentre(x)
    ensures x <= Below(c) || Above(c) <= x
  {
    BracketWidth(c);
    var m, f := (x - 0.5).Floor, (c - 0.5).Floor;
    assert x == m as real + 0.5 && Below(c) == f as real + 0.5;
    if f < m {
      assert f as real + 1.0 <= m as real;
    }
  }

  /** Rust's `x as usize`: truncation toward zero, saturating at 0 and at `usize::MAX`. */
  function AsUsize(x: real): (n: nat)
    ensures 0 <= n <= UsizeMax
    ensures 0.0 <= x < UsizeMax as real ==> n as real <= x < n as real + 1.0
    ensures x < 1.0 ==> n == 0
    ensures UsizeMax as real <= x ==> n == UsizeMax
  {
    if x < 0.0 then 0 else if x.Floor > UsizeMax then UsizeMax else x.Floor
  }

  /** `(lon - -179.5) as usize`: the basin-grid column of a longitude centre. */
  function LonIndex(lon: real): nat {
    AsUsize(lon - LonOrigin)
  }

  /** `(lat - -77.5) as usize`: the basin-grid row of a latitude centre. */
  function LatIndex(lat: real): nat {
    AsUsize(lat - LatOrigin)
  }

  /** Rust's `x as i32` on a 64-bit integer: keep the low 32 bits, read as two's complement. */
  function ToI32(x: int): (r: int)
    ensures -I32Modulus / 2 <= r < I32Modulus / 2
    ensures (x - r) % I32Modulus == 0
    ensures -I32Modulus / 2 <= x < I32Modulus / 2 ==> r == x
  {
    var q := (x + I32Modulus / 2) / I32Modulus;
    assert x + I32Modulus / 2 == I32Modulus * q + (x + I32Modulus / 2) % I32Modulus;
    assert x - ((x + I32Modulus / 2) % I32Modulus - I32Modulus / 2) == I32Modulus * q;
    (x + I32Modulus / 2) % I32Modulus - I32Modulus / 2
  }

  /** A basin-grid centre, latitude first as in the index pairs. */
  datatype Corner = Corner(lat: real, lon: real)

  /** The four bracketing centres: bottom left first, then clockwise. */
  function Corners(longitude: real, latitude: real): (cs: seq<Corner>)
    ensures |cs| == 4
    ensures cs[0].lat == cs[3].lat <= cs[1].lat == cs[2].lat
    ensures cs[0].lon == cs[1].lon <= cs[2].lon == cs[3].lon
    ensures cs[0].lat <= latitude <= cs[1].lat && cs[0].lon <= longitude <= cs[2].lon
  {
    var lonplus, lonminus := Above(longitude), Below(longitude);
    var latplus, latminus := Above(latitude), Below(latitude);
    [Corner(latminus, lonminus), Corner(latplus, lonminus), Corner(latplus, lonplus), Corner(latminus, lonplus)]
  }

  /** Squared Euclidean distance, in degrees, from the query point to a centre. */
  function SqDist(longitude: real, latitude: real, c: Corner): real {
    Sq(longitude - c.lon) + Sq(latitude - c.lat)
  }

  function Sq(a: real): real {
    a * a
  }

  function Distances(longitude: real, latitude: real): (d: seq<real>)
    ensures |d| == 4
  {
    var cs := Corners(longitude, latitude);
    [SqDist(longitude, latitude, cs[0]), SqDist(longitude, latitude, cs[1]),
     SqDist(longitude, latitude, cs[2]), SqDist(longitude, latitude, cs[3])]
  }

  /**
   * The position a left-to-right running minimum with strict `<` ends on:
   * a smallest entry, and the first of several equal smallest entries.
   */
  function FirstMinIndex(d: seq<real>): (k: nat)
    requires |d| > 0
    ensures k < |d|
    ensures forall j :: 0 <= j < |d| ==> d[k] <= d[j]
    ensures forall j :: 0 <= j < k ==> d[k] < d[j]
  {
    if |d| == 1 then 0
    else
      var k := FirstMinIndex(d[..|d| - 1]);
      if d[|d| - 1] < d[k] then |d| - 1 else k
  }

  /** The two properties of `FirstMinIndex` single it out. */
  lemma FirstMinUnique(d: seq<real>, k: nat)
    requires k < |d|
    requires forall j :: 0 <= j < |d| ==> d[k] <= d[j]
    requires forall j :: 0 <= j < k ==> d[k] < d[j]
    ensures FirstMinIndex(d) == k
  {
  }

  /** The running minimum of `find_basin`: start at corner 0 and move only on a strictly smaller distance. */
  method ClosestCorner(distances: seq<real>) returns (closest: nat)
    requires |distances| > 0
    ensures closest == FirstMinIndex(distances)
  {
    closest := 0;
    var closedist := distances[0];
    assert distances[..1] == [distances[0]];
    for i := 1 to |distances|
      invariant closest == FirstMinIndex(distances[..i])
      invariant closedist == distances[closest]
    {
      assert distances[..i + 1][..i] == distances[..i];
      if distances[i] < closedist {
        closest := i;
        closedist := distances[i];
      }
    }
    assert distances[..|distances|] == distances;
  }

  /** The centre `find_basin` settles on. */
  function Nearest(longitude: real, latitude: real): Corner {
    Corners(longitude, latitude)[FirstMinIndex(Distances(longitude, latitude))]
  }

  /** The (latitude, longitude) index pair of a centre in the basin grid. */
  datatype Index = Index(lat: nat, lon: nat)

  function IndexOf(c: Corner): Index {
    Index(LatIndex(c.lat), LonIndex(c.lon))
  }

  /**
   * `basins.value::<i64,_>(index)` narrowed with `as i32`; an index outside the
   * grid is the error `find_basin` panics on, carrying the offending pair.
   */
  function Lookup(basins: array2<int>, ix: Index): (r: Result<int, Index>)
    reads basins
    ensures r.Ok? <==> ix.lat < basins.Length0 && ix.lon < basins.Length1
    ensures r.Err? ==> r.error == ix
  {
    if ix.lat < basins.Length0 && ix.lon < basins.Length1 then Ok(ToI32(basins[ix.lat, ix.lon]))
    else Err(ix)
  }

  /** `find_basin`: bracket the point, take the nearest corner, read its basin id. */
  method FindBasin(basins: array2<int>, longitude: real, latitude: real) returns (r: Result<int, Index>)
    ensures r == Lookup(basins, IndexOf(Nearest(longitude, latitude)))
  {
    var lonplus := Ceil(longitude - 0.5) as real + 0.5;
    var lonminus := (longitude - 0.5).Floor as real + 0.5;
    var latplus := Ceil(latitude - 0.5) as real + 0.5;
    var latminus := (latitude - 0.5).Floor as real + 0.5;

    var lonplusIdx, lonminusIdx := AsUsize(lonplus - LonOrigin), AsUsize(lonminus - LonOrigin);
    var latplusIdx, latminusIdx := AsUsize(latplus - LatOrigin), AsUsize(latminus - LatOrigin);

    var cornersIdx := [Index(latminusIdx, lonminusIdx), Index(latplusIdx, lonminusIdx),
                       Index(latplusIdx, lonplusIdx), Index(latminusIdx, lonplusIdx)];
    var distances := [
      SqDist(longitude, latitude, Corner(latminus, lonminus)),
      SqDist(longitude, latitude, Corner(latplus, lonminus)),
      SqDist(longitude, latitude, Corner(latplus, lonplus)),
      SqDist(longitude, latitude, Corner(latminus, lonplus))];
    assert distances == Distances(longitude, latitude);

    var k := ClosestCorner(distances);
    var ix := cornersIdx[k];
    assert ix == IndexOf(Corners(longitude, latitude)[k]);
    if ix.lat < basins.Length0 && ix.lon < basins.Length1 {
      r := Ok(ToI32(basins[ix.lat, ix.lon]));
    } else {
      r := Err(ix);
    }
  }

  lemma SquareMono(a: real, b: real)
    requires 0.0 <= a <= b
    ensures Sq(a) <= Sq(b)
  {
    assert a * a <= a * b <= b * b;
  }

  /** On one axis, no centre is nearer than the nearer of the two bracketing centres. */
  lemma AxisNearest(c: real, x: real)
    requires IsCentre(x)
    ensures x <= Below(c) ==> Sq(c - Below(c)) <= Sq(c - x)
    ensures Below(c) < x ==> Above(c) <= x && Sq(c - Above(c)) <= Sq(c - x)
  {
    NoCentreBetween(c, x);
    if x <= Below(c) {
      SquareMono(c - Below(c), c - x);
    } else {
      SquareMono(Above(c) - c, x - c);
      assert Sq(c - Above(c)) == Sq(Above(c) - c) && Sq(c - x) == Sq(x - c);
    }
  }

  /** The corner `find_basin` picks is nearer to the point than any corner after it, or as near. */
  lemma NearestAmongCorners(longitude: real, latitude: real, j: int)
    requires 0 <= j < 4
    ensures SqDist(longitude, latitude, Nearest(longitude, latitude))
         <= SqDist(longitude, latitude, Corners(longitude, latitude)[j])
  {
    var d, cs := Distances(longitude, latitude), Corners(longitude, latitude);
    var k := FirstMinIndex(d);
    assert d[k] == SqDist(longitude, latitude, cs[k]);
    assert d[j] == SqDist(longitude, latitude, cs[j]);
  }

  /**
   * The corner `find_basin` picks is a nearest centre of the whole basin
   * lattice, not only of the four bracketing ones.
   */
  lemma NearestOverAllCentres(longitude: real, latitude: real, x: real, y: real)
    requires IsCentre(x) && IsCentre(y)
    ensures SqDist(longitude, latitude, Nearest(longitude, latitude)) <= SqDist(longitude, latitude, Corner(y, x))
  {
    AxisNearest(longitude, x);
    AxisNearest(latitude, y);
    var west := x <= Below(longitude);
    var south := y <= Below(latitude);
    var j := if south then (if west then 0 else 3) else (if west then 1 else 2);
    NearestAmongCorners(longitude, latitude, j);
  }

  /** A query exactly on a centre picks that centre, at distance zero. */
  lemma QueryAtCentre(longitude: real, latitude: real)
    requires IsCentre(longitude) && IsCentre(latitude)
    ensures Nearest(longitude, latitude) == Corner(latitude, longitude)
    ensures SqDist(longitude, latitude, Nearest(longitude, latitude)) == 0.0
  {
    BracketWidth(longitude);
    BracketWidth(latitude);
  }

  /** A whole degree sits half-way between its two bracketing centres. */
  lemma WholeDegreeBrackets(x: real)
    requires x.Floor as real == x
    ensures Below(x) == x - 0.5 && Above(x) == x + 0.5
  {
    var f, m := x.Floor, (x - 0.5).Floor;
    assert m as real <= x - 0.5 < m as real + 1.0;
    assert m < f && f - 2 < m;
    assert m == f - 1;
    CeilOfFloor(x - 0.5);
  }

  /** The four distances, named by the bracketing centres they use. */
  lemma DistancesShape(longitude: real, latitude: real)
    ensures var w, e := Sq(longitude - Below(longitude)), Sq(longitude - Above(longitude));
            var s, n := Sq(latitude - Below(latitude)), Sq(latitude - Above(latitude));
            Distances(longitude, latitude) == [w + s, w + n, e + n, e + s]
  {
  }

  /**
   * A query on a whole-degree longitude is equally far from the west and east
   * centres; the clockwise order from the bottom-left corner settles it west.
   */
  lemma LongitudeTieGoesWest(longitude: real, latitude: real)
    requires longitude.Floor as real == longitude
    ensures Nearest(longitude, latitude).lon == Below(longitude)
  {
    WholeDegreeBrackets(longitude);
    assert Sq(longitude - Below(longitude)) == Sq(longitude - Above(longitude)) == 0.25;
    DistancesShape(longitude, latitude);
    var d := Distances(longitude, latitude);
    assert d[0] == d[3] && d[1] == d[2];
    if d[1] < d[0] {
      FirstMinUnique(d, 1);
    } else {
      FirstMinUnique(d, 0);
    }
  }

  /**
   * A query on a whole-degree latitude is equally far from the south and north
   * centres; it settles south unless the east centres are strictly nearer, in
   * which case the clockwise order reaches the north-east corner first.
   */
  lemma LatitudeTieFollowsClockwiseOrder(longitude: real, latitude: real)
    requires latitude.Floor as real == latitude
    ensures Nearest(longitude, latitude).lat
         == if Sq(longitude - Above(longitude)) < Sq(longitude - Below(longitude)) then Above(latitude) else Below(latitude)
  {
    WholeDegreeBrackets(latitude);
    assert Sq(latitude - Below(latitude)) == Sq(latitude - Above(latitude)) == 0.25;
    DistancesShape(longitude, latitude);
    var d := Distances(longitude, latitude);
    assert d[0] == d[1] && d[2] == d[3];
    if d[2] < d[0] {
      FirstMinUnique(d, 2);
    } else {
      FirstMinUnique(d, 0);
    }
  }

  /** Centre number `k` from the grid origin gets index `k`. */
  lemma IndexOfCentre(k: nat)
    requires k < UsizeMax
    ensures LonIndex(LonOrigin + k as real) == k && LatIndex(LatOrigin + k as real) == k
  {
  }

  /**
   * A query south of the grid's first row saturates to row 0 instead of
   * failing: it reads the basin of the -77.5 row.
   */
  lemma SouthOfGridReadsFirstRow(longitude: real, latitude: real)
    requires latitude < LatOrigin
    ensures IndexOf(Nearest(longitude, latitude)).lat == 0
  {
  }

  /** Along one axis, both bracketing centres of a point inside the grid's span index into the grid. */
  lemma AxisInsideGrid(c: real, origin: real, n: nat)
    requires IsCentre(origin) && 0 < n
    requires origin <= c <= origin + (n - 1) as real
    ensures AsUsize(Below(c) - origin) < n && AsUsize(Above(c) - origin) < n
  {
    var top := origin + (n - 1) as real;
    assert IsCentre(top) by {
      assert top - 0.5 == (origin - 0.5) + (n - 1) as real;
      assert (origin - 0.5).Floor + n - 1 == (top - 0.5).Floor;
    }
    NoCentreBetween(c, top);
    NoCentreBetween(c, origin);
    BracketWidth(c);
    assert origin <= Below(c) <= Above(c) <= top;
  }

  /** A query inside the span of the grid's centres never takes the panic path. */
  lemma InsideGridIsFound(basins: array2<int>, longitude: real, latitude: real)
    requires LonOrigin <= longitude <= LonOrigin + (basins.Length1 - 1) as real
    requires LatOrigin <= latitude <= LatOrigin + (basins.Length0 - 1) as real
    ensures Lookup(basins, IndexOf(Nearest(longitude, latitude))).Ok?
  {
    AxisInsideGrid(longitude, LonOrigin, basins.Length1);
    AxisInsideGrid(latitude, LatOrigin, basins.Length0);
    var c := Nearest(longitude, latitude);
    assert c.lon == Below(longitude) || c.lon == Above(longitude);
    assert c.lat == Below(latitude) || c.lat == Above(latitude);
  }
}
