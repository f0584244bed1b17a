/**
 * The Alberta Township System (Dominion Land Survey) grid converter: from the six
 * fields of a legal land description to a point north of the 49th parallel and
 * west (or east) of one of the 4th, 5th and 6th meridians.
 *
 * The grid part is exact: every distance is a whole number of quarter miles (the
 * edge of a legal subdivision, LSD). A township is 24 quarter miles square, a
 * section 4. The floating-point conversion to degrees is given over exact reals.
 */
module AtsGrid {

  datatype Direction = West | East

  /** A legal land description whose fields have passed the converter's range checks. */
  datatype Address = Address(lsd: int, section: int, township: int, range: int,
                             direction: Direction, meridian: int)

  /** The converter's result: the grid cell of the address (offsets in quarter miles from
      the meridian's point on the 49th parallel), or "could not be located". */
  datatype Location =
    | Located(meridian: int, direction: Direction, northQ: int, westQ: int)
    | Unlocatable

  predicate ValidAddress(a: Address) {
    && 1 <= a.lsd <= 16
    && 1 <= a.section <= 36
    && 1 <= a.township <= 126
    && 1 <= a.range <= 34
    && a.meridian in {4, 5, 6}
  }

  // ---------------------------------------------------------------------------
  // Sections: a serpentine 6 x 6 layout inside the township.

  /** Row of a section counted north from the township's south edge. */
  function SectionRow(section: int): (row: int)
    requires 1 <= section <= 36
    ensures 0 <= row <= 5
    ensures 6 * row < section <= 6 * row + 6
  {
    (section - 1) / 6
  }

  /** Column of a section counted west from the township's east edge; odd rows run backwards. */
  function SectionCol(section: int): (col: int)
    requires 1 <= section <= 36
    ensures 0 <= col <= 5
  {
    var col := (section - 1) % 6;
    if SectionRow(section) % 2 == 1 then 5 - col else col
  }

  /** The section number found at a row and column of the township. */
  function SectionAt(row: int, col: int): (section: int)
    requires 0 <= row <= 5 && 0 <= col <= 5
    ensures 1 <= section <= 36
  {
    6 * row + (if row % 2 == 1 then 5 - col else col) + 1
  }

  /** Every section has one place in the grid, and reading the grid there gives it back. */
  lemma SectionLayoutLeftInverse(section: int)
    requires 1 <= section <= 36
    ensures SectionAt(SectionRow(section), SectionCol(section)) == section
  {
  }

  /** Every place of the 6 x 6 grid holds exactly one section: the layout is a bijection. */
  lemma SectionLayoutRightInverse(row: int, col: int)
    requires 0 <= row <= 5 && 0 <= col <= 5
    ensures SectionRow(SectionAt(row, col)) == row
    ensures SectionCol(SectionAt(row, col)) == col
  {
  }

  /** Boustrophedon numbering: consecutive sections are neighbouring cells, side by side in a
      row, or one above the other where a row turns. Sections 1 to 6 fill row 0 from east to west;
      6 and 7 share column 5 in adjacent rows. */
  lemma SerpentineAdjacent(section: int)
    requires 1 <= section < 36
    ensures var (r, c, r', c') := (SectionRow(section), SectionCol(section),
                                   SectionRow(section + 1), SectionCol(section + 1));
            if section % 6 == 0 then r' == r + 1 && c' == c
            else r' == r && (if r % 2 == 0 then c' == c + 1 else c' == c - 1)
  {
  }

  lemma SerpentineFirstRows()
    ensures forall s :: 1 <= s <= 6 ==> SectionRow(s) == 0 && SectionCol(s) == s - 1
    ensures SectionRow(7) == 1 && SectionCol(6) == 5 && SectionCol(7) == 5
    ensures SectionCol(12) == 0 && SectionCol(13) == 0 && SectionRow(13) == 2
  {
  }

  // ---------------------------------------------------------------------------
  // Legal subdivisions: a row-major (not serpentine) 4 x 4 layout inside the section.

  function LsdRow(lsd: int): (row: int)
    requires 1 <= lsd <= 16
    ensures 0 <= row <= 3
  {
    (lsd - 1) / 4
  }

  function LsdCol(lsd: int): (col: int)
    requires 1 <= lsd <= 16
    ensures 0 <= col <= 3
  {
    (lsd - 1) % 4
  }

  function LsdAt(row: int, col: int): (lsd: int)
    requires 0 <= row <= 3 && 0 <= col <= 3
    ensures 1 <= lsd <= 16
  {
    4 * row + col + 1
  }

  /** The LSD layout is a bijection onto the 4 x 4 grid, numbered row by row in the same
      direction (so, unlike sections, LSD 4 and LSD 5 are at opposite ends of their rows). */
  lemma LsdLayoutBijective(lsd: int, row: int, col: int)
    requires 1 <= lsd <= 16
    requires 0 <= row <= 3 && 0 <= col <= 3
    ensures LsdAt(LsdRow(lsd), LsdCol(lsd)) == lsd
    ensures LsdRow(LsdAt(row, col)) == row && LsdCol(LsdAt(row, col)) == col
    ensures lsd % 4 != 0 ==> LsdRow(lsd + 1) == LsdRow(lsd) && LsdCol(lsd + 1) == LsdCol(lsd) + 1
  {
  }

  // ---------------------------------------------------------------------------
  // Offsets from the meridian's base point.

  /** Northward offset in quarter miles: township, then section row, then LSD row. */
  function NorthQuarters(township: int, section: int, lsd: int): (q: int)
    requires 1 <= section <= 36 && 1 <= lsd <= 16
    ensures 24 * township <= q < 24 * (township + 1)
  {
    24 * township + 4 * SectionRow(section) + LsdRow(lsd)
  }

  /** Westward offset in quarter miles: range, then section column, then LSD column. */
  function WestQuarters(range: int, section: int, lsd: int): (q: int)
    requires 1 <= section <= 36 && 1 <= lsd <= 16
    ensures 24 * range <= q < 24 * (range + 1)
  {
    24 * range + 4 * SectionCol(section) + LsdCol(lsd)
  }

  /** The grid cell of a valid address. */
  function Locate(a: Address): (loc: Location)
    requires ValidAddress(a)
    ensures loc.Located? && loc.meridian == a.meridian && loc.direction == a.direction
    ensures 24 * a.township <= loc.northQ < 24 * (a.township + 1)
    ensures 24 * a.range <= loc.westQ < 24 * (a.range + 1)
  {
    Located(a.meridian, a.direction,
            NorthQuarters(a.township, a.section, a.lsd),
            WestQuarters(a.range, a.section, a.lsd))
  }

  /** Reads the address back from a grid cell: the inverse of `Locate`. */
  function AddressOf(loc: Location): Address
    requires loc.Located? && loc.northQ >= 0 && loc.westQ >= 0
  {
    var n := loc.northQ % 24;
    var w := loc.westQ % 24;
    Address(LsdAt(n % 4, w % 4), SectionAt(n / 4, w / 4), loc.northQ / 24, loc.westQ / 24,
            loc.direction, loc.meridian)
  }

  /** Locating an address and reading the cell back recovers every field of the address. */
  lemma {:induction false} LocateRoundTrip(a: Address)
    requires ValidAddress(a)
    ensures Locate(a).northQ >= 0 && Locate(a).westQ >= 0
    ensures AddressOf(Locate(a)) == a
  {
    var sr, sc := SectionRow(a.section), SectionCol(a.section);
    var lr, lc := LsdRow(a.lsd), LsdCol(a.lsd);
    var loc := Locate(a);
    var n, w := 4 * sr + lr, 4 * sc + lc;
    DivMod24(loc.northQ, a.township, n);
    DivMod24(loc.westQ, a.range, w);
    DivMod4(n, sr, lr);
    DivMod4(w, sc, lc);
    SectionLayoutLeftInverse(a.section);
    LsdLayoutBijective(a.lsd, 0, 0);
  }

  lemma DivMod24(x: int, q: int, r: int)
    requires x == 24 * q + r && 0 <= r < 24
    ensures x / 24 == q && x % 24 == r
  {
  }

  lemma DivMod4(x: int, q: int, r: int)
    requires x == 4 * q + r && 0 <= r < 4
    ensures x / 4 == q && x % 4 == r
  {
  }

  /** Tagged grid cells do not overlap: two valid addresses with the same cell (meridian,
      direction and offsets) are the same address. This is about the tagged cells, not about
      ground positions: a high range west of one meridian reaches past the next meridian, so
      two different addresses can lie at nearly the same latitude and longitude. */
  lemma CellsDisjoint(a: Address, b: Address)
    requires ValidAddress(a) && ValidAddress(b)
    requires Locate(a) == Locate(b)
    ensures a == b
  {
    LocateRoundTrip(a);
    LocateRoundTrip(b);
  }

  // ---------------------------------------------------------------------------
  // The converter.

  /** Base longitude of each meridian of the survey, in degrees (negative: west of Greenwich). */
  function MeridianLongitude(meridian: int): (lon: real)
    requires meridian in {4, 5, 6}
    ensures lon == -110.0 - 4.0 * (meridian - 4) as real
  {
    match meridian
    case 4 => -110.0
    case 5 => -114.0
    case 6 => -118.0
  }

  const BaseLatitude: real := 49.0

  /** Validates the six fields and returns the grid cell they name, or `Unlocatable` when any
      field is out of range. The direction arrives as text, as the parser hands it over. */
  function AtsToLatLon(lsd: int, section: int, township: int, range: int,
                       direction: string, meridian: int): (r: Location)
    ensures r.Located? <==>
              && 1 <= lsd <= 16 && 1 <= section <= 36 && 1 <= township <= 126
              && 1 <= range <= 34 && meridian in {4, 5, 6}
              && (direction == "W" || direction == "E")
    ensures r.Located? ==>
              && r.northQ >= 0 && r.westQ >= 0
              && AddressOf(r) == Address(lsd, section, township, range,
                                         if direction == "W" then West else East, meridian)
  {
    if !(1 <= lsd <= 16) then Unlocatable
    else if !(1 <= section <= 36) then Unlocatable
    else if !(1 <= township <= 126) then Unlocatable
    else if !(1 <= range <= 34) then Unlocatable
    else if meridian !in {4, 5, 6} then Unlocatable
    else if direction != "W" && direction != "E" then Unlocatable
    else
      var a := Address(lsd, section, township, range,
                       if direction == "W" then West else East, meridian);
      LocateRoundTrip(a);
      Locate(a)
  }

  /** The extreme values of every range are accepted, with either direction. */
  lemma AcceptsBoundary(lsd: int, section: int, township: int, range: int, meridian: int)
    requires lsd in {1, 16} && section in {1, 36} && township in {1, 126} && range in {1, 34}
    requires meridian in {4, 6}
    ensures AtsToLatLon(lsd, section, township, range, "E", meridian).Located?
    ensures AtsToLatLon(lsd, section, township, range, "W", meridian).Located?
  {
  }

  /** The first value past each range, and any other direction letter, is refused. */
  lemma RejectsPastBoundary(lsd: int, section: int, township: int, range: int, meridian: int,
                            direction: string)
    requires || lsd in {0, 17} || section in {0, 37} || township in {0, 127} || range in {0, 35}
             || meridian in {3, 7} || direction == "N"
    ensures AtsToLatLon(lsd, section, township, range, direction, meridian) == Unlocatable
  {
  }

  // ---------------------------------------------------------------------------
  // Metres and degrees.

  const Mile: real := 1609.344
  const TownshipEdge: real := 6.0 * Mile
  const SectionEdge: real := 1.0 * Mile
  const LsdEdge: real := SectionEdge / 4.0
  const MetresPerDegreeLatitude: real := 111320.0

  /** Northward offset in metres, accumulated as the converter does: township, section row, LSD row. */
  function NorthMetres(township: int, section: int, lsd: int): real
    requires 1 <= section <= 36 && 1 <= lsd <= 16
  {
    township as real * TownshipEdge + SectionRow(section) as real * SectionEdge
      + LsdRow(lsd) as real * LsdEdge
  }

  function WestMetres(range: int, section: int, lsd: int): real
    requires 1 <= section <= 36 && 1 <= lsd <= 16
  {
    range as real * TownshipEdge + SectionCol(section) as real * SectionEdge
      + LsdCol(lsd) as real * LsdEdge
  }

  /** Over exact reals the metre offsets are the quarter-mile offsets times the LSD edge. */
  lemma MetresAreQuarterMiles(township: int, range: int, section: int, lsd: int)
    requires 1 <= section <= 36 && 1 <= lsd <= 16
    ensures NorthMetres(township, section, lsd) == NorthQuarters(township, section, lsd) as real * LsdEdge
    ensures WestMetres(range, section, lsd) == WestQuarters(range, section, lsd) as real * LsdEdge
  {
  }

  /** Latitude of a located point, before rounding. */
  function Latitude(loc: Location): (lat: real)
    requires loc.Located?
    ensures (lat - BaseLatitude) * MetresPerDegreeLatitude == loc.northQ as real * LsdEdge
  {
    BaseLatitude + loc.northQ as real * LsdEdge / MetresPerDegreeLatitude
  }

  /** Longitude of a located point, before rounding. `cosLatitude` stands for the cosine of
      `Latitude(loc)`, which the converter takes from the maths library. */
  function Longitude(loc: Location, cosLatitude: real): (lon: real)
    requires loc.Located? && loc.meridian in {4, 5, 6} && cosLatitude > 0.0
    ensures var degrees := if loc.direction == West then MeridianLongitude(loc.meridian) - lon
                           else lon - MeridianLongitude(loc.meridian);
            degrees * (MetresPerDegreeLatitude * cosLatitude) == loc.westQ as real * LsdEdge
  {
    var degrees := loc.westQ as real * LsdEdge / (MetresPerDegreeLatitude * cosLatitude);
    if loc.direction == West then MeridianLongitude(loc.meridian) - degrees
    else MeridianLongitude(loc.meridian) + degrees
  }

  /** Every located point lies north of the 49th parallel, by less than 11.02 degrees. */
  lemma LatitudeBounds(a: Address)
    requires ValidAddress(a)
    ensures 49.0 < Latitude(Locate(a)) < 60.02
  {
    var n := Locate(a).northQ;
    assert 24 <= n <= 24 * 126 + 23;
    assert LsdEdge == 402.336;
  }

  /** The longitude lies west of the meridian for direction West and east of it for East. */
  lemma LongitudeSide(a: Address, cosLatitude: real)
    requires ValidAddress(a) && 0.0 < cosLatitude
    ensures a.direction == West ==> Longitude(Locate(a), cosLatitude) < MeridianLongitude(a.meridian)
    ensures a.direction == East ==> Longitude(Locate(a), cosLatitude) > MeridianLongitude(a.meridian)
  {
    var w := Locate(a).westQ as real * LsdEdge;
    var d := MetresPerDegreeLatitude * cosLatitude;
    assert w > 0.0 && d > 0.0;
    assert w / d > 0.0;
  }
}
