# Alberta Township System locator

A Dafny model of the land-survey part of an emissions-data ingestion pipeline. The pipeline
reads the legal land description of each battery site, written in the Alberta Township
System (ATS, the Dominion Land Survey grid), and turns it into an approximate latitude and
longitude. It also reads the reporting month of a monthly data file from the file's name.
The model has three parts:

- **Grid converter** (`AtsGrid`, `ats_grid.dfy`). It checks the six fields of a description
  (LSD, section, township, range, direction, meridian) against their ranges. It then places
  the description on the grid: the township and range offset, the serpentine 6 x 6 section
  layout, and the row-major 4 x 4 legal-subdivision (LSD) layout. All offsets are kept exact,
  in quarter miles (the edge of an LSD): north = 24·township + 4·section row + LSD row, and
  west = 24·range + 4·section column + LSD column. The result is a
  `Located(meridian, direction, northQ, westQ) | Unlocatable` datatype in place of the
  Python function's pair of nullable floats. `Latitude` and `Longitude` turn a located cell into
  degrees over exact reals.
- **Location-string parser** (`BtyParser`, `bty_parser.dfy`). It strips and upper-cases the
  raw value and refuses a missing value, `""` and `"NAN"`. It then tries the dashed grammar
  `LSD-SEC-TWP-RGE<W|E><MER>`, then the 10-digit compact grammar `MM TT RR SS LL`, whose
  direction is always West. Each grammar is given twice: as a matcher, and as the set of
  texts it accepts (`DashedText`, `CompactText`). Lemmas prove the two agree in both
  directions.
- **Reporting month** (`ReportingMonth`, `reporting_month.dfy`). It takes the base name of a
  path and finds the leftmost `YYYY_MM` or `YYYY-MM`. It fails when there is none, and also
  when the calendar refuses the year or month.

`Text` (`text.dfy`) gives the string operations with the meaning Python gives them:
`str.strip()`, ASCII `str.upper()`, `int()` on ASCII digit runs. `Wrappers` (`wrappers.dfy`)
holds `Option` and `Result`.

`AtsGrid.LatitudeBounds` proves that every located latitude is below 60.02 degrees: the
largest north offset is 3047 quarter miles (township 126, section row 5, LSD row 3).

## Model

| member | source | states |
|---|---|---|
| `AtsGrid.AtsToLatLon` | scripts/ingest/load_aer_facilities.py:15-70 | The result is located exactly when lsd ∈ [1,16], section ∈ [1,36], township ∈ [1,126], range ∈ [1,34], meridian ∈ {4,5,6} and direction is "W" or "E". A located cell reads back (`AddressOf`) to exactly the six fields given. |
| `AtsGrid.ValidAddress` | scripts/ingest/load_aer_facilities.py:26-35 | The five numeric range checks: lsd in [1,16], section in [1,36], township in [1,126], range in [1,34], meridian 4, 5 or 6. The direction check of lines 36-37 is carried by the `Direction` type, which has only West and East. |
| `AtsGrid.SectionRow` | scripts/ingest/load_aer_facilities.py:56 | A section's row is in [0,5], and the row's sections are 6·row+1 to 6·row+6. |
| `AtsGrid.SectionCol` | scripts/ingest/load_aer_facilities.py:57-60 | A section's column, mirrored on odd rows, lies in [0,5]. |
| `AtsGrid.SectionAt` | scripts/ingest/load_aer_facilities.py:56-60 | The section at any cell of the 6 x 6 grid is a section number in [1,36]. |
| `AtsGrid.SectionLayoutLeftInverse` | scripts/ingest/load_aer_facilities.py:56-60 | Reading the grid at a section's row and column gives the section back. |
| `AtsGrid.SectionLayoutRightInverse` | scripts/ingest/load_aer_facilities.py:56-60 | Every cell of the 6 x 6 grid holds exactly one section. With the lemma above, the layout is a bijection. |
| `AtsGrid.SerpentineAdjacent` | scripts/ingest/load_aer_facilities.py:56-60 | Consecutive sections are neighbours: in the same row, moving west on even rows and east on odd rows, or one row up at the end of a row. |
| `AtsGrid.SerpentineFirstRows` | scripts/ingest/load_aer_facilities.py:56-60 | Sections 1–6 share row 0 in columns 0–5. Sections 6 and 7 share column 5 in rows 0 and 1, and sections 12 and 13 share column 0. |
| `AtsGrid.LsdRow` | scripts/ingest/load_aer_facilities.py:66 | An LSD's row is in [0,3]. |
| `AtsGrid.LsdCol` | scripts/ingest/load_aer_facilities.py:67 | An LSD's column is in [0,3]. |
| `AtsGrid.LsdAt` | scripts/ingest/load_aer_facilities.py:66-70 | The LSD at any cell of the 4 x 4 grid is in [1,16]. |
| `AtsGrid.LsdLayoutBijective` | scripts/ingest/load_aer_facilities.py:66-70 | The LSD layout is a bijection onto the 4 x 4 grid. It is row-major and not serpentine: LSD l+1 is one column west of l in the same row when l is not a multiple of 4. |
| `AtsGrid.NorthQuarters` | scripts/ingest/load_aer_facilities.py:52-70 | The north offset of township t lies in [24·t, 24·t+24) quarter miles, so section row and LSD row never carry the point into the next township. |
| `AtsGrid.WestQuarters` | scripts/ingest/load_aer_facilities.py:53-70 | The west offset of range r lies in [24·r, 24·r+24) quarter miles, so section column and LSD column never carry the point into the next range. |
| `AtsGrid.Locate` | scripts/ingest/load_aer_facilities.py:51-70 | The cell of a valid address keeps its meridian and direction, and lies inside the address's own township and range. |
| `AtsGrid.LocateRoundTrip` | scripts/ingest/load_aer_facilities.py:51-70 | Reading a valid address's grid cell back recovers township, range, section, LSD, direction and meridian. |
| `AtsGrid.CellsDisjoint` | scripts/ingest/load_aer_facilities.py:51-70 | Two valid addresses with the same tagged cell (meridian, direction, quarter-mile offsets) are the same address. |
| `AtsGrid.MeridianLongitude` | scripts/ingest/load_aer_facilities.py:40-43 | The base longitudes −110, −114, −118 of meridians 4, 5, 6 are 4 degrees apart. |
| `AtsGrid.AcceptsBoundary` | scripts/ingest/load_aer_facilities.py:26-37 | The extreme values of every range are accepted, with either direction. |
| `AtsGrid.RejectsPastBoundary` | scripts/ingest/load_aer_facilities.py:26-37 | lsd 0 or 17, section 0 or 37, township 0 or 127, range 0 or 35, meridian 3 or 7, or direction "N" is refused. |
| `AtsGrid.NorthMetres` | scripts/ingest/load_aer_facilities.py:52-69 | The north offset in metres, summed as the converter does: township times the township edge, section row times the section edge, LSD row times the LSD edge. |
| `AtsGrid.WestMetres` | scripts/ingest/load_aer_facilities.py:53-70 | The west offset in metres: range times the township edge, section column times the section edge, LSD column times the LSD edge. |
| `AtsGrid.MetresAreQuarterMiles` | scripts/ingest/load_aer_facilities.py:45-70 | Over exact reals, the metre offsets built from the mile, township, section and LSD edges equal the quarter-mile offsets times the LSD edge (402.336 m). |
| `AtsGrid.LatitudeBounds` | scripts/ingest/load_aer_facilities.py:42-73 | Every located latitude lies strictly between 49 and 60.02 degrees. |
| `AtsGrid.Latitude` | scripts/ingest/load_aer_facilities.py:73 | The latitude's degrees north of 49, times 111320 metres per degree, are the north offset in metres. |
| `AtsGrid.Longitude` | scripts/ingest/load_aer_facilities.py:75-80 | The longitude's degrees from the meridian, taken westward for West and eastward for East, times 111320 · cos(latitude) metres per degree, are the west offset in metres. |
| `AtsGrid.LongitudeSide` | scripts/ingest/load_aer_facilities.py:75-80 | For any positive cosine, the longitude is west of the meridian's base longitude for West and east of it for East. |
| `Text.DecimalValue` | scripts/ingest/load_aer_facilities.py:111-116 | `int()` of a run of k digits is below 10^k. |
| `Text.DecimalRoundTrip` | scripts/ingest/load_aer_facilities.py:127-131 | Reading back a zero-padded k-digit decimal gives the number it was written from. |
| `Text.DecimalValueRoundTrip` | scripts/ingest/load_aer_facilities.py:127-131 | Writing back the value of a digit run in its own width gives the same text, leading zeros included. |
| `Text.IsSpace` | scripts/ingest/load_aer_facilities.py:100 | The characters `str.strip()` removes: Python's `str.isspace` set, that is, tab to carriage return, the file, group, record and unit separators, space, U+0085, U+00A0, U+1680, U+2000 to U+200A, U+2028, U+2029, U+202F, U+205F and U+3000. |
| `Text.TrimStart` | scripts/ingest/load_aer_facilities.py:100 | The result is the suffix left after removing every leading whitespace character, and it starts with a non-space. |
| `Text.TrimEnd` | scripts/ingest/load_aer_facilities.py:100 | The result is the prefix left after removing every trailing whitespace character, and it ends with a non-space. |
| `Text.Strip` | scripts/ingest/load_aer_facilities.py:100 | `strip()` never lengthens the text, and a non-empty result neither starts nor ends with whitespace. |
| `Text.StripIsSlice` | scripts/ingest/load_aer_facilities.py:100 | `strip()` gives a slice of the input whose outside is all whitespace and whose ends are not whitespace. |
| `Text.StripUnpadded` | scripts/ingest/load_aer_facilities.py:100 | `strip()` leaves text without edge whitespace unchanged. |
| `Text.StripPadded` | scripts/ingest/load_aer_facilities.py:100 | Whitespace added on either side is removed again by `strip()`. |
| `Text.TrimStartSpaces` | scripts/ingest/load_aer_facilities.py:100 | Leading whitespace does not change the result of trimming the front. |
| `Text.TrimEndSpaces` | scripts/ingest/load_aer_facilities.py:100 | Trailing whitespace does not change the result of trimming the end. |
| `Text.TrimStartAppend` | scripts/ingest/load_aer_facilities.py:100 | Trimming the front of s + q keeps q intact when s holds a non-space. |
| `Text.UpperChar` | scripts/ingest/load_aer_facilities.py:100 | Upper-casing a character keeps it a space or a digit exactly when it was one, and never leaves a lower-case ASCII letter. |
| `Text.Upper` | scripts/ingest/load_aer_facilities.py:100 | `upper()` keeps the length and maps each character on its own. |
| `Text.UpperIdempotent` | scripts/ingest/load_aer_facilities.py:100 | Upper-casing twice is upper-casing once. |
| `Text.UpperStrip` | scripts/ingest/load_aer_facilities.py:100 | `strip()` then `upper()` equals `upper()` then `strip()`. |
| `BtyParser.DigitRun` | scripts/ingest/load_aer_facilities.py:107 | The leading run of digits: all digits, followed by a non-digit or the end. |
| `BtyParser.DigitRunOfGroup` | scripts/ingest/load_aer_facilities.py:107 | The digit run of g + t is g when t starts with a non-digit. |
| `BtyParser.DashGroup` | scripts/ingest/load_aer_facilities.py:107 | An accepted group has 1 to max digits, and the group, a dash and the rest make up the input. |
| `BtyParser.DashGroupComplete` | scripts/ingest/load_aer_facilities.py:107 | Every group of 1 to max digits followed by a dash is accepted, split at that dash. |
| `BtyParser.RangeTail` | scripts/ingest/load_aer_facilities.py:107 | An accepted tail is 1–2 digits, W or E, then one digit, and nothing else. |
| `BtyParser.RangeTailComplete` | scripts/ingest/load_aer_facilities.py:107 | Every such tail is accepted with its three parts. |
| `BtyParser.MatchDashed` | scripts/ingest/load_aer_facilities.py:107-108 | A dashed match is well formed: digit counts 1–2, 1–2, 1–3, 1–2, a W or E letter, one digit. |
| `BtyParser.MatchDashedSound` | scripts/ingest/load_aer_facilities.py:107-108 | The groups of a dashed match rebuild the whole input, dashes included. |
| `BtyParser.MatchDashedComplete` | scripts/ingest/load_aer_facilities.py:107-116 | Every well-formed dashed text is matched back into exactly the groups it was written from. |
| `BtyParser.MatchDashedExact` | scripts/ingest/load_aer_facilities.py:107-110 | The matcher succeeds exactly on the texts of the dashed grammar. |
| `BtyParser.DashedNotDigits` | scripts/ingest/load_aer_facilities.py:107-124 | No dashed text is all digits, so no text matches both grammars. |
| `BtyParser.NotDashed` | scripts/ingest/load_aer_facilities.py:107-110 | An all-digit text never matches the dashed grammar. |
| `BtyParser.MatchCompact` | scripts/ingest/load_aer_facilities.py:123-124 | The compact grammar matches exactly the texts of ten ASCII digits, into five two-digit groups. |
| `BtyParser.MatchCompactSound` | scripts/ingest/load_aer_facilities.py:123-124 | The five groups rebuild the whole input. |
| `BtyParser.MatchCompactComplete` | scripts/ingest/load_aer_facilities.py:123-131 | Every five two-digit groups are matched back in the order meridian, township, range, section, LSD. |
| `BtyParser.Normalise` | scripts/ingest/load_aer_facilities.py:100 | The normalised value is as long as the stripped input, holds no lower-case ASCII letter, and does not start or end with whitespace. |
| `BtyParser.LocateDashed` | scripts/ingest/load_aer_facilities.py:111-118 | A dashed match is located exactly when the address its groups spell (lsd, section, township, range, W/E, meridian) is valid, and its cell reads back to that address. |
| `BtyParser.CompactDirection` | scripts/ingest/load_aer_facilities.py:133-135 | A compact description carries no direction letter, so the direction handed to the converter is always "W". |
| `BtyParser.LocateCompact` | scripts/ingest/load_aer_facilities.py:127-137 | A compact match is located exactly when the address its groups spell, West of the meridian, is valid, and its cell reads back to that address. |
| `BtyParser.Dispatch` | scripts/ingest/load_aer_facilities.py:105-139 | A normalised value is located only when it is in the dashed grammar or is exactly ten digits. |
| `BtyParser.NormaliseUnchanged` | scripts/ingest/load_aer_facilities.py:100 | Text without lower-case letters and without edge whitespace is already normalised. |
| `BtyParser.ParseNormal` | scripts/ingest/load_aer_facilities.py:97-103 | Normalised text other than "" and "NAN" goes straight to the grammars. |
| `BtyParser.ParseBty` | scripts/ingest/load_aer_facilities.py:97-139 | A missing value, or one that normalises to "" or "NAN", is unlocatable. A located result comes only from a normalised value in the dashed grammar or of exactly ten digits. |
| `BtyParser.EmptyAndNanMatchNothing` | scripts/ingest/load_aer_facilities.py:102-103 | "" and "NAN" match neither grammar, so the early refusal does not change any result. |
| `BtyParser.CaseInsensitive` | scripts/ingest/load_aer_facilities.py:100 | Every input is located as its upper-cased form is. |
| `BtyParser.WhitespaceIgnored` | scripts/ingest/load_aer_facilities.py:100 | Whitespace around the input does not change the result. |
| `BtyParser.ParseDashed` | scripts/ingest/load_aer_facilities.py:107-118 | A dashed description gives the converter's result on its groups, in order: lsd, section, township, range, direction, meridian. |
| `BtyParser.ParseCompact` | scripts/ingest/load_aer_facilities.py:123-137 | A ten-digit text gives the converter's result on lsd = digits 9–10, section = 7–8, township = 3–4, range = 5–6, meridian = 1–2, direction "W". |
| `BtyParser.CompactRoundTrip` | scripts/ingest/load_aer_facilities.py:123-137 | Five fields below 100, written as zero-padded pairs, parse to the converter's result on those fields with direction West. |
| `BtyParser.DigitsOfWrongLength` | scripts/ingest/load_aer_facilities.py:123-139 | A digit string of any length other than 10 (9 or 11, say) is unlocatable. |
| `BtyParser.DashedExample` | scripts/ingest/load_aer_facilities.py:107-118 | `02-21-065-04W4` is LSD 2, section 21, township 65, range 4, West of meridian 4. |
| `BtyParser.LowerCaseExample` | scripts/ingest/load_aer_facilities.py:100 | `02-21-065-04w4` is located as `02-21-065-04W4` is. |
| `BtyParser.CompactExample` | scripts/ingest/load_aer_facilities.py:123-137 | `0654042102` is meridian 6, township 54, range 4, section 21, LSD 2, West. |
| `BtyParser.OutOfRangeExample` | scripts/ingest/load_aer_facilities.py:26-27 | `00-21-065-04W4` matches the grammar and is refused for its LSD. |
| `ReportingMonth.Basename` | scripts/ingest/load_aer_facilities.py:151 | The base name is the suffix after the last `/`, and it contains no `/`. |
| `ReportingMonth.BasenameOfName` | scripts/ingest/load_aer_facilities.py:151 | A name without `/` is its own base name. |
| `ReportingMonth.BasenameInDirectory` | scripts/ingest/load_aer_facilities.py:151 | The base name of dir/name is name. |
| `ReportingMonth.MonthAt` | scripts/ingest/load_aer_facilities.py:152 | The pattern `(\d{4})[_-](\d{2})` matches at index i: four digits, `_` or `-`, two digits. |
| `ReportingMonth.FirstMonthAt` | scripts/ingest/load_aer_facilities.py:152 | The search returns a match with no match before it, or reports that nothing at or after the start matches. |
| `ReportingMonth.FirstMonthUnique` | scripts/ingest/load_aer_facilities.py:152 | A name has at most one leftmost match. |
| `ReportingMonth.FirstMonthIsLeftmost` | scripts/ingest/load_aer_facilities.py:152 | The search returns the leftmost match. |
| `ReportingMonth.ValidDate` | scripts/ingest/load_aer_facilities.py:160 | The calendar date constructor accepts years 1–9999 and months 1–12. |
| `ReportingMonth.MonthDate` | scripts/ingest/load_aer_facilities.py:157-160 | The date of a match succeeds exactly when the calendar accepts its year and month, and is then the first day of that month; otherwise it is the date error. |
| `ReportingMonth.ExtractReportingMonth` | scripts/ingest/load_aer_facilities.py:145-160 | The "no reporting month" error happens exactly when the base name holds no `YYYY[_-]MM`; otherwise a leftmost match exists and it alone decides the result, through `MonthDate`. A success is the first day of a valid month. |
| `ReportingMonth.MonthAfterPrefix` | scripts/ingest/load_aer_facilities.py:152 | After a digit-free prefix, the first match is right at the year. |
| `ReportingMonth.ReportingMonthOfName` | scripts/ingest/load_aer_facilities.py:151-160 | dir/prefix + YYYY + sep + MM + rest, with a digit-free prefix, gives (YYYY, MM, 1), or the date error when the year or month is out of range. |
| `ReportingMonth.DocumentedExample` | scripts/ingest/load_aer_facilities.py:147-148 | `ST60_2024_06.csv` reports 2024-06-01. |
| `ReportingMonth.FirstMatchOnly` | scripts/ingest/load_aer_facilities.py:152-160 | `2024_2025_01.csv` fails, because its first match `2024_20` has month 20. |

## Left out

- AtsGrid.AtsToLatLon: returns the exact grid cell (meridian, direction, offsets in quarter
  miles) and not the rounded floating-point pair. `Latitude` is exact over reals. `Longitude`
  takes the cosine of the latitude as a parameter, because the model has no trigonometry.
  IEEE rounding of the constants and the final rounding to 6 decimal places are not modelled.
- AtsGrid.CellsDisjoint: disjointness holds for the tagged cells, not for the (latitude,
  longitude) points. The Python function's pair carries no meridian or direction, and a high
  range west of one meridian reaches past the next meridian: range 34 W4 lies west of −114°,
  on ground that W5 also covers.
- AtsGrid.LongitudeSide: holds for every positive cosine. It does not state that the cosine
  is the one of the computed latitude.
- The converter's arguments are integers and a direction string. Python would also accept
  other types, such as floats; those calls are not modelled.
- The raw value is modelled as an optional string. `str()` of other Python objects is not
  modelled: for example, an integer cell losing its leading zero.
- `\d` and `int()` are modelled on ASCII digits only. Python also accepts other Unicode
  decimal digits.
- `upper()` is modelled on ASCII letters only. Neither grammar accepts a non-ASCII character,
  so this cannot change whether a value is located.
- `os.path.basename` is modelled with POSIX `/` separators.
- `load_aer_data` is not modelled: it does CSV reading, dataframe column changes, database
  writes and printing.
- The module-level environment loading and the `__main__` entry point are not modelled.
- scripts/setup/create_bronze_tables.py and scripts/setup/init_iceberg_catalog.py are not
  modelled: they only issue database schema and catalogue set-up statements.
- scripts/availability_check.py is not modelled: it makes network calls to an authentication
  and catalogue service.
