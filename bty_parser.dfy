/**
 * The location-string parser: normalises a raw legal-land-description field and
 * recognises its two encodings, the dashed `LSD-SEC-TWP-RGE<W|E><MER>` form and the
 * fixed-width 10-digit `MM TT RR SS LL` form, before handing the fields to the
 * grid converter.
 */
module BtyParser {
  import opened Wrappers
  import opened Text
  import opened AtsGrid

  // ---------------------------------------------------------------------------
  // The dashed grammar  ^(\d{1,2})-(\d{1,2})-(\d{1,3})-(\d{1,2})([WE])(\d)$

  /** The six groups of a dashed description, as text. */
  datatype DashedMatch = DashedMatch(lsd: string, section: string, township: string,
                                     range: string, direction: char, meridian: char)

  predicate WellFormedDashed(m: DashedMatch) {
    && AllDigits(m.lsd) && 1 <= |m.lsd| <= 2
    && AllDigits(m.section) && 1 <= |m.section| <= 2
    && AllDigits(m.township) && 1 <= |m.township| <= 3
    && AllDigits(m.range) && 1 <= |m.range| <= 2
    && (m.direction == 'W' || m.direction == 'E')
    && IsDigit(m.meridian)
  }

  /** The text a dashed description is written as. */
  function DashedText(m: DashedMatch): string {
    m.lsd + ("-" + (m.section + ("-" + (m.township + ("-" + (m.range + [m.direction, m.meridian]))))))
  }

  /** The strings the dashed grammar accepts. */
  ghost predicate IsDashed(s: string) {
    exists m :: WellFormedDashed(m) && DashedText(m) == s
  }

  /** Length of the run of digits at the start of `s`. */
  function DigitRun(s: string): (n: nat)
    ensures n <= |s| && AllDigits(s[..n])
    ensures n < |s| ==> !IsDigit(s[n])
  {
    if |s| > 0 && IsDigit(s[0]) then
      var n := 1 + DigitRun(s[1..]);
      assert s[..n] == [s[0]] + s[1..][..n - 1];
      n
    else 0
  }

  /** The digit run at the start of `g + t` is `g` when `t` starts with a non-digit. */
  lemma DigitRunOfGroup(g: string, t: string)
    requires AllDigits(g) && |t| > 0 && !IsDigit(t[0])
    ensures DigitRun(g + t) == |g|
  {
    var s := g + t;
    assert s[|g|] == t[0];
    assert s[..|g|] == g;
  }

  /** Takes a group of 1 to `maxLen` digits followed by a dash off the front of `s`. */
  function DashGroup(s: string, maxLen: nat): (r: Option<(string, string)>)
    ensures r.Some? ==> && AllDigits(r.value.0) && 1 <= |r.value.0| <= maxLen
                        && s == r.value.0 + ("-" + r.value.1)
  {
    var k := DigitRun(s);
    if 1 <= k <= maxLen && k < |s| && s[k] == '-' then
      assert s == s[..k] + ("-" + s[k + 1..]);
      Some((s[..k], s[k + 1..]))
    else None
  }

  lemma DashGroupComplete(g: string, rest: string, maxLen: nat)
    requires AllDigits(g) && 1 <= |g| <= maxLen
    ensures DashGroup(g + ("-" + rest), maxLen) == Some((g, rest))
  {
    var s := g + ("-" + rest);
    DigitRunOfGroup(g, "-" + rest);
    assert s[..|g|] == g && s[|g| + 1..] == rest;
  }

  /** The last group: 1 or 2 digits of range, the direction letter and the meridian digit. */
  function RangeTail(s: string): (r: Option<(string, char, char)>)
    ensures r.Some? ==> && AllDigits(r.value.0) && 1 <= |r.value.0| <= 2
                        && (r.value.1 == 'W' || r.value.1 == 'E') && IsDigit(r.value.2)
                        && s == r.value.0 + [r.value.1, r.value.2]
  {
    var k := DigitRun(s);
    if 1 <= k <= 2 && |s| == k + 2 && (s[k] == 'W' || s[k] == 'E') && IsDigit(s[k + 1]) then
      assert s == s[..k] + [s[k], s[k + 1]];
      Some((s[..k], s[k], s[k + 1]))
    else None
  }

  lemma RangeTailComplete(g: string, d: char, m: char)
    requires AllDigits(g) && 1 <= |g| <= 2 && (d == 'W' || d == 'E') && IsDigit(m)
    ensures RangeTail(g + [d, m]) == Some((g, d, m))
  {
    DigitRunOfGroup(g, [d, m]);
    var s := g + [d, m];
    assert s[..|g|] == g;
  }

  /** Matches the dashed grammar against the whole of `s`. */
  function MatchDashed(s: string): (r: Option<DashedMatch>)
    ensures r.Some? ==> WellFormedDashed(r.value)
  {
    match DashGroup(s, 2)
    case None => None
    case Some((lsd, s1)) =>
      match DashGroup(s1, 2)
      case None => None
      case Some((section, s2)) =>
        match DashGroup(s2, 3)
        case None => None
        case Some((township, s3)) =>
          match RangeTail(s3)
          case None => None
          case Some((range, d, m)) => Some(DashedMatch(lsd, section, township, range, d, m))
  }

  /** The groups of a dashed match rebuild the whole text. */
  lemma MatchDashedSound(s: string)
    requires MatchDashed(s).Some?
    ensures DashedText(MatchDashed(s).value) == s
  {
    var (lsd, s1) := DashGroup(s, 2).value;
    var (section, s2) := DashGroup(s1, 2).value;
    var (township, s3) := DashGroup(s2, 3).value;
    var (range, d, m) := RangeTail(s3).value;
    assert MatchDashed(s).value == DashedMatch(lsd, section, township, range, d, m);
  }

  /** The dashed matcher accepts exactly the dashed grammar, and reads every description
      back into the groups it was written from. */
  lemma {:induction false} MatchDashedComplete(m: DashedMatch)
    requires WellFormedDashed(m)
    ensures MatchDashed(DashedText(m)) == Some(m)
  {
    var tail := m.range + [m.direction, m.meridian];
    var s3 := m.township + ("-" + tail);
    var s2 := m.section + ("-" + s3);
    DashGroupComplete(m.lsd, s2, 2);
    DashGroupComplete(m.section, s3, 2);
    DashGroupComplete(m.township, tail, 3);
    RangeTailComplete(m.range, m.direction, m.meridian);
  }

  lemma MatchDashedExact(s: string)
    ensures MatchDashed(s).Some? <==> IsDashed(s)
  {
    if IsDashed(s) {
      var m :| WellFormedDashed(m) && DashedText(m) == s;
      MatchDashedComplete(m);
    }
    if MatchDashed(s).Some? {
      MatchDashedSound(s);
    }
  }

  /** Every dashed description holds a dash, so it is never all digits. */
  lemma DashedNotDigits(m: DashedMatch)
    requires WellFormedDashed(m)
    ensures !AllDigits(DashedText(m))
  {
    assert DashedText(m)[|m.lsd|] == '-';
  }

  lemma NotDashed(s: string)
    requires AllDigits(s)
    ensures MatchDashed(s) == None
  {
    if MatchDashed(s).Some? {
      DashedNotDigits(MatchDashed(s).value);
    }
  }

  // ---------------------------------------------------------------------------
  // The compact grammar  ^(\d{2})(\d{2})(\d{2})(\d{2})(\d{2})$

  /** The five two-digit groups of a compact description, in the order they are written. */
  datatype CompactMatch = CompactMatch(meridian: string, township: string, range: string,
                                       section: string, lsd: string)

  predicate WellFormedCompact(m: CompactMatch) {
    && AllDigits(m.meridian) && |m.meridian| == 2
    && AllDigits(m.township) && |m.township| == 2
    && AllDigits(m.range) && |m.range| == 2
    && AllDigits(m.section) && |m.section| == 2
    && AllDigits(m.lsd) && |m.lsd| == 2
  }

  function CompactText(m: CompactMatch): string {
    m.meridian + m.township + m.range + m.section + m.lsd
  }

  /** Matches the compact grammar: exactly ten digits, cut into five pairs. */
  function MatchCompact(s: string): (r: Option<CompactMatch>)
    ensures r.Some? <==> |s| == 10 && AllDigits(s)
    ensures r.Some? ==> WellFormedCompact(r.value)
  {
    if |s| == 10 && AllDigits(s) then
      Some(CompactMatch(s[0..2], s[2..4], s[4..6], s[6..8], s[8..10]))
    else None
  }

  /** The compact matcher cuts the text into its groups without losing or adding anything. */
  lemma MatchCompactSound(s: string)
    requires MatchCompact(s).Some?
    ensures CompactText(MatchCompact(s).value) == s
  {
    assert s == s[0..2] + s[2..4] + s[4..6] + s[6..8] + s[8..10];
  }

  lemma MatchCompactComplete(m: CompactMatch)
    requires WellFormedCompact(m)
    ensures MatchCompact(CompactText(m)) == Some(m)
  {
    var s := CompactText(m);
    assert s[0..2] == m.meridian && s[2..4] == m.township && s[4..6] == m.range;
    assert s[6..8] == m.section && s[8..10] == m.lsd;
  }

  // ---------------------------------------------------------------------------
  // The parser.

  /** Compact descriptions carry no direction letter: Alberta lies wholly west of its
      meridians, so the direction is taken to be West. */
  const CompactDirection: string := "W"

  /** `str(value).strip().upper()`. */
  function Normalise(raw: string): (r: string)
    ensures |r| == |Strip(raw)|
    ensures forall i :: 0 <= i < |r| ==> !('a' <= r[i] <= 'z')
    ensures r != [] ==> !IsSpace(r[0]) && !IsSpace(r[|r| - 1])
  {
    Upper(Strip(raw))
  }

  /** The address a dashed match spells, field by field. */
  function DashedAddress(m: DashedMatch): Address
    requires WellFormedDashed(m)
  {
    Address(DecimalValue(m.lsd), DecimalValue(m.section), DecimalValue(m.township),
            DecimalValue(m.range), if m.direction == 'W' then West else East,
            DecimalValue([m.meridian]))
  }

  /** The address a compact match spells: always west of the meridian. */
  function CompactAddress(m: CompactMatch): Address
    requires WellFormedCompact(m)
  {
    Address(DecimalValue(m.lsd), DecimalValue(m.section), DecimalValue(m.township),
            DecimalValue(m.range), West, DecimalValue(m.meridian))
  }

  /** Hands the groups of a dashed match to the converter in the order lsd, section, township,
      range, direction, meridian. */
  function LocateDashed(m: DashedMatch): (r: Location)
    requires WellFormedDashed(m)
    ensures r.Located? <==> ValidAddress(DashedAddress(m))
    ensures r.Located? ==> r.northQ >= 0 && r.westQ >= 0 && AddressOf(r) == DashedAddress(m)
  {
    assert [m.direction] == "W" <==> m.direction == 'W';
    AtsToLatLon(DecimalValue(m.lsd), DecimalValue(m.section), DecimalValue(m.township),
                DecimalValue(m.range), [m.direction], DecimalValue([m.meridian]))
  }

  /** Hands the groups of a compact match to the converter; the text order is meridian,
      township, range, section, lsd. */
  function LocateCompact(m: CompactMatch): (r: Location)
    requires WellFormedCompact(m)
    ensures r.Located? <==> ValidAddress(CompactAddress(m))
    ensures r.Located? ==> r.northQ >= 0 && r.westQ >= 0 && AddressOf(r) == CompactAddress(m)
  {
    AtsToLatLon(DecimalValue(m.lsd), DecimalValue(m.section), DecimalValue(m.township),
                DecimalValue(m.range), CompactDirection, DecimalValue(m.meridian))
  }

  /** Text without lower-case letters and without whitespace at its ends is already normal. */
  lemma NormaliseUnchanged(s: string)
    requires s != [] ==> !IsSpace(s[0]) && !IsSpace(s[|s| - 1])
    requires forall i :: 0 <= i < |s| ==> !('a' <= s[i] <= 'z')
    ensures Normalise(s) == s
  {
    StripUnpadded(s);
  }

  /** Text that is already normal goes straight to the grammars. */
  lemma ParseNormal(s: string)
    requires s != [] ==> !IsSpace(s[0]) && !IsSpace(s[|s| - 1])
    requires forall i :: 0 <= i < |s| ==> !('a' <= s[i] <= 'z')
    requires s != "" && s != "NAN"
    ensures ParseBty(Some(s)) == Dispatch(s)
  {
    NormaliseUnchanged(s);
  }

  /** Tries the dashed grammar, then the compact one, on a normalised value. */
  function Dispatch(value: string): (r: Location)
    ensures r.Located? ==> IsDashed(value) || (|value| == 10 && AllDigits(value))
  {
    assert MatchDashed(value).Some? ==> DashedText(MatchDashed(value).value) == value by {
      if MatchDashed(value).Some? {
        MatchDashedSound(value);
      }
    }
    match MatchDashed(value)
    case Some(m) => LocateDashed(m)
    case None =>
      match MatchCompact(value)
      case Some(c) => LocateCompact(c)
      case None => Unlocatable
  }

  /** Locates a raw legal land description; `None` is a missing value. Never fails: anything
      that is not a description of a valid grid cell is `Unlocatable`. */
  function ParseBty(raw: Option<string>): (r: Location)
    ensures raw.None? ==> r == Unlocatable
    ensures raw.Some? && Normalise(raw.value) in {"", "NAN"} ==> r == Unlocatable
    ensures r.Located? ==> IsDashed(Normalise(raw.value))
                           || (|Normalise(raw.value)| == 10 && AllDigits(Normalise(raw.value)))
  {
    match raw
    case None => Unlocatable
    case Some(s) =>
      var value := Normalise(s);
      if value == "" || value == "NAN" then Unlocatable
      else Dispatch(value)
  }

  /** The guard against "" and "NAN" changes nothing: neither text matches a grammar. */
  lemma EmptyAndNanMatchNothing()
    ensures Dispatch("") == Unlocatable && Dispatch("NAN") == Unlocatable
  {
    assert DigitRun("") == 0;
    assert DigitRun("NAN") == 0;
  }

  /** Upper-case and lower-case input are located alike. */
  lemma CaseInsensitive(s: string)
    ensures ParseBty(Some(s)) == ParseBty(Some(Upper(s)))
  {
    UpperStrip(s);
    UpperIdempotent(Strip(s));
  }

  /** A dashed description decodes its groups in order into the converter's fields. */
  lemma ParseDashed(m: DashedMatch)
    requires WellFormedDashed(m)
    ensures ParseBty(Some(DashedText(m))) ==
              AtsToLatLon(DecimalValue(m.lsd), DecimalValue(m.section), DecimalValue(m.township),
                          DecimalValue(m.range), [m.direction], DecimalValue([m.meridian]))
  {
    var s := DashedText(m);
    assert s[0] == m.lsd[0] && s[|s| - 1] == m.meridian;
    assert forall i :: 0 <= i < |s| ==> IsDigit(s[i]) || s[i] in "-WE";
    assert s != "NAN";
    ParseNormal(s);
    MatchDashedComplete(m);
  }

  /** A ten-digit description decodes as meridian, township, range, section, lsd, West. */
  lemma ParseCompact(s: string)
    requires |s| == 10 && AllDigits(s)
    ensures ParseBty(Some(s)) ==
              AtsToLatLon(DecimalValue(s[8..10]), DecimalValue(s[6..8]), DecimalValue(s[2..4]),
                          DecimalValue(s[4..6]), "W", DecimalValue(s[0..2]))
  {
    assert s != "NAN";
    ParseNormal(s);
    NotDashed(s);
  }

  /** Writing the five fields in compact form and parsing them gives the converter's result. */
  lemma CompactRoundTrip(meridian: nat, township: nat, range: nat, section: nat, lsd: nat)
    requires meridian < 100 && township < 100 && range < 100 && section < 100 && lsd < 100
    ensures ParseBty(Some(Decimal(meridian, 2) + Decimal(township, 2) + Decimal(range, 2)
                          + Decimal(section, 2) + Decimal(lsd, 2)))
            == AtsToLatLon(lsd, section, township, range, "W", meridian)
  {
    var c := CompactMatch(Decimal(meridian, 2), Decimal(township, 2), Decimal(range, 2),
                          Decimal(section, 2), Decimal(lsd, 2));
    var s := CompactText(c);
    MatchCompactComplete(c);
    ParseCompact(s);
    assert s[0..2] == c.meridian && s[2..4] == c.township && s[4..6] == c.range;
    assert s[6..8] == c.section && s[8..10] == c.lsd;
    DecimalRoundTrip(meridian, 2);
    DecimalRoundTrip(township, 2);
    DecimalRoundTrip(range, 2);
    DecimalRoundTrip(section, 2);
    DecimalRoundTrip(lsd, 2);
  }

  /** A run of digits of any length other than ten matches neither grammar. */
  lemma DigitsOfWrongLength(s: string)
    requires AllDigits(s) && |s| != 10
    ensures ParseBty(Some(s)) == Unlocatable
  {
    if s == [] {
      assert Normalise(s) == "";
    } else {
      assert IsDigit(s[0]) && !IsDigit("NAN"[0]);
      ParseNormal(s);
      NotDashed(s);
    }
  }

  /** Whitespace around the value does not change where it is located. */
  lemma WhitespaceIgnored(p: string, s: string, q: string)
    requires AllSpace(p) && AllSpace(q)
    ensures ParseBty(Some(p + s + q)) == ParseBty(Some(s))
  {
    StripPadded(p, s, q);
  }

  lemma ExampleDigits()
    ensures DecimalValue("00") == 0 && DecimalValue("02") == 2 && DecimalValue("04") == 4
    ensures DecimalValue("06") == 6 && DecimalValue("21") == 21 && DecimalValue("54") == 54
    ensures DecimalValue("065") == 65 && DecimalValue("4") == 4
  {
    assert "065"[..2] == "06" && "06"[..1] == "0";
  }

  /** The docstring's first example, `02-21-065-04W4`: LSD 2 of section 21, township 65, range 4,
      west of the 4th meridian. */
  lemma DashedExample()
    ensures ParseBty(Some("02-21-065-04W4")) == Locate(Address(2, 21, 65, 4, West, 4))
  {
    var m := DashedMatch("02", "21", "065", "04", 'W', '4');
    assert DashedText(m) == "02-21-065-04W4";
    ParseDashed(m);
    ExampleDigits();
    assert AtsToLatLon(2, 21, 65, 4, "W", 4) == Locate(Address(2, 21, 65, 4, West, 4));
  }

  /** The same description written in lower case is located alike. */
  lemma LowerCaseExample()
    ensures ParseBty(Some("02-21-065-04w4")) == ParseBty(Some("02-21-065-04W4"))
  {
    CaseInsensitive("02-21-065-04w4");
    UpperExample("02-21-065-04w4");
  }

  lemma UpperExample(s: string)
    requires s == "02-21-065-04w4"
    ensures Upper(s) == "02-21-065-04W4"
  {
  }

  /** The docstring's second example, `0654042102`: meridian 6, township 54, range 4,
      section 21, LSD 2, west. */
  lemma CompactExample()
    ensures ParseBty(Some("0654042102")) == Locate(Address(2, 21, 54, 4, West, 6))
  {
    CompactExampleFields("0654042102");
    ParseCompact("0654042102");
    assert AtsToLatLon(2, 21, 54, 4, "W", 6) == Locate(Address(2, 21, 54, 4, West, 6));
  }

  lemma CompactExampleFields(s: string)
    requires s == "0654042102"
    ensures |s| == 10 && AllDigits(s)
    ensures DecimalValue(s[8..10]) == 2 && DecimalValue(s[6..8]) == 21
    ensures DecimalValue(s[2..4]) == 54 && DecimalValue(s[4..6]) == 4 && DecimalValue(s[0..2]) == 6
  {
    assert s[0..2] == "06";
    assert s[2..4] == "54";
    assert s[4..6] == "04";
    assert s[6..8] == "21";
    assert s[8..10] == "02";
    ExampleDigits();
  }

  /** A well-formed description whose LSD is 0 is refused. */
  lemma OutOfRangeExample()
    ensures ParseBty(Some("00-21-065-04W4")) == Unlocatable
  {
    var m := DashedMatch("00", "21", "065", "04", 'W', '4');
    assert DashedText(m) == "00-21-065-04W4";
    ParseDashed(m);
    ExampleDigits();
  }
}
