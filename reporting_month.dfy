/**
 * Reporting month of a monthly data file, read from its file name: the first
 * `YYYY_MM` or `YYYY-MM` in the base name, as the first day of that month.
 */
module ReportingMonth {
  import opened Wrappers
  import opened Text

  datatype Date = Date(year: int, month: int, day: int)

  /** Both failures are a `ValueError` in Python: no `YYYY[_-]MM` in the name, or a
      year or month that the calendar date constructor refuses. */
  datatype MonthError = NoReportingMonth | DateOutOfRange

  /** POSIX `os.path.basename`: everything after the last `/`. */
  function Basename(path: string): (name: string)
    ensures |name| <= |path| && name == path[|path| - |name|..]
    ensures '/' !in name
    ensures |name| < |path| ==> path[|path| - |name| - 1] == '/'
  {
    if |path| == 0 || path[|path| - 1] == '/' then ""
    else
      var init := path[..|path| - 1];
      var r := Basename(init);
      assert path[|path| - |r| - 1..] == init[|init| - |r|..] + [path[|path| - 1]];
      assert |r| < |init| ==> path[|path| - |r| - 2] == init[|init| - |r| - 1];
      r + [path[|path| - 1]]
  }

  /** `(\d{4})[_-](\d{2})` matches at index `i` of `s`. */
  predicate MonthAt(s: string, i: nat) {
    && i + 7 <= |s|
    && AllDigits(s[i..i + 4])
    && (s[i + 4] == '_' || s[i + 4] == '-')
    && AllDigits(s[i + 5..i + 7])
  }

  /** The leftmost index at or after `from` where the pattern matches, as `re.search` finds it. */
  function FirstMonthAt(s: string, from: nat): (r: Option<nat>)
    requires from <= |s|
    decreases |s| - from
    ensures r.Some? ==> from <= r.value && MonthAt(s, r.value)
    ensures r.Some? ==> forall k :: from <= k < r.value ==> !MonthAt(s, k)
    ensures r.None? ==> forall k :: from <= k ==> !MonthAt(s, k)
  {
    if from + 7 > |s| then None
    else if MonthAt(s, from) then Some(from)
    else FirstMonthAt(s, from + 1)
  }

  /** `i` is the leftmost match in `s`. */
  predicate FirstMonth(s: string, i: nat) {
    MonthAt(s, i) && forall k :: 0 <= k < i ==> !MonthAt(s, k)
  }

  /** There is at most one leftmost match. */
  lemma FirstMonthUnique(s: string, i: nat, j: nat)
    requires FirstMonth(s, i) && FirstMonth(s, j)
    ensures i == j
  {
  }

  /** Python's `datetime(year, month, day)` accepts years 1 to 9999 and months 1 to 12. */
  predicate ValidDate(year: int, month: int) {
    1 <= year <= 9999 && 1 <= month <= 12
  }

  /** The reporting month named by the match at `i`: the first day of that month, or the date
      error when the calendar refuses the year or the month. */
  function MonthDate(name: string, i: nat): (r: Result<Date, MonthError>)
    requires MonthAt(name, i)
    ensures r.Success? <==> ValidDate(DecimalValue(name[i..i + 4]), DecimalValue(name[i + 5..i + 7]))
    ensures r.Success? ==> r.value == Date(DecimalValue(name[i..i + 4]),
                                           DecimalValue(name[i + 5..i + 7]), 1)
    ensures r.Failure? ==> r.error == DateOutOfRange
  {
    var year := DecimalValue(name[i..i + 4]);
    var month := DecimalValue(name[i + 5..i + 7]);
    if ValidDate(year, month) then Success(Date(year, month, 1)) else Failure(DateOutOfRange)
  }

  /** The reporting month of a file, or why it has none: the leftmost match decides. */
  function ExtractReportingMonth(path: string): (r: Result<Date, MonthError>)
    ensures r == Failure(NoReportingMonth) <==> forall k :: 0 <= k ==> !MonthAt(Basename(path), k)
    ensures r != Failure(NoReportingMonth) ==> exists i: nat :: FirstMonth(Basename(path), i)
    ensures forall i: nat :: FirstMonth(Basename(path), i) ==> r == MonthDate(Basename(path), i)
    ensures r.Success? ==> ValidDate(r.value.year, r.value.month) && r.value.day == 1
  {
    var name := Basename(path);
    match FirstMonthAt(name, 0)
    case None => Failure(NoReportingMonth)
    case Some(i) =>
      assert forall j: nat :: FirstMonth(name, j) ==> j == i by {
        forall j: nat | FirstMonth(name, j) ensures j == i {
          FirstMonthUnique(name, i, j);
        }
      }
      assert FirstMonth(name, i);
      MonthDate(name, i)
  }

  /** A name holding no `/` is its own base name. */
  lemma {:induction false} BasenameOfName(name: string)
    requires '/' !in name
    ensures Basename(name) == name
  {
    if |name| > 0 {
      BasenameOfName(name[..|name| - 1]);
      assert name == name[..|name| - 1] + [name[|name| - 1]];
    }
  }

  /** The base name of `dir/name` is `name`. */
  lemma {:induction false} BasenameInDirectory(dir: string, name: string)
    requires '/' !in name
    ensures Basename(dir + "/" + name) == name
  {
    var path := dir + "/" + name;
    if |name| == 0 {
      assert path[|path| - 1] == '/';
    } else {
      var init, last := name[..|name| - 1], name[|name| - 1];
      assert name == init + [last];
      assert path == (dir + "/" + init) + [last];
      assert path[..|path| - 1] == dir + "/" + init && path[|path| - 1] == last;
      BasenameInDirectory(dir, init);
      assert Basename(path) == Basename(dir + "/" + init) + [last];
    }
  }

  /** The search finds the leftmost match. */
  lemma FirstMonthIsLeftmost(s: string, i: nat)
    requires MonthAt(s, i)
    requires forall k :: 0 <= k < i ==> !MonthAt(s, k)
    ensures FirstMonthAt(s, 0) == Some(i)
  {
  }

  /** A file name made of a digit-free prefix, a year, a separator, a month and any rest is
      read as that year and month, or refused when the calendar refuses them. */
  lemma ReportingMonthOfName(dir: string, prefix: string, year: string, sep: char,
                             month: string, rest: string)
    requires forall i :: 0 <= i < |prefix| ==> !IsDigit(prefix[i]) && prefix[i] != '/'
    requires AllDigits(year) && |year| == 4 && AllDigits(month) && |month| == 2
    requires sep == '_' || sep == '-'
    requires '/' !in rest
    ensures var r := ExtractReportingMonth(dir + "/" + (prefix + year + [sep] + month + rest));
            if ValidDate(DecimalValue(year), DecimalValue(month))
            then r == Success(Date(DecimalValue(year), DecimalValue(month), 1))
            else r == Failure(DateOutOfRange)
  {
    var name := prefix + year + [sep] + month + rest;
    NameWithoutSlash(prefix, year, sep, month, rest);
    BasenameInDirectory(dir, name);
    MonthAfterPrefix(prefix, year, sep, month, rest);
  }

  /** The first match in such a name is the one right after the prefix. */
  lemma MonthAfterPrefix(prefix: string, year: string, sep: char, month: string, rest: string)
    requires forall i :: 0 <= i < |prefix| ==> !IsDigit(prefix[i])
    requires AllDigits(year) && |year| == 4 && AllDigits(month) && |month| == 2
    requires sep == '_' || sep == '-'
    ensures var name := prefix + year + [sep] + month + rest;
            var p := |prefix|;
            && FirstMonthAt(name, 0) == Some(p)
            && name[p..p + 4] == year && name[p + 5..p + 7] == month
  {
    var name := prefix + year + [sep] + month + rest;
    var p := |prefix|;
    assert name[p..p + 4] == year && name[p + 4] == sep && name[p + 5..p + 7] == month;
    forall k | 0 <= k < p ensures !MonthAt(name, k) {
      assert name[k..k + 4][0] == prefix[k];
    }
    FirstMonthIsLeftmost(name, p);
  }

  lemma NameWithoutSlash(prefix: string, year: string, sep: char, month: string, rest: string)
    requires forall i :: 0 <= i < |prefix| ==> prefix[i] != '/'
    requires AllDigits(year) && AllDigits(month) && sep != '/' && '/' !in rest
    ensures '/' !in prefix + year + [sep] + month + rest
  {
    var name := prefix + year + [sep] + month + rest;
    forall i | 0 <= i < |name| ensures name[i] != '/' {
      if i < |prefix| {
      } else if i < |prefix| + |year| {
        assert name[i] == year[i - |prefix|];
      } else if i == |prefix| + |year| {
      } else if i < |prefix| + |year| + 1 + |month| {
        assert name[i] == month[i - |prefix| - |year| - 1];
      } else {
        assert name[i] == rest[i - |prefix| - |year| - 1 - |month|];
      }
    }
  }

  /** The file name the docstring documents, `ST60_2024_06.csv`, reports June 2024; the `60_2`
      inside `ST60_2024` is not a match because a year needs four digits. */
  lemma DocumentedExample(name: string)
    requires name == "ST60_2024_06.csv"
    ensures ExtractReportingMonth(name) == Success(Date(2024, 6, 1))
  {
    BasenameOfName(name);
    DocumentedMonth(name);
    NoMonthBefore(name);
    FirstMonthIsLeftmost(name, 5);
  }

  lemma DocumentedMonth(name: string)
    requires name == "ST60_2024_06.csv"
    ensures MonthAt(name, 5)
    ensures DecimalValue(name[5..9]) == 2024 && DecimalValue(name[10..12]) == 6
  {
    assert name[5..9] == "2024";
    assert name[10..12] == "06";
    assert DecimalValue("2024") == 2024 by {
      assert "2024"[..3] == "202" && "202"[..2] == "20" && "20"[..1] == "2";
    }
    assert DecimalValue("06") == 6;
  }

  lemma NoMonthBefore(name: string)
    requires name == "ST60_2024_06.csv"
    ensures forall k :: 0 <= k < 5 ==> !MonthAt(name, k)
  {
    forall k | 0 <= k < 5 ensures !MonthAt(name, k) {
      if k == 0 {
        assert name[k..k + 4][0] == 'S';
      } else {
        assert name[k..k + 4][4 - k] == '_';
      }
    }
  }

  /** Only the first match counts: in `2024_2025_01.csv` it is `2024_20`, whose month 20 the
      calendar refuses, so the later `2025_01` is never considered. */
  lemma FirstMatchOnly(name: string)
    requires name == "2024_2025_01.csv"
    ensures ExtractReportingMonth(name) == Failure(DateOutOfRange)
  {
    BasenameOfName(name);
    LeadingMonth(name);
    FirstMonthIsLeftmost(name, 0);
  }

  lemma LeadingMonth(name: string)
    requires name == "2024_2025_01.csv"
    ensures MonthAt(name, 0) && DecimalValue(name[5..7]) == 20
  {
    assert name[0..4] == "2024";
    assert name[5..7] == "20";
    assert DecimalValue("20") == 20;
  }
}
