/**
 * `find_latest_dated_folder` of update_instagram_data.py: scan the listing of the
 * reports directory, keep the sub-directories named `YYYY.MM.DD` that are real
 * calendar dates, and select the greatest date, the first one listed on a tie.
 */
module DatedFolder {
  import opened Wrappers
  import opened NameSets

  /** One item of `os.listdir(reports)`, with the answer of `os.path.isdir` for it. */
  datatype Entry = Entry(name: string, isDir: bool)

  /** A `datetime` at midnight, as `strptime(name, '%Y.%m.%d')` builds it. */
  datatype Date = Date(year: int, month: int, day: int)

  datatype Selection =
    | Latest(index: nat, name: string)  // the chosen folder and its position in the listing
    | ReportsDirNotFound                 // `os.listdir` raised FileNotFoundError
    | NoDatedFolder                      // nothing in the listing qualified

  predicate IsDigit(c: char) {
    '0' <= c <= '9'
  }

  predicate AllDigits(s: string) {
    forall i :: 0 <= i < |s| ==> IsDigit(s[i])
  }

  /** The regular expression `^\d{4}\.\d{2}\.\d{2}$`, over ASCII digits. */
  predicate MatchesDatePattern(name: string) {
    && |name| == 10
    && AllDigits(name[..4]) && name[4] == '.'
    && AllDigits(name[5..7]) && name[7] == '.'
    && AllDigits(name[8..])
  }

  function DigitValue(c: char): (d: nat)
    requires IsDigit(c)
    ensures d <= 9
  {
    c as int - '0' as int
  }

  /** The decimal number a digit string spells, leading zeros included. */
  function DigitsValue(s: string): nat
    requires AllDigits(s)
    decreases |s|
  {
    if s == [] then 0 else 10 * DigitsValue(s[..|s| - 1]) + DigitValue(s[|s| - 1])
  }

  /** The three fields of a name matching the pattern, before any calendar check. */
  function Fields(name: string): Date
    requires MatchesDatePattern(name)
  {
    Date(DigitsValue(name[..4]), DigitsValue(name[5..7]), DigitsValue(name[8..]))
  }

  predicate IsLeapYear(y: int) {
    y % 4 == 0 && (y % 100 != 0 || y % 400 == 0)
  }

  function DaysInMonth(y: int, m: int): (n: int)
    requires 1 <= m <= 12
    ensures 28 <= n <= 31
    ensures n == 29 <==> m == 2 && IsLeapYear(y)
  {
    if m == 2 then (if IsLeapYear(y) then 29 else 28)
    else if m == 4 || m == 6 || m == 9 || m == 11 then 30
    else 31
  }

  /**
   * What `datetime` accepts: a year from 1 to 9999 (`MINYEAR` to `MAXYEAR`), a month, and
   * a day inside that month (proleptic Gregorian).
   */
  predicate ValidDate(d: Date) {
    1 <= d.year <= 9999 && 1 <= d.month <= 12 && 1 <= d.day <= DaysInMonth(d.year, d.month)
  }

  /** `datetime.strptime(name, '%Y.%m.%d')` on a name the pattern accepted; `None` is its ValueError. */
  function ParseDate(name: string): (r: Option<Date>)
    requires MatchesDatePattern(name)
    ensures r.None? <==> !ValidDate(Fields(name))
    ensures r.Some? ==> ValidDate(r.value) && r.value == Fields(name)
  {
    var d := Fields(name);
    if ValidDate(d) then Some(d) else None
  }

  /** `a < b` on `datetime` values at midnight. */
  predicate Before(a: Date, b: Date) {
    a.year < b.year || (a.year == b.year && (a.month < b.month || (a.month == b.month && a.day < b.day)))
  }

  /** An item the loop considers: a directory, named by the pattern, naming a real date. */
  predicate IsCandidate(e: Entry) {
    e.isDir && MatchesDatePattern(e.name) && ParseDate(e.name).Some?
  }

  function DateOf(e: Entry): Date
    requires IsCandidate(e)
  {
    ParseDate(e.name).value
  }

  predicate HasCandidate(listing: seq<Entry>) {
    exists j :: 0 <= j < |listing| && IsCandidate(listing[j])
  }

  /**
   * Position `k` holds the selected folder: its date is not before any candidate's,
   * and every candidate listed earlier has a strictly earlier date.
   */
  ghost predicate IsLatest(listing: seq<Entry>, k: int) {
    && 0 <= k < |listing| && IsCandidate(listing[k])
    && (forall j :: 0 <= j < |listing| && IsCandidate(listing[j]) ==> !Before(DateOf(listing[k]), DateOf(listing[j])))
    && (forall j :: 0 <= j < k && IsCandidate(listing[j]) ==> Before(DateOf(listing[j]), DateOf(listing[k])))
  }

  /** The listing is `None` when the reports directory does not exist. */
  method FindLatestDatedFolder(listing: Option<seq<Entry>>) returns (r: Selection)
    ensures listing.None? <==> r == ReportsDirNotFound
    ensures listing.Some? ==> (r == NoDatedFolder <==> !HasCandidate(listing.value))
    ensures r.Latest? ==> listing.Some? && IsLatest(listing.value, r.index) && r.name == listing.value[r.index].name
  {
    if listing.None? {
      return ReportsDirNotFound;
    }
    var items := listing.value;
    var latestDate: Option<Date> := None;
    var latestIndex := 0;
    for i := 0 to |items|
      invariant latestDate.None? <==> forall j :: 0 <= j < i ==> !IsCandidate(items[j])
      invariant latestDate.Some? ==> latestIndex < i && IsCandidate(items[latestIndex]) && latestDate.value == DateOf(items[latestIndex])
      invariant latestDate.Some? ==> forall j :: 0 <= j < i && IsCandidate(items[j]) ==> !Before(latestDate.value, DateOf(items[j]))
      invariant latestDate.Some? ==> forall j :: 0 <= j < latestIndex && IsCandidate(items[j]) ==> Before(DateOf(items[j]), latestDate.value)
    {
      var item := items[i];
      if item.isDir && MatchesDatePattern(item.name) {
        var current := ParseDate(item.name);
        if current.Some? {
          if latestDate.None? || Before(latestDate.value, current.value) {
            latestDate := current;
            latestIndex := i;
          }
        }
      }
    }
    if latestDate.Some? {
      r := Latest(latestIndex, items[latestIndex].name);
    } else {
      r := NoDatedFolder;
    }
  }

  // ---- Folder names and dates convert into each other ----

  function DigitChar(d: nat): (c: char)
    requires d <= 9
    ensures IsDigit(c) && DigitValue(c) == d
  {
    ('0' as int + d) as char
  }

  /** The last `width` decimal digits of `n`, zero-padded: `%0<width>d` for `n` below 10^width. */
  function PadDigits(n: nat, width: nat): (s: string)
    ensures |s| == width && AllDigits(s)
    decreases width
  {
    if width == 0 then [] else PadDigits(n / 10, width - 1) + [DigitChar(n % 10)]
  }

  function Pow10(k: nat): nat {
    if k == 0 then 1 else 10 * Pow10(k - 1)
  }

  /** The zero-padded `YYYY.MM.DD` folder name of a date. */
  function Format(d: Date): (name: string)
    requires ValidDate(d)
    ensures MatchesDatePattern(name)
  {
    PadDigits(d.year, 4) + "." + PadDigits(d.month, 2) + "." + PadDigits(d.day, 2)
  }

  /** Writing a digit string's value back in as many digits gives the string itself. */
  lemma {:induction false} PadDigitsOfValue(s: string)
    requires AllDigits(s)
    ensures PadDigits(DigitsValue(s), |s|) == s
    decreases |s|
  {
    if s != [] {
      var n := |s| - 1;
      var v := DigitsValue(s);
      assert v / 10 == DigitsValue(s[..n]) && v % 10 == DigitValue(s[n]);
      PadDigitsOfValue(s[..n]);
      assert DigitChar(DigitValue(s[n])) == s[n];
      assert s == s[..n] + [s[n]];
    }
  }

  /** A number below 10^width reads back from its padded digits. */
  lemma {:induction false} ValueOfPadDigits(n: nat, width: nat)
    requires n < Pow10(width)
    ensures DigitsValue(PadDigits(n, width)) == n
    decreases width
  {
    if width > 0 {
      ValueOfPadDigits(n / 10, width - 1);
      var s := PadDigits(n, width);
      assert s[..width - 1] == PadDigits(n / 10, width - 1);
      assert s[width - 1] == DigitChar(n % 10);
    }
  }

  /** Formatting the date parsed from a folder name gives back that name. */
  lemma FormatInvertsParse(name: string)
    requires MatchesDatePattern(name) && ParseDate(name).Some?
    ensures Format(ParseDate(name).value) == name
  {
    PadDigitsOfValue(name[..4]);
    PadDigitsOfValue(name[5..7]);
    PadDigitsOfValue(name[8..]);
    assert name == name[..4] + "." + name[5..7] + "." + name[8..];
  }

  /** Every date `datetime` accepts has a folder name, and parsing it gives the date back. */
  lemma ParseInvertsFormat(d: Date)
    requires ValidDate(d)
    ensures ParseDate(Format(d)) == Some(d)
  {
    var name := Format(d);
    assert Pow10(2) == 100 && Pow10(4) == 10000;
    ValueOfPadDigits(d.year, 4);
    ValueOfPadDigits(d.month, 2);
    ValueOfPadDigits(d.day, 2);
    assert name[..4] == PadDigits(d.year, 4);
    assert name[5..7] == PadDigits(d.month, 2);
    assert name[8..] == PadDigits(d.day, 2);
  }

  /** The pattern is anchored and fixed-width: near misses are not folder names. */
  lemma NearMissesDoNotMatch()
    ensures !MatchesDatePattern("2024.1.05")
    ensures !MatchesDatePattern("2024-01-05")
    ensures !MatchesDatePattern("2024.01.050")
    ensures !MatchesDatePattern("x2024.01.05")
    ensures !MatchesDatePattern("2024.0a.05")
  {
    assert !IsDigit("2024.0a.05"[5..7][1]);
  }

  /** At most one position satisfies `IsLatest`: the selection does not depend on a choice. */
  lemma LatestIsUnique(listing: seq<Entry>, k1: int, k2: int)
    requires IsLatest(listing, k1) && IsLatest(listing, k2)
    ensures k1 == k2
  {
  }

  /** The fields of a matching name, digit by digit. */
  lemma FieldsByPosition(name: string)
    requires MatchesDatePattern(name)
    ensures Fields(name).year == 1000 * DigitValue(name[0]) + 100 * DigitValue(name[1]) + 10 * DigitValue(name[2]) + DigitValue(name[3])
    ensures Fields(name).month == 10 * DigitValue(name[5]) + DigitValue(name[6])
    ensures Fields(name).day == 10 * DigitValue(name[8]) + DigitValue(name[9])
  {
    TwoDigits(name[5..7]);
    TwoDigits(name[8..]);
    var y := name[..4];
    TwoDigits(y[..2]);
    assert DigitsValue(y[..3]) == 10 * DigitsValue(y[..2]) + DigitValue(y[2]) by {
      assert y[..3][..2] == y[..2];
    }
    assert DigitsValue(y) == 10 * DigitsValue(y[..3]) + DigitValue(y[3]);
  }

  lemma TwoDigits(s: string)
    requires |s| == 2 && AllDigits(s)
    ensures DigitsValue(s) == 10 * DigitValue(s[0]) + DigitValue(s[1])
  {
    assert s[..1][..0] == [];
    assert DigitsValue(s[..1]) == DigitValue(s[0]);
  }

  /** Names skipped because `strptime` rejects them although they match the pattern. */
  lemma MonthThirteenIsSkipped()
    ensures MatchesDatePattern("2024.13.01") && ParseDate("2024.13.01").None?
  {
    FieldsByPosition("2024.13.01");
  }

  lemma ThirtyFirstOfAprilIsSkipped()
    ensures MatchesDatePattern("2024.04.31") && ParseDate("2024.04.31").None?
  {
    FieldsByPosition("2024.04.31");
  }

  lemma NonLeapFebruary29IsSkipped()
    ensures MatchesDatePattern("2023.02.29") && ParseDate("2023.02.29").None?
    ensures MatchesDatePattern("1900.02.29") && ParseDate("1900.02.29").None?
  {
    FieldsByPosition("2023.02.29");
    FieldsByPosition("1900.02.29");
  }

  lemma LeapFebruary29IsAccepted()
    ensures MatchesDatePattern("2024.02.29") && ParseDate("2024.02.29") == Some(Date(2024, 2, 29))
    ensures MatchesDatePattern("2000.02.29") && ParseDate("2000.02.29") == Some(Date(2000, 2, 29))
  {
    FieldsByPosition("2024.02.29");
    FieldsByPosition("2000.02.29");
    assert 2000 % 400 == 0 && IsLeapYear(2000);
  }

  lemma YearZeroIsSkipped()
    ensures MatchesDatePattern("0000.01.01") && ParseDate("0000.01.01").None?
  {
    FieldsByPosition("0000.01.01");
  }

  // ---- Date order agrees with the order of the fixed-width names ----

  /** Comparing two equal-length strings: the first `k` characters decide unless they agree. */
  lemma {:induction false} LexSplit(a: string, b: string, k: nat)
    requires |a| == |b| && k <= |a|
    ensures LexLess(a, b) <==> LexLess(a[..k], b[..k]) || (a[..k] == b[..k] && LexLess(a[k..], b[k..]))
    decreases k
  {
    if k == 0 {
      assert a[..0] == b[..0] && a[0..] == a && b[0..] == b;
    } else {
      LexSplit(a[1..], b[1..], k - 1);
      assert a[..k][1..] == a[1..][..k - 1] && b[..k][1..] == b[1..][..k - 1];
      assert a[1..][k - 1..] == a[k..] && b[1..][k - 1..] == b[k..];
      assert a[..k] == [a[0]] + a[1..][..k - 1] && b[..k] == [b[0]] + b[1..][..k - 1];
    }
  }

  /** On digit strings of one width, string order is numeric order. */
  lemma {:induction false} DigitsOrder(s: string, t: string)
    requires |s| == |t| && AllDigits(s) && AllDigits(t)
    ensures LexLess(s, t) <==> DigitsValue(s) < DigitsValue(t)
    ensures s == t <==> DigitsValue(s) == DigitsValue(t)
    decreases |s|
  {
    if s != [] {
      var n := |s| - 1;
      var s', t' := s[..n], t[..n];
      DigitsOrder(s', t');
      LexSplit(s, t, n);
      assert s[n..] == [s[n]] && t[n..] == [t[n]];
      assert LexLess(s[n..], t[n..]) <==> s[n] < t[n];
      assert s == s' + [s[n]] && t == t' + [t[n]];
    }
  }

  /** For names matching the pattern, `Before` on their fields is `<` on the names themselves. */
  lemma DateOrderIsNameOrder(a: string, b: string)
    requires MatchesDatePattern(a) && MatchesDatePattern(b)
    ensures Before(Fields(a), Fields(b)) <==> LexLess(a, b)
  {
    LexSplit(a, b, 4);
    DigitsOrder(a[..4], b[..4]);
    var a1, b1 := a[4..], b[4..];
    assert a1[1..] == a[5..] && b1[1..] == b[5..];
    assert LexLess(a1, b1) <==> LexLess(a[5..], b[5..]);
    var a2, b2 := a[5..], b[5..];
    LexSplit(a2, b2, 2);
    assert a2[..2] == a[5..7] && b2[..2] == b[5..7];
    DigitsOrder(a[5..7], b[5..7]);
    var a3, b3 := a2[2..], b2[2..];
    assert a3[1..] == a[8..] && b3[1..] == b[8..];
    assert a3[0] == '.' && b3[0] == '.';
    assert LexLess(a3, b3) <==> LexLess(a[8..], b[8..]);
    DigitsOrder(a[8..], b[8..]);
  }

  /**
   * The selected folder's name is not below any candidate's name in string order, and
   * every candidate listed before it has a strictly smaller name.
   */
  lemma LatestHasGreatestName(listing: seq<Entry>, k: int)
    requires IsLatest(listing, k)
    ensures forall j :: 0 <= j < |listing| && IsCandidate(listing[j]) ==> !LexLess(listing[k].name, listing[j].name)
    ensures forall j :: 0 <= j < k && IsCandidate(listing[j]) ==> LexLess(listing[j].name, listing[k].name)
  {
    forall j | 0 <= j < |listing| && IsCandidate(listing[j])
      ensures !LexLess(listing[k].name, listing[j].name)
      ensures j < k ==> LexLess(listing[j].name, listing[k].name)
    {
      DateOrderIsNameOrder(listing[k].name, listing[j].name);
      DateOrderIsNameOrder(listing[j].name, listing[k].name);
    }
  }
}
