/** Calendar dates as the ingestion code builds them: a GEDCOM date argument
    "DD MON YYYY" is split on single spaces, day and year go through int(), the
    month through strptime('%b'), and the three through datetime.date, which
    rejects a year outside 1..9999 and a day outside the month. Differences of
    dates are day counts, as with Python's date subtraction: `Ordinal` is
    Python's proleptic Gregorian `date.toordinal()`. */
module Dates {

  import opened Common
  import opened Text

  datatype Date = Date(year: int, month: int, day: int)

  /** The range of years datetime.date accepts (datetime.MINYEAR, datetime.MAXYEAR). */
  const MinYear := 1
  const MaxYear := 9999

  predicate IsLeap(y: int)
  {
    y % 4 == 0 && (y % 100 != 0 || y % 400 == 0)
  }

  function DaysInYear(y: int): int
  {
    if IsLeap(y) then 366 else 365
  }

  function DaysInMonth(y: int, m: int): (n: int)
    requires 1 <= m <= 12
    ensures 28 <= n <= 31
  {
    if m == 2 then (if IsLeap(y) then 29 else 28)
    else if m == 4 || m == 6 || m == 9 || m == 11 then 30
    else 31
  }

  /** The dates datetime.date can represent. */
  predicate IsValid(d: Date)
  {
    MinYear <= d.year <= MaxYear && 1 <= d.month <= 12 && 1 <= d.day <= DaysInMonth(d.year, d.month)
  }

  /** A date datetime.date accepts. */
  type CalendarDate = d: Date | IsValid(d) witness Date(1, 1, 1)

  /** Days in the years 1 .. y-1. */
  function DaysBeforeYear(y: int): int
    requires y >= 1
  {
    var p := y - 1;
    p * 365 + p / 4 - p / 100 + p / 400
  }

  /** Days in the months 1 .. m-1 of year y. */
  function DaysBeforeMonth(y: int, m: int): (n: int)
    requires 1 <= m <= 12
    ensures n >= 0
  {
    if m == 1 then 0 else DaysBeforeMonth(y, m - 1) + DaysInMonth(y, m - 1)
  }

  /** `date.toordinal()`: 1 January of year 1 is day 1. */
  function Ordinal(d: Date): int
    requires IsValid(d)
  {
    DaysBeforeYear(d.year) + DaysBeforeMonth(d.year, d.month) + d.day
  }

  /** Chronological order of dates. */
  predicate Before(a: Date, b: Date)
  {
    || a.year < b.year
    || (a.year == b.year && a.month < b.month)
    || (a.year == b.year && a.month == b.month && a.day < b.day)
  }

  /** The calendar day after `d`. */
  function NextDay(d: Date): (e: Date)
    requires IsValid(d) && d != Date(MaxYear, 12, 31)
    ensures IsValid(e) && Before(d, e)
  {
    if d.day < DaysInMonth(d.year, d.month) then d.(day := d.day + 1)
    else if d.month < 12 then Date(d.year, d.month + 1, 1)
    else Date(d.year + 1, 1, 1)
  }

  lemma YearLength(y: int)
    requires y >= 1
    ensures DaysBeforeYear(y + 1) == DaysBeforeYear(y) + DaysInYear(y)
  {
    var p := y - 1;
    assert (p + 1) / 4 == p / 4 + (if y % 4 == 0 then 1 else 0);
    assert (p + 1) / 100 == p / 100 + (if y % 100 == 0 then 1 else 0);
    assert (p + 1) / 400 == p / 400 + (if y % 400 == 0 then 1 else 0);
  }

  lemma MonthsFillYear(y: int)
    ensures DaysBeforeMonth(y, 12) + DaysInMonth(y, 12) == DaysInYear(y)
  {
    assert DaysBeforeMonth(y, 2) == 31;
    assert DaysBeforeMonth(y, 3) == 31 + DaysInMonth(y, 2);
    assert DaysBeforeMonth(y, 4) == DaysBeforeMonth(y, 3) + 31;
    assert DaysBeforeMonth(y, 5) == DaysBeforeMonth(y, 4) + 30;
    assert DaysBeforeMonth(y, 6) == DaysBeforeMonth(y, 5) + 31;
    assert DaysBeforeMonth(y, 7) == DaysBeforeMonth(y, 6) + 30;
    assert DaysBeforeMonth(y, 8) == DaysBeforeMonth(y, 7) + 31;
    assert DaysBeforeMonth(y, 9) == DaysBeforeMonth(y, 8) + 31;
    assert DaysBeforeMonth(y, 10) == DaysBeforeMonth(y, 9) + 30;
    assert DaysBeforeMonth(y, 11) == DaysBeforeMonth(y, 10) + 31;
    assert DaysBeforeMonth(y, 12) == DaysBeforeMonth(y, 11) + 30;
  }

  lemma MonthsWithinYear(y: int, m: int)
    requires 1 <= m <= 12
    ensures DaysBeforeMonth(y, m) + DaysInMonth(y, m) <= DaysInYear(y)
  {
    MonthsFillYear(y);
    if m < 12 {
      MonthsIncrease(y, m, 12);
    }
  }

  lemma {:induction false} MonthsIncrease(y: int, m: int, m': int)
    requires 1 <= m < m' <= 12
    ensures DaysBeforeMonth(y, m) + DaysInMonth(y, m) <= DaysBeforeMonth(y, m')
  {
    if m' > m + 1 {
      MonthsIncrease(y, m, m' - 1);
    }
  }

  lemma {:induction false} YearsIncrease(y: int, y': int)
    requires 1 <= y < y'
    ensures DaysBeforeYear(y) + DaysInYear(y) <= DaysBeforeYear(y')
    decreases y' - y
  {
    YearLength(y);
    if y' > y + 1 {
      YearsIncrease(y + 1, y');
      YearLength(y + 1);
    }
  }

  /** The ordinal of a date lies inside its year's range of ordinals. */
  lemma OrdinalInYear(d: Date)
    requires IsValid(d)
    ensures DaysBeforeYear(d.year) < Ordinal(d) <= DaysBeforeYear(d.year) + DaysInYear(d.year)
  {
    MonthsWithinYear(d.year, d.month);
  }

  /** Ordinals follow the calendar: an earlier date has a smaller ordinal and
      conversely, so distinct dates have distinct ordinals. */
  lemma OrdinalOrder(a: Date, b: Date)
    requires IsValid(a) && IsValid(b)
    ensures Ordinal(a) < Ordinal(b) <==> Before(a, b)
    ensures Ordinal(a) == Ordinal(b) <==> a == b
  {
    OrdinalInYear(a);
    OrdinalInYear(b);
    if a.year < b.year {
      YearsIncrease(a.year, b.year);
    } else if b.year < a.year {
      YearsIncrease(b.year, a.year);
    } else if a.month < b.month {
      MonthsIncrease(a.year, a.month, b.month);
    } else if b.month < a.month {
      MonthsIncrease(a.year, b.month, a.month);
    }
  }

  /** Consecutive days have consecutive ordinals: the difference of two
      ordinals is the number of days between the dates. */
  lemma NextDayOrdinal(d: Date)
    requires IsValid(d) && d != Date(MaxYear, 12, 31)
    ensures Ordinal(NextDay(d)) == Ordinal(d) + 1
  {
    if d.day == DaysInMonth(d.year, d.month) && d.month == 12 {
      MonthsFillYear(d.year);
      YearLength(d.year);
    }
  }

  // ---------------------------------------------------------------------
  // Parsing a GEDCOM date argument.

  /** The month abbreviations strptime('%b') accepts in the C/English locale,
      lower-cased (strptime matches them ignoring case). */
  const MonthNames: seq<string> :=
    ["jan", "feb", "mar", "apr", "may", "jun", "jul", "aug", "sep", "oct", "nov", "dec"]

  /** `s` spells `name` when upper case is read as lower case. */
  predicate SpellsIgnoringCase(s: string, name: string)
  {
    |s| == |name| && forall k :: 0 <= k < |s| ==> LowerChar(s[k]) == name[k]
  }

  function MonthFrom(s: string, i: nat): (r: Option<int>)
    requires i <= 12
    ensures r.Some? ==> i < r.value <= 12 && SpellsIgnoringCase(s, MonthNames[r.value - 1])
    ensures r.Some? ==> forall j :: i <= j < r.value - 1 ==> !SpellsIgnoringCase(s, MonthNames[j])
    ensures r.None? ==> forall j :: i <= j < 12 ==> !SpellsIgnoringCase(s, MonthNames[j])
    decreases 12 - i
  {
    if i == 12 then None
    else if SpellsIgnoringCase(s, MonthNames[i]) then Some(i + 1)
    else MonthFrom(s, i + 1)
  }

  /** strptime(s, '%b').month, or None for the ValueError: the number of the
      month whose abbreviation `s` spells, ignoring case. */
  function MonthNumber(s: string): (r: Option<int>)
    ensures r.Some? ==> 1 <= r.value <= 12 && SpellsIgnoringCase(s, MonthNames[r.value - 1])
    ensures r.None? <==> forall j :: 0 <= j < 12 ==> !SpellsIgnoringCase(s, MonthNames[j])
  {
    MonthFrom(s, 0)
  }

  /** The month abbreviation GEDCOM writes (upper case). */
  function MonthAbbrev(m: int): (s: string)
    requires 1 <= m <= 12
    ensures |s| == 3
  {
    ["JAN", "FEB", "MAR", "APR", "MAY", "JUN", "JUL", "AUG", "SEP", "OCT", "NOV", "DEC"][m - 1]
  }

  lemma MonthNumberOfAbbrev(m: int)
    requires 1 <= m <= 12
    ensures MonthNumber(MonthAbbrev(m)) == Some(m)
    ensures ' ' !in MonthAbbrev(m) && IsWord(MonthAbbrev(m))
  {
    AbbrevSpellsName(m);
    forall j | 0 <= j < m - 1
      ensures !SpellsIgnoringCase(MonthAbbrev(m), MonthNames[j])
    {
      FirstLettersDiffer(m - 1, j);
    }
    FirstSpelledMonth(MonthAbbrev(m), m);
  }

  /** MonthNumber finds the first month whose name `s` spells. */
  lemma FirstSpelledMonth(s: string, m: int)
    requires 1 <= m <= 12 && SpellsIgnoringCase(s, MonthNames[m - 1])
    requires forall j :: 0 <= j < m - 1 ==> !SpellsIgnoringCase(s, MonthNames[j])
    ensures MonthNumber(s) == Some(m)
  {
    var r := MonthNumber(s);
    assert r.Some?;
    assert !(r.value < m);
  }

  lemma AbbrevSpellsName(m: int)
    requires 1 <= m <= 12
    ensures SpellsIgnoringCase(MonthAbbrev(m), MonthNames[m - 1])
    ensures ' ' !in MonthAbbrev(m) && IsWord(MonthAbbrev(m))
  {
    var s, t := MonthAbbrev(m), MonthNames[m - 1];
    assert LowerChar(s[0]) == t[0] && LowerChar(s[1]) == t[1] && LowerChar(s[2]) == t[2];
    assert !IsSpace(s[0]) && !IsSpace(s[1]) && !IsSpace(s[2]);
  }

  lemma FirstLettersDiffer(i: int, j: int)
    requires 0 <= j < i < 12
    ensures !SpellsIgnoringCase(MonthAbbrev(i + 1), MonthNames[j])
  {
    var s, t := MonthAbbrev(i + 1), MonthNames[j];
    assert LowerChar(s[0]) != t[0] || LowerChar(s[1]) != t[1] || LowerChar(s[2]) != t[2];
  }

  /** The conversion in process_family_record_date_tag and
      process_individual_record_date_tag, with its exceptions in the order in
      which Python raises them. */
  function ParseDate(s: string): (r: Result<CalendarDate>)
    ensures r.Ok? ==> Count(s, ' ') == 2
  {
    var parts := Split(s, ' ');
    if |parts| != 3 then Err(DateNotThreeFields)
    else match ParseNat(parts[0])
      case None => Err(DayNotInteger)
      case Some(day) =>
        match ParseNat(parts[2])
        case None => Err(YearNotInteger)
        case Some(year) =>
          match MonthNumber(parts[1])
          case None => Err(UnknownMonth)
          case Some(month) =>
            if !(MinYear <= year <= MaxYear) || !(1 <= day <= DaysInMonth(year, month)) then
              Err(DateOutOfRange)
            else
              Ok(Date(year, month, day))
  }

  /** When a date parses, and what it then means: exactly three fields, a
      day and a year that int() reads, a month strptime('%b') knows, and a
      combination datetime.date accepts; the result is the date those three
      fields spell. */
  lemma ParseDateFields(s: string)
    ensures var p, r := Split(s, ' '), ParseDate(s);
      && (r.Ok? <==>
            && |p| == 3
            && ParseNat(p[0]).Some? && ParseNat(p[2]).Some? && MonthNumber(p[1]).Some?
            && IsValid(Date(ParseNat(p[2]).value, MonthNumber(p[1]).value, ParseNat(p[0]).value)))
      && (r.Ok? ==>
            && |p| == 3
            && ParseNat(p[0]) == Some(r.value.day)
            && MonthNumber(p[1]) == Some(r.value.month)
            && ParseNat(p[2]) == Some(r.value.year))
  {
  }

  /** Which exception a malformed date raises: the field count first, then
      int() of the day, int() of the year, strptime of the month, and last the
      range checks of datetime.date. */
  lemma ParseDateFailures(s: string)
    ensures var p, r := Split(s, ' '), ParseDate(s);
      && (|p| != 3 ==> r == Err(DateNotThreeFields))
      && (|p| == 3 && ParseNat(p[0]).None? ==> r == Err(DayNotInteger))
      && (|p| == 3 && ParseNat(p[0]).Some? && ParseNat(p[2]).None? ==> r == Err(YearNotInteger))
      && (|p| == 3 && ParseNat(p[0]).Some? && ParseNat(p[2]).Some? && MonthNumber(p[1]).None? ==>
            r == Err(UnknownMonth))
      && (|p| == 3 && ParseNat(p[0]).Some? && ParseNat(p[2]).Some? && MonthNumber(p[1]).Some? &&
          !IsValid(Date(ParseNat(p[2]).value, MonthNumber(p[1]).value, ParseNat(p[0]).value)) ==>
            r == Err(DateOutOfRange))
  {
  }

  /** A date as a GEDCOM file writes it: "1 JAN 2000". */
  function FormatDate(d: Date): string
    requires IsValid(d)
  {
    Join([NatToString(d.day), MonthAbbrev(d.month), NatToString(d.year)], ' ')
  }

  /** Every date datetime.date can hold is read back from its GEDCOM form. */
  lemma ParseFormatDate(d: Date)
    requires IsValid(d)
    ensures ParseDate(FormatDate(d)) == Ok(d)
  {
    var parts := [NatToString(d.day), MonthAbbrev(d.month), NatToString(d.year)];
    DigitsAreWord(parts[0]);
    DigitsAreWord(parts[2]);
    MonthNumberOfAbbrev(d.month);
    SplitOfJoin(parts, ' ');
    ParseNatToString(d.day);
    ParseNatToString(d.year);
  }

  /** The age formula of setAge: whole 365-day periods between the dates,
      rounded down (Python's `//`), so negative when `reference` precedes `birth`. */
  function AgeInYears(reference: CalendarDate, birth: CalendarDate): (age: int)
    ensures age * 365 <= Ordinal(reference) - Ordinal(birth) < age * 365 + 365
    ensures age >= 0 <==> !Before(reference, birth)
  {
    OrdinalOrder(reference, birth);
    (Ordinal(reference) - Ordinal(birth)) / 365
  }
}
