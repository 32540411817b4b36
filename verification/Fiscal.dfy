/**
 Fiscal calendars: _generate_monthly_periods and the default fiscal year of
 src/erp/auth/provisioning.py, over the country table of src/erp/auth/fiscal_years.py.
 */
module Fiscal {
  import opened Wrappers
  import opened Math

  datatype Date = Date(year: int, month: int, day: int)

  datatype Period = Period(fiscalYear: int, number: int, start: Date, end: Date)

  // ---------------------------------------------------------------- the Gregorian calendar

  predicate IsLeap(year: int) {
    year % 4 == 0 && (year % 100 != 0 || year % 400 == 0)
  }

  function MonthDays(year: int, month: int): int {
    if month == 2 then (if IsLeap(year) then 29 else 28)
    else if month == 4 || month == 6 || month == 9 || month == 11 then 30
    else 31
  }

  const MAX_YEAR := 9999

  /** The values of Python's `date`. */
  predicate Valid(d: Date) {
    1 <= d.year <= MAX_YEAR && 1 <= d.month <= 12 && 1 <= d.day <= MonthDays(d.year, d.month)
  }

  predicate Before(a: Date, b: Date) {
    a.year < b.year || (a.year == b.year && (a.month < b.month || (a.month == b.month && a.day < b.day)))
  }

  predicate AtMost(a: Date, b: Date) {
    !Before(b, a)
  }

  function NextDay(d: Date): Date {
    if d.day < MonthDays(d.year, d.month) then d.(day := d.day + 1)
    else if d.month < 12 then Date(d.year, d.month + 1, 1)
    else Date(d.year + 1, 1, 1)
  }

  /** February has a day more in every fourth year, but not in centuries that 400 does not divide. */
  lemma GregorianMonths(year: int, month: int)
    requires 1 <= month <= 12
    ensures month == 2 ==> MonthDays(year, 2) == if year % 4 == 0 && !(year % 100 == 0 && year % 400 != 0) then 29 else 28
    ensures month != 2 ==> MonthDays(year, month) == [31, 28, 31, 30, 31, 30, 31, 31, 30, 31, 30, 31][month - 1]
  {
  }

  /** Months counted from the start of year 0. */
  function MonthIndex(d: Date): int {
    12 * d.year + d.month - 1
  }

  function NextMonth(d: Date): Date {
    if d.month == 12 then Date(d.year + 1, 1, 1) else Date(d.year, d.month + 1, 1)
  }

  function MonthEnd(d: Date): Date {
    Date(d.year, d.month, MonthDays(d.year, d.month))
  }

  lemma BeforeByMonth(a: Date, b: Date)
    requires 1 <= a.month <= 12 && 1 <= b.month <= 12
    ensures Before(a, b) <==> MonthIndex(a) < MonthIndex(b) || (MonthIndex(a) == MonthIndex(b) && a.day < b.day)
    ensures MonthIndex(a) == MonthIndex(b) <==> a.year == b.year && a.month == b.month
  {
  }

  // ---------------------------------------------------------------- the generator

  /** The start of the i-th period, counted from 0. */
  function Cursor(start: Date, i: nat): Date {
    if i == 0 then start else NextMonth(Cursor(start, i - 1))
  }

  lemma {:induction false} CursorMonth(start: Date, i: nat)
    requires Valid(start)
    ensures 1 <= Cursor(start, i).month <= 12
    ensures MonthIndex(Cursor(start, i)) == MonthIndex(start) + i
    ensures 1 <= Cursor(start, i).day <= MonthDays(Cursor(start, i).year, Cursor(start, i).month)
    ensures i > 0 ==> Cursor(start, i).day == 1
  {
    if i > 0 {
      CursorMonth(start, i - 1);
    }
  }

  function Earlier(a: Date, b: Date): Date {
    if Before(b, a) then b else a
  }

  function PeriodAt(start: Date, end: Date, fiscalYear: int, i: nat): Period {
    Period(fiscalYear, i + 1, Cursor(start, i), Earlier(MonthEnd(Cursor(start, i)), end))
  }

  /** Months between the month of `start` and the month of `end`. */
  function Span(start: Date, end: Date): int {
    MonthIndex(end) - MonthIndex(start)
  }

  /** How many periods are generated: none for a day or less, and never more than 12. */
  function Count(start: Date, end: Date): (n: nat)
    ensures n <= 12
  {
    if Before(start, end) then Max(0, Min(12, if end.day == 1 then Span(start, end) else Span(start, end) + 1)) else 0
  }

  /** The first `n` periods. */
  function FirstPeriods(start: Date, end: Date, fiscalYear: int, n: nat): seq<Period> {
    seq(n, i requires 0 <= i => PeriodAt(start, end, fiscalYear, i))
  }

  function Periods(start: Date, end: Date, fiscalYear: int): seq<Period> {
    FirstPeriods(start, end, fiscalYear, Count(start, end))
  }

  /** The month after the last period would lie in year 10000. */
  predicate Overflows(start: Date, end: Date) {
    0 < Count(start, end) && MonthIndex(start) + Count(start, end) > 12 * MAX_YEAR + 11
  }

  lemma CursorBelowEnd(start: Date, end: Date, i: nat)
    requires Valid(start) && Valid(end)
    ensures i < Count(start, end) <==> i < 12 && Before(Cursor(start, i), end)
  {
    CursorMonth(start, i);
    BeforeByMonth(start, end);
    BeforeByMonth(Cursor(start, i), end);
  }

  /** One iteration: the period at the cursor, and whether there is a month after it. */
  lemma CursorStep(start: Date, end: Date, fiscalYear: int, i: nat, curr: Date)
    requires Valid(start) && Valid(end) && curr == Cursor(start, i) && Valid(curr) && i < Count(start, end)
    ensures FirstPeriods(start, end, fiscalYear, i + 1)
         == FirstPeriods(start, end, fiscalYear, i) + [Period(fiscalYear, i + 1, curr, Earlier(MonthEnd(curr), end))]
    ensures NextMonth(curr) == Cursor(start, i + 1)
    ensures if curr.month == 12 && curr.year == MAX_YEAR then Overflows(start, end) else Valid(NextMonth(curr))
  {
    CursorMonth(start, i);
  }

  lemma CursorAtEnd(start: Date, end: Date, curr: Date)
    requires Valid(start) && Valid(end) && curr == Cursor(start, Count(start, end)) && Valid(curr)
    ensures !Overflows(start, end)
  {
    CursorMonth(start, Count(start, end));
  }

  /** The generator fails exactly when its last period would be December 9999. */
  lemma OverflowsExactlyWhen(start: Date, end: Date, fiscalYear: int)
    requires Valid(start) && Valid(end)
    ensures var ps := Periods(start, end, fiscalYear);
            Overflows(start, end) <==> ps != [] && ps[|ps| - 1].start.year == 9999 && ps[|ps| - 1].start.month == 12
  {
    var n := Count(start, end);
    if n > 0 {
      CursorMonth(start, n - 1);
      CursorBelowEnd(start, end, n - 1);
      BeforeByMonth(Cursor(start, n - 1), end);
    }
  }

  /** None is the ValueError of a date beyond the last year. */
  method GenerateMonthlyPeriods(start: Date, end: Date, fiscalYear: int) returns (r: Option<seq<Period>>)
    requires Valid(start) && Valid(end)
    ensures r == if Overflows(start, end) then None else Some(Periods(start, end, fiscalYear))
  {
    var periods: seq<Period> := [];
    var curr, periodNum := start, 1;
    CursorBelowEnd(start, end, 0);
    while Before(curr, end) && periodNum <= 12
      invariant 1 <= periodNum <= 13 && periodNum - 1 <= Count(start, end)
      invariant curr == Cursor(start, periodNum - 1) && Valid(curr)
      invariant periods == FirstPeriods(start, end, fiscalYear, periodNum - 1)
      decreases 13 - periodNum
    {
      CursorBelowEnd(start, end, periodNum - 1);
      CursorStep(start, end, fiscalYear, periodNum - 1, curr);
      var pEnd := Date(curr.year, curr.month, MonthDays(curr.year, curr.month));
      if Before(end, pEnd) {
        pEnd := end;
      }
      periods := periods + [Period(fiscalYear, periodNum, curr, pEnd)];
      if curr.month == 12 {
        if curr.year == MAX_YEAR {
          return None;
        }
        curr := Date(curr.year + 1, 1, 1);
      } else {
        curr := Date(curr.year, curr.month + 1, 1);
      }
      periodNum := periodNum + 1;
    }
    CursorBelowEnd(start, end, periodNum - 1);
    CursorAtEnd(start, end, curr);
    return Some(periods);
  }

  // ---------------------------------------------------------------- partitions

  predicate In(d: Date, p: Period) {
    AtMost(p.start, d) && AtMost(d, p.end)
  }

  /** Periods are numbered from 1, start where they should, never pass the end, and leave no gap. */
  lemma PeriodsAreContiguous(start: Date, end: Date, fiscalYear: int, i: nat)
    requires Valid(start) && Valid(end) && i < Count(start, end)
    ensures var ps := Periods(start, end, fiscalYear);
            && ps[i].number == i + 1 && ps[i].fiscalYear == fiscalYear
            && ps[0].start == start
            && AtMost(ps[i].start, ps[i].end) && AtMost(ps[i].end, end)
            && (i + 1 < |ps| ==> ps[i + 1].start == NextDay(ps[i].end))
  {
    var first := Cursor(start, i);
    CursorBelowEnd(start, end, i);
    CursorMonth(start, i);
    BeforeByMonth(MonthEnd(first), first);
    if i + 1 < Count(start, end) {
      CursorBelowEnd(start, end, i + 1);
      CursorMonth(start, i + 1);
      BeforeByMonth(Cursor(start, i + 1), end);
      BeforeByMonth(end, MonthEnd(first));
    }
  }

  /** A date lies in the i-th period exactly when it lies in its month, from the start to the end. */
  lemma InByMonth(start: Date, end: Date, fiscalYear: int, d: Date, i: nat)
    requires Valid(start) && Valid(end) && Valid(d)
    ensures In(d, PeriodAt(start, end, fiscalYear, i))
        <==> MonthIndex(d) == MonthIndex(start) + i && AtMost(start, d) && AtMost(d, end)
  {
    var first := Cursor(start, i);
    CursorMonth(start, i);
    BeforeByMonth(d, start);
    BeforeByMonth(d, first);
    BeforeByMonth(MonthEnd(first), d);
    BeforeByMonth(end, d);
    BeforeByMonth(end, MonthEnd(first));
  }

  /** No date lies in two periods. */
  lemma PeriodsAreDisjoint(start: Date, end: Date, fiscalYear: int, d: Date, i: nat, j: nat)
    requires Valid(start) && Valid(end) && Valid(d)
    requires In(d, PeriodAt(start, end, fiscalYear, i)) && In(d, PeriodAt(start, end, fiscalYear, j))
    ensures i == j
  {
    InByMonth(start, end, fiscalYear, d, i);
    InByMonth(start, end, fiscalYear, d, j);
  }

  predicate CoveredBy(d: Date, ps: seq<Period>) {
    exists i :: 0 <= i < |ps| && In(d, ps[i])
  }

  lemma CoveredByMonth(start: Date, end: Date, fiscalYear: int, d: Date)
    requires Valid(start) && Valid(end) && Valid(d)
    ensures CoveredBy(d, Periods(start, end, fiscalYear))
        <==> AtMost(start, d) && AtMost(d, end) && MonthIndex(d) - MonthIndex(start) < Count(start, end)
  {
    var ps := Periods(start, end, fiscalYear);
    BeforeByMonth(d, start);
    if CoveredBy(d, ps) {
      var i :| 0 <= i < |ps| && In(d, ps[i]);
      InByMonth(start, end, fiscalYear, d, i);
    }
    if AtMost(start, d) && AtMost(d, end) && MonthIndex(d) - MonthIndex(start) < Count(start, end) {
      var i := MonthIndex(d) - MonthIndex(start);
      InByMonth(start, end, fiscalYear, d, i);
      assert In(d, ps[i]);
    }
  }

  ghost predicate CoversAll(start: Date, end: Date, ps: seq<Period>) {
    forall d :: Valid(d) && AtMost(start, d) && AtMost(d, end) ==> CoveredBy(d, ps)
  }

  /**
   The periods cover the whole fiscal year exactly when it is empty, or it ends after it starts, not
   on the first of a month, and touches at most 12 months. A year that starts and ends on one day,
   or that ends on the first of a month, leaves its last day in no period.
   */
  lemma PeriodsCoverExactlyWhen(start: Date, end: Date, fiscalYear: int)
    requires Valid(start) && Valid(end)
    ensures CoversAll(start, end, Periods(start, end, fiscalYear))
        <==> Before(end, start) || (Before(start, end) && end.day != 1 && Span(start, end) <= 11)
  {
    var ps := Periods(start, end, fiscalYear);
    BeforeByMonth(start, end);
    BeforeByMonth(end, start);
    if CoversAll(start, end, ps) && !Before(end, start) {
      assert Valid(end) && AtMost(start, end) && AtMost(end, end);
      assert CoveredBy(end, ps);
      CoveredByMonth(start, end, fiscalYear, end);
    }
    if Before(end, start) || (Before(start, end) && end.day != 1 && Span(start, end) <= 11) {
      forall d | Valid(d) && AtMost(start, d) && AtMost(d, end) ensures CoveredBy(d, ps) {
        BeforeByMonth(d, start);
        BeforeByMonth(end, d);
        CoveredByMonth(start, end, fiscalYear, d);
      }
    }
  }

  /** A fiscal year gets no period exactly when it does not end after it starts; one day is too short. */
  lemma NoPeriodExactlyWhen(start: Date, end: Date, fiscalYear: int)
    requires Valid(start) && Valid(end)
    ensures Periods(start, end, fiscalYear) == [] <==> !Before(start, end)
  {
    BeforeByMonth(start, end);
  }

  // ---------------------------------------------------------------- default fiscal years

  /** fiscal_year_start and fiscal_year_end of a country, as month and day. */
  datatype Localization = Localization(startMonth: int, startDay: int, endMonth: int, endDay: int)

  const CALENDAR_YEAR := Localization(1, 1, 12, 31)
  const APRIL_YEAR := Localization(4, 1, 3, 31)
  const JULY_YEAR := Localization(7, 1, 6, 30)
  const MARCH_YEAR := Localization(3, 1, 2, 28)

  const COUNTRY_LOCALIZATIONS: seq<(string, Localization)> := [
    ("Pakistan", JULY_YEAR), ("United States", CALENDAR_YEAR), ("United Kingdom", APRIL_YEAR),
    ("India", APRIL_YEAR), ("United Arab Emirates", CALENDAR_YEAR), ("Saudi Arabia", CALENDAR_YEAR),
    ("Australia", JULY_YEAR), ("Canada", CALENDAR_YEAR), ("Germany", CALENDAR_YEAR),
    ("France", CALENDAR_YEAR), ("Singapore", APRIL_YEAR), ("Netherlands", CALENDAR_YEAR),
    ("New Zealand", APRIL_YEAR), ("South Africa", MARCH_YEAR), ("Turkey", CALENDAR_YEAR),
    ("Indonesia", CALENDAR_YEAR), ("Mexico", CALENDAR_YEAR), ("Brazil", CALENDAR_YEAR),
    ("Egypt", JULY_YEAR), ("Bangladesh", JULY_YEAR)]

  /** The first row whose name, seen through `key`, is `name`. */
  function Find(rows: seq<(string, Localization)>, key: string -> string, name: string): Option<Localization> {
    if rows == [] then None
    else if key(rows[0].0) == name then Some(rows[0].1)
    else Find(rows[1..], key, name)
  }

  /** By exact name, then ignoring case, then the calendar year. */
  function GetCountryInfo(country: string, lower: string -> string): Localization {
    var exact := Find(COUNTRY_LOCALIZATIONS, (s: string) => s, country);
    var folded := Find(COUNTRY_LOCALIZATIONS, lower, lower(country));
    if exact.Some? then exact.value else if folded.Some? then folded.value else CALENDAR_YEAR
  }

  /** Twelve months from the first of one month to the last of the month before it. */
  predicate Aligned(c: Localization) {
    c == CALENDAR_YEAR || c == APRIL_YEAR || c == JULY_YEAR || c == MARCH_YEAR
  }

  lemma {:induction false} FindAligned(rows: seq<(string, Localization)>, key: string -> string, name: string)
    requires forall i :: 0 <= i < |rows| ==> Aligned(rows[i].1)
    ensures Find(rows, key, name).Some? ==> Aligned(Find(rows, key, name).value)
  {
    if rows != [] {
      FindAligned(rows[1..], key, name);
    }
  }

  lemma CountryInfoAligned(country: string, lower: string -> string)
    ensures Aligned(GetCountryInfo(country, lower))
  {
    FindAligned(COUNTRY_LOCALIZATIONS, (s: string) => s, country);
    FindAligned(COUNTRY_LOCALIZATIONS, lower, lower(country));
  }

  /** No row before `i` has the name `name`, seen through `key`. */
  predicate FirstAt(rows: seq<(string, Localization)>, key: string -> string, name: string, i: nat) {
    i < |rows| && key(rows[i].0) == name && forall j :: 0 <= j < i ==> key(rows[j].0) != name
  }

  lemma {:induction false} FindIsFirst(rows: seq<(string, Localization)>, key: string -> string, name: string, i: nat)
    requires FirstAt(rows, key, name, i)
    ensures Find(rows, key, name) == Some(rows[i].1)
  {
    if i > 0 {
      assert rows[0] == rows[0];
      assert forall j :: 0 <= j < i - 1 ==> rows[1..][j] == rows[j + 1];
      FindIsFirst(rows[1..], key, name, i - 1);
    }
  }

  lemma {:induction false} FindsNothing(rows: seq<(string, Localization)>, key: string -> string, name: string)
    requires forall j :: 0 <= j < |rows| ==> key(rows[j].0) != name
    ensures Find(rows, key, name) == None
  {
    if rows != [] {
      FindsNothing(rows[1..], key, name);
    }
  }

  /** Names of different lengths, or with another letter somewhere, are different. */
  predicate NamesApart(rows: seq<(string, Localization)>) {
    forall i, j :: 0 <= i < j < |rows| ==> rows[i].0 != rows[j].0
  }

  lemma {:induction false} OneRowAName(rows: seq<(string, Localization)>, i: nat)
    requires NamesApart(rows) && i < |rows|
    ensures FirstAt(rows, (s: string) => s, rows[i].0, i)
  {
  }

  lemma CountryNamesApart()
    ensures NamesApart(COUNTRY_LOCALIZATIONS)
  {
  }

  /**
   Every row's own name gives its year. A name that is no row's gives the year of the first row whose folded
   name is the same, and without such a row the year from January to December.
   */
  lemma CountryInfoIs(country: string, lower: string -> string)
    ensures var rows, c := COUNTRY_LOCALIZATIONS, GetCountryInfo(country, lower);
            && (forall i :: 0 <= i < |rows| && rows[i].0 == country ==> c == rows[i].1)
            && (forall i :: 0 <= i < |rows| && lower(rows[i].0) == lower(country)
                            && (forall j :: 0 <= j < i ==> lower(rows[j].0) != lower(country))
                            && (forall j :: 0 <= j < |rows| ==> rows[j].0 != country)
                            ==> c == rows[i].1)
            && ((forall j :: 0 <= j < |rows| ==> rows[j].0 != country && lower(rows[j].0) != lower(country))
                 ==> c == Localization(1, 1, 12, 31))
  {
    var rows := COUNTRY_LOCALIZATIONS;
    CountryNamesApart();
    forall i | 0 <= i < |rows| && rows[i].0 == country ensures GetCountryInfo(country, lower) == rows[i].1 {
      OneRowAName(rows, i);
      FindIsFirst(rows, (s: string) => s, country, i);
    }
    if forall j :: 0 <= j < |rows| ==> rows[j].0 != country {
      FindsNothing(rows, (s: string) => s, country);
      forall i | 0 <= i < |rows| && FirstAt(rows, lower, lower(country), i) ensures GetCountryInfo(country, lower) == rows[i].1 {
        FindIsFirst(rows, lower, lower(country), i);
      }
      if forall j :: 0 <= j < |rows| ==> lower(rows[j].0) != lower(country) {
        FindsNothing(rows, lower, lower(country));
      }
    }
  }

  /** The countries of the table whose fiscal year is not that of the calendar. */
  lemma CountryYears()
    ensures var rows := COUNTRY_LOCALIZATIONS;
            && |rows| == 20
            && rows[0] == ("Pakistan", Localization(7, 1, 6, 30)) && rows[6] == ("Australia", Localization(7, 1, 6, 30))
            && rows[18] == ("Egypt", Localization(7, 1, 6, 30)) && rows[19] == ("Bangladesh", Localization(7, 1, 6, 30))
            && rows[2] == ("United Kingdom", Localization(4, 1, 3, 31)) && rows[3] == ("India", Localization(4, 1, 3, 31))
            && rows[10] == ("Singapore", Localization(4, 1, 3, 31)) && rows[12] == ("New Zealand", Localization(4, 1, 3, 31))
            && rows[13] == ("South Africa", Localization(3, 1, 2, 28))
            && forall i :: 0 <= i < 20 && i !in {0, 2, 3, 6, 10, 12, 13, 18, 19} ==> rows[i].1 == Localization(1, 1, 12, 31)
  {
  }

  /** The year the default fiscal year of `today` starts in. */
  function StartYear(c: Localization, today: Date): int {
    if c.startMonth > today.month then today.year - 1 else today.year
  }

  /** None is the ValueError of a year outside 1..9999. */
  function DefaultFiscalYear(c: Localization, today: Date): Option<(Date, Date)> {
    var startYear := StartYear(c, today);
    var endYear := startYear + if c.startMonth == 1 then 0 else 1;
    if startYear < 1 || endYear > MAX_YEAR then None
    else Some((Date(startYear, c.startMonth, c.startDay), Date(endYear, c.endMonth, c.endDay)))
  }

  predicate StartsAndEnds(start: Date, end: Date, c: Localization) {
    start.month == c.startMonth && start.day == c.startDay && end.month == c.endMonth && end.day == c.endDay
  }

  /**
   For every country name and every date: the default fiscal year is generated without an error
   exactly when it starts in the years 1 to 9998; it then starts no later than today, has exactly
   12 periods and ends with the last of them; it starts and ends on the days of the country's row, if it
   has one; and today lies in one of the periods unless today is the 29th of February of a year that ends
   on the 28th.
   */
  lemma DefaultYearIsAYear(country: string, lower: string -> string, today: Date)
    requires Valid(today)
    ensures var c := GetCountryInfo(country, lower);
            var fy := DefaultFiscalYear(c, today);
            && (fy.Some? && !Overflows(fy.value.0, fy.value.1) <==> 1 <= StartYear(c, today) <= MAX_YEAR - 1)
            && (fy.Some? ==>
                  var (start, end) := fy.value;
                  var ps := Periods(start, end, start.year);
                  && Valid(start) && Valid(end) && AtMost(start, today)
                  && |ps| == 12 && ps[11].end == end
                  && (CoveredBy(today, ps) <==> !(today.month == 2 && today.day == 29 && end.month == 2))
                  && StartsAndEnds(start, end, c)
                  && forall i :: 0 <= i < |COUNTRY_LOCALIZATIONS| && COUNTRY_LOCALIZATIONS[i].0 == country ==>
                       StartsAndEnds(start, end, COUNTRY_LOCALIZATIONS[i].1))
  {
    var c := GetCountryInfo(country, lower);
    CountryInfoAligned(country, lower);
    CountryInfoIs(country, lower);
    DefaultYearOf(c, today);
  }

  lemma DefaultYearOf(c: Localization, today: Date)
    requires Valid(today) && Aligned(c)
    ensures var fy := DefaultFiscalYear(c, today);
            && (fy.Some? && !Overflows(fy.value.0, fy.value.1) <==> 1 <= StartYear(c, today) <= MAX_YEAR - 1)
            && (fy.Some? ==>
                  var (start, end) := fy.value;
                  var ps := Periods(start, end, start.year);
                  && Valid(start) && Valid(end) && AtMost(start, today)
                  && |ps| == 12 && ps[11].end == end
                  && (CoveredBy(today, ps) <==> !(today.month == 2 && today.day == 29 && end.month == 2)))
  {
    var fy := DefaultFiscalYear(c, today);
    if fy.Some? {
      var (start, end) := fy.value;
      assert Valid(start) && Valid(end) && Count(start, end) == 12;
      CoveredByMonth(start, end, start.year, today);
      CursorMonth(start, 11);
      BeforeByMonth(end, today);
      assert MonthIndex(start) + 11 == MonthIndex(end);
    }
  }
}
