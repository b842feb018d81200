/** The proleptic Gregorian calendar of ECMAScript `Date`: civil dates, their
    day numbers counted from 1970-01-01, the `YYYY-MM-DD` text of
    `toISOString`, and the date-only forms `new Date(string)` accepts. */
module Calendar {
  import opened Wrappers
  import opened Text

  /** Milliseconds in a day. */
  const MsPerDay: int := 86400000

  /** The largest magnitude of a valid time value, in milliseconds (TimeClip,
      section 21.4.1.31 of ECMA-262). */
  const MaxTimeMs: int := 8640000000000000

  predicate IsLeapYear(y: int) {
    y % 4 == 0 && (y % 100 != 0 || y % 400 == 0)
  }

  function DaysInYear(y: int): int {
    if IsLeapYear(y) then 366 else 365
  }

  function DaysInMonth(y: int, m: int): int
    requires 1 <= m <= 12
  {
    if m == 2 then (if IsLeapYear(y) then 29 else 28)
    else if m == 4 || m == 6 || m == 9 || m == 11 then 30
    else 31
  }

  /** A civil date; `month` counts from 1. */
  datatype Date = Date(year: int, month: int, day: int)

  predicate ValidDate(d: Date) {
    1 <= d.month <= 12 && 1 <= d.day <= DaysInMonth(d.year, d.month)
  }

  /** `d1` falls strictly before `d2` (ordering by year, then month, then day). */
  predicate Before(d1: Date, d2: Date) {
    d1.year < d2.year
    || (d1.year == d2.year && (d1.month < d2.month || (d1.month == d2.month && d1.day < d2.day)))
  }

  // ---------- day numbers ----------

  /** Day number of January 1st of `y`. */
  function YearStart(y: int): int
    decreases if y >= 1970 then y - 1970 else 1970 - y
  {
    if y == 1970 then 0
    else if y > 1970 then YearStart(y - 1) + DaysInYear(y - 1)
    else YearStart(y + 1) - DaysInYear(y)
  }

  lemma YearStep(y: int)
    ensures YearStart(y + 1) == YearStart(y) + DaysInYear(y)
  {
  }

  lemma {:induction false} YearStartMonotone(y1: int, y2: int)
    requires y1 < y2
    ensures YearStart(y1 + 1) <= YearStart(y2)
    decreases y2 - y1
  {
    if y1 + 1 < y2 {
      YearStartMonotone(y1 + 1, y2);
      YearStep(y1 + 1);
    }
  }

  /** Days of year `y` before the first of month `m` (13 stands for the next January). */
  function MonthStart(y: int, m: int): int
    requires 1 <= m <= 13
  {
    if m == 1 then 0 else MonthStart(y, m - 1) + DaysInMonth(y, m - 1)
  }

  lemma MonthStartYearEnd(y: int)
    ensures MonthStart(y, 13) == DaysInYear(y)
  {
    assert MonthStart(y, 2) == 31;
    assert MonthStart(y, 4) == MonthStart(y, 3) + 31;
    assert MonthStart(y, 6) == MonthStart(y, 5) + 31;
    assert MonthStart(y, 8) == MonthStart(y, 7) + 31;
    assert MonthStart(y, 10) == MonthStart(y, 9) + 30;
    assert MonthStart(y, 12) == MonthStart(y, 11) + 30;
  }

  lemma {:induction false} MonthStartMonotone(y: int, m1: int, m2: int)
    requires 1 <= m1 <= m2 <= 13
    ensures MonthStart(y, m1) <= MonthStart(y, m2)
    decreases m2 - m1
  {
    if m1 < m2 {
      MonthStartMonotone(y, m1, m2 - 1);
    }
  }

  /** Days from 1970-01-01 to `d` (negative before it). */
  function DayNumber(d: Date): int
    requires ValidDate(d)
  {
    YearStart(d.year) + MonthStart(d.year, d.month) + d.day - 1
  }

  lemma DayNumberInYear(d: Date)
    requires ValidDate(d)
    ensures YearStart(d.year) <= DayNumber(d) < YearStart(d.year + 1)
  {
    assert MonthStart(d.year, d.month + 1) == MonthStart(d.year, d.month) + DaysInMonth(d.year, d.month);
    MonthStartMonotone(d.year, d.month + 1, 13);
    MonthStartYearEnd(d.year);
    MonthStartMonotone(d.year, 1, d.month);
    YearStep(d.year);
  }

  /** Day numbers run in calendar order: later dates have larger numbers. */
  lemma DayNumberOrder(d1: Date, d2: Date)
    requires ValidDate(d1) && ValidDate(d2)
    ensures Before(d1, d2) <==> DayNumber(d1) < DayNumber(d2)
    ensures d1 == d2 <==> DayNumber(d1) == DayNumber(d2)
  {
    if Before(d1, d2) {
      DayNumberBefore(d1, d2);
    } else if Before(d2, d1) {
      DayNumberBefore(d2, d1);
    } else {
      assert d1.year == d2.year && d1.month == d2.month && d1.day == d2.day;
    }
  }

  lemma DayNumberBefore(d1: Date, d2: Date)
    requires ValidDate(d1) && ValidDate(d2) && Before(d1, d2)
    ensures DayNumber(d1) < DayNumber(d2)
  {
    if d1.year < d2.year {
      DayNumberInYear(d1);
      DayNumberInYear(d2);
      YearStartMonotone(d1.year, d2.year);
    } else if d1.month < d2.month {
      assert MonthStart(d1.year, d1.month + 1) == MonthStart(d1.year, d1.month) + DaysInMonth(d1.year, d1.month);
      MonthStartMonotone(d1.year, d1.month + 1, d2.month);
    }
  }

  function YearUp(n: int, y: int): (r: int)
    requires YearStart(y) <= n
    ensures YearStart(r) <= n < YearStart(r + 1)
    decreases n - YearStart(y)
  {
    YearStep(y);
    if n < YearStart(y + 1) then y else YearUp(n, y + 1)
  }

  function YearDown(n: int, y: int): (r: int)
    requires n < YearStart(y + 1)
    ensures YearStart(r) <= n < YearStart(r + 1)
    decreases YearStart(y + 1) - n
  {
    YearStep(y);
    if YearStart(y) <= n then y else YearDown(n, y - 1)
  }

  function FindMonth(y: int, r: int, m: int): (res: int)
    requires 1 <= m <= 12 && MonthStart(y, m) <= r < DaysInYear(y)
    ensures 1 <= res <= 12 && MonthStart(y, res) <= r < MonthStart(y, res + 1)
    decreases 12 - m
  {
    MonthStartYearEnd(y);
    if r < MonthStart(y, m + 1) then m else FindMonth(y, r, m + 1)
  }

  /** The civil date `n` days after 1970-01-01. It is the inverse of `DayNumber`. */
  function FromDayNumber(n: int): (d: Date)
    ensures ValidDate(d) && DayNumber(d) == n
  {
    var y := if n >= 0 then YearUp(n, 1970) else YearDown(n, 1969);
    YearStep(y);
    var r := n - YearStart(y);
    var m := FindMonth(y, r, 1);
    Date(y, m, r - MonthStart(y, m) + 1)
  }

  /** Numbering a valid date and converting back yields the date itself. */
  lemma FromDayNumberOfDate(d: Date)
    requires ValidDate(d)
    ensures FromDayNumber(DayNumber(d)) == d
  {
    DayNumberOrder(FromDayNumber(DayNumber(d)), d);
  }

  // ---------- ISO text ----------

  /** The year field of `toISOString`: four digits for years 0 to 9999,
      otherwise a sign and six digits. */
  function YearText(y: int): (s: string)
    ensures |s| >= 4
  {
    if 0 <= y <= 9999 then Decimal(y, 4)
    else (if y < 0 then "-" else "+") + Decimal(if y < 0 then -y else y, 6)
  }

  /** `YYYY-MM-DD`, the first ten characters of `toISOString` for a four-digit year. */
  function IsoDateText(d: Date): (s: string)
    requires ValidDate(d)
    ensures |s| >= 10
  {
    YearText(d.year) + "-" + Decimal(d.month, 2) + "-" + Decimal(d.day, 2)
  }

  function CheckedDate(d: Date): (r: Option<Date>)
    ensures r.Some? <==> ValidDate(d)
    ensures r.Some? ==> r.value == d
  {
    if ValidDate(d) then Some(d) else None
  }

  /** The date-only forms of the ECMAScript date-time string format
      (`YYYY`, `YYYY-MM`, `YYYY-MM-DD`) that `new Date(s)` reads as UTC
      midnight; any other text is taken as an invalid date. */
  function ParseIsoDate(s: string): (r: Option<Date>)
    ensures r.Some? ==> ValidDate(r.value)
  {
    if |s| == 10 && s[4] == '-' && s[7] == '-'
       && AllDigits(s[..4]) && AllDigits(s[5..7]) && AllDigits(s[8..]) then
      CheckedDate(Date(DigitsValue(s[..4]), DigitsValue(s[5..7]), DigitsValue(s[8..])))
    else if |s| == 7 && s[4] == '-' && AllDigits(s[..4]) && AllDigits(s[5..]) then
      CheckedDate(Date(DigitsValue(s[..4]), DigitsValue(s[5..]), 1))
    else if |s| == 4 && AllDigits(s) then
      Some(Date(DigitsValue(s), 1, 1))
    else
      None
  }

  /** The day number `new Date(s)` denotes, or `None` for an invalid date. */
  function DateValue(s: string): Option<int> {
    match ParseIsoDate(s)
    case Some(d) => Some(DayNumber(d))
    case None => None
  }

  /** Text in the exact `YYYY-MM-DD` shape naming a real date. */
  predicate IsIsoDay(s: string) {
    |s| == 10 && ParseIsoDate(s).Some?
  }

  lemma Pow10Values()
    ensures Pow10(2) == 100 && Pow10(4) == 10000
  {
  }

  /** Formatting a date with a four-digit year and reading it back gives the date. */
  lemma {:induction false} ParseIsoDateOfText(d: Date)
    requires ValidDate(d) && 0 <= d.year <= 9999
    ensures |IsoDateText(d)| == 10
    ensures ParseIsoDate(IsoDateText(d)) == Some(d)
    ensures IsIsoDay(IsoDateText(d))
  {
    Pow10Values();
    DecimalExactWidth(d.year, 4);
    DecimalExactWidth(d.month, 2);
    DecimalExactWidth(d.day, 2);
    var s := IsoDateText(d);
    assert s[..4] == Decimal(d.year, 4);
    assert s[5..7] == Decimal(d.month, 2);
    assert s[8..] == Decimal(d.day, 2);
  }

  /** Text in the `YYYY-MM-DD` shape is the formatting of the date it parses to. */
  lemma {:induction false} IsoDateTextOfParse(s: string)
    requires IsIsoDay(s)
    ensures 0 <= ParseIsoDate(s).value.year <= 9999
    ensures IsoDateText(ParseIsoDate(s).value) == s
  {
    Pow10Values();
    DigitsValueBound(s[..4]);
    DecimalOfDigits(s[..4]);
    DecimalOfDigits(s[5..7]);
    DecimalOfDigits(s[8..]);
    assert s == s[..4] + "-" + s[5..7] + "-" + s[8..];
  }

  /** Two `YYYY-MM-DD` texts name the same day only if they are the same text. */
  lemma IsoDayInjective(a: string, b: string)
    requires IsIsoDay(a) && IsIsoDay(b) && DateValue(a) == DateValue(b)
    ensures a == b
  {
    DayNumberOrder(ParseIsoDate(a).value, ParseIsoDate(b).value);
    IsoDateTextOfParse(a);
    IsoDateTextOfParse(b);
  }

  /** For `YYYY-MM-DD` texts, comparing them as strings (as JavaScript's `<`
      does) agrees with comparing the days they name. */
  lemma {:induction false} IsoDayTextOrder(a: string, b: string)
    requires IsIsoDay(a) && IsIsoDay(b)
    ensures LexLess(a, b) <==> DateValue(a).value < DateValue(b).value
    ensures LexAtMost(a, b) <==> DateValue(a).value <= DateValue(b).value
  {
    var da, db := ParseIsoDate(a).value, ParseIsoDate(b).value;
    DayNumberOrder(da, db);
    DayNumberOrder(db, da);
    TextOrderIsDateOrder(a, b);
    TextOrderIsDateOrder(b, a);
  }

  lemma TextOrderIsDateOrder(a: string, b: string)
    requires IsIsoDay(a) && IsIsoDay(b)
    ensures LexLess(a, b) <==> Before(ParseIsoDate(a).value, ParseIsoDate(b).value)
  {
    IsoLexFields(a, b);
    LexLessDigits(a[..4], b[..4]);
    LexLessDigits(a[5..7], b[5..7]);
    LexLessDigits(a[8..], b[8..]);
    DigitsEqual(a[..4], b[..4]);
    DigitsEqual(a[5..7], b[5..7]);
    assert ParseIsoDate(a).value == Date(DigitsValue(a[..4]), DigitsValue(a[5..7]), DigitsValue(a[8..]));
    assert ParseIsoDate(b).value == Date(DigitsValue(b[..4]), DigitsValue(b[5..7]), DigitsValue(b[8..]));
  }

  /** `YYYY-MM-DD` texts compare field by field: year, then month, then day. */
  lemma IsoLexFields(a: string, b: string)
    requires IsIsoDay(a) && IsIsoDay(b)
    ensures LexLess(a, b) <==>
              LexLess(a[..4], b[..4])
              || (a[..4] == b[..4] && (LexLess(a[5..7], b[5..7]) || (a[5..7] == b[5..7] && LexLess(a[8..], b[8..]))))
  {
    assert a == a[..4] + [a[4]] + a[5..] && b == b[..4] + [b[4]] + b[5..];
    LexLessAtSeparator(a[..4], a[5..], b[..4], b[5..], '-');
    assert a[5..] == a[5..7] + [a[7]] + a[8..] && b[5..] == b[5..7] + [b[7]] + b[8..];
    LexLessAtSeparator(a[5..7], a[8..], b[5..7], b[8..], '-');
  }

  /** Texts made of a field of one width, a shared separator and a rest
      compare by field first, then by rest. */
  lemma LexLessAtSeparator(a1: string, b1: string, a2: string, b2: string, c: char)
    requires |a1| == |a2|
    ensures LexLess(a1 + [c] + b1, a2 + [c] + b2) <==> LexLess(a1, a2) || (a1 == a2 && LexLess(b1, b2))
  {
    assert a1 + [c] + b1 == a1 + ([c] + b1) && a2 + [c] + b2 == a2 + ([c] + b2);
    LexLessConcat(a1, [c] + b1, a2, [c] + b2);
    LexLessConcat([c], b1, [c], b2);
  }

  /** Digit strings of one length are equal exactly when their values are. */
  lemma DigitsEqual(x: string, y: string)
    requires AllDigits(x) && AllDigits(y) && |x| == |y| >= 1
    ensures x == y <==> DigitsValue(x) == DigitsValue(y)
  {
    if DigitsValue(x) == DigitsValue(y) {
      DecimalOfDigits(x);
      DecimalOfDigits(y);
    }
  }

  // ---------- time values ----------

  /** The UTC day containing time value `ms` (milliseconds since the epoch). */
  function DayOfTime(ms: int): (day: int)
    ensures day * MsPerDay <= ms < (day + 1) * MsPerDay
  {
    ms / MsPerDay
  }

  /** `new Date(ms).toISOString().slice(0, 10)`: `None` where `toISOString`
      throws a RangeError because `ms` is not a valid time value. */
  function IsoDateOfTime(ms: int): (r: Option<string>)
    ensures r.Some? <==> -MaxTimeMs <= ms <= MaxTimeMs
    ensures r.Some? ==> |r.value| == 10
    ensures r.Some? && 0 <= FromDayNumber(DayOfTime(ms)).year <= 9999 ==>
              IsIsoDay(r.value) && DateValue(r.value) == Some(DayOfTime(ms))
  {
    if -MaxTimeMs <= ms <= MaxTimeMs then
      var d := FromDayNumber(DayOfTime(ms));
      if 0 <= d.year <= 9999 then
        ParseIsoDateOfText(d);
        assert IsoDateText(d)[..10] == IsoDateText(d);
        Some(IsoDateText(d)[..10])
      else
        Some(IsoDateText(d)[..10])
    else
      None
  }
}
