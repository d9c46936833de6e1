/** Calendar dates and the few JavaScript `Date` operations the dashboard
    uses: day arithmetic, day of the week, `setMonth` and date formatting.
    Dates carry no time of day; local time is taken to be UTC. */
module Calendar {
  import opened Text

  /** A date of the proleptic Gregorian calendar; `month` runs 1..12, so it
      is JavaScript's `getMonth() + 1`. */
  datatype Date = Date(year: int, month: int, day: int)

  predicate IsLeapYear(y: int) {
    y % 4 == 0 && (y % 100 != 0 || y % 400 == 0)
  }

  function DaysInMonth(y: int, m: int): int {
    if m == 2 then (if IsLeapYear(y) then 29 else 28)
    else if m == 4 || m == 6 || m == 9 || m == 11 then 30
    else 31
  }

  /** A date that names a real calendar day. */
  predicate Valid(d: Date) {
    1 <= d.month <= 12 && 1 <= d.day <= DaysInMonth(d.year, d.month)
  }

  /** Days from 0000-03-01 to the first of March of year `y`: whole
      400-year eras, then the years of the current era with their leap days. */
  function DaysBefore(y: int): int {
    var era := y / 400;
    var yoe := y - era * 400;
    era * 146097 + yoe * 365 + yoe / 4 - yoe / 100
  }

  /** Days since 1970-01-01. Years are counted from March, so the leap day
      ends a year. The day of the month enters linearly, so a day past the
      end of the month lands in the following month, as JavaScript's `Date`
      normalises it. Month must already be in 1..12 for a meaningful result. */
  function DayNumber(d: Date): int {
    var y := if d.month <= 2 then d.year - 1 else d.year;
    DaysBefore(y) + MonthOffset(d.month) + d.day - 1 - 719468
  }

  /** Days from the first of March to the first of month `m`. */
  function MonthOffset(m: int): int {
    var mp := (m + 9) % 12;
    (153 * mp + 2) / 5
  }

  /** The date a day number falls on; inverse of `DayNumber` on valid dates. */
  function FromDayNumber(n: int): Date {
    var z := n + 719468;
    var era := z / 146097;
    var doe := z - era * 146097;
    var yoe := (doe - doe / 1460 + doe / 36524 - doe / 146096) / 365;
    var doy := doe - (365 * yoe + yoe / 4 - yoe / 100);
    var mp := (5 * doy + 2) / 153;
    var day := doy - (153 * mp + 2) / 5 + 1;
    var month := if mp < 10 then mp + 3 else mp - 9;
    Date(yoe + era * 400 + (if month <= 2 then 1 else 0), month, day)
  }

  /** `getDay()`: 0 for Sunday up to 6 for Saturday (1970-01-01 was a Thursday). */
  function Weekday(d: Date): int {
    (DayNumber(d) + 4) % 7
  }

  /** Day number of the Sunday that starts the week of `d`:
      `d.setDate(d.getDate() - d.getDay())`. */
  function WeekStartDay(d: Date): int {
    DayNumber(d) - Weekday(d)
  }

  /** The week start is a Sunday at most six days before `d`, and every date
      from that Sunday to the following Saturday has the same week start. */
  lemma WeekStartIsSunday(d: Date, e: Date)
    ensures (WeekStartDay(d) + 4) % 7 == 0
    ensures WeekStartDay(d) <= DayNumber(d) < WeekStartDay(d) + 7
    ensures WeekStartDay(d) <= DayNumber(e) < WeekStartDay(d) + 7 ==> WeekStartDay(e) == WeekStartDay(d)
  {
  }

  /** A March-to-February year is 366 days long exactly when it ends in
      the leap day of `y`. */
  lemma YearLength(y: int)
    ensures DaysBefore(y) - DaysBefore(y - 1) == if IsLeapYear(y) then 366 else 365
  {
    var e := (y - 1) / 400;
    var r := (y - 1) - e * 400;
    if r == 399 {
      EraEnd(e);
      assert y == (e + 1) * 400;
    } else {
      InsideEra(e, r);
      assert y == e * 400 + r + 1;
    }
  }

  /** The last year of an era and the first of the next. */
  lemma EraEnd(e: int)
    ensures DaysBefore((e + 1) * 400) - DaysBefore((e + 1) * 400 - 1) == 366
    ensures IsLeapYear((e + 1) * 400)
  {
    var y := (e + 1) * 400;
    Quotient(y, 400, e + 1, 0);
    Quotient(y - 1, 400, e, 399);
    Quotient(y, 100, 4 * (e + 1), 0);
    Quotient(y, 4, 100 * (e + 1), 0);
    assert 399 / 4 == 99 && 399 / 100 == 3;
  }

  /** Two consecutive years of the same era. */
  lemma InsideEra(e: int, r: int)
    requires 0 <= r < 399
    ensures DaysBefore(e * 400 + r + 1) - DaysBefore(e * 400 + r) == if IsLeapYear(e * 400 + r + 1) then 366 else 365
  {
    var y := e * 400 + r + 1;
    Quotient(y, 400, e, r + 1);
    Quotient(y - 1, 400, e, r);
    Quotient(r + 1, 100, (r + 1) / 100, (r + 1) % 100);
    Quotient(y, 100, 4 * e + (r + 1) / 100, (r + 1) % 100);
    Quotient(r + 1, 4, (r + 1) / 4, (r + 1) % 4);
    Quotient(y, 4, 100 * e + (r + 1) / 4, (r + 1) % 4);
    assert (r + 1) / 4 - r / 4 == if (r + 1) % 4 == 0 then 1 else 0;
    assert (r + 1) / 100 - r / 100 == if (r + 1) % 100 == 0 then 1 else 0;
  }

  /** Euclidean division is unique: a quotient and remainder that rebuild
      `x` are `x / k` and `x % k`. */
  lemma Quotient(x: int, k: int, q: int, rem: int)
    requires k == 4 || k == 100 || k == 400
    requires 0 <= rem < k && x == q * k + rem
    ensures x / k == q && x % k == rem
  {
    if k == 4 {
      assert x == q * 4 + rem;
    } else if k == 100 {
      assert x == q * 100 + rem;
    } else {
      assert x == q * 400 + rem;
    }
  }

  /** Where each month starts, counted from the first of March. */
  lemma MonthOffsets()
    ensures MonthOffset(3) == 0 && MonthOffset(4) == 31 && MonthOffset(5) == 61 && MonthOffset(6) == 92
    ensures MonthOffset(7) == 122 && MonthOffset(8) == 153 && MonthOffset(9) == 184 && MonthOffset(10) == 214
    ensures MonthOffset(11) == 245 && MonthOffset(12) == 275 && MonthOffset(1) == 306 && MonthOffset(2) == 337
  {
  }

  /** The first of the month after `m` of year `y`. */
  function NextMonthStart(y: int, m: int): Date {
    if m == 12 then Date(y + 1, 1, 1) else Date(y, m + 1, 1)
  }

  /** A month's days run up to the first of the next month. */
  lemma MonthLength(y: int, m: int)
    requires 1 <= m <= 12
    ensures DayNumber(NextMonthStart(y, m)) == DayNumber(Date(y, m, 1)) + DaysInMonth(y, m)
  {
    MonthOffsets();
    if m == 2 {
      YearLength(y);
    }
  }

  /** `d.setMonth(monthIndex)` with a zero-based month index that may fall
      outside 0..11: the year absorbs whole multiples of twelve, the day of
      the month is kept, and a day past the end of the target month spills
      into the next one. The result is a real date, and it lies `d.day - 1`
      days after the first of the target month. */
  function SetMonth(d: Date, monthIndex: int): (r: Date)
    requires Valid(d)
    ensures Valid(r)
    ensures DayNumber(r) == DayNumber(Date(d.year + monthIndex / 12, monthIndex % 12 + 1, 1)) + d.day - 1
  {
    var y := d.year + monthIndex / 12;
    var m := monthIndex % 12 + 1;
    var length := DaysInMonth(y, m);
    if d.day <= length then
      assert DayNumber(Date(y, m, d.day)) == DayNumber(Date(y, m, 1)) + d.day - 1;
      Date(y, m, d.day)
    else
      assert d.day <= 31;
      Spill(y, m, d.day);
      var next := NextMonthStart(y, m);
      Date(next.year, next.month, d.day - length)
  }

  /** A day past the end of month `m` is a real day of the next month, as
      many days after the first of `m` as the day number says. */
  lemma Spill(y: int, m: int, day: int)
    requires 1 <= m <= 12 && DaysInMonth(y, m) < day <= 31
    ensures Valid(Date(NextMonthStart(y, m).year, NextMonthStart(y, m).month, day - DaysInMonth(y, m)))
    ensures DayNumber(Date(NextMonthStart(y, m).year, NextMonthStart(y, m).month, day - DaysInMonth(y, m)))
      == DayNumber(Date(y, m, 1)) + day - 1
  {
    MonthLength(y, m);
    var next := NextMonthStart(y, m);
    assert DaysInMonth(y, m) >= 28 && DaysInMonth(next.year, next.month) >= 28;
  }

  /** `toLocaleDateString()` in the en-US locale: month/day/year. */
  function LocaleString(d: Date): string {
    IntToString(d.month) + "/" + IntToString(d.day) + "/" + IntToString(d.year)
  }

  /** Two dates print alike exactly when they are the same date: the
      month and the day carry no '/' of their own. */
  lemma LocaleStringInjective(d: Date, e: Date)
    ensures LocaleString(d) == LocaleString(e) <==> d == e
  {
    var md, dd, yd := IntToString(d.month), IntToString(d.day), IntToString(d.year);
    var me, de, ye := IntToString(e.month), IntToString(e.day), IntToString(e.year);
    assert LocaleString(d) == md + ['/'] + (dd + "/" + yd);
    assert LocaleString(e) == me + ['/'] + (de + "/" + ye);
    SplitAtSeparator(md, dd + "/" + yd, me, de + "/" + ye, '/');
    SplitAtSeparator(dd, yd, de, ye, '/');
    assert dd + "/" + yd == dd + ['/'] + yd;
    assert de + "/" + ye == de + ['/'] + ye;
    IntToStringInjective(d.month, e.month);
    IntToStringInjective(d.day, e.day);
    IntToStringInjective(d.year, e.year);
  }

  /** The `YYYY-MM-DD` text a date input holds and the store keeps. */
  function IsoString(d: Date): string {
    PadZero(IntToString(d.year), 4) + "-" + PadZero(IntToString(d.month), 2) + "-" + PadZero(IntToString(d.day), 2)
  }
}
