/** The price schedule against a calendar that is counted day by day from the first of January 1970, a Thursday. */
module PriceCalendar {
  import opened Common
  import opened PricingSchedule

  datatype Date = Date(year: int, month: int, day: int)

  datatype Weekdays = Sunday | Monday | Tuesday | Wednesday | Thursday | Friday | Saturday

  predicate Leap(y: int) { y % 4 == 0 && (y % 100 != 0 || y % 400 == 0) }

  function MonthLength(y: int, m: int): int {
    if m == 2 then if Leap(y) then 29 else 28
    else if m in {4, 6, 9, 11} then 30
    else 31
  }

  function DayAfter(d: Date): Date {
    if d.day < MonthLength(d.year, d.month) then d.(day := d.day + 1)
    else if d.month < 12 then Date(d.year, d.month + 1, 1)
    else Date(d.year + 1, 1, 1)
  }

  function DayBefore(d: Date): Date {
    if d.day > 1 then d.(day := d.day - 1)
    else if d.month > 1 then Date(d.year, d.month - 1, MonthLength(d.year, d.month - 1))
    else Date(d.year - 1, 12, 31)
  }

  /** The date n days after the first one, or before it. */
  function DateOf(n: int): Date
    decreases if n < 0 then -n else n
  {
    if n == 0 then Date(1970, 1, 1) else if n > 0 then DayAfter(DateOf(n - 1)) else DayBefore(DateOf(n + 1))
  }

  function WeekdayAfter(w: Weekdays): Weekdays {
    match w
    case Sunday => Monday
    case Monday => Tuesday
    case Tuesday => Wednesday
    case Wednesday => Thursday
    case Thursday => Friday
    case Friday => Saturday
    case Saturday => Sunday
  }

  function WeekdayBefore(w: Weekdays): Weekdays {
    WeekdayAfter(WeekdayAfter(WeekdayAfter(WeekdayAfter(WeekdayAfter(WeekdayAfter(w))))))
  }

  function WeekdayOf(n: int): Weekdays
    decreases if n < 0 then -n else n
  {
    if n == 0 then Thursday else if n > 0 then WeekdayAfter(WeekdayOf(n - 1)) else WeekdayBefore(WeekdayOf(n + 1))
  }

  /** The days off of 2026. */
  predicate DayOff(d: Date) {
    || (d.month == 1 && 1 <= d.day <= 3) || (d.month == 2 && 15 <= d.day <= 23) || (d.month == 4 && 4 <= d.day <= 6)
    || (d.month == 5 && 1 <= d.day <= 5) || (d.month == 6 && 19 <= d.day <= 21)
    || (d.month == 9 && 25 <= d.day <= 27) || (d.month == 10 && 1 <= d.day <= 7)
  }

  // ---------------------------------------------------------------- weekdays

  function Number(w: Weekdays): int {
    match w
    case Sunday => 0
    case Monday => 1
    case Tuesday => 2
    case Wednesday => 3
    case Thursday => 4
    case Friday => 5
    case Saturday => 6
  }

  lemma {:induction false} WeekdayIs(n: int)
    ensures Number(WeekdayOf(n)) == (n + 4) % 7
    decreases if n < 0 then -n else n
  {
    if n > 0 { WeekdayIs(n - 1); }
    if n < 0 { WeekdayIs(n + 1); }
  }

  // ---------------------------------------------------------------- dates

  lemma {:induction false} InMonth(n: nat, y: int, m: int, k: nat)
    requires DateOf(n) == Date(y, m, 1) && k < MonthLength(y, m)
    ensures DateOf(n + k) == Date(y, m, 1 + k)
  {
    if k > 0 { InMonth(n, y, m, k - 1); }
  }

  lemma NextMonth(n: nat, y: int, m: int)
    requires DateOf(n) == Date(y, m, 1) && 1 <= m <= 12
    ensures DateOf(n + MonthLength(y, m)) == if m < 12 then Date(y, m + 1, 1) else Date(y + 1, 1, 1)
  {
    InMonth(n, y, m, MonthLength(y, m) - 1);
  }

  /** Days of a year before its m-th month. */
  function DaysTo(y: int, m: nat): nat { if m <= 1 then 0 else DaysTo(y, m - 1) + MonthLength(y, m - 1) }

  lemma {:induction false} MonthStart(n: nat, y: int, m: nat)
    requires DateOf(n) == Date(y, 1, 1) && 1 <= m <= 12
    ensures DateOf(n + DaysTo(y, m)) == Date(y, m, 1)
  {
    hide DateOf, MonthLength;
    if m > 1 {
      MonthStart(n, y, m - 1);
      NextMonth(n + DaysTo(y, m - 1), y, m - 1);
    }
  }

  /** Where the months of a year begin, given the length of February. */
  lemma DaysToIs(y: int)
    ensures var l := MonthLength(y, 2);
            && DaysTo(y, 1) == 0 && DaysTo(y, 2) == 31 && DaysTo(y, 3) == 31 + l && DaysTo(y, 4) == 62 + l
            && DaysTo(y, 5) == 92 + l && DaysTo(y, 6) == 123 + l && DaysTo(y, 7) == 153 + l
            && DaysTo(y, 8) == 184 + l && DaysTo(y, 9) == 215 + l && DaysTo(y, 10) == 245 + l
            && DaysTo(y, 11) == 276 + l && DaysTo(y, 12) == 306 + l && DaysTo(y, 13) == 337 + l
  {
    assert DaysTo(y, 2) == 31;
    assert DaysTo(y, 3) == 31 + MonthLength(y, 2);
    assert DaysTo(y, 4) == DaysTo(y, 3) + 31;
    assert DaysTo(y, 5) == DaysTo(y, 4) + 30;
    assert DaysTo(y, 6) == DaysTo(y, 5) + 31;
    assert DaysTo(y, 7) == DaysTo(y, 6) + 30;
    assert DaysTo(y, 8) == DaysTo(y, 7) + 31;
    assert DaysTo(y, 9) == DaysTo(y, 8) + 31;
    assert DaysTo(y, 10) == DaysTo(y, 9) + 30;
    assert DaysTo(y, 11) == DaysTo(y, 10) + 31;
    assert DaysTo(y, 12) == DaysTo(y, 11) + 30;
    assert DaysTo(y, 13) == DaysTo(y, 12) + 31;
  }

  lemma YearLength(y: int)
    ensures DaysBefore(y + 1) == DaysBefore(y) + DaysTo(y, 13)
  {
    DaysToIs(y);
    LeapsOfNext(y);
    hide Leaps;
  }

  lemma LeapsOfNext(y: int)
    ensures Leaps(y) == Leaps(y - 1) + if Leap(y) then 1 else 0
  {
    var a, b, c := y / 4, y / 100, y / 400;
    assert (y - 1) / 4 == if y % 4 == 0 then a - 1 else a;
    assert (y - 1) / 100 == if y % 100 == 0 then b - 1 else b by { Hundreds(y); }
    assert (y - 1) / 400 == if y % 400 == 0 then c - 1 else c by { FourHundreds(y); }
    Multiples(y);
  }

  lemma Hundreds(y: int)
    ensures (y - 1) / 100 == if y % 100 == 0 then y / 100 - 1 else y / 100
  {}

  lemma FourHundreds(y: int)
    ensures (y - 1) / 400 == if y % 400 == 0 then y / 400 - 1 else y / 400
  {}

  lemma Multiples(y: int)
    ensures y % 100 == 0 ==> y % 4 == 0
    ensures y % 400 == 0 ==> y % 100 == 0
  {}

  lemma {:induction false} YearStart(y: int)
    requires y >= 1970
    ensures DaysBefore(y) >= 0 && DateOf(DaysBefore(y)) == Date(y, 1, 1)
  {
    if y > 1970 {
      YearStart(y - 1);
      YearLength(y - 1);
      MonthStart(DaysBefore(y - 1), y - 1, 12);
      hide DateOf, DaysBefore;
      NextMonth(DaysBefore(y - 1) + DaysTo(y - 1, 12), y - 1, 12);
    }
  }

  lemma {:induction false} YearGrows(a: int, b: int)
    requires 0 <= a <= b
    ensures DateOf(a).year <= DateOf(b).year
  {
    if a < b { YearGrows(a, b - 1); }
  }

  lemma {:induction false} EarlyYears(n: int)
    requires n < 0
    ensures DateOf(n).year < 1970
    decreases -n
  {
    if n < -1 { EarlyYears(n + 1); }
  }

  /** The days of 2026 are those the schedule takes them for. */
  lemma YearIs2026(n: int)
    ensures DateOf(n).year == 2026 <==> DaysBefore(2026) <= n < DaysBefore(2027)
  {
    YearStart(2026);
    YearStart(2027);
    var a, b := DaysBefore(2026), DaysBefore(2027);
    hide DaysBefore;
    hide DateOf;
    if n < 0 {
      EarlyYears(n);
    } else if n < a {
      BeforeYear(n, 2026, a);
    } else if n < b {
      YearGrows(a, n);
      BeforeYear(n, 2027, b);
    } else {
      YearGrows(b, n);
    }
  }

  /** The day before a year begins, and all before that, are in earlier years. */
  lemma BeforeYear(n: int, y: int, start: int)
    requires 0 <= n < start && DateOf(start) == Date(y, 1, 1)
    ensures DateOf(n).year < y
  {
    YearGrows(n, start - 1);
    IsDate(start - 1);
    DayBeforeNewYear(DateOf(start - 1), y);
  }

  predicate Valid(d: Date) { 1 <= d.month <= 12 && 1 <= d.day <= MonthLength(d.year, d.month) }

  lemma {:induction false} IsDate(n: nat)
    ensures Valid(DateOf(n))
  {
    if n > 0 { IsDate(n - 1); }
  }

  lemma DayBeforeNewYear(d: Date, y: int)
    requires Valid(d) && DayAfter(d) == Date(y, 1, 1)
    ensures d.year < y
  {}

  // ---------------------------------------------------------------- holidays

  /** Where in a year without leap day its k-th day is. */
  lemma MonthDayAt(y: int, k: int)
    requires !Leap(y) && 0 <= k < 365
    ensures var m := MonthOf(k);
            && 1 <= m <= 12 && DaysTo(y, m) <= k < DaysTo(y, m) + MonthLength(y, m)
            && MonthDay(k) == 100 * m + 1 + k - DaysTo(y, m)
  {
    DaysToIs(y);
    hide DaysTo, Leap;
  }

  /** The number of a day of 2026 is its month and day. */
  lemma MonthDayIs(n: int)
    requires DaysBefore(2026) <= n < DaysBefore(2027)
    ensures n >= 0 && MonthDay(n - DaysBefore(2026)) == 100 * DateOf(n).month + DateOf(n).day
  {
    hide *;
    YearStart(2026);
    YearOf365();
    InYear(DaysBefore(2026), 2026, n - DaysBefore(2026));
  }

  lemma InYear(start: nat, y: int, k: int)
    requires DateOf(start) == Date(y, 1, 1) && !Leap(y) && 0 <= k < 365
    ensures MonthDay(k) == 100 * DateOf(start + k).month + DateOf(start + k).day
  {
    hide *;
    var m := MonthOf(k);
    MonthDayAt(y, k);
    var first := start + DaysTo(y, m);
    MonthStart(start, y, m);
    InMonth(first, y, m, k - DaysTo(y, m));
    assert first + (k - DaysTo(y, m)) == start + k;
  }

  lemma YearOf365()
    ensures !Leap(2026) && DaysBefore(2027) == DaysBefore(2026) + 365
  {}

  /** So the holiday table means the days off. */
  lemma HolidayIff(n: int)
    requires DaysBefore(2026) <= n < DaysBefore(2027)
    ensures Holiday(MonthDay(n - DaysBefore(2026))) <==> DayOff(DateOf(n))
  {
    MonthDayIs(n);
    IsDate(n);
    hide MonthDay, DateOf, DaysBefore;
    var d := DateOf(n);
    assert 1 <= d.month <= 12 && 1 <= d.day <= 31;
  }

  /** The month of the k-th day of a year without leap day. */
  function MonthOf(k: int): nat {
    if k < 31 then 1 else if k < 59 then 2 else if k < 90 then 3 else if k < 120 then 4 else if k < 151 then 5
    else if k < 181 then 6 else if k < 212 then 7 else if k < 243 then 8 else if k < 273 then 9
    else if k < 304 then 10 else if k < 334 then 11 else 12
  }

  /** The time of day is between the hours a and b. */
  predicate Between(t: Time, a: int, b: int) { a * HOUR <= t - DayOf(t) * DAY < b * HOUR }

  lemma HourIs(t: Time, a: int, b: int)
    requires 0 <= a <= b <= 24
    ensures a <= HourOf(t) < b <==> Between(t, a, b)
  {
    DayFromHour(t);
    var h, r := t / HOUR, t % HOUR;
    assert t - DayOf(t) * DAY == HourOf(t) * HOUR + r;
  }

  /** The rate at every instant, by the calendar: off-peak at weekends and outside of the hours from one to
      four and from six to ten; otherwise peak in 2026, but for its days off, and not known in any other year. */
  lemma PeakIff(t: Time)
    ensures var date, day := DateOf(DayOf(t)), WeekdayOf(DayOf(t));
            PeakAt(t) ==
            if day in {Saturday, Sunday} || !(Between(t, 1, 4) || Between(t, 6, 10)) then OffPeak
            else if date.year != 2026 then Unknown
            else if DayOff(date) then OffPeak
            else Peak
  {
    WeekdayIs(DayOf(t));
    HourIs(t, 1, 4);
    HourIs(t, 6, 10);
    YearIs2026(DayOf(t));
    hide DateOf, WeekdayOf, DaysBefore, MonthDay, Between, HourOf, DayOf, Holiday, DayOff;
    if In2026(t) { HolidayIff(DayOf(t)); }
  }
}
