/**
 Time-of-use prices: peak hours on working days cost the full price, all others half of it. A
 request is priced by sampling each hour it touches; instants are nanoseconds since 1970 in UTC.
 */
module PricingSchedule {
  import opened Common

  datatype Rate = Peak | OffPeak | Unknown

  datatype Range = Range(low: real, high: real)

  /** A request's own record; the start is absent when it was never noted. */
  datatype Entry = Entry(start: Option<Time>, durationMs: int, completed: Option<Time>)

  // ---------------------------------------------------------------- the calendar

  /** Leap days up to the end of a year. */
  function Leaps(y: int): int { y / 4 - y / 100 + y / 400 }

  /** Days from 1970 to the first of January of a year. */
  function DaysBefore(y: int): int { 365 * (y - 1970) + Leaps(y - 1) - Leaps(1969) }

  /** Month and day as one number, for a day of a year without leap day. */
  function MonthDay(n: int): int {
    if n < 31 then 101 + n
    else if n < 59 then 201 + n - 31
    else if n < 90 then 301 + n - 59
    else if n < 120 then 401 + n - 90
    else if n < 151 then 501 + n - 120
    else if n < 181 then 601 + n - 151
    else if n < 212 then 701 + n - 181
    else if n < 243 then 801 + n - 212
    else if n < 273 then 901 + n - 243
    else if n < 304 then 1001 + n - 273
    else if n < 334 then 1101 + n - 304
    else 1201 + n - 334
  }

  function HourOf(t: Time): int { (t / HOUR) % 24 }

  function DayOf(t: Time): int { t / DAY }

  /** Sunday is 0; the first of January 1970 was a Thursday. */
  function Weekday(t: Time): int { (DayOf(t) + 4) % 7 }

  predicate In2026(t: Time) { DaysBefore(2026) <= DayOf(t) < DaysBefore(2027) }

  predicate Holiday(day: int) {
    || 101 <= day <= 103 || 215 <= day <= 223 || 404 <= day <= 406 || 501 <= day <= 505
    || 619 <= day <= 621 || 925 <= day <= 927 || 1001 <= day <= 1007
  }

  function PeakAt(t: Time): Rate {
    var hour := HourOf(t);
    if Weekday(t) == 6 || Weekday(t) == 0 || !(1 <= hour < 4 || 6 <= hour < 10) then OffPeak
    else if !In2026(t) then Unknown
    else if Holiday(MonthDay(DayOf(t) - DaysBefore(2026))) then OffPeak
    else Peak
  }

  // ---------------------------------------------------------------- what a request costs

  function EndOf(e: Entry): Time
    requires e.start.Some?
  {
    if e.completed.Some? then e.completed.value else e.start.value + e.durationMs * MILLISECOND
  }

  /** The request's times are known and span no more than a day. */
  predicate Timed(e: Entry) {
    && e.start.Some? && 0 <= e.durationMs <= DAY / MILLISECOND
    && e.start.value <= EndOf(e) <= e.start.value + DAY
  }

  predicate During(e: Entry, t: Time) { e.start.Some? && e.start.value <= t <= EndOf(e) }

  /** One rate is known to apply at every instant of the request, both ends included. */
  ghost predicate Uniform(e: Entry, r: Rate) {
    r != Unknown && forall t :: During(e, t) ==> PeakAt(t) == r
  }

  /** A single price where one rate applies throughout; otherwise anything from half to full. */
  ghost function Reference(e: Entry, cost: real): Range {
    if Timed(e) && Uniform(e, Peak) then Range(cost, cost)
    else if Timed(e) && Uniform(e, OffPeak) then Range(cost / 2.0, cost / 2.0)
    else Range(cost / 2.0, cost)
  }

  /** Within one clock hour nothing changes. */
  lemma {:induction false} HourIsUniform(s: Time, t: Time)
    requires s / HOUR == t / HOUR
    ensures PeakAt(s) == PeakAt(t)
  {
    DayFromHour(s);
    DayFromHour(t);
  }

  lemma DayFromHour(t: Time)
    ensures DayOf(t) == (t / HOUR) / 24
  {
    var h, r := t / HOUR, t % HOUR;
    var d, k := h / 24, h % 24;
    assert t == d * DAY + (k * HOUR + r);
    assert 0 <= k * HOUR + r < DAY;
  }

  /** The clock hour that begins at `at` is behind, once the end or the next hour is reached. */
  lemma {:induction false} HourIsBehind(at: Time, t: Time)
    requires at % HOUR == 0 && at <= t < at + HOUR
    ensures PeakAt(t) == PeakAt(at)
  {
    assert t == (at / HOUR) * HOUR + (t - at);
    HourIsUniform(at, t);
  }

  function HourStart(t: Time): (r: Time)
    ensures r % HOUR == 0 && r <= t < r + HOUR
  {
    t - t % HOUR
  }

  method ReferenceCost(e: Entry, cost: real) returns (r: Range)
    ensures r == Reference(e, cost)
  {
    hide PeakAt, HourStart;
    r := Range(cost / 2.0, cost);
    if e.start.None? || e.durationMs < 0 || e.durationMs > DAY / MILLISECOND { return; }
    var start := e.start.value;
    var end := start + e.durationMs * MILLISECOND;
    if e.completed.Some? {
      end := e.completed.value;
    }
    if end < start || end - start > DAY { return; }
    assert During(e, start);
    var rate := PeakAt(start);
    if rate == Unknown { return; }
    var at := HourStart(start) + HOUR;
    FirstHour(start);
    while at <= end
      invariant at % HOUR == 0 && start < at
      invariant forall t :: During(e, t) && t < at ==> PeakAt(t) == rate
      decreases end - at
    {
      assert During(e, at);
      if PeakAt(at) != rate { return; }
      NextHour(at);
      at := at + HOUR;
    }
    assert Uniform(e, rate);
    if rate == Peak { return Range(cost, cost); }
    return Range(cost / 2.0, cost / 2.0);
  }

  lemma {:induction false} FirstHour(start: Time)
    ensures forall t :: start <= t < HourStart(start) + HOUR ==> PeakAt(t) == PeakAt(start)
    ensures (HourStart(start) + HOUR) % HOUR == 0 && HourStart(start) + HOUR > start
  {
    hide PeakAt;
    forall t | start <= t < HourStart(start) + HOUR ensures PeakAt(t) == PeakAt(start) {
      HourIsBehind(HourStart(start), t);
      HourIsBehind(HourStart(start), start);
    }
  }

  lemma NextHour(at: Time)
    requires at % HOUR == 0
    ensures (at + HOUR) % HOUR == 0 && forall t :: at <= t < at + HOUR ==> PeakAt(t) == PeakAt(at)
  {
    hide PeakAt;
    forall t | at <= t < at + HOUR ensures PeakAt(t) == PeakAt(at) { HourIsBehind(at, t); }
  }

  /** A single price is quoted exactly for the requests with one known rate at every instant. */
  lemma SinglePriceIffUniform(e: Entry, cost: real)
    requires cost > 0.0 && Timed(e)
    ensures var r := Reference(e, cost);
            r.low == r.high <==> exists rate :: Uniform(e, rate)
  {
    assert During(e, e.start.value);
    if rate :| Uniform(e, rate) { assert rate == Peak || rate == OffPeak; }
  }

  // ---------------------------------------------------------------- time-weighted costs

  /** Part of a request's work, done at an instant and billed at the full or the half price. */
  datatype Share = Share(at: Time, weight: real, full: bool)

  /** Billed at the rate in force, where that is known. */
  predicate Fair(e: Entry, s: Share) {
    During(e, s.at) && s.weight >= 0.0 && (PeakAt(s.at) == Peak ==> s.full) && (PeakAt(s.at) == OffPeak ==> !s.full)
  }

  function Weight(shares: seq<Share>): real {
    if shares == [] then 0.0 else shares[0].weight + Weight(shares[1..])
  }

  function Times(a: real, b: real): real { a * b }

  function Unit(s: Share, cost: real): real { if s.full then cost else cost / 2.0 }

  function Billed(shares: seq<Share>, cost: real): real {
    if shares == [] then 0.0 else Times(shares[0].weight, Unit(shares[0], cost)) + Billed(shares[1..], cost)
  }

  lemma {:induction false} BilledWithin(shares: seq<Share>, cost: real, low: real, high: real)
    requires forall s :: s in shares ==> s.weight >= 0.0 && low <= Unit(s, cost) <= high
    ensures Times(Weight(shares), low) <= Billed(shares, cost) <= Times(Weight(shares), high)
  {
    if shares == [] {
      assert Times(0.0, low) == 0.0 == Times(0.0, high);
    } else {
      hide Unit, Times;
      BilledWithin(shares[1..], cost, low, high);
      var w, unit, rest := shares[0].weight, Unit(shares[0], cost), Weight(shares[1..]);
      WeighBoth(w, low, unit);
      WeighBoth(w, unit, high);
      Distribute(w, rest, low);
      Distribute(w, rest, high);
    }
  }

  lemma Distribute(a: real, b: real, x: real)
    ensures Times(a + b, x) == Times(a, x) + Times(b, x)
  {}

  lemma WeighBoth(w: real, a: real, b: real)
    requires w >= 0.0 && a <= b
    ensures Times(w, a) <= Times(w, b)
  {
    assert w * (b - a) >= 0.0;
  }

  /** However the work is spread over the request's time, its cost lies in the quoted range. */
  lemma RangeHoldsEveryCost(e: Entry, cost: real, shares: seq<Share>)
    requires cost >= 0.0 && Weight(shares) == 1.0 && forall s :: s in shares ==> Fair(e, s)
    ensures Reference(e, cost).low <= Billed(shares, cost) <= Reference(e, cost).high
  {
    hide PeakAt;
    var r := Reference(e, cost);
    forall s | s in shares ensures r.low <= Unit(s, cost) <= r.high {
      assert Fair(e, s);
    }
    BilledWithin(shares, cost, r.low, r.high);
  }

  /** And both ends of the range can be what the request costs. */
  lemma RangeIsTight(e: Entry, cost: real) returns (cheap: Share, dear: Share)
    requires Timed(e)
    ensures Fair(e, cheap) && Fair(e, dear) && Weight([cheap]) == Weight([dear]) == 1.0
    ensures Billed([cheap], cost) == Reference(e, cost).low && Billed([dear], cost) == Reference(e, cost).high
  {
    hide PeakAt;
    var start := e.start.value;
    assert During(e, start);
    cheap, dear := Share(start, 1.0, PeakAt(start) == Peak), Share(start, 1.0, PeakAt(start) == Peak);
    if !Uniform(e, Peak) && !Uniform(e, OffPeak) {
      var s :| During(e, s) && PeakAt(s) != Peak;
      var t :| During(e, t) && PeakAt(t) != OffPeak;
      cheap, dear := Share(s, 1.0, false), Share(t, 1.0, true);
    }
    OneShare(cheap, cost);
    OneShare(dear, cost);
  }

  lemma OneShare(s: Share, cost: real)
    requires s.weight == 1.0
    ensures Weight([s]) == 1.0 && Billed([s], cost) == Unit(s, cost)
  {
    assert [s][1..] == [];
  }
}
