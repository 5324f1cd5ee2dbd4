/**
 * Instants and UTC calendar dates, with the three layouts the sync engine formats or
 * parses: "2006-01-02", "2006-01-02T15:04:05.000Z" and the midnight truncation
 * time.Date(y, m, d, 0, 0, 0, 0, time.UTC).
 *
 * An instant is a whole number of milliseconds since Go's zero time,
 * 0001-01-01T00:00:00Z, so `time.Time{}.IsZero()` is the instant 0.
 */
module Clock {
  import opened Wrappers
  import opened Text

  type Time = int

  const SecondMs: int := 1000
  const MinuteMs: int := 60000
  const HourMs: int := 3600000
  /** Milliseconds in a day. Arithmetic below writes the literal, which the solver divides by linearly. */
  const DayMs: int := 86400000

  predicate IsZero(t: Time) { t == 0 }

  datatype Date = Date(year: int, month: nat, day: nat)

  predicate IsLeap(y: int) { y % 4 == 0 && (y % 100 != 0 || y % 400 == 0) }

  function DaysInYear(y: int): int { if IsLeap(y) then 366 else 365 }

  /** Days in the months before month m of year y (m = 13 gives the whole year), as Go's daysBefore table. */
  function DaysBeforeMonth(m: nat, y: int): (r: int)
    requires 1 <= m <= 13
    ensures m == 13 ==> r == DaysInYear(y)
  {
    var table := [0, 0, 31, 59, 90, 120, 151, 181, 212, 243, 273, 304, 334, 365];
    table[m] + (if IsLeap(y) && m > 2 then 1 else 0)
  }

  function DaysInMonth(m: nat, y: int): (r: int)
    requires 1 <= m <= 12
    ensures r == DaysBeforeMonth(m + 1, y) - DaysBeforeMonth(m, y)
    ensures 28 <= r <= 31
  {
    if m == 2 then (if IsLeap(y) then 29 else 28)
    else if m == 4 || m == 6 || m == 9 || m == 11 then 30
    else 31
  }

  predicate ValidDate(d: Date) {
    1 <= d.month <= 12 && 1 <= d.day <= DaysInMonth(d.month, d.year)
  }

  /** Days from 0001-01-01 to January 1st of year y (negative before year 1). */
  function DaysBeforeYear(y: int): int
    decreases if y >= 1 then y - 1 else 1 - y
  {
    if y == 1 then 0
    else if y > 1 then DaysBeforeYear(y - 1) + DaysInYear(y - 1)
    else DaysBeforeYear(y + 1) - DaysInYear(y)
  }

  lemma DaysBeforeNextYear(y: int)
    ensures DaysBeforeYear(y + 1) == DaysBeforeYear(y) + DaysInYear(y)
  {
  }

  /** Later years start at least a whole year later. */
  lemma {:induction false} DaysBeforeYearGrows(y: int, z: int)
    requires y < z
    ensures DaysBeforeYear(z) >= DaysBeforeYear(y) + DaysInYear(y)
    decreases z - y
  {
    DaysBeforeNextYear(y);
    if y + 1 < z {
      DaysBeforeYearGrows(y + 1, z);
    }
  }

  /** Days from 0001-01-01 to d. */
  function DayNumber(d: Date): int
    requires ValidDate(d)
  {
    DaysBeforeYear(d.year) + DaysBeforeMonth(d.month, d.year) + d.day - 1
  }

  /** time.Date(y, m, d, 0, 0, 0, 0, time.UTC) for a valid date. */
  function DateToTime(d: Date): Time
    requires ValidDate(d)
  {
    DayNumber(d) * 86400000
  }

  /** The year holding day n of year y (n may run past either end) and that day's place in it. */
  function YearWalk(y: int, n: int): (r: (int, int))
    ensures 0 <= r.1 < DaysInYear(r.0)
    ensures DaysBeforeYear(r.0) + r.1 == DaysBeforeYear(y) + n
    decreases if n < 0 then -n else 0, if n < 0 then 0 else n
  {
    DaysBeforeNextYear(y);
    DaysBeforeNextYear(y - 1);
    if 0 <= n < DaysInYear(y) then (y, n)
    else if n >= DaysInYear(y) then YearWalk(y + 1, n - DaysInYear(y))
    else YearWalk(y - 1, n + DaysInYear(y - 1))
  }

  /** The month of year y, searched from month m on, that holds day-of-year n. */
  function MonthWalk(y: int, m: nat, n: int): (r: nat)
    requires 1 <= m <= 12 && DaysBeforeMonth(m, y) <= n < DaysInYear(y)
    ensures m <= r <= 12 && DaysBeforeMonth(r, y) <= n < DaysBeforeMonth(r + 1, y)
    decreases 12 - m
  {
    if m == 12 || n < DaysBeforeMonth(m + 1, y) then m else MonthWalk(y, m + 1, n)
  }

  /** t.UTC()'s calendar date. */
  function CivilDate(t: Time): (r: Date)
    ensures ValidDate(r)
    ensures DayNumber(r) == t / 86400000
  {
    var (y, k) := YearWalk(1, t / 86400000);
    var m := MonthWalk(y, 1, k);
    Date(y, m, (k - DaysBeforeMonth(m, y) + 1) as nat)
  }

  /** A day number has one year and one day-of-year. */
  lemma {:induction false} YearUnique(y1: int, k1: int, y2: int, k2: int)
    requires 0 <= k1 < DaysInYear(y1) && 0 <= k2 < DaysInYear(y2)
    requires DaysBeforeYear(y1) + k1 == DaysBeforeYear(y2) + k2
    ensures y1 == y2 && k1 == k2
  {
    if y1 < y2 {
      DaysBeforeYearGrows(y1, y2);
    } else if y2 < y1 {
      DaysBeforeYearGrows(y2, y1);
    }
  }

  /** Within a year, a day-of-year falls in one month only. */
  lemma MonthUnique(y: int, m1: nat, m2: nat, n: int)
    requires 1 <= m1 <= 12 && 1 <= m2 <= 12
    requires DaysBeforeMonth(m1, y) <= n < DaysBeforeMonth(m1 + 1, y)
    requires DaysBeforeMonth(m2, y) <= n < DaysBeforeMonth(m2 + 1, y)
    ensures m1 == m2
  {
  }

  /** The calendar date of a date's own midnight is that date. */
  lemma CivilDateOfDate(d: Date)
    requires ValidDate(d)
    ensures CivilDate(DateToTime(d)) == d
  {
    var r := CivilDate(DateToTime(d));
    assert DateToTime(d) / DayMs == DayNumber(d);
    var doy := DaysBeforeMonth(d.month, d.year) + d.day - 1;
    var rdoy := DaysBeforeMonth(r.month, r.year) + r.day - 1;
    assert 0 <= doy < DaysInYear(d.year);
    assert 0 <= rdoy < DaysInYear(r.year);
    YearUnique(r.year, rdoy, d.year, doy);
    MonthUnique(d.year, r.month, d.month, doy);
  }

  /**
   * time.Date(t.Year(), t.Month(), t.Day(), 0, 0, 0, 0, time.UTC): the start of t's UTC day,
   * which is t rounded down to a whole number of days.
   */
  function TruncateToDay(t: Time): (r: Time)
    ensures r == t - t % 86400000
    ensures r <= t < r + 86400000 && r % 86400000 == 0
  {
    DateToTime(CivilDate(t))
  }

  /** Truncation is idempotent, and monotone. */
  lemma TruncateToDayProperties(t: Time, u: Time)
    ensures TruncateToDay(TruncateToDay(t)) == TruncateToDay(t)
    ensures t <= u ==> TruncateToDay(t) <= TruncateToDay(u)
  {
    var a := TruncateToDay(t);
    assert a == (t / DayMs) * DayMs;
    if t <= u {
      assert t / DayMs <= u / DayMs;
    }
  }

  /** The day of t is the one whole-day instant r with r <= t < r + DayMs. */
  lemma TruncateToDayUnique(t: Time, r: Time)
    requires r % DayMs == 0 && r <= t < r + DayMs
    ensures TruncateToDay(t) == r
  {
    assert DayMs == 86400000;
    assert r == (r / 86400000) * 86400000;
    assert t / 86400000 == r / 86400000;
  }

  /** Two instants of one UTC day have one calendar date. */
  lemma SameCivilDate(t: Time, u: Time)
    requires TruncateToDay(t) == TruncateToDay(u)
    ensures CivilDate(t) == CivilDate(u)
  {
    CivilDateOfDate(CivilDate(t));
    CivilDateOfDate(CivilDate(u));
  }

  /** t.Format("2006-01-02"): year padded to four digits (Go's appendInt), month and day to two. */
  function FormatDate(d: Date): (r: string)
    requires ValidDate(d)
  {
    PadInt(d.year, 4) + "-" + PadDigits(d.month, 2) + "-" + PadDigits(d.day, 2)
  }

  /**
   * time.Parse("2006-01-02", s) in UTC: exactly four year digits, two month digits and two day
   * digits joined by dashes; month and day must name a real calendar day; nothing may follow.
   */
  function ParseDate(s: string): (r: Option<Date>)
    ensures r.Some? ==> ValidDate(r.value) && 0 <= r.value.year <= 9999
  {
    if |s| != 10 || s[4] != '-' || s[7] != '-' ||
       !AllDigits(s[0..4]) || !AllDigits(s[5..7]) || !AllDigits(s[8..10]) then None
    else
      var y := DigitsValue(s[0..4]);
      var d := Date(y, DigitsValue(s[5..7]), DigitsValue(s[8..10]));
      assert y <= 9999 by { FixedWidthBound(s[0..4]); }
      if ValidDate(d) then Some(d) else None
  }

  lemma {:induction false} FixedWidthBound(s: string)
    requires AllDigits(s)
    ensures DigitsValue(s) < Pow10(|s|)
  {
    if s != [] {
      FixedWidthBound(s[..|s| - 1]);
    }
  }

  function Pow10(k: nat): (r: nat)
    ensures r >= 1
  {
    if k == 0 then 1 else 10 * Pow10(k - 1)
  }

  /** The decimal form of n has at most k digits when n < 10^k. */
  lemma {:induction false} NatToDigitsShort(n: nat, k: nat)
    requires n < Pow10(k) && k >= 1
    ensures |NatToDigits(n)| <= k
  {
    if n >= 10 {
      assert k >= 2;
      assert n / 10 < Pow10(k - 1);
      NatToDigitsShort(n / 10, k - 1);
    }
  }

  lemma PadDigitsExact(n: nat, k: nat)
    requires n < Pow10(k) && k >= 1
    ensures |PadDigits(n, k)| == k
  {
    NatToDigitsShort(n, k);
  }

  /** Parsing four, two and two digits joined by dashes reads their values, and keeps the date when it is a real one. */
  lemma ParseJoined(ys: string, ms: string, ds: string)
    requires |ys| == 4 && |ms| == 2 && |ds| == 2 && AllDigits(ys) && AllDigits(ms) && AllDigits(ds)
    ensures var d := Date(DigitsValue(ys), DigitsValue(ms), DigitsValue(ds));
      ParseDate(ys + "-" + ms + "-" + ds) == if ValidDate(d) then Some(d) else None
  {
    var s := ys + "-" + ms + "-" + ds;
    assert s[0..4] == ys && s[5..7] == ms && s[8..10] == ds;
    assert s[4] == '-' && s[7] == '-';
  }

  /** Formatting then parsing a date of years 0 to 9999 gives the date back. */
  lemma ParseFormatDate(d: Date)
    requires ValidDate(d) && 0 <= d.year <= 9999
    ensures ParseDate(FormatDate(d)) == Some(d)
  {
    PadDigitsExact(d.year, 4);
    PadDigitsExact(d.month, 2);
    PadDigitsExact(d.day, 2);
    ParseJoined(PadDigits(d.year, 4), PadDigits(d.month, 2), PadDigits(d.day, 2));
  }

  /** Hours, minutes, seconds and milliseconds into a UTC day. */
  datatype TimeOfDay = TimeOfDay(hour: nat, minute: nat, second: nat, milli: nat)

  /** t.UTC()'s clock reading, which with its date gives back t. */
  function ClockOf(t: Time): (r: TimeOfDay)
    ensures r.hour < 24 && r.minute < 60 && r.second < 60 && r.milli < 1000
    ensures TruncateToDay(t) + r.hour * 3600000 + r.minute * 60000 + r.second * 1000 + r.milli == t
  {
    var w := t % 86400000;
    var h := w / 3600000;
    var wm := w % 3600000;
    var m := wm / 60000;
    var ws := wm % 60000;
    var sec := ws / 1000;
    assert w == h * 3600000 + wm;
    assert wm == m * 60000 + ws;
    assert ws == sec * 1000 + ws % 1000;
    TimeOfDay(h, m, sec, ws % 1000)
  }

  /** Midnight reads 00:00:00.000 and the day's last millisecond 23:59:59.999. */
  lemma ClockOfDayEnds(t: Time)
    ensures t % DayMs == 0 ==> ClockOf(t) == TimeOfDay(0, 0, 0, 0)
    ensures t % DayMs == DayMs - 1 ==> ClockOf(t) == TimeOfDay(23, 59, 59, 999)
  {
    var c := ClockOf(t);
    assert c.hour * 3600000 + c.minute * 60000 + c.second * 1000 + c.milli == t % DayMs;
  }

  /** The clock part of the millisecond layout: "T15:04:05.000Z". */
  function ClockText(c: TimeOfDay): string {
    "T" + PadDigits(c.hour, 2) + ":" + PadDigits(c.minute, 2) + ":" + PadDigits(c.second, 2) + "." +
      PadDigits(c.milli, 3) + "Z"
  }

  /** t.UTC().Format("2006-01-02T15:04:05.000Z"): the date, the clock to the millisecond, a literal Z. */
  function FormatMillis(t: Time): string {
    FormatDate(CivilDate(t)) + ClockText(ClockOf(t))
  }

  /** t.UTC().Format("20060102_150405"): the date and the clock to the second, without separators. */
  function FormatCompact(t: Time): string {
    var d := CivilDate(t);
    var c := ClockOf(t);
    PadInt(d.year, 4) + PadDigits(d.month, 2) + PadDigits(d.day, 2) + "_" +
      PadDigits(c.hour, 2) + PadDigits(c.minute, 2) + PadDigits(c.second, 2)
  }
}
