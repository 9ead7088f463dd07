/**
 The UTC stamp `20060102-150405` in a profile's file name, from Unix seconds: the proleptic
 Gregorian date of the day, then the time of day.
 */
module Timestamp {
  import opened Prelude
  import opened Decimal

  predicate IsLeap(year: nat) {
    year % 4 == 0 && (year % 100 != 0 || year % 400 == 0)
  }

  function DaysInYear(year: nat): nat {
    if IsLeap(year) then 366 else 365
  }

  function DaysInMonth(year: nat, month: nat): (d: nat)
    ensures 28 <= d <= 31
  {
    if month == 2 then (if IsLeap(year) then 29 else 28)
    else if month in {4, 6, 9, 11} then 30
    else 31
  }

  /** The year that contains the day `days` after the first of January of `year`, and the day's
      zero-based place in it. */
  function YearAndDay(days: nat, year: nat): (r: (nat, nat))
    ensures r.0 >= year
    decreases days
  {
    if days < DaysInYear(year) then (year, days)
    else YearAndDay(days - DaysInYear(year), year + 1)
  }

  /** Likewise for a month, and the one-based day in it. */
  function MonthAndDay(year: nat, days: nat, month: nat): (r: (nat, nat))
    ensures r.0 >= month && 1 <= r.1 <= 31
    decreases days
  {
    if days < DaysInMonth(year, month) then (month, days + 1)
    else MonthAndDay(year, days - DaysInMonth(year, month), month + 1)
  }

  datatype Civil = Civil(year: nat, month: nat, day: nat, hour: nat, minute: nat, second: nat)

  function CivilOf(unix: nat): Civil {
    var yd := YearAndDay(unix / 86400, 1970);
    var md := MonthAndDay(yd.0, yd.1, 1);
    Civil(yd.0, md.0, md.1, unix % 86400 / 3600, unix % 3600 / 60, unix % 60)
  }

  function Stamp(unix: nat): string {
    var c := CivilOf(unix);
    (Padded(c.year, 4) + Padded(c.month, 2) + Padded(c.day, 2)) + "-"
    + (Padded(c.hour, 2) + Padded(c.minute, 2) + Padded(c.second, 2))
  }

  // ---- the calendar in closed form ----

  /** Whole days of the year before a month, in years without and with a 29th of February. */
  function DaysBefore(year: nat, month: nat): int
    requires 1 <= month <= 12
  {
    [0, 31, 59, 90, 120, 151, 181, 212, 243, 273, 304, 334][month - 1]
    + (if month > 2 && year % 4 == 0 && (year % 100 != 0 || year % 400 == 0) then 1 else 0)
  }

  function LengthOf(year: nat, month: nat): (days: int)
    requires 1 <= month <= 12
    ensures 28 <= days <= 31
  {
    if month == 2 && year % 4 == 0 && (year % 100 != 0 || year % 400 == 0) then 29
    else [31, 28, 31, 30, 31, 30, 31, 31, 30, 31, 30, 31][month - 1]
  }

  /** Seconds since the epoch by the formula of POSIX.1-2017, Base Definitions, section 4.16, where years
      count from 1900. */
  function SecondsSinceEpoch(c: Civil): int
    requires 1 <= c.month <= 12 && c.year >= 1970
  {
    var year, yday := c.year - 1900, DaysBefore(c.year, c.month) + c.day - 1;
    c.second + c.minute * 60 + c.hour * 3600 + yday * 86400
    + (year - 70) * 31536000 + ((year - 69) / 4) * 86400 - ((year - 1) / 100) * 86400 + ((year + 299) / 400) * 86400
  }

  /** The days of the years before this one, counted from a fixed origin. */
  function DaysToYear(year: nat): int {
    365 * year + (year - 1) / 4 - (year - 1) / 100 + (year - 1) / 400
  }

  lemma YearLength(year: nat)
    ensures DaysToYear(year + 1) == DaysToYear(year) + DaysInYear(year)
  {
    assert year / 4 - (year - 1) / 4 == if year % 4 == 0 then 1 else 0;
    assert year / 100 - (year - 1) / 100 == if year % 100 == 0 then 1 else 0;
    assert year / 400 - (year - 1) / 400 == if year % 400 == 0 then 1 else 0;
  }

  lemma {:induction false} YearAndDayCounts(days: nat, year: nat)
    ensures var r := YearAndDay(days, year);
            DaysToYear(r.0) + r.1 == DaysToYear(year) + days && r.1 < DaysInYear(r.0)
    decreases days
  {
    if days < DaysInYear(year) {
    } else {
      YearLength(year);
      hide DaysToYear, DaysInYear;
      YearAndDayCounts(days - DaysInYear(year), year + 1);
    }
  }

  lemma MonthLengths(year: nat, month: nat)
    requires 1 <= month <= 12
    ensures DaysInMonth(year, month) == LengthOf(year, month)
    ensures DaysBefore(year, month) + LengthOf(year, month)
            == if month == 12 then DaysInYear(year) else DaysBefore(year, month + 1)
  {
  }

  lemma {:induction false} MonthAndDayCounts(year: nat, days: nat, month: nat)
    requires 1 <= month <= 12 && DaysBefore(year, month) + days < DaysInYear(year)
    ensures var r := MonthAndDay(year, days, month);
            && r.0 <= 12 && r.1 <= LengthOf(year, r.0)
            && DaysBefore(year, r.0) + r.1 - 1 == DaysBefore(year, month) + days
    decreases days
  {
    MonthLengths(year, month);
    hide DaysBefore, LengthOf, DaysInYear;
    if days < DaysInMonth(year, month) {
    } else {
      MonthAndDayCounts(year, days - DaysInMonth(year, month), month + 1);
    }
  }

  lemma DayOfCivil(unix: nat)
    ensures var c := CivilOf(unix);
            && c.year >= 1970 && 1 <= c.month <= 12 && 1 <= c.day <= LengthOf(c.year, c.month)
            && DaysToYear(c.year) + DaysBefore(c.year, c.month) + c.day - 1 == DaysToYear(1970) + unix / 86400
  {
    var yd := YearAndDay(unix / 86400, 1970);
    YearAndDayCounts(unix / 86400, 1970);
    assert DaysBefore(yd.0, 1) == 0;
    MonthAndDayCounts(yd.0, yd.1, 1);
  }

  /** The fields of a moment are those of a real date and time of day. */
  lemma CivilInRange(unix: nat)
    ensures var c := CivilOf(unix);
            && c.year >= 1970 && 1 <= c.month <= 12 && 1 <= c.day <= LengthOf(c.year, c.month)
            && c.hour < 24 && c.minute < 60 && c.second < 60
  {
    DayOfCivil(unix);
  }

  lemma SecondsOfDay(t: nat)
    ensures t == t / 86400 * 86400 + t % 86400 / 3600 * 3600 + t % 3600 / 60 * 60 + t % 60
  {
    assert t % 86400 % 3600 == t % 3600;
    assert t % 3600 % 60 == t % 60;
  }

  /** The formula's year terms count the days from the first of January 1970. */
  lemma DaysSinceEpoch(year: nat)
    requires year >= 1970
    ensures (year - 1970) * 365 + (year - 1969) / 4 - (year - 1901) / 100 + (year - 1601) / 400
            == DaysToYear(year) - DaysToYear(1970)
  {
    assert (year - 1969) / 4 == (year - 1) / 4 - 492;
    assert (year - 1901) / 100 == (year - 1) / 100 - 19;
    assert (year - 1601) / 400 == (year - 1) / 400 - 4;
  }

  /** The civil date and time of a moment is the one that POSIX counts as that moment. */
  lemma CivilCountsBack(unix: nat)
    ensures var c := CivilOf(unix); 1 <= c.month <= 12 && c.year >= 1970 && SecondsSinceEpoch(c) == unix
  {
    var c := CivilOf(unix);
    DayOfCivil(unix);
    SecondsOfDay(unix);
    DaysSinceEpoch(c.year);
    hide YearAndDay, MonthAndDay, DaysBefore, LengthOf, DaysToYear;
    var days := DaysToYear(c.year) - DaysToYear(1970) + DaysBefore(c.year, c.month) + c.day - 1;
    assert SecondsSinceEpoch(c) == days * 86400 + c.hour * 3600 + c.minute * 60 + c.second;
  }

  // ---- reading a stamp ----

  /** A number, and after it two numbers of two digits. */
  function ThreeNumbers(s: string): (nat, nat, nat)
    requires |s| >= 4 && AllDigits(s)
  {
    (Value(s[..|s| - 4]), Value(s[|s| - 4..|s| - 2]), Value(s[|s| - 2..]))
  }

  /** The fields of a stamp, found from its end because a year may have more than four digits. */
  function ReadStamp(s: string): Option<Civil> {
    if |s| < 15 || s[|s| - 7] != '-' || !AllDigits(s[..|s| - 7]) || !AllDigits(s[|s| - 6..]) then None
    else
      var date, time := ThreeNumbers(s[..|s| - 7]), ThreeNumbers(s[|s| - 6..]);
      Some(Civil(date.0, date.1, date.2, time.0, time.1, time.2))
  }

  lemma ThreeNumbersOf(a: string, b: string, c: string)
    requires |b| == |c| == 2 && AllDigits(a) && AllDigits(b) && AllDigits(c)
    ensures AllDigits(a + b + c) && ThreeNumbers(a + b + c) == (Value(a), Value(b), Value(c))
  {
    hide Value;
    var s := a + b + c;
    assert s[..|s| - 4] == a && s[|s| - 4..|s| - 2] == b && s[|s| - 2..] == c;
  }

  lemma ReadDashed(date: string, time: string)
    requires |date| >= 8 && |time| == 6 && AllDigits(date) && AllDigits(time)
    ensures var d, t := ThreeNumbers(date), ThreeNumbers(time);
            ReadStamp(date + "-" + time) == Some(Civil(d.0, d.1, d.2, t.0, t.1, t.2))
  {
    hide ThreeNumbers;
    var s := date + "-" + time;
    assert s[..|s| - 7] == date && s[|s| - 6..] == time;
  }

  lemma TwoDigitField(n: nat)
    requires n < 100
    ensures |Padded(n, 2)| == 2 && Value(Padded(n, 2)) == n
  {
    TwoDigits(n);
    ValueOfPadded(n, 2);
  }

  /** A stamp reads back, field by field, as the date and time it was made from. */
  lemma StampReadsBack(unix: nat)
    ensures ReadStamp(Stamp(unix)) == Some(CivilOf(unix))
  {
    var c := CivilOf(unix);
    CivilInRange(unix);
    hide CivilOf, Padded, Value, AllDigits, ReadStamp, ThreeNumbers, LengthOf;
    ValueOfPadded(c.year, 4);
    TwoDigitField(c.month);
    TwoDigitField(c.day);
    TwoDigitField(c.hour);
    TwoDigitField(c.minute);
    TwoDigitField(c.second);
    ThreeNumbersOf(Padded(c.year, 4), Padded(c.month, 2), Padded(c.day, 2));
    ThreeNumbersOf(Padded(c.hour, 2), Padded(c.minute, 2), Padded(c.second, 2));
    ReadDashed(Padded(c.year, 4) + Padded(c.month, 2) + Padded(c.day, 2),
               Padded(c.hour, 2) + Padded(c.minute, 2) + Padded(c.second, 2));
  }

  /** Two moments print the same stamp exactly when they fall in the same second. */
  lemma StampInjective(t: nat, u: nat)
    ensures Stamp(t) == Stamp(u) <==> t == u
  {
    StampReadsBack(t);
    StampReadsBack(u);
    CivilCountsBack(t);
    CivilCountsBack(u);
  }
}
