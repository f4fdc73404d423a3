/**
 * Proleptic Gregorian dates as Python's `datetime.date` handles them: the
 * ordinal and weekday, `date + timedelta(days=1)`, `strptime(s, "%Y-%m-%d")`
 * and `strftime("%Y-%m-%d")`, the inclusive day list of the rota period and
 * the point weight of each night.
 */
module Calendar {
  import opened Wrappers
  import opened Errors

  datatype Date = Date(year: int, month: int, day: int)

  /** The last date `datetime.date` can hold. */
  const MaxDate := Date(9999, 12, 31)

  predicate IsLeapYear(y: int) {
    y % 4 == 0 && (y % 100 != 0 || y % 400 == 0)
  }

  function DaysInMonth(y: int, m: int): int {
    if m == 2 then (if IsLeapYear(y) then 29 else 28)
    else if m == 4 || m == 6 || m == 9 || m == 11 then 30
    else 31
  }

  function DaysInYear(y: int): int {
    if IsLeapYear(y) then 366 else 365
  }

  /** The dates `datetime.date` can represent. */
  predicate Valid(d: Date) {
    1 <= d.year <= 9999 && 1 <= d.month <= 12 && 1 <= d.day <= DaysInMonth(d.year, d.month)
  }

  /** Python's `<` on dates: lexicographic on (year, month, day). */
  predicate Before(a: Date, b: Date) {
    a.year < b.year || (a.year == b.year && (a.month < b.month || (a.month == b.month && a.day < b.day)))
  }

  /** Python's `<=` on dates. */
  predicate AtMost(a: Date, b: Date) {
    a == b || Before(a, b)
  }

  function DaysBeforeYear(y: int): int
    requires y >= 1
  {
    var p := y - 1;
    365 * p + p / 4 - p / 100 + p / 400
  }

  function DaysBeforeMonth(y: int, m: int): int
    requires 1 <= m <= 12
  {
    (if m == 1 then 0 else if m == 2 then 31 else if m == 3 then 59 else if m == 4 then 90
     else if m == 5 then 120 else if m == 6 then 151 else if m == 7 then 181
     else if m == 8 then 212 else if m == 9 then 243 else if m == 10 then 273
     else if m == 11 then 304 else 334)
    + (if m > 2 && IsLeapYear(y) then 1 else 0)
  }

  /** `date.toordinal()`: 0001-01-01 is day 1. */
  function Ordinal(d: Date): int
    requires Valid(d)
  {
    DaysBeforeYear(d.year) + DaysBeforeMonth(d.year, d.month) + d.day
  }

  /** `date.weekday()`: Monday is 0, Saturday 5 and Sunday 6 (0001-01-01 was a Monday). */
  function Weekday(d: Date): (w: int)
    requires Valid(d)
    ensures 0 <= w < 7
  {
    (Ordinal(d) + 6) % 7
  }

  /** `date + timedelta(days=1)`; `None` where Python raises OverflowError. */
  function NextDay(d: Date): Option<Date>
    requires Valid(d)
  {
    if d.day < DaysInMonth(d.year, d.month) then Some(Date(d.year, d.month, d.day + 1))
    else if d.month < 12 then Some(Date(d.year, d.month + 1, 1))
    else if d.year < 9999 then Some(Date(d.year + 1, 1, 1))
    else None
  }

  lemma YearStep(y: int)
    requires y >= 1
    ensures DaysBeforeYear(y + 1) == DaysBeforeYear(y) + DaysInYear(y)
  {
    var p := y - 1;
    assert (p + 1) / 4 - p / 4 == (if y % 4 == 0 then 1 else 0);
    assert (p + 1) / 100 - p / 100 == (if y % 100 == 0 then 1 else 0);
    assert (p + 1) / 400 - p / 400 == (if y % 400 == 0 then 1 else 0);
  }

  lemma MonthStep(y: int, m: int)
    requires 1 <= m < 12
    ensures DaysBeforeMonth(y, m + 1) == DaysBeforeMonth(y, m) + DaysInMonth(y, m)
  {
  }

  lemma MonthsFillYear(y: int)
    ensures DaysBeforeMonth(y, 12) + DaysInMonth(y, 12) == DaysInYear(y)
  {
  }

  lemma MonthOrder(y: int, m1: int, m2: int)
    requires 1 <= m1 < m2 <= 12
    ensures DaysBeforeMonth(y, m1) + DaysInMonth(y, m1) <= DaysBeforeMonth(y, m2)
  {
  }

  lemma {:induction false} YearOrder(a: int, b: int)
    requires 1 <= a <= b
    ensures DaysBeforeYear(a) <= DaysBeforeYear(b)
    decreases b - a
  {
    if a < b {
      YearStep(a);
      YearOrder(a + 1, b);
    }
  }

  /** One day later is one ordinal later, and strictly after; only 9999-12-31 has no successor. */
  lemma NextDayStep(d: Date)
    requires Valid(d)
    ensures NextDay(d).None? <==> d == MaxDate
    ensures NextDay(d).Some? ==>
      var n := NextDay(d).value;
      Valid(n) && Ordinal(n) == Ordinal(d) + 1 && Before(d, n)
  {
    if d.day < DaysInMonth(d.year, d.month) {
    } else if d.month < 12 {
      MonthStep(d.year, d.month);
    } else if d.year < 9999 {
      MonthsFillYear(d.year);
      YearStep(d.year);
    }
  }

  /** The ordinal is strictly monotone in Python's date order. */
  lemma OrdinalMonotone(a: Date, b: Date)
    requires Valid(a) && Valid(b) && Before(a, b)
    ensures Ordinal(a) < Ordinal(b)
  {
    if a.year < b.year {
      if a.month < 12 {
        MonthOrder(a.year, a.month, 12);
      }
      MonthsFillYear(a.year);
      YearStep(a.year);
      YearOrder(a.year + 1, b.year);
    } else if a.month < b.month {
      MonthOrder(a.year, a.month, b.month);
    }
  }

  /** Distinct valid dates have distinct ordinals. */
  lemma OrdinalInjective(a: Date, b: Date)
    requires Valid(a) && Valid(b) && Ordinal(a) == Ordinal(b)
    ensures a == b
  {
    if Before(a, b) {
      OrdinalMonotone(a, b);
    } else if Before(b, a) {
      OrdinalMonotone(b, a);
    }
  }

  /** Python's `<=` on valid dates agrees with the ordinal. */
  lemma AtMostByOrdinal(a: Date, b: Date)
    requires Valid(a) && Valid(b)
    ensures AtMost(a, b) <==> Ordinal(a) <= Ordinal(b)
  {
    if Before(a, b) {
      OrdinalMonotone(a, b);
    } else if Before(b, a) {
      OrdinalMonotone(b, a);
    }
  }

  /** The weekday advances by one, modulo seven, from one day to the next. */
  lemma WeekdayStep(d: Date)
    requires Valid(d) && d != MaxDate
    ensures NextDay(d).Some? && Weekday(NextDay(d).value) == (Weekday(d) + 1) % 7
  {
    NextDayStep(d);
    ModSevenStep(Ordinal(d) + 6);
  }

  lemma ModSevenStep(x: int)
    ensures (x + 1) % 7 == (x % 7 + 1) % 7
  {
  }

  // ---------------------------------------------------------------------
  // strptime(s, "%Y-%m-%d") and strftime("%Y-%m-%d")

  predicate IsDigit(c: char) {
    '0' <= c <= '9'
  }

  function DigitValue(c: char): int
    requires IsDigit(c)
  {
    c as int - '0' as int
  }

  function Digit(n: int): char
    requires 0 <= n <= 9
  {
    (n + '0' as int) as char
  }

  function Pow10(w: nat): nat {
    if w == 0 then 1 else 10 * Pow10(w - 1)
  }

  /** The decimal value of a string of digits. */
  function Number(s: string): int
    requires forall i :: 0 <= i < |s| ==> IsDigit(s[i])
  {
    if s == [] then 0 else 10 * Number(s[..|s| - 1]) + DigitValue(s[|s| - 1])
  }

  /** The last `width` decimal digits of `n`, zero-padded. */
  function Pad(n: nat, width: nat): (s: string)
    ensures |s| == width
    ensures forall i :: 0 <= i < |s| ==> IsDigit(s[i])
  {
    if width == 0 then [] else Pad(n / 10, width - 1) + [Digit(n % 10)]
  }

  /**
   * `strftime("%Y-%m-%d")`: the calendar date in the extended format of
   * section 5.2.1.1 of ISO 8601:2004, YYYY-MM-DD.
   */
  function FormatDate(d: Date): (s: string)
    requires Valid(d)
  {
    Pad(d.year, 4) + "-" + Pad(d.month, 2) + "-" + Pad(d.day, 2)
  }

  /** The `%m` field: the first of `1[0-2]`, `0[1-9]`, `[1-9]` that matches. */
  function MonthField(t: string): Option<(int, string)> {
    if |t| >= 2 && t[0] == '1' && '0' <= t[1] <= '2' then Some((10 + DigitValue(t[1]), t[2..]))
    else if |t| >= 2 && t[0] == '0' && '1' <= t[1] <= '9' then Some((DigitValue(t[1]), t[2..]))
    else if |t| >= 1 && '1' <= t[0] <= '9' then Some((DigitValue(t[0]), t[1..]))
    else None
  }

  /** The `%d` field: the first of `3[01]`, `[12]\d`, `0[1-9]`, `[1-9]`, ` [1-9]` that matches. */
  function DayField(t: string): Option<(int, string)> {
    if |t| >= 2 && t[0] == '3' && (t[1] == '0' || t[1] == '1') then Some((30 + DigitValue(t[1]), t[2..]))
    else if |t| >= 2 && (t[0] == '1' || t[0] == '2') && IsDigit(t[1]) then
      Some((10 * DigitValue(t[0]) + DigitValue(t[1]), t[2..]))
    else if |t| >= 2 && t[0] == '0' && '1' <= t[1] <= '9' then Some((DigitValue(t[1]), t[2..]))
    else if |t| >= 1 && '1' <= t[0] <= '9' then Some((DigitValue(t[0]), t[1..]))
    else if |t| >= 2 && t[0] == ' ' && '1' <= t[1] <= '9' then Some((DigitValue(t[1]), t[2..]))
    else None
  }

  /**
   * `parse_date`: `strptime(s, "%Y-%m-%d").date()`. Four digits, '-', the
   * month field, '-', the day field, nothing left over, and a date that
   * exists; `None` where strptime raises ValueError.
   */
  function ParseDate(s: string): (r: Option<Date>)
    ensures r.Some? ==> Valid(r.value)
  {
    if |s| < 5 || !IsDigit(s[0]) || !IsDigit(s[1]) || !IsDigit(s[2]) || !IsDigit(s[3]) || s[4] != '-' then None
    else
      match MonthField(s[5..])
      case None => None
      case Some((month, rest)) =>
        if rest == [] || rest[0] != '-' then None
        else
          match DayField(rest[1..])
          case None => None
          case Some((day, tail)) =>
            var d := Date(Number(s[..4]), month, day);
            if tail == [] && Valid(d) then Some(d) else None
  }

  lemma {:induction false} NumberOfPad(n: nat, width: nat)
    requires n < Pow10(width)
    ensures Number(Pad(n, width)) == n
  {
    if width > 0 {
      NumberOfPad(n / 10, width - 1);
      var s := Pad(n, width);
      assert s[..|s| - 1] == Pad(n / 10, width - 1);
    }
  }

  lemma PadTwo(n: nat)
    requires n < 100
    ensures Pad(n, 2) == [Digit(n / 10), Digit(n % 10)]
  {
    assert Pad(n / 10, 1) == Pad(n / 100, 0) + [Digit((n / 10) % 10)];
    assert (n / 10) % 10 == n / 10;
  }

  /** Formatting a date and parsing it back gives the same date. */
  lemma ParseFormat(d: Date)
    requires Valid(d)
    ensures ParseDate(FormatDate(d)) == Some(d)
  {
    var s := FormatDate(d);
    NumberOfPad(d.year, 4);
    assert s[..4] == Pad(d.year, 4);
    PadTwo(d.month);
    PadTwo(d.day);
    assert s[5..] == Pad(d.month, 2) + "-" + Pad(d.day, 2);
    MonthFieldOfPad(d.month, "-" + Pad(d.day, 2));
    DayFieldOfPad(d.day);
  }

  lemma MonthFieldOfPad(m: int, rest: string)
    requires 1 <= m <= 12
    ensures MonthField(Pad(m, 2) + rest) == Some((m, rest))
  {
    PadTwo(m);
    var t := Pad(m, 2) + rest;
    assert t[2..] == rest;
    if m >= 10 {
      assert t[0] == '1' && t[1] == Digit(m - 10);
    } else {
      assert t[0] == '0' && t[1] == Digit(m);
    }
  }

  lemma DayFieldOfPad(day: int)
    requires 1 <= day <= 31
    ensures DayField(Pad(day, 2)) == Some((day, []))
  {
    PadTwo(day);
    var t := Pad(day, 2);
    assert t[2..] == [];
    if day >= 30 {
      assert t[0] == '3' && t[1] == Digit(day - 30);
    } else if day >= 10 {
      assert t[0] == Digit(day / 10) && t[1] == Digit(day % 10);
      assert t[0] == '1' || t[0] == '2';
    } else {
      assert t[0] == '0' && t[1] == Digit(day);
    }
  }

  /** Distinct dates render as distinct strings, so rendered keys never collide. */
  lemma FormatInjective(a: Date, b: Date)
    requires Valid(a) && Valid(b) && FormatDate(a) == FormatDate(b)
    ensures a == b
  {
    ParseFormat(a);
    ParseFormat(b);
  }

  // ---------------------------------------------------------------------
  // The rota period and the weight of each night

  /** `days` holds every date from `start` to `end` inclusive, one per day, in order. */
  ghost predicate IsPeriod(days: seq<Date>, start: Date, end: Date)
    requires Valid(start) && Valid(end)
  {
    && |days| == (if AtMost(start, end) then Ordinal(end) - Ordinal(start) + 1 else 0)
    && forall i :: 0 <= i < |days| ==> Valid(days[i]) && Ordinal(days[i]) == Ordinal(start) + i
  }

  /**
   * The `while current_date <= end_date` loop that lists the nights. Once
   * `end_date` itself has been appended the loop still adds one day, so an
   * end date of 9999-12-31 overflows.
   */
  method DayRange(start: Date, end: Date) returns (r: Result<seq<Date>, Fault>)
    requires Valid(start) && Valid(end)
    ensures r.Err? <==> AtMost(start, end) && end == MaxDate
    ensures r.Err? ==> r.error == DateOverflow
    ensures r.Ok? ==> IsPeriod(r.value, start, end)
  {
    var days: seq<Date> := [];
    var current := start;
    AtMostByOrdinal(start, end);
    while AtMost(current, end)
      invariant Valid(current)
      invariant |days| == Ordinal(current) - Ordinal(start)
      invariant forall i :: 0 <= i < |days| ==> Valid(days[i]) && Ordinal(days[i]) == Ordinal(start) + i
      invariant AtMost(start, end) ==> Ordinal(current) <= Ordinal(end) + 1
      invariant !AtMost(start, end) ==> current == start
      decreases Ordinal(end) + 1 - Ordinal(current)
    {
      AtMostByOrdinal(current, end);
      days := days + [current];
      NextDayStep(current);
      if current == MaxDate {
        LastDate(end);
        return Err(DateOverflow);
      }
      current := NextDay(current).value;
    }
    RangeExit(start, current, end);
    return Ok(days);
  }

  /** Nothing comes after 9999-12-31. */
  lemma LastDate(d: Date)
    requires Valid(d) && AtMost(MaxDate, d)
    ensures d == MaxDate
  {
  }

  lemma RangeExit(start: Date, current: Date, end: Date)
    requires Valid(start) && Valid(current) && Valid(end) && Before(end, current)
    requires AtMost(start, end) ==> Ordinal(current) <= Ordinal(end) + 1
    ensures AtMost(start, end) ==> Ordinal(current) == Ordinal(end) + 1
    ensures end != MaxDate
  {
    OrdinalMonotone(end, current);
  }

  /** A date lies in the period exactly when it falls between its two ends. */
  lemma InPeriod(days: seq<Date>, start: Date, end: Date, d: Date)
    requires Valid(start) && Valid(end) && Valid(d) && IsPeriod(days, start, end)
    ensures d in days <==> AtMost(start, d) && AtMost(d, end)
  {
    AtMostByOrdinal(start, d);
    AtMostByOrdinal(d, end);
    AtMostByOrdinal(start, end);
    if AtMost(start, d) && AtMost(d, end) {
      var i := Ordinal(d) - Ordinal(start);
      OrdinalInjective(days[i], d);
    }
  }

  /** The period is strictly ascending, each night followed by the next calendar day. */
  lemma PeriodAscending(days: seq<Date>, start: Date, end: Date, i: int)
    requires Valid(start) && Valid(end) && IsPeriod(days, start, end)
    requires 0 <= i < |days| - 1
    ensures Before(days[i], days[i + 1]) && NextDay(days[i]) == Some(days[i + 1])
  {
    NextDayStep(days[i]);
    if days[i] == MaxDate {
      AtMostByOrdinal(days[i + 1], MaxDate);
    }
    OrdinalInjective(NextDay(days[i]).value, days[i + 1]);
  }

  /**
   * The points of a night in half-points: a holiday 4 (two points, also on a
   * Saturday), otherwise Saturday 3, Sunday 4 and any other night 2.
   */
  function Weight(d: Date, holidays: seq<Date>): (w: int)
    requires Valid(d)
    ensures 2 <= w <= 4
    ensures w == 3 <==> d !in holidays && Weekday(d) == 5
    ensures w == 4 <==> d in holidays || Weekday(d) == 6
  {
    if d in holidays then 4
    else if Weekday(d) == 5 then 3
    else if Weekday(d) == 6 then 4
    else 2
  }

  /** The loop that fills `points_per_day`, one entry per night. */
  method PointsPerDay(days: seq<Date>, holidays: seq<Date>) returns (weights: map<Date, int>)
    requires forall i :: 0 <= i < |days| ==> Valid(days[i])
    ensures forall d :: d in weights <==> d in days
    ensures forall d :: d in weights ==> Valid(d) && weights[d] == Weight(d, holidays)
  {
    weights := map[];
    for i := 0 to |days|
      invariant forall d :: d in weights <==> d in days[..i]
      invariant forall d :: d in weights ==> Valid(d) && weights[d] == Weight(d, holidays)
    {
      var day := days[i];
      if day in holidays {
        weights := weights[day := 4];
      } else if Weekday(day) == 5 {
        weights := weights[day := 3];
      } else if Weekday(day) == 6 {
        weights := weights[day := 4];
      } else {
        weights := weights[day := 2];
      }
    }
    assert days[..|days|] == days;
  }
}
