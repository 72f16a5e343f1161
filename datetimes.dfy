/**
 * Naive datetimes as the engine uses them: a date counted as Python's
 * `date.toordinal()` (0001-01-01 is day 1) and a time of day in seconds, and the
 * parser behind `parse_datetime`, `datetime.strptime(s, "%Y-%m-%dT%H:%M:%S")`.
 */
module DateTimes {
  import opened Wrappers
  import opened PyText

  const SecondsPerDay: int := 86400
  const Noon: int := 12 * 3600
  /** `date.max.toordinal()`, the ordinal of 9999-12-31. */
  const MaxOrdinal: int := 3652059

  /** A naive datetime: a day ordinal and the seconds since that day's midnight. */
  datatype DateTime = DateTime(day: int, secs: int)

  /** `a < b` on datetimes: by date, then by time of day. */
  predicate Before(a: DateTime, b: DateTime) {
    a.day < b.day || (a.day == b.day && a.secs < b.secs)
  }

  predicate IsLeap(y: int) {
    y % 4 == 0 && (y % 100 != 0 || y % 400 == 0)
  }

  function DaysInYear(y: int): int {
    if IsLeap(y) then 366 else 365
  }

  function DaysInMonth(y: int, m: int): int
    requires 1 <= m <= 12
  {
    if m == 2 then (if IsLeap(y) then 29 else 28)
    else if m == 4 || m == 6 || m == 9 || m == 11 then 30
    else 31
  }

  /** Days of year `y` before the first of month `m`. */
  function DaysBeforeMonth(y: int, m: int): int
    requires 1 <= m <= 12
  {
    [0, 31, 59, 90, 120, 151, 181, 212, 243, 273, 304, 334][m - 1] + (if m > 2 && IsLeap(y) then 1 else 0)
  }

  /** Days before January 1st of year `y`, counted from 0001-01-01. */
  function DaysBeforeYear(y: int): int {
    var p := y - 1;
    p * 365 + p / 4 - p / 100 + p / 400
  }

  /** `date(y, m, d).toordinal()`. */
  function Ordinal(y: int, m: int, d: int): int
    requires 1 <= m <= 12
  {
    DaysBeforeYear(y) + DaysBeforeMonth(y, m) + d
  }

  /** The six fields of a `%Y-%m-%dT%H:%M:%S` timestamp. */
  datatype Stamp = Stamp(year: nat, month: nat, day: nat, hour: nat, minute: nat, second: nat)

  /** The fields fit the fixed-width layout. */
  predicate Renderable(t: Stamp) {
    t.year < 10000 && t.month < 100 && t.day < 100 && t.hour < 100 && t.minute < 100 && t.second < 100
  }

  /** The fields name an existing datetime: what `datetime(...)` accepts after `strptime` matched. */
  predicate ValidStamp(t: Stamp) {
    && 1 <= t.year <= 9999 && 1 <= t.month <= 12 && 1 <= t.day <= DaysInMonth(t.year, t.month)
    && t.hour < 24 && t.minute < 60 && t.second < 60
  }

  /** `(a.year, a.month, ...) < (b.year, b.month, ...)`, the order Python compares datetimes in. */
  predicate StampBefore(a: Stamp, b: Stamp) {
    || a.year < b.year
    || (a.year == b.year && a.month < b.month)
    || (a.year == b.year && a.month == b.month && a.day < b.day)
    || (a.year == b.year && a.month == b.month && a.day == b.day && a.hour < b.hour)
    || (a.year == b.year && a.month == b.month && a.day == b.day && a.hour == b.hour && a.minute < b.minute)
    || (a.year == b.year && a.month == b.month && a.day == b.day && a.hour == b.hour && a.minute == b.minute
        && a.second < b.second)
  }

  function ToDateTime(t: Stamp): DateTime
    requires ValidStamp(t)
  {
    DateTime(Ordinal(t.year, t.month, t.day), t.hour * 3600 + t.minute * 60 + t.second)
  }

  /** Positions of the separators in `YYYY-MM-DDTHH:MM:SS`. */
  predicate IsSeparatorPosition(k: int) {
    k == 4 || k == 7 || k == 10 || k == 13 || k == 16
  }

  /** `s` has the fixed-width layout: 19 characters, digits except the five separators. */
  predicate Layout(s: string) {
    && |s| == 19
    && s[4] == '-' && s[7] == '-' && (s[10] == 'T' || s[10] == 't') && s[13] == ':' && s[16] == ':'
    && forall k :: 0 <= k < 19 && !IsSeparatorPosition(k) ==> IsDigit(s[k])
  }

  function Num2(s: string, i: nat): nat
    requires i + 2 <= |s| && IsDigit(s[i]) && IsDigit(s[i + 1])
  {
    DigitValue(s[i]) * 10 + DigitValue(s[i + 1])
  }

  function Num4(s: string): nat
    requires 4 <= |s| && IsDigit(s[0]) && IsDigit(s[1]) && IsDigit(s[2]) && IsDigit(s[3])
  {
    DigitValue(s[0]) * 1000 + DigitValue(s[1]) * 100 + DigitValue(s[2]) * 10 + DigitValue(s[3])
  }

  /** The syntactic half of `strptime`: read the six fields of a well-laid-out string. */
  function Scan(s: string): (r: Option<Stamp>)
    ensures r.Some? <==> Layout(s)
    ensures r.Some? ==> Renderable(r.value)
  {
    if Layout(s) then
      Some(Stamp(Num4(s), Num2(s, 5), Num2(s, 8), Num2(s, 11), Num2(s, 14), Num2(s, 17)))
    else None
  }

  /** `parse_datetime(s)`; None stands for the ValueError `strptime` raises. */
  function Parse(s: string): (r: Option<DateTime>)
    ensures r.Some? ==> 0 <= r.value.secs < SecondsPerDay
    ensures r.Some? <==> Scan(s).Some? && ValidStamp(Scan(s).value)
  {
    match Scan(s)
    case Some(t) => if ValidStamp(t) then Some(ToDateTime(t)) else None
    case None => None
  }

  /** `strftime("%Y-%m-%dT%H:%M:%S")` of a stamp: the layout the parser reads. */
  function Render(t: Stamp): (s: string)
    requires Renderable(t)
    ensures |s| == 19
  {
    [ DigitChar(t.year / 1000), DigitChar(t.year / 100 % 10), DigitChar(t.year / 10 % 10), DigitChar(t.year % 10),
      '-', DigitChar(t.month / 10), DigitChar(t.month % 10),
      '-', DigitChar(t.day / 10), DigitChar(t.day % 10),
      'T', DigitChar(t.hour / 10), DigitChar(t.hour % 10),
      ':', DigitChar(t.minute / 10), DigitChar(t.minute % 10),
      ':', DigitChar(t.second / 10), DigitChar(t.second % 10) ]
  }

  lemma TwoDigits(n: nat)
    requires n < 100
    ensures DigitValue(DigitChar(n / 10)) * 10 + DigitValue(DigitChar(n % 10)) == n
  {
    DigitRoundTrip(n / 10);
    DigitRoundTrip(n % 10);
  }

  lemma FourDigits(n: nat)
    requires n < 10000
    ensures DigitValue(DigitChar(n / 1000)) * 1000 + DigitValue(DigitChar(n / 100 % 10)) * 100
            + DigitValue(DigitChar(n / 10 % 10)) * 10 + DigitValue(DigitChar(n % 10)) == n
  {
    DigitRoundTrip(n / 1000);
    DigitRoundTrip(n / 100 % 10);
    DigitRoundTrip(n / 10 % 10);
    DigitRoundTrip(n % 10);
    var q := n / 10;
    assert n == q * 10 + n % 10;
    assert q == q / 10 * 10 + q % 10;
    assert q / 10 == n / 100;
    var h := n / 100;
    assert h == h / 10 * 10 + h % 10;
    assert h / 10 == n / 1000;
  }

  lemma DigitRoundTrip(d: nat)
    requires d < 10
    ensures DigitValue(DigitChar(d)) == d
  {
  }

  /** Scanning a rendered stamp gives the stamp back. */
  lemma ScanRender(t: Stamp)
    requires Renderable(t)
    ensures Scan(Render(t)) == Some(t)
  {
    var s := Render(t);
    assert Layout(s);
    FourDigits(t.year);
    TwoDigits(t.month);
    TwoDigits(t.day);
    TwoDigits(t.hour);
    TwoDigits(t.minute);
    TwoDigits(t.second);
  }

  lemma SplitTwo(a: char, b: char)
    requires IsDigit(a) && IsDigit(b)
    ensures var n := DigitValue(a) * 10 + DigitValue(b); DigitChar(n / 10) == a && DigitChar(n % 10) == b
  {
  }

  lemma SplitFour(a: char, b: char, c: char, d: char)
    requires IsDigit(a) && IsDigit(b) && IsDigit(c) && IsDigit(d)
    ensures var n := DigitValue(a) * 1000 + DigitValue(b) * 100 + DigitValue(c) * 10 + DigitValue(d);
      DigitChar(n / 1000) == a && DigitChar(n / 100 % 10) == b && DigitChar(n / 10 % 10) == c
      && DigitChar(n % 10) == d
  {
    var n := DigitValue(a) * 1000 + DigitValue(b) * 100 + DigitValue(c) * 10 + DigitValue(d);
    assert n / 10 == DigitValue(a) * 100 + DigitValue(b) * 10 + DigitValue(c);
    assert n / 100 == DigitValue(a) * 10 + DigitValue(b);
    assert n / 1000 == DigitValue(a);
  }

  /** Rendering what was scanned gives the string back (up to the case of the `T`). */
  lemma RenderScan(s: string)
    requires Scan(s).Some? && s[10] == 'T'
    ensures Render(Scan(s).value) == s
  {
    var r := Render(Scan(s).value);
    SplitFour(s[0], s[1], s[2], s[3]);
    SplitTwo(s[5], s[6]);
    SplitTwo(s[8], s[9]);
    SplitTwo(s[11], s[12]);
    SplitTwo(s[14], s[15]);
    SplitTwo(s[17], s[18]);
    assert forall k :: 0 <= k < 19 ==> r[k] == s[k];
  }

  /** `parse_datetime` reads back exactly the datetime a valid stamp renders. */
  lemma ParseRender(t: Stamp)
    requires ValidStamp(t)
    ensures Parse(Render(t)) == Some(ToDateTime(t))
  {
    ScanRender(t);
  }

  /** Month `m` ends within its year, and December ends with it. */
  lemma DaysBeforeMonthBounds(y: int, m: int)
    requires 1 <= m <= 12
    ensures 0 <= DaysBeforeMonth(y, m) && DaysBeforeMonth(y, m) + DaysInMonth(y, m) <= DaysInYear(y)
    ensures m == 12 ==> DaysBeforeMonth(y, m) + DaysInMonth(y, m) == DaysInYear(y)
  {
  }

  /** Month `m` ends before any later month of the same year begins. */
  lemma DaysBeforeMonthMonotone(y: int, m: int, m': int)
    requires 1 <= m < m' <= 12
    ensures DaysBeforeMonth(y, m) + DaysInMonth(y, m) <= DaysBeforeMonth(y, m')
  {
  }

  /** Consecutive years: January 1st of `y + 1` comes `DaysInYear(y)` days after that of `y`. */
  lemma DaysBeforeNextYear(y: int)
    ensures DaysBeforeYear(y + 1) == DaysBeforeYear(y) + DaysInYear(y)
  {
    StepDiv4(y);
    StepDiv100(y);
    StepDiv400(y);
    if y % 100 == 0 {
      CenturyLeap(y);
    }
    if y % 400 == 0 {
      QuadCentury(y);
    }
  }

  /** Moving from `y - 1` to `y` adds one multiple of 4 exactly when 4 divides `y`. */
  lemma StepDiv4(y: int)
    ensures y / 4 == (y - 1) / 4 + (if y % 4 == 0 then 1 else 0)
  {
    var q, r := (y - 1) / 4, (y - 1) % 4;
    if r == 3 {
      assert y == 4 * (q + 1);
    } else {
      assert y == 4 * q + (r + 1);
    }
  }

  /** As `StepDiv4`, for multiples of 100. */
  lemma StepDiv100(y: int)
    ensures y / 100 == (y - 1) / 100 + (if y % 100 == 0 then 1 else 0)
  {
    var q, r := (y - 1) / 100, (y - 1) % 100;
    if r == 99 {
      assert y == 100 * (q + 1);
    } else {
      assert y == 100 * q + (r + 1);
    }
  }

  /** As `StepDiv4`, for multiples of 400. */
  lemma StepDiv400(y: int)
    ensures y / 400 == (y - 1) / 400 + (if y % 400 == 0 then 1 else 0)
  {
    var q, r := (y - 1) / 400, (y - 1) % 400;
    if r == 399 {
      assert y == 400 * (q + 1);
    } else {
      assert y == 400 * q + (r + 1);
    }
  }

  /** A multiple of 100 is a multiple of 4. */
  lemma CenturyLeap(y: int)
    requires y % 100 == 0
    ensures y % 4 == 0
  {
    var m := 25 * (y / 100);
    assert y == 4 * m;
  }

  /** A multiple of 400 is a multiple of 100. */
  lemma QuadCentury(y: int)
    requires y % 400 == 0
    ensures y % 100 == 0
  {
    var m := 4 * (y / 400);
    assert y == 100 * m;
  }

  lemma {:induction false} DaysBeforeYearMonotone(y: int, y': int)
    requires y < y'
    ensures DaysBeforeYear(y) + DaysInYear(y) <= DaysBeforeYear(y')
    decreases y' - y
  {
    DaysBeforeNextYear(y);
    if y + 1 < y' {
      DaysBeforeYearMonotone(y + 1, y');
    }
  }

  /** Later calendar dates have larger ordinals, so `Before` is Python's datetime order. */
  lemma OrdinalOrder(a: Stamp, b: Stamp)
    requires ValidStamp(a) && ValidStamp(b)
    ensures Before(ToDateTime(a), ToDateTime(b)) <==> StampBefore(a, b)
    ensures ToDateTime(a) == ToDateTime(b) <==> a == b
  {
    DaysBeforeMonthBounds(a.year, a.month);
    DaysBeforeMonthBounds(b.year, b.month);
    if a.year < b.year {
      DaysBeforeYearMonotone(a.year, b.year);
    } else if b.year < a.year {
      DaysBeforeYearMonotone(b.year, a.year);
    } else if a.month < b.month {
      DaysBeforeMonthMonotone(a.year, a.month, b.month);
    } else if b.month < a.month {
      DaysBeforeMonthMonotone(a.year, b.month, a.month);
    }
  }

  /** January 1st of 9999 is 365 days before the last representable date. */
  lemma LastYearStart()
    ensures DaysBeforeYear(9999) + DaysBeforeMonth(9999, 12) + 31 == MaxOrdinal
  {
    assert 9998 / 4 == 2499;
    assert 9998 / 100 == 99;
    assert 9998 / 400 == 24;
  }

  /** Every valid date lies between 0001-01-01 and 9999-12-31, the last having ordinal MaxOrdinal. */
  lemma OrdinalRange(t: Stamp)
    requires ValidStamp(t)
    ensures 1 <= ToDateTime(t).day <= MaxOrdinal
    ensures ToDateTime(t).day == MaxOrdinal <==> t.year == 9999 && t.month == 12 && t.day == 31
  {
    OrdinalBounds(t.year, t.month, t.day);
  }

  lemma OrdinalBounds(y: int, m: int, d: int)
    requires 1 <= y <= 9999 && 1 <= m <= 12 && 1 <= d <= DaysInMonth(y, m)
    ensures 1 <= Ordinal(y, m, d) <= MaxOrdinal
    ensures Ordinal(y, m, d) == MaxOrdinal <==> y == 9999 && m == 12 && d == 31
  {
    LastYearStart();
    DaysBeforeMonthBounds(y, m);
    if y > 1 {
      DaysBeforeYearMonotone(1, y);
    }
    if y < 9999 {
      DaysBeforeYearMonotone(y, 9999);
    } else if m < 12 {
      DaysBeforeMonthMonotone(y, m, 12);
    }
  }
}
