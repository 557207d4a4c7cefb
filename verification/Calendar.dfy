/** UTC dates in the layout YYYYMMDD.  Times are nanoseconds since the beginning of year 0. */
module Calendar {
  import opened Wrappers

  const HOUR: int := 3_600_000_000_000
  const DAY: int := 24 * HOUR

  datatype Date = Date(year: nat, month: nat, day: nat)

  predicate Leap(y: nat) { y % 4 == 0 && (y % 100 != 0 || y % 400 == 0) }

  function YearLength(y: nat): nat { if Leap(y) then 366 else 365 }

  function MonthLength(y: nat, m: nat): nat
    requires 1 <= m <= 12
  {
    if m == 2 then (if Leap(y) then 29 else 28)
    else if m == 4 || m == 6 || m == 9 || m == 11 then 30 else 31
  }

  predicate Exists(d: Date) { 1 <= d.month <= 12 && 1 <= d.day <= MonthLength(d.year, d.month) }

  /** Days before 1 January of year y. */
  function BeforeYear(y: nat): nat {
    if y == 0 then 0 else BeforeYear(y - 1) + YearLength(y - 1)
  }

  /** Days of year y before its month m. */
  function BeforeMonth(y: nat, m: nat): nat
    requires 1 <= m <= 13
  {
    if m == 1 then 0 else BeforeMonth(y, m - 1) + MonthLength(y, m - 1)
  }

  lemma YearIsItsMonths(y: nat)
    ensures BeforeMonth(y, 13) == YearLength(y)
  {
    assert BeforeMonth(y, 2) == 31;
    assert BeforeMonth(y, 3) == 31 + MonthLength(y, 2);
    assert BeforeMonth(y, 5) == BeforeMonth(y, 3) + 61;
    assert BeforeMonth(y, 7) == BeforeMonth(y, 5) + 61;
    assert BeforeMonth(y, 9) == BeforeMonth(y, 7) + 62;
    assert BeforeMonth(y, 11) == BeforeMonth(y, 9) + 61;
  }

  /** The number of the day `d` (0 is 1 January of year 0). */
  function DayNumber(d: Date): nat
    requires Exists(d)
  {
    BeforeYear(d.year) + BeforeMonth(d.year, d.month) + d.day - 1
  }

  /** Counting n days from 1 January of year y: the year reached, and the day in it. */
  function FindYear(y: nat, n: nat): (r: (nat, nat))
    ensures r.0 >= y && r.1 < YearLength(r.0) && BeforeYear(y) + n == BeforeYear(r.0) + r.1
    decreases n
  {
    if n < YearLength(y) then (y, n) else FindYear(y + 1, n - YearLength(y))
  }

  /** Counting n days from the first of month m: the month reached, and the day in it. */
  function FindMonth(y: nat, m: nat, n: nat): (r: (nat, nat))
    requires 1 <= m <= 12 && BeforeMonth(y, m) + n < BeforeMonth(y, 13)
    ensures 1 <= r.0 <= 12 && r.1 < MonthLength(y, r.0) && BeforeMonth(y, m) + n == BeforeMonth(y, r.0) + r.1
    decreases 12 - m
  {
    if n < MonthLength(y, m) then (m, n) else FindMonth(y, m + 1, n - MonthLength(y, m))
  }

  /** The date of a day. */
  function DateOf(n: nat): (d: Date)
    ensures Exists(d) && DayNumber(d) == n
  {
    var (y, r) := FindYear(0, n);
    YearIsItsMonths(y);
    var (m, q) := FindMonth(y, 1, r);
    Date(y, m, q + 1)
  }

  lemma {:induction false} YearsAscend(y: nat, z: nat)
    requires y <= z
    ensures BeforeYear(y) <= BeforeYear(z)
  {
    if y < z { YearsAscend(y, z - 1); }
  }

  lemma {:induction false} MonthsAscend(y: nat, m: nat, k: nat)
    requires 1 <= m <= k <= 13
    ensures BeforeMonth(y, m) <= BeforeMonth(y, k)
    decreases k
  {
    if m < k { MonthsAscend(y, m, k - 1); }
  }

  lemma InItsYear(d: Date)
    requires Exists(d)
    ensures BeforeYear(d.year) <= DayNumber(d) < BeforeYear(d.year + 1)
  {
    MonthsAscend(d.year, d.month + 1, 13);
    YearIsItsMonths(d.year);
  }

  /** Different dates are different days, so DateOf is the only date with that number. */
  lemma DayNumberInjective(d: Date, e: Date)
    requires Exists(d) && Exists(e) && DayNumber(d) == DayNumber(e)
    ensures d == e
  {
    InItsYear(d);
    InItsYear(e);
    if d.year < e.year { YearsAscend(d.year + 1, e.year); }
    if e.year < d.year { YearsAscend(e.year + 1, d.year); }
    if d.month < e.month { MonthsAscend(d.year, d.month + 1, e.month); }
    if e.month < d.month { MonthsAscend(d.year, e.month + 1, d.month); }
  }

  // ---- closed forms -----------------------------------------------------------------------------------------------

  /** The Gregorian count of days. */
  lemma {:induction false} YearsFormula(y: nat)
    ensures BeforeYear(y) == 365 * y + (y + 3) / 4 - (y + 99) / 100 + (y + 399) / 400
  {
    if y > 0 {
      YearsFormula(y - 1);
      LeapStep(y - 1);
    }
  }

  /** So 400 years have 146097 days, and 1 January 1970 is day 719528. */
  lemma Cycle(y: nat)
    ensures BeforeYear(y + 400) == BeforeYear(y) + 146_097
    ensures DayNumber(Date(1970, 1, 1)) == 719_528
  {
    hide BeforeYear;
    YearsFormula(y);
    YearsFormula(y + 400);
    YearsFormula(1970);
    Later(y);
  }

  lemma Later(y: nat)
    ensures (y + 403) / 4 == (y + 3) / 4 + 100 && (y + 499) / 100 == (y + 99) / 100 + 4
    ensures (y + 799) / 400 == (y + 399) / 400 + 1
  {}

  lemma LeapStep(y: nat)
    ensures (y + 4) / 4 - (y + 3) / 4 == (if y % 4 == 0 then 1 else 0)
    ensures (y + 100) / 100 - (y + 99) / 100 == (if y % 100 == 0 then 1 else 0)
    ensures (y + 400) / 400 - (y + 399) / 400 == (if y % 400 == 0 then 1 else 0)
    ensures (y % 100 == 0 ==> y % 4 == 0) && (y % 400 == 0 ==> y % 100 == 0)
  {
    FourStep(y);
    HundredStep(y);
    FourHundredStep(y);
    Multiples(y);
  }

  lemma FourStep(y: nat)
    ensures (y + 4) / 4 - (y + 3) / 4 == if y % 4 == 0 then 1 else 0
  {}

  lemma HundredStep(y: nat)
    ensures (y + 100) / 100 - (y + 99) / 100 == if y % 100 == 0 then 1 else 0
  {}

  lemma FourHundredStep(y: nat)
    ensures (y + 400) / 400 - (y + 399) / 400 == if y % 400 == 0 then 1 else 0
  {}

  lemma Multiples(y: nat)
    ensures (y % 100 == 0 ==> y % 4 == 0) && (y % 400 == 0 ==> y % 100 == 0)
  {
    assert y == 100 * (y / 100) + y % 100 == 4 * (25 * (y / 100)) + y % 100;
    assert y == 400 * (y / 400) + y % 400 == 100 * (4 * (y / 400)) + y % 400;
  }

  /** Counting from March, months are 30.6 days long. */
  lemma MonthsFormula(y: nat, m: nat)
    requires 1 <= m <= 13
    ensures BeforeMonth(y, m) == if m <= 2 then 31 * (m - 1) else YearLength(y) - 306 + (153 * (m - 3) + 2) / 5
  {
    YearIsItsMonths(y);
    assert BeforeMonth(y, 2) == 31;
    assert BeforeMonth(y, 3) == YearLength(y) - 306;
    assert BeforeMonth(y, 5) == BeforeMonth(y, 3) + 61;
    assert BeforeMonth(y, 7) == BeforeMonth(y, 5) + 61;
    assert BeforeMonth(y, 9) == BeforeMonth(y, 7) + 62;
    assert BeforeMonth(y, 11) == BeforeMonth(y, 9) + 61;
  }

  // ---- the layout "20060102" --------------------------------------------------------------------------------------

  function Digit(n: nat): char
    requires n < 10
  {
    '0' + n as char
  }

  predicate IsDigit(c: char) { '0' <= c <= '9' }

  function Value(c: char): nat
    requires IsDigit(c)
  {
    (c - '0') as nat
  }

  lemma DigitValue(n: nat)
    requires n < 10
    ensures IsDigit(Digit(n)) && Value(Digit(n)) == n
  {}

  function Two(n: nat): string
    requires n < 100
  {
    [Digit(n / 10), Digit(n % 10)]
  }

  function Format(d: Date): string
    requires d.year < 10000 && d.month < 100 && d.day < 100
  {
    Two(d.year / 100) + Two(d.year % 100) + Two(d.month) + Two(d.day)
  }

  /** Eight digits that name an existing date. */
  function Parse(s: string): Option<Date> {
    if |s| != 8 || exists i :: 0 <= i < 8 && !IsDigit(s[i]) then None
    else
      var d := Date(((Value(s[0]) * 10 + Value(s[1])) * 10 + Value(s[2])) * 10 + Value(s[3]),
                    Value(s[4]) * 10 + Value(s[5]), Value(s[6]) * 10 + Value(s[7]));
      if Exists(d) then Some(d) else None
  }

  lemma TwoValue(n: nat)
    requires n < 100
    ensures IsDigit(Two(n)[0]) && IsDigit(Two(n)[1]) && Value(Two(n)[0]) * 10 + Value(Two(n)[1]) == n
  {
    DigitValue(n / 10);
    DigitValue(n % 10);
  }

  lemma ParseFormat(d: Date)
    requires Exists(d) && d.year < 10000
    ensures Parse(Format(d)) == Some(d)
  {
    hide Two, Exists;
    TwoLength(d);
    TwoValue(d.year / 100);
    TwoValue(d.year % 100);
    TwoValue(d.month);
    TwoValue(d.day);
  }

  lemma TwoLength(d: Date)
    requires Exists(d) && d.year < 10000
    ensures d.month < 100 && d.day < 100
    ensures |Two(d.year / 100)| == 2 && |Two(d.year % 100)| == 2 && |Two(d.month)| == 2 && |Two(d.day)| == 2
  {}

  /** Times the layout can express: up to the year 9999. */
  predicate Printable(t: int) { 0 <= t && DateOf(t / DAY).year < 10000 }

  /** Format("20060102") of a time. */
  function DateStamp(t: int): string
    requires Printable(t)
  {
    Format(DateOf(t / DAY))
  }

  /** The instant a parsed date stands for: its midnight. */
  function Midnight(d: Date): int
    requires Exists(d)
  {
    DayNumber(d) * DAY
  }

  /** Parsing a formatted time gives the midnight before it. */
  lemma StampIsMidnight(t: int)
    requires Printable(t)
    ensures Parse(DateStamp(t)).Some? && Exists(Parse(DateStamp(t)).value)
    ensures Midnight(Parse(DateStamp(t)).value) == t - t % DAY
  {
    hide DateOf, Format, Parse;
    ParseFormat(DateOf(t / DAY));
  }
}
