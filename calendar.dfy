/** Civil dates in the proleptic Gregorian calendar as the history store uses them: a day
    count since 1970-01-01 turned into a date (`NaiveDate + Duration::days`) and printed with
    `%Y-%m-%d`. `DayNumber` is the reference going the other way. */
module Calendar {
  import opened Strings
  import opened Sorting

  const SecondsPerDay: nat := 86400

  /** Day count of the last date chrono represents, 262143-12-31; adding more days panics. */
  const LastDay: nat := 95026601

  /** Day count of 9999-12-31, the last date `%Y` prints with four digits. */
  const LastFourDigitDay: nat := 2932896

  predicate IsLeap(y: nat) {
    y % 4 == 0 && (y % 100 != 0 || y % 400 == 0)
  }

  function YearLength(y: nat): nat {
    if IsLeap(y) then 366 else 365
  }

  /** Leap years in `1 .. y - 1`. */
  function LeapsBefore(y: nat): int
    requires y >= 1
  {
    (y - 1) / 4 - (y - 1) / 100 + (y - 1) / 400
  }

  /** Moving from `y - 1` to `y` raises the quotient by `d` exactly when `d` divides `y`
      (for the divisors of the leap-year rule, where the arithmetic stays linear). */
  lemma DivStep(y: nat, d: nat)
    requires y >= 1 && (d == 4 || d == 100 || d == 400)
    ensures y / d - (y - 1) / d == if y % d == 0 then 1 else 0
  {
    if d == 4 {
      var q, r := (y - 1) / 4, (y - 1) % 4;
      assert y - 1 == 4 * q + r;
      if r == 3 {
        assert y == 4 * (q + 1);
      } else {
        assert y == 4 * q + (r + 1);
      }
    } else if d == 100 {
      var q, r := (y - 1) / 100, (y - 1) % 100;
      assert y - 1 == 100 * q + r;
      if r == 99 {
        assert y == 100 * (q + 1);
      } else {
        assert y == 100 * q + (r + 1);
      }
    } else {
      var q, r := (y - 1) / 400, (y - 1) % 400;
      assert y - 1 == 400 * q + r;
      if r == 399 {
        assert y == 400 * (q + 1);
      } else {
        assert y == 400 * q + (r + 1);
      }
    }
  }

  lemma DivisorsNest(y: nat)
    ensures y % 100 == 0 ==> y % 4 == 0
    ensures y % 400 == 0 ==> y % 100 == 0
  {
    if y % 100 == 0 {
      var t := y / 100;
      assert y == 4 * (25 * t);
      TimesFour(25 * t);
    }
    if y % 400 == 0 {
      var t := y / 400;
      assert y == 100 * (4 * t);
      TimesHundred(4 * t);
    }
  }

  lemma TimesFour(t: nat)
    ensures (4 * t) % 4 == 0
  {
  }

  lemma TimesHundred(t: nat)
    ensures (100 * t) % 100 == 0
  {
  }

  lemma LeapStep(y: nat)
    requires y >= 1
    ensures LeapsBefore(y + 1) == LeapsBefore(y) + if IsLeap(y) then 1 else 0
  {
    DivStep(y, 4);
    DivStep(y, 100);
    DivStep(y, 400);
    DivisorsNest(y);
  }

  /** Days from 1970-01-01 to January 1st of year `y`. */
  function DaysBeforeYear(y: nat): int
    requires y >= 1970
  {
    365 * (y - 1970) + LeapsBefore(y) - LeapsBefore(1970)
  }

  lemma YearStep(y: nat)
    requires y >= 1970
    ensures DaysBeforeYear(y + 1) == DaysBeforeYear(y) + YearLength(y)
  {
    LeapStep(y);
  }

  lemma {:induction false} YearsGrow(a: nat, b: nat)
    requires 1970 <= a <= b
    ensures DaysBeforeYear(a) + 365 * (b - a) <= DaysBeforeYear(b) <= DaysBeforeYear(a) + 366 * (b - a)
    decreases b - a
  {
    if a < b {
      YearStep(a);
      YearsGrow(a + 1, b);
    }
  }

  /** The year holding day `z`, searched upwards from `y`. */
  function YearOf(z: nat, y: nat): (r: nat)
    requires y >= 1970 && DaysBeforeYear(y) <= z
    ensures r >= y && DaysBeforeYear(r) <= z < DaysBeforeYear(r + 1)
    decreases z - DaysBeforeYear(y)
  {
    YearStep(y);
    if z < DaysBeforeYear(y + 1) then y else YearOf(z, y + 1)
  }

  lemma YearUnique(z: int, a: nat, b: nat)
    requires a >= 1970 && DaysBeforeYear(a) <= z < DaysBeforeYear(a + 1)
    requires b >= 1970 && DaysBeforeYear(b) <= z < DaysBeforeYear(b + 1)
    ensures a == b
  {
  }

  function MonthLength(y: nat, m: nat): nat
    requires 1 <= m <= 12
  {
    if m == 2 then (if IsLeap(y) then 29 else 28)
    else if m == 4 || m == 6 || m == 9 || m == 11 then 30
    else 31
  }

  /** Days of a common year before the first of each month, January to the next January. */
  const CumulativeDays: seq<nat> := [0, 31, 59, 90, 120, 151, 181, 212, 243, 273, 304, 334, 365]

  /** Days from January 1st of `y` to the first of month `m` (`m == 13`: the whole year). */
  function DaysBeforeMonth(y: nat, m: nat): nat
    requires 1 <= m <= 13
  {
    CumulativeDays[m - 1] + if m > 2 && IsLeap(y) then 1 else 0
  }

  lemma MonthStep(y: nat, m: nat)
    requires 1 <= m <= 12
    ensures DaysBeforeMonth(y, m + 1) == DaysBeforeMonth(y, m) + MonthLength(y, m)
  {
  }

  lemma {:induction false} MonthsGrow(y: nat, a: nat, b: nat)
    requires 1 <= a <= b <= 13
    ensures DaysBeforeMonth(y, a) + (b - a) <= DaysBeforeMonth(y, b)
    decreases b - a
  {
    if a < b {
      MonthStep(y, a);
      MonthsGrow(y, a + 1, b);
    }
  }

  /** The month holding day `doy` of year `y`, searched downwards from `m`. */
  function MonthOf(doy: nat, y: nat, m: nat): (r: nat)
    requires 1 <= m <= 12 && doy < DaysBeforeMonth(y, m + 1)
    ensures 1 <= r <= m && DaysBeforeMonth(y, r) <= doy < DaysBeforeMonth(y, r + 1)
    decreases m
  {
    if DaysBeforeMonth(y, m) <= doy then m else MonthOf(doy, y, m - 1)
  }

  lemma MonthUnique(y: nat, doy: int, a: nat, b: nat)
    requires 1 <= a <= 12 && DaysBeforeMonth(y, a) <= doy < DaysBeforeMonth(y, a + 1)
    requires 1 <= b <= 12 && DaysBeforeMonth(y, b) <= doy < DaysBeforeMonth(y, b + 1)
    ensures a == b
  {
    if a < b {
      MonthsGrow(y, a + 1, b);
    } else if b < a {
      MonthsGrow(y, b + 1, a);
    }
  }

  datatype Date = Date(year: nat, month: nat, day: nat)

  predicate ValidDate(d: Date) {
    d.year >= 1970 && 1 <= d.month <= 12 && 1 <= d.day <= MonthLength(d.year, d.month)
  }

  /** Days from 1970-01-01 to `d`. */
  function DayNumber(d: Date): int
    requires ValidDate(d)
  {
    DaysBeforeYear(d.year) + DaysBeforeMonth(d.year, d.month) + d.day - 1
  }

  /** The date `z` days after 1970-01-01. */
  function DateOfDay(z: nat): (d: Date)
    ensures ValidDate(d) && DayNumber(d) == z
    ensures DaysBeforeYear(d.year) <= z < DaysBeforeYear(d.year + 1)
  {
    Landmarks();
    var y := YearOf(z, 1970);
    var doy := z - DaysBeforeYear(y);
    YearStep(y);
    assert DaysBeforeMonth(y, 13) == YearLength(y);
    var m := MonthOf(doy, y, 12);
    MonthStep(y, m);
    Date(y, m, doy - DaysBeforeMonth(y, m) + 1)
  }

  /** Different dates have different day numbers. */
  lemma DayNumberInjective(d: Date, e: Date)
    requires ValidDate(d) && ValidDate(e) && DayNumber(d) == DayNumber(e)
    ensures d == e
  {
    BeforeIsEarlier(d, e);
    BeforeIsEarlier(e, d);
  }

  /** Going back: every valid date is the date of its own day number. */
  lemma DateOfDayNumber(d: Date)
    requires ValidDate(d)
    ensures DayNumber(d) >= 0 && DateOfDay(DayNumber(d)) == d
  {
    Landmarks();
    YearsGrow(1970, d.year);
    DayNumberInjective(DateOfDay(DayNumber(d)), d);
  }

  /** Two zero-padded decimal digits, as `%m` and `%d` print. */
  function Pad2(n: nat): (s: string)
    requires n < 100
    ensures |s| == 2 && AllDigits(s)
  {
    [DigitChar(n / 10), DigitChar(n % 10)]
  }

  /** `%Y`: four digits up to year 9999, a sign and all the digits after that. */
  function YearField(y: nat): (s: string)
    ensures y <= 9999 ==> |s| == 4 && AllDigits(s)
    ensures y > 9999 ==> |s| > 0 && s[0] == '+'
  {
    if y <= 9999 then Pad2(y / 100) + Pad2(y % 100) else "+" + NatToString(y)
  }

  function FormatDate(d: Date): (s: string)
    requires ValidDate(d)
    ensures d.year <= 9999 ==> |s| == 10 && s[4] == '-' && s[7] == '-'
  {
    YearField(d.year) + "-" + Pad2(d.month) + "-" + Pad2(d.day)
  }

  /** `timestamp_to_date_string`: the UTC date of a Unix timestamp in seconds. Past chrono's
      last date the source panics, so the timestamp must stay before it. */
  function DateString(timestamp: nat): (s: string)
    requires timestamp / SecondsPerDay <= LastDay
    ensures timestamp / SecondsPerDay <= LastFourDigitDay ==> |s| == 10
  {
    var d := DateOfDay(timestamp / SecondsPerDay);
    FourDigitYears(timestamp / SecondsPerDay);
    FormatDate(d)
  }

  lemma FourDigitYears(z: nat)
    ensures z <= LastFourDigitDay <==> DateOfDay(z).year <= 9999
  {
    var y := DateOfDay(z).year;
    assert DaysBeforeYear(y) <= z < DaysBeforeYear(y + 1);
    Landmarks();
    if y > 9999 {
      YearsGrow(10000, y);
      assert z > LastFourDigitDay;
    } else {
      YearsGrow(y + 1, 10000);
      assert z <= LastFourDigitDay;
    }
  }

  /** The calendar constants are the day counts their comments give. */
  lemma Landmarks()
    ensures DaysBeforeYear(1970) == 0
    ensures DaysBeforeYear(10000) == LastFourDigitDay + 1
    ensures DaysBeforeYear(262144) == LastDay + 1
  {
  }

  /** A timestamp on the day of `d` prints as `d`. */
  lemma DateStringOfDate(t: nat, d: Date)
    requires ValidDate(d) && t / SecondsPerDay == DayNumber(d) && t / SecondsPerDay <= LastDay
    ensures DateString(t) == FormatDate(d)
  {
    DayNumberInjective(DateOfDay(t / SecondsPerDay), d);
  }

  lemma NewYear2022Day()
    ensures ValidDate(Date(2022, 1, 1)) && DayNumber(Date(2022, 1, 1)) == 18993 == 1640995200 / SecondsPerDay
  {
    assert DaysBeforeYear(2022) == 18993;
  }

  lemma NewYear2022Format()
    ensures FormatDate(Date(2022, 1, 1)) == "2022-01-01"
  {
    assert Pad2(20) == "20" && Pad2(22) == "22" && Pad2(1) == "01";
  }

  /** 1640995200 seconds after the epoch is 2022-01-01. */
  lemma NewYear2022()
    ensures DateString(1640995200) == "2022-01-01"
  {
    var d := Date(2022, 1, 1);
    NewYear2022Day();
    DateStringOfDate(1640995200, d);
    NewYear2022Format();
  }

  // ---------------------------------------------------------------------------
  // The printed dates sort like the days they name (while years have four digits)

  predicate Before(d: Date, e: Date) {
    d.year < e.year || (d.year == e.year && (d.month < e.month || (d.month == e.month && d.day < e.day)))
  }

  lemma EarlierIfBefore(d: Date, e: Date)
    requires ValidDate(d) && ValidDate(e) && Before(d, e)
    ensures DayNumber(d) < DayNumber(e)
  {
    MonthStep(d.year, d.month);
    if d.year < e.year {
      YearStep(d.year);
      MonthsGrow(d.year, d.month + 1, 13);
      YearsGrow(d.year + 1, e.year);
    } else if d.month < e.month {
      MonthsGrow(d.year, d.month + 1, e.month);
    }
  }

  lemma BeforeIsEarlier(d: Date, e: Date)
    requires ValidDate(d) && ValidDate(e)
    ensures Before(d, e) <==> DayNumber(d) < DayNumber(e)
  {
    if Before(d, e) {
      EarlierIfBefore(d, e);
    } else if Before(e, d) {
      EarlierIfBefore(e, d);
    }
  }

  lemma {:induction false} LessConcat(a: string, b: string, c: string, d: string)
    requires |a| == |c|
    ensures Less(a + b, c + d) <==> Less(a, c) || (a == c && Less(b, d))
    decreases |a|
  {
    if a != [] {
      assert (a + b)[1..] == a[1..] + b && (c + d)[1..] == c[1..] + d;
      LessConcat(a[1..], b, c[1..], d);
      if a[0] == c[0] {
        assert a == [a[0]] + a[1..] && c == [c[0]] + c[1..];
      }
    } else {
      assert a + b == b && c + d == d;
    }
  }

  lemma Pad2Order(m: nat, n: nat)
    requires m < 100 && n < 100
    ensures Less(Pad2(m), Pad2(n)) <==> m < n
    ensures Pad2(m) == Pad2(n) <==> m == n
  {
    LessConcat([DigitChar(m / 10)], [DigitChar(m % 10)], [DigitChar(n / 10)], [DigitChar(n % 10)]);
    if Pad2(m) == Pad2(n) {
      assert Pad2(m)[0] == Pad2(n)[0] && Pad2(m)[1] == Pad2(n)[1];
    }
  }

  lemma YearOrder(y: nat, z: nat)
    requires y <= 9999 && z <= 9999
    ensures Less(YearField(y), YearField(z)) <==> y < z
    ensures YearField(y) == YearField(z) <==> y == z
  {
    Pad2Order(y / 100, z / 100);
    Pad2Order(y % 100, z % 100);
    LessConcat(Pad2(y / 100), Pad2(y % 100), Pad2(z / 100), Pad2(z % 100));
    if YearField(y) == YearField(z) {
      assert YearField(y)[..2] == Pad2(y / 100) && YearField(z)[..2] == Pad2(z / 100);
      assert YearField(y)[2..] == Pad2(y % 100) && YearField(z)[2..] == Pad2(z % 100);
    }
  }

  lemma FormatOrder(d: Date, e: Date)
    requires ValidDate(d) && ValidDate(e) && d.year <= 9999 && e.year <= 9999
    ensures Less(FormatDate(d), FormatDate(e)) <==> Before(d, e)
  {
    var dm := "-" + Pad2(d.month) + "-" + Pad2(d.day);
    var em := "-" + Pad2(e.month) + "-" + Pad2(e.day);
    assert FormatDate(d) == YearField(d.year) + dm;
    assert FormatDate(e) == YearField(e.year) + em;
    YearOrder(d.year, e.year);
    LessConcat(YearField(d.year), dm, YearField(e.year), em);
    var dd := Pad2(d.month) + ("-" + Pad2(d.day));
    var ed := Pad2(e.month) + ("-" + Pad2(e.day));
    assert dm == "-" + dd && em == "-" + ed;
    LessConcat("-", dd, "-", ed);
    Pad2Order(d.month, e.month);
    LessConcat(Pad2(d.month), "-" + Pad2(d.day), Pad2(e.month), "-" + Pad2(e.day));
    LessConcat("-", Pad2(d.day), "-", Pad2(e.day));
    Pad2Order(d.day, e.day);
  }

  /** Comparing the printed dates compares the days: what makes the string comparisons of
      the history store's cleanup and range queries mean "earlier". */
  lemma DateStringOrder(s: nat, t: nat)
    requires s / SecondsPerDay <= LastFourDigitDay && t / SecondsPerDay <= LastFourDigitDay
    ensures Less(DateString(s), DateString(t)) <==> s / SecondsPerDay < t / SecondsPerDay
  {
    var d, e := DateOfDay(s / SecondsPerDay), DateOfDay(t / SecondsPerDay);
    FourDigitYears(s / SecondsPerDay);
    FourDigitYears(t / SecondsPerDay);
    FormatOrder(d, e);
    BeforeIsEarlier(d, e);
  }
}
