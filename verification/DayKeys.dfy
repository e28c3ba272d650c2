/**
 Shanghai day keys (lib/finance/calculations.ts): instants are milliseconds since the epoch, days are
 epoch day numbers, and keys are the first ten characters of toISOString.  Calendar arithmetic follows
 section 21.4.1 of ECMA-262; keys are used for the years 0000 to 9999.
 */
module DayKeys {

  const DAY_MS := 86_400_000
  const SHANGHAI_OFFSET_MS := 28_800_000

  // ---------- days and instants ----------

  function DayOf(t: int): int {
    (t + SHANGHAI_OFFSET_MS) / DAY_MS
  }

  function StartOf(day: int): int {
    day * DAY_MS - SHANGHAI_OFFSET_MS
  }

  function EndOf(day: int): int {
    StartOf(day) + DAY_MS - 1
  }

  /** Every instant lies within its own day, and in no other. */
  lemma DayContainsInstant(t: int, day: int)
    ensures StartOf(day) <= t <= EndOf(day) <==> day == DayOf(t)
    ensures StartOf(day) == (day * 24 - 8) * 3_600_000 && EndOf(day) == ((day + 1) * 24 - 8) * 3_600_000 - 1
  {
  }

  // ---------- the calendar (ECMA-262, 21.4.1.3 to 21.4.1.13) ----------

  const FIRST_YEAR := -400

  function DayFromYear(y: int): int {
    365 * (y - 1970) + (y - 1969) / 4 - (y - 1901) / 100 + (y - 1601) / 400
  }

  predicate Leap(y: int) {
    y % 4 == 0 && (y % 100 != 0 || y % 400 == 0)
  }

  function DaysInYear(y: int): int {
    if Leap(y) then 366 else 365
  }

  lemma FloorStep4(y: int)
    ensures (y - 1968) / 4 - (y - 1969) / 4 == if y % 4 == 0 then 1 else 0
  {
  }

  lemma FloorStep100(y: int)
    ensures (y - 1900) / 100 - (y - 1901) / 100 == if y % 100 == 0 then 1 else 0
  {
  }

  lemma FloorStep400(y: int)
    ensures (y - 1600) / 400 - (y - 1601) / 400 == if y % 400 == 0 then 1 else 0
  {
  }

  lemma Divisibility(y: int)
    ensures y % 400 == 0 ==> y % 100 == 0
    ensures y % 100 == 0 ==> y % 4 == 0
  {
  }

  lemma YearLength(y: int)
    ensures DayFromYear(y + 1) == DayFromYear(y) + DaysInYear(y)
  {
    FloorStep4(y);
    FloorStep100(y);
    FloorStep400(y);
    Divisibility(y);
  }

  lemma {:induction false} YearsIncrease(y: int, z: int)
    requires y < z
    ensures DayFromYear(y) + DaysInYear(y) <= DayFromYear(z)
    decreases z - y
  {
    YearLength(y);
    if y + 1 < z {
      YearsIncrease(y + 1, z);
    }
  }

  /** The year a day falls in: the largest year that does not start after it. */
  function YearFrom(day: int, y: int): (r: int)
    requires DayFromYear(y) <= day
    ensures y <= r && DayFromYear(r) <= day < DayFromYear(r) + DaysInYear(r)
    decreases day - DayFromYear(y)
  {
    YearLength(y);
    if day < DayFromYear(y) + DaysInYear(y) then y else YearFrom(day, y + 1)
  }

  lemma YearIsUnique(day: int, y: int, z: int)
    requires DayFromYear(y) <= day < DayFromYear(y) + DaysInYear(y)
    requires DayFromYear(z) <= day < DayFromYear(z) + DaysInYear(z)
    ensures y == z
  {
    if y < z {
      YearsIncrease(y, z);
    } else if z < y {
      YearsIncrease(z, y);
    }
  }

  /** Days of the year before the first of month m (0 is January). */
  function MonthStart(m: int, leap: bool): int
    requires 0 <= m <= 12
  {
    var l := if leap then 1 else 0;
    [0, 31, 59 + l, 90 + l, 120 + l, 151 + l, 181 + l, 212 + l, 243 + l, 273 + l, 304 + l, 334 + l, 365 + l][m]
  }

  function MonthFrom(dayInYear: int, m: int, leap: bool): (r: int)
    requires 0 <= m < 12 && MonthStart(m, leap) <= dayInYear < MonthStart(12, leap)
    ensures m <= r < 12 && MonthStart(r, leap) <= dayInYear < MonthStart(r + 1, leap)
    decreases 12 - m
  {
    if dayInYear < MonthStart(m + 1, leap) then m else MonthFrom(dayInYear, m + 1, leap)
  }

  /** month counts from 0, date from 1 */
  datatype Civil = Civil(year: int, month: int, date: int)

  /** c is the calendar date of the day. */
  predicate IsCivil(c: Civil, day: int) {
    && 0 <= c.month < 12 && 1 <= c.date <= 31
    && DayFromYear(c.year) <= day < DayFromYear(c.year) + DaysInYear(c.year)
    && DayFromCivil(c.year, c.month, c.date) == day
    && c.date - 1 < MonthStart(c.month + 1, Leap(c.year)) - MonthStart(c.month, Leap(c.year))
  }

  function ToCivil(day: int): (c: Civil)
    requires DayFromYear(FIRST_YEAR) <= day
    ensures IsCivil(c, day) && c.year >= FIRST_YEAR
  {
    var y := YearFrom(day, FIRST_YEAR);
    var m := MonthFrom(day - DayFromYear(y), 0, Leap(y));
    Civil(y, m, day - DayFromYear(y) - MonthStart(m, Leap(y)) + 1)
  }

  /** MakeDay: the date may lie outside the month. */
  function DayFromCivil(year: int, month: int, date: int): int
    requires 0 <= month < 12
  {
    DayFromYear(year) + MonthStart(month, Leap(year)) + date - 1
  }

  // ---------- keys ----------

  function Digit(n: int): char
    requires 0 <= n <= 9
  {
    '0' + n as char
  }

  function Two(n: int): string
    requires 0 <= n < 100
  {
    [Digit(n / 10), Digit(n % 10)]
  }

  function Four(n: int): string
    requires 0 <= n < 10000
  {
    Two(n / 100) + Two(n % 100)
  }

  function DigitValue(c: char): int {
    c as int - '0' as int
  }

  function NumberOfTwo(s: string): int
    requires |s| == 2
  {
    10 * DigitValue(s[0]) + DigitValue(s[1])
  }

  function NumberOfFour(s: string): int
    requires |s| == 4
  {
    100 * NumberOfTwo(s[..2]) + NumberOfTwo(s[2..])
  }

  function Print(c: Civil): string
    requires 0 <= c.year < 10000 && 0 <= c.month < 12 && 1 <= c.date <= 31
  {
    Four(c.year) + "-" + Two(c.month + 1) + "-" + Two(c.date)
  }

  /** Days whose Shanghai year is 0000 to 9999. */
  predicate HasKey(day: int) {
    DayFromYear(0) <= day < DayFromYear(10000)
  }

  function Key(day: int): (s: string)
    requires HasKey(day)
    ensures |s| == 10
  {
    YearInRange(day);
    Print(ToCivil(day))
  }

  lemma YearInRange(day: int)
    requires HasKey(day)
    ensures DayFromYear(FIRST_YEAR) <= day && 0 <= ToCivil(day).year < 10000
  {
    YearsIncrease(FIRST_YEAR, 0);
    var y := ToCivil(day).year;
    if y < 0 {
      YearsIncrease(y, 0);
    }
    if y >= 10000 && y != 10000 {
      YearsIncrease(10000, y);
    }
  }

  /** Reading a key back, as the Date constructor does for `${key}T00:00:00.000+08:00`. */
  function Parse(key: string): int
    requires |key| == 10 && 1 <= NumberOfTwo(key[5..7]) <= 12
  {
    DayFromCivil(NumberOfFour(key[..4]), NumberOfTwo(key[5..7]) - 1, NumberOfTwo(key[8..]))
  }

  lemma TwoReads(n: int)
    requires 0 <= n < 100
    ensures NumberOfTwo(Two(n)) == n
  {
  }

  lemma FourReads(n: int)
    requires 0 <= n < 10000
    ensures NumberOfFour(Four(n)) == n
  {
  }

  lemma KeyFields(day: int)
    requires HasKey(day)
    ensures var c := ToCivil(day);
            && 0 <= c.year < 10000
            && NumberOfFour(Key(day)[..4]) == c.year
            && NumberOfTwo(Key(day)[5..7]) == c.month + 1
            && NumberOfTwo(Key(day)[8..]) == c.date
  {
    YearInRange(day);
    var c := ToCivil(day);
    FourReads(c.year);
    TwoReads(c.month + 1);
    TwoReads(c.date);
    var y, m, d := Four(c.year), Two(c.month + 1), Two(c.date);
    assert Key(day) == y + "-" + m + "-" + d;
    assert Key(day)[..4] == y && Key(day)[5..7] == m && Key(day)[8..] == d;
  }

  /** Printing a day and reading the key back is the identity. */
  lemma ParseKey(day: int)
    requires HasKey(day)
    ensures 1 <= NumberOfTwo(Key(day)[5..7]) <= 12 && Parse(Key(day)) == day
  {
    KeyFields(day);
  }

  // ---------- string order ----------

  /** `<` on JavaScript strings: lexicographic by code unit. */
  predicate Less(a: string, b: string) {
    b != "" && (a == "" || a[0] < b[0] || (a[0] == b[0] && Less(a[1..], b[1..])))
  }

  lemma {:induction false} LessAppend(a: string, b: string, s: string, t: string)
    requires |a| == |b|
    ensures Less(a + s, b + t) <==> Less(a, b) || (a == b && Less(s, t))
    decreases |a|
  {
    if a == "" {
      assert a + s == s && b + t == t;
    } else {
      assert (a + s)[1..] == a[1..] + s && (b + t)[1..] == b[1..] + t;
      assert a == [a[0]] + a[1..] && b == [b[0]] + b[1..];
      LessAppend(a[1..], b[1..], s, t);
    }
  }

  lemma SingleOrder(c: char, d: char)
    ensures Less([c], [d]) <==> c < d
  {
  }

  lemma TwoOrder(n: int, m: int)
    requires 0 <= n < 100 && 0 <= m < 100
    ensures Less(Two(n), Two(m)) <==> n < m
    ensures Two(n) == Two(m) <==> n == m
  {
    TwoReads(n);
    TwoReads(m);
    SingleOrder(Digit(n / 10), Digit(m / 10));
    SingleOrder(Digit(n % 10), Digit(m % 10));
    assert Two(n) == [Digit(n / 10)] + [Digit(n % 10)] && Two(m) == [Digit(m / 10)] + [Digit(m % 10)];
    LessAppend([Digit(n / 10)], [Digit(m / 10)], [Digit(n % 10)], [Digit(m % 10)]);
  }

  lemma FourOrder(n: int, m: int)
    requires 0 <= n < 10000 && 0 <= m < 10000
    ensures Less(Four(n), Four(m)) <==> n < m
    ensures Four(n) == Four(m) <==> n == m
  {
    FourReads(n);
    FourReads(m);
    TwoOrder(n / 100, m / 100);
    TwoOrder(n % 100, m % 100);
    LessAppend(Two(n / 100), Two(m / 100), Two(n % 100), Two(m % 100));
  }

  predicate CivilLess(c: Civil, d: Civil) {
    c.year < d.year || (c.year == d.year && (c.month < d.month || (c.month == d.month && c.date < d.date)))
  }

  lemma SameYearOrder(a: int, b: int, c: Civil, d: Civil, yearStart: int, leap: bool)
    requires 0 <= c.month < 12 && 0 <= d.month < 12 && c.year == d.year && a < b
    requires a == yearStart + MonthStart(c.month, leap) + c.date - 1 && c.date >= 1
    requires b == yearStart + MonthStart(d.month, leap) + d.date - 1
    requires d.date - 1 < MonthStart(d.month + 1, leap) - MonthStart(d.month, leap)
    ensures CivilLess(c, d)
  {
  }

  lemma CivilOrder(a: int, b: int, c: Civil, d: Civil)
    requires IsCivil(c, a) && IsCivil(d, b)
    ensures a < b ==> CivilLess(c, d) && !CivilLess(d, c)
  {
    if a < b {
      if d.year < c.year {
        YearsIncrease(d.year, c.year);
      }
      if c.year == d.year {
        SameYearOrder(a, b, c, d, DayFromYear(c.year), Leap(c.year));
      }
    }
  }

  lemma DashOrder(y: string, z: string, s: string, t: string)
    requires |y| == |z|
    ensures Less(y + "-" + s, z + "-" + t) <==> Less(y, z) || (y == z && Less(s, t))
    ensures y + "-" + s == z + "-" + t <==> y == z && s == t
  {
    assert y + "-" + s == y + (['-'] + s) && z + "-" + t == z + (['-'] + t);
    LessAppend(y, z, ['-'] + s, ['-'] + t);
    assert (['-'] + s)[1..] == s && (['-'] + t)[1..] == t;
    assert (y + "-" + s)[..|y|] == y && (z + "-" + t)[..|y|] == z;
    assert (y + "-" + s)[|y| + 1..] == s && (z + "-" + t)[|y| + 1..] == t;
  }

  lemma PrintOrder(c: Civil, d: Civil)
    requires 0 <= c.year < 10000 && 0 <= c.month < 12 && 1 <= c.date <= 31
    requires 0 <= d.year < 10000 && 0 <= d.month < 12 && 1 <= d.date <= 31
    ensures Less(Print(c), Print(d)) <==> CivilLess(c, d)
  {
    FourOrder(c.year, d.year);
    TwoOrder(c.month + 1, d.month + 1);
    TwoOrder(c.date, d.date);
    DashOrder(Four(c.year), Four(d.year), Two(c.month + 1), Two(d.month + 1));
    DashOrder(Four(c.year) + "-" + Two(c.month + 1), Four(d.year) + "-" + Two(d.month + 1), Two(c.date), Two(d.date));
  }

  /** A day has one calendar date, and dates order as days do. */
  lemma CivilOrderIff(a: int, b: int, c: Civil, d: Civil)
    requires IsCivil(c, a) && IsCivil(d, b)
    ensures CivilLess(c, d) <==> a < b
    ensures a == b <==> c == d
  {
    CivilOrder(a, b, c, d);
    CivilOrder(b, a, d, c);
    if a == b {
      YearIsUnique(a, c.year, d.year);
      SameDayInYear(c, d, Leap(c.year));
    }
  }

  lemma SameDayInYear(c: Civil, d: Civil, leap: bool)
    requires 0 <= c.month < 12 && 0 <= d.month < 12 && c.date >= 1 && d.date >= 1
    requires c.year == d.year && MonthStart(c.month, leap) + c.date == MonthStart(d.month, leap) + d.date
    requires c.date - 1 < MonthStart(c.month + 1, leap) - MonthStart(c.month, leap)
    requires d.date - 1 < MonthStart(d.month + 1, leap) - MonthStart(d.month, leap)
    ensures c == d
  {
  }

  lemma KeyIsPrint(day: int) returns (c: Civil)
    requires HasKey(day)
    ensures IsCivil(c, day) && 0 <= c.year < 10000 && Key(day) == Print(c)
  {
    YearInRange(day);
    c := ToCivil(day);
  }

  /** Lexicographic order of keys is chronological order. */
  lemma KeyOrderIsChronological(a: int, b: int)
    requires HasKey(a) && HasKey(b)
    ensures Less(Key(a), Key(b)) <==> a < b
  {
    var c := KeyIsPrint(a);
    var d := KeyIsPrint(b);
    PrintOrder(c, d);
    CivilOrderIff(a, b, c, d);
  }

  // ---------- day arithmetic ----------

  function UtcDay(t: int): int {
    t / DAY_MS
  }

  /** Date.prototype.setUTCDate(getUTCDate() + days), section 21.4.4.28 of ECMA-262. */
  function ShiftUtcDate(t: int, days: int): int
    requires DayFromYear(FIRST_YEAR) <= UtcDay(t)
  {
    var c := ToCivil(UtcDay(t));
    DayFromCivil(c.year, c.month, c.date + days) * DAY_MS + t % DAY_MS
  }

  /** addDaysToDayKey on the day that a key denotes. */
  function AddDays(day: int, days: int): int
    requires HasKey(day)
  {
    StartInRange(day);
    DayOf(ShiftUtcDate(StartOf(day), days))
  }

  lemma StartInRange(day: int)
    requires HasKey(day)
    ensures DayFromYear(FIRST_YEAR) <= UtcDay(StartOf(day))
  {
  }

  /** Going through the civil calendar is plain addition, so it is an action of the integers. */
  lemma AddDaysAdds(day: int, a: int, b: int)
    requires HasKey(day) && HasKey(day + a)
    ensures AddDays(day, a) == day + a
    ensures AddDays(AddDays(day, a), b) == AddDays(day, a + b)
  {
  }

  /** addDaysToDayKey, from key to key, on printed keys. */
  lemma AddDaysToKeyAdds(day: int, days: int)
    requires HasKey(day) && HasKey(day + days)
    ensures 1 <= NumberOfTwo(Key(day)[5..7]) <= 12 && HasKey(Parse(Key(day)))
    ensures AddDays(Parse(Key(day)), days) == day + days
  {
    ParseKey(day);
    AddDaysAdds(day, days, 0);
  }

  /** After the query kept entries up to the end of the cutoff day, the test `dayKey > cutoffDayKey` never fires. */
  lemma CutoffGuardNeverFires(occurredAt: int, cutoff: int)
    requires HasKey(cutoff) && HasKey(DayOf(occurredAt)) && occurredAt <= EndOf(cutoff)
    ensures !Less(Key(cutoff), Key(DayOf(occurredAt)))
  {
    DayContainsInstant(occurredAt, DayOf(occurredAt));
    KeyOrderIsChronological(cutoff, DayOf(occurredAt));
  }
}
