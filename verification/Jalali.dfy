/** The calendar conversion of `notify.jalali` (hub/icsd_hub/notify.py): Gregorian date to a running day
    number, day number to Jalali date in 33-year cycles.
 */
module Jalali {

  datatype Date = Date(year: int, month: int, day: int)

  // ----- The Gregorian calendar -----

  predicate Leap(y: int) {
    y % 4 == 0 && (y % 100 != 0 || y % 400 == 0)
  }

  function MonthLength(y: int, m: int): int {
    if m == 2 then (if Leap(y) then 29 else 28)
    else if m == 4 || m == 6 || m == 9 || m == 11 then 30
    else 31
  }

  predicate Gregorian(g: Date) {
    1 <= g.month <= 12 && 1 <= g.day <= MonthLength(g.year, g.month)
  }

  function NextGregorian(g: Date): (r: Date)
    requires Gregorian(g)
    ensures Gregorian(r)
  {
    if g.day < MonthLength(g.year, g.month) then g.(day := g.day + 1)
    else if g.month < 12 then Date(g.year, g.month + 1, 1)
    else Date(g.year + 1, 1, 1)
  }

  const BEFORE_MONTH := [0, 31, 59, 90, 120, 151, 181, 212, 243, 273, 304, 334]

  function DayNumber(g: Date): int
    requires 1 <= g.month <= 12
  {
    var y2 := if g.month > 2 then g.year + 1 else g.year;
    355666 + 365 * g.year + (y2 + 3) / 4 - (y2 + 99) / 100 + (y2 + 399) / 400 + g.day + BEFORE_MONTH[g.month - 1]
  }

  // Quotient and remainder are the only ones that fit.

  lemma DivBy4(x: int, q: int, r: int)
    requires x == 4 * q + r && 0 <= r < 4
    ensures x / 4 == q && x % 4 == r
  {
  }

  lemma DivBy33(x: int, q: int, r: int)
    requires x == 33 * q + r && 0 <= r < 33
    ensures x / 33 == q && x % 33 == r
  {
  }

  lemma DivBy100(x: int, q: int, r: int)
    requires x == 100 * q + r && 0 <= r < 100
    ensures x / 100 == q && x % 100 == r
  {
  }

  lemma DivBy365(x: int, q: int, r: int)
    requires x == 365 * q + r && 0 <= r < 365
    ensures x / 365 == q && x % 365 == r
  {
  }

  lemma DivBy400(x: int, q: int, r: int)
    requires x == 400 * q + r && 0 <= r < 400
    ensures x / 400 == q && x % 400 == r
  {
  }

  lemma DivBy1461(x: int, q: int, r: int)
    requires x == 1461 * q + r && 0 <= r < 1461
    ensures x / 1461 == q && x % 1461 == r
  {
  }

  lemma DivBy12053(x: int, q: int, r: int)
    requires x == 12053 * q + r && 0 <= r < 12053
    ensures x / 12053 == q && x % 12053 == r
  {
  }

  /** A rounded-up quotient grows by one exactly at a multiple. */
  lemma CeilingStep4(y: int)
    ensures (y + 4) / 4 - (y + 3) / 4 == if y % 4 == 0 then 1 else 0
  {
    var q, r := y / 4, y % 4;
    DivBy4(y + 4, q + 1, r);
    if r == 0 {
      DivBy4(y + 3, q, 3);
    } else {
      DivBy4(y + 3, q + 1, r - 1);
    }
  }

  /** A rounded-up quotient grows by one exactly at a multiple. */
  lemma CeilingStep100(y: int)
    ensures (y + 100) / 100 - (y + 99) / 100 == if y % 100 == 0 then 1 else 0
  {
    var q, r := y / 100, y % 100;
    DivBy100(y + 100, q + 1, r);
    if r == 0 {
      DivBy100(y + 99, q, 99);
    } else {
      DivBy100(y + 99, q + 1, r - 1);
    }
  }

  /** A rounded-up quotient grows by one exactly at a multiple. */
  lemma CeilingStep400(y: int)
    ensures (y + 400) / 400 - (y + 399) / 400 == if y % 400 == 0 then 1 else 0
  {
    var q, r := y / 400, y % 400;
    DivBy400(y + 400, q + 1, r);
    if r == 0 {
      DivBy400(y + 399, q, 399);
    } else {
      DivBy400(y + 399, q + 1, r - 1);
    }
  }

  lemma Divisors(y: int)
    ensures y % 400 == 0 ==> y % 100 == 0
    ensures y % 100 == 0 ==> y % 4 == 0
  {
    if y % 400 == 0 {
      DivBy100(y, 4 * (y / 400), 0);
    }
    if y % 100 == 0 {
      DivBy4(y, 25 * (y / 100), 0);
    }
  }

  /** Consecutive Gregorian days have consecutive numbers, across month ends, leap days and centuries. */
  lemma DayNumberCounts(g: Date)
    requires Gregorian(g)
    ensures DayNumber(NextGregorian(g)) == DayNumber(g) + 1
  {
    if g.day == MonthLength(g.year, g.month) && g.month == 2 {
      CeilingStep4(g.year);
      CeilingStep100(g.year);
      CeilingStep400(g.year);
      Divisors(g.year);
    }
  }

  // ----- The Jalali calendar of the 33-year cycle -----

  // A cycle is 33 years or 12053 days, 8 of the years leap; four years with a leap year are 1461 days.

  predicate JalaliLeap(jy: int) {
    var y := (jy + 1595) % 33;
    y % 4 == 0 && y != 32
  }

  function JalaliMonthLength(jy: int, m: int): int {
    if m <= 6 then 31 else if m <= 11 || JalaliLeap(jy) then 30 else 29
  }

  predicate Valid(j: Date) {
    1 <= j.month <= 12 && 1 <= j.day <= JalaliMonthLength(j.year, j.month)
  }

  function NextJalali(j: Date): (r: Date)
    requires Valid(j)
    ensures Valid(r)
  {
    if j.day < JalaliMonthLength(j.year, j.month) then j.(day := j.day + 1)
    else if j.month < 12 then Date(j.year, j.month + 1, 1)
    else Date(j.year + 1, 1, 1)
  }

  /** Year within a four-year group and day of that year. */
  function YearOfGroup(days: int): (int, int) {
    if days > 365 then ((days - 1) / 365, (days - 1) % 365) else (0, days)
  }

  function MonthAndDay(days: int): (int, int) {
    if days < 186 then (1 + days / 31, 1 + days % 31) else (7 + (days - 186) / 30, 1 + (days - 186) % 30)
  }

  /** The date of day `days` of cycle `c`. */
  function InCycle(c: int, days: int): Date {
    var (y, doy) := YearOfGroup(days % 1461);
    var (m, d) := MonthAndDay(doy);
    Date(-1595 + 33 * c + 4 * (days / 1461) + y, m, d)
  }

  /** The second half of the conversion. */
  function FromDayNumber(n: int): Date {
    InCycle(n / 12053, n % 12053)
  }

  function Convert(g: Date): Date
    requires 1 <= g.month <= 12
  {
    FromDayNumber(DayNumber(g))
  }

  // ----- Its inverse -----

  function DayOfYear(m: int, d: int): int {
    if m <= 6 then 31 * (m - 1) + d - 1 else 186 + 30 * (m - 7) + d - 1
  }

  function BeforeYear(y: int): int {
    1461 * (y / 4) + if y % 4 == 0 then 0 else 365 * (y % 4) + 1
  }

  function AtDay(c: int, y: int, doy: int): int {
    12053 * c + BeforeYear(y) + doy
  }

  function ToDayNumber(j: Date): int {
    AtDay((j.year + 1595) / 33, (j.year + 1595) % 33, DayOfYear(j.month, j.day))
  }

  function YearLength(y: int): int {
    if y % 4 == 0 && y != 32 then 366 else 365
  }

  lemma MonthRoundTrip(doy: int)
    requires 0 <= doy <= 365
    ensures var (m, d) := MonthAndDay(doy);
            1 <= m <= 12 && DayOfYear(m, d) == doy && 1 <= d <= (if m <= 6 then 31 else 30)
            && (doy < 365 && m == 12 ==> d <= 29)
  {
  }

  lemma DayRoundTrip(m: int, d: int)
    requires 1 <= m <= 12 && 1 <= d <= if m <= 6 then 31 else 30
    ensures 0 <= DayOfYear(m, d) <= 365 && MonthAndDay(DayOfYear(m, d)) == (m, d)
    ensures m < 12 || d <= 29 ==> DayOfYear(m, d) < 365
  {
  }

  /** A day of the cycle lies in exactly one year. */
  lemma SplitCycle(days: int)
    requires 0 <= days < 12053
    ensures var (t, doy) := YearOfGroup(days % 1461);
            var y := 4 * (days / 1461) + t;
            0 <= y < 33 && 0 <= t < 4 && y / 4 == days / 1461 && y % 4 == t &&
            0 <= doy < YearLength(y) && BeforeYear(y) + doy == days
  {
    var q, r := days / 1461, days % 1461;
    assert days == 1461 * q + r && 0 <= q <= 8 && (q == 8 ==> r < 365);
    var (t, doy) := YearOfGroup(r);
    assert 0 <= t < 4;
    DivBy4(4 * q + t, q, t);
  }

  lemma JoinCycle(y: int, doy: int)
    requires 0 <= y < 33 && 0 <= doy < YearLength(y)
    ensures var days := BeforeYear(y) + doy;
            0 <= days < 12053 && days / 1461 == y / 4 && YearOfGroup(days % 1461) == (y % 4, doy)
  {
    var q, t := y / 4, y % 4;
    var r := (if t == 0 then 0 else 365 * t + 1) + doy;
    assert y == 4 * q + t && 0 <= q <= 8;
    assert BeforeYear(y) + doy == 1461 * q + r && 0 <= r < 1461;
    DivBy1461(BeforeYear(y) + doy, q, r);
    if t > 0 {
      DivBy365(r - 1, t, doy);
    }
  }

  lemma FromIsValid(n: int)
    ensures Valid(FromDayNumber(n)) && ToDayNumber(FromDayNumber(n)) == n
  {
    var c, days := n / 12053, n % 12053;
    SplitCycle(days);
    var (t, doy) := YearOfGroup(days % 1461);
    var y := 4 * (days / 1461) + t;
    MonthRoundTrip(doy);
    DivBy33(FromDayNumber(n).year + 1595, c, y);
  }

  lemma FromCycleDay(n: int, c: int, days: int)
    requires 0 <= days < 12053 && n == 12053 * c + days
    ensures FromDayNumber(n) == InCycle(c, days)
  {
    DivBy12053(n, c, days);
  }

  /** The date of a given day of a given year of a given cycle. */
  lemma FromAtDay(c: int, y: int, doy: int)
    requires 0 <= y < 33 && 0 <= doy < YearLength(y)
    ensures FromDayNumber(AtDay(c, y, doy)) == Date(-1595 + 33 * c + y, MonthAndDay(doy).0, MonthAndDay(doy).1)
  {
    JoinCycle(y, doy);
    FromCycleDay(AtDay(c, y, doy), c, BeforeYear(y) + doy);
    calc {
      FromDayNumber(AtDay(c, y, doy));
      InCycle(c, BeforeYear(y) + doy);
      Date(-1595 + 33 * c + 4 * (y / 4) + y % 4, MonthAndDay(doy).0, MonthAndDay(doy).1);
    }
  }

  lemma ValidDayOfYear(j: Date)
    requires Valid(j)
    ensures 0 <= DayOfYear(j.month, j.day) < YearLength((j.year + 1595) % 33)
    ensures MonthAndDay(DayOfYear(j.month, j.day)) == (j.month, j.day)
  {
    DayRoundTrip(j.month, j.day);
  }

  lemma InverseAt(n: int, j: Date, c: int, y: int, doy: int)
    requires 0 <= y < 33 && 0 <= doy < YearLength(y) && n == AtDay(c, y, doy)
    requires j.year == -1595 + 33 * c + y && MonthAndDay(doy) == (j.month, j.day)
    ensures FromDayNumber(n) == j
  {
    FromAtDay(c, y, doy);
  }

  lemma ToIsInverse(n: int, j: Date)
    requires Valid(j) && ToDayNumber(j) == n
    ensures FromDayNumber(n) == j
  {
    ValidDayOfYear(j);
    InverseAt(n, j, (j.year + 1595) / 33, (j.year + 1595) % 33, DayOfYear(j.month, j.day));
  }

  lemma YearStarts(y: int)
    requires 0 <= y < 32
    ensures BeforeYear(y + 1) == BeforeYear(y) + YearLength(y)
  {
  }

  lemma YearEnds(j: Date)
    requires Valid(j) && j.month == 12 && j.day == JalaliMonthLength(j.year, 12)
    ensures ToDayNumber(Date(j.year + 1, 1, 1)) == ToDayNumber(j) + 1
  {
    var c, y := (j.year + 1595) / 33, (j.year + 1595) % 33;
    assert DayOfYear(12, j.day) == YearLength(y) - 1;
    assert j.year + 1595 == 33 * c + y;
    if y < 32 {
      YearStarts(y);
      DivBy33(j.year + 1596, c, y + 1);
    } else {
      DivBy33(j.year + 1596, c + 1, 0);
      assert BeforeYear(32) + 365 == 12053;
    }
  }

  lemma NextCounts(j: Date)
    requires Valid(j)
    ensures ToDayNumber(NextJalali(j)) == ToDayNumber(j) + 1
  {
    if j.month == 12 && j.day == JalaliMonthLength(j.year, 12) {
      YearEnds(j);
    } else {
      assert NextJalali(j).year == j.year;
      assert DayOfYear(NextJalali(j).month, NextJalali(j).day) == DayOfYear(j.month, j.day) + 1;
    }
  }

  // ----- Main results -----

  /** Day numbers and valid Jalali dates are in one-to-one correspondence. */
  lemma Bijection(n: int, j: Date)
    requires Valid(j)
    ensures FromDayNumber(n) == j <==> ToDayNumber(j) == n
  {
    FromIsValid(n);
    ToIsInverse(ToDayNumber(j), j);
  }

  lemma NextFrom(n: int, j: Date)
    requires Valid(j) && ToDayNumber(j) == n
    ensures FromDayNumber(n + 1) == NextJalali(j)
  {
    NextCounts(j);
    ToIsInverse(n + 1, NextJalali(j));
  }

  /** The day after a Gregorian date converts to the day after its Jalali date. */
  lemma ConvertsConsecutively(g: Date)
    requires Gregorian(g)
    ensures Valid(Convert(g)) && Convert(NextGregorian(g)) == NextJalali(Convert(g))
  {
    DayNumberCounts(g);
    FromIsValid(DayNumber(g));
    NextFrom(DayNumber(g), Convert(g));
  }

  function GregorianAfter(g: Date, n: nat): (r: Date)
    requires Gregorian(g)
    ensures Gregorian(r)
  {
    if n == 0 then g else NextGregorian(GregorianAfter(g, n - 1))
  }

  function JalaliAfter(j: Date, n: nat): (r: Date)
    requires Valid(j)
    ensures Valid(r)
  {
    if n == 0 then j else NextJalali(JalaliAfter(j, n - 1))
  }

  lemma Nowruz1405()
    ensures Convert(Date(2026, 3, 21)) == Date(1405, 1, 1)
  {
    var n := 1095728;
    assert DayNumber(Date(2026, 3, 21)) == n;
    assert n / 12053 == 90 && n % 12053 == 10958;
    assert 10958 / 1461 == 7 && 10958 % 1461 == 731;
    assert YearOfGroup(731) == (2, 0);
  }

  /** Counting from Nowruz 1405, every later day converts to the Jalali day as many days on. */
  lemma {:induction false} CountedFromNowruz(n: nat)
    ensures Convert(GregorianAfter(Date(2026, 3, 21), n)) == JalaliAfter(Date(1405, 1, 1), n)
  {
    if n == 0 {
      Nowruz1405();
    } else {
      CountedFromNowruz(n - 1);
      ConvertsConsecutively(GregorianAfter(Date(2026, 3, 21), n - 1));
    }
  }
}
