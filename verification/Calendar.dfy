/**
  The proleptic Gregorian calendar in whole days, as `Date.UTC` and `toISOString` use it.

  Months are counted through the years, so that carrying a month or a day that is out of range is
  one addition. The closed form of section 21.4.1 of ECMA-262 is proved equal to the counting.
 */
module Calendar {

  const MS_PER_DAY := 86_400_000

  /** A calendar date; months and days count from 1. */
  datatype Date = Date(y: int, m: int, d: int)

  predicate Divides(n: nat, y: int)
    requires n > 0
  {
    y % n == 0
  }

  predicate IsLeap(y: int) {
    Divides(4, y) && (!Divides(100, y) || Divides(400, y))
  }

  /** Month `i` is month `i % 12` (from 0) of year `i / 12`. */
  function MonthLength(i: int): (n: int)
    ensures 28 <= n <= 31
  {
    var m := i % 12 + 1;
    if m == 2 then (if IsLeap(i / 12) then 29 else 28)
    else if m == 4 || m == 6 || m == 9 || m == 11 then 30
    else 31
  }

  /** January 1970, whose first day is day 0. */
  const EPOCH := 12 * 1970

  /** Day number of the first day of month `i`. */
  function MonthStart(i: int): int
    decreases if i < EPOCH then EPOCH - i else i - EPOCH
  {
    if i == EPOCH then 0
    else if i > EPOCH then MonthStart(i - 1) + MonthLength(i - 1)
    else MonthStart(i + 1) - MonthLength(i)
  }

  /** `MakeDay`: month (from 0) and day may lie outside their ranges. */
  function MakeDay(y: int, month: int, day: int): int {
    MonthStart(12 * y + month) + day - 1
  }

  function MonthIndex(date: Date): int {
    12 * date.y + date.m - 1
  }

  /** A date that exists in the calendar. */
  predicate Valid(date: Date) {
    1 <= date.m <= 12 && 1 <= date.d <= MonthLength(MonthIndex(date))
  }

  function ToDay(date: Date): int {
    MonthStart(MonthIndex(date)) + date.d - 1
  }

  /** Months follow one another without gap or overlap. */
  lemma MonthFollows(i: int)
    ensures MonthStart(i + 1) == MonthStart(i) + MonthLength(i)
  {
  }

  lemma {:induction false} MonthsApart(i: int, j: int)
    requires i <= j
    ensures MonthStart(i) + 28 * (j - i) <= MonthStart(j)
    decreases j - i
  {
    if i < j {
      MonthsApart(i, j - 1);
      MonthFollows(j - 1);
    }
  }

  /** The month of day `n`, searched from `guess`. */
  function MonthOf(n: int, guess: int): (i: int)
    ensures MonthStart(i) <= n < MonthStart(i) + MonthLength(i)
    decreases if MonthStart(guess) > n then 1 else 0,
              if MonthStart(guess) > n then MonthStart(guess) - n else n - MonthStart(guess)
  {
    MonthFollows(guess);
    MonthFollows(guess - 1);
    if n < MonthStart(guess) then MonthOf(n, guess - 1)
    else if MonthStart(guess) + MonthLength(guess) <= n then MonthOf(n, guess + 1)
    else guess
  }

  /** Reading a day number back as a date, as `toISOString` does. */
  function FromDay(n: int): (date: Date)
    ensures Valid(date) && ToDay(date) == n
  {
    var i := MonthOf(n, EPOCH);
    Date(i / 12, i % 12 + 1, n - MonthStart(i) + 1)
  }

  /** Lexicographic order, which is what comparing two ISO strings decides. */
  predicate Before(a: Date, b: Date) {
    a.y < b.y || (a.y == b.y && (a.m < b.m || (a.m == b.m && a.d < b.d)))
  }

  predicate NotAfter(a: Date, b: Date) {
    a == b || Before(a, b)
  }

  /** A day of an earlier month comes first, whatever the days of the month. */
  lemma EarlierMonth(i: int, di: int, j: int, dj: int)
    requires i < j && 1 <= di <= MonthLength(i) && 1 <= dj
    ensures MonthStart(i) + di - 1 < MonthStart(j) + dj - 1
  {
    MonthFollows(i);
    MonthsApart(i + 1, j);
  }

  /** Day numbers order dates exactly as the calendar does. */
  lemma OrderIsDayOrder(a: Date, b: Date)
    requires Valid(a) && Valid(b)
    ensures Before(a, b) <==> ToDay(a) < ToDay(b)
    ensures NotAfter(a, b) <==> ToDay(a) <= ToDay(b)
    ensures a == b <==> ToDay(a) == ToDay(b)
  {
    var i, j := MonthIndex(a), MonthIndex(b);
    if i < j {
      EarlierMonth(i, a.d, j, b.d);
    } else if j < i {
      EarlierMonth(j, b.d, i, a.d);
    }
  }

  /** A day number names one date only. */
  lemma SameDay(a: Date, b: Date)
    requires Valid(a) && Valid(b) && ToDay(a) == ToDay(b)
    ensures a == b
  {
    OrderIsDayOrder(a, b);
  }

  /** Dates and day numbers are in bijection. */
  lemma RoundTrip(date: Date)
    requires Valid(date)
    ensures FromDay(ToDay(date)) == date
  {
    SameDay(FromDay(ToDay(date)), date);
  }

  function Fourths(n: int): int { n / 4 }

  function Hundredths(n: int): int { n / 100 }

  function FourHundredths(n: int): int { n / 400 }

  /** Day number of 1 January of year `y` in closed form (`DayFromYear` of ECMA-262). */
  function DayFromYear(y: int): int {
    365 * (y - 1970) + Fourths(y - 1969) - Hundredths(y - 1901) + FourHundredths(y - 1601)
  }

  /** Days of the year before month `m` (from 0) begins. */
  function DaysBeforeMonth(y: int, m: int): int
    requires 0 <= m < 12
  {
    var leap := if IsLeap(y) then 1 else 0;
    if m < 2 then 31 * m
    else leap + [59, 90, 120, 151, 181, 212, 243, 273, 304, 334][m - 2]
  }

  lemma YearLength(y: int)
    ensures DayFromYear(y + 1) == DayFromYear(y) + if IsLeap(y) then 366 else 365
  {
    Centuries(y);
    Leap4(y);
    Leap100(y);
    Leap400(y);
    hide Divides, Fourths, Hundredths, FourHundredths;
  }

  lemma Centuries(y: int)
    ensures (Divides(400, y) ==> Divides(100, y)) && (Divides(100, y) ==> Divides(4, y))
  {
  }

  lemma Leap4(y: int)
    ensures Fourths(y + 1 - 1969) == Fourths(y - 1969) + if Divides(4, y) then 1 else 0
  {
  }

  lemma Leap100(y: int)
    ensures Hundredths(y + 1 - 1901) == Hundredths(y - 1901) + if Divides(100, y) then 1 else 0
  {
  }

  lemma Leap400(y: int)
    ensures FourHundredths(y + 1 - 1601) == FourHundredths(y - 1601) + if Divides(400, y) then 1 else 0
  {
  }

  /** The first day of month `i` in closed form. */
  function ClosedMonthStart(i: int): int {
    DayFromYear(i / 12) + DaysBeforeMonth(i / 12, i % 12)
  }

  lemma ClosedFormFollows(i: int)
    ensures ClosedMonthStart(i + 1) == ClosedMonthStart(i) + MonthLength(i)
  {
    if i % 12 == 11 {
      assert (i + 1) / 12 == i / 12 + 1 && (i + 1) % 12 == 0;
      YearLength(i / 12);
    } else {
      assert (i + 1) / 12 == i / 12 && (i + 1) % 12 == i % 12 + 1;
    }
  }

  lemma ClosedEpoch()
    ensures ClosedMonthStart(EPOCH) == 0
  {
  }

  /** Counting months is the closed form of section 21.4.1 of ECMA-262, for every month. */
  lemma {:induction false} MonthStartClosedForm(i: int)
    ensures MonthStart(i) == ClosedMonthStart(i)
    decreases if i < EPOCH then EPOCH - i else i - EPOCH
  {
    ClosedEpoch();
    hide ClosedMonthStart, MonthLength;
    if i != EPOCH {
      if i > EPOCH {
        MonthStartClosedForm(i - 1);
        ClosedFormFollows(i - 1);
      } else {
        MonthStartClosedForm(i + 1);
        ClosedFormFollows(i);
      }
    }
  }
}
