/**
  Dates as the program stores and compares them: `2026-08-24`.

  The library repeats one idiom: split the string, hand the numbers to `Date.UTC` with the days
  or months shifted, take `toISOString().slice(0, 10)` of the result. Here that idiom is stated on
  strings and shown to be the date arithmetic of `Calendar`, and comparing two strings is shown to
  compare the dates.
 */
module IsoDates {
  import opened Calendar
  import opened Decimal

  /** `toISOString().slice(0, 10)`; years outside 0..9999 take a sign and six digits. */
  function Iso(date: Date): string
    requires Valid(date)
  {
    var year := if 0 <= date.y <= 9999 then Padded(date.y, 4)
                else if date.y < 0 then "-" + Padded(-date.y, 6)
                else "+" + Padded(date.y, 6);
    var full := year + "-" + Padded(date.m, 2) + "-" + Padded(date.d, 2);
    full[..if |full| < 10 then |full| else 10]
  }

  /** `s.split("-")`. */
  function SplitDash(s: string): (parts: seq<string>)
    ensures |parts| >= 1
  {
    if s == [] then [""]
    else
      var rest := SplitDash(s[1..]);
      if s[0] == '-' then [""] + rest else [[s[0]] + rest[0]] + rest[1..]
  }

  /** `Number(part)`, where anything that is not a string of digits counts as not a number. */
  function NumberOf(part: string): int {
    if forall c :: c in part ==> IsDigit(c) then Value(part) else 0
  }

  /** The three numbers of a date string; 0 stands for one that is missing or not a number. */
  function Parts(iso: string): Date {
    var parts := SplitDash(iso);
    if |parts| < 3 then Date(0, 0, 0) else Date(NumberOf(parts[0]), NumberOf(parts[1]), NumberOf(parts[2]))
  }

  /** `Date.UTC(y, month, day)` in days; years 0 to 99 mean 1900 to 1999. */
  function Utc(y: int, month: int, day: int): int {
    MakeDay(if 0 <= y <= 99 then 1900 + y else y, month, day)
  }

  /** The idiom: a string without three numbers is returned as it is. */
  function ShiftIso(iso: string, months: int, days: int): string {
    Shifted(iso, Parts(iso), months, days)
  }

  function Shifted(iso: string, parts: Date, months: int, days: int): string {
    if parts.y == 0 || parts.m == 0 || parts.d == 0 then iso
    else Iso(FromDay(Utc(parts.y, parts.m - 1 + months, parts.d + days)))
  }

  /** `addDays(iso, days)`. */
  function AddDaysIso(iso: string, days: int): string {
    ShiftIso(iso, 0, days)
  }

  /** `addMonths(iso, months)` of the billing periods. */
  function AddMonthsIso(iso: string, months: int): string {
    ShiftIso(iso, months, 0)
  }

  /** `dayBefore(iso)`. */
  function DayBeforeIso(iso: string): string {
    ShiftIso(iso, 0, -1)
  }

  function DaysBetweenIso(from: string, to: string): int {
    UtcOf(Parts(to)) - UtcOf(Parts(from))
  }

  function UtcOf(parts: Date): int {
    Utc(parts.y, parts.m - 1, parts.d)
  }

  /** The same operations on dates. */
  function AddDays(date: Date, days: int): (r: Date)
    ensures Valid(r) && ToDay(r) == ToDay(date) + days
  {
    FromDay(MakeDay(date.y, date.m - 1, date.d + days))
  }

  function AddMonths(date: Date, months: int): (r: Date)
    ensures Valid(r) && ToDay(r) == MonthStart(MonthIndex(date) + months) + date.d - 1
  {
    FromDay(MakeDay(date.y, date.m - 1 + months, date.d))
  }

  function DayBefore(date: Date): (r: Date)
    ensures Valid(r) && ToDay(r) == ToDay(date) - 1
  {
    FromDay(MakeDay(date.y, date.m - 1, date.d - 1))
  }

  function DaysBetween(from: Date, to: Date): int {
    ToDay(to) - ToDay(from)
  }

  /** A date that exists and has a four-digit year. */
  predicate Dated(date: Date) {
    Valid(date) && 1000 <= date.y <= 9999
  }

  lemma IsoShape(date: Date)
    requires Dated(date)
    ensures Iso(date) == Padded(date.y, 4) + "-" + Padded(date.m, 2) + "-" + Padded(date.d, 2)
    ensures |Padded(date.y, 4)| == 4 && |Padded(date.m, 2)| == 2 && |Padded(date.d, 2)| == 2
  {
    assert Pow10(2) == 10 * Pow10(1) == 100 && Pow10(4) == 10 * Pow10(3) == 10000;
    PaddedLength(date.y, 4);
    PaddedLength(date.m, 2);
    PaddedLength(date.d, 2);
  }

  lemma {:induction false} SplitPart(a: string, rest: string)
    requires forall i :: 0 <= i < |a| ==> a[i] != '-'
    ensures SplitDash(a + "-" + rest) == [a] + SplitDash(rest)
    ensures SplitDash(a) == [a]
  {
    if a == [] {
      assert (a + "-" + rest)[1..] == rest;
    } else {
      assert (a + "-" + rest)[1..] == a[1..] + "-" + rest;
      SplitPart(a[1..], rest);
      assert a == [a[0]] + a[1..];
    }
  }

  /** Reading a date string gives the date's numbers back. */
  lemma PartsOfIso(date: Date)
    requires Dated(date)
    ensures Parts(Iso(date)) == date
  {
    IsoShape(date);
    var y, m, d := Padded(date.y, 4), Padded(date.m, 2), Padded(date.d, 2);
    assert Iso(date) == y + "-" + (m + "-" + d);
    SplitPart(y, m + "-" + d);
    SplitPart(m, d);
    SplitPart(d, "");
    ValueOfPadded(date.y, 4);
    ValueOfPadded(date.m, 2);
    ValueOfPadded(date.d, 2);
  }

  lemma DashesOrder(a: string, b: string)
    ensures Less("-" + a, "-" + b) <==> Less(a, b)
  {
    assert ("-" + a)[1..] == a && ("-" + b)[1..] == b;
  }

  /** Parts of equal lengths are compared one after the other. */
  lemma JoinedOrder(a: string, b: string, x: string, y: string)
    requires |a| == |b|
    ensures Less(a + "-" + x, b + "-" + y) <==> Less(a, b) || (a == b && Less(x, y))
    ensures a + "-" + x == b + "-" + y <==> a == b && x == y
  {
    hide Less;
    assert a + "-" + x == a + ("-" + x) && b + "-" + y == b + ("-" + y);
    LessConcat(a, b, "-" + x, "-" + y);
    DashesOrder(x, y);
    assert (a + "-" + x)[..|a|] == a && (a + "-" + x)[|a| + 1..] == x;
    assert (b + "-" + y)[..|b|] == b && (b + "-" + y)[|b| + 1..] == y;
  }

  /** Four-digit ISO strings compare as their dates do; equal strings are equal dates. */
  lemma IsoOrder(a: Date, b: Date)
    requires Dated(a) && Dated(b)
    ensures Less(Iso(a), Iso(b)) <==> Before(a, b)
    ensures Iso(a) == Iso(b) <==> a == b
  {
    assert a.m >= 1 && a.d >= 1 && b.m >= 1 && b.d >= 1;
    hide Less, Iso, Padded, Valid;
    IsoShape(a);
    IsoShape(b);
    var ya, ma, da := Padded(a.y, 4), Padded(a.m, 2), Padded(a.d, 2);
    var yb, mb, db := Padded(b.y, 4), Padded(b.m, 2), Padded(b.d, 2);
    JoinedOrder(ya + "-" + ma, yb + "-" + mb, da, db);
    JoinedOrder(ya, yb, ma, mb);
    PaddedOrder(a.y, b.y, 4);
    PaddedOrder(a.m, b.m, 2);
    PaddedOrder(a.d, b.d, 2);
  }

  lemma PaddedOrder(a: nat, b: nat, width: nat)
    requires |Padded(a, width)| == |Padded(b, width)|
    ensures Less(Padded(a, width), Padded(b, width)) <==> a < b
    ensures Padded(a, width) == Padded(b, width) <==> a == b
  {
    ValueOfPadded(a, width);
    ValueOfPadded(b, width);
    NumeralOrder(Padded(a, width), Padded(b, width));
  }

  /** A year written with two digits or fewer is one of the nineteen hundreds, as `Date.UTC` has it. */
  lemma ShortYears(y: int, m: int, d: int)
    ensures 0 <= y < 100 ==> UtcOf(Date(y, m, d)) == ToDay(Date(1900 + y, m, d))
    ensures y < 0 || y >= 100 ==> UtcOf(Date(y, m, d)) == ToDay(Date(y, m, d))
  {
    hide MonthStart;
  }

  lemma ShiftedDate(iso: string, date: Date, months: int, days: int)
    requires Dated(date)
    ensures Shifted(iso, date, months, days) == Iso(FromDay(MakeDay(date.y, date.m - 1 + months, date.d + days)))
  {
    hide FromDay, Iso;
  }

  lemma ShiftOfIso(date: Date, months: int, days: int)
    requires Dated(date)
    ensures ShiftIso(Iso(date), months, days) == Iso(FromDay(MakeDay(date.y, date.m - 1 + months, date.d + days)))
  {
    hide FromDay, Iso, Parts, MakeDay, Valid, Shifted;
    PartsOfIso(date);
    ShiftedDate(Iso(date), date, months, days);
  }

  lemma DaysBetweenOfIso(date: Date, other: Date)
    requires Dated(date) && Dated(other)
    ensures DaysBetweenIso(Iso(date), Iso(other)) == DaysBetween(date, other)
  {
    hide FromDay, Iso, Parts, Valid, MonthStart;
    PartsOfIso(date);
    PartsOfIso(other);
  }

  /** The string functions are the date functions, whatever the shift. */
  lemma StringsFollowDates(date: Date, other: Date, n: int)
    requires Dated(date) && Dated(other)
    ensures AddDaysIso(Iso(date), n) == Iso(AddDays(date, n))
    ensures AddMonthsIso(Iso(date), n) == Iso(AddMonths(date, n))
    ensures DayBeforeIso(Iso(date)) == Iso(DayBefore(date))
    ensures DaysBetweenIso(Iso(date), Iso(other)) == DaysBetween(date, other)
  {
    hide FromDay, Iso, Parts, ShiftIso, Valid, DaysBetween, DaysBetweenIso, MakeDay;
    ShiftOfIso(date, 0, n);
    ShiftOfIso(date, n, 0);
    ShiftOfIso(date, 0, -1);
    DaysBetweenOfIso(date, other);
  }

  /** Counting the days to a shifted date gives the shift; shifts add up; a shift back undoes it. */
  lemma DayArithmetic(date: Date, m: int, n: int)
    requires Valid(date)
    ensures DaysBetween(date, AddDays(date, n)) == n
    ensures AddDays(AddDays(date, m), n) == AddDays(date, m + n)
    ensures AddDays(AddDays(date, n), -n) == date
    ensures DayBefore(date) == AddDays(date, -1)
  {
    SameDay(AddDays(AddDays(date, m), n), AddDays(date, m + n));
    SameDay(AddDays(AddDays(date, n), -n), date);
    SameDay(DayBefore(date), AddDays(date, -1));
  }
}
