/** The term `POST /contracts` stores, and how many instalments it comes to. */
module ContractTerms {
  import opened Calendar
  import opened IsoDates
  import opened Rounding
  import opened BillingPeriods

  /** The end date stored for a new contract: the start plus `termDays` whole days, itself included. */
  function StoredEnd(start: Date, termDays: int): Date {
    AddDays(start, termDays)
  }

  function InstalmentsAYear(c: Contract): nat
    requires c.billing != PerVisit
  {
    PerYear(c.billing).value
  }

  function TotalValue(ps: seq<Period>): int {
    if ps == [] then 0 else ps[0].valuePaise + TotalValue(ps[1..])
  }

  lemma {:induction false} EqualValues(ps: seq<Period>, v: int)
    requires forall k | 0 <= k < |ps| :: ps[k].valuePaise == v
    ensures TotalValue(ps) == |ps| * v
  {
    if ps != [] {
      EqualValues(ps[1..], v);
    }
  }

  /** Every instalment is worth the same, the last one too. */
  lemma EveryPeriodWorthTheSame(c: Contract)
    requires c.billing != PerVisit
    ensures forall k | 0 <= k < |Periods(c)| :: Periods(c)[k].valuePaise == PeriodValue(c)
    ensures TotalValue(Periods(c)) == |Periods(c)| * PeriodValue(c)
  {
    hide AddMonths, DayBefore, RoundDiv, Periods;
    PeriodsShape(c);
    EqualValues(Periods(c), PeriodValue(c));
  }

  /** There are n periods when the term reaches the n-th start but not the one after. */
  lemma CountIs(c: Contract, n: nat)
    requires Stored(c) && c.billing != PerVisit && n <= CAP
    requires n > 0 ==> StartDay(c, n - 1) <= ToDay(c.end)
    requires ToDay(c.end) < StartDay(c, n)
    ensures |Periods(c)| == n
  {
    hide Before, NotAfter, Valid, ToDay, NthStart, Periods;
    PeriodsShape(c);
    var k := |Periods(c)|;
    StartsInOrder(c, k, k);
    StartsInOrder(c, n, n);
    OrderIsDayOrder(Start(c, k), c.end);
    OrderIsDayOrder(Start(c, n), c.end);
    if k < n {
      StartsInOrder(c, k, n - 1);
    }
  }

  /** A term that ends the day before its anniversary of `years` years. */
  predicate WholeYears(c: Contract, years: nat) {
    c.end == DayBefore(AddMonths(c.start, 12 * years))
  }

  /** A list cut off by the cap. */
  lemma CountAtCap(c: Contract)
    requires Stored(c) && c.billing != PerVisit && StartDay(c, CAP - 1) <= ToDay(c.end)
    ensures |Periods(c)| == CAP
  {
    hide Before, NotAfter, Valid, ToDay, NthStart, Periods;
    PeriodsShape(c);
    var k := |Periods(c)|;
    if k < CAP {
      StartsInOrder(c, k, k);
      StartsInOrder(c, k, CAP - 1);
      OrderIsDayOrder(Start(c, k), c.end);
    }
  }

  /** The instalments of so many years. */
  function InstalmentsOf(c: Contract, years: nat): nat
    requires c.billing != PerVisit
  {
    years * InstalmentsAYear(c)
  }

  lemma InstalmentsFillTheYears(c: Contract, years: nat)
    requires c.billing != PerVisit
    ensures MonthsEach(c) >= 1 && InstalmentsOf(c, years) * MonthsEach(c) == 12 * years
    ensures InstalmentsOf(c, 1) == InstalmentsAYear(c) && 0 < InstalmentsAYear(c) <= 12
    ensures years > 0 ==> InstalmentsOf(c, years) > 0
  {
    var count, months := InstalmentsAYear(c), MonthsEach(c);
    assert count * months == 12;
    assert years * count * months == years * (count * months);
  }

  lemma YearsStepped(c: Contract, years: nat)
    requires c.billing != PerVisit
    ensures MonthStepped(c.start, MonthsEach(c), InstalmentsOf(c, years)) == MonthIndex(c.start) + 12 * years
  {
    InstalmentsFillTheYears(c, years);
    hide InstalmentsOf, MonthsEach;
  }

  /** The same month some years on is no shorter, save for a February that was leap. */
  lemma AnniversaryMonth(i: int, years: nat)
    ensures MonthLength(i + 12 * years) >= MonthLength(i) || (MonthLength(i) == 29 && MonthLength(i + 12 * years) == 28)
  {
    assert (i + 12 * years) % 12 == i % 12;
    hide IsLeap;
  }

  /** The day a contract reaches a whole number of years; 29 February reaches it on 1 March where there is none. */
  function AnniversaryDay(c: Contract, years: nat): int {
    MonthStart(MonthIndex(c.start) + 12 * years) + c.start.d - 1
  }

  /** A month on the way was too short, while the last one is not. */
  ghost predicate PastAShortMonth(c: Contract, years: nat)
    requires c.billing != PerVisit
  {
    && !MonthsHaveDay(c.start, MonthsEach(c), InstalmentsOf(c, years))
    && MonthLength(MonthIndex(c.start) + 12 * years) >= c.start.d
  }

  lemma StartOnTheAnniversary(c: Contract, years: nat)
    requires Stored(c) && c.billing != PerVisit && MonthsHaveDay(c.start, MonthsEach(c), InstalmentsOf(c, years))
    ensures StartDay(c, InstalmentsOf(c, years)) == AnniversaryDay(c, years)
  {
    hide MonthStart, MonthLength, MonthStepped, NthStart, MonthsHaveDay, InstalmentsOf, MonthsEach, Valid, ToDay,
         MonthIndex;
    YearsStepped(c, years);
    StartWithoutShortMonth(c.start, MonthsEach(c), InstalmentsOf(c, years));
  }

  lemma StartPastTheAnniversary(c: Contract, years: nat)
    requires Stored(c) && c.billing != PerVisit && !MonthsHaveDay(c.start, MonthsEach(c), InstalmentsOf(c, years))
    ensures StartDay(c, InstalmentsOf(c, years)) >= AnniversaryDay(c, years)
    ensures PastAShortMonth(c, years) ==> StartDay(c, InstalmentsOf(c, years)) > AnniversaryDay(c, years)
  {
    var i := MonthIndex(c.start) + 12 * years;
    assert c.start.d <= MonthLength(MonthIndex(c.start));
    hide MonthStart, MonthLength, MonthStepped, NthStart, MonthsHaveDay, InstalmentsOf, MonthsEach, Valid, ToDay,
         MonthIndex;
    YearsStepped(c, years);
    StartAfterShortMonth(c.start, MonthsEach(c), InstalmentsOf(c, years));
    AnniversaryMonth(MonthIndex(c.start), years);
    MonthFollows(i);
  }

  /** The start after whole years: on the anniversary while no month on the way was too short, else after it. */
  lemma StartAtTheAnniversary(c: Contract, years: nat)
    requires Stored(c) && c.billing != PerVisit
    ensures var n := InstalmentsOf(c, years);
            && (MonthsHaveDay(c.start, MonthsEach(c), n) ==> StartDay(c, n) == AnniversaryDay(c, years))
            && (!MonthsHaveDay(c.start, MonthsEach(c), n) ==> StartDay(c, n) >= AnniversaryDay(c, years))
            && (PastAShortMonth(c, years) ==> StartDay(c, n) > AnniversaryDay(c, years))
  {
    hide MonthsHaveDay, InstalmentsOf, MonthsEach, Valid, StartDay, AnniversaryDay, MonthLength;
    if MonthsHaveDay(c.start, MonthsEach(c), InstalmentsOf(c, years)) {
      StartOnTheAnniversary(c, years);
    } else {
      StartPastTheAnniversary(c, years);
    }
  }

  /** A start is before the contract's day in any later month, however it has slipped. */
  lemma StartBeforeLaterMonth(start: Date, months: nat, k: nat, later: int)
    requires Valid(start) && MonthStepped(start, months, k) < later
    ensures ToDay(NthStart(start, months, k)) < MonthStart(later) + start.d - 1
  {
    var i := MonthStepped(start, months, k);
    MonthFollows(i);
    MonthsApart(i + 1, later);
    hide MonthStart, MonthLength, MonthStepped, NthStart, MonthsHaveDay, Valid, ToDay;
    if MonthsHaveDay(start, months, k) {
      StartWithoutShortMonth(start, months, k);
    } else {
      StartAfterShortMonth(start, months, k);
    }
  }

  /** And the start before it comes before the anniversary. */
  lemma OneStepShort(c: Contract, years: nat)
    requires Stored(c) && c.billing != PerVisit && years > 0
    ensures InstalmentsOf(c, years) > 0 && StartDay(c, InstalmentsOf(c, years) - 1) < AnniversaryDay(c, years)
  {
    hide MonthStart, NthStart, MonthStepped, InstalmentsOf, MonthsEach, Valid, ToDay, MonthIndex;
    InstalmentsFillTheYears(c, years);
    YearsStepped(c, years);
    NextMonthStepped(c.start, MonthsEach(c), InstalmentsOf(c, years));
    StartBeforeLaterMonth(c.start, MonthsEach(c), InstalmentsOf(c, years) - 1, MonthIndex(c.start) + 12 * years);
  }

  /** The number of periods of a list that would have n, were it not for the cap. */
  function Capped(n: nat): nat {
    if n <= CAP then n else CAP
  }

  lemma WholeYearsCount(c: Contract, years: nat)
    requires Stored(c) && c.billing != PerVisit && ToDay(c.end) == AnniversaryDay(c, years) - 1
    ensures |Periods(c)| == Capped(InstalmentsOf(c, years))
  {
    hide AnniversaryDay, StartDay, InstalmentsOf, Periods, ToDay, Valid, MonthsEach, Start;
    AnniversaryBetweenStarts(c, years);
    var n := InstalmentsOf(c, years);
    if n <= CAP {
      CountIs(c, n);
    } else {
      StartsInOrder(c, CAP - 1, n - 1);
      CountAtCap(c);
    }
  }

  /** The anniversary comes after the last of the years' starts and no later than the next. */
  lemma AnniversaryBetweenStarts(c: Contract, years: nat)
    requires Stored(c) && c.billing != PerVisit
    ensures var n := InstalmentsOf(c, years);
            AnniversaryDay(c, years) <= StartDay(c, n) && (n > 0 ==> StartDay(c, n - 1) < AnniversaryDay(c, years))
  {
    assert years == 0 ==> InstalmentsOf(c, years) == 0;
    hide AnniversaryDay, StartDay, InstalmentsOf, ToDay, MonthsHaveDay, MonthLength, Valid, MonthsEach;
    StartAtTheAnniversary(c, years);
    if years > 0 {
      OneStepShort(c, years);
    }
  }

  lemma WholeYearsEnd(c: Contract, years: nat)
    requires WholeYears(c, years)
    ensures ToDay(c.end) == AnniversaryDay(c, years) - 1
  {
    hide MonthStart, Valid;
  }

  /**
    A contract of whole years has exactly its yearly number of instalments for each year, on whatever day
    it starts, up to the cap; below the cap they add up to the agreed value within half a paisa each.
   */
  lemma WholeYearsBillInFull(c: Contract, years: nat)
    requires Stored(c) && c.billing != PerVisit && WholeYears(c, years)
    ensures |Periods(c)| == Capped(InstalmentsOf(c, years))
    ensures InstalmentsOf(c, years) <= CAP ==>
      0 - InstalmentsOf(c, years) <= 2 * (TotalValue(Periods(c)) - years * c.annualPaise) <= InstalmentsOf(c, years)
  {
    WholeYearsEnd(c, years);
    ScaledRounding(years, InstalmentsAYear(c), PeriodValue(c), c.annualPaise);
    assert InstalmentsOf(c, years) == years * InstalmentsAYear(c);
    hide AnniversaryDay, WholeYears, Periods, ToDay, Stored, InstalmentsOf, InstalmentsAYear, PeriodValue, TotalValue;
    WholeYearsCount(c, years);
    EveryPeriodWorthTheSame(c);
  }

  lemma ScaledRounding(years: int, count: int, v: int, annual: int)
    requires years >= 0 && count > 0 && -count <= 2 * (count * v - annual) <= count
    ensures -(years * count) <= 2 * (years * count * v - years * annual) <= years * count
  {
    var e := 2 * (count * v - annual);
    assert 2 * (years * count * v - years * annual) == years * e;
    assert years * (count - e) >= 0 && years * (e + count) >= 0;
  }

  ghost predicate HasLeapDay(c: Contract) {
    exists x :: InTerm(c, x) && x.m == 2 && x.d == 29
  }

  /** The year whose February lies in the twelve months from month `i`. */
  function FebruaryYear(i: int): int {
    if i % 12 < 2 then i / 12 else i / 12 + 1
  }

  lemma TwelveMonths(i: int)
    ensures MonthStart(i + 12) == MonthStart(i) + if IsLeap(FebruaryYear(i)) then 366 else 365
  {
    hide MonthStart;
    MonthStartClosedForm(i);
    MonthStartClosedForm(i + 12);
    assert (i + 12) / 12 == i / 12 + 1 && (i + 12) % 12 == i % 12;
    YearLength(i / 12);
  }

  /** A year and a day from the start contain a 29 February exactly when the February between is leap. */
  lemma LeapDayInTerm(c: Contract)
    requires Stored(c) && c.end == StoredEnd(c.start, 365)
    ensures HasLeapDay(c) <==> IsLeap(FebruaryYear(MonthIndex(c.start)))
  {
    var i := MonthIndex(c.start);
    var y := FebruaryYear(i);
    if IsLeap(y) {
      var x := Date(y, 2, 29);
      FebruaryIndex(i);
      LeapDayInside(c, x);
      assert InTerm(c, x);
    }
    if HasLeapDay(c) {
      var x :| InTerm(c, x) && x.m == 2 && x.d == 29;
      LeapDayOutside(c, x);
    }
  }

  lemma FebruaryIndex(i: int)
    ensures var f := 12 * FebruaryYear(i) + 1; i <= f < i + 12 && (IsLeap(FebruaryYear(i)) ==> MonthLength(f) == 29)
  {
    var y := FebruaryYear(i);
    assert (12 * y + 1) / 12 == y && (12 * y + 1) % 12 == 1;
  }

  lemma LeapDayInside(c: Contract, x: Date)
    requires Stored(c) && c.end == StoredEnd(c.start, 365)
    requires x == Date(FebruaryYear(MonthIndex(c.start)), 2, 29) && IsLeap(x.y)
    ensures InTerm(c, x)
  {
    hide AddDays;
    var i := MonthIndex(c.start);
    FebruaryIndex(i);
    TwelveMonths(i);
    OrderIsDayOrder(c.start, x);
    OrderIsDayOrder(x, c.end);
    var f := MonthIndex(x);
    if i < f {
      EarlierMonth(i, c.start.d, f, 29);
    }
    EarlierMonth(f, 29, i + 12, c.start.d);
  }

  lemma LeapDayOutside(c: Contract, x: Date)
    requires Stored(c) && c.end == StoredEnd(c.start, 365)
    requires InTerm(c, x) && x.m == 2 && x.d == 29
    ensures x.y == FebruaryYear(MonthIndex(c.start)) && IsLeap(x.y)
  {
    hide AddDays;
    var i, f := MonthIndex(c.start), MonthIndex(x);
    TwelveMonths(i);
    OrderIsDayOrder(c.start, x);
    OrderIsDayOrder(x, c.end);
    if f < i {
      EarlierMonth(f, 29, i, c.start.d);
    }
    if i + 12 < f {
      MonthFollows(i + 12);
      MonthsApart(i + 13, f);
    }
    assert (12 * x.y + 1) / 12 == x.y && (12 * x.y + 1) % 12 == 1;
  }

  /** The default term ends the day before the anniversary with a 29 February in it, and on it without. */
  lemma DefaultTermEnds(c: Contract)
    requires Stored(c) && c.end == StoredEnd(c.start, 365)
    ensures ToDay(c.end) == AnniversaryDay(c, 1) - if HasLeapDay(c) then 1 else 0
  {
    hide AddDays, HasLeapDay;
    LeapDayInTerm(c);
    TwelveMonths(MonthIndex(c.start));
  }

  /** Every step of the first year lands on the contract's own day. */
  ghost predicate KeepsItsDay(c: Contract)
    requires c.billing != PerVisit
  {
    MonthsHaveDay(c.start, MonthsEach(c), InstalmentsAYear(c))
  }

  lemma FirstYearStarts(c: Contract)
    requires Stored(c) && c.billing != PerVisit
    ensures var count := InstalmentsAYear(c);
            && 0 < count <= 12
            && StartDay(c, count - 1) < AnniversaryDay(c, 1) <= StartDay(c, count) <= StartDay(c, count + 1) - 28
  {
    InstalmentsFillTheYears(c, 1);
    hide StartDay, AnniversaryDay, InstalmentsOf, InstalmentsAYear, MonthsHaveDay, MonthLength, Valid, ToDay,
         MonthsEach;
    StartAtTheAnniversary(c, 1);
    OneStepShort(c, 1);
    StartsInOrder(c, InstalmentsAYear(c), InstalmentsAYear(c) + 1);
  }

  lemma OrdinaryYear(c: Contract)
    requires Stored(c) && !IsLeap(FebruaryYear(MonthIndex(c.start)))
    ensures MonthLength(MonthIndex(c.start) + 12) >= c.start.d
  {
    var i := MonthIndex(c.start);
    assert (i + 12) % 12 == i % 12 && (i + 12) / 12 == i / 12 + 1;
  }

  lemma YearWithoutShortMonth(c: Contract)
    requires Stored(c) && c.billing != PerVisit && !IsLeap(FebruaryYear(MonthIndex(c.start)))
    ensures KeepsItsDay(c) <==> StartDay(c, InstalmentsAYear(c)) == AnniversaryDay(c, 1)
  {
    OrdinaryYear(c);
    InstalmentsFillTheYears(c, 1);
    StartAtTheAnniversary(c, 1);
    hide StartDay, AnniversaryDay, InstalmentsOf, InstalmentsAYear, MonthsHaveDay, MonthLength, Valid, MonthsEach;
  }

  /**
    The default term of 365 days is stored with its last day included, so it reaches the anniversary and
    grows one more instalment: exactly when no 29 February takes the extra day and no short month pushes
    the year's last step beyond it.
   */
  lemma DefaultTermBillsOnceMore(c: Contract)
    requires Stored(c) && c.billing != PerVisit && c.end == StoredEnd(c.start, 365)
    ensures |Periods(c)| == InstalmentsAYear(c) + if HasLeapDay(c) || !KeepsItsDay(c) then 0 else 1
  {
    DefaultTermEnds(c);
    LeapDayInTerm(c);
    FirstYearStarts(c);
    if !HasLeapDay(c) {
      YearWithoutShortMonth(c);
    }
    hide AnniversaryDay, StartDay, InstalmentsAYear, HasLeapDay, IsLeap, FebruaryYear, StoredEnd, KeepsItsDay,
         Periods, ToDay, Valid;
    CountIs(c, InstalmentsAYear(c) + if HasLeapDay(c) || !KeepsItsDay(c) then 0 else 1);
  }
}
