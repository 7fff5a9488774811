/** Splitting a contract's term into billing periods: `src/lib/billing-periods.ts`. */
module BillingPeriods {
  import opened Calendar
  import opened IsoDates
  import opened Rounding
  import opened Wrappers

  datatype Billing = UpfrontAnnual | HalfYearly | Quarterly | Monthly | PerVisit

  datatype Contract = Contract(billing: Billing, start: Date, end: Date, annualPaise: int)

  /** One instalment; `start` and `end` are both inside it. */
  datatype Period = Period(number: nat, start: Date, end: Date, valuePaise: int)

  const CAP: nat := 240

  function PerYear(billing: Billing): Option<nat> {
    match billing
    case Monthly => Some(12)
    case Quarterly => Some(4)
    case HalfYearly => Some(2)
    case UpfrontAnnual => Some(1)
    case PerVisit => None
  }

  /** How many months a period lasts, for a contract that is billed by period. */
  function MonthsEach(c: Contract): (m: nat)
    requires c.billing != PerVisit
    ensures m > 0 && m * PerYear(c.billing).value == 12
  {
    12 / PerYear(c.billing).value
  }

  function PeriodValue(c: Contract): int
    requires c.billing != PerVisit
  {
    RoundDiv(c.annualPaise, PerYear(c.billing).value)
  }

  /** The dates the table holds exist. */
  predicate Stored(c: Contract) {
    Valid(c.start) && Valid(c.end)
  }

  /** The period that starts on `start`, clipped to the contract's end. */
  function PeriodAt(c: Contract, start: Date, k: nat): Period
    requires c.billing != PerVisit
  {
    var end := DayBefore(AddMonths(start, MonthsEach(c)));
    Period(k + 1, start, if Before(c.end, end) then c.end else end, PeriodValue(c))
  }

  function PeriodsFrom(c: Contract, start: Date, k: nat): seq<Period>
    requires c.billing != PerVisit
    decreases CAP - k
  {
    if NotAfter(start, c.end) && k < CAP
    then [PeriodAt(c, start, k)] + PeriodsFrom(c, AddMonths(start, MonthsEach(c)), k + 1)
    else []
  }

  function Periods(c: Contract): seq<Period> {
    if c.billing == PerVisit then [] else PeriodsFrom(c, c.start, 0)
  }

  lemma OneMorePeriod(c: Contract, start: Date, k: nat)
    requires c.billing != PerVisit
    ensures PeriodsFrom(c, start, k) ==
      if NotAfter(start, c.end) && k < CAP
      then [PeriodAt(c, start, k)] + PeriodsFrom(c, AddMonths(start, MonthsEach(c)), k + 1) else []
  {
    hide AddMonths, PeriodAt, NotAfter, MonthsEach;
  }

  /** `periodsOf`. */
  method PeriodsOf(c: Contract) returns (periods: seq<Period>)
    ensures periods == Periods(c)
  {
    hide AddMonths, DayBefore, PeriodValue, Before, NotAfter, Valid, ToDay, PeriodsFrom;
    periods := [];
    if PerYear(c.billing) == None {
      return;
    }
    var monthsEach := MonthsEach(c);
    var valuePaise := PeriodValue(c);
    var start := c.start;
    ghost var all := PeriodsFrom(c, start, 0);
    while NotAfter(start, c.end) && |periods| < CAP
      invariant |periods| <= CAP
      invariant periods + PeriodsFrom(c, start, |periods|) == all
      decreases CAP - |periods|
    {
      OneMorePeriod(c, start, |periods|);
      var nextStart := AddMonths(start, monthsEach);
      var end := DayBefore(nextStart);
      var period := Period(|periods| + 1, start, if Before(c.end, end) then c.end else end, valuePaise);
      ghost var rest := PeriodsFrom(c, nextStart, |periods| + 1);
      assert periods + ([period] + rest) == (periods + [period]) + rest;
      periods := periods + [period];
      start := nextStart;
    }
    OneMorePeriod(c, start, |periods|);
  }

  /** Where the k-th step of the loop starts: `addMonths` applied k times. */
  function NthStart(start: Date, months: nat, k: nat): Date {
    if k == 0 then start else AddMonths(NthStart(start, months, k - 1), months)
  }

  lemma {:induction false} NthStartShift(start: Date, months: nat, k: nat)
    ensures NthStart(AddMonths(start, months), months, k) == NthStart(start, months, k + 1)
  {
    hide AddMonths, Valid, ToDay, MonthStart;
    if k > 0 {
      NthStartShift(start, months, k - 1);
    }
  }

  /** Every step moves forward by at least 28 days a month, short months and overflow included. */
  lemma StartsAdvance(start: Date, months: nat)
    ensures ToDay(AddMonths(start, months)) >= ToDay(start) + 28 * months
  {
    hide AddMonths, MonthStart, Valid;
    MonthsApart(MonthIndex(start), MonthIndex(start) + months);
  }

  lemma {:induction false} NthStartsAscend(start: Date, months: nat, j: nat, k: nat)
    requires Valid(start) && months > 0 && j <= k
    ensures Valid(NthStart(start, months, k))
    ensures ToDay(NthStart(start, months, j)) + 28 * (k - j) <= ToDay(NthStart(start, months, k))
    decreases k
  {
    hide AddMonths, ToDay, Valid, MonthStart;
    if j < k {
      NthStartsAscend(start, months, j, k - 1);
      StartsAdvance(NthStart(start, months, k - 1), months);
    } else if k > 0 {
      NthStartsAscend(start, months, k - 1, k - 1);
    }
  }

  /** The start of period `k` of a contract, counting from 0. */
  function Start(c: Contract, k: nat): Date
    requires c.billing != PerVisit
  {
    NthStart(c.start, MonthsEach(c), k)
  }

  function StartDay(c: Contract, k: nat): int
    requires c.billing != PerVisit
  {
    ToDay(Start(c, k))
  }

  /** The periods from the `k`-th on are those of the successive starts, up to the term's end or the cap. */
  ghost predicate Shaped(c: Contract, ps: seq<Period>, start: Date, k: nat)
    requires c.billing != PerVisit && k <= CAP
  {
    var m := MonthsEach(c);
    && |ps| <= CAP - k
    && (forall j | 0 <= j < |ps| ::
        ps[j] == PeriodAt(c, NthStart(start, m, j), k + j) && NotAfter(NthStart(start, m, j), c.end))
    && (|ps| < CAP - k ==> !NotAfter(NthStart(start, m, |ps|), c.end))
  }

  lemma OneMoreShaped(c: Contract, rest: seq<Period>, start: Date, k: nat)
    requires c.billing != PerVisit && k < CAP && NotAfter(start, c.end)
    requires Shaped(c, rest, AddMonths(start, MonthsEach(c)), k + 1)
    ensures Shaped(c, [PeriodAt(c, start, k)] + rest, start, k)
  {
    hide AddMonths, NotAfter, PeriodAt, MonthsEach;
    var ps, m := [PeriodAt(c, start, k)] + rest, MonthsEach(c);
    assert NthStart(start, m, 0) == start;
    forall j: nat
      ensures NthStart(AddMonths(start, m), m, j) == NthStart(start, m, j + 1)
    {
      NthStartShift(start, m, j);
    }
    hide NthStart;
    forall j | 0 <= j < |ps|
      ensures ps[j] == PeriodAt(c, NthStart(start, m, j), k + j) && NotAfter(NthStart(start, m, j), c.end)
    {
      if j > 0 {
        assert ps[j] == rest[j - 1] && NthStart(AddMonths(start, m), m, j - 1) == NthStart(start, m, j);
      }
    }
    assert NthStart(AddMonths(start, m), m, |rest|) == NthStart(start, m, |ps|);
  }

  lemma {:induction false} PeriodsFromShape(c: Contract, start: Date, k: nat)
    requires c.billing != PerVisit && k <= CAP
    ensures Shaped(c, PeriodsFrom(c, start, k), start, k)
    decreases CAP - k
  {
    hide AddMonths, NotAfter, PeriodAt, MonthsEach;
    if NotAfter(start, c.end) && k < CAP {
      hide Shaped;
      PeriodsFromShape(c, AddMonths(start, MonthsEach(c)), k + 1);
      OneMoreShaped(c, PeriodsFrom(c, AddMonths(start, MonthsEach(c)), k + 1), start, k);
    } else {
      assert PeriodsFrom(c, start, k) == [] && NthStart(start, MonthsEach(c), 0) == start;
    }
  }

  /** Every period of a contract, by its number; the list stops at the term's end or at the cap. */
  lemma PeriodsShape(c: Contract)
    requires c.billing != PerVisit
    ensures |Periods(c)| <= CAP
    ensures forall k | 0 <= k < |Periods(c)| ::
      Periods(c)[k] == PeriodAt(c, Start(c, k), k) && NotAfter(Start(c, k), c.end)
    ensures |Periods(c)| < CAP ==> !NotAfter(Start(c, |Periods(c)|), c.end)
  {
    hide AddMonths, DayBefore;
    PeriodsFromShape(c, c.start, 0);
  }

  /** So many instalments of this worth are the yearly value, to within half a paisa each. */
  predicate MakesAYear(worth: int, aYear: int, annualPaise: int) {
    -aYear < 2 * (aYear * worth - annualPaise) <= aYear
  }

  /** The instalments of a contract in so many each year: their starts, their worth, and where the list stops. */
  ghost predicate InInstalments(c: Contract, months: nat, aYear: int) {
    var ps := Periods(c);
    && (forall k | 0 <= k < |ps| ::
          ps[k].number == k + 1 && ps[k].start == NthStart(c.start, months, k)
          && MakesAYear(ps[k].valuePaise, aYear, c.annualPaise))
    && (|ps| == 240 || (|ps| < 240 && Before(c.end, NthStart(c.start, months, |ps|))))
  }

  lemma BilledInInstalments(c: Contract)
    requires Stored(c) && c.billing != PerVisit
    ensures InInstalments(c, MonthsEach(c), PerYear(c.billing).value)
  {
    hide NthStart, Periods, ToDay, DayBefore, MakesAYear, MonthsEach, PeriodValue, PerYear;
    var n := |Periods(c)|;
    PeriodsShape(c);
    ValuesMakeAYear(c);
    StartsInOrder(c, n, n);
    NotAfterOrBefore(Start(c, n), c.end);
    hide Before, NotAfter, Valid;
  }

  lemma ValuesMakeAYear(c: Contract)
    requires c.billing != PerVisit
    ensures MakesAYear(PeriodValue(c), PerYear(c.billing).value, c.annualPaise)
  {
    hide RoundDiv;
  }

  lemma NotAfterOrBefore(a: Date, b: Date)
    requires Valid(a) && Valid(b)
    ensures NotAfter(a, b) || Before(b, a)
  {
    hide Valid;
  }

  /** Each way of billing: how long its periods are, what each is worth, and that the list reaches the end or 240. */
  lemma InstalmentsOfEachBilling(c: Contract)
    requires Stored(c)
    ensures match c.billing
            case Monthly => InInstalments(c, 1, 12)
            case Quarterly => InInstalments(c, 3, 4)
            case HalfYearly => InInstalments(c, 6, 2)
            case UpfrontAnnual => InInstalments(c, 12, 1)
            case PerVisit => Periods(c) == []
  {
    if c.billing != PerVisit {
      hide InInstalments, Periods;
      BilledInInstalments(c);
    }
  }

  lemma StartsInOrder(c: Contract, j: nat, k: nat)
    requires Stored(c) && c.billing != PerVisit && j <= k
    ensures Valid(Start(c, k))
    ensures StartDay(c, j) + 28 * (k - j) <= StartDay(c, k)
  {
    NthStartsAscend(c.start, MonthsEach(c), j, k);
  }

  /** Period `k` as days: from its start to the day before the next start, or to the contract's end. */
  lemma PeriodDays(c: Contract, k: nat)
    requires Stored(c) && c.billing != PerVisit && k < |Periods(c)|
    ensures var p := Periods(c)[k];
            && Valid(p.start) && Valid(p.end)
            && ToDay(p.start) == StartDay(c, k) <= ToDay(p.end)
            && ToDay(p.end) == (if ToDay(c.end) < StartDay(c, k + 1) - 1 then ToDay(c.end) else StartDay(c, k + 1) - 1)
  {
    hide AddMonths, DayBefore;
    PeriodsShape(c);
    StartsInOrder(c, k, k + 1);
    StartsInOrder(c, k, k);
    var end := DayBefore(Start(c, k + 1));
    OrderIsDayOrder(c.end, end);
    OrderIsDayOrder(Start(c, k), c.end);
  }

  /** `x` is one of the period's days. */
  predicate In(p: Period, x: Date) {
    NotAfter(p.start, x) && NotAfter(x, p.end)
  }

  predicate InTerm(c: Contract, x: Date) {
    Valid(x) && NotAfter(c.start, x) && NotAfter(x, c.end)
  }

  lemma InDays(c: Contract, k: nat, x: Date)
    requires Stored(c) && c.billing != PerVisit && k < |Periods(c)| && Valid(x)
    ensures In(Periods(c)[k], x) <==> StartDay(c, k) <= ToDay(x) < StartDay(c, k + 1) && ToDay(x) <= ToDay(c.end)
  {
    PeriodDays(c, k);
    OrderIsDayOrder(Periods(c)[k].start, x);
    OrderIsDayOrder(x, Periods(c)[k].end);
  }

  /** Periods run from the contract's start, one after another without gap, and stay inside the term. */
  lemma PeriodsAdjacent(c: Contract)
    requires Stored(c) && c.billing != PerVisit
    ensures Periods(c) != [] ==> Periods(c)[0].start == c.start
    ensures forall k | 0 <= k < |Periods(c)| :: NotAfter(Periods(c)[k].start, Periods(c)[k].end)
    ensures forall k | 0 <= k < |Periods(c)| :: NotAfter(Periods(c)[k].end, c.end)
    ensures forall k | 0 < k < |Periods(c)| :: Periods(c)[k - 1].end == DayBefore(Periods(c)[k].start)
  {
    hide Before, NotAfter, Valid, ToDay, DayBefore, NthStart;
    PeriodsShape(c);
    forall k | 0 <= k < |Periods(c)|
      ensures NotAfter(Periods(c)[k].start, Periods(c)[k].end) && NotAfter(Periods(c)[k].end, c.end)
    {
      PeriodDays(c, k);
      OrderIsDayOrder(Periods(c)[k].start, Periods(c)[k].end);
      OrderIsDayOrder(Periods(c)[k].end, c.end);
    }
    forall k | 0 < k < |Periods(c)|
      ensures Periods(c)[k - 1].end == DayBefore(Periods(c)[k].start)
    {
      PeriodDays(c, k - 1);
      PeriodDays(c, k);
      OrderIsDayOrder(Periods(c)[k].start, c.end);
      SameDay(Periods(c)[k - 1].end, DayBefore(Periods(c)[k].start));
    }
  }

  /** No day belongs to two periods, and no period has a day outside the term. */
  lemma AtMostOnePeriod(c: Contract, x: Date, j: nat, k: nat)
    requires Stored(c) && c.billing != PerVisit && Valid(x) && j <= k < |Periods(c)|
    requires In(Periods(c)[j], x) && In(Periods(c)[k], x)
    ensures j == k && InTerm(c, x)
  {
    hide Before, NotAfter, Valid, ToDay, In, Periods;
    InDays(c, j, x);
    InDays(c, k, x);
    StartsInOrder(c, 0, j);
    OrderIsDayOrder(c.start, x);
    OrderIsDayOrder(x, c.end);
    if j < k {
      StartsInOrder(c, j + 1, k);
    }
  }

  lemma {:induction false} Locate(c: Contract, x: Date, n: nat) returns (k: nat)
    requires Stored(c) && c.billing != PerVisit && InTerm(c, x)
    requires n <= |Periods(c)| && ToDay(x) < StartDay(c, n)
    ensures k < n && In(Periods(c)[k], x)
    decreases n
  {
    OrderIsDayOrder(c.start, x);
    OrderIsDayOrder(x, c.end);
    if ToDay(x) < StartDay(c, n - 1) {
      k := Locate(c, x, n - 1);
    } else {
      k := n - 1;
      InDays(c, k, x);
    }
  }

  /** The term ends before the cap of 240 periods is reached. */
  predicate BelowCap(c: Contract)
    requires c.billing != PerVisit
  {
    Before(c.end, Start(c, CAP))
  }

  lemma EndsBeforeLastStart(c: Contract)
    requires Stored(c) && c.billing != PerVisit && BelowCap(c)
    ensures ToDay(c.end) < StartDay(c, |Periods(c)|)
  {
    PeriodsShape(c);
    var n := |Periods(c)|;
    StartsInOrder(c, n, n);
    OrderIsDayOrder(c.end, Start(c, n));
  }

  /** Below the cap each day of the term belongs to exactly one period; beyond it the last day has none. */
  lemma PartitionExactlyBelowCap(c: Contract)
    requires Stored(c) && c.billing != PerVisit && NotAfter(c.start, c.end)
    ensures BelowCap(c) <==> forall x | InTerm(c, x) :: exists k :: 0 <= k < |Periods(c)| && In(Periods(c)[k], x)
    ensures BelowCap(c) ==> Periods(c) != [] && Periods(c)[|Periods(c)| - 1].end == c.end
  {
    hide Before, NotAfter, Valid, ToDay, NthStart, In, Periods;
    PeriodsShape(c);
    OrderIsDayOrder(c.end, c.end);
    var n := |Periods(c)|;
    if BelowCap(c) {
      EndsBeforeLastStart(c);
      forall x | InTerm(c, x)
        ensures exists k :: 0 <= k < |Periods(c)| && In(Periods(c)[k], x)
      {
        OrderIsDayOrder(x, c.end);
        var k := Locate(c, x, n);
      }
      var last := Locate(c, c.end, n);
      AtTheEnd(c, last);
    } else {
      assert InTerm(c, c.end);
      StartsInOrder(c, CAP, CAP);
      OrderIsDayOrder(c.end, Start(c, CAP));
      forall k | 0 <= k < n
        ensures !In(Periods(c)[k], c.end)
      {
        InDays(c, k, c.end);
        StartsInOrder(c, k + 1, CAP);
      }
    }
  }

  lemma AtTheEnd(c: Contract, k: nat)
    requires Stored(c) && c.billing != PerVisit && k < |Periods(c)| && In(Periods(c)[k], c.end)
    ensures k == |Periods(c)| - 1 && Periods(c)[k].end == c.end
  {
    PeriodsAdjacent(c);
    InDays(c, k, c.end);
    PeriodDays(c, k);
    OrderIsDayOrder(Periods(c)[k].end, c.end);
    OrderIsDayOrder(c.end, Periods(c)[k].end);
    SameDay(Periods(c)[k].end, c.end);
    if k + 1 < |Periods(c)| {
      PeriodDays(c, k + 1);
      OrderIsDayOrder(Periods(c)[k + 1].end, c.end);
    }
  }

  /** Day `d` of month `i`. */
  function DateOf(i: int, d: int): Date {
    Date(i / 12, i % 12 + 1, d)
  }

  /** What the documentation promises of a month step: the day, clamped to the length of the month. */
  function Clamped(date: Date, months: int): Date {
    var i := MonthIndex(date) + months;
    DateOf(i, if MonthLength(i) < date.d then MonthLength(i) else date.d)
  }

  /** The day is not clamped but carried over: a month step clamps exactly when the month has the day. */
  lemma StepKeepsDay(date: Date, months: int)
    requires Valid(date)
    ensures var i := MonthIndex(date) + months;
            && (date.d <= MonthLength(i) <==> AddMonths(date, months) == Clamped(date, months))
            && (date.d <= MonthLength(i) ==> AddMonths(date, months) == DateOf(i, date.d))
            && (date.d > MonthLength(i) ==> AddMonths(date, months) == DateOf(i + 1, date.d - MonthLength(i)))
  {
    hide AddMonths;
    var i := MonthIndex(date) + months;
    MonthFollows(i);
    if date.d <= MonthLength(i) {
      SameDay(AddMonths(date, months), DateOf(i, date.d));
    } else {
      SameDay(AddMonths(date, months), DateOf(i + 1, date.d - MonthLength(i)));
    }
  }

  /** 31 January plus one month is 3 March, not 28 February. */
  lemma MonthStepOverflows()
    ensures AddMonths(Date(2026, 1, 31), 1) == Date(2026, 3, 3)
    ensures Clamped(Date(2026, 1, 31), 1) == Date(2026, 2, 28)
  {
    StepKeepsDay(Date(2026, 1, 31), 1);
  }

  /** The month stepped into for the k-th time, wherever in it or after it the step lands. */
  function MonthStepped(start: Date, months: nat, k: nat): int {
    MonthIndex(start) + k * months
  }

  lemma NextMonthStepped(start: Date, months: nat, k: nat)
    requires k > 0
    ensures MonthStepped(start, months, k) == MonthStepped(start, months, k - 1) + months
    ensures MonthStepped(start, months, 0) == MonthIndex(start)
  {
  }

  /** The first k months stepped into have the contract's day. */
  ghost predicate MonthsHaveDay(start: Date, months: nat, k: nat) {
    forall j: nat | j <= k :: start.d <= MonthLength(MonthStepped(start, months, j))
  }

  /** The first k starts fall on the contract's own day of the month, `months` apart. */
  ghost predicate StartsOnDay(start: Date, months: nat, k: nat) {
    forall j: nat | j <= k :: NthStart(start, months, j) == DateOf(MonthStepped(start, months, j), start.d)
  }

  lemma StepFromDay(i: int, d: int, months: nat)
    requires 1 <= d <= MonthLength(i) && d <= MonthLength(i + months)
    ensures AddMonths(DateOf(i, d), months) == DateOf(i + months, d)
  {
    StepKeepsDay(DateOf(i, d), months);
    hide AddMonths, MonthLength;
  }

  lemma StepPastDay(i: int, d: int, months: nat)
    requires 1 <= d <= MonthLength(i) && d > MonthLength(i + months)
    ensures AddMonths(DateOf(i, d), months) == DateOf(i + months + 1, d - MonthLength(i + months))
  {
    StepKeepsDay(DateOf(i, d), months);
    hide AddMonths, MonthLength;
  }

  lemma FirstStart(start: Date, months: nat)
    requires Valid(start)
    ensures NthStart(start, months, 0) == start == DateOf(MonthStepped(start, months, 0), start.d) && start.d >= 1
  {
  }

  /** One step from day `d` of month `i`, when the month stepped into has the day. */
  lemma OneStepOn(start: Date, months: nat, k: nat, i: int, d: int)
    requires k > 0 && NthStart(start, months, k - 1) == DateOf(i, d) && 1 <= d <= MonthLength(i)
    requires d <= MonthLength(i + months)
    ensures NthStart(start, months, k) == DateOf(i + months, d)
  {
    StepFromDay(i, d, months);
    hide AddMonths, MonthLength, DateOf;
  }

  /** While the months stepped into have the contract's day, so do the starts. */
  lemma {:induction false} StartsOnDayWhile(start: Date, months: nat, k: nat)
    requires Valid(start) && MonthsHaveDay(start, months, k)
    ensures NthStart(start, months, k) == DateOf(MonthStepped(start, months, k), start.d)
  {
    hide MonthLength, MonthStepped, MonthsHaveDay, NthStart, DateOf, Valid;
    FirstStart(start, months);
    if k > 0 {
      HaveDayBefore(start, months, k);
      StartsOnDayWhile(start, months, k - 1);
      NextMonthStepped(start, months, k);
      OneStepOn(start, months, k, MonthStepped(start, months, k - 1), start.d);
    }
  }

  lemma HaveDayBefore(start: Date, months: nat, k: nat)
    requires MonthsHaveDay(start, months, k)
    ensures start.d <= MonthLength(MonthStepped(start, months, k))
    ensures k > 0 ==> MonthsHaveDay(start, months, k - 1) && start.d <= MonthLength(MonthStepped(start, months, k - 1))
  {
    hide MonthLength, MonthStepped;
  }

  lemma ValidDateOf(i: int, d: int)
    ensures Valid(DateOf(i, d)) <==> 1 <= d <= MonthLength(i)
  {
    hide MonthLength;
  }

  /** Periods start on the contract's day, `months` apart, exactly while every month has that day. */
  lemma StartsOnDayExactly(start: Date, months: nat, k: nat)
    requires Valid(start)
    ensures StartsOnDay(start, months, k) <==> MonthsHaveDay(start, months, k)
  {
    hide AddMonths, DateOf, MonthLength, MonthStepped, Valid, NthStart;
    if MonthsHaveDay(start, months, k) {
      forall j: nat | j <= k
        ensures NthStart(start, months, j) == DateOf(MonthStepped(start, months, j), start.d)
      {
        StartsOnDayWhile(start, months, j);
      }
    }
    if StartsOnDay(start, months, k) {
      forall j: nat | j <= k
        ensures start.d <= MonthLength(MonthStepped(start, months, j))
      {
        ValidStart(start, months, j);
        ValidDateOf(MonthStepped(start, months, j), start.d);
      }
    }
  }

  lemma ValidStart(start: Date, months: nat, j: nat)
    requires Valid(start)
    ensures Valid(NthStart(start, months, j))
  {
    hide AddMonths;
  }

  /** The day of the `k`-th start if no month on the way were too short. */
  function NominalDay(start: Date, months: nat, k: nat): int {
    MonthStart(MonthStepped(start, months, k)) + start.d - 1
  }

  /** The first of the first k months stepped into that is too short for the contract's day. */
  lemma {:induction false} FirstShortMonth(start: Date, months: nat, k: nat) returns (j: nat)
    requires start.d <= MonthLength(MonthIndex(start)) && !MonthsHaveDay(start, months, k)
    ensures 0 < j <= k && MonthsHaveDay(start, months, j - 1) && start.d > MonthLength(MonthStepped(start, months, j))
  {
    hide MonthLength;
    if k > 0 && !MonthsHaveDay(start, months, k - 1) {
      j := FirstShortMonth(start, months, k - 1);
    } else {
      j := k;
      NextMonthStepped(start, months, 1);
      hide MonthStepped;
    }
  }

  /** The step into a short month lands on one of the first three days of the next. */
  lemma StepIntoShortMonth(start: Date, months: nat, j: nat)
    requires Valid(start) && j > 0 && MonthsHaveDay(start, months, j - 1)
    requires start.d > MonthLength(MonthStepped(start, months, j))
    ensures var i := MonthStepped(start, months, j);
            NthStart(start, months, j) == DateOf(i + 1, start.d - MonthLength(i))
  {
    hide AddMonths, MonthLength, MonthStepped, DateOf;
    StartsOnDayWhile(start, months, j - 1);
    NextMonthStepped(start, months, j);
    StepPastDay(MonthStepped(start, months, j - 1), start.d, months);
  }

  /** And stays on that day in every later step, one month further on than planned. */
  lemma {:induction false} AfterShortMonth(start: Date, months: nat, j: nat, k: nat)
    requires Valid(start) && 0 < j <= k && MonthsHaveDay(start, months, j - 1)
    requires start.d > MonthLength(MonthStepped(start, months, j))
    ensures NthStart(start, months, k)
         == DateOf(MonthStepped(start, months, k) + 1, start.d - MonthLength(MonthStepped(start, months, j)))
    decreases k
  {
    hide MonthLength, MonthStepped, MonthsHaveDay, NthStart, DateOf, Valid;
    if j == k {
      StepIntoShortMonth(start, months, j);
    } else {
      DaysBeyond(start, MonthStepped(start, months, j));
      AfterShortMonth(start, months, j, k - 1);
      NextMonthStepped(start, months, k);
      var day := start.d - MonthLength(MonthStepped(start, months, j));
      OneStepOn(start, months, k, MonthStepped(start, months, k - 1) + 1, day);
    }
  }

  /** A day that a month does not have is at most three days beyond it. */
  lemma DaysBeyond(start: Date, i: int)
    requires Valid(start) && start.d > MonthLength(i)
    ensures 1 <= start.d - MonthLength(i) <= 3
  {
    assert start.d <= MonthLength(MonthIndex(start)) <= 31;
    hide MonthLength;
  }

  lemma DayOfDateOf(i: int, d: int)
    ensures ToDay(DateOf(i, d)) == MonthStart(i) + d - 1
  {
    hide MonthStart;
  }

  /** After a short month on the way: the first day of the month after the one meant, or one of the next two. */
  lemma StartAfterShortMonth(start: Date, months: nat, k: nat)
    requires Valid(start) && !MonthsHaveDay(start, months, k)
    ensures var i := MonthStepped(start, months, k);
            && MonthStart(i + 1) <= ToDay(NthStart(start, months, k)) <= MonthStart(i + 1) + 2 && start.d >= 29
            && (MonthLength(i) >= start.d ==> ToDay(NthStart(start, months, k)) > NominalDay(start, months, k))
  {
    assert start.d <= MonthLength(MonthIndex(start)) <= 31;
    hide AddMonths, MonthLength, MonthStepped, Valid, DateOf, NthStart, MonthsHaveDay, ToDay, MonthStart;
    var j := FirstShortMonth(start, months, k);
    AfterShortMonth(start, months, j, k);
    var i := MonthStepped(start, months, k);
    MonthFollows(i);
    DayOfDateOf(i + 1, start.d - MonthLength(MonthStepped(start, months, j)));
  }

  /** Without one: the day meant. */
  lemma StartWithoutShortMonth(start: Date, months: nat, k: nat)
    requires Valid(start) && MonthsHaveDay(start, months, k)
    ensures ToDay(NthStart(start, months, k)) == NominalDay(start, months, k)
    ensures start.d <= MonthLength(MonthStepped(start, months, k))
  {
    StartsOnDayWhile(start, months, k);
    hide AddMonths, MonthLength, MonthStepped, Valid, DateOf, NthStart, ToDay, MonthStart;
    DayOfDateOf(MonthStepped(start, months, k), start.d);
  }

  /** Start days 1 to 28 exist in every month, so period k starts exactly k steps of months in. */
  lemma StartsExactly(c: Contract, k: nat)
    requires Stored(c) && c.billing != PerVisit && c.start.d <= 28
    ensures Start(c, k) == DateOf(MonthIndex(c.start) + k * MonthsEach(c), c.start.d)
    ensures Start(c, k) == AddMonths(c.start, k * MonthsEach(c))
  {
    hide AddMonths, MonthsEach, DateOf, MonthLength, NthStart;
    assert MonthsHaveDay(c.start, MonthsEach(c), k);
    StartsOnDayWhile(c.start, MonthsEach(c), k);
    StepKeepsDay(c.start, k * MonthsEach(c));
  }
}
