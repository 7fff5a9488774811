/**
  When a contract's visits fall: `src/lib/visits.ts`.

  Instants are milliseconds on the local clock of a fixed-offset zone, so that the midnight a visit
  is placed on is its day number times the length of a day.
 */
module VisitSchedule {
  import opened Calendar
  import opened IsoDates
  import opened BillingPeriods

  datatype Recurrence = Weekly | Fortnightly | EveryMonth | AlternateMonthly | EveryQuarter | EveryHalfYear | Annual

  /** How far apart two visits are: a number of months, or a number of days. */
  datatype Step = Months(months: nat) | Days(days: nat)

  function StepOf(r: Recurrence): (s: Step)
    ensures s.Months? ==> s.months > 0
    ensures s.Days? ==> s.days > 0
  {
    match r
    case EveryMonth => Months(1)
    case AlternateMonthly => Months(2)
    case EveryQuarter => Months(3)
    case EveryHalfYear => Months(6)
    case Annual => Months(12)
    case Weekly => Days(7)
    case Fortnightly => Days(14)
  }

  function VisitsPerYear(r: Recurrence): nat {
    match r
    case Weekly => 52
    case Fortnightly => 26
    case EveryMonth => 12
    case AlternateMonthly => 6
    case EveryQuarter => 4
    case EveryHalfYear => 2
    case Annual => 1
  }

  function Midnight(date: Date): int {
    ToDay(date) * MS_PER_DAY
  }

  /** The anchor day in the month `months` after the one of `from`, or that month's last day. */
  function Anchored(from: Date, months: nat, anchorDay: nat): Date {
    var i := MonthIndex(from) + months;
    DateOf(i, if MonthLength(i) < anchorDay then MonthLength(i) else anchorDay)
  }

  /** A month-end anchor stays in its month: the date exists, and it is the anchor day whenever the month has one. */
  lemma AnchoredStaysInMonth(from: Date, months: nat, anchorDay: nat)
    requires anchorDay > 0
    ensures var a := Anchored(from, months, anchorDay);
            && Valid(a) && MonthIndex(a) == MonthIndex(from) + months
            && (a.d == anchorDay <==> anchorDay <= MonthLength(MonthIndex(from) + months))
            && a.d <= anchorDay
  {
  }

  /** `addMonths` of the visit schedule: the date is set to the first, moved by months, then set to the anchor. */
  method AddMonthsAnchored(from: Date, months: nat, anchorDay: nat) returns (target: Date)
    requires Valid(from) && anchorDay > 0
    ensures target == Anchored(from, months, anchorDay)
  {
    hide FromDay, MakeDay, MonthLength, DateOf;
    var i := MonthIndex(from) + months;
    DayOfMonth(from.y, from.m - 1, 1);
    target := FromDay(MakeDay(from.y, from.m - 1, 1));
    DayOfMonth(target.y, target.m - 1 + months, 1);
    target := FromDay(MakeDay(target.y, target.m - 1 + months, 1));
    DayZero(target.y, target.m);
    var last := FromDay(MakeDay(target.y, target.m, 0));
    var day := if last.d < anchorDay then last.d else anchorDay;
    DayOfMonth(target.y, target.m - 1, day);
    target := FromDay(MakeDay(target.y, target.m - 1, day));
  }

  /** A day the month has is that day of the month. */
  lemma DayOfMonth(y: int, month: int, day: int)
    requires 1 <= day <= MonthLength(12 * y + month)
    ensures var a := FromDay(MakeDay(y, month, day));
            a == DateOf(12 * y + month, day) && 12 * a.y + a.m - 1 == 12 * y + month
  {
    hide FromDay, MonthStart, MonthLength;
    SameDay(FromDay(MakeDay(y, month, day)), DateOf(12 * y + month, day));
  }

  /** Day 0 of a month is the last day of the month before. */
  lemma DayZero(y: int, month: int)
    ensures FromDay(MakeDay(y, month, 0)).d == MonthLength(12 * y + month - 1)
  {
    hide FromDay, MonthStart, MonthLength;
    var i := 12 * y + month - 1;
    MonthFollows(i);
    SameDay(FromDay(MakeDay(y, month, 0)), DateOf(i, MonthLength(i)));
  }

  /** The key that identifies a visit: `schedule:n`. */
  datatype Key = Key(schedule: nat, n: nat)

  datatype PlannedVisit = PlannedVisit(key: Key, number: nat, of: nat, on: Date)

  datatype Schedule = Schedule(id: nat, recurrence: Recurrence, anchorDay: nat, visitsCommitted: nat)

  predicate Sound(s: Schedule) {
    1 <= s.anchorDay <= 31
  }

  /** The date of visit `n`, counting from 1. */
  function VisitOn(s: Schedule, start: Date, n: nat): Date
    requires n > 0
  {
    match StepOf(s.recurrence)
    case Months(months) => Anchored(start, months * (n - 1), s.anchorDay)
    case Days(days) => AddDays(start, days * (n - 1))
  }

  function VisitAt(s: Schedule, start: Date, n: nat): PlannedVisit
    requires n > 0
  {
    PlannedVisit(Key(s.id, n), n, s.visitsCommitted, VisitOn(s, start, n))
  }

  predicate Within(on: Date, from: int, until: int) {
    from <= Midnight(on) <= until
  }

  /** The visits numbered from `n` on whose midnight lies between `from` and `until`. */
  function PlannedFrom(s: Schedule, start: Date, from: int, until: int, n: nat): seq<PlannedVisit>
    requires n > 0
    decreases s.visitsCommitted + 1 - n
  {
    if n > s.visitsCommitted then []
    else (if Within(VisitOn(s, start, n), from, until) then [VisitAt(s, start, n)] else [])
         + PlannedFrom(s, start, from, until, n + 1)
  }

  function Planned(s: Schedule, start: Date, from: int, until: int): seq<PlannedVisit> {
    PlannedFrom(s, start, from, until, 1)
  }

  /** `visitSchedule`, before its final sort. */
  method PlanVisits(s: Schedule, start: Date, from: int, horizonDays: nat) returns (planned: seq<PlannedVisit>)
    requires Valid(start) && Sound(s)
    ensures planned == Planned(s, start, from, from + horizonDays * MS_PER_DAY)
  {
    hide Within, AddDays, Anchored;
    var until := from + horizonDays * MS_PER_DAY;
    ghost var all := Planned(s, start, from, until);
    planned := [];
    var n := 1;
    while n <= s.visitsCommitted
      invariant 1 <= n
      invariant n <= s.visitsCommitted + 1
      invariant planned + PlannedFrom(s, start, from, until, n) == all
      decreases s.visitsCommitted + 1 - n
    {
      var step := StepOf(s.recurrence);
      var on;
      if step.Months? {
        on := AddMonthsAnchored(start, step.months * (n - 1), s.anchorDay);
      } else {
        on := AddDays(start, step.days * (n - 1));
      }
      assert on == VisitOn(s, start, n);
      ghost var rest := PlannedFrom(s, start, from, until, n + 1);
      if Within(on, from, until) {
        var visit := PlannedVisit(Key(s.id, n), n, s.visitsCommitted, on);
        assert planned + ([visit] + rest) == (planned + [visit]) + rest;
        planned := planned + [visit];
      } else {
        assert [] + rest == rest;
      }
      n := n + 1;
    }
    assert PlannedFrom(s, start, from, until, n) == [];
    assert planned + [] == planned;
  }

  /** A visit is planned exactly when it is one of those committed and its midnight lies in the window. */
  lemma {:induction false} PlannedFromExactly(s: Schedule, start: Date, from: int, until: int, n: nat, v: PlannedVisit)
    requires n > 0
    ensures v in PlannedFrom(s, start, from, until, n)
            <==> n <= v.number <= s.visitsCommitted && v == VisitAt(s, start, v.number) && Within(v.on, from, until)
    decreases s.visitsCommitted + 1 - n
  {
    if n <= s.visitsCommitted {
      hide Within, VisitOn;
      PlannedFromExactly(s, start, from, until, n + 1, v);
    }
  }

  /** The anchor day, or the last day where there is none, of the month so many months after the start's. */
  predicate OnAnchor(on: Date, start: Date, months: nat, anchorDay: nat) {
    && 12 * on.y + on.m == 12 * start.y + start.m + months && Valid(on)
    && on.d <= anchorDay && (on.d == anchorDay || !Valid(Date(on.y, on.m, on.d + 1)))
  }

  predicate DaysLater(on: Date, start: Date, days: nat) {
    Valid(on) && ToDay(on) == ToDay(start) + days
  }

  lemma AnchoredIsOnAnchor(start: Date, months: nat, anchorDay: nat)
    requires anchorDay > 0
    ensures OnAnchor(Anchored(start, months, anchorDay), start, months, anchorDay)
  {
    AnchoredStaysInMonth(start, months, anchorDay);
  }

  /** Where the n-th visit of each recurrence falls. */
  lemma VisitDates(s: Schedule, start: Date, n: nat)
    requires n > 0 && Sound(s)
    ensures match s.recurrence
            case Weekly => DaysLater(VisitOn(s, start, n), start, 7 * (n - 1))
            case Fortnightly => DaysLater(VisitOn(s, start, n), start, 14 * (n - 1))
            case EveryMonth => OnAnchor(VisitOn(s, start, n), start, n - 1, s.anchorDay)
            case AlternateMonthly => OnAnchor(VisitOn(s, start, n), start, 2 * (n - 1), s.anchorDay)
            case EveryQuarter => OnAnchor(VisitOn(s, start, n), start, 3 * (n - 1), s.anchorDay)
            case EveryHalfYear => OnAnchor(VisitOn(s, start, n), start, 6 * (n - 1), s.anchorDay)
            case Annual => OnAnchor(VisitOn(s, start, n), start, 12 * (n - 1), s.anchorDay)
  {
    hide AddDays, Anchored, OnAnchor, ToDay, Valid;
    match StepOf(s.recurrence)
    case Months(months) => AnchoredIsOnAnchor(start, months * (n - 1), s.anchorDay);
    case Days(_) =>
  }

  /** The visits of a year fill it: the one after them falls twelve months, or fifty-two weeks, after the first. */
  lemma AYearOfVisits(s: Schedule, start: Date)
    requires Sound(s)
    ensures var next := VisitOn(s, start, VisitsPerYear(s.recurrence) + 1);
            if s.recurrence.Weekly? || s.recurrence.Fortnightly? then DaysLater(next, start, 364)
            else OnAnchor(next, start, 12, s.anchorDay)
  {
    hide VisitOn, OnAnchor, DaysLater;
    VisitDates(s, start, VisitsPerYear(s.recurrence) + 1);
  }

  /** What is planned, in words: the visits committed to whose midnight lies in the window, each once by its number. */
  lemma PlannedInWords(s: Schedule, start: Date, from: int, until: int, v: PlannedVisit)
    ensures v in Planned(s, start, from, until)
            <==> exists n :: 1 <= n <= s.visitsCommitted
                             && v == PlannedVisit(Key(s.id, n), n, s.visitsCommitted, VisitOn(s, start, n))
                             && from <= ToDay(v.on) * 24 * 60 * 60 * 1000 <= until
  {
    PlannedFromExactly(s, start, from, until, 1, v);
    hide PlannedFrom, VisitOn, ToDay;
  }

  lemma {:induction false} MonthsAscend(from: Date, a: nat, b: nat, anchorDay: nat)
    requires a < b && anchorDay > 0
    ensures ToDay(Anchored(from, a, anchorDay)) < ToDay(Anchored(from, b, anchorDay))
  {
    hide MonthStart, MonthLength, Anchored;
    AnchoredStaysInMonth(from, a, anchorDay);
    AnchoredStaysInMonth(from, b, anchorDay);
    var x, y := Anchored(from, a, anchorDay), Anchored(from, b, anchorDay);
    EarlierMonth(MonthIndex(x), x.d, MonthIndex(y), y.d);
  }

  /** A later visit falls on a later day, in every recurrence and for every anchor. */
  lemma VisitsAscend(s: Schedule, start: Date, m: nat, n: nat)
    requires 0 < m < n && Sound(s)
    ensures ToDay(VisitOn(s, start, m)) < ToDay(VisitOn(s, start, n))
  {
    hide Anchored, ToDay, AddDays;
    match StepOf(s.recurrence)
    case Months(months) =>
      assert months * (n - 1) == months * (m - 1) + months * (n - m) && months * (n - m) > 0;
      MonthsAscend(start, months * (m - 1), months * (n - 1), s.anchorDay);
    case Days(days) =>
      assert days * (n - 1) == days * (m - 1) + days * (n - m) && days * (n - m) > 0;
  }

  ghost predicate Ascending(vs: seq<PlannedVisit>) {
    forall i, j | 0 <= i < j < |vs| :: ToDay(vs[i].on) < ToDay(vs[j].on)
  }

  lemma {:induction false} PlannedAscends(s: Schedule, start: Date, from: int, until: int, n: nat)
    requires n > 0 && Sound(s)
    ensures Ascending(PlannedFrom(s, start, from, until, n))
    decreases s.visitsCommitted + 1 - n
  {
    if n <= s.visitsCommitted {
      hide Within, VisitOn, ToDay;
      PlannedAscends(s, start, from, until, n + 1);
      var rest := PlannedFrom(s, start, from, until, n + 1);
      forall j | 0 <= j < |rest|
        ensures ToDay(VisitOn(s, start, n)) < ToDay(rest[j].on)
      {
        PlannedFromExactly(s, start, from, until, n + 1, rest[j]);
        VisitsAscend(s, start, n, rest[j].number);
      }
    }
  }

  /** What a sort by date leaves behind. */
  ghost predicate SortedByDate(vs: seq<PlannedVisit>) {
    forall i, j | 0 <= i < j < |vs| :: ToDay(vs[i].on) <= ToDay(vs[j].on)
  }

  lemma SameHead(planned: seq<PlannedVisit>, sorted: seq<PlannedVisit>)
    requires Ascending(planned) && SortedByDate(sorted) && multiset(sorted) == multiset(planned) && planned != []
    ensures sorted != [] && sorted[0] == planned[0]
    ensures multiset(sorted[1..]) == multiset(planned[1..])
  {
    hide ToDay;
    assert planned[0] in multiset(sorted);
    assert sorted[0] in multiset(planned);
    var i :| 0 <= i < |sorted| && sorted[i] == planned[0];
    var j :| 0 <= j < |planned| && planned[j] == sorted[0];
    assert sorted[0] == planned[0];
    hide Ascending, SortedByDate;
    Behead(planned);
    Behead(sorted);
  }

  lemma Behead(vs: seq<PlannedVisit>)
    requires vs != []
    ensures multiset(vs[1..]) == multiset(vs) - multiset{vs[0]}
  {
    assert vs == [vs[0]] + vs[1..];
  }

  lemma Tails(planned: seq<PlannedVisit>, sorted: seq<PlannedVisit>)
    requires Ascending(planned) && SortedByDate(sorted) && planned != [] && sorted != []
    ensures Ascending(planned[1..]) && SortedByDate(sorted[1..])
  {
    hide ToDay;
  }

  /** The loop plans in date order already: any sorted arrangement of the plan is the plan. */
  lemma {:induction false} SortChangesNothing(planned: seq<PlannedVisit>, sorted: seq<PlannedVisit>)
    requires Ascending(planned) && SortedByDate(sorted) && multiset(sorted) == multiset(planned)
    ensures sorted == planned
  {
    hide Ascending, SortedByDate;
    if planned == [] {
      assert |multiset(sorted)| == |sorted|;
    } else {
      SameHead(planned, sorted);
      Tails(planned, sorted);
      SortChangesNothing(planned[1..], sorted[1..]);
      assert planned == [planned[0]] + planned[1..] && sorted == [sorted[0]] + sorted[1..];
    }
  }
}
