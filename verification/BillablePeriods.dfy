/** Which billing periods have been earned and not yet billed: `billablePeriods` and the `/due` list. */
module BillablePeriods {
  import opened Calendar
  import opened BillingPeriods
  import opened ContractTerms
  import opened JobStatuses
  import opened Wrappers

  datatype Visit = Visit(on: Option<Date>, status: Status)

  /** What is billed already, named by the first day of the period or by the instalment number. */
  datatype Billed = Billed(periodStarts: set<Date>, instalments: set<nat>)

  datatype Reason = VisitsComplete | PeriodClosed

  datatype PeriodState = PeriodState(period: Period, visits: nat, visitsDone: nat, reason: Reason)

  predicate IsInside(v: Visit, p: Period) {
    v.on.Some? && In(p, v.on.value)
  }

  /** The visits dated inside the period. */
  function Inside(visits: seq<Visit>, p: Period): (r: seq<Visit>)
    ensures forall v :: v in r <==> v in visits && IsInside(v, p)
  {
    if visits == [] then []
    else (if IsInside(visits[0], p) then [visits[0]] else []) + Inside(visits[1..], p)
  }

  /** Those that were not abandoned. */
  function Live(visits: seq<Visit>): (r: seq<Visit>)
    ensures forall v :: v in r <==> v in visits && v.status != Cancelled
  {
    if visits == [] then []
    else (if visits[0].status != Cancelled then [visits[0]] else []) + Live(visits[1..])
  }

  predicate IsDone(v: Visit) {
    v.status == WorkDone || v.status == SignedOff
  }

  function Done(visits: seq<Visit>): (r: seq<Visit>)
    ensures |r| <= |visits|
    ensures |r| == |visits| <==> forall v :: v in visits ==> IsDone(v)
  {
    if visits == [] then []
    else (if IsDone(visits[0]) then [visits[0]] else []) + Done(visits[1..])
  }

  predicate AllDone(p: Period, visits: seq<Visit>) {
    var live := Live(Inside(visits, p));
    |live| > 0 && |Done(live)| == |live|
  }

  predicate IsBilled(p: Period, billed: Billed) {
    p.start in billed.periodStarts || p.number in billed.instalments
  }

  predicate Offered(p: Period, visits: seq<Visit>, billed: Billed, today: Date) {
    !IsBilled(p, billed) && NotAfter(p.start, today) && (AllDone(p, visits) || Before(p.end, today))
  }

  function StateOf(p: Period, visits: seq<Visit>): PeriodState {
    var live := Live(Inside(visits, p));
    PeriodState(p, |live|, |Done(live)|, if AllDone(p, visits) then VisitsComplete else PeriodClosed)
  }

  function OfferedOf(ps: seq<Period>, visits: seq<Visit>, billed: Billed, today: Date): seq<PeriodState> {
    if ps == [] then []
    else (if Offered(ps[0], visits, billed, today) then [StateOf(ps[0], visits)] else [])
         + OfferedOf(ps[1..], visits, billed, today)
  }

  function Billable(c: Contract, visits: seq<Visit>, billed: Billed, today: Date): seq<PeriodState> {
    OfferedOf(Periods(c), visits, billed, today)
  }

  /** `billablePeriods`. */
  method BillablePeriods(c: Contract, visits: seq<Visit>, billed: Billed, today: Date)
    returns (earned: seq<PeriodState>)
    ensures earned == Billable(c, visits, billed, today)
  {
    hide Offered, StateOf, NotAfter, Before, Live, Inside, Done;
    earned := [];
    var periods := PeriodsOf(c);
    var k := 0;
    while k < |periods|
      invariant 0 <= k <= |periods|
      invariant earned + OfferedOf(periods[k..], visits, billed, today) == OfferedOf(periods, visits, billed, today)
    {
      var period := periods[k];
      ghost var rest := OfferedOf(periods[k + 1..], visits, billed, today);
      assert periods[k..][0] == period && periods[k..][1..] == periods[k + 1..];
      earned := PushIfEarned(earned, period, visits, billed, today, rest);
      k := k + 1;
    }
    assert periods[k..] == [];
  }

  /** One turn of the loop: the guards in the order the program tries them. */
  method PushIfEarned(earned: seq<PeriodState>, period: Period, visits: seq<Visit>, billed: Billed, today: Date,
                      ghost rest: seq<PeriodState>)
    returns (r: seq<PeriodState>)
    ensures r == earned + if Offered(period, visits, billed, today) then [StateOf(period, visits)] else []
    ensures r + rest
        == earned + ((if Offered(period, visits, billed, today) then [StateOf(period, visits)] else []) + rest)
  {
    r := earned;
    if period.start in billed.periodStarts {
      return;
    }
    if period.number in billed.instalments {
      return;
    }
    if !NotAfter(period.start, today) {
      return;
    }
    var live := Live(Inside(visits, period));
    var done := Done(live);
    var allDone := |live| > 0 && |done| == |live|;
    var closed := Before(period.end, today);
    if !allDone && !closed {
      return;
    }
    r := earned + [PeriodState(period, |live|, |done|, if allDone then VisitsComplete else PeriodClosed)];
  }

  /** What an offer says: the visits inside the period that were not abandoned, and why it may be billed. */
  lemma ReasonMeans(p: Period, visits: seq<Visit>)
    ensures AllDone(p, visits) <==>
      && (exists v :: v in visits && IsInside(v, p) && v.status != Cancelled)
      && (forall v :: v in visits && IsInside(v, p) && v.status != Cancelled ==> IsDone(v))
  {
    var live := Live(Inside(visits, p));
    if |live| > 0 {
      assert live[0] in live;
    }
  }

  /** The list holds exactly the periods that are started, not billed, and complete or closed. */
  lemma {:induction false} OfferedExactly(ps: seq<Period>, visits: seq<Visit>, billed: Billed, today: Date,
                                          s: PeriodState)
    ensures s in OfferedOf(ps, visits, billed, today)
            <==> exists k :: 0 <= k < |ps| && Offered(ps[k], visits, billed, today) && s == StateOf(ps[k], visits)
  {
    hide Offered, StateOf;
    if ps != [] {
      OfferedExactly(ps[1..], visits, billed, today, s);
      assert forall k :: 0 < k < |ps| ==> ps[k] == ps[1..][k - 1];
    }
  }

  /** The visit was not abandoned and is dated from the period's first day to its last. */
  predicate Counts(v: Visit, p: Period) {
    v.status != Cancelled && v.on.Some? && NotAfter(p.start, v.on.value) && NotAfter(v.on.value, p.end)
  }

  predicate CountsDone(v: Visit, p: Period) {
    Counts(v, p) && (v.status == WorkDone || v.status == SignedOff)
  }

  /** Which of the visits count, by position. */
  function Counted(visits: seq<Visit>, p: Period): set<nat> {
    set i: nat | i < |visits| && Counts(visits[i], p)
  }

  function CountedDone(visits: seq<Visit>, p: Period): set<nat> {
    set i: nat | i < |visits| && CountsDone(visits[i], p)
  }

  lemma CountedGrows(visits: seq<Visit>, v: Visit, p: Period)
    ensures |Counted(visits + [v], p)| == |Counted(visits, p)| + if Counts(v, p) then 1 else 0
    ensures |CountedDone(visits + [v], p)| == |CountedDone(visits, p)| + if CountsDone(v, p) then 1 else 0
  {
    hide Counts, CountsDone;
    var n := |visits|;
    assert Counted(visits + [v], p) == Counted(visits, p) + if Counts(v, p) then {n} else {};
    assert CountedDone(visits + [v], p) == CountedDone(visits, p) + if CountsDone(v, p) then {n} else {};
  }

  lemma {:induction false} InsideOneMore(visits: seq<Visit>, v: Visit, p: Period)
    ensures Inside(visits + [v], p) == if IsInside(v, p) then Inside(visits, p) + [v] else Inside(visits, p)
  {
    hide IsInside;
    if visits == [] {
      assert visits + [v] == [v];
    } else {
      assert (visits + [v])[1..] == visits[1..] + [v];
      InsideOneMore(visits[1..], v, p);
    }
  }

  lemma {:induction false} LiveOneMore(visits: seq<Visit>, v: Visit)
    ensures Live(visits + [v]) == if v.status != Cancelled then Live(visits) + [v] else Live(visits)
  {
    if visits == [] {
      assert visits + [v] == [v];
    } else {
      assert (visits + [v])[1..] == visits[1..] + [v];
      LiveOneMore(visits[1..], v);
    }
  }

  lemma DoneHead(visits: seq<Visit>)
    requires visits != []
    ensures Done(visits) == if IsDone(visits[0]) then [visits[0]] + Done(visits[1..]) else Done(visits[1..])
  {
  }

  lemma {:induction false} DoneOneMore(visits: seq<Visit>, v: Visit)
    ensures Done(visits + [v]) == if IsDone(v) then Done(visits) + [v] else Done(visits)
  {
    hide IsDone;
    if visits == [] {
      assert visits + [v] == [v];
    } else {
      DoneHead(visits);
      DoneHead(visits + [v]);
      hide Done;
      assert (visits + [v])[1..] == visits[1..] + [v];
      DoneOneMore(visits[1..], v);
    }
  }

  /** One more visit joins the lists exactly when it counts. */
  lemma OneMoreVisit(visits: seq<Visit>, v: Visit, p: Period)
    ensures |Live(Inside(visits + [v], p))| == |Live(Inside(visits, p))| + if Counts(v, p) then 1 else 0
    ensures |Done(Live(Inside(visits + [v], p)))|
         == |Done(Live(Inside(visits, p)))| + if CountsDone(v, p) then 1 else 0
  {
    InsideOneMore(visits, v, p);
    LiveOneMore(Inside(visits, p), v);
    DoneOneMore(Live(Inside(visits, p)), v);
    hide Inside, Live, Done;
  }

  /** The two counts of a state are how many visits count, and how many of those are done. */
  lemma {:induction false} CountsOfState(visits: seq<Visit>, p: Period)
    ensures |Live(Inside(visits, p))| == |Counted(visits, p)|
    ensures |Done(Live(Inside(visits, p)))| == |CountedDone(visits, p)|
  {
    if visits == [] {
      assert Counted(visits, p) == {} && CountedDone(visits, p) == {};
    } else {
      hide Inside, Live, Done, Counted, CountedDone, Counts, CountsDone;
      var before, v := visits[..|visits| - 1], visits[|visits| - 1];
      assert visits == before + [v];
      CountsOfState(before, p);
      CountedGrows(before, v, p);
      OneMoreVisit(before, v, p);
    }
  }

  /** All the visits that count for the period are done, and there is one. */
  ghost predicate WorkIsDone(visits: seq<Visit>, p: Period) {
    && (exists v :: v in visits && Counts(v, p))
    && (forall v :: v in visits && Counts(v, p) ==> v.status == WorkDone || v.status == SignedOff)
  }

  /**
    What is offered, in words. A period is on the list if and only if neither its first day nor its number is
    billed, it has begun, and its last day is past or all the visits that count for it are done; and the offer
    says how many count, how many of those are done, and which of the two reasons it has.
   */
  lemma BillableInWords(c: Contract, visits: seq<Visit>, billed: Billed, today: Date, s: PeriodState)
    ensures s in Billable(c, visits, billed, today) <==>
      && s.period in Periods(c)
      && s.period.start !in billed.periodStarts && s.period.number !in billed.instalments
      && NotAfter(s.period.start, today) && (Before(s.period.end, today) || WorkIsDone(visits, s.period))
      && s.visits == |Counted(visits, s.period)| && s.visitsDone == |CountedDone(visits, s.period)|
      && s.reason == if WorkIsDone(visits, s.period) then VisitsComplete else PeriodClosed
  {
    hide Periods, AllDone, WorkIsDone, NotAfter, Before, Counted, CountedDone, Live, Inside, Done;
    OfferedExactly(Periods(c), visits, billed, today, s);
    CountsOfState(visits, s.period);
    DoneInWords(s.period, visits);
  }

  lemma DoneInWords(p: Period, visits: seq<Visit>)
    ensures AllDone(p, visits) <==> WorkIsDone(visits, p)
  {
    ReasonMeans(p, visits);
    hide AllDone, NotAfter;
  }

  /** For fixed visits and marks, an offer once made stays, word for word, on every later day. */
  lemma OffersOnlyGrow(c: Contract, visits: seq<Visit>, billed: Billed, today: Date, later: Date, s: PeriodState)
    requires NotAfter(today, later) && s in Billable(c, visits, billed, today)
    ensures s in Billable(c, visits, billed, later)
  {
    hide StateOf, Periods, AllDone, IsBilled;
    OfferedExactly(Periods(c), visits, billed, today, s);
    OfferedExactly(Periods(c), visits, billed, later, s);
  }

  function PeriodsOfStates(ss: seq<PeriodState>): seq<Period> {
    if ss == [] then [] else [ss[0].period] + PeriodsOfStates(ss[1..])
  }

  lemma {:induction false} PeriodsOfConcat(a: seq<PeriodState>, b: seq<PeriodState>)
    ensures PeriodsOfStates(a + b) == PeriodsOfStates(a) + PeriodsOfStates(b)
  {
    if a == [] {
      assert a + b == b;
    } else {
      assert (a + b)[1..] == a[1..] + b;
      PeriodsOfConcat(a[1..], b);
    }
  }

  /** The periods that are billed, or those that are not, in order. */
  function Select(ps: seq<Period>, billed: Billed, want: bool): seq<Period> {
    if ps == [] then []
    else (if IsBilled(ps[0], billed) == want then [ps[0]] else []) + Select(ps[1..], billed, want)
  }

  lemma {:induction false} ClosedOffersAreUnbilled(ps: seq<Period>, visits: seq<Visit>, billed: Billed, today: Date)
    requires forall k | 0 <= k < |ps| :: NotAfter(ps[k].start, today) && Before(ps[k].end, today)
    ensures PeriodsOfStates(OfferedOf(ps, visits, billed, today)) == Select(ps, billed, false)
  {
    if ps != [] {
      hide NotAfter, Before, AllDone, IsBilled, Live, Inside, Done;
      ClosedOffersAreUnbilled(ps[1..], visits, billed, today);
      var head := if Offered(ps[0], visits, billed, today) then [StateOf(ps[0], visits)] else [];
      PeriodsOfConcat(head, OfferedOf(ps[1..], visits, billed, today));
    }
  }

  lemma {:induction false} SelectSplitsValue(ps: seq<Period>, billed: Billed)
    ensures TotalValue(Select(ps, billed, true)) + TotalValue(Select(ps, billed, false)) == TotalValue(ps)
  {
    if ps != [] {
      hide IsBilled;
      SelectSplitsValue(ps[1..], billed);
      var b := IsBilled(ps[0], billed);
      var mine, other := Select(ps[1..], billed, b), Select(ps[1..], billed, !b);
      TotalOfConcat([ps[0]], mine);
      assert Select(ps, billed, b) == [ps[0]] + mine && Select(ps, billed, !b) == [] + other == other;
    }
  }

  lemma {:induction false} SelectSplitsPeriods(ps: seq<Period>, billed: Billed)
    ensures multiset(Select(ps, billed, true)) + multiset(Select(ps, billed, false)) == multiset(ps)
  {
    if ps != [] {
      hide IsBilled;
      SelectSplitsPeriods(ps[1..], billed);
      assert ps == [ps[0]] + ps[1..];
    }
  }

  lemma {:induction false} TotalOfConcat(a: seq<Period>, b: seq<Period>)
    ensures TotalValue(a + b) == TotalValue(a) + TotalValue(b)
  {
    if a == [] {
      assert a + b == b;
    } else {
      assert (a + b)[1..] == a[1..] + b;
      TotalOfConcat(a[1..], b);
    }
  }

  /**
    Once the term is over, what is offered is exactly what is not billed: together they are all the
    periods, and their values add up to the whole contract.
   */
  lemma NothingIsLostAfterTheTerm(c: Contract, visits: seq<Visit>, billed: Billed, today: Date)
    requires Stored(c) && Valid(today) && Before(c.end, today)
    ensures var offered := PeriodsOfStates(Billable(c, visits, billed, today));
            var done := Select(Periods(c), billed, true);
            && offered == Select(Periods(c), billed, false)
            && multiset(offered) + multiset(done) == multiset(Periods(c))
            && TotalValue(offered) + TotalValue(done) == TotalValue(Periods(c))
  {
    if c.billing != PerVisit {
      hide Periods;
      forall k | 0 <= k < |Periods(c)|
        ensures NotAfter(Periods(c)[k].start, today) && Before(Periods(c)[k].end, today)
      {
        PeriodDays(c, k);
        PeriodsAdjacent(c);
        InOrder(Periods(c)[k].start, Periods(c)[k].end, c.end, today);
      }
      ClosedOffersAreUnbilled(Periods(c), visits, billed, today);
    }
    SelectSplitsValue(Periods(c), billed);
    SelectSplitsPeriods(Periods(c), billed);
  }

  lemma InOrder(a: Date, b: Date, d: Date, e: Date)
    requires NotAfter(a, b) && NotAfter(b, d) && Before(d, e)
    ensures NotAfter(a, e) && Before(b, e)
  {
  }

  /** How many of the periods a day falls in. */
  function Holding(ps: seq<Period>, x: Date): nat {
    if ps == [] then 0 else (if In(ps[0], x) then 1 else 0) + Holding(ps[1..], x)
  }

  lemma {:induction false} HoldingNone(ps: seq<Period>, x: Date)
    requires forall k | 0 <= k < |ps| :: !In(ps[k], x)
    ensures Holding(ps, x) == 0
  {
    if ps != [] {
      HoldingNone(ps[1..], x);
    }
  }

  lemma {:induction false} HoldingOne(ps: seq<Period>, x: Date, at: nat)
    requires at < |ps| && forall k | 0 <= k < |ps| :: In(ps[k], x) <==> k == at
    ensures Holding(ps, x) == 1
  {
    hide In;
    if at == 0 {
      HoldingNone(ps[1..], x);
    } else {
      HoldingOne(ps[1..], x, at - 1);
    }
  }

  lemma HeldOnce(c: Contract, x: Date)
    requires Stored(c) && c.billing != PerVisit && BelowCap(c) && Valid(x)
    ensures Holding(Periods(c), x) == if InTerm(c, x) then 1 else 0
  {
    hide Periods, In, InTerm, BelowCap, Before, NotAfter, Valid, ToDay;
    if InTerm(c, x) {
      DayOfTerm(c, x);
      EndsBeforeLastStart(c);
      var at := Locate(c, x, |Periods(c)|);
      forall k | 0 <= k < |Periods(c)|
        ensures In(Periods(c)[k], x) <==> k == at
      {
        if In(Periods(c)[k], x) {
          AtMostOnePeriod(c, x, if k < at then k else at, if k < at then at else k);
        }
      }
      HoldingOne(Periods(c), x, at);
    } else {
      forall k | 0 <= k < |Periods(c)|
        ensures !In(Periods(c)[k], x)
      {
        if In(Periods(c)[k], x) {
          AtMostOnePeriod(c, x, k, k);
        }
      }
      HoldingNone(Periods(c), x);
    }
  }

  lemma DayOfTerm(c: Contract, x: Date)
    requires Stored(c) && InTerm(c, x)
    ensures ToDay(x) <= ToDay(c.end)
  {
    OrderIsDayOrder(x, c.end);
  }

  /** All visits counted, period by period. */
  function CountedByPeriod(ps: seq<Period>, visits: seq<Visit>): nat {
    if ps == [] then 0 else |Inside(visits, ps[0])| + CountedByPeriod(ps[1..], visits)
  }

  lemma {:induction false} CountVisit(ps: seq<Period>, visits: seq<Visit>)
    requires visits != []
    ensures CountedByPeriod(ps, visits)
            == (if visits[0].on.Some? then Holding(ps, visits[0].on.value) else 0) + CountedByPeriod(ps, visits[1..])
  {
    if ps != [] {
      hide In;
      CountVisit(ps[1..], visits);
    }
  }

  lemma {:induction false} CountNoVisit(ps: seq<Period>)
    ensures CountedByPeriod(ps, []) == 0
  {
    if ps != [] {
      CountNoVisit(ps[1..]);
    }
  }

  function DatedInTerm(c: Contract, visits: seq<Visit>): nat {
    if visits == [] then 0
    else (if visits[0].on.Some? && InTerm(c, visits[0].on.value) then 1 else 0) + DatedInTerm(c, visits[1..])
  }

  /** Every visit dated in the term is counted by exactly one period, so none holds two open or is missed. */
  lemma {:induction false} EveryVisitCountedOnce(c: Contract, visits: seq<Visit>)
    requires Stored(c) && c.billing != PerVisit && BelowCap(c)
    requires forall v | v in visits && v.on.Some? :: Valid(v.on.value)
    ensures CountedByPeriod(Periods(c), visits) == DatedInTerm(c, visits)
  {
    hide Periods, Inside, InTerm, BelowCap, Valid;
    if visits == [] {
      CountNoVisit(Periods(c));
    } else {
      var v := visits[0];
      assert v in visits;
      CountVisit(Periods(c), visits);
      EveryVisitCountedOnce(c, visits[1..]);
      if v.on.Some? {
        HeldOnce(c, v.on.value);
      }
    }
  }
}
