/**
  When the series is consecutive, and when its dates follow its numbers (Rule 46(b) of the CGST Rules):
  what has to be kept apart, and what goes wrong when it is not.
 */
module InvoiceOrder {
  import opened InvoiceProtocol
  import opened InvoiceSafety

  /** No number drawn has been lost. */
  ghost predicate NoneLost(s: State) {
    forall k | k in s.drawn :: s.drawn[k] != Lost
  }

  /**
    The step loses a number: a guarded update finds no draft, a delete takes a numbered row, or a handler
    is cut off with a number in hand.
   */
  ghost predicate LosesNow(s: State, e: Event) {
    match e
    case Step(r, ok) =>
      && r in s.reqs
      && ((s.reqs[r].IssueUpdate? && !IsDraft(s.db, s.reqs[r].id)) || (ok && DeletesANumber(s, s.reqs[r])))
    case CutOff(r) => r in s.reqs && s.reqs[r].IssueUpdate?
    case _ => false
  }

  ghost predicate DeletesANumber(s: State, q: Request) {
    q.CancelDelete? && q.id in s.db.rows && s.db.rows[q.id].number.Some? && KeyOf(s.db.rows[q.id]) in s.drawn
  }

  ghost predicate NoStepLoses(s: State, es: seq<Event>) {
    es == [] || (NoStepLoses(s, es[..|es| - 1]) && !LosesNow(Run(s, es[..|es| - 1]), es[|es| - 1]))
  }

  /** What one statement does to the fates of numbers already drawn. */
  lemma FatesOneStep(s: State, r: Rid, ok: bool, k: Number)
    requires Inv(s) && r in s.reqs && k in s.drawn
    ensures var s' := Execute(s, r, s.reqs[r], ok);
            && k in s'.drawn
            && (s.drawn[k] == Lost ==> s'.drawn[k] == Lost)
            && (s'.drawn[k] == Lost && s.drawn[k] != Lost ==> LosesNow(s, Step(r, ok)))
  {
    var q := s.reqs[r];
    if q.IssueDraw? {
      hide YearOf, RowsHold, FlightsHold, FatesTrue, AllKnow, RowsSound;
    } else {
      if q.IssueUpdate? {
        assert FlightHolds(s, r, q);
      } else if DeletesANumber(s, q) {
        assert RowHolds(s, q.id, KeyOf(s.db.rows[q.id]));
      }
      hide YearOf, Inv, After, Next, Dates;
    }
  }

  lemma StepLosesExactly(s: State, r: Rid, ok: bool)
    requires Inv(s) && NoneLost(s) && r in s.reqs
    ensures NoneLost(Execute(s, r, s.reqs[r], ok)) <==> !LosesNow(s, Step(r, ok))
  {
    var q, s' := s.reqs[r], Execute(s, r, s.reqs[r], ok);
    if LosesNow(s, Step(r, ok)) {
      var k := if q.IssueUpdate? then Number(SeriesOf(q), q.n) else KeyOf(s.db.rows[q.id]);
      hide YearOf, Inv, After, Next, Dates;
      assert k in s'.drawn && s'.drawn[k] == Lost;
    } else {
      forall k | k in s.drawn
        ensures k in s'.drawn && s'.drawn[k] != Lost
      {
        FatesOneStep(s, r, ok, k);
      }
      hide YearOf, Inv, After, Next, Dates;
    }
  }

  lemma EventLosesExactly(s: State, e: Event)
    requires Inv(s) && NoneLost(s)
    ensures NoneLost(Apply(s, e)) <==> !LosesNow(s, e)
  {
    match e
    case Step(r, ok) =>
      if r in s.reqs {
        StepLosesExactly(s, r, ok);
        hide Execute, NoneLost, Inv;
      }
    case CutOff(r) =>
      if r in s.reqs && s.reqs[r].IssueUpdate? {
        assert Number(SeriesOf(s.reqs[r]), s.reqs[r].n) in Apply(s, e).drawn;
      }
    case Start(_, _) =>
    case CreateDraft(_, _) =>
    case Tick(_) =>
  }

  /** A lost number stays lost. */
  lemma LostStays(s: State, e: Event)
    requires Inv(s) && !NoneLost(s)
    ensures !NoneLost(Apply(s, e))
  {
    var k :| k in s.drawn && s.drawn[k] == Lost;
    if e.Step? && e.r in s.reqs {
      FatesOneStep(s, e.r, e.ok, k);
      hide Execute;
    } else {
      hide YearOf, Inv;
    }
    assert k in Apply(s, e).drawn && Apply(s, e).drawn[k] == Lost;
  }

  /** In every run a number is lost if and only if some step loses one, which can be told before the step. */
  lemma {:induction false} LostExactlyWhenAStepLoses(s: State, es: seq<Event>)
    requires Initial(s)
    ensures NoneLost(Run(s, es)) <==> NoStepLoses(s, es)
  {
    if es != [] {
      hide NoneLost, Apply, Inv, LosesNow, Initial;
      var before := Run(s, es[..|es| - 1]);
      LostExactlyWhenAStepLoses(s, es[..|es| - 1]);
      RunKeeps(s, es[..|es| - 1]);
      if NoneLost(before) {
        EventLosesExactly(before, es[|es| - 1]);
      } else {
        LostStays(before, es[|es| - 1]);
      }
    }
  }

  ghost predicate AllDone(s: State) {
    forall r | r in s.reqs :: s.reqs[r].Done?
  }

  /** The number is on exactly one row. */
  ghost predicate OnOneRow(db: Db, k: Number) {
    exists id :: OnRowNow(db, id, k) && forall o | OnRowNow(db, o, k) :: o == id
  }

  /**
    Once every handler has finished, the series is consecutive, each number given out being on exactly one
    row, if and only if no step of the run lost a number.
   */
  lemma ConsecutiveExactly(s: State, es: seq<Event>)
    requires Initial(s) && AllDone(Run(s, es))
    ensures NoStepLoses(s, es) <==>
      forall k: Number | Last(s.db.counters, k.series) < k.n <= Last(Run(s, es).db.counters, k.series) ::
        OnOneRow(Run(s, es).db, k)
  {
    LostExactlyWhenAStepLoses(s, es);
    var now := Run(s, es);
    forall k: Number | Last(s.db.counters, k.series) < k.n <= Last(now.db.counters, k.series)
      ensures k in now.drawn && (now.drawn[k] != Lost <==> OnOneRow(now.db, k))
    {
      EveryNumberAccountedFor(s, es, k);
      if now.drawn[k].OnRow? {
        assert OnRowNow(now.db, now.drawn[k].id, k);
      }
    }
    forall k: Number | k in now.drawn
      ensures Last(s.db.counters, k.series) < k.n <= Last(now.db.counters, k.series)
    {
      EveryNumberAccountedFor(s, es, k);
    }
    hide Run, NoStepLoses, OnOneRow, Initial, AllDone;
  }

  predicate Busy(q: Request, id: InvoiceId) {
    !q.Done? && q.id == id
  }

  /** No handler is cut off, and none is started on an invoice another is working on. */
  ghost predicate Apart(s: State, e: Event) {
    && !e.CutOff?
    && (e.Start? && e.r !in s.reqs ==> forall x | x in s.reqs :: e.first.Done? || !Busy(s.reqs[x], e.first.id))
  }

  ghost predicate RunApart(s: State, es: seq<Event>) {
    es == [] || (RunApart(s, es[..|es| - 1]) && Apart(Run(s, es[..|es| - 1]), es[|es| - 1]))
  }

  predicate HasReadADraft(q: Request) {
    || q.IssueLines? || q.IssueClock? || q.IssueDraw? || q.IssueUpdate?
    || q.CancelDelete? || (q.CancelPaid? && q.draft)
  }

  /** What a handler read of its invoice is still so. */
  ghost predicate StillSo(db: Db, q: Request) {
    && (HasReadADraft(q) ==> IsDraft(db, q.id))
    && (q.CancelMark? || (q.CancelPaid? && !q.draft) ==> q.id in db.rows && db.rows[q.id].status != Draft)
  }

  ghost predicate OneEach(reqs: map<Rid, Request>) {
    forall x, y | x in reqs && y in reqs && !reqs[x].Done? && Busy(reqs[y], reqs[x].id) :: x == y
  }

  ghost predicate AllStillSo(s: State) {
    (forall r | r in s.reqs :: StillSo(s.db, s.reqs[r])) && OneEach(s.reqs)
  }

  lemma StillSoNext(db: Db, q: Request, ok: bool)
    requires StillSo(db, q)
    ensures StillSo(After(db, q, ok), Next(db, q, ok))
  {
    hide YearOf, IssuedRow;
  }

  lemma StillSoElsewhere(db: Db, q: Request, ok: bool, other: Request)
    requires StillSo(db, other) && (other.Done? || q.Done? || q.id != other.id)
    ensures StillSo(After(db, q, ok), other)
  {
    hide YearOf, IssuedRow;
  }

  lemma ApartKeepsRequests(s: State, r: Rid, ok: bool)
    requires AllStillSo(s) && r in s.reqs
    ensures AllStillSo(Execute(s, r, s.reqs[r], ok))
  {
    var q, q' := s.reqs[r], Next(s.db, s.reqs[r], ok);
    assert q'.Done? || (!q.Done? && q'.id == q.id) by {
      hide AllStillSo, YearOf, NextInSeries;
    }
    hide StillSo, After, Next, Fates, Dates;
    var s' := Execute(s, r, q, ok);
    forall x | x in s'.reqs
      ensures StillSo(s'.db, s'.reqs[x])
    {
      if x == r {
        StillSoNext(s.db, q, ok);
      } else {
        assert !q.Done? && !s.reqs[x].Done? ==> !Busy(s.reqs[x], q.id);
        StillSoElsewhere(s.db, q, ok, s.reqs[x]);
      }
    }
  }

  /** What is still so rules out every step that loses a number. */
  lemma ApartDoesNotLose(s: State, e: Event)
    requires Inv(s) && AllStillSo(s) && Apart(s, e)
    ensures !LosesNow(s, e)
  {
    hide YearOf, Counted, RowsHold, FlightsHold, FatesTrue, AllKnow, NumbersDiffer, WithinCounters;
    if e.Step? && e.r in s.reqs {
      assert StillSo(s.db, s.reqs[e.r]);
    }
  }

  lemma ApartKeeps(s: State, e: Event)
    requires Inv(s) && AllStillSo(s) && Apart(s, e)
    ensures AllStillSo(Apply(s, e))
  {
    hide YearOf, Counted, RowsHold, FlightsHold, FatesTrue, AllKnow, Execute;
    if e.Step? && e.r in s.reqs {
      ApartKeepsRequests(s, e.r, e.ok);
    }
  }

  lemma {:induction false} ApartStepsLoseNothing(s: State, es: seq<Event>)
    requires Initial(s) && RunApart(s, es)
    ensures AllStillSo(Run(s, es)) && NoStepLoses(s, es)
  {
    if es != [] {
      hide AllStillSo, Apply, Inv, Apart, Initial, LosesNow;
      ApartStepsLoseNothing(s, es[..|es| - 1]);
      RunKeeps(s, es[..|es| - 1]);
      ApartDoesNotLose(Run(s, es[..|es| - 1]), es[|es| - 1]);
      ApartKeeps(Run(s, es[..|es| - 1]), es[|es| - 1]);
    }
  }

  /**
    While handlers keep to different invoices and none is cut off, no number is ever lost, however they
    interleave: every number drawn is on its row or about to be written to one that waits for it.
   */
  lemma ApartNothingLost(s: State, es: seq<Event>)
    requires Initial(s) && RunApart(s, es)
    ensures NoneLost(Run(s, es))
  {
    ApartStepsLoseNothing(s, es);
    LostExactlyWhenAStepLoses(s, es);
  }

  /** Then, once every handler has finished, the series is consecutive: each number is on exactly one row. */
  lemma ConsecutiveWhenApart(s: State, es: seq<Event>, k: Number)
    requires Initial(s) && RunApart(s, es) && AllDone(Run(s, es))
    requires Last(s.db.counters, k.series) < k.n <= Last(Run(s, es).db.counters, k.series)
    ensures OnOneRow(Run(s, es).db, k)
  {
    hide RunApart, NoStepLoses, Run, OnOneRow, Initial;
    ApartStepsLoseNothing(s, es);
    ConsecutiveExactly(s, es);
  }

  /** No issue of a branch reads the clock while another of that branch is between the clock and its number. */
  ghost predicate ClockApart(s: State, e: Event) {
    e.Step? && e.r in s.reqs && s.reqs[e.r].IssueClock? ==>
      forall x | x in s.reqs && s.reqs[x].IssueDraw? :: s.reqs[x].branch != s.reqs[e.r].branch
  }

  ghost predicate ClocksApart(s: State, es: seq<Event>) {
    es == [] || (ClocksApart(s, es[..|es| - 1]) && ClockApart(Run(s, es[..|es| - 1]), es[|es| - 1]))
  }

  /** Days follow numbers, within each series. */
  ghost predicate DatesAscend(dates: map<Number, int>) {
    forall a: Number, b: Number | a in dates && b in dates && a.series == b.series && a.n <= b.n :: dates[a] <= dates[b]
  }

  /** A number is drawn for a day before the one that the last number of its series was drawn for. */
  ghost predicate DrawsBackwards(s: State, e: Event) {
    && e.Step? && e.r in s.reqs && s.reqs[e.r].IssueDraw?
    && var k := SeriesOf(s.reqs[e.r]);
       Number(k, Last(s.db.counters, k)) in s.dates && s.reqs[e.r].day < s.dates[Number(k, Last(s.db.counters, k))]
  }

  ghost predicate NoneDrawnBackwards(s: State, es: seq<Event>) {
    es == [] || (NoneDrawnBackwards(s, es[..|es| - 1]) && !DrawsBackwards(Run(s, es[..|es| - 1]), es[|es| - 1]))
  }

  /** One more number at the end of a series. */
  lemma AscendByOne(dates: map<Number, int>, k: Number, day: int)
    requires DatesAscend(dates) && k !in dates && forall o | o in dates && o.series == k.series :: o.n < k.n
    requires k.n > 0 && ((exists o :: o in dates && o.series == k.series) ==> Number(k.series, k.n - 1) in dates)
    ensures DatesAscend(dates[k := day])
        <==> !(Number(k.series, k.n - 1) in dates && day < dates[Number(k.series, k.n - 1)])
  {
    var last := Number(k.series, k.n - 1);
    if last in dates && day < dates[last] {
      assert last in dates[k := day] && k in dates[k := day];
    } else if last in dates {
      assert forall o | o in dates && o.series == k.series :: dates[o] <= dates[last];
    }
  }

  lemma DrawAscendsExactly(s: State, r: Rid, ok: bool)
    requires Inv(s) && DatesAscend(s.dates) && r in s.reqs && s.reqs[r].IssueDraw?
    ensures DatesAscend(Execute(s, r, s.reqs[r], ok).dates) <==> !DrawsBackwards(s, Step(r, ok))
  {
    hide YearOf, RowsSound, RowsHold, FlightsHold, FatesTrue, AllKnow, DatesAscend, After, Next, Fates;
    var q := s.reqs[r];
    var k := Number(SeriesOf(q), Last(s.db.counters, SeriesOf(q)) + 1);
    assert k !in s.dates && forall o | o in s.dates && o.series == k.series :: o.n < k.n;
    if o :| o in s.dates && o.series == k.series {
      assert Number(k.series, k.n - 1) in s.drawn;
    }
    AscendByOne(s.dates, k, q.day);
  }

  /** A day once given to a number never changes. */
  lemma DatesOnlyGrow(s: State, e: Event, k: Number)
    requires Inv(s) && k in s.dates
    ensures k in Apply(s, e).dates && Apply(s, e).dates[k] == s.dates[k]
  {
    hide YearOf, RowsSound, RowsHold, FlightsHold, FatesTrue, AllKnow, After, Next, Fates;
  }

  lemma EventAscendsExactly(s: State, e: Event)
    requires Inv(s)
    ensures DatesAscend(Apply(s, e).dates) <==> DatesAscend(s.dates) && !DrawsBackwards(s, e)
  {
    if !DatesAscend(s.dates) {
      var a, b :| a in s.dates && b in s.dates && a.series == b.series && a.n <= b.n && s.dates[a] > s.dates[b];
      DatesOnlyGrow(s, e, a);
      DatesOnlyGrow(s, e, b);
      hide Apply;
    } else if e.Step? && e.r in s.reqs && s.reqs[e.r].IssueDraw? {
      DrawAscendsExactly(s, e.r, e.ok);
      hide Execute, DatesAscend, DrawsBackwards;
    } else {
      hide YearOf, Inv, After, Next, Fates, DatesAscend;
    }
  }

  /**
    In every run the days of the numbers drawn follow the numbers if and only if no number was drawn for a
    day before that of the number before it.
   */
  lemma {:induction false} DatesFollowExactly(s: State, es: seq<Event>)
    requires Initial(s)
    ensures DatesAscend(Run(s, es).dates) <==> NoneDrawnBackwards(s, es)
  {
    if es != [] {
      hide DatesAscend, Apply, Inv, DrawsBackwards, Initial;
      DatesFollowExactly(s, es[..|es| - 1]);
      RunKeeps(s, es[..|es| - 1]);
      EventAscendsExactly(Run(s, es[..|es| - 1]), es[|es| - 1]);
    }
  }

  /** A handler about to draw has a day no earlier than any drawn for its branch. */
  ghost predicate Latest(dates: map<Number, int>, q: Request)
    requires q.IssueDraw?
  {
    forall k | k in dates && k.series.branch == q.branch :: dates[k] <= q.day
  }

  ghost predicate ClocksRight(s: State) {
    && (forall k | k in s.dates :: s.dates[k] <= s.db.today)
    && (forall r | r in s.reqs && s.reqs[r].IssueDraw? :: s.reqs[r].day <= s.db.today && Latest(s.dates, s.reqs[r]))
    && (forall r, x | r in s.reqs && x in s.reqs && s.reqs[r].IssueDraw? && s.reqs[x].IssueDraw?
          && s.reqs[r].branch == s.reqs[x].branch :: r == x)
  }

  lemma DrawKeepsClocks(s: State, r: Rid, ok: bool)
    requires ClocksRight(s) && r in s.reqs && s.reqs[r].IssueDraw?
    ensures ClocksRight(Execute(s, r, s.reqs[r], ok))
  {
    hide YearOf, Fates;
    var q, s' := s.reqs[r], Execute(s, r, s.reqs[r], ok);
    assert s'.dates == s.dates[Number(SeriesOf(q), Last(s.db.counters, SeriesOf(q)) + 1) := q.day]
           && Latest(s.dates, q);
  }

  lemma OtherKeepsClocks(s: State, r: Rid, ok: bool)
    requires ClocksRight(s) && r in s.reqs && !s.reqs[r].IssueDraw? && ClockApart(s, Step(r, ok))
    ensures ClocksRight(Execute(s, r, s.reqs[r], ok))
  {
    hide YearOf, Fates;
    var q, s' := s.reqs[r], Execute(s, r, s.reqs[r], ok);
    assert s'.dates == s.dates && s'.db.today == s.db.today;
    assert s'.reqs[r].IssueDraw? ==> q.IssueClock? && s'.reqs[r].day == s.db.today && s'.reqs[r].branch == q.branch;
    hide After, Next;
  }

  lemma ApartClocksKeep(s: State, e: Event)
    requires ClocksRight(s) && ClockApart(s, e)
    ensures ClocksRight(Apply(s, e)) && !DrawsBackwards(s, e)
  {
    if e.Step? && e.r in s.reqs {
      if s.reqs[e.r].IssueDraw? {
        assert Latest(s.dates, s.reqs[e.r]);
        DrawKeepsClocks(s, e.r, e.ok);
      } else {
        OtherKeepsClocks(s, e.r, e.ok);
      }
      hide Execute, YearOf;
    } else {
      hide YearOf;
    }
  }

  lemma {:induction false} ApartClocksNeverGoBack(s: State, es: seq<Event>)
    requires Initial(s) && ClocksApart(s, es)
    ensures ClocksRight(Run(s, es)) && NoneDrawnBackwards(s, es)
  {
    if es != [] {
      hide ClocksRight, Apply, ClockApart, Initial, DrawsBackwards;
      ApartClocksNeverGoBack(s, es[..|es| - 1]);
      ApartClocksKeep(Run(s, es[..|es| - 1]), es[|es| - 1]);
    }
  }

  /**
    Dates follow numbers: of two invoices numbered in one series since the start, the later number never
    has the earlier date, provided that no number was drawn backwards.
   */
  lemma InvoiceDatesFollow(s: State, es: seq<Event>, i: InvoiceId, j: InvoiceId)
    requires Initial(s) && NoneDrawnBackwards(s, es)
    requires NumberedSince(Run(s, es), i) && NumberedSince(Run(s, es), j)
    requires var rows := Run(s, es).db.rows;
             KeyOf(rows[i]).series == KeyOf(rows[j]).series && KeyOf(rows[i]).n < KeyOf(rows[j]).n
    ensures Run(s, es).db.rows[i].date <= Run(s, es).db.rows[j].date
  {
    DatesFollowExactly(s, es);
    RunKeeps(s, es);
    var now := Run(s, es);
    hide Run, NoneDrawnBackwards, YearOf;
    assert RowHolds(now, i, KeyOf(now.db.rows[i])) && RowHolds(now, j, KeyOf(now.db.rows[j]));
  }

  /** The row has a number that was drawn since the start. */
  ghost predicate NumberedSince(s: State, id: InvoiceId) {
    id in s.db.rows && s.db.rows[id].number.Some? && KeyOf(s.db.rows[id]) in s.drawn
  }

  /** Which holds in particular when, on each branch, clock readings and draws do not overlap. */
  lemma DatesFollowNumbers(s: State, es: seq<Event>, i: InvoiceId, j: InvoiceId)
    requires Initial(s) && ClocksApart(s, es)
    requires NumberedSince(Run(s, es), i) && NumberedSince(Run(s, es), j)
    requires var rows := Run(s, es).db.rows;
             KeyOf(rows[i]).series == KeyOf(rows[j]).series && KeyOf(rows[i]).n < KeyOf(rows[j]).n
    ensures Run(s, es).db.rows[i].date <= Run(s, es).db.rows[j].date
  {
    ApartClocksNeverGoBack(s, es);
    hide Run, ClocksApart, NoneDrawnBackwards;
    InvoiceDatesFollow(s, es, i, j);
  }

  /** One handler at a time, and none cut off. */
  ghost predicate Serial(s: State, e: Event) {
    !e.CutOff? && (e.Start? ==> forall x | x in s.reqs :: s.reqs[x].Done?)
  }

  ghost predicate RunSerial(s: State, es: seq<Event>) {
    es == [] || (RunSerial(s, es[..|es| - 1]) && Serial(Run(s, es[..|es| - 1]), es[|es| - 1]))
  }

  ghost predicate OneAtWork(reqs: map<Rid, Request>) {
    forall x, y | x in reqs && y in reqs && !reqs[x].Done? && !reqs[y].Done? :: x == y
  }

  lemma SerialStep(s: State, e: Event)
    requires OneAtWork(s.reqs) && Serial(s, e)
    ensures OneAtWork(Apply(s, e).reqs) && Apart(s, e) && ClockApart(s, e)
  {
    hide YearOf, After, Fates, Dates;
  }

  /** Handlers run one at a time meet both conditions: the series is consecutive and its dates follow its numbers. */
  lemma {:induction false} SerialIsApart(s: State, es: seq<Event>)
    requires Initial(s) && RunSerial(s, es)
    ensures OneAtWork(Run(s, es).reqs) && RunApart(s, es) && ClocksApart(s, es)
  {
    if es != [] {
      hide Apply, Serial, Apart, ClockApart, Initial, OneAtWork;
      SerialIsApart(s, es[..|es| - 1]);
      SerialStep(Run(s, es[..|es| - 1]), es[|es| - 1]);
    }
  }

  /** Reading the draft, its lines and the clock brings an issue to its draw, and changes nothing else. */
  function ToTheDraw(r: Rid, id: InvoiceId): seq<Event> {
    [Start(r, IssueRead(id)), Step(r, true), Step(r, true), Step(r, true)]
  }

  lemma RunOfFour(s: State, a: Event, b: Event, c: Event, d: Event)
    ensures Run(s, [a, b, c, d]) == Apply(Apply(Apply(Apply(s, a), b), c), d)
  {
    hide Apply;
    assert [a] + [b] + [c] + [d] == [a, b, c, d];
    RunConcat(s, [a] + [b] + [c], [d]);
    RunConcat(s, [a] + [b], [c]);
    RunConcat(s, [a], [b]);
    RunOne(s, a);
    RunOne(Apply(s, a), b);
    RunOne(Apply(Apply(s, a), b), c);
    RunOne(Apply(Apply(Apply(s, a), b), c), d);
  }

  lemma AtTheDraw(s: State, r: Rid, id: InvoiceId)
    requires r !in s.reqs && IsDraft(s.db, id)
    ensures Run(s, ToTheDraw(r, id)) == s.(reqs := s.reqs[r := IssueDraw(id, s.db.rows[id].branch, s.db.today)])
  {
    hide YearOf, Run;
    RunOfFour(s, Start(r, IssueRead(id)), Step(r, true), Step(r, true), Step(r, true));
    var branch := s.db.rows[id].branch;
    var s1 := Apply(s, Start(r, IssueRead(id)));
    var s2 := Apply(s1, Step(r, true));
    assert s2 == s.(reqs := s.reqs[r := IssueLines(id, branch)]);
    var s3 := Apply(s2, Step(r, true));
    assert s3 == s.(reqs := s.reqs[r := IssueClock(id, branch)]);
    assert Apply(s3, Step(r, true)) == s.(reqs := s.reqs[r := IssueDraw(id, branch, s.db.today)]);
  }

  lemma DaysPass(s: State, days: nat)
    ensures Apply(s, Tick(days)) == s.(db := s.db.(today := s.db.today + days))
  {
  }

  /** Two issues have read their clocks, some days apart, and nothing else has happened. */
  ghost predicate BothReady(s: State, now: State, a: Rid, i: InvoiceId, days: nat, b: Rid, j: InvoiceId)
    requires i in s.db.rows && j in s.db.rows
  {
    && now.db == s.db.(today := s.db.today + days)
    && a in now.reqs && now.reqs[a] == IssueDraw(i, s.db.rows[i].branch, s.db.today)
    && b in now.reqs && now.reqs[b] == IssueDraw(j, s.db.rows[j].branch, s.db.today + days)
  }

  function BothToTheDraw(a: Rid, i: InvoiceId, days: nat, b: Rid, j: InvoiceId): seq<Event> {
    ToTheDraw(a, i) + [Tick(days)] + ToTheDraw(b, j)
  }

  lemma BothAtTheDraw(s: State, a: Rid, i: InvoiceId, days: nat, b: Rid, j: InvoiceId)
    requires a !in s.reqs && b !in s.reqs && a != b && IsDraft(s.db, i) && IsDraft(s.db, j)
    ensures BothReady(s, Run(s, BothToTheDraw(a, i, days, b, j)), a, i, days, b, j)
  {
    hide Run, Apply, ToTheDraw;
    AtTheDraw(s, a, i);
    var s1 := Run(s, ToTheDraw(a, i));
    RunConcat(s, ToTheDraw(a, i), [Tick(days)]);
    RunOne(s1, Tick(days));
    DaysPass(s1, days);
    RunConcat(s, ToTheDraw(a, i) + [Tick(days)], ToTheDraw(b, j));
    AtTheDraw(Apply(s1, Tick(days)), b, j);
  }

  lemma SecondUpdateFindsNoDraft(s: State, a: Rid, b: Rid, id: InvoiceId, branch: BranchId, day: int)
    requires a in s.reqs && b in s.reqs && a != b && IsDraft(s.db, id)
    requires s.reqs[a] == IssueDraw(id, branch, day) && s.reqs[b] == IssueDraw(id, branch, day)
    ensures var k := Series(branch, YearOf(day));
            var n := Last(s.db.counters, k);
            SecondLost(Run(s, [Step(a, true), Step(b, true), Step(a, true), Step(b, true)]), a, b, k, n)
  {
    hide YearOf, Run;
    RunOfFour(s, Step(a, true), Step(b, true), Step(a, true), Step(b, true));
    var k := Series(branch, YearOf(day));
    var n := Last(s.db.counters, k);
    var s1 := Apply(s, Step(a, true));
    assert s1.db == NextInSeries(s.db, k).0 && s1.reqs == s.reqs[a := IssueUpdate(id, branch, day, n + 1)];
    var s2 := Apply(s1, Step(b, true));
    assert s2.db.rows == s.db.rows && s2.reqs == s1.reqs[b := IssueUpdate(id, branch, day, n + 2)];
    var s3 := Apply(s2, Step(a, true));
    assert s3.reqs == s2.reqs[a := Done(IssuedAs(n + 1))] && id in s3.db.rows && s3.db.rows[id].status == Issued;
  }

  /** The second of two issues draws a number that it loses, and is answered all the same. */
  ghost predicate SecondLost(now: State, a: Rid, b: Rid, k: Series, n: nat) {
    && a in now.reqs && now.reqs[a] == Done(IssuedAs(n + 1))
    && b in now.reqs && now.reqs[b] == Done(IssuedNothing(n + 2))
    && Number(k, n + 2) in now.drawn && now.drawn[Number(k, n + 2)] == Lost
  }

  /**
    From any register with a draft, two handlers issuing it at once both draw, the second number is lost,
    and its caller is answered all the same.
   */
  lemma SecondIssueLosesANumber(s: State, a: Rid, b: Rid, id: InvoiceId)
    requires Initial(s) && a != b && IsDraft(s.db, id)
    ensures var es := BothToTheDraw(a, id, 0, b, id) + [Step(a, true), Step(b, true), Step(a, true), Step(b, true)];
            var k := Series(s.db.rows[id].branch, YearOf(s.db.today));
            SecondLost(Run(s, es), a, b, k, Last(s.db.counters, k))
  {
    assert s.reqs == map[];
    hide Run, YearOf, BothToTheDraw, Initial, Last;
    BothAtTheDraw(s, a, id, 0, b, id);
    var first, last := BothToTheDraw(a, id, 0, b, id), [Step(a, true), Step(b, true), Step(a, true), Step(b, true)];
    RunConcat(s, first, last);
    SecondUpdateFindsNoDraft(Run(s, first), a, b, id, s.db.rows[id].branch, s.db.today);
  }

  /** A handler on its way to discard a draft, having read that it is one. */
  function ToTheDelete(r: Rid, id: InvoiceId): seq<Event> {
    [Start(r, CancelRead(id)), Step(r, true), Step(r, true), Tick(0)]
  }

  /** Reading the draft and its payments brings a discard to its delete, and changes nothing else. */
  lemma AtTheDelete(s: State, r: Rid, id: InvoiceId)
    requires r !in s.reqs && IsDraft(s.db, id)
    ensures Run(s, ToTheDelete(r, id)) == s.(reqs := s.reqs[r := CancelDelete(id)])
  {
    hide YearOf, Run;
    RunOfFour(s, Start(r, CancelRead(id)), Step(r, true), Step(r, true), Tick(0));
    var s1 := Apply(s, Start(r, CancelRead(id)));
    var s2 := Apply(s1, Step(r, true));
    assert s2 == s.(reqs := s.reqs[r := CancelPaid(id, true)]);
    assert Apply(s2, Step(r, true)) == s.(reqs := s.reqs[r := CancelDelete(id)]);
  }

  ghost predicate IssueAndDiscardReady(s: State, now: State, a: Rid, b: Rid, id: InvoiceId)
    requires id in s.db.rows
  {
    && now.db == s.db
    && a in now.reqs && now.reqs[a] == IssueDraw(id, s.db.rows[id].branch, s.db.today)
    && b in now.reqs && now.reqs[b] == CancelDelete(id)
  }

  function ToTheDrawAndTheDelete(a: Rid, b: Rid, id: InvoiceId): seq<Event> {
    ToTheDraw(a, id) + ToTheDelete(b, id)
  }

  lemma IssueAndDiscardAtWork(s: State, a: Rid, b: Rid, id: InvoiceId)
    requires a !in s.reqs && b !in s.reqs && a != b && IsDraft(s.db, id)
    ensures IssueAndDiscardReady(s, Run(s, ToTheDrawAndTheDelete(a, b, id)), a, b, id)
  {
    hide Run, Apply, ToTheDraw, ToTheDelete;
    AtTheDraw(s, a, id);
    RunConcat(s, ToTheDraw(a, id), ToTheDelete(b, id));
    AtTheDelete(Run(s, ToTheDraw(a, id)), b, id);
  }

  /** The issue was answered, its row is gone, and its number is lost. */
  ghost predicate IssuedAndGone(now: State, a: Rid, id: InvoiceId, k: Number) {
    && a in now.reqs && now.reqs[a] == Done(IssuedAs(k.n)) && id !in now.db.rows
    && k in now.drawn && now.drawn[k] == Lost
  }

  /** An issue draws and writes its number, and a discard deletes the row. */
  function IssueThenDelete(a: Rid, b: Rid): seq<Event> {
    [Step(a, true), Step(a, true), Step(b, true), Tick(0)]
  }

  lemma DeleteAfterIssue(s: State, a: Rid, b: Rid, id: InvoiceId, branch: BranchId, day: int)
    requires a in s.reqs && b in s.reqs && a != b && IsDraft(s.db, id) && s.db.rows[id].branch == branch
    requires s.reqs[a] == IssueDraw(id, branch, day) && s.reqs[b] == CancelDelete(id)
    ensures var k := Number(Series(branch, YearOf(day)), Last(s.db.counters, Series(branch, YearOf(day))) + 1);
            IssuedAndGone(Run(s, IssueThenDelete(a, b)), a, id, k)
  {
    hide YearOf, Run;
    RunOfFour(s, Step(a, true), Step(a, true), Step(b, true), Tick(0));
    var k := Number(Series(branch, YearOf(day)), Last(s.db.counters, Series(branch, YearOf(day))) + 1);
    var s1 := Apply(s, Step(a, true));
    assert s1.db.rows == s.db.rows && s1.reqs == s.reqs[a := IssueUpdate(id, branch, day, k.n)] && k in s1.drawn;
    var s2 := Apply(s1, Step(a, true));
    assert s2.db.rows == s.db.rows[id := IssuedRow(s.db.rows[id], day, k.n)];
    assert s2.reqs == s1.reqs[a := Done(IssuedAs(k.n))] && KeyOf(s2.db.rows[id]) == k && k in s2.drawn;
    hide Last;
    DeleteLoses(s2, a, b, id, k);
  }

  lemma DeleteLoses(s: State, a: Rid, b: Rid, id: InvoiceId, k: Number)
    requires a in s.reqs && b in s.reqs && a != b && s.reqs[a] == Done(IssuedAs(k.n)) && s.reqs[b] == CancelDelete(id)
    requires id in s.db.rows && s.db.rows[id].number.Some? && KeyOf(s.db.rows[id]) == k && k in s.drawn
    ensures IssuedAndGone(Apply(Apply(s, Step(b, true)), Tick(0)), a, id, k)
  {
    hide YearOf;
  }

  /**
    From any register with a draft, a discard that has read it deletes the invoice issued meanwhile: the
    issue was answered, and its number is lost.
   */
  lemma DiscardTakesAnIssuedInvoice(s: State, a: Rid, b: Rid, id: InvoiceId)
    requires Initial(s) && a != b && IsDraft(s.db, id)
    ensures var series := Series(s.db.rows[id].branch, YearOf(s.db.today));
            IssuedAndGone(Run(s, ToTheDrawAndTheDelete(a, b, id) + IssueThenDelete(a, b)), a, id,
                          Number(series, Last(s.db.counters, series) + 1))
  {
    assert s.reqs == map[];
    hide Run, YearOf, ToTheDrawAndTheDelete, IssueThenDelete, Initial, Last, IssuedAndGone;
    IssueAndDiscardAtWork(s, a, b, id);
    var first := ToTheDrawAndTheDelete(a, b, id);
    RunConcat(s, first, IssueThenDelete(a, b));
    DeleteAfterIssue(Run(s, first), a, b, id, s.db.rows[id].branch, s.db.today);
  }

  lemma SecondDrawIsEarlier(s: State, a: Rid, b: Rid, i: InvoiceId, j: InvoiceId, branch: BranchId, day: int,
                            later: int)
    requires a in s.reqs && b in s.reqs && a != b && i != j && IsDraft(s.db, i) && IsDraft(s.db, j)
    requires s.db.rows[i].branch == branch && s.db.rows[j].branch == branch
    requires s.reqs[a] == IssueDraw(i, branch, day) && s.reqs[b] == IssueDraw(j, branch, later)
    requires YearOf(day) == YearOf(later)
    ensures var rows := Run(s, [Step(b, true), Step(a, true), Step(b, true), Step(a, true)]).db.rows;
            var n := Last(s.db.counters, Series(branch, YearOf(day)));
            && i in rows && rows[i] == IssuedRow(s.db.rows[i], day, n + 2)
            && j in rows && rows[j] == IssuedRow(s.db.rows[j], later, n + 1)
  {
    hide YearOf, Run;
    RunOfFour(s, Step(b, true), Step(a, true), Step(b, true), Step(a, true));
    var k := Series(branch, YearOf(day));
    var n := Last(s.db.counters, k);
    var s1 := Apply(s, Step(b, true));
    assert s1.db == NextInSeries(s.db, k).0 && s1.reqs == s.reqs[b := IssueUpdate(j, branch, later, n + 1)];
    var s2 := Apply(s1, Step(a, true));
    assert s2.db.rows == s.db.rows && s2.reqs == s1.reqs[a := IssueUpdate(i, branch, day, n + 2)];
    var s3 := Apply(s2, Step(b, true));
    assert s3.reqs[a] == s2.reqs[a] && s3.db.rows == s.db.rows[j := IssuedRow(s.db.rows[j], later, n + 1)];
    var s4 := Apply(s3, Step(a, true));
    assert s4.db.rows == s3.db.rows[i := IssuedRow(s.db.rows[i], day, n + 2)];
  }

  /**
    From any register with two drafts of a branch: an issue that reads the clock, and another that reads it
    some days later in the same financial year but draws first. The earlier number has the later date.
   */
  lemma OverlapRunsDatesBackwards(s: State, a: Rid, b: Rid, i: InvoiceId, j: InvoiceId, days: nat)
    requires Initial(s) && a != b && i != j && IsDraft(s.db, i) && IsDraft(s.db, j)
    requires s.db.rows[i].branch == s.db.rows[j].branch && days > 0 && YearOf(s.db.today) == YearOf(s.db.today + days)
    ensures var last := [Step(b, true), Step(a, true), Step(b, true), Step(a, true)];
            var rows := Run(s, BothToTheDraw(a, i, days, b, j) + last).db.rows;
            && i in rows && j in rows && rows[i].number.Some? && rows[j].number.Some?
            && KeyOf(rows[j]).series == KeyOf(rows[i]).series && KeyOf(rows[j]).n < KeyOf(rows[i]).n
            && rows[i].date < rows[j].date
  {
    assert s.reqs == map[];
    hide Run, YearOf, BothToTheDraw, Initial, Last;
    BothAtTheDraw(s, a, i, days, b, j);
    var first := BothToTheDraw(a, i, days, b, j);
    RunConcat(s, first, [Step(b, true), Step(a, true), Step(b, true), Step(a, true)]);
    SecondDrawIsEarlier(Run(s, first), a, b, i, j, s.db.rows[i].branch, s.db.today, s.db.today + days);
  }
}
