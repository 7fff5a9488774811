/** What every run of the invoice protocol keeps. */
module InvoiceSafety {
  import opened InvoiceProtocol

  /** The numbers drawn are those the counters have passed. */
  ghost predicate Counted(s: State) {
    && s.dates.Keys == s.drawn.Keys
    && (forall k: Number :: k in s.drawn <==> Last(s.base, k.series) < k.n <= Last(s.db.counters, k.series))
    && (forall k: Series :: Last(s.base, k) <= Last(s.db.counters, k))
  }

  ghost predicate RowsSound(s: State) {
    NumberedWhenIssued(s.db.rows) && NumbersDiffer(s.db.rows) && WithinCounters(s.db.rows, s.db.counters)
      && s.db.rows.Keys <= s.used
  }

  /** The row stands where its number's fate says, with the day the number was drawn for. */
  ghost predicate RowHolds(s: State, id: InvoiceId, k: Number) {
    && k in s.drawn && s.drawn[k] == OnRow(id) && k in s.dates
    && id in s.db.rows && s.db.rows[id].date == s.dates[k]
  }

  ghost predicate RowsHold(s: State) {
    forall id | id in s.db.rows && s.db.rows[id].number.Some? && KeyOf(s.db.rows[id]) in s.drawn ::
      RowHolds(s, id, KeyOf(s.db.rows[id]))
  }

  ghost predicate FlightHolds(s: State, r: Rid, q: Request)
    requires q.IssueUpdate?
  {
    var k := Number(SeriesOf(q), q.n);
    k in s.drawn && s.drawn[k] == Flying(r) && k in s.dates && s.dates[k] == q.day
  }

  ghost predicate FlightsHold(s: State) {
    forall r | r in s.reqs && s.reqs[r].IssueUpdate? :: FlightHolds(s, r, s.reqs[r])
  }

  /** A fate is true of the tables and handlers. */
  ghost predicate FateTrue(s: State, k: Number, f: Fate) {
    match f
    case Flying(r) => r in s.reqs && s.reqs[r].IssueUpdate? && Number(SeriesOf(s.reqs[r]), s.reqs[r].n) == k
    case OnRow(id) => id in s.db.rows && s.db.rows[id].number.Some? && KeyOf(s.db.rows[id]) == k
    case Lost => true
  }

  ghost predicate FatesTrue(s: State) {
    forall k | k in s.drawn :: FateTrue(s, k, s.drawn[k])
  }

  /** What a handler has read stays true enough: the branch of its invoice, and that an issued one is no draft. */
  ghost predicate Knows(db: Db, used: set<InvoiceId>, q: Request) {
    && ((q.IssueLines? || q.IssueClock? || q.IssueDraw? || q.IssueUpdate?) ==>
          q.id in used && (q.id in db.rows ==> db.rows[q.id].branch == q.branch))
    && (q.CancelMark? || (q.CancelPaid? && !q.draft) ==>
          q.id in used && (q.id in db.rows ==> db.rows[q.id].status != Draft))
  }

  ghost predicate AllKnow(s: State) {
    forall r | r in s.reqs :: Knows(s.db, s.used, s.reqs[r])
  }

  ghost predicate Inv(s: State) {
    Counted(s) && RowsSound(s) && RowsHold(s) && FlightsHold(s) && FatesTrue(s) && AllKnow(s)
  }

  lemma InitialInv(s: State)
    requires Initial(s)
    ensures Inv(s)
  {
  }

  /** Statements move rows on only: the branch stays, and no row becomes a draft again. */
  lemma RowsMoveOn(db: Db, q: Request, ok: bool, id: InvoiceId)
    requires id in After(db, q, ok).rows
    ensures id in db.rows && After(db, q, ok).rows[id].branch == db.rows[id].branch
    ensures db.rows[id].status != Draft ==> After(db, q, ok).rows[id].status != Draft
  {
    hide YearOf;
  }

  lemma KnowsNext(db: Db, used: set<InvoiceId>, q: Request, ok: bool)
    requires Knows(db, used, q) && db.rows.Keys <= used
    ensures Knows(db, used, Next(db, q, ok))
  {
    hide YearOf, NextInSeries;
  }

  lemma KnowsLater(db: Db, used: set<InvoiceId>, q: Request, ok: bool, other: Request)
    requires Knows(db, used, other)
    ensures Knows(After(db, q, ok), used, other)
  {
    forall id | id in After(db, q, ok).rows
      ensures id in db.rows && After(db, q, ok).rows[id].branch == db.rows[id].branch
      ensures db.rows[id].status != Draft ==> After(db, q, ok).rows[id].status != Draft
    {
      RowsMoveOn(db, q, ok, id);
    }
    hide After;
  }

  lemma AllKnowKept(s: State, r: Rid, ok: bool)
    requires r in s.reqs && AllKnow(s) && s.db.rows.Keys <= s.used
    ensures AllKnow(Execute(s, r, s.reqs[r], ok))
  {
    hide Knows, After, Next, Fates, Dates;
    var q, s' := s.reqs[r], Execute(s, r, s.reqs[r], ok);
    forall x | x in s'.reqs
      ensures Knows(s'.db, s'.used, s'.reqs[x])
    {
      if x == r {
        KnowsNext(s.db, s.used, q, ok);
        KnowsLater(s.db, s.used, q, ok, Next(s.db, q, ok));
      } else {
        KnowsLater(s.db, s.used, q, ok, s.reqs[x]);
      }
    }
  }

  lemma DrawCounted(s: State, r: Rid, ok: bool)
    requires Counted(s) && r in s.reqs && s.reqs[r].IssueDraw?
    ensures Counted(Execute(s, r, s.reqs[r], ok))
  {
    var q, s' := s.reqs[r], Execute(s, r, s.reqs[r], ok);
    CounterMovesOn(s, s', SeriesOf(q), r, q.day);
    hide Counted, SeriesOf;
  }

  lemma CounterMovesOn(s: State, s': State, k: Series, r: Rid, day: int)
    requires Counted(s) && s'.base == s.base && s'.db.counters == s.db.counters[k := Last(s.db.counters, k) + 1]
    requires s'.drawn == s.drawn[Number(k, Last(s.db.counters, k) + 1) := Flying(r)]
    requires s'.dates == s.dates[Number(k, Last(s.db.counters, k) + 1) := day]
    ensures Counted(s')
  {
    var n := Last(s.db.counters, k) + 1;
    assert forall o: Series :: Last(s'.db.counters, o) == if o == k then n else Last(s.db.counters, o);
    hide Last;
  }

  lemma DrawnIsNew(s: State, k: Series, id: InvoiceId)
    requires RowsSound(s) && id in s.db.rows && s.db.rows[id].number.Some?
    ensures KeyOf(s.db.rows[id]) != Number(k, Last(s.db.counters, k) + 1)
  {
    hide YearOf;
  }

  lemma DrawRows(s: State, r: Rid, ok: bool)
    requires Inv(s) && r in s.reqs && s.reqs[r].IssueDraw?
    ensures RowsSound(Execute(s, r, s.reqs[r], ok)) && RowsHold(Execute(s, r, s.reqs[r], ok))
  {
    var q, s' := s.reqs[r], Execute(s, r, s.reqs[r], ok);
    assert s'.db.rows == s.db.rows && s'.used == s.used;
    assert WithinCounters(s'.db.rows, s'.db.counters) by {
      hide YearOf, Counted, RowsHold, FlightsHold, FatesTrue, AllKnow;
    }
    hide YearOf, Counted, FlightsHold, FatesTrue, AllKnow, NumberedWhenIssued, NumbersDiffer, WithinCounters;
    forall id | id in s'.db.rows && s'.db.rows[id].number.Some? && KeyOf(s'.db.rows[id]) in s'.drawn
      ensures RowHolds(s', id, KeyOf(s'.db.rows[id]))
    {
      DrawnIsNew(s, SeriesOf(q), id);
      assert RowHolds(s, id, KeyOf(s.db.rows[id]));
    }
  }

  lemma DrawFlights(s: State, r: Rid, ok: bool)
    requires Inv(s) && r in s.reqs && s.reqs[r].IssueDraw?
    ensures FlightsHold(Execute(s, r, s.reqs[r], ok)) && FatesTrue(Execute(s, r, s.reqs[r], ok))
  {
    var q, s' := s.reqs[r], Execute(s, r, s.reqs[r], ok);
    hide YearOf, RowsHold, AllKnow, RowsSound;
    var k := Number(SeriesOf(q), Last(s.db.counters, SeriesOf(q)) + 1);
    assert k !in s.drawn;
    hide Counted;
    forall x | x in s'.reqs && s'.reqs[x].IssueUpdate?
      ensures FlightHolds(s', x, s'.reqs[x])
    {
      if x != r {
        assert FlightHolds(s, x, s.reqs[x]);
      }
    }
    forall o | o in s'.drawn
      ensures FateTrue(s', o, s'.drawn[o])
    {
      if o != k {
        assert FateTrue(s, o, s.drawn[o]);
      }
    }
  }

  /** A new number: one beyond the counter, in flight with its handler. */
  lemma DrawKeeps(s: State, r: Rid, ok: bool)
    requires Inv(s) && r in s.reqs && s.reqs[r].IssueDraw?
    ensures Inv(Execute(s, r, s.reqs[r], ok))
  {
    AllKnowKept(s, r, ok);
    DrawCounted(s, r, ok);
    DrawRows(s, r, ok);
    DrawFlights(s, r, ok);
    hide Execute, Counted, RowsSound, RowsHold, FlightsHold, FatesTrue, AllKnow;
  }

  /** Some number's fate changes, and the one handler that may have had it in flight moves on. */
  lemma FlightsAfter(s: State, s': State, r: Rid, k: Number, f: Fate)
    requires Inv(s) && r in s.reqs && k in s.drawn
    requires s.drawn[k] == Flying(r) || !s.drawn[k].Flying?
    requires r in s'.reqs && s'.reqs == s.reqs[r := s'.reqs[r]] && s'.reqs[r].Done?
    requires s'.drawn == s.drawn[k := f] && s'.dates == s.dates
    ensures FlightsHold(s')
  {
    hide YearOf, RowsHold, AllKnow, RowsSound, Counted;
    forall x | x in s'.reqs && s'.reqs[x].IssueUpdate?
      ensures FlightHolds(s', x, s'.reqs[x])
    {
      assert FlightHolds(s, x, s.reqs[x]);
    }
  }

  /** The guarded update finds a draft: the number lands on its row. */
  lemma LandRows(s: State, r: Rid, ok: bool)
    requires Inv(s) && r in s.reqs && s.reqs[r].IssueUpdate? && IsDraft(s.db, s.reqs[r].id)
    ensures RowsSound(Execute(s, r, s.reqs[r], ok))
  {
    var q, s' := s.reqs[r], Execute(s, r, s.reqs[r], ok);
    var k := Number(SeriesOf(q), q.n);
    assert FlightHolds(s, r, q) && Knows(s.db, s.used, q);
    hide YearOf, AllKnow, FlightsHold;
    forall id | id in s.db.rows && s.db.rows[id].number.Some?
      ensures KeyOf(s.db.rows[id]) != k
    {
      assert KeyOf(s.db.rows[id]) in s.drawn ==> RowHolds(s, id, KeyOf(s.db.rows[id]));
    }
    LandOnDraft(s.db.rows, q.id, k, q.day, s.db.counters);
    hide RowsHold, FatesTrue, NumbersDiffer, NumberedWhenIssued, WithinCounters;
  }

  lemma LandOnDraft(rows: map<InvoiceId, Invoice>, id: InvoiceId, k: Number, day: int, counters: map<Series, nat>)
    requires NumberedWhenIssued(rows) && NumbersDiffer(rows) && WithinCounters(rows, counters)
    requires id in rows && k.series == Series(rows[id].branch, YearOf(day)) && k.n <= Last(counters, k.series)
    requires forall o | o in rows && rows[o].number.Some? :: KeyOf(rows[o]) != k
    ensures var now := rows[id := IssuedRow(rows[id], day, k.n)];
            NumberedWhenIssued(now) && NumbersDiffer(now) && WithinCounters(now, counters)
  {
    hide YearOf;
    assert KeyOf(IssuedRow(rows[id], day, k.n)) == k;
  }

  lemma LandHolds(s: State, r: Rid, ok: bool)
    requires Inv(s) && r in s.reqs && s.reqs[r].IssueUpdate? && IsDraft(s.db, s.reqs[r].id)
    ensures RowsHold(Execute(s, r, s.reqs[r], ok)) && FatesTrue(Execute(s, r, s.reqs[r], ok))
  {
    var q, s' := s.reqs[r], Execute(s, r, s.reqs[r], ok);
    var k := Number(SeriesOf(q), q.n);
    assert FlightHolds(s, r, q) && Knows(s.db, s.used, q);
    hide YearOf, AllKnow, Counted;
    assert KeyOf(s'.db.rows[q.id]) == k;
    forall id | id in s'.db.rows && s'.db.rows[id].number.Some? && KeyOf(s'.db.rows[id]) in s'.drawn
      ensures RowHolds(s', id, KeyOf(s'.db.rows[id]))
    {
      if id != q.id {
        assert RowHolds(s, id, KeyOf(s.db.rows[id]));
      }
    }
    forall o | o in s'.drawn
      ensures FateTrue(s', o, s'.drawn[o])
    {
      if o != k {
        assert FateTrue(s, o, s.drawn[o]);
      }
    }
  }

  lemma UpdateKeeps(s: State, r: Rid, ok: bool)
    requires Inv(s) && r in s.reqs && s.reqs[r].IssueUpdate?
    ensures Inv(Execute(s, r, s.reqs[r], ok))
  {
    var q := s.reqs[r];
    AllKnowKept(s, r, ok);
    assert FlightHolds(s, r, q);
    var fate := if IsDraft(s.db, q.id) then OnRow(q.id) else Lost;
    FlightsAfter(s, Execute(s, r, q, ok), r, Number(SeriesOf(q), q.n), fate);
    assert Counted(Execute(s, r, q, ok)) by {
      hide YearOf, RowsSound, RowsHold, FlightsHold, FatesTrue, AllKnow;
    }
    if IsDraft(s.db, q.id) {
      LandRows(s, r, ok);
      LandHolds(s, r, ok);
    } else {
      LoseKeeps(s, Execute(s, r, q, ok), r, Number(SeriesOf(q), q.n));
    }
    hide Execute, Counted, RowsSound, RowsHold, FlightsHold, FatesTrue, AllKnow;
  }

  /** A number in flight is lost, and no row changes. */
  lemma LoseKeeps(s: State, s': State, r: Rid, k: Number)
    requires Inv(s) && r in s.reqs && k in s.drawn && s.drawn[k] == Flying(r)
    requires r in s'.reqs && s' == State(s.db, s.reqs[r := s'.reqs[r]], s.base, s.used, s.drawn[k := Lost], s.dates)
    ensures RowsSound(s') && RowsHold(s') && FatesTrue(s')
  {
    hide YearOf, AllKnow, Counted, FlightsHold;
    forall id | id in s'.db.rows && s'.db.rows[id].number.Some? && KeyOf(s'.db.rows[id]) in s'.drawn
      ensures RowHolds(s', id, KeyOf(s'.db.rows[id]))
    {
      assert RowHolds(s, id, KeyOf(s.db.rows[id]));
    }
    forall o | o in s'.drawn
      ensures FateTrue(s', o, s'.drawn[o])
    {
      assert FateTrue(s, o, s.drawn[o]);
    }
  }

  /** The unguarded delete: a numbered row it takes away loses its number. */
  lemma DeleteRows(s: State, r: Rid)
    requires Inv(s) && r in s.reqs && s.reqs[r].CancelDelete?
    ensures var s' := Execute(s, r, s.reqs[r], true);
            RowsSound(s') && RowsHold(s')
  {
    var q, s' := s.reqs[r], Execute(s, r, s.reqs[r], true);
    hide YearOf, AllKnow, Counted, FlightsHold, FatesTrue;
    assert s'.db.rows == s.db.rows - {q.id};
    assert RowsSound(s') by {
      hide RowsHold;
    }
    forall id | id in s'.db.rows && s'.db.rows[id].number.Some? && KeyOf(s'.db.rows[id]) in s'.drawn
      ensures RowHolds(s', id, KeyOf(s'.db.rows[id]))
    {
      assert RowHolds(s, id, KeyOf(s.db.rows[id]));
      assert q.id in s.db.rows && s.db.rows[q.id].number.Some? ==> KeyOf(s.db.rows[q.id]) != KeyOf(s.db.rows[id]);
    }
    hide RowsSound;
  }

  lemma DeleteFates(s: State, r: Rid)
    requires Inv(s) && r in s.reqs && s.reqs[r].CancelDelete?
    ensures FatesTrue(Execute(s, r, s.reqs[r], true))
  {
    var q, s' := s.reqs[r], Execute(s, r, s.reqs[r], true);
    hide YearOf, AllKnow, Counted, FlightsHold, RowsSound, RowsHold;
    assert s'.db.rows == s.db.rows - {q.id};
    assert !q.IssueUpdate? && !s'.reqs[r].IssueUpdate?;
    hide Next, Dates;
    forall o | o in s'.drawn
      ensures FateTrue(s', o, s'.drawn[o])
    {
      assert FateTrue(s, o, s.drawn[o]);
    }
  }

  lemma DeleteFlights(s: State, r: Rid)
    requires Inv(s) && r in s.reqs && s.reqs[r].CancelDelete?
    ensures var s' := Execute(s, r, s.reqs[r], true);
            FlightsHold(s') && Counted(s')
  {
    var q, s' := s.reqs[r], Execute(s, r, s.reqs[r], true);
    assert Counted(s') by {
      hide YearOf, RowsSound, RowsHold, FlightsHold, FatesTrue, AllKnow;
    }
    hide YearOf, RowsSound, Counted, FatesTrue, AllKnow;
    assert q.id in s.db.rows && s.db.rows[q.id].number.Some? && KeyOf(s.db.rows[q.id]) in s.drawn
      ==> RowHolds(s, q.id, KeyOf(s.db.rows[q.id]));
    forall x | x in s'.reqs && s'.reqs[x].IssueUpdate?
      ensures FlightHolds(s', x, s'.reqs[x])
    {
      assert FlightHolds(s, x, s.reqs[x]);
    }
  }

  lemma DeleteKeeps(s: State, r: Rid)
    requires Inv(s) && r in s.reqs && s.reqs[r].CancelDelete?
    ensures Inv(Execute(s, r, s.reqs[r], true))
  {
    AllKnowKept(s, r, true);
    DeleteRows(s, r);
    DeleteFates(s, r);
    DeleteFlights(s, r);
    hide Execute, Counted, RowsSound, RowsHold, FlightsHold, FatesTrue, AllKnow;
  }

  /**
    Rows keep their numbers, years, branches and dates; the fates do not change, and no handler gains or loses
    a number.
   */
  lemma SameNumbers(s: State, s': State)
    requires Inv(s)
    requires s' == State(s'.db, s'.reqs, s.base, s'.used, s.drawn, s.dates)
    requires s'.db.counters == s.db.counters && s.used <= s'.used && s'.db.rows.Keys <= s'.used
    requires forall id | id in s.db.rows ::
      id in s'.db.rows && s'.db.rows[id] == s.db.rows[id].(status := s'.db.rows[id].status)
    requires forall id | id in s'.db.rows && s'.db.rows[id].number.Some? :: id in s.db.rows
    requires forall r | r in s'.reqs && s'.reqs[r].IssueUpdate? :: r in s.reqs && s'.reqs[r] == s.reqs[r]
    requires forall r | r in s.reqs && s.reqs[r].IssueUpdate? :: r in s'.reqs && s'.reqs[r] == s.reqs[r]
    requires NumberedWhenIssued(s'.db.rows)
    ensures RowsSound(s') && RowsHold(s') && FlightsHold(s') && FatesTrue(s') && Counted(s')
  {
    hide YearOf, AllKnow, NumberedWhenIssued;
    assert Counted(s') by {
      hide RowsSound, RowsHold, FlightsHold, FatesTrue;
    }
    hide Counted;
    forall id | id in s'.db.rows && s'.db.rows[id].number.Some?
      ensures id in s.db.rows && s.db.rows[id].number.Some? && KeyOf(s'.db.rows[id]) == KeyOf(s.db.rows[id])
      ensures KeyOf(s.db.rows[id]) in s.drawn ==> RowHolds(s', id, KeyOf(s'.db.rows[id]))
    {
      assert KeyOf(s.db.rows[id]) in s.drawn ==> RowHolds(s, id, KeyOf(s.db.rows[id]));
    }
    assert RowsSound(s') by {
      hide RowsHold, FlightsHold, FatesTrue;
    }
    hide RowsSound;
    forall x | x in s'.reqs && s'.reqs[x].IssueUpdate?
      ensures FlightHolds(s', x, s'.reqs[x])
    {
      assert FlightHolds(s, x, s.reqs[x]);
    }
    forall o | o in s'.drawn
      ensures FateTrue(s', o, s'.drawn[o])
    {
      assert FateTrue(s, o, s.drawn[o]);
    }
  }

  lemma OtherKeeps(s: State, r: Rid, ok: bool)
    requires Inv(s) && r in s.reqs && !s.reqs[r].IssueDraw? && !s.reqs[r].IssueUpdate?
    requires !(s.reqs[r].CancelDelete? && ok)
    ensures Inv(Execute(s, r, s.reqs[r], ok))
  {
    var q, s' := s.reqs[r], Execute(s, r, s.reqs[r], ok);
    AllKnowKept(s, r, ok);
    assert Knows(s.db, s.used, q);
    assert NumberedWhenIssued(s'.db.rows) by {
      hide YearOf, Counted, RowsHold, FlightsHold, FatesTrue, AllKnow;
    }
    assert !s'.reqs[r].IssueUpdate? by {
      hide Inv;
    }
    assert s'.db.rows.Keys == s.db.rows.Keys;
    SameNumbers(s, s');
    hide Execute, Counted, RowsSound, RowsHold, FlightsHold, FatesTrue, AllKnow;
  }

  lemma DraftsUnnumbered(s: State)
    requires Inv(s)
    ensures NumberedWhenIssued(s.db.rows) && s.db.rows.Keys <= s.used
  {
  }

  lemma CutKnows(s: State, r: Rid)
    requires AllKnow(s) && r in s.reqs
    ensures AllKnow(Cut(s, r, s.reqs[r]))
  {
    hide YearOf;
  }

  lemma CutFlightKeeps(s: State, r: Rid)
    requires Inv(s) && r in s.reqs && s.reqs[r].IssueUpdate?
    ensures Inv(Cut(s, r, s.reqs[r]))
  {
    var q, s' := s.reqs[r], Cut(s, r, s.reqs[r]);
    CutKnows(s, r);
    var k := Number(SeriesOf(q), q.n);
    assert FlightHolds(s, r, q);
    assert Counted(s') by {
      hide YearOf, RowsSound, RowsHold, FlightsHold, FatesTrue, AllKnow;
    }
    hide YearOf, Counted, RowsSound, RowsHold, FlightsHold, FatesTrue, AllKnow;
    LoseKeeps(s, s', r, k);
    FlightsAfter(s, s', r, k, Lost);
  }

  lemma CutKeeps(s: State, r: Rid)
    requires Inv(s) && r in s.reqs && !s.reqs[r].Done?
    ensures Inv(Cut(s, r, s.reqs[r]))
  {
    if s.reqs[r].IssueUpdate? {
      CutFlightKeeps(s, r);
    } else {
      CutKnows(s, r);
      DraftsUnnumbered(s);
      hide YearOf, Counted, RowsSound, RowsHold, FlightsHold, FatesTrue, AllKnow, NumberedWhenIssued;
      SameNumbers(s, Cut(s, r, s.reqs[r]));
    }
  }

  lemma DraftKeeps(s: State, id: InvoiceId, b: BranchId)
    requires Inv(s) && id !in s.used
    ensures Inv(Drafted(s, id, b))
  {
    var s' := Drafted(s, id, b);
    assert AllKnow(s') by {
      hide YearOf, Counted, RowsHold, FlightsHold, FatesTrue;
      forall r | r in s'.reqs
        ensures Knows(s'.db, s'.used, s'.reqs[r])
      {
        assert Knows(s.db, s.used, s.reqs[r]);
      }
    }
    assert NumberedWhenIssued(s'.db.rows) && id !in s.db.rows by {
      hide YearOf, Counted, RowsHold, FlightsHold, FatesTrue, AllKnow;
    }
    assert s'.db.rows.Keys <= s'.used by {
      hide YearOf, Counted, RowsHold, FlightsHold, FatesTrue, AllKnow;
    }
    SameNumbers(s, s');
    hide Drafted, Counted, RowsSound, RowsHold, FlightsHold, FatesTrue, AllKnow;
  }

  lemma ExecuteKeeps(s: State, r: Rid, ok: bool)
    requires Inv(s) && r in s.reqs
    ensures Inv(Execute(s, r, s.reqs[r], ok))
  {
    hide Inv, Execute;
    if s.reqs[r].IssueDraw? {
      DrawKeeps(s, r, ok);
    } else if s.reqs[r].IssueUpdate? {
      UpdateKeeps(s, r, ok);
    } else if s.reqs[r].CancelDelete? && ok {
      DeleteKeeps(s, r);
    } else {
      OtherKeeps(s, r, ok);
    }
  }

  lemma StartOrTickKnows(s: State, e: Event)
    requires AllKnow(s) && (e.Start? || e.Tick?)
    ensures AllKnow(Apply(s, e))
  {
    hide YearOf;
  }

  lemma StartOrTickKeeps(s: State, e: Event)
    requires Inv(s) && (e.Start? || e.Tick?)
    ensures Inv(Apply(s, e))
  {
    StartOrTickKnows(s, e);
    DraftsUnnumbered(s);
    hide YearOf, Counted, RowsSound, RowsHold, FlightsHold, FatesTrue, AllKnow, NumberedWhenIssued, Execute, Cut;
    SameNumbers(s, Apply(s, e));
  }

  lemma ApplyKeeps(s: State, e: Event)
    requires Inv(s)
    ensures Inv(Apply(s, e))
  {
    hide Inv, Execute, Cut, Drafted;
    match e
    case Start(_, _) => StartOrTickKeeps(s, e);
    case Tick(_) => StartOrTickKeeps(s, e);
    case Step(r, ok) =>
      if r in s.reqs {
        ExecuteKeeps(s, r, ok);
      }
    case CutOff(r) =>
      if r in s.reqs && !s.reqs[r].Done? {
        CutKeeps(s, r);
      }
    case CreateDraft(id, b) =>
      if id !in s.used {
        DraftKeeps(s, id, b);
      }
  }

  lemma BaseStays(s: State, e: Event)
    ensures Apply(s, e).base == s.base
  {
    hide After, Next, Fates, Dates;
  }

  lemma {:induction false} RunKeeps(s: State, es: seq<Event>)
    requires Initial(s)
    ensures Inv(Run(s, es)) && Run(s, es).base == s.db.counters
  {
    if es == [] {
      InitialInv(s);
    } else {
      hide Inv, Initial, Apply;
      RunKeeps(s, es[..|es| - 1]);
      ApplyKeeps(Run(s, es[..|es| - 1]), es[|es| - 1]);
      BaseStays(Run(s, es[..|es| - 1]), es[|es| - 1]);
    }
    assert Initial(s) ==> s.base == s.db.counters;
  }

  /** The row carries this number. */
  predicate OnRowNow(db: Db, id: InvoiceId, k: Number) {
    id in db.rows && db.rows[id].number.Some? && KeyOf(db.rows[id]) == k
  }

  /** The handler has drawn this number and not yet tried to write it. */
  predicate InFlight(s: State, r: Rid, k: Number) {
    r in s.reqs && s.reqs[r].IssueUpdate? && Number(SeriesOf(s.reqs[r]), s.reqs[r].n) == k
  }

  /**
    In every run, the numbers a series has given out since the start are exactly those from where its
    counter stood to where it stands, and each is in exactly one place: on one row, in flight with one
    handler, or lost.
   */
  lemma EveryNumberAccountedFor(s: State, es: seq<Event>, k: Number)
    requires Initial(s)
    ensures var now := Run(s, es);
            && (k in now.drawn <==> Last(s.db.counters, k.series) < k.n <= Last(now.db.counters, k.series))
            && (k in now.drawn ==> match now.drawn[k]
                  case OnRow(id) => OnRowNow(now.db, id, k)
                  case Flying(r) => InFlight(now, r, k)
                  case Lost => true)
            && (forall id | OnRowNow(now.db, id, k) && k in now.drawn :: now.drawn[k] == OnRow(id))
            && (forall r | InFlight(now, r, k) :: k in now.drawn && now.drawn[k] == Flying(r))
  {
    RunKeeps(s, es);
    var now := Run(s, es);
    hide Run, Initial, YearOf;
    assert k in now.drawn ==> FateTrue(now, k, now.drawn[k]);
    forall id | OnRowNow(now.db, id, k) && k in now.drawn
      ensures now.drawn[k] == OnRow(id)
    {
      assert RowHolds(now, id, k);
    }
    forall r | InFlight(now, r, k)
      ensures k in now.drawn && now.drawn[k] == Flying(r)
    {
      assert FlightHolds(now, r, now.reqs[r]);
    }
  }

  /** In every run the table's own rules hold: drafts and only drafts are unnumbered, and no two rows share a number. */
  lemma RegisterIsSound(s: State, es: seq<Event>)
    requires Initial(s)
    ensures var rows := Run(s, es).db.rows;
            NumberedWhenIssued(rows) && NumbersDiffer(rows) && WithinCounters(rows, Run(s, es).db.counters)
  {
    RunKeeps(s, es);
    hide Run, Initial;
  }

  /** A run of some events and then others. */
  lemma {:induction false} RunConcat(s: State, a: seq<Event>, b: seq<Event>)
    ensures Run(s, a + b) == Run(Run(s, a), b)
  {
    hide Apply;
    if b == [] {
      assert a + b == a;
    } else {
      assert (a + b)[..|a + b| - 1] == a + b[..|b| - 1];
      RunConcat(s, a, b[..|b| - 1]);
    }
  }

  lemma RunOne(s: State, e: Event)
    ensures Run(s, [e]) == Apply(s, e)
  {
    assert [e][..0] == [] && Run(s, []) == s;
  }

  /** Either gone for good, or still there with the number, series and date it had. */
  ghost predicate GoneOrSame(s: State, id: InvoiceId, row: Invoice) {
    && id in s.used
    && (id in s.db.rows ==> s.db.rows[id] == row.(status := s.db.rows[id].status))
    && (id in s.db.rows && row.status == Cancelled ==> s.db.rows[id].status == Cancelled)
  }

  lemma NumberStaysOneStep(s: State, e: Event, id: InvoiceId, row: Invoice)
    requires Inv(s) && GoneOrSame(s, id, row) && row.number.Some?
    ensures GoneOrSame(Apply(s, e), id, row)
  {
    hide YearOf, Counted, RowsHold, FlightsHold, FatesTrue, AllKnow, Next, Fates, Dates;
  }

  /** A number once on a row stays on it, with its series and date, through any run, unless the row is deleted. */
  lemma {:induction false} NumberStays(s: State, past: seq<Event>, es: seq<Event>, id: InvoiceId)
    requires Initial(s) && id in Run(s, past).db.rows && Run(s, past).db.rows[id].number.Some?
    ensures Inv(Run(Run(s, past), es))
    ensures GoneOrSame(Run(Run(s, past), es), id, Run(s, past).db.rows[id])
  {
    RunKeeps(s, past);
    if es == [] {
    } else {
      hide Inv, GoneOrSame, Initial, Apply;
      var rest := es[..|es| - 1];
      NumberStays(s, past, rest, id);
      ApplyKeeps(Run(Run(s, past), rest), es[|es| - 1]);
      NumberStaysOneStep(Run(Run(s, past), rest), es[|es| - 1], id, Run(s, past).db.rows[id]);
    }
  }
}
