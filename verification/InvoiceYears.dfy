/** The financial years of the invoice series: in every run a number belongs to the April to March of its day. */
module InvoiceYears {
  import opened Wrappers
  import opened Calendar
  import opened Numbering
  import opened InvoiceProtocol
  import opened InvoiceSafety
  import opened InvoiceOrder
  import Desk = InvoiceDesk

  /** The day lies between 1 April of the year and the next 31 March. */
  predicate DayOfYear(day: int, year: int) {
    ToDay(Date(year, 4, 1)) <= day < ToDay(Date(year + 1, 4, 1))
  }

  lemma YearOfDay(day: int)
    ensures DayOfYear(day, YearOf(day))
  {
    hide FromDay, FinancialYear, ToDay, Valid;
    FinancialYearIsAprilToMarch(FromDay(day), YearOf(day));
  }

  /** The row is as it was at the start, save its status, or its date lies in its year. */
  ghost predicate OldOrInYear(old_: map<InvoiceId, Invoice>, id: InvoiceId, row: Invoice) {
    (id in old_ && row == old_[id].(status := row.status)) || DayOfYear(row.date, row.year)
  }

  ghost predicate InYears(old_: map<InvoiceId, Invoice>, s: State) {
    && (forall id | id in s.db.rows :: OldOrInYear(old_, id, s.db.rows[id]))
    && (forall k | k in s.dates :: DayOfYear(s.dates[k], k.series.year))
  }

  lemma RowsInYears(old_: map<InvoiceId, Invoice>, s: State, q: Request, ok: bool)
    requires InYears(old_, s)
    ensures forall id | id in After(s.db, q, ok).rows :: OldOrInYear(old_, id, After(s.db, q, ok).rows[id])
  {
    if q.IssueUpdate? {
      YearOfDay(q.day);
    }
    hide YearOf, DayOfYear;
  }

  lemma InYearsStep(old_: map<InvoiceId, Invoice>, s: State, e: Event)
    requires InYears(old_, s)
    ensures InYears(old_, Apply(s, e))
  {
    YearOfDay(s.db.today);
    if e.Step? && e.r in s.reqs {
      var q := s.reqs[e.r];
      if q.IssueDraw? {
        YearOfDay(q.day);
      }
      RowsInYears(old_, s, q, e.ok);
      hide YearOf, DayOfYear, After, Next, Fates, OldOrInYear;
    } else {
      hide YearOf, DayOfYear, Execute;
    }
  }

  lemma {:induction false} RunInYears(s: State, es: seq<Event>)
    requires Initial(s)
    ensures InYears(s.db.rows, Run(s, es))
  {
    if es != [] {
      hide InYears, Apply, Initial;
      RunInYears(s, es[..|es| - 1]);
      InYearsStep(s.db.rows, Run(s, es[..|es| - 1]), es[|es| - 1]);
    }
  }

  /**
    In every run each number drawn is one of the series whose financial year, 1 April to 31 March, holds the day it
    was drawn for; and every row drafted in the run, or numbered in it, is dated in its own financial year.
   */
  lemma NumbersBelongToTheirYear(s: State, es: seq<Event>)
    requires Initial(s)
    ensures var now := Run(s, es);
            && (forall k | k in now.drawn :: k in now.dates && DayOfYear(now.dates[k], k.series.year))
            && (forall id | id in now.db.rows && (id !in s.db.rows || NumberedSince(now, id)) ::
                  DayOfYear(now.db.rows[id].date, now.db.rows[id].year))
  {
    RunInYears(s, es);
    RunKeeps(s, es);
    var now := Run(s, es);
    hide Run, DayOfYear, Initial, YearOf;
    forall id | id in now.db.rows && (id !in s.db.rows || NumberedSince(now, id))
      ensures DayOfYear(now.db.rows[id].date, now.db.rows[id].year)
    {
      if NumberedSince(now, id) {
        assert RowHolds(now, id, KeyOf(now.db.rows[id]));
      }
    }
  }

  /** A new draft has no number, and the date and financial year of the day it is made. */
  lemma DraftIsAdded(s: State, id: InvoiceId, branch: BranchId, year: int)
    requires id !in s.used && DayOfYear(s.db.today, year)
    ensures var after := Apply(s, CreateDraft(id, branch));
            && after.db == s.db.(rows := s.db.rows[id := Invoice(branch, Draft, None, year, s.db.today)])
            && after.used == s.used + {id} && after.reqs == s.reqs && after.drawn == s.drawn
  {
    OnlyYearOfDay(s.db.today, year);
    hide YearOf, DayOfYear;
  }

  lemma OnlyYearOfDay(day: int, year: int)
    requires DayOfYear(day, year)
    ensures YearOf(day) == year
  {
    hide FromDay, FinancialYear, ToDay, Valid;
    FinancialYearIsAprilToMarch(FromDay(day), year);
  }

  /**
    An issue that nobody interrupts: exactly a draft with lines is issued, dated today, under the number after the
    last one of the branch in the financial year of today.
   */
  lemma IssueAnswers(db: Db, id: InvoiceId, hasLines: bool, year: int)
    requires DayOfYear(db.today, year)
    ensures Desk.Alone(db, IssueRead(id), hasLines)
         == if id !in db.rows then (db, NotFound)
            else if db.rows[id].status != Draft || !hasLines then (db, Refused)
            else
              var k := Series(db.rows[id].branch, year);
              var n := if k in db.counters then db.counters[k] + 1 else 1;
              var row := Invoice(k.branch, Issued, Some(n), year, db.today);
              (Db(db.rows[id := row], db.counters[k := n], db.today), IssuedAs(n))
  {
    hide YearOf, Desk.Alone;
    OneStatement(db, IssueRead(id), hasLines);
    if id in db.rows && db.rows[id].status == Draft {
      var b := db.rows[id].branch;
      OneStatement(db, IssueLines(id, b), hasLines);
      if hasLines {
        OneStatement(db, IssueClock(id, b), hasLines);
        NumberAndWrite(db, id, db.today, year);
      } else {
        Finished(db, Refused, hasLines);
      }
    } else {
      Finished(db, if id in db.rows then Refused else NotFound, hasLines);
    }
  }

  lemma OneStatement(db: Db, q: Request, ok: bool)
    requires !q.Done?
    ensures Desk.Alone(db, q, ok) == Desk.Alone(After(db, q, ok), Next(db, q, ok), ok)
  {
    hide After, Next;
  }

  lemma Finished(db: Db, reply: Reply, ok: bool)
    ensures Desk.Alone(db, Done(reply), ok) == (db, reply)
  {
  }

  lemma NumberAndWrite(db: Db, id: InvoiceId, day: int, year: int)
    requires IsDraft(db, id) && DayOfYear(day, year)
    ensures var k := Series(db.rows[id].branch, year);
            var n := if k in db.counters then db.counters[k] + 1 else 1;
            Desk.Alone(db, IssueDraw(id, k.branch, day), true)
            == (Db(db.rows[id := Invoice(k.branch, Issued, Some(n), year, day)], db.counters[k := n], db.today),
                IssuedAs(n))
  {
    OnlyYearOfDay(day, year);
    hide YearOf, DayOfYear, Desk.Alone;
    var b := db.rows[id].branch;
    var (drawn, n) := NextInSeries(db, Series(b, year));
    OneStatement(db, IssueDraw(id, b, day), true);
    OneStatement(drawn, IssueUpdate(id, b, day, n), true);
    Finished(After(drawn, IssueUpdate(id, b, day, n), true), IssuedAs(n), true);
  }

  /**
    A cancel that nobody interrupts is refused for a cancelled invoice and while something stands against it;
    otherwise a draft goes and an issued invoice stays, cancelled, under its number.
   */
  lemma CancelAnswers(db: Db, id: InvoiceId, clear: bool)
    ensures Desk.Alone(db, CancelRead(id), clear)
         == if id !in db.rows then (db, NotFound)
            else if db.rows[id].status == Cancelled || !clear then (db, Refused)
            else if db.rows[id].status == Draft then (db.(rows := db.rows - {id}), Discarded)
            else (db.(rows := db.rows[id := db.rows[id].(status := Cancelled)]), CancelledNow)
  {
    hide YearOf, Desk.Alone;
    OneStatement(db, CancelRead(id), clear);
    if id in db.rows && db.rows[id].status != Cancelled {
      var draft := db.rows[id].status == Draft;
      OneStatement(db, CancelPaid(id, draft), clear);
      if clear {
        var q := if draft then CancelDelete(id) else CancelMark(id);
        OneStatement(db, q, true);
        Finished(After(db, q, true), if draft then Discarded else CancelledNow, true);
      } else {
        Finished(db, Refused, clear);
      }
    } else {
      Finished(db, if id in db.rows then Refused else NotFound, clear);
    }
  }
}
