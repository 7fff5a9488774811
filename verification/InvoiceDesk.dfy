/** The invoice handlers as they run, over the tables; each alone is a run of the protocol. */
module InvoiceDesk {
  import opened Wrappers
  import opened Calendar
  import opened Numbering
  import opened InvoiceProtocol
  import opened InvoiceSafety

  function Left(q: Request): nat {
    match q
    case IssueRead(_) => 5
    case IssueLines(_, _) => 4
    case IssueClock(_, _) => 3
    case IssueDraw(_, _, _) => 2
    case IssueUpdate(_, _, _, _) => 1
    case CancelRead(_) => 3
    case CancelPaid(_, _) => 2
    case CancelDelete(_) => 1
    case CancelMark(_) => 1
    case Done(_) => 0
  }

  /** A handler with nobody in between. */
  function Alone(db: Db, q: Request, ok: bool): (Db, Reply)
    decreases Left(q)
  {
    if q.Done? then (db, q.reply)
    else
      NextIsLess(db, q, ok);
      Alone(After(db, q, ok), Next(db, q, ok), ok)
  }

  lemma NextIsLess(db: Db, q: Request, ok: bool)
    requires !q.Done?
    ensures Left(Next(db, q, ok)) < Left(q)
  {
    hide YearOf, NextInSeries;
  }

  /** The statements a handler executes alone, as events. */
  function StepsAlone(db: Db, r: Rid, q: Request, ok: bool): seq<Event>
    decreases Left(q)
  {
    if q.Done? then []
    else
      NextIsLess(db, q, ok);
      [Step(r, ok)] + StepsAlone(After(db, q, ok), r, Next(db, q, ok), ok)
  }

  /** A handler alone is one run of the protocol. */
  lemma {:induction false} AloneIsARun(s: State, r: Rid, q: Request, ok: bool)
    requires r in s.reqs && s.reqs[r] == q
    ensures var now := Run(s, StepsAlone(s.db, r, q, ok));
            && now.db == Alone(s.db, q, ok).0
            && r in now.reqs && now.reqs[r] == Done(Alone(s.db, q, ok).1)
    decreases Left(q)
  {
    if !q.Done? {
      hide After, Next, Fates, Dates;
      NextIsLess(s.db, q, ok);
      var s' := Apply(s, Step(r, ok));
      AloneIsARun(s', r, Next(s.db, q, ok), ok);
      RunConcat(s, [Step(r, ok)], StepsAlone(s'.db, r, Next(s.db, q, ok), ok));
      RunOne(s, Step(r, ok));
    }
  }

  class InvoiceDesk {
    var rows: map<InvoiceId, Invoice>
    var counters: map<Series, nat>
    var today: int

    ghost function Tables(): Db
      reads this
    {
      Db(rows, counters, today)
    }

    /** `next_in_series`. */
    method TakeNumber(k: Series) returns (n: nat)
      modifies `counters
      ensures (Tables(), n) == NextInSeries(old(Tables()), k)
    {
      n := if k in counters then counters[k] + 1 else 1;
      counters := counters[k := n];
    }

    method RaiseDraft(id: InvoiceId, branch: BranchId)
      requires id !in rows
      modifies `rows
      ensures Tables() == old(Tables()).(rows := old(rows)[id := Invoice(branch, Draft, None, YearOf(today), today)])
      ensures NumberedWhenIssued(old(rows)) ==> NumberedWhenIssued(rows)
    {
      rows := rows[id := Invoice(branch, Draft, None, FinancialYear(FromDay(today)), today)];
    }

    method Issue(id: InvoiceId, hasLines: bool) returns (reply: Reply)
      modifies `rows, `counters
      ensures (Tables(), reply) == Alone(old(Tables()), IssueRead(id), hasLines)
      ensures reply.IssuedAs? <==> IsDraft(old(Tables()), id) && hasLines
      ensures !reply.IssuedAs? ==> Tables() == old(Tables())
    {
      hide YearOf;
      if id !in rows {
        return NotFound;
      }
      var invoice := rows[id];
      if invoice.status != Draft || !hasLines {
        assert Alone(Tables(), IssueLines(id, invoice.branch), false) == (Tables(), Refused);
        return Refused;
      }
      var day := today;
      var k := Series(invoice.branch, YearOf(day));
      ghost var db := Tables();
      assert Alone(db, IssueRead(id), true) == Alone(db, IssueLines(id, invoice.branch), true)
          == Alone(db, IssueClock(id, invoice.branch), true) == Alone(db, IssueDraw(id, invoice.branch, day), true);
      var n := TakeNumber(k);
      ghost var drawn := Tables();
      assert Alone(db, IssueDraw(id, invoice.branch, day), true)
          == Alone(drawn, IssueUpdate(id, invoice.branch, day, n), true);
      assert Alone(drawn, IssueUpdate(id, invoice.branch, day, n), true)
          == (After(drawn, IssueUpdate(id, invoice.branch, day, n), true), IssuedAs(n));
      if rows[id].status == Draft {
        rows := rows[id := rows[id].(status := Issued, number := Some(n), year := YearOf(day), date := day)];
      }
      return IssuedAs(n);
    }

    /** `clear` says that no payment is recorded and nothing else refers to the row. */
    method Cancel(id: InvoiceId, clear: bool) returns (reply: Reply)
      modifies `rows
      ensures (Tables(), reply) == Alone(old(Tables()), CancelRead(id), clear)
      ensures counters == old(counters)
      ensures reply.Discarded? ==> rows == old(rows) - {id} && old(IsDraft(Tables(), id))
      ensures reply.CancelledNow? ==> id in old(rows) && rows == old(rows)[id := old(rows)[id].(status := Cancelled)]
    {
      if id !in rows {
        return NotFound;
      }
      var invoice := rows[id];
      if invoice.status == Cancelled {
        return Refused;
      }
      ghost var db := Tables();
      assert Alone(db, CancelRead(id), clear) == Alone(db, CancelPaid(id, invoice.status == Draft), clear);
      if !clear {
        return Refused;
      }
      if invoice.status == Draft {
        assert Alone(db, CancelPaid(id, true), clear) == Alone(db, CancelDelete(id), clear);
        rows := rows - {id};
        return Discarded;
      }
      assert Alone(db, CancelPaid(id, false), clear) == Alone(db, CancelMark(id), clear);
      rows := rows[id := rows[id].(status := Cancelled)];
      return CancelledNow;
    }
  }
}
