/** What the numbering screen reports of the invoice series, whatever handlers have run. */
module InvoiceGaps {
  import opened Wrappers
  import opened Calendar
  import opened Numbering
  import opened InvoiceProtocol
  import opened InvoiceSafety
  import opened InvoiceOrder

  /** The sequences on the rows of one series, as the screen collects them. */
  ghost predicate NumbersOf(db: Db, k: Series, numbers: seq<nat>) {
    forall m: nat :: m in numbers <==> exists id :: OnRowNow(db, id, Number(k, m))
  }

  /** The register prints a row's number with the day it was issued. */
  ghost predicate Prints(row: Invoice, prefix: string, printed: Row) {
    && printed.branch == Some(row.branch)
    && (if row.number.Some?
        then printed.number == Some(FormatNumber(InvoiceDoc, prefix, row.number.value, FromDay(row.date)))
        else printed.number == None)
  }

  /**
    The unique constraint on the printed number never refuses an issue: in every run two rows of one branch
    and year with the same printed number are one row, even if the branch's prefix changed between them.
   */
  lemma PrintedNumbersAreUnique(s: State, es: seq<Event>, i: InvoiceId, p: string, j: InvoiceId, q: string)
    requires Initial(s) && i in Run(s, es).db.rows && j in Run(s, es).db.rows
    requires var a, b := Run(s, es).db.rows[i], Run(s, es).db.rows[j];
             && a.number.Some? && b.number.Some? && a.branch == b.branch && a.year == b.year
             && FormatNumber(InvoiceDoc, p, a.number.value, FromDay(a.date))
                 == FormatNumber(InvoiceDoc, q, b.number.value, FromDay(b.date))
    ensures i == j
  {
    var a, b := Run(s, es).db.rows[i], Run(s, es).db.rows[j];
    RegisterIsSound(s, es);
    PrintedNumbersDiffer(InvoiceDoc, p, a.number.value, FromDay(a.date), q, b.number.value, FromDay(b.date));
    hide Run, Initial, FormatNumber, FromDay;
  }

  /** The sequences on the rows of a branch, in order. */
  function NumbersOn(rows: seq<Invoice>, branch: BranchId): seq<nat> {
    if rows == [] then []
    else
      var row, before := rows[|rows| - 1], NumbersOn(rows[..|rows| - 1], branch);
      if row.branch == branch && row.number.Some? then before + [row.number.value] else before
  }

  lemma PrintedRowReadsBack(row: Invoice, prefix: string, printed: Row)
    requires Prints(row, prefix, printed)
    ensures printed.branch == Some(row.branch) && (printed.number.Some? <==> row.number.Some?)
    ensures printed.number.Some? ==> SequenceOf(printed.number.value) == row.number
  {
    if row.number.Some? {
      PrintedNumberReadsBack(InvoiceDoc, prefix, row.number.value, FromDay(row.date));
    }
  }

  /** Reading the printed numbers of a branch gives the sequences of its numbered rows, whatever the prefixes were. */
  lemma {:induction false} ReadingThePrintedRegister(rows: seq<Invoice>, prefixes: seq<string>, printed: seq<Row>,
                                                     branch: BranchId)
    requires |rows| == |printed| == |prefixes| && forall i | 0 <= i < |rows| :: Prints(rows[i], prefixes[i], printed[i])
    ensures SequencesOf(printed, branch) == NumbersOn(rows, branch)
  {
    if rows != [] {
      var l := |rows| - 1;
      PrintedRowReadsBack(rows[l], prefixes[l], printed[l]);
      hide Prints, SequenceOf;
      ReadingThePrintedRegister(rows[..l], prefixes[..l], printed[..l], branch);
    }
  }

  /**
    Beyond where the counter stood, the gaps reported are exactly the numbers that are lost or still in
    flight, from the smallest number on a row onwards.
   */
  lemma GapsAreLostOrInFlight(s: State, es: seq<Event>, k: Series, numbers: seq<nat>, n: nat)
    requires Initial(s) && NumbersOf(Run(s, es).db, k, numbers) && n > Last(s.db.counters, k)
    ensures var now := Run(s, es);
            IsGap(numbers, Last(now.db.counters, k), n) <==>
              && Number(k, n) in now.drawn && !now.drawn[Number(k, n)].OnRow?
              && exists m :: m in numbers && m <= n
  {
    EveryNumberAccountedFor(s, es, Number(k, n));
    hide Run, Initial, YearOf;
    var now := Run(s, es);
    if n in numbers {
      var id :| OnRowNow(now.db, id, Number(k, n));
    }
    if Number(k, n) in now.drawn && now.drawn[Number(k, n)].OnRow? {
      assert OnRowNow(now.db, now.drawn[Number(k, n)].id, Number(k, n));
    }
  }

  /** With every handler finished and invoices kept apart, the screen reports no gap beyond where the counter stood. */
  lemma NoGapsWhenApart(s: State, es: seq<Event>, k: Series, numbers: seq<nat>, n: nat)
    requires Initial(s) && NumbersOf(Run(s, es).db, k, numbers) && n > Last(s.db.counters, k)
    requires RunApart(s, es) && AllDone(Run(s, es))
    ensures !IsGap(numbers, Last(Run(s, es).db.counters, k), n)
  {
    GapsAreLostOrInFlight(s, es, k, numbers, n);
    EveryNumberAccountedFor(s, es, Number(k, n));
    ApartNothingLost(s, es);
    hide Run, Initial, YearOf, RunApart, NoneLost;
  }
}
