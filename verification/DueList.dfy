/** `GET /invoices/due`: which marks the register leaves on a contract, and what billing and cancelling do. */
module DueList {
  import opened Calendar
  import opened BillingPeriods
  import opened IsoDates
  import opened BillablePeriods
  import opened Wrappers

  type ContractId = nat

  datatype RowStatus = Draft | Issued | Voided

  /** A row of the invoice register, as far as billing a contract looks at it. */
  datatype Row = Row(contract: Option<ContractId>, periodStart: Option<Date>, point: Option<nat>, status: RowStatus)

  predicate Marks(r: Row, id: ContractId) {
    r.contract == Some(id) && r.status != Voided
  }

  /** The marks of one contract, told from the register at once. */
  function BilledOf(rows: seq<Row>, id: ContractId): Billed {
    Billed(set r | r in rows && Marks(r, id) && r.periodStart.Some? :: r.periodStart.value,
           set r | r in rows && Marks(r, id) && r.point.Some? :: r.point.value)
  }

  const NO_MARKS := Billed({}, {})

  function Lookup(m: map<ContractId, Billed>, id: ContractId): Billed {
    if id in m then m[id] else NO_MARKS
  }

  /** The loop of `/due` over the rows that are not cancelled; each contract gets its own bucket. */
  method BilledBy(rows: seq<Row>) returns (m: map<ContractId, Billed>)
    ensures forall id :: Lookup(m, id) == BilledOf(rows, id)
  {
    m := map[];
    for i := 0 to |rows|
      invariant forall id :: Lookup(m, id) == BilledOf(rows[..i], id)
    {
      var r := rows[i];
      assert rows[..i + 1] == rows[..i] + [r];
      if r.status != Voided && r.contract.Some? {
        var bucket := Lookup(m, r.contract.value);
        if r.periodStart.Some? {
          bucket := bucket.(periodStarts := bucket.periodStarts + {r.periodStart.value});
        }
        if r.point.Some? {
          bucket := bucket.(instalments := bucket.instalments + {r.point.value});
        }
        ghost var before := m;
        m := m[r.contract.value := bucket];
        forall id
          ensures Lookup(m, id) == BilledOf(rows[..i + 1], id)
        {
          OneMoreRow(rows[..i], r, id);
          assert Lookup(before, id) == BilledOf(rows[..i], id);
        }
      } else {
        forall id
          ensures BilledOf(rows[..i + 1], id) == BilledOf(rows[..i], id)
        {
          OneMoreRow(rows[..i], r, id);
        }
      }
    }
    assert rows[..|rows|] == rows;
  }

  function WithRow(b: Billed, r: Row): Billed {
    Billed(b.periodStarts + (if r.periodStart.Some? then {r.periodStart.value} else {}),
           b.instalments + (if r.point.Some? then {r.point.value} else {}))
  }

  lemma OneMoreRow(rows: seq<Row>, r: Row, id: ContractId)
    ensures BilledOf(rows + [r], id) == if Marks(r, id) then WithRow(BilledOf(rows, id), r) else BilledOf(rows, id)
  {
    var all := rows + [r];
    assert forall x :: x in all <==> x in rows || x == r;
    var got, base := BilledOf(all, id), BilledOf(rows, id);
    var want := if Marks(r, id) then WithRow(base, r) else base;
    assert forall d :: d in got.periodStarts <==> d in want.periodStarts;
    assert forall n :: n in got.instalments <==> n in want.instalments;
  }

  /** The invoice raised for an offer: its period and its instalment, as a draft. */
  function RowFor(id: ContractId, s: PeriodState): Row {
    Row(Some(id), Some(s.period.start), Some(s.period.number), Draft)
  }

  function Due(rows: seq<Row>, id: ContractId, c: Contract, visits: seq<Visit>, today: Date): seq<PeriodState> {
    Billable(c, visits, BilledOf(rows, id), today)
  }

  function Without(ss: seq<PeriodState>, p: Period): seq<PeriodState> {
    if ss == [] then []
    else (if ss[0].period == p then [] else [ss[0]]) + Without(ss[1..], p)
  }

  lemma {:induction false} WithoutConcat(a: seq<PeriodState>, b: seq<PeriodState>, p: Period)
    ensures Without(a + b, p) == Without(a, p) + Without(b, p)
  {
    if a == [] {
      assert a + b == b;
    } else {
      assert (a + b)[1..] == a[1..] + b;
      WithoutConcat(a[1..], b, p);
    }
  }

  lemma {:induction false} MarkingRemoves(ps: seq<Period>, visits: seq<Visit>, b: Billed, r: Row, p: Period,
                                          today: Date)
    requires r.periodStart == Some(p.start) && r.point == Some(p.number)
    requires forall k | 0 <= k < |ps| :: (ps[k].start == p.start || ps[k].number == p.number) ==> ps[k] == p
    ensures OfferedOf(ps, visits, WithRow(b, r), today) == Without(OfferedOf(ps, visits, b, today), p)
  {
    if ps != [] {
      hide NotAfter, Before, AllDone, Live, Inside, Done;
      MarkingRemoves(ps[1..], visits, b, r, p, today);
      var head := if Offered(ps[0], visits, b, today) then [StateOf(ps[0], visits)] else [];
      WithoutConcat(head, OfferedOf(ps[1..], visits, b, today), p);
      assert IsBilled(ps[0], WithRow(b, r)) <==> IsBilled(ps[0], b) || ps[0] == p;
    }
  }

  lemma StartsDiffer(c: Contract, j: nat, k: nat)
    requires Stored(c) && c.billing != PerVisit && j < k < |Periods(c)|
    ensures Periods(c)[j].start != Periods(c)[k].start && Periods(c)[j].number != Periods(c)[k].number
  {
    hide Periods, NthStart, Valid, ToDay, NotAfter, AddMonths, DayBefore, PeriodValue;
    PeriodsShape(c);
    StartsInOrder(c, j, k);
  }

  lemma PeriodsAreDistinct(c: Contract, p: Period)
    requires Stored(c) && p in Periods(c)
    ensures forall k | 0 <= k < |Periods(c)| ::
      (Periods(c)[k].start == p.start || Periods(c)[k].number == p.number) ==> Periods(c)[k] == p
  {
    assert c.billing != PerVisit;
    hide Periods, Valid;
    var at :| 0 <= at < |Periods(c)| && Periods(c)[at] == p;
    forall k | 0 <= k < |Periods(c)| && k != at
      ensures Periods(c)[k].start != p.start && Periods(c)[k].number != p.number
    {
      StartsDiffer(c, if k < at then k else at, if k < at then at else k);
    }
  }

  /** Raising the invoice of an offer takes that offer off the list and leaves every other as it is. */
  lemma BillingTakesOneOffer(rows: seq<Row>, id: ContractId, c: Contract, visits: seq<Visit>, today: Date,
                             s: PeriodState)
    requires Stored(c) && s in Due(rows, id, c, visits, today)
    ensures Due(rows + [RowFor(id, s)], id, c, visits, today) == Without(Due(rows, id, c, visits, today), s.period)
  {
    hide Periods, StateOf, Offered;
    OfferedExactly(Periods(c), visits, BilledOf(rows, id), today, s);
    var k :| 0 <= k < |Periods(c)| && Offered(Periods(c)[k], visits, BilledOf(rows, id), today)
      && s == StateOf(Periods(c)[k], visits);
    StateNamesPeriod(Periods(c)[k], visits);
    PeriodsAreDistinct(c, s.period);
    OneMoreRow(rows, RowFor(id, s), id);
    MarkingRemoves(Periods(c), visits, BilledOf(rows, id), RowFor(id, s), s.period, today);
  }

  lemma StateNamesPeriod(p: Period, visits: seq<Visit>)
    ensures StateOf(p, visits).period == p
  {
  }

  /** Cancelling that invoice brings the list back exactly. */
  lemma CancellingBringsItBack(rows: seq<Row>, id: ContractId, c: Contract, visits: seq<Visit>, today: Date,
                               s: PeriodState)
    ensures Due(rows + [RowFor(id, s).(status := Voided)], id, c, visits, today) == Due(rows, id, c, visits, today)
  {
    OneMoreRow(rows, RowFor(id, s).(status := Voided), id);
  }

  /** The two unique constraints of the table: instalments over all rows, periods over the live ones. */
  predicate Accepted(rows: seq<Row>, r: Row) {
    && (forall x :: x in rows && x.contract.Some? && x.point.Some? ==>
        !(x.contract == r.contract && x.point == r.point))
    && (forall x :: x in rows && x.contract.Some? && x.periodStart.Some? && x.status != Voided
          ==> !(x.contract == r.contract && x.periodStart == r.periodStart))
  }

  lemma OfferIsUnmarked(rows: seq<Row>, id: ContractId, c: Contract, visits: seq<Visit>, today: Date, s: PeriodState)
    requires s in Due(rows, id, c, visits, today)
    ensures s.period.start !in BilledOf(rows, id).periodStarts && s.period.number !in BilledOf(rows, id).instalments
  {
    hide Periods;
    OfferedExactly(Periods(c), visits, BilledOf(rows, id), today, s);
  }

  /**
    An offered period can be invoiced exactly when no cancelled invoice of the contract carries its
    instalment number: the list offers a cancelled instalment again, the constraint on instalments
    counts cancelled rows and refuses it.
   */
  lemma OfferCanBeRaisedExactlyWhen(rows: seq<Row>, id: ContractId, c: Contract, visits: seq<Visit>, today: Date,
                                    s: PeriodState)
    requires s in Due(rows, id, c, visits, today)
    ensures Accepted(rows, RowFor(id, s))
            <==> !exists x :: x in rows && x.status == Voided
                              && x.contract == Some(id) && x.point == Some(s.period.number)
  {
    OfferIsUnmarked(rows, id, c, visits, today, s);
    var r := RowFor(id, s);
    var b := BilledOf(rows, id);
    forall x | x in rows && x.contract == Some(id) && x.status != Voided
      ensures x.point != r.point && x.periodStart != r.periodStart
    {
      assert Marks(x, id);
      assert x.point.Some? ==> x.point.value in b.instalments;
      assert x.periodStart.Some? ==> x.periodStart.value in b.periodStarts;
    }
  }

  /** Raising, cancelling and raising again: offered a second time, but refused. */
  lemma CancelledInstalmentIsRefused(rows: seq<Row>, id: ContractId, c: Contract, visits: seq<Visit>, today: Date,
                                     s: PeriodState)
    requires s in Due(rows, id, c, visits, today)
    ensures var after := rows + [RowFor(id, s).(status := Voided)];
            s in Due(after, id, c, visits, today) && !Accepted(after, RowFor(id, s))
  {
    var gone := RowFor(id, s).(status := Voided);
    var after := rows + [gone];
    CancellingBringsItBack(rows, id, c, visits, today, s);
    assert after[|rows|] == gone;
  }
}
