/**
  Invoices from draft to number, as statements of many handlers at once: the create, `/:id/issue` and
  `/:id/cancel` handlers of `src/routes/invoices.ts` over `next_in_series` of `drizzle/0001`.

  Each statement is one atomic step. An event starts a handler, lets one handler execute its next
  statement, cuts a handler off, drafts an invoice, or passes days; any sequence of events is a run.
 */
module InvoiceProtocol {
  import opened Wrappers
  import opened Calendar
  import opened Numbering

  type InvoiceId = nat
  type BranchId = nat
  type Rid = nat

  datatype Status = Draft | Issued | Cancelled

  /** An invoice row; `date` is a day number, and `number` the sequence that its printed number carries. */
  datatype Invoice = Invoice(branch: BranchId, status: Status, number: Option<nat>, year: int, date: int)

  datatype Series = Series(branch: BranchId, year: int)

  datatype Db = Db(rows: map<InvoiceId, Invoice>, counters: map<Series, nat>, today: int)

  datatype Reply = NotFound | Refused | IssuedAs(n: nat) | IssuedNothing(n: nat) | Discarded | CancelledNow | Failed

  datatype Request =
    | IssueRead(id: InvoiceId)
    | IssueLines(id: InvoiceId, branch: BranchId)
    | IssueClock(id: InvoiceId, branch: BranchId)
    | IssueDraw(id: InvoiceId, branch: BranchId, day: int)
    | IssueUpdate(id: InvoiceId, branch: BranchId, day: int, n: nat)
    | CancelRead(id: InvoiceId)
    | CancelPaid(id: InvoiceId, draft: bool)
    | CancelDelete(id: InvoiceId)
    | CancelMark(id: InvoiceId)
    | Done(reply: Reply)

  /** `ok` answers what this model does not hold: lines exist, nothing is paid, nothing refers to the row. */
  datatype Event =
    | Start(r: Rid, first: Request)
    | Step(r: Rid, ok: bool)
    | CutOff(r: Rid)
    | CreateDraft(id: InvoiceId, branch: BranchId)
    | Tick(days: nat)

  /** One number of one series. */
  datatype Number = Number(series: Series, n: nat)

  /** What became of a number that was drawn. */
  datatype Fate = Flying(r: Rid) | OnRow(id: InvoiceId) | Lost

  /**
    Tables and handlers, with what happened so far: where each counter stood, the ids ever used, and for
    each number drawn since, its fate and the day it was drawn for.
   */
  datatype State = State(db: Db, reqs: map<Rid, Request>, base: map<Series, nat>, used: set<InvoiceId>,
                         drawn: map<Number, Fate>, dates: map<Number, int>)

  function YearOf(day: int): int {
    FinancialYear(FromDay(day))
  }

  function Last(counters: map<Series, nat>, k: Series): nat {
    if k in counters then counters[k] else 0
  }

  function SeriesOf(q: Request): Series
    requires q.IssueDraw? || q.IssueUpdate?
  {
    Series(q.branch, YearOf(q.day))
  }

  function KeyOf(row: Invoice): Number
    requires row.number.Some?
  {
    Number(Series(row.branch, row.year), row.number.value)
  }

  /** `next_in_series`: the counter is created at 1 or advanced by 1. */
  function NextInSeries(db: Db, k: Series): (Db, nat) {
    var n := Last(db.counters, k) + 1;
    (db.(counters := db.counters[k := n]), n)
  }

  predicate IsDraft(db: Db, id: InvoiceId) {
    id in db.rows && db.rows[id].status == Draft
  }

  /** The row after a guarded issue. */
  function IssuedRow(row: Invoice, day: int, n: nat): Invoice {
    row.(status := Issued, number := Some(n), year := YearOf(day), date := day)
  }

  /** Where a handler goes from its next statement. */
  function Next(db: Db, q: Request, ok: bool): Request {
    match q
    case IssueRead(id) =>
      if id !in db.rows then Done(NotFound)
      else if db.rows[id].status == Draft then IssueLines(id, db.rows[id].branch) else Done(Refused)
    case IssueLines(id, b) => if ok then IssueClock(id, b) else Done(Refused)
    case IssueClock(id, b) => IssueDraw(id, b, db.today)
    case IssueDraw(id, b, day) => IssueUpdate(id, b, day, NextInSeries(db, SeriesOf(q)).1)
    case IssueUpdate(id, b, day, n) => Done(if IsDraft(db, id) then IssuedAs(n) else IssuedNothing(n))
    case CancelRead(id) =>
      if id !in db.rows then Done(NotFound)
      else if db.rows[id].status == Cancelled then Done(Refused) else CancelPaid(id, db.rows[id].status == Draft)
    case CancelPaid(id, draft) => if !ok then Done(Refused) else if draft then CancelDelete(id) else CancelMark(id)
    case CancelDelete(id) => Done(if ok then Discarded else Failed)
    case CancelMark(id) => Done(CancelledNow)
    case Done(_) => q
  }

  /** What the next statement of a handler does to the tables. The delete has no guard on the status. */
  function After(db: Db, q: Request, ok: bool): Db {
    match q
    case IssueDraw(_, _, _) => NextInSeries(db, SeriesOf(q)).0
    case IssueUpdate(id, b, day, n) =>
      if IsDraft(db, id) then db.(rows := db.rows[id := IssuedRow(db.rows[id], day, n)]) else db
    case CancelDelete(id) => if ok then db.(rows := db.rows - {id}) else db
    case CancelMark(id) => if id in db.rows then db.(rows := db.rows[id := db.rows[id].(status := Cancelled)]) else db
    case _ => db
  }

  /** The fates after the next statement of handler `r`. */
  function Fates(s: State, r: Rid, q: Request, ok: bool): map<Number, Fate> {
    match q
    case IssueDraw(_, _, _) => s.drawn[Number(SeriesOf(q), Last(s.db.counters, SeriesOf(q)) + 1) := Flying(r)]
    case IssueUpdate(id, _, _, n) => s.drawn[Number(SeriesOf(q), n) := if IsDraft(s.db, id) then OnRow(id) else Lost]
    case CancelDelete(id) =>
      if ok && id in s.db.rows && s.db.rows[id].number.Some? && KeyOf(s.db.rows[id]) in s.drawn
      then s.drawn[KeyOf(s.db.rows[id]) := Lost] else s.drawn
    case _ => s.drawn
  }

  function Dates(s: State, q: Request): map<Number, int> {
    if q.IssueDraw? then s.dates[Number(SeriesOf(q), Last(s.db.counters, SeriesOf(q)) + 1) := q.day] else s.dates
  }

  function Execute(s: State, r: Rid, q: Request, ok: bool): State {
    State(After(s.db, q, ok), s.reqs[r := Next(s.db, q, ok)], s.base, s.used, Fates(s, r, q, ok), Dates(s, q))
  }

  predicate IsFirst(q: Request) {
    q.IssueRead? || q.CancelRead?
  }

  /** A handler cut off keeps what it wrote; a number it had drawn is lost. */
  function Cut(s: State, r: Rid, q: Request): State {
    s.(reqs := s.reqs[r := Done(Failed)],
       drawn := if q.IssueUpdate? then s.drawn[Number(SeriesOf(q), q.n) := Lost] else s.drawn)
  }

  function Drafted(s: State, id: InvoiceId, b: BranchId): State {
    var row := Invoice(b, Draft, None, YearOf(s.db.today), s.db.today);
    s.(db := s.db.(rows := s.db.rows[id := row]), used := s.used + {id})
  }

  function Apply(s: State, e: Event): State {
    match e
    case Start(r, q) => if r in s.reqs || !IsFirst(q) then s else s.(reqs := s.reqs[r := q])
    case Step(r, ok) => if r in s.reqs then Execute(s, r, s.reqs[r], ok) else s
    case CutOff(r) => if r in s.reqs && !s.reqs[r].Done? then Cut(s, r, s.reqs[r]) else s
    case CreateDraft(id, b) => if id in s.used then s else Drafted(s, id, b)
    case Tick(n) => s.(db := s.db.(today := s.db.today + n))
  }

  function Run(s: State, es: seq<Event>): State {
    if es == [] then s else Apply(Run(s, es[..|es| - 1]), es[|es| - 1])
  }

  /** `invoices_numbered_when_issued`: drafts, and only drafts, have no number. */
  ghost predicate NumberedWhenIssued(rows: map<InvoiceId, Invoice>) {
    forall id | id in rows :: rows[id].status == Draft <==> rows[id].number.None?
  }

  /** `invoices_series_uq`: no two rows share a number. */
  ghost predicate NumbersDiffer(rows: map<InvoiceId, Invoice>) {
    forall i, j | i in rows && j in rows && rows[i].number.Some? && rows[j].number.Some? ::
      KeyOf(rows[i]) == KeyOf(rows[j]) ==> i == j
  }

  ghost predicate WithinCounters(rows: map<InvoiceId, Invoice>, counters: map<Series, nat>) {
    forall id | id in rows && rows[id].number.Some? :: KeyOf(rows[id]).n <= Last(counters, KeyOf(rows[id]).series)
  }

  /** Whatever was issued before, with the counters at or beyond it; no handler yet. */
  ghost predicate Initial(s: State) {
    && NumberedWhenIssued(s.db.rows) && NumbersDiffer(s.db.rows) && WithinCounters(s.db.rows, s.db.counters)
    && s.base == s.db.counters && s.used == s.db.rows.Keys
    && s.reqs == map[] && s.drawn == map[] && s.dates == map[]
  }
}
