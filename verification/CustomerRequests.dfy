/**
  Exactly-once creation of a customer keyed by the audit id: `createCustomer` of `src/tenant/workspace.ts`.

  Each statement is one atomic step, as it is its own transaction there, and any number of calls
  interleave. A call may lose its connection, before or after its insert was committed.
 */
module CustomerRequests {
  import opened Wrappers

  type RequestId = nat
  type ActorId = nat
  type Payload = nat
  type CustomerId = nat
  type CallId = nat

  /** A row of the audit table: a customer request, or anything else that uses up its id. */
  datatype Entry = CustomerEntry(actor: ActorId, payload: Payload, customer: CustomerId) | OtherEntry

  /** The two tables; a customer remembers the request it was made for, if any. */
  datatype Db = Db(audit: map<RequestId, Entry>, customers: map<CustomerId, Option<RequestId>>)

  datatype Reply = Named(customer: CustomerId, created: bool) | Nothing | Threw

  datatype Place = Looking | Inserting | LookingAgain(safe: bool) | Replied(reply: Reply)

  datatype Call = Call(id: RequestId, actor: ActorId, payload: Payload, place: Place)

  /** What `create_erp_customer` and the connection do: a new customer, nobody, or an error with a known code or not. */
  datatype Outcome = Creates(fresh_: CustomerId) | ReplyLost(fresh_: CustomerId) | CreatesNobody | Fails(safe: bool)

  datatype Event =
    | Start(c: CallId, id: RequestId, actor: ActorId, payload: Payload)
    | Step(c: CallId, outcome: Outcome)
    | Abort(c: CallId)
    | OtherAudit(id: RequestId)
    | OtherCustomer(fresh_: CustomerId)

  datatype State = State(db: Db, calls: map<CallId, Call>)

  /** The request recorded under the id by the same actor with the same payload. */
  function Prior(db: Db, q: Call): Option<CustomerId> {
    if q.id in db.audit && db.audit[q.id].CustomerEntry? && db.audit[q.id].actor == q.actor
      && db.audit[q.id].payload == q.payload
    then Some(db.audit[q.id].customer) else None
  }

  /** Customer and audit entry together. */
  function Both(db: Db, q: Call, fresh_: CustomerId): Db {
    Db(db.audit[q.id := CustomerEntry(q.actor, q.payload, fresh_)], db.customers[fresh_ := Some(q.id)])
  }

  /** The one insert: a used id undoes the customer too, and is an error with a known code. */
  function Insert(db: Db, q: Call, outcome: Outcome): (Db, Place) {
    match outcome
    case Creates(k) =>
      if k in db.customers then (db, Inserting)
      else if q.id in db.audit then (db, LookingAgain(true))
      else (Both(db, q, k), Replied(Named(k, true)))
    case ReplyLost(k) =>
      if k in db.customers || q.id in db.audit then (db, LookingAgain(false)) else (Both(db, q, k), LookingAgain(false))
    case CreatesNobody => (db, Replied(Nothing))
    case Fails(safe) => (db, LookingAgain(safe))
  }

  function Serve(db: Db, q: Call, outcome: Outcome): (Db, Place) {
    match q.place
    case Looking => (db, if Prior(db, q).Some? then Replied(Named(Prior(db, q).value, false)) else Inserting)
    case Inserting => Insert(db, q, outcome)
    case LookingAgain(safe) =>
      (db, Replied(if Prior(db, q).Some? then Named(Prior(db, q).value, false) else if safe then Nothing else Threw))
    case Replied(_) => (db, q.place)
  }

  function Apply(s: State, e: Event): State {
    match e
    case Start(c, id, actor, payload) =>
      if c in s.calls then s else s.(calls := s.calls[c := Call(id, actor, payload, Looking)])
    case Step(c, outcome) =>
      if c !in s.calls then s
      else
        var (db, place) := Serve(s.db, s.calls[c], outcome);
        State(db, s.calls[c := s.calls[c].(place := place)])
    case Abort(c) =>
      if c in s.calls && !s.calls[c].place.Replied?
      then s.(calls := s.calls[c := s.calls[c].(place := Replied(Threw))]) else s
    case OtherAudit(id) => if id in s.db.audit then s else s.(db := s.db.(audit := s.db.audit[id := OtherEntry]))
    case OtherCustomer(k) => if k in s.db.customers then s else s.(db := s.db.(customers := s.db.customers[k := None]))
  }

  function Run(s: State, es: seq<Event>): State {
    if es == [] then s else Apply(Run(s, es[..|es| - 1]), es[|es| - 1])
  }

  /** Other customers and audit entries may be there; no request yet. */
  ghost predicate Initial(s: State) {
    && s.calls == map[]
    && (forall id | id in s.db.audit :: s.db.audit[id].OtherEntry?)
    && (forall k | k in s.db.customers :: s.db.customers[k].None?)
  }

  /** A customer made for a request and the request's audit entry name each other. */
  ghost predicate Paired(db: Db) {
    && (forall id | id in db.audit && db.audit[id].CustomerEntry? ::
          db.audit[id].customer in db.customers && db.customers[db.audit[id].customer] == Some(id))
    && (forall k | k in db.customers && db.customers[k].Some? ::
          var id := db.customers[k].value;
          id in db.audit && db.audit[id].CustomerEntry? && db.audit[id].customer == k)
  }

  predicate NamedBy(q: Call) {
    q.place.Replied? && q.place.reply.Named?
  }

  predicate CreatedBy(q: Call) {
    NamedBy(q) && q.place.reply.created
  }

  ghost predicate Truthful(s: State) {
    && (forall c | c in s.calls && NamedBy(s.calls[c]) ::
          var q := s.calls[c];
          q.id in s.db.audit && s.db.audit[q.id] == CustomerEntry(q.actor, q.payload, q.place.reply.customer))
    && (forall c, d | c in s.calls && d in s.calls && CreatedBy(s.calls[c]) && CreatedBy(s.calls[d])
            && s.calls[c].id == s.calls[d].id :: c == d)
  }

  ghost predicate Inv(s: State) {
    Paired(s.db) && Truthful(s)
  }

  /** Audit entries are never changed or removed. */
  ghost predicate AuditGrows(a: Db, b: Db) {
    forall id | id in a.audit :: id in b.audit && b.audit[id] == a.audit[id]
  }

  lemma ServeKeeps(db: Db, q: Call, outcome: Outcome)
    requires Paired(db)
    ensures var (db', place) := Serve(db, q, outcome);
            Paired(db') && AuditGrows(db, db')
  {
  }

  lemma ServeAnswers(db: Db, q: Call, outcome: Outcome)
    requires NamedBy(q) ==>
      q.id in db.audit && db.audit[q.id] == CustomerEntry(q.actor, q.payload, q.place.reply.customer)
    ensures var (db', place) := Serve(db, q, outcome);
            var q' := q.(place := place);
            && (NamedBy(q') ==>
                q'.id in db'.audit && db'.audit[q'.id] == CustomerEntry(q'.actor, q'.payload, q'.place.reply.customer))
            && (CreatedBy(q') ==> CreatedBy(q) || q.id !in db.audit)
  {
  }

  lemma ApplyKeeps(s: State, e: Event)
    requires Inv(s)
    ensures Inv(Apply(s, e)) && AuditGrows(s.db, Apply(s, e).db)
  {
    if e.Step? && e.c in s.calls {
      ServeKeeps(s.db, s.calls[e.c], e.outcome);
      ServeAnswers(s.db, s.calls[e.c], e.outcome);
      hide Paired, Serve;
      assert Truthful(Apply(s, e));
    }
  }

  lemma {:induction false} RunKeeps(s: State, es: seq<Event>)
    requires Inv(s)
    ensures Inv(Run(s, es)) && AuditGrows(s.db, Run(s, es).db)
  {
    if es != [] {
      RunKeeps(s, es[..|es| - 1]);
      ApplyKeeps(Run(s, es[..|es| - 1]), es[|es| - 1]);
      hide Apply, Inv;
    }
  }

  /** Whatever runs, a request id has at most one customer. */
  lemma OneCustomerPerRequest(s: State, es: seq<Event>, a: CustomerId, b: CustomerId)
    requires Initial(s)
    requires var now := Run(s, es).db.customers; a in now && b in now && now[a].Some? && now[a] == now[b]
    ensures a == b
  {
    RunKeeps(s, es);
    hide Run;
  }

  /** Whatever runs, at most one call is told that it created the customer. */
  lemma CreatedOnce(s: State, es: seq<Event>, c: CallId, d: CallId)
    requires Initial(s)
    requires var now := Run(s, es).calls;
             c in now && d in now && CreatedBy(now[c]) && CreatedBy(now[d]) && now[c].id == now[d].id
    ensures c == d
  {
    RunKeeps(s, es);
    hide Run;
  }

  /**
    Two calls that are told a customer under one request id have the same actor and payload and are
    told the same customer, which exists and was made for that id.
   */
  lemma RepliesAgree(s: State, es: seq<Event>, c: CallId, d: CallId)
    requires Initial(s)
    requires var now := Run(s, es).calls;
             c in now && d in now && NamedBy(now[c]) && NamedBy(now[d]) && now[c].id == now[d].id
    ensures var now := Run(s, es);
            var k := now.calls[c].place.reply.customer;
            && now.calls[d].place.reply.customer == k
            && now.calls[c].actor == now.calls[d].actor && now.calls[c].payload == now.calls[d].payload
            && k in now.db.customers && now.db.customers[k] == Some(now.calls[c].id)
  {
    RunKeeps(s, es);
    hide Run;
  }

  /**
    Once a customer was made for an id, no later event changes that: the id keeps that one customer, and
    a call under it with another payload or another actor is never told one.
   */
  lemma UsedIdIsSpent(s: State, past: seq<Event>, es: seq<Event>, id: RequestId, k: CustomerId)
    requires Initial(s)
    requires k in Run(s, past).db.customers && Run(s, past).db.customers[k] == Some(id)
    ensures var entry, now := Run(s, past).db.audit, Run(Run(s, past), es);
            && id in entry && entry[id].CustomerEntry? && entry[id].customer == k
            && (forall o | o in now.db.customers && now.db.customers[o] == Some(id) :: o == k)
            && (forall c | c in now.calls && now.calls[c].id == id && NamedBy(now.calls[c]) ::
                  now.calls[c].actor == entry[id].actor && now.calls[c].payload == entry[id].payload)
  {
    RunKeeps(s, past);
    RunKeeps(Run(s, past), es);
    hide Run;
  }

  /** A commit whose reply was lost is found again by the same call, and by any repeat of it. */
  lemma LostReplyIsRecovered(s: State, c: CallId, d: CallId, k: CustomerId, any: Outcome)
    requires c in s.calls && s.calls[c].place.Inserting? && s.calls[c].id !in s.db.audit
    requires k !in s.db.customers && d !in s.calls
    ensures var q := s.calls[c];
            var s1 := Apply(Apply(s, Step(c, ReplyLost(k))), Step(c, any));
            var s2 := Apply(Apply(s1, Start(d, q.id, q.actor, q.payload)), Step(d, any));
            && c in s2.calls && s2.calls[c].place == Replied(Named(k, false))
            && d in s2.calls && s2.calls[d].place == Replied(Named(k, false))
            && s2.db == Both(s.db, q, k)
  {
    var q := s.calls[c];
    var s0 := Apply(s, Step(c, ReplyLost(k)));
    assert s0 == State(Both(s.db, q, k), s.calls[c := q.(place := LookingAgain(false))]);
    assert Prior(s0.db, q) == Some(k);
    var s1 := Apply(s0, Step(c, any));
    assert s1 == State(s0.db, s.calls[c := q.(place := Replied(Named(k, false)))]);
    var s2 := Apply(s1, Start(d, q.id, q.actor, q.payload));
    assert s2.calls[d] == Call(q.id, q.actor, q.payload, Looking) && Prior(s2.db, s2.calls[d]) == Some(k);
  }

  /** Anything else may use up an id or add a customer, and does so without touching what is there. */
  lemma OthersWrite(s: State, id: RequestId, k: CustomerId)
    ensures var audit := Apply(s, OtherAudit(id)).db.audit;
            && audit.Keys == s.db.audit.Keys + {id} && (id !in s.db.audit ==> audit[id] == OtherEntry)
            && AuditGrows(s.db, Apply(s, OtherAudit(id)).db)
    ensures var customers := Apply(s, OtherCustomer(k)).db.customers;
            && customers.Keys == s.db.customers.Keys + {k} && (k !in s.db.customers ==> customers[k] == None)
            && forall o | o in s.db.customers :: customers[o] == s.db.customers[o]
  {
  }

  /** None of the events is a step or the abort of the call. */
  ghost predicate LeaveAlone(es: seq<Event>, c: CallId) {
    forall i | 0 <= i < |es| :: !((es[i].Step? || es[i].Abort?) && es[i].c == c)
  }

  lemma {:induction false} CallWaits(s: State, es: seq<Event>, c: CallId)
    requires c in s.calls && LeaveAlone(es, c)
    ensures c in Run(s, es).calls && Run(s, es).calls[c] == s.calls[c]
  {
    if es != [] {
      CallWaits(s, es[..|es| - 1], c);
      hide Serve;
    }
  }

  lemma {:induction false} RunConcat(s: State, a: seq<Event>, b: seq<Event>)
    ensures Run(s, a + b) == Run(Run(s, a), b)
  {
    hide Apply;
    if b == [] {
      assert a + b == a;
    } else {
      assert (a + b)[..|a + b| - 1] == a + b[..|b| - 1];
      RunConcat(s, a, b[..|b| - 1]);
    }
  }

  lemma RunOne(s: State, e: Event)
    ensures Run(s, [e]) == Apply(s, e)
  {
    assert [e][..0] == [] && Run(s, []) == s;
  }

  /** A first look is answered at once exactly when the id has the caller's own entry, and else goes on to insert. */
  lemma FirstLook(s: State, c: CallId, any: Outcome)
    requires c in s.calls && s.calls[c].place.Looking?
    ensures var q, now := s.calls[c], Apply(s, Step(c, any));
            && now.db == s.db && c in now.calls
            && (forall k :: now.calls[c].place == Replied(Named(k, false))
                  <==> q.id in s.db.audit && s.db.audit[q.id] == CustomerEntry(q.actor, q.payload, k))
            && (now.calls[c].place.Inserting? || now.calls[c].place.Replied?)
  {
  }

  /** What a second look answers. */
  function SecondAnswer(audit: map<RequestId, Entry>, q: Call, safe: bool): Reply {
    if q.id in audit && audit[q.id].CustomerEntry?
      && audit[q.id].actor == q.actor && audit[q.id].payload == q.payload
    then Named(audit[q.id].customer, false)
    else if safe then Nothing else Threw
  }

  lemma LookAgain(s: State, c: CallId, safe: bool, any: Outcome)
    requires c in s.calls && s.calls[c].place == LookingAgain(safe)
    ensures c in Apply(s, Step(c, any)).calls
    ensures Apply(s, Step(c, any)).calls[c].place == Replied(SecondAnswer(s.db.audit, s.calls[c], safe))
  {
  }

  /** A new customer's id is one nobody has. */
  predicate IsNew(db: Db, outcome: Outcome) {
    outcome.Creates? || outcome.ReplyLost? ==> outcome.fresh_ !in db.customers
  }

  /** The insert looks again unless it created or was given nobody, and a conflict or a known error is no failure. */
  lemma InsertGoesOn(s: State, c: CallId, outcome: Outcome)
    requires c in s.calls && s.calls[c].place.Inserting? && IsNew(s.db, outcome)
    ensures var q, now := s.calls[c], Apply(s, Step(c, outcome));
            && c in now.calls && now.calls[c] == q.(place := now.calls[c].place)
            && (q.id in s.db.audit || outcome.CreatesNobody? || outcome.Fails? ==> now.db == s.db)
            && (outcome.CreatesNobody? ==> now.calls[c].place == Replied(Nothing))
            && (outcome.Fails? ==> now.calls[c].place == LookingAgain(outcome.safe))
            && (outcome.ReplyLost? ==> now.calls[c].place == LookingAgain(false))
            && (outcome.Creates? && q.id in s.db.audit ==> now.calls[c].place == LookingAgain(true))
            && (outcome.Creates? && q.id !in s.db.audit ==> now.calls[c].place == Replied(Named(outcome.fresh_, true)))
            && (q.id !in s.db.audit && (outcome.Creates? || outcome.ReplyLost?) ==>
                  now.db == Db(s.db.audit[q.id := CustomerEntry(q.actor, q.payload, outcome.fresh_)],
                               s.db.customers[outcome.fresh_ := Some(q.id)]))
  {
  }

  /**
    The loser of a race: in every run, a call about to insert under an id that is already used reads again and,
    whatever happens meanwhile, is told the customer of the entry, as not created by it, if the entry is of its own
    actor and payload. If not it is told nothing, and fails only for an unknown error or a lost reply.
   */
  lemma RaceLoserIsAnswered(s: State, past: seq<Event>, c: CallId, outcome: Outcome, between: seq<Event>, any: Outcome)
    requires Initial(s) && LeaveAlone(between, c)
    requires var now := Run(s, past);
             && c in now.calls && now.calls[c].place.Inserting? && now.calls[c].id in now.db.audit
             && IsNew(now.db, outcome) && !outcome.CreatesNobody?
    ensures var q, entry := Run(s, past).calls[c], Run(s, past).db.audit[Run(s, past).calls[c].id];
            var later := Run(Run(s, past), [Step(c, outcome)] + between + [Step(c, any)]);
            && c in later.calls && later.db.audit.Keys >= {q.id} && later.db.audit[q.id] == entry
            && later.calls[c].place.Replied?
            && (forall k | entry == CustomerEntry(q.actor, q.payload, k) ::
                  later.calls[c].place.reply == Named(k, false))
            && ((forall k :: entry != CustomerEntry(q.actor, q.payload, k)) ==>
                  later.calls[c].place.reply
                  == if outcome.Creates? || (outcome.Fails? && outcome.safe) then Nothing else Threw)
  {
    var now := Run(s, past);
    var q, tried := now.calls[c], Apply(now, Step(c, outcome));
    RunKeeps(s, past);
    ApplyKeeps(now, Step(c, outcome));
    InsertGoesOn(now, c, outcome);
    hide Inv, Initial, Apply;
    RunOne(now, Step(c, outcome));
    RunConcat(now, [Step(c, outcome)], between);
    RunConcat(now, [Step(c, outcome)] + between, [Step(c, any)]);
    CallWaits(tried, between, c);
    RunKeeps(tried, between);
    var waited := Run(tried, between);
    RunOne(waited, Step(c, any));
    LookAgain(waited, c, tried.calls[c].place.safe, any);
    ApplyKeeps(waited, Step(c, any));
    hide Run;
  }

  /** A call with nobody in between. */
  function Alone(db: Db, q: Call, outcome: Outcome): (Db, Reply)
    requires (outcome.Creates? || outcome.ReplyLost?) ==> outcome.fresh_ !in db.customers
  {
    if Prior(db, q).Some? then (db, Named(Prior(db, q).value, false))
    else
      var (db', place) := Insert(db, q, outcome);
      if place.Replied? then (db', place.reply)
      else if Prior(db', q).Some? then (db', Named(Prior(db', q).value, false))
      else (db', if place.safe then Nothing else Threw)
  }

  /** A call alone is three steps of the protocol. */
  lemma AloneIsARun(s: State, c: CallId, outcome: Outcome)
    requires c in s.calls && s.calls[c].place.Looking?
    requires (outcome.Creates? || outcome.ReplyLost?) ==> outcome.fresh_ !in s.db.customers
    ensures var now := Run(s, [Step(c, outcome), Step(c, outcome), Step(c, outcome)]);
            var (db, reply) := Alone(s.db, s.calls[c], outcome);
            now.db == db && c in now.calls && now.calls[c].place == Replied(reply)
  {
    var e := Step(c, outcome);
    var s1 := Apply(s, e);
    var s2 := Apply(s1, e);
    var s3 := Apply(s2, e);
    assert s3.db == Alone(s.db, s.calls[c], outcome).0
           && s3.calls[c].place == Replied(Alone(s.db, s.calls[c], outcome).1);
    hide Apply, Alone;
    assert [e, e, e][..2] == [e, e] && [e, e][..1] == [e] && [e][..0] == [];
    assert Run(s, []) == s && Run(s, [e]) == s1 && Run(s, [e, e]) == Apply(Run(s, [e]), e);
  }

  /** The function as it runs, over the two tables. */
  class CustomerDesk {
    var audit: map<RequestId, Entry>
    var customers: map<CustomerId, Option<RequestId>>

    ghost function Tables(): Db
      reads this
    {
      Db(audit, customers)
    }

    method FindPrior(q: Call) returns (found: Option<CustomerId>)
      ensures found == Prior(Tables(), q)
    {
      if q.id in audit {
        match audit[q.id]
        case CustomerEntry(actor, payload, customer) =>
          if actor == q.actor && payload == q.payload {
            return Some(customer);
          }
        case OtherEntry =>
      }
      return None;
    }

    /** The insert with its error, if any, in hand. */
    method InsertBoth(q: Call, outcome: Outcome) returns (place: Place)
      requires (outcome.Creates? || outcome.ReplyLost?) ==> outcome.fresh_ !in customers
      modifies this
      ensures (Tables(), place) == Insert(old(Tables()), q, outcome)
    {
      if outcome.CreatesNobody? {
        return Replied(Nothing);
      }
      if outcome.Fails? {
        return LookingAgain(outcome.safe);
      }
      if q.id in audit {
        return LookingAgain(outcome.Creates?);
      }
      audit := audit[q.id := CustomerEntry(q.actor, q.payload, outcome.fresh_)];
      customers := customers[outcome.fresh_ := Some(q.id)];
      place := if outcome.Creates? then Replied(Named(outcome.fresh_, true)) else LookingAgain(false);
    }

    method CreateCustomer(q: Call, outcome: Outcome) returns (reply: Reply)
      requires (outcome.Creates? || outcome.ReplyLost?) ==> outcome.fresh_ !in customers
      modifies this
      ensures (Tables(), reply) == Alone(old(Tables()), q, outcome)
      ensures old(Prior(Tables(), q)).Some? ==> Tables() == old(Tables())
      ensures reply.Named? ==> Prior(Tables(), q) == Some(reply.customer)
    {
      var replay := FindPrior(q);
      if replay.Some? {
        return Named(replay.value, false);
      }
      var place := InsertBoth(q, outcome);
      if place.Replied? {
        return place.reply;
      }
      var again := FindPrior(q);
      if again.Some? {
        return Named(again.value, false);
      }
      return if place.safe then Nothing else Threw;
    }
  }
}
