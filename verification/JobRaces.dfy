/**
  The job handlers as statements of many requests at once. Each of `src/routes/jobs.ts` reads the job, decides
  by what it read, and writes by the job's id alone; an assignment writes back the status it read.
 */
module JobRaces {
  import opened Wrappers
  import opened JobStatuses
  import JH = JobHistory

  type Rid = nat

  datatype Request =
    | AssignRead(id: JH.JobId, technician: Option<JH.UserId>, known: bool)
    | AssignWrite(id: JH.JobId, technician: Option<JH.UserId>, from: Status)
    | RescheduleRead(id: JH.JobId, day: JH.Day, slot: Option<JH.Slot>)
    | RescheduleWrite(id: JH.JobId, day: JH.Day, slot: Option<JH.Slot>, read: JH.Job)
    | RescheduleLog(id: JH.JobId, day: JH.Day, slot: Option<JH.Slot>)
    | TransitionRead(id: JH.JobId, to: Status, key: Option<JH.Uuid>, caller: JH.Caller)
    | TransitionSeen(id: JH.JobId, to: Status, key: Option<JH.Uuid>, from: Status)
    | TransitionLog(id: JH.JobId, to: Status, key: Option<JH.Uuid>, from: Status)
    | TransitionWrite(id: JH.JobId, to: Status, from: Status)
    | SignOffRead(id: JH.JobId)
    | SignOffRow(id: JH.JobId)
    | SignOffWrite(id: JH.JobId)
    | SignOffLog(id: JH.JobId)
    | Finished(reply: JH.Reply)
    | Failed

  datatype Event =
    | Start(r: Rid, first: Request)
    | Step(r: Rid)
    | CutOff(r: Rid)
    | Create(id: JH.JobId, technician: Option<JH.UserId>)

  datatype State = State(db: JH.Db, reqs: map<Rid, Request>)

  predicate IsFirst(q: Request) {
    q.AssignRead? || q.RescheduleRead? || q.TransitionRead? || q.SignOffRead?
  }

  predicate Over(q: Request) {
    q.Finished? || q.Failed?
  }

  /** Where a request goes from its next statement. */
  function Next(db: JH.Db, q: Request): Request {
    match q
    case AssignRead(id, technician, known) =>
      if id !in db.jobs then Finished(JH.NotFound)
      else if !known then Finished(JH.Refused) else AssignWrite(id, technician, db.jobs[id].status)
    case AssignWrite(_, _, _) => Finished(JH.Done)
    case RescheduleRead(id, day, slot) =>
      if id !in db.jobs then Finished(JH.NotFound) else RescheduleWrite(id, day, slot, db.jobs[id])
    case RescheduleWrite(id, day, slot, _) => RescheduleLog(id, day, slot)
    case RescheduleLog(_, _, _) => Finished(JH.Done)
    case TransitionRead(id, to, key, caller) =>
      if id !in db.jobs then Finished(JH.NotFound)
      else if !JH.MayRecord(db.jobs[id], caller) then Finished(JH.Forbidden)
      else TransitionSeen(id, to, key, db.jobs[id].status)
    case TransitionSeen(id, to, key, from) =>
      if key.Some? && JH.Seen(db.events, key.value) then Finished(JH.Replayed)
      else if to !in JH.NextOf(from) then Finished(JH.Conflict) else TransitionLog(id, to, key, from)
    case TransitionLog(id, to, key, from) =>
      if key.Some? && JH.Seen(db.events, key.value) then Finished(JH.Replayed) else TransitionWrite(id, to, from)
    case TransitionWrite(_, _, _) => Finished(JH.Done)
    case SignOffRead(id) =>
      if id !in db.jobs then Finished(JH.NotFound)
      else if db.jobs[id].status != WorkDone then Finished(JH.Conflict) else SignOffRow(id)
    case SignOffRow(id) => if id in db.signOffs then Failed else SignOffWrite(id)
    case SignOffWrite(id) => SignOffLog(id)
    case SignOffLog(_) => Finished(JH.Done)
    case Finished(_) => q
    case Failed => q
  }

  function WriteStatus(db: JH.Db, id: JH.JobId, status: Status): JH.Db {
    if id in db.jobs then JH.WithStatus(db, id, status) else db
  }

  /**
    What a request's next statement does to the tables; every update is by the job's id, whatever it is like
    by then.
   */
  function After(db: JH.Db, q: Request): JH.Db {
    match q
    case AssignWrite(id, technician, from) =>
      if id !in db.jobs then db
      else
        var given := db.jobs[id].(technician := technician, status := JH.AssignedStatus(from, technician));
        db.(jobs := db.jobs[id := given])
    case RescheduleWrite(id, day, slot, read) =>
      if id !in db.jobs then db
      else
        var job := JH.MovedTo(read, day, slot, read.attempts);
        db.(jobs := db.jobs[id := db.jobs[id].(scheduled := job.scheduled, slot := job.slot, attempts := job.attempts)])
    case RescheduleLog(id, day, slot) => db.(events := db.events + [JH.Rescheduled(id, day, slot)])
    case TransitionLog(id, to, key, _) =>
      if key.Some? && JH.Seen(db.events, key.value) then db else db.(events := db.events + [JH.Moved(id, to, key)])
    case TransitionWrite(id, to, _) => WriteStatus(db, id, to)
    case SignOffRow(id) => db.(signOffs := db.signOffs + {id})
    case SignOffWrite(id) => WriteStatus(db, id, SignedOff)
    case SignOffLog(id) => db.(events := db.events + [JH.Moved(id, SignedOff, None)])
    case _ => db
  }

  function Apply(s: State, e: Event): State {
    match e
    case Start(r, q) => if r in s.reqs || !IsFirst(q) then s else s.(reqs := s.reqs[r := q])
    case Step(r) => if r in s.reqs then State(After(s.db, s.reqs[r]), s.reqs[r := Next(s.db, s.reqs[r])]) else s
    case CutOff(r) => if r in s.reqs && !Over(s.reqs[r]) then s.(reqs := s.reqs[r := Failed]) else s
    case Create(id, technician) =>
      if id in s.db.jobs then s else s.(db := s.db.(jobs := s.db.jobs[id := JH.NewJob(technician, None, None)]))
  }

  function Run(s: State, es: seq<Event>): State {
    if es == [] then s else Apply(Run(s, es[..|es| - 1]), es[|es| - 1])
  }

  /** Any tables, and no request yet. */
  predicate Initial(s: State) {
    s.reqs == map[]
  }

  predicate IsFinal(status: Status) {
    status == SignedOff || status == Cancelled
  }

  /** The status a request's next statement writes, if it writes one. */
  function Writes(q: Request): Option<Status> {
    match q
    case AssignWrite(_, technician, from) => Some(JH.AssignedStatus(from, technician))
    case TransitionWrite(_, to, _) => Some(to)
    case SignOffWrite(_) => Some(SignedOff)
    case _ => None
  }

  /** The status the request read of its job. */
  function ReadStatus(q: Request): Option<Status> {
    match q
    case AssignWrite(_, _, from) => Some(from)
    case TransitionSeen(_, _, _, from) => Some(from)
    case TransitionLog(_, _, _, from) => Some(from)
    case TransitionWrite(_, _, from) => Some(from)
    case SignOffRow(_) => Some(WorkDone)
    case SignOffWrite(_) => Some(WorkDone)
    case _ => None
  }

  /** Every job that was final still has the status it had. */
  ghost predicate FinalsKept(a: JH.Db, b: JH.Db) {
    forall id | id in a.jobs && IsFinal(a.jobs[id].status) :: id in b.jobs && b.jobs[id].status == a.jobs[id].status
  }

  ghost predicate FinalThroughout(s: State, es: seq<Event>) {
    es == [] || (FinalThroughout(s, es[..|es| - 1]) && FinalsKept(Run(s, es[..|es| - 1]).db, Run(s, es).db))
  }

  /**
    A request writes a status to a job that has come to its end since the request read it, and it is not the
    one the job has.
   */
  predicate WritesStale(s: State, e: Event) {
    && e.Step? && e.r in s.reqs && Writes(s.reqs[e.r]).Some? && ReadStatus(s.reqs[e.r]).Some?
    && s.reqs[e.r].id in s.db.jobs
    && var status := s.db.jobs[s.reqs[e.r].id].status;
       IsFinal(status) && ReadStatus(s.reqs[e.r]).value != status && Writes(s.reqs[e.r]).value != status
  }

  ghost predicate NoneWritesStale(s: State, es: seq<Event>) {
    es == [] || (NoneWritesStale(s, es[..|es| - 1]) && !WritesStale(Run(s, es[..|es| - 1]), es[|es| - 1]))
  }

  /** What a request is about to write is a step of the table from what it read. */
  predicate Lawful(q: Request) {
    match q
    case TransitionLog(_, to, _, from) => to in JH.NextOf(from)
    case TransitionWrite(_, to, from) => to in JH.NextOf(from)
    case _ => true
  }

  ghost predicate AllLawful(s: State) {
    forall r | r in s.reqs :: Lawful(s.reqs[r])
  }

  lemma LawfulKept(s: State, e: Event)
    requires AllLawful(s)
    ensures AllLawful(Apply(s, e))
  {
    hide After, JH.Seen, JH.NextOf;
  }

  lemma {:induction false} RunLawful(s: State, es: seq<Event>)
    requires Initial(s)
    ensures AllLawful(Run(s, es))
  {
    if es != [] {
      hide Apply, AllLawful;
      RunLawful(s, es[..|es| - 1]);
      LawfulKept(Run(s, es[..|es| - 1]), es[|es| - 1]);
    } else {
      assert AllLawful(s);
    }
  }

  /** Nothing lawful is written over an end that the writer had read. */
  lemma LawfulWritesFollowTheirReading(q: Request)
    requires Lawful(q) && Writes(q).Some?
    ensures ReadStatus(q).Some? && (IsFinal(ReadStatus(q).value) ==> Writes(q) == ReadStatus(q))
  {
  }

  lemma StepKeepsFinalsExactly(s: State, e: Event)
    requires AllLawful(s)
    ensures FinalsKept(s.db, Apply(s, e).db) <==> !WritesStale(s, e)
  {
    hide Next, JH.Seen, JH.NextOf;
    if e.Step? && e.r in s.reqs && Writes(s.reqs[e.r]).Some? {
      assert Lawful(s.reqs[e.r]);
      LawfulWritesFollowTheirReading(s.reqs[e.r]);
    }
  }

  /**
    In every run signed off and cancelled are final if and only if no request writes, over an end that came
    after it read the job, a status that is not that end.
   */
  lemma {:induction false} EndIsFinalExactly(s: State, es: seq<Event>)
    requires Initial(s)
    ensures FinalThroughout(s, es) <==> NoneWritesStale(s, es)
  {
    if es != [] {
      hide Apply, FinalsKept, WritesStale, AllLawful;
      EndIsFinalExactly(s, es[..|es| - 1]);
      RunLawful(s, es[..|es| - 1]);
      StepKeepsFinalsExactly(Run(s, es[..|es| - 1]), es[|es| - 1]);
    }
  }

  predicate Busy(q: Request, id: JH.JobId) {
    !Over(q) && q.id == id
  }

  /** No request is started on a job that another is working on. */
  ghost predicate Apart(s: State, e: Event) {
    e.Start? && e.r !in s.reqs && IsFirst(e.first) ==> forall x | x in s.reqs :: !Busy(s.reqs[x], e.first.id)
  }

  ghost predicate RunApart(s: State, es: seq<Event>) {
    es == [] || (RunApart(s, es[..|es| - 1]) && Apart(Run(s, es[..|es| - 1]), es[|es| - 1]))
  }

  /** What the request read is still so. */
  predicate StillSo(db: JH.Db, q: Request) {
    ReadStatus(q).Some? ==> q.id in db.jobs && db.jobs[q.id].status == ReadStatus(q).value
  }

  ghost predicate AllStillSo(s: State) {
    && (forall r | r in s.reqs :: StillSo(s.db, s.reqs[r]))
    && (forall x, y | x in s.reqs && y in s.reqs && !Over(s.reqs[x]) && Busy(s.reqs[y], s.reqs[x].id) :: x == y)
  }

  lemma StillSoNext(db: JH.Db, q: Request)
    requires StillSo(db, q)
    ensures StillSo(After(db, q), Next(db, q))
    ensures Over(Next(db, q)) || (!Over(q) && Next(db, q).id == q.id)
  {
    hide JH.Seen, JH.MayRecord, JH.NextOf, JH.AssignedStatus;
  }

  lemma StillSoElsewhere(db: JH.Db, q: Request, other: Request)
    requires StillSo(db, other) && (Over(q) || Over(other) || q.id != other.id)
    ensures StillSo(After(db, q), other)
  {
    hide JH.Seen, JH.AssignedStatus, JH.MovedTo;
  }

  lemma StepKeepsStillSo(s: State, r: Rid)
    requires AllStillSo(s) && r in s.reqs
    ensures AllStillSo(Apply(s, Step(r)))
  {
    var q := s.reqs[r];
    StillSoNext(s.db, q);
    hide After, Next, StillSo;
    forall x | x in s.reqs && x != r
      ensures StillSo(After(s.db, q), s.reqs[x])
    {
      StillSoElsewhere(s.db, q, s.reqs[x]);
    }
  }

  lemma ApartStep(s: State, e: Event)
    requires AllStillSo(s) && Apart(s, e)
    ensures AllStillSo(Apply(s, e)) && !WritesStale(s, e)
  {
    if e.Step? && e.r in s.reqs {
      StepKeepsStillSo(s, e.r);
      assert StillSo(s.db, s.reqs[e.r]);
      hide AllStillSo, Next, After;
    } else {
      hide Next, After, JH.NewJob;
    }
  }

  lemma {:induction false} ApartNeverWritesStale(s: State, es: seq<Event>)
    requires Initial(s) && RunApart(s, es)
    ensures AllStillSo(Run(s, es)) && NoneWritesStale(s, es)
  {
    if es != [] {
      hide Apply, AllStillSo, Apart, WritesStale;
      ApartNeverWritesStale(s, es[..|es| - 1]);
      ApartStep(Run(s, es[..|es| - 1]), es[|es| - 1]);
    } else {
      assert AllStillSo(s);
    }
  }

  /** While requests keep to different jobs, however they interleave, signed off and cancelled are final. */
  lemma EndIsFinalWhenApart(s: State, es: seq<Event>)
    requires Initial(s) && RunApart(s, es)
    ensures FinalThroughout(s, es)
  {
    ApartNeverWritesStale(s, es);
    EndIsFinalExactly(s, es);
  }

  lemma {:induction false} RunConcat(s: State, a: seq<Event>, b: seq<Event>)
    ensures Run(s, a + b) == Run(Run(s, a), b)
  {
    hide Apply;
    if b == [] {
      assert a + b == a;
    } else {
      assert (a + b)[..|a + b| - 1] == a + b[..|b| - 1];
      RunConcat(s, a, b[..|b| - 1]);
    }
  }

  lemma RunOfFive(s: State, a: Event, b: Event, c: Event, d: Event, e: Event)
    ensures Run(s, [a, b, c, d, e]) == Apply(Apply(Apply(Apply(Apply(s, a), b), c), d), e)
  {
    hide Apply;
    assert [a, b, c, d, e][..4] == [a, b, c, d] && [a, b, c, d][..3] == [a, b, c] && [a, b, c][..2] == [a, b];
    assert [a, b][..1] == [a] && [a][..0] == [];
    assert Run(s, []) == s && Run(s, [a]) == Apply(s, a) && Run(s, [a, b]) == Apply(Run(s, [a]), b);
    assert Run(s, [a, b, c]) == Apply(Run(s, [a, b]), c);
    assert Run(s, [a, b, c, d]) == Apply(Run(s, [a, b, c]), d);
  }

  /** No two moves on the timeline carry one replay key: the unique constraint on entries. */
  ghost predicate KeysDiffer(events: seq<JH.Entry>) {
    forall i, j | 0 <= i < j < |events| && events[i].Moved? && events[j].Moved? && events[i].key.Some? ::
      events[i].key != events[j].key
  }

  lemma OneMoreEntry(events: seq<JH.Entry>, e: JH.Entry)
    requires KeysDiffer(events) && (e.Moved? && e.key.Some? ==> !JH.Seen(events, e.key.value))
    ensures KeysDiffer(events + [e])
  {
  }

  lemma EntriesGrowByOne(s: State, e: Event)
    requires KeysDiffer(s.db.events)
    ensures KeysDiffer(Apply(s, e).db.events) && s.db.events <= Apply(s, e).db.events
  {
    hide Next, JH.Seen;
    if e.Step? && e.r in s.reqs && |Apply(s, e).db.events| > |s.db.events| {
      var entry := Apply(s, e).db.events[|s.db.events|];
      assert Apply(s, e).db.events == s.db.events + [entry];
      OneMoreEntry(s.db.events, entry);
    }
    hide KeysDiffer;
  }

  /**
    However many copies of an item race each other, each key has at most one entry in every run, and an entry
    once there stays: of racing copies the insert takes one.
   */
  lemma {:induction false} OneEntryPerKey(s: State, es: seq<Event>)
    requires KeysDiffer(s.db.events)
    ensures KeysDiffer(Run(s, es).db.events) && s.db.events <= Run(s, es).db.events
  {
    if es != [] {
      hide Apply, KeysDiffer;
      OneEntryPerKey(s, es[..|es| - 1]);
      EntriesGrowByOne(Run(s, es[..|es| - 1]), es[|es| - 1]);
    }
  }

  /** The request has written its sign-off row and is not through. */
  predicate PastItsRow(q: Request, id: JH.JobId) {
    (q.SignOffWrite? || q.SignOffLog?) && q.id == id
  }

  ghost predicate OnePastItsRow(s: State) {
    && (forall r, id | r in s.reqs && PastItsRow(s.reqs[r], id) :: id in s.db.signOffs)
    && (forall x, y, id | x in s.reqs && y in s.reqs ::
          PastItsRow(s.reqs[x], id) && PastItsRow(s.reqs[y], id) ==> x == y)
  }

  lemma OnePastItsRowKept(s: State, e: Event)
    requires OnePastItsRow(s)
    ensures OnePastItsRow(Apply(s, e)) && s.db.signOffs <= Apply(s, e).db.signOffs
  {
    hide JH.Seen, JH.MayRecord, JH.NextOf, JH.AssignedStatus, JH.MovedTo, JH.NewJob;
    if e.Step? && e.r in s.reqs {
      var q, next := s.reqs[e.r], Next(s.db, s.reqs[e.r]);
      assert forall id | PastItsRow(next, id) :: PastItsRow(q, id) || (q == SignOffRow(id) && id !in s.db.signOffs);
      assert forall id | PastItsRow(next, id) :: id in After(s.db, q).signOffs;
      hide Next, After, PastItsRow;
    }
  }

  /** However many sign-offs of a job race, its row lets one of them through, and is never taken away. */
  lemma {:induction false} OneSignOffGoesOn(s: State, es: seq<Event>, x: Rid, y: Rid, id: JH.JobId)
    requires Initial(s)
    ensures OnePastItsRow(Run(s, es)) && s.db.signOffs <= Run(s, es).db.signOffs
    ensures var now := Run(s, es);
            x in now.reqs && y in now.reqs && PastItsRow(now.reqs[x], id) && PastItsRow(now.reqs[y], id) ==> x == y
  {
    if es != [] {
      hide Apply, OnePastItsRow;
      OneSignOffGoesOn(s, es[..|es| - 1], x, y, id);
      OnePastItsRowKept(Run(s, es[..|es| - 1]), es[|es| - 1]);
    }
    assert OnePastItsRow(Run(s, es));
  }

  /** At both its looks, before and at the insert, a copy is answered as replayed exactly when its key has its entry. */
  lemma ReplayedExactlyWhenSeen(s: State, r: Rid)
    requires r in s.reqs && (s.reqs[r].TransitionSeen? || s.reqs[r].TransitionLog?)
    ensures var q, next := s.reqs[r], Apply(s, Step(r)).reqs[r];
            next == Finished(JH.Replayed) <==> q.key.Some? && JH.Seen(s.db.events, q.key.value)
  {
    hide JH.Seen;
  }

  /** A request from its start, with nobody in between; four statements are enough for any. */
  function Whole(r: Rid, q: Request): seq<Event> {
    [Start(r, q), Step(r), Step(r), Step(r), Step(r)]
  }

  /** The operation of the one-at-a-time model that a request carries out. */
  function Operation(q: Request): JH.Op
    requires IsFirst(q)
  {
    match q
    case AssignRead(id, technician, known) => JH.Assign(id, technician, known)
    case RescheduleRead(id, day, slot) => JH.Reschedule(id, day, slot)
    case TransitionRead(id, to, key, caller) => JH.Transition(id, to, key, caller)
    case SignOffRead(id) => JH.SignOff(id)
  }

  /** A job made by the way is one that the handler makes without a date. */
  lemma CreateIsTheHandler(s: State, id: JH.JobId, technician: Option<JH.UserId>)
    ensures Apply(s, Create(id, technician))
         == s.(db := JH.Handle(s.db, JH.Create(id, technician, None, None)).0)
  {
    hide JH.NewJob;
  }

  /** All statements of a request at once. */
  function Outcome(db: JH.Db, q: Request, n: nat): (JH.Db, Request)
    decreases n
  {
    if n == 0 then (db, q) else Outcome(After(db, q), Next(db, q), n - 1)
  }

  lemma OutcomeOfFour(db: JH.Db, q: Request)
    ensures var (d1, q1) := (After(db, q), Next(db, q));
            var (d2, q2) := (After(d1, q1), Next(d1, q1));
            var (d3, q3) := (After(d2, q2), Next(d2, q2));
            Outcome(db, q, 4) == (After(d3, q3), Next(d3, q3))
  {
    hide After, Next;
    var (d1, q1) := (After(db, q), Next(db, q));
    var (d2, q2) := (After(d1, q1), Next(d1, q1));
    var (d3, q3) := (After(d2, q2), Next(d2, q2));
    assert Outcome(db, q, 4) == Outcome(d1, q1, 3) == Outcome(d2, q2, 2) == Outcome(d3, q3, 1);
    assert Outcome(d3, q3, 1) == Outcome(After(d3, q3), Next(d3, q3), 0);
  }

  /** A request with nobody in between is the one-at-a-time handler, while no stray row stands in a sign-off's way. */
  lemma AloneIsTheHandler(db: JH.Db, q: Request)
    requires IsFirst(q) && (q.SignOffRead? && JH.IsWorkDone(db, q.id) ==> q.id !in db.signOffs)
    ensures var (after, reply) := JH.Handle(db, Operation(q));
            Outcome(db, q, 4) == (after, Finished(reply))
  {
    OutcomeOfFour(db, q);
    hide Outcome, JH.Seen, JH.MayRecord, JH.NextOf;
    if q.RescheduleRead? && q.id in db.jobs {
      var job := JH.MovedTo(db.jobs[q.id], q.day, q.slot, db.jobs[q.id].attempts);
      assert db.jobs[q.id].(scheduled := job.scheduled, slot := job.slot, attempts := job.attempts) == job;
    }
  }

  lemma WholeIsTheOutcome(s: State, r: Rid, q: Request)
    requires r !in s.reqs && IsFirst(q)
    ensures var (db, end) := Outcome(s.db, q, 4);
            Run(s, Whole(r, q)) == State(db, s.reqs[r := end])
  {
    RunOfFive(s, Start(r, q), Step(r), Step(r), Step(r), Step(r));
    OutcomeOfFour(s.db, q);
    hide Run, Outcome, After, Next;
    var (d1, q1) := (After(s.db, q), Next(s.db, q));
    var (d2, q2) := (After(d1, q1), Next(d1, q1));
    var (d3, q3) := (After(d2, q2), Next(d2, q2));
    var s1 := Apply(Apply(s, Start(r, q)), Step(r));
    assert s1 == State(d1, s.reqs[r := q1]);
    var s2 := Apply(s1, Step(r));
    assert s2 == State(d2, s.reqs[r := q2]);
    assert Apply(s2, Step(r)) == State(d3, s.reqs[r := q3]);
  }

  /**
    An assignment that has read a finished job and writes after the customer has signed: the job goes back
    to work done, with its sign-off row and its timeline saying otherwise.
   */
  lemma AssignmentUndoesASignOff(s: State, a: Rid, b: Rid, id: JH.JobId, technician: Option<JH.UserId>)
    requires Initial(s) && a != b && JH.IsWorkDone(s.db, id) && id !in s.db.signOffs
    ensures var read := [Start(a, AssignRead(id, technician, true)), Step(a)];
            var now := Run(s, read + Whole(b, SignOffRead(id)) + [Step(a)]);
            && JH.IsWorkDone(now.db, id) && id in now.db.signOffs
            && b in now.reqs && now.reqs[b] == Finished(JH.Done)
            && now.db.events == s.db.events + [JH.Moved(id, SignedOff, None)]
  {
    var read := [Start(a, AssignRead(id, technician, true)), Step(a)];
    assert read[..1] == [read[0]] && read[..1][..0] == [] && Run(s, []) == s;
    assert Run(s, read[..1]) == Apply(s, read[0]);
    var s1 := Run(s, read);
    assert s1 == State(s.db, s.reqs[a := AssignWrite(id, technician, WorkDone)]);
    RunConcat(s, read, Whole(b, SignOffRead(id)));
    RunConcat(s, read + Whole(b, SignOffRead(id)), [Step(a)]);
    WholeIsTheOutcome(s1, b, SignOffRead(id));
    AloneIsTheHandler(s1.db, SignOffRead(id));
    var s2 := Run(s1, Whole(b, SignOffRead(id)));
    assert [Step(a)][..0] == [] && Run(s2, []) == s2;
    assert Run(s2, [Step(a)]) == Apply(s2, Step(a));
    hide Run, Outcome;
  }
}
