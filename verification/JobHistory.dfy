/**
  A job from creation to its end: the create, assign, reschedule, transition and sign-off handlers of
  `src/routes/jobs.ts`.
 */
module JobHistory {
  import opened Wrappers
  import opened JobStatuses

  type JobId = nat
  type UserId = nat
  type Uuid = nat

  type Day = nat
  type Slot = nat

  datatype Job = Job(status: Status, technician: Option<UserId>, attempts: nat,
                     scheduled: Option<Day>, slot: Option<Slot>)

  /** A timeline entry: a move to a state, with the phone's replay key if it has one, or a new date and slot. */
  datatype Entry =
    | Moved(job: JobId, to: Status, key: Option<Uuid>)
    | Rescheduled(job: JobId, day: Day, slot: Option<Slot>)

  /** `signOffs` holds at most one row for a job. */
  datatype Db = Db(jobs: map<JobId, Job>, events: seq<Entry>, signOffs: set<JobId>)

  datatype Caller = Technician(id: UserId) | Office(mayWrite: bool)

  datatype Reply = NotFound | Forbidden | Refused | Conflict | Replayed | Done

  /** `known` says that everyone named is an active technician here. */
  datatype Op =
    | Create(id: JobId, technician: Option<UserId>, scheduled: Option<Day>, slot: Option<Slot>)
    | Assign(id: JobId, technician: Option<UserId>, known: bool)
    | Reschedule(id: JobId, day: Day, slot: Option<Slot>)
    | SignOff(id: JobId)
    | Transition(id: JobId, to: Status, key: Option<Uuid>, caller: Caller)

  /** `NEXT`. */
  function NextOf(s: Status): set<Status> {
    match s
    case Created => {Assigned, Cancelled}
    case Assigned => {EnRoute, CustomerUnavailable, Cancelled}
    case EnRoute => {OnSite, CustomerUnavailable}
    case OnSite => {WorkDone, PartsAwaited, CustomerUnavailable}
    case PartsAwaited => {Assigned, OnSite, Cancelled}
    case CustomerUnavailable => {Assigned, Cancelled}
    case WorkDone => {SignedOff}
    case SignedOff => {}
    case Cancelled => {}
  }

  predicate Seen(events: seq<Entry>, key: Uuid) {
    exists i :: 0 <= i < |events| && events[i].Moved? && events[i].key == Some(key)
  }

  predicate MayRecord(job: Job, caller: Caller) {
    match caller
    case Technician(u) => job.technician == Some(u)
    case Office(mayWrite) => mayWrite
  }

  function WithStatus(db: Db, id: JobId, status: Status): Db
    requires id in db.jobs
  {
    db.(jobs := db.jobs[id := db.jobs[id].(status := status)])
  }

  /** The replay check comes before the transition table. */
  function Transit(db: Db, id: JobId, to: Status, key: Option<Uuid>, caller: Caller): (Db, Reply) {
    if id !in db.jobs then (db, NotFound)
    else if !MayRecord(db.jobs[id], caller) then (db, Forbidden)
    else if key.Some? && Seen(db.events, key.value) then (db, Replayed)
    else if to !in NextOf(db.jobs[id].status) then (db, Conflict)
    else (WithStatus(db.(events := db.events + [Moved(id, to, key)]), id, to), Done)
  }

  function NewJob(technician: Option<UserId>, scheduled: Option<Day>, slot: Option<Slot>): Job {
    Job(if technician.Some? then Assigned else Created, technician, 1, scheduled, slot)
  }

  /** Only a job still as it was created becomes assigned; any other keeps its status. */
  function AssignedStatus(status: Status, technician: Option<UserId>): Status {
    if status == Created && technician.Some? then Assigned else status
  }

  /** A new date, the old slot where none is given, and one attempt more than was read. */
  function MovedTo(job: Job, day: Day, slot: Option<Slot>, attempts: nat): Job {
    job.(scheduled := Some(day), slot := if slot.Some? then slot else job.slot, attempts := attempts + 1)
  }

  function Handle(db: Db, op: Op): (Db, Reply) {
    match op
    case Create(id, technician, scheduled, slot) =>
      if id in db.jobs then (db, Conflict)
      else (db.(jobs := db.jobs[id := NewJob(technician, scheduled, slot)]), Done)
    case Assign(id, technician, known) =>
      if id !in db.jobs then (db, NotFound)
      else if !known then (db, Refused)
      else
        var job := db.jobs[id];
        var given := job.(technician := technician, status := AssignedStatus(job.status, technician));
        (db.(jobs := db.jobs[id := given]), Done)
    case Reschedule(id, day, slot) =>
      if id !in db.jobs then (db, NotFound)
      else
        var job := MovedTo(db.jobs[id], day, slot, db.jobs[id].attempts);
        (db.(jobs := db.jobs[id := job], events := db.events + [Rescheduled(id, day, slot)]), Done)
    case SignOff(id) =>
      if id !in db.jobs then (db, NotFound)
      else if db.jobs[id].status != WorkDone then (db, Conflict)
      else
        var signed := db.(signOffs := db.signOffs + {id}, events := db.events + [Moved(id, SignedOff, None)]);
        (WithStatus(signed, id, SignedOff), Done)
    case Transition(id, to, key, caller) => Transit(db, id, to, key, caller)
  }

  /** The states a job can enter each state from. */
  function EnteredFrom(to: Status): set<Status> {
    match to
    case Created => {}
    case Assigned => {Created, PartsAwaited, CustomerUnavailable}
    case EnRoute => {Assigned}
    case OnSite => {EnRoute, PartsAwaited}
    case PartsAwaited => {OnSite}
    case CustomerUnavailable => {Assigned, EnRoute, OnSite}
    case WorkDone => {OnSite}
    case SignedOff => {WorkDone}
    case Cancelled => {Created, Assigned, PartsAwaited, CustomerUnavailable}
  }

  /** The answer of a transition: the technician of the job or an office that may write, a new key, an allowed move. */
  lemma TransitionAnswers(db: Db, id: JobId, to: Status, key: Option<Uuid>, caller: Caller)
    ensures var (after, reply) := Handle(db, Transition(id, to, key, caller));
            && reply == (
                 if id !in db.jobs then NotFound
                 else if (match caller case Technician(u) => db.jobs[id].technician != Some(u) case Office(may) => !may)
                 then Forbidden
                 else if key.Some? && exists e :: e in db.events && e.Moved? && e.key == key then Replayed
                 else if db.jobs[id].status !in EnteredFrom(to) then Conflict else Done)
            && (reply != Done ==> after == db)
            && (reply == Done ==>
                  after == Db(db.jobs[id := db.jobs[id].(status := to)], db.events + [Moved(id, to, key)], db.signOffs))
  {
    if key.Some? {
      assert (exists e :: e in db.events && e.Moved? && e.key == key) <==> Seen(db.events, key.value);
    }
    hide Seen;
  }

  /** The field is set by the request only where it gives a value. */
  function Given<T>(asked: Option<T>, had: Option<T>): Option<T> {
    if asked.Some? then asked else had
  }

  /**
    Who writes what: a request leaves every other job as it was, and of its own job the technician is changed by
    nothing but an accepted assignment, date and slot by nothing but a reschedule, which keeps the slot unless it
    gives one.
   */
  lemma WhoWritesWhat(db: Db, op: Op, id: JobId)
    requires id in db.jobs
    ensures var before, after := db.jobs[id], Handle(db, op).0.jobs;
            && id in after && (op.id != id ==> after[id] == before)
            && after[id].technician
               == (if op.id == id && op.Assign? && op.known then op.technician else before.technician)
            && after[id].scheduled == (if op.id == id && op.Reschedule? then Some(op.day) else before.scheduled)
            && after[id].slot == (if op.id == id && op.Reschedule? then Given(op.slot, before.slot) else before.slot)
            && after[id].attempts == before.attempts + (if op.id == id && op.Reschedule? then 1 else 0)
            && (op.id == id && op.Assign? && op.known ==>
                  after[id].status
                  == if before.status == Created && op.technician.Some? then Assigned else before.status)
  {
    hide Seen, MayRecord, NextOf;
  }

  /** A new job is what was asked for, on its first attempt; an id that is taken is refused. */
  lemma CreatedAsAsked(db: Db, id: JobId, technician: Option<UserId>, scheduled: Option<Day>, slot: Option<Slot>)
    ensures var (after, reply) := Handle(db, Create(id, technician, scheduled, slot));
            var status := if technician == None then Created else Assigned;
            if id in db.jobs then reply == Conflict && after == db
            else reply == Done && after == db.(jobs := db.jobs[id := Job(status, technician, 1, scheduled, slot)])
  {
  }

  /** The tables with the statuses each job has had, in order. */
  datatype State = State(db: Db, history: map<JobId, seq<Status>>)

  /** A status joins the history when it changes. */
  function Noted(history: map<JobId, seq<Status>>, before: map<JobId, Job>, after: map<JobId, Job>,
                 id: JobId): map<JobId, seq<Status>> {
    if id !in after then history
    else if id !in before || id !in history then history[id := [after[id].status]]
    else if after[id].status == before[id].status then history
    else history[id := history[id] + [after[id].status]]
  }

  function Apply(s: State, op: Op): State {
    var db := Handle(s.db, op).0;
    State(db, Noted(s.history, s.db.jobs, db.jobs, op.id))
  }

  function Run(s: State, ops: seq<Op>): State {
    if ops == [] then s else Apply(Run(s, ops[..|ops| - 1]), ops[|ops| - 1])
  }

  predicate Initial(s: State) {
    s.db.jobs == map[] && s.db.signOffs == {} && s.history == map[]
  }

  /** A job's statuses start at created or assigned and follow the table, ending at the present one. */
  ghost predicate IsPath(path: seq<Status>) {
    && path != [] && (path[0] == Created || path[0] == Assigned)
    && (forall i | 0 <= i && i + 1 < |path| :: path[i + 1] in NextOf(path[i]))
  }

  /** The path ends at this status. */
  ghost predicate LeadsTo(path: seq<Status>, status: Status) {
    IsPath(path) && path[|path| - 1] == status
  }

  ghost predicate Inv(s: State) {
    && s.history.Keys == s.db.jobs.Keys
    && (forall id | id in s.db.jobs :: LeadsTo(s.history[id], s.db.jobs[id].status))
    && (forall id | id in s.db.signOffs :: id in s.db.jobs && s.db.jobs[id].status == SignedOff)
  }

  lemma PathGrows(path: seq<Status>, next: Status)
    requires IsPath(path) && next in NextOf(path[|path| - 1])
    ensures IsPath(path + [next])
  {
  }

  lemma HandleMovesByTheTable(db: Db, op: Op, id: JobId)
    ensures var db' := Handle(db, op).0;
            && db.jobs.Keys <= db'.jobs.Keys <= db.jobs.Keys + {op.id}
            && (id in db'.jobs && id !in db.jobs ==> db'.jobs[id].status == Created || db'.jobs[id].status == Assigned)
            && (id in db.jobs && db'.jobs[id].status != db.jobs[id].status ==>
                op.id == id && db'.jobs[id].status in NextOf(db.jobs[id].status))
            && (forall x | x in db'.signOffs && x !in db.signOffs ::
                x == op.id && x in db'.jobs && db'.jobs[x].status == SignedOff)
            && db.signOffs <= db'.signOffs
  {
  }

  lemma ApplyKeeps(s: State, op: Op)
    requires Inv(s)
    ensures Inv(Apply(s, op))
  {
    hide Handle, LeadsTo, NextOf;
    var s' := Apply(s, op);
    HandleMovesByTheTable(s.db, op, op.id);
    forall id | id in s'.db.jobs
      ensures id in s'.history && LeadsTo(s'.history[id], s'.db.jobs[id].status)
    {
      OnePath(s, op, id);
    }
    forall id | id in s'.db.signOffs
      ensures id in s'.db.jobs && s'.db.jobs[id].status == SignedOff
    {
      if id in s.db.signOffs {
        HandleMovesByTheTable(s.db, op, id);
        NothingAfterTheEnd();
      }
    }
  }

  lemma OnePath(s: State, op: Op, id: JobId)
    requires Inv(s) && id in Apply(s, op).db.jobs
    ensures var s' := Apply(s, op);
            id in s'.history && LeadsTo(s'.history[id], s'.db.jobs[id].status)
  {
    HandleMovesByTheTable(s.db, op, id);
    hide Handle, NextOf;
    if id in s.db.jobs && id == op.id && Apply(s, op).db.jobs[id].status != s.db.jobs[id].status {
      PathGrows(s.history[id], Apply(s, op).db.jobs[id].status);
    }
  }

  lemma NothingAfterTheEnd()
    ensures NextOf(SignedOff) == {} && NextOf(Cancelled) == {}
  {
  }

  lemma {:induction false} RunKeeps(s: State, ops: seq<Op>)
    requires Inv(s)
    ensures Inv(Run(s, ops))
  {
    if ops != [] {
      hide Inv, Apply;
      RunKeeps(s, ops[..|ops| - 1]);
      ApplyKeeps(Run(s, ops[..|ops| - 1]), ops[|ops| - 1]);
    }
  }

  /** Every job's history is a path of the table to where the job stands now. */
  lemma {:induction false} HistoryFollowsTheTable(s: State, ops: seq<Op>, id: JobId)
    requires Initial(s) && id in Run(s, ops).db.jobs
    ensures var now := Run(s, ops);
            id in now.history && LeadsTo(now.history[id], now.db.jobs[id].status)
  {
    RunKeeps(s, ops);
    hide Run, Apply, IsPath;
  }

  /** The states a job's timeline says it moved to, in order. */
  function Moves(events: seq<Entry>, id: JobId): seq<Status> {
    if events == [] then []
    else
      var before, e := Moves(events[..|events| - 1], id), events[|events| - 1];
      if e.Moved? && e.job == id then before + [e.to] else before
  }

  function Reschedules(events: seq<Entry>, id: JobId): nat {
    if events == [] then 0
    else
      var e := events[|events| - 1];
      Reschedules(events[..|events| - 1], id) + if e.Rescheduled? && e.job == id then 1 else 0
  }

  lemma OneMoreEntry(events: seq<Entry>, e: Entry, id: JobId)
    ensures Moves(events + [e], id) == Moves(events, id) + if e.Moved? && e.job == id then [e.to] else []
    ensures Reschedules(events + [e], id) == Reschedules(events, id) + if e.Rescheduled? && e.job == id then 1 else 0
  {
    assert (events + [e])[..|events|] == events;
  }

  /** How a job began, before anything moved it: created, assigned from the start, or assigned after. */
  predicate Beginning(path: seq<Status>) {
    path == [Created] || path == [Assigned] || path == [Created, Assigned]
  }

  /** The history is the beginning and then what the timeline says. */
  ghost predicate Told(path: seq<Status>, moves: seq<Status>) {
    |moves| < |path| && Beginning(path[..|path| - |moves|]) && path[|path| - |moves|..] == moves
  }

  ghost predicate AllTold(s: State) {
    && (forall id | id in s.db.jobs ::
          && id in s.history && Told(s.history[id], Moves(s.db.events, id))
          && s.db.jobs[id].attempts == 1 + Reschedules(s.db.events, id))
    && (forall id | id !in s.db.jobs :: Moves(s.db.events, id) == [] && Reschedules(s.db.events, id) == 0)
  }

  lemma ToldGrows(path: seq<Status>, moves: seq<Status>, next: Status)
    requires Told(path, moves)
    ensures Told(path + [next], moves + [next])
  {
    var more := path + [next];
    assert more[..|more| - |moves| - 1] == path[..|path| - |moves|];
    assert more[|more| - |moves| - 1..] == path[|path| - |moves|..] + [next];
  }

  lemma CreatedHasNotMoved(path: seq<Status>, moves: seq<Status>)
    requires IsPath(path) && Told(path, moves) && path[|path| - 1] == Created
    ensures moves == [] && path == [Created]
  {
    assert |path| > 1 ==> path[|path| - 2 + 1] in NextOf(path[|path| - 2]);
    assert |path| == 1;
  }

  /** What one request adds to the timeline. */
  function Logged(db: Db, op: Op): seq<Entry> {
    match op
    case Reschedule(id, day, slot) => if id in db.jobs then [Rescheduled(id, day, slot)] else []
    case SignOff(id) => if id in db.jobs && db.jobs[id].status == WorkDone then [Moved(id, SignedOff, None)] else []
    case Transition(id, to, key, caller) =>
      if Transit(db, id, to, key, caller).1.Done? then [Moved(id, to, key)] else []
    case _ => []
  }

  lemma HandleLogs(db: Db, op: Op)
    ensures Handle(db, op).0.events == db.events + Logged(db, op)
  {
    hide Seen, MayRecord, NextOf;
  }

  lemma MovesGrow(events: seq<Entry>, more: seq<Entry>, id: JobId)
    requires |more| <= 1
    ensures Moves(events + more, id)
         == Moves(events, id) + if more != [] && more[0].Moved? && more[0].job == id then [more[0].to] else []
    ensures Reschedules(events + more, id)
         == Reschedules(events, id) + if more != [] && more[0].Rescheduled? && more[0].job == id then 1 else 0
  {
    if more == [] {
      assert events + more == events;
    } else {
      assert more == [more[0]];
      OneMoreEntry(events, more[0], id);
    }
  }

  /** The request's entry is about its own job, and says what became of it. */
  lemma LoggedTells(db: Db, op: Op, id: JobId)
    requires id in db.jobs
    ensures var job, job' := db.jobs[id], Handle(db, op).0.jobs[id];
            var more := Logged(db, op);
            && id in Handle(db, op).0.jobs && |more| <= 1 && (more != [] ==> more[0].job == op.id)
            && job'.attempts == job.attempts + (if more != [] && more[0].Rescheduled? && op.id == id then 1 else 0)
            && (if more != [] && more[0].Moved? && op.id == id
                then job'.status == more[0].to && job'.status != job.status
                else job'.status == job.status
                     || (op.Assign? && op.id == id && job.status == Created && job'.status == Assigned))
  {
    hide Seen, MayRecord;
  }

  lemma LoggedOnlyForJobs(db: Db, op: Op)
    ensures |Logged(db, op)| <= 1 && (Logged(db, op) != [] ==> Logged(db, op)[0].job == op.id && op.id in db.jobs)
  {
    hide Seen, MayRecord, NextOf;
  }

  lemma NewJobTold(s: State, op: Op, id: JobId)
    requires Inv(s) && AllTold(s) && id !in s.db.jobs
    ensures var s' := Apply(s, op);
            && Moves(s'.db.events, id) == [] && Reschedules(s'.db.events, id) == 0
            && (id in s'.db.jobs ==> id in s'.history && Told(s'.history[id], []) && s'.db.jobs[id].attempts == 1)
  {
    HandleMovesByTheTable(s.db, op, id);
    HandleLogs(s.db, op);
    LoggedOnlyForJobs(s.db, op);
    MovesGrow(s.db.events, Logged(s.db, op), id);
    hide Moves, Reschedules, NextOf, IsPath, Transit;
  }

  /** The history of a known job after a request. */
  lemma HistoryAfter(s: State, op: Op, id: JobId)
    requires Inv(s) && id in s.db.jobs
    ensures var s' := Apply(s, op);
            && id in s'.db.jobs && id in s.history && id in s'.history
            && s'.history[id] == s.history[id] + if s'.db.jobs[id].status == s.db.jobs[id].status then []
                                                 else [s'.db.jobs[id].status]
  {
    HandleMovesByTheTable(s.db, op, id);
    hide Handle, IsPath, NextOf;
    assert s.history[id] + [] == s.history[id];
  }

  /** A status that changed by a move, by assigning, or not at all. */
  lemma StoryGoesOn(path: seq<Status>, moves: seq<Status>, before: Status, status: Status, more: seq<Status>)
    requires Told(path, moves) && LeadsTo(path, before)
    requires if more == [] then status == before || (before == Created && status == Assigned)
             else more == [status] && status != before
    ensures Told(path + (if status == before then [] else [status]), moves + more)
  {
    if more != [] {
      ToldGrows(path, moves, status);
    } else if status == before {
      assert path + [] == path && moves + [] == moves;
    } else {
      CreatedHasNotMoved(path, moves);
      assert [Created] + [Assigned] == [Created, Assigned] && moves + [] == moves;
    }
  }

  lemma OldJobTold(s: State, op: Op, id: JobId)
    requires Inv(s) && AllTold(s) && id in s.db.jobs
    ensures var s' := Apply(s, op);
            && id in s'.db.jobs && id in s'.history && Told(s'.history[id], Moves(s'.db.events, id))
            && s'.db.jobs[id].attempts == 1 + Reschedules(s'.db.events, id)
  {
    HistoryAfter(s, op, id);
    HandleLogs(s.db, op);
    LoggedTells(s.db, op, id);
    MovesGrow(s.db.events, Logged(s.db, op), id);
    var log := Logged(s.db, op);
    var more := if log != [] && log[0].Moved? && log[0].job == id then [log[0].to] else [];
    var path, moves := s.history[id], Moves(s.db.events, id);
    var before, status := s.db.jobs[id].status, Apply(s, op).db.jobs[id].status;
    assert Told(path, moves) && LeadsTo(path, before) && s.db.jobs[id].attempts == 1 + Reschedules(s.db.events, id);
    hide Handle, NextOf, Moves, Reschedules, Inv, AllTold, Logged, Noted, Told, LeadsTo;
    StoryGoesOn(path, moves, before, status, more);
  }

  lemma {:induction false} RunTold(s: State, ops: seq<Op>)
    requires Initial(s) && s.db.events == []
    ensures AllTold(Run(s, ops))
  {
    if ops != [] {
      var before, op := Run(s, ops[..|ops| - 1]), ops[|ops| - 1];
      RunTold(s, ops[..|ops| - 1]);
      RunKeeps(s, ops[..|ops| - 1]);
      hide Inv, Told, Initial;
      var now := Apply(before, op);
      forall id
        ensures id in now.db.jobs ==>
          && id in now.history && Told(now.history[id], Moves(now.db.events, id))
          && now.db.jobs[id].attempts == 1 + Reschedules(now.db.events, id)
        ensures id !in now.db.jobs ==> Moves(now.db.events, id) == [] && Reschedules(now.db.events, id) == 0
      {
        if id in before.db.jobs {
          OldJobTold(before, op, id);
        } else {
          NewJobTold(before, op, id);
        }
      }
      hide Apply;
    }
  }

  /**
    The timeline tells the whole story: a job's statuses are its beginning followed by exactly the moves on
    its timeline, in order, and its attempts are one more than its reschedules.
   */
  lemma {:induction false} TimelineTellsTheHistory(s: State, ops: seq<Op>, id: JobId)
    requires Initial(s) && s.db.events == [] && id in Run(s, ops).db.jobs
    ensures var now := Run(s, ops);
            && id in now.history && Told(now.history[id], Moves(now.db.events, id))
            && now.db.jobs[id].attempts == 1 + Reschedules(now.db.events, id)
  {
    RunTold(s, ops);
    hide Run, Told;
  }

  /** Where a path last stood at work being done, on site, on the way and assigned, in that order. */
  ghost predicate WorkedThrough(path: seq<Status>, a: nat, e: nat, o: nat, w: nat) {
    && a < e < o < w < |path|
    && path[a] == Assigned && path[e] == EnRoute && path[o] == OnSite && path[w] == WorkDone
  }

  lemma {:induction false} ReachedEnRoute(path: seq<Status>, n: nat) returns (a: nat)
    requires IsPath(path) && n < |path| && path[n] == EnRoute
    ensures a < n && path[a] == Assigned
  {
    assert n > 0 && path[n] in NextOf(path[n - 1]);
    a := n - 1;
  }

  /** Before any stay on site, the first one came from the way there. */
  lemma {:induction false} ReachedOnSite(path: seq<Status>, n: nat) returns (e: nat)
    requires IsPath(path) && n < |path| && (path[n] == OnSite || path[n] == PartsAwaited)
    ensures e < n && path[e] == EnRoute
  {
    assert n > 0 && path[n] in NextOf(path[n - 1]);
    if path[n - 1] == EnRoute {
      e := n - 1;
    } else {
      e := ReachedOnSite(path, n - 1);
    }
  }

  /** Whatever detours it took, a signed-off job was assigned, on the way, on site and done, in that order. */
  lemma SignedOffJobsWereWorkedThrough(s: State, ops: seq<Op>, id: JobId)
    requires Initial(s) && id in Run(s, ops).db.jobs && Run(s, ops).db.jobs[id].status == SignedOff
    ensures id in Run(s, ops).history
    ensures exists a, e, o, w :: WorkedThrough(Run(s, ops).history[id], a, e, o, w)
  {
    HistoryFollowsTheTable(s, ops, id);
    hide Run;
    var path := Run(s, ops).history[id];
    var n := |path| - 1;
    assert n > 0 && path[n] in NextOf(path[n - 1]);
    var w := n - 1;
    assert path[w] == WorkDone && w > 0 && path[w] in NextOf(path[w - 1]);
    var o := w - 1;
    var e := ReachedOnSite(path, o);
    var a := ReachedEnRoute(path, e);
    assert WorkedThrough(path, a, e, o, w);
  }

  /** Signed off and cancelled are final: no run changes either. */
  lemma {:induction false} TheEndIsFinal(s: State, ops: seq<Op>, id: JobId)
    requires id in s.db.jobs && (s.db.jobs[id].status == SignedOff || s.db.jobs[id].status == Cancelled)
    ensures id in Run(s, ops).db.jobs && Run(s, ops).db.jobs[id].status == s.db.jobs[id].status
  {
    if ops != [] {
      var before := Run(s, ops[..|ops| - 1]);
      TheEndIsFinal(s, ops[..|ops| - 1], id);
      HandleMovesByTheTable(before.db, ops[|ops| - 1], id);
      NothingAfterTheEnd();
      hide Handle, NextOf;
    }
  }

  /** A sign-off row is only ever there for a job that is signed off, and stays. */
  lemma {:induction false} SignOffRowsAreForSignedOffJobs(s: State, ops: seq<Op>, id: JobId)
    requires Initial(s) && id in Run(s, ops).db.signOffs
    ensures id in Run(s, ops).db.jobs && Run(s, ops).db.jobs[id].status == SignedOff
  {
    RunKeeps(s, ops);
    hide Run, Apply, IsPath;
  }

  /** Some request of the run signed the job off by a transition, and was answered so. */
  ghost predicate SignedByTransition(s: State, ops: seq<Op>, id: JobId) {
    ops != [] &&
    var before, op := ops[..|ops| - 1], ops[|ops| - 1];
    SignedByTransition(s, before, id) || TransitionSigns(Run(s, before).db, op, id)
  }

  predicate TransitionSigns(db: Db, op: Op, id: JobId) {
    op.Transition? && op.id == id && op.to == SignedOff && Handle(db, op).1.Done?
  }

  predicate IsSignedOff(db: Db, id: JobId) {
    id in db.jobs && db.jobs[id].status == SignedOff
  }

  predicate IsWorkDone(db: Db, id: JobId) {
    id in db.jobs && db.jobs[id].status == WorkDone
  }

  /** What a request does to one job's sign-off. */
  lemma HandleSigns(db: Db, op: Op, id: JobId)
    ensures TransitionSigns(db, op, id) ==> IsWorkDone(db, id) && IsSignedOff(Handle(db, op).0, id)
    ensures TransitionSigns(db, op, id) ==> (id in Handle(db, op).0.signOffs <==> id in db.signOffs)
    ensures id in Handle(db, op).0.signOffs && id !in db.signOffs ==>
      IsWorkDone(db, id) && IsSignedOff(Handle(db, op).0, id)
    ensures IsSignedOff(Handle(db, op).0, id) && !IsSignedOff(db, id) ==>
      TransitionSigns(db, op, id) || id in Handle(db, op).0.signOffs
    ensures id in db.signOffs ==> id in Handle(db, op).0.signOffs
    ensures IsSignedOff(db, id) ==> IsSignedOff(Handle(db, op).0, id)
  {
    hide Seen, MayRecord;
  }

  /**
    In every run a job is signed off in exactly one of two ways: with a row, or by a transition. So a
    signed-off job has its row if and only if no transition of the run signed it off.
   */
  lemma {:induction false} RowExactlyUnlessByTransition(s: State, ops: seq<Op>, id: JobId)
    requires Initial(s)
    ensures IsSignedOff(Run(s, ops).db, id) ==> (id in Run(s, ops).db.signOffs <==> !SignedByTransition(s, ops, id))
    ensures id in Run(s, ops).db.signOffs || SignedByTransition(s, ops, id) ==> IsSignedOff(Run(s, ops).db, id)
  {
    if ops != [] {
      var before, op := ops[..|ops| - 1], ops[|ops| - 1];
      RowExactlyUnlessByTransition(s, before, id);
      HandleSigns(Run(s, before).db, op, id);
      hide Handle, TransitionSigns, Noted;
    }
  }

  /** Not the other way round: a transition signs a finished job off with no row, and then none can be recorded. */
  lemma TransitionSignsOffWithoutARow(s: State, id: JobId)
    requires Inv(s) && id in s.db.jobs && s.db.jobs[id].status == WorkDone
    ensures var now := Apply(s, Transition(id, SignedOff, None, Office(true)));
            && id in now.db.jobs && now.db.jobs[id].status == SignedOff && id !in now.db.signOffs
            && Handle(now.db, SignOff(id)) == (now.db, Conflict)
  {
  }

  /** What a phone queued while offline: states reached, each with its key. */
  datatype Item = Item(to: Status, key: Uuid)

  /** The status once the first `n` items have been taken. */
  function StatusAfter(start: Status, queue: seq<Item>, n: nat): Status
    requires n <= |queue|
  {
    if n == 0 then start else queue[n - 1].to
  }

  /** Keys are new and differ, and the states follow the table from where the job stands. */
  ghost predicate LegalQueue(db: Db, id: JobId, queue: seq<Item>) {
    && id in db.jobs
    && (forall i | 0 <= i < |queue| :: !Seen(db.events, queue[i].key))
    && (forall i, j | 0 <= i < j < |queue| :: queue[i].key != queue[j].key)
    && (forall i | 0 <= i < |queue| :: queue[i].to in NextOf(StatusAfter(db.jobs[id].status, queue, i)))
  }

  /** The tables once the first `n` items have been taken. */
  function Taken(db: Db, id: JobId, queue: seq<Item>, n: nat): Db
    requires id in db.jobs && n <= |queue|
  {
    if n == 0 then db
    else
      var before := Taken(db, id, queue, n - 1);
      var item := queue[n - 1];
      WithStatus(before.(events := before.events + [Moved(id, item.to, Some(item.key))]), id, item.to)
  }

  /** Sending the first `n` items, one request each; the worst reply is kept. */
  function Send(db: Db, id: JobId, queue: seq<Item>, n: nat, caller: Caller): (Db, bool)
    requires n <= |queue|
  {
    if n == 0 then (db, true)
    else
      var (before, fine) := Send(db, id, queue, n - 1, caller);
      var (after, reply) := Transit(before, id, queue[n - 1].to, Some(queue[n - 1].key), caller);
      (after, fine && (reply.Done? || reply.Replayed?))
  }

  /** Sending several prefixes one after the other, as a phone does that loses its connection. */
  function SendAll(db: Db, id: JobId, queue: seq<Item>, prefixes: seq<nat>, caller: Caller): (Db, bool)
    requires forall i | 0 <= i < |prefixes| :: prefixes[i] <= |queue|
  {
    if prefixes == [] then (db, true)
    else
      var (before, fine) := SendAll(db, id, queue, prefixes[..|prefixes| - 1], caller);
      var (after, also) := Send(before, id, queue, prefixes[|prefixes| - 1], caller);
      (after, fine && also)
  }

  function Longest(prefixes: seq<nat>): nat {
    if prefixes == [] then 0
    else
      var before, last := Longest(prefixes[..|prefixes| - 1]), prefixes[|prefixes| - 1];
      if before < last then last else before
  }

  lemma {:induction false} LongestFits(prefixes: seq<nat>, n: nat)
    requires forall i | 0 <= i < |prefixes| :: prefixes[i] <= n
    ensures Longest(prefixes) <= n
  {
    if prefixes != [] {
      LongestFits(prefixes[..|prefixes| - 1], n);
    }
  }

  lemma {:induction false} TakenIs(db: Db, id: JobId, queue: seq<Item>, n: nat)
    requires id in db.jobs && n <= |queue|
    ensures var now := Taken(db, id, queue, n);
            && id in now.jobs && now.jobs[id] == db.jobs[id].(status := StatusAfter(db.jobs[id].status, queue, n))
            && forall key ::
                 Seen(now.events, key) <==> Seen(db.events, key) || exists i :: 0 <= i < n && queue[i].key == key
  {
    if n > 0 {
      TakenIs(db, id, queue, n - 1);
      var before := Taken(db, id, queue, n - 1);
      forall key
        ensures Seen(Taken(db, id, queue, n).events, key) <==> Seen(before.events, key) || key == queue[n - 1].key
      {
        SeenGrows(before.events, Moved(id, queue[n - 1].to, Some(queue[n - 1].key)), key);
      }
    }
  }

  lemma SeenGrows(events: seq<Entry>, e: Entry, key: Uuid)
    ensures Seen(events + [e], key) <==> Seen(events, key) || (e.Moved? && e.key == Some(key))
  {
    var all := events + [e];
    assert all[|events|] == e;
    if Seen(events, key) {
      var i :| 0 <= i < |events| && events[i].Moved? && events[i].key == Some(key);
      assert all[i] == events[i];
    }
  }

  lemma TakenItemIsReplayed(db: Db, id: JobId, queue: seq<Item>, m: nat, i: nat, caller: Caller)
    requires LegalQueue(db, id, queue) && MayRecord(db.jobs[id], caller) && i < m <= |queue|
    ensures Transit(Taken(db, id, queue, m), id, queue[i].to, Some(queue[i].key), caller)
        == (Taken(db, id, queue, m), Replayed)
  {
    TakenIs(db, id, queue, m);
    hide Taken, Seen, NextOf, LegalQueue;
  }

  lemma NextItemIsTaken(db: Db, id: JobId, queue: seq<Item>, i: nat, caller: Caller)
    requires LegalQueue(db, id, queue) && MayRecord(db.jobs[id], caller) && i < |queue|
    ensures Transit(Taken(db, id, queue, i), id, queue[i].to, Some(queue[i].key), caller)
        == (Taken(db, id, queue, i + 1), Done)
  {
    TakenIs(db, id, queue, i);
    hide Seen, NextOf;
    var before := Taken(db, id, queue, i);
    assert !Seen(before.events, queue[i].key);
    assert queue[i].to in NextOf(before.jobs[id].status);
    hide LegalQueue;
  }

  /** With `m` items taken, sending the first `n` again takes just those that were missing. */
  lemma {:induction false} SendingTakesWhatIsMissing(db: Db, id: JobId, queue: seq<Item>, m: nat, n: nat,
                                                     caller: Caller)
    requires LegalQueue(db, id, queue) && MayRecord(db.jobs[id], caller) && m <= |queue| && n <= |queue|
    ensures Send(Taken(db, id, queue, m), id, queue, n, caller) == (Taken(db, id, queue, if m < n then n else m), true)
  {
    hide Transit, Taken, LegalQueue, MayRecord, NextOf, Seen;
    if n > 0 {
      SendingTakesWhatIsMissing(db, id, queue, m, n - 1, caller);
      if n - 1 < m {
        TakenItemIsReplayed(db, id, queue, m, n - 1, caller);
      } else {
        NextItemIsTaken(db, id, queue, n - 1, caller);
      }
    }
  }

  /**
    Resending any prefixes of a legal queue, any number of times and in any order, gives exactly the jobs
    and the timeline of sending the longest of them once, and no request is refused.
   */
  lemma {:induction false} ReplayIsHarmless(db: Db, id: JobId, queue: seq<Item>, prefixes: seq<nat>, caller: Caller)
    requires LegalQueue(db, id, queue) && MayRecord(db.jobs[id], caller)
    requires forall i | 0 <= i < |prefixes| :: prefixes[i] <= |queue|
    ensures Longest(prefixes) <= |queue|
    ensures SendAll(db, id, queue, prefixes, caller) == (Taken(db, id, queue, Longest(prefixes)), true)
    ensures SendAll(db, id, queue, prefixes, caller) == Send(db, id, queue, Longest(prefixes), caller)
  {
    assert Taken(db, id, queue, 0) == db;
    hide LegalQueue, Send, MayRecord;
    LongestFits(prefixes, |queue|);
    if prefixes != [] {
      var l := |prefixes| - 1;
      ReplayIsHarmless(db, id, queue, prefixes[..l], caller);
      SendingTakesWhatIsMissing(db, id, queue, Longest(prefixes[..l]), prefixes[l], caller);
    }
    SendingTakesWhatIsMissing(db, id, queue, 0, Longest(prefixes), caller);
  }

  /** The tables after a request cut off between its entry and its status: item `k` is on the timeline only. */
  function CutAt(db: Db, id: JobId, queue: seq<Item>, k: nat): Db
    requires id in db.jobs && k < |queue|
  {
    var before := Taken(db, id, queue, k);
    before.(events := before.events + [Moved(id, queue[k].to, Some(queue[k].key))])
  }

  lemma CutIs(db: Db, id: JobId, queue: seq<Item>, k: nat)
    requires id in db.jobs && k < |queue|
    ensures var cut := CutAt(db, id, queue, k);
            && id in cut.jobs && cut.jobs[id] == db.jobs[id].(status := StatusAfter(db.jobs[id].status, queue, k))
            && forall key ::
                 Seen(cut.events, key) <==> Seen(db.events, key) || exists i :: 0 <= i <= k && queue[i].key == key
  {
    var before, entry := Taken(db, id, queue, k), Moved(id, queue[k].to, Some(queue[k].key));
    TakenIs(db, id, queue, k);
    forall key
      ensures Seen(before.events + [entry], key) <==> Seen(before.events, key) || key == queue[k].key
    {
      SeenGrows(before.events, entry, key);
    }
    hide Taken, Seen;
  }

  /** Everything up to the item that was cut off is answered as replayed, and changes nothing. */
  lemma {:induction false} SendingUpToTheCut(db: Db, id: JobId, queue: seq<Item>, k: nat, n: nat, caller: Caller)
    requires LegalQueue(db, id, queue) && MayRecord(db.jobs[id], caller) && n <= k + 1 <= |queue|
    ensures Send(CutAt(db, id, queue, k), id, queue, n, caller) == (CutAt(db, id, queue, k), true)
  {
    hide CutAt, LegalQueue, NextOf, Seen, MayRecord;
    if n > 0 {
      SendingUpToTheCut(db, id, queue, k, n - 1, caller);
      CutItemIsReplayed(db, id, queue, k, n - 1, caller);
    }
  }

  lemma CutItemIsReplayed(db: Db, id: JobId, queue: seq<Item>, k: nat, i: nat, caller: Caller)
    requires LegalQueue(db, id, queue) && MayRecord(db.jobs[id], caller) && i <= k < |queue|
    ensures Transit(CutAt(db, id, queue, k), id, queue[i].to, Some(queue[i].key), caller)
        == (CutAt(db, id, queue, k), Replayed)
  {
    CutIs(db, id, queue, k);
    hide CutAt, Seen, NextOf, LegalQueue;
  }

  /** The item after the cut is accepted if the table allows it from the status that the cut left behind. */
  predicate NextIsAllowed(db: Db, id: JobId, queue: seq<Item>, k: nat)
    requires id in db.jobs && k + 1 < |queue|
  {
    queue[k + 1].to in NextOf(StatusAfter(db.jobs[id].status, queue, k))
  }

  lemma ItemAfterTheCut(db: Db, id: JobId, queue: seq<Item>, k: nat, caller: Caller)
    requires LegalQueue(db, id, queue) && MayRecord(db.jobs[id], caller) && k + 1 < |queue|
    ensures Transit(CutAt(db, id, queue, k), id, queue[k + 1].to, Some(queue[k + 1].key), caller)
         == if NextIsAllowed(db, id, queue, k) then (Taken(db, id, queue, k + 2), Done)
            else (CutAt(db, id, queue, k), Conflict)
  {
    assert id in db.jobs;
    hide Seen, NextOf, LegalQueue, CutAt, Taken;
    CutIs(db, id, queue, k);
    QueueItem(db, id, queue, k + 1);
    StatusIsOverwritten(db, id, queue, k);
    assert !Seen(CutAt(db, id, queue, k).events, queue[k + 1].key);
  }

  /** Taking the next item onto the cut tables leaves no trace of the cut. */
  lemma StatusIsOverwritten(db: Db, id: JobId, queue: seq<Item>, k: nat)
    requires id in db.jobs && k + 1 < |queue|
    ensures id in CutAt(db, id, queue, k).jobs
    ensures var cut, item := CutAt(db, id, queue, k), queue[k + 1];
            WithStatus(cut.(events := cut.events + [Moved(id, item.to, Some(item.key))]), id, item.to)
            == Taken(db, id, queue, k + 2)
  {
    TakenIs(db, id, queue, k);
    hide Seen;
    var cut, taken, to := CutAt(db, id, queue, k), Taken(db, id, queue, k + 1), queue[k + 1].to;
    assert taken == WithStatus(cut, id, queue[k].to);
    assert taken.jobs[id := taken.jobs[id].(status := to)] == cut.jobs[id := cut.jobs[id].(status := to)];
  }

  /** No state of the table leads to itself, so the job stands where it stood and not where its entry says. */
  lemma CutIsNotTaken(db: Db, id: JobId, queue: seq<Item>, k: nat)
    requires LegalQueue(db, id, queue) && k < |queue|
    ensures CutAt(db, id, queue, k) != Taken(db, id, queue, k + 1)
  {
    assert id in db.jobs;
    hide CutAt, Taken, Seen, NextOf, LegalQueue;
    QueueItem(db, id, queue, k);
    NothingLeadsToItself(StatusAfter(db.jobs[id].status, queue, k));
    CutIs(db, id, queue, k);
    TakenIs(db, id, queue, k + 1);
  }

  lemma NothingLeadsToItself(status: Status)
    ensures status !in NextOf(status)
  {
  }

  lemma QueueItem(db: Db, id: JobId, queue: seq<Item>, i: nat)
    requires LegalQueue(db, id, queue) && i < |queue|
    ensures !Seen(db.events, queue[i].key) && queue[i].to in NextOf(StatusAfter(db.jobs[id].status, queue, i))
    ensures forall j | 0 <= j < i :: queue[j].key != queue[i].key
  {
    hide Seen, NextOf;
  }

  /** From the second item after the cut on: all is well if the first was accepted, and a refusal is never mended. */
  lemma {:induction false} SendingPastTheCut(db: Db, id: JobId, queue: seq<Item>, k: nat, n: nat, caller: Caller)
    requires LegalQueue(db, id, queue) && MayRecord(db.jobs[id], caller) && k + 2 <= n <= |queue|
    ensures var (after, fine) := Send(CutAt(db, id, queue, k), id, queue, n, caller);
            if NextIsAllowed(db, id, queue, k) then after == Taken(db, id, queue, n) && fine else !fine
  {
    hide CutAt, Taken, Transit, LegalQueue, NextOf, Seen, MayRecord, NextIsAllowed;
    if n == k + 2 {
      SendingUpToTheCut(db, id, queue, k, k + 1, caller);
      ItemAfterTheCut(db, id, queue, k, caller);
    } else {
      SendingPastTheCut(db, id, queue, k, n - 1, caller);
      NextItemIsTaken(db, id, queue, n - 1, caller);
    }
  }

  /**
    With a cut-off it is harmless only sometimes. When item `k` was cut off between its entry and its status,
    resending the queue leaves the tables of an undisturbed sending, with no refusal, if and only if another
    item follows and the table allows it from the status before the item that was cut off. Without a next
    item the queue is answered as if all were well and the status stays behind; a next item that the table
    does not allow is refused.
   */
  lemma CutOffIsMendedExactly(db: Db, id: JobId, queue: seq<Item>, k: nat, n: nat, caller: Caller)
    requires LegalQueue(db, id, queue) && MayRecord(db.jobs[id], caller) && k < n <= |queue|
    ensures Send(CutAt(db, id, queue, k), id, queue, n, caller) == (Taken(db, id, queue, n), true)
        <==> k + 1 < n && NextIsAllowed(db, id, queue, k)
    ensures k + 1 == n ==> Send(CutAt(db, id, queue, k), id, queue, n, caller) == (CutAt(db, id, queue, k), true)
    ensures k + 1 < n && !NextIsAllowed(db, id, queue, k) ==> !Send(CutAt(db, id, queue, k), id, queue, n, caller).1
  {
    hide CutAt, Taken, Send, LegalQueue, MayRecord, NextIsAllowed;
    if k + 1 == n {
      SendingUpToTheCut(db, id, queue, k, n, caller);
      CutIsNotTaken(db, id, queue, k);
    } else {
      SendingPastTheCut(db, id, queue, k, n, caller);
    }
  }

  /** The handlers over the job board. */
  class JobBoard {
    var jobs: map<JobId, Job>
    var events: seq<Entry>
    var signOffs: set<JobId>

    ghost function Tables(): Db
      reads this
    {
      Db(jobs, events, signOffs)
    }

    method CreateJob(id: JobId, technician: Option<UserId>, scheduled: Option<Day>, slot: Option<Slot>)
      requires id !in jobs
      modifies `jobs
      ensures Tables() == Handle(old(Tables()), Create(id, technician, scheduled, slot)).0
      ensures jobs[id].status == if technician.Some? then Assigned else Created
    {
      var status := if technician.Some? then Assigned else Created;
      jobs := jobs[id := Job(status, technician, 1, scheduled, slot)];
    }

    method AssignJob(id: JobId, technician: Option<UserId>, known: bool) returns (reply: Reply)
      modifies `jobs
      ensures (Tables(), reply) == Handle(old(Tables()), Assign(id, technician, known))
      ensures reply == Refused <==> id in old(jobs) && !known
    {
      if id !in jobs {
        return NotFound;
      }
      if !known {
        return Refused;
      }
      var job := jobs[id];
      var status := if job.status == Created && technician.Some? then Assigned else job.status;
      jobs := jobs[id := job.(technician := technician, status := status)];
      return Done;
    }

    method RescheduleJob(id: JobId, day: Day, slot: Option<Slot>) returns (reply: Reply)
      modifies `jobs, `events
      ensures (Tables(), reply) == Handle(old(Tables()), Reschedule(id, day, slot))
      ensures id in old(jobs) ==> jobs[id].scheduled == Some(day) && jobs[id].status == old(jobs)[id].status
    {
      if id !in jobs {
        return NotFound;
      }
      var job := jobs[id];
      var newSlot := if slot.Some? then slot else job.slot;
      jobs := jobs[id := job.(scheduled := Some(day), slot := newSlot, attempts := job.attempts + 1)];
      events := events + [Rescheduled(id, day, slot)];
      return Done;
    }

    method RecordSignOff(id: JobId) returns (reply: Reply)
      modifies this
      ensures (Tables(), reply) == Handle(old(Tables()), SignOff(id))
    {
      if id !in jobs {
        return NotFound;
      }
      if jobs[id].status != WorkDone {
        return Conflict;
      }
      signOffs := signOffs + {id};
      jobs := jobs[id := jobs[id].(status := SignedOff)];
      events := events + [Moved(id, SignedOff, None)];
      return Done;
    }

    method TransitionJob(id: JobId, to: Status, key: Option<Uuid>, caller: Caller) returns (reply: Reply)
      modifies `jobs, `events
      ensures (Tables(), reply) == Handle(old(Tables()), Transition(id, to, key, caller))
    {
      if id !in jobs {
        return NotFound;
      }
      var job := jobs[id];
      if !MayRecord(job, caller) {
        return Forbidden;
      }
      if key.Some? {
        var seen := Seen(events, key.value);
        if seen {
          return Replayed;
        }
      }
      if to !in NextOf(job.status) {
        return Conflict;
      }
      events := events + [Moved(id, to, key)];
      jobs := jobs[id := job.(status := to)];
      return Done;
    }
  }
}
