/**
  The outbox of reminders: `enqueueReminders` and `drainReminders` of `src/lib/notify/run.ts`.

  A drain reads the rows that are due once and then works through them, with a send to the outside and a
  statement that records it for each. Enqueues, drains and cut-offs interleave as events; a row is named
  by its position in the table, which only grows.
 */
module ReminderOutbox {
  import opened Wrappers
  import opened ReminderPlan

  datatype RowState = Pending | Sent | Failed

  datatype Row = Row(key: string, channel: Channel, recipient: string, state: RowState, attempts: nat, due: int)

  /** What a sender answers: sent, a failure worth another try, or a final one. */
  datatype Outcome = Delivered | Retry | Final

  /** A row as a drain read it. */
  datatype Pick = Pick(row: nat, attempts: nat, channel: Channel)

  /** A drain at work: the rows still to do, and the answer for the first of them when it was just sent. */
  datatype Drain = Drain(queue: seq<Pick>, answered: Option<Outcome>, senders: set<Channel>)

  type DrainId = nat

  datatype Event =
    | Enqueue(planned: seq<Planned>, due: int)
    | Begin(d: DrainId, now: int, picks: seq<nat>, senders: set<Channel>)
    | Send(d: DrainId, outcome: Outcome)
    | Record(d: DrainId)
    | CutOff(d: DrainId)

  /** `delivered` lists the rows whose message went out, once for each time it did. */
  datatype State = State(rows: seq<Row>, drains: map<DrainId, Drain>, delivered: seq<nat>)

  const BATCH := 200

  predicate HasKey(rows: seq<Row>, key: string) {
    exists i :: 0 <= i < |rows| && rows[i].key == key
  }

  /** The insert skips every key that is there, before or within itself. */
  function Inserted(rows: seq<Row>, planned: seq<Planned>, due: int): seq<Row> {
    if planned == [] then rows
    else
      var before, p := Inserted(rows, planned[..|planned| - 1], due), planned[|planned| - 1];
      if HasKey(before, p.key) then before else before + [Row(p.key, p.channel, p.recipient, Pending, 0, due)]
  }

  predicate IsDue(row: Row, now: int) {
    row.state == Pending && row.due <= now
  }

  /** What the read may answer: due rows, each once, at most 200, and all of them if fewer. */
  ghost predicate Picked(rows: seq<Row>, now: int, picks: seq<nat>) {
    && |picks| <= BATCH
    && (forall i | 0 <= i < |picks| :: picks[i] < |rows| && IsDue(rows[picks[i]], now))
    && (forall i, j | 0 <= i < j < |picks| :: picks[i] != picks[j])
    && (|picks| < BATCH ==> forall r | 0 <= r < |rows| && IsDue(rows[r], now) :: r in picks)
  }

  function PicksOf(rows: seq<Row>, picks: seq<nat>): seq<Pick>
    requires forall i | 0 <= i < |picks| :: picks[i] < |rows|
  {
    seq(|picks|, i requires 0 <= i < |picks| => Pick(picks[i], rows[picks[i]].attempts, rows[picks[i]].channel))
  }

  function StateAfter(outcome: Outcome): RowState {
    match outcome
    case Delivered => Sent
    case Retry => Pending
    case Final => Failed
  }

  /** The update is by id, whatever the row's state is by now. */
  function Recorded(rows: seq<Row>, p: Pick, outcome: Outcome): seq<Row> {
    if p.row >= |rows| then rows
    else rows[p.row := rows[p.row].(state := StateAfter(outcome), attempts := p.attempts + 1)]
  }

  ghost function Apply(s: State, e: Event): State {
    match e
    case Enqueue(planned, due) => s.(rows := Inserted(s.rows, planned, due))
    case Begin(d, now, picks, senders) =>
      if d in s.drains || !Picked(s.rows, now, picks) then s
      else s.(drains := s.drains[d := Drain(PicksOf(s.rows, picks), None, senders)])
    case Send(d, outcome) =>
      if d !in s.drains || s.drains[d].queue == [] || s.drains[d].answered.Some? then s
      else
        var drain, p := s.drains[d], s.drains[d].queue[0];
        // no provider for the channel yet: held, not failed
        if p.channel !in drain.senders then s.(drains := s.drains[d := drain.(queue := drain.queue[1..])])
        else s.(drains := s.drains[d := drain.(answered := Some(outcome))],
                delivered := if outcome == Delivered then s.delivered + [p.row] else s.delivered)
    case Record(d) =>
      if d !in s.drains || s.drains[d].queue == [] || s.drains[d].answered.None? then s
      else
        var drain := s.drains[d];
        s.(rows := Recorded(s.rows, drain.queue[0], drain.answered.value),
           drains := s.drains[d := drain.(queue := drain.queue[1..], answered := None)])
    case CutOff(d) =>
      if d in s.drains then s.(drains := s.drains[d := s.drains[d].(queue := [], answered := None)]) else s
  }

  ghost function Run(s: State, es: seq<Event>): State {
    if es == [] then s else Apply(Run(s, es[..|es| - 1]), es[|es| - 1])
  }

  predicate Initial(s: State) {
    s.rows == [] && s.drains == map[] && s.delivered == []
  }

  ghost predicate KeysDiffer(rows: seq<Row>) {
    forall i, j | 0 <= i < j < |rows| :: rows[i].key != rows[j].key
  }

  lemma {:induction false} InsertKeepsKeysApart(rows: seq<Row>, planned: seq<Planned>, due: int)
    requires KeysDiffer(rows)
    ensures var now := Inserted(rows, planned, due);
            && KeysDiffer(now) && |rows| <= |now| && now[..|rows|] == rows
            && (forall i | |rows| <= i < |now| :: now[i].state == Pending)
            && (forall i | 0 <= i < |planned| :: HasKey(now, planned[i].key))
  {
    if planned != [] {
      var l := |planned| - 1;
      InsertKeepsKeysApart(rows, planned[..l], due);
      var before, now := Inserted(rows, planned[..l], due), Inserted(rows, planned, due);
      InsertOneMore(before, now, planned[l], due);
      hide KeysDiffer, HasKey, Inserted;
      forall i | 0 <= i < |planned|
        ensures HasKey(now, planned[i].key)
      {
        if i < l {
          assert HasKey(before, planned[..l][i].key);
          HasKeyStill(before, now, planned[i].key);
        }
      }
    }
  }

  lemma InsertOneMore(before: seq<Row>, now: seq<Row>, p: Planned, due: int)
    requires KeysDiffer(before)
    requires now == if HasKey(before, p.key) then before
                    else before + [Row(p.key, p.channel, p.recipient, Pending, 0, due)]
    ensures KeysDiffer(now) && |before| <= |now| && now[..|before|] == before && HasKey(now, p.key)
    ensures forall i | |before| <= i < |now| :: now[i].state == Pending
  {
    if !HasKey(before, p.key) {
      assert now[|before|].key == p.key;
    }
  }

  lemma HasKeyStill(before: seq<Row>, now: seq<Row>, key: string)
    requires HasKey(before, key) && |before| <= |now| && now[..|before|] == before
    ensures HasKey(now, key)
  {
    var j :| 0 <= j < |before| && before[j].key == key;
    assert now[j] == now[..|before|][j];
  }

  /** Enqueueing the same plan again adds nothing. */
  lemma {:induction false} SecondInsertAddsNothing(rows: seq<Row>, planned: seq<Planned>, due: int)
    requires forall i | 0 <= i < |planned| :: HasKey(rows, planned[i].key)
    ensures Inserted(rows, planned, due) == rows
  {
    if planned != [] {
      var l := |planned| - 1;
      assert forall i | 0 <= i < l :: planned[..l][i] == planned[i];
      SecondInsertAddsNothing(rows, planned[..l], due);
    }
  }

  lemma RunAgainAddsNothing(rows: seq<Row>, planned: seq<Planned>, due: int, later: int)
    requires KeysDiffer(rows)
    ensures Inserted(Inserted(rows, planned, due), planned, later) == Inserted(rows, planned, due)
  {
    InsertKeepsKeysApart(rows, planned, due);
    SecondInsertAddsNothing(Inserted(rows, planned, due), planned, later);
  }

  lemma ApplyKeepsKeysApart(s: State, e: Event)
    requires KeysDiffer(s.rows)
    ensures KeysDiffer(Apply(s, e).rows)
    ensures |s.rows| <= |Apply(s, e).rows| && forall i | 0 <= i < |s.rows| :: Apply(s, e).rows[i].key == s.rows[i].key
  {
    if e.Enqueue? {
      InsertKeepsKeysApart(s.rows, e.planned, e.due);
    }
    hide Picked, Inserted, HasKey;
  }

  /** In every run, overlapping or not, each key has at most one row. */
  lemma {:induction false} OneRowPerKey(s: State, es: seq<Event>, i: nat, j: nat)
    requires Initial(s)
    ensures KeysDiffer(Run(s, es).rows)
    ensures i < |Run(s, es).rows| && j < |Run(s, es).rows| && Run(s, es).rows[i].key == Run(s, es).rows[j].key ==>
      i == j
  {
    if es != [] {
      OneRowPerKey(s, es[..|es| - 1], i, j);
      ApplyKeepsKeysApart(Run(s, es[..|es| - 1]), es[|es| - 1]);
    }
  }

  /** A drain begins only when every other has finished, and none is cut off between a send and its record. */
  ghost predicate Apart(s: State, e: Event) {
    && (e.Begin? ==> forall d | d in s.drains :: s.drains[d].queue == [])
    && (e.CutOff? && e.d in s.drains ==> s.drains[e.d].answered.None?)
  }

  ghost predicate RunApart(s: State, es: seq<Event>) {
    es == [] || (RunApart(s, es[..|es| - 1]) && Apart(Run(s, es[..|es| - 1]), es[|es| - 1]))
  }

  /** The row's message has gone out and the record of it is still to come. */
  ghost predicate Unrecorded(s: State, d: DrainId, r: nat) {
    d in s.drains && s.drains[d].queue != [] && s.drains[d].answered == Some(Delivered) && s.drains[d].queue[0].row == r
  }

  /** The rows a drain still has to do are pending, and each comes up once. */
  ghost predicate QueueSound(rows: seq<Row>, drain: Drain) {
    && (forall i | 0 <= i < |drain.queue| :: drain.queue[i].row < |rows| && rows[drain.queue[i].row].state == Pending)
    && (forall i, j | 0 <= i < j < |drain.queue| :: drain.queue[i].row != drain.queue[j].row)
    && (drain.queue == [] ==> drain.answered.None?)
  }

  ghost predicate QueuesSound(rows: seq<Row>, drains: map<DrainId, Drain>) {
    forall d | d in drains :: QueueSound(rows, drains[d])
  }

  ghost predicate OneDrain(drains: map<DrainId, Drain>) {
    forall d, x | d in drains && x in drains && drains[d].queue != [] && drains[x].queue != [] :: d == x
  }

  ghost predicate NoRepeats(delivered: seq<nat>) {
    forall i, j | 0 <= i < j < |delivered| :: delivered[i] != delivered[j]
  }

  /** A message has gone out exactly for the rows that are sent, and for the one whose record is to come. */
  ghost predicate DeliveredOnce(s: State) {
    && NoRepeats(s.delivered)
    && (forall r: nat | r < |s.rows| && s.rows[r].state == Sent :: r in s.delivered)
    && (forall r | r in s.delivered :: r < |s.rows| && (s.rows[r].state == Sent || exists d :: Unrecorded(s, d, r)))
    && (forall d, r | Unrecorded(s, d, r) :: r in s.delivered)
  }

  ghost predicate Inv(s: State) {
    KeysDiffer(s.rows) && OneDrain(s.drains) && DeliveredOnce(s) && QueuesSound(s.rows, s.drains)
  }

  /** The row a drain is about to send has not been delivered before. */
  lemma HeadIsNew(s: State, d: DrainId)
    requires Inv(s) && d in s.drains && s.drains[d].queue != [] && s.drains[d].answered != Some(Delivered)
    ensures s.drains[d].queue[0].row !in s.delivered
  {
    var r := s.drains[d].queue[0].row;
    assert QueueSound(s.rows, s.drains[d]);
    forall x
      ensures !Unrecorded(s, x, r)
    {
    }
  }

  /** The next row of a queue is given up or answered, and the rest stays as it was. */
  lemma QueueMovesOn(rows: seq<Row>, drain: Drain, answered: Option<Outcome>)
    requires QueueSound(rows, drain) && drain.queue != []
    ensures QueueSound(rows, drain.(answered := answered))
    ensures QueueSound(rows, drain.(queue := drain.queue[1..], answered := None))
    ensures forall i | 0 <= i < |drain.queue[1..]| :: drain.queue[1..][i].row != drain.queue[0].row
  {
  }

  lemma SendQueues(s: State, d: DrainId, outcome: Outcome)
    requires Inv(s) && d in s.drains && s.drains[d].queue != [] && s.drains[d].answered.None?
    ensures var s' := Apply(s, Send(d, outcome));
            s'.rows == s.rows && OneDrain(s'.drains) && QueuesSound(s'.rows, s'.drains)
  {
    hide KeysDiffer, DeliveredOnce;
    assert QueueSound(s.rows, s.drains[d]);
    QueueMovesOn(s.rows, s.drains[d], Some(outcome));
    hide QueueSound;
    assert s.drains[d].(queue := s.drains[d].queue[1..])
        == s.drains[d].(queue := s.drains[d].queue[1..], answered := None);
  }

  /** While one drain is at work, only its answer can be unrecorded. */
  lemma OnlyItsAnswer(s: State, d: DrainId, x: DrainId, r: nat)
    requires OneDrain(s.drains) && d in s.drains && s.drains[d].queue != [] && Unrecorded(s, x, r)
    ensures x == d && s.drains[d].answered == Some(Delivered) && r == s.drains[d].queue[0].row
  {
  }

  lemma SendKeeps(s: State, d: DrainId, outcome: Outcome)
    requires Inv(s)
    ensures Inv(Apply(s, Send(d, outcome)))
  {
    hide KeysDiffer, OneDrain, QueuesSound, DeliveredOnce;
    if d in s.drains && s.drains[d].queue != [] && s.drains[d].answered.None? {
      SendQueues(s, d, outcome);
      SendDelivers(s, d, outcome);
      hide Apply;
    }
  }

  /** One more message out, and nothing else unrecorded. */
  lemma DeliveryGrows(s: State, s': State, d: DrainId, r: nat)
    requires DeliveredOnce(s) && (forall x, y :: !Unrecorded(s, x, y))
    requires s'.rows == s.rows && r < |s.rows| && r !in s.delivered && s'.delivered == s.delivered + [r]
    requires forall x, y :: Unrecorded(s', x, y) <==> x == d && y == r
    ensures DeliveredOnce(s')
  {
    hide Unrecorded;
    assert Unrecorded(s', d, r);
    forall x | x in s'.delivered
      ensures x < |s'.rows| && (s'.rows[x].state == Sent || exists y :: Unrecorded(s', y, x))
    {
      assert x in s.delivered || x == r;
    }
    assert forall x | x in s.delivered :: x in s'.delivered;
    assert r in s'.delivered;
  }

  lemma DeliveryStays(s: State, s': State)
    requires DeliveredOnce(s) && (forall x, y :: !Unrecorded(s, x, y)) && (forall x, y :: !Unrecorded(s', x, y))
    requires s'.rows == s.rows && s'.delivered == s.delivered
    ensures DeliveredOnce(s')
  {
    hide Unrecorded;
  }

  lemma UnrecordedAfterSend(s: State, d: DrainId, outcome: Outcome)
    requires OneDrain(s.drains) && d in s.drains && s.drains[d].queue != [] && s.drains[d].answered.None?
    ensures forall x, y :: !Unrecorded(s, x, y)
    ensures var s', p := Apply(s, Send(d, outcome)), s.drains[d].queue[0];
            forall x, y :: Unrecorded(s', x, y) <==>
              x == d && y == p.row && p.channel in s.drains[d].senders && outcome == Delivered
  {
    forall x, y
      ensures !Unrecorded(s, x, y)
    {
      if Unrecorded(s, x, y) {
        OnlyItsAnswer(s, d, x, y);
      }
    }
    var s' := Apply(s, Send(d, outcome));
    forall x, y
      ensures x != d ==> (Unrecorded(s', x, y) <==> Unrecorded(s, x, y))
    {
    }
  }

  lemma SendDelivers(s: State, d: DrainId, outcome: Outcome)
    requires Inv(s) && d in s.drains && s.drains[d].queue != [] && s.drains[d].answered.None?
    ensures DeliveredOnce(Apply(s, Send(d, outcome)))
  {
    HeadIsNew(s, d);
    UnrecordedAfterSend(s, d, outcome);
    var s', p := Apply(s, Send(d, outcome)), s.drains[d].queue[0];
    assert QueueSound(s.rows, s.drains[d]) && p.row < |s.rows|;
    hide KeysDiffer, QueuesSound, QueueSound, OneDrain, Unrecorded, DeliveredOnce;
    if p.channel in s.drains[d].senders && outcome == Delivered {
      DeliveryGrows(s, s', d, p.row);
    } else {
      DeliveryStays(s, s');
    }
  }

  lemma RecordQueues(s: State, d: DrainId)
    requires Inv(s) && d in s.drains && s.drains[d].queue != [] && s.drains[d].answered.Some?
    ensures var s' := Apply(s, Record(d));
            KeysDiffer(s'.rows) && OneDrain(s'.drains) && QueuesSound(s'.rows, s'.drains)
  {
    hide DeliveredOnce;
    var s', p := Apply(s, Record(d)), s.drains[d].queue[0];
    assert QueueSound(s.rows, s.drains[d]);
    QueueMovesOn(s.rows, s.drains[d], None);
    assert s'.drains[d].queue == s.drains[d].queue[1..];
    assert KeysDiffer(s'.rows);
    hide KeysDiffer;
    forall x | x in s'.drains
      ensures QueueSound(s'.rows, s'.drains[x])
    {
      assert QueueSound(s.rows, s.drains[x]);
    }
  }

  lemma RecordKeeps(s: State, d: DrainId)
    requires Inv(s)
    ensures Inv(Apply(s, Record(d)))
  {
    hide KeysDiffer, OneDrain, QueuesSound, DeliveredOnce;
    if d in s.drains && s.drains[d].queue != [] && s.drains[d].answered.Some? {
      RecordQueues(s, d);
      RecordDelivers(s, d);
      hide Apply;
    }
  }

  lemma RecordDelivers(s: State, d: DrainId)
    requires Inv(s) && d in s.drains && s.drains[d].queue != [] && s.drains[d].answered.Some?
    ensures DeliveredOnce(Apply(s, Record(d)))
  {
    RecordQueues(s, d);
    var s', p := Apply(s, Record(d)), s.drains[d].queue[0];
    assert QueueSound(s.rows, s.drains[d]) && p.row < |s.rows| && s.rows[p.row].state == Pending;
    if s.drains[d].answered != Some(Delivered) {
      HeadIsNew(s, d);
    } else {
      assert Unrecorded(s, d, p.row);
    }
    assert forall r | 0 <= r < |s.rows| && r != p.row :: s'.rows[r] == s.rows[r];
    assert s'.rows[p.row].state == StateAfter(s.drains[d].answered.value);
    forall x, r
      ensures Unrecorded(s, x, r) ==> r == p.row
      ensures !Unrecorded(s', x, r)
    {
      if Unrecorded(s, x, r) {
        OnlyItsAnswer(s, d, x, r);
      }
    }
    hide KeysDiffer, QueuesSound, QueueSound, OneDrain, Unrecorded, Apply;
  }

  lemma EnqueueKeeps(s: State, planned: seq<Planned>, due: int)
    requires Inv(s)
    ensures Inv(Apply(s, Enqueue(planned, due)))
  {
    InsertKeepsKeysApart(s.rows, planned, due);
    var s' := Apply(s, Enqueue(planned, due));
    assert forall r | 0 <= r < |s.rows| :: s'.rows[r] == s.rows[r];
    assert forall d, r :: Unrecorded(s', d, r) <==> Unrecorded(s, d, r);
    hide KeysDiffer, Inserted, HasKey, Unrecorded;
    forall x | x in s'.drains
      ensures QueueSound(s'.rows, s'.drains[x])
    {
      assert QueueSound(s.rows, s.drains[x]);
    }
  }

  lemma PicksAreSound(rows: seq<Row>, now: int, picks: seq<nat>, senders: set<Channel>)
    requires Picked(rows, now, picks)
    ensures QueueSound(rows, Drain(PicksOf(rows, picks), None, senders))
  {
  }

  lemma BeginQueues(s: State, e: Event)
    requires Inv(s) && (e.Begin? || e.CutOff?) && Apart(s, e)
    ensures var s' := Apply(s, e);
            s'.rows == s.rows && s'.delivered == s.delivered && OneDrain(s'.drains) && QueuesSound(s'.rows, s'.drains)
  {
    if e.Begin? && Picked(s.rows, e.now, e.picks) {
      PicksAreSound(s.rows, e.now, e.picks, e.senders);
    }
    assert QueueSound(s.rows, Drain([], None, {}));
    hide KeysDiffer, Picked, PicksOf, DeliveredOnce;
  }

  lemma BeginKeeps(s: State, e: Event)
    requires Inv(s) && (e.Begin? || e.CutOff?) && Apart(s, e)
    ensures Inv(Apply(s, e))
  {
    BeginQueues(s, e);
    var s' := Apply(s, e);
    forall d, r
      ensures Unrecorded(s', d, r) <==> Unrecorded(s, d, r)
    {
    }
    hide KeysDiffer, Unrecorded, OneDrain, QueuesSound, Apply;
  }

  lemma ApplyKeeps(s: State, e: Event)
    requires Inv(s) && Apart(s, e)
    ensures Inv(Apply(s, e))
  {
    hide Inv, Apply, Apart;
    match e
    case Enqueue(planned, due) => EnqueueKeeps(s, planned, due);
    case Begin(_, _, _, _) => BeginKeeps(s, e);
    case CutOff(_) => BeginKeeps(s, e);
    case Send(d, outcome) => SendKeeps(s, d, outcome);
    case Record(d) => RecordKeeps(s, d);
  }

  lemma {:induction false} RunKeeps(s: State, es: seq<Event>)
    requires Initial(s) && RunApart(s, es)
    ensures Inv(Run(s, es))
  {
    if es != [] {
      hide Inv, Apply, Apart, Initial;
      RunKeeps(s, es[..|es| - 1]);
      ApplyKeeps(Run(s, es[..|es| - 1]), es[|es| - 1]);
    }
  }

  /** The step sends a row's message once more: the row has been delivered already. */
  ghost predicate SendsAgain(s: State, e: Event) {
    && e.Send? && e.d in s.drains && s.drains[e.d].queue != [] && s.drains[e.d].answered.None?
    && s.drains[e.d].queue[0].channel in s.drains[e.d].senders && e.outcome == Delivered
    && s.drains[e.d].queue[0].row in s.delivered
  }

  ghost predicate NoneSentAgain(s: State, es: seq<Event>) {
    es == [] || (NoneSentAgain(s, es[..|es| - 1]) && !SendsAgain(Run(s, es[..|es| - 1]), es[|es| - 1]))
  }

  lemma OneMoreDelivery(delivered: seq<nat>, r: nat)
    ensures NoRepeats(delivered + [r]) <==> NoRepeats(delivered) && r !in delivered
  {
    var more := delivered + [r];
    if NoRepeats(more) {
      assert forall i | 0 <= i < |delivered| :: more[i] == delivered[i];
      assert more[|delivered|] == r;
    }
  }

  lemma RepeatsExactly(s: State, e: Event)
    ensures NoRepeats(Apply(s, e).delivered) <==> NoRepeats(s.delivered) && !SendsAgain(s, e)
  {
    if e.Send? && e.d in s.drains && s.drains[e.d].queue != [] {
      OneMoreDelivery(s.delivered, s.drains[e.d].queue[0].row);
    }
    hide NoRepeats, Picked, Inserted, Recorded;
  }

  /**
    In every run, overlapping or not, no message goes out twice if and only if no step sends one that is
    already out.
   */
  lemma {:induction false} NobodyIsToldTwiceExactly(s: State, es: seq<Event>)
    requires Initial(s)
    ensures NoRepeats(Run(s, es).delivered) <==> NoneSentAgain(s, es)
  {
    if es != [] {
      hide NoRepeats, Apply, SendsAgain;
      NobodyIsToldTwiceExactly(s, es[..|es| - 1]);
      RepeatsExactly(Run(s, es[..|es| - 1]), es[|es| - 1]);
    }
  }

  /**
    The step leaves no trace of a delivery of row `r`: the drain that made it is cut off before recording it,
    or another drain records a failure over it.
   */
  ghost predicate Forgets(s: State, e: Event, r: nat) {
    match e
    case CutOff(d) => Unrecorded(s, d, r)
    case Record(d) =>
      && d in s.drains && s.drains[d].queue != [] && s.drains[d].queue[0].row == r
      && s.drains[d].answered.Some? && s.drains[d].answered != Some(Delivered) && r in s.delivered
    case _ => false
  }

  ghost predicate Forgotten(s: State, es: seq<Event>, r: nat) {
    es != [] && (Forgotten(s, es[..|es| - 1], r) || Forgets(Run(s, es[..|es| - 1]), es[|es| - 1], r))
  }

  predicate IsSent(s: State, r: nat) {
    r < |s.rows| && s.rows[r].state == Sent
  }

  ghost predicate AnswerOpen(s: State, r: nat) {
    exists d :: Unrecorded(s, d, r)
  }

  ghost predicate Within(queue: seq<Pick>, n: nat) {
    forall i | 0 <= i < |queue| :: queue[i].row < n
  }

  /** Drains only ever name rows that are there, and answers are only open for rows that went out. */
  ghost predicate Traced(s: State) {
    && (forall d | d in s.drains :: Within(s.drains[d].queue, |s.rows|))
    && (forall d, r | Unrecorded(s, d, r) :: r in s.delivered)
    && (forall r | IsSent(s, r) :: r in s.delivered)
    && (forall r | r in s.delivered :: r < |s.rows|)
  }

  lemma TracedEnqueue(s: State, planned: seq<Planned>, due: int)
    requires Traced(s) && KeysDiffer(s.rows)
    ensures var s' := Apply(s, Enqueue(planned, due));
            Traced(s') && forall r :: (IsSent(s', r) <==> IsSent(s, r)) && (AnswerOpen(s', r) <==> AnswerOpen(s, r))
  {
    InsertKeepsKeysApart(s.rows, planned, due);
    var s' := Apply(s, Enqueue(planned, due));
    hide KeysDiffer, Inserted, HasKey;
    assert forall r | 0 <= r < |s.rows| :: s'.rows[r] == s'.rows[..|s.rows|][r] == s.rows[r];
    assert forall d, r :: Unrecorded(s', d, r) <==> Unrecorded(s, d, r);
  }

  lemma PicksAreThere(rows: seq<Row>, now: int, picks: seq<nat>)
    requires Picked(rows, now, picks)
    ensures Within(PicksOf(rows, picks), |rows|)
  {
  }

  lemma TracedBegin(s: State, e: Event)
    requires Traced(s) && (e.Begin? || e.CutOff?)
    ensures var s' := Apply(s, e);
            && Traced(s') && s'.rows == s.rows && s'.delivered == s.delivered
            && (forall d, r :: Unrecorded(s', d, r) <==> Unrecorded(s, d, r) && !(e.CutOff? && e.d == d))
  {
    if e.Begin? && Picked(s.rows, e.now, e.picks) {
      PicksAreThere(s.rows, e.now, e.picks);
    }
    assert Within([], |s.rows|);
    hide Picked, PicksOf, Within;
    var s' := Apply(s, e);
    assert forall d, r :: Unrecorded(s', d, r) <==> Unrecorded(s, d, r) && !(e.CutOff? && e.d == d);
    assert forall r :: IsSent(s', r) <==> IsSent(s, r);
  }

  lemma QueueTail(queue: seq<Pick>, n: nat)
    requires Within(queue, n) && queue != []
    ensures Within(queue[1..], n) && queue[0].row < n
  {
  }

  lemma TracedSend(s: State, d: DrainId, outcome: Outcome)
    requires Traced(s)
    ensures var s' := Apply(s, Send(d, outcome));
            && Traced(s') && s'.rows == s.rows
            && (forall x, r | Unrecorded(s, x, r) :: Unrecorded(s', x, r))
            && (forall r | r in s'.delivered && r !in s.delivered :: Unrecorded(s', d, r))
            && (forall r | r in s.delivered :: r in s'.delivered)
  {
    if d in s.drains && s.drains[d].queue != [] {
      QueueTail(s.drains[d].queue, |s.rows|);
    }
    hide Within;
    var s' := Apply(s, Send(d, outcome));
    forall x, r | Unrecorded(s', x, r)
      ensures r in s'.delivered
    {
      assert x != d ==> Unrecorded(s, x, r);
      assert Unrecorded(s, x, r) || s'.delivered == s.delivered + [r];
    }
    assert forall r :: IsSent(s', r) <==> IsSent(s, r);
  }

  lemma TracedRecord(s: State, d: DrainId)
    requires Traced(s)
    ensures var s' := Apply(s, Record(d));
            && Traced(s') && s'.delivered == s.delivered
            && (forall x, r | Unrecorded(s, x, r) && x != d :: Unrecorded(s', x, r))
            && (forall r | Unrecorded(s, d, r) :: IsSent(s', r))
            && (forall r | IsSent(s, r) && !IsSent(s', r) :: Forgets(s, Record(d), r))
  {
    if d in s.drains && s.drains[d].queue != [] && s.drains[d].answered.Some? {
      var s', p := Apply(s, Record(d)), s.drains[d].queue[0];
      QueueTail(s.drains[d].queue, |s.rows|);
      hide Within;
      assert s.drains[d].answered == Some(Delivered) ==> Unrecorded(s, d, p.row);
      assert forall r | 0 <= r < |s.rows| && r != p.row :: s'.rows[r] == s.rows[r];
      assert forall x, r :: Unrecorded(s', x, r) <==> Unrecorded(s, x, r) && x != d;
      assert forall r | IsSent(s', r) :: IsSent(s, r) || Unrecorded(s, d, r);
    }
  }

  lemma TracedOneStep(s: State, e: Event, r: nat)
    requires Traced(s) && KeysDiffer(s.rows)
    ensures Traced(Apply(s, e))
    ensures r in s.delivered ==> r in Apply(s, e).delivered
    ensures r in Apply(s, e).delivered && !(r in s.delivered && !IsSent(s, r) && !AnswerOpen(s, r))
      ==> IsSent(Apply(s, e), r) || AnswerOpen(Apply(s, e), r) || Forgets(s, e, r)
  {
    hide Apply, Traced, KeysDiffer;
    match e
    case Enqueue(planned, due) =>
      TracedEnqueue(s, planned, due);
      EnqueueDeliversNothing(s, planned, due);
    case Begin(_, _, _, _) => TracedBegin(s, e);
    case CutOff(_) => TracedBegin(s, e);
    case Send(d, outcome) => TracedSend(s, d, outcome);
    case Record(d) => TracedRecord(s, d);
  }

  lemma EnqueueDeliversNothing(s: State, planned: seq<Planned>, due: int)
    ensures Apply(s, Enqueue(planned, due)).delivered == s.delivered
  {
  }

  /** What is forgotten had been delivered. */
  lemma ForgottenWasOut(s: State, e: Event, r: nat)
    requires Traced(s) && Forgets(s, e, r)
    ensures r in s.delivered
  {
  }

  /**
    What "already out" means, in every run: a row has been delivered exactly when it is sent by now, or a
    drain has its answer and has not recorded it, or its delivery was forgotten by a cut-off or overwritten.
   */
  lemma {:induction false} OutExactly(s: State, es: seq<Event>, r: nat)
    requires Initial(s)
    ensures Traced(Run(s, es))
    ensures r in Run(s, es).delivered <==> IsSent(Run(s, es), r) || AnswerOpen(Run(s, es), r) || Forgotten(s, es, r)
  {
    if es != [] {
      hide Traced, Apply, IsSent, AnswerOpen, Forgets, Initial, KeysDiffer;
      var before, e := Run(s, es[..|es| - 1]), es[|es| - 1];
      OutExactly(s, es[..|es| - 1], r);
      OneRowPerKey(s, es[..|es| - 1], 0, 0);
      TracedOneStep(before, e, r);
      if Forgets(before, e, r) {
        ForgottenWasOut(before, e, r);
      }
      if IsSent(Apply(before, e), r) || AnswerOpen(Apply(before, e), r) {
        SentIsOut(Apply(before, e), r);
      }
    }
  }

  lemma SentIsOut(s: State, r: nat)
    requires Traced(s) && (IsSent(s, r) || AnswerOpen(s, r))
    ensures r in s.delivered
  {
  }

  lemma {:induction false} ApartNoneSentAgain(s: State, es: seq<Event>)
    requires Initial(s) && RunApart(s, es)
    ensures NoneSentAgain(s, es)
  {
    if es != [] {
      ApartNoneSentAgain(s, es[..|es| - 1]);
      RunKeeps(s, es[..|es| - 1]);
      var before, e := Run(s, es[..|es| - 1]), es[|es| - 1];
      hide Inv, Run, Initial;
      if e.Send? && e.d in before.drains && before.drains[e.d].queue != [] && before.drains[e.d].answered.None? {
        HeadIsNew(before, e.d);
      }
    }
  }

  /**
    While drains do not overlap and none is cut off between a send and its record, no message ever goes out
    twice, whatever the senders answer: each row is delivered at most once, and every sent row was.
   */
  lemma NobodyIsToldTwice(s: State, es: seq<Event>)
    requires Initial(s) && RunApart(s, es)
    ensures var now := Run(s, es);
            && NoRepeats(now.delivered)
            && (forall r: nat | r < |now.rows| && now.rows[r].state == Sent :: r in now.delivered)
            && (forall i, j | 0 <= i < j < |now.delivered| ::
                  now.delivered[i] < |now.rows| && now.delivered[j] < |now.rows|
                  && now.rows[now.delivered[i]].key != now.rows[now.delivered[j]].key)
  {
    ApartNoneSentAgain(s, es);
    NobodyIsToldTwiceExactly(s, es);
    OutExactly(s, es, 0);
    OneRowPerKey(s, es, 0, 0);
    hide Run, Unrecorded, RunApart, NoneSentAgain, Initial, NoRepeats, KeysDiffer;
    var now := Run(s, es);
    assert forall r: nat | r < |now.rows| && now.rows[r].state == Sent :: IsSent(now, r);
    assert forall i | 0 <= i < |now.delivered| :: now.delivered[i] in now.delivered;
    hide IsSent;
    DeliveredKeysDiffer(now.rows, now.delivered);
  }

  lemma DeliveredKeysDiffer(rows: seq<Row>, delivered: seq<nat>)
    requires KeysDiffer(rows) && NoRepeats(delivered) && forall i | 0 <= i < |delivered| :: delivered[i] < |rows|
    ensures forall i, j | 0 <= i < j < |delivered| :: rows[delivered[i]].key != rows[delivered[j]].key
  {
    forall i, j | 0 <= i < j < |delivered|
      ensures rows[delivered[i]].key != rows[delivered[j]].key
    {
      var a, b := delivered[i], delivered[j];
      var low, high := if a < b then a else b, if a < b then b else a;
      assert rows[low].key != rows[high].key;
    }
  }

  lemma SettledOneStep(s: State, e: Event, r: nat)
    requires Inv(s) && r < |s.rows| && s.rows[r].state != Pending
    ensures r < |Apply(s, e).rows| && Apply(s, e).rows[r] == s.rows[r]
  {
    match e
    case Enqueue(planned, due) =>
      InsertKeepsKeysApart(s.rows, planned, due);
      assert Apply(s, e).rows[..|s.rows|] == s.rows;
    case Record(d) =>
      if d in s.drains {
        assert QueueSound(s.rows, s.drains[d]);
      }
    case Begin(_, _, _, _) =>
    case CutOff(_) =>
    case Send(_, _) =>
  }

  /** And sent and failed are final: no later event touches such a row. */
  lemma {:induction false} SettledForGood(s: State, past: seq<Event>, es: seq<Event>, r: nat)
    requires Initial(s) && RunApart(s, past) && RunApart(Run(s, past), es)
    requires r < |Run(s, past).rows| && Run(s, past).rows[r].state != Pending
    ensures Inv(Run(Run(s, past), es))
    ensures r < |Run(Run(s, past), es).rows| && Run(Run(s, past), es).rows[r] == Run(s, past).rows[r]
  {
    RunKeeps(s, past);
    if es != [] {
      hide Inv, Apply, Apart, Initial;
      var rest := es[..|es| - 1];
      SettledForGood(s, past, rest, r);
      ApplyKeeps(Run(Run(s, past), rest), es[|es| - 1]);
      SettledOneStep(Run(Run(s, past), rest), es[|es| - 1], r);
    }
  }

  lemma {:induction false} RunConcat(s: State, a: seq<Event>, b: seq<Event>)
    ensures Run(s, a + b) == Run(Run(s, a), b)
  {
    hide Apply;
    if b == [] {
      assert a + b == a;
    } else {
      assert (a + b)[..|a + b| - 1] == a + b[..|b| - 1];
      RunConcat(s, a, b[..|b| - 1]);
    }
  }

  lemma RunOfThree(s: State, a: Event, b: Event, c: Event)
    ensures Run(s, [a, b, c]) == Apply(Apply(Apply(s, a), b), c)
  {
    hide Apply;
    assert [a, b, c][..2] == [a, b] && [a, b][..1] == [a] && [a][..0] == [];
    assert Run(s, []) == s;
    assert Run(s, [a]) == Apply(s, a);
    assert Run(s, [a, b]) == Apply(Run(s, [a]), b);
  }

  /** One reminder enqueued, and a drain that has read it. */
  function OneRead(p: Planned, due: int, d: DrainId): State {
    State([Row(p.key, p.channel, p.recipient, Pending, 0, due)],
          map[d := Drain([Pick(0, 0, p.channel)], None, {p.channel})], [])
  }

  lemma EnqueuedAndRead(s: State, p: Planned, due: int, d: DrainId)
    requires Initial(s)
    ensures Apply(Apply(s, Enqueue([p], due)), Begin(d, due, [0], {p.channel})) == OneRead(p, due, d)
  {
    assert [p][..0] == [] && Inserted([], [], due) == [] && !HasKey([], p.key);
    var row := Row(p.key, p.channel, p.recipient, Pending, 0, due);
    assert Inserted([], [p], due) == [row];
    assert Picked([row], due, [0]);
    assert PicksOf([row], [0]) == [Pick(0, 0, p.channel)];
  }

  /** Two drains that read the same row both send it, from the first reminder on: nothing claims the row. */
  lemma OverlappingDrainsTellTwice(s: State, p: Planned, due: int, a: DrainId, b: DrainId)
    requires Initial(s) && a != b
    ensures Run(s, [Enqueue([p], due), Begin(a, due, [0], {p.channel}), Begin(b, due, [0], {p.channel})]
                   + [Send(a, Delivered), Send(b, Delivered), Record(a)]).delivered == [0, 0]
  {
    var first := [Enqueue([p], due), Begin(a, due, [0], {p.channel}), Begin(b, due, [0], {p.channel})];
    var last := [Send(a, Delivered), Send(b, Delivered), Record(a)];
    RunConcat(s, first, last);
    RunOfThree(s, first[0], first[1], first[2]);
    EnqueuedAndRead(s, p, due, a);
    hide Run;
    RunOfThree(Apply(OneRead(p, due, a), first[2]), last[0], last[1], last[2]);
    hide Apply, Initial, OneRead;
    BothSend(p, due, a, b);
  }

  lemma ReadAgain(p: Planned, due: int, a: DrainId, b: DrainId)
    requires a != b
    ensures var one := OneRead(p, due, a);
            Apply(one, Begin(b, due, [0], {p.channel})) == one.(drains := one.drains[b := one.drains[a]])
  {
    var one := OneRead(p, due, a);
    assert Picked(one.rows, due, [0]);
    assert PicksOf(one.rows, [0]) == [Pick(0, 0, p.channel)];
    hide Recorded, Inserted;
  }

  lemma BothSend(p: Planned, due: int, a: DrainId, b: DrainId)
    requires a != b
    ensures var two := Apply(OneRead(p, due, a), Begin(b, due, [0], {p.channel}));
            Apply(Apply(Apply(two, Send(a, Delivered)), Send(b, Delivered)), Record(a)).delivered == [0, 0]
  {
    var one := OneRead(p, due, a);
    var two := Apply(one, Begin(b, due, [0], {p.channel}));
    ReadAgain(p, due, a, b);
    hide Picked, PicksOf, Recorded, Inserted;
    var sent := Apply(two, Send(a, Delivered));
    assert sent.delivered == [0] && b in sent.drains && sent.drains[b] == two.drains[b];
    assert Apply(sent, Send(b, Delivered)).delivered == [0] + [0];
  }

  /** Nor does anything stop two drains from reading the same rows. */
  lemma TwoDrainsCanReadOneRow(s: State, a: DrainId, b: DrainId, now: int, picks: seq<nat>, senders: set<Channel>)
    requires a != b && a !in s.drains && b !in s.drains && Picked(s.rows, now, picks)
    ensures var both := Apply(Apply(s, Begin(a, now, picks, senders)), Begin(b, now, picks, senders));
            a in both.drains && b in both.drains
              && both.drains[a] == both.drains[b] == Drain(PicksOf(s.rows, picks), None, senders)
  {
  }

  /** A drain cut off after a send leaves the row pending, and the next drain sends it again. */
  lemma CutOffDrainTellsTwice(s: State, p: Planned, due: int, a: DrainId, b: DrainId)
    requires Initial(s) && a != b
    ensures Run(s, [Enqueue([p], due), Begin(a, due, [0], {p.channel}), Send(a, Delivered)]
                   + [CutOff(a), Begin(b, due, [0], {p.channel}), Send(b, Delivered)]).delivered == [0, 0]
  {
    var first := [Enqueue([p], due), Begin(a, due, [0], {p.channel}), Send(a, Delivered)];
    var last := [CutOff(a), Begin(b, due, [0], {p.channel}), Send(b, Delivered)];
    RunConcat(s, first, last);
    RunOfThree(s, first[0], first[1], first[2]);
    EnqueuedAndRead(s, p, due, a);
    hide Run;
    var one := OneRead(p, due, a);
    var sent := Apply(one, first[2]);
    RunOfThree(sent, last[0], last[1], last[2]);
    hide Apply, Initial, OneRead;
    SentThenCutOff(p, due, a, b);
  }

  lemma SentThenCutOff(p: Planned, due: int, a: DrainId, b: DrainId)
    requires a != b
    ensures var sent := Apply(OneRead(p, due, a), Send(a, Delivered));
            Apply(Apply(Apply(sent, CutOff(a)), Begin(b, due, [0], {p.channel})), Send(b, Delivered)).delivered
                == [0, 0]
  {
    var one := OneRead(p, due, a);
    var sent := Apply(one, Send(a, Delivered));
    assert sent == State(one.rows, map[a := Drain([Pick(0, 0, p.channel)], Some(Delivered), {p.channel})], [0]);
    var cut := Apply(sent, CutOff(a));
    var gone := Drain([], None, {p.channel});
    assert cut == State(one.rows, map[a := gone], [0]);
    assert Picked(cut.rows, due, [0]);
    assert PicksOf(cut.rows, [0]) == [Pick(0, 0, p.channel)];
    hide Picked, PicksOf, Recorded, Inserted;
    var begun := Apply(cut, Begin(b, due, [0], {p.channel}));
    assert begun == State(one.rows, map[a := gone, b := Drain([Pick(0, 0, p.channel)], None, {p.channel})], [0]);
    assert Apply(begun, Send(b, Delivered)).delivered == [0] + [0];
  }

  /** The read of a drain is accepted. */
  ghost predicate Reads(s: State, x: DrainId, now: int, picks: seq<nat>, senders: set<Channel>) {
    x !in s.drains && x in Apply(s, Begin(x, now, picks, senders)).drains
  }

  /**
    What an answer does: the row's attempts are one more than were read and no other row changes; the message is
    out exactly when it was delivered; and a later drain that reads fewer than two hundred rows reads this one
    again if and only if the answer allowed another try and the row is due.
   */
  lemma AnswerDecides(s: State, d: DrainId, outcome: Outcome, x: DrainId, now: int, picks: seq<nat>,
                      senders: set<Channel>)
    requires d in s.drains && s.drains[d].queue != [] && s.drains[d].answered.None?
    requires s.drains[d].queue[0].row < |s.rows| && s.drains[d].queue[0].channel in s.drains[d].senders
    ensures var p, after := s.drains[d].queue[0], Apply(Apply(s, Send(d, outcome)), Record(d));
            && |after.rows| == |s.rows| && (forall r | 0 <= r < |s.rows| && r != p.row :: after.rows[r] == s.rows[r])
            && after.rows[p.row] == s.rows[p.row].(state := after.rows[p.row].state, attempts := p.attempts + 1)
            && after.delivered == s.delivered + (if outcome == Delivered then [p.row] else [])
            && d in after.drains && after.drains[d] == s.drains[d].(queue := s.drains[d].queue[1..])
            && (Reads(after, x, now, picks, senders) && |picks| < 200 ==>
                  (p.row in picks <==> outcome == Retry && s.rows[p.row].due <= now))
  {
    var p, sent := s.drains[d].queue[0], Apply(s, Send(d, outcome));
    assert sent == s.(drains := s.drains[d := s.drains[d].(answered := Some(outcome))],
                      delivered := s.delivered + if outcome == Delivered then [p.row] else []);
    var after := Apply(sent, Record(d));
    assert after.rows == s.rows[p.row := s.rows[p.row].(state := StateAfter(outcome), attempts := p.attempts + 1)];
    if Reads(after, x, now, picks, senders) {
      assert Picked(after.rows, now, picks);
      assert IsDue(after.rows[p.row], now) <==> outcome == Retry && s.rows[p.row].due <= now;
    }
    hide Inserted, PicksOf;
  }

  /** A row whose channel has no sender is held: nothing goes out, nothing is recorded, and the next one comes up. */
  lemma NoSenderHolds(s: State, d: DrainId, outcome: Outcome)
    requires d in s.drains && s.drains[d].queue != [] && s.drains[d].answered.None?
    requires s.drains[d].queue[0].channel !in s.drains[d].senders
    ensures Apply(s, Send(d, outcome)) == s.(drains := s.drains[d := s.drains[d].(queue := s.drains[d].queue[1..])])
    ensures Apply(s, Record(d)) == s
  {
  }

  /** Every row an insert adds is a planned reminder, to be sent when due and not tried yet. */
  lemma {:induction false} NewRowsAreThePlan(rows: seq<Row>, planned: seq<Planned>, due: int)
    ensures rows <= Inserted(rows, planned, due)
    ensures forall i | |rows| <= i < |Inserted(rows, planned, due)| ::
              exists p :: p in planned && Inserted(rows, planned, due)[i]
                                          == Row(p.key, p.channel, p.recipient, Pending, 0, due)
  {
    if planned != [] {
      var l := |planned| - 1;
      NewRowsAreThePlan(rows, planned[..l], due);
      var before, now := Inserted(rows, planned[..l], due), Inserted(rows, planned, due);
      assert planned[l] in planned && forall p :: p in planned[..l] ==> p in planned;
      hide Inserted, HasKey;
      forall i | |rows| <= i < |now|
        ensures exists p :: p in planned && now[i] == Row(p.key, p.channel, p.recipient, Pending, 0, due)
      {
        if i < |before| {
          var p :| p in planned[..l] && before[i] == Row(p.key, p.channel, p.recipient, Pending, 0, due);
        }
      }
    }
  }

  /** The rows once the first picks have been answered; `answers` holds one answer for each row that has a sender. */
  function Drained(rows: seq<Row>, picks: seq<Pick>, answers: seq<Outcome>, senders: set<Channel>,
                   n: nat): (seq<Row>, nat)
    requires n <= |picks|
  {
    if n == 0 then (rows, 0)
    else
      var (before, used) := Drained(rows, picks, answers, senders, n - 1);
      var p := picks[n - 1];
      if p.channel !in senders || used >= |answers| then (before, used)
      else (Recorded(before, p, answers[used]), used + 1)
  }

  /** How many of the first picks have a sender. */
  function Asked(picks: seq<Pick>, senders: set<Channel>, n: nat): (m: nat)
    requires n <= |picks|
    ensures m <= n
  {
    if n == 0 then 0 else Asked(picks, senders, n - 1) + if picks[n - 1].channel in senders then 1 else 0
  }

  /** The answer to pick `i`, if its channel has a sender. */
  function AnswerTo(picks: seq<Pick>, answers: seq<Outcome>, senders: set<Channel>, i: nat): Outcome
    requires i < |picks| <= |answers|
  {
    answers[Asked(picks, senders, i)]
  }

  /** The events for one row: it is held, or its answer is recorded before the next row comes up. */
  function RowAlone(d: DrainId, p: Pick, senders: set<Channel>, outcome: Outcome): seq<Event> {
    if p.channel !in senders then [Send(d, Delivered)] else [Send(d, outcome), Record(d)]
  }

  /** The steps of a drain that nobody interrupts. */
  function DrainingAlone(d: DrainId, picks: seq<Pick>, answers: seq<Outcome>, senders: set<Channel>,
                         n: nat): seq<Event>
    requires n <= |picks| <= |answers|
  {
    if n == 0 then []
    else
      DrainingAlone(d, picks, answers, senders, n - 1)
      + RowAlone(d, picks[n - 1], senders, AnswerTo(picks, answers, senders, n - 1))
  }

  lemma OneRowAlone(s: State, d: DrainId, outcome: Outcome)
    requires d in s.drains && s.drains[d].queue != [] && s.drains[d].answered.None?
    requires s.drains[d].queue[0].channel in s.drains[d].senders
    ensures var after := Apply(Apply(s, Send(d, outcome)), Record(d));
            && after.rows == Recorded(s.rows, s.drains[d].queue[0], outcome)
            && d in after.drains && after.drains[d] == s.drains[d].(queue := s.drains[d].queue[1..])
  {
    hide Recorded, Inserted, Picked;
    var sent := Apply(s, Send(d, outcome));
    assert sent.rows == s.rows && sent.drains[d] == s.drains[d].(answered := Some(outcome));
  }

  /** What they leave. */
  lemma OneMoreRowAlone(s: State, d: DrainId, queue: seq<Pick>, senders: set<Channel>, outcome: Outcome)
    requires d in s.drains && s.drains[d] == Drain(queue, None, senders) && queue != []
    ensures var after := Run(s, RowAlone(d, queue[0], senders, outcome));
            && after.rows == (if queue[0].channel !in senders then s.rows else Recorded(s.rows, queue[0], outcome))
            && d in after.drains && after.drains[d] == Drain(queue[1..], None, senders)
  {
    hide Recorded, Apply, Run;
    if queue[0].channel !in senders {
      NoSenderHolds(s, d, Delivered);
      RunOfOne(s, Send(d, Delivered));
    } else {
      OneRowAlone(s, d, outcome);
      RunOfTwo(s, Send(d, outcome), Record(d));
    }
  }

  lemma DrainedOneMore(rows: seq<Row>, s: State, d: DrainId, picks: seq<Pick>, answers: seq<Outcome>,
                       senders: set<Channel>, n: nat)
    requires 0 < n <= |picks| <= |answers| && d in s.drains && s.drains[d] == Drain(picks[n - 1..], None, senders)
    requires (s.rows, Asked(picks, senders, n - 1)) == Drained(rows, picks, answers, senders, n - 1)
    ensures var now := Run(s, RowAlone(d, picks[n - 1], senders, AnswerTo(picks, answers, senders, n - 1)));
            && (now.rows, Asked(picks, senders, n)) == Drained(rows, picks, answers, senders, n)
            && d in now.drains && now.drains[d] == Drain(picks[n..], None, senders)
  {
    hide Run, Recorded, RowAlone;
    assert picks[n - 1..][0] == picks[n - 1] && picks[n - 1..][1..] == picks[n..];
    OneMoreRowAlone(s, d, picks[n - 1..], senders, AnswerTo(picks, answers, senders, n - 1));
  }

  lemma RunOfOne(s: State, e: Event)
    ensures Run(s, [e]) == Apply(s, e)
  {
    assert [e][..0] == [] && Run(s, []) == s;
  }

  lemma RunOfTwo(s: State, a: Event, b: Event)
    ensures Run(s, [a, b]) == Apply(Apply(s, a), b)
  {
    assert [a, b][..1] == [a];
    RunOfOne(s, a);
    hide Apply;
  }

  /** The drain as it runs is one run of the protocol: the same rows, and nothing left to do. */
  lemma {:induction false} DrainIsARun(s: State, d: DrainId, picks: seq<Pick>, answers: seq<Outcome>,
                                       senders: set<Channel>, n: nat)
    requires d in s.drains && s.drains[d] == Drain(picks, None, senders) && n <= |picks| <= |answers|
    ensures var now := Run(s, DrainingAlone(d, picks, answers, senders, n));
            && (now.rows, Asked(picks, senders, n)) == Drained(s.rows, picks, answers, senders, n)
            && d in now.drains && now.drains[d] == Drain(picks[n..], None, senders)
  {
    if n > 0 {
      DrainIsARun(s, d, picks, answers, senders, n - 1);
      hide Run, RowAlone, Drained, Asked, AnswerTo;
      var es, more := DrainingAlone(d, picks, answers, senders, n - 1),
                      RowAlone(d, picks[n - 1], senders, AnswerTo(picks, answers, senders, n - 1));
      assert DrainingAlone(d, picks, answers, senders, n) == es + more;
      hide DrainingAlone;
      DrainedOneMore(s.rows, Run(s, es), d, picks, answers, senders, n);
      RunConcat(s, es, more);
    } else {
      assert picks[0..] == picks && Run(s, []) == s;
    }
  }

  function DeliveredAmong(answers: seq<Outcome>, n: nat): nat
    requires n <= |answers|
  {
    if n == 0 then 0 else DeliveredAmong(answers, n - 1) + if answers[n - 1] == Delivered then 1 else 0
  }

  /** The drain as it runs; `answers` are what the senders will say, in order. */
  class Outbox {
    var rows: seq<Row>

    method EnqueueAll(planned: seq<Planned>, due: int) returns (inserted: nat)
      modifies `rows
      ensures rows == Inserted(old(rows), planned, due)
      ensures inserted == |rows| - |old(rows)|
    {
      ghost var was := rows;
      inserted := 0;
      for i := 0 to |planned|
        invariant rows == Inserted(was, planned[..i], due)
        invariant inserted == |rows| - |was|
      {
        assert planned[..i + 1][..i] == planned[..i];
        var p := planned[i];
        var known := HasKey(rows, p.key);
        if !known {
          rows := rows + [Row(p.key, p.channel, p.recipient, Pending, 0, due)];
          inserted := inserted + 1;
        }
      }
      assert planned[..|planned|] == planned;
    }

    method DrainDue(picks: seq<Pick>, answers: seq<Outcome>, senders: set<Channel>)
      returns (sent: nat, failed: nat, held: nat)
      requires |answers| >= |picks|
      requires forall i | 0 <= i < |picks| :: picks[i].row < |rows|
      modifies `rows
      ensures rows == Drained(old(rows), picks, answers, senders, |picks|).0
      ensures sent + failed + held == |picks|
      ensures sent + failed == Asked(picks, senders, |picks|) && sent == DeliveredAmong(answers, sent + failed)
      ensures |rows| == |old(rows)| && forall i | 0 <= i < |rows| :: rows[i].key == old(rows)[i].key
    {
      ghost var was := rows;
      sent, failed, held := 0, 0, 0;
      for i := 0 to |picks|
        invariant sent + failed <= i
        invariant (rows, sent + failed) == Drained(was, picks, answers, senders, i)
        invariant sent + failed == Asked(picks, senders, i) && sent == DeliveredAmong(answers, sent + failed)
        invariant sent + failed + held == i
        invariant |rows| == |was| && forall x | 0 <= x < |rows| :: rows[x].key == was[x].key
      {
        var p := picks[i];
        if p.channel !in senders {
          held := held + 1;
          continue;
        }
        var result := answers[sent + failed];
        if result == Delivered {
          rows := rows[p.row := rows[p.row].(state := Sent, attempts := p.attempts + 1)];
          sent := sent + 1;
        } else {
          var state := if result == Retry then Pending else Failed;
          rows := rows[p.row := rows[p.row].(state := state, attempts := p.attempts + 1)];
          failed := failed + 1;
        }
      }
    }
  }
}
