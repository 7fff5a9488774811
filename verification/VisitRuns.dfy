/** What any sequence of nightly runs leaves on the board. */
module VisitRuns {
  import opened Calendar
  import opened VisitSchedule
  import opened VisitGeneration

  /** One nightly run: the day it takes as today, and the instant it runs at. */
  datatype Night = Night(today: Date, now: int)

  function AfterNight(vs: seq<PlannedVisit>, cs: seq<ContractRow>, night: Night): seq<PlannedVisit> {
    GenerateAll(vs, LiveOn(cs, night.today), night.now)
  }

  function AfterNights(vs: seq<PlannedVisit>, cs: seq<ContractRow>, nights: seq<Night>): seq<PlannedVisit> {
    if nights == [] then vs else AfterNight(AfterNights(vs, cs, nights[..|nights| - 1]), cs, nights[|nights| - 1])
  }

  /** One of the visits a schedule commits to. */
  predicate Commits(s: Schedule, start: Date, v: PlannedVisit) {
    1 <= v.number <= s.visitsCommitted && v == VisitAt(s, start, v.number)
  }

  ghost predicate Promised(c: ContractRow, v: PlannedVisit) {
    exists s :: s in c.schedules && Commits(s, c.start, v)
  }

  ghost predicate DistinctSchedules(ss: seq<Schedule>) {
    forall i, j | 0 <= i < j < |ss| :: ss[i].id != ss[j].id
  }

  /** Schedule ids are keys of their table. */
  ghost predicate DistinctContracts(cs: seq<ContractRow>) {
    && (forall i | 0 <= i < |cs| :: DistinctSchedules(cs[i].schedules))
    && (forall i, j, s, t | 0 <= i < j < |cs| && s in cs[i].schedules && t in cs[j].schedules :: s.id != t.id)
  }

  ghost predicate DistinctKeys(vs: seq<PlannedVisit>) {
    forall i, j | 0 <= i < j < |vs| :: vs[i].key != vs[j].key
  }

  /** Every visit on the board under a schedule of the contract is one the schedule commits to. */
  ghost predicate Consistent(vs: seq<PlannedVisit>, c: ContractRow) {
    forall v, s | v in vs && s in c.schedules && v.key.schedule == s.id :: Commits(s, c.start, v)
  }

  ghost predicate AllConsistent(vs: seq<PlannedVisit>, cs: seq<ContractRow>) {
    forall c :: c in cs ==> Consistent(vs, c)
  }

  lemma {:induction false} MissingExactly(ss: seq<Schedule>, start: Date, from: int, until: int, taken: set<Key>,
                                          v: PlannedVisit)
    ensures v in Missing(ss, start, from, until, taken)
            <==> v.key !in taken && Within(v.on, from, until) && exists s :: s in ss && Commits(s, start, v)
  {
    if ss != [] {
      hide Within, VisitAt, Planned;
      MissingExactly(ss[1..], start, from, until, taken, v);
      PlannedExactly(ss[0], start, from, until, v);
    }
  }

  lemma PlannedExactly(s: Schedule, start: Date, from: int, until: int, v: PlannedVisit)
    ensures v in Planned(s, start, from, until) <==> Commits(s, start, v) && Within(v.on, from, until)
  {
    hide Within, VisitAt;
    PlannedFromExactly(s, start, from, until, 1, v);
  }

  lemma {:induction false} PlannedKeysDistinct(s: Schedule, start: Date, from: int, until: int, n: nat)
    requires n > 0
    ensures DistinctKeys(PlannedFrom(s, start, from, until, n))
    decreases s.visitsCommitted + 1 - n
  {
    if n <= s.visitsCommitted {
      hide Within, VisitOn;
      PlannedKeysDistinct(s, start, from, until, n + 1);
      var rest := PlannedFrom(s, start, from, until, n + 1);
      forall j | 0 <= j < |rest|
        ensures rest[j].key != Key(s.id, n)
      {
        PlannedFromExactly(s, start, from, until, n + 1, rest[j]);
      }
    }
  }

  lemma {:induction false} NotTakenDistinct(planned: seq<PlannedVisit>, taken: set<Key>)
    requires DistinctKeys(planned)
    ensures DistinctKeys(NotTaken(planned, taken))
  {
    if planned != [] {
      NotTakenDistinct(planned[1..], taken);
      var rest := NotTaken(planned[1..], taken);
      forall j | 0 <= j < |rest|
        ensures rest[j].key != planned[0].key
      {
        assert rest[j] in planned[1..];
        var k :| 0 <= k < |planned[1..]| && planned[1..][k] == rest[j];
        assert planned[k + 1] == rest[j];
      }
    }
  }

  lemma DistinctConcat(a: seq<PlannedVisit>, b: seq<PlannedVisit>)
    requires DistinctKeys(a) && DistinctKeys(b)
    requires forall v, w | v in a && w in b :: v.key != w.key
    ensures DistinctKeys(a + b)
  {
    var ab := a + b;
    forall i, j | 0 <= i < j < |ab|
      ensures ab[i].key != ab[j].key
    {
      if i < |a| <= j {
        assert ab[i] in a && ab[j] in b;
      }
    }
  }

  lemma {:induction false} MissingDistinct(ss: seq<Schedule>, start: Date, from: int, until: int, taken: set<Key>)
    requires DistinctSchedules(ss)
    ensures DistinctKeys(Missing(ss, start, from, until, taken))
  {
    if ss != [] {
      hide DistinctKeys, Planned, VisitAt;
      MissingDistinct(ss[1..], start, from, until, taken);
      var here := NotTaken(Planned(ss[0], start, from, until), taken);
      var rest := Missing(ss[1..], start, from, until, taken);
      PlanHasDistinctKeys(ss[0], start, from, until);
      NotTakenDistinct(Planned(ss[0], start, from, until), taken);
      forall v, w | v in here && w in rest
        ensures v.key != w.key
      {
        PlannedExactly(ss[0], start, from, until, v);
        MissingExactly(ss[1..], start, from, until, taken, w);
        KeyNamesSchedule(ss[0], start, v);
        var t :| t in ss[1..] && Commits(t, start, w);
        KeyNamesSchedule(t, start, w);
      }
      DistinctConcat(here, rest);
    }
  }

  lemma PlanHasDistinctKeys(s: Schedule, start: Date, from: int, until: int)
    ensures DistinctKeys(Planned(s, start, from, until))
  {
    PlannedKeysDistinct(s, start, from, until, 1);
  }

  lemma KeyNamesSchedule(s: Schedule, start: Date, v: PlannedVisit)
    requires Commits(s, start, v)
    ensures v.key == Key(s.id, v.number)
  {
  }

  /**
    A key of the contract on the board is the visit the schedule commits to, so a promised visit is missing or
    there.
   */
  lemma KeyOnBoard(vs: seq<PlannedVisit>, c: ContractRow, v: PlannedVisit)
    requires Consistent(vs, c) && Promised(c, v)
    ensures v.key in KeysOf(vs) <==> v in vs
  {
    var s :| s in c.schedules && Commits(s, c.start, v);
    KeyNamesSchedule(s, c.start, v);
    if v.key in KeysOf(vs) {
      var w :| w in vs && w.key == v.key;
      assert Commits(s, c.start, w);
      KeyNamesSchedule(s, c.start, w);
    }
  }

  /** One run for one contract adds exactly its promised visits of the next ninety days. */
  lemma GenerateExactly(vs: seq<PlannedVisit>, c: ContractRow, now: int, v: PlannedVisit)
    requires Consistent(vs, c)
    ensures v in Generate(vs, c, now)
            <==> v in vs || (CanPlace(c, c.branch) && Promised(c, v) && Within(v.on, now, now + HORIZON))
  {
    hide Missing, Within, Commits, Consistent;
    if CanPlace(c, c.branch) {
      MissingExactly(c.schedules, c.start, now, now + HORIZON, KeysOf(vs), v);
      if Promised(c, v) {
        KeyOnBoard(vs, c, v);
      }
    }
  }

  lemma GenerateKeepsConsistency(vs: seq<PlannedVisit>, c: ContractRow, now: int, d: ContractRow)
    requires Consistent(vs, c) && Consistent(vs, d) && DistinctSchedules(c.schedules)
    requires c == d || forall s, t | s in c.schedules && t in d.schedules :: s.id != t.id
    ensures Consistent(Generate(vs, c, now), d)
  {
    hide Commits, Generate;
    forall v, t | v in Generate(vs, c, now) && t in d.schedules && v.key.schedule == t.id
      ensures Commits(t, d.start, v)
    {
      GenerateExactly(vs, c, now, v);
      if v !in vs {
        var s :| s in c.schedules && Commits(s, c.start, v);
        KeyNamesSchedule(s, c.start, v);
      }
    }
  }

  lemma GenerateKeepsDistinct(vs: seq<PlannedVisit>, c: ContractRow, now: int)
    requires DistinctKeys(vs) && DistinctSchedules(c.schedules)
    ensures DistinctKeys(Generate(vs, c, now))
  {
    hide DistinctKeys, DistinctSchedules, Missing;
    if CanPlace(c, c.branch) {
      var more := Missing(c.schedules, c.start, now, now + HORIZON, KeysOf(vs));
      MissingDistinct(c.schedules, c.start, now, now + HORIZON, KeysOf(vs));
      forall v, w | v in vs && w in more
        ensures v.key != w.key
      {
        MissingExactly(c.schedules, c.start, now, now + HORIZON, KeysOf(vs), w);
      }
      DistinctConcat(vs, more);
    }
  }

  ghost predicate Board(vs: seq<PlannedVisit>, cs: seq<ContractRow>) {
    DistinctKeys(vs) && AllConsistent(vs, cs)
  }

  /** Contracts of the book: any two in it are the same or share no schedule. */
  ghost predicate Apart(c: ContractRow, d: ContractRow) {
    c == d || forall s, t | s in c.schedules && t in d.schedules :: s.id != t.id
  }

  lemma BookApart(cs: seq<ContractRow>, c: ContractRow, d: ContractRow)
    requires DistinctContracts(cs) && c in cs && d in cs
    ensures Apart(c, d) && DistinctSchedules(c.schedules)
  {
    var i :| 0 <= i < |cs| && cs[i] == c;
    var j :| 0 <= j < |cs| && cs[j] == d;
  }

  lemma GenerateKeepsBoard(vs: seq<PlannedVisit>, cs: seq<ContractRow>, c: ContractRow, now: int)
    requires DistinctContracts(cs) && Board(vs, cs) && c in cs
    ensures Board(Generate(vs, c, now), cs)
  {
    hide DistinctKeys, Consistent, DistinctContracts, Generate;
    BookApart(cs, c, c);
    GenerateKeepsDistinct(vs, c, now);
    forall d | d in cs
      ensures Consistent(Generate(vs, c, now), d)
    {
      BookApart(cs, c, d);
      GenerateKeepsConsistency(vs, c, now, d);
    }
  }

  /** The visit is promised by one of these contracts and falls within the run's horizon. */
  ghost predicate DueTo(live: seq<ContractRow>, now: int, v: PlannedVisit) {
    exists c :: c in live && CanPlace(c, c.branch) && Promised(c, v) && Within(v.on, now, now + HORIZON)
  }

  lemma {:induction false} GenerateAllExactly(vs: seq<PlannedVisit>, cs: seq<ContractRow>, live: seq<ContractRow>,
                                              now: int, v: PlannedVisit)
    requires DistinctContracts(cs) && Board(vs, cs) && forall c :: c in live ==> c in cs
    ensures Board(GenerateAll(vs, live, now), cs)
    ensures v in GenerateAll(vs, live, now) <==> v in vs || DueTo(live, now, v)
    decreases |live|
  {
    if live != [] {
      hide Board, DistinctContracts, Generate, Within, Promised, CanPlace;
      var c := live[0];
      assert c in live;
      var next := Generate(vs, c, now);
      GenerateKeepsBoard(vs, cs, c, now);
      assert Consistent(vs, c) by {
        BoardConsistent(vs, cs, c);
      }
      GenerateExactly(vs, c, now, v);
      GenerateAllExactly(next, cs, live[1..], now, v);
      assert forall d :: d in live <==> d == c || d in live[1..];
    }
  }

  lemma BoardConsistent(vs: seq<PlannedVisit>, cs: seq<ContractRow>, c: ContractRow)
    requires Board(vs, cs) && c in cs
    ensures Consistent(vs, c)
  {
  }

  /** Some night on which the contract was live had the visit within its horizon. */
  ghost predicate Reached(cs: seq<ContractRow>, nights: seq<Night>, v: PlannedVisit) {
    exists i | 0 <= i < |nights| :: DueTo(LiveOn(cs, nights[i].today), nights[i].now, v)
  }

  lemma ReachedOneMore(cs: seq<ContractRow>, nights: seq<Night>, v: PlannedVisit)
    requires nights != []
    ensures var n := |nights| - 1;
            Reached(cs, nights, v) <==>
              Reached(cs, nights[..n], v) || DueTo(LiveOn(cs, nights[n].today), nights[n].now, v)
  {
    hide DueTo, LiveOn;
    var n := |nights| - 1;
    assert forall i | 0 <= i < n :: nights[..n][i] == nights[i];
    if Reached(cs, nights[..n], v) {
      var i :| 0 <= i < n && DueTo(LiveOn(cs, nights[..n][i].today), nights[..n][i].now, v);
      assert DueTo(LiveOn(cs, nights[i].today), nights[i].now, v);
    }
  }

  /** After any nights: the board holds what it held and what some night reached, one job each. */
  lemma {:induction false} NightsExactly(vs: seq<PlannedVisit>, cs: seq<ContractRow>, nights: seq<Night>,
                                         v: PlannedVisit)
    requires DistinctContracts(cs) && Board(vs, cs)
    ensures Board(AfterNights(vs, cs, nights), cs)
    ensures v in AfterNights(vs, cs, nights) <==> v in vs || Reached(cs, nights, v)
  {
    if nights != [] {
      hide Board, DistinctContracts, GenerateAll, DueTo, Reached;
      var n := |nights| - 1;
      NightsExactly(vs, cs, nights[..n], v);
      ReachedOneMore(cs, nights, v);
      GenerateAllExactly(AfterNights(vs, cs, nights[..n]), cs, LiveOn(cs, nights[n].today), nights[n].now, v);
    }
  }

  /** The contract is on the book, can be placed, and is live on every one of these nights. */
  ghost predicate LiveThroughout(cs: seq<ContractRow>, c: ContractRow, nights: seq<Night>) {
    && c in cs && CanPlace(c, c.branch)
    && forall i | 0 <= i < |nights| :: IsLive(c, nights[i].today)
  }

  lemma PromisedByOne(cs: seq<ContractRow>, c: ContractRow, d: ContractRow, v: PlannedVisit)
    requires DistinctContracts(cs) && c in cs && d in cs && Promised(c, v) && Promised(d, v)
    ensures c == d
  {
    hide DistinctContracts, Commits;
    BookApart(cs, c, d);
    var s :| s in c.schedules && Commits(s, c.start, v);
    var t :| t in d.schedules && Commits(t, d.start, v);
    KeyNamesSchedule(s, c.start, v);
    KeyNamesSchedule(t, d.start, v);
  }

  /** On this night the contract was live and had the visit within its horizon. */
  predicate LiveAndDue(c: ContractRow, night: Night, v: PlannedVisit) {
    IsLive(c, night.today) && Within(v.on, night.now, night.now + HORIZON)
  }

  /** A visit can only be reached through the contract that promises it. */
  lemma ReachedByItsContract(cs: seq<ContractRow>, c: ContractRow, nights: seq<Night>, v: PlannedVisit)
    requires DistinctContracts(cs) && c in cs && Promised(c, v)
    ensures Reached(cs, nights, v)
        <==> CanPlace(c, c.branch) && exists i | 0 <= i < |nights| :: LiveAndDue(c, nights[i], v)
  {
    hide DistinctContracts, Promised, DueTo, LiveOn, LiveAndDue, CanPlace;
    forall i | 0 <= i < |nights|
      ensures DueTo(LiveOn(cs, nights[i].today), nights[i].now, v)
          <==> CanPlace(c, c.branch) && LiveAndDue(c, nights[i], v)
    {
      DueThroughItsContract(cs, c, nights[i], v);
    }
  }

  lemma DueThroughItsContract(cs: seq<ContractRow>, c: ContractRow, night: Night, v: PlannedVisit)
    requires DistinctContracts(cs) && c in cs && Promised(c, v)
    ensures DueTo(LiveOn(cs, night.today), night.now, v) <==> CanPlace(c, c.branch) && LiveAndDue(c, night, v)
  {
    hide DistinctContracts, Promised, Within, IsLive, CanPlace;
    if DueTo(LiveOn(cs, night.today), night.now, v) {
      var d :| d in LiveOn(cs, night.today) && CanPlace(d, d.branch) && Promised(d, v)
               && Within(v.on, night.now, night.now + HORIZON);
      PromisedByOne(cs, c, d, v);
    }
  }

  /**
    For any contract of the book and any nights: a visit it promises is on the board exactly when on some
    night the contract was live and the visit's midnight lay between that run and ninety days on.
   */
  lemma BoardExactly(cs: seq<ContractRow>, c: ContractRow, nights: seq<Night>, v: PlannedVisit)
    requires DistinctContracts(cs) && c in cs && Promised(c, v)
    ensures v in AfterNights([], cs, nights)
        <==> CanPlace(c, c.branch) && exists i | 0 <= i < |nights| :: LiveAndDue(c, nights[i], v)
  {
    hide Promised, DistinctContracts, LiveAndDue, CanPlace;
    assert Board([], cs);
    NightsExactly([], cs, nights, v);
    ReachedByItsContract(cs, c, nights, v);
  }

  /**
    The same in words: visit `n` of a schedule of the contract is on the board exactly when the contract has a site
    and a branch, and some night fell in its term on which the visit's midnight was at most ninety days ahead and
    not yet past.
   */
  lemma BoardInWords(cs: seq<ContractRow>, c: ContractRow, s: Schedule, n: nat, nights: seq<Night>)
    requires DistinctContracts(cs) && c in cs && s in c.schedules && 1 <= n <= s.visitsCommitted
    ensures var on := VisitOn(s, c.start, n);
            PlannedVisit(Key(s.id, n), n, s.visitsCommitted, on) in AfterNights([], cs, nights) <==>
              && c.hasSite && c.branch.Some?
              && exists i | 0 <= i < |nights| ::
                   && NotAfter(c.start, nights[i].today) && NotAfter(nights[i].today, c.end)
                   && nights[i].now <= ToDay(on) * 24 * 60 * 60 * 1000 <= nights[i].now + 90 * 24 * 60 * 60 * 1000
  {
    var v := VisitAt(s, c.start, n);
    assert Commits(s, c.start, v);
    assert c.schedules != [];
    hide DistinctContracts, Promised, AfterNights, VisitOn, ToDay, NotAfter;
    BoardExactly(cs, c, nights, v);
    forall i | 0 <= i < |nights|
      ensures LiveAndDue(c, nights[i], v) <==>
        && NotAfter(c.start, nights[i].today) && NotAfter(nights[i].today, c.end)
        && nights[i].now <= ToDay(v.on) * 24 * 60 * 60 * 1000 <= nights[i].now + 90 * 24 * 60 * 60 * 1000
    {
    }
    hide LiveAndDue;
  }

  ghost predicate ReachedAt(nights: seq<Night>, v: PlannedVisit) {
    exists i | 0 <= i < |nights| :: Within(v.on, nights[i].now, nights[i].now + HORIZON)
  }

  lemma ReachedIsReachedAt(cs: seq<ContractRow>, nights: seq<Night>, v: PlannedVisit)
    requires Reached(cs, nights, v)
    ensures ReachedAt(nights, v)
  {
    hide Promised, Within, LiveOn, CanPlace;
    var i :| 0 <= i < |nights| && DueTo(LiveOn(cs, nights[i].today), nights[i].now, v);
    var d :| d in LiveOn(cs, nights[i].today) && CanPlace(d, d.branch) && Promised(d, v)
      && Within(v.on, nights[i].now, nights[i].now + HORIZON);
  }

  lemma ReachedWhileLive(cs: seq<ContractRow>, c: ContractRow, nights: seq<Night>, v: PlannedVisit)
    requires DistinctContracts(cs) && LiveThroughout(cs, c, nights) && Promised(c, v)
    ensures Reached(cs, nights, v) <==> ReachedAt(nights, v)
  {
    if Reached(cs, nights, v) {
      ReachedIsReachedAt(cs, nights, v);
    }
    hide DistinctContracts, Promised, Within, IsLive, CanPlace;
    if ReachedAt(nights, v) {
      var i :| 0 <= i < |nights| && Within(v.on, nights[i].now, nights[i].now + HORIZON);
      assert c in LiveOn(cs, nights[i].today);
      assert DueTo(LiveOn(cs, nights[i].today), nights[i].now, v);
    }
  }

  ghost predicate InOrder(nights: seq<Night>) {
    forall i, j | 0 <= i <= j < |nights| :: nights[i].now <= nights[j].now
  }

  /** The whole stretch the nights could have covered. */
  predicate Spanned(nights: seq<Night>, v: PlannedVisit)
    requires nights != []
  {
    Within(v.on, nights[0].now, nights[|nights| - 1].now + HORIZON)
  }

  /** The visit falls after one run's horizon ends and before the next run. */
  predicate InHole(nights: seq<Night>, i: nat, v: PlannedVisit)
    requires i + 1 < |nights|
  {
    nights[i].now + HORIZON < Midnight(v.on) < nights[i + 1].now
  }

  ghost predicate InSomeHole(nights: seq<Night>, v: PlannedVisit) {
    exists i: nat | i + 1 < |nights| :: InHole(nights, i, v)
  }

  lemma ReachedUnlessHole(nights: seq<Night>, v: PlannedVisit)
    requires nights != [] && InOrder(nights)
    ensures ReachedAt(nights, v) <==> Spanned(nights, v) && !InSomeHole(nights, v)
  {
    hide Midnight;
    if ReachedAt(nights, v) {
      var i :| 0 <= i < |nights| && Within(v.on, nights[i].now, nights[i].now + HORIZON);
      forall j: nat | j + 1 < |nights|
        ensures !InHole(nights, j, v)
      {
        assert if i <= j then nights[i].now <= nights[j].now else nights[j + 1].now <= nights[i].now;
      }
    } else if Spanned(nights, v) {
      var i := 0;
      while i + 1 < |nights| && !InHole(nights, i, v)
        invariant 0 <= i < |nights| && nights[i].now + HORIZON < Midnight(v.on)
      {
        assert !Within(v.on, nights[i + 1].now, nights[i + 1].now + HORIZON);
        i := i + 1;
      }
    }
  }

  /** Two runs are never more than the horizon apart. */
  ghost predicate NoLongGap(nights: seq<Night>) {
    forall i | 0 <= i && i + 1 < |nights| :: nights[i + 1].now <= nights[i].now + HORIZON
  }

  /**
    Rolling generation: while the contract is live and runs are at most ninety days apart, the board
    holds exactly the promised visits between the first run and ninety days after the last, one job each.
   */
  lemma RollingBoard(cs: seq<ContractRow>, c: ContractRow, nights: seq<Night>, v: PlannedVisit)
    requires DistinctContracts(cs) && LiveThroughout(cs, c, nights) && nights != []
    requires InOrder(nights) && NoLongGap(nights)
    requires Promised(c, v)
    ensures v in AfterNights([], cs, nights) <==> Spanned(nights, v)
    ensures DistinctKeys(AfterNights([], cs, nights))
  {
    hide Promised, DistinctContracts, LiveThroughout;
    assert Board([], cs);
    NightsExactly([], cs, nights, v);
    ReachedWhileLive(cs, c, nights, v);
    ReachedUnlessHole(nights, v);
  }

  /** With longer gaps, a visit of the stretch is on the board exactly when it misses every hole between two runs. */
  lemma BoardUnlessHole(cs: seq<ContractRow>, c: ContractRow, nights: seq<Night>, v: PlannedVisit)
    requires DistinctContracts(cs) && LiveThroughout(cs, c, nights) && nights != [] && InOrder(nights)
    requires Promised(c, v)
    ensures v in AfterNights([], cs, nights) <==> Spanned(nights, v) && !InSomeHole(nights, v)
  {
    hide Promised, DistinctContracts, LiveThroughout, InSomeHole;
    assert Board([], cs);
    NightsExactly([], cs, nights, v);
    ReachedWhileLive(cs, c, nights, v);
    ReachedUnlessHole(nights, v);
  }

  /** Nothing else is ever put there: each visit on the board is promised by a contract of the book. */
  lemma OnlyPromisedVisits(cs: seq<ContractRow>, nights: seq<Night>, v: PlannedVisit)
    requires DistinctContracts(cs) && v in AfterNights([], cs, nights)
    ensures exists c :: c in cs && Promised(c, v)
  {
    hide Promised, DistinctContracts;
    assert Board([], cs);
    NightsExactly([], cs, nights, v);
  }

  lemma {:induction false} NothingMissing(vs: seq<PlannedVisit>, cs: seq<ContractRow>, live: seq<ContractRow>, now: int)
    requires DistinctContracts(cs) && Board(vs, cs) && forall c :: c in live ==> c in cs
    requires forall v :: DueTo(live, now, v) ==> v in vs
    ensures GenerateAll(vs, live, now) == vs
    decreases |live|
  {
    if live != [] {
      hide Board, DistinctContracts, Promised, Within, CanPlace;
      var c := live[0];
      assert c in live;
      NothingMissingFor(vs, cs, c, live, now);
      forall v | DueTo(live[1..], now, v)
        ensures v in vs
      {
        var d :| d in live[1..] && CanPlace(d, d.branch) && Promised(d, v) && Within(v.on, now, now + HORIZON);
        assert d in live;
        assert DueTo(live, now, v);
      }
      NothingMissing(vs, cs, live[1..], now);
    }
  }

  lemma NothingMissingFor(vs: seq<PlannedVisit>, cs: seq<ContractRow>, c: ContractRow, live: seq<ContractRow>, now: int)
    requires DistinctContracts(cs) && Board(vs, cs) && c in cs && c in live
    requires forall v :: DueTo(live, now, v) ==> v in vs
    ensures Generate(vs, c, now) == vs
  {
    hide Board, DistinctContracts, Within, Commits, Missing;
    if CanPlace(c, c.branch) {
      var more := Missing(c.schedules, c.start, now, now + HORIZON, KeysOf(vs));
      forall v
        ensures v !in more
      {
        MissingExactly(c.schedules, c.start, now, now + HORIZON, KeysOf(vs), v);
        assert Promised(c, v) && Within(v.on, now, now + HORIZON) ==> DueTo(live, now, v);
      }
      HasMember(more);
      assert vs + [] == vs;
    }
  }

  /** Running the same night again adds nothing and changes nothing. */
  lemma SecondRunAddsNothing(vs: seq<PlannedVisit>, cs: seq<ContractRow>, night: Night)
    requires DistinctContracts(cs) && Board(vs, cs)
    ensures AfterNight(AfterNight(vs, cs, night), cs, night) == AfterNight(vs, cs, night)
  {
    hide Board, DistinctContracts, DueTo, GenerateAll;
    var live := LiveOn(cs, night.today);
    var once := AfterNight(vs, cs, night);
    forall v
      ensures Board(once, cs) && (DueTo(live, night.now, v) ==> v in once)
    {
      GenerateAllExactly(vs, cs, live, night.now, v);
    }
    var any := PlannedVisit(Key(0, 0), 0, 0, Date(0, 0, 0));
    GenerateAllExactly(vs, cs, live, night.now, any);
    NothingMissing(once, cs, live, night.now);
  }

  /** One run with the horizon of all the runs together. */
  function LongRun(c: ContractRow, nights: seq<Night>): seq<PlannedVisit>
    requires nights != []
  {
    Missing(c.schedules, c.start, nights[0].now, nights[|nights| - 1].now + HORIZON, {})
  }

  lemma HasMember(vs: seq<PlannedVisit>)
    ensures vs == [] || exists v :: v in vs
  {
    if vs != [] {
      assert vs[0] in vs;
    }
  }

  lemma {:induction false} CountedOnce(vs: seq<PlannedVisit>, v: PlannedVisit)
    requires DistinctKeys(vs)
    ensures multiset(vs)[v] == if v in vs then 1 else 0
  {
    if vs != [] {
      CountedOnce(vs[1..], v);
      assert vs == [vs[0]] + vs[1..];
    }
  }

  lemma SameElementsOnce(a: seq<PlannedVisit>, b: seq<PlannedVisit>)
    requires DistinctKeys(a) && DistinctKeys(b) && forall v :: v in a <==> v in b
    ensures multiset(a) == multiset(b)
  {
    forall v
      ensures multiset(a)[v] == multiset(b)[v]
    {
      CountedOnce(a, v);
      CountedOnce(b, v);
    }
  }

  /** Many short runs put on the board what one run with a long horizon would have. */
  lemma IncrementalEqualsOneRun(c: ContractRow, nights: seq<Night>)
    requires DistinctSchedules(c.schedules) && LiveThroughout([c], c, nights)
    requires nights != [] && InOrder(nights) && NoLongGap(nights)
    ensures multiset(AfterNights([], [c], nights)) == multiset(LongRun(c, nights))
  {
    assert Board([], [c]);
    hide LiveThroughout, InOrder, NoLongGap, DistinctSchedules, Missing, AfterNights, Commits, Within, DistinctKeys;
    assert DistinctContracts([c]);
    var from, until := nights[0].now, nights[|nights| - 1].now + HORIZON;
    MissingDistinct(c.schedules, c.start, from, until, {});
    var any := PlannedVisit(Key(0, 0), 0, 0, Date(0, 0, 0));
    NightsExactly([], [c], nights, any);
    forall v
      ensures v in AfterNights([], [c], nights) <==> v in LongRun(c, nights)
    {
      MissingExactly(c.schedules, c.start, from, until, {}, v);
      if Promised(c, v) {
        RollingBoard([c], c, nights, v);
      } else if v in AfterNights([], [c], nights) {
        OnlyPromisedVisits([c], nights, v);
      }
    }
    SameElementsOnce(AfterNights([], [c], nights), LongRun(c, nights));
  }

  /** The first visit falls before the contract starts exactly when its month-based anchor is before the start day. */
  lemma FirstVisitBeforeStart(s: Schedule, start: Date)
    requires Valid(start) && Sound(s)
    ensures Before(VisitOn(s, start, 1), start) <==> StepOf(s.recurrence).Months? && s.anchorDay < start.d
  {
    var on := VisitOn(s, start, 1);
    OrderIsDayOrder(on, start);
    match StepOf(s.recurrence)
    case Months(months) =>
      AnchoredStaysInMonth(start, 0, s.anchorDay);
    case Days(days) =>
      SameDay(on, start);
  }

  /** The first visit is never more than a month after the start. */
  lemma FirstVisitSoon(s: Schedule, start: Date)
    requires Valid(start) && Sound(s)
    ensures ToDay(VisitOn(s, start, 1)) <= ToDay(start) + 30
    ensures StepOf(s.recurrence).Days? || s.anchorDay <= start.d ==> ToDay(VisitOn(s, start, 1)) <= ToDay(start)
  {
    hide MonthStart;
    match StepOf(s.recurrence)
    case Months(months) =>
      AnchoredStaysInMonth(start, 0, s.anchorDay);
      assert months * 0 == 0;
    case Days(days) =>
      assert days * 0 == 0;
  }

  /** Each run happens on the day it takes as today, at midnight or later. */
  ghost predicate OnTheirDays(nights: seq<Night>) {
    forall i | 0 <= i < |nights| :: Valid(nights[i].today) && Midnight(nights[i].today) <= nights[i].now
  }

  lemma FirstVisitWithinHorizon(c: ContractRow, s: Schedule, night: Night)
    requires StoredRow(c) && Sound(s) && Valid(night.today) && Midnight(night.today) <= night.now
    requires IsLive(c, night.today)
    ensures Midnight(VisitOn(s, c.start, 1)) <= night.now + HORIZON
  {
    FirstVisitSoon(s, c.start);
    OrderIsDayOrder(c.start, night.today);
    hide VisitOn, ToDay;
  }

  /**
    The first visit gets onto the board exactly when some run of the live contract happens at or before the
    visit's midnight; the contract is live from its start day on, and not before.
   */
  lemma FirstVisitExactly(cs: seq<ContractRow>, c: ContractRow, s: Schedule, nights: seq<Night>)
    requires DistinctContracts(cs) && c in cs && StoredRow(c) && s in c.schedules
    requires s.visitsCommitted > 0 && OnTheirDays(nights)
    ensures Promised(c, VisitAt(s, c.start, 1))
    ensures VisitAt(s, c.start, 1) in AfterNights([], cs, nights) <==>
      && CanPlace(c, c.branch)
      && exists i | 0 <= i < |nights| ::
           IsLive(c, nights[i].today) && nights[i].now <= Midnight(VisitOn(s, c.start, 1))
  {
    var v := VisitAt(s, c.start, 1);
    assert Commits(s, c.start, v);
    hide DistinctContracts, Promised, AfterNights, VisitOn, CanPlace, ToDay;
    BoardExactly(cs, c, nights, v);
    forall i | 0 <= i < |nights|
      ensures LiveAndDue(c, nights[i], v)
          <==> IsLive(c, nights[i].today) && nights[i].now <= Midnight(VisitOn(s, c.start, 1))
    {
      if IsLive(c, nights[i].today) {
        FirstVisitWithinHorizon(c, s, nights[i]);
      }
    }
    hide IsLive, LiveAndDue, Midnight;
  }

  /**
    So with runs after midnight only a month-based anchor later than the start day keeps its first visit:
    a weekly or fortnightly schedule, and one anchored on or before the start day, always loses it.
   */
  lemma OnlyALaterAnchorKeepsItsFirstVisit(cs: seq<ContractRow>, c: ContractRow, s: Schedule, nights: seq<Night>)
    requires DistinctContracts(cs) && c in cs && StoredRow(c) && s in c.schedules
    requires s.visitsCommitted > 0 && OnTheirDays(nights)
    requires forall i | 0 <= i < |nights| :: Midnight(nights[i].today) < nights[i].now
    ensures VisitAt(s, c.start, 1) in AfterNights([], cs, nights) ==>
      StepOf(s.recurrence).Months? && s.anchorDay > c.start.d
  {
    FirstVisitExactly(cs, c, s, nights);
    FirstVisitSoon(s, c.start);
    hide DistinctContracts, AfterNights, VisitOn, CanPlace, ToDay;
    forall i | 0 <= i < |nights| && IsLive(c, nights[i].today)
      ensures Midnight(c.start) < nights[i].now
    {
      OrderIsDayOrder(c.start, nights[i].today);
    }
  }

  /** An anchor before the start day loses its first visit even to a run at midnight. */
  lemma {:induction false} EarlyAnchorLosesFirstVisit(cs: seq<ContractRow>, c: ContractRow, s: Schedule,
                                                      nights: seq<Night>)
    requires DistinctContracts(cs) && c in cs && StoredRow(c) && s in c.schedules
    requires s.visitsCommitted > 0 && OnTheirDays(nights)
    requires StepOf(s.recurrence).Months? && s.anchorDay < c.start.d
    ensures Promised(c, VisitAt(s, c.start, 1)) && VisitAt(s, c.start, 1) !in AfterNights([], cs, nights)
  {
    FirstVisitExactly(cs, c, s, nights);
    FirstVisitBeforeStart(s, c.start);
    FirstVisitValid(s, c.start);
    OrderIsDayOrder(VisitOn(s, c.start, 1), c.start);
    hide DistinctContracts, AfterNights, VisitOn, CanPlace, ToDay, Promised;
    forall i | 0 <= i < |nights| && IsLive(c, nights[i].today)
      ensures Midnight(c.start) <= nights[i].now
    {
      OrderIsDayOrder(c.start, nights[i].today);
    }
  }

  lemma FirstVisitValid(s: Schedule, start: Date)
    requires Valid(start) && Sound(s)
    ensures Valid(VisitOn(s, start, 1))
  {
  }
}
