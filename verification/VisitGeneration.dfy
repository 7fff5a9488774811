/** Putting the due visits on the board, and what repeated runs come to: `src/lib/visit-generation.ts`. */
module VisitGeneration {
  import opened Calendar
  import opened Rounding
  import opened BillingPeriods
  import opened VisitSchedule
  import opened Wrappers
  import Numbering

  const HORIZON_DAYS: nat := 90

  const HORIZON: nat := HORIZON_DAYS * MS_PER_DAY

  datatype ContractRow = ContractRow(hasSite: bool, branch: Option<nat>, start: Date, end: Date,
                                     billing: Billing, annualPaise: int, schedules: seq<Schedule>)

  predicate StoredRow(c: ContractRow) {
    Valid(c.start) && Valid(c.end) && forall s :: s in c.schedules ==> Sound(s)
  }

  /** A job of the board; a job that is no contract visit has no visit on it. */
  datatype Job = Job(branch: nat, year: int, sequence: nat, visit: Option<PlannedVisit>, valuePaise: Option<int>)

  function VisitsOn(jobs: seq<Job>): seq<PlannedVisit> {
    if jobs == [] then []
    else VisitsOn(jobs[..|jobs| - 1]) + (if jobs[|jobs| - 1].visit.Some? then [jobs[|jobs| - 1].visit.value] else [])
  }

  function KeysOf(vs: seq<PlannedVisit>): (ks: set<Key>)
    ensures forall v :: v in vs ==> v.key in ks
    ensures forall k :: k in ks ==> exists v :: v in vs && v.key == k
  {
    set v | v in vs :: v.key
  }

  /** The planned visits whose key is not taken. */
  function NotTaken(planned: seq<PlannedVisit>, taken: set<Key>): (r: seq<PlannedVisit>)
    ensures forall v :: v in r <==> v in planned && v.key !in taken
  {
    if planned == [] then []
    else (if planned[0].key in taken then [] else [planned[0]]) + NotTaken(planned[1..], taken)
  }

  /** What a run from `from` to `until` finds missing, schedule by schedule. */
  function Missing(schedules: seq<Schedule>, start: Date, from: int, until: int, taken: set<Key>): seq<PlannedVisit> {
    if schedules == [] then []
    else NotTaken(Planned(schedules[0], start, from, until), taken) + Missing(schedules[1..], start, from, until, taken)
  }

  /** What is missing from schedule `k` on. */
  function MissingFrom(schedules: seq<Schedule>, k: nat, start: Date, from: int, until: int,
                       taken: set<Key>): seq<PlannedVisit>
    requires k <= |schedules|
  {
    Missing(schedules[k..], start, from, until, taken)
  }

  lemma MissingStep(schedules: seq<Schedule>, k: nat, start: Date, from: int, until: int, taken: set<Key>)
    requires k < |schedules|
    ensures MissingFrom(schedules, k, start, from, until, taken)
         == NotTaken(Planned(schedules[k], start, from, until), taken)
            + MissingFrom(schedules, k + 1, start, from, until, taken)
  {
    assert schedules[k..][0] == schedules[k] && schedules[k..][1..] == schedules[k + 1..];
  }

  lemma MissingEnds(schedules: seq<Schedule>, start: Date, from: int, until: int, taken: set<Key>)
    ensures MissingFrom(schedules, 0, start, from, until, taken) == Missing(schedules, start, from, until, taken)
    ensures MissingFrom(schedules, |schedules|, start, from, until, taken) == []
  {
    assert schedules[0..] == schedules && schedules[|schedules|..] == [];
  }

  /** A run needs a site, a branch and a schedule. */
  predicate CanPlace(c: ContractRow, fallback: Option<nat>) {
    c.hasSite && (c.branch.Some? || fallback.Some?) && c.schedules != []
  }

  function AnnualVisits(schedules: seq<Schedule>): nat {
    if schedules == [] then 0 else VisitsPerYear(schedules[0].recurrence) + AnnualVisits(schedules[1..])
  }

  function VisitValue(c: ContractRow): Option<int> {
    var n := AnnualVisits(c.schedules);
    if c.billing == PerVisit && n > 0 then Some(RoundDiv(c.annualPaise, n)) else None
  }

  lemma {:induction false} AnnualVisitsAddUp(a: seq<Schedule>, b: seq<Schedule>)
    ensures AnnualVisits(a + b) == AnnualVisits(a) + AnnualVisits(b)
    ensures |a| == 1 ==> AnnualVisits(a) == VisitsPerYear(a[0].recurrence)
  {
    if a == [] {
      assert a + b == b;
    } else {
      assert (a + b)[1..] == a[1..] + b;
      AnnualVisitsAddUp(a[1..], b);
    }
  }

  /** Visits have a worth exactly when they are billed; a year of them is the agreed value to half a paisa each. */
  lemma WorthOfAYear(c: ContractRow)
    ensures VisitValue(c).Some? <==> c.billing == PerVisit && c.schedules != []
    ensures VisitValue(c).Some? ==>
      var n: int := AnnualVisits(c.schedules);
      -n < 2 * (n * VisitValue(c).value - c.annualPaise) <= n
  {
    if c.schedules != [] {
      AnnualVisitsAddUp(c.schedules[..1], c.schedules[1..]);
      assert c.schedules == c.schedules[..1] + c.schedules[1..];
    }
    hide RoundDiv;
  }

  type Counters = map<(nat, int), nat>

  function Last(counters: Counters, branch: nat, year: int): nat {
    if (branch, year) in counters then counters[(branch, year)] else 0
  }

  /** How many of the jobs carry a number of that branch and year. */
  function Drawn(jobs: seq<Job>, branch: nat, year: int): nat {
    if jobs == [] then 0
    else Drawn(jobs[..|jobs| - 1], branch, year)
         + if jobs[|jobs| - 1].branch == branch && jobs[|jobs| - 1].year == year then 1 else 0
  }

  /** Each job continues the series of its branch and financial year, without a gap. */
  ghost predicate Continues(created: seq<Job>, counters: Counters) {
    forall i | 0 <= i < |created| ::
      var j := created[i];
      j.sequence == Last(counters, j.branch, j.year) + Drawn(created[..i + 1], j.branch, j.year)
  }

  ghost predicate WorthAndPlaced(created: seq<Job>, branch: nat, worth: Option<int>) {
    forall j :: j in created ==>
      j.branch == branch && j.valuePaise == worth && j.visit.Some?
        && j.year == Numbering.FinancialYear(j.visit.value.on)
  }

  /** Some jobs have been added, each with the next number of its series, and the counters moved on by them alone. */
  ghost predicate Added(jobs: seq<Job>, counters: Counters, jobs0: seq<Job>, counters0: Counters,
                        created: seq<Job>, branch: nat, worth: Option<int>) {
    && jobs == jobs0 + created && Continues(created, counters0) && WorthAndPlaced(created, branch, worth)
    && forall b, y :: Last(counters, b, y) == Last(counters0, b, y) + Drawn(created, b, y)
  }

  lemma OneMoreJob(jobs: seq<Job>, j: Job)
    ensures VisitsOn(jobs + [j]) == VisitsOn(jobs) + if j.visit.Some? then [j.visit.value] else []
    ensures forall b, y :: Drawn(jobs + [j], b, y) == Drawn(jobs, b, y) + if j.branch == b && j.year == y then 1 else 0
  {
    assert (jobs + [j])[..|jobs|] == jobs;
  }

  lemma ContinuesWith(created: seq<Job>, j: Job, counters: Counters)
    requires Continues(created, counters)
    requires j.sequence == Last(counters, j.branch, j.year) + Drawn(created, j.branch, j.year) + 1
    ensures Continues(created + [j], counters)
  {
    hide Last;
    var r := created + [j];
    OneMoreJob(created, j);
    forall i | 0 <= i < |r|
      ensures r[i].sequence == Last(counters, r[i].branch, r[i].year) + Drawn(r[..i + 1], r[i].branch, r[i].year)
    {
      if i < |created| {
        assert r[..i + 1] == created[..i + 1];
      } else {
        assert r[..i + 1] == r;
      }
    }
  }

  lemma {:induction false} VisitsOnConcat(a: seq<Job>, b: seq<Job>)
    ensures VisitsOn(a + b) == VisitsOn(a) + VisitsOn(b)
  {
    if b == [] {
      assert a + b == a;
    } else {
      var n := |b| - 1;
      VisitsOnConcat(a, b[..n]);
      assert a + b == (a + b[..n]) + [b[n]] && b == b[..n] + [b[n]];
      OneMoreJob(a + b[..n], b[n]);
      OneMoreJob(b[..n], b[n]);
    }
  }

  /** What the nightly run does for one contract: its own branch is the fallback too. */
  function Generate(vs: seq<PlannedVisit>, c: ContractRow, now: int): seq<PlannedVisit> {
    if CanPlace(c, c.branch) then vs + Missing(c.schedules, c.start, now, now + HORIZON, KeysOf(vs)) else vs
  }

  predicate IsLive(c: ContractRow, today: Date) {
    NotAfter(c.start, today) && NotAfter(today, c.end)
  }

  function LiveOn(cs: seq<ContractRow>, today: Date): (r: seq<ContractRow>)
    ensures forall c :: c in r <==> c in cs && IsLive(c, today)
  {
    if cs == [] then [] else (if IsLive(cs[0], today) then [cs[0]] else []) + LiveOn(cs[1..], today)
  }

  function GenerateAll(vs: seq<PlannedVisit>, cs: seq<ContractRow>, now: int): seq<PlannedVisit>
    decreases |cs|
  {
    if cs == [] then vs else GenerateAll(Generate(vs, cs[0], now), cs[1..], now)
  }

  lemma NothingAdded(jobs: seq<Job>, counters: Counters, branch: nat, worth: Option<int>)
    ensures Added(jobs, counters, jobs, counters, [], branch, worth) && VisitsOn([]) == []
  {
    assert jobs + [] == jobs;
  }

  lemma OneMoreAdded(jobs: seq<Job>, counters: Counters, jobs0: seq<Job>, counters0: Counters,
                     created: seq<Job>, branch: nat, worth: Option<int>, job: Job)
    requires Added(jobs, counters, jobs0, counters0, created, branch, worth)
    requires job.branch == branch && job.valuePaise == worth && job.visit.Some?
    requires job.year == Numbering.FinancialYear(job.visit.value.on)
    requires job.sequence == Last(counters, branch, job.year) + 1
    ensures Added(jobs + [job], counters[(branch, job.year) := job.sequence], jobs0, counters0,
                  created + [job], branch, worth)
  {
    hide Drawn, VisitsOn, Continues, Numbering.FinancialYear;
    assert WorthAndPlaced(created + [job], branch, worth);
    hide WorthAndPlaced;
    OneMoreJob(created, job);
    ContinuesWith(created, job, counters0);
    assert jobs + [job] == jobs0 + (created + [job]);
  }

  /** The job table of one tenant, with the job series of its branches. */
  class Board {
    var jobs: seq<Job>
    var counters: Counters

    constructor ()
      ensures jobs == [] && counters == map[]
    {
      jobs, counters := [], map[];
    }

    /** `nextInSeries(…, "job", on)`. */
    method NextInSeries(branch: nat, on: Date) returns (n: nat)
      modifies this`counters
      ensures n == Last(old(counters), branch, Numbering.FinancialYear(on)) + 1
      ensures counters == old(counters)[(branch, Numbering.FinancialYear(on)) := n]
    {
      n := Last(counters, branch, Numbering.FinancialYear(on)) + 1;
      counters := counters[(branch, Numbering.FinancialYear(on)) := n];
    }

    /** The body of the inner loop: number the visit and put it on the board. */
    method Place(branch: nat, worth: Option<int>, visit: PlannedVisit, created: seq<Job>,
                 ghost jobs0: seq<Job>, ghost counters0: Counters)
      returns (r: seq<Job>)
      requires Added(jobs, counters, jobs0, counters0, created, branch, worth)
      modifies this
      ensures Added(jobs, counters, jobs0, counters0, r, branch, worth)
      ensures VisitsOn(r) == VisitsOn(created) + [visit]
    {
      var sequence := NextInSeries(branch, visit.on);
      var job := Job(branch, Numbering.FinancialYear(visit.on), sequence, Some(visit), worth);
      jobs := jobs + [job];
      r := created + [job];
      hide Added, VisitsOn, Numbering.FinancialYear;
      OneMoreJob(created, job);
      OneMoreAdded(old(jobs), old(counters), jobs0, counters0, created, branch, worth, job);
    }

    /** `generateVisitsFor`. */
    method GenerateVisitsFor(c: ContractRow, fallback: Option<nat>, now: int) returns (created: seq<Job>)
      requires StoredRow(c)
      modifies this
      ensures jobs == old(jobs) + created
      ensures VisitsOn(created)
           == if !c.hasSite || (c.branch.None? && fallback.None?) then []
              else Missing(c.schedules, c.start, now, now + 90 * 24 * 60 * 60 * 1000, KeysOf(VisitsOn(old(jobs))))
      ensures Continues(created, old(counters))
      ensures forall b, y :: Last(counters, b, y) == Last(old(counters), b, y) + Drawn(created, b, y)
      ensures CanPlace(c, fallback) ==>
                WorthAndPlaced(created, if c.branch.Some? then c.branch.value else fallback.value, VisitValue(c))
    {
      created := [];
      if !c.hasSite || (c.branch.None? && fallback.None?) || c.schedules == [] {
        return;
      }
      var branch := if c.branch.Some? then c.branch.value else fallback.value;
      var taken := KeysOf(VisitsOn(jobs));
      hide Missing, KeysOf, VisitValue;
      created := PlaceSchedules(c.schedules, c.start, now, branch, VisitValue(c), taken);
    }

    /** The outer loop: schedule by schedule. */
    method PlaceSchedules(schedules: seq<Schedule>, start: Date, now: int, branch: nat, worth: Option<int>,
                          taken: set<Key>)
      returns (created: seq<Job>)
      requires Valid(start) && forall s :: s in schedules ==> Sound(s)
      modifies this
      ensures Added(jobs, counters, old(jobs), old(counters), created, branch, worth)
      ensures VisitsOn(created) == Missing(schedules, start, now, now + HORIZON, taken)
    {
      hide Planned, NotTaken, VisitsOn, Added, MissingFrom, Valid, Sound;
      created := [];
      NothingAdded(jobs, counters, branch, worth);
      MissingEnds(schedules, start, now, now + HORIZON, taken);
      ghost var all := Missing(schedules, start, now, now + HORIZON, taken);
      var k := 0;
      while k < |schedules|
        invariant 0 <= k <= |schedules|
        invariant Added(jobs, counters, old(jobs), old(counters), created, branch, worth)
        invariant VisitsOn(created) + MissingFrom(schedules, k, start, now, now + HORIZON, taken) == all
      {
        assert schedules[k] in schedules;
        MissingStep(schedules, k, start, now, now + HORIZON, taken);
        var planned := PlanVisits(schedules[k], start, now, HORIZON_DAYS);
        created := PlaceAll(branch, worth, planned, taken, created, old(jobs), old(counters));
        k := k + 1;
      }
    }

    /** The inner loop: every planned visit whose key is not taken is placed, in order. */
    method PlaceAll(branch: nat, worth: Option<int>, planned: seq<PlannedVisit>, taken: set<Key>, created: seq<Job>,
                    ghost jobs0: seq<Job>, ghost counters0: Counters)
      returns (r: seq<Job>)
      requires Added(jobs, counters, jobs0, counters0, created, branch, worth)
      modifies this
      ensures Added(jobs, counters, jobs0, counters0, r, branch, worth)
      ensures VisitsOn(r) == VisitsOn(created) + NotTaken(planned, taken)
    {
      hide Added, VisitsOn;
      ghost var goal := VisitsOn(created) + NotTaken(planned, taken);
      r := created;
      var i := 0;
      while i < |planned|
        invariant 0 <= i <= |planned|
        invariant Added(jobs, counters, jobs0, counters0, r, branch, worth)
        invariant VisitsOn(r) + NotTaken(planned[i..], taken) == goal
      {
        var visit := planned[i];
        assert planned[i..][0] == visit && planned[i..][1..] == planned[i + 1..];
        ghost var done, rest := VisitsOn(r), NotTaken(planned[i + 1..], taken);
        assert NotTaken(planned[i..], taken) == (if visit.key in taken then [] else [visit]) + rest;
        if visit.key !in taken {
          assert done + ([visit] + rest) == (done + [visit]) + rest;
          r := Place(branch, worth, visit, r, jobs0, counters0);
        } else {
          assert [] + rest == rest;
        }
        i := i + 1;
      }
      assert planned[i..] == [];
      assert VisitsOn(r) + [] == VisitsOn(r);
    }

    /** `generateDueVisits`: every contract that is live today, rolled forward. */
    method GenerateDueVisits(cs: seq<ContractRow>, today: Date, now: int) returns (contracts: nat, created: nat)
      requires forall c :: c in cs ==> StoredRow(c)
      modifies this
      ensures VisitsOn(jobs) == GenerateAll(VisitsOn(old(jobs)), LiveOn(cs, today), now)
      ensures old(jobs) <= jobs && created == |jobs| - |old(jobs)| && contracts == |LiveOn(cs, today)|
    {
      hide VisitsOn, Generate, IsLive, Missing;
      var live := LiveOn(cs, today);
      ghost var all := GenerateAll(VisitsOn(jobs), live, now);
      contracts, created := |live|, 0;
      var k := 0;
      while k < |live|
        invariant 0 <= k <= |live|
        invariant old(jobs) <= jobs && created == |jobs| - |old(jobs)|
        invariant GenerateAll(VisitsOn(jobs), live[k..], now) == all
      {
        assert live[k..][0] == live[k] && live[k..][1..] == live[k + 1..];
        assert live[k] in live;
        ghost var before := jobs;
        var placed := GenerateVisitsFor(live[k], live[k].branch, now);
        VisitsOnConcat(before, placed);
        GenerateIs(VisitsOn(before), live[k], now, VisitsOn(placed));
        created := created + |placed|;
        k := k + 1;
      }
      assert live[k..] == [];
    }
  }

  lemma GenerateIs(vs: seq<PlannedVisit>, c: ContractRow, now: int, placed: seq<PlannedVisit>)
    requires placed == if !c.hasSite || c.branch.None? then []
                       else Missing(c.schedules, c.start, now, now + 90 * 24 * 60 * 60 * 1000, KeysOf(vs))
    ensures vs + placed == Generate(vs, c, now)
  {
  }
}
