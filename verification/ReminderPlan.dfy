/**
  Which reminders a day asks for: `planReminders` of `src/lib/reminders.ts` and the window its jobs are
  read through in `src/lib/notify/run.ts`. The words of the messages are left out; the digest keeps its counts.
 */
module ReminderPlan {
  import opened Wrappers
  import opened IsoDates
  import opened JobStatuses

  datatype Kind = VisitIn7Days | VisitTomorrow | DailyDigest
  datatype Channel = Whatsapp | Email
  datatype Audience = Customer | Technician | Office

  datatype Contact = Contact(phone: Option<string>, email: Option<string>)
  datatype Crew = Crew(id: string, phone: Option<string>)

  datatype PlannableJob = PlannableJob(id: string, scheduled: Option<string>, status: Status,
                                       technician: Option<Crew>, contact: Option<Contact>)

  datatype OfficePerson = OfficePerson(email: string, user: string)

  datatype Planned = Planned(job: Option<string>, kind: Kind, channel: Channel, audience: Audience, recipient: string,
                             user: Option<string>, counts: Option<(nat, nat)>, key: string)

  function KindName(k: Kind): string {
    match k
    case VisitIn7Days => "visit_in_7_days"
    case VisitTomorrow => "visit_tomorrow"
    case DailyDigest => "daily_digest"
  }

  function ChannelName(c: Channel): string {
    match c
    case Whatsapp => "whatsapp"
    case Email => "email"
  }

  /** `scope:kind:channel:recipient`, where a digest is about a day and anything else about a job. */
  function DedupeKey(kind: Kind, channel: Channel, recipient: string, scope: string): string {
    (if kind == DailyDigest then "digest:"
     else "job:") + scope + ":" + KindName(kind) + ":" + ChannelName(channel) + ":" + recipient
  }

  predicate DoneOrGone(s: Status) {
    s == Cancelled || s == SignedOff || s == WorkDone
  }

  /** A string that is there and not empty. */
  predicate Given(o: Option<string>) {
    o.Some? && o.value != ""
  }

  predicate Wants(job: PlannableJob, target: string) {
    job.scheduled == Some(target) && !DoneOrGone(job.status)
  }

  function ToCustomer(job: PlannableJob, kind: Kind, channel: Channel, recipient: string): Planned {
    Planned(Some(job.id), kind, channel, Customer, recipient, None, None, DedupeKey(kind, channel, recipient, job.id))
  }

  function ToTechnician(job: PlannableJob, kind: Kind, user: string, phone: string): Planned {
    Planned(Some(job.id), kind, Whatsapp, Technician, phone, Some(user), None, DedupeKey(kind, Whatsapp, phone, job.id))
  }

  /** What one job asks for: its contact by phone and by mail, then its technician. */
  function ForJob(job: PlannableJob, kind: Kind, target: string): seq<Planned> {
    if !Wants(job, target) then []
    else
      (if job.contact.Some? && Given(job.contact.value.phone)
       then [ToCustomer(job, kind, Whatsapp, job.contact.value.phone.value)] else [])
      + (if job.contact.Some? && Given(job.contact.value.email)
         then [ToCustomer(job, kind, Email, job.contact.value.email.value)] else [])
      + (if job.technician.Some? && Given(job.technician.value.phone)
         then [ToTechnician(job, kind, job.technician.value.id, job.technician.value.phone.value)] else [])
  }

  function ForJobs(jobs: seq<PlannableJob>, kind: Kind, target: string): seq<Planned> {
    if jobs == [] then [] else ForJobs(jobs[..|jobs| - 1], kind, target) + ForJob(jobs[|jobs| - 1], kind, target)
  }

  function Due(jobs: seq<PlannableJob>, target: string): seq<PlannableJob> {
    if jobs == [] then []
    else
      var before, job := Due(jobs[..|jobs| - 1], target), jobs[|jobs| - 1];
      if Wants(job, target) then before + [job] else before
  }

  function Unassigned(jobs: seq<PlannableJob>): nat {
    if jobs == [] then 0 else Unassigned(jobs[..|jobs| - 1]) + if jobs[|jobs| - 1].technician.None? then 1 else 0
  }

  function Digest(p: OfficePerson, tomorrow: string, counts: (nat, nat)): Planned {
    var key := DedupeKey(DailyDigest, Email, p.email, tomorrow);
    Planned(None, DailyDigest, Email, Office, p.email, Some(p.user), Some(counts), key)
  }

  function Digests(people: seq<OfficePerson>, tomorrow: string, counts: (nat, nat)): seq<Planned> {
    if people == [] then []
    else Digests(people[..|people| - 1], tomorrow, counts) + [Digest(people[|people| - 1], tomorrow, counts)]
  }

  function DigestsFor(due: seq<PlannableJob>, people: seq<OfficePerson>, tomorrow: string): seq<Planned> {
    if due == [] then [] else Digests(people, tomorrow, (|due|, Unassigned(due)))
  }

  /** A day's reminders: a week ahead, then a day ahead, then the office. */
  function Plan(jobs: seq<PlannableJob>, today: string, people: seq<OfficePerson>): seq<Planned> {
    var week, tomorrow := AddDaysIso(today, 7), AddDaysIso(today, 1);
    ForJobs(jobs, VisitIn7Days, week) + ForJobs(jobs, VisitTomorrow, tomorrow)
    + DigestsFor(Due(jobs, tomorrow), people, tomorrow)
  }

  /** The loops of the function. */
  method PlanReminders(jobs: seq<PlannableJob>, today: string, people: seq<OfficePerson>)
    returns (planned: seq<Planned>)
    ensures planned == Plan(jobs, today, people)
  {
    hide AddDaysIso, ForJobs, Due, Unassigned, Digest;
    planned := [];
    var kinds := [(VisitIn7Days, 7), (VisitTomorrow, 1)];
    for k := 0 to 2
      invariant planned == (if k > 0 then ForJobs(jobs, VisitIn7Days, AddDaysIso(today, 7)) else [])
                         + (if k > 1 then ForJobs(jobs, VisitTomorrow, AddDaysIso(today, 1)) else [])
    {
      var (kind, days) := kinds[k];
      var target := AddDaysIso(today, days);
      planned := PlanKind(jobs, kind, target, planned);
    }
    var tomorrow := AddDaysIso(today, 1);
    var due := DueTomorrow(jobs, tomorrow);
    if |due| > 0 && |people| > 0 {
      var unassigned := CountUnassigned(due);
      ghost var before := planned;
      for i := 0 to |people|
        invariant planned == before + Digests(people[..i], tomorrow, (|due|, unassigned))
      {
        assert people[..i + 1][..i] == people[..i];
        planned := planned + [Digest(people[i], tomorrow, (|due|, unassigned))];
      }
      assert people[..|people|] == people;
    }
  }

  method PlanJob(job: PlannableJob, kind: Kind, target: string) returns (planned: seq<Planned>)
    ensures planned == ForJob(job, kind, target)
  {
    planned := [];
    if !Wants(job, target) {
      return;
    }
    if job.contact.Some? && Given(job.contact.value.phone) {
      planned := planned + [ToCustomer(job, kind, Whatsapp, job.contact.value.phone.value)];
    }
    if job.contact.Some? && Given(job.contact.value.email) {
      planned := planned + [ToCustomer(job, kind, Email, job.contact.value.email.value)];
    }
    if job.technician.Some? && Given(job.technician.value.phone) {
      var phone := job.technician.value.phone.value;
      planned := planned + [ToTechnician(job, kind, job.technician.value.id, phone)];
    }
  }

  method PlanKind(jobs: seq<PlannableJob>, kind: Kind, target: string, before: seq<Planned>)
    returns (planned: seq<Planned>)
    ensures planned == before + ForJobs(jobs, kind, target)
  {
    hide ForJob;
    planned := before;
    for i := 0 to |jobs|
      invariant planned == before + ForJobs(jobs[..i], kind, target)
    {
      assert jobs[..i + 1][..i] == jobs[..i];
      var more := PlanJob(jobs[i], kind, target);
      planned := planned + more;
    }
    assert jobs[..|jobs|] == jobs;
  }

  method DueTomorrow(jobs: seq<PlannableJob>, target: string) returns (due: seq<PlannableJob>)
    ensures due == Due(jobs, target)
  {
    due := [];
    for i := 0 to |jobs|
      invariant due == Due(jobs[..i], target)
    {
      assert jobs[..i + 1][..i] == jobs[..i];
      if Wants(jobs[i], target) {
        due := due + [jobs[i]];
      }
    }
    assert jobs[..|jobs|] == jobs;
  }

  method CountUnassigned(jobs: seq<PlannableJob>) returns (n: nat)
    ensures n == Unassigned(jobs)
  {
    n := 0;
    for i := 0 to |jobs|
      invariant n == Unassigned(jobs[..i])
    {
      assert jobs[..i + 1][..i] == jobs[..i];
      if jobs[i].technician.None? {
        n := n + 1;
      }
    }
    assert jobs[..|jobs|] == jobs;
  }

  /** The jobs the run reads: those dated tomorrow or in a week. */
  function InWindow(jobs: seq<PlannableJob>, today: string): seq<PlannableJob> {
    if jobs == [] then []
    else
      var before, job := InWindow(jobs[..|jobs| - 1], today), jobs[|jobs| - 1];
      if job.scheduled == Some(AddDaysIso(today, 1)) || job.scheduled == Some(AddDaysIso(today, 7))
      then before + [job] else before
  }

  lemma {:induction false} WindowKeepsADay(jobs: seq<PlannableJob>, today: string, kind: Kind, days: int)
    requires days == 1 || days == 7
    ensures var target := AddDaysIso(today, days);
            && ForJobs(InWindow(jobs, today), kind, target) == ForJobs(jobs, kind, target)
            && Due(InWindow(jobs, today), target) == Due(jobs, target)
  {
    hide DedupeKey, AddDaysIso;
    if jobs != [] {
      var l := |jobs| - 1;
      WindowKeepsADay(jobs[..l], today, kind, days);
      var before, now := InWindow(jobs[..l], today), InWindow(jobs, today);
      if |now| > |before| {
        assert now[..|now| - 1] == before;
      }
    }
  }

  /** Reading only the window plans exactly what reading every job would, in the same order and with the same counts. */
  lemma WindowPlansTheSame(jobs: seq<PlannableJob>, today: string, people: seq<OfficePerson>)
    ensures Plan(InWindow(jobs, today), today, people) == Plan(jobs, today, people)
  {
    hide DedupeKey, AddDaysIso, ForJobs, Due, InWindow;
    WindowKeepsADay(jobs, today, VisitIn7Days, 7);
    WindowKeepsADay(jobs, today, VisitTomorrow, 1);
  }

  lemma {:induction false} ForJobsExactly(jobs: seq<PlannableJob>, kind: Kind, target: string, p: Planned)
    ensures p in ForJobs(jobs, kind, target) <==> exists job :: job in jobs && p in ForJob(job, kind, target)
  {
    hide ForJob;
    if jobs != [] {
      var l := |jobs| - 1;
      ForJobsExactly(jobs[..l], kind, target, p);
      assert jobs == jobs[..l] + [jobs[l]];
    }
  }

  lemma {:induction false} DueExactly(jobs: seq<PlannableJob>, target: string, job: PlannableJob)
    ensures job in Due(jobs, target) <==> job in jobs && Wants(job, target)
  {
    hide Wants;
    if jobs != [] {
      var l := |jobs| - 1;
      DueExactly(jobs[..l], target, job);
      assert jobs == jobs[..l] + [jobs[l]];
    }
  }

  lemma {:induction false} DigestsExactly(people: seq<OfficePerson>, tomorrow: string, counts: (nat, nat), p: Planned)
    ensures p in Digests(people, tomorrow, counts)
        <==> exists person :: person in people && p == Digest(person, tomorrow, counts)
  {
    hide Digest;
    if people != [] {
      var l := |people| - 1;
      DigestsExactly(people[..l], tomorrow, counts, p);
      assert people == people[..l] + [people[l]];
    }
  }

  /** What a reminder about a job says: who is told, of a visit that is still to come on the target day. */
  ghost predicate TellsOf(p: Planned, job: PlannableJob, kind: Kind, target: string) {
    && job.scheduled == Some(target) && job.status != Cancelled && job.status != SignedOff && job.status != WorkDone
    && p.job == Some(job.id) && p.kind == kind && p.counts == None && p.recipient != ""
    && p.key == DedupeKey(kind, p.channel, p.recipient, job.id)
    && match p.audience
       case Customer =>
         && job.contact.Some? && p.user == None
         && Some(p.recipient) == (if p.channel == Whatsapp then job.contact.value.phone else job.contact.value.email)
       case Technician =>
         job.technician.Some? && p.channel == Whatsapp && p.user == Some(job.technician.value.id)
         && Some(p.recipient) == job.technician.value.phone
       case Office => false
  }

  lemma ForJobExactly(job: PlannableJob, kind: Kind, target: string, p: Planned)
    ensures p in ForJob(job, kind, target) <==> TellsOf(p, job, kind, target)
  {
    hide DedupeKey;
  }

  /** What a digest says: how many visits tomorrow has, how many of them have nobody. */
  ghost predicate DigestsOf(p: Planned, jobs: seq<PlannableJob>, people: seq<OfficePerson>, tomorrow: string) {
    && (exists job :: job in jobs && Wants(job, tomorrow))
    && exists person :: person in people
         && p == Digest(person, tomorrow, (|Due(jobs, tomorrow)|, Unassigned(Due(jobs, tomorrow))))
  }

  /** The job is dated on the day and still to be done. */
  predicate StillToCome(job: PlannableJob, day: string) {
    job.scheduled == Some(day) && job.status != Cancelled && job.status != SignedOff && job.status != WorkDone
  }

  /** Which jobs are still to come that day, by position, and which of those have no technician. */
  function Coming(jobs: seq<PlannableJob>, day: string): set<nat> {
    set i: nat | i < |jobs| && StillToCome(jobs[i], day)
  }

  function ComingBare(jobs: seq<PlannableJob>, day: string): set<nat> {
    set i: nat | i < |jobs| && StillToCome(jobs[i], day) && jobs[i].technician.None?
  }

  lemma OneMoreComing(jobs: seq<PlannableJob>, job: PlannableJob, day: string)
    ensures |Coming(jobs + [job], day)| == |Coming(jobs, day)| + if StillToCome(job, day) then 1 else 0
  {
    hide StillToCome;
    var l, all := |jobs|, jobs + [job];
    assert all[l] == job && forall i | 0 <= i < l :: all[i] == jobs[i];
    assert Coming(all, day) == if StillToCome(job, day) then Coming(jobs, day) + {l} else Coming(jobs, day);
  }

  lemma OneMoreComingBare(jobs: seq<PlannableJob>, job: PlannableJob, day: string)
    ensures |ComingBare(jobs + [job], day)|
         == |ComingBare(jobs, day)| + if StillToCome(job, day) && job.technician.None? then 1 else 0
  {
    hide StillToCome;
    var l, all := |jobs|, jobs + [job];
    assert all[l] == job && forall i | 0 <= i < l :: all[i] == jobs[i];
    assert ComingBare(all, day)
        == if StillToCome(job, day) && job.technician.None? then ComingBare(jobs, day) + {l} else ComingBare(jobs, day);
  }

  lemma OneMoreDue(jobs: seq<PlannableJob>, job: PlannableJob, day: string)
    ensures Due(jobs + [job], day) == if StillToCome(job, day) then Due(jobs, day) + [job] else Due(jobs, day)
  {
    assert (jobs + [job])[..|jobs|] == jobs;
  }

  lemma OneMoreUnassigned(jobs: seq<PlannableJob>, job: PlannableJob)
    ensures Unassigned(jobs + [job]) == Unassigned(jobs) + if job.technician.None? then 1 else 0
  {
    assert (jobs + [job])[..|jobs|] == jobs;
  }

  lemma {:induction false} DueCounts(jobs: seq<PlannableJob>, day: string)
    ensures |Due(jobs, day)| == |Coming(jobs, day)| && Unassigned(Due(jobs, day)) == |ComingBare(jobs, day)|
  {
    if jobs == [] {
      assert Coming(jobs, day) == {} && ComingBare(jobs, day) == {};
    } else {
      hide Due, Unassigned, Coming, ComingBare, StillToCome;
      var before, job := jobs[..|jobs| - 1], jobs[|jobs| - 1];
      assert jobs == before + [job];
      DueCounts(before, day);
      OneMoreComing(before, job, day);
      OneMoreComingBare(before, job, day);
      OneMoreDue(before, job, day);
      OneMoreUnassigned(Due(before, day), job);
    }
  }

  /**
    The digest, in words: each of the office is told, by mail, once there is a visit tomorrow, how many visits are
    still to come then and how many of those have no technician.
   */
  lemma DigestInWords(p: Planned, jobs: seq<PlannableJob>, people: seq<OfficePerson>, tomorrow: string)
    ensures DigestsOf(p, jobs, people, tomorrow) <==>
      && (exists job :: job in jobs && StillToCome(job, tomorrow))
      && p.job == None && p.kind == DailyDigest && p.channel == Email && p.audience == Office && p.user.Some?
      && OfficePerson(p.recipient, p.user.value) in people
      && p.key == DedupeKey(DailyDigest, Email, p.recipient, tomorrow)
      && p.counts == Some((|Coming(jobs, tomorrow)|, |ComingBare(jobs, tomorrow)|))
  {
    DueCounts(jobs, tomorrow);
    hide DedupeKey, Due, Unassigned, Coming, ComingBare;
  }

  /**
    A day's plan holds exactly: for each visit still to come in a week or tomorrow, its contact by each
    address given and its technician; and for each of the office a digest, if tomorrow has a visit at all.
   */
  lemma PlanExactly(jobs: seq<PlannableJob>, today: string, people: seq<OfficePerson>, p: Planned)
    ensures var week, tomorrow := AddDaysIso(today, 7), AddDaysIso(today, 1);
            p in Plan(jobs, today, people) <==>
              || (exists job :: job in jobs && TellsOf(p, job, VisitIn7Days, week))
              || (exists job :: job in jobs && TellsOf(p, job, VisitTomorrow, tomorrow))
              || DigestsOf(p, jobs, people, tomorrow)
  {
    hide DedupeKey, AddDaysIso, ForJob, TellsOf, Wants, Digest, Digests, ForJobs, Due;
    var week, tomorrow := AddDaysIso(today, 7), AddDaysIso(today, 1);
    var due := Due(jobs, tomorrow);
    ForJobsExactly(jobs, VisitIn7Days, week, p);
    ForJobsExactly(jobs, VisitTomorrow, tomorrow, p);
    DigestsExactly(people, tomorrow, (|due|, Unassigned(due)), p);
    forall job
      ensures p in ForJob(job, VisitIn7Days, week) <==> TellsOf(p, job, VisitIn7Days, week)
      ensures p in ForJob(job, VisitTomorrow, tomorrow) <==> TellsOf(p, job, VisitTomorrow, tomorrow)
      ensures job in due <==> job in jobs && Wants(job, tomorrow)
    {
      ForJobExactly(job, VisitIn7Days, week, p);
      ForJobExactly(job, VisitTomorrow, tomorrow, p);
      DueExactly(jobs, tomorrow, job);
    }
    if due != [] {
      assert due[0] in due;
    }
  }

  /** No colon in it. */
  ghost predicate Plain(s: string) {
    forall i | 0 <= i < |s| :: s[i] != ':'
  }

  lemma {:induction false} FirstColon(a: string, x: string, b: string, y: string)
    requires Plain(a) && Plain(b) && a + ":" + x == b + ":" + y
    ensures a == b && x == y
  {
    var s, t := a + ":" + x, b + ":" + y;
    assert s[|a|] == ':' && t[|b|] == ':';
    assert |a| == |b|;
    assert a == s[..|a|] == t[..|a|] == b;
    assert x == s[|a| + 1..] == t[|a| + 1..] == y;
  }

  lemma KindNamesDiffer(a: Kind, b: Kind)
    ensures Plain(KindName(a)) && Plain(KindName(b)) && (KindName(a) == KindName(b) ==> a == b)
  {
    assert KindName(VisitIn7Days)[6] == 'i' && KindName(VisitTomorrow)[6] == 't' && KindName(DailyDigest)[0] == 'd';
  }

  lemma ChannelNamesDiffer(a: Channel, b: Channel)
    ensures Plain(ChannelName(a)) && Plain(ChannelName(b)) && (ChannelName(a) == ChannelName(b) ==> a == b)
  {
    assert ChannelName(Whatsapp)[0] == 'w' && ChannelName(Email)[0] == 'e';
  }

  function ScopeWord(kind: Kind): string {
    if kind == DailyDigest then "digest" else "job"
  }

  lemma KeyInParts(kind: Kind, channel: Channel, recipient: string, scope: string)
    ensures DedupeKey(kind, channel, recipient, scope)
         == ScopeWord(kind) + ":" + (scope + ":" + (KindName(kind) + ":" + (ChannelName(channel) + ":" + recipient)))
  {
    hide KindName, ChannelName;
    var a, b := KindName(kind), ChannelName(channel);
    assert "digest:" == "digest" + ":" && "job:" == "job" + ":";
  }

  /**
    Two reminders share a key exactly when kind, channel, recipient and job (or day) are all the same: a
    recipient may hold anything, while job ids and days hold no colon.
   */
  lemma KeysCollideExactly(k1: Kind, c1: Channel, r1: string, s1: string, k2: Kind, c2: Channel, r2: string, s2: string)
    requires Plain(s1) && Plain(s2)
    ensures DedupeKey(k1, c1, r1, s1) == DedupeKey(k2, c2, r2, s2) <==> k1 == k2 && c1 == c2 && r1 == r2 && s1 == s2
  {
    KeyInParts(k1, c1, r1, s1);
    KeyInParts(k2, c2, r2, s2);
    KindNamesDiffer(k1, k2);
    ChannelNamesDiffer(c1, c2);
    hide DedupeKey, KindName, ChannelName;
    if DedupeKey(k1, c1, r1, s1) == DedupeKey(k2, c2, r2, s2) {
      var x1, x2 := ChannelName(c1) + ":" + r1, ChannelName(c2) + ":" + r2;
      var y1, y2 := KindName(k1) + ":" + x1, KindName(k2) + ":" + x2;
      FirstColon(ScopeWord(k1), s1 + ":" + y1, ScopeWord(k2), s2 + ":" + y2);
      FirstColon(s1, y1, s2, y2);
      FirstColon(KindName(k1), x1, KindName(k2), x2);
      FirstColon(ChannelName(c1), r1, ChannelName(c2), r2);
    }
  }

  /**
    A job's key has no day in it: moved to another date, the job asks for the same keys again, so a
    reminder already sent for the first date is not sent for the second.
   */
  lemma MovedJobKeepsItsKeys(job: PlannableJob, kind: Kind, first: string, second: string)
    requires !DoneOrGone(job.status)
    ensures ForJob(job.(scheduled := Some(first)), kind, first) == ForJob(job.(scheduled := Some(second)), kind, second)
  {
  }
}
