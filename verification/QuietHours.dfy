/** When a message may go out: `sendableAt` of `src/lib/reminders.ts`. */
module QuietHours {
  import opened Calendar
  import opened IsoDates

  const MS_PER_MINUTE := 60_000
  const MS_PER_HOUR := 3_600_000
  const IST_OFFSET_MINUTES := 330
  const OPENS := 9
  const CLOSES := 19

  /** An instant (milliseconds since the epoch) on the clock of India. */
  function InIst(t: int): int {
    t + IST_OFFSET_MINUTES * MS_PER_MINUTE
  }

  function IstDay(t: int): int {
    InIst(t) / MS_PER_DAY
  }

  function IstHour(t: int): int {
    InIst(t) % MS_PER_DAY / MS_PER_HOUR
  }

  predicate Open(t: int) {
    OPENS <= IstHour(t) < CLOSES
  }

  /** `sendableAt`: through the Indian date of the instant, and back from the date it is held to. */
  function SendableAt(now: int): int {
    var istDay := FromDay(IstDay(now));
    var istHour := IstHour(now);
    if OPENS <= istHour < CLOSES then now
    else
      var target := if istHour >= CLOSES then AddDays(istDay, 1) else istDay;
      MakeDay(target.y, target.m - 1, target.d) * MS_PER_DAY + (OPENS * 60 - IST_OFFSET_MINUTES) * MS_PER_MINUTE
  }

  lemma SendableAtIs(now: int)
    ensures SendableAt(now) ==
      if Open(now) then now
      else (IstDay(now) + if IstHour(now) >= CLOSES then 1 else 0) * MS_PER_DAY
           + (OPENS * 60 - IST_OFFSET_MINUTES) * MS_PER_MINUTE
  {
    hide FromDay, AddDays, MonthStart, IstDay, IstHour;
  }

  /** Open is from nine in the morning to seven in the evening, five and a half hours ahead of UTC. */
  lemma OpenInWords(t: int)
    ensures Open(t) <==>
      var minutes := (t + (5 * 60 + 30) * 60_000) / 60_000 % (24 * 60); 9 * 60 <= minutes < 19 * 60
  {
    var u := InIst(t);
    MinutesOfTheDay(u, u / MS_PER_DAY);
  }

  lemma MinutesOfTheDay(u: int, day: int)
    requires day * MS_PER_DAY <= u < (day + 1) * MS_PER_DAY
    ensures u % MS_PER_DAY == u - day * MS_PER_DAY
    ensures u / MS_PER_MINUTE % (24 * 60) == (u - day * MS_PER_DAY) / MS_PER_MINUTE
  {
    var rest := u - day * MS_PER_DAY;
    assert u == MS_PER_MINUTE * (24 * 60 * day) + rest;
    assert u / MS_PER_MINUTE == 24 * 60 * day + rest / MS_PER_MINUTE;
  }

  /** On a known Indian day, open means between two known instants. */
  lemma OpenOnDay(t: int, day: int)
    requires day * MS_PER_DAY <= InIst(t) < (day + 1) * MS_PER_DAY
    ensures IstDay(t) == day
    ensures IstHour(t) >= CLOSES <==> InIst(t) >= day * MS_PER_DAY + CLOSES * MS_PER_HOUR
    ensures Open(t) <==> day * MS_PER_DAY + OPENS * MS_PER_HOUR <= InIst(t) < day * MS_PER_DAY + CLOSES * MS_PER_HOUR
  {
    assert InIst(t) % MS_PER_DAY == InIst(t) - day * MS_PER_DAY;
  }

  /** The earliest instant at or after `now` inside 09:00 to 19:00 of an Indian day. */
  lemma SendableAtIsLeast(now: int)
    ensures now <= SendableAt(now) && Open(SendableAt(now))
    ensures forall t :: now <= t < SendableAt(now) ==> !Open(t)
  {
    SendableAtIs(now);
    var day := IstDay(now);
    OpenOnDay(now, day);
    hide SendableAt, Open, IstDay, IstHour;
    if !Open(now) {
      OpenOnDay(SendableAt(now), if IstHour(now) >= CLOSES then day + 1 else day);
    }
    forall t | now <= t < SendableAt(now)
      ensures !Open(t)
    {
      OpenOnDay(t, if InIst(t) < (day + 1) * MS_PER_DAY then day else day + 1);
    }
  }

  /** Holding a message twice is holding it once, and holding keeps the order of messages. */
  lemma SendableAtIsClosure(a: int, b: int)
    ensures SendableAt(SendableAt(a)) == SendableAt(a)
    ensures a <= b ==> SendableAt(a) <= SendableAt(b)
  {
    SendableAtIsLeast(a);
    SendableAtIsLeast(b);
    SendableAtIsLeast(SendableAt(a));
    hide SendableAt, Open;
  }
}
