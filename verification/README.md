# Verified model of the service ERP's core

This project models, in Dafny, the parts of the ERP back end whose correctness is arithmetic, calendar or
protocol, and proves what they keep. `dafny verify dfyconfig.toml` checks all of it.

- **Tenant sessions** (`AuthStatements`, `SessionProtocol`, `SessionSafety`, `AuthDatabase`, `SessionRules`). Each SQL
  statement is one atomic step; any number of sign-ins, refreshes, identity checks and sign-outs are in flight, while
  credentials are replaced, users deactivated and sessions revoked, and while the older sign-in changes passwords,
  saves, revokes and sweeps tokens in the same tables. Theorems hold for every sequence of events.
- **Exactly-once customers** (`CustomerRequests`), in the same manner, with lost connections.
- **The contract engine** (`Calendar`, `Decimal`, `IsoDates`, `BillingPeriods`, `ContractTerms`, `BillablePeriods`,
  `DueList`, `VisitSchedule`, `VisitGeneration`, `VisitRuns`): a real calendar, the billing periods of a term, what
  may be billed, and the visits a rolling nightly run puts on the board.
- **The statutory invoice series** (`Numbering`, `InvoiceProtocol`, `InvoiceSafety`, `InvoiceOrder`, `InvoiceGaps`,
  `InvoiceDesk`, `InvoiceYears`): drafts, issue, cancel and the counter as interleaved statements, and the gap detector.
- **Paise arithmetic** (`Rounding`, `Totals`, `Advances`, `Receivables`, `CreditNotes`, `ItcReversal`), with
  `Math.round` as the floor of x + 1/2 on exact rationals.
- **Jobs, reminders and stock** (`JobStatuses`, `JobHistory`, `JobRaces`, `ReminderPlan`, `QuietHours`,
  `ReminderOutbox`, `StockLedger`): the job handlers one at a time and as interleaved statements.

Where the program updates state, a class holds that state and its methods are proved against specification
functions; the properties are proved about those functions, and a handler run alone is shown to be one run of
its interleaved protocol. Lemmas named `…InWords` and `…Answers` say what an operation comes to in terms of the
tables alone, without the functions it is computed with.

## Where the code differs from what is written about it

The model follows the code. In these places a lemma shows the difference; where a lemma with "exactly" or "if and
only if" is named beside it, that lemma gives the exact condition under which the promise holds.

- A month step is said to clamp the day (`src/lib/billing-periods.ts:55-56`); it overflows
  (`MonthStepOverflows`), and clamps if and only if the month has the day (`StepKeepsDay`).
- The default term of 365 days is stored with an inclusive end and bills once more, exactly when no 29 February
  falls in it and every month stepped into has the start day (`DefaultTermBillsOnceMore`).
- A cancelled bill is said to leave its period billable (`drizzle/0014_invoice_period.sql:39-40`); an older
  constraint still refuses its instalment number (`CancelledInstalmentIsRefused`), exactly as
  `OfferCanBeRaisedExactlyWhen` says.
- A contract's first visit is put on the board exactly when a nightly run of the live contract happens at or before
  that visit's midnight (`FirstVisitExactly`). With runs after midnight only a month-based schedule anchored after
  the start day gets it (`OnlyALaterAnchorKeepsItsFirstVisit`): weekly and fortnightly schedules, and anchors on or
  before the start day, lose theirs, and an anchor before the start day even to a run at midnight
  (`EarlyAnchorLosesFirstVisit`).
- The series is said to have no gap under concurrency (`src/lib/series.ts:7-10`); the counter has none, but an
  issue that races another issue or a discard loses its number (`SecondIssueLosesANumber`,
  `DiscardTakesAnIssuedInvoice`), and dates can run against numbers (`OverlapRunsDatesBackwards`). The exact
  conditions are `LostExactlyWhenAStepLoses`, `ConsecutiveExactly` and `DatesFollowExactly`. The comment at
  `src/routes/invoices.ts:758-763` still describes numbering at creation; the code numbers at issue.
- Credit notes are said never to exceed the invoice (`src/routes/credit-notes.ts:15-16`); two drafts do
  (`TwoDraftsExceedTheInvoice`), and the cap holds if and only if every issue fits (`CapHoldsExactlyWhenIssuesFit`).
- A credit note is refused when it asks for more than is left (`src/routes/credit-notes.ts:170-182`). This can refuse
  an invoice's own lines when they are credited over several notes, since each note is rounded to the rupee
  (`RoundingCanRefuseAnHonestNote`); all are accepted if and only if the notes' round-offs add up to no more than
  the invoice's (`HonestNotesAreAcceptedExactly`).
- A job is said to be signed off only with a record (`src/routes/jobs.ts:674-677`); a transition needs none
  (`TransitionSignsOffWithoutARow`), and the record is missing if and only if a transition signed the job off
  (`RowExactlyUnlessByTransition`).
- Signed off is a final state of the table (`src/routes/jobs.ts:653-663`); an assignment that read the job earlier
  takes it back (`AssignmentUndoesASignOff`). It is final if and only if no request writes another
  status over an end that came after it read the job (`EndIsFinalExactly`).
- A replay is harmless (`ReplayIsHarmless`, `OneEntryPerKey`) while an entry and its status are written together.
  When a transition was cut off between the two, resending the queue mends it if and only if a next item follows and
  the table allows it from the status left behind (`CutOffIsMendedExactly`); with no next item the replay is answered
  as if all were well and the status stays behind, and a next item the table does not allow is refused.
- The reminder run is said to be safe when it double-fires (`src/lib/notify/run.ts:4-9`); enqueueing is, draining
  is not (`OverlappingDrainsTellTwice`, `CutOffDrainTellsTwice`). Nobody is told twice if and only if no step
  delivers a row that is already out (`NobodyIsToldTwiceExactly`, `OutExactly`).
- A change of password is said to end every other session (`src/auth/sign-in.ts:278-282`); the one the older
  sign-in makes leaves tenant sessions live (`OlderPasswordChangeEndsNothing`), and its sweep of dead tokens lets a
  sign-out end nothing (`SweptTokenSignsNobodyOut`). `NoSessionOutlivesItsPassword` and `SignOutKills` are stated as
  if and only if.

## Model

| member | source | states |
|---|---|---|
| `AuthStatements.ConsumeSpends` | src/auth/z-sessions.ts:53-69 | A refresh token is spent in the statement that reads it: it succeeds exactly when the token is usable, which the laws of SessionRules spell out, a second try on the same token finds nothing, and no other row changes. |
| `AuthStatements.RevokeByRefreshEnds` | src/auth/z-sessions.ts:71-76 | Signing out by a token ends exactly the session it was issued under, whatever became of the token. |
| `AuthStatements.ReplaceEndsEverything` | drizzle/0423_ipcc_z_credential_session_lock.sql:19-43 | Replacing credentials happens exactly for an active user whose stored hash is the expected one, ends every session and token of that user and touches nobody else; otherwise nothing changes. |
| `SessionSafety.OneHolder` | src/tenant/service.ts:55-61 | In every interleaving of sign-ins, refreshes, identity checks, sign-outs and revocations, a session never has two holders of its future: at most one unspent token or one request about to issue one. |
| `SessionSafety.OneChain` | src/tenant/service.ts:27-81 | In every run, sweeps included, the tokens of a session form one chain: it lists exactly the tokens linked to the session and those swept away, each was issued for spending the one before, all but the last are spent, and no token is ever spent twice. |
| `SessionSafety.NoSessionOutlivesItsPassword` | src/auth/z-sessions.ts:11-34 | In every run each live session was at every moment opened with the password hash its user then had, if and only if the older sign-in never wrote another hash for a user with a live session; the locked replacement never breaks it, however sign-ins race it. |
| `SessionSafety.SignOutKills` | src/tenant/service.ts:77-81 | In every run the first statement of a sign-out with any token of the chain, spent or not, leaves the session dead if and only if it was dead already or that token has not been swept away. |
| `SessionSafety.OlderPasswordChangeEndsNothing` | src/auth/sign-in.ts:272-283 | From the first sign-in on: the older change of password revokes the user's tokens and leaves the session opened with the old password live. |
| `SessionSafety.SweptTokenSignsNobodyOut` | src/auth/sign-in.ts:190-198 | A spent token swept away a week later takes its link along, so signing out with it is answered and ends nothing. |
| `SessionSafety.RevokedForGood` | src/tenant/service.ts:55-75 | Once a session is revoked, in every continuation no token of it is spent again and no check of it passes; the only requests that still get a token or an identity from it are those that at the revocation had already spent a token of it, found it active or been answered; and at most the one token already in flight is still saved. |
| `SessionSafety.CheckInFlightAnswers` | src/tenant/service.ts:63-75 | The limit of that: an identity check that has read its session before the revocation still answers. |
| `SessionSafety.RefreshInFlightSavesADeadToken` | src/tenant/service.ts:55-61 | And a refresh about to save gives its caller a token that nothing will accept. |
| `SessionRules.RefreshLastsThirtyDays` | src/auth/z-sessions.ts:53-69 | In every run, whatever happens between a token's save and a refresh presenting it, the refresh goes on if and only if neither the token nor its session was revoked, the token was not swept away, and less than thirty days have passed since the save. |
| `SessionRules.SignInAnswers` | src/tenant/service.ts:36-53 | A sign-in that has checked its password, alone: it opens a session with a token of thirty days exactly when the row is active with the hash and address it was read with and the account is allowed, and else changes nothing. |
| `SessionRules.PasswordAnswers` | src/tenant/service.ts:36-53 | A password signs in exactly when one row alone of those read is active with a hash made of it, that row is still as it was read, and the account is allowed. |
| `SessionRules.RefreshAnswers` | src/tenant/service.ts:55-61 | A refresh, alone: a token that is unspent, unexpired and of a live session of its own user is spent in any case, and answered with the next one exactly when the user is active and the account allowed; any other token changes nothing. |
| `SessionRules.IdentityAnswers` | src/tenant/service.ts:63-75 | An identity is given exactly for a live session of an active user of an allowed account. |
| `SessionRules.SignOutAnswers` | src/tenant/service.ts:77-81 | Signing out revokes the token and its session, each if it is there, and nothing else. |
| `SessionRules.OlderSignInWrites` | src/auth/sign-in.ts:161-319 | The older sign-in's statements, row by row: its tokens last thirty days, it revokes a user's tokens only, and it sweeps exactly the spent and those a week past their expiry, with their links. |
| `AuthDatabase.AloneIsARun` | src/tenant/service.ts:36-81 | Each operation executed with nobody in between is one run of the interleaved protocol, with the same tables and the same answer. |
| `AuthDatabase.AuthDatabase.PasswordSignIn` | src/tenant/service.ts:36-53 | The candidate loop: with exactly one active row whose hash accepts the password the sign-in continues from that row as the protocol does; with none or several it is refused and nothing changes. |
| `AuthDatabase.AuthDatabase.RefreshSession` | src/tenant/service.ts:55-61 | The handler leaves the tables and the answer that its request run alone would. |
| `AuthDatabase.AuthDatabase.CurrentIdentity` | src/tenant/service.ts:63-75 | The handler answers as its request run alone would and changes nothing. |
| `AuthDatabase.AuthDatabase.SignOut` | src/tenant/service.ts:77-81 | The handler leaves the tables that its request run alone would. |
| `AuthDatabase.AuthDatabase.ConsumeActiveRefresh` | src/auth/z-sessions.ts:53-69 | The statement on the stored tables is the specified one, row and result. |
| `AuthDatabase.AuthDatabase.CreatePasswordAuthSession` | src/auth/z-sessions.ts:11-23 | A session is stored exactly when the proof is still current. |
| `AuthDatabase.AuthDatabase.SaveRefreshToken` | src/tenant/store.ts:34-43 | Token and link are stored together, with thirty days to live. |
| `AuthDatabase.AuthDatabase.RevokeSessionByRefresh` | src/auth/z-sessions.ts:71-76 | The session linked to the token is revoked, and nothing else changes. |
| `AuthDatabase.AuthDatabase.RevokeAllAuthSessions` | src/auth/z-sessions.ts:78-83 | Every session of the user is revoked, and nobody else's. |
| `AuthDatabase.AuthDatabase.ReplacePasswordAndRevoke` | src/auth/z-sessions.ts:26-34 | Credentials, sessions and tokens change together or not at all. |
| `AuthDatabase.AuthDatabase.AccessSessionActive` | src/auth/z-sessions.ts:43-50 | A session is active exactly when it is stored for the user and not revoked. |
| `AuthDatabase.AuthDatabase.RevokeRefreshToken` | src/tenant/store.ts:45-48 | The token is revoked, and nothing else changes. |
| `AuthDatabase.AuthDatabase.ActiveUser` | src/tenant/store.ts:25-32 | A user is returned exactly when the row is active and the account allowed. |
| `CustomerRequests.OneCustomerPerRequest` | src/tenant/workspace.ts:65-76 | Whatever calls interleave, one request id has at most one customer. |
| `CustomerRequests.CreatedOnce` | src/tenant/workspace.ts:63-76 | At most one call is ever told that it created the customer. |
| `CustomerRequests.RepliesAgree` | src/tenant/workspace.ts:56-80 | Any two calls told a customer under one id have the same actor and payload and are told the same customer, which exists and was made for that id. |
| `CustomerRequests.UsedIdIsSpent` | src/tenant/workspace.ts:56-86 | A used id keeps its one customer for ever, and a call under it with another payload or actor is never told one. |
| `CustomerRequests.LostReplyIsRecovered` | src/tenant/workspace.ts:77-84 | When the commit succeeds but its reply is lost, the same call and any repeat are told the customer that was made. |
| `CustomerRequests.RaceLoserIsAnswered` | src/tenant/workspace.ts:63-85 | In every run a call about to insert under a used id reads again and, whatever happens meanwhile, is told the entry's customer as not created by it if actor and payload are its own; else it is told nothing, and fails only for an unknown error or a lost reply. |
| `CustomerRequests.FirstLook` | src/tenant/workspace.ts:56-64 | A first look is answered at once exactly when the id has the caller's own entry, and else goes on to insert. |
| `CustomerRequests.InsertGoesOn` | src/tenant/workspace.ts:65-84 | Each outcome of the insert: what it writes, and whether it answers or reads again. |
| `CustomerRequests.AloneIsARun` | src/tenant/workspace.ts:47-86 | A call with nobody in between is three steps of the protocol. |
| `CustomerRequests.CustomerDesk.FindPrior` | src/tenant/workspace.ts:56-62 | The prior read finds a customer exactly for the same id, actor and payload. |
| `CustomerRequests.CustomerDesk.InsertBoth` | src/tenant/workspace.ts:68-76 | Customer and audit entry are inserted together, or neither when the id is used. |
| `CustomerRequests.CustomerDesk.CreateCustomer` | src/tenant/workspace.ts:47-86 | The function as it runs leaves the specified tables and reply, changes nothing on a replay, and never names a customer the audit does not. |
| `Calendar.RoundTrip` | src/lib/itc-reversal.ts:54-64 | Dates and day numbers are in bijection. |
| `Calendar.MonthStartClosedForm` | src/lib/itc-reversal.ts:54-64 | Counting days month by month is the closed form of section 21.4.1 of ECMA-262. |
| `Calendar.OrderIsDayOrder` | src/lib/billing-periods.ts:98-104 | Calendar order of dates is the order of their day numbers, both ways. |
| `IsoDates.PartsOfIso` | src/lib/itc-reversal.ts:55-61 | Splitting a date string gives back the date's three numbers. |
| `IsoDates.IsoOrder` | src/lib/billing-periods.ts:98-104 | Comparing two four-digit ISO strings compares their dates. |
| `IsoDates.StringsFollowDates` | src/lib/billing-periods.ts:52-66 | The string functions addDays, addMonths, dayBefore and daysBetween compute what the calendar says. |
| `IsoDates.DayArithmetic` | src/lib/reminders.ts:79-83 | The days to a shifted date are the shift, shifts add up, and a shift back undoes one. |
| `IsoDates.ShortYears` | src/lib/billing-periods.ts:52-66 | Where strings are parsed, a year below 100 is one of the nineteen hundreds, and any other is itself. |
| `ItcReversal.PassedExactlyAfter` | src/lib/itc-reversal.ts:66-87 | The credit counts as passed exactly when today is after the reversal date, which comparing the strings also says. |
| `ItcReversal.ClockRunsExactly` | src/lib/itc-reversal.ts:66-87 | The clock runs exactly for a registered customer who still owes, for 180 days, on the tax not collected. |
| `QuietHours.SendableAtIsLeast` | src/lib/reminders.ts:283-316 | A message is held to the least instant, now or later, inside 09:00 to 19:00 in India. |
| `QuietHours.OpenInWords` | src/lib/reminders.ts:280-281 | Open is from nine to seven on the clock of India, five and a half hours ahead of UTC. |
| `QuietHours.SendableAtIsClosure` | src/lib/reminders.ts:283-316 | Holding twice is holding once, and holding keeps the order of messages. |
| `Rounding.RoundDivUnique` | src/lib/tax.ts:116-120 | Half-up rounding on exact rationals is the one integer within its bounds. |
| `BillingPeriods.PeriodsOf` | src/lib/billing-periods.ts:76-111 | The loop terminates and returns the periods of the specification. |
| `BillingPeriods.PeriodsShape` | src/lib/billing-periods.ts:98-108 | Period k is the one that starts at the k-th step of the months; the list stops at the term's end or at 240. |
| `BillingPeriods.InstalmentsOfEachBilling` | src/lib/billing-periods.ts:76-111 | Monthly, quarterly, half-yearly and yearly billing: the months from one period to the next, a worth that makes the yearly value to half a paisa an instalment, and a list that reaches the term's end or 240; billing by visit has no periods. |
| `BillingPeriods.PeriodDays` | src/lib/billing-periods.ts:99-106 | Period k runs from its start to the day before the next start or to the contract's end, whichever is earlier. |
| `BillingPeriods.PeriodsAdjacent` | src/lib/billing-periods.ts:98-108 | Periods start at the contract's start, are non-empty, stay in the term, and each ends the day before the next, day overflow included. |
| `BillingPeriods.AtMostOnePeriod` | src/lib/billing-periods.ts:98-108 | No day lies in two periods, and no period reaches outside the term. |
| `BillingPeriods.PartitionExactlyBelowCap` | src/lib/billing-periods.ts:98-108 | Every day of the term has its period, and the last ends on the end date, if and only if the term ends before the 240th start. |
| `BillingPeriods.StepKeepsDay` | src/lib/billing-periods.ts:52-59 | A month step keeps or clamps the day exactly when the target month has it; otherwise the day overflows into the next month. |
| `BillingPeriods.MonthStepOverflows` | src/lib/billing-periods.ts:55-58 | 31 January plus a month is 3 March, against the comment that the day is clamped. |
| `BillingPeriods.StartsOnDayExactly` | src/lib/billing-periods.ts:98-108 | Periods start on the contract's own day, the right number of months apart, exactly while every month stepped into has that day. |
| `BillingPeriods.StartsExactly` | src/lib/billing-periods.ts:98-108 | For start days 1 to 28 period k starts exactly k steps in. |
| `ContractTerms.CountIs` | src/lib/billing-periods.ts:98-108 | A term that reaches the n-th start and ends before the next has n periods. |
| `ContractTerms.EveryPeriodWorthTheSame` | src/lib/billing-periods.ts:86-106 | Every period, clipped or not, is worth the rounded instalment, so the total is a multiple of it. |
| `ContractTerms.WholeYearsBillInFull` | src/lib/billing-periods.ts:82-108 | A term ending the day before its y-th anniversary has y times the instalments of a year, on whatever day of the month it starts, up to the cap of 240; below the cap they are worth y annual values to within half a paisa for each. |
| `ContractTerms.DefaultTermBillsOnceMore` | src/routes/contracts.ts:248-271 | The stored inclusive end gives the default 365-day term, on whatever day it starts, one instalment more than a year has, exactly when the term contains no 29 February and every month stepped into has the start day; otherwise just a year's. |
| `BillablePeriods.BillablePeriods` | src/lib/billing-periods.ts:141-203 | The loop returns the offers of the specification. |
| `BillablePeriods.PushIfEarned` | src/lib/billing-periods.ts:166-199 | One turn of the loop pushes the period exactly when it is offered. |
| `BillablePeriods.ReasonMeans` | src/lib/billing-periods.ts:173-198 | Visits count as complete exactly when some were not abandoned and all of those are done. |
| `BillablePeriods.OfferedExactly` | src/lib/billing-periods.ts:166-199 | The list holds exactly the periods that are started, unbilled, and complete or closed. |
| `BillablePeriods.BillableInWords` | src/lib/billing-periods.ts:141-203 | A period is offered if and only if neither its first day nor its number is billed, it has begun, and its last day is past or some visit dated in it counts and every such visit is finished or signed off; the offer's two counts and its reason are those. |
| `BillablePeriods.OffersOnlyGrow` | src/lib/billing-periods.ts:166-199 | For fixed visits and marks an offer once made stays on every later day. |
| `BillablePeriods.NothingIsLostAfterTheTerm` | src/lib/billing-periods.ts:166-199 | After the term, what is offered and what is billed are together all periods, and their values add up to the whole contract. |
| `BillablePeriods.HeldOnce` | src/lib/billing-periods.ts:173-178 | Below the cap a day is in exactly one period if it is in the term and in none otherwise. |
| `BillablePeriods.EveryVisitCountedOnce` | src/lib/billing-periods.ts:173-178 | Below the cap every visit dated in the term is counted by exactly one period. |
| `DueList.BilledBy` | src/routes/invoices.ts:133-142 | The loop over the register gives every contract exactly its own marks. |
| `DueList.BillingTakesOneOffer` | src/routes/invoices.ts:107-171 | Raising a live invoice for an offered period removes that offer and no other. |
| `DueList.CancellingBringsItBack` | src/routes/invoices.ts:107-122 | Cancelling it brings the same list back. |
| `DueList.OfferCanBeRaisedExactlyWhen` | src/db/schema.ts:632 | An offered period can be inserted by its instalment number exactly when no row of the contract, cancelled ones included, holds that number. |
| `DueList.CancelledInstalmentIsRefused` | drizzle/0000_mighty_sentry.sql:169 | So a cancelled instalment is offered again and then refused, although the partial index of migration 0014 means to free it. |
| `VisitSchedule.AddMonthsAnchored` | src/lib/visits.ts:30-37 | Setting the day to one, moving the month and setting the anchor gives the anchor day or the month's last day, in the month meant. |
| `VisitSchedule.AnchoredStaysInMonth` | src/lib/visits.ts:30-37 | A month-end anchor never spills into another month. |
| `VisitSchedule.VisitDates` | src/lib/visits.ts:16-23 | Where the n-th visit of each recurrence falls: so many weeks after the start, or on the anchor day, or the month's last, so many months after it. |
| `VisitSchedule.AYearOfVisits` | src/lib/visits.ts:25-28 | The visits of a year fill it: the one after them falls twelve months, or fifty-two weeks, after the first. |
| `VisitSchedule.PlanVisits` | src/lib/visits.ts:56-71 | The loop plans the visits of the specification. |
| `VisitSchedule.PlannedFromExactly` | src/lib/visits.ts:61-71 | A visit is planned exactly when it is committed and its midnight lies in the window. |
| `VisitSchedule.PlannedInWords` | src/lib/visits.ts:47-76 | Planned are exactly the visits numbered from one to those committed whose midnight lies in the window, each with its key, number and date. |
| `VisitSchedule.VisitsAscend` | src/lib/visits.ts:61-66 | A later visit falls on a later day, in every recurrence and for every anchor. |
| `VisitSchedule.PlannedAscends` | src/lib/visits.ts:61-71 | The loop plans in date order. |
| `VisitSchedule.SortChangesNothing` | src/lib/visits.ts:73 | The final sort is the identity on what the loop planned. |
| `VisitGeneration.Board.NextInSeries` | src/lib/series.ts:34-47 | The next number of the branch and financial year, with only that counter moved. |
| `VisitGeneration.Board.Place` | src/lib/visit-generation.ts:101-127 | A visit not yet taken becomes one job with the next number. |
| `VisitGeneration.Board.PlaceAll` | src/lib/visit-generation.ts:99-128 | The inner loop places exactly the visits whose key is not taken. |
| `VisitGeneration.Board.GenerateVisitsFor` | src/lib/visit-generation.ts:36-132 | One contract's run adds exactly the missing planned visits, one job each, and the job numbers continue each branch's series without gap. |
| `VisitGeneration.Board.GenerateDueVisits` | src/lib/visit-generation.ts:141-162 | The nightly run does so for the live contracts, one after the other. |
| `VisitGeneration.WorthOfAYear` | src/lib/visit-generation.ts:71-87 | Visits have a worth exactly when they are what is billed, and a year of them is worth the agreed value to half a paisa each. |
| `VisitRuns.GenerateExactly` | src/lib/visit-generation.ts:90-129 | A visit is on the board after a run exactly when it was before or is promised by the contract and due. |
| `VisitRuns.NightsExactly` | src/lib/visit-generation.ts:90-129 | After any nights the board holds exactly what was there and the visits that were due to a live contract on some night, each key once. |
| `VisitRuns.BoardExactly` | src/lib/visit-generation.ts:141-162 | For any contract of the book and any nights, a visit it promises is on the board exactly when it can be placed and on some night the contract was live and the visit's midnight lay between that run and ninety days on. |
| `VisitRuns.BoardInWords` | src/lib/visit-generation.ts:141-162 | The same in words: a site, a branch, and a night within the term on which the visit's midnight was neither past nor more than ninety days ahead. |
| `VisitRuns.RollingBoard` | src/lib/visit-generation.ts:141-162 | With gaps of at most ninety days a live contract has exactly its visits from the first run to ninety days after the last on the board. |
| `VisitRuns.BoardUnlessHole` | src/lib/visit-generation.ts:141-162 | With longer gaps, exactly those visits are missing that fall between one run's horizon and the next run. |
| `VisitRuns.OnlyPromisedVisits` | src/lib/visit-generation.ts:90-129 | Nothing else is ever put on the board. |
| `VisitRuns.SecondRunAddsNothing` | src/lib/visit-generation.ts:58-100 | Running a night again changes nothing. |
| `VisitRuns.IncrementalEqualsOneRun` | src/lib/visit-generation.ts:90-129 | Many short runs put the same visits on the board as one run with a long horizon. |
| `VisitRuns.FirstVisitBeforeStart` | src/lib/visits.ts:63-64 | The first visit falls before the contract's start exactly when a month-based anchor is before the start day. |
| `VisitRuns.FirstVisitExactly` | src/lib/visits.ts:63-75 | The first visit is on the board exactly when some nightly run of the live contract happened at or before the visit's midnight. |
| `VisitRuns.OnlyALaterAnchorKeepsItsFirstVisit` | src/lib/visits.ts:63-75 | With runs after midnight only a month-based schedule anchored after the start day ever gets its first visit; weekly and fortnightly ones, and anchors on or before the start day, never do. |
| `VisitRuns.EarlyAnchorLosesFirstVisit` | src/lib/visit-generation.ts:141-162 | A visit whose anchor is before the start day is never put on the board even by nightly runs at midnight. |
| `Numbering.FinancialYearIsAprilToMarch` | src/lib/series.ts:26-28 | A date's financial year is y exactly from 1 April of y to 31 March. |
| `Numbering.SequenceOfIsTheMatch` | src/routes/settings.ts:259-262 | The sequence is read wherever the regular expression first matches. |
| `Numbering.SequenceOfNeedsAMatch` | src/routes/settings.ts:259-262 | And only there. |
| `Numbering.PrintedNumberReadsBack` | src/lib/series.ts:49-62 | Printing then parsing a document number returns its sequence, beyond four digits too and for every prefix. |
| `Numbering.NumbersInWords` | src/lib/series.ts:49-62 | What a number shows before its sequence: a job its prefix, year and month, an invoice its prefix and financial year, a voucher its financial year. |
| `Numbering.LabelNamesTheYear` | src/lib/series.ts:30-32 | The label is the last two digits of the financial year, a dash, and those of the next. |
| `Numbering.SpacesAre` | src/routes/settings.ts:259-262 | What the regular expression takes for white space. |
| `Numbering.Collect` | src/routes/settings.ts:264-273 | The collecting loop adds every numbered row of a known branch under its branch and type, in order, and moves nothing else. |
| `Numbering.Gaps` | src/routes/settings.ts:282-288 | The gap loop returns in ascending order exactly the numbers missing between the smallest present and the counter, and gaps and distinct numbers make up the span. |
| `InvoiceSafety.EveryNumberAccountedFor` | src/routes/invoices.ts:804-825 | In every interleaving of creates, issues, cancels and cut-offs, the numbers given out are exactly those the counter passed, each on one row, in flight with one handler, or lost. |
| `InvoiceSafety.RegisterIsSound` | drizzle/0008_number_at_issue.sql:29-45 | The table's rules are never violated: drafts and only drafts have no number, no two rows share one, and none is beyond its counter. |
| `InvoiceSafety.NumberStays` | src/routes/invoices.ts:899-912 | A number once on a row stays with its series and date through any run unless the row is deleted, and a cancelled row stays cancelled. |
| `InvoiceYears.NumbersBelongToTheirYear` | src/lib/series.ts:26-47 | In every run each number drawn is of the series whose financial year, 1 April to 31 March, holds the day it was drawn for, and every row drafted or numbered in the run is dated in its own year. |
| `InvoiceYears.IssueAnswers` | src/routes/invoices.ts:765-833 | An issue alone: exactly a draft with lines is issued, dated today, under the number after the last of its branch in the financial year of today. |
| `InvoiceYears.CancelAnswers` | src/routes/invoices.ts:850-913 | A cancel alone: refused for a cancelled invoice and while something stands against it; else a draft goes and an issued invoice stays, cancelled, under its number. |
| `InvoiceYears.DraftIsAdded` | src/routes/invoices.ts:690-716 | A draft made in the middle of a run has no number, and the date and financial year of its day. |
| `InvoiceOrder.LostExactlyWhenAStepLoses` | src/routes/invoices.ts:765-913 | In every run a number is lost if and only if some step finds no draft for its guarded update, deletes a row with a number drawn in the run, or is a cut-off with a number in hand; each can be told before the step. |
| `InvoiceOrder.ConsecutiveExactly` | src/lib/series.ts:34-47 | Once every handler has finished, each number given out is on exactly one row if and only if no step lost one. |
| `InvoiceOrder.DatesFollowExactly` | src/routes/invoices.ts:804-822 | In every run the days of the numbers drawn follow the numbers if and only if no number was drawn for a day before that of the last number of its series. |
| `InvoiceOrder.InvoiceDatesFollow` | src/routes/invoices.ts:804-825 | Then of two invoices numbered in one series the later number never has the earlier date. |
| `InvoiceOrder.ApartNothingLost` | src/routes/invoices.ts:765-833 | In particular, while handlers keep to different invoices and none is cut off, no number is ever lost, however they interleave. |
| `InvoiceOrder.ConsecutiveWhenApart` | src/lib/series.ts:34-47 | And then, once all have finished, each number of the series is on exactly one row. |
| `InvoiceOrder.DatesFollowNumbers` | src/routes/invoices.ts:804-822 | In particular, dates follow numbers whenever, on each branch, clock readings and draws do not overlap. |
| `InvoiceOrder.SerialIsApart` | src/routes/invoices.ts:765-913 | Handlers run one at a time meet both conditions, so the series is consecutive and its dates follow its numbers. |
| `InvoiceOrder.SecondIssueLosesANumber` | src/routes/invoices.ts:812-832 | A run from any register with a draft: two issues of it at once lose the second number, and the second caller is answered all the same. |
| `InvoiceOrder.DiscardTakesAnIssuedInvoice` | src/routes/invoices.ts:890-896 | A run from any register with a draft: a discard that read it deletes the invoice issued meanwhile, and its number is lost. |
| `InvoiceOrder.OverlapRunsDatesBackwards` | src/routes/invoices.ts:812-823 | A run from any register with two drafts of a branch: issues overlapping between clock and number give the earlier number the later date. |
| `InvoiceGaps.GapsAreLostOrInFlight` | src/routes/settings.ts:281-302 | Whatever ran, the gaps the screen reports beyond the starting counter are exactly the lost and in-flight numbers from the smallest present on. |
| `InvoiceGaps.NoGapsWhenApart` | src/routes/settings.ts:281-302 | With handlers apart and finished it reports none. |
| `InvoiceGaps.PrintedNumbersAreUnique` | drizzle/0000_mighty_sentry.sql:167 | In every run two rows of one branch and year that print alike are one row, even if the prefix changed between them, so the constraint on printed numbers refuses no issue. |
| `InvoiceGaps.ReadingThePrintedRegister` | src/routes/settings.ts:258-273 | Parsing the printed numbers of a branch gives the sequences of its numbered rows, in order. |
| `InvoiceDesk.AloneIsARun` | src/routes/invoices.ts:765-913 | A handler with nobody in between is one run of the protocol. |
| `InvoiceDesk.InvoiceDesk.Issue` | src/routes/invoices.ts:765-833 | The issue handler leaves the specified tables and reply; it issues exactly a draft with lines and otherwise changes nothing. |
| `InvoiceDesk.InvoiceDesk.Cancel` | src/routes/invoices.ts:850-913 | The cancel handler deletes exactly a draft, marks an issued row with its number kept, and never moves a counter. |
| `InvoiceDesk.InvoiceDesk.TakeNumber` | drizzle/0001_guards.sql:50-67 | The counter is created at one or advanced by one, and the new value returned. |
| `InvoiceDesk.InvoiceDesk.RaiseDraft` | src/routes/invoices.ts:690-716 | A draft has no number and the year and date of the day it is made. |
| `Totals.TotalsFoot` | src/lib/tax.ts:108-148 | Every invoice foots exactly to whole rupees with a round-off from -49 to 50 paise; the tax heads add up, and the halves differ by at most a paisa. |
| `Totals.OneLine` | src/lib/tax.ts:108-120 | A line is quantity by price, and its tax is rounded half up to a paisa. |
| `Totals.TotalsOfBoth` | src/lib/tax.ts:108-148 | Values and taxes of two lists of lines add up. |
| `Totals.PartTotalsNoMore` | src/lib/tax.ts:108-148 | Any part of the lines, in any order, totals no more than the invoice; all of them total the same. |
| `Totals.SplittingKeepsValueAndTax` | src/lib/tax.ts:108-148 | Lines spread over several notes keep taxable value and tax to the paisa, and grand totals differ by less than 50 paise a document. |
| `Totals.TaxByLineIsNearTaxOnTheSum` | src/lib/tax.ts:114-120 | For any lines at one rate, tax by line is within half a paisa a line of tax on the sum. |
| `Totals.HalfAPaisaALineIsReached` | src/lib/tax.ts:114-120 | And for every number of lines there are lines that reach it, so the two ways of taxing differ from two lines on. |
| `Advances.PartsAddUp` | src/lib/advances.ts:52-81 | The parts of a receipt add up to it, and CGST takes the odd paisa. |
| `Advances.BackCalculationUndoesGrossing` | src/lib/advances.ts:52-60 | The receipt of any value and its half-up tax, at any rate, gives back exactly that value and that tax. |
| `Advances.LineComesBack` | src/lib/tax.ts:114-120 | On an invoice line that is the line's own amount and tax. |
| `Advances.RetaxingIsWithinAPaisaExactly` | src/lib/advances.ts:52-60 | Taxing the recovered value again is within a paisa of the tax taken for every receipt if and only if the rate is at most 200 percent, as all rates accepted are. |
| `Advances.OrderMakesNoDifference` | src/lib/advances.ts:111-125 | The unadjusted tax does not depend on the order of the vouchers, so the sort is idle. |
| `Advances.AdjustingTakesItsTaxOnce` | src/lib/advances.ts:133-143 | Adjusting a voucher takes exactly its tax off what is unadjusted, and a second time nothing. |
| `Receivables.ExposureRunsFromNothingToAll` | src/lib/receivables.ts:103-129 | Exposure is nothing at nothing outstanding, the whole at everything, and never falls as more is outstanding. |
| `Receivables.ExposureAddsUp` | src/lib/receivables.ts:103-129 | For totals as computed, exposed tax and exposed value add up to the outstanding amount within 50 paise. |
| `Receivables.SharesOfTheOutstanding` | src/lib/receivables.ts:103-129 | Exposed tax is the tax's share, and exposed expense the taxable value's, of what is outstanding, at most the whole, each to half a paisa. |
| `Receivables.OutstandingIsTheRest` | src/lib/receivables.ts:57-78 | Owed, paid and credited add up to the invoice exactly while they fit; owed never exceeds what is creditable. |
| `CreditNotes.CapHoldsExactlyWhenIssuesFit` | src/routes/credit-notes.ts:145-182 | The notes of an invoice stay within it at every moment of a run if and only if every note fits what is left when it is issued, which issuing does not check. |
| `CreditNotes.OneAtATimeKeepsTheCap` | src/routes/credit-notes.ts:145-182 | When each note is issued before the next is raised, the cap holds throughout. |
| `CreditNotes.TwoDraftsExceedTheInvoice` | src/routes/credit-notes.ts:231-260 | For every issued invoice, two full copies raised as drafts and then issued credit it twice over. |
| `CreditNotes.CopyingLinesNeverTripsTheCap` | src/routes/credit-notes.ts:170-182 | A first note copying lines is always accepted, and one copying all of them leaves nothing creditable and nothing owed. |
| `CreditNotes.AllAcceptedExactly` | src/routes/credit-notes.ts:145-182 | Notes raised and issued one after the other on an issued invoice are all accepted if and only if their rounded totals come to no more than the invoice. |
| `CreditNotes.HonestNotesAreAcceptedExactly` | src/routes/credit-notes.ts:145-182 | The invoice's own lines, spread over notes in any way, are all accepted if and only if the notes' round-offs add up to no more than the invoice's. |
| `CreditNotes.RoundingCanRefuseAnHonestNote` | src/routes/credit-notes.ts:170-182 | Which can fail: two lines of a rupee and a half credited one by one round up, and the second note is refused. |
| `CreditNotes.NoteRegister.RaiseNote` | src/routes/credit-notes.ts:115-210 | The raising handler accepts exactly what the cap allows and never changes the credited total. |
| `CreditNotes.NoteRegister.IssueNote` | src/routes/credit-notes.ts:231-260 | The issuing handler issues exactly a draft and credits its total. |
| `JobHistory.HistoryFollowsTheTable` | src/routes/jobs.ts:653-663 | Whatever is created, assigned, moved and signed off by requests one at a time, each job's statuses are a path of the table from created or assigned to where it stands. |
| `JobHistory.TransitionAnswers` | src/routes/jobs.ts:767-870 | A transition's answer for every caller, key and state: the job's technician or an office that may write, a key not on the timeline, and a state the new one can be entered from. |
| `JobHistory.WhoWritesWhat` | src/routes/jobs.ts:489-615 | For every request and job: only an accepted assignment changes the technician, only a reschedule the date, the slot where it gives one, and the attempts. |
| `JobHistory.CreatedAsAsked` | src/routes/jobs.ts:455-470 | A new job has the technician, date and slot asked for, on its first attempt. |
| `JobHistory.TimelineTellsTheHistory` | src/routes/jobs.ts:527-862 | In every run of requests one at a time, a job's statuses are its beginning followed by exactly the moves on its timeline, in order, and its attempts are one more than its reschedules. |
| `JobHistory.SignedOffJobsWereWorkedThrough` | src/routes/jobs.ts:653-663 | With requests one at a time, a signed-off job was assigned, on the way, on site and done, in that order. |
| `JobHistory.TheEndIsFinal` | src/routes/jobs.ts:653-663 | With requests one at a time, signed off and cancelled never change. |
| `JobHistory.SignOffRowsAreForSignedOffJobs` | src/routes/jobs.ts:717-744 | With requests one at a time, a sign-off row is only ever there for a signed-off job. |
| `JobHistory.RowExactlyUnlessByTransition` | src/routes/jobs.ts:674-862 | In every run of requests one at a time, a signed-off job has its row if and only if no transition to signed off was answered done for it, and one of the two is how it was signed off. |
| `JobHistory.TransitionSignsOffWithoutARow` | src/routes/jobs.ts:828-862 | A finished job that the transition route signs off has no row, and then none can be recorded. |
| `JobHistory.ReplayIsHarmless` | src/routes/jobs.ts:804-862 | Resending any prefixes of a legal offline queue in any order gives the same jobs and timeline as sending the longest once, with no refusal. |
| `JobHistory.CutOffIsMendedExactly` | src/routes/jobs.ts:841-862 | When an item of a legal queue is cut off between its entry and its status, resending the queue leaves the tables of an undisturbed sending with no refusal if and only if a next item is resent and the table allows it from the status before the cut; without a next item all is answered as replayed and the status stays behind, and a next item that is not allowed is refused. |
| `JobRaces.EndIsFinalExactly` | src/routes/jobs.ts:489-862 | With the handlers' statements interleaved in any way, signed off and cancelled are final throughout a run if and only if no request writes, over an end the job came to after the request read it, a status that is not that end. |
| `JobRaces.EndIsFinalWhenApart` | src/routes/jobs.ts:489-862 | While requests keep to different jobs, cut off or not, signed off and cancelled are final. |
| `JobRaces.AssignmentUndoesASignOff` | src/routes/jobs.ts:527-535 | From any tables with a finished job: an assignment that read it before the customer signed puts it back to work done, with its sign-off row and timeline entry still there. |
| `JobRaces.OneEntryPerKey` | src/routes/jobs.ts:804-854 | In every interleaved run, from a timeline whose keys differ, each replay key has at most one entry and an entry once there stays, however many copies of an item race. |
| `JobRaces.ReplayedExactlyWhenSeen` | src/routes/jobs.ts:804-854 | A copy is answered as replayed, at its look or at its insert, exactly when its key has its entry by then. |
| `JobRaces.OneSignOffGoesOn` | src/routes/jobs.ts:717-744 | However many sign-offs of a job race, in every run its row lets one of them through at a time, and a row once there stays. |
| `JobRaces.AloneIsTheHandler` | src/routes/jobs.ts:489-862 | The statements of one request with nobody in between are the handler that runs one at a time, tables and answer. |
| `JobRaces.CreateIsTheHandler` | src/routes/jobs.ts:455-470 | A job made in the middle of a run is one the create handler makes without a date. |
| `JobRaces.WholeIsTheOutcome` | src/routes/jobs.ts:489-862 | And they are one run of the interleaved protocol. |
| `JobHistory.JobBoard.CreateJob` | src/routes/jobs.ts:455-470 | A new job is assigned exactly when it names a technician, and has the date and slot asked for. |
| `JobHistory.JobBoard.AssignJob` | src/routes/jobs.ts:489-535 | A missing job is not found, a person who is no active technician is refused, and else technician and status are those of the specification, with nothing else changed. |
| `JobHistory.JobBoard.RescheduleJob` | src/routes/jobs.ts:559-615 | Rescheduling sets the new date, and the new slot if one is given, counts the attempt, notes both on the timeline and keeps the status. |
| `JobHistory.JobBoard.RecordSignOff` | src/routes/jobs.ts:686-764 | Row, status and timeline entry are written together, from work done only. |
| `JobHistory.JobBoard.TransitionJob` | src/routes/jobs.ts:767-870 | The handler's order of checks: existence, right, replay, table. |
| `ReminderPlan.PlanReminders` | src/lib/reminders.ts:122-271 | The loops plan the reminders of the specification, in its order. |
| `ReminderPlan.PlanExactly` | src/lib/reminders.ts:131-268 | A reminder is planned exactly when it tells a given address of the contact or the technician of a visit still to come in a week or tomorrow, or is the digest of one of the office for a tomorrow that has visits, with its two counts. |
| `ReminderPlan.DigestInWords` | src/lib/reminders.ts:226-268 | Each of the office is told by mail, once there is a visit tomorrow, how many are still to come then and how many of those have no technician. |
| `ReminderPlan.PlanJob` | src/lib/reminders.ts:137-216 | The pushes for one job, in the order customer by phone, customer by mail, technician. |
| `ReminderPlan.DueTomorrow` | src/lib/reminders.ts:227-230 | The jobs the digest is about, in order. |
| `ReminderPlan.WindowPlansTheSame` | src/lib/notify/run.ts:58-63 | Reading only the jobs of the two target days plans the same sequence as reading every job. |
| `ReminderPlan.KeysCollideExactly` | src/lib/reminders.ts:105-114 | Two reminders share a dedupe key exactly when kind, channel, recipient and job or day are the same. |
| `ReminderPlan.MovedJobKeepsItsKeys` | src/lib/reminders.ts:105-114 | A job moved to another date asks for the same keys, so it is not announced again. |
| `ReminderOutbox.RunAgainAddsNothing` | src/lib/notify/run.ts:163-187 | Enqueueing the same plan again adds no row. |
| `ReminderOutbox.NewRowsAreThePlan` | src/lib/notify/run.ts:163-187 | Every row an insert adds is a planned reminder, pending, not tried yet, with its due time. |
| `ReminderOutbox.AnswerDecides` | src/lib/notify/run.ts:220-265 | One answer: the attempts are one more than were read, no other row changes, and a later drain that reads fewer than two hundred rows reads this one again if and only if the answer allowed another try and the row is due. |
| `ReminderOutbox.NoSenderHolds` | src/lib/notify/run.ts:224-232 | A row whose channel has no sender is held: nothing goes out, nothing is recorded, and the next comes up. |
| `ReminderOutbox.DrainIsARun` | src/lib/notify/run.ts:199-266 | A drain with nobody in between is one run of the protocol, with the same rows. |
| `ReminderOutbox.OneRowPerKey` | src/lib/notify/run.ts:183-187 | In every run, overlapping or not, each key has at most one row. |
| `ReminderOutbox.NobodyIsToldTwiceExactly` | src/lib/notify/run.ts:199-266 | In every run, overlapping or cut off, no row is delivered twice if and only if no step delivers one that is already out. |
| `ReminderOutbox.OutExactly` | src/lib/notify/run.ts:220-265 | In every run a row is already out exactly when it is sent by now, or a drain has its answer and has not recorded it, or a cut-off or a failure recorded over it has forgotten the delivery. |
| `ReminderOutbox.NobodyIsToldTwice` | src/lib/notify/run.ts:199-266 | In particular, while drains do not overlap and none is cut off between a send and its record, no key's message goes out twice, whatever the senders answer. |
| `ReminderOutbox.SettledForGood` | src/lib/notify/run.ts:244-262 | Then sent and failed rows are never touched again. |
| `ReminderOutbox.TwoDrainsCanReadOneRow` | src/lib/notify/run.ts:208-218 | Nothing stops two drains from reading the same rows. |
| `ReminderOutbox.OverlappingDrainsTellTwice` | src/lib/notify/run.ts:234-249 | From the first reminder on: two drains that read one row both send it. |
| `ReminderOutbox.CutOffDrainTellsTwice` | src/lib/notify/run.ts:234-249 | From the first reminder on: a drain cut off after a send has its message sent again by the next. |
| `ReminderOutbox.Outbox.EnqueueAll` | src/lib/notify/run.ts:166-187 | The insert adds exactly the keys not there yet and counts them. |
| `ReminderOutbox.Outbox.DrainDue` | src/lib/notify/run.ts:220-265 | The loop leaves the rows of the specification, counts the deliveries among the answers, and its three counts make up the rows read, those held being the ones whose channel has no sender. |
| `StockLedger.Balances` | src/routes/parts.ts:107-118 | The balance loop gives every part and place its arrivals less its departures. |
| `StockLedger.OnlyCrossingsCount` | src/routes/parts.ts:107-118 | Over any places, each once, the ledger's account is what crossed in less what crossed out. |
| `StockLedger.StockIsConserved` | src/routes/parts.ts:123-124 | On hand over the places listed is what crossed in less what crossed out; over all places, receipts less consumption, since transfers cancel. |
| `StockLedger.NegativeOnHand` | src/routes/parts.ts:173-187 | The exceptions are exactly the active cells below zero, each once, place by place in catalogue order. |

## Left out

- Routing, validation, permissions, cookies, CORS, JWT signing, the mail and message senders: input and output. The answers a statement does not decide (lines exist, payments exist, what a sender says) are parameters of the events.
- Password hashing and token hashing: a stored hash is a secret and a salt, a token is named by its hash, and hashing is taken as injective, as is the fingerprint of a customer request.
- Row-level security, tenants other than one, and the database client: one tenant is modelled, every statement is atomic and commits on its own, and fresh ids are fresh.
- `create_erp_customer` is one atomic step that makes a customer, makes none, or fails; its body is not part of this model.
- The rotation flow of `src/auth/sign-in.ts` as requests: its statements on the shared tables are events that can come at any time, and what it answers is not modelled; nor is the rate limiter.
- The order of candidates in a password sign-in, the slow hashing that hides how many there are, and the access token beside a refresh token.
- Floating-point representation: amounts are exact integers and rationals.
- Years outside four digits in date strings, and `Date.UTC` reading years 0 to 99 as 1900 to 1999 except where strings are parsed.
- Daylight saving and time zones other than a fixed offset.
- Contracts without an end date: the model's contract rows always have one.
- Pressing the button that generates one contract's visits: `GenerateExactly` covers one press, and the runs of `VisitRuns` are of nights only.
- Generation by two runs at once: nights run one after the other, as the unique visit key would refuse the loser.
- Quantities of credit-note lines that are not whole: the stored paise columns are whole numbers.
- CreditNotes.OneAtATimeKeepsTheCap: covers one invoice that stays issued; cancelling the invoice meanwhile is not modelled.
- The numbering of credit notes: the issue of one draws from the same kind of counter, and concurrent issues of one note are not modelled.
- Numbering.Gaps: takes the numbers of one branch and type; the handler compares job numbers of all years with one year's counter, which is not modelled.
- Payments and advances that refer to an invoice: whether a delete is refused by them is a parameter of the cancel steps.
- The words of reminders and the choice of a site's contact; a digest keeps its recipient and its counts.
- ReminderOutbox.NobodyIsToldTwice: says nothing of a message a provider delivers more than once or after reporting a failure.
- Whether everyone named in an assignment is an active technician is a parameter of it; a job's helpers and the reason of a reschedule are not kept.
- The kind of a stock movement: it is not tied to the direction in the code either, so receipts and consumption are told by which end is missing.
- Reorder suggestions, uncatalogued parts, missing challans, search, dashboards, GST exports, place of supply and SAC digits: presentation or one-branch decisions.
- Seeds, backups and migrations other than the functions and constraints cited.
- The refusal of malformed arguments by `z_replace_password_and_revoke`, and the reason a cancellation of an invoice must give.
- In JobHistory requests to the job board run one at a time; in JobRaces their statements interleave, and there the job a request creates has no date.
- Reminder rows deleted with their job.
