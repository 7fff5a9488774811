/** When the customer's input tax credit has to be reversed: `src/lib/itc-reversal.ts`. */
module ItcReversal {
  import opened Calendar
  import opened Decimal
  import opened IsoDates

  const REVERSAL_DAYS := 180

  datatype Reversal =
    | NotRegistered
    | Settled
    | Applies(reversesOn: string, daysUntil: int, passed: bool, creditAtRiskPaise: int)

  /** `itcReversal`, on date strings as the program has them; an unregistered customer has no GSTIN. */
  function Reverse(issueDate: string, gstin: string, outstandingPaise: int, taxOnUncollectedPaise: int,
                   today: string): Reversal {
    if gstin == "" then NotRegistered
    else if outstandingPaise <= 0 then Settled
    else
      var reversesOn := AddDaysIso(issueDate, REVERSAL_DAYS);
      var daysUntil := DaysBetweenIso(today, reversesOn);
      Applies(reversesOn, daysUntil, daysUntil < 0, taxOnUncollectedPaise)
  }

  /** The clock runs exactly for a registered customer who still owes, for 180 days, on the tax not collected. */
  lemma ClockRunsExactly(issued: Date, gstin: string, outstandingPaise: int, taxPaise: int, today: Date)
    requires Dated(issued) && Dated(today) && Dated(AddDays(issued, 180))
    ensures var r := Reverse(Iso(issued), gstin, outstandingPaise, taxPaise, Iso(today));
            && (r.NotRegistered? <==> gstin == "")
            && (r.Settled? <==> gstin != "" && outstandingPaise <= 0)
            && (r.Applies? ==>
                  && r.creditAtRiskPaise == taxPaise && r.reversesOn == Iso(AddDays(issued, 180))
                  && r.daysUntil == ToDay(issued) + 180 - ToDay(today)
                  && (r.passed <==> ToDay(today) > ToDay(issued) + 180))
  {
    hide AddDays, Iso, AddDaysIso, DaysBetweenIso, ToDay, Valid;
    StringsFollowDates(issued, today, 180);
    StringsFollowDates(today, AddDays(issued, 180), 0);
  }

  /**
    The credit is lost from day 181 on: `passed` holds exactly when today's date is after the
    reversal date, which is also what comparing the two strings says.
   */
  lemma PassedExactlyAfter(issued: Date, gstin: string, outstandingPaise: int, taxPaise: int, today: Date)
    requires Dated(issued) && Dated(today) && Dated(AddDays(issued, REVERSAL_DAYS))
    requires gstin != "" && outstandingPaise > 0
    ensures var r := Reverse(Iso(issued), gstin, outstandingPaise, taxPaise, Iso(today));
            var on := AddDays(issued, REVERSAL_DAYS);
            && r.Applies?
            && r.reversesOn == Iso(on)
            && r.daysUntil == ToDay(issued) + REVERSAL_DAYS - ToDay(today)
            && (r.passed <==> Before(on, today))
            && (r.passed <==> Less(r.reversesOn, Iso(today)))
  {
    hide AddDays, Iso, AddDaysIso, DaysBetweenIso, Before, ToDay, Valid, Less;
    var on := AddDays(issued, REVERSAL_DAYS);
    StringsFollowDates(issued, today, REVERSAL_DAYS);
    StringsFollowDates(today, on, 0);
    IsoOrder(on, today);
    OrderIsDayOrder(on, today);
  }
}
