/**
  Credit notes against one invoice and their cap: `src/routes/credit-notes.ts`.

  The cap is checked when a draft is raised, against issued notes only, and not again at issue.
 */
module CreditNotes {
  import opened Totals
  import opened Receivables

  datatype Note = Note(grand: int, issued: bool)

  /** The invoice being credited: only an issued one can be. */
  datatype Invoice = Invoice(issued: bool, head: TaxHead, grand: int)

  datatype Event = Raise(lines: seq<Line>) | Issue(i: nat)

  /** `creditedAgainst`: issued notes only. */
  function Credited(notes: seq<Note>): int {
    if notes == [] then 0
    else Credited(notes[..|notes| - 1]) + if notes[|notes| - 1].issued then notes[|notes| - 1].grand else 0
  }

  function Remaining(inv: Invoice, notes: seq<Note>): int {
    CreditableRemaining(inv.grand, Credited(notes))
  }

  predicate Accepted(inv: Invoice, notes: seq<Note>, lines: seq<Line>) {
    inv.issued && ComputeTotals(lines, inv.head).grand <= Remaining(inv, notes)
  }

  predicate IsDraft(notes: seq<Note>, i: nat) {
    i < |notes| && !notes[i].issued
  }

  function Apply(inv: Invoice, notes: seq<Note>, e: Event): seq<Note> {
    match e
    case Raise(lines) =>
      if Accepted(inv, notes, lines) then notes + [Note(ComputeTotals(lines, inv.head).grand, false)] else notes
    case Issue(i) => if IsDraft(notes, i) then notes[i := notes[i].(issued := true)] else notes
  }

  /** The notes after a run, from none. */
  function Run(inv: Invoice, es: seq<Event>): seq<Note> {
    if es == [] then [] else Apply(inv, Run(inv, es[..|es| - 1]), es[|es| - 1])
  }

  /** Every line raised charges something, as the request demands. */
  ghost predicate Chargeable(es: seq<Event>) {
    forall k | 0 <= k < |es| && es[k].Raise? :: NonNegative(es[k].lines)
  }

  lemma {:induction false} CreditedByIssue(notes: seq<Note>, i: nat)
    requires IsDraft(notes, i)
    ensures Credited(notes[i := notes[i].(issued := true)]) == Credited(notes) + notes[i].grand
  {
    var l := |notes| - 1;
    var after := notes[i := notes[i].(issued := true)];
    if i < l {
      CreditedByIssue(notes[..l], i);
      assert after[..l] == notes[..l][i := notes[i].(issued := true)];
    } else {
      assert after[..l] == notes[..l];
    }
  }

  lemma CreditedByRaise(notes: seq<Note>, grand: int)
    ensures Credited(notes + [Note(grand, false)]) == Credited(notes)
  {
    assert (notes + [Note(grand, false)])[..|notes|] == notes;
  }

  /** The credited total of the invoice stays within it. */
  ghost predicate CapHolds(inv: Invoice, notes: seq<Note>) {
    Credited(notes) <= inv.grand
  }

  /** At this moment the note would still fit: what a check at issue would have to ask. */
  ghost predicate FitsNow(inv: Invoice, notes: seq<Note>, e: Event) {
    e.Issue? && IsDraft(notes, e.i) ==> notes[e.i].grand <= Remaining(inv, notes)
  }

  ghost predicate CapHoldsThroughout(inv: Invoice, es: seq<Event>) {
    CapHolds(inv, Run(inv, es)) && (es != [] ==> CapHoldsThroughout(inv, es[..|es| - 1]))
  }

  ghost predicate EveryIssueFits(inv: Invoice, es: seq<Event>) {
    es != [] ==> EveryIssueFits(inv, es[..|es| - 1]) && FitsNow(inv, Run(inv, es[..|es| - 1]), es[|es| - 1])
  }

  ghost predicate AllNonNegative(notes: seq<Note>) {
    forall i | 0 <= i < |notes| :: notes[i].grand >= 0
  }

  lemma {:induction false} NotesNonNegative(inv: Invoice, es: seq<Event>)
    requires Chargeable(es)
    ensures AllNonNegative(Run(inv, es))
  {
    if es != [] {
      var before, e := es[..|es| - 1], es[|es| - 1];
      NotesNonNegative(inv, before);
      hide ComputeTotals, Remaining;
      if e.Raise? {
        PartTotalsNoMore([], e.lines, inv.head);
        PartTotalsNoMore(e.lines, e.lines, inv.head);
      }
    }
  }

  lemma OneStepCap(inv: Invoice, notes: seq<Note>, e: Event)
    requires inv.grand >= 0 && AllNonNegative(notes) && CapHolds(inv, notes)
    ensures CapHolds(inv, Apply(inv, notes, e)) <==> FitsNow(inv, notes, e)
  {
    hide ComputeTotals, Credited;
    match e
    case Raise(lines) => CreditedByRaise(notes, ComputeTotals(lines, inv.head).grand);
    case Issue(i) =>
      if IsDraft(notes, i) {
        CreditedByIssue(notes, i);
      }
  }

  /**
    The notes of an invoice stay within its value at every moment of a run exactly when each note, at the
    moment it is issued, still fits what is left. The code does not ask that.
   */
  lemma {:induction false} CapHoldsExactlyWhenIssuesFit(inv: Invoice, es: seq<Event>)
    requires inv.grand >= 0 && Chargeable(es)
    ensures CapHoldsThroughout(inv, es) <==> EveryIssueFits(inv, es)
  {
    if es != [] {
      var before := es[..|es| - 1];
      CapHoldsExactlyWhenIssuesFit(inv, before);
      NotesNonNegative(inv, before);
      hide Apply, CapHolds, FitsNow, AllNonNegative;
      if CapHoldsThroughout(inv, before) {
        OneStepCap(inv, Run(inv, before), es[|es| - 1]);
      }
    }
  }

  ghost predicate NoDrafts(notes: seq<Note>) {
    forall i | 0 <= i < |notes| :: notes[i].issued
  }

  /** Each note is issued before the next is raised. */
  ghost predicate OneDraftAtATime(inv: Invoice, es: seq<Event>) {
    es != [] ==> OneDraftAtATime(inv, es[..|es| - 1]) && (es[|es| - 1].Raise? ==> NoDrafts(Run(inv, es[..|es| - 1])))
  }

  /** Whatever draft there is still fits, and there is at most one. */
  ghost predicate DraftFits(inv: Invoice, notes: seq<Note>) {
    && (forall i | 0 <= i < |notes| && !notes[i].issued :: notes[i].grand <= Remaining(inv, notes))
    && (forall i, j | 0 <= i < j < |notes| :: notes[i].issued || notes[j].issued)
  }

  lemma DraftKeepsFitting(inv: Invoice, notes: seq<Note>, e: Event)
    requires inv.grand >= 0 && DraftFits(inv, notes) && (e.Raise? ==> NoDrafts(notes))
    ensures DraftFits(inv, Apply(inv, notes, e)) && FitsNow(inv, notes, e)
  {
    hide ComputeTotals, Credited, CreditableRemaining;
    match e
    case Raise(lines) => CreditedByRaise(notes, ComputeTotals(lines, inv.head).grand);
    case Issue(i) =>
  }

  /** With one draft at a time the cap holds throughout, although only raising checks it. */
  lemma {:induction false} OneAtATimeKeepsTheCap(inv: Invoice, es: seq<Event>)
    requires inv.grand >= 0 && Chargeable(es) && OneDraftAtATime(inv, es)
    ensures DraftFits(inv, Run(inv, es)) && CapHoldsThroughout(inv, es)
  {
    CapHoldsExactlyWhenIssuesFit(inv, es);
    if es != [] {
      hide Apply, DraftFits, FitsNow, NoDrafts;
      OneAtATimeKeepsTheCap(inv, es[..|es| - 1]);
      CapHoldsExactlyWhenIssuesFit(inv, es[..|es| - 1]);
      DraftKeepsFitting(inv, Run(inv, es[..|es| - 1]), es[|es| - 1]);
    }
  }

  /** Two full copies raised before either is issued are both accepted, and credit the invoice twice over. */
  lemma TwoDraftsExceedTheInvoice(inv: Invoice, lines: seq<Line>)
    requires inv.issued && inv.grand > 0 && ComputeTotals(lines, inv.head).grand == inv.grand
    ensures Credited(Run(inv, [Raise(lines), Raise(lines), Issue(0), Issue(1)])) == 2 * inv.grand > inv.grand
  {
    hide ComputeTotals;
    var es := [Raise(lines), Raise(lines), Issue(0), Issue(1)];
    var draft, done := Note(inv.grand, false), Note(inv.grand, true);
    assert es[..3] == [Raise(lines), Raise(lines), Issue(0)] && es[..3][..2] == [Raise(lines), Raise(lines)];
    assert [Raise(lines), Raise(lines)][..1] == [Raise(lines)] && [Raise(lines)][..0] == [];
    assert Run(inv, []) == [] && Credited([]) == 0;
    assert Run(inv, [Raise(lines)]) == [draft];
    CreditedByRaise([], inv.grand);
    assert [] + [draft] == [draft] && [draft] + [draft] == [draft, draft];
    assert Run(inv, es[..3][..2]) == [draft, draft];
    CreditedByRaise([draft], inv.grand);
    assert Run(inv, es[..3]) == [done, draft];
    CreditedByIssue([draft, draft], 0);
    assert [draft, draft][0 := done] == [done, draft] && [done, draft][1 := done] == [done, done];
    CreditedByIssue([done, draft], 1);
  }

  /**
    A first note that copies lines of the invoice is always accepted, and one that copies all of them leaves
    nothing to credit.
   */
  lemma CopyingLinesNeverTripsTheCap(inv: Invoice, lines: seq<Line>, part: seq<Line>, notes: seq<Note>)
    requires inv.issued && NonNegative(lines) && inv.grand == ComputeTotals(lines, inv.head).grand
    requires multiset(part) <= multiset(lines) && Credited(notes) == 0
    ensures Accepted(inv, notes, part)
    ensures var after := Apply(inv, Apply(inv, notes, Raise(part)), Issue(|notes|));
            |part| == |lines| ==> Remaining(inv, after) == 0 && OutstandingOf(inv.grand, 0, Credited(after)) == 0
  {
    PartTotalsNoMore(part, lines, inv.head);
    hide ComputeTotals;
    var raised := Apply(inv, notes, Raise(part));
    var grand := ComputeTotals(part, inv.head).grand;
    assert raised == notes + [Note(grand, false)];
    CreditedByRaise(notes, grand);
    CreditedByIssue(raised, |notes|);
  }

  /** Notes for these lines, each raised and issued before the next is raised. */
  function OneByOne(inv: Invoice, parts: seq<seq<Line>>): seq<Event> {
    if parts == [] then []
    else
      var before := OneByOne(inv, parts[..|parts| - 1]);
      before + [Raise(parts[|parts| - 1]), Issue(|Run(inv, before)|)]
  }

  /** None of them is refused. */
  ghost predicate AllAccepted(inv: Invoice, parts: seq<seq<Line>>) {
    parts != [] ==>
      var before := parts[..|parts| - 1];
      AllAccepted(inv, before) && Accepted(inv, Run(inv, OneByOne(inv, before)), parts[|parts| - 1])
  }

  ghost predicate PartsNonNegative(parts: seq<seq<Line>>) {
    forall k | 0 <= k < |parts| :: NonNegative(parts[k])
  }

  lemma RunOfTwoMore(inv: Invoice, es: seq<Event>, a: Event, b: Event)
    ensures Run(inv, es + [a, b]) == Apply(inv, Apply(inv, Run(inv, es), a), b)
  {
    hide Apply;
    assert (es + [a, b])[..|es| + 1] == es + [a] && (es + [a])[..|es|] == es;
    assert Run(inv, es + [a]) == Apply(inv, Run(inv, es), a);
  }

  /** A note that is accepted is credited by its issue. */
  lemma OneMoreNote(inv: Invoice, notes: seq<Note>, lines: seq<Line>)
    requires Accepted(inv, notes, lines)
    ensures Credited(Apply(inv, Apply(inv, notes, Raise(lines)), Issue(|notes|)))
         == Credited(notes) + ComputeTotals(lines, inv.head).grand
  {
    hide ComputeTotals, Credited;
    var grand := ComputeTotals(lines, inv.head).grand;
    CreditedByRaise(notes, grand);
    CreditedByIssue(notes + [Note(grand, false)], |notes|);
  }

  lemma {:induction false} CreditedOneByOne(inv: Invoice, parts: seq<seq<Line>>)
    requires AllAccepted(inv, parts)
    ensures Credited(Run(inv, OneByOne(inv, parts))) == SumGrand(parts, inv.head)
  {
    if parts != [] {
      hide Apply, Credited, Accepted, ComputeTotals;
      var before, last := parts[..|parts| - 1], parts[|parts| - 1];
      CreditedOneByOne(inv, before);
      var es := OneByOne(inv, before);
      RunOfTwoMore(inv, es, Raise(last), Issue(|Run(inv, es)|));
      OneMoreNote(inv, Run(inv, es), last);
    } else {
      assert OneByOne(inv, parts) == [] && Run(inv, []) == [] && Credited([]) == 0;
    }
  }

  /**
    Notes raised and issued one after the other are all accepted if and only if their totals, each rounded
    to whole rupees, come to no more than the invoice.
   */
  lemma {:induction false} AllAcceptedExactly(inv: Invoice, parts: seq<seq<Line>>)
    requires inv.issued && inv.grand >= 0 && PartsNonNegative(parts)
    ensures AllAccepted(inv, parts) <==> SumGrand(parts, inv.head) <= inv.grand
  {
    if parts != [] {
      var before, last := parts[..|parts| - 1], parts[|parts| - 1];
      assert NonNegative(last) && PartsNonNegative(before);
      hide Run, ComputeTotals, NonNegative, PartsNonNegative;
      AllAcceptedExactly(inv, before);
      PartTotalsNoMore(last, last, inv.head);
      if AllAccepted(inv, before) {
        CreditedOneByOne(inv, before);
      }
    }
  }

  lemma {:induction false} PartsOfNonNegative(parts: seq<seq<Line>>)
    requires NonNegative(Joined(parts))
    ensures PartsNonNegative(parts)
  {
    if parts != [] {
      var l := |parts| - 1;
      var before := Joined(parts[..l]);
      assert forall i | 0 <= i < |before| :: Joined(parts)[i] == before[i];
      assert forall i | 0 <= i < |parts[l]| :: Joined(parts)[|before| + i] == parts[l][i];
      PartsOfNonNegative(parts[..l]);
      assert forall k | 0 <= k < l :: parts[..l][k] == parts[k];
      hide Joined, NonNegative;
    }
  }

  /**
    So the lines of an invoice itself, spread over notes in any way, are all accepted if and only if the
    notes' roundings to the rupee add up to no more than the invoice's own.
   */
  lemma HonestNotesAreAcceptedExactly(inv: Invoice, lines: seq<Line>, parts: seq<seq<Line>>)
    requires inv.issued && NonNegative(lines) && inv.grand == ComputeTotals(lines, inv.head).grand
    requires multiset(Joined(parts)) == multiset(lines)
    ensures AllAccepted(inv, parts) <==> SumRoundOff(parts, inv.head) <= ComputeTotals(lines, inv.head).roundOff
  {
    PartNonNegative(Joined(parts), lines);
    PartsOfNonNegative(parts);
    PartTotalsNoMore(lines, lines, inv.head);
    SplittingKeepsValueAndTax(lines, parts, inv.head);
    SumsFoot(parts, inv.head);
    TotalsFoot(lines, inv.head);
    hide ComputeTotals, NonNegative, PartsNonNegative, Joined, AllAccepted;
    AllAcceptedExactly(inv, parts);
  }

  /**
    Which can fail: two lines of one and a half rupees make an invoice of three rupees, each
    alone rounds up to two, and the second of two honest copies is refused.
   */
  lemma RoundingCanRefuseAnHonestNote(head: TaxHead)
    ensures var l := Line(1, 150, 0);
            var inv := Invoice(true, head, ComputeTotals([l, l], head).grand);
            var first := Run(inv, [Raise([l]), Issue(0)]);
            inv.grand == 300 && Credited(first) == 200 && !Accepted(inv, first, [l])
  {
    var l := Line(1, 150, 0);
    assert [l, l][..1] == [l] && [l][..0] == [];
    assert LineTax(l) == 0 && Taxable([l]) == 150 && Tax([l]) == 0;
    assert Taxable([l, l]) == 300 && Tax([l, l]) == 0;
    var inv := Invoice(true, head, ComputeTotals([l, l], head).grand);
    var es := [Raise([l]), Issue(0)];
    assert es[..1] == [Raise([l])] && es[..1][..0] == [];
    assert Run(inv, []) == [] && Credited([]) == 0;
    assert ComputeTotals([l], head).grand == 200;
    assert Run(inv, es[..1]) == [Note(200, false)];
    assert Run(inv, es) == [Note(200, true)];
    assert [Note(200, true)][..0] == [];
  }

  /** The two handlers over the notes of one invoice. */
  class NoteRegister {
    const inv: Invoice
    var notes: seq<Note>

    constructor (invoice: Invoice)
      ensures inv == invoice && notes == []
    {
      inv := invoice;
      notes := [];
    }

    /** Refused with what is left when it asks for more, or when the invoice is not an issued one. */
    method RaiseNote(lines: seq<Line>) returns (accepted: bool, remaining: int)
      modifies `notes
      ensures notes == Apply(inv, old(notes), Raise(lines))
      ensures accepted <==> Accepted(inv, old(notes), lines)
      ensures accepted <==> inv.issued && ComputeTotals(lines, inv.head).grand <= remaining
      ensures inv.issued ==>
        var rest := inv.grand - Credited(old(notes)); remaining == if rest < 0 then 0 else rest
      ensures remaining == if inv.issued then Remaining(inv, old(notes)) else 0
      ensures Credited(notes) == old(Credited(notes))
    {
      if !inv.issued {
        return false, 0;
      }
      remaining := CreditableRemaining(inv.grand, Credited(notes));
      var totals := ComputeTotals(lines, inv.head);
      CreditedByRaise(notes, totals.grand);
      if totals.grand > remaining {
        return false, remaining;
      }
      notes := notes + [Note(totals.grand, false)];
      accepted := true;
    }

    method IssueNote(i: nat) returns (issued: bool)
      modifies `notes
      ensures notes == Apply(inv, old(notes), Issue(i))
      ensures issued <==> IsDraft(old(notes), i)
      ensures Credited(notes) == old(Credited(notes)) + if issued then old(notes)[i].grand else 0
    {
      if i >= |notes| || notes[i].issued {
        return false;
      }
      CreditedByIssue(notes, i);
      notes := notes[i := notes[i].(issued := true)];
      issued := true;
    }
  }
}
