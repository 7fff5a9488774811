/** Invoice totals in paise: `computeTotals` of `src/lib/tax.ts`. */
module Totals {
  import opened Wrappers
  import opened Rounding

  /** A line of whole units; the price is in paise and the rate in percent. */
  datatype Line = Line(qty: int, rate: int, percent: int)

  datatype TaxHead = CgstSgst | Igst

  datatype InvoiceTotals = InvoiceTotals(taxable: int, cgst: Option<int>, sgst: Option<int>, igst: Option<int>,
                                         tax: int, roundOff: int, grand: int)

  function Amount(l: Line): int {
    l.qty * l.rate
  }

  function LineTax(l: Line): int {
    RoundDiv(Amount(l) * l.percent, 100)
  }

  function Taxable(lines: seq<Line>): int {
    if lines == [] then 0 else Taxable(lines[..|lines| - 1]) + Amount(lines[|lines| - 1])
  }

  function Tax(lines: seq<Line>): int {
    if lines == [] then 0 else Tax(lines[..|lines| - 1]) + LineTax(lines[|lines| - 1])
  }

  function ComputeTotals(lines: seq<Line>, head: TaxHead): InvoiceTotals {
    var taxable, tax := Taxable(lines), Tax(lines);
    var cgst := if head == CgstSgst then Some(tax / 2) else None;
    var sgst := if head == CgstSgst then Some(tax - tax / 2) else None;
    var grand := RoundDiv(taxable + tax, 100) * 100;
    InvoiceTotals(taxable, cgst, sgst, if head == Igst then Some(tax) else None, tax, grand - (taxable + tax), grand)
  }

  /**
    Every invoice foots exactly to whole rupees, with a round-off within half a rupee that is never -50;
    the heads add up to the tax, and the halves differ by at most one paisa.
   */
  lemma TotalsFoot(lines: seq<Line>, head: TaxHead)
    ensures var t := ComputeTotals(lines, head);
            && t.taxable + t.tax + t.roundOff == t.grand && t.grand % 100 == 0 && -49 <= t.roundOff <= 50
            && (if head == CgstSgst
                then t.cgst.Some? && t.sgst.Some? && t.igst.None?
                  && t.cgst.value + t.sgst.value == t.tax && 0 <= t.sgst.value - t.cgst.value <= 1
                else t.cgst.None? && t.sgst.None? && t.igst == Some(t.tax))
  {
    hide RoundDiv;
  }

  lemma {:induction false} SumsOfConcat(a: seq<Line>, b: seq<Line>)
    ensures Taxable(a + b) == Taxable(a) + Taxable(b) && Tax(a + b) == Tax(a) + Tax(b)
  {
    hide Amount, LineTax;
    if b == [] {
      assert a + b == a;
    } else {
      assert (a + b)[..|a + b| - 1] == a + b[..|b| - 1];
      SumsOfConcat(a, b[..|b| - 1]);
    }
  }

  lemma SumsOfOne(x: Line)
    ensures Taxable([x]) == Amount(x) && Tax([x]) == LineTax(x)
  {
    assert [x][..0] == [];
  }

  lemma SumsAround(before: seq<Line>, x: Line, after: seq<Line>)
    ensures Taxable(before + ([x] + after)) == Taxable(before + after) + Amount(x)
    ensures Tax(before + ([x] + after)) == Tax(before + after) + LineTax(x)
  {
    hide Amount, LineTax;
    SumsOfOne(x);
    hide Taxable, Tax;
    SumsOfConcat(before, [x] + after);
    SumsOfConcat([x], after);
    SumsOfConcat(before, after);
  }

  lemma SumsWithout(a: seq<Line>, i: nat)
    requires i < |a|
    ensures Taxable(a) == Taxable(a[..i] + a[i + 1..]) + Amount(a[i])
    ensures Tax(a) == Tax(a[..i] + a[i + 1..]) + LineTax(a[i])
    ensures multiset(a) == multiset(a[..i] + a[i + 1..]) + multiset{a[i]}
  {
    hide Amount, LineTax, Taxable, Tax;
    var before, after := a[..i], a[i + 1..];
    assert a == before + ([a[i]] + after);
    SumsAround(before, a[i], after);
  }

  /** One line: quantity by price, and its tax to half a paisa, an exact half upwards. */
  lemma OneLine(l: Line, head: TaxHead)
    ensures var t := ComputeTotals([l], head);
            t.taxable == l.qty * l.rate && -100 < 2 * (100 * t.tax - l.qty * l.rate * l.percent) <= 100
  {
    SumsOfOne(l);
    TotalsAreSums([l], head);
    hide ComputeTotals, RoundDiv;
  }

  /** The lines of two documents together: their values and their taxes add up. */
  lemma TotalsOfBoth(a: seq<Line>, b: seq<Line>, head: TaxHead)
    ensures var both, x, y := ComputeTotals(a + b, head), ComputeTotals(a, head), ComputeTotals(b, head);
            both.taxable == x.taxable + y.taxable && both.tax == x.tax + y.tax
  {
    SumsOfConcat(a, b);
    TotalsAreSums(a, head);
    TotalsAreSums(b, head);
    TotalsAreSums(a + b, head);
    hide ComputeTotals;
  }

  /** No line takes anything away. */
  ghost predicate NonNegative(lines: seq<Line>) {
    forall i | 0 <= i < |lines| :: lines[i].qty >= 0 && lines[i].rate >= 0 && lines[i].percent >= 0
  }

  lemma LineNonNegative(l: Line)
    requires l.qty >= 0 && l.rate >= 0 && l.percent >= 0
    ensures Amount(l) >= 0 && LineTax(l) >= 0
  {
    assert Amount(l) * l.percent >= 0;
    RoundDivMonotone(0, Amount(l) * l.percent, 100);
  }

  lemma CancelOne(a: multiset<Line>, b: multiset<Line>, x: Line)
    requires a + multiset{x} <= b + multiset{x}
    ensures a <= b
  {
    forall e
      ensures a[e] <= b[e]
    {
      assert (a + multiset{x})[e] <= (b + multiset{x})[e];
    }
  }

  /** Lines taken from an invoice, in any order, never come to more than the invoice. */
  lemma {:induction false} PartIsNoMore(part: seq<Line>, lines: seq<Line>)
    requires multiset(part) <= multiset(lines) && NonNegative(lines)
    ensures Taxable(part) <= Taxable(lines) && Tax(part) <= Tax(lines)
    ensures |part| == |lines| ==> Taxable(part) == Taxable(lines) && Tax(part) == Tax(lines)
    decreases |lines|
  {
    hide Amount, LineTax;
    if part == [] {
      NoneIsLeast(lines);
    } else {
      var l := |part| - 1;
      var rest := part[..l];
      assert part == rest + [part[l]];
      assert part[l] in multiset(lines);
      var i :| 0 <= i < |lines| && lines[i] == part[l];
      SumsWithout(lines, i);
      assert multiset(part) == multiset(rest) + multiset{part[l]};
      CancelOne(multiset(rest), multiset(lines[..i] + lines[i + 1..]), part[l]);
      PartIsNoMore(rest, lines[..i] + lines[i + 1..]);
    }
  }

  lemma {:induction false} NoneIsLeast(lines: seq<Line>)
    requires NonNegative(lines)
    ensures Taxable(lines) >= 0 && Tax(lines) >= 0
  {
    hide Amount, LineTax;
    if lines != [] {
      NoneIsLeast(lines[..|lines| - 1]);
      LineNonNegative(lines[|lines| - 1]);
    }
  }

  lemma PartNonNegative(part: seq<Line>, lines: seq<Line>)
    requires multiset(part) <= multiset(lines) && NonNegative(lines)
    ensures NonNegative(part)
  {
    forall i | 0 <= i < |part|
      ensures part[i].qty >= 0 && part[i].rate >= 0 && part[i].percent >= 0
    {
      assert part[i] in multiset(part);
      assert part[i] in multiset(lines);
    }
  }

  /** So a part of the lines never has a larger total, and all of them in any order have the same one. */
  lemma PartTotalsNoMore(part: seq<Line>, lines: seq<Line>, head: TaxHead)
    requires multiset(part) <= multiset(lines) && NonNegative(lines)
    ensures 0 <= ComputeTotals(part, head).grand <= ComputeTotals(lines, head).grand
    ensures |part| == |lines| ==> ComputeTotals(part, head) == ComputeTotals(lines, head)
  {
    hide Taxable, Tax, NonNegative;
    PartNonNegative(part, lines);
    PartIsNoMore(part, lines);
    NoneIsLeast(part);
    RoundDivMonotone(Taxable(part) + Tax(part), Taxable(lines) + Tax(lines), 100);
    RoundDivMonotone(0, Taxable(part) + Tax(part), 100);
  }

  function Joined(parts: seq<seq<Line>>): seq<Line> {
    if parts == [] then [] else Joined(parts[..|parts| - 1]) + parts[|parts| - 1]
  }

  /** The sums over several documents. */
  function SumTaxable(parts: seq<seq<Line>>): int {
    if parts == [] then 0 else SumTaxable(parts[..|parts| - 1]) + Taxable(parts[|parts| - 1])
  }

  function SumTax(parts: seq<seq<Line>>): int {
    if parts == [] then 0 else SumTax(parts[..|parts| - 1]) + Tax(parts[|parts| - 1])
  }

  function SumGrand(parts: seq<seq<Line>>, head: TaxHead): int {
    if parts == [] then 0 else SumGrand(parts[..|parts| - 1], head) + ComputeTotals(parts[|parts| - 1], head).grand
  }

  function SumRoundOff(parts: seq<seq<Line>>, head: TaxHead): int {
    if parts == [] then 0
    else SumRoundOff(parts[..|parts| - 1], head) + ComputeTotals(parts[|parts| - 1], head).roundOff
  }

  lemma {:induction false} SumsFoot(parts: seq<seq<Line>>, head: TaxHead)
    ensures SumTaxable(parts) + SumTax(parts) + SumRoundOff(parts, head) == SumGrand(parts, head)
  {
    hide ComputeTotals, Taxable, Tax;
    if parts != [] {
      SumsFoot(parts[..|parts| - 1], head);
      TotalsFoot(parts[|parts| - 1], head);
      TotalsAreSums(parts[|parts| - 1], head);
    }
  }

  lemma {:induction false} SumsOfParts(parts: seq<seq<Line>>, head: TaxHead)
    ensures SumTaxable(parts) == Taxable(Joined(parts)) && SumTax(parts) == Tax(Joined(parts))
    ensures -49 * |parts| <= SumGrand(parts, head) - SumTaxable(parts) - SumTax(parts) <= 50 * |parts|
  {
    hide Amount, LineTax, ComputeTotals;
    if parts != [] {
      var before, last := parts[..|parts| - 1], parts[|parts| - 1];
      SumsOfParts(before, head);
      SumsOfConcat(Joined(before), last);
      TotalsFoot(last, head);
      assert ComputeTotals(last, head).taxable == Taxable(last) && ComputeTotals(last, head).tax == Tax(last) by {
        TotalsAreSums(last, head);
      }
    }
  }

  lemma TotalsAreSums(lines: seq<Line>, head: TaxHead)
    ensures ComputeTotals(lines, head).taxable == Taxable(lines) && ComputeTotals(lines, head).tax == Tax(lines)
  {
  }

  /**
    An invoice's lines spread over several notes, in any order: taxable value and tax are kept to the
    paisa, and only the rounding to rupees can tell, by less than 50 paise for each document.
   */
  lemma SplittingKeepsValueAndTax(lines: seq<Line>, parts: seq<seq<Line>>, head: TaxHead)
    requires multiset(Joined(parts)) == multiset(lines) && NonNegative(lines)
    ensures var t := ComputeTotals(lines, head);
            && SumTaxable(parts) == t.taxable && SumTax(parts) == t.tax
            && -49 * |parts| - 50 <= SumGrand(parts, head) - t.grand <= 50 * |parts| + 49
  {
    SumsOfParts(parts, head);
    assert |Joined(parts)| == |multiset(Joined(parts))| == |multiset(lines)| == |lines|;
    PartIsNoMore(Joined(parts), lines);
    TotalsFoot(lines, head);
    TotalsAreSums(lines, head);
    hide ComputeTotals;
  }

  /** Every line is taxed at this rate. */
  ghost predicate AtOneRate(lines: seq<Line>, percent: int) {
    forall i | 0 <= i < |lines| :: lines[i].percent == percent
  }

  lemma {:induction false} LineErrorsAddUp(lines: seq<Line>, percent: int)
    requires AtOneRate(lines, percent)
    ensures -49 * |lines| <= 100 * Tax(lines) - Taxable(lines) * percent <= 50 * |lines|
  {
    if lines != [] {
      var l := |lines| - 1;
      LineErrorsAddUp(lines[..l], percent);
      assert Taxable(lines) * percent == Taxable(lines[..l]) * percent + Amount(lines[l]) * lines[l].percent;
      hide RoundDiv, Amount;
    }
  }

  /** Tax by line is not tax on the sum, but at one rate it is within half a paisa of it for each line. */
  lemma TaxByLineIsNearTaxOnTheSum(lines: seq<Line>, percent: int)
    requires AtOneRate(lines, percent)
    ensures -|lines| <= 2 * (Tax(lines) - RoundDiv(Taxable(lines) * percent, 100)) <= |lines|
  {
    LineErrorsAddUp(lines, percent);
    hide RoundDiv, Tax, Taxable;
  }

  /** Lines of half a rupee taxed at one percent: half a paisa each. */
  function HalfPaisas(n: nat): seq<Line> {
    if n == 0 then [] else HalfPaisas(n - 1) + [Line(1, 50, 1)]
  }

  /** That bound is reached, for every number of lines. */
  lemma {:induction false} HalfAPaisaALineIsReached(n: nat)
    ensures |HalfPaisas(n)| == n && Tax(HalfPaisas(n)) == n && Taxable(HalfPaisas(n)) == 50 * n
    ensures Tax(HalfPaisas(n)) - RoundDiv(Taxable(HalfPaisas(n)), 100) == n / 2
  {
    if n > 0 {
      HalfAPaisaALineIsReached(n - 1);
      assert HalfPaisas(n)[..n - 1] == HalfPaisas(n - 1);
      assert LineTax(Line(1, 50, 1)) == 1;
    }
  }
}
