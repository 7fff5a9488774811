/** What is owed on an invoice, and the tax and expense exposed on it: `src/lib/receivables.ts`. */
module Receivables {
  import opened Rounding
  import opened Totals

  function Max0(n: int): (m: int)
    ensures m >= 0 && m >= n && (m == 0 || m == n)
  {
    if n < 0 then 0 else n
  }

  function OutstandingOf(grand: int, paid: int, credited: int): int {
    Max0(grand - paid - credited)
  }

  function CreditableRemaining(grand: int, credited: int): int {
    Max0(grand - credited)
  }

  /** The share of an amount that the outstanding part of an invoice carries, at most the whole. */
  function Exposed(grand: int, amount: int, outstanding: int): int {
    if grand <= 0 then 0 else RoundDiv(amount * (if outstanding < grand then outstanding else grand), grand)
  }

  function TaxOnUncollected(grand: int, totalTax: int, outstanding: int): int {
    Exposed(grand, totalTax, outstanding)
  }

  function ExpenseOnUncollected(grand: int, taxable: int, outstanding: int): int {
    Exposed(grand, taxable, outstanding)
  }

  /** Nothing outstanding exposes nothing, everything outstanding exposes everything, and more never exposes less. */
  lemma ExposureRunsFromNothingToAll(grand: int, amount: int, less: int, more: int)
    requires grand > 0 && amount >= 0 && 0 <= less <= more
    ensures Exposed(grand, amount, 0) == 0
    ensures more >= grand ==> Exposed(grand, amount, more) == amount
    ensures 0 <= Exposed(grand, amount, less) <= Exposed(grand, amount, more) <= amount
  {
    hide RoundDiv;
    var a, b := if less < grand then less else grand, if more < grand then more else grand;
    assert amount * 0 == 0 && amount * grand == grand * amount && grand * 0 == 0;
    RoundDivExact(0, grand);
    RoundDivExact(amount, grand);
    MulMonotone(amount, 0, a);
    MulMonotone(amount, a, b);
    MulMonotone(amount, b, grand);
    RoundDivMonotone(amount * 0, amount * a, grand);
    RoundDivMonotone(amount * a, amount * b, grand);
    RoundDivMonotone(amount * b, amount * grand, grand);
  }

  /**
    The tax exposed is the tax's share of the invoice that is outstanding, and the expense the taxable value's, each
    to half a paisa; nothing is exposed on an invoice that came to nothing.
   */
  lemma SharesOfTheOutstanding(grand: int, tax: int, taxable: int, outstanding: int)
    ensures grand <= 0 ==>
      TaxOnUncollected(grand, tax, outstanding) == 0 && ExpenseOnUncollected(grand, taxable, outstanding) == 0
    ensures grand > 0 ==>
      var o := if outstanding < grand then outstanding else grand;
      && -grand < 2 * (grand * TaxOnUncollected(grand, tax, outstanding) - tax * o) <= grand
      && -grand < 2 * (grand * ExpenseOnUncollected(grand, taxable, outstanding) - taxable * o) <= grand
  {
    hide RoundDiv;
  }

  lemma MulMonotone(k: int, a: int, b: int)
    requires k >= 0 && a <= b
    ensures k * a <= k * b
  {
    assert k * (b - a) >= 0;
  }

  lemma SharesAddUp(g: int, o: int, tax: int, taxable: int, ro: int)
    requires tax + taxable + ro == g
    ensures tax * o + taxable * o + ro * o == g * o
  {
    assert (tax + taxable + ro) * o == tax * o + taxable * o + ro * o;
  }

  /** `p` and `q` are two shares of an outstanding amount, `x` and `y` their roundings. */
  lemma RoundedSharesAddUp(g: int, o: int, p: int, q: int, r: int, x: int, y: int)
    requires g > 0 && -g < 2 * (g * x - p) <= g && -g < 2 * (g * y - q) <= g
    requires p + q + r == g * o && -49 * g <= r <= 50 * g
    ensures -50 <= x + y - o <= 50
  {
    var d := x + y - o;
    assert g * d == g * x + g * y - g * o;
    assert -51 * g < g * d <= 50 * g;
    if d <= -51 {
      MulMonotone(g, d, -51);
    } else if d >= 51 {
      MulMonotone(g, 51, d);
    }
  }

  /**
    On an invoice as it was computed, the exposed tax and the exposed taxable value together are the
    outstanding amount to within half a rupee: only the invoice's own round-off and two roundings stand between them.
   */
  lemma ExposureAddsUp(lines: seq<Line>, head: TaxHead, outstanding: int)
    requires var t := ComputeTotals(lines, head); t.grand > 0 && 0 <= outstanding <= t.grand
    ensures var t := ComputeTotals(lines, head);
            var exposed := TaxOnUncollected(t.grand, t.tax, outstanding)
                         + ExpenseOnUncollected(t.grand, t.taxable, outstanding);
            -50 <= exposed - outstanding <= 50
  {
    TotalsFoot(lines, head);
    hide RoundDiv, ComputeTotals;
    var t := ComputeTotals(lines, head);
    var g, o := t.grand, outstanding;
    SharesAddUp(g, o, t.tax, t.taxable, t.roundOff);
    MulMonotone(o, -49, t.roundOff);
    MulMonotone(o, t.roundOff, 50);
    var tax, expense := RoundDiv(t.tax * o, g), RoundDiv(t.taxable * o, g);
    RoundedSharesAddUp(g, o, t.tax * o, t.taxable * o, t.roundOff * o, tax, expense);
  }

  /** Between nothing and the whole, what is owed, paid and credited add up; beyond, the floor hides a refund. */
  lemma OutstandingIsTheRest(grand: int, paid: int, credited: int)
    requires grand >= 0 && paid >= 0 && credited >= 0
    ensures OutstandingOf(grand, paid, credited) + paid + credited == grand <==> paid + credited <= grand
    ensures OutstandingOf(grand, paid, credited) <= CreditableRemaining(grand, credited) <= grand
    ensures OutstandingOf(grand, paid, credited) == CreditableRemaining(grand, credited + paid)
  {
  }
}
