/** Tax inside a receipt: `advanceTax` and `unadjustedTaxPaise` of `src/lib/advances.ts`. */
module Advances {
  import opened Wrappers
  import opened Rounding
  import opened Totals

  datatype AdvanceTaxes = AdvanceTaxes(taxable: int, tax: int, cgst: Option<int>, sgst: Option<int>, igst: Option<int>)

  function AdvanceTax(receipt: int, percent: nat, head: TaxHead): AdvanceTaxes {
    var taxable := RoundDiv(receipt * 100, 100 + percent);
    var tax := receipt - taxable;
    if head == Igst then AdvanceTaxes(taxable, tax, None, None, Some(tax))
    else AdvanceTaxes(taxable, tax, Some(RoundDiv(tax, 2)), Some(tax - RoundDiv(tax, 2)), None)
  }

  /** Half-up tax on a value. */
  function TaxOn(value: int, percent: nat): int {
    RoundDiv(value * percent, 100)
  }

  /** The parts always add up to the receipt, and of the halves CGST has the odd paisa. */
  lemma PartsAddUp(receipt: int, percent: nat, head: TaxHead)
    ensures var t := AdvanceTax(receipt, percent, head);
            && t.taxable + t.tax == receipt
            && (if head == CgstSgst
                then t.cgst.Some? && t.sgst.Some? && t.igst.None?
                  && t.cgst.value + t.sgst.value == t.tax && 0 <= t.cgst.value - t.sgst.value <= 1
                else t.cgst.None? && t.sgst.None? && t.igst == Some(t.tax))
  {
    hide RoundDiv;
  }

  /**
    Taking the tax out undoes putting it on: the receipt for a value and its half-up tax gives back that
    value and that tax, for every value and every rate.
   */
  lemma BackCalculationUndoesGrossing(value: int, percent: nat, head: TaxHead)
    ensures AdvanceTax(value + TaxOn(value, percent), percent, head).taxable == value
    ensures AdvanceTax(value + TaxOn(value, percent), percent, head).tax == TaxOn(value, percent)
  {
    hide RoundDiv;
    var tax := TaxOn(value, percent);
    assert -100 < 2 * (100 * tax - value * percent) <= 100;
    assert (100 + percent) * value - (value + tax) * 100 == value * percent - 100 * tax;
    // half a rupee of rounding is less than half a divisor, and an exact half at no tax cannot be
    if percent == 0 {
      assert 100 * tax - value * percent == 100 * tax;
      RoundDivUnique((value + tax) * 100, 100 + percent, value);
    } else {
      RoundDivUnique((value + tax) * 100, 100 + percent, value);
    }
  }

  /** On a line of an invoice this is the line's own tax. */
  lemma LineComesBack(l: Line, head: TaxHead)
    requires l.percent >= 0
    ensures AdvanceTax(Amount(l) + LineTax(l), l.percent, head).taxable == Amount(l)
    ensures AdvanceTax(Amount(l) + LineTax(l), l.percent, head).tax == LineTax(l)
  {
    BackCalculationUndoesGrossing(Amount(l), l.percent, head);
  }

  /** How far taxing the recovered value again is from the tax taken. */
  function Miss(receipt: int, percent: nat, head: TaxHead): int {
    var t := AdvanceTax(receipt, percent, head);
    TaxOn(t.taxable, percent) - t.tax
  }

  lemma WithinAPaisa(receipt: int, percent: nat, head: TaxHead)
    requires percent <= 200
    ensures -1 <= Miss(receipt, percent, head) <= 1
  {
    hide RoundDiv;
    var value := RoundDiv(receipt * 100, 100 + percent);
    var tax, again := receipt - value, TaxOn(value, percent);
    assert -(100 + percent) < 2 * ((100 + percent) * value - receipt * 100) <= 100 + percent;
    assert -100 < 2 * (100 * again - value * percent) <= 100;
    assert (100 + percent) * value - receipt * 100 == value * percent - 100 * tax;
    assert -(200 + percent) < 2 * (100 * (again - tax)) <= 200 + percent;
    // at 200 percent both would have to be rounded from an exact half, and the value never is
    assert percent == 200 ==> 2 * ((100 + percent) * value - receipt * 100) == 200 * (3 * value - receipt);
  }

  /** For rates that are a multiple of four: a value whose tax is just over half a paisa short of a whole one. */
  function Telling(k: nat): (v: nat)
    requires k < 25
    ensures v > 0 && 4 * k * v % 100 == if k == 0 then 0 else if k % 5 == 0 then 60 else 52
  {
    [1, 13, 19, 21, 22, 3, 23, 9, 11, 7, 4, 8, 24, 1, 17, 1, 18, 14, 16, 2, 2, 3, 4, 6, 12][k]
  }

  lemma HundredsDropOut(a: int, c: int, v: int)
    ensures (100 * a + c) * v % 100 == c * v % 100
  {
    assert (100 * a + c) * v == 100 * (a * v) + c * v;
  }

  /** Above 200 percent some value is taxed with a rounding that the receipt's own rounding makes up to two paise. */
  lemma TellingValue(percent: nat) returns (v: nat, short: nat)
    requires percent > 200
    ensures v > 0 && short <= 50 && (percent * v + short) % 100 == 0 && 2 * (200 - short) <= 100 + percent
  {
    if percent % 2 == 1 {
      v, short := 50, 50;
      assert percent * 50 + 50 == 100 * (percent / 2 + 1);
    } else if percent % 4 == 2 {
      v, short := 25, 50;
      assert percent * 25 + 50 == 100 * (percent / 4 + 1);
    } else {
      v, short := TellingMultiple(percent / 4);
      assert percent == 4 * (percent / 4);
    }
  }

  lemma TellingMultiple(quarter: nat) returns (v: nat, short: nat)
    requires quarter > 50
    ensures v > 0 && short <= 50 && (4 * quarter * v + short) % 100 == 0 && 2 * (200 - short) <= 100 + 4 * quarter
  {
    var a, k := quarter / 25, quarter % 25;
    assert quarter == 25 * a + k;
    v := Telling(k);
    short := if k == 0 then 0 else if k % 5 == 0 then 40 else 48;
    HundredsDropOut(a, 4 * k, v);
    assert 4 * quarter == 100 * a + 4 * k;
    hide Telling;
    SumIsWhole((100 * a + 4 * k) * v, short);
    FurtherUp(quarter);
  }

  lemma SumIsWhole(n: int, short: int)
    requires n % 100 == 0 == short || (n % 100 == 60 && short == 40) || (n % 100 == 52 && short == 48)
    ensures (n + short) % 100 == 0
  {
  }

  lemma FurtherUp(quarter: nat)
    requires quarter > 50
    ensures quarter % 5 == 0 ==> quarter >= 55
    ensures quarter % 25 == 0 ==> quarter >= 75
    ensures quarter % 25 % 5 == quarter % 5
  {
  }

  lemma TwoPaiseOff(percent: nat, head: TaxHead) returns (receipt: nat)
    requires percent > 200
    ensures receipt > 0 && Miss(receipt, percent, head) == 2
  {
    var v, short := TellingValue(percent);
    var again := (percent * v + short) / 100;
    receipt := v + again - 2;
    assert (100 + percent) * v - receipt * 100 == 200 - short;
    RoundDivUnique(receipt * 100, 100 + percent, v);
    RoundDivUnique(v * percent, 100, again);
    hide RoundDiv;
    assert percent * v > 200;
  }

  /** Taxing the recovered value again is within a paisa of the tax for every receipt, exactly up to 200 percent. */
  lemma RetaxingIsWithinAPaisaExactly(percent: nat, head: TaxHead)
    ensures percent <= 200 <==> forall receipt | receipt > 0 :: -1 <= Miss(receipt, percent, head) <= 1
    ensures percent <= 200 ==> forall receipt :: -1 <= Miss(receipt, percent, head) <= 1
  {
    hide Miss;
    if percent <= 200 {
      forall receipt
        ensures -1 <= Miss(receipt, percent, head) <= 1
      {
        WithinAPaisa(receipt, percent, head);
      }
    } else {
      var receipt := TwoPaiseOff(percent, head);
    }
  }

  datatype Advance = Advance(receipt: int, percent: nat, head: TaxHead, open: bool)

  /** `unadjustedTaxPaise`, added in the order of the list. */
  function UnadjustedTax(advances: seq<Advance>): int {
    if advances == [] then 0
    else
      var a := advances[|advances| - 1];
      UnadjustedTax(advances[..|advances| - 1]) + if a.open then AdvanceTax(a.receipt, a.percent, a.head).tax else 0
  }

  lemma {:induction false} UnadjustedWithout(a: seq<Advance>, i: nat)
    requires i < |a|
    ensures UnadjustedTax(a) == UnadjustedTax(a[..i] + a[i + 1..]) + UnadjustedTax([a[i]])
    ensures multiset(a) == multiset(a[..i] + a[i + 1..]) + multiset{a[i]}
  {
    hide AdvanceTax;
    var l := |a| - 1;
    assert a == a[..i] + [a[i]] + a[i + 1..];
    assert [a[l]][..0] == [];
    if i < l {
      UnadjustedWithout(a[..l], i);
      assert (a[..i] + a[i + 1..])[..l - 1] == a[..l][..i] + a[..l][i + 1..];
    } else {
      assert a[..i] + a[i + 1..] == a[..l];
    }
  }

  /** The order of the list, and so the sort before the sum, makes no difference. */
  lemma {:induction false} OrderMakesNoDifference(a: seq<Advance>, b: seq<Advance>)
    requires multiset(a) == multiset(b)
    ensures UnadjustedTax(a) == UnadjustedTax(b)
    decreases |a|
  {
    hide AdvanceTax;
    if a == [] {
      assert |multiset(b)| == 0;
    } else {
      var l := |a| - 1;
      assert a[l] in multiset(b);
      var i :| 0 <= i < |b| && b[i] == a[l];
      UnadjustedWithout(a, l);
      UnadjustedWithout(b, i);
      var x, y := a[..l] + a[l + 1..], b[..i] + b[i + 1..];
      assert multiset(x) == (multiset(x) + multiset{a[l]}) - multiset{a[l]};
      assert multiset(y) == (multiset(y) + multiset{a[l]}) - multiset{a[l]};
      OrderMakesNoDifference(x, y);
    }
  }

  /** `adjustAdvance` on the voucher at `i`; a closed one is left as it is. */
  function Adjust(advances: seq<Advance>, i: nat): seq<Advance>
    requires i < |advances|
  {
    advances[i := advances[i].(open := false)]
  }

  /** Adjusting takes exactly that voucher's tax off what is unadjusted, and a second time nothing. */
  lemma {:induction false} AdjustingTakesItsTaxOnce(advances: seq<Advance>, i: nat)
    requires i < |advances|
    ensures UnadjustedTax(Adjust(advances, i)) == UnadjustedTax(advances)
              - if advances[i].open then AdvanceTax(advances[i].receipt, advances[i].percent, advances[i].head).tax
                else 0
    ensures Adjust(Adjust(advances, i), i) == Adjust(advances, i)
  {
    hide AdvanceTax;
    var l := |advances| - 1;
    if i < l {
      AdjustingTakesItsTaxOnce(advances[..l], i);
      assert Adjust(advances, i)[..l] == Adjust(advances[..l], i);
    } else {
      assert Adjust(advances, i)[..l] == advances[..l];
    }
  }
}
