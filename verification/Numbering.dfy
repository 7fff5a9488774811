/**
  Document numbers and the search for missing ones: `src/lib/series.ts` and the `/numbering` handler of
  `src/routes/settings.ts`.
 */
module Numbering {
  import opened Wrappers
  import opened Calendar
  import opened Decimal

  datatype DocType = JobDoc | InvoiceDoc | ReceiptVoucher | LeadDoc | CreditNoteDoc

  function FinancialYear(on: Date): int {
    if on.m >= 4 then on.y else on.y - 1
  }

  /** A financial year is the days from 1 April to the next 31 March, and nothing else. */
  lemma FinancialYearIsAprilToMarch(on: Date, year: int)
    requires Valid(on)
    ensures FinancialYear(on) == year <==> ToDay(Date(year, 4, 1)) <= ToDay(on) < ToDay(Date(year + 1, 4, 1))
  {
    OrderIsDayOrder(Date(year, 4, 1), on);
    OrderIsDayOrder(on, Date(year + 1, 4, 1));
  }

  /** `String(n)` of an integer. */
  function Text(n: int): string {
    if n < 0 then "-" + Digits(-n) else Digits(n)
  }

  /** `s.slice(2)`. */
  function FromTwo(s: string): string {
    if |s| < 2 then "" else s[2..]
  }

  function FyLabel(year: int): string {
    FromTwo(Text(year)) + "-" + FromTwo(Text(year + 1))
  }

  /** In years of four digits the label is the last two digits of the year, a dash, and those of the next. */
  lemma LabelNamesTheYear(year: int)
    requires 1000 <= year < 9999
    ensures var l := FyLabel(year);
            && |l| == 5 && l[2] == '-' && AllDigits(l[..2]) && AllDigits(l[3..])
            && Value(l[..2]) == year % 100 && Value(l[3..]) == (year + 1) % 100
  {
    LastTwo(year);
    LastTwo(year + 1);
    hide Digits, Value;
    var l := FyLabel(year);
    assert l[..2] == FromTwo(Text(year)) && l[3..] == FromTwo(Text(year + 1));
  }

  lemma LastTwo(n: int)
    requires 1000 <= n <= 9999
    ensures |FromTwo(Text(n))| == 2 && AllDigits(FromTwo(Text(n))) && Value(FromTwo(Text(n))) == n % 100
  {
    var a, b := DigitChar(n / 10 % 10), DigitChar(n % 10);
    assert Digits(n / 1000) == [DigitChar(n / 1000)];
    assert Digits(n / 100) == Digits(n / 1000) + [DigitChar(n / 100 % 10)];
    assert Digits(n / 10) == Digits(n / 100) + [a] && Digits(n) == Digits(n / 10) + [b];
    assert FromTwo(Text(n)) == [a, b] && [a, b][..1] == [a] && [a][..0] == [];
    assert Value([a]) == n / 10 % 10;
  }

  /** What a number shows before its sequence: a job prefix, year and month; a bill its prefix and financial year. */
  lemma NumbersInWords(doc: DocType, prefix: string, sequence: nat, on: Date)
    requires Valid(on) && 1001 <= on.y < 9999
    ensures var n := FormatNumber(doc, prefix, sequence, on);
            var shown := n[..|n| - |Padded(sequence, 4)|];
            var fy := if Before(on, Date(on.y, 4, 1)) then on.y - 1 else on.y;
            match doc
            case JobDoc => shown == prefix + "-" + FromTwo(Text(on.y)) + Padded(on.m, 2) + "-"
            case InvoiceDoc => shown == prefix + "/" + FyLabel(fy) + "/"
            case _ => shown == "RV/" + FyLabel(fy) + "/"
  {
    hide Padded, FyLabel, Text;
  }

  /** Everything up to the sequence, down to the character before it. */
  function Stem(doc: DocType, prefix: string, on: Date): string
    requires Valid(on)
  {
    if doc == JobDoc then prefix + "-" + FromTwo(Text(on.y)) + Padded(on.m, 2) + "-"
    else if doc == InvoiceDoc then prefix + "/" + FyLabel(FinancialYear(on)) + "/"
    else "RV/" + FyLabel(FinancialYear(on)) + "/"
  }

  function FormatNumber(doc: DocType, prefix: string, sequence: nat, on: Date): string
    requires Valid(on)
  {
    Stem(doc, prefix, on) + Padded(sequence, 4)
  }

  /** What `\s` matches. */
  predicate IsSpace(c: char) {
    var n := c as int;
    9 <= n <= 13 || n == 32 || n == 160 || n == 0x1680 || 0x2000 <= n <= 0x200A
    || n == 0x2028 || n == 0x2029 || n == 0x202F || n == 0x205F || n == 0x3000 || n == 0xFEFF
  }

  /** The white space and line ends of section 12 of ECMA-262. */
  lemma SpacesAre(c: char)
    ensures IsSpace(c) <==>
      || c as int in {0x09, 0x0B, 0x0C, 0xFEFF} || c as int in {0x0A, 0x0D, 0x2028, 0x2029}
      || c as int in {0x20, 0xA0, 0x1680, 0x2000, 0x2001, 0x2002, 0x2003, 0x2004, 0x2005, 0x2006, 0x2007, 0x2008}
      || c as int in {0x2009, 0x200A, 0x202F, 0x205F, 0x3000}
  {
  }

  ghost predicate AllSpace(s: string) {
    forall i :: 0 <= i < |s| ==> IsSpace(s[i])
  }

  function TrimEnd(s: string): (t: string)
    ensures |t| <= |s|
  {
    if s == "" || !IsSpace(s[|s| - 1]) then s else TrimEnd(s[..|s| - 1])
  }

  /** The longest run of digits that ends the string. */
  function TrailingDigits(s: string): (d: string)
    ensures |d| <= |s| && AllDigits(d)
  {
    if s == "" || !IsDigit(s[|s| - 1]) then "" else TrailingDigits(s[..|s| - 1]) + [s[|s| - 1]]
  }

  /** What is trimmed off is space, and what is left does not end in any. */
  lemma {:induction false} TrimEndIs(s: string)
    ensures var t := TrimEnd(s); s == t + s[|t|..] && AllSpace(s[|t|..]) && (t == "" || !IsSpace(t[|t| - 1]))
  {
    var t := TrimEnd(s);
    if s == "" || !IsSpace(s[|s| - 1]) {
      assert s[|t|..] == "";
    } else {
      var l := |s| - 1;
      assert t == TrimEnd(s[..l]);
      hide TrimEnd, IsSpace;
      TrimEndIs(s[..l]);
      assert s[|t|..] == s[..l][|t|..] + [s[l]] && s == s[..l] + [s[l]];
    }
  }

  /** The digits are a suffix, and no digit comes before them. */
  lemma {:induction false} TrailingDigitsAre(s: string)
    ensures var n := |s| - |TrailingDigits(s)|;
            s == s[..n] + TrailingDigits(s) && (n == 0 || !IsDigit(s[n - 1]))
  {
    if s == "" || !IsDigit(s[|s| - 1]) {
      assert s[..|s|] == s;
    } else {
      var l := |s| - 1;
      TrailingDigitsAre(s[..l]);
      assert s == s[..l] + [s[l]];
    }
  }

  /** `sequenceOf`: the first match of `/(\d+)\s*$/`. */
  function SequenceOf(value: string): Option<nat> {
    var d := TrailingDigits(TrimEnd(value));
    if d == "" then None else Some(Value(d))
  }

  /** `(\d+)\s*$` matches the parts after `before`, and no digit comes just before them. */
  ghost predicate FirstMatch(before: string, digits: string, spaces: string) {
    && digits != "" && AllDigits(digits) && AllSpace(spaces)
    && (before == "" || !IsDigit(before[|before| - 1]))
  }

  lemma {:induction false} TrimEndStops(body: string, spaces: string)
    requires AllSpace(spaces) && body != "" && !IsSpace(body[|body| - 1])
    ensures TrimEnd(body + spaces) == body
  {
    var s := body + spaces;
    if spaces == "" {
      assert s == body;
    } else {
      assert s[..|s| - 1] == body + spaces[..|spaces| - 1];
      TrimEndStops(body, spaces[..|spaces| - 1]);
    }
  }

  /** One more digit at the end. */
  lemma OneMoreDigit(s: string, c: char)
    requires IsDigit(c)
    ensures TrailingDigits(s + [c]) == TrailingDigits(s) + [c]
  {
    assert (s + [c])[..|s|] == s;
  }

  lemma NoTrailingDigits(s: string)
    requires s == "" || !IsDigit(s[|s| - 1])
    ensures TrailingDigits(s) == ""
  {
  }

  lemma {:induction false} TrailingDigitsStop(before: string, digits: string)
    requires AllDigits(digits) && (before == "" || !IsDigit(before[|before| - 1]))
    ensures TrailingDigits(before + digits) == digits
  {
    hide IsDigit, TrailingDigits;
    if digits == "" {
      assert before + digits == before;
      NoTrailingDigits(before);
    } else {
      var l := |digits| - 1;
      TrailingDigitsStop(before, digits[..l]);
      OneMoreDigit(before + digits[..l], digits[l]);
      assert before + digits[..l] + [digits[l]] == before + digits;
    }
  }

  /** The sequence is read wherever the regular expression first matches. */
  lemma SequenceOfIsTheMatch(before: string, digits: string, spaces: string)
    requires FirstMatch(before, digits, spaces)
    ensures SequenceOf(before + digits + spaces) == Some(Value(digits))
  {
    TrimEndStops(before + digits, spaces);
    TrailingDigitsStop(before, digits);
  }

  /** And nowhere else: a sequence that is read comes from such a match. */
  lemma SequenceOfNeedsAMatch(value: string)
    requires SequenceOf(value).Some?
    ensures var t := TrimEnd(value);
            var d := TrailingDigits(t);
            var before := t[..|t| - |d|];
            && FirstMatch(before, d, value[|t|..]) && before + d + value[|t|..] == value
            && SequenceOf(value) == Some(Value(d))
  {
    TrimEndIs(value);
    TrailingDigitsAre(TrimEnd(value));
    hide TrimEnd, TrailingDigits, AllDigits, AllSpace, IsSpace, Value;
  }

  /** Printing and reading back gives the sequence, beyond four digits too, whatever the prefix. */
  lemma PrintedNumberReadsBack(doc: DocType, prefix: string, sequence: nat, on: Date)
    requires Valid(on)
    ensures SequenceOf(FormatNumber(doc, prefix, sequence, on)) == Some(sequence)
  {
    hide Digits, Padded, FyLabel, Text, FromTwo;
    var before, digits := Stem(doc, prefix, on), Padded(sequence, 4);
    assert before[|before| - 1] == (if doc == JobDoc then '-' else '/');
    SequenceOfIsTheMatch(before, digits, "");
    assert before + digits + "" == FormatNumber(doc, prefix, sequence, on);
    ValueOfPadded(sequence, 4);
  }

  /** So two numbers printed alike carry one sequence, whatever their prefixes. */
  lemma PrintedNumbersDiffer(doc: DocType, p: string, a: nat, on: Date, q: string, b: nat, also: Date)
    requires Valid(on) && Valid(also) && FormatNumber(doc, p, a, on) == FormatNumber(doc, q, b, also)
    ensures a == b
  {
    PrintedNumberReadsBack(doc, p, a, on);
    PrintedNumberReadsBack(doc, q, b, also);
  }

  /** A document as the register lists it. */
  datatype Row = Row(number: Option<string>, branch: Option<nat>)

  /** The sequences of one branch among the rows, in order. */
  function SequencesOf(rows: seq<Row>, branch: nat): seq<nat> {
    if rows == [] then []
    else
      var row, before := rows[|rows| - 1], SequencesOf(rows[..|rows| - 1], branch);
      if row.branch == Some(branch) && row.number.Some? && SequenceOf(row.number.value).Some?
      then before + [SequenceOf(row.number.value).value] else before
  }

  function Found<K>(issued: map<K, seq<nat>>, key: K): seq<nat> {
    if key in issued then issued[key] else []
  }

  /** What `collect` has added after some rows. */
  ghost predicate Collected(doc: DocType, rows: seq<Row>, issued: map<(nat, DocType), seq<nat>>,
                            all: map<(nat, DocType), seq<nat>>) {
    forall branch, d ::
      Found(all, (branch, d)) == Found(issued, (branch, d)) + if d == doc then SequencesOf(rows, branch) else []
  }

  lemma CollectOne(doc: DocType, rows: seq<Row>, row: Row, issued: map<(nat, DocType), seq<nat>>,
                   all: map<(nat, DocType), seq<nat>>)
    requires Collected(doc, rows, issued, all) && row.branch.Some? && row.number.Some?
    requires SequenceOf(row.number.value).Some?
    ensures var key := (row.branch.value, doc);
            Collected(doc, rows + [row], issued, all[key := Found(all, key) + [SequenceOf(row.number.value).value]])
  {
    hide SequenceOf;
    assert (rows + [row])[..|rows|] == rows;
  }

  lemma CollectNone(doc: DocType, rows: seq<Row>, row: Row, issued: map<(nat, DocType), seq<nat>>,
                    all: map<(nat, DocType), seq<nat>>)
    requires Collected(doc, rows, issued, all)
    requires (row.branch.None? || row.number.None? || SequenceOf(row.number.value).None?)
    ensures Collected(doc, rows + [row], issued, all)
  {
    hide SequenceOf;
    assert (rows + [row])[..|rows|] == rows;
  }

  /** `collect`: every numbered row of a known branch lands under its branch and type, and nothing else moves. */
  method Collect(doc: DocType, rows: seq<Row>, issued: map<(nat, DocType), seq<nat>>)
    returns (all: map<(nat, DocType), seq<nat>>)
    ensures Collected(doc, rows, issued, all)
  {
    hide SequenceOf;
    all := issued;
    assert Collected(doc, rows[..0], issued, all);
    for k := 0 to |rows|
      invariant Collected(doc, rows[..k], issued, all)
    {
      hide Collected;
      var row := rows[k];
      assert rows[..k + 1] == rows[..k] + [row];
      var n := if row.number.Some? then SequenceOf(row.number.value) else None;
      if n.None? || row.branch.None? {
        CollectNone(doc, rows[..k], row, issued, all);
        continue;
      }
      CollectOne(doc, rows[..k], row, issued, all);
      var key := (row.branch.value, doc);
      all := all[key := Found(all, key) + [n.value]];
    }
    assert rows[..|rows|] == rows;
  }

  ghost predicate Ascending(s: seq<nat>) {
    forall i, j | 0 <= i < j < |s| :: s[i] < s[j]
  }

  /** The numbers that count: not beyond the counter. */
  function PresentUpTo(numbers: seq<nat>, last: nat): set<nat> {
    set n | n in numbers && n <= last
  }

  /** Missing between the smallest number present and the counter. */
  ghost predicate IsGap(numbers: seq<nat>, last: nat, n: nat) {
    n <= last && n !in numbers && exists m :: m in numbers && m <= n
  }

  /** `present` and its smallest element, or the number after the counter when there is none. */
  method PresentAndSmallest(numbers: seq<nat>, last: nat) returns (seen: set<nat>, from: nat)
    ensures seen == PresentUpTo(numbers, last)
    ensures if seen == {} then from == last + 1 else from in seen && forall n | n in seen :: from <= n
  {
    seen, from := {}, last + 1;
    for k := 0 to |numbers|
      invariant seen == PresentUpTo(numbers[..k], last)
      invariant if seen == {} then from == last + 1 else from in seen && forall n | n in seen :: from <= n
    {
      assert numbers[..k + 1] == numbers[..k] + [numbers[k]];
      if numbers[k] <= last {
        seen := seen + {numbers[k]};
        from := if numbers[k] < from then numbers[k] else from;
      }
    }
    assert numbers[..|numbers|] == numbers;
  }

  lemma GapsMean(numbers: seq<nat>, last: nat, gaps: seq<nat>, seen: set<nat>, from: nat)
    requires seen == PresentUpTo(numbers, last)
    requires if seen == {} then from == last + 1 else from in seen && forall n | n in seen :: from <= n
    requires (forall n :: n in gaps <==> from <= n <= last && n !in seen) && |gaps| + |seen| == last + 1 - from
    ensures forall n :: n in gaps <==> IsGap(numbers, last, n)
    ensures forall low | low in numbers && low <= last && (forall m | m in numbers :: low <= m) ::
              |gaps| + |PresentUpTo(numbers, last)| == last - low + 1
    ensures (forall m | m in numbers :: m > last) ==> gaps == []
  {
    assert forall low | low in numbers && low <= last :: low in seen;
    assert gaps != [] ==> gaps[0] in gaps && from in seen;
  }

  /**
    The gaps are in ascending order exactly the missing numbers, and gaps and distinct numbers present
    together make up the whole span from the smallest to the counter.
   */
  method Gaps(numbers: seq<nat>, last: nat) returns (gaps: seq<nat>)
    ensures forall n :: n in gaps <==> IsGap(numbers, last, n)
    ensures Ascending(gaps)
    ensures forall from | from in numbers && from <= last && (forall m | m in numbers :: from <= m) ::
              |gaps| + |PresentUpTo(numbers, last)| == last - from + 1
    ensures (forall m | m in numbers :: m > last) ==> gaps == []
  {
    var seen, from := PresentAndSmallest(numbers, last);
    gaps := [];
    ghost var passed: set<nat> := {};
    var n := from;
    while n <= last
      invariant from <= n <= last + 1
      invariant forall m :: m in gaps <==> from <= m < n && m !in seen
      invariant Ascending(gaps)
      invariant passed == set m | m in seen && m < n
      invariant |gaps| + |passed| == n - from
    {
      if n !in seen {
        assert forall i | 0 <= i < |gaps| :: gaps[i] in gaps;
        gaps := gaps + [n];
      } else {
        passed := passed + {n};
      }
      n := n + 1;
    }
    assert passed == seen;
    hide Ascending;
    GapsMean(numbers, last, gaps, seen, from);
  }
}
