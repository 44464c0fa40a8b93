/** The validation service's rule engine: the lenient parsers `_to_float` and
    `_to_date`, the three bank-statement rules and the generic fallback. */
module Rules {
  import opened Wrappers
  import opened Text
  import opened Calendar
  import opened Cells
  import opened Schemas

  // ---------------------------------------------------------------------------
  // _to_float
  // ---------------------------------------------------------------------------

  /** Index of the first '.' in `s`, or `|s|` when there is none. */
  function PointIndex(s: string): (k: nat)
    ensures k <= |s|
    ensures k < |s| ==> s[k] == '.'
    ensures forall i | 0 <= i < k :: s[i] != '.'
  {
    if s == [] || s[0] == '.' then 0 else 1 + PointIndex(s[1..])
  }

  /** Digits with at most one decimal point and at least one digit: `12`, `12.5`, `.5`, `12.`. */
  function ParseUnsigned(s: string): (r: Option<real>)
    ensures r.Some? ==> r.value >= 0.0
    ensures r.Some? ==> |s| >= 1
  {
    var k := PointIndex(s);
    var whole := s[..k];
    var fraction := if k < |s| then s[k + 1..] else "";
    if AllDigits(whole) && AllDigits(fraction) && |whole| + |fraction| >= 1 then
      Some(DigitsValue(whole) as real + DigitsValue(fraction) as real / Pow10(|fraction|) as real)
    else None
  }

  /** `float(s)` for a string: surrounding whitespace ignored, one optional sign,
      then an unsigned decimal. `None` stands for the `ValueError` on anything else. */
  function ParseNumber(s: string): (r: Option<real>)
    ensures r.Some? && r.value < 0.0 ==> |Strip(s)| > 0 && Strip(s)[0] == '-'
    ensures Strip(s) == [] ==> r == None
  {
    var t := Strip(s);
    if |t| > 0 && (t[0] == '-' || t[0] == '+') then
      match ParseUnsigned(t[1..])
      case Some(x) => Some(if t[0] == '-' then -x else x)
      case None => None
    else ParseUnsigned(t)
  }

  /** `float()` reads a string of digits as the whole number it writes. */
  lemma DigitsTextReads(whole: string)
    requires |whole| >= 1 && AllDigits(whole)
    ensures ParseNumber(whole) == Some(DigitsValue(whole) as real)
  {
    UnsignedDigitsRead(whole);
    StripUnchanged(whole);
    ReadsUnsigned(whole, DigitsValue(whole) as real);
  }

  /** `float()` reads a minus sign and a string of digits as the negated number. */
  lemma NegatedDigitsRead(s: string)
    requires |s| >= 2 && s[0] == '-' && AllDigits(s[1..])
    ensures ParseNumber(s) == Some(-(DigitsValue(s[1..]) as real))
  {
    var whole := s[1..];
    UnsignedDigitsRead(whole);
    assert s[|s| - 1] == whole[|whole| - 1];
    StripUnchanged(s);
    ReadsSigned(s, DigitsValue(whole) as real);
  }

  /** Text that is already stripped and has no sign is read by `ParseUnsigned` alone. */
  lemma ReadsUnsigned(s: string, x: real)
    requires |s| >= 1 && s[0] != '-' && s[0] != '+'
    requires StripLeft(s) == s && StripRight(s) == s && ParseUnsigned(s) == Some(x)
    ensures ParseNumber(s) == Some(x)
  {
  }

  /** Text that is already stripped and starts with a minus reads as the negation of what follows it. */
  lemma ReadsSigned(s: string, x: real)
    requires |s| >= 2 && s[0] == '-'
    requires StripLeft(s) == s && StripRight(s) == s && ParseUnsigned(s[1..]) == Some(x)
    ensures ParseNumber(s) == Some(-x)
  {
  }

  /** Digits without a point read as their value. */
  lemma UnsignedDigitsRead(whole: string)
    requires |whole| >= 1 && AllDigits(whole)
    ensures ParseUnsigned(whole) == Some(DigitsValue(whole) as real)
  {
    assert forall i | 0 <= i < |whole| :: whole[i] != '.';
    assert PointIndex(whole) == |whole|;
    assert whole[..|whole|] == whole;
    var none: string := "";
    assert DigitsValue(none) == 0 && Pow10(|none|) == 1;
    var x := DigitsValue(whole) as real;
    assert x + DigitsValue(none) as real / Pow10(|none|) as real == x;
  }

  /** A whole number written out in decimal reads back as that number, from text
      or from a text cell. */
  lemma NumeralReads(n: nat)
    ensures ParseNumber(NatToString(n)) == Some(n as real)
    ensures ToFloat(Str(NatToString(n))) == Some(n as real)
  {
    NatToStringRoundTrip(n);
    DigitsTextReads(NatToString(n));
  }

  /** The same number after a minus sign reads back as its negation. */
  lemma NegatedNumeralReads(n: nat)
    ensures ParseNumber("-" + NatToString(n)) == Some(-(n as real))
  {
    NatToStringRoundTrip(n);
    var minus := "-" + NatToString(n);
    assert minus[1..] == NatToString(n);
    NegatedDigitsRead(minus);
  }

  /** `_to_float(x)`: a number when `float(x)` succeeds, `None` when `x` is `None`
      or `float(x)` raises. */
  function ToFloat(v: Value): (r: Option<real>)
    ensures v.Null? ==> r == None
    ensures v.Num? ==> r == Some(v.n)
    ensures v.Decimal? ==> r == Some(v.d)
    ensures v.Bool? ==> r == Some(if v.b then 1.0 else 0.0)
    ensures v.DateCell? || v.DateTimeCell? || v.Other? || v.Unencodable? ==> r == None
  {
    match v
    case Null => None
    case Bool(b) => Some(if b then 1.0 else 0.0)
    case Num(n) => Some(n)
    case Decimal(d) => Some(d)
    case Str(s) => ParseNumber(s)
    case _ => None
  }

  /** A number `_to_float` reads as negative was written with a leading minus sign,
      or was a negative number already. */
  lemma NegativeMeansMinus(v: Value)
    requires ToFloat(v).Some? && ToFloat(v).value < 0.0
    ensures v.Num? || v.Decimal? || (v.Str? && Strip(v.s)[0] == '-')
  {
  }

  // ---------------------------------------------------------------------------
  // _to_date
  // ---------------------------------------------------------------------------

  /** `_to_date(x)`: a datetime is kept, a string goes through `fromisoformat`, and
      everything else, including `None` and a plain `date`, gives `None`. */
  function ToDate(v: Value): (r: Option<DateTime>)
    ensures v.Null? ==> r == None
    ensures v.DateTimeCell? ==> r == Some(v.at)
    ensures r.Some? ==> v.DateTimeCell? || v.Str?
    ensures v.Str? ==> r == FromIsoFormat(v.s)
  {
    match v
    case DateTimeCell(t) => Some(t)
    case Str(s) => FromIsoFormat(s)
    case _ => None
  }

  // ---------------------------------------------------------------------------
  // Row fields
  // ---------------------------------------------------------------------------

  /** `_to_date(r.get("DATE"))`: a row without the key has no date. */
  function DateOf(row: Row): (d: Option<DateTime>)
    ensures "DATE" !in row ==> d == None
    ensures "DATE" in row ==> d == ToDate(row["DATE"])
  {
    ToDate(Get(row, "DATE"))
  }

  /** `_to_float(r.get("DEBIT"))`: a row without the key has no debit. */
  function DebitOf(row: Row): (x: Option<real>)
    ensures "DEBIT" !in row ==> x == None
    ensures "DEBIT" in row ==> x == ToFloat(row["DEBIT"])
  {
    ToFloat(Get(row, "DEBIT"))
  }

  /** `_to_float(r.get("CREDIT"))`: a row without the key has no credit. */
  function CreditOf(row: Row): (x: Option<real>)
    ensures "CREDIT" !in row ==> x == None
    ensures "CREDIT" in row ==> x == ToFloat(row["CREDIT"])
  {
    ToFloat(Get(row, "CREDIT"))
  }

  // ---------------------------------------------------------------------------
  // Rule 2: date sequencing
  // ---------------------------------------------------------------------------

  /** No row's DATE parses. */
  predicate NoDateParses(rows: seq<Row>) {
    forall i | 0 <= i < |rows| :: DateOf(rows[i]).None?
  }

  /** `cleaned`: the dates that parse, in row order, unparseable ones skipped. */
  function ParsedDates(rows: seq<Row>): (c: seq<DateTime>)
    ensures |c| <= |rows|
    ensures c == [] <==> NoDateParses(rows)
    ensures forall j | 0 <= j < |c| :: exists i | 0 <= i < |rows| :: DateOf(rows[i]) == Some(c[j])
  {
    if rows == [] then []
    else
      var rest := ParsedDates(rows[1..]);
      assert forall i | 1 <= i < |rows| :: rows[i] == rows[1..][i - 1];
      match DateOf(rows[0])
      case Some(d) => [d] + rest
      case None => rest
  }

  /** Filtering commutes with concatenation, so `cleaned` keeps the rows' order. */
  lemma {:induction false} ParsedDatesAppend(a: seq<Row>, b: seq<Row>)
    ensures ParsedDates(a + b) == ParsedDates(a) + ParsedDates(b)
  {
    if a != [] {
      assert (a + b)[1..] == a[1..] + b;
      ParsedDatesAppend(a[1..], b);
    } else {
      assert a + b == b;
    }
  }

  /** When every row's date parses, `cleaned` is exactly the parsed dates row by row. */
  lemma {:induction false} ParsedDatesAllParse(rows: seq<Row>)
    requires forall i | 0 <= i < |rows| :: DateOf(rows[i]).Some?
    ensures |ParsedDates(rows)| == |rows|
    ensures forall i | 0 <= i < |rows| :: Some(ParsedDates(rows)[i]) == DateOf(rows[i])
  {
    if rows != [] {
      var tail := rows[1..];
      ParsedDatesAllParse(tail);
      ParsedDatesFirstParses(rows);
      var c := ParsedDates(rows);
      forall i | 0 <= i < |rows| ensures Some(c[i]) == DateOf(rows[i]) {
        if i > 0 {
          assert c[i] == ParsedDates(tail)[i - 1] && rows[i] == tail[i - 1];
        }
      }
    }
  }

  /** A first row whose date parses contributes that date first. */
  lemma ParsedDatesFirstParses(rows: seq<Row>)
    requires rows != [] && DateOf(rows[0]).Some?
    ensures ParsedDates(rows) == [DateOf(rows[0]).value] + ParsedDates(rows[1..])
  {
  }

  /** The loop `for i in range(from, len(c)): if c[i] < c[i - 1]: ok = False; break`
      finishes with `ok` still true: exactly when every adjacent pair from `from` on
      is in order. */
  predicate InSequenceFrom(c: seq<DateTime>, from: nat)
    requires from >= 1
    ensures InSequenceFrom(c, from) <==> forall j | from <= j < |c| :: NotBefore(c[j], c[j - 1])
    decreases |c| - from
  {
    from >= |c| || (!Before(c[from], c[from - 1]) && InSequenceFrom(c, from + 1))
  }

  /** The check rule 2 runs on `cleaned`. */
  predicate InSequence(c: seq<DateTime>) {
    InSequenceFrom(c, 1)
  }

  /** Some DATE parses, and the parsed dates in row order never go back in time. */
  predicate DatesChronological(rows: seq<Row>) {
    ParsedDates(rows) != [] && NonDecreasing(ParsedDates(rows))
  }

  /** Adjacent pairs in order imply all pairs in order. */
  lemma {:induction false} AdjacentToAllPairs(c: seq<DateTime>, n: nat)
    requires n <= |c|
    requires forall j | 1 <= j < |c| :: NotBefore(c[j], c[j - 1])
    ensures forall i, j | 0 <= i < j < n :: NotBefore(c[j], c[i])
  {
    if n > 1 {
      AdjacentToAllPairs(c, n - 1);
      forall i | 0 <= i < n - 1
        ensures NotBefore(c[n - 1], c[i])
      {
        BeforeIsStrictTotalOrder(c[i], c[n - 2], c[n - 1]);
      }
    }
  }

  /** The adjacent-pairs loop decides exactly whether the dates are non-decreasing. */
  lemma InSequenceIffNonDecreasing(c: seq<DateTime>)
    ensures InSequence(c) <==> NonDecreasing(c)
  {
    if InSequence(c) {
      AdjacentToAllPairs(c, |c|);
    }
  }

  // ---------------------------------------------------------------------------
  // Rule 3: debit/credit sanity
  // ---------------------------------------------------------------------------

  predicate BothPresent(row: Row) {
    DebitOf(row).Some? && CreditOf(row).Some?
  }

  predicate HasNegative(row: Row) {
    (DebitOf(row).Some? && DebitOf(row).value < 0.0) || (CreditOf(row).Some? && CreditOf(row).value < 0.0)
  }

  /** No row has both DEBIT and CREDIT, and no parsed amount is negative. */
  predicate AmountsSane(rows: seq<Row>) {
    forall i | 0 <= i < |rows| :: !BothPresent(rows[i]) && !HasNegative(rows[i])
  }

  /** What one row adds to `bad_count`: one for both columns present, one for a negative value. */
  function Suspicion(row: Row): (n: nat)
    ensures n <= 2
    ensures n == 0 <==> !BothPresent(row) && !HasNegative(row)
    ensures n == 2 <==> BothPresent(row) && HasNegative(row)
  {
    var d := DebitOf(row);
    var c := CreditOf(row);
    (if d.Some? && c.Some? then 1 else 0)
      + (if (d.Some? && d.value < 0.0) || (c.Some? && c.value < 0.0) then 1 else 0)
  }

  /** `bad_count` after the loop over all rows. */
  function BadCount(rows: seq<Row>): (n: nat)
    ensures n <= 2 * |rows|
    ensures n == 0 <==> AmountsSane(rows)
  {
    if rows == [] then 0
    else
      assert forall i | 1 <= i < |rows| :: rows[i] == rows[1..][i - 1];
      Suspicion(rows[0]) + BadCount(rows[1..])
  }

  /** `bad_count` is a sum over the rows. */
  lemma {:induction false} BadCountAppend(a: seq<Row>, b: seq<Row>)
    ensures BadCount(a + b) == BadCount(a) + BadCount(b)
  {
    if a != [] {
      assert (a + b)[1..] == a[1..] + b;
      BadCountAppend(a[1..], b);
    } else {
      assert a + b == b;
    }
  }

  // ---------------------------------------------------------------------------
  // Findings and the rule sets
  // ---------------------------------------------------------------------------

  const MinimumRows: nat := 3

  /** Rule 1. */
  function RowCountFinding(rows: seq<Row>, filename: string): (f: Finding)
    ensures f.documents == [filename]
    ensures f.kind == (if |rows| >= MinimumRows then Success else Error)
    ensures (f.message.SufficientRows? || f.message.TooFewRows?) && f.message.count == |rows|
  {
    if |rows| >= MinimumRows then Finding(Success, SufficientRows(|rows|), [filename])
    else Finding(Error, TooFewRows(|rows|), [filename])
  }

  /** Rule 2. */
  function DateOrderFinding(rows: seq<Row>, filename: string): (f: Finding)
    ensures f.documents == [filename]
    ensures f.kind != Error
    ensures f.message == DatesNotDetected <==> NoDateParses(rows)
    ensures f.kind == Success <==> DatesChronological(rows)
  {
    var cleaned := ParsedDates(rows);
    InSequenceIffNonDecreasing(cleaned);
    if cleaned == [] then Finding(Warning, DatesNotDetected, [filename])
    else if InSequence(cleaned) then Finding(Success, DatesInSequence, [filename])
    else Finding(Warning, DateOrderIssue, [filename])
  }

  /** Rule 3. */
  function DebitCreditFinding(rows: seq<Row>, filename: string): (f: Finding)
    ensures f.documents == [filename]
    ensures f.kind != Error
    ensures f.kind == Success <==> AmountsSane(rows)
    ensures f.kind == Warning ==> f.message == AmountsInconsistent(BadCount(rows)) && BadCount(rows) > 0
  {
    var bad := BadCount(rows);
    if bad == 0 then Finding(Success, AmountsValid, [filename])
    else Finding(Warning, AmountsInconsistent(bad), [filename])
  }

  function Flag(b: bool): nat {
    if b then 1 else 0
  }

  /** `validate_bank_statement(rows, filename)`: three checks, counted as the rules run. */
  function ValidateBankStatement(rows: seq<Row>, filename: string): (r: Report)
    ensures r.total == 3 && |r.findings| == 3
    ensures r.Balanced() && r.Tallied()
    ensures r.errors == (if |rows| < MinimumRows then 1 else 0)
    ensures r.findings[0].kind == (if |rows| >= MinimumRows then Success else Error)
  {
    var ruleRows := RowCountFinding(rows, filename);
    var ruleDates := DateOrderFinding(rows, filename);
    var ruleAmounts := DebitCreditFinding(rows, filename);
    var enough := |rows| >= MinimumRows;
    var datesOk := DatesChronological(rows);
    var amountsOk := BadCount(rows) == 0;
    CountOfThree(ruleRows, ruleDates, ruleAmounts, Success);
    CountOfThree(ruleRows, ruleDates, ruleAmounts, Warning);
    CountOfThree(ruleRows, ruleDates, ruleAmounts, Error);
    var findings := [ruleRows, ruleDates, ruleAmounts];
    Report(3,
           Flag(enough) + Flag(datesOk) + Flag(amountsOk),
           Flag(!datesOk) + Flag(!amountsOk),
           Flag(!enough),
           findings)
  }

  /** What each of the three findings of `validate_bank_statement` says about the rows. */
  lemma BankStatementFindings(rows: seq<Row>, filename: string)
    ensures var r := ValidateBankStatement(rows, filename);
      && (forall k | 0 <= k < |r.findings| :: r.findings[k].documents == [filename])
      && (r.findings[1].message == DatesNotDetected <==> NoDateParses(rows))
      && (r.findings[1].kind == Success <==> DatesChronological(rows))
      && (r.findings[2].kind == Success <==> AmountsSane(rows))
      && (r.findings[2].kind == Warning ==> r.findings[2].message == AmountsInconsistent(BadCount(rows)))
  {
  }

  /** A statement passes all three checks exactly when it has enough rows, its dates
      are in order and its amounts are sane; it then has no warning and no error. */
  lemma BankStatementAllPass(rows: seq<Row>, filename: string)
    ensures var r := ValidateBankStatement(rows, filename);
            r.passed == 3 <==> |rows| >= MinimumRows && DatesChronological(rows) && AmountsSane(rows)
    ensures var r := ValidateBankStatement(rows, filename);
            r.passed == 3 ==> r.warnings == 0 && r.errors == 0
  {
    var r := ValidateBankStatement(rows, filename);
    BankStatementFindings(rows, filename);
    CountOfThree(r.findings[0], r.findings[1], r.findings[2], Success);
    assert r.findings == [r.findings[0], r.findings[1], r.findings[2]];
  }

  /** `validate_generic(doc_type, filename)`: one warning that names the document type. */
  function ValidateGeneric(docType: string, filename: string): (r: Report)
    ensures r.total == 1 && r.passed == 0 && r.warnings == 1 && r.errors == 0
    ensures |r.findings| == 1 && r.findings[0].kind == Warning
    ensures r.findings[0].documents == [filename]
    ensures r.findings[0].message == BasicValidationOnly(docType)
    ensures Contains(r.findings[0].DetailsText(), docType)
    ensures r.Balanced() && r.Tallied()
  {
    var f := Finding(Warning, BasicValidationOnly(docType), [filename]);
    var prefix := "No specific rules implemented yet for doc_type='";
    assert f.DetailsText() == prefix + docType + "'.";
    assert OccursAt(f.DetailsText(), docType, |prefix|);
    Report(1, 0, 1, 0, [f])
  }
}
