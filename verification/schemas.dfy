/** The shapes that travel between the backend and the validation service: the
    knowledge object, findings and validation results, and the result stored in a job. */
module Schemas {
  import opened Wrappers
  import opened Text
  import opened Cells

  /** One element of a JSON list: a row object, or any other value. */
  datatype Element = RecordElement(record: Row) | OtherElement(value: Value)

  /** The value under one key of `entities`: a JSON list, or any non-list value. */
  datatype Entry = ListEntry(items: seq<Element>) | OtherEntry(value: Value)

  type Entities = map<string, Entry>

  /** `KnowledgeObject`; `docType == None` is a payload without a `doc_type` field. */
  datatype KnowledgeObject = KnowledgeObject(
    source: string,
    docType: Option<string>,
    entities: Entities,
    tables: seq<Value>,
    metadata: map<string, string>)

  /** `json.dumps` accepts the element: no value in it is unencodable. */
  predicate ElementEncodable(el: Element) {
    match el
    case RecordElement(record) => forall k | k in record :: record[k].Encodable()
    case OtherElement(v) => v.Encodable()
  }

  predicate EntryEncodable(e: Entry) {
    match e
    case ListEntry(items) => forall i | 0 <= i < |items| :: ElementEncodable(items[i])
    case OtherEntry(v) => v.Encodable()
  }

  /** `json.dumps` accepts the whole knowledge object (its metadata is text). */
  predicate JsonEncodable(ko: KnowledgeObject) {
    && (forall k | k in ko.entities :: EntryEncodable(ko.entities[k]))
    && (forall i | 0 <= i < |ko.tables| :: ko.tables[i].Encodable())
  }

  datatype Severity = Success | Warning | Error

  /** What a finding reports. Each message renders as the `title` and `details`
      strings the services put in the JSON finding. */
  datatype Message =
    | SufficientRows(count: nat)
    | TooFewRows(count: nat)
    | DatesNotDetected
    | DatesInSequence
    | DateOrderIssue
    | AmountsValid
    | AmountsInconsistent(suspicious: nat)
    | BasicValidationOnly(docType: string)
    | ServiceUnreachable(reason: string)

  function Title(m: Message): string {
    match m
    case SufficientRows(_) => "Sufficient transactions found"
    case TooFewRows(_) => "Too few transactions"
    case DatesNotDetected => "Dates not detected"
    case DatesInSequence => "Dates are in sequence"
    case DateOrderIssue => "Date order issue"
    case AmountsValid => "Debit/Credit columns look valid"
    case AmountsInconsistent(_) => "Debit/Credit values may be inconsistent"
    case BasicValidationOnly(_) => "Basic validation only"
    case ServiceUnreachable(_) => "Validation service not reachable"
  }

  function Details(m: Message): string {
    match m
    case SufficientRows(n) => "Found " + NatToString(n) + " rows in bank statement."
    case TooFewRows(n) => "Only " + NatToString(n) + " rows found. Expected at least 3 rows."
    case DatesNotDetected => "Could not parse DATE column. Skipping date sequencing check."
    case DatesInSequence => "Transaction dates appear chronological."
    case DateOrderIssue => "Some transaction dates appear out of order."
    case AmountsValid => "No obvious issues in DEBIT/CREDIT values."
    case AmountsInconsistent(n) =>
      "Found " + NatToString(n) + " suspicious debit/credit cases (both present or negative values)."
    case BasicValidationOnly(t) => "No specific rules implemented yet for doc_type='" + t + "'."
    case ServiceUnreachable(reason) => reason
  }

  /** A `Finding`: its `type`, what it reports, and the names of the documents concerned. */
  datatype Finding = Finding(kind: Severity, message: Message, documents: seq<string>) {
    function TitleText(): string { Title(message) }
    function DetailsText(): string { Details(message) }
  }

  /** `ValidationResult` / the validation service's response body. */
  datatype Report = Report(total: nat, passed: nat, warnings: nat, errors: nat, findings: seq<Finding>) {
    /** The aggregate invariant `totalChecks == passed + warnings + errors`. */
    predicate Balanced() {
      total == passed + warnings + errors
    }

    /** Each counter equals the number of findings of its kind. */
    predicate Tallied() {
      passed == CountOf(findings, Success)
      && warnings == CountOf(findings, Warning)
      && errors == CountOf(findings, Error)
    }
  }

  /** Number of findings of the given kind. */
  function CountOf(fs: seq<Finding>, kind: Severity): (n: nat)
    ensures n <= |fs|
  {
    if fs == [] then 0 else (if fs[0].kind == kind then 1 else 0) + CountOf(fs[1..], kind)
  }

  /** Tallies of a three-finding list, one finding at a time. */
  lemma CountOfThree(a: Finding, b: Finding, c: Finding, kind: Severity)
    ensures CountOf([a, b, c], kind)
            == (if a.kind == kind then 1 else 0) + (if b.kind == kind then 1 else 0) + (if c.kind == kind then 1 else 0)
  {
    assert [c][1..] == [];
    assert CountOf([c], kind) == (if c.kind == kind then 1 else 0);
    assert [b, c][1..] == [c];
    assert CountOf([b, c], kind) == (if b.kind == kind then 1 else 0) + CountOf([c], kind);
    assert [a, b, c][1..] == [b, c];
  }

  /** The three tallies partition the findings. */
  lemma {:induction false} CountsPartition(fs: seq<Finding>)
    ensures CountOf(fs, Success) + CountOf(fs, Warning) + CountOf(fs, Error) == |fs|
  {
    if fs != [] {
      CountsPartition(fs[1..]);
    }
  }

  /** With both invariants, `totalChecks` is the number of findings. */
  lemma BalancedTalliedCountsFindings(r: Report)
    requires r.Balanced() && r.Tallied()
    ensures r.total == |r.findings|
  {
    CountsPartition(r.findings);
  }

  /** The validation block stored with a job: the service's report, plus the `error`
      text that accompanies a degraded block built after a failed call. */
  datatype ValidationReply = ValidationReply(error: Option<string>, report: Report)

  /** The dict `process_document` stores with `set_job_result`. */
  datatype JobResult =
    | Completed(docType: string, source: string, entities: Entities, tables: seq<Value>,
                validation: ValidationReply, metadata: map<string, string>)
    | Errored(error: string)
}
