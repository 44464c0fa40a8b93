/** The body of the validation service's `validate` endpoint: fill in defaults from
    the knowledge object and choose between the bank-statement and generic rules. */
module Validation {
  import opened Wrappers
  import opened Cells
  import opened Schemas
  import opened Rules

  /** `payload.metadata.get("filename", "unknown")` */
  function FilenameOf(ko: KnowledgeObject): (name: string)
    ensures "filename" !in ko.metadata ==> name == "unknown"
    ensures "filename" in ko.metadata ==> name == ko.metadata["filename"]
  {
    if "filename" in ko.metadata then ko.metadata["filename"] else "unknown"
  }

  /** `payload.doc_type or "unknown"`, where a missing field already defaults to "unknown". */
  function DocTypeOf(ko: KnowledgeObject): (t: string)
    ensures t != ""
    ensures ko.docType == None || ko.docType == Some("") ==> t == "unknown"
    ensures ko.docType.Some? && ko.docType.value != "" ==> t == ko.docType.value
  {
    match ko.docType
    case None => "unknown"
    case Some(t) => if t == "" then "unknown" else t
  }

  /** `payload.entities.get("rows", [])` */
  function RowsEntryOf(ko: KnowledgeObject): (e: Entry)
    ensures "rows" !in ko.entities ==> e == ListEntry([])
    ensures "rows" in ko.entities ==> e == ko.entities["rows"]
  {
    if "rows" in ko.entities then ko.entities["rows"] else ListEntry([])
  }

  /** `doc_type == "bank_statement" and isinstance(rows, list)` */
  predicate UsesBankRules(ko: KnowledgeObject) {
    DocTypeOf(ko) == "bank_statement" && RowsEntryOf(ko).ListEntry?
  }

  predicate AllRecords(items: seq<Element>) {
    forall k | 0 <= k < |items| :: items[k].RecordElement?
  }

  /** The row maps of a list whose elements are all objects. */
  function Records(items: seq<Element>): (rows: seq<Row>)
    requires AllRecords(items)
    ensures |rows| == |items|
    ensures forall k | 0 <= k < |items| :: rows[k] == items[k].record
  {
    seq(|items|, k requires 0 <= k < |items| => items[k].record)
  }

  /** `validate(payload)`. `Raised` is the `AttributeError` the date rule hits when a
      bank statement's `rows` list holds something other than an object (its message
      names the element's Python type, which the model does not keep). */
  function Validate(ko: KnowledgeObject): (r: Outcome<Report>)
    ensures r.Raised? <==> UsesBankRules(ko) && !AllRecords(RowsEntryOf(ko).items)
    ensures r.Returned? ==> r.value.Balanced() && r.value.Tallied()
    ensures r.Returned? ==> (r.value.total == 3 <==> UsesBankRules(ko))
    ensures r.Returned? && UsesBankRules(ko) ==>
              r.value == ValidateBankStatement(Records(RowsEntryOf(ko).items), FilenameOf(ko))
    ensures !UsesBankRules(ko) ==> r == Returned(ValidateGeneric(DocTypeOf(ko), FilenameOf(ko)))
    ensures r.Returned? ==> forall k | 0 <= k < |r.value.findings| :: r.value.findings[k].documents == [FilenameOf(ko)]
  {
    var filename := FilenameOf(ko);
    var rows := RowsEntryOf(ko);
    var docType := DocTypeOf(ko);
    if docType == "bank_statement" && rows.ListEntry? then
      if AllRecords(rows.items) then Returned(ValidateBankStatement(Records(rows.items), filename))
      else Raised("object has no attribute 'get'")
    else Returned(ValidateGeneric(docType, filename))
  }

  /** A bank statement without a `rows` entity is validated as an empty list, so it
      fails the minimum-rows rule and nothing else. */
  lemma MissingRowsIsOneError(ko: KnowledgeObject)
    requires DocTypeOf(ko) == "bank_statement" && "rows" !in ko.entities
    ensures Validate(ko).Returned?
    ensures Validate(ko).value.errors == 1 && Validate(ko).value.findings[0].kind == Error
    ensures Validate(ko).value.findings[0].message == TooFewRows(0)
  {
    assert Records([]) == [];
  }

  /** Without a usable doc_type the generic rules run under the name "unknown". */
  lemma MissingDocTypeIsUnknown(ko: KnowledgeObject)
    requires ko.docType == None || ko.docType == Some("")
    ensures Validate(ko) == Returned(ValidateGeneric("unknown", FilenameOf(ko)))
  {
  }
}
