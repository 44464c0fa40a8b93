/** The backend's document processor: filename classification, the `.xlsx` test,
    the JSON-safe cell conversion, the header-and-rows to records step of
    `excel_to_knowledge`, and the sequence of job-store calls `process_document` makes. */
module Processor {
  import opened Wrappers
  import opened Text
  import opened Calendar
  import opened Cells
  import opened Schemas
  import opened Jobs

  // ---------------------------------------------------------------------------
  // guess_doc_type / is_excel
  // ---------------------------------------------------------------------------

  predicate Mentions(name: string, a: string, b: string) {
    Contains(name, a) || Contains(name, b)
  }

  /** `guess_doc_type(filename)`: the first keyword group found in the lower-cased name wins. */
  function GuessDocType(filename: string): (t: string)
    ensures t in {"bank_statement", "payslip", "invoice", "unknown"}
    ensures var name := ToLower(filename);
      && (t == "bank_statement" <==> Mentions(name, "bank", "statement"))
      && (t == "payslip" <==> !Mentions(name, "bank", "statement") && Mentions(name, "payslip", "salary"))
      && (t == "invoice" <==> !Mentions(name, "bank", "statement") && !Mentions(name, "payslip", "salary")
                              && Mentions(name, "invoice", "bill"))
  {
    var name := ToLower(filename);
    if Mentions(name, "bank", "statement") then "bank_statement"
    else if Mentions(name, "payslip", "salary") then "payslip"
    else if Mentions(name, "invoice", "bill") then "invoice"
    else "unknown"
  }

  /** Classification ignores case: upper-casing or lower-casing the name changes nothing. */
  lemma GuessDocTypeIgnoresCase(filename: string)
    ensures GuessDocType(ToUpper(filename)) == GuessDocType(filename)
    ensures GuessDocType(ToLower(filename)) == GuessDocType(filename)
  {
    LowerOfUpper(filename);
  }

  /** `is_excel(filename)`: the lower-cased name ends in ".xlsx". */
  function IsExcel(filename: string): (b: bool)
    ensures b <==> |filename| >= 5 && ToLower(filename[|filename| - 5..]) == ".xlsx"
  {
    var name := ToLower(filename);
    assert |filename| >= 5 ==> name[|name| - 5..] == ToLower(filename[|filename| - 5..]);
    EndsWith(name, ".xlsx")
  }

  /** The older ".xls" format is not accepted, whatever the case of its letters. */
  lemma XlsIsNotExcel(filename: string)
    requires EndsWith(ToLower(filename), ".xls")
    ensures !IsExcel(filename)
  {
    var name := ToLower(filename);
    assert name[|name| - 1] == 's';
    assert |filename| >= 5 ==> ToLower(filename[|filename| - 5..])[4] == name[|name| - 1];
  }

  // ---------------------------------------------------------------------------
  // make_json_safe
  // ---------------------------------------------------------------------------

  /** `make_json_safe(value)`: dates and datetimes become their ISO-8601 text, a
      Decimal becomes a float, anything else is returned as it is. */
  function MakeJsonSafe(v: Value): (r: Value)
    ensures r.JsonSafe()
    ensures v.JsonSafe() ==> r == v
    ensures v.Decimal? ==> r == Num(v.d)
    ensures v.DateCell? || v.DateTimeCell? ==> r.Str?
    ensures r.Encodable() <==> !v.Unencodable?
  {
    match v
    case DateCell(d) => Str(DateIsoFormat(d))
    case DateTimeCell(t) => Str(DateTimeIsoFormat(t))
    case Decimal(d) => Num(d)
    case _ => v
  }

  // ---------------------------------------------------------------------------
  // excel_to_knowledge, from the rows already read off the first sheet
  // ---------------------------------------------------------------------------

  const EmptySheetNote := "Excel empty or missing rows"

  /** One header: "" for an empty cell, else `str(h).strip()` with `str` given by `display`. */
  function HeaderName(h: Value, display: Value -> string): (name: string)
    ensures h.Null? ==> name == ""
    ensures name == [] || (!IsSpace(name[0]) && !IsSpace(name[|name| - 1]))
    ensures !h.Null? && display(h) == Strip(display(h)) ==> name == display(h)
  {
    if h.Null? then "" else Strip(display(h))
  }

  function Headers(headerRow: seq<Value>, display: Value -> string): (hs: seq<string>)
    ensures |hs| == |headerRow|
    ensures forall i | 0 <= i < |headerRow| :: hs[i] == HeaderName(headerRow[i], display)
  {
    seq(|headerRow|, i requires 0 <= i < |headerRow| => HeaderName(headerRow[i], display))
  }

  /** The record key of column `i`: its header, or `col_<i>` when the header is blank. */
  function ColumnKey(headers: seq<string>, i: nat): (k: string)
    requires i < |headers|
    ensures k != ""
    ensures headers[i] != "" ==> k == headers[i]
    ensures headers[i] == "" ==> k == "col_" + NatToString(i)
  {
    if headers[i] != "" then headers[i] else "col_" + NatToString(i)
  }

  /** Two blank columns never share a key: `col_<i>` names the column's position. */
  lemma BlankColumnKeysDistinct(headers: seq<string>, i: nat, j: nat)
    requires i < |headers| && j < |headers| && i != j
    requires headers[i] == "" && headers[j] == ""
    ensures ColumnKey(headers, i) != ColumnKey(headers, j)
  {
    var a := NatToString(i);
    var b := NatToString(j);
    if ColumnKey(headers, i) == ColumnKey(headers, j) {
      assert ("col_" + a)[4..] == a && ("col_" + b)[4..] == b;
      NatToStringRoundTrip(i);
      NatToStringRoundTrip(j);
      assert false;
    }
  }

  /** `row[i] if i < len(row) else None` */
  function CellAt(row: seq<Value>, i: nat): (v: Value)
    ensures i >= |row| ==> v == Null
    ensures i < |row| ==> v == row[i]
  {
    if i < |row| then row[i] else Null
  }

  /** The keys of all columns, computed once from the headers. */
  function ColumnKeys(headers: seq<string>): (keys: seq<string>)
    ensures |keys| == |headers|
    ensures forall i | 0 <= i < |headers| :: keys[i] == ColumnKey(headers, i)
  {
    seq(|headers|, i requires 0 <= i < |headers| => ColumnKey(headers, i))
  }

  /** No column after `i` and before `n` has the same key as column `i`. */
  predicate LastWithKey(keys: seq<string>, i: nat, n: nat)
    requires i < n <= |keys|
  {
    forall j | i < j < n :: keys[j] != keys[i]
  }

  /** The JSON-safe cells of `row` under the first `width` columns; a missing cell reads as `None`. */
  function JsonCells(row: seq<Value>, width: nat): (cells: seq<Value>)
    ensures |cells| == width
    ensures forall i | 0 <= i < width :: cells[i] == MakeJsonSafe(CellAt(row, i))
    ensures forall i | 0 <= i < width :: cells[i].JsonSafe()
  {
    seq(width, i requires 0 <= i < width => MakeJsonSafe(CellAt(row, i)))
  }

  /** `rec` is what writing `values[i]` under `keys[i]` for `i` from 0 to `n - 1` gives:
      its keys are exactly those keys, and a key holds the value of its last column. */
  predicate IsRecordOf(keys: seq<string>, values: seq<Value>, n: nat, rec: Row)
    requires n <= |keys| == |values|
  {
    HasKeysOf(keys, n, rec) && HoldsLastValues(keys, values, n, rec)
  }

  /** The keys of `rec` are exactly the first `n` column keys. */
  predicate HasKeysOf(keys: seq<string>, n: nat, rec: Row)
    requires n <= |keys|
  {
    && (forall i | 0 <= i < n :: keys[i] in rec)
    && (forall k | k in rec :: exists i | 0 <= i < n :: keys[i] == k)
  }

  /** Each of the first `n` column keys holds the value of the last of those columns carrying it. */
  predicate HoldsLastValues(keys: seq<string>, values: seq<Value>, n: nat, rec: Row)
    requires n <= |keys| == |values|
  {
    forall i | 0 <= i < n && LastWithKey(keys, i, n) :: keys[i] in rec && rec[keys[i]] == values[i]
  }

  /** Writing column `n - 1` into the record of the columns before it gives the record of `n` columns. */
  lemma ExtendRecord(keys: seq<string>, values: seq<Value>, n: nat, earlier: Row)
    requires 0 < n <= |keys| == |values|
    requires IsRecordOf(keys, values, n - 1, earlier)
    ensures IsRecordOf(keys, values, n, earlier[keys[n - 1] := values[n - 1]])
  {
    ExtendKeys(keys, n, earlier, values[n - 1]);
    ExtendValues(keys, values, n, earlier);
  }

  lemma ExtendKeys(keys: seq<string>, n: nat, earlier: Row, v: Value)
    requires 0 < n <= |keys|
    requires HasKeysOf(keys, n - 1, earlier)
    ensures HasKeysOf(keys, n, earlier[keys[n - 1] := v])
  {
    var rec := earlier[keys[n - 1] := v];
    forall k | k in rec
      ensures exists i | 0 <= i < n :: keys[i] == k
    {
      if k != keys[n - 1] {
        var i :| 0 <= i < n - 1 && keys[i] == k;
      }
    }
  }

  lemma ExtendValues(keys: seq<string>, values: seq<Value>, n: nat, earlier: Row)
    requires 0 < n <= |keys| == |values|
    requires HoldsLastValues(keys, values, n - 1, earlier)
    ensures HoldsLastValues(keys, values, n, earlier[keys[n - 1] := values[n - 1]])
  {
    var rec := earlier[keys[n - 1] := values[n - 1]];
    forall i | 0 <= i < n && LastWithKey(keys, i, n)
      ensures keys[i] in rec && rec[keys[i]] == values[i]
    {
      if i < n - 1 {
        assert keys[n - 1] != keys[i];
        assert LastWithKey(keys, i, n - 1);
      }
    }
  }

  /** The dict the column loop fills from the first `n` columns. */
  function BuildRecord(keys: seq<string>, values: seq<Value>, n: nat): (rec: Row)
    requires n <= |keys| == |values|
    ensures IsRecordOf(keys, values, n, rec)
  {
    if n == 0 then map[]
    else
      var earlier := BuildRecord(keys, values, n - 1);
      ExtendRecord(keys, values, n, earlier);
      earlier[keys[n - 1] := values[n - 1]]
  }

  /** `record` for one data row: every column key maps to the JSON-safe cell of the last
      column carrying it, and every value is JSON-safe. */
  function RowRecord(keys: seq<string>, row: seq<Value>): (rec: Row)
    ensures IsRecordOf(keys, JsonCells(row, |keys|), |keys|, rec)
    ensures forall k | k in rec :: rec[k].JsonSafe()
  {
    var cells := JsonCells(row, |keys|);
    var rec := BuildRecord(keys, cells, |keys|);
    RecordValuesFromColumns(keys, cells, rec);
    rec
  }

  /** A row with no time or timedelta cell among its first `|keys|` columns becomes a
      record `json.dumps` accepts. */
  lemma RowRecordEncodable(keys: seq<string>, row: seq<Value>)
    requires forall j | 0 <= j < |keys| :: !CellAt(row, j).Unencodable?
    ensures forall k | k in RowRecord(keys, row) :: RowRecord(keys, row)[k].Encodable()
  {
    var cells := JsonCells(row, |keys|);
    var rec := RowRecord(keys, row);
    RecordValuesFromColumns(keys, cells, rec);
    forall k | k in rec ensures rec[k].Encodable() {
      var j :| 0 <= j < |cells| && rec[k] == cells[j];
      assert cells[j] == MakeJsonSafe(CellAt(row, j));
    }
  }

  /** The last column carrying a key puts its JSON-safe cell under that key. */
  lemma RecordHoldsLastColumn(keys: seq<string>, row: seq<Value>, i: nat)
    requires i < |keys| && LastWithKey(keys, i, |keys|)
    ensures keys[i] in RowRecord(keys, row)
    ensures RowRecord(keys, row)[keys[i]] == MakeJsonSafe(CellAt(row, i))
  {
    assert HoldsLastValues(keys, JsonCells(row, |keys|), |keys|, RowRecord(keys, row));
  }

  /** Every value of a full record is the value of one of its columns. */
  lemma RecordValuesFromColumns(keys: seq<string>, values: seq<Value>, rec: Row)
    requires |keys| == |values|
    requires IsRecordOf(keys, values, |keys|, rec)
    ensures forall k | k in rec :: exists j | 0 <= j < |values| :: rec[k] == values[j]
  {
    forall k | k in rec
      ensures exists j | 0 <= j < |values| :: rec[k] == values[j]
    {
      var i :| 0 <= i < |keys| && keys[i] == k;
      LastOccurrence(keys, i);
      var j :| i <= j < |keys| && keys[j] == keys[i] && LastWithKey(keys, j, |keys|);
      assert rec[k] == values[j];
    }
  }

  /** A key that occurs at `i` occurs for the last time at `i` or later. */
  lemma {:induction false} LastOccurrence(keys: seq<string>, i: nat)
    requires i < |keys|
    ensures exists j | i <= j < |keys| :: keys[j] == keys[i] && LastWithKey(keys, j, |keys|)
    decreases |keys| - i
  {
    if !LastWithKey(keys, i, |keys|) {
      var j :| i < j < |keys| && keys[j] == keys[i];
      LastOccurrence(keys, j);
    }
  }

  /** One record element per data row, in sheet order. */
  function RecordRows(keys: seq<string>, dataRows: seq<seq<Value>>): (items: seq<Element>)
    ensures |items| == |dataRows|
    ensures forall k | 0 <= k < |dataRows| :: items[k] == RecordElement(RowRecord(keys, dataRows[k]))
  {
    seq(|dataRows|, k requires 0 <= k < |dataRows| => RecordElement(RowRecord(keys, dataRows[k])))
  }

  /** `excel_to_knowledge`, from the point where the workbook has been read into `sheet`. */
  function ExcelToKnowledge(sheet: seq<seq<Value>>, display: Value -> string): (e: Entities)
    ensures "rows" in e && e["rows"].ListEntry?
    ensures forall k | 0 <= k < |e["rows"].items| :: e["rows"].items[k].RecordElement?
    ensures |sheet| < 2 ==> e == map["rows" := ListEntry([]), "note" := OtherEntry(Str(EmptySheetNote))]
    ensures |sheet| >= 2 ==> e.Keys == {"rows"} && |e["rows"].items| == |sheet| - 1
    ensures |sheet| >= 2 ==> forall k | 0 <= k < |sheet| - 1 ::
              e["rows"].items[k].record
              == RowRecord(ColumnKeys(Headers(sheet[0], display)), sheet[k + 1])
  {
    if |sheet| < 2 then map["rows" := ListEntry([]), "note" := OtherEntry(Str(EmptySheetNote))]
    else
      var keys := ColumnKeys(Headers(sheet[0], display));
      var items := RecordRows(keys, sheet[1..]);
      assert forall k | 0 <= k < |sheet| - 1 :: items[k].record == RowRecord(keys, sheet[k + 1]);
      map["rows" := ListEntry(items)]
  }

  // ---------------------------------------------------------------------------
  // process_document
  // ---------------------------------------------------------------------------

  /** The dict `call_ocr_service` returns, by the keys the processor reads; `None`
      is a missing key. */
  datatype OcrReply = OcrReply(entities: Option<Entities>, tables: Option<seq<Value>>)

  /** The code outside the core that `process_document` calls, each given as what
      it returns for its argument; `Raised` is an exception escaping it. */
  datatype Collaborators = Collaborators(
    readSheet: string -> Outcome<seq<seq<Value>>>,          // load_workbook + iter_rows on a path
    display: Value -> string,                               // str() of a header cell
    ocr: string -> Outcome<OcrReply>,                       // call_ocr_service on a path, then .get
    validate: KnowledgeObject -> Outcome<ValidationReply>)  // call_validation_service

  const Running := "RUNNING"
  const Done := "DONE"
  const Failed := "FAILED"
  const JobNotFound := "Job not found"

  /** The validation block built when the validation call raises `reason`. */
  function UnreachableBlock(reason: string, filename: string): (v: ValidationReply)
    ensures v.error == Some(reason)
    ensures v.report.total == 0 && v.report.passed == 0 && v.report.warnings == 0 && v.report.errors == 1
    ensures |v.report.findings| == 1 && v.report.findings[0].kind == Error
    ensures v.report.findings[0].documents == [filename]
    ensures v.report.findings[0].DetailsText() == reason
  {
    ValidationReply(Some(reason), Report(0, 0, 0, 1, [Finding(Error, ServiceUnreachable(reason), [filename])]))
  }

  /** The degraded block keeps its counters consistent with its findings, but not
      with `totalChecks`: it is the one result that breaks `total == passed + warnings + errors`. */
  lemma UnreachableBlockIsUnbalanced(reason: string, filename: string)
    ensures UnreachableBlock(reason, filename).report.Tallied()
    ensures !UnreachableBlock(reason, filename).report.Balanced()
  {
    var fs := UnreachableBlock(reason, filename).report.findings;
    assert fs[1..] == [];
  }

  function Metadata(filename: string, jobId: string): map<string, string> {
    map["filename" := filename, "job_id" := jobId]
  }

  /** Whether the extraction step returns: the workbook read for an `.xlsx` name, the
      OCR call otherwise. */
  predicate ExtractionReturns(filename: string, path: string, env: Collaborators) {
    if IsExcel(filename) then env.readSheet(path).Returned? else env.ocr(path).Returned?
  }

  /** The `knowledge_object` that `process_document` builds from a job's file: read
      as a workbook when `is_excel` holds, sent to the OCR service otherwise. An OCR
      reply without `entities` or `tables` leaves them empty. */
  function BuildKnowledge(filename: string, path: string, jobId: string, env: Collaborators): (r: Outcome<KnowledgeObject>)
    ensures r.Returned? <==> ExtractionReturns(filename, path, env)
    ensures r.Returned? ==> r.value.docType == Some(GuessDocType(filename))
    ensures r.Returned? ==> r.value.metadata == Metadata(filename, jobId)
    ensures r.Returned? ==> (r.value.source == "excel" <==> IsExcel(filename))
    ensures r.Returned? && IsExcel(filename) ==>
              r.value.entities == ExcelToKnowledge(env.readSheet(path).value, env.display)
              && r.value.tables == []
    ensures r.Returned? && !IsExcel(filename) ==>
              var reply := env.ocr(path).value;
              && (reply.entities.None? ==> r.value.entities == map[])
              && (reply.entities.Some? ==> r.value.entities == reply.entities.value)
              && (reply.tables.None? ==> r.value.tables == [])
              && (reply.tables.Some? ==> r.value.tables == reply.tables.value)
  {
    var docType := GuessDocType(filename);
    var metadata := Metadata(filename, jobId);
    if IsExcel(filename) then
      match env.readSheet(path)
      case Returned(sheet) =>
        Returned(KnowledgeObject("excel", Some(docType), ExcelToKnowledge(sheet, env.display), [], metadata))
      case Raised(m) => Raised(m)
    else
      match env.ocr(path)
      case Returned(reply) =>
        Returned(KnowledgeObject("ocr", Some(docType), reply.entities.GetOr(map[]), reply.tables.GetOr([]), metadata))
      case Raised(m) => Raised(m)
  }

  /** The `result` dict `process_document` stores for a run that gets through
      extraction: the knowledge object's source, entities, tables and metadata, the
      guessed type, and what validation returned. */
  function Analyse(filename: string, path: string, jobId: string, env: Collaborators): (r: Outcome<JobResult>)
    ensures r.Returned? <==> ExtractionReturns(filename, path, env)
    ensures r.Returned? ==> r.value.Completed?
    ensures r.Returned? ==> r.value.docType == GuessDocType(filename)
    ensures r.Returned? ==> r.value.metadata == Metadata(filename, jobId)
    ensures r.Returned? ==> (r.value.source == "excel" <==> IsExcel(filename))
    ensures r.Returned? ==> var ko := BuildKnowledge(filename, path, jobId, env).value;
              r.value.source == ko.source && r.value.entities == ko.entities && r.value.tables == ko.tables
    ensures r.Returned? ==> var ko := BuildKnowledge(filename, path, jobId, env).value;
              r.value.validation == (match env.validate(ko)
                                     case Returned(v) => v
                                     case Raised(m) => UnreachableBlock(m, filename))
  {
    match BuildKnowledge(filename, path, jobId, env)
    case Raised(m) => Raised(m)
    case Returned(ko) =>
      var validation := match env.validate(ko)
                        case Returned(v) => v
                        case Raised(m) => UnreachableBlock(m, filename);
      Returned(Completed(GuessDocType(filename), ko.source, ko.entities, ko.tables, validation, ko.metadata))
  }

  /** One call into the job store made by `process_document`. */
  datatype StoreOp = SetStatus(status: string) | SetResult(result: JobResult)

  function ApplyOp(s: Store, jobId: string, op: StoreOp): Store {
    match op
    case SetStatus(st) => UpdateJobStatus(s, jobId, st)
    case SetResult(res) => SetJobResult(s, jobId, res)
  }

  /** The store after the calls `ops`, in order, all addressed to `jobId`. */
  function ApplyAll(s: Store, jobId: string, ops: seq<StoreOp>): (s': Store)
    ensures s'.Keys == s.Keys
    ensures jobId !in s ==> s' == s
    ensures forall k | k in s && k != jobId :: s'[k] == s[k]
    ensures jobId in s ==> s'[jobId].jobId == s[jobId].jobId && s'[jobId].filename == s[jobId].filename
                           && s'[jobId].path == s[jobId].path
    decreases |ops|
  {
    if ops == [] then s else ApplyAll(ApplyOp(s, jobId, ops[0]), jobId, ops[1..])
  }

  /** The store calls of `process_document(job_id)`, in the order it makes them. */
  function Calls(s: Store, jobId: string, env: Collaborators): (ops: seq<StoreOp>)
    ensures |ops| == 3 && ops[0] == SetStatus(Running)
    ensures ops[1].SetResult? && ops[2].SetStatus?
    ensures ops[2] == SetStatus(Done) <==> ops[1].result.Completed?
    ensures ops[2] == SetStatus(Done) || ops[2] == SetStatus(Failed)
    ensures jobId !in s ==> ops[1] == SetResult(Errored(JobNotFound)) && ops[2] == SetStatus(Failed)
    ensures jobId in s ==> (ops[2] == SetStatus(Done) <==> ExtractionReturns(s[jobId].filename, s[jobId].path, env))
  {
    var running := UpdateJobStatus(s, jobId, Running);
    match GetJob(running, jobId)
    case None => [SetStatus(Running), SetResult(Errored(JobNotFound)), SetStatus(Failed)]
    case Some(job) =>
      assert job.filename == s[jobId].filename && job.path == s[jobId].path;
      match Analyse(job.filename, job.path, jobId, env)
      case Returned(result) => [SetStatus(Running), SetResult(result), SetStatus(Done)]
      case Raised(m) => [SetStatus(Running), SetResult(Errored(m)), SetStatus(Failed)]
  }

  /** The store after `process_document(job_id)` has run to its end. */
  function ProcessDocument(s: Store, jobId: string, env: Collaborators): (s': Store)
    ensures s'.Keys == s.Keys
    ensures jobId !in s ==> s' == s
    ensures forall k | k in s && k != jobId :: s'[k] == s[k]
    ensures jobId in s ==> s'[jobId].filename == s[jobId].filename && s'[jobId].path == s[jobId].path
    ensures jobId in s ==> s'[jobId].status == Done || s'[jobId].status == Failed
    ensures jobId in s ==> (s'[jobId].status == Done <==> ExtractionReturns(s[jobId].filename, s[jobId].path, env))
    ensures jobId in s ==> s'[jobId].result.Some?
    ensures jobId in s ==> (s'[jobId].status == Done <==> s'[jobId].result.value.Completed?)
    ensures jobId in s && s'[jobId].status == Done ==>
              s'[jobId].result.value.docType == GuessDocType(s[jobId].filename)
              && s'[jobId].result.value.metadata == Metadata(s[jobId].filename, jobId)
    ensures jobId in s && s'[jobId].status == Done ==>
              s'[jobId].result == Some(Analyse(s[jobId].filename, s[jobId].path, jobId, env).value)
  {
    var ops := Calls(s, jobId, env);
    var s1 := ApplyOp(s, jobId, ops[0]);
    var s2 := ApplyOp(s1, jobId, ops[1]);
    var s3 := ApplyOp(s2, jobId, ops[2]);
    assert ops[1..][1..] == [ops[2]] && [ops[2]][1..] == [];
    assert ApplyAll(s2, jobId, [ops[2]]) == s3;
    assert ApplyAll(s1, jobId, ops[1..]) == s3;
    assert ApplyAll(s, jobId, ops) == s3;
    ApplyAll(s, jobId, ops)
  }
}
