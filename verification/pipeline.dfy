/** Properties that span the backend and the validation service: what the rule
    engine reads from cells the backend made JSON-safe, a spreadsheet statement
    carried through extraction and validation, and the status history of a job. */
module Pipeline {
  import opened Wrappers
  import opened Text
  import opened Calendar
  import opened Cells
  import opened Schemas
  import opened Rules
  import opened Validation
  import opened Jobs
  import opened Processor

  // ---------------------------------------------------------------------------
  // JSON-safe cells as the rule engine reads them
  // ---------------------------------------------------------------------------

  /** ISO text starts with four digits and a '-', so `float()` rejects it. */
  lemma IsoTextIsNotANumber(s: string)
    requires |s| >= 5 && s[4] == '-' && forall i | 0 <= i < 4 :: IsDigit(s[i])
    requires !IsSpace(s[|s| - 1])
    ensures ParseNumber(s) == None
  {
    StripUnchanged(s);
    var k := PointIndex(s);
    assert forall i | 0 <= i < 5 :: s[i] != '.';
    assert !IsDigit(s[..k][4]);
  }

  /** `_to_float` reads the same number from a cell before and after `make_json_safe`:
      a Decimal keeps its value and a date is no number either way. */
  lemma JsonSafeKeepsNumbers(v: Value)
    ensures ToFloat(MakeJsonSafe(v)) == ToFloat(v)
  {
    match v
    case DateCell(d) =>
      IsoTextIsNotANumber(DateIsoFormat(d));
    case DateTimeCell(t) =>
      var s := DateTimeIsoFormat(t);
      assert s[..10] == DateIsoFormat(t.date);
      assert forall i | 0 <= i < 4 :: s[i] == s[..10][i];
      IsoTextIsNotANumber(s);
    case _ =>
  }

  /** `_to_date` reads a datetime cell made JSON-safe as that datetime, and a plain
      date cell (which it would not read at all) as midnight of that day. */
  lemma JsonSafeKeepsDates(v: Value)
    ensures ToDate(MakeJsonSafe(v)) == (if v.DateCell? then Some(Midnight(v.date)) else ToDate(v))
  {
    match v
    case DateCell(d) => DateToIsoAndBack(d);
    case DateTimeCell(t) => DateTimeToIsoAndBack(t);
    case _ =>
  }

  // ---------------------------------------------------------------------------
  // The validation client
  // ---------------------------------------------------------------------------

  /** What `call_validation_service` hands back when the validation service runs
      `validate`. The client first encodes the object as JSON; an object holding a
      time or timedelta cell makes that raise, and an object the service fails on
      makes it answer HTTP 500. In both cases the client returns its own fallback
      block, whose reason is the text `failure` of what it caught. Otherwise it
      returns the service's report. The client never raises. */
  function ClientReply(ko: KnowledgeObject, failure: string): (v: ValidationReply)
    ensures JsonEncodable(ko) && Validate(ko).Returned? ==> v == ValidationReply(None, Validate(ko).value)
    ensures !JsonEncodable(ko) || Validate(ko).Raised? ==>
              && v.error == Some(failure) && v.report.errors == 1
              && |v.report.findings| == 1
              && v.report.findings[0].documents == [FilenameOf(ko)]
  {
    if !JsonEncodable(ko) then UnreachableBlock(failure, FilenameOf(ko))
    else
      match Validate(ko)
      case Returned(r) => ValidationReply(None, r)
      case Raised(_) => UnreachableBlock(failure, FilenameOf(ko))
  }

  /** The backend's validation collaborator is the client talking to the validation
      service. This takes the service to be running: as written, its `main.py`
      imports a `ValidationResponse` that its `schemas.py` does not define.
      One `failure` text stands for `str(e)` of whatever the client catches (the
      encoding TypeError, a connection error, the HTTPError of `raise_for_status`);
      the wording of that text is not modelled. */
  ghost predicate ValidatesThroughClient(env: Collaborators, failure: string) {
    forall ko :: env.validate(ko) == Returned(ClientReply(ko, failure))
  }

  // ---------------------------------------------------------------------------
  // A statement workbook, end to end
  // ---------------------------------------------------------------------------

  const StatementColumns: seq<string> := ["DATE", "DESCRIPTION", "DEBIT", "CREDIT"]

  /** The header row of a statement workbook as the sheet reader hands it over. */
  const StatementHeader: seq<Value> := [Str("DATE"), Str("DESCRIPTION"), Str("DEBIT"), Str("CREDIT")]

  /** `str(t)` of a text cell is the text itself. */
  ghost predicate ShowsTextAsIs(display: Value -> string) {
    forall t: string :: display(Str(t)) == t
  }

  /** The date the rule engine reads from a cell the backend wrote: a date cell as
      its midnight, anything else as `_to_date` reads it. */
  function CellDate(v: Value): Option<DateTime> {
    if v.DateCell? then Some(Midnight(v.date)) else ToDate(v)
  }

  /** A sheet row whose DEBIT and CREDIT cells are not both numbers and hold no negative number. */
  predicate OneSidedEntry(row: seq<Value>) {
    && !(ToFloat(CellAt(row, 2)).Some? && ToFloat(CellAt(row, 3)).Some?)
    && !(ToFloat(CellAt(row, 2)).Some? && ToFloat(CellAt(row, 2)).value < 0.0)
    && !(ToFloat(CellAt(row, 3)).Some? && ToFloat(CellAt(row, 3)).value < 0.0)
  }

  /** A text header without surrounding whitespace names its column as written. */
  lemma TextHeader(t: string, display: Value -> string)
    requires ShowsTextAsIs(display)
    requires t != [] && !IsSpace(t[0]) && !IsSpace(t[|t| - 1])
    ensures HeaderName(Str(t), display) == t
  {
    StripUnchanged(t);
  }

  lemma StatementHeaderKeys(display: Value -> string)
    requires ShowsTextAsIs(display)
    ensures ColumnKeys(Headers(StatementHeader, display)) == StatementColumns
  {
    forall i | 0 <= i < 4
      ensures HeaderName(StatementHeader[i], display) == StatementColumns[i]
    {
      TextHeader(StatementColumns[i], display);
    }
    var hs := Headers(StatementHeader, display);
    assert hs == StatementColumns;
  }

  /** The fields the bank rules read from the record of a statement row. */
  lemma StatementRecordFields(row: seq<Value>)
    ensures DateOf(RowRecord(StatementColumns, row)) == CellDate(CellAt(row, 0))
    ensures DebitOf(RowRecord(StatementColumns, row)) == ToFloat(CellAt(row, 2))
    ensures CreditOf(RowRecord(StatementColumns, row)) == ToFloat(CellAt(row, 3))
  {
    assert LastWithKey(StatementColumns, 0, 4);
    assert LastWithKey(StatementColumns, 2, 4);
    assert LastWithKey(StatementColumns, 3, 4);
    RecordHoldsLastColumn(StatementColumns, row, 0);
    RecordHoldsLastColumn(StatementColumns, row, 2);
    RecordHoldsLastColumn(StatementColumns, row, 3);
    JsonSafeKeepsDates(CellAt(row, 0));
    JsonSafeKeepsNumbers(CellAt(row, 2));
    JsonSafeKeepsNumbers(CellAt(row, 3));
  }

  /** `rows` are what the rule engine reads from the entries of `sheet` below its header. */
  predicate ReadsAs(rows: seq<Row>, sheet: seq<seq<Value>>) {
    && |rows| == |sheet| - 1
    && (forall k | 0 <= k < |rows| :: DateOf(rows[k]) == CellDate(CellAt(sheet[k + 1], 0)))
    && (forall k | 0 <= k < |rows| :: (!BothPresent(rows[k]) && !HasNegative(rows[k])) == OneSidedEntry(sheet[k + 1]))
  }

  /** The bank rows the validation service sees for a statement workbook. */
  lemma StatementRows(sheet: seq<seq<Value>>, display: Value -> string, rows: seq<Row>)
    requires |sheet| >= 2 && sheet[0] == StatementHeader && ShowsTextAsIs(display)
    requires var items := ExcelToKnowledge(sheet, display)["rows"].items;
             AllRecords(items) && rows == Records(items)
    ensures ReadsAs(rows, sheet)
  {
    StatementHeaderKeys(display);
    forall k | 0 <= k < |rows|
      ensures DateOf(rows[k]) == CellDate(CellAt(sheet[k + 1], 0))
      ensures (!BothPresent(rows[k]) && !HasNegative(rows[k])) == OneSidedEntry(sheet[k + 1])
    {
      StatementRecordFields(sheet[k + 1]);
    }
  }

  /** A statement workbook: the DATE/DESCRIPTION/DEBIT/CREDIT header, at least three
      entries, every date readable and in order, every entry on one side only with no
      negative amount, and no time or timedelta cell under the four headers. */
  ghost predicate CleanStatement(sheet: seq<seq<Value>>, display: Value -> string) {
    && |sheet| >= 1 + MinimumRows
    && sheet[0] == StatementHeader
    && ShowsTextAsIs(display)
    && CleanEntries(sheet)
  }

  /** Every entry below the header has a readable date, in order, is one-sided, and
      holds nothing JSON cannot encode in its four columns. */
  predicate CleanEntries(sheet: seq<seq<Value>>) {
    && (forall k, j | 1 <= k < |sheet| && 0 <= j < |StatementColumns| :: !CellAt(sheet[k], j).Unencodable?)
    && (forall k | 1 <= k < |sheet| :: CellDate(CellAt(sheet[k], 0)).Some?)
    && (forall k, l | 1 <= k < l < |sheet| ::
          NotBefore(CellDate(CellAt(sheet[l], 0)).value, CellDate(CellAt(sheet[k], 0)).value))
    && (forall k | 1 <= k < |sheet| :: OneSidedEntry(sheet[k]))
  }

  /** The rows of a clean statement workbook meet all three bank rules. */
  lemma CleanStatementRows(sheet: seq<seq<Value>>, rows: seq<Row>)
    requires |sheet| >= 1 + MinimumRows && CleanEntries(sheet) && ReadsAs(rows, sheet)
    ensures |rows| >= MinimumRows && DatesChronological(rows) && AmountsSane(rows)
  {
    CleanDates(sheet, rows);
    CleanAmounts(sheet, rows);
  }

  lemma CleanAmounts(sheet: seq<seq<Value>>, rows: seq<Row>)
    requires CleanEntries(sheet) && ReadsAs(rows, sheet)
    ensures AmountsSane(rows)
  {
    forall k | 0 <= k < |rows| ensures !BothPresent(rows[k]) && !HasNegative(rows[k]) {
      assert OneSidedEntry(sheet[k + 1]);
    }
  }

  lemma CleanDates(sheet: seq<seq<Value>>, rows: seq<Row>)
    requires |sheet| >= 2 && CleanEntries(sheet) && ReadsAs(rows, sheet)
    ensures DatesChronological(rows)
  {
    var d := seq(|rows|, k requires 0 <= k < |rows| => CellDate(CellAt(sheet[k + 1], 0)).value);
    forall k | 0 <= k < |rows| ensures DateOf(rows[k]) == Some(d[k]) {
      assert 1 <= k + 1 < |sheet|;
    }
    forall i, j | 0 <= i < j < |d| ensures NotBefore(d[j], d[i]) {
      assert 1 <= i + 1 < j + 1 < |sheet|;
    }
    ChronologicalFromDates(rows, d);
  }

  /** Rows whose dates all read, as `d`, in order, are chronological. */
  lemma ChronologicalFromDates(rows: seq<Row>, d: seq<DateTime>)
    requires rows != [] && |d| == |rows|
    requires forall k | 0 <= k < |rows| :: DateOf(rows[k]) == Some(d[k])
    requires NonDecreasing(d)
    ensures DatesChronological(rows)
  {
    ParsedDatesAllParse(rows);
    assert ParsedDates(rows) == d;
  }

  /** A clean statement workbook, extracted and sent to `validate`, passes all three
      bank rules. */
  lemma CleanStatementPasses(sheet: seq<seq<Value>>, display: Value -> string, metadata: map<string, string>)
    requires CleanStatement(sheet, display)
    ensures var ko := KnowledgeObject("excel", Some("bank_statement"), ExcelToKnowledge(sheet, display), [], metadata);
            && Validate(ko).Returned?
            && Validate(ko).value.total == 3 && Validate(ko).value.passed == 3
            && Validate(ko).value.warnings == 0 && Validate(ko).value.errors == 0
  {
    var ko := KnowledgeObject("excel", Some("bank_statement"), ExcelToKnowledge(sheet, display), [], metadata);
    var items := RowsEntryOf(ko).items;
    assert UsesBankRules(ko) && AllRecords(items);
    var rows := Records(items);
    StatementRows(sheet, display, rows);
    CleanStatementRows(sheet, rows);
    BankStatementAllPass(rows, FilenameOf(ko));
  }

  /** The knowledge object a clean statement workbook becomes is one `json.dumps` accepts. */
  lemma CleanStatementEncodable(sheet: seq<seq<Value>>, display: Value -> string, metadata: map<string, string>)
    requires CleanStatement(sheet, display)
    ensures JsonEncodable(KnowledgeObject("excel", Some("bank_statement"), ExcelToKnowledge(sheet, display), [], metadata))
  {
    var e := ExcelToKnowledge(sheet, display);
    StatementHeaderKeys(display);
    var items := e["rows"].items;
    forall k | 0 <= k < |items| ensures ElementEncodable(items[k]) {
      var row := sheet[k + 1];
      assert items[k].record == RowRecord(StatementColumns, row);
      assert forall j | 0 <= j < |StatementColumns| :: !CellAt(row, j).Unencodable?;
      RowRecordEncodable(StatementColumns, row);
    }
    assert EntryEncodable(e["rows"]);
    assert e.Keys == {"rows"};
  }

  /** A workbook with fewer than three entries below its header (or none at all) fails
      the minimum-rows check with one error. */
  lemma ShortSheetIsAnError(sheet: seq<seq<Value>>, display: Value -> string, metadata: map<string, string>)
    requires |sheet| < 1 + MinimumRows
    ensures var ko := KnowledgeObject("excel", Some("bank_statement"), ExcelToKnowledge(sheet, display), [], metadata);
            && Validate(ko).Returned?
            && Validate(ko).value.errors == 1
            && Validate(ko).value.findings[0].message == TooFewRows(if |sheet| < 2 then 0 else |sheet| - 1)
  {
    var ko := KnowledgeObject("excel", Some("bank_statement"), ExcelToKnowledge(sheet, display), [], metadata);
    var items := RowsEntryOf(ko).items;
    assert UsesBankRules(ko) && AllRecords(items);
    var rows := Records(items);
    assert |rows| == (if |sheet| < 2 then 0 else |sheet| - 1);
    var r := ValidateBankStatement(rows, FilenameOf(ko));
    assert Validate(ko) == Returned(r);
    assert r.findings[0] == RowCountFinding(rows, FilenameOf(ko));
  }

  // ---------------------------------------------------------------------------
  // Job lifecycle
  // ---------------------------------------------------------------------------

  /** The statuses job `jobId` shows before the calls `ops` and after each of them. */
  function StatusTrace(s: Store, jobId: string, ops: seq<StoreOp>): (t: seq<string>)
    requires jobId in s
    ensures |t| == |ops| + 1
    ensures t[0] == s[jobId].status
    decreases |ops|
  {
    if ops == [] then [s[jobId].status]
    else [s[jobId].status] + StatusTrace(ApplyOp(s, jobId, ops[0]), jobId, ops[1..])
  }

  /** An uploaded job is QUEUED, then RUNNING through extraction and validation, and
      ends DONE when extraction returns and FAILED when it raises. */
  lemma UploadThenProcess(s: Store, jobId: string, filename: string, path: string, env: Collaborators)
    ensures var created := CreateJob(s, jobId, filename, path);
            var trace := StatusTrace(created, jobId, Calls(created, jobId, env));
            && (trace == [Queued, Running, Running, Done] <==> ExtractionReturns(filename, path, env))
            && (trace == [Queued, Running, Running, Failed] <==> !ExtractionReturns(filename, path, env))
  {
    var created := CreateJob(s, jobId, filename, path);
    var ops := Calls(created, jobId, env);
    var s1 := ApplyOp(created, jobId, ops[0]);
    var s2 := ApplyOp(s1, jobId, ops[1]);
    var s3 := ApplyOp(s2, jobId, ops[2]);
    assert ops[1..][1..] == [ops[2]] && [ops[2]][1..] == [];
    assert StatusTrace(s2, jobId, [ops[2]]) == [Running, s3[jobId].status];
    assert StatusTrace(s1, jobId, ops[1..]) == [Running, Running, s3[jobId].status];
    var trace := StatusTrace(created, jobId, ops);
    assert trace == [Queued, Running, Running, s3[jobId].status];
    assert created[jobId].filename == filename && created[jobId].path == path;
    assert s3[jobId].status == ops[2].status;
    assert ops[2].status == Done <==> ExtractionReturns(filename, path, env);
  }

  /** Nothing keeps a finished job finished: processing it again puts it back to RUNNING
      and replaces its stored result. */
  lemma FinishedJobCanRerun(s: Store, jobId: string, env: Collaborators)
    requires jobId in s && s[jobId].status == Done
    ensures StatusTrace(s, jobId, Calls(s, jobId, env))[1] == Running
    ensures ProcessDocument(s, jobId, env)[jobId].status == Done
            <==> ExtractionReturns(s[jobId].filename, s[jobId].path, env)
  {
    var ops := Calls(s, jobId, env);
    assert StatusTrace(s, jobId, ops)[1] == StatusTrace(ApplyOp(s, jobId, ops[0]), jobId, ops[1..])[0];
  }

  /** A clean statement workbook uploaded as an `.xlsx` statement ends DONE with a report
      in which all three checks passed. */
  lemma CleanStatementJob(s: Store, jobId: string, env: Collaborators, sheet: seq<seq<Value>>, failure: string)
    requires jobId in s
    requires IsExcel(s[jobId].filename) && GuessDocType(s[jobId].filename) == "bank_statement"
    requires env.readSheet(s[jobId].path) == Returned(sheet)
    requires CleanStatement(sheet, env.display)
    requires ValidatesThroughClient(env, failure)
    ensures var job := ProcessDocument(s, jobId, env)[jobId];
            && job.status == Done
            && job.result.value.Completed?
            && job.result.value.validation.error == None
            && job.result.value.validation.report.passed == 3
            && job.result.value.validation.report.errors == 0
  {
    var job := s[jobId];
    var ko := BuildKnowledge(job.filename, job.path, jobId, env).value;
    CleanStatementPasses(sheet, env.display, Metadata(job.filename, jobId));
    CleanStatementEncodable(sheet, env.display, Metadata(job.filename, jobId));
    assert ko == KnowledgeObject("excel", Some("bank_statement"), ExcelToKnowledge(sheet, env.display), [],
                                 Metadata(job.filename, jobId));
    assert env.validate(ko) == Returned(ClientReply(ko, failure));
  }

  /** A time or timedelta cell under DESCRIPTION stays in the knowledge object, which
      `json.dumps` then rejects. */
  lemma TimeCellNotEncodable(sheet: seq<seq<Value>>, display: Value -> string, metadata: map<string, string>, k: nat)
    requires |sheet| >= 2 && sheet[0] == StatementHeader && ShowsTextAsIs(display)
    requires 1 <= k < |sheet| && CellAt(sheet[k], 1).Unencodable?
    ensures !JsonEncodable(KnowledgeObject("excel", Some("bank_statement"), ExcelToKnowledge(sheet, display), [], metadata))
  {
    StatementHeaderKeys(display);
    var items := ExcelToKnowledge(sheet, display)["rows"].items;
    var rec := items[k - 1].record;
    assert rec == RowRecord(StatementColumns, sheet[k]);
    assert LastWithKey(StatementColumns, 1, 4);
    RecordHoldsLastColumn(StatementColumns, sheet[k], 1);
    assert !ElementEncodable(items[k - 1]);
  }

  /** A statement workbook with a time or timedelta cell under DESCRIPTION cannot be
      sent: the client's JSON encoding fails, and the job ends DONE with the client's
      one-error fallback block. */
  lemma TimeCellJob(s: Store, jobId: string, env: Collaborators, sheet: seq<seq<Value>>, k: nat, failure: string)
    requires jobId in s
    requires IsExcel(s[jobId].filename) && GuessDocType(s[jobId].filename) == "bank_statement"
    requires env.readSheet(s[jobId].path) == Returned(sheet)
    requires |sheet| >= 2 && sheet[0] == StatementHeader && ShowsTextAsIs(env.display)
    requires 1 <= k < |sheet| && CellAt(sheet[k], 1).Unencodable?
    requires ValidatesThroughClient(env, failure)
    ensures var job := ProcessDocument(s, jobId, env)[jobId];
            && job.status == Done
            && job.result.value.Completed?
            && job.result.value.validation.error == Some(failure)
            && job.result.value.validation.report.errors == 1
  {
    var job := s[jobId];
    var ko := BuildKnowledge(job.filename, job.path, jobId, env).value;
    assert ko == KnowledgeObject("excel", Some("bank_statement"), ExcelToKnowledge(sheet, env.display), [],
                                 Metadata(job.filename, jobId));
    TimeCellNotEncodable(sheet, env.display, Metadata(job.filename, jobId), k);
    assert env.validate(ko) == Returned(ClientReply(ko, failure));
  }

  /** A statement read by OCR whose `rows` list holds something other than an object
      makes the validation service fail; the job still ends DONE, with the client's
      one-error fallback block naming the file. */
  lemma MalformedOcrRowsJob(s: Store, jobId: string, env: Collaborators, reply: OcrReply, failure: string)
    requires jobId in s
    requires !IsExcel(s[jobId].filename) && GuessDocType(s[jobId].filename) == "bank_statement"
    requires env.ocr(s[jobId].path) == Returned(reply)
    requires reply.entities.Some? && "rows" in reply.entities.value
    requires reply.entities.value["rows"].ListEntry? && !AllRecords(reply.entities.value["rows"].items)
    requires ValidatesThroughClient(env, failure)
    ensures var job := ProcessDocument(s, jobId, env)[jobId];
            && job.status == Done
            && job.result.value.Completed?
            && job.result.value.validation.error == Some(failure)
            && job.result.value.validation.report.errors == 1
            && job.result.value.validation.report.findings[0].documents == [s[jobId].filename]
  {
    var job := s[jobId];
    var ko := BuildKnowledge(job.filename, job.path, jobId, env).value;
    assert Validate(ko).Raised?;
    assert env.validate(ko) == Returned(ClientReply(ko, failure));
  }
}
