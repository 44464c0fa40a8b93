# FinIntel document pipeline — a Dafny model

FinIntel takes an uploaded financial document and runs it through two services.

The **backend** creates a job for the upload. A background run, `process_document`, then does the rest:
- It classifies the file by its name: bank statement, payslip, invoice or unknown.
- It turns an `.xlsx` workbook into rows of JSON-safe records. Any other file goes to an OCR service.
- It sends the resulting knowledge object to the validation service.
- It stores the outcome on the job and moves the job's status along: QUEUED, RUNNING, DONE or FAILED.

The **validation service** answers `POST /validate`. A bank statement with a `rows` list goes through three rules:
- at least three rows;
- the dates are non-decreasing;
- no row has both a DEBIT and a CREDIT, and no amount is negative.

Every other document gets one generic warning.

This project models that core as pure functions over immutable values:

| module | file | what it holds |
|---|---|---|
| `Wrappers` | wrappers.dfy | `Option`, and `Outcome` (a value returned or an exception raised) |
| `Text` | text.dfy | the string operations the code relies on: `lower()`, `strip()`, `in`, `endswith`, and rendering an `int` in an f-string |
| `Calendar` | calendar.dfy | dates and datetimes, their ordering, `isoformat()`, and `fromisoformat()` for the shapes `isoformat()` produces |
| `Cells` | cells.dfy | a spreadsheet or JSON cell value, and a row as a map from column name to value |
| `Schemas` | schemas.dfy | the knowledge object, findings, the validation report, and the result dict stored on a job |
| `Rules` | rules.dfy | `_to_float`, `_to_date`, `validate_bank_statement`, `validate_generic` |
| `Validation` | validation.dfy | the body of the service's `validate` endpoint |
| `Jobs` | jobs.dfy | the in-memory job store: `create_job`, `get_job`, `update_job_status`, `set_job_result` |
| `Processor` | processor.dfy | `guess_doc_type`, `is_excel`, `make_json_safe`, the sheet-to-rows conversion of `excel_to_knowledge`, and `process_document` |
| `Pipeline` | pipeline.dfy | properties that span both services: what the rule engine reads back from cells the backend made JSON-safe, a statement workbook taken from upload to a stored report, and the status history of a job |

## How the model is built

Calls into code outside the core become parameters. `Processor.Collaborators` bundles four of them:
- `readSheet`: the workbook as openpyxl returns it, a sequence of rows of cells, or the exception raised while opening it.
- `display`: what `str(h)` gives for a header cell.
- `ocr`: the dict the OCR client returns.
- `validate`: the dict the validation client returns.

Exceptions are the `Raised` case of `Outcome`, and `process_document`'s `try`/`except` branches on it.

`process_document` is modelled as the list of store calls it makes (`Processor.Calls`), applied in order to the job map (`Processor.ProcessDocument`). A status history is the status after each of those calls (`Pipeline.StatusTrace`).

The report's finding texts are a `Message` datatype. `Schemas.Title` and `Schemas.Details` render it to the exact strings the rules emit, including the f-strings with row counts and the document type.

The report's two consistency properties are named:
- `Balanced`: `totalChecks == passed + warnings + errors`.
- `Tallied`: each counter equals the number of findings of its kind.

## Behaviour the code fixes that a reader may not expect

In each of these cases the model follows the code.

- **The validation service does not start as written.** Its `main.py` imports `ValidationResponse` (validation/app/main.py:2) and names it as the response model of `validate` (line 13). Its `schemas.py` defines only `KnowledgeObject`, `Finding` and `ValidationResult` (validation/app/schemas.py:5-25). So the import fails. The model takes the evidently intended service: `validate` answers with the counters and findings of `ValidationResult`. `Pipeline.ValidatesThroughClient`, and every lemma that assumes it, takes the service to be running. Without the fix, every call fails, and the backend stores the client's fallback block.
- **Results do not set the status.** `set_job_result` (backend/app/jobs.py:21-23) changes only the result. The DONE status comes from a separate `update_job_status(job_id, "DONE")` call (backend/app/processor.py:158), and the model keeps the two calls apart. Between them, a job holds its result while still RUNNING, and the result endpoint answers "Result not ready yet" for it (backend/app/main.py:54-55).
- **Finished jobs are not frozen.** The upload endpoint describes the background run as taking a job from RUNNING to DONE (backend/app/main.py:31), and the result endpoint treats DONE as final. Nothing in the store enforces that. `update_job_status` accepts any status over any status. Running `process_document` again on a finished job puts it back to RUNNING (`Pipeline.FinishedJobCanRerun`).
- **Creating a job overwrites.** `create_job` on an existing id silently replaces that record (`Jobs.CreateOverwrites`). The upload endpoint draws a fresh `uuid4` id for every upload (backend/app/main.py:25), so it does not hit this case, but the store itself does not refuse.
- **The fallback block breaks the count invariant.** Every report the rule engine builds has `totalChecks == passed + warnings + errors` (`Rules.ValidateBankStatement`, `Rules.ValidateGeneric`). The fallback block has `totalChecks` 0 and `errors` 1, so it does not balance (`Processor.UnreachableBlockIsUnbalanced`).
- **Only the client's fallback block is ever stored.** `call_validation_service` catches every exception and returns its own fallback block (backend/app/client.py:19-39). It never raises, so the processor's own `except` block (backend/app/processor.py:128-145) is unreachable. The two blocks have the same shape and both name the job's file: the client reads it from the metadata, which the processor filled with the job's filename. The model builds both with `Processor.UnreachableBlock`. `Processor.Analyse` keeps the processor's branch for an arbitrary `validate` collaborator, and `Pipeline.ClientReply` is the client.
- **A workbook JSON cannot encode is not validated.** The client encodes the knowledge object as JSON before sending it (backend/app/client.py:21). `make_json_safe` converts dates, datetimes and Decimals, but leaves time and timedelta cells as they are (backend/app/processor.py:32-38). Encoding them raises inside the client, so such a workbook gets the client's one-error block instead of a report (`Pipeline.TimeCellJob`).
- **A malformed row list is a server error.** When a bank statement's `rows` list holds a non-object, the service does not degrade: `r.get` raises and the endpoint fails. The model returns `Raised` for that case (`Validation.Validate`). Through the backend's client, this shows up as the client's one-error fallback block (`Pipeline.MalformedOcrRowsJob`).

## Model

| member | source | states |
|---|---|---|
| Text.LowerOfUpper | backend/app/processor.py:13 | lower-casing forgets case: `lower(upper(s)) == lower(s)`, and lower-casing twice is lower-casing once |
| Text.ToLower | backend/app/processor.py:13 | `lower()` keeps the length and lower-cases each character in place |
| Text.Strip | backend/app/processor.py:67 | `strip()` leaves no whitespace at either end and never lengthens the text |
| Text.StripLeftRemovesSpace | backend/app/processor.py:67 | stripping the front removes only whitespace, and only from the front |
| Text.StripRightRemovesSpace | backend/app/processor.py:67 | stripping the back removes only whitespace, and only from the back |
| Text.StripRemovesOnlySpace | backend/app/processor.py:67 | what `strip()` keeps sits in the input with only whitespace before and after it |
| Text.StripUnchanged | backend/app/processor.py:67 | text with no whitespace at its ends is its own strip, from either side |
| Text.NatToStringRoundTrip | validation/app/rules.py:45 | the decimal digits an f-string writes for a count read back as that count |
| Calendar.BeforeIsStrictTotalOrder | validation/app/rules.py:72 | the `<` used on datetimes is irreflexive, transitive and total, and "not before" is transitive |
| Calendar.DateIsoFormat | backend/app/processor.py:35 | `date.isoformat()` is ten characters: four digits, a dash, and a dash at position 7 |
| Calendar.DateTimeIsoFormat | backend/app/processor.py:35 | `datetime.isoformat()` is nineteen characters: the date's ISO text, then `T`, then the time |
| Calendar.FromIsoFormat | validation/app/rules.py:25 | `fromisoformat` yields only valid datetimes, and only from text of ten or nineteen characters |
| Calendar.Pad2RoundTrip | backend/app/processor.py:35 | a two-digit zero-padded field reads back as its number |
| Calendar.Pad4RoundTrip | backend/app/processor.py:35 | a four-digit zero-padded year reads back as its number |
| Calendar.DateIsoRoundTrip | backend/app/processor.py:35 | parsing a date's ISO text gives back that date |
| Calendar.DateToIsoAndBack | validation/app/rules.py:25 | `fromisoformat(d.isoformat())` is midnight of `d` |
| Calendar.DateTimeToIsoAndBack | validation/app/rules.py:25 | `fromisoformat(t.isoformat())` is `t` |
| Cells.Get | validation/app/rules.py:59 | `r.get(key)` is the stored value, or `None` when the key is missing |
| Schemas.CountsPartition | validation/app/rules.py:31-36 | every finding is counted under exactly one of success, warning and error |
| Schemas.BalancedTalliedCountsFindings | validation/app/rules.py:31-122 | a report whose counters balance and match its findings has exactly one finding per check |
| Rules.ParseNumber | validation/app/rules.py:9 | `float(s)`: blank text is no number, and a negative number needs a leading minus sign |
| Rules.DigitsTextReads | validation/app/rules.py:9 | `float()` of a string of digits is the number they write |
| Rules.NegatedDigitsRead | validation/app/rules.py:9 | `float()` of a minus sign and digits is the negated number |
| Rules.UnsignedDigitsRead | validation/app/rules.py:9 | digits without a point read as their value |
| Rules.NumeralReads | validation/app/rules.py:5-11 | a whole number written in decimal, as text or in a text cell, reads back as that number |
| Rules.NegatedNumeralReads | validation/app/rules.py:9 | a minus sign and a written whole number read back as its negation |
| Rules.ToFloat | validation/app/rules.py:5-11 | `None` gives `None`; a number or Decimal gives its value; a boolean gives 1.0 or 0.0; a date, datetime or other object gives `None` |
| Rules.DateOf | validation/app/rules.py:59 | `_to_date(r.get("DATE"))`: no date without the key, else the date the stored value reads as |
| Rules.DebitOf | validation/app/rules.py:96 | `_to_float(r.get("DEBIT"))`: no debit without the key, else the number the stored value reads as |
| Rules.CreditOf | validation/app/rules.py:97 | `_to_float(r.get("CREDIT"))`: no credit without the key, else the number the stored value reads as |
| Rules.NegativeMeansMinus | validation/app/rules.py:102 | an amount read as negative was a negative number or text starting with `-` |
| Rules.ToDate | validation/app/rules.py:14-28 | a datetime is kept; text goes through `fromisoformat`; `None`, a plain date and anything else give `None` |
| Rules.ParsedDates | validation/app/rules.py:59-60 | `cleaned` has at most one date per row, is empty exactly when no DATE parses, and holds only dates some row parses to |
| Rules.ParsedDatesAppend | validation/app/rules.py:59-60 | the filter distributes over concatenation, so `cleaned` keeps row order |
| Rules.ParsedDatesAllParse | validation/app/rules.py:60 | when every DATE parses, `cleaned[i]` is row `i`'s date |
| Rules.InSequenceFrom | validation/app/rules.py:70-74 | the loop with `break` ends with `ok` true exactly when every adjacent pair is in order |
| Rules.AdjacentToAllPairs | validation/app/rules.py:71-74 | adjacent pairs in order put every pair in order |
| Rules.InSequenceIffNonDecreasing | validation/app/rules.py:70-74 | the loop's verdict is exactly "the dates are non-decreasing", both ways |
| Rules.Suspicion | validation/app/rules.py:96-103 | one row adds at most 2 to `bad_count`, 0 exactly when it is neither two-sided nor negative, 2 exactly when both |
| Rules.BadCount | validation/app/rules.py:94-103 | `bad_count` is at most twice the row count and is 0 exactly when every row is one-sided and non-negative |
| Rules.BadCountAppend | validation/app/rules.py:95-103 | `bad_count` adds up over consecutive runs of rows |
| Rules.RowCountFinding | validation/app/rules.py:38-55 | rule 1 succeeds exactly when there are at least 3 rows and errs otherwise, reporting the row count |
| Rules.DateOrderFinding | validation/app/rules.py:57-90 | rule 2 never errs; it says "not detected" exactly when no DATE parses, and succeeds exactly when the parsed dates exist and are in order |
| Rules.DebitCreditFinding | validation/app/rules.py:92-120 | rule 3 never errs; it succeeds exactly when amounts are sane, and its warning reports `bad_count` > 0 |
| Rules.ValidateBankStatement | validation/app/rules.py:31-122 | three checks and three findings, counters balanced and tallied, one error exactly when there are fewer than 3 rows |
| Rules.BankStatementFindings | validation/app/rules.py:57-120 | every finding names the file; the date finding and the amount finding mean what rules 2 and 3 say |
| Rules.BankStatementAllPass | validation/app/rules.py:31-122 | all three checks pass exactly when there are at least 3 rows, the dates are chronological and the amounts are sane; then there are no warnings and no errors |
| Rules.ValidateGeneric | validation/app/rules.py:125-137 | one check, one warning naming the file, whose details contain the document type |
| Validation.FilenameOf | validation/app/main.py:15 | the metadata filename, or "unknown" when it is missing |
| Validation.DocTypeOf | validation/app/main.py:19 | the document type, or "unknown" when it is missing or empty |
| Validation.RowsEntryOf | validation/app/main.py:18 | the `rows` entity, or an empty list when it is missing |
| Validation.Validate | validation/app/main.py:13-32 | bank rules run exactly for a bank statement whose `rows` is a list, and fail exactly when that list holds a non-object; every report is balanced and tallied and names the file |
| Validation.MissingRowsIsOneError | validation/app/main.py:18-22 | a bank statement without `rows` gets one error, "Too few transactions" with 0 rows |
| Validation.MissingDocTypeIsUnknown | validation/app/main.py:19-24 | a missing or empty document type gets the generic rules under "unknown" |
| Jobs.CreateJob | backend/app/jobs.py:4-11 | the id maps to a fresh QUEUED record with no result; other jobs are untouched |
| Jobs.GetJob | backend/app/jobs.py:14-15 | a record exactly when the id is known, and that record |
| Jobs.UpdateJobStatus | backend/app/jobs.py:17-19 | only the status of a known job changes; an unknown id leaves the store as it was |
| Jobs.SetJobResult | backend/app/jobs.py:21-23 | only the result of a known job changes, and its status is kept; an unknown id leaves the store as it was |
| Jobs.GetAfterCreate | backend/app/jobs.py:4-15 | reading a job just created gives the fresh QUEUED record |
| Jobs.CreateOverwrites | backend/app/jobs.py:4-11 | creating twice under one id keeps only the second record |
| Jobs.StatusAndResultCommute | backend/app/jobs.py:17-23 | setting a status and setting a result commute |
| Jobs.AnyTransitionAccepted | backend/app/jobs.py:17-19 | any status can be written over any status |
| Processor.GuessDocType | backend/app/processor.py:12-22 | one of four types: bank statement exactly when the lower-cased name mentions bank or statement, then payslip/salary, then invoice/bill, else unknown |
| Processor.GuessDocTypeIgnoresCase | backend/app/processor.py:13 | classification does not depend on letter case |
| Processor.IsExcel | backend/app/processor.py:27-28 | exactly the names whose last five characters are `.xlsx` in any case |
| Processor.XlsIsNotExcel | backend/app/processor.py:26-28 | a `.xls` name is never treated as a workbook |
| Processor.MakeJsonSafe | backend/app/processor.py:32-38 | the result is JSON-safe; a JSON-safe value is unchanged; a Decimal becomes its float; a date or datetime becomes text; the result is JSON-encodable exactly when the cell is not a time or timedelta |
| Processor.HeaderName | backend/app/processor.py:63-67 | an empty header cell gives ""; any other gives text with no whitespace at either end, its `str` as is when that has none |
| Processor.Headers | backend/app/processor.py:62-67 | one header per cell of the first row: "" for an empty cell, else the stripped `str` of the cell |
| Processor.ColumnKey | backend/app/processor.py:73 | a key is never empty; a non-blank header is its own key, and a blank one gives `col_` and the column's position |
| Processor.BlankColumnKeysDistinct | backend/app/processor.py:73 | two blank columns never get the same key |
| Processor.CellAt | backend/app/processor.py:74 | the cell under a column, or `None` past the end of a short row |
| Processor.ColumnKeys | backend/app/processor.py:72-73 | one key per header, in column order |
| Processor.JsonCells | backend/app/processor.py:74-75 | one JSON-safe value per column, a missing cell counting as `None` |
| Processor.ExtendKeys | backend/app/processor.py:75 | writing a column keeps the record's keys equal to the keys of the columns written so far |
| Processor.ExtendValues | backend/app/processor.py:75 | writing a column keeps every key holding the value of the last column carrying it |
| Processor.ExtendRecord | backend/app/processor.py:71-75 | one more iteration of the column loop keeps the record equal to the columns written so far |
| Processor.BuildRecord | backend/app/processor.py:71-75 | the column loop's dict has exactly the column keys, and a repeated key holds its last column's value |
| Processor.RowRecord | backend/app/processor.py:70-76 | the record of one data row is the JSON-safe cells under their keys, and all its values are JSON-safe |
| Processor.RecordValuesFromColumns | backend/app/processor.py:72-75 | every value of a record is the value of one of the row's columns |
| Processor.RecordHoldsLastColumn | backend/app/processor.py:71-75 | when column `i` is the last one carrying its key, the record built from the row holds under that key the JSON-safe form of cell `i` — a later column with the same header replaces an earlier one |
| Processor.RowRecordEncodable | backend/app/processor.py:70-76 | a row with no time or timedelta cell in its columns gives a record JSON can encode |
| Processor.LastOccurrence | backend/app/processor.py:72-75 | every key used by a column is last written by that column or a later one |
| Processor.RecordRows | backend/app/processor.py:69-76 | one record per data row, in sheet order |
| Processor.ExcelToKnowledge | backend/app/processor.py:58-78 | fewer than two rows gives an empty list with the note; otherwise only `rows` is present, with one record per data row keyed by the header row |
| Processor.UnreachableBlock | backend/app/processor.py:130-145 | the fallback block carries the error, counts 0/0/0/1, and holds one error finding that names the file and gives the error as details |
| Processor.UnreachableBlockIsUnbalanced | backend/app/processor.py:131-136 | the fallback block's counters match its findings but do not balance |
| Processor.BuildKnowledge | backend/app/processor.py:95-125 | a knowledge object exactly when extraction returns, with the guessed type, the filename and job id as metadata, and source `excel` exactly for a workbook; a workbook gives the sheet's rows as entities and no tables; an OCR reply gives its entities and tables, or empty ones when it has none |
| Processor.Analyse | backend/app/processor.py:127-155 | a completed result exactly when extraction returns, carrying the knowledge object's source, entities, tables and metadata, and the validator's reply or, when it raises, the fallback block |
| Processor.ApplyAll | backend/app/processor.py:82-162 | store calls for one job leave every other job, and the job's name and path, as they were |
| Processor.Calls | backend/app/processor.py:82-162 | RUNNING, then a result, then DONE exactly when the result is complete and extraction returned, otherwise FAILED; a missing job gets "Job not found" |
| Processor.ProcessDocument | backend/app/processor.py:82-162 | a known job ends DONE or FAILED with a result, DONE exactly when extraction returns, and then stores what `Analyse` built; an unknown id leaves the store unchanged |
| Pipeline.IsoTextIsNotANumber | validation/app/rules.py:9 | ISO date text is never read as a number |
| Pipeline.JsonSafeKeepsNumbers | backend/app/processor.py:34-37 | `_to_float` reads the same amount from a cell before and after `make_json_safe` |
| Pipeline.JsonSafeKeepsDates | backend/app/processor.py:34-35 | `_to_date` reads a JSON-safe datetime cell as that datetime and a JSON-safe date cell as its midnight |
| Pipeline.ClientReply | backend/app/client.py:19-39 | the validation client returns the service's report with no error when the object encodes as JSON and the service answers; when encoding fails or the service fails, a one-error block naming the file |
| Pipeline.TextHeader | backend/app/processor.py:67 | a text header without surrounding whitespace names its column as written |
| Pipeline.StatementHeaderKeys | backend/app/processor.py:62-73 | the DATE/DESCRIPTION/DEBIT/CREDIT header row gives exactly those four keys |
| Pipeline.StatementRecordFields | backend/app/processor.py:70-76 | the rules read a statement record's date and amounts as those of its cells |
| Pipeline.StatementRows | backend/app/processor.py:58-78 | the rows the service sees for a statement workbook read, row by row, as the sheet's entries |
| Pipeline.CleanAmounts | validation/app/rules.py:92-105 | one-sided, non-negative entries make the amounts sane |
| Pipeline.CleanDates | validation/app/rules.py:57-75 | readable dates in sheet order make the dates chronological |
| Pipeline.ChronologicalFromDates | validation/app/rules.py:59-75 | rows whose dates all parse, in order, are chronological |
| Pipeline.CleanStatementRows | validation/app/rules.py:38-105 | the rows of a clean statement meet all three rules |
| Pipeline.CleanStatementPasses | validation/app/main.py:18-22 | a clean statement workbook passes 3 of 3 checks with no warning and no error |
| Pipeline.CleanStatementEncodable | backend/app/client.py:21 | the knowledge object of a clean statement workbook encodes as JSON |
| Pipeline.TimeCellNotEncodable | backend/app/processor.py:32-38 | a time or timedelta cell under DESCRIPTION stays in the knowledge object, which then does not encode as JSON |
| Pipeline.ShortSheetIsAnError | backend/app/processor.py:58-59 | a workbook with fewer than three entries gets one error that reports how many rows there were |
| Pipeline.UploadThenProcess | backend/app/processor.py:82-162 | an uploaded job goes QUEUED, RUNNING, RUNNING, then DONE exactly when extraction returns and FAILED exactly when it raises |
| Pipeline.FinishedJobCanRerun | backend/app/processor.py:83 | a DONE job processed again goes back to RUNNING |
| Pipeline.CleanStatementJob | backend/app/processor.py:98-158 | a clean `.xlsx` statement ends DONE with an error-free report in which all 3 checks pass |
| Pipeline.TimeCellJob | backend/app/client.py:19-39 | a statement workbook with a time or timedelta cell ends DONE with the client's one-error block instead of a report |
| Pipeline.MalformedOcrRowsJob | backend/app/processor.py:112-158 | a bank statement whose OCR `rows` hold a non-object still ends DONE, with the client's one-error block naming the file |

## Left out

- Reading the workbook with openpyxl (`load_workbook`, `iter_rows`) is a parameter. The model starts from the list of rows it returns.
- The HTTP calls, the FastAPI apps and routes, the background-task scheduling, file storage, the database module and the front-end script are not part of this model. They are I/O or wiring around the core.
- Concurrency: two runs on the same job interleaving their store calls is not modelled. Each run is one sequence of store calls.
- Rules.ParseNumber: covers only an optional sign followed by decimal digits with at most one point, after stripping. Python's `float()` also accepts exponents, `inf`, `nan`, digit-group underscores and non-ASCII digits and whitespace, and all of these read as "no number" here. Real arithmetic replaces binary floating point.
- Calendar.FromIsoFormat: accepts only `YYYY-MM-DD` and `YYYY-MM-DD?HH:MM:SS`, the two shapes `isoformat()` produces for the cells a workbook holds. The other forms Python accepts (fractional seconds, time zones, week dates, compact forms) read as no date here. Microseconds and time zones on datetime cells are not modelled, so comparing an aware datetime with a naive one, which raises in Python, does not arise.
- Text.Strip: strips the six ASCII whitespace characters. Python's `str.strip()` also strips `\x1c`–`\x1f`, `\x85` and the Unicode space characters.
- Text.ToLower: changes only the ASCII letters A–Z. Python's `str.lower()` also lower-cases non-ASCII letters, so a name with such letters may be classified differently.
- Validation.Validate: the message of the `AttributeError` raised for a non-object row does not name the element's Python type.
- `str(h)` for a header cell is the `display` parameter and is not computed. Only the fact that `str` of a text cell is that text is assumed, by `Pipeline.ShowsTextAsIs`.
- The OCR client turns its own failures into a reply with empty entities. The model takes that reply as the `ocr` parameter. The `Raised` case stands for anything that still escapes, such as a reply that is not a dict.
- Metadata and record values are kept only as far as the rules read them. The metadata map holds text. The cell values that are neither numbers, text, booleans, dates nor Decimals are two cases: `Other`, a value JSON can encode such as a list or a dict, and `Unencodable`, a time or timedelta cell.
- Rules.ParseNumber: the read-back lemmas cover whole numbers, with or without a minus sign. Text with a decimal point is modelled by the function but has no read-back lemma.
- Pipeline.ClientReply: the `error` text of the client's fallback block is one `failure` parameter for every exception the client catches. Python puts `str(e)` there, which differs between the encoding `TypeError`, a connection error and the `HTTPError` of `raise_for_status`. The model fixes only that it is present and that the block has one error.
