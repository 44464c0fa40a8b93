/** The values a spreadsheet cell or a JSON row field can hold, and the row maps
    (`Dict[str, Any]`) the rule engine reads. */
module Cells {
  import opened Calendar

  datatype Value =
    | Null                          // None / JSON null
    | Bool(b: bool)
    | Num(n: real)                  // int or float
    | Decimal(d: real)              // decimal.Decimal
    | Str(s: string)
    | DateCell(date: ValidDate)          // datetime.date
    | DateTimeCell(at: ValidDateTime)    // datetime.datetime
    | Other                         // a list, a dict or another JSON value the core does not inspect
    | Unencodable                   // datetime.time or timedelta: a sheet value JSON has no form for
  {
    /** A value `make_json_safe` hands back as it is: not a date, a datetime or a Decimal. */
    predicate JsonSafe() {
      !(DateCell? || DateTimeCell? || Decimal?)
    }

    /** A value `json.dumps` accepts. */
    predicate Encodable() {
      JsonSafe() && !Unencodable?
    }
  }

  type Row = map<string, Value>

  /** `row.get(key)`: `None` for a missing key. */
  function Get(row: Row, key: string): (v: Value)
    ensures key !in row ==> v == Null
    ensures key in row ==> v == row[key]
  {
    if key in row then row[key] else Null
  }
}
