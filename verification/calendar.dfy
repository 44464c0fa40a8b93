/** Python's `date` and naive `datetime` values, the ISO-8601 text that `isoformat()`
    produces for them, the subset of `datetime.fromisoformat` that reads that text
    back, and the chronological comparison `<` between datetimes. */
module Calendar {
  import opened Wrappers
  import opened Text

  datatype Date = Date(year: int, month: int, day: int) {
    /** The range `datetime.date` accepts: years 1 to 9999 and real calendar days. */
    predicate Valid() {
      1 <= year <= 9999 && 1 <= month <= 12 && 1 <= day <= DaysInMonth(year, month)
    }
  }

  /** A naive datetime at whole-second resolution. */
  datatype DateTime = DateTime(date: Date, hour: int, minute: int, second: int) {
    predicate Valid() {
      date.Valid() && 0 <= hour < 24 && 0 <= minute < 60 && 0 <= second < 60
    }
  }

  /** The dates and datetimes Python can represent. */
  type ValidDate = d: Date | d.Valid() witness Date(1, 1, 1)

  type ValidDateTime = t: DateTime | t.Valid() witness DateTime(Date(1, 1, 1), 0, 0, 0)

  predicate IsLeapYear(y: int) {
    y % 4 == 0 && (y % 100 != 0 || y % 400 == 0)
  }

  function DaysInMonth(y: int, m: int): (n: int)
    ensures 28 <= n <= 31
  {
    if m == 2 then (if IsLeapYear(y) then 29 else 28)
    else if m == 4 || m == 6 || m == 9 || m == 11 then 30
    else 31
  }

  /** The datetime `fromisoformat` builds from a bare date: that day at 00:00:00. */
  function Midnight(d: Date): (t: DateTime)
    ensures t.date == d
    ensures d.Valid() ==> t.Valid()
  {
    DateTime(d, 0, 0, 0)
  }

  // ---------------------------------------------------------------------------
  // Chronological order
  // ---------------------------------------------------------------------------

  /** `a < b` on datetimes: field by field, most significant first. */
  predicate Before(a: DateTime, b: DateTime) {
    if a.date.year != b.date.year then a.date.year < b.date.year
    else if a.date.month != b.date.month then a.date.month < b.date.month
    else if a.date.day != b.date.day then a.date.day < b.date.day
    else if a.hour != b.hour then a.hour < b.hour
    else if a.minute != b.minute then a.minute < b.minute
    else a.second < b.second
  }

  /** `b` is not earlier than `a`, i.e. `not (b < a)`. */
  predicate NotBefore(b: DateTime, a: DateTime) {
    !Before(b, a)
  }

  lemma BeforeIsStrictTotalOrder(a: DateTime, b: DateTime, c: DateTime)
    ensures !Before(a, a)
    ensures Before(a, b) && Before(b, c) ==> Before(a, c)
    ensures a != b ==> Before(a, b) || Before(b, a)
    ensures NotBefore(b, a) && NotBefore(c, b) ==> NotBefore(c, a)
  {
  }

  /** Every later element is not earlier than every earlier one. */
  predicate NonDecreasing(c: seq<DateTime>) {
    forall i, j | 0 <= i < j < |c| :: NotBefore(c[j], c[i])
  }

  // ---------------------------------------------------------------------------
  // isoformat
  // ---------------------------------------------------------------------------

  function Pad2(n: int): (s: string)
    requires 0 <= n < 100
    ensures |s| == 2
  {
    [DigitChar(n / 10), DigitChar(n % 10)]
  }

  function Pad4(n: int): (s: string)
    requires 0 <= n < 10000
    ensures |s| == 4
  {
    [DigitChar(n / 1000), DigitChar(n / 100 % 10), DigitChar(n / 10 % 10), DigitChar(n % 10)]
  }

  /** `date.isoformat()`: `YYYY-MM-DD`. */
  function DateIsoFormat(d: Date): (s: string)
    requires d.Valid()
    ensures |s| == 10 && s[4] == '-' && s[7] == '-'
    ensures forall i | 0 <= i < 4 :: IsDigit(s[i])
  {
    Pad4(d.year) + "-" + Pad2(d.month) + "-" + Pad2(d.day)
  }

  /** `datetime.isoformat()` for a datetime without microseconds: `YYYY-MM-DDTHH:MM:SS`. */
  function DateTimeIsoFormat(t: DateTime): (s: string)
    requires t.Valid()
    ensures |s| == 19 && s[..10] == DateIsoFormat(t.date) && s[10] == 'T'
  {
    DateIsoFormat(t.date) + "T" + Pad2(t.hour) + ":" + Pad2(t.minute) + ":" + Pad2(t.second)
  }

  // ---------------------------------------------------------------------------
  // fromisoformat
  // ---------------------------------------------------------------------------

  /** A fixed-width run of decimal digits. */
  function ReadDigits(s: string): (r: Option<nat>)
    ensures r.Some? <==> AllDigits(s)
  {
    if AllDigits(s) then Some(DigitsValue(s)) else None
  }

  /** `YYYY-MM-DD`, rejected unless it names a real day. */
  function ParseIsoDate(s: string): (r: Option<Date>)
    ensures r.Some? ==> r.value.Valid()
  {
    if |s| != 10 || s[4] != '-' || s[7] != '-' then None
    else
      match (ReadDigits(s[..4]), ReadDigits(s[5..7]), ReadDigits(s[8..]))
      case (Some(y), Some(m), Some(d)) =>
        if Date(y, m, d).Valid() then Some(Date(y, m, d)) else None
      case _ => None
  }

  /** `HH:MM:SS`, rejected when a field is out of range. */
  function ParseIsoTime(s: string): (r: Option<(int, int, int)>)
    ensures r.Some? ==> 0 <= r.value.0 < 24 && 0 <= r.value.1 < 60 && 0 <= r.value.2 < 60
  {
    if |s| != 8 || s[2] != ':' || s[5] != ':' then None
    else
      match (ReadDigits(s[..2]), ReadDigits(s[3..5]), ReadDigits(s[6..]))
      case (Some(h), Some(m), Some(sec)) =>
        if h < 24 && m < 60 && sec < 60 then Some((h, m, sec)) else None
      case _ => None
  }

  /** `datetime.fromisoformat(s)` on the two shapes `isoformat()` emits: a date alone
      (read as midnight) or a date, any one separator character and a time.
      `None` stands for the `ValueError` it raises on anything else. */
  function FromIsoFormat(s: string): (r: Option<DateTime>)
    ensures r.Some? ==> r.value.Valid()
    ensures r.Some? ==> |s| == 10 || |s| == 19
  {
    if |s| == 10 then
      match ParseIsoDate(s)
      case Some(d) => Some(Midnight(d))
      case None => None
    else if |s| == 19 then
      match (ParseIsoDate(s[..10]), ParseIsoTime(s[11..]))
      case (Some(d), Some((h, m, sec))) => Some(DateTime(d, h, m, sec))
      case _ => None
    else None
  }

  // ---------------------------------------------------------------------------
  // Round trips
  // ---------------------------------------------------------------------------

  lemma Pad2RoundTrip(n: int)
    requires 0 <= n < 100
    ensures AllDigits(Pad2(n)) && DigitsValue(Pad2(n)) == n
  {
    var s := Pad2(n);
    assert s[..1][..0] == [];
    assert DigitsValue(s[..1]) == n / 10;
    assert DigitsValue(s) == DigitsValue(s[..1]) * 10 + n % 10;
  }

  lemma Pad4RoundTrip(n: int)
    requires 0 <= n < 10000
    ensures AllDigits(Pad4(n)) && DigitsValue(Pad4(n)) == n
  {
    var s := Pad4(n);
    assert s[..3][..2][..1][..0] == [];
    assert DigitsValue(s[..3][..2][..1]) == n / 1000;
    assert DigitsValue(s[..3][..2]) == n / 1000 * 10 + n / 100 % 10;
    assert DigitsValue(s[..3]) == (n / 1000 * 10 + n / 100 % 10) * 10 + n / 10 % 10;
    assert DigitsValue(s) == DigitsValue(s[..3]) * 10 + n % 10;
    var a := n / 10;
    var b := a / 10;
    assert n / 100 == b;
    assert n / 1000 == b / 10;
    assert b / 10 * 10 + b % 10 == b;
    assert b * 10 + a % 10 == a;
    assert a * 10 + n % 10 == n;
  }

  /** `date.fromisoformat(d.isoformat()) == d`. */
  lemma {:induction false} DateIsoRoundTrip(d: Date)
    requires d.Valid()
    ensures ParseIsoDate(DateIsoFormat(d)) == Some(d)
  {
    var s := DateIsoFormat(d);
    assert s[..4] == Pad4(d.year);
    assert s[5..7] == Pad2(d.month);
    assert s[8..] == Pad2(d.day);
    Pad4RoundTrip(d.year);
    Pad2RoundTrip(d.month);
    Pad2RoundTrip(d.day);
  }

  /** A date written by `isoformat()` reads back as that day at midnight. */
  lemma {:induction false} DateToIsoAndBack(d: Date)
    requires d.Valid()
    ensures FromIsoFormat(DateIsoFormat(d)) == Some(Midnight(d))
  {
    DateIsoRoundTrip(d);
  }

  /** `datetime.fromisoformat(t.isoformat()) == t`. */
  lemma {:induction false} DateTimeToIsoAndBack(t: DateTime)
    requires t.Valid()
    ensures FromIsoFormat(DateTimeIsoFormat(t)) == Some(t)
  {
    var s := DateTimeIsoFormat(t);
    DateIsoRoundTrip(t.date);
    assert s[11..] == Pad2(t.hour) + ":" + Pad2(t.minute) + ":" + Pad2(t.second);
    assert s[11..][..2] == Pad2(t.hour);
    assert s[11..][3..5] == Pad2(t.minute);
    assert s[11..][6..] == Pad2(t.second);
    Pad2RoundTrip(t.hour);
    Pad2RoundTrip(t.minute);
    Pad2RoundTrip(t.second);
  }
}
