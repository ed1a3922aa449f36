/** Calendar dates and the string conversions of `convert_date`: parsing the
    `YYYYMMDD`, `YYYY-MM-DD` and `YYYY-MM-DDTHH:MM:SS` shapes with the field
    rules of Python's `datetime.strptime`, and formatting as `str8`, `str10`,
    `sql8` and `sql10`. */
module Dates {
  import opened Wrappers
  import Ordering

  /** A calendar day; the time of day is never retained. */
  datatype Date = Date(year: int, month: int, day: int)

  /** Gregorian leap-year rule. */
  predicate IsLeapYear(y: int) {
    y % 4 == 0 && (y % 100 != 0 || y % 400 == 0)
  }

  function DaysInMonth(y: int, m: int): (n: int)
    requires 1 <= m <= 12
    ensures 28 <= n <= 31
    ensures m == 2 ==> (n == 29 <==> IsLeapYear(y))
  {
    if m == 2 then (if IsLeapYear(y) then 29 else 28)
    else if m == 4 || m == 6 || m == 9 || m == 11 then 30
    else 31
  }

  /** The dates Python's `datetime.date` can hold (years 1 to 9999). */
  predicate IsValid(d: Date) {
    && 1 <= d.year <= 9999
    && 1 <= d.month <= 12
    && 1 <= d.day <= DaysInMonth(d.year, d.month)
  }

  type CalendarDate = d: Date | IsValid(d) witness Date(1, 1, 1)

  /** Chronological order: by year, then month, then day. */
  predicate Before(a: Date, b: Date) {
    || a.year < b.year
    || (a.year == b.year && a.month < b.month)
    || (a.year == b.year && a.month == b.month && a.day < b.day)
  }

  /** `a <= b` on dates. */
  predicate OnOrBefore(a: Date, b: Date) {
    !Before(b, a)
  }

  lemma BeforeIsStrictTotalOrder()
    ensures Ordering.StrictTotalOrder(Before)
  {
  }

  // ---------------------------------------------------------------- digits

  predicate IsDigit(c: char) {
    '0' <= c <= '9'
  }

  function DigitValue(c: char): (n: int)
    requires IsDigit(c)
    ensures 0 <= n <= 9
  {
    c as int - '0' as int
  }

  function DigitChar(n: int): (c: char)
    requires 0 <= n <= 9
    ensures IsDigit(c) && DigitValue(c) == n
  {
    ('0' as int + n) as char
  }

  /** Two zero-padded decimal digits (`%m`, `%d`, `%H`, ... on output). */
  function Pad2(n: int): (s: string)
    requires 0 <= n < 100
    ensures |s| == 2 && IsDigit(s[0]) && IsDigit(s[1])
  {
    [DigitChar(n / 10), DigitChar(n % 10)]
  }

  /** Four zero-padded decimal digits (`%Y` on output). */
  function Pad4(n: int): (s: string)
    requires 0 <= n < 10000
    ensures |s| == 4 && forall i :: 0 <= i < 4 ==> IsDigit(s[i])
  {
    Pad2(n / 100) + Pad2(n % 100)
  }

  /** The value of two decimal digits. */
  function Value2(a: char, b: char): (n: int)
    requires IsDigit(a) && IsDigit(b)
    ensures 0 <= n < 100
  {
    10 * DigitValue(a) + DigitValue(b)
  }

  lemma Pad2Value(n: int)
    requires 0 <= n < 100
    ensures Value2(Pad2(n)[0], Pad2(n)[1]) == n
  {
  }

  lemma Value2Pad(a: char, b: char)
    requires IsDigit(a) && IsDigit(b)
    ensures Pad2(Value2(a, b)) == [a, b]
  {
    var n := Value2(a, b);
    assert n / 10 == DigitValue(a) && n % 10 == DigitValue(b);
  }

  // ------------------------------------------------------- strptime fields

  /** Why a conversion raised `ValueError`: the explicit raise for an
      unrecognised length, or `strptime` refusing the string (no match, or
      a field outside the calendar or the clock). */
  datatype DateError = UnsupportedLength | Unparseable

  /** `%Y`: exactly four digits. */
  function YearField(s: string): (r: Result<int, DateError>)
    requires |s| == 4
    ensures r.Success? ==> 0 <= r.value < 10000
  {
    if IsDigit(s[0]) && IsDigit(s[1]) && IsDigit(s[2]) && IsDigit(s[3])
    then Success(100 * Value2(s[0], s[1]) + Value2(s[2], s[3]))
    else Failure(Unparseable)
  }

  /** `%m` where the layout leaves it two characters: `01` to `12`. */
  function MonthField(a: char, b: char): (r: Result<int, DateError>)
    ensures r.Success? ==> 1 <= r.value <= 12
  {
    if IsDigit(a) && IsDigit(b) && 1 <= Value2(a, b) <= 12
    then Success(Value2(a, b))
    else Failure(Unparseable)
  }

  /** `%d` where the layout leaves it two characters: `01` to `31`, or a
      space followed by `1` to `9`. */
  function DayField(a: char, b: char): (r: Result<int, DateError>)
    ensures r.Success? ==> 1 <= r.value <= 31
  {
    if IsDigit(a) && IsDigit(b) && 1 <= Value2(a, b) <= 31 then Success(Value2(a, b))
    else if a == ' ' && IsDigit(b) && DigitValue(b) >= 1 then Success(DigitValue(b))
    else Failure(Unparseable)
  }

  /** A two-digit clock field accepted when its value is at most `max`
      (`%H`: 23, `%M`: 59, `%S`: 61). */
  function ClockField(a: char, b: char, max: int): (r: Result<int, DateError>)
    ensures r.Success? ==> 0 <= r.value <= max
  {
    if IsDigit(a) && IsDigit(b) && Value2(a, b) <= max
    then Success(Value2(a, b))
    else Failure(Unparseable)
  }

  /** Building the `date` from parsed fields; `datetime` refuses days the
      month does not have and year 0. */
  function MakeDate(y: int, m: int, d: int): (r: Result<CalendarDate, DateError>)
    ensures r.Success? <==> IsValid(Date(y, m, d))
    ensures r.Success? ==> r.value == Date(y, m, d)
  {
    if IsValid(Date(y, m, d)) then Success(Date(y, m, d)) else Failure(Unparseable)
  }

  /** `strptime(s, "%Y%m%d").date()` */
  function ParseCompact(s: string): Result<CalendarDate, DateError>
    requires |s| == 8
  {
    var y :- YearField(s[..4]);
    var m :- MonthField(s[4], s[5]);
    var d :- DayField(s[6], s[7]);
    MakeDate(y, m, d)
  }

  /** `strptime(s, "%Y-%m-%d").date()` */
  function ParseIso(s: string): Result<CalendarDate, DateError>
    requires |s| == 10
  {
    if s[4] != '-' || s[7] != '-' then Failure(Unparseable)
    else
      var y :- YearField(s[..4]);
      var m :- MonthField(s[5], s[6]);
      var d :- DayField(s[8], s[9]);
      MakeDate(y, m, d)
  }

  /** `strptime(s, "%Y-%m-%dT%H:%M:%S").date()`: the literal `T` matches
      either case, `%S` admits 60 and 61 but `datetime` refuses them, and the
      time of day is then dropped. */
  function ParseIsoDateTime(s: string): Result<CalendarDate, DateError>
    requires |s| == 19
  {
    if (s[10] != 'T' && s[10] != 't') || s[13] != ':' || s[16] != ':' then Failure(Unparseable)
    else
      var hour :- ClockField(s[11], s[12], 23);
      var minute :- ClockField(s[14], s[15], 59);
      var second :- ClockField(s[17], s[18], 61);
      if second > 59 then Failure(Unparseable)
      else ParseIso(s[..10])
  }

  /** The string branch of `convert_date` without `in_fmt`: the shape is
      chosen by the length alone. */
  function ParseDate(s: string): (r: Result<CalendarDate, DateError>)
    ensures r == Failure(UnsupportedLength) <==> |s| != 8 && |s| != 10 && |s| != 19
  {
    if |s| == 8 then ParseCompact(s)
    else if |s| == 10 then ParseIso(s)
    else if |s| == 19 then ParseIsoDateTime(s)
    else Failure(UnsupportedLength)
  }

  // ------------------------------------------------------------ formatting

  /** `strftime("%Y%m%d")` */
  function FormatStr8(d: CalendarDate): (s: string)
    ensures |s| == 8 && forall i :: 0 <= i < 8 ==> IsDigit(s[i])
  {
    Pad4(d.year) + Pad2(d.month) + Pad2(d.day)
  }

  /** `strftime("%Y-%m-%d")` */
  function FormatStr10(d: CalendarDate): (s: string)
    ensures |s| == 10 && s[4] == '-' && s[7] == '-'
  {
    Pad4(d.year) + "-" + Pad2(d.month) + "-" + Pad2(d.day)
  }

  /** `strftime("T%H:%M:%S")`, the time part of the 19-character shape. */
  function FormatTime(hour: int, minute: int, second: int): (s: string)
    requires 0 <= hour < 24 && 0 <= minute < 60 && 0 <= second < 60
    ensures |s| == 9 && s[0] == 'T' && s[3] == ':' && s[6] == ':'
  {
    "T" + Pad2(hour) + ":" + Pad2(minute) + ":" + Pad2(second)
  }

  // ---------------------------------------------------------- convert_date

  /** What `convert_date` accepts here: a string or a `date`. */
  datatype DateInput = Text(s: string) | Day(d: CalendarDate)

  /** The named output types: `date`, `str8`, `str10`, `sql8`, `sql10`. */
  datatype OutType = AsDate | Str8 | Str10 | Sql8 | Sql10

  datatype Converted = DateValue(d: CalendarDate) | TextValue(s: string)

  function Render(d: CalendarDate, outType: OutType): Converted
  {
    match outType
    case AsDate => DateValue(d)
    case Str8 => TextValue(FormatStr8(d))
    case Str10 => TextValue(FormatStr10(d))
    case Sql8 => TextValue("'" + FormatStr8(d) + "'")
    case Sql10 => TextValue("'" + FormatStr10(d) + "'")
  }

  /** `convert_date(in_date, out_type)`: `None` passes through, a string is
      parsed by length, a date is used as is, and the date is rendered. */
  function ConvertDate(input: Option<DateInput>, outType: OutType): (r: Result<Option<Converted>, DateError>)
    ensures input.None? ==> r == Success(None)
    ensures input.Some? && input.value.Text? ==>
              (r.Failure? <==> ParseDate(input.value.s).Failure?)
    ensures input.Some? && input.value.Text? && |input.value.s| !in {8, 10, 19} ==>
              r == Failure(UnsupportedLength)
    ensures input.Some? && input.value.Day? ==> r.Success? && r.value.Some?
    ensures r.Success? && r.value.Some? && outType == AsDate ==> r.value.value.DateValue?
    ensures r.Success? && r.value.Some? && outType != AsDate ==> r.value.value.TextValue?
  {
    match input
    case None => Success(None)
    case Some(Day(d)) => Success(Some(Render(d, outType)))
    case Some(Text(s)) =>
      var d :- ParseDate(s);
      Success(Some(Render(d, outType)))
  }

  // ------------------------------------------------------------ round trips

  lemma Pad4Fields(n: int)
    requires 0 <= n < 10000
    ensures YearField(Pad4(n)) == Success(n)
  {
    var s := Pad4(n);
    Pad2Value(n / 100);
    Pad2Value(n % 100);
    assert s[..4] == s;
    assert Value2(s[0], s[1]) == n / 100 && Value2(s[2], s[3]) == n % 100;
  }

  /** Parsing a `str8` rendering gives the date back. */
  lemma ParseFormatStr8(d: CalendarDate)
    ensures ParseDate(FormatStr8(d)) == Success(d)
  {
    var s := FormatStr8(d);
    Pad4Fields(d.year);
    assert s[..4] == Pad4(d.year);
    Pad2Value(d.month);
    Pad2Value(d.day);
    assert [s[4], s[5]] == Pad2(d.month) && [s[6], s[7]] == Pad2(d.day);
  }

  /** Parsing a `str10` rendering gives the date back. */
  lemma ParseFormatStr10(d: CalendarDate)
    ensures ParseDate(FormatStr10(d)) == Success(d)
  {
    var s := FormatStr10(d);
    Pad4Fields(d.year);
    assert s[..4] == Pad4(d.year);
    Pad2Value(d.month);
    Pad2Value(d.day);
    assert [s[5], s[6]] == Pad2(d.month) && [s[8], s[9]] == Pad2(d.day);
  }

  /** The 19-character shape keeps the date and drops any valid time of day. */
  lemma ParseDropsTime(d: CalendarDate, hour: int, minute: int, second: int)
    requires 0 <= hour < 24 && 0 <= minute < 60 && 0 <= second < 60
    ensures ParseDate(FormatStr10(d) + FormatTime(hour, minute, second)) == Success(d)
  {
    var s := FormatStr10(d) + FormatTime(hour, minute, second);
    assert s[..10] == FormatStr10(d);
    ParseFormatStr10(d);
    Pad2Value(hour);
    Pad2Value(minute);
    Pad2Value(second);
    assert [s[11], s[12]] == Pad2(hour);
    assert [s[14], s[15]] == Pad2(minute);
    assert [s[17], s[18]] == Pad2(second);
  }

  /** A 19-character string that parses at all parses to the date of its
      first ten characters, whatever their padding: the time of day only
      decides whether the string is accepted. */
  lemma DateTimeParsesItsDate(s: string)
    requires |s| == 19 && ParseDate(s).Success?
    ensures ParseDate(s) == ParseDate(s[..10])
  {
  }

  /** Conversely, a zero-padded 8-character string that parses is the
      `str8` rendering of the date it parses to. */
  lemma CompactIsCanonical(s: string, d: CalendarDate)
    requires |s| == 8 && s[6] != ' '
    requires ParseDate(s) == Success(d)
    ensures FormatStr8(d) == s
  {
    assert s[..4] == [s[0], s[1], s[2], s[3]];
    Value2Pad(s[0], s[1]);
    Value2Pad(s[2], s[3]);
    Value2Pad(s[4], s[5]);
    Value2Pad(s[6], s[7]);
    assert d.year / 100 == Value2(s[0], s[1]) && d.year % 100 == Value2(s[2], s[3]);
  }

  /** Conversely, a zero-padded 10-character string that parses is the
      `str10` rendering of the date it parses to. */
  lemma IsoIsCanonical(s: string, d: CalendarDate)
    requires |s| == 10 && s[8] != ' '
    requires ParseDate(s) == Success(d)
    ensures FormatStr10(d) == s
  {
    assert s[..4] == [s[0], s[1], s[2], s[3]];
    Value2Pad(s[0], s[1]);
    Value2Pad(s[2], s[3]);
    Value2Pad(s[5], s[6]);
    Value2Pad(s[8], s[9]);
    assert d.year / 100 == Value2(s[0], s[1]) && d.year % 100 == Value2(s[2], s[3]);
  }

  /** `convert_date(convert_date(d, "str10"), "date") == d`, and likewise
      through `str8`; a `str8` string converts to the `str10` of its date. */
  lemma ConvertRoundTrips(d: CalendarDate)
    ensures ConvertDate(Some(Day(d)), Str10) == Success(Some(TextValue(FormatStr10(d))))
    ensures ConvertDate(Some(Text(FormatStr10(d))), AsDate) == Success(Some(DateValue(d)))
    ensures ConvertDate(Some(Text(FormatStr8(d))), AsDate) == Success(Some(DateValue(d)))
    ensures ConvertDate(Some(Text(FormatStr8(d))), Str10) == Success(Some(TextValue(FormatStr10(d))))
  {
    ParseFormatStr8(d);
    ParseFormatStr10(d);
  }

  /** `convert_date` refuses a 10-character date written with `/` separators. */
  lemma SlashSeparatedRejected()
    ensures ParseDate("2023/01/01") == Failure(Unparseable)
  {
  }
}
