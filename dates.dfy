/** Calendar dates as far as the core needs them: parsing the `dd.mm.yyyy`
    project end date the way `pd.to_datetime(..., format='%d.%m.%Y')` does,
    building `datetime(y, m, d)`, adding one day and `strftime('%d.%m.%y')`. */
module Dates {
  import opened Wrappers
  import opened Text

  datatype Date = Date(year: int, month: int, day: int)

  predicate IsLeap(y: int) {
    (y % 4 == 0 && y % 100 != 0) || y % 400 == 0
  }

  function DaysInMonth(y: int, m: int): (n: int)
    requires 1 <= m <= 12
    ensures 28 <= n <= 31
  {
    if m == 2 then (if IsLeap(y) then 29 else 28)
    else if m == 4 || m == 6 || m == 9 || m == 11 then 30
    else 31
  }

  /** A date Python's `datetime` accepts. */
  predicate IsValid(d: Date) {
    && 1 <= d.year <= 9999
    && 1 <= d.month <= 12
    && 1 <= d.day <= DaysInMonth(d.year, d.month)
  }

  /** Chronological order: `a < b`. */
  predicate Before(a: Date, b: Date) {
    || a.year < b.year
    || (a.year == b.year && a.month < b.month)
    || (a.year == b.year && a.month == b.month && a.day < b.day)
  }

  /** `a <= b`. */
  predicate AtOrBefore(a: Date, b: Date) {
    Before(a, b) || a == b
  }

  lemma BeforeTotal(a: Date, b: Date)
    ensures Before(a, b) || a == b || Before(b, a)
    ensures !(Before(a, b) && AtOrBefore(b, a))
  {
  }

  /** `datetime(y, m, d)`: a ValueError unless the date exists. */
  function MakeDate(y: int, m: int, d: int): (r: Result<Date>)
    ensures r.Ok? <==> IsValid(Date(y, m, d))
    ensures r.Ok? ==> r.value == Date(y, m, d)
  {
    if IsValid(Date(y, m, d)) then Ok(Date(y, m, d)) else Err(ValueError("day or month out of range"))
  }

  /** `d + timedelta(days=1)`; Python overflows after 31.12.9999. */
  function NextDay(d: Date): (r: Date)
    requires IsValid(d) && d != Date(9999, 12, 31)
    ensures IsValid(r) && Before(d, r)
  {
    if d.day < DaysInMonth(d.year, d.month) then Date(d.year, d.month, d.day + 1)
    else if d.month < 12 then Date(d.year, d.month + 1, 1)
    else Date(d.year + 1, 1, 1)
  }

  /** No valid date lies strictly between a date and the next day. */
  lemma NextDayImmediate(d: Date, e: Date)
    requires IsValid(d) && d != Date(9999, 12, 31) && IsValid(e)
    ensures !(Before(d, e) && Before(e, NextDay(d)))
  {
  }

  // ------------------------------------------------------- strptime fields

  predicate IsNonZeroDigit(c: char) {
    '1' <= c <= '9'
  }

  /** `%d` of Python's strptime: `3[01]|[12]\d|0[1-9]|[1-9]| [1-9]`. */
  predicate DayField(t: string) {
    || (|t| == 1 && IsNonZeroDigit(t[0]))
    || (|t| == 2 && t[0] == '3' && (t[1] == '0' || t[1] == '1'))
    || (|t| == 2 && (t[0] == '1' || t[0] == '2') && IsDigit(t[1]))
    || (|t| == 2 && t[0] == '0' && IsNonZeroDigit(t[1]))
    || (|t| == 2 && t[0] == ' ' && IsNonZeroDigit(t[1]))
  }

  /** `%m`: `1[0-2]|0[1-9]|[1-9]`. */
  predicate MonthField(t: string) {
    || (|t| == 1 && IsNonZeroDigit(t[0]))
    || (|t| == 2 && t[0] == '1' && '0' <= t[1] <= '2')
    || (|t| == 2 && t[0] == '0' && IsNonZeroDigit(t[1]))
  }

  /** `%Y`: exactly four digits. */
  predicate YearField(t: string) {
    |t| == 4 && AllDigits(t)
  }

  /** The number a `%d` or `%m` field stands for (a leading blank counts as zero). */
  function FieldValue(t: string): (n: nat)
    requires DayField(t) || MonthField(t)
    ensures 1 <= n <= 31
  {
    if |t| == 1 then DigitValue(t[0])
    else if t[0] == ' ' then DigitValue(t[1])
    else DigitValue(t[0]) * 10 + DigitValue(t[1])
  }

  /** The pandas nanosecond timestamp range, by whole days:
      1677-09-22 up to 2262-04-11. */
  predicate InTimestampRange(d: Date) {
    AtOrBefore(Date(1677, 9, 22), d) && AtOrBefore(d, Date(2262, 4, 11))
  }

  /** `pd.to_datetime(s, format='%d.%m.%Y')` for one defined cell: the three
      fields separated by '.', a date that exists, inside the timestamp range. */
  function ParseProjektende(s: string): (r: Result<Date>)
    ensures r.Ok? ==> IsValid(r.value) && InTimestampRange(r.value)
    ensures r.Err? ==> r.error == DateParseError(s)
  {
    var parts := Split(s, '.');
    if |parts| == 3 && DayField(parts[0]) && MonthField(parts[1]) && YearField(parts[2]) then
      var d := Date(DigitsValue(parts[2]), FieldValue(parts[1]), FieldValue(parts[0]));
      if IsValid(d) && InTimestampRange(d) then Ok(d) else Err(DateParseError(s))
    else Err(DateParseError(s))
  }

  // --------------------------------------------------------------- strftime

  /** Two zero-padded digits. */
  function TwoDigits(n: nat): (r: string)
    requires n < 100
    ensures |r| == 2 && AllDigits(r)
  {
    [DigitChar(n / 10), DigitChar(n % 10)]
  }

  /** `strftime('%d.%m.%y')`: day, month and the year's last two digits. */
  function FormatShort(d: Date): (r: string)
    requires IsValid(d)
    ensures |r| == 8 && r[2] == '.' && r[5] == '.'
    ensures forall k :: 0 <= k < |r| ==> IsDigit(r[k]) || r[k] == '.'
  {
    TwoDigits(d.day) + "." + TwoDigits(d.month) + "." + TwoDigits(d.year % 100)
  }

  /** `strftime('%d.%m.%Y')` for four-digit years. */
  function FormatLong(d: Date): (r: string)
    requires IsValid(d) && d.year >= 1000
  {
    TwoDigits(d.day) + "." + TwoDigits(d.month) + "." + NatToDigits(d.year)
  }

  /** Every date in the timestamp range, written as `dd.mm.yyyy`, parses back to itself. */
  lemma ParseFormatLong(d: Date)
    requires IsValid(d) && InTimestampRange(d)
    ensures ParseProjektende(FormatLong(d)) == Ok(d)
  {
    var dd, mm, yy := TwoDigits(d.day), TwoDigits(d.month), NatToDigits(d.year);
    YearDigits(d.year);
    DayFieldOfTwoDigits(d.day);
    MonthFieldOfTwoDigits(d.month);
    DigitsRoundTrip(d.year);
    SplitThree(dd, mm, yy);
  }

  lemma DayFieldOfTwoDigits(n: nat)
    requires 1 <= n <= 31
    ensures DayField(TwoDigits(n)) && FieldValue(TwoDigits(n)) == n
  {
  }

  lemma MonthFieldOfTwoDigits(n: nat)
    requires 1 <= n <= 12
    ensures MonthField(TwoDigits(n)) && FieldValue(TwoDigits(n)) == n
  {
  }

  lemma SplitThree(a: string, b: string, c: string)
    requires AllDigits(a) && AllDigits(b) && AllDigits(c)
    ensures Split(a + "." + b + "." + c, '.') == [a, b, c]
  {
    assert '.' !in a && '.' !in b && '.' !in c by {
      assert forall k :: 0 <= k < |a| ==> IsDigit(a[k]);
      assert forall k :: 0 <= k < |b| ==> IsDigit(b[k]);
      assert forall k :: 0 <= k < |c| ==> IsDigit(c[k]);
    }
    assert [a, b, c][1..] == [b, c] && [b, c][1..] == [c];
    assert Join([b, c], '.') == b + "." + c;
    assert Join([a, b, c], '.') == a + "." + b + "." + c;
    SplitJoin([a, b, c], '.');
  }

  lemma YearDigits(y: nat)
    requires 1000 <= y <= 9999
    ensures |NatToDigits(y)| == 4
  {
    assert NatToDigits(y) == NatToDigits(y / 10) + [DigitChar(y % 10)];
    assert NatToDigits(y / 10) == NatToDigits(y / 100) + [DigitChar((y / 10) % 10)];
    assert NatToDigits(y / 100) == NatToDigits(y / 1000) + [DigitChar((y / 100) % 10)];
  }
}
