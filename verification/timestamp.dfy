/** Second-resolution local times: how `time.strftime("%Y/%m/%d/%H/%M/%S")`
    prints them and how `datetime.strptime` with the same format reads them back. */
module Timestamps {
  import opened Wrappers
  import opened Text

  datatype Timestamp = Timestamp(year: int, month: int, day: int, hour: int, minute: int, second: int)

  predicate IsLeapYear(y: int)
  {
    y % 4 == 0 && (y % 100 != 0 || y % 400 == 0)
  }

  function DaysInMonth(y: int, m: int): int
    requires 1 <= m <= 12
  {
    if m == 2 then (if IsLeapYear(y) then 29 else 28)
    else if m == 4 || m == 6 || m == 9 || m == 11 then 30
    else 31
  }

  /** The field ranges Python's `datetime` constructor accepts (years 1 to 9999,
      real calendar days, no leap second). */
  predicate IsDatetime(t: Timestamp)
  {
    && 1 <= t.year <= 9999
    && 1 <= t.month <= 12
    && 1 <= t.day <= DaysInMonth(t.year, t.month)
    && 0 <= t.hour < 24
    && 0 <= t.minute < 60
    && 0 <= t.second < 60
  }

  /** A reading of the local clock: a real date with a four-digit year, so that
      `%Y` prints exactly four digits. */
  predicate IsClockReading(t: Timestamp)
  {
    IsDatetime(t) && t.year >= 1000
  }

  type Clock = t: Timestamp | IsClockReading(t) witness Timestamp(1970, 1, 1, 0, 0, 0)

  predicate AllDigits(s: string)
  {
    forall i :: 0 <= i < |s| ==> IsDigit(s[i])
  }

  /** Zero-padded two-digit field (`%m`, `%d`, `%H`, `%M`, `%S`). */
  function Pad2(n: int): (s: string)
    requires 0 <= n < 100
    ensures |s| == 2 && AllDigits(s)
  {
    [DigitChar(n / 10), DigitChar(n % 10)]
  }

  /** Four-digit year field (`%Y`). */
  function Pad4(n: int): (s: string)
    requires 0 <= n < 10000
    ensures |s| == 4 && AllDigits(s)
  {
    [DigitChar(n / 1000), DigitChar(n / 100 % 10), DigitChar(n / 10 % 10), DigitChar(n % 10)]
  }

  /** The six fields `strftime` prints for a clock reading. */
  function Fields(c: Clock): (fs: seq<string>)
    ensures |fs| == 6
    ensures forall i :: 0 <= i < 6 ==> AllDigits(fs[i]) && '/' !in fs[i]
  {
    [Pad4(c.year), Pad2(c.month), Pad2(c.day), Pad2(c.hour), Pad2(c.minute), Pad2(c.second)]
  }

  /** `time.strftime("%Y/%m/%d/%H/%M/%S")` at clock reading `c`. */
  function Format(c: Clock): (s: string)
    ensures Split(s, '/') == Fields(c)
    ensures Parse(s) == Some(c)
  {
    SplitJoin(Fields(c), '/');
    ParseFormattedFields(c);
    Join(Fields(c), '/')
  }

  // ---------------------------------------------------------------------
  // `strptime` field patterns, alternative by alternative

  /** `%Y`: `\d\d\d\d`. */
  predicate MatchYear(s: string)
  {
    |s| == 4 && AllDigits(s)
  }

  /** `%m`: `1[0-2]|0[1-9]|[1-9]`. */
  predicate MatchMonth(s: string)
  {
    || (|s| == 2 && s[0] == '1' && '0' <= s[1] <= '2')
    || (|s| == 2 && s[0] == '0' && '1' <= s[1] <= '9')
    || (|s| == 1 && '1' <= s[0] <= '9')
  }

  /** `%d`: `3[01]|[12]\d|0[1-9]|[1-9]| [1-9]`. */
  predicate MatchDay(s: string)
  {
    || (|s| == 2 && s[0] == '3' && '0' <= s[1] <= '1')
    || (|s| == 2 && '1' <= s[0] <= '2' && IsDigit(s[1]))
    || (|s| == 2 && s[0] == '0' && '1' <= s[1] <= '9')
    || (|s| == 1 && '1' <= s[0] <= '9')
    || (|s| == 2 && s[0] == ' ' && '1' <= s[1] <= '9')
  }

  /** `%H`: `2[0-3]|[0-1]\d|\d`. */
  predicate MatchHour(s: string)
  {
    || (|s| == 2 && s[0] == '2' && '0' <= s[1] <= '3')
    || (|s| == 2 && '0' <= s[0] <= '1' && IsDigit(s[1]))
    || (|s| == 1 && IsDigit(s[0]))
  }

  /** `%M`: `[0-5]\d|\d`. */
  predicate MatchMinute(s: string)
  {
    || (|s| == 2 && '0' <= s[0] <= '5' && IsDigit(s[1]))
    || (|s| == 1 && IsDigit(s[0]))
  }

  /** `%S`: `6[0-1]|[0-5]\d|\d` (the pattern admits 60 and 61). */
  predicate MatchSecond(s: string)
  {
    || (|s| == 2 && s[0] == '6' && '0' <= s[1] <= '1')
    || (|s| == 2 && '0' <= s[0] <= '5' && IsDigit(s[1]))
    || (|s| == 1 && IsDigit(s[0]))
  }

  /** Digits, or one blank followed by digits (the ` [1-9]` day form). */
  predicate IsNumeral(s: string)
  {
    || (|s| > 0 && AllDigits(s))
    || (|s| > 1 && s[0] == ' ' && AllDigits(s[1..]))
  }

  /** `int(s)` on a matched field: surrounding blanks are ignored. */
  function NumeralValue(s: string): nat
    requires IsNumeral(s)
  {
    if s[0] == ' ' then DecimalValue(s[1..]) else DecimalValue(s)
  }

  /** `datetime.strptime` on six slash-separated fields: every field must match its
      pattern and the values must make a real `datetime`. */
  function ParseFields(fs: seq<string>): (r: Option<Timestamp>)
    requires |fs| == 6
    ensures r.Some? ==> IsDatetime(r.value)
  {
    if && MatchYear(fs[0]) && MatchMonth(fs[1]) && MatchDay(fs[2])
       && MatchHour(fs[3]) && MatchMinute(fs[4]) && MatchSecond(fs[5])
    then
      var t := Timestamp(NumeralValue(fs[0]), NumeralValue(fs[1]), NumeralValue(fs[2]),
                         NumeralValue(fs[3]), NumeralValue(fs[4]), NumeralValue(fs[5]));
      if IsDatetime(t) then Some(t) else None
    else None
  }

  /** `datetime.strptime(s, "%Y/%m/%d/%H/%M/%S")`. None of the field patterns
      matches a `/`, so a match lines the five separators up with the five slashes
      of `s`: it succeeds exactly when `s` splits into six fields that parse. */
  function Parse(s: string): (r: Option<Timestamp>)
    ensures r.Some? ==> |Split(s, '/')| == 6 && IsDatetime(r.value)
  {
    var fs := Split(s, '/');
    if |fs| == 6 then ParseFields(fs) else None
  }

  // ---------------------------------------------------------------------

  lemma Pad2Value(n: int)
    requires 0 <= n < 100
    ensures IsNumeral(Pad2(n)) && NumeralValue(Pad2(n)) == n
  {
    var s := Pad2(n);
    assert s[0] != ' ';
    assert s[..1] == [s[0]];
    assert DecimalValue(s[..1]) == DigitValue(s[0]);
    assert DecimalValue(s) == DigitValue(s[0]) * 10 + DigitValue(s[1]);
  }

  lemma FourDigits(n: int)
    requires 0 <= n < 10000
    ensures ((n / 1000 * 10 + n / 100 % 10) * 10 + n / 10 % 10) * 10 + n % 10 == n
  {
    var q := n / 10;
    assert n == q * 10 + n % 10;
    assert q / 10 == n / 100 && q % 10 == n / 10 % 10;
    var p := q / 10;
    assert q == p * 10 + q % 10;
    assert p / 10 == n / 1000 && p % 10 == n / 100 % 10;
    assert p == p / 10 * 10 + p % 10;
  }

  lemma Pad4Value(n: int)
    requires 0 <= n < 10000
    ensures IsNumeral(Pad4(n)) && NumeralValue(Pad4(n)) == n
  {
    var s := Pad4(n);
    assert s[0] != ' ';
    assert s[..3][..2][..1] == [s[0]];
    assert DecimalValue([s[0]]) == DigitValue(s[0]);
    assert s[..3][..2] == [s[0], s[1]];
    assert DecimalValue([s[0], s[1]]) == DigitValue(s[0]) * 10 + DigitValue(s[1]);
    assert s[..3] == [s[0], s[1], s[2]];
    assert DecimalValue([s[0], s[1], s[2]]) == (DigitValue(s[0]) * 10 + DigitValue(s[1])) * 10 + DigitValue(s[2]);
    assert DecimalValue(s) == ((DigitValue(s[0]) * 10 + DigitValue(s[1])) * 10 + DigitValue(s[2])) * 10 + DigitValue(s[3]);
    FourDigits(n);
  }

  lemma MatchPadded(c: Clock)
    ensures MatchYear(Pad4(c.year)) && MatchMonth(Pad2(c.month)) && MatchDay(Pad2(c.day))
    ensures MatchHour(Pad2(c.hour)) && MatchMinute(Pad2(c.minute)) && MatchSecond(Pad2(c.second))
  {
  }

  /** `strptime` reads back exactly the reading `strftime` printed. */
  lemma ParseFormattedFields(c: Clock)
    ensures ParseFields(Fields(c)) == Some(c)
  {
    MatchPadded(c);
    Pad4Value(c.year);
    Pad2Value(c.month);
    Pad2Value(c.day);
    Pad2Value(c.hour);
    Pad2Value(c.minute);
    Pad2Value(c.second);
  }

  // ---------------------------------------------------------------------
  // ordering, as Python compares naive `datetime` values

  predicate Earlier(a: Timestamp, b: Timestamp)
  {
    || a.year < b.year
    || (a.year == b.year && a.month < b.month)
    || (a.year == b.year && a.month == b.month && a.day < b.day)
    || (a.year == b.year && a.month == b.month && a.day == b.day && a.hour < b.hour)
    || (a.year == b.year && a.month == b.month && a.day == b.day && a.hour == b.hour
        && a.minute < b.minute)
    || (a.year == b.year && a.month == b.month && a.day == b.day && a.hour == b.hour
        && a.minute == b.minute && a.second < b.second)
  }

  /** A `datetime.now()` value: a second-resolution time and its microseconds. */
  datatype Instant = Instant(time: Timestamp, microsecond: int)

  predicate InstantLe(a: Instant, b: Instant)
  {
    Earlier(a.time, b.time) || (a.time == b.time && a.microsecond <= b.microsecond)
  }

  /** `i.replace(microsecond=0)`. */
  function Truncate(i: Instant): (r: Instant)
    ensures r.microsecond == 0
  {
    Instant(i.time, 0)
  }

  /** Truncating to whole seconds keeps the order of two instants. */
  lemma TruncateMonotone(a: Instant, b: Instant)
    requires InstantLe(a, b)
    ensures InstantLe(Truncate(a), Truncate(b))
  {
  }
}
