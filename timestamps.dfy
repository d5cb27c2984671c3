/** The timestamps `pd.to_datetime` produces, and the two `strftime` layouts the loader sends
    to the database: `%Y-%m-%d` for a registration date and `%Y-%m-%d %H:%M:%S` for the time
    a score was played (the ISO 8601 calendar date, with a space before the time). */
module Timestamps {
  import opened Wrappers

  datatype DateTime = DateTime(year: int, month: int, day: int,
                               hour: int, minute: int, second: int, nanosecond: int)

  /** A calendar date, as the database reads one back from `YYYY-MM-DD`. */
  datatype Date = Date(year: int, month: int, day: int)

  predicate IsLeapYear(y: int) {
    y % 4 == 0 && (y % 100 != 0 || y % 400 == 0)
  }

  function DaysInMonth(y: int, m: int): (n: int)
    requires 1 <= m <= 12
  {
    if m == 2 then (if IsLeapYear(y) then 29 else 28)
    else if m == 4 || m == 6 || m == 9 || m == 11 then 30
    else 31
  }

  predicate ValidDate(d: Date) {
    1 <= d.month <= 12 && 1 <= d.day <= DaysInMonth(d.year, d.month)
  }

  /** A pandas Timestamp: a Gregorian date and a time of day to the nanosecond, within the
      years a 64-bit nanosecond count can reach, so `%Y` always prints four digits. */
  predicate ValidDateTime(t: DateTime) {
    && 1677 <= t.year <= 2262
    && ValidDate(Date(t.year, t.month, t.day))
    && 0 <= t.hour < 24 && 0 <= t.minute < 60 && 0 <= t.second < 60
    && 0 <= t.nanosecond < 1_000_000_000
  }

  type Timestamp = t: DateTime | ValidDateTime(t) witness DateTime(1970, 1, 1, 0, 0, 0, 0)

  function DateOf(t: DateTime): (d: Date) {
    Date(t.year, t.month, t.day)
  }

  predicate IsDigit(c: char) {
    '0' <= c <= '9'
  }

  function Digit(d: int): (c: char)
    requires 0 <= d < 10
    ensures IsDigit(c) && c as int - '0' as int == d
  {
    ('0' as int + d) as char
  }

  /** The value of a two-digit field. */
  function Read2(s: string): (n: int)
    requires |s| == 2
  {
    10 * (s[0] as int - '0' as int) + (s[1] as int - '0' as int)
  }

  /** The value of a four-digit field. */
  function Read4(s: string): (n: int)
    requires |s| == 4
  {
    100 * Read2(s[..2]) + Read2(s[2..])
  }

  /** A number in `0..99` written on two digits, zero-padded (`%m`, `%d`, `%H`, `%M`, `%S`). */
  function Pad2(n: int): (s: string)
    requires 0 <= n < 100
    ensures |s| == 2 && IsDigit(s[0]) && IsDigit(s[1]) && Read2(s) == n
  {
    [Digit(n / 10), Digit(n % 10)]
  }

  /** A number in `0..9999` written on four digits, zero-padded (`%Y`). */
  function Pad4(n: int): (s: string)
    requires 0 <= n < 10000
    ensures |s| == 4 && (forall i :: 0 <= i < 4 ==> IsDigit(s[i])) && Read4(s) == n
  {
    var s := Pad2(n / 100) + Pad2(n % 100);
    assert s[..2] == Pad2(n / 100) && s[2..] == Pad2(n % 100);
    s
  }

  /** `strftime('%Y-%m-%d')`: the time of day is dropped. */
  function FormatDate(t: Timestamp): (s: string)
    ensures |s| == 10 && s[4] == '-' && s[7] == '-'
    ensures forall i :: 0 <= i < 10 && i != 4 && i != 7 ==> IsDigit(s[i])
  {
    Pad4(t.year) + "-" + Pad2(t.month) + "-" + Pad2(t.day)
  }

  /** `strftime('%Y-%m-%d %H:%M:%S')`: the fraction of a second is dropped. */
  function FormatDateTime(t: Timestamp): (s: string)
    ensures |s| == 19 && s[..10] == FormatDate(t)
    ensures s[10] == ' ' && s[13] == ':' && s[16] == ':'
    ensures forall i :: 10 < i < 19 && i != 13 && i != 16 ==> IsDigit(s[i])
  {
    FormatDate(t) + " " + Pad2(t.hour) + ":" + Pad2(t.minute) + ":" + Pad2(t.second)
  }

  predicate AllDigits(s: string) {
    forall i :: 0 <= i < |s| ==> IsDigit(s[i])
  }

  /** Reading `YYYY-MM-DD` back as a calendar date; text of any other shape, or naming a
      day the calendar does not have, is rejected. */
  function ParseDate(s: string): (r: Option<Date>)
    ensures r.Some? ==> ValidDate(r.value) && 0 <= r.value.year < 10000
  {
    if |s| == 10 && s[4] == '-' && s[7] == '-'
       && AllDigits(s[..4]) && AllDigits(s[5..7]) && AllDigits(s[8..])
    then
      var d := Date(Read4(s[..4]), Read2(s[5..7]), Read2(s[8..]));
      if ValidDate(d) then Some(d) else None
    else None
  }

  /** Reading `YYYY-MM-DD HH:MM:SS` back; the result has no fraction of a second. */
  function ParseDateTime(s: string): (r: Option<DateTime>)
    ensures r.Some? ==> ValidDate(DateOf(r.value)) && r.value.nanosecond == 0
  {
    if |s| == 19 && s[10] == ' ' && s[13] == ':' && s[16] == ':'
       && AllDigits(s[11..13]) && AllDigits(s[14..16]) && AllDigits(s[17..])
    then
      match ParseDate(s[..10])
      case None => None
      case Some(d) =>
        var h, m, sec := Read2(s[11..13]), Read2(s[14..16]), Read2(s[17..]);
        if h < 24 && m < 60 && sec < 60
        then Some(DateTime(d.year, d.month, d.day, h, m, sec, 0))
        else None
    else None
  }

  /** The registration date the loader writes reads back as the same calendar day. */
  lemma DateRoundTrip(t: Timestamp)
    ensures ParseDate(FormatDate(t)) == Some(DateOf(t))
  {
    var s := FormatDate(t);
    assert s[..4] == Pad4(t.year);
    assert s[5..7] == Pad2(t.month);
    assert s[8..] == Pad2(t.day);
  }

  /** The play time the loader writes reads back as the same timestamp truncated to the
      second. */
  lemma DateTimeRoundTrip(t: Timestamp)
    ensures ParseDateTime(FormatDateTime(t)) == Some(t.(nanosecond := 0))
  {
    var s := FormatDateTime(t);
    DateRoundTrip(t);
    assert s[11..13] == Pad2(t.hour);
    assert s[14..16] == Pad2(t.minute);
    assert s[17..] == Pad2(t.second);
  }

  /** Two timestamps give the same date text exactly when they fall on the same day. */
  lemma FormatDateExact(a: Timestamp, b: Timestamp)
    ensures FormatDate(a) == FormatDate(b) <==> DateOf(a) == DateOf(b)
  {
    DateRoundTrip(a);
    DateRoundTrip(b);
  }

  /** Two timestamps give the same date-time text exactly when they agree to the second. */
  lemma FormatDateTimeExact(a: Timestamp, b: Timestamp)
    ensures FormatDateTime(a) == FormatDateTime(b) <==> a.(nanosecond := 0) == b.(nanosecond := 0)
  {
    DateTimeRoundTrip(a);
    DateTimeRoundTrip(b);
  }
}
