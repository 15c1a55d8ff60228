/** Local timestamps of the form `YYYY-MM-DDTHH:MM:SS`, the form every
    deadline and event bound of the API takes. Used to state what the
    rewritten deadline means in time. */
module LocalTime {
  import opened Wrappers

  datatype LocalDateTime = LocalDateTime(year: nat, month: nat, day: nat, hour: nat, minute: nat, second: nat)

  /** Field ranges of the format; days are not checked against month length. */
  predicate Valid(d: LocalDateTime)
  {
    d.year < 10000 && 1 <= d.month <= 12 && 1 <= d.day <= 31 &&
    d.hour < 24 && d.minute < 60 && d.second < 60
  }

  predicate DigitAt(s: string, i: nat)
  {
    i < |s| && '0' <= s[i] <= '9'
  }

  function ValueAt(s: string, i: nat): nat
    requires DigitAt(s, i)
  {
    s[i] as int - '0' as int
  }

  function DigitChar(n: nat): char
    requires n < 10
  {
    ('0' as int + n) as char
  }

  predicate WellShaped(s: string)
  {
    |s| == 19 &&
    DigitAt(s, 0) && DigitAt(s, 1) && DigitAt(s, 2) && DigitAt(s, 3) && s[4] == '-' &&
    DigitAt(s, 5) && DigitAt(s, 6) && s[7] == '-' &&
    DigitAt(s, 8) && DigitAt(s, 9) && s[10] == 'T' &&
    DigitAt(s, 11) && DigitAt(s, 12) && s[13] == ':' &&
    DigitAt(s, 14) && DigitAt(s, 15) && s[16] == ':' &&
    DigitAt(s, 17) && DigitAt(s, 18)
  }

  function Field2(s: string, i: nat): nat
    requires DigitAt(s, i) && DigitAt(s, i + 1)
  {
    ValueAt(s, i) * 10 + ValueAt(s, i + 1)
  }

  /** Reads a timestamp; `None` for a string of any other shape or with a
      field out of range. */
  function Parse(s: string): (r: Option<LocalDateTime>)
    ensures r.Some? ==> Valid(r.value)
  {
    if !WellShaped(s) then None
    else
      var d := LocalDateTime(Field2(s, 0) * 100 + Field2(s, 2), Field2(s, 5), Field2(s, 8),
                             Field2(s, 11), Field2(s, 14), Field2(s, 17));
      if Valid(d) then Some(d) else None
  }

  /** Writes a timestamp with zero-padded fields. */
  function Format(d: LocalDateTime): (s: string)
    requires Valid(d)
    ensures WellShaped(s)
  {
    [DigitChar(d.year / 100 / 10), DigitChar(d.year / 100 % 10), DigitChar(d.year % 100 / 10), DigitChar(d.year % 100 % 10), '-',
     DigitChar(d.month / 10), DigitChar(d.month % 10), '-',
     DigitChar(d.day / 10), DigitChar(d.day % 10), 'T',
     DigitChar(d.hour / 10), DigitChar(d.hour % 10), ':',
     DigitChar(d.minute / 10), DigitChar(d.minute % 10), ':',
     DigitChar(d.second / 10), DigitChar(d.second % 10)]
  }

  lemma ReadTwoDigits(s: string, i: nat, n: nat)
    requires n < 100 && i + 1 < |s| && s[i] == DigitChar(n / 10) && s[i + 1] == DigitChar(n % 10)
    ensures DigitAt(s, i) && DigitAt(s, i + 1) && Field2(s, i) == n
  {
  }

  /** Reading back what was written gives the same timestamp. */
  lemma ParseFormat(d: LocalDateTime)
    requires Valid(d)
    ensures Parse(Format(d)) == Some(d)
  {
    var s := Format(d);
    ReadTwoDigits(s, 0, d.year / 100);
    ReadTwoDigits(s, 2, d.year % 100);
    ReadTwoDigits(s, 5, d.month);
    ReadTwoDigits(s, 8, d.day);
    ReadTwoDigits(s, 11, d.hour);
    ReadTwoDigits(s, 14, d.minute);
    ReadTwoDigits(s, 17, d.second);
    assert WellShaped(s);
    assert Field2(s, 0) * 100 + Field2(s, 2) == d.year;
  }

  /** Minutes since midnight. */
  function MinuteOfDay(d: LocalDateTime): nat
  {
    d.hour * 60 + d.minute
  }

  predicate SameDate(a: LocalDateTime, b: LocalDateTime)
  {
    a.year == b.year && a.month == b.month && a.day == b.day
  }

  /** `b` is exactly `minutes` minutes after `a`, on the same day. */
  predicate MinutesLaterSameDay(a: LocalDateTime, b: LocalDateTime, minutes: nat)
  {
    SameDate(a, b) && a.second == b.second && MinuteOfDay(b) == MinuteOfDay(a) + minutes
  }
}
