/** The text forms of dates and times the toolkit reads and writes:
    `strftime("%Y-%m-%dT%H:%M:%S.000Z")` (the scheduling platform's
    wire timestamp), `strptime(text, "%Y-%m-%d")` (dates in a batch
    file) and the `"HH:MM"` start time that is split on `":"` and read
    with `int()`. */
module Timestamp {
  import opened Wrappers
  import opened Text
  import opened Numerals
  import opened Civil

  /** The two digits of a number below 100, as `%02d` writes them. */
  lemma Pad2Digits(n: nat)
    requires n < 100
    ensures Pad(n, 2) == [DigitChar(n / 10), DigitChar(n % 10)]
  {
    if n >= 10 {
      assert FormatNat(n) == FormatNat(n / 10) + [DigitChar(n % 10)];
    }
  }

  // ---------------------------------------------------------------------
  // The wire timestamp

  /** `t.strftime("%Y-%m-%dT%H:%M:%S.000Z")`: the seconds are written,
      the fraction is the literal `.000` and the zone the literal `Z`. */
  function FormatTimestamp(t: DateTime): (r: string)
    requires ValidDateTime(t)
    ensures |r| == 24
    ensures r[..10] == FormatDate(t.date) && r[10] == 'T'
    ensures r[11..] == FormatClock(t.hour, t.minute, t.second) + ".000Z"
  {
    var date := FormatDate(t.date);
    var rest := FormatClock(t.hour, t.minute, t.second) + ".000Z";
    Pieces(date, 'T', rest);
    date + "T" + rest
  }

  /** `d.strftime("%Y-%m-%d")`, the date part of the wire timestamp. */
  function FormatDate(d: Date): (r: string)
    requires InRange(d)
    ensures |r| == 10 && r[4] == '-' && r[7] == '-'
    ensures r[..4] == Pad(d.year, 4) && r[5..7] == Pad(d.month, 2) && r[8..] == Pad(d.day, 2)
  {
    PadWidth(d.year, 4);
    PadWidth(d.month, 2);
    PadWidth(d.day, 2);
    Pieces3(Pad(d.year, 4), '-', Pad(d.month, 2), '-', Pad(d.day, 2));
    Pad(d.year, 4) + "-" + Pad(d.month, 2) + "-" + Pad(d.day, 2)
  }

  /** `"%H:%M:%S"`, the time of day in the wire timestamp. */
  function FormatClock(hour: nat, minute: nat, second: nat): (r: string)
    requires hour < 100 && minute < 100 && second < 100
    ensures |r| == 8 && r[2] == ':' && r[5] == ':'
    ensures r[..2] == Pad(hour, 2) && r[3..5] == Pad(minute, 2) && r[6..] == Pad(second, 2)
  {
    PadWidth(hour, 2);
    PadWidth(minute, 2);
    PadWidth(second, 2);
    Pieces3(Pad(hour, 2), ':', Pad(minute, 2), ':', Pad(second, 2));
    Pad(hour, 2) + ":" + Pad(minute, 2) + ":" + Pad(second, 2)
  }

  /** Reads a wire timestamp back: the inverse of `FormatTimestamp`. */
  function ParseTimestamp(s: string): Option<DateTime> {
    if |s| == 24 && s[4] == '-' && s[7] == '-' && s[10] == 'T' && s[13] == ':' && s[16] == ':'
       && s[19..] == ".000Z"
       && AllDigits(s[0..4]) && AllDigits(s[5..7]) && AllDigits(s[8..10])
       && AllDigits(s[11..13]) && AllDigits(s[14..16]) && AllDigits(s[17..19])
    then
      var t := DateTime(Date(DigitsValue(s[0..4]), DigitsValue(s[5..7]), DigitsValue(s[8..10])),
                        DigitsValue(s[11..13]), DigitsValue(s[14..16]), DigitsValue(s[17..19]));
      if ValidDateTime(t) then Some(t) else None
    else None
  }

  /** The wire timestamp is fixed-width and loses nothing: reading it
      back gives the datetime that was written. */
  lemma ParseFormatTimestamp(t: DateTime)
    requires ValidDateTime(t)
    ensures ParseTimestamp(FormatTimestamp(t)) == Some(t)
  {
    var s := FormatTimestamp(t);
    var date := s[..10];
    var clock := FormatClock(t.hour, t.minute, t.second);
    assert s[11..19] == clock && s[19..] == ".000Z" by {
      Pieces(clock, '.', "000Z");
    }
    assert s[0..4] == date[..4] && s[5..7] == date[5..7] && s[8..10] == date[8..];
    assert s[11..13] == clock[..2] && s[14..16] == clock[3..5] && s[17..19] == clock[6..];
    assert s[4] == date[4] && s[7] == date[7] && s[13] == clock[2] && s[16] == clock[5];
  }

  /** Distinct datetimes have distinct wire timestamps. */
  lemma FormatTimestampInjective(a: DateTime, b: DateTime)
    requires ValidDateTime(a) && ValidDateTime(b)
    requires FormatTimestamp(a) == FormatTimestamp(b)
    ensures a == b
  {
    ParseFormatTimestamp(a);
    ParseFormatTimestamp(b);
  }

  // ---------------------------------------------------------------------
  // strptime(text, "%Y-%m-%d")

  /** The month directive `(1[0-2]|0[1-9]|[1-9])` followed by `-`, tried
      in that order: the value and the number of characters used. */
  function MatchMonth(u: string): Option<(int, nat)> {
    if |u| >= 3 && u[2] == '-'
       && ((u[0] == '1' && '0' <= u[1] <= '2') || (u[0] == '0' && '1' <= u[1] <= '9'))
    then Some((DigitValue(u[0]) * 10 + DigitValue(u[1]), 3))
    else if |u| >= 2 && '1' <= u[0] <= '9' && u[1] == '-' then Some((DigitValue(u[0]), 2))
    else None
  }

  /** The day directive `(3[01]|[12]\d|0[1-9]|[1-9]| [1-9])`: the first
      alternative that matches wins, as in a regular expression. */
  function MatchDay(u: string): Option<(int, nat)> {
    if |u| >= 2 && u[0] == '3' && '0' <= u[1] <= '1' then Some((30 + DigitValue(u[1]), 2))
    else if |u| >= 2 && '1' <= u[0] <= '2' && IsDigit(u[1]) then Some((DigitValue(u[0]) * 10 + DigitValue(u[1]), 2))
    else if |u| >= 2 && u[0] == '0' && '1' <= u[1] <= '9' then Some((DigitValue(u[1]), 2))
    else if |u| >= 1 && '1' <= u[0] <= '9' then Some((DigitValue(u[0]), 1))
    else if |u| >= 2 && u[0] == ' ' && '1' <= u[1] <= '9' then Some((DigitValue(u[1]), 2))
    else None
  }

  /** `datetime.strptime(s, "%Y-%m-%d")`: four year digits, `-`, the
      month, `-`, the day, nothing left over ("unconverted data
      remains" otherwise), and a real calendar date in years 1..9999.
      `None` is the `ValueError`. Non-ASCII digits are not modelled. */
  function ParseDate(s: string): (r: Option<Date>)
    ensures r.Some? ==> InRange(r.value)
  {
    if |s| >= 5 && AllDigits(s[..4]) && s[4] == '-' then
      var year := DigitsValue(s[..4]);
      var rest := s[5..];
      match MatchMonth(rest)
      case None => None
      case Some((month, used)) =>
        var tail := rest[used..];
        match MatchDay(tail)
        case None => None
        case Some((day, dayUsed)) =>
          var d := Date(year, month, day);
          if dayUsed == |tail| && InRange(d) then Some(d) else None
    else None
  }

  /** Every date `strftime("%Y-%m-%d")` writes, `strptime` reads back. */
  lemma ParseFormatDate(d: Date)
    requires InRange(d)
    ensures ParseDate(FormatDate(d)) == Some(d)
  {
    var s := FormatDate(d);
    var rest := s[5..];
    assert rest[..2] == s[5..7] && rest[2] == s[7] && rest[3..] == s[8..];
    MonthMatches(d.month, rest);
    DayMatches(d.day);
    assert s[..4] == Pad(d.year, 4);
  }

  /** A zero-padded month followed by `-` matches the month directive. */
  lemma MonthMatches(month: int, u: string)
    requires 1 <= month <= 12
    requires |u| >= 3 && u[..2] == Pad(month, 2) && u[2] == '-'
    ensures MatchMonth(u) == Some((month, 3))
  {
    Pad2Digits(month);
    assert u[0] == Pad(month, 2)[0] && u[1] == Pad(month, 2)[1];
    MonthDigits(month, u);
  }

  /** The month step stated on the two digit characters alone. */
  lemma MonthDigits(month: int, u: string)
    requires 1 <= month <= 12
    requires |u| >= 3 && u[0] == DigitChar(month / 10) && u[1] == DigitChar(month % 10) && u[2] == '-'
    ensures MatchMonth(u) == Some((month, 3))
  {
    var tens, ones := month / 10, month % 10;
    if month >= 10 {
      assert tens == 1 && ones <= 2;
    } else {
      assert tens == 0 && ones >= 1;
    }
    assert DigitValue(u[0]) * 10 + DigitValue(u[1]) == month;
  }

  /** A zero-padded day of the month matches the day directive in full. */
  lemma DayMatches(day: int)
    requires 1 <= day <= 31
    ensures MatchDay(Pad(day, 2)) == Some((day, 2))
  {
    Pad2Digits(day);
    var u := Pad(day, 2);
    var tens, ones := day / 10, day % 10;
    assert u[0] == DigitChar(tens) && u[1] == DigitChar(ones);
    if day >= 30 {
      assert tens == 3 && ones <= 1;
    } else if day >= 10 {
      assert 1 <= tens <= 2;
    } else {
      assert tens == 0 && ones >= 1;
    }
    assert DigitValue(u[0]) * 10 + DigitValue(u[1]) == day;
  }

  // ---------------------------------------------------------------------
  // "HH:MM"

  /** `hour, minute = map(int, text.split(":"))`: exactly two parts, each
      an integer to `int()`; `None` is the `ValueError` (a missing or
      extra part, or a part `int()` rejects). The range of the numbers
      is not checked here. */
  function ParseClock(text: string): (r: Option<(int, int)>)
    ensures r.Some? ==> Count(text, ':') == 1
  {
    var parts := Split(text, ':');
    if |parts| != 2 then None
    else
      match (ParseInt(parts[0]), ParseInt(parts[1]))
      case (Some(h), Some(m)) => Some((h, m))
      case _ => None
  }

  /** Any text with one colon is accepted exactly when both sides are
      integers to `int()`, and then reads as those two integers. */
  lemma ParseClockSplit(a: string, b: string)
    requires ':' !in a && ':' !in b
    ensures ParseClock(a + ":" + b)
            == if ParseInt(a).Some? && ParseInt(b).Some? then Some((ParseInt(a).value, ParseInt(b).value)) else None
  {
    SplitHead(a, ':', b);
    SplitNoSep(b, ':');
  }

  /** A zero-padded `HH:MM` reads back as its hour and minute. */
  lemma ParseClockPadded(hour: nat, minute: nat)
    requires hour < 100 && minute < 100
    ensures ParseClock(Pad(hour, 2) + ":" + Pad(minute, 2)) == Some((hour, minute))
  {
    Pad2Digits(hour);
    Pad2Digits(minute);
    SplitHead(Pad(hour, 2), ':', Pad(minute, 2));
    SplitNoSep(Pad(minute, 2), ':');
    ParseDigits(Pad(hour, 2));
    ParseDigits(Pad(minute, 2));
  }
}
