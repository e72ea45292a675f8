/** `datetime.isoformat()` and `str_to_datetime` of shared_message.py: the
    combined date and time representation without a UTC offset, extended
    format, of section 4.3.2 of ISO 8601:2004, with an optional fraction of
    the second. */
module DateTimeCodec {
  import opened Wrappers
  import opened Text

  /** Python's naive `datetime.datetime`. */
  datatype DateTime = DateTime(year: int, month: int, day: int, hour: int, minute: int, second: int, microsecond: int)

  predicate IsLeapYear(y: int) {
    y % 4 == 0 && (y % 100 != 0 || y % 400 == 0)
  }

  function DaysInMonth(y: int, m: int): int
    requires 1 <= m <= 12
  {
    if m == 2 then (if IsLeapYear(y) then 29 else 28)
    else if m == 4 || m == 6 || m == 9 || m == 11 then 30
    else 31
  }

  /** The fields the `datetime` constructor accepts: years 1 to 9999
      (`MINYEAR`, `MAXYEAR`), a day that exists in its month, and a time of
      day to the microsecond. */
  predicate Valid(d: DateTime) {
    && 1 <= d.year <= 9999
    && 1 <= d.month <= 12
    && 1 <= d.day <= DaysInMonth(d.year, d.month)
    && 0 <= d.hour < 24 && 0 <= d.minute < 60 && 0 <= d.second < 60
    && 0 <= d.microsecond < 1_000_000
  }

  /** `d.isoformat()`: `YYYY-MM-DDTHH:MM:SS`, then `.ffffff` when the
      microsecond is not zero. */
  function IsoFormat(d: DateTime): (r: string)
    requires Valid(d)
    // 19 characters, or 26 with the fraction, with the separators in place
    ensures |r| == if d.microsecond == 0 then 19 else 26
    ensures r[4] == '-' && r[7] == '-' && r[10] == 'T' && r[13] == ':' && r[16] == ':'
    ensures d.microsecond != 0 ==> r[19] == '.'
  {
    var date := DatePart(d);
    var seconds := SecondPart(d);
    var h, mi := Digits(d.hour, 2), Digits(d.minute, 2);
    TwoDigits(d.hour);
    TwoDigits(d.minute);
    var r := Layout(d, seconds);
    assert r == date + "T" + h + ":" + mi + ":" + seconds;
    r
  }

  /** The layout of `d` with its seconds text. */
  function Layout(d: DateTime, seconds: string): string
    requires Valid(d)
  {
    DatePart(d) + "T" + Digits(d.hour, 2) + ":" + Digits(d.minute, 2) + ":" + seconds
  }

  lemma TwoDigits(n: nat)
    requires n < 100
    ensures |Digits(n, 2)| == 2
  {
    DigitsLength(n, 2);
  }

  function DatePart(d: DateTime): (r: string)
    requires Valid(d)
    ensures |r| == 10 && r[4] == '-' && r[7] == '-'
  {
    DigitsLength(d.year, 4);
    TwoDigits(d.month);
    TwoDigits(d.day);
    Digits(d.year, 4) + "-" + Digits(d.month, 2) + "-" + Digits(d.day, 2)
  }

  function SecondPart(d: DateTime): (r: string)
    requires Valid(d)
    ensures |r| == if d.microsecond == 0 then 2 else 9
    ensures d.microsecond != 0 ==> r[2] == '.'
  {
    TwoDigits(d.second);
    DigitsLength(d.microsecond, 6);
    Digits(d.second, 2) + (if d.microsecond == 0 then "" else "." + Digits(d.microsecond, 6))
  }

  /** `int(s)` on a string of decimal digits; anything else is a ValueError. */
  function ParseInt(s: string): (r: Result<int>)
    ensures !r.Err?
    ensures r.Ok? <==> |s| > 0 && AllDigits(s)
    ensures r.Ok? ==> r.value >= 0
  {
    if |s| > 0 && AllDigits(s) then Ok(ParseNat(s))
    else Fatal("ValueError: invalid literal for int() with base 10: '" + s + "'")
  }

  /** `datetime.datetime(...)`: a ValueError unless the fields are valid. */
  function Construct(year: int, month: int, day: int, hour: int, minute: int, second: int, microsecond: int)
    : (r: Result<DateTime>)
    ensures !r.Err?
    ensures r.Ok? <==> Valid(DateTime(year, month, day, hour, minute, second, microsecond))
    ensures r.Ok? ==> r.value == DateTime(year, month, day, hour, minute, second, microsecond)
  {
    var d := DateTime(year, month, day, hour, minute, second, microsecond);
    if Valid(d) then Ok(d) else Fatal("ValueError: datetime field out of range")
  }

  /** A piece that `int()` reads: one or more decimal digits. */
  predicate Numeral(s: string) {
    |s| > 0 && AllDigits(s)
  }

  /** The date and time whose fields are the numbers the pieces spell, with
      microsecond 0 when there is no fraction. */
  function FieldsOf(year: string, month: string, day: string, hour: string, minute: string, second: string,
                    microsecond: Option<string>): DateTime
    requires AllNumerals(year, month, day, hour, minute, second, microsecond)
  {
    DateTime(ParseNat(year), ParseNat(month), ParseNat(day), ParseNat(hour), ParseNat(minute), ParseNat(second),
             if microsecond.None? then 0 else ParseNat(microsecond.value))
  }

  /** Every piece is a numeral. */
  predicate AllNumerals(year: string, month: string, day: string, hour: string, minute: string, second: string,
                        microsecond: Option<string>)
  {
    && Numeral(year) && Numeral(month) && Numeral(day)
    && Numeral(hour) && Numeral(minute) && Numeral(second)
    && (microsecond.Some? ==> Numeral(microsecond.value))
  }

  /** `s` has the shape `Y-M-DTh:m:s` or `Y-M-DTh:m:s.f`, every piece a
      numeral, and the pieces spell the fields of `d`. */
  predicate ReadsAs(s: string, d: DateTime) {
    var halves := Split(s, 'T');
    && |halves| == 2
    && var date := Split(halves[0], '-');
      var time := Split(halves[1], ':');
      && |date| == 3 && |time| == 3
      && ('.' in time[2] ==> |Split(time[2], '.')| == 2)
      && var second := if '.' in time[2] then Split(time[2], '.')[0] else time[2];
        var us := if '.' in time[2] then Some(Split(time[2], '.')[1]) else None;
        && AllNumerals(date[0], date[1], date[2], time[0], time[1], second, us)
        && d == FieldsOf(date[0], date[1], date[2], time[0], time[1], second, us)
  }

  /** `str_to_datetime(s)`: split on `T`, the date on `-`, the time on `:`;
      the seconds may carry a `.` and a microsecond count, parsed as a whole
      number. A wrong number of pieces is a ValueError from unpacking, raised
      before any field is parsed. */
  function StrToDateTime(s: string): (r: Result<DateTime>)
    ensures !r.Err?
    ensures |Split(s, 'T')| != 2 ==> r.Fatal?
    // a result is the valid date and time that the pieces spell
    ensures r.Ok? ==> Valid(r.value) && ReadsAs(s, r.value)
    // and whenever the pieces spell a valid date and time, that is the result
    ensures forall d :: ReadsAs(s, d) && Valid(d) ==> r == Ok(d)
  {
    var halves := Split(s, 'T');
    if |halves| != 2 then Fatal("ValueError: wrong number of values to unpack")
    else
      var date := Split(halves[0], '-');
      var time := Split(halves[1], ':');
      if |date| != 3 || |time| != 3 then Fatal("ValueError: wrong number of values to unpack")
      else if '.' in time[2] then
        var pieces := Split(time[2], '.');
        if |pieces| != 2 then Fatal("ValueError: wrong number of values to unpack")
        else Build(date[0], date[1], date[2], time[0], time[1], pieces[0], Some(pieces[1]))
      else Build(date[0], date[1], date[2], time[0], time[1], time[2], None)
  }

  /** The `int(...)` calls, left to right, then the constructor. */
  function Build(year: string, month: string, day: string, hour: string, minute: string, second: string,
                 microsecond: Option<string>): (r: Result<DateTime>)
    ensures !r.Err?
    // a result exactly when every piece is a numeral and they spell a valid date and time
    ensures r.Ok? <==>
      AllNumerals(year, month, day, hour, minute, second, microsecond)
      && Valid(FieldsOf(year, month, day, hour, minute, second, microsecond))
    // and then the fields are the numbers the pieces spell
    ensures r.Ok? ==> r.value == FieldsOf(year, month, day, hour, minute, second, microsecond)
    ensures microsecond == None && r.Ok? ==> r.value.microsecond == 0
  {
    var y :- ParseInt(year);
    var mo :- ParseInt(month);
    var d :- ParseInt(day);
    var h :- ParseInt(hour);
    var mi :- ParseInt(minute);
    var s :- ParseInt(second);
    match microsecond
    case None => Construct(y, mo, d, h, mi, s, 0)
    case Some(us) =>
      var u :- ParseInt(us);
      Construct(y, mo, d, h, mi, s, u)
  }

  /* ---------------- the round trip ---------------- */

  /** The pieces of a laid-out string whose seconds text holds no `T` or `:`. */
  lemma LayoutPieces(d: DateTime, seconds: string)
    requires Valid(d) && 'T' !in seconds && ':' !in seconds
    ensures var time := Digits(d.hour, 2) + ":" + Digits(d.minute, 2) + ":" + seconds;
      && Split(Layout(d, seconds), 'T') == [DatePart(d), time]
      && Split(DatePart(d), '-') == [Digits(d.year, 4), Digits(d.month, 2), Digits(d.day, 2)]
      && Split(time, ':') == [Digits(d.hour, 2), Digits(d.minute, 2), seconds]
  {
    var y, mo, dd := Digits(d.year, 4), Digits(d.month, 2), Digits(d.day, 2);
    var h, mi := Digits(d.hour, 2), Digits(d.minute, 2);
    var time := h + ":" + mi + ":" + seconds;
    DigitsExclude(y, '-');
    DigitsExclude(mo, '-');
    DigitsExclude(dd, '-');
    DigitsExclude(h, ':');
    DigitsExclude(mi, ':');
    assert DatePart(d) == y + ['-'] + mo + ['-'] + dd;
    assert time == h + [':'] + mi + [':'] + seconds;
    SplitThree(y, mo, dd, '-');
    SplitThree(h, mi, seconds, ':');
    assert 'T' !in DatePart(d) by {
      DigitsExclude(y, 'T');
      DigitsExclude(mo, 'T');
      DigitsExclude(dd, 'T');
    }
    assert 'T' !in time by {
      DigitsExclude(h, 'T');
      DigitsExclude(mi, 'T');
    }
    assert Layout(d, seconds) == DatePart(d) + ['T'] + time;
    SplitTwo(DatePart(d), time, 'T');
  }

  /** The seconds piece holds digits and at most a `.`. */
  lemma NoSeparatorInSecond(d: DateTime, c: char)
    requires Valid(d) && !IsDigit(c) && c != '.'
    ensures c !in SecondPart(d)
  {
    DigitsExclude(Digits(d.second, 2), c);
    if d.microsecond != 0 {
      DigitsExclude(Digits(d.microsecond, 6), c);
    }
  }

  /** The seconds piece: whole seconds, then the microseconds after a `.`
      when there are any. */
  lemma SecondPieces(d: DateTime)
    requires Valid(d)
    ensures d.microsecond == 0 ==> '.' !in SecondPart(d) && SecondPart(d) == Digits(d.second, 2)
    ensures d.microsecond != 0 ==>
      '.' in SecondPart(d) && Split(SecondPart(d), '.') == [Digits(d.second, 2), Digits(d.microsecond, 6)]
  {
    var s, us := Digits(d.second, 2), Digits(d.microsecond, 6);
    DigitsExclude(s, '.');
    if d.microsecond == 0 {
      assert SecondPart(d) == s + "";
    } else {
      DigitsExclude(us, '.');
      assert SecondPart(d) == s + ['.'] + us;
      assert SecondPart(d)[|s|] == '.';
      SplitTwo(s, us, '.');
    }
  }

  /** Parsing the zero-padded fields of a valid date and time gives it back. */
  lemma BuildDigits(d: DateTime)
    requires Valid(d)
    ensures var us := if d.microsecond == 0 then None else Some(Digits(d.microsecond, 6));
      Build(Digits(d.year, 4), Digits(d.month, 2), Digits(d.day, 2),
            Digits(d.hour, 2), Digits(d.minute, 2), Digits(d.second, 2), us) == Ok(d)
  {
    ParseDigits(d.year, 4);
    ParseDigits(d.month, 2);
    ParseDigits(d.day, 2);
    ParseDigits(d.hour, 2);
    ParseDigits(d.minute, 2);
    ParseDigits(d.second, 2);
    ParseDigits(d.microsecond, 6);
  }

  /** `str_to_datetime(d.isoformat()) == d`, with and without microseconds. */
  lemma RoundTrip(d: DateTime)
    requires Valid(d)
    ensures StrToDateTime(IsoFormat(d)) == Ok(d)
  {
    NoSeparatorInSecond(d, 'T');
    NoSeparatorInSecond(d, ':');
    LayoutPieces(d, SecondPart(d));
    SecondPieces(d);
    BuildDigits(d);
  }

  /** The unit test: `datetime(1, 2, 3, 4, 5, 6)` and `datetime(1, 2, 3, 4, 5, 6, 7)`
      survive the round trip. */
  lemma StrToDateTimeTest()
    ensures StrToDateTime(IsoFormat(DateTime(1, 2, 3, 4, 5, 6, 0))) == Ok(DateTime(1, 2, 3, 4, 5, 6, 0))
    ensures StrToDateTime(IsoFormat(DateTime(1, 2, 3, 4, 5, 6, 7))) == Ok(DateTime(1, 2, 3, 4, 5, 6, 7))
  {
    RoundTrip(DateTime(1, 2, 3, 4, 5, 6, 0));
    RoundTrip(DateTime(1, 2, 3, 4, 5, 6, 7));
  }

  /** A fraction written with fewer than six digits is read as a count of
      microseconds, not as a fraction of a second: `.5` after the seconds is
      5 microseconds, where section 4.2.2.4 of ISO 8601:2004 reads half a
      second. Strings that `isoformat` writes always carry six digits, so the
      round trip holds. */
  lemma ShortFraction(d: DateTime, f: nat)
    requires Valid(d) && d.microsecond == 0 && 0 < f < 10
    ensures StrToDateTime(IsoFormat(d) + "." + Digits(f, 1)) == Ok(d.(microsecond := f))
  {
    var seconds := Digits(d.second, 2) + "." + Digits(f, 1);
    ShortSecondPieces(d, f);
    assert SecondPart(d) == Digits(d.second, 2);
    assert IsoFormat(d) + "." + Digits(f, 1) == Layout(d, seconds);
    LayoutPieces(d, seconds);
    BuildShort(d, f);
  }

  /** Seconds with a one-digit fraction split at the `.`. */
  lemma ShortSecondPieces(d: DateTime, f: nat)
    requires Valid(d) && 0 < f < 10
    ensures var seconds := Digits(d.second, 2) + "." + Digits(f, 1);
      && 'T' !in seconds && ':' !in seconds && '.' in seconds
      && Split(seconds, '.') == [Digits(d.second, 2), Digits(f, 1)]
  {
    var s, frac := Digits(d.second, 2), Digits(f, 1);
    DigitsExclude(s, 'T');
    DigitsExclude(s, ':');
    DigitsExclude(s, '.');
    DigitsExclude(frac, 'T');
    DigitsExclude(frac, ':');
    DigitsExclude(frac, '.');
    assert s + "." + frac == s + ['.'] + frac;
    assert (s + "." + frac)[|s|] == '.';
    SplitTwo(s, frac, '.');
  }

  /** Parsing the fields with a one-digit fraction. */
  lemma BuildShort(d: DateTime, f: nat)
    requires Valid(d) && 0 < f < 10
    ensures Build(Digits(d.year, 4), Digits(d.month, 2), Digits(d.day, 2),
                  Digits(d.hour, 2), Digits(d.minute, 2), Digits(d.second, 2), Some(Digits(f, 1)))
      == Ok(d.(microsecond := f))
  {
    assert Valid(d.(microsecond := f));
    ParseDigits(d.year, 4);
    ParseDigits(d.month, 2);
    ParseDigits(d.day, 2);
    ParseDigits(d.hour, 2);
    ParseDigits(d.minute, 2);
    ParseDigits(d.second, 2);
    ParseDigits(f, 1);
  }
}
