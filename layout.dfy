/**
 * The three fixed layouts the evaluator hands to Go's `time.Parse`:
 * "15:04" (clock time), "2006-01-02T15:04" (absolute date and time) and
 * "02T15:04" (day of month and time). Go's rules are kept: an hour may have
 * one or two digits, every other field exactly its width, the fields must be
 * in range, and nothing may follow the last field.
 */
module Layout {
  import opened Wrappers
  import Civil

  predicate IsDigit(c: char) {
    '0' <= c <= '9'
  }

  function DigitValue(c: char): (v: int)
    requires IsDigit(c)
    ensures 0 <= v <= 9
  {
    c as int - '0' as int
  }

  function DigitChar(v: int): (c: char)
    requires 0 <= v <= 9
    ensures IsDigit(c) && DigitValue(c) == v
  {
    ('0' as int + v) as char
  }

  /** A number and the text after it. */
  datatype Scanned = Scanned(n: int, rest: string)

  /**
   * Go's `getnum`: one digit, or two when the second character is a digit;
   * `fixed` demands two.
   */
  function GetNum(s: string, fixed: bool): (r: Option<Scanned>)
    ensures r.Some? ==> 0 <= r.value.n <= 99 && |r.value.rest| < |s|
    ensures r.Some? && fixed ==> |s| >= 2 && r.value.rest == s[2..]
  {
    if |s| == 0 || !IsDigit(s[0]) then None
    else if |s| == 1 || !IsDigit(s[1]) then
      (if fixed then None else Some(Scanned(DigitValue(s[0]), s[1..])))
    else Some(Scanned(10 * DigitValue(s[0]) + DigitValue(s[1]), s[2..]))
  }

  /** Go's `skip` for a one-character literal of the layout. */
  function Skip(s: string, c: char): (r: Option<string>)
    ensures r.Some? <==> |s| > 0 && s[0] == c
    ensures r.Some? ==> r.value == s[1..]
  {
    if |s| > 0 && s[0] == c then Some(s[1..]) else None
  }

  /** Go's four-digit year ("2006"). */
  function GetYear(s: string): (r: Option<Scanned>)
    ensures r.Some? ==> 0 <= r.value.n <= 9999 && |s| >= 4 && r.value.rest == s[4..]
  {
    if |s| >= 4 && IsDigit(s[0]) && IsDigit(s[1]) && IsDigit(s[2]) && IsDigit(s[3]) then
      Some(Scanned(1000 * DigitValue(s[0]) + 100 * DigitValue(s[1]) + 10 * DigitValue(s[2]) + DigitValue(s[3]), s[4..]))
    else None
  }

  datatype Clock = Clock(hour: int, minute: int)

  predicate ValidClock(c: Clock) {
    0 <= c.hour < 24 && 0 <= c.minute < 60
  }

  /** Seconds since midnight of a clock time. */
  function SecondsOfDay(c: Clock): (t: int)
    requires ValidClock(c)
    ensures 0 <= t < Civil.SecondsPerDay
  {
    c.hour * Civil.SecondsPerHour + c.minute * Civil.SecondsPerMinute
  }

  /** The "15:04" part shared by all three layouts, followed by whatever text remains. */
  function ScanClock(s: string): (r: Option<(Clock, string)>)
    ensures r.Some? ==> ValidClock(r.value.0)
  {
    match GetNum(s, false)
    case None => None
    case Some(h) =>
      if h.n >= 24 then None
      else
        match Skip(h.rest, ':')
        case None => None
        case Some(afterColon) =>
          match GetNum(afterColon, true)
          case None => None
          case Some(m) =>
            if m.n >= 60 then None
            else Some((Clock(h.n, m.n), m.rest))
  }

  /** `time.Parse("15:04", s)`. */
  function ParseClock(s: string): (r: Option<Clock>)
    ensures r.Some? ==> ValidClock(r.value)
  {
    match ScanClock(s)
    case None => None
    case Some((c, rest)) => if rest == "" then Some(c) else None
  }

  datatype DateTime = DateTime(year: int, month: int, day: int, clock: Clock)

  predicate ValidDateTime(t: DateTime) {
    Civil.ValidDate(t.year, t.month, t.day) && ValidClock(t.clock)
  }

  /** `time.Parse("2006-01-02T15:04", s)`, the date checked against the length of its month. */
  function ParseDateTime(s: string): (r: Option<DateTime>)
    ensures r.Some? ==> ValidDateTime(r.value) && 0 <= r.value.year <= 9999
  {
    match GetYear(s)
    case None => None
    case Some(y) =>
      match Skip(y.rest, '-')
      case None => None
      case Some(s1) => ParseMonthOnward(y.n, s1)
  }

  /** The "01-02T15:04" part of that layout, once the year `year` is read. */
  function ParseMonthOnward(year: int, s: string): (r: Option<DateTime>)
    ensures r.Some? ==> ValidDateTime(r.value) && r.value.year == year
  {
    match GetNum(s, true)
    case None => None
    case Some(mo) =>
      if mo.n < 1 || mo.n > 12 then None
      else
        match Skip(mo.rest, '-')
        case None => None
        case Some(s2) =>
          match GetNum(s2, true)
          case None => None
          case Some(d) =>
            match Skip(d.rest, 'T')
            case None => None
            case Some(s3) =>
              match ScanClock(s3)
              case None => None
              case Some((c, rest)) =>
                if rest != "" || d.n < 1 || d.n > Civil.DaysIn(mo.n, year) then None
                else Some(DateTime(year, mo.n, d.n, c))
  }

  datatype DayClock = DayClock(day: int, clock: Clock)

  /**
   * `time.Parse("02T15:04", s)`. With no month and year in the layout Go
   * checks the day against January of year 0, so 1..31 pass.
   */
  function ParseDayClock(s: string): (r: Option<DayClock>)
    ensures r.Some? ==> 1 <= r.value.day <= 31 && ValidClock(r.value.clock)
  {
    match GetNum(s, true)
    case None => None
    case Some(d) =>
      match Skip(d.rest, 'T')
      case None => None
      case Some(s1) =>
        match ScanClock(s1)
        case None => None
        case Some((c, rest)) =>
          if rest != "" || d.n < 1 || d.n > Civil.DaysIn(1, 0) then None
          else Some(DayClock(d.n, c))
  }

  function TwoDigits(v: int): (s: string)
    requires 0 <= v <= 99
    ensures |s| == 2 && IsDigit(s[0]) && IsDigit(s[1])
  {
    [DigitChar(v / 10), DigitChar(v % 10)]
  }

  function FourDigits(v: int): (s: string)
    requires 0 <= v <= 9999
    ensures |s| == 4
  {
    TwoDigits(v / 100) + TwoDigits(v % 100)
  }

  /** The canonical "HH:MM" spelling of a clock time. */
  function FormatClock(c: Clock): (s: string)
    requires ValidClock(c)
    ensures |s| == 5
  {
    TwoDigits(c.hour) + ":" + TwoDigits(c.minute)
  }

  /** The canonical "YYYY-MM-DDTHH:MM" spelling of a date and time. */
  function FormatDateTime(t: DateTime): (s: string)
    requires ValidDateTime(t) && 0 <= t.year <= 9999
    ensures |s| == 16
  {
    FourDigits(t.year) + "-" + TwoDigits(t.month) + "-" + TwoDigits(t.day) + "T" + FormatClock(t.clock)
  }

  lemma TwoDigitsScan(v: int, fixed: bool, rest: string)
    requires 0 <= v <= 99
    ensures GetNum(TwoDigits(v) + rest, fixed) == Some(Scanned(v, rest))
  {
    var s := TwoDigits(v) + rest;
    assert s[2..] == rest;
  }

  lemma {:induction false} ClockScanRoundTrip(c: Clock, rest: string)
    requires ValidClock(c)
    ensures ScanClock(FormatClock(c) + rest) == Some((c, rest))
  {
    var s := FormatClock(c) + rest;
    assert s == TwoDigits(c.hour) + (":" + TwoDigits(c.minute) + rest);
    TwoDigitsScan(c.hour, false, ":" + TwoDigits(c.minute) + rest);
    TwoDigitsScan(c.minute, true, rest);
    assert (":" + TwoDigits(c.minute) + rest)[1..] == TwoDigits(c.minute) + rest;
  }

  /** Every clock time survives formatting and parsing under "15:04". */
  lemma {:induction false} ClockRoundTrip(c: Clock)
    requires ValidClock(c)
    ensures ParseClock(FormatClock(c)) == Some(c)
  {
    ClockScanRoundTrip(c, "");
    assert FormatClock(c) + "" == FormatClock(c);
  }

  lemma FourDigitsScan(v: int, rest: string)
    requires 0 <= v <= 9999
    ensures GetYear(FourDigits(v) + rest) == Some(Scanned(v, rest))
  {
    var hi, lo := v / 100, v % 100;
    var s := FourDigits(v) + rest;
    assert s[4..] == rest;
    assert DigitValue(s[0]) == hi / 10 && DigitValue(s[1]) == hi % 10;
    assert DigitValue(s[2]) == lo / 10 && DigitValue(s[3]) == lo % 10;
    assert 10 * (hi / 10) + hi % 10 == hi;
    assert 10 * (lo / 10) + lo % 10 == lo;
  }

  lemma LiteralSkip(c: char, rest: string)
    ensures Skip([c] + rest, c) == Some(rest)
  {
    assert ([c] + rest)[1..] == rest;
  }

  /** The month, day and clock of a valid date and time read back from their spelling. */
  lemma {:induction false} MonthOnwardRoundTrip(t: DateTime)
    requires ValidDateTime(t)
    ensures ParseMonthOnward(t.year, TwoDigits(t.month) + "-" + TwoDigits(t.day) + "T" + FormatClock(t.clock)) == Some(t)
  {
    var clock := FormatClock(t.clock);
    var afterDay := "T" + clock;
    var afterMonth := "-" + TwoDigits(t.day) + afterDay;
    assert TwoDigits(t.month) + "-" + TwoDigits(t.day) + "T" + clock == TwoDigits(t.month) + afterMonth;
    TwoDigitsScan(t.month, true, afterMonth);
    LiteralSkip('-', TwoDigits(t.day) + afterDay);
    TwoDigitsScan(t.day, true, afterDay);
    LiteralSkip('T', clock);
    ClockScanRoundTrip(t.clock, "");
    assert clock + "" == clock;
  }

  /** Every date and time of years 0..9999 survives formatting and parsing under "2006-01-02T15:04". */
  lemma {:induction false} DateTimeRoundTrip(t: DateTime)
    requires ValidDateTime(t) && 0 <= t.year <= 9999
    ensures ParseDateTime(FormatDateTime(t)) == Some(t)
  {
    var monthOnward := TwoDigits(t.month) + "-" + TwoDigits(t.day) + "T" + FormatClock(t.clock);
    assert FormatDateTime(t) == FourDigits(t.year) + ("-" + monthOnward);
    FourDigitsScan(t.year, "-" + monthOnward);
    LiteralSkip('-', monthOnward);
    MonthOnwardRoundTrip(t);
  }

  /** "15:04" accepts a one-digit hour, as Go's parser does. */
  lemma OneDigitHourAccepted()
    ensures ParseClock("9:05") == Some(Clock(9, 5))
  {
  }

  /** Out-of-range fields, a one-digit minute and trailing text are all rejected. */
  lemma MalformedClocksRejected()
    ensures ParseClock("24:00") == None
    ensures ParseClock("10:60") == None
    ensures ParseClock("10:5") == None
    ensures ParseClock("10:00Z") == None
    ensures ParseClock("") == None
  {
  }

  /** A digit character is the spelling of its own value. */
  lemma DigitCharValue(ch: char)
    requires IsDigit(ch)
    ensures DigitChar(DigitValue(ch)) == ch
  {
  }

  /** The two digits of a two-digit number are spelled back by `TwoDigits`. */
  lemma {:induction false} TwoDigitsOfDigits(a: char, b: char)
    requires IsDigit(a) && IsDigit(b)
    ensures TwoDigits(10 * DigitValue(a) + DigitValue(b)) == [a, b]
  {
    var v := 10 * DigitValue(a) + DigitValue(b);
    assert v / 10 == DigitValue(a) && v % 10 == DigitValue(b);
    DigitCharValue(a);
    DigitCharValue(b);
  }

  /**
   * "15:04" accepts exactly the canonical spellings: every string that
   * parses is the "HH:MM" of its clock time, or, for an hour below ten, that
   * spelling without its leading zero.
   */
  lemma {:induction false} ParseClockOnlyCanonical(s: string)
    requires ParseClock(s).Some?
    ensures var c := ParseClock(s).value;
      s == FormatClock(c) || (c.hour < 10 && s == FormatClock(c)[1..])
  {
    var c := ParseClock(s).value;
    assert |s| >= 2 && IsDigit(s[0]);
    if IsDigit(s[1]) {
      assert |s| == 5 && s[2] == ':' && IsDigit(s[3]) && IsDigit(s[4]);
      assert c == Clock(10 * DigitValue(s[0]) + DigitValue(s[1]), 10 * DigitValue(s[3]) + DigitValue(s[4]));
      TwoDigitsOfDigits(s[0], s[1]);
      TwoDigitsOfDigits(s[3], s[4]);
      assert s == [s[0], s[1]] + ":" + [s[3], s[4]];
    } else {
      assert |s| == 4 && s[1] == ':' && IsDigit(s[2]) && IsDigit(s[3]);
      assert c == Clock(DigitValue(s[0]), 10 * DigitValue(s[2]) + DigitValue(s[3]));
      TwoDigitsOfDigits('0', s[0]);
      TwoDigitsOfDigits(s[2], s[3]);
      assert FormatClock(c) == ['0', s[0]] + ":" + [s[2], s[3]];
      assert s == FormatClock(c)[1..];
    }
  }
}
