/** The schedule time of an upload (fb_uploader/upload.py, `upload_video` and the
    validation block of `upload_facebook_video`): the `"%Y-%m-%d %H:%M"` string is
    read as a UTC instant, rejected when it is less than ten minutes ahead of the
    clock, and otherwise sent upstream as integer Unix epoch seconds.

    The calendar follows Python's `datetime` (proleptic Gregorian, years 1 to 9999);
    the clock is a parameter, in microseconds since the epoch. */
module Schedule {
  import opened Wrappers
  import opened Text

  const MicrosPerSecond: int := 1_000_000
  const SecondsPerDay: int := 86400
  /** `date(1970, 1, 1).toordinal()` */
  const EpochOrdinal: int := 719163
  /** `timedelta(minutes=10)` in microseconds */
  const MinLeadMicros: int := 600_000_000

  /** An aware `datetime` whose tzinfo is UTC. */
  datatype DateTime = DateTime(year: int, month: int, day: int, hour: int, minute: int, second: int, micro: int)
  {
    /** The range checks of the `datetime` constructor. */
    predicate Valid() {
      && 1 <= year <= 9999
      && 1 <= month <= 12
      && 1 <= day <= DaysInMonth(year, month)
      && 0 <= hour < 24
      && 0 <= minute < 60
      && 0 <= second < 60
      && 0 <= micro < 1_000_000
    }
  }

  // ---------------------------------------------------------------------------
  // Calendar (Python's `_is_leap`, `_days_in_month`, `_days_before_year`,
  // `_days_before_month`, `_ymd2ord`)
  // ---------------------------------------------------------------------------

  predicate IsLeap(y: int) {
    y % 4 == 0 && (y % 100 != 0 || y % 400 == 0)
  }

  function DaysInYear(y: int): int {
    if IsLeap(y) then 366 else 365
  }

  function DaysInMonth(y: int, m: int): int
    requires 1 <= m <= 12
  {
    if m == 2 then (if IsLeap(y) then 29 else 28)
    else if m == 4 || m == 6 || m == 9 || m == 11 then 30
    else 31
  }

  /** Days in the years before year `y`, in closed form. */
  function DaysBeforeYear(y: int): int
    requires y >= 1
  {
    var x := y - 1;
    x * 365 + x / 4 - x / 100 + x / 400
  }

  /** Days in the months of year `y` before month `m`: a fixed table for a common
      year, plus one after February of a leap year. */
  function DaysBeforeMonth(y: int, m: int): int
    requires 1 <= m <= 12
  {
    var common :=
      if m == 1 then 0 else if m == 2 then 31 else if m == 3 then 59
      else if m == 4 then 90 else if m == 5 then 120 else if m == 6 then 151
      else if m == 7 then 181 else if m == 8 then 212 else if m == 9 then 243
      else if m == 10 then 273 else if m == 11 then 304 else 334;
    common + (if m > 2 && IsLeap(y) then 1 else 0)
  }

  /** The proleptic Gregorian ordinal: 0001-01-01 is day 1. */
  function Ordinal(y: int, m: int, d: int): int
    requires y >= 1 && 1 <= m <= 12
  {
    DaysBeforeYear(y) + DaysBeforeMonth(y, m) + d
  }

  /** Seconds since 1970-01-01 00:00 UTC, leaving out the microseconds: whole
      days since the epoch's day, then the seconds into the day. */
  function EpochSeconds(dt: DateTime): (s: int)
    requires dt.Valid()
    ensures s / SecondsPerDay == Ordinal(dt.year, dt.month, dt.day) - EpochOrdinal
    ensures s % SecondsPerDay == dt.hour * 3600 + dt.minute * 60 + dt.second
  {
    var days := Ordinal(dt.year, dt.month, dt.day) - EpochOrdinal;
    var time := dt.hour * 3600 + dt.minute * 60 + dt.second;
    DayAndTime(days, time);
    days * SecondsPerDay + time
  }

  lemma DayAndTime(days: int, time: int)
    requires 0 <= time < SecondsPerDay
    ensures (days * SecondsPerDay + time) / SecondsPerDay == days
    ensures (days * SecondsPerDay + time) % SecondsPerDay == time
  {
  }

  /** The instant `dt` names, in microseconds since the epoch. */
  function EpochMicros(dt: DateTime): int
    requires dt.Valid()
  {
    EpochSeconds(dt) * MicrosPerSecond + dt.micro
  }

  /** `int(dt.timestamp())`: the seconds since the epoch, truncated toward zero,
      in exact arithmetic. */
  function Timestamp(dt: DateTime): (ts: int)
    requires dt.Valid()
    ensures dt.micro == 0 ==> ts == EpochSeconds(dt)
    ensures EpochMicros(dt) >= 0 ==> ts * MicrosPerSecond <= EpochMicros(dt) < (ts + 1) * MicrosPerSecond
    ensures EpochMicros(dt) < 0 ==> (ts - 1) * MicrosPerSecond < EpochMicros(dt) <= ts * MicrosPerSecond
  {
    var us := EpochMicros(dt);
    if us >= 0 then us / MicrosPerSecond else -((-us) / MicrosPerSecond)
  }

  // ---------------------------------------------------------------------------
  // The calendar counts days: the closed forms agree with adding up the lengths
  // of the years and months before a date.
  // ---------------------------------------------------------------------------

  /** How the leap-year counts in `DaysBeforeYear` move when the year steps up
      by one. */
  lemma QuotientsStep(n: int)
    requires n >= 1
    ensures n / 4 == (n - 1) / 4 + (if n % 4 == 0 then 1 else 0)
    ensures n / 100 == (n - 1) / 100 + (if n % 100 == 0 then 1 else 0)
    ensures n / 400 == (n - 1) / 400 + (if n % 400 == 0 then 1 else 0)
  {
  }

  lemma DividesStep(n: int)
    ensures n % 400 == 0 ==> n % 100 == 0
    ensures n % 100 == 0 ==> n % 4 == 0
  {
  }

  lemma DaysBeforeYearStep(y: int)
    requires y >= 1
    ensures DaysBeforeYear(y + 1) == DaysBeforeYear(y) + DaysInYear(y)
  {
    QuotientsStep(y);
    DividesStep(y);
  }

  lemma DaysBeforeMonthStep(y: int, m: int)
    requires 1 <= m <= 12
    ensures m < 12 ==> DaysBeforeMonth(y, m + 1) == DaysBeforeMonth(y, m) + DaysInMonth(y, m)
    ensures m == 12 ==> DaysBeforeMonth(y, m) + DaysInMonth(y, m) == DaysInYear(y)
  {
  }

  /** Every later year starts after every day of an earlier one has passed. */
  lemma {:induction false} DaysBeforeYearGrows(y: int, z: int)
    requires 1 <= y < z
    ensures DaysBeforeYear(y) + DaysInYear(y) <= DaysBeforeYear(z)
    decreases z - y
  {
    DaysBeforeYearStep(y);
    if y + 1 < z {
      DaysBeforeYearGrows(y + 1, z);
      DaysBeforeYearStep(y + 1);
    }
  }

  lemma {:induction false} DaysBeforeMonthGrows(y: int, m: int, n: int)
    requires 1 <= m < n <= 12
    ensures DaysBeforeMonth(y, m) + DaysInMonth(y, m) <= DaysBeforeMonth(y, n)
    decreases n - m
  {
    DaysBeforeMonthStep(y, m);
    if m + 1 < n {
      DaysBeforeMonthGrows(y, m + 1, n);
      DaysBeforeMonthStep(y, m + 1);
    }
  }

  /** The days of a valid date's year that come before it, itself included. */
  lemma DayOfYearBounds(dt: DateTime)
    requires dt.Valid()
    ensures DaysBeforeYear(dt.year) < Ordinal(dt.year, dt.month, dt.day)
    ensures Ordinal(dt.year, dt.month, dt.day) <= DaysBeforeYear(dt.year) + DaysInYear(dt.year)
  {
    if dt.month < 12 {
      DaysBeforeMonthGrows(dt.year, dt.month, 12);
    }
    DaysBeforeMonthStep(dt.year, 12);
  }

  // ---------------------------------------------------------------------------
  // Order. Python compares two datetimes with the same tzinfo field by field;
  // the model compares the instants. The two orders agree.
  // ---------------------------------------------------------------------------

  /** Python's `a < b` on two UTC datetimes: a lexicographic comparison of
      (year, month, day, hour, minute, second, microsecond). */
  predicate Earlier(a: DateTime, b: DateTime) {
    || a.year < b.year
    || (a.year == b.year && a.month < b.month)
    || (a.year == b.year && a.month == b.month && a.day < b.day)
    || (a.year == b.year && a.month == b.month && a.day == b.day && a.hour < b.hour)
    || (a.year == b.year && a.month == b.month && a.day == b.day && a.hour == b.hour && a.minute < b.minute)
    || (a.year == b.year && a.month == b.month && a.day == b.day && a.hour == b.hour && a.minute == b.minute
        && a.second < b.second)
    || (a.year == b.year && a.month == b.month && a.day == b.day && a.hour == b.hour && a.minute == b.minute
        && a.second == b.second && a.micro < b.micro)
  }

  /** An earlier calendar date has a smaller ordinal. */
  lemma EarlierDateSmallerOrdinal(a: DateTime, b: DateTime)
    requires a.Valid() && b.Valid()
    requires a.year < b.year || (a.year == b.year && (a.month < b.month || (a.month == b.month && a.day < b.day)))
    ensures Ordinal(a.year, a.month, a.day) < Ordinal(b.year, b.month, b.day)
  {
    DayOfYearBounds(a);
    DayOfYearBounds(b);
    if a.year < b.year {
      DaysBeforeYearGrows(a.year, b.year);
    } else if a.month < b.month {
      DaysBeforeMonthGrows(a.year, a.month, b.month);
    }
  }

  lemma EarlierIsSmallerInstant(a: DateTime, b: DateTime)
    requires a.Valid() && b.Valid()
    requires Earlier(a, b)
    ensures EpochMicros(a) < EpochMicros(b)
  {
    var da, db := Ordinal(a.year, a.month, a.day), Ordinal(b.year, b.month, b.day);
    if da != db {
      EarlierDateSmallerOrdinal(a, b);
      assert EpochSeconds(a) < (da - EpochOrdinal + 1) * SecondsPerDay <= EpochSeconds(b);
    } else {
      assert a.year == b.year && a.month == b.month && a.day == b.day by {
        if !(a.year == b.year && a.month == b.month && a.day == b.day) {
          EarlierDateSmallerOrdinal(a, b);
        }
      }
    }
  }

  /** Comparing the instants decides exactly what Python's field-by-field
      comparison decides, in both directions. */
  lemma InstantOrderIsFieldOrder(a: DateTime, b: DateTime)
    requires a.Valid() && b.Valid()
    ensures Earlier(a, b) <==> EpochMicros(a) < EpochMicros(b)
  {
    if Earlier(a, b) {
      EarlierIsSmallerInstant(a, b);
    } else if Earlier(b, a) {
      EarlierIsSmallerInstant(b, a);
    } else {
      assert a == b;
    }
  }

  /** Two valid datetimes name the same instant only when they are equal. */
  lemma InstantsAreDistinct(a: DateTime, b: DateTime)
    requires a.Valid() && b.Valid() && a != b
    ensures EpochMicros(a) != EpochMicros(b)
  {
    InstantOrderIsFieldOrder(a, b);
    InstantOrderIsFieldOrder(b, a);
  }

  // ---------------------------------------------------------------------------
  // Validation (line 31-35)
  // ---------------------------------------------------------------------------

  /** `scheduled_datetime < now_utc + timedelta(minutes=10)`: the strict test
      that rejects a schedule time. */
  predicate TooSoon(dt: DateTime, nowMicros: int)
    requires dt.Valid()
  {
    EpochMicros(dt) < nowMicros + MinLeadMicros
  }

  /** The validation block: `None` when the instant is rejected, otherwise the
      `scheduled_timestamp` that is sent upstream. */
  function ScheduledTimestamp(dt: DateTime, nowMicros: int): (r: Option<int>)
    requires dt.Valid()
    ensures r.None? <==> EpochMicros(dt) < nowMicros + MinLeadMicros
    ensures r.Some? ==> r.value >= nowMicros / MicrosPerSecond + 600
    ensures r.Some? && dt.micro == 0 ==> r.value == EpochSeconds(dt)
  {
    if TooSoon(dt, nowMicros) then None else Some(Timestamp(dt))
  }

  /** Exactly ten minutes ahead is accepted: the comparison is strict. */
  lemma TenMinutesAheadIsAccepted(dt: DateTime, nowMicros: int)
    requires dt.Valid() && EpochMicros(dt) == nowMicros + MinLeadMicros
    ensures ScheduledTimestamp(dt, nowMicros).Some?
  {
  }

  // ---------------------------------------------------------------------------
  // Parsing: `datetime.strptime(s, "%Y-%m-%d %H:%M")`. Python turns the format
  // into the regular expression
  //   (?P<Y>\d\d\d\d)-(?P<m>1[0-2]|0[1-9]|[1-9])-(?P<d>3[0-1]|[1-2]\d|0[1-9]|[1-9]| [1-9])
  //   \s+(?P<H>2[0-3]|[0-1]\d|\d):(?P<M>[0-5]\d|\d)
  // and then refuses unconverted trailing text, year 0 and a day past the end of
  // its month. Each field below is followed by a separator it cannot start
  // with, so the first alternative that matches is the only one that can lead
  // to a full match, and the parse is deterministic.
  // ---------------------------------------------------------------------------

  /** A field's value and the text after it. */
  datatype Token = Token(value: int, rest: string)

  function Year(s: string): (r: Option<Token>)
    ensures r.Some? ==> 0 <= r.value.value <= 9999 && |r.value.rest| < |s|
  {
    if |s| >= 4 && AllDigits(s[..4]) then Some(Token(DecimalValue(s[..4]), s[4..])) else None
  }

  function Month(s: string): (r: Option<Token>)
    ensures r.Some? ==> 1 <= r.value.value <= 12 && |r.value.rest| < |s|
  {
    if |s| >= 2 && s[0] == '1' && '0' <= s[1] <= '2' then Some(Token(10 + DigitValue(s[1]), s[2..]))
    else if |s| >= 2 && s[0] == '0' && '1' <= s[1] <= '9' then Some(Token(DigitValue(s[1]), s[2..]))
    else if |s| >= 1 && '1' <= s[0] <= '9' then Some(Token(DigitValue(s[0]), s[1..]))
    else None
  }

  function Day(s: string): (r: Option<Token>)
    ensures r.Some? ==> 1 <= r.value.value <= 31 && |r.value.rest| < |s|
  {
    if |s| >= 2 && s[0] == '3' && '0' <= s[1] <= '1' then Some(Token(30 + DigitValue(s[1]), s[2..]))
    else if |s| >= 2 && '1' <= s[0] <= '2' && IsDigit(s[1]) then Some(Token(DigitValue(s[0]) * 10 + DigitValue(s[1]), s[2..]))
    else if |s| >= 2 && s[0] == '0' && '1' <= s[1] <= '9' then Some(Token(DigitValue(s[1]), s[2..]))
    else if |s| >= 1 && '1' <= s[0] <= '9' then Some(Token(DigitValue(s[0]), s[1..]))
    else if |s| >= 2 && s[0] == ' ' && '1' <= s[1] <= '9' then Some(Token(DigitValue(s[1]), s[2..]))
    else None
  }

  function Hour(s: string): (r: Option<Token>)
    ensures r.Some? ==> 0 <= r.value.value <= 23 && |r.value.rest| < |s|
  {
    if |s| >= 2 && s[0] == '2' && '0' <= s[1] <= '3' then Some(Token(20 + DigitValue(s[1]), s[2..]))
    else if |s| >= 2 && '0' <= s[0] <= '1' && IsDigit(s[1]) then Some(Token(DigitValue(s[0]) * 10 + DigitValue(s[1]), s[2..]))
    else if |s| >= 1 && IsDigit(s[0]) then Some(Token(DigitValue(s[0]), s[1..]))
    else None
  }

  function Minute(s: string): (r: Option<Token>)
    ensures r.Some? ==> 0 <= r.value.value <= 59 && |r.value.rest| < |s|
  {
    if |s| >= 2 && '0' <= s[0] <= '5' && IsDigit(s[1]) then Some(Token(DigitValue(s[0]) * 10 + DigitValue(s[1]), s[2..]))
    else if |s| >= 1 && IsDigit(s[0]) then Some(Token(DigitValue(s[0]), s[1..]))
    else None
  }

  /** A literal separator character of the format. */
  function Literal(c: char, s: string): (r: Option<string>)
    ensures r.Some? ==> |s| >= 1 && s[0] == c && r.value == s[1..]
  {
    if |s| >= 1 && s[0] == c then Some(s[1..]) else None
  }

  function DropSpaces(s: string): (r: string)
    ensures |r| <= |s|
    ensures r == [] || !IsSpace(r[0])
  {
    if s != [] && IsSpace(s[0]) then DropSpaces(s[1..]) else s
  }

  /** `\s+`, greedy. */
  function Spaces(s: string): (r: Option<string>)
    ensures r.Some? ==> |s| >= 1 && IsSpace(s[0]) && |r.value| < |s|
  {
    if s != [] && IsSpace(s[0]) then Some(DropSpaces(s[1..])) else None
  }

  /** The fields `%Y-%m-%d` reads, and the text after them. */
  datatype DatePart = DatePart(year: int, month: int, day: int, rest: string)

  function ReadDate(s: string): (r: Option<DatePart>)
    ensures r.Some? ==> 0 <= r.value.year <= 9999 && 1 <= r.value.month <= 12 && 1 <= r.value.day <= 31
  {
    var y :- Year(s);
    var r1 :- Literal('-', y.rest);
    var m :- Month(r1);
    var r2 :- Literal('-', m.rest);
    var d :- Day(r2);
    Some(DatePart(y.value, m.value, d.value, d.rest))
  }

  /** The fields `\s+%H:%M` reads, and the text after them. */
  datatype TimePart = TimePart(hour: int, minute: int, rest: string)

  function ReadTime(s: string): (r: Option<TimePart>)
    ensures r.Some? ==> 0 <= r.value.hour <= 23 && 0 <= r.value.minute <= 59
  {
    var r3 :- Spaces(s);
    var h :- Hour(r3);
    var r4 :- Literal(':', h.rest);
    var mi :- Minute(r4);
    Some(TimePart(h.value, mi.value, mi.rest))
  }

  /** `datetime.strptime(s, "%Y-%m-%d %H:%M").replace(tzinfo=timezone.utc)`;
      `None` where Python raises ValueError. */
  function Parse(s: string): (r: Option<DateTime>)
    ensures r.Some? ==> r.value.Valid() && r.value.second == 0 && r.value.micro == 0
  {
    var date :- ReadDate(s);
    var time :- ReadTime(date.rest);
    if time.rest != [] then None                                          // unconverted data remains
    else if date.year == 0 then None                                      // year 0 is out of range
    else if date.day > DaysInMonth(date.year, date.month) then None       // day is out of range for month
    else Some(DateTime(date.year, date.month, date.day, time.hour, time.minute, 0, 0))
  }

  /** The canonical `"YYYY-MM-DD HH:MM"` text of a datetime (seconds dropped). */
  function Format(dt: DateTime): (s: string)
    requires dt.Valid()
    ensures |s| == 16
  {
    var minute := Numeral(dt.minute, 2);
    var hour := Numeral(dt.hour, 2) + (":" + minute);
    var day := Numeral(dt.day, 2) + (" " + hour);
    var month := Numeral(dt.month, 2) + ("-" + day);
    Numeral(dt.year, 4) + ("-" + month)
  }

  lemma TwoDigits(v: nat)
    requires v < 100
    ensures Numeral(v, 2) == [DigitChar(v / 10), DigitChar(v % 10)]
  {
    var hi := v / 10;
    assert hi < 10 && hi % 10 == hi && hi / 10 == 0;
    assert Numeral(hi, 1) == [DigitChar(hi)];
  }

  lemma MonthOfNumeral(v: int, rest: string)
    requires 1 <= v <= 12
    ensures Month(Numeral(v, 2) + rest) == Some(Token(v, rest))
  {
    TwoDigits(v);
    var s := Numeral(v, 2) + rest;
    assert s[0] == DigitChar(v / 10) && s[1] == DigitChar(v % 10);
    assert s[2..] == rest;
  }

  lemma DayOfNumeral(v: int, rest: string)
    requires 1 <= v <= 31
    ensures Day(Numeral(v, 2) + rest) == Some(Token(v, rest))
  {
    TwoDigits(v);
    var s := Numeral(v, 2) + rest;
    var hi, lo := v / 10, v % 10;
    assert s[0] == DigitChar(hi) && s[1] == DigitChar(lo);
    assert s[2..] == rest;
    if hi == 3 {
      assert Day(s) == Some(Token(30 + lo, rest));
    } else if hi >= 1 {
      assert Day(s) == Some(Token(hi * 10 + lo, rest));
    } else {
      assert Day(s) == Some(Token(lo, rest));
    }
  }

  lemma HourOfNumeral(v: int, rest: string)
    requires 0 <= v <= 23
    ensures Hour(Numeral(v, 2) + rest) == Some(Token(v, rest))
  {
    TwoDigits(v);
    var s := Numeral(v, 2) + rest;
    assert s[0] == DigitChar(v / 10) && s[1] == DigitChar(v % 10);
    assert (v / 10) * 10 + v % 10 == v;
    assert s[2..] == rest;
  }

  lemma MinuteOfNumeral(v: int, rest: string)
    requires 0 <= v <= 59
    ensures Minute(Numeral(v, 2) + rest) == Some(Token(v, rest))
  {
    TwoDigits(v);
    var s := Numeral(v, 2) + rest;
    assert s[0] == DigitChar(v / 10) && s[1] == DigitChar(v % 10);
    assert (v / 10) * 10 + v % 10 == v;
    assert s[2..] == rest;
  }

  lemma YearOfNumeral(v: int, rest: string)
    requires 0 <= v <= 9999
    ensures Year(Numeral(v, 4) + rest) == Some(Token(v, rest))
  {
    var s := Numeral(v, 4) + rest;
    NumeralValue(v, 4);
    assert s[..4] == Numeral(v, 4);
    assert s[4..] == rest;
  }

  lemma LiteralBefore(c: char, rest: string)
    ensures Literal(c, [c] + rest) == Some(rest)
  {
    assert ([c] + rest)[1..] == rest;
  }

  lemma SpaceBefore(rest: string)
    requires rest == [] || !IsSpace(rest[0])
    ensures Spaces(" " + rest) == Some(rest)
  {
    assert (" " + rest)[1..] == rest;
    assert DropSpaces(rest) == rest;
  }

  /** The canonical text of a valid datetime parses back to it, at minute
      precision, and any text after it is refused as unconverted data. */
  lemma ParseFormatFollowedBy(dt: DateTime, extra: string)
    requires dt.Valid()
    ensures Parse(Format(dt) + extra) == if extra == [] then Some(dt.(second := 0, micro := 0)) else None
  {
    var tMin := Numeral(dt.minute, 2) + extra;
    var tHour := Numeral(dt.hour, 2) + (":" + tMin);
    var tDay := Numeral(dt.day, 2) + (" " + tHour);
    var tMonth := Numeral(dt.month, 2) + ("-" + tDay);
    assert Format(dt) + extra == Numeral(dt.year, 4) + ("-" + tMonth);
    YearOfNumeral(dt.year, "-" + tMonth);
    LiteralBefore('-', tMonth);
    MonthOfNumeral(dt.month, "-" + tDay);
    LiteralBefore('-', tDay);
    DayOfNumeral(dt.day, " " + tHour);
    SpaceBefore(tHour);
    HourOfNumeral(dt.hour, ":" + tMin);
    LiteralBefore(':', tMin);
    MinuteOfNumeral(dt.minute, extra);
  }

  /** Round trip: the canonical text of a valid datetime parses back to it, at
      minute precision. */
  lemma ParseFormat(dt: DateTime)
    requires dt.Valid()
    ensures Parse(Format(dt)) == Some(dt.(second := 0, micro := 0))
  {
    ParseFormatFollowedBy(dt, []);
    assert Format(dt) + [] == Format(dt);
  }

  // ---------------------------------------------------------------------------
  // The texts `strptime` accepts, stated without the parser: a year of four
  // digits; a month, day, hour and minute of two digits or of one (a day also
  // as a space and one digit); a run of whitespace between the date and the
  // time. `Parse` gives a datetime exactly for such a text whose fields make a
  // valid date.
  // ---------------------------------------------------------------------------

  /** The pieces of a schedule text, separators aside. */
  datatype Spelling = Spelling(year: string, month: string, day: string, gap: string, hour: string, minute: string)

  function Written(p: Spelling): string {
    p.year + ("-" + (p.month + ("-" + (p.day + (p.gap + (p.hour + (":" + p.minute)))))))
  }

  /** `v` as two digits, or as one digit when it is below ten. */
  predicate TwoOrOneDigits(t: string, v: int) {
    0 <= v <= 99 && (t == Numeral(v, 2) || (v <= 9 && t == [DigitChar(v)]))
  }

  predicate YearText(t: string, y: int) {
    0 <= y <= 9999 && t == Numeral(y, 4)
  }

  predicate MonthText(t: string, m: int) {
    1 <= m <= 12 && TwoOrOneDigits(t, m)
  }

  predicate DayText(t: string, d: int) {
    1 <= d <= 31 && (TwoOrOneDigits(t, d) || (d <= 9 && t == [' ', DigitChar(d)]))
  }

  predicate HourText(t: string, h: int) {
    0 <= h <= 23 && TwoOrOneDigits(t, h)
  }

  predicate MinuteText(t: string, mi: int) {
    0 <= mi <= 59 && TwoOrOneDigits(t, mi)
  }

  predicate GapText(g: string) {
    |g| >= 1 && forall i :: 0 <= i < |g| ==> IsSpace(g[i])
  }

  /** `p` spells the year, month, day, hour and minute of `dt`. */
  predicate Spells(p: Spelling, dt: DateTime) {
    && YearText(p.year, dt.year) && MonthText(p.month, dt.month) && DayText(p.day, dt.day)
    && GapText(p.gap) && HourText(p.hour, dt.hour) && MinuteText(p.minute, dt.minute)
  }

  /** A text followed by something that cannot continue a numeral. */
  predicate EndsNumeral(rest: string) {
    rest == [] || !IsDigit(rest[0])
  }

  // Each field reads back the value it spells, when what follows is no digit.

  lemma YearSpelled(t: string, y: int, rest: string)
    requires YearText(t, y)
    ensures Year(t + rest) == Some(Token(y, rest))
  {
    YearOfNumeral(y, rest);
  }

  lemma MonthSpelled(t: string, m: int, rest: string)
    requires MonthText(t, m) && EndsNumeral(rest)
    ensures Month(t + rest) == Some(Token(m, rest))
  {
    if t == Numeral(m, 2) {
      MonthOfNumeral(m, rest);
    } else {
      assert (t + rest)[0] == DigitChar(m) && (t + rest)[1..] == rest;
    }
  }

  lemma DaySpelled(t: string, d: int, rest: string)
    requires DayText(t, d) && EndsNumeral(rest)
    ensures Day(t + rest) == Some(Token(d, rest))
  {
    if t == Numeral(d, 2) {
      DayOfNumeral(d, rest);
    } else if t == [DigitChar(d)] {
      assert (t + rest)[0] == DigitChar(d) && (t + rest)[1..] == rest;
    } else {
      assert (t + rest)[0] == ' ' && (t + rest)[1] == DigitChar(d) && (t + rest)[2..] == rest;
    }
  }

  lemma HourSpelled(t: string, h: int, rest: string)
    requires HourText(t, h) && EndsNumeral(rest)
    ensures Hour(t + rest) == Some(Token(h, rest))
  {
    if t == Numeral(h, 2) {
      HourOfNumeral(h, rest);
    } else {
      assert (t + rest)[0] == DigitChar(h) && (t + rest)[1..] == rest;
    }
  }

  lemma MinuteSpelled(t: string, mi: int, rest: string)
    requires MinuteText(t, mi) && EndsNumeral(rest)
    ensures Minute(t + rest) == Some(Token(mi, rest))
  {
    if t == Numeral(mi, 2) {
      MinuteOfNumeral(mi, rest);
    } else {
      assert (t + rest)[0] == DigitChar(mi) && (t + rest)[1..] == rest;
    }
  }

  lemma {:induction false} GapSpelled(g: string, rest: string)
    requires forall i :: 0 <= i < |g| ==> IsSpace(g[i])
    requires rest == [] || !IsSpace(rest[0])
    ensures DropSpaces(g + rest) == rest
  {
    if g != [] {
      assert (g + rest)[1..] == g[1..] + rest;
      GapSpelled(g[1..], rest);
    }
  }

  lemma GapBefore(g: string, rest: string)
    requires GapText(g) && (rest == [] || !IsSpace(rest[0]))
    ensures Spaces(g + rest) == Some(rest)
  {
    assert (g + rest)[1..] == g[1..] + rest;
    GapSpelled(g[1..], rest);
  }

  /** The time part of a spelled text: the gap, the hour, the colon and the
      minute are read in turn, and nothing is left over. */
  lemma TimeSpelled(p: Spelling, dt: DateTime)
    requires GapText(p.gap) && HourText(p.hour, dt.hour) && MinuteText(p.minute, dt.minute)
    ensures ReadTime(p.gap + (p.hour + (":" + p.minute))) == Some(TimePart(dt.hour, dt.minute, []))
  {
    var tHour := p.hour + (":" + p.minute);
    assert IsDigit(tHour[0]) by {
      assert p.hour[0] == tHour[0];
      if p.hour == Numeral(dt.hour, 2) {
        assert AllDigits(p.hour);
      }
    }
    GapBefore(p.gap, tHour);
    HourSpelled(p.hour, dt.hour, ":" + p.minute);
    LiteralBefore(':', p.minute);
    MinuteSpelled(p.minute, dt.minute, []);
    assert p.minute + [] == p.minute;
  }

  /** The date part of a spelled text: the year, a dash, the month, a dash and
      the day are read in turn, leaving the text after the day. */
  lemma DateSpelled(p: Spelling, dt: DateTime, time: string)
    requires YearText(p.year, dt.year) && MonthText(p.month, dt.month) && DayText(p.day, dt.day)
    requires EndsNumeral(time)
    ensures ReadDate(p.year + ("-" + (p.month + ("-" + (p.day + time)))))
            == Some(DatePart(dt.year, dt.month, dt.day, time))
  {
    var tDay := p.day + time;
    var tMonth := p.month + ("-" + tDay);
    YearSpelled(p.year, dt.year, "-" + tMonth);
    LiteralBefore('-', tMonth);
    MonthSpelled(p.month, dt.month, "-" + tDay);
    LiteralBefore('-', tDay);
    DaySpelled(p.day, dt.day, time);
  }

  /** A spelled text parses to the datetime it spells, unless the year is 0 or
      the day lies past the end of its month. */
  lemma ParseSpelled(p: Spelling, dt: DateTime)
    requires Spells(p, dt)
    ensures Parse(Written(p)) ==
      if dt.year == 0 || dt.day > DaysInMonth(dt.year, dt.month) then None
      else Some(dt.(second := 0, micro := 0))
  {
    TimeSpelled(p, dt);
    DateSpelled(p, dt, p.gap + (p.hour + (":" + p.minute)));
  }

  // Conversely, each field function consumes a prefix that spells its value.

  lemma YearConsumed(s: string)
    requires Year(s).Some?
    ensures var tok := Year(s).value;
      s == s[..4] + tok.rest && YearText(s[..4], tok.value)
  {
    DigitsAreNumeral(s[..4]);
  }

  lemma MonthConsumed(s: string)
    requires Month(s).Some?
    ensures var tok := Month(s).value; var n := |s| - |tok.rest|;
      0 < n && s == s[..n] + tok.rest && MonthText(s[..n], tok.value)
  {
    var tok := Month(s).value;
    TwoDigits(tok.value);
    if |tok.rest| == |s| - 2 {
      DigitCharOfValue(s[1]);
      assert s[..2] == [s[0], s[1]];
    } else {
      DigitCharOfValue(s[0]);
    }
  }

  lemma DayConsumed(s: string)
    requires Day(s).Some?
    ensures var tok := Day(s).value; var n := |s| - |tok.rest|;
      0 < n && s == s[..n] + tok.rest && DayText(s[..n], tok.value)
  {
    var tok := Day(s).value;
    TwoDigits(tok.value);
    if |tok.rest| == |s| - 1 {
      DigitCharOfValue(s[0]);
    } else if s[0] == ' ' {
      DigitCharOfValue(s[1]);
      assert s[..2] == [' ', s[1]];
    } else {
      DigitCharOfValue(s[0]);
      DigitCharOfValue(s[1]);
      assert tok.value / 10 == DigitValue(s[0]) && tok.value % 10 == DigitValue(s[1]);
      assert s[..2] == [s[0], s[1]];
    }
  }

  lemma HourConsumed(s: string)
    requires Hour(s).Some?
    ensures var tok := Hour(s).value; var n := |s| - |tok.rest|;
      0 < n && s == s[..n] + tok.rest && HourText(s[..n], tok.value)
  {
    var tok := Hour(s).value;
    TwoDigits(tok.value);
    if |tok.rest| == |s| - 1 {
      DigitCharOfValue(s[0]);
    } else {
      DigitCharOfValue(s[0]);
      DigitCharOfValue(s[1]);
      assert tok.value / 10 == DigitValue(s[0]) && tok.value % 10 == DigitValue(s[1]);
      assert s[..2] == [s[0], s[1]];
    }
  }

  lemma MinuteConsumed(s: string)
    requires Minute(s).Some?
    ensures var tok := Minute(s).value; var n := |s| - |tok.rest|;
      0 < n && s == s[..n] + tok.rest && MinuteText(s[..n], tok.value)
  {
    var tok := Minute(s).value;
    TwoDigits(tok.value);
    if |tok.rest| == |s| - 1 {
      DigitCharOfValue(s[0]);
    } else {
      DigitCharOfValue(s[0]);
      DigitCharOfValue(s[1]);
      assert tok.value / 10 == DigitValue(s[0]) && tok.value % 10 == DigitValue(s[1]);
      assert s[..2] == [s[0], s[1]];
    }
  }

  lemma {:induction false} SpacesConsumed(s: string)
    ensures var n := |s| - |DropSpaces(s)|;
      0 <= n && s == s[..n] + DropSpaces(s) && forall i :: 0 <= i < n ==> IsSpace(s[i])
  {
    if s != [] && IsSpace(s[0]) {
      SpacesConsumed(s[1..]);
      var n := |s| - |DropSpaces(s)|;
      assert s[1..][..n - 1] == s[1..n];
      assert s == [s[0]] + s[1..];
    }
  }

  lemma GapConsumed(s: string)
    requires Spaces(s).Some?
    ensures var n := |s| - |Spaces(s).value|;
      0 < n && s == s[..n] + Spaces(s).value && GapText(s[..n])
  {
    SpacesConsumed(s[1..]);
    assert s == [s[0]] + s[1..];
  }

  lemma LiteralConsumed(c: char, s: string)
    requires Literal(c, s).Some?
    ensures s == [c] + Literal(c, s).value
  {
  }

  /** `ReadDate` consumes a year, a dash, a month, a dash and a day, each spelled
      as the grammar says. */
  lemma DateConsumed(s: string) returns (year: string, month: string, day: string)
    requires ReadDate(s).Some?
    ensures var date := ReadDate(s).value;
      && s == year + ("-" + (month + ("-" + (day + date.rest))))
      && YearText(year, date.year) && MonthText(month, date.month) && DayText(day, date.day)
  {
    var y := Year(s).value;
    var r1 := Literal('-', y.rest).value;
    var m := Month(r1).value;
    var r2 := Literal('-', m.rest).value;
    var d := Day(r2).value;
    year, month, day := s[..4], r1[..|r1| - |m.rest|], r2[..|r2| - |d.rest|];
    YearConsumed(s);
    MonthConsumed(r1);
    DayConsumed(r2);
    LiteralConsumed('-', y.rest);
    LiteralConsumed('-', m.rest);
  }

  /** `ReadTime` consumes whitespace, an hour, a colon and a minute, each spelled
      as the grammar says. */
  lemma TimeConsumed(s: string) returns (gap: string, hour: string, minute: string)
    requires ReadTime(s).Some?
    ensures var time := ReadTime(s).value;
      && s == gap + (hour + (":" + (minute + time.rest)))
      && GapText(gap) && HourText(hour, time.hour) && MinuteText(minute, time.minute)
  {
    var r3 := Spaces(s).value;
    var h := Hour(r3).value;
    var r4 := Literal(':', h.rest).value;
    var mi := Minute(r4).value;
    gap, hour, minute := s[..|s| - |r3|], r3[..|r3| - |h.rest|], r4[..|r4| - |mi.rest|];
    GapConsumed(s);
    HourConsumed(r3);
    MinuteConsumed(r4);
    LiteralConsumed(':', h.rest);
  }

  /** Every text `Parse` accepts is spelled as the grammar says. */
  lemma ParsedTextIsSpelled(s: string) returns (p: Spelling)
    requires Parse(s).Some?
    ensures Written(p) == s && Spells(p, Parse(s).value)
  {
    var date := ReadDate(s).value;
    var year, month, day := DateConsumed(s);
    var gap, hour, minute := TimeConsumed(date.rest);
    assert minute + ReadTime(date.rest).value.rest == minute;
    p := Spelling(year, month, day, gap, hour, minute);
  }

  /** `strptime(s, "%Y-%m-%d %H:%M")` yields `dt` exactly when `dt` is a valid
      datetime at a whole minute and `s` spells it. */
  lemma ParseMeansSpelled(s: string, dt: DateTime)
    ensures Parse(s) == Some(dt) <==>
      dt.Valid() && dt.second == 0 && dt.micro == 0 && exists p :: Written(p) == s && Spells(p, dt)
  {
    if Parse(s) == Some(dt) {
      var p := ParsedTextIsSpelled(s);
    }
    if dt.Valid() && dt.second == 0 && dt.micro == 0 && exists p :: Written(p) == s && Spells(p, dt) {
      var p :| Written(p) == s && Spells(p, dt);
      ParseSpelled(p, dt);
    }
  }

  lemma LeapDayText(s: string)
    requires s == "2025-02-29 10:00"
    ensures s == Written(Spelling("2025", "02", "29", " ", "10", "00"))
  {
  }

  /** 2025 is no leap year: "2025-02-29 10:00" is refused. */
  lemma ExampleLeapDayRefused(s: string)
    requires s == "2025-02-29 10:00"
    ensures Parse(s) == None
  {
    var p, dt := Spelling("2025", "02", "29", " ", "10", "00"), DateTime(2025, 2, 29, 10, 0, 0, 0);
    LeapDayText(s);
    assert Spells(p, dt) by {
      ExampleYearText();
      assert Numeral(2, 2) == "02" && Numeral(29, 2) == "29" && Numeral(10, 2) == "10" && Numeral(0, 2) == "00";
    }
    assert DaysInMonth(2025, 2) == 28;
    ParseSpelled(p, dt);
  }

  lemma YearZeroText(s: string)
    requires s == "0000-01-01 00:00"
    ensures s == Written(Spelling("0000", "01", "01", " ", "00", "00"))
  {
  }

  /** Year 0 matches the pattern but is out of range. */
  lemma ExampleYearZeroRefused(s: string)
    requires s == "0000-01-01 00:00"
    ensures Parse(s) == None
  {
    var p, dt := Spelling("0000", "01", "01", " ", "00", "00"), DateTime(0, 1, 1, 0, 0, 0, 0);
    YearZeroText(s);
    assert Spells(p, dt) by {
      assert Numeral(0, 4) == "0000" && Numeral(1, 2) == "01" && Numeral(0, 2) == "00";
    }
    ParseSpelled(p, dt);
  }

  lemma ShortFieldsText(s: string)
    requires s == "2025-6- 4\t  9:5"
    ensures s == Written(Spelling(Numeral(2025, 4), [DigitChar(6)], [' ', DigitChar(4)], "\t  ", [DigitChar(9)], [DigitChar(5)]))
  {
    ExampleYearText();
  }

  /** One-digit fields, a day padded with a space, and a gap of a tab and two
      spaces are all accepted. */
  lemma ExampleShortFields(s: string)
    requires s == "2025-6- 4\t  9:5"
    ensures Parse(s) == Some(DateTime(2025, 6, 4, 9, 5, 0, 0))
  {
    ShortFieldsText(s);
    ParseSpelled(Spelling(Numeral(2025, 4), [DigitChar(6)], [' ', DigitChar(4)], "\t  ", [DigitChar(9)], [DigitChar(5)]),
                 DateTime(2025, 6, 4, 9, 5, 0, 0));
  }

  lemma ExampleYearText()
    ensures Numeral(2025, 4) == "2025"
  {
  }

  lemma ExampleFieldTexts()
    ensures Numeral(6, 2) == "06" && Numeral(4, 2) == "04" && Numeral(16, 2) == "16" && Numeral(25, 2) == "25"
  {
  }

  lemma ExampleText(dt: DateTime)
    requires dt == DateTime(2025, 6, 4, 16, 25, 0, 0)
    ensures dt.Valid() && Format(dt) == "2025-06-04 16:25"
  {
    ExampleYearText();
    ExampleFieldTexts();
    assert "2025" + ("-" + ("06" + ("-" + ("04" + (" " + ("16" + (":" + "25"))))))) == "2025-06-04 16:25";
  }

  /** The example of a scheduled upload: the text "2025-06-04 16:25" names
      2025-06-04 16:25 UTC ... */
  lemma ExampleSchedule(s: string, dt: DateTime)
    requires s == "2025-06-04 16:25" && dt == DateTime(2025, 6, 4, 16, 25, 0, 0)
    ensures Parse(s) == Some(dt)
  {
    ExampleText(dt);
    ParseFormat(dt);
    assert dt.(second := 0, micro := 0) == dt;
    assert Format(dt) == s;
  }

  /** ... which is 1749054300 seconds after the epoch. */
  lemma ExampleTimestamp(dt: DateTime)
    requires dt == DateTime(2025, 6, 4, 16, 25, 0, 0)
    ensures dt.Valid() && EpochSeconds(dt) == 1749054300
  {
  }
}
