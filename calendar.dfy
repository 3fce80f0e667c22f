/** `format_timestamp_iso8601` (src-tauri/src/lib.rs): Unix seconds rendered at
    second precision with the `Z` offset, the way chrono's
    `to_rfc3339_opts(SecondsFormat::Secs, true)` writes them, together with the
    parse that reads such a string back. Years 0 to 9999 give an RFC 3339
    `date-time` (section 5.6 of RFC 3339); any other year gets a sign and at least
    four digits, the expanded year form of ISO 8601. */
module Calendar {
  import opened Wrappers

  const SecondsPerDay: nat := 86400

  /** The years chrono's `DateTime<Utc>` can represent; `from_timestamp` gives
      `None` outside them. */
  const MinYear: int := -262143
  const MaxYear: int := 262142

  /** A broken-down UTC date and time in the proleptic Gregorian calendar. */
  datatype DateTime = DateTime(year: int, month: nat, day: nat, hour: nat, minute: nat, second: nat)

  predicate IsLeapYear(y: int) {
    y % 4 == 0 && (y % 100 != 0 || y % 400 == 0)
  }

  function YearLength(y: int): nat {
    if IsLeapYear(y) then 366 else 365
  }

  /** Days of year `y` before the first of month `m`; month 13 stands for the end of the year. */
  function DaysBeforeMonth(y: int, m: nat): (r: nat)
    requires 1 <= m <= 13
    ensures m == 1 ==> r == 0
    ensures m == 13 ==> r == YearLength(y)
  {
    [0, 31, 59, 90, 120, 151, 181, 212, 243, 273, 304, 334, 365][m - 1]
      + (if m > 2 && IsLeapYear(y) then 1 else 0)
  }

  predicate ValidDateTime(dt: DateTime) {
    && 1 <= dt.month <= 12
    && 1 <= dt.day
    && DaysBeforeMonth(dt.year, dt.month) + dt.day <= DaysBeforeMonth(dt.year, dt.month + 1)
    && dt.hour < 24 && dt.minute < 60 && dt.second < 60
  }

  /** Days from 1970-01-01 to January 1 of year `y` (negative before 1970). */
  function DaysFromEpoch(y: int): int
    decreases if y < 1970 then 1970 - y else y - 1970
  {
    if y == 1970 then 0
    else if y > 1970 then DaysFromEpoch(y - 1) + YearLength(y - 1)
    else DaysFromEpoch(y + 1) - YearLength(y)
  }

  /** The year that holds the day `d` days after January 1 of year `y` (`d` may be
      negative), with the offset of that day inside its year. */
  function LocateYear(y: int, d: int): (r: (int, nat))
    ensures r.1 < YearLength(r.0)
    ensures DaysFromEpoch(r.0) + r.1 == DaysFromEpoch(y) + d
    decreases if d < 0 then 366 - d else d
  {
    if d < 0 then LocateYear(y - 1, d + YearLength(y - 1))
    else if d < YearLength(y) then (y, d)
    else LocateYear(y + 1, d - YearLength(y))
  }

  /** The month, searched downwards from `m`, that holds day-of-year `doy`. */
  function LocateMonth(y: int, doy: nat, m: nat): (r: nat)
    requires 1 <= m <= 12 && doy < DaysBeforeMonth(y, m + 1)
    ensures 1 <= r <= m
    ensures DaysBeforeMonth(y, r) <= doy < DaysBeforeMonth(y, r + 1)
  {
    if m == 1 || DaysBeforeMonth(y, m) <= doy then m else LocateMonth(y, doy, m - 1)
  }

  /** Seconds since 1970-01-01T00:00:00Z of a broken-down time. */
  function ToTimestamp(dt: DateTime): int
    requires ValidDateTime(dt)
  {
    (DaysFromEpoch(dt.year) + DaysBeforeMonth(dt.year, dt.month) + dt.day - 1) * SecondsPerDay
      + dt.hour * 3600 + dt.minute * 60 + dt.second
  }

  /** The UTC calendar date and time of Unix second `t` (`ToDateTimeDenotes` shows
      that it denotes `t`). */
  function ToDateTime(t: int): (dt: DateTime)
    ensures ValidDateTime(dt)
  {
    var days := t / SecondsPerDay;
    var secs := t % SecondsPerDay;
    var located := LocateYear(1970, days);
    var y := located.0;
    var doy := located.1;
    var m := LocateMonth(y, doy, 12);
    DateTime(y, m, doy - DaysBeforeMonth(y, m) + 1, secs / 3600, secs % 3600 / 60, secs % 60)
  }

  /** chrono's `DateTime::<Utc>::from_timestamp(t, 0)` is `Some` exactly here. */
  predicate InChronoRange(t: int) {
    MinYear <= ToDateTime(t).year <= MaxYear
  }

  predicate IsDigit(c: char) {
    '0' <= c <= '9'
  }

  predicate AllDigits(s: string) {
    forall i | 0 <= i < |s| :: IsDigit(s[i])
  }

  function DigitChar(d: nat): (c: char)
    requires d < 10
    ensures IsDigit(c) && c as int - '0' as int == d
  {
    "0123456789"[d]
  }

  /** Decimal digits of `n`, most significant first, without leading zeros. */
  function Digits(n: nat): (s: string)
    ensures |s| >= 1 && AllDigits(s)
  {
    if n < 10 then [DigitChar(n)] else Digits(n / 10) + [DigitChar(n % 10)]
  }

  /** `s` left-padded with zeros to at least `width` characters. */
  function ZeroPad(s: string, width: nat): (r: string)
    ensures |r| >= width && |r| >= |s|
  {
    if |s| >= width then s else seq(width - |s|, _ => '0') + s
  }

  function Pad2(n: nat): string
    requires n < 100
  {
    [DigitChar(n / 10), DigitChar(n % 10)]
  }

  /** Years 0 to 9999 take four digits; any other year is written as chrono's
      `{:+05}`: an explicit sign and at least four digits. */
  function YearText(y: int): (s: string)
    ensures |s| >= 4
  {
    if 0 <= y <= 9999 then ZeroPad(Digits(y), 4)
    else (if y < 0 then "-" else "+") + ZeroPad(Digits(if y < 0 then -y else y), 4)
  }

  /** `-MM-DDTHH:MM:SSZ`, the fixed-width part that follows the year. */
  function DateTail(dt: DateTime): (s: string)
    requires ValidDateTime(dt)
    ensures |s| == 16
    ensures s[0] == '-' && s[3] == '-' && s[6] == 'T' && s[9] == ':' && s[12] == ':' && s[15] == 'Z'
  {
    var mo, da, ho, mi, se := Pad2(dt.month), Pad2(dt.day), Pad2(dt.hour), Pad2(dt.minute), Pad2(dt.second);
    ['-', mo[0], mo[1], '-', da[0], da[1], 'T', ho[0], ho[1], ':', mi[0], mi[1], ':', se[0], se[1], 'Z']
  }

  function Render(dt: DateTime): (s: string)
    requires ValidDateTime(dt)
    ensures |s| >= 20 && s[|s| - 1] == 'Z' && s[|s| - 10] == 'T'
    ensures s[|s| - 16] == '-' && s[|s| - 13] == '-' && s[|s| - 7] == ':' && s[|s| - 4] == ':'
  {
    YearText(dt.year) + DateTail(dt)
  }

  /** A timestamp outside chrono's range falls back to the epoch. */
  function FormatTimestampIso8601(timestamp: int): (s: string)
    ensures |s| >= 20 && s[|s| - 1] == 'Z' && s[|s| - 10] == 'T'
    ensures s[|s| - 16] == '-' && s[|s| - 13] == '-' && s[|s| - 7] == ':' && s[|s| - 4] == ':'
  {
    Render(ToDateTime(if InChronoRange(timestamp) then timestamp else 0))
  }

  // ---- reading a rendered string back ----

  function DigitValue(c: char): nat
    requires IsDigit(c)
  {
    c as int - '0' as int
  }

  function DecimalValue(s: string): nat
    requires AllDigits(s)
  {
    if s == [] then 0 else DecimalValue(s[..|s| - 1]) * 10 + DigitValue(s[|s| - 1])
  }

  function ParseYear(s: string): Option<int> {
    if |s| >= 2 && (s[0] == '+' || s[0] == '-') && AllDigits(s[1..]) then
      Some(if s[0] == '-' then -(DecimalValue(s[1..]) as int) else DecimalValue(s[1..]))
    else if |s| >= 1 && AllDigits(s) then Some(DecimalValue(s))
    else None
  }

  /** The two-digit field at `s[i..i + 2]`. */
  function Field2(s: string, i: nat): Option<nat>
    requires i + 2 <= |s|
  {
    if AllDigits(s[i..i + 2]) then Some(DecimalValue(s[i..i + 2])) else None
  }

  /** Reads `<year>-MM-DDTHH:MM:SSZ`; the part after the year has a fixed width of 16. */
  function ParseDateTime(s: string): Option<DateTime> {
    if |s| < 17 then None
    else
      var year := ParseYear(s[..|s| - 16]);
      var rest := s[|s| - 16..];
      if year.None? || rest[0] != '-' || rest[3] != '-' || rest[6] != 'T'
         || rest[9] != ':' || rest[12] != ':' || rest[15] != 'Z' then None
      else
        var month, day := Field2(rest, 1), Field2(rest, 4);
        var hour, minute, second := Field2(rest, 7), Field2(rest, 10), Field2(rest, 13);
        if month.None? || day.None? || hour.None? || minute.None? || second.None? then None
        else
          var dt := DateTime(year.value, month.value, day.value, hour.value, minute.value, second.value);
          if ValidDateTime(dt) then Some(dt) else None
  }

  function ParseTimestamp(s: string): Option<int> {
    match ParseDateTime(s)
    case Some(dt) => Some(ToTimestamp(dt))
    case None => None
  }

  // ---- properties ----

  /** The broken-down time of `t` denotes `t` again. */
  lemma ToDateTimeDenotes(t: int)
    ensures ToTimestamp(ToDateTime(t)) == t
  {
    var days := t / SecondsPerDay;
    var secs := t % SecondsPerDay;
    var located := LocateYear(1970, days);
    var m := LocateMonth(located.0, located.1, 12);
    assert DaysFromEpoch(located.0) + located.1 == days;
    assert secs / 3600 * 3600 + secs % 3600 / 60 * 60 + secs % 60 == secs;
    assert days * SecondsPerDay + secs == t;
  }

  lemma {:induction false} DigitsValue(n: nat)
    ensures DecimalValue(Digits(n)) == n
  {
    if n >= 10 {
      var s := Digits(n);
      assert s[..|s| - 1] == Digits(n / 10);
      DigitsValue(n / 10);
    }
  }

  lemma {:induction false} ZerosValue(k: nat)
    ensures AllDigits(seq(k, _ => '0')) && DecimalValue(seq(k, _ => '0')) == 0
  {
    if k > 0 {
      assert seq(k, _ => '0')[..k - 1] == seq(k - 1, _ => '0');
      ZerosValue(k - 1);
    }
  }

  lemma {:induction false} LeadingZerosValue(k: nat, s: string)
    requires AllDigits(s)
    ensures AllDigits(seq(k, _ => '0') + s)
    ensures DecimalValue(seq(k, _ => '0') + s) == DecimalValue(s)
  {
    var z := seq(k, _ => '0');
    if s == [] {
      assert z + s == z;
      ZerosValue(k);
    } else {
      assert (z + s)[..|z + s| - 1] == z + s[..|s| - 1];
      LeadingZerosValue(k, s[..|s| - 1]);
    }
  }

  lemma ZeroPadValue(s: string, width: nat)
    requires AllDigits(s)
    ensures AllDigits(ZeroPad(s, width)) && DecimalValue(ZeroPad(s, width)) == DecimalValue(s)
  {
    if |s| < width {
      LeadingZerosValue(width - |s|, s);
    }
  }

  /** The digits of a year's magnitude, padded to four, read back as that magnitude. */
  lemma PaddedDigitsValue(m: nat)
    ensures AllDigits(ZeroPad(Digits(m), 4)) && DecimalValue(ZeroPad(Digits(m), 4)) == m
  {
    DigitsValue(m);
    ZeroPadValue(Digits(m), 4);
  }

  lemma YearTextParses(y: int)
    ensures ParseYear(YearText(y)) == Some(y)
  {
    var magnitude := if y < 0 then -y else y;
    PaddedDigitsValue(magnitude);
    if !(0 <= y <= 9999) {
      var s := YearText(y);
      assert s[1..] == ZeroPad(Digits(magnitude), 4);
    }
  }

  lemma Pad2Value(n: nat)
    requires n < 100
    ensures AllDigits(Pad2(n)) && DecimalValue(Pad2(n)) == n
  {
    var s := Pad2(n);
    assert s[..1] == [DigitChar(n / 10)];
    assert s[..1][..0] == [];
  }

  /** Two characters that are `Pad2(n)` read back as `n`. */
  lemma Pad2Field(s: string, i: nat, n: nat)
    requires n < 100 && i + 2 <= |s| && s[i] == DigitChar(n / 10) && s[i + 1] == DigitChar(n % 10)
    ensures Field2(s, i) == Some(n)
  {
    assert s[i..i + 2] == Pad2(n);
    Pad2Value(n);
  }

  lemma DateFieldsParse(dt: DateTime)
    requires ValidDateTime(dt)
    ensures Field2(DateTail(dt), 1) == Some(dt.month) && Field2(DateTail(dt), 4) == Some(dt.day)
  {
    Pad2Field(DateTail(dt), 1, dt.month);
    Pad2Field(DateTail(dt), 4, dt.day);
  }

  lemma TimeFieldsParse(dt: DateTime)
    requires ValidDateTime(dt)
    ensures Field2(DateTail(dt), 7) == Some(dt.hour) && Field2(DateTail(dt), 10) == Some(dt.minute)
    ensures Field2(DateTail(dt), 13) == Some(dt.second)
  {
    Pad2Field(DateTail(dt), 7, dt.hour);
    Pad2Field(DateTail(dt), 10, dt.minute);
    Pad2Field(DateTail(dt), 13, dt.second);
  }

  /** Rendering and parsing are inverse on valid broken-down times. */
  lemma RenderParses(dt: DateTime)
    requires ValidDateTime(dt)
    ensures ParseDateTime(Render(dt)) == Some(dt)
  {
    var s := Render(dt);
    assert s[..|s| - 16] == YearText(dt.year);
    assert s[|s| - 16..] == DateTail(dt);
    YearTextParses(dt.year);
    DateFieldsParse(dt);
    TimeFieldsParse(dt);
  }

  /** Parsing the rendered string gives back the timestamp, for every timestamp chrono
      can represent (the source's `parsed.timestamp() == timestamp` test). */
  lemma FormatRoundTrip(t: int)
    requires InChronoRange(t)
    ensures ParseTimestamp(FormatTimestampIso8601(t)) == Some(t)
  {
    RenderParses(ToDateTime(t));
    ToDateTimeDenotes(t);
  }

  /** Every month after January starts at least 31 days into the year. */
  lemma LaterMonthsStartLater(y: int, m: nat)
    requires 2 <= m <= 13
    ensures DaysBeforeMonth(y, m) >= 31
  {
  }

  /** The first day of a year falls in January, whichever month the search starts from. */
  lemma {:induction false} FirstDayIsInJanuary(y: int, m: nat)
    requires 1 <= m <= 12
    ensures LocateMonth(y, 0, m) == 1
  {
    if m > 1 {
      LaterMonthsStartLater(y, m);
      FirstDayIsInJanuary(y, m - 1);
    }
  }

  lemma EpochDateTime()
    ensures ToDateTime(0) == DateTime(1970, 1, 1, 0, 0, 0)
  {
    assert LocateYear(1970, 0) == (1970, 0);
    FirstDayIsInJanuary(1970, 12);
  }

  lemma LastDayOf1969()
    ensures ToDateTime(-86400) == DateTime(1969, 12, 31, 0, 0, 0)
  {
    assert LocateYear(1970, -1) == (1969, 364);
    assert LocateMonth(1969, 364, 12) == 12;
  }

  lemma YearTexts()
    ensures YearText(1970) == "1970" && YearText(1969) == "1969"
  {
    assert Digits(19) == "19";
    assert Digits(197) == "197";
    assert Digits(196) == "196";
  }

  /** Outside 0 to 9999 the year carries its sign and at least four digits. */
  lemma SignedYearTexts()
    ensures YearText(10000) == "+10000" && YearText(-1) == "-0001"
  {
    assert Digits(1) == "1";
    assert Digits(10) == "10";
    assert Digits(100) == "100";
    assert Digits(1000) == "1000";
    assert Digits(10000) == "10000";
  }

  /** The first day of year 10000 renders with the expanded year, so it is not an
      RFC 3339 `date-time`. */
  lemma SignedYearRendering()
    ensures Render(DateTime(10000, 1, 1, 0, 0, 0)) == "+10000-01-01T00:00:00Z"
  {
    SignedYearTexts();
    NewYearTail(10000);
    assert Render(DateTime(10000, 1, 1, 0, 0, 0)) == "+10000" + "-01-01T00:00:00Z";
  }

  /** Midnight on the first of January, in any year, is written `-01-01T00:00:00Z`
      after the year. */
  lemma NewYearTail(y: int)
    ensures ValidDateTime(DateTime(y, 1, 1, 0, 0, 0))
    ensures DateTail(DateTime(y, 1, 1, 0, 0, 0)) == "-01-01T00:00:00Z"
  {
    assert DaysBeforeMonth(y, 2) == 31;
    assert Pad2(0) == "00" && Pad2(1) == "01";
  }

  /** The epoch renders as 1970-01-01T00:00:00Z, and so does every timestamp out of range. */
  lemma EpochRendering(t: int)
    ensures FormatTimestampIso8601(0) == "1970-01-01T00:00:00Z"
    ensures !InChronoRange(t) ==> FormatTimestampIso8601(t) == "1970-01-01T00:00:00Z"
  {
    EpochDateTime();
    YearTexts();
    var dt := DateTime(1970, 1, 1, 0, 0, 0);
    assert InChronoRange(0);
    assert DateTail(dt) == "-01-01T00:00:00Z";
    assert Render(dt) == "1970" + "-01-01T00:00:00Z";
  }

  /** One day before the epoch is the last day of 1969. */
  lemma DayBeforeEpoch()
    ensures FormatTimestampIso8601(-86400)[..10] == "1969-12-31"
  {
    LastDayOf1969();
    YearTexts();
    var dt := DateTime(1969, 12, 31, 0, 0, 0);
    assert InChronoRange(-86400);
    assert DateTail(dt) == "-12-31T00:00:00Z";
    assert Render(dt) == "1969" + "-12-31T00:00:00Z";
  }
}
