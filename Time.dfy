/**
 * Instants as the backend handles them: naive datetimes read as UTC, epoch
 * milliseconds, calendar day numbers and wall-clock "HH:MM" strings.
 */
module Time {
  import opened Wrappers

  /** A naive datetime read as UTC: whole seconds since the Unix epoch and the microsecond field. */
  datatype DateTime = DateTime(seconds: int, microsecond: int)

  const MicrosPerSecond := 1000000
  const SecondsPerDay := 86400
  const MinutesPerDay := 1440

  /** The microsecond field of a datetime always lies in [0, 10^6). */
  predicate WellFormed(dt: DateTime) {
    0 <= dt.microsecond < MicrosPerSecond
  }

  /** The instant in microseconds since the epoch. */
  function EpochMicros(dt: DateTime): int {
    dt.seconds * MicrosPerSecond + dt.microsecond
  }

  /** `a < b` on datetimes, which compares the fields lexicographically. */
  predicate Before(a: DateTime, b: DateTime) {
    a.seconds < b.seconds || (a.seconds == b.seconds && a.microsecond < b.microsecond)
  }

  /** The field-wise comparison is the order of the instants. */
  lemma BeforeIsInstantOrder(a: DateTime, b: DateTime)
    requires WellFormed(a) && WellFormed(b)
    ensures Before(a, b) <==> EpochMicros(a) < EpochMicros(b)
  {
  }

  // ---------------------------------------------------------------------
  // Epoch milliseconds
  // ---------------------------------------------------------------------

  /** `calendar.timegm(dt.timetuple()) * 1000 + dt.microsecond // 1000`. */
  function MsOf(dt: DateTime): int {
    dt.seconds * 1000 + dt.microsecond / 1000
  }

  /** `to_ms`: None stays None, a naive datetime becomes epoch milliseconds. */
  function ToMs(dt: Option<DateTime>): (ms: Option<int>)
  {
    match dt
    case None => None
    case Some(d) => Some(MsOf(d))
  }

  lemma DivisionRecoversQuotient(q: int, r: int)
    requires 0 <= r < 1000
    ensures (1000 * q + r) / 1000 == q
  {
  }

  /** `to_ms` truncates the instant to the millisecond (floor, also before 1970). */
  lemma ToMsTruncatesToMillisecond(dt: DateTime)
    requires WellFormed(dt)
    ensures ToMs(None) == None
    ensures ToMs(Some(dt)) == Some(EpochMicros(dt) / 1000)
  {
    var q := dt.microsecond / 1000;
    var r := dt.microsecond % 1000;
    assert EpochMicros(dt) == 1000 * (dt.seconds * 1000 + q) + r;
    DivisionRecoversQuotient(dt.seconds * 1000 + q, r);
  }

  /** A later datetime never has a smaller millisecond stamp. */
  lemma MsOfIsMonotone(a: DateTime, b: DateTime)
    requires WellFormed(a) && WellFormed(b)
    requires !Before(b, a)
    ensures MsOf(a) <= MsOf(b)
  {
    if a.seconds < b.seconds {
      assert a.microsecond / 1000 < 1000;
    }
  }

  /**
   * `datetime.utcfromtimestamp(ms / 1000.0)`, computed exactly: the
   * millisecond stamp is recovered by `to_ms`.
   */
  function FromMs(ms: int): (dt: DateTime)
    ensures WellFormed(dt)
    ensures MsOf(dt) == ms
  {
    DateTime(ms / 1000, (ms % 1000) * 1000)
  }

  /** Epoch seconds of 0001-01-01 00:00:00 and of 9999-12-31 23:59:59, the range of Python's datetime. */
  const MinSeconds := -62135596800
  const MaxSeconds := 253402300799

  /** The millisecond stamps `utcfromtimestamp` turns into a datetime; any other raises. */
  predicate Representable(ms: int) {
    MinSeconds * 1000 <= ms <= MaxSeconds * 1000 + 999
  }

  /** A stamp is representable exactly when the datetime it denotes lies in years 1 to 9999. */
  lemma RepresentableIsDatetimeRange(ms: int)
    ensures Representable(ms) <==> MinSeconds <= FromMs(ms).seconds <= MaxSeconds
  {
    var q, r := ms / 1000, ms % 1000;
    assert ms == 1000 * q + r && 0 <= r < 1000;
    if MinSeconds <= q <= MaxSeconds {
      assert MinSeconds * 1000 <= 1000 * q <= MaxSeconds * 1000;
    }
    if q < MinSeconds {
      assert 1000 * q <= MinSeconds * 1000 - 1000;
    }
    if q > MaxSeconds {
      assert 1000 * q >= MaxSeconds * 1000 + 1000;
    }
  }

  // ---------------------------------------------------------------------
  // Calendar days
  // ---------------------------------------------------------------------

  /** `dt.date()`, as a day number counted from 1970-01-01. */
  function DayOf(dt: DateTime): int {
    dt.seconds / SecondsPerDay
  }

  /** `datetime.combine(d, datetime.min.time())` for the day number `d`. */
  function Midnight(day: int): DateTime {
    DateTime(day * SecondsPerDay, 0)
  }

  /** `dt >= combine(d, min.time())` holds exactly when `dt` falls on day `d` or later. */
  lemma OnOrAfterMidnight(dt: DateTime, day: int)
    requires WellFormed(dt)
    ensures !Before(dt, Midnight(day)) <==> DayOf(dt) >= day
  {
    var q := dt.seconds / SecondsPerDay;
    assert dt.seconds == q * SecondsPerDay + dt.seconds % SecondsPerDay;
    if q >= day {
      assert q * SecondsPerDay >= day * SecondsPerDay;
    } else {
      assert (q + 1) * SecondsPerDay <= day * SecondsPerDay;
    }
  }

  // ---------------------------------------------------------------------
  // Wall-clock strings "HH:MM"
  // ---------------------------------------------------------------------

  /** The minute of the day (0 .. 1439) of a datetime. */
  function MinuteOfDay(dt: DateTime): int {
    (dt.seconds / 60) % MinutesPerDay
  }

  function DigitChar(d: int): char
    requires 0 <= d < 10
  {
    (48 + d) as char
  }

  function DigitValue(c: char): Option<int> {
    if '0' <= c <= '9' then Some(c as int - 48) else None
  }

  function TwoDigits(n: int): string
    requires 0 <= n < 100
  {
    [DigitChar(n / 10), DigitChar(n % 10)]
  }

  /** `strftime("%H:%M")` of a time of day given as minutes after midnight. */
  function FormatClock(m: int): (s: string)
    requires 0 <= m < MinutesPerDay
  {
    TwoDigits(m / 60) + ":" + TwoDigits(m % 60)
  }

  /** Reads "HH:MM" back into minutes after midnight; the reference for FormatClock. */
  function ParseClock(s: string): Option<int> {
    if |s| != 5 || s[2] != ':' then None
    else
      match (DigitValue(s[0]), DigitValue(s[1]), DigitValue(s[3]), DigitValue(s[4]))
      case (Some(h1), Some(h0), Some(m1), Some(m0)) =>
        var h := 10 * h1 + h0;
        var mi := 10 * m1 + m0;
        if h < 24 && mi < 60 then Some(60 * h + mi) else None
      case _ => None
  }

  /** Formatting then parsing a time of day gives it back. */
  lemma ParseFormatClock(m: int)
    requires 0 <= m < MinutesPerDay
    ensures |FormatClock(m)| == 5
    ensures ParseClock(FormatClock(m)) == Some(m)
  {
    var s := FormatClock(m);
    var h, mi := m / 60, m % 60;
    assert s[0] == DigitChar(h / 10) && s[1] == DigitChar(h % 10);
    assert s[3] == DigitChar(mi / 10) && s[4] == DigitChar(mi % 10);
    assert DigitValue(s[0]) == Some(h / 10) && DigitValue(s[1]) == Some(h % 10);
    assert DigitValue(s[3]) == Some(mi / 10) && DigitValue(s[4]) == Some(mi % 10);
    assert 10 * (h / 10) + h % 10 == h;
    assert 10 * (mi / 10) + mi % 10 == mi;
  }

  /** Every string ParseClock accepts is the formatting of what it reads. */
  lemma FormatParseClock(s: string)
    requires ParseClock(s).Some?
    ensures 0 <= ParseClock(s).value < MinutesPerDay
    ensures FormatClock(ParseClock(s).value) == s
  {
    var h1, h0, m1, m0 := s[0] as int - 48, s[1] as int - 48, s[3] as int - 48, s[4] as int - 48;
    var h, mi := 10 * h1 + h0, 10 * m1 + m0;
    var m := 60 * h + mi;
    assert ParseClock(s) == Some(m);
    assert m / 60 == h && m % 60 == mi;
    assert h / 10 == h1 && h % 10 == h0;
    assert mi / 10 == m1 && mi % 10 == m0;
    var f := FormatClock(m);
    assert f[0] == s[0] && f[1] == s[1] && f[2] == s[2] && f[3] == s[3] && f[4] == s[4];
  }

  /**
   * `(dt.replace(second=0, microsecond=0) + timedelta(minutes=k)).strftime("%H:%M")`:
   * the clock reading `k` minutes after the minute of `dt`.
   */
  function ClockAfter(dt: DateTime, k: nat): string {
    FormatClock((dt.seconds / 60 + k) % MinutesPerDay)
  }

  lemma ModAddLeft(a: int, k: int)
    ensures (a + k) % MinutesPerDay == (a % MinutesPerDay + k) % MinutesPerDay
  {
    var q := a / MinutesPerDay;
    assert a == q * MinutesPerDay + a % MinutesPerDay;
    assert a + k == q * MinutesPerDay + (a % MinutesPerDay + k);
  }

  /** The clock shows the minute of the day plus `k`, wrapping at midnight. */
  lemma ClockAfterWrapsAtMidnight(dt: DateTime, k: nat)
    ensures ParseClock(ClockAfter(dt, k)) == Some((MinuteOfDay(dt) + k) % MinutesPerDay)
  {
    ModAddLeft(dt.seconds / 60, k);
    ParseFormatClock((dt.seconds / 60 + k) % MinutesPerDay);
  }
}
