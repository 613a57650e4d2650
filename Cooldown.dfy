/**
 * The server-side cooldown of the start-analysis endpoint: one optional
 * millisecond stamp per session and a fixed seven-minute window, and the
 * fake analysis the endpoint returns when the window is open.
 */
module Cooldown {
  import opened Wrappers
  import opened Time
  import opened Models
  import opened Sessions

  /** `block_ms = 7 * 60 * 1000`. */
  const BlockMs := 7 * 60 * 1000

  /** What the gate decides, in the order it decides it. */
  datatype Verdict = Unauthenticated | AccessExpired | RateLimited(blockedUntil: int) | Allowed

  /**
   * The inline expiry test of start-analysis: an expiry strictly before
   * `now`. (A datetime value is always truthy, so only its presence counts.)
   */
  predicate ExpiredForAnalysis(u: User, now: DateTime) {
    u.accessExpiresAt.Some? && Before(u.accessExpiresAt.value, now)
  }

  /** Truthiness of the stored stamp: absent and 0 both read as "no stamp". */
  predicate IsSet(stamp: Option<int>) {
    stamp.Some? && stamp.value != 0
  }

  /**
   * The checks of start-analysis: no user, then an expired user, then a
   * stamp whose window has not yet closed (strictly: `last + block > now`).
   */
  function Gate(user: Option<User>, stamp: Option<int>, now: DateTime): Verdict {
    if user == None then Unauthenticated
    else if ExpiredForAnalysis(user.value, now) then AccessExpired
    else if IsSet(stamp) && stamp.value + BlockMs > MsOf(now) then RateLimited(stamp.value + BlockMs)
    else Allowed
  }

  /** The session stamp after a call: overwritten with `now` on a grant only. */
  function StampAfter(v: Verdict, stamp: Option<int>, now: DateTime): Option<int> {
    if v == Allowed then Some(MsOf(now)) else stamp
  }

  /** The order of the checks, what each refusal reports, and that only a grant moves the stamp. */
  lemma GateDecidesInOrder(user: Option<User>, stamp: Option<int>, now: DateTime)
    ensures user == None ==> Gate(user, stamp, now) == Unauthenticated
    ensures user.Some? && ExpiredForAnalysis(user.value, now) ==> Gate(user, stamp, now) == AccessExpired
    ensures Gate(user, stamp, now).RateLimited? ==>
      && stamp.Some?
      && Gate(user, stamp, now).blockedUntil == stamp.value + BlockMs
      && Gate(user, stamp, now).blockedUntil > MsOf(now)
    ensures Gate(user, stamp, now) == Allowed <==>
      && user.Some? && !ExpiredForAnalysis(user.value, now)
      && (stamp == None || stamp == Some(0) || stamp.value + BlockMs <= MsOf(now))
    ensures Gate(user, stamp, now) != Allowed ==> StampAfter(Gate(user, stamp, now), stamp, now) == stamp
  {
  }

  /** A second call less than seven minutes after a grant is refused until the grant's stamp plus the window. */
  lemma SecondCallWithinWindowIsBlocked(user: Option<User>, stamp: Option<int>, t0: DateTime, t1: DateTime)
    requires Gate(user, stamp, t0) == Allowed
    requires MsOf(t0) != 0
    requires !ExpiredForAnalysis(user.value, t1)
    requires MsOf(t1) < MsOf(t0) + BlockMs
    ensures Gate(user, StampAfter(Allowed, stamp, t0), t1) == RateLimited(MsOf(t0) + BlockMs)
  {
  }

  /** A call at or after the reported `blocked_until` is granted and restarts the window. */
  lemma CallAtWindowEndIsGranted(user: User, stamp: Option<int>, now: DateTime)
    requires !ExpiredForAnalysis(user, now)
    requires stamp.Some? && MsOf(now) >= stamp.value + BlockMs
    ensures Gate(Some(user), stamp, now) == Allowed
    ensures StampAfter(Allowed, stamp, now) == Some(MsOf(now))
  {
  }

  // ---------------------------------------------------------------------
  // Successive calls of one session
  // ---------------------------------------------------------------------

  /** The verdicts of successive start-analysis calls of one session at the instants `calls`. */
  function Replay(user: Option<User>, stamp: Option<int>, calls: seq<DateTime>): (vs: seq<Verdict>)
    ensures |vs| == |calls|
    decreases |calls|
  {
    if calls == [] then []
    else
      var v := Gate(user, stamp, calls[0]);
      [v] + Replay(user, StampAfter(v, stamp, calls[0]), calls[1..])
  }

  /**
   * At most one grant per window: every grant comes at least seven minutes
   * after the stamp the session started with and after every earlier grant,
   * whatever the order of the instants. (A grant stamped exactly 0 would be
   * forgotten, as 0 is falsy; no call happens at the epoch itself.)
   */
  lemma {:induction false} GrantsAreSpaced(user: Option<User>, stamp: Option<int>, calls: seq<DateTime>)
    requires forall i :: 0 <= i < |calls| ==> MsOf(calls[i]) != 0
    ensures var vs := Replay(user, stamp, calls);
      forall j :: 0 <= j < |calls| && vs[j] == Allowed && IsSet(stamp) ==>
        MsOf(calls[j]) >= stamp.value + BlockMs
    ensures var vs := Replay(user, stamp, calls);
      forall i, j :: 0 <= i < j < |calls| && vs[i] == Allowed && vs[j] == Allowed ==>
        MsOf(calls[j]) >= MsOf(calls[i]) + BlockMs
    decreases |calls|
  {
    if calls != [] {
      var vs := Replay(user, stamp, calls);
      var v := Gate(user, stamp, calls[0]);
      var stamp' := StampAfter(v, stamp, calls[0]);
      var rest := calls[1..];
      var ws := Replay(user, stamp', rest);
      assert vs == [v] + ws;
      GrantsAreSpaced(user, stamp', rest);
      forall j | 0 <= j < |calls| && vs[j] == Allowed && IsSet(stamp)
        ensures MsOf(calls[j]) >= stamp.value + BlockMs
      {
        if j > 0 {
          assert ws[j - 1] == Allowed && rest[j - 1] == calls[j];
          if v == Allowed {
            assert IsSet(stamp');
          }
        }
      }
      forall i, j | 0 <= i < j < |calls| && vs[i] == Allowed && vs[j] == Allowed
        ensures MsOf(calls[j]) >= MsOf(calls[i]) + BlockMs
      {
        assert ws[j - 1] == Allowed && rest[j - 1] == calls[j];
        if i > 0 {
          assert ws[i - 1] == Allowed && rest[i - 1] == calls[i];
        } else {
          assert IsSet(stamp') && stamp'.value == MsOf(calls[0]);
        }
      }
    }
  }

  // ---------------------------------------------------------------------
  // The expiry instant itself
  // ---------------------------------------------------------------------

  /**
   * Login's `is_access_valid` and start-analysis's inline test disagree
   * exactly at the expiry instant: a user whose expiry equals `now` is
   * refused at login but not by start-analysis. Everywhere else they agree.
   */
  lemma ExpiryInstantSplitsLoginAndAnalysis(u: User, now: DateTime)
    ensures (!IsAccessValid(u, now) && !ExpiredForAnalysis(u, now)) <==> u.accessExpiresAt == Some(now)
    ensures IsAccessValid(u, now) ==> !ExpiredForAnalysis(u, now)
  {
  }

  // ---------------------------------------------------------------------
  // What /api/user/me reports
  // ---------------------------------------------------------------------

  /** `blocked_until` of /api/user/me: the stamp plus the window when a stamp is set, else None. */
  function ShownBlockedUntil(s: Session): Option<int> {
    if IsSet(s.analysisStartedAtMs) then Some(s.analysisStartedAtMs.value + BlockMs) else None
  }

  /**
   * For a user past the first two checks, start-analysis refuses exactly
   * when the reported `blocked_until` lies in the future, and then reports
   * the same instant.
   */
  lemma ShownBlockAgreesWithGate(users: map<int, User>, s: Session, now: DateTime)
    requires CurrentUser(users, s).Some? && !ExpiredForAnalysis(CurrentUser(users, s).value, now)
    ensures var v := Gate(CurrentUser(users, s), s.analysisStartedAtMs, now);
      && (v.RateLimited? <==> ShownBlockedUntil(s).Some? && ShownBlockedUntil(s).value > MsOf(now))
      && (v.RateLimited? ==> ShownBlockedUntil(s) == Some(v.blockedUntil))
  {
  }

  /** Logging out clears the stamp: the next login starts with an open window. */
  lemma LogoutReopensTheWindow(users: map<int, User>, s: Session, id: int, now: DateTime)
    requires id != 0 && id in users && !ExpiredForAnalysis(users[id], now)
    ensures var s' := Logout(s).(userId := Some(id), isAdmin := Some(users[id].isAdmin));
      Gate(CurrentUser(users, s'), s'.analysisStartedAtMs, now) == Allowed
  {
  }

  // ---------------------------------------------------------------------
  // The generated analysis
  // ---------------------------------------------------------------------

  const Title := "AN\U{C1}LISE CONCLU\U{CD}DA POR I.A."
  const Expiration := "1 Minuto"

  /** The thirteen instruments the asset is drawn from. */
  const Assets: seq<string> := [
    "Google (OTC)", "Apple (OTC)", "Tesla (OTC)", "Bitcoin (OTC)",
    "AUD-JPY (OTC)", "USD-JPY (OTC)", "USD-BRL (OTC)", "GBP-JPY (OTC)",
    "EUR-USD (OTC)", "AUD-CAD (OTC)", "GBP-USD (OTC)", "EUR-GBP (OTC)",
    "EUR-JPY (OTC)"]

  /** The two directions: buy (green) and sell (red). */
  const Directions: seq<string> := ["\U{1F7E2} COMPRA", "\U{1F534} VENDA"]

  /** The body of a granted start-analysis response. */
  datatype Analysis = Analysis(
    title: string,
    asset: string,
    expiration: string,
    entry: string,
    direction: string,
    protection1: string,
    protection2: string,
    blockedUntil: int)

  /** A granted analysis generated at `now`: drawn asset and direction, clock readings 3, 4 and 5 minutes on. */
  predicate IsAnalysisAt(a: Analysis, now: DateTime) {
    && a.title == Title
    && a.asset in Assets
    && a.expiration == Expiration
    && a.direction in Directions
    && a.entry == ClockAfter(now, 3)
    && a.protection1 == ClockAfter(now, 4)
    && a.protection2 == ClockAfter(now, 5)
    && a.blockedUntil == MsOf(now) + BlockMs
  }

  /** The response of start-analysis. */
  datatype StartResponse = NotAuthenticated | Expired | Blocked(blockedUntil: int) | Granted(analysis: Analysis) {
    function Status(): int {
      match this
      case NotAuthenticated => 401
      case Expired => 403
      case Blocked(_) => 429
      case Granted(_) => 200
    }

    /** The gate's verdict a response carries. */
    function Verdict(): Verdict {
      match this
      case NotAuthenticated => Unauthenticated
      case Expired => AccessExpired
      case Blocked(b) => RateLimited(b)
      case Granted(_) => Allowed
    }
  }

  /** The `blocked_until` of a grant is the one /api/user/me then reports for the updated session. */
  lemma GrantReportsItsWindow(s: Session, a: Analysis, now: DateTime)
    requires IsAnalysisAt(a, now) && MsOf(now) != 0
    ensures ShownBlockedUntil(s.(analysisStartedAtMs := StampAfter(Allowed, s.analysisStartedAtMs, now))) == Some(a.blockedUntil)
  {
  }

  /** Entry, first and second protection: three, four and five minutes after the minute of `now`. */
  lemma ProtectionsFollowEntry(now: DateTime)
    ensures ParseClock(ClockAfter(now, 3)) == Some((MinuteOfDay(now) + 3) % MinutesPerDay)
    ensures ParseClock(ClockAfter(now, 4)) == Some((ParseClock(ClockAfter(now, 3)).value + 1) % MinutesPerDay)
    ensures ParseClock(ClockAfter(now, 5)) == Some((ParseClock(ClockAfter(now, 3)).value + 2) % MinutesPerDay)
  {
    ClockAfterWrapsAtMidnight(now, 3);
    ClockAfterWrapsAtMidnight(now, 4);
    ClockAfterWrapsAtMidnight(now, 5);
    var m := MinuteOfDay(now);
    ModAddLeft(m + 3, 1);
    ModAddLeft(m + 3, 2);
  }

  /** At 23:58 the entry already reads the next day's 00:01. */
  lemma EntryWrapsPastMidnight(now: DateTime)
    requires now.seconds == 23 * 3600 + 58 * 60 + 17
    ensures ClockAfter(now, 3) == "00:01"
    ensures ClockAfter(now, 5) == "00:03"
  {
  }
}
