/**
 * The backend's state and its endpoints: the users table, the click log,
 * and one method per JSON endpoint (and the login form). The session is a
 * record each request takes and, where the endpoint writes it, returns.
 */
module Server {
  import opened Wrappers
  import opened Time
  import opened Models
  import opened Sessions
  import opened Cooldown
  import opened Stats
  import opened Admin

  datatype LoginResult = MissingCredentials | InvalidCredentials | AccessDenied | RedirectToAdmin | RedirectToDashboard

  datatype MeResponse =
    | MeUnauthenticated
    | Me(id: int, username: string, email: string, isAdmin: bool, accessExpiresAt: Option<int>, blockedUntil: Option<int>)

  datatype ClickResult = ClickUnauthenticated | InvalidButton | ClickRecorded {
    function Status(): int {
      match this
      case ClickUnauthenticated => 401
      case InvalidButton => 400
      case ClickRecorded => 200
    }
  }

  /** The login identifier names a user by username or by email. */
  predicate Identifies(u: User, identifier: string) {
    u.username == identifier || u.email == identifier
  }

  class App {
    /** The users table, keyed by primary key. */
    var users: map<int, User>
    /** The click_logs table, in insertion order. */
    var logs: seq<ClickLog>
    /** The next primary keys the tables hand out. */
    var nextUserId: int
    var nextLogId: int

    /**
     * The tables' constraints: the users table's keys and uniqueness,
     * fresh keys above every key in use, and clicks carrying one of the
     * two button names with ascending ids.
     */
    ghost predicate Valid()
      reads this
    {
      && UserTable(users)
      && nextUserId > 0
      && (forall id :: id in users ==> id < nextUserId)
      && (forall i :: 0 <= i < |logs| ==> IsButtonName(logs[i].buttonName) && logs[i].id < nextLogId)
      && (forall i, j :: 0 <= i < j < |logs| ==> logs[i].id < logs[j].id)
    }

    constructor ()
      ensures Valid()
      ensures users == map[] && logs == []
    {
      users := map[];
      logs := [];
      nextUserId := 1;
      nextLogId := 1;
    }

    // -------------------------------------------------------------------
    // Login and the cooldown gate
    // -------------------------------------------------------------------

    /**
     * The login form: the stripped identifier and the password must be
     * non-empty; some user named by the identifier is looked up; a wrong
     * password or no such user is refused, an expired user is refused,
     * and otherwise the session records the user and the admin flag (and
     * keeps its cooldown stamp).
     */
    method Login(s: Session, identifier: string, password: string, now: DateTime,
                 checkPassword: (string, string) -> bool)
      returns (r: LoginResult, s': Session)
      requires Valid()
      ensures Strip(identifier) == [] || password == [] <==> r == MissingCredentials
      ensures !(r.RedirectToAdmin? || r.RedirectToDashboard?) ==> s' == s
      ensures r.RedirectToAdmin? || r.RedirectToDashboard? ==>
        exists id :: id in users && Identifies(users[id], Strip(identifier))
          && checkPassword(users[id].passwordHash, password)
          && IsAccessValid(users[id], now)
          && s' == s.(userId := Some(id), isAdmin := Some(users[id].isAdmin))
          && (r.RedirectToAdmin? <==> users[id].isAdmin)
      ensures r == AccessDenied ==>
        exists id :: id in users && Identifies(users[id], Strip(identifier))
          && checkPassword(users[id].passwordHash, password)
          && !IsAccessValid(users[id], now)
      ensures r != MissingCredentials && (forall id :: id in users ==> !Identifies(users[id], Strip(identifier))) ==>
        r == InvalidCredentials
      ensures r != MissingCredentials
        && (exists id :: id in users && Identifies(users[id], Strip(identifier)))
        && (forall id :: id in users && Identifies(users[id], Strip(identifier)) ==>
              checkPassword(users[id].passwordHash, password) && IsAccessValid(users[id], now))
        ==> r.RedirectToAdmin? || r.RedirectToDashboard?
      ensures r != MissingCredentials
        && (exists id :: id in users && Identifies(users[id], Strip(identifier)))
        && (forall id :: id in users && Identifies(users[id], Strip(identifier)) ==>
              checkPassword(users[id].passwordHash, password) && !IsAccessValid(users[id], now))
        ==> r == AccessDenied
      ensures r != MissingCredentials
        && (forall id :: id in users && Identifies(users[id], Strip(identifier)) ==>
              !checkPassword(users[id].passwordHash, password))
        ==> r == InvalidCredentials
    {
      var ident := Strip(identifier);
      if ident == [] || password == [] {
        return MissingCredentials, s;
      }
      if id :| id in users && Identifies(users[id], ident) {
        var u := users[id];
        if checkPassword(u.passwordHash, password) {
          if !IsAccessValid(u, now) {
            return AccessDenied, s;
          }
          s' := s.(userId := Some(u.id), isAdmin := Some(u.isAdmin));
          r := if u.isAdmin then RedirectToAdmin else RedirectToDashboard;
          return;
        }
      }
      r, s' := InvalidCredentials, s;
    }

    /**
     * /api/start-analysis: the gate's verdict for the session's user and
     * stamp; a grant overwrites the stamp with `now` and returns a fresh
     * analysis, every refusal leaves the session as it was.
     */
    method StartAnalysis(s: Session, now: DateTime) returns (resp: StartResponse, s': Session)
      ensures resp.Verdict() == Gate(CurrentUser(users, s), s.analysisStartedAtMs, now)
      ensures s' == s.(analysisStartedAtMs := StampAfter(resp.Verdict(), s.analysisStartedAtMs, now))
      ensures resp.Granted? ==> IsAnalysisAt(resp.analysis, now)
    {
      var user := CurrentUser(users, s);
      if user == None {
        return NotAuthenticated, s;
      }
      if user.value.accessExpiresAt.Some? && Before(user.value.accessExpiresAt.value, now) {
        return Expired, s;
      }
      var nowMs := MsOf(now);
      var lastMs := s.analysisStartedAtMs;
      if lastMs.Some? && lastMs.value != 0 && lastMs.value + BlockMs > nowMs {
        return Blocked(lastMs.value + BlockMs), s;
      }
      s' := s.(analysisStartedAtMs := Some(nowMs));
      assert Assets[0] in Assets && Directions[0] in Directions;
      var asset :| asset in Assets;
      var direction :| direction in Directions;
      resp := Granted(Analysis(
        Title, asset, Expiration, ClockAfter(now, 3), direction, ClockAfter(now, 4), ClockAfter(now, 5),
        nowMs + BlockMs));
    }

    /** /api/user/me: the session's user, its expiry in milliseconds, and the cooldown's end if a stamp is set. */
    function UserMe(s: Session): (r: MeResponse)
      reads this
      ensures r == MeUnauthenticated <==> CurrentUser(users, s) == None
      ensures r.Me? ==>
        var u := CurrentUser(users, s).value;
        && r.id == u.id && r.username == u.username && r.email == u.email && r.isAdmin == u.isAdmin
        && r.accessExpiresAt == ToMs(u.accessExpiresAt)
        && r.blockedUntil == ShownBlockedUntil(s)
    {
      match CurrentUser(users, s)
      case None => MeUnauthenticated
      case Some(u) =>
        var blockedUntil := if IsSet(s.analysisStartedAtMs) then Some(s.analysisStartedAtMs.value + BlockMs) else None;
        Me(u.id, u.username, u.email, u.isAdmin, ToMs(u.accessExpiresAt), blockedUntil)
    }

    // -------------------------------------------------------------------
    // Click logging
    // -------------------------------------------------------------------

    /**
     * /api/registrar-clique: a signed-in user's click on one of the two
     * buttons appends exactly one log; anything else appends nothing.
     */
    method RegisterClick(s: Session, buttonName: Field<string>, now: DateTime) returns (r: ClickResult)
      requires Valid()
      modifies this
      ensures Valid()
      ensures users == old(users) && nextUserId == old(nextUserId)
      ensures CurrentUser(users, s) == None <==> r == ClickUnauthenticated
      ensures r == ClickRecorded <==>
        CurrentUser(users, s).Some? && buttonName.Present? && IsButtonName(buttonName.value)
      ensures r == ClickRecorded ==>
        logs == old(logs) + [ClickLog(old(nextLogId), CurrentUser(users, s).value.id, buttonName.value, now)]
      ensures r != ClickRecorded ==> logs == old(logs) && nextLogId == old(nextLogId)
    {
      var user := CurrentUser(users, s);
      if user == None {
        return ClickUnauthenticated;
      }
      if !(buttonName.Present? && IsButtonName(buttonName.value)) {
        return InvalidButton;
      }
      logs := logs + [ClickLog(nextLogId, user.value.id, buttonName.value, now)];
      nextLogId := nextLogId + 1;
      r := ClickRecorded;
    }

    // -------------------------------------------------------------------
    // Admin: users
    // -------------------------------------------------------------------

    /** GET /api/admin/users: every user, newest (highest id) first. */
    method ListUsers(s: Session) returns (r: ListResult)
      requires Valid()
      ensures r == ListUnauthorized <==> !IsAdminSession(users, s)
      ensures r.UserList? ==>
        && (forall i, j :: 0 <= i < j < |r.entries| ==> r.entries[i].id > r.entries[j].id)
        && (forall i :: 0 <= i < |r.entries| ==>
              r.entries[i].id in users
              && r.entries[i] == EntryOf(users[r.entries[i].id], CurrentUser(users, s).value, s))
        && (forall id :: id in users ==> exists i :: 0 <= i < |r.entries| && r.entries[i].id == id)
    {
      var viewer := CurrentUser(users, s);
      if viewer == None || !viewer.value.isAdmin {
        return ListUnauthorized;
      }
      var out: seq<UserEntry> := [];
      var id := nextUserId - 1;
      while id > 0
        invariant 0 <= id < nextUserId
        invariant forall i, j :: 0 <= i < j < |out| ==> out[i].id > out[j].id
        invariant forall i :: 0 <= i < |out| ==>
          id < out[i].id && out[i].id in users && out[i] == EntryOf(users[out[i].id], viewer.value, s)
        invariant forall k :: k in users && k > id ==> exists i :: 0 <= i < |out| && out[i].id == k
      {
        var prev := out;
        if id in users {
          out := out + [EntryOf(users[id], viewer.value, s)];
          assert out[|prev|].id == id;
        }
        forall k | k in users && k > id - 1
          ensures exists i :: 0 <= i < |out| && out[i].id == k
        {
          if k > id {
            var i :| 0 <= i < |prev| && prev[i].id == k;
            assert out[i] == prev[i];
          }
        }
        id := id - 1;
      }
      r := UserList(out);
    }

    /**
     * POST /api/admin/users: admins only; email, username and password
     * must be truthy; no user may already have the email or the username;
     * an expiry outside years 1 to 9999 raises; then exactly one row is
     * added under a fresh id.
     */
    method CreateUser(s: Session, req: UserRequest, now: DateTime, hash: string -> string) returns (r: CreateResult)
      requires Valid()
      modifies this
      ensures Valid()
      ensures logs == old(logs)
      ensures !IsAdminSession(old(users), s) <==> r == CreateUnauthorized
      ensures IsAdminSession(old(users), s) && !HasRequiredFields(req) <==> r == MissingFields
      ensures r == AlreadyExists <==>
        IsAdminSession(old(users), s) && HasRequiredFields(req)
        && Collides(old(users), req.email.value, req.username.value, None)
      ensures r == ExpiryOutOfRange <==>
        IsAdminSession(old(users), s) && HasRequiredFields(req)
        && !Collides(old(users), req.email.value, req.username.value, None)
        && ExpiryFails(req.accessExpiresAt)
      ensures !r.Created? ==> users == old(users)
      ensures r.Created? ==>
        && r.id > 0 && r.id !in old(users)
        && users == old(users)[r.id := NewUserRecord(r.id, req, now, hash)]
    {
      if !IsAdminSession(users, s) {
        return CreateUnauthorized;
      }
      if !(Truthy(req.email) && Truthy(req.username) && Truthy(req.password)) {
        return MissingFields;
      }
      if Collides(users, req.email.value, req.username.value, None) {
        return AlreadyExists;
      }
      if ExpiryFails(req.accessExpiresAt) {
        return ExpiryOutOfRange;
      }
      var id := nextUserId;
      var u := NewUserRecord(id, req, now, hash);
      InsertKeepsUserTable(users, u);
      users := users[id := u];
      nextUserId := nextUserId + 1;
      r := Created(id);
    }

    /**
     * PUT /api/admin/users/<id>: admins only; an unknown id is 404; the
     * supplied members are assigned to the row one by one, and an expiry
     * outside years 1 to 9999 raises before anything is committed; a change that
     * would give the row another user's email or username is refused by
     * the table's unique constraints when the change is committed.
     */
    method UpdateUser(s: Session, id: int, req: UserRequest, now: DateTime, hash: string -> string)
      returns (r: ModifyResult)
      requires Valid()
      modifies this
      ensures Valid()
      ensures logs == old(logs)
      ensures !IsAdminSession(old(users), s) <==> r == ModifyUnauthorized
      ensures r == NotFound <==> IsAdminSession(old(users), s) && id !in old(users)
      ensures r == UnrepresentableExpiry <==>
        IsAdminSession(old(users), s) && id in old(users) && ExpiryFails(req.accessExpiresAt)
      ensures r == StorageError <==>
        IsAdminSession(old(users), s) && id in old(users) && !ExpiryFails(req.accessExpiresAt)
        && var u := UpdatedRecord(old(users)[id], req, now, hash);
           Collides(old(users), u.email, u.username, Some(id))
      ensures r != Done ==> users == old(users)
      ensures r == Done ==> users == old(users)[id := UpdatedRecord(old(users)[id], req, now, hash)]
    {
      if !IsAdminSession(users, s) {
        return ModifyUnauthorized;
      }
      if id !in users {
        return NotFound;
      }
      if ExpiryFails(req.accessExpiresAt) {
        return UnrepresentableExpiry;
      }
      var target := users[id];
      if Truthy(req.email) {
        target := target.(email := req.email.value);
      }
      if Truthy(req.username) {
        target := target.(username := req.username.value);
      }
      if !req.isAdmin.Absent? {
        target := target.(isAdmin := AsBool(req.isAdmin));
      }
      if !req.accessExpiresAt.Absent? {
        if req.accessExpiresAt.Null? {
          target := target.(accessExpiresAt := None);
        } else {
          target := target.(accessExpiresAt := Some(FromMs(req.accessExpiresAt.value)));
        }
      }
      if Truthy(req.password) {
        target := target.(passwordHash := hash(req.password.value));
      }
      if target != users[id] {
        target := target.(updatedAt := now);
      }
      assert target == UpdatedRecord(users[id], req, now, hash);
      if Collides(users, target.email, target.username, Some(id)) {
        return StorageError;
      }
      UpdateChangesOnlySuppliedFields(users[id], req, now, hash);
      ReplaceKeepsUserTable(users, target);
      users := users[id := target];
      r := Done;
    }

    /**
     * DELETE /api/admin/users/<id>: admins only; an unknown id is 404;
     * otherwise exactly that row goes, and the clicks it made stay behind.
     */
    method DeleteUser(s: Session, id: int) returns (r: ModifyResult)
      requires Valid()
      modifies this
      ensures Valid()
      ensures logs == old(logs)
      ensures !IsAdminSession(old(users), s) <==> r == ModifyUnauthorized
      ensures r == NotFound <==> IsAdminSession(old(users), s) && id !in old(users)
      ensures r != StorageError && r != UnrepresentableExpiry
      ensures r != Done ==> users == old(users)
      ensures r == Done ==> users == old(users) - {id} && id in old(users)
    {
      if !IsAdminSession(users, s) {
        return ModifyUnauthorized;
      }
      if id !in users {
        return NotFound;
      }
      RemoveKeepsUserTable(users, id);
      users := users - {id};
      r := Done;
    }

    // -------------------------------------------------------------------
    // Admin: click statistics
    // -------------------------------------------------------------------

    /**
     * GET /api/admin/clicks/stats: admins only; the period's labels, the
     * clicks since the range's first midnight, and the telegram, compra
     * and total series counted under the labels.
     */
    method ClickStats(s: Session, periodArg: Option<string>, now: DateTime, cal: Calendar) returns (r: StatsResult)
      ensures r == Unauthorized <==> !IsAdminSession(users, s)
      ensures IsAdminSession(users, s) ==>
        var p := PeriodOf(periodArg);
        IsTallyOf(r, ExpectedLabels(p, now, cal), Fetch(logs, StartDay(p, now, cal)), KeyOf(p, cal))
      ensures r.Report? ==>
        |r.labels| == |r.telegram| == |r.compra| == |r.total| == BucketCount(PeriodOf(periodArg))
      ensures r.Report? && Distinct(r.labels) ==>
        Sum(r.total) == |Fetch(logs, StartDay(PeriodOf(periodArg), now, cal))|
    {
      if !IsAdminSession(users, s) {
        return Unauthorized;
      }
      var p := PeriodOf(periodArg);
      var today := DayOf(now);
      var start: int;
      var labels: seq<string>;
      match p {
        case Daily =>
          start := today - Days;
          labels := DailyLabels(start, cal);
        case Weekly =>
          start := today - 7 * Weeks;
          labels := WeeklyLabels(start, cal);
        case Monthly =>
          start := (today - (cal.dayOfMonth(today) - 1)) - 30 * Months;
          labels := MonthlyLabels(cal.yearMonthOf(start), cal);
      }
      assert labels == ExpectedLabels(p, now, cal);
      var fetched := Fetch(logs, start);
      r := Tally(labels, fetched, KeyOf(p, cal));
    }
  }
}
