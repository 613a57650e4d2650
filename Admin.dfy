/**
 * The admin user table endpoints: who may call them, what a create or a
 * partial update writes, what a listing shows, and the delete as written.
 */
module Admin {
  import opened Wrappers
  import opened Time
  import opened Models
  import opened Sessions

  /** `user and user.is_admin`: the guard of every admin endpoint reads the stored flag, not the session's. */
  predicate IsAdminSession(users: map<int, User>, s: Session) {
    CurrentUser(users, s).Some? && CurrentUser(users, s).value.isAdmin
  }

  /** Truthiness of a string member: present, not null, not empty. */
  predicate Truthy(f: Field<string>) {
    f.Present? && f.value != ""
  }

  /** `bool(data.get(key))`: only an explicit `true` is true. */
  function AsBool(f: Field<bool>): bool {
    f == Present(true)
  }

  /** Truthiness of a millisecond member: present, not null, not 0. */
  predicate TruthyMs(f: Field<int>) {
    f.Present? && f.value != 0
  }

  /** The JSON body of a create or update request, member by member. */
  datatype UserRequest = UserRequest(
    email: Field<string>,
    username: Field<string>,
    password: Field<string>,
    isAdmin: Field<bool>,
    accessExpiresAt: Field<int>)

  // ---------------------------------------------------------------------
  // Create
  // ---------------------------------------------------------------------

  /**
   * `datetime.utcfromtimestamp` of a millisecond member raises (and the
   * request fails with 500) when the stamp lies outside years 1 to 9999.
   */
  predicate ExpiryFails(f: Field<int>) {
    f.Present? && !Representable(f.value)
  }

  datatype CreateResult = CreateUnauthorized | MissingFields | AlreadyExists | ExpiryOutOfRange | Created(id: int) {
    function Status(): int {
      match this
      case CreateUnauthorized => 403
      case MissingFields => 400
      case AlreadyExists => 400
      case ExpiryOutOfRange => 500
      case Created(_) => 200
    }
  }

  /** `email and username and password`. */
  predicate HasRequiredFields(req: UserRequest) {
    Truthy(req.email) && Truthy(req.username) && Truthy(req.password)
  }

  /**
   * The row a successful create inserts: the password hashed, the admin
   * flag from `bool(is_admin)`, an expiry only for a truthy millisecond
   * value, and both timestamps at `now`.
   */
  function NewUserRecord(id: int, req: UserRequest, now: DateTime, hash: string -> string): User
    requires HasRequiredFields(req)
  {
    User(
      id,
      req.email.value,
      req.username.value,
      hash(req.password.value),
      AsBool(req.isAdmin),
      if TruthyMs(req.accessExpiresAt) then Some(FromMs(req.accessExpiresAt.value)) else None,
      now,
      now)
  }

  /**
   * What a created user gets by default: no admin rights unless `is_admin`
   * is true, unlimited access when the expiry is absent, null or 0, and
   * otherwise an expiry that `to_ms` reports back as the milliseconds given.
   */
  lemma CreatedUserDefaults(id: int, req: UserRequest, now: DateTime, hash: string -> string)
    requires HasRequiredFields(req)
    ensures var u := NewUserRecord(id, req, now, hash);
      && u.id == id && u.email == req.email.value && u.username == req.username.value
      && u.passwordHash == hash(req.password.value)
      && u.createdAt == now && u.updatedAt == now
      && (u.isAdmin <==> req.isAdmin == Present(true))
      && (u.accessExpiresAt == None <==> !TruthyMs(req.accessExpiresAt))
      && (TruthyMs(req.accessExpiresAt) ==> ToMs(u.accessExpiresAt) == Some(req.accessExpiresAt.value))
      && u.email != "" && u.username != ""
  {
  }

  // ---------------------------------------------------------------------
  // Partial update and delete
  // ---------------------------------------------------------------------

  /**
   * The outcome of an update or delete; `UnrepresentableExpiry` is the
   * exception of `utcfromtimestamp`, `StorageError` one the database
   * raises at commit.
   */
  datatype ModifyResult = ModifyUnauthorized | NotFound | UnrepresentableExpiry | StorageError | Done {
    function Status(): int {
      match this
      case ModifyUnauthorized => 403
      case NotFound => 404
      case UnrepresentableExpiry => 500
      case StorageError => 500
      case Done => 200
    }
  }

  /**
   * The columns after the update's assignments: email, username and
   * password when truthy, `is_admin` and `access_expires_at` when the key
   * is present (an explicit null clears the expiry).
   */
  function Assigned(u: User, req: UserRequest, hash: string -> string): User {
    u.(
      email := if Truthy(req.email) then req.email.value else u.email,
      username := if Truthy(req.username) then req.username.value else u.username,
      isAdmin := if req.isAdmin.Absent? then u.isAdmin else AsBool(req.isAdmin),
      accessExpiresAt :=
        match req.accessExpiresAt
        case Absent => u.accessExpiresAt
        case Null => None
        case Present(ms) => Some(FromMs(ms)),
      passwordHash := if Truthy(req.password) then hash(req.password.value) else u.passwordHash)
  }

  /** The row after an update: the assignments, and `updated_at` moved to `now` when a column changed. */
  function UpdatedRecord(u: User, req: UserRequest, now: DateTime, hash: string -> string): User {
    var a := Assigned(u, req, hash);
    if a == u then u else a.(updatedAt := now)
  }

  /**
   * An update changes only what the request supplies: the id and creation
   * time never change, an absent or falsy member leaves its column alone,
   * an explicit null expiry clears it, a millisecond expiry is read back by
   * `to_ms`, an empty request changes nothing, and required columns stay
   * non-empty.
   */
  lemma UpdateChangesOnlySuppliedFields(u: User, req: UserRequest, now: DateTime, hash: string -> string)
    ensures var r := UpdatedRecord(u, req, now, hash);
      && r.id == u.id && r.createdAt == u.createdAt
      && (!Truthy(req.email) ==> r.email == u.email)
      && (Truthy(req.email) ==> r.email == req.email.value)
      && (!Truthy(req.username) ==> r.username == u.username)
      && (Truthy(req.username) ==> r.username == req.username.value)
      && (!Truthy(req.password) ==> r.passwordHash == u.passwordHash)
      && (Truthy(req.password) ==> r.passwordHash == hash(req.password.value))
      && (req.isAdmin.Absent? ==> r.isAdmin == u.isAdmin)
      && (req.isAdmin.Present? ==> r.isAdmin == req.isAdmin.value)
      && (req.isAdmin.Null? ==> !r.isAdmin)
      && (req.accessExpiresAt.Absent? ==> r.accessExpiresAt == u.accessExpiresAt)
      && (req.accessExpiresAt.Null? ==> r.accessExpiresAt == None)
      && (req.accessExpiresAt.Present? ==> ToMs(r.accessExpiresAt) == Some(req.accessExpiresAt.value))
      && (r.updatedAt == u.updatedAt || r.updatedAt == now)
      && (r != u ==> r.updatedAt == now)
      && (req == UserRequest(Absent, Absent, Absent, Absent, Absent) ==> r == u)
      && (u.email != "" ==> r.email != "") && (u.username != "" ==> r.username != "")
  {
  }

  /**
   * Delete as written: removing a user makes the ORM set `user_id` of that
   * user's clicks to NULL (the relationship has no delete cascade), the
   * NOT NULL column rejects it, and the request fails with nothing deleted.
   */
  function DeleteAsWritten(users: map<int, User>, logs: seq<ClickLog>, id: int): ModifyResult {
    if id !in users then NotFound
    else if exists i :: 0 <= i < |logs| && logs[i].userId == id then StorageError
    else Done
  }

  /** A user who has clicked once cannot be deleted as written, although the user exists. */
  lemma DeletingAUserWithClicksFails(u: User, t: DateTime)
    requires u.id == 1
    ensures var users := map[1 := u];
      && 1 in users
      && DeleteAsWritten(users, [ClickLog(1, 1, TelegramButton, t)], 1) == StorageError
      && DeleteAsWritten(users, [], 1) == Done
  {
    var logs := [ClickLog(1, 1, TelegramButton, t)];
    assert logs[0].userId == 1;
  }

  // ---------------------------------------------------------------------
  // Listing
  // ---------------------------------------------------------------------

  /** One entry of the user listing, timestamps in epoch milliseconds. */
  datatype UserEntry = UserEntry(
    id: int,
    email: string,
    username: string,
    isAdmin: bool,
    accessExpiresAt: Option<int>,
    createdAt: Option<int>,
    lastAnalysisStartedAt: Option<int>)

  datatype ListResult = ListUnauthorized | UserList(entries: seq<UserEntry>)

  /** The entry of `u` as `viewer` sees it: only the viewer's own row shows the viewer's session stamp. */
  function EntryOf(u: User, viewer: User, s: Session): UserEntry {
    UserEntry(
      u.id, u.email, u.username, u.isAdmin,
      ToMs(u.accessExpiresAt),
      ToMs(Some(u.createdAt)),
      if u.id == viewer.id then s.analysisStartedAtMs else None)
  }
}
