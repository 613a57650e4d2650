/** The two stored records, `User` and `ClickLog`, and the constraints on the users table. */
module Models {
  import opened Wrappers
  import opened Time

  /**
   * A row of the users table. `passwordHash` is what the password hasher
   * produced; `accessExpiresAt == None` means access for life.
   */
  datatype User = User(
    id: int,
    email: string,
    username: string,
    passwordHash: string,
    isAdmin: bool,
    accessExpiresAt: Option<DateTime>,
    createdAt: DateTime,
    updatedAt: DateTime)

  /** `User.is_access_valid`: no expiry, or an expiry strictly later than `now`. */
  predicate IsAccessValid(u: User, now: DateTime) {
    u.accessExpiresAt == None || Before(now, u.accessExpiresAt.value)
  }

  /** Access is valid exactly while the expiry instant lies strictly in the future. */
  lemma AccessValidUntilExpiry(u: User, now: DateTime)
    requires WellFormed(now)
    requires u.accessExpiresAt.Some? ==> WellFormed(u.accessExpiresAt.value)
    ensures u.accessExpiresAt == None ==> IsAccessValid(u, now)
    ensures u.accessExpiresAt.Some? ==>
      (IsAccessValid(u, now) <==> EpochMicros(now) < EpochMicros(u.accessExpiresAt.value))
    ensures u.accessExpiresAt == Some(now) ==> !IsAccessValid(u, now)
  {
    if u.accessExpiresAt.Some? {
      BeforeIsInstantOrder(now, u.accessExpiresAt.value);
    }
  }

  /** A row of the click_logs table; every column is required. */
  datatype ClickLog = ClickLog(id: int, userId: int, buttonName: string, clickedAt: DateTime)

  const TelegramButton := "telegram"
  const CompraButton := "compra"

  /** The two button names the click logger accepts. */
  predicate IsButtonName(name: string) {
    name == TelegramButton || name == CompraButton
  }

  /** No two distinct users share an email. */
  ghost predicate UniqueEmails(users: map<int, User>) {
    forall a, b :: a in users && b in users && a != b ==> users[a].email != users[b].email
  }

  /** No two distinct users share a username. */
  ghost predicate UniqueUsernames(users: map<int, User>) {
    forall a, b :: a in users && b in users && a != b ==> users[a].username != users[b].username
  }

  /**
   * The users table keyed by primary key: each row sits under its own
   * positive id, email and username are present (never empty, since
   * only non-empty values are ever written) and each is unique.
   */
  ghost predicate UserTable(users: map<int, User>) {
    && (forall id :: id in users ==> users[id].id == id && id > 0)
    && (forall id :: id in users ==> users[id].email != "" && users[id].username != "")
    && UniqueEmails(users)
    && UniqueUsernames(users)
  }

  /** Whether some row other than `except` already uses `email` or `username`. */
  predicate Collides(users: map<int, User>, email: string, username: string, except: Option<int>) {
    exists id :: id in users && Some(id) != except &&
      (users[id].email == email || users[id].username == username)
  }

  /** Adding a row whose email and username collide with no row keeps the table's constraints. */
  lemma InsertKeepsUserTable(users: map<int, User>, u: User)
    requires UserTable(users)
    requires u.id > 0 && u.id !in users
    requires u.email != "" && u.username != ""
    requires !Collides(users, u.email, u.username, None)
    ensures UserTable(users[u.id := u])
  {
    var t := users[u.id := u];
    forall a, b | a in t && b in t && a != b
      ensures t[a].email != t[b].email && t[a].username != t[b].username
    {
      if a == u.id {
        assert b in users && Some(b) != None;
      } else if b == u.id {
        assert a in users && Some(a) != None;
      }
    }
  }

  /** Replacing a row by one whose email and username collide with no other row keeps the constraints. */
  lemma ReplaceKeepsUserTable(users: map<int, User>, u: User)
    requires UserTable(users)
    requires u.id in users
    requires u.email != "" && u.username != ""
    requires !Collides(users, u.email, u.username, Some(u.id))
    ensures UserTable(users[u.id := u])
  {
    var t := users[u.id := u];
    forall a, b | a in t && b in t && a != b
      ensures t[a].email != t[b].email && t[a].username != t[b].username
    {
      if a == u.id {
        assert b in users && Some(b) != Some(u.id);
      } else if b == u.id {
        assert a in users && Some(a) != Some(u.id);
      }
    }
  }

  /** Removing a row keeps the table's constraints. */
  lemma RemoveKeepsUserTable(users: map<int, User>, id: int)
    requires UserTable(users)
    ensures UserTable(users - {id})
  {
  }
}
