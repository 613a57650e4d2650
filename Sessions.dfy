/**
 * The per-client session record, who it identifies, and the text clean-up
 * the login form applies to the identifier.
 */
module Sessions {
  import opened Wrappers
  import opened Models

  /**
   * The server-side session: `user_id` and `is_admin` written at login and
   * `analysis_started_at_ms`, the stamp of the last granted analysis.
   */
  datatype Session = Session(userId: Option<int>, isAdmin: Option<bool>, analysisStartedAtMs: Option<int>)

  /** A session with nothing in it: a new client, or one that logged out. */
  const EmptySession := Session(None, None, None)

  /**
   * `current_user()`: a missing or falsy (zero) `user_id` gives no user;
   * otherwise the row with that primary key, if it still exists.
   */
  function CurrentUser(users: map<int, User>, s: Session): (u: Option<User>)
    ensures u.Some? <==> s.userId.Some? && s.userId.value != 0 && s.userId.value in users
    ensures u.Some? ==> u.value == users[s.userId.value]
  {
    match s.userId
    case None => None
    case Some(uid) => if uid != 0 && uid in users then Some(users[uid]) else None
  }

  /** `logout()`: `session.clear()`. */
  function Logout(s: Session): (r: Session)
    ensures forall users :: CurrentUser(users, r) == None
    ensures r.analysisStartedAtMs == None
  {
    EmptySession
  }

  // ---------------------------------------------------------------------
  // str.strip()
  // ---------------------------------------------------------------------

  /** `str.isspace()` for one character: the characters Python treats as whitespace. */
  predicate IsSpace(c: char) {
    var n := c as int;
    || (0x09 <= n <= 0x0D)    // \t \n \v \f \r
    || (0x1C <= n <= 0x20)    // file, group, record and unit separators; space
    || n == 0x85 || n == 0xA0 || n == 0x1680
    || (0x2000 <= n <= 0x200A)
    || n == 0x2028 || n == 0x2029 || n == 0x202F || n == 0x205F || n == 0x3000
  }

  /** `str.lstrip()`: drops leading whitespace, and only that. */
  function StripStart(s: string): (r: string)
    ensures |r| <= |s| && r == s[|s| - |r|..]
    ensures r == [] || !IsSpace(r[0])
    ensures forall k :: 0 <= k < |s| - |r| ==> IsSpace(s[k])
  {
    if s != [] && IsSpace(s[0]) then StripStart(s[1..]) else s
  }

  /** `str.rstrip()`: drops trailing whitespace, and only that. */
  function StripEnd(s: string): (r: string)
    ensures |r| <= |s| && r == s[..|r|]
    ensures r == [] || !IsSpace(r[|r| - 1])
    ensures forall k :: |r| <= k < |s| ==> IsSpace(s[k])
  {
    if s != [] && IsSpace(s[|s| - 1]) then StripEnd(s[..|s| - 1]) else s
  }

  /** `str.strip()`. */
  function Strip(s: string): (r: string)
  {
    StripEnd(StripStart(s))
  }

  /**
   * What `strip` keeps: a contiguous part of `s` that neither starts nor
   * ends with whitespace, with only whitespace cut on either side.
   */
  lemma StripKeepsTheCore(s: string)
    ensures var r := Strip(s); r == [] || (!IsSpace(r[0]) && !IsSpace(r[|r| - 1]))
    ensures var r := Strip(s); var i := |s| - |StripStart(s)|;
      && 0 <= i <= |s| - |r| && s[i..i + |r|] == r
      && (forall k :: 0 <= k < i ==> IsSpace(s[k]))
      && (forall k :: i + |r| <= k < |s| ==> IsSpace(s[k]))
  {
    var a := StripStart(s);
    var r := StripEnd(a);
    var i := |s| - |a|;
    assert a == s[i..];
    assert r == a[..|r|];
    if r != [] {
      assert r[0] == a[0];
    }
    assert s[i..i + |r|] == s[i..][..|r|];
    forall k | i + |r| <= k < |s| ensures IsSpace(s[k]) {
      assert s[k] == a[k - i];
    }
  }

  /** Stripping an already stripped string changes nothing. */
  lemma StripIsIdempotent(s: string)
    ensures Strip(Strip(s)) == Strip(s)
  {
    var r := Strip(s);
    StripKeepsTheCore(s);
    assert StripStart(r) == r;
    assert StripEnd(r) == r;
  }
}
