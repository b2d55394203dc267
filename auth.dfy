/** Password hashing and the login (session) table.

    MD5 and the JWT codec are not modelled: the hash is a function handed
    in by the caller (only its determinism matters), the encoded token is
    an opaque string, and the result of decoding a presented token is a
    parameter. The clock is a parameter too (`now`, in seconds). */
module Auth {
  import opened DbModels

  /** The password digest (an MD5 hex string in the running system). */
  type Hasher = string -> string

  function GetPasswordHash(hash: Hasher, password: string): string
  {
    hash(password)
  }

  predicate VerifyPassword(hash: Hasher, plain: string, hashed: string)
  {
    hash(plain) == hashed
  }

  /** A password always matches its own stored hash. */
  lemma VerifyOwnHash(hash: Hasher, password: string)
    ensures VerifyPassword(hash, password, GetPasswordHash(hash, password))
  {
  }

  /** Verification is nothing but equality of digests. */
  lemma VerifyIsHashEquality(hash: Hasher, plain: string, hashed: string)
    ensures VerifyPassword(hash, plain, hashed) <==> hashed == GetPasswordHash(hash, plain)
  {
  }

  // ---------------------------------------------------------------------
  // The session table as a whole

  /** Eight hours, in seconds. */
  const SessionLifetime: int := 8 * 60 * 60

  /** Every session row belongs to a user and carries that user's current
      employee id and super-admin flag, which is what `admin_required`
      relies on. */
  predicate SessionsMirrorUsers(db: Db)
  {
    forall k :: k in db.sessions ==>
      && k in db.users
      && db.sessions[k].employeeId == db.users[k].employeeId
      && db.sessions[k].isSuperAdmin == db.users[k].isSuperAdmin
  }

  // ---------------------------------------------------------------------
  // create_access_token

  /** The session row written for `u` at login. */
  function SessionFor(u: User, token: string, now: int): LoginedUser
  {
    LoginedUser(u.employeeId, u.isSuperAdmin, token, now + SessionLifetime)
  }

  /** `create_access_token`: the user's old session row is deleted, the new
      one inserted, and the change committed; the login endpoint turns a
      refused commit into 500. */
  function CreateAccessToken(db: Db, username: string, token: string, now: int): Reply
    requires username in db.users
  {
    CommitReply(db, db.(sessions := db.sessions[username := SessionFor(db.users[username], token, now)]), 500)
  }

  /** Another user's session row already holds this employee id. */
  predicate EmployeeIdInOtherSession(db: Db, username: string, employeeId: string)
  {
    exists k :: k in db.sessions && k != username && db.sessions[k].employeeId == employeeId
  }

  /** After a login the user has exactly one session row, holding the new
      token, the user's employee id and flag, and an expiry eight hours
      ahead; no other row changes. The commit fails exactly when another
      session row already holds the same employee id. */
  lemma CreateAccessTokenSpec(db: Db, username: string, token: string, now: int)
    requires DbOk(db) && username in db.users
    ensures var r := CreateAccessToken(db, username, token, now);
      && (r.code == 200 <==> !EmployeeIdInOtherSession(db, username, db.users[username].employeeId))
      && (r.code != 200 ==> r.code == 500 && r.db == db)
      && (r.code == 200 ==>
            && username in r.db.sessions
            && r.db.sessions[username].token == token
            && r.db.sessions[username].employeeId == db.users[username].employeeId
            && r.db.sessions[username].isSuperAdmin == db.users[username].isSuperAdmin
            && r.db.sessions[username].expirationTime == now + 8 * 3600
            && r.db.sessions.Keys == db.sessions.Keys + {username}
            && (forall k :: k in db.sessions && k != username ==> r.db.sessions[k] == db.sessions[k])
            && r.db.(sessions := db.sessions) == db)
  {
    var after := db.(sessions := db.sessions[username := SessionFor(db.users[username], token, now)]);
    var e := db.users[username].employeeId;
    if EmployeeIdInOtherSession(db, username, e) {
      var k :| k in db.sessions && k != username && db.sessions[k].employeeId == e;
      assert after.sessions[k].employeeId == after.sessions[username].employeeId;
      assert !ChangedRowsOk(db, after);
    } else {
      assert ChangedRowsOk(db, after);
    }
  }

  /** A login keeps every session row in step with its user. */
  lemma CreateAccessTokenKeepsMirror(db: Db, username: string, token: string, now: int)
    requires SessionsMirrorUsers(db) && username in db.users
    ensures SessionsMirrorUsers(CreateAccessToken(db, username, token, now).db)
  {
  }

  // ---------------------------------------------------------------------
  // get_current_user

  /** What decoding the presented JWT gave: a decoding error, or a payload
      whose `username` claim may be missing. */
  datatype Payload = Undecodable | Decoded(username: Option<string>)

  /** The outcome of authentication: the caller's session row, or an error code. */
  datatype Login = LoggedIn(username: string, row: LoginedUser) | Rejected(code: int)

  /** The session table after the bulk delete of expired rows: a row stays
      unless the current time is past its expiry. */
  function Unexpired(sessions: map<string, LoginedUser>, now: int): map<string, LoginedUser>
  {
    map k | k in sessions && !(now > sessions[k].expirationTime) :: sessions[k]
  }

  /** The purge keeps exactly the live rows, unchanged. */
  lemma UnexpiredSpec(sessions: map<string, LoginedUser>, now: int)
    ensures forall k :: k in Unexpired(sessions, now) <==> k in sessions && sessions[k].expirationTime >= now
    ensures forall k :: k in Unexpired(sessions, now) ==> Unexpired(sessions, now)[k] == sessions[k]
  {
  }

  /** The usernames whose session row holds `token`. */
  function TokenHolders(sessions: map<string, LoginedUser>, token: string): set<string>
  {
    set k | k in sessions && sessions[k].token == token
  }

  /** `get_current_user`, as a relation between the state before, the
      outcome and the state after: a bad or username-less token is 401
      before anything changes; otherwise the expired rows are deleted and
      the caller is some row holding the token (the query takes the first
      one), or 401 when there is none. */
  predicate CurrentUserOutcome(before: Db, token: string, payload: Payload, now: int, login: Login, after: Db)
  {
    if payload.Undecodable? || payload.username.None? then
      login == Rejected(401) && after == before
    else
      && after == before.(sessions := Unexpired(before.sessions, now))
      && match login
         case Rejected(code) => code == 401 && TokenHolders(after.sessions, token) == {}
         case LoggedIn(u, row) => u in TokenHolders(after.sessions, token) && after.sessions[u] == row
  }

  /** An authenticated caller holds a live session for the token presented;
      the caller is refused exactly when the token is bad or no live row
      holds it. */
  lemma CurrentUserIsLive(before: Db, token: string, payload: Payload, now: int, login: Login, after: Db)
    requires CurrentUserOutcome(before, token, payload, now, login, after)
    ensures login.LoggedIn? ==>
      && login.username in before.sessions
      && login.row == before.sessions[login.username]
      && login.row.token == token
      && login.row.expirationTime >= now
    ensures login.Rejected? <==>
      || payload.Undecodable? || payload.username.None?
      || (forall k :: k in before.sessions && before.sessions[k].token == token ==> before.sessions[k].expirationTime < now)
    ensures login.Rejected? ==> login.code == 401
  {
    UnexpiredSpec(before.sessions, now);
    if !(payload.Undecodable? || payload.username.None?) && login.Rejected? {
      forall k | k in before.sessions && before.sessions[k].token == token
        ensures before.sessions[k].expirationTime < now
      {
        assert k !in TokenHolders(after.sessions, token);
      }
    }
    if !(payload.Undecodable? || payload.username.None?) && login.LoggedIn? {
      assert login.username in after.sessions;
    }
  }

  /** The purge keeps every table constraint and the sessions' agreement
      with the users table. */
  lemma PurgeKeepsInvariants(db: Db, now: int)
    ensures DbOk(db) ==> DbOk(db.(sessions := Unexpired(db.sessions, now)))
    ensures SessionsMirrorUsers(db) ==> SessionsMirrorUsers(db.(sessions := Unexpired(db.sessions, now)))
  {
  }

  // ---------------------------------------------------------------------
  // admin_required

  /** `admin_required`: passes the caller's session row through when it
      carries the super-admin flag, refuses it with 403 otherwise; an
      authentication failure passes through unchanged. */
  function AdminRequired(login: Login): (r: Login)
    ensures r.LoggedIn? <==> login.LoggedIn? && login.row.isSuperAdmin
    ensures r.LoggedIn? ==> r == login
    ensures login.Rejected? ==> r == login
    ensures login.LoggedIn? && !login.row.isSuperAdmin ==> r == Rejected(403)
  {
    match login
    case Rejected(_) => login
    case LoggedIn(_, row) => if row.isSuperAdmin then login else Rejected(403)
  }

  /** With the session table in step with the users table, a caller
      admitted by `admin_required` is a super-admin in the users table and
      holds a live session for the token presented. */
  lemma AdminIsSuperAdminUser(before: Db, token: string, payload: Payload, now: int, login: Login, after: Db)
    requires SessionsMirrorUsers(before)
    requires CurrentUserOutcome(before, token, payload, now, login, after)
    ensures AdminRequired(login).LoggedIn? ==>
      && login.username in after.users
      && after.users[login.username].isSuperAdmin
      && login.row.expirationTime >= now
    ensures AdminRequired(login).Rejected? ==> AdminRequired(login).code in {401, 403}
  {
    CurrentUserIsLive(before, token, payload, now, login, after);
  }

  // ---------------------------------------------------------------------
  // The operations on the store

  method CreateAccessTokenHandler(s: Store, username: string, token: string, now: int) returns (code: int)
    requires username in s.users
    modifies s
    ensures Reply(code, s.State()) == CreateAccessToken(old(s.State()), username, token, now)
  {
    var saved := s.State();
    var user := s.users[username];
    s.sessions := s.sessions - {username};
    s.sessions := s.sessions[username := LoginedUser(user.employeeId, user.isSuperAdmin, token, now + SessionLifetime)];
    assert s.sessions == saved.sessions[username := SessionFor(user, token, now)];
    code := s.CommitChanges(saved, 500);
  }

  method GetCurrentUser(s: Store, token: string, payload: Payload, now: int) returns (login: Login)
    modifies s
    ensures CurrentUserOutcome(old(s.State()), token, payload, now, login, s.State())
  {
    if payload.Undecodable? || payload.username.None? {
      return Rejected(401);
    }
    s.sessions := map k | k in s.sessions && !(now > s.sessions[k].expirationTime) :: s.sessions[k];
    if exists k :: k in s.sessions && s.sessions[k].token == token {
      var k :| k in s.sessions && s.sessions[k].token == token;
      login := LoggedIn(k, s.sessions[k]);
    } else {
      login := Rejected(401);
    }
  }
}
