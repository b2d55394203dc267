/** The user endpoints: registration, deletion, self-service update and
    the administrator's update. The session table is kept in step with the
    users table by every one of them (`Auth.SessionsMirrorUsers`). */
module Users {
  import opened DbModels
  import opened Auth

  // ---------------------------------------------------------------------
  // create_user

  /** The body of a registration request; the username travels beside it. */
  datatype NewUser = NewUser(
    employeeId: string,
    trueName: string,
    gender: string,
    age: int,
    password: string,
    isSuperAdmin: bool)

  predicate EmployeeIdTaken(users: map<string, User>, employeeId: string)
  {
    exists k :: k in users && users[k].employeeId == employeeId
  }

  /** The row registration stores: the password only as its hash. */
  function RegisteredUser(hash: Hasher, req: NewUser): User
  {
    User(req.employeeId, req.trueName, req.gender, Some(req.age), req.isSuperAdmin, GetPasswordHash(hash, req.password))
  }

  /** `create_user`: a taken username, then a taken employee id, is 400;
      otherwise the user is added and committed. */
  function CreateUser(db: Db, hash: Hasher, username: string, req: NewUser): Reply
  {
    if username in db.users then Reply(400, db)
    else if EmployeeIdTaken(db.users, req.employeeId) then Reply(400, db)
    else CommitReply(db, db.(users := db.users[username := RegisteredUser(hash, req)]), 500)
  }

  /** Registration is refused exactly when the username or the employee id
      is taken; otherwise it adds exactly one user, whose stored hash
      verifies the chosen password, and changes nothing else. */
  lemma CreateUserSpec(db: Db, hash: Hasher, username: string, req: NewUser)
    requires DbOk(db)
    ensures var r := CreateUser(db, hash, username, req);
      && (r.code == 400 <==> username in db.users || EmployeeIdTaken(db.users, req.employeeId))
      && (r.code == 200 || r.code == 400)
      && (r.code == 400 ==> r.db == db)
      && (r.code == 200 ==>
            && r.db.users.Keys == db.users.Keys + {username}
            && r.db.users[username].employeeId == req.employeeId
            && r.db.users[username].trueName == req.trueName
            && r.db.users[username].gender == req.gender
            && r.db.users[username].age == Some(req.age)
            && r.db.users[username].isSuperAdmin == req.isSuperAdmin
            && VerifyPassword(hash, req.password, r.db.users[username].passwordHash)
            && (forall k :: k in db.users ==> r.db.users[k] == db.users[k])
            && r.db.(users := db.users) == db)
  {
    if username !in db.users && !EmployeeIdTaken(db.users, req.employeeId) {
      var after := db.(users := db.users[username := RegisteredUser(hash, req)]);
      assert ChangedRowsOk(db, after);
    }
  }

  /** A new user has no session row yet, so the sessions stay in step. */
  lemma CreateUserKeepsMirror(db: Db, hash: Hasher, username: string, req: NewUser)
    requires SessionsMirrorUsers(db)
    ensures SessionsMirrorUsers(CreateUser(db, hash, username, req).db)
  {
  }

  // ---------------------------------------------------------------------
  // delete_user

  /** The user row and the user's session row are both removed. */
  function WithoutUser(db: Db, username: string): Db
  {
    db.(users := db.users - {username}, sessions := db.sessions - {username})
  }

  /** `delete_user` as written: an absent user raises 404 and a super-admin
      403, but both are raised inside the `try` whose catch-all answers
      every exception with 400. */
  function DeleteUserAsWritten(db: Db, username: string): Reply
  {
    var attempt :=
      if username !in db.users then Reply(404, db)
      else if db.users[username].isSuperAdmin then Reply(403, db)
      else CommitReply(db, WithoutUser(db, username), 400);
    if attempt.code != 200 then Reply(400, db) else attempt
  }

  /** `delete_user` with its 404 and 403 reaching the client; a failed
      commit is still the catch-all's 400. */
  function DeleteUser(db: Db, username: string): Reply
  {
    if username !in db.users then Reply(404, db)
    else if db.users[username].isSuperAdmin then Reply(403, db)
    else CommitReply(db, WithoutUser(db, username), 400)
  }

  /** As written, an absent user and a super-admin both come back as 400,
      indistinguishable from each other; the two versions agree on every
      other request. */
  lemma DeleteUserAsWrittenHidesCause(db: Db, username: string)
    ensures username !in db.users ==>
      DeleteUserAsWritten(db, username) == Reply(400, db) && DeleteUser(db, username) == Reply(404, db)
    ensures username in db.users && db.users[username].isSuperAdmin ==>
      DeleteUserAsWritten(db, username) == Reply(400, db) && DeleteUser(db, username) == Reply(403, db)
    ensures username in db.users && !db.users[username].isSuperAdmin ==>
      DeleteUserAsWritten(db, username) == DeleteUser(db, username)
  {
  }

  /** Deletion answers 404 exactly for an absent user and 403 exactly for a
      super-admin; any other user is removed together with their session
      row, and nothing else changes. */
  lemma DeleteUserSpec(db: Db, username: string)
    requires DbOk(db)
    ensures var r := DeleteUser(db, username);
      && (r.code == 404 <==> username !in db.users)
      && (r.code == 403 <==> username in db.users && db.users[username].isSuperAdmin)
      && (r.code != 200 ==> r.db == db)
      && (r.code == 200 || r.code == 403 || r.code == 404)
      && (r.code == 200 ==>
            && r.db.users.Keys == db.users.Keys - {username}
            && r.db.sessions.Keys == db.sessions.Keys - {username}
            && (forall k :: k in r.db.users ==> r.db.users[k] == db.users[k])
            && (forall k :: k in r.db.sessions ==> r.db.sessions[k] == db.sessions[k])
            && r.db.(users := db.users, sessions := db.sessions) == db)
  {
    if username in db.users && !db.users[username].isSuperAdmin {
      assert ChangedRowsOk(db, WithoutUser(db, username));
    }
  }

  lemma DeleteUserKeepsMirror(db: Db, username: string)
    requires SessionsMirrorUsers(db)
    ensures SessionsMirrorUsers(DeleteUser(db, username).db)
  {
  }

  // ---------------------------------------------------------------------
  // The field loop shared by the two update endpoints

  /** The optional user fields of an update request, in the declaration
      order of the self-update request. */
  datatype UserFields = UserFields(
    username: Patch<string>,
    trueName: Patch<string>,
    gender: Patch<string>,
    age: Patch<int>,
    employeeId: Patch<string>,
    isSuperAdmin: Patch<bool>)

  /** `update_current_user`'s request: the fields and the password change. */
  datatype SelfUpdate = SelfUpdate(fields: UserFields, currentPassword: Option<string>, newPassword: Option<string>)

  /** `update_user`'s request; it has no username field. */
  datatype AdminUpdate = AdminUpdate(
    employeeId: Patch<string>,
    trueName: Patch<string>,
    gender: Patch<string>,
    age: Patch<int>,
    isSuperAdmin: Patch<bool>,
    resetPassword: bool)

  function AdminFields(a: AdminUpdate): UserFields
  {
    UserFields(Unset, a.trueName, a.gender, a.age, a.employeeId, a.isSuperAdmin)
  }

  /** Some field was sent, possibly as null: the request's field
      dictionary is not empty. */
  predicate FieldsSent(p: UserFields)
  {
    !p.username.Unset? || !p.trueName.Unset? || !p.gender.Unset? || !p.age.Unset? ||
    !p.employeeId.Unset? || !p.isSuperAdmin.Unset?
  }

  datatype UserField = Username | TrueName | Gender | Age | EmployeeId | SuperAdmin

  /** The order in which each endpoint's loop visits the fields. */
  const SelfUpdateOrder: seq<UserField> := [Username, TrueName, Gender, Age, EmployeeId, SuperAdmin]
  const AdminUpdateOrder: seq<UserField> := [EmployeeId, TrueName, Gender, Age, SuperAdmin]

  /** The user object the loop edits, with the username it will be stored under. */
  datatype Draft = Draft(name: string, user: User)

  datatype Edit = Edited(draft: Draft) | Failed(code: int)

  /** Which refusals the loop applies: none (administrator), the
      self-update's as written, or the self-update's as intended. */
  datatype Guard = Unguarded | SelfGuardAsWritten | SelfGuard

  /** A non-null value replaces the current one; null and absent keep it. */
  function Put<T>(current: T, p: Patch<T>): T
  {
    if p.SetTo? then p.value else current
  }

  function SetField(d: Draft, p: UserFields, f: UserField): Draft
  {
    match f
    case Username => d.(name := Put(d.name, p.username))
    case TrueName => d.(user := d.user.(trueName := Put(d.user.trueName, p.trueName)))
    case Gender => d.(user := d.user.(gender := Put(d.user.gender, p.gender)))
    case Age => d.(user := d.user.(age := if p.age.SetTo? then Some(p.age.value) else d.user.age))
    case EmployeeId => d.(user := d.user.(employeeId := Put(d.user.employeeId, p.employeeId)))
    case SuperAdmin => d.(user := d.user.(isSuperAdmin := Put(d.user.isSuperAdmin, p.isSuperAdmin)))
  }

  /** The self-update's refusals, checked on the object as the loop has
      left it: an employee id change unless the user is a super-admin, and
      an isSuperAdmin value of false. As intended, true is refused too
      unless the user already is a super-admin. */
  predicate FieldRefused(d: Draft, p: UserFields, f: UserField, g: Guard)
  {
    g != Unguarded &&
    match f
    case EmployeeId => p.employeeId.SetTo? && !d.user.isSuperAdmin
    case SuperAdmin => p.isSuperAdmin.SetTo? && (!p.isSuperAdmin.value || (g == SelfGuard && !d.user.isSuperAdmin))
    case _ => false
  }

  /** One iteration of the `setattr` loop. */
  function EditField(d: Draft, p: UserFields, f: UserField, g: Guard): Edit
  {
    if FieldRefused(d, p, f, g) then Failed(400) else Edited(SetField(d, p, f))
  }

  /** The loop over `fields`, in order, stopping at the first refusal. */
  function EditFields(d: Draft, p: UserFields, fields: seq<UserField>, g: Guard): Edit
  {
    if fields == [] then Edited(d)
    else
      match EditFields(d, p, fields[..|fields| - 1], g)
      case Failed(code) => Failed(code)
      case Edited(d1) => EditField(d1, p, fields[|fields| - 1], g)
  }

  lemma EditFieldsSnoc(d: Draft, p: UserFields, fields: seq<UserField>, f: UserField, g: Guard)
    ensures EditFields(d, p, fields + [f], g)
         == if EditFields(d, p, fields, g).Failed? then EditFields(d, p, fields, g)
            else EditField(EditFields(d, p, fields, g).draft, p, f, g)
  {
    assert (fields + [f])[..|fields|] == fields;
  }

  /** A refusal ends the loop: the fields after it are not visited. */
  lemma {:induction false} EditFieldsStopped(d: Draft, p: UserFields, fields: seq<UserField>, i: nat, g: Guard)
    requires i <= |fields| && EditFields(d, p, fields[..i], g).Failed?
    ensures EditFields(d, p, fields, g) == EditFields(d, p, fields[..i], g)
    decreases |fields|
  {
    if i < |fields| {
      var front := fields[..|fields| - 1];
      assert front[..i] == fields[..i];
      EditFieldsStopped(d, p, front, i, g);
    } else {
      assert fields[..i] == fields;
    }
  }

  /** The object after the loop when nothing is refused: every non-null
      field sent takes its new value, every other keeps its old one. */
  function Applied(d: Draft, p: UserFields): Draft
  {
    Draft(Put(d.name, p.username),
          User(Put(d.user.employeeId, p.employeeId), Put(d.user.trueName, p.trueName), Put(d.user.gender, p.gender),
               if p.age.SetTo? then Some(p.age.value) else d.user.age,
               Put(d.user.isSuperAdmin, p.isSuperAdmin), d.user.passwordHash))
  }

  /** The loop's refusals in closed form, judged on the user it starts from. */
  predicate Refused(u: User, p: UserFields, g: Guard)
  {
    g != Unguarded &&
    ((p.employeeId.SetTo? && !u.isSuperAdmin) ||
     (p.isSuperAdmin.SetTo? && (!p.isSuperAdmin.value || (g == SelfGuard && !u.isSuperAdmin))))
  }

  /** The self-update loop: 400 when a field is refused, and otherwise the
      object with every sent field applied. */
  lemma SelfOrderResult(d: Draft, p: UserFields, g: Guard)
    ensures EditFields(d, p, SelfUpdateOrder, g) == if Refused(d.user, p, g) then Failed(400) else Edited(Applied(d, p))
  {
    var d1 := SetField(d, p, Username);
    var d2 := SetField(d1, p, TrueName);
    var d3 := SetField(d2, p, Gender);
    var d4 := SetField(d3, p, Age);
    EditFieldsSnoc(d, p, [], Username, g);
    assert [] + [Username] == [Username];
    EditFieldsSnoc(d, p, [Username], TrueName, g);
    assert [Username] + [TrueName] == [Username, TrueName];
    EditFieldsSnoc(d, p, [Username, TrueName], Gender, g);
    assert [Username, TrueName] + [Gender] == [Username, TrueName, Gender];
    EditFieldsSnoc(d, p, [Username, TrueName, Gender], Age, g);
    assert [Username, TrueName, Gender] + [Age] == SelfUpdateOrder[..4];
    assert EditFields(d, p, SelfUpdateOrder[..4], g) == Edited(d4);
    EditFieldsSnoc(d, p, SelfUpdateOrder[..4], EmployeeId, g);
    assert SelfUpdateOrder[..4] + [EmployeeId] == SelfUpdateOrder[..5];
    if FieldRefused(d4, p, EmployeeId, g) {
      EditFieldsStopped(d, p, SelfUpdateOrder, 5, g);
    } else {
      var d5 := SetField(d4, p, EmployeeId);
      EditFieldsSnoc(d, p, SelfUpdateOrder[..5], SuperAdmin, g);
      assert SelfUpdateOrder[..5] + [SuperAdmin] == SelfUpdateOrder;
    }
  }

  /** The administrator's loop refuses nothing and applies every sent field. */
  lemma AdminOrderResult(d: Draft, a: AdminUpdate)
    ensures EditFields(d, AdminFields(a), AdminUpdateOrder, Unguarded) == Edited(Applied(d, AdminFields(a)))
  {
    var p := AdminFields(a);
    EditFieldsSnoc(d, p, [], EmployeeId, Unguarded);
    assert [] + [EmployeeId] == [EmployeeId];
    EditFieldsSnoc(d, p, [EmployeeId], TrueName, Unguarded);
    assert [EmployeeId] + [TrueName] == [EmployeeId, TrueName];
    EditFieldsSnoc(d, p, [EmployeeId, TrueName], Gender, Unguarded);
    assert [EmployeeId, TrueName] + [Gender] == [EmployeeId, TrueName, Gender];
    EditFieldsSnoc(d, p, [EmployeeId, TrueName, Gender], Age, Unguarded);
    assert [EmployeeId, TrueName, Gender] + [Age] == AdminUpdateOrder[..4];
    EditFieldsSnoc(d, p, AdminUpdateOrder[..4], SuperAdmin, Unguarded);
    assert AdminUpdateOrder[..4] + [SuperAdmin] == AdminUpdateOrder;
  }

  /** The checks after the loop. */
  predicate NegativeAge(p: Patch<int>)
  {
    p.SetTo? && p.value < 0
  }

  /** An empty gender string is falsy and slips past the check. */
  predicate InvalidGender(p: Patch<string>)
  {
    p.SetTo? && p.value != "" && p.value != "male" && p.value != "female"
  }

  /** A present, non-empty string. */
  predicate Truthy(s: Option<string>)
  {
    s.Some? && s.value != ""
  }

  /** The users table after the edited object is flushed under its
      (possibly new) primary key. */
  function StoredUsers(users: map<string, User>, current: string, d: Draft): map<string, User>
  {
    (users - {current})[d.name := d.user]
  }

  /** The bulk update of the session row: when fields were sent it takes
      the user's username, employee id and flag. */
  function StoredSessions(sessions: map<string, LoginedUser>, current: string, d: Draft, sent: bool): map<string, LoginedUser>
  {
    if sent && current in sessions then
      (sessions - {current})[d.name := sessions[current].(employeeId := d.user.employeeId, isSuperAdmin := d.user.isSuperAdmin)]
    else sessions
  }

  /** A rename onto a primary key already in use fails at the flush. */
  predicate RenameClash(db: Db, current: string, name: string)
  {
    name != current && (name in db.users || (current in db.sessions && name in db.sessions))
  }

  // ---------------------------------------------------------------------
  // update_current_user

  /** `update_current_user` for the caller `current`, with guard `g`: the
      password change first (400 without the current password, 401 when
      it does not verify), then the field loop, then the age and gender
      checks, then the flush and commit (500 on a refused key or unique
      column). */
  function SelfUpdateWith(db: Db, hash: Hasher, current: string, req: SelfUpdate, g: Guard): Reply
    requires current in db.users
  {
    if Truthy(req.newPassword) && !Truthy(req.currentPassword) then Reply(400, db)
    else if Truthy(req.newPassword) && !VerifyPassword(hash, req.currentPassword.value, db.users[current].passwordHash) then Reply(401, db)
    else
      var u0 := if Truthy(req.newPassword) then db.users[current].(passwordHash := GetPasswordHash(hash, req.newPassword.value))
                else db.users[current];
      match EditFields(Draft(current, u0), req.fields, SelfUpdateOrder, g)
      case Failed(code) => Reply(code, db)
      case Edited(d) =>
        if NegativeAge(req.fields.age) || InvalidGender(req.fields.gender) then Reply(400, db)
        else if RenameClash(db, current, d.name) then Reply(500, db)
        else CommitReply(db, db.(users := StoredUsers(db.users, current, d),
                                 sessions := StoredSessions(db.sessions, current, d, FieldsSent(req.fields))), 500)
  }

  /** The endpoint as written: an isSuperAdmin of false is refused, true is
      accepted from anyone. */
  function UpdateCurrentUserAsWritten(db: Db, hash: Hasher, current: string, req: SelfUpdate): Reply
    requires current in db.users
  {
    SelfUpdateWith(db, hash, current, req, SelfGuardAsWritten)
  }

  /** The endpoint as its error message says it is meant to be: a user who
      is not a super-admin cannot make themselves one. */
  function UpdateCurrentUser(db: Db, hash: Hasher, current: string, req: SelfUpdate): Reply
    requires current in db.users
  {
    SelfUpdateWith(db, hash, current, req, SelfGuard)
  }

  /** The user an accepted self-update stores. */
  function SelfUpdated(u: User, hash: Hasher, req: SelfUpdate): User
  {
    User(Put(u.employeeId, req.fields.employeeId), Put(u.trueName, req.fields.trueName), Put(u.gender, req.fields.gender),
         if req.fields.age.SetTo? then Some(req.fields.age.value) else u.age,
         u.isSuperAdmin,
         if Truthy(req.newPassword) then GetPasswordHash(hash, req.newPassword.value) else u.passwordHash)
  }

  /** The self-update's answers: the password rules (400 / 401), the field
      rules (400), the age and gender rules (400); a refused request
      changes nothing; an accepted one stores the user under the requested
      name with exactly the fields sent, a new password's hash, and the
      super-admin flag unchanged, and leaves every other user, every other
      session row and every other table alone. The caller's session row
      follows the new name only when some field was sent; a password-only
      change leaves the session table as it was. */
  lemma UpdateCurrentUserSpec(db: Db, hash: Hasher, current: string, req: SelfUpdate)
    requires DbOk(db) && current in db.users
    ensures var r := UpdateCurrentUser(db, hash, current, req);
      var u := db.users[current];
      var p := req.fields;
      && (Truthy(req.newPassword) && !Truthy(req.currentPassword) ==> r == Reply(400, db))
      && (Truthy(req.newPassword) && Truthy(req.currentPassword) && !VerifyPassword(hash, req.currentPassword.value, u.passwordHash) ==>
            r == Reply(401, db))
      && (p.isSuperAdmin == SetTo(false) ==> r.code == 400 || r.code == 401)
      && (p.employeeId.SetTo? && !u.isSuperAdmin ==> r.code == 400 || r.code == 401)
      && (NegativeAge(p.age) || InvalidGender(p.gender) ==> r.code == 400 || r.code == 401)
      && (r.code != 200 ==> r.db == db && (r.code == 400 || r.code == 401 || r.code == 500))
      && (r.code == 200 ==>
            var name := Put(current, p.username);
            && r.db.users.Keys == db.users.Keys - {current} + {name}
            && r.db.users[name] == SelfUpdated(u, hash, req)
            && (Truthy(req.newPassword) ==> VerifyPassword(hash, req.newPassword.value, r.db.users[name].passwordHash))
            && (forall k :: k in db.users && k != current ==> r.db.users[k] == db.users[k])
            && (forall k :: k in db.sessions && k != current ==> k in r.db.sessions && r.db.sessions[k] == db.sessions[k])
            && r.db.sessions.Keys
               == (if FieldsSent(p) && current in db.sessions then db.sessions.Keys - {current} + {name} else db.sessions.Keys)
            && (!FieldsSent(p) ==> r.db.sessions == db.sessions)
            && r.db.(users := db.users, sessions := db.sessions) == db
            && DbOk(r.db))
  {
    SelfUpdateRefusals(db, hash, current, req);
    SelfUpdateStored(db, hash, current, req);
  }

  /** The refusals of a self-update, and that a refusal changes nothing. */
  lemma SelfUpdateRefusals(db: Db, hash: Hasher, current: string, req: SelfUpdate)
    requires current in db.users
    ensures var r := UpdateCurrentUser(db, hash, current, req);
      var u := db.users[current];
      var p := req.fields;
      && (Truthy(req.newPassword) && !Truthy(req.currentPassword) ==> r == Reply(400, db))
      && (Truthy(req.newPassword) && Truthy(req.currentPassword) && !VerifyPassword(hash, req.currentPassword.value, u.passwordHash) ==>
            r == Reply(401, db))
      && (p.isSuperAdmin == SetTo(false) ==> r.code == 400 || r.code == 401)
      && (p.employeeId.SetTo? && !u.isSuperAdmin ==> r.code == 400 || r.code == 401)
      && (NegativeAge(p.age) || InvalidGender(p.gender) ==> r.code == 400 || r.code == 401)
      && (r.code != 200 ==> r.db == db && (r.code == 400 || r.code == 401 || r.code == 500))
  {
    var u0 := if Truthy(req.newPassword) then db.users[current].(passwordHash := GetPasswordHash(hash, req.newPassword.value))
              else db.users[current];
    SelfOrderResult(Draft(current, u0), req.fields, SelfGuard);
  }

  /** What an accepted self-update stores. */
  lemma SelfUpdateStored(db: Db, hash: Hasher, current: string, req: SelfUpdate)
    requires DbOk(db) && current in db.users
    ensures var r := UpdateCurrentUser(db, hash, current, req);
      var u := db.users[current];
      r.code == 200 ==>
        var name := Put(current, req.fields.username);
        && r.db.users.Keys == db.users.Keys - {current} + {name}
        && r.db.users[name] == SelfUpdated(u, hash, req)
        && (Truthy(req.newPassword) ==> VerifyPassword(hash, req.newPassword.value, r.db.users[name].passwordHash))
        && (forall k :: k in db.users && k != current ==> r.db.users[k] == db.users[k])
        && (forall k :: k in db.sessions && k != current ==> k in r.db.sessions && r.db.sessions[k] == db.sessions[k])
        && r.db.sessions.Keys
           == (if FieldsSent(req.fields) && current in db.sessions then db.sessions.Keys - {current} + {name} else db.sessions.Keys)
        && (!FieldsSent(req.fields) ==> r.db.sessions == db.sessions)
        && r.db.(users := db.users, sessions := db.sessions) == db
        && DbOk(r.db)
  {
    var u0 := if Truthy(req.newPassword) then db.users[current].(passwordHash := GetPasswordHash(hash, req.newPassword.value))
              else db.users[current];
    SelfOrderResult(Draft(current, u0), req.fields, SelfGuard);
    var r := UpdateCurrentUser(db, hash, current, req);
    if r.code == 200 {
      var d := Applied(Draft(current, u0), req.fields);
      assert r.db.users == StoredUsers(db.users, current, d);
      assert r.db.sessions == StoredSessions(db.sessions, current, d, FieldsSent(req.fields));
      assert !RenameClash(db, current, d.name);
      StoredSessionsFrame(db.sessions, current, d, FieldsSent(req.fields));
      CommitOutcome(db, r.db, 500);
    }
  }

  /** Flushing a session row under a name no other row holds keeps every
      other row, moves the caller's row only when fields were sent, and
      otherwise leaves the table as it was. */
  lemma StoredSessionsFrame(sessions: map<string, LoginedUser>, current: string, d: Draft, sent: bool)
    requires !(d.name != current && current in sessions && d.name in sessions)
    ensures var after := StoredSessions(sessions, current, d, sent);
      && (forall k :: k in sessions && k != current ==> k in after && after[k] == sessions[k])
      && after.Keys == (if sent && current in sessions then sessions.Keys - {current} + {d.name} else sessions.Keys)
      && (!sent ==> after == sessions)
  {
  }

  /** The converse: a self-update that passes every check, renames onto no
      username in use and takes no other user's employee id is accepted. */
  lemma UpdateCurrentUserAccepted(db: Db, hash: Hasher, current: string, req: SelfUpdate)
    requires DbOk(db) && SessionsMirrorUsers(db) && current in db.users
    requires !Truthy(req.newPassword) ||
             (Truthy(req.currentPassword) && VerifyPassword(hash, req.currentPassword.value, db.users[current].passwordHash))
    requires !Refused(db.users[current], req.fields, SelfGuard)
    requires !NegativeAge(req.fields.age) && !InvalidGender(req.fields.gender)
    requires !RenameClash(db, current, Put(current, req.fields.username))
    requires forall k :: k in db.users && k != current ==>
               db.users[k].employeeId != Put(db.users[current].employeeId, req.fields.employeeId)
    ensures UpdateCurrentUser(db, hash, current, req).code == 200
  {
    var u0 := if Truthy(req.newPassword) then db.users[current].(passwordHash := GetPasswordHash(hash, req.newPassword.value))
              else db.users[current];
    SelfOrderResult(Draft(current, u0), req.fields, SelfGuard);
    var d := Applied(Draft(current, u0), req.fields);
    StoredRowsOk(db, current, d, FieldsSent(req.fields));
  }

  /** After an accepted self-update that sent any field, the caller's
      session row (renamed with the user) carries the user's employee id
      and flag, and keeps its token and expiry. */
  lemma UpdateCurrentUserMirrorsSession(db: Db, hash: Hasher, current: string, req: SelfUpdate)
    requires current in db.users && current in db.sessions && FieldsSent(req.fields)
    ensures var r := UpdateCurrentUser(db, hash, current, req);
      var name := Put(current, req.fields.username);
      r.code == 200 ==>
        && name in r.db.sessions && name in r.db.users
        && r.db.sessions[name].employeeId == r.db.users[name].employeeId
        && r.db.sessions[name].isSuperAdmin == r.db.users[name].isSuperAdmin
        && r.db.sessions[name].token == db.sessions[current].token
        && r.db.sessions[name].expirationTime == db.sessions[current].expirationTime
        && (name != current ==> current !in r.db.sessions)
  {
    var u0 := if Truthy(req.newPassword) then db.users[current].(passwordHash := GetPasswordHash(hash, req.newPassword.value))
              else db.users[current];
    SelfOrderResult(Draft(current, u0), req.fields, SelfGuard);
  }

  /** Storing an edited user keeps the sessions in step, provided the
      session row is rewritten whenever the employee id or flag changed. */
  lemma StoredKeepsMirror(db: Db, current: string, d: Draft, sent: bool)
    requires SessionsMirrorUsers(db) && current in db.users
    requires !RenameClash(db, current, d.name)
    requires sent || (d.name == current && d.user.employeeId == db.users[current].employeeId
                      && d.user.isSuperAdmin == db.users[current].isSuperAdmin)
    ensures SessionsMirrorUsers(db.(users := StoredUsers(db.users, current, d),
                                    sessions := StoredSessions(db.sessions, current, d, sent)))
  {
    var users := StoredUsers(db.users, current, d);
    var sessions := StoredSessions(db.sessions, current, d, sent);
    forall k | k in sessions
      ensures k in users && sessions[k].employeeId == users[k].employeeId && sessions[k].isSuperAdmin == users[k].isSuperAdmin
    {
      if k != d.name {
        assert k in db.sessions && k != current;
      }
    }
  }

  /** Storing an edited user passes the commit's checks when the new name
      is free and no other user holds the new employee id. */
  lemma StoredRowsOk(db: Db, current: string, d: Draft, sent: bool)
    requires SessionsMirrorUsers(db) && current in db.users
    requires !RenameClash(db, current, d.name)
    requires forall k :: k in db.users && k != current ==> db.users[k].employeeId != d.user.employeeId
    ensures ChangedRowsOk(db, db.(users := StoredUsers(db.users, current, d),
                                  sessions := StoredSessions(db.sessions, current, d, sent)))
  {
  }

  /** A self-update keeps every session row in step with its user. */
  lemma UpdateCurrentUserKeepsMirror(db: Db, hash: Hasher, current: string, req: SelfUpdate)
    requires SessionsMirrorUsers(db) && current in db.users
    ensures SessionsMirrorUsers(UpdateCurrentUser(db, hash, current, req).db)
  {
    var u0 := if Truthy(req.newPassword) then db.users[current].(passwordHash := GetPasswordHash(hash, req.newPassword.value))
              else db.users[current];
    SelfOrderResult(Draft(current, u0), req.fields, SelfGuard);
    var d := Applied(Draft(current, u0), req.fields);
    if UpdateCurrentUser(db, hash, current, req).code == 200 {
      StoredKeepsMirror(db, current, d, FieldsSent(req.fields));
    }
  }

  /** As intended: a self-update never changes the caller's super-admin flag. */
  lemma SelfUpdateKeepsRole(db: Db, hash: Hasher, current: string, req: SelfUpdate)
    requires current in db.users
    ensures var r := UpdateCurrentUser(db, hash, current, req);
      r.code == 200 ==>
        var name := Put(current, req.fields.username);
        name in r.db.users && r.db.users[name].isSuperAdmin == db.users[current].isSuperAdmin
  {
    var u0 := if Truthy(req.newPassword) then db.users[current].(passwordHash := GetPasswordHash(hash, req.newPassword.value))
              else db.users[current];
    SelfOrderResult(Draft(current, u0), req.fields, SelfGuard);
  }

  /** The request that only asks for the super-admin flag. */
  function PromotionRequest(): SelfUpdate
  {
    SelfUpdate(UserFields(Unset, Unset, Unset, Unset, Unset, SetTo(true)), None, None)
  }

  /** The intended endpoint refuses a self-promotion with 400. */
  lemma SelfPromotionRefused(db: Db, hash: Hasher, current: string)
    requires current in db.users && !db.users[current].isSuperAdmin
    ensures UpdateCurrentUser(db, hash, current, PromotionRequest()) == Reply(400, db)
  {
    SelfOrderResult(Draft(current, db.users[current]), PromotionRequest().fields, SelfGuard);
  }

  /** As written, any logged-in user who is not a super-admin can make
      themselves one, and the session row then grants administrator access;
      the intended endpoint refuses the same request with 400. */
  lemma SelfPromotionAsWritten(db: Db, hash: Hasher, current: string)
    requires DbOk(db) && SessionsMirrorUsers(db)
    requires current in db.users && current in db.sessions && !db.users[current].isSuperAdmin
    ensures var r := UpdateCurrentUserAsWritten(db, hash, current, PromotionRequest());
      && r.code == 200
      && current in r.db.users && r.db.users[current].isSuperAdmin
      && current in r.db.sessions && r.db.sessions[current].isSuperAdmin
    ensures UpdateCurrentUser(db, hash, current, PromotionRequest()) == Reply(400, db)
  {
    var p := PromotionRequest().fields;
    var d := Draft(current, db.users[current]);
    SelfPromotionRefused(db, hash, current);
    SelfOrderResult(d, p, SelfGuardAsWritten);
    var a := Applied(d, p);
    assert a == Draft(current, db.users[current].(isSuperAdmin := true));
    var after := db.(users := StoredUsers(db.users, current, a), sessions := StoredSessions(db.sessions, current, a, true));
    assert after.users == db.users[current := a.user];
    assert after.sessions == db.sessions[current := db.sessions[current].(isSuperAdmin := true)];
    StoredRowsOk(db, current, a, true);
  }

  // ---------------------------------------------------------------------
  // update_user (administrator)

  /** `update_user`: 404 for an absent user; `reset_password` sets the hash
      of the username itself; the loop copies every non-null field; then
      the age and gender checks; the user's session row, if any, takes the
      new employee id and flag when any field was sent; then the commit. */
  function UpdateUser(db: Db, hash: Hasher, username: string, req: AdminUpdate): Reply
  {
    if username !in db.users then Reply(404, db)
    else
      var u0 := if req.resetPassword then db.users[username].(passwordHash := GetPasswordHash(hash, username))
                else db.users[username];
      var p := AdminFields(req);
      match EditFields(Draft(username, u0), p, AdminUpdateOrder, Unguarded)
      case Failed(code) => Reply(code, db)
      case Edited(d) =>
        if NegativeAge(p.age) || InvalidGender(p.gender) then Reply(400, db)
        else CommitReply(db, db.(users := StoredUsers(db.users, username, d),
                                 sessions := StoredSessions(db.sessions, username, d, FieldsSent(p))), 500)
  }

  /** The user the administrator's update stores. */
  function AdminUpdated(u: User, hash: Hasher, username: string, req: AdminUpdate): User
  {
    User(Put(u.employeeId, req.employeeId), Put(u.trueName, req.trueName), Put(u.gender, req.gender),
         if req.age.SetTo? then Some(req.age.value) else u.age,
         Put(u.isSuperAdmin, req.isSuperAdmin),
         if req.resetPassword then GetPasswordHash(hash, username) else u.passwordHash)
  }

  /** The administrator's update: 404 for an absent user, 400 for a
      negative age or an unknown gender; otherwise the user gets exactly
      the non-null fields sent and a reset password becomes the username,
      and no other user or table changes. A refused commit (an employee
      id in use) is 500 and changes nothing. */
  lemma UpdateUserSpec(db: Db, hash: Hasher, username: string, req: AdminUpdate)
    requires DbOk(db)
    ensures var r := UpdateUser(db, hash, username, req);
      && (r.code == 404 <==> username !in db.users)
      && (username in db.users && (NegativeAge(req.age) || InvalidGender(req.gender)) ==> r == Reply(400, db))
      && (r.code != 200 ==> r.db == db && (r.code == 400 || r.code == 404 || r.code == 500))
      && (r.code == 200 ==>
            && username in db.users
            && r.db.users == db.users[username := AdminUpdated(db.users[username], hash, username, req)]
            && (req.resetPassword ==> VerifyPassword(hash, username, r.db.users[username].passwordHash))
            && r.db.(sessions := db.sessions, users := db.users) == db
            && DbOk(r.db))
  {
    if username in db.users {
      var u0 := if req.resetPassword then db.users[username].(passwordHash := GetPasswordHash(hash, username))
                else db.users[username];
      AdminOrderResult(Draft(username, u0), req);
      var d := Applied(Draft(username, u0), AdminFields(req));
      assert d.name == username && d.user == AdminUpdated(db.users[username], hash, username, req);
      assert StoredUsers(db.users, username, d) == db.users[username := d.user];
      var r := UpdateUser(db, hash, username, req);
      CommitOutcome(db, r.db, 500);
    }
  }

  /** The converse: an administrator's update of an existing user with a
      valid age and gender that takes no other user's employee id is
      accepted. */
  lemma UpdateUserAccepted(db: Db, hash: Hasher, username: string, req: AdminUpdate)
    requires DbOk(db) && SessionsMirrorUsers(db) && username in db.users
    requires !NegativeAge(req.age) && !InvalidGender(req.gender)
    requires forall k :: k in db.users && k != username ==>
               db.users[k].employeeId != Put(db.users[username].employeeId, req.employeeId)
    ensures UpdateUser(db, hash, username, req).code == 200
  {
    var u0 := if req.resetPassword then db.users[username].(passwordHash := GetPasswordHash(hash, username))
              else db.users[username];
    AdminOrderResult(Draft(username, u0), req);
    var d := Applied(Draft(username, u0), AdminFields(req));
    assert d.name == username;
    StoredRowsOk(db, username, d, FieldsSent(AdminFields(req)));
  }

  /** After an accepted administrator's update the user's session row, if
      any, keeps its token and expiry and, when any field was sent, takes
      the user's new employee id and flag; other session rows are untouched.
      With no field sent (a password reset alone) the session table is
      left as it was. */
  lemma UpdateUserSessions(db: Db, hash: Hasher, username: string, req: AdminUpdate)
    ensures var r := UpdateUser(db, hash, username, req);
      r.code == 200 ==>
        && username in r.db.users
        && r.db.sessions.Keys == db.sessions.Keys
        && (forall k :: k in db.sessions && k != username ==> r.db.sessions[k] == db.sessions[k])
        && (username in db.sessions ==>
              && r.db.sessions[username].token == db.sessions[username].token
              && r.db.sessions[username].expirationTime == db.sessions[username].expirationTime)
        && (username in db.sessions && FieldsSent(AdminFields(req)) ==>
              && r.db.sessions[username].employeeId == r.db.users[username].employeeId
              && r.db.sessions[username].isSuperAdmin == r.db.users[username].isSuperAdmin)
        && (!FieldsSent(AdminFields(req)) ==> r.db.sessions == db.sessions)
  {
    if username in db.users {
      var u0 := if req.resetPassword then db.users[username].(passwordHash := GetPasswordHash(hash, username))
                else db.users[username];
      AdminOrderResult(Draft(username, u0), req);
    }
  }

  /** The administrator's update keeps every session row in step with its user. */
  lemma UpdateUserKeepsMirror(db: Db, hash: Hasher, username: string, req: AdminUpdate)
    requires SessionsMirrorUsers(db)
    ensures SessionsMirrorUsers(UpdateUser(db, hash, username, req).db)
  {
    if username in db.users {
      var u0 := if req.resetPassword then db.users[username].(passwordHash := GetPasswordHash(hash, username))
                else db.users[username];
      AdminOrderResult(Draft(username, u0), req);
      var d := Applied(Draft(username, u0), AdminFields(req));
      assert d.name == username;
      if UpdateUser(db, hash, username, req).code == 200 {
        StoredKeepsMirror(db, username, d, FieldsSent(AdminFields(req)));
      }
    }
  }

  // ---------------------------------------------------------------------
  // The handlers on the store

  method CreateUserHandler(s: Store, hash: Hasher, username: string, req: NewUser) returns (code: int)
    modifies s
    ensures Reply(code, s.State()) == CreateUser(old(s.State()), hash, username, req)
  {
    if username in s.users {
      return 400;
    }
    if exists k :: k in s.users && s.users[k].employeeId == req.employeeId {
      return 400;
    }
    var saved := s.State();
    s.users := s.users[username := User(req.employeeId, req.trueName, req.gender, Some(req.age), req.isSuperAdmin,
                                        GetPasswordHash(hash, req.password))];
    code := s.CommitChanges(saved, 500);
  }

  method DeleteUserHandler(s: Store, username: string) returns (code: int)
    modifies s
    ensures Reply(code, s.State()) == DeleteUser(old(s.State()), username)
  {
    if username !in s.users {
      return 404;
    }
    if s.users[username].isSuperAdmin {
      return 403;
    }
    var saved := s.State();
    s.users := s.users - {username};
    if username in s.sessions {
      s.sessions := s.sessions - {username};
    }
    code := s.CommitChanges(saved, 400);
  }

  /** One iteration of the self-update's `setattr` loop: the employee id
      and flag guards, then the assignment of a field that was sent. */
  method SelfEditOne(d: Draft, p: UserFields, f: UserField) returns (e: Edit)
    ensures e == EditField(d, p, f, SelfGuard)
  {
    e := Edited(d);
    match f
    case Username =>
      if p.username.SetTo? {
        e := Edited(d.(name := p.username.value));
      }
    case TrueName =>
      if p.trueName.SetTo? {
        e := Edited(d.(user := d.user.(trueName := p.trueName.value)));
      }
    case Gender =>
      if p.gender.SetTo? {
        e := Edited(d.(user := d.user.(gender := p.gender.value)));
      }
    case Age =>
      if p.age.SetTo? {
        e := Edited(d.(user := d.user.(age := Some(p.age.value))));
      }
    case EmployeeId =>
      if p.employeeId.SetTo? {
        if !d.user.isSuperAdmin {
          return Failed(400);
        }
        e := Edited(d.(user := d.user.(employeeId := p.employeeId.value)));
      }
    case SuperAdmin =>
      if p.isSuperAdmin.SetTo? {
        if !p.isSuperAdmin.value || !d.user.isSuperAdmin {
          return Failed(400);
        }
        e := Edited(d.(user := d.user.(isSuperAdmin := p.isSuperAdmin.value)));
      }
  }

  method UpdateCurrentUserHandler(s: Store, hash: Hasher, current: string, req: SelfUpdate) returns (code: int)
    requires current in s.users
    modifies s
    ensures Reply(code, s.State()) == UpdateCurrentUser(old(s.State()), hash, current, req)
  {
    var saved := s.State();
    var user := s.users[current];
    if Truthy(req.newPassword) {
      if !Truthy(req.currentPassword) {
        return 400;
      }
      if !VerifyPassword(hash, req.currentPassword.value, user.passwordHash) {
        return 401;
      }
      user := user.(passwordHash := GetPasswordHash(hash, req.newPassword.value));
    }
    var p := req.fields;
    var start := Draft(current, user);
    var d := start;
    var order := SelfUpdateOrder;
    for i := 0 to |order|
      invariant EditFields(start, p, order[..i], SelfGuard) == Edited(d)
      invariant s.State() == saved
    {
      var e := SelfEditOne(d, p, order[i]);
      EditFieldsSnoc(start, p, order[..i], order[i], SelfGuard);
      assert order[..i] + [order[i]] == order[..i + 1];
      if e.Failed? {
        EditFieldsStopped(start, p, order, i + 1, SelfGuard);
        return 400;
      }
      d := e.draft;
    }
    assert order[..|order|] == order;
    if NegativeAge(p.age) || InvalidGender(p.gender) {
      return 400;
    }
    if d.name != current && (d.name in s.users || (current in s.sessions && d.name in s.sessions)) {
      return 500;
    }
    s.users := (s.users - {current})[d.name := d.user];
    if FieldsSent(p) && current in s.sessions {
      var row := s.sessions[current];
      s.sessions := (s.sessions - {current})[d.name := row.(employeeId := d.user.employeeId, isSuperAdmin := d.user.isSuperAdmin)];
    }
    code := s.CommitChanges(saved, 500);
  }

  method UpdateUserHandler(s: Store, hash: Hasher, username: string, req: AdminUpdate) returns (code: int)
    modifies s
    ensures Reply(code, s.State()) == UpdateUser(old(s.State()), hash, username, req)
  {
    if username !in s.users {
      return 404;
    }
    var saved := s.State();
    var user := s.users[username];
    if req.resetPassword {
      user := user.(passwordHash := GetPasswordHash(hash, username));
    }
    var p := AdminFields(req);
    var start := Draft(username, user);
    var d := start;
    var order := AdminUpdateOrder;
    for i := 0 to |order|
      invariant EditFields(start, p, order[..i], Unguarded) == Edited(d)
      invariant s.State() == saved
    {
      EditFieldsSnoc(start, p, order[..i], order[i], Unguarded);
      assert order[..i] + [order[i]] == order[..i + 1];
      match order[i]
      case Username =>
        // the administrator's request carries no username
      case TrueName =>
        if p.trueName.SetTo? {
          d := d.(user := d.user.(trueName := p.trueName.value));
        }
      case Gender =>
        if p.gender.SetTo? {
          d := d.(user := d.user.(gender := p.gender.value));
        }
      case Age =>
        if p.age.SetTo? {
          d := d.(user := d.user.(age := Some(p.age.value)));
        }
      case EmployeeId =>
        if p.employeeId.SetTo? {
          d := d.(user := d.user.(employeeId := p.employeeId.value));
        }
      case SuperAdmin =>
        if p.isSuperAdmin.SetTo? {
          d := d.(user := d.user.(isSuperAdmin := p.isSuperAdmin.value));
        }
    }
    assert order[..|order|] == order;
    if NegativeAge(p.age) || InvalidGender(p.gender) {
      return 400;
    }
    s.users := (s.users - {username})[d.name := d.user];
    if FieldsSent(p) && username in s.sessions {
      var row := s.sessions[username];
      s.sessions := (s.sessions - {username})[d.name := row.(employeeId := d.user.employeeId, isSuperAdmin := d.user.isSuperAdmin)];
    }
    code := s.CommitChanges(saved, 500);
  }
}
