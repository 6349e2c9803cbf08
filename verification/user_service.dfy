/**
 * The user service: registration with unique usernames and emails, lookups that never expose
 * the password hash, partial updates and deletion. `hashPassword` is a parameter `hash`: the
 * model only records that the stored value is its output.
 */
module UserService {
  import opened Wrappers
  import opened Records
  import opened Sequences
  import opened Store
  import opened SetClause

  /** `SELECT * FROM users WHERE username = $1 OR email = $2` finds a row. */
  predicate Taken(users: seq<User>, username: string, email: string) {
    exists u :: u in users && (u.username == username || u.email == email)
  }

  /** The uniqueness check, then `INSERT INTO users (username, email, password_hash) ... RETURNING` the public columns. */
  method CreateUser(db: Database, data: UserCreateData, hash: string -> string, now: int) returns (r: Result<UserPublic, Error>)
    requires db.Valid()
    modifies db`users, db`nextUserId
    ensures db.Valid()
    ensures r.Success? <==> !Taken(old(db.users), data.username, data.email)
    ensures r.Failure? ==> r.error == UsernameOrEmailTaken && db.users == old(db.users) && db.nextUserId == old(db.nextUserId)
    ensures r.Success? ==>
      var row := User(old(db.nextUserId), data.username, data.email, hash(data.password), now, now);
      && db.users == old(db.users) + [row]
      && r.value == PublicUser(row)
      && db.nextUserId == old(db.nextUserId) + 1
  {
    if Taken(db.users, data.username, data.email) {
      return Failure(UsernameOrEmailTaken);
    }
    var row := User(db.nextUserId, data.username, data.email, hash(data.password), now, now);
    AppendKeepsSerial(db.users, row, UserKey, db.nextUserId);
    AppendKeepsUnique(db.users, row, UsernameKey);
    AppendKeepsUnique(db.users, row, EmailKey);
    db.users := db.users + [row];
    db.nextUserId := db.nextUserId + 1;
    r := Success(PublicUser(row));
  }

  /** `SELECT id, username, email, created_at FROM users`: every user, without the hash. */
  function GetAllUsers(users: seq<User>): (r: seq<UserPublic>)
    ensures |r| == |users|
    ensures forall i :: 0 <= i < |r| ==>
      r[i].id == users[i].id && r[i].username == users[i].username && r[i].email == users[i].email
      && r[i].createdAt == users[i].createdAt
  {
    seq(|users|, i requires 0 <= i < |users| => PublicUser(users[i]))
  }

  /** `SELECT id, username, email, created_at FROM users WHERE id = $1`, throwing when no row matches. */
  function GetUserById(users: seq<User>, id: int): (r: Result<UserPublic, Error>)
    ensures r.Success? <==> exists u :: u in users && u.id == id
    ensures r.Success? ==> exists u :: u in users && u.id == id && r.value == PublicUser(u)
    ensures r.Failure? ==> r.error == UserNotFound
  {
    var found := Filter(users, (u: User) => u.id == id);
    if found == [] then Failure(UserNotFound)
    else
      assert found[0] in found;
      Success(PublicUser(found[0]))
  }

  /**
   * `SELECT 1 FROM users WHERE (username = $1 OR email = $2) AND id != $3`. An undefined field is
   * bound as NULL and matches nothing; an empty string is compared as it is.
   */
  predicate TakenByOther(users: seq<User>, id: int, data: UserUpdateData) {
    exists u :: u in users && u.id != id &&
      ((data.username.Some? && u.username == data.username.value) || (data.email.Some? && u.email == data.email.value))
  }

  /** The check runs only when `username || email` is truthy. */
  predicate Conflicts(users: seq<User>, id: int, data: UserUpdateData) {
    (Given(data.username) || Given(data.email)) && TakenByOther(users, id, data)
  }

  /** The optional fields of `updateUser`, in the builder's order; each counts when truthy. */
  function UserCandidates(data: UserUpdateData, hash: string -> string): seq<Candidate> {
    [ Candidate("username", Given(data.username), OfString(data.username)),
      Candidate("email", Given(data.email), OfString(data.email)),
      Candidate("password_hash", Given(data.password), if Given(data.password) then Str(hash(data.password.value)) else Null) ]
  }

  /** One assignment of the SET clause, executed on a user row. */
  function SetUserColumn(u: User, c: Candidate): User {
    if c.column == "username" && c.value.Str? then u.(username := c.value.s)
    else if c.column == "email" && c.value.Str? then u.(email := c.value.s)
    else if c.column == "password_hash" && c.value.Str? then u.(passwordHash := c.value.s)
    else u
  }

  /** A user row after the SET clause: the applied assignments in order, then `updated_at = NOW()`. */
  function UserAfter(u: User, applied: seq<Candidate>, now: int): User {
    ApplyAll(u, SetUserColumn, applied).(updatedAt := now)
  }

  /** What an update does to the user it matches: non-empty fields replace the stored ones, the password by its hash. */
  function PatchUser(u: User, data: UserUpdateData, hash: string -> string, now: int): (v: User)
    ensures v.id == u.id && v.createdAt == u.createdAt && v.updatedAt == now
    ensures v.username == u.username || (Given(data.username) && v.username == data.username.value)
    ensures v.email == u.email || (Given(data.email) && v.email == data.email.value)
  {
    u.(username := if Given(data.username) then data.username.value else u.username,
       email := if Given(data.email) then data.email.value else u.email,
       passwordHash := if Given(data.password) then hash(data.password.value) else u.passwordHash,
       updatedAt := now)
  }

  /** Running the built `UPDATE users SET ...` on a row is `PatchUser`. */
  lemma UserSetClause(u: User, data: UserUpdateData, hash: string -> string, now: int)
    ensures UserAfter(u, Supplied(UserCandidates(data, hash)), now) == PatchUser(u, data, hash, now)
  {
    var c := UserCandidates(data, hash);
    var p := PatchUser(u, data, hash, now);
    var s1 := Step(u, SetUserColumn, c[0]);
    var s2 := Step(s1, SetUserColumn, c[1]);
    var s3 := Step(s2, SetUserColumn, c[2]);
    assert ApplyAll(u, SetUserColumn, Supplied(c)) == s3 by {
      assert c == [c[0], c[1], c[2]];
      ApplyInOrder3(u, SetUserColumn, c[0], c[1], c[2]);
    }
    assert s1 == u.(username := p.username);
    assert s2 == s1.(email := p.email);
    assert s3 == s2.(passwordHash := p.passwordHash);
  }

  /** Executes `UPDATE users SET <applied>, updated_at = NOW() WHERE id = id`. */
  function RunUserUpdate(users: seq<User>, applied: seq<Candidate>, id: int, now: int): seq<User> {
    MapWhere(users, (u: User) => u.id == id, (u: User) => UserAfter(u, applied, now))
  }

  /** `after` is `before` with the user whose id is `id` patched and every other row as it was. */
  ghost predicate PatchedWhere(before: seq<User>, after: seq<User>, id: int, data: UserUpdateData,
                               hash: string -> string, now: int)
  {
    && |after| == |before|
    && forall i :: 0 <= i < |before| ==>
         after[i] == if before[i].id == id then PatchUser(before[i], data, hash, now) else before[i]
  }

  /**
   * The update patches the one user with that id and, when the uniqueness check passed, keeps
   * ids SERIAL and usernames and emails unique.
   */
  lemma RunUserUpdateIsPatch(users: seq<User>, data: UserUpdateData, hash: string -> string, id: int, now: int, next: int)
    requires Serial(users, UserKey, next) && UniqueKeys(users, UsernameKey) && UniqueKeys(users, EmailKey)
    requires !Conflicts(users, id, data)
    ensures var r := RunUserUpdate(users, Supplied(UserCandidates(data, hash)), id, now);
      && PatchedWhere(users, r, id, data, hash, now)
      && Serial(r, UserKey, next) && UniqueKeys(r, UsernameKey) && UniqueKeys(r, EmailKey)
  {
    var applied := Supplied(UserCandidates(data, hash));
    var target := (u: User) => u.id == id;
    var after := (u: User) => UserAfter(u, applied, now);
    forall u: User ensures UserAfter(u, applied, now) == PatchUser(u, data, hash, now) {
      UserSetClause(u, data, hash, now);
    }
    MapWhereKeepsSerial(users, target, after, UserKey, next);
    forall i, j | 0 <= i < |users| && 0 <= j < |users| && i != j && target(users[i])
      ensures !target(users[j])
      ensures UsernameKey(after(users[i])) != UsernameKey(users[j])
      ensures EmailKey(after(users[i])) != EmailKey(users[j])
    {
      assert UserKey(users[i]) != UserKey(users[j]) by {
        if i < j {} else {}
      }
      assert users[j] in users;
      var patched := after(users[i]);
      if patched.username == users[i].username {
        assert UsernameKey(users[i]) != UsernameKey(users[j]) by {
          if i < j {} else {}
        }
      }
      if patched.email == users[i].email {
        assert EmailKey(users[i]) != EmailKey(users[j]) by {
          if i < j {} else {}
        }
      }
    }
    MapWhereKeepsUnique(users, target, after, UsernameKey);
    MapWhereKeepsUnique(users, target, after, EmailKey);
  }

  /** Runs the built `UPDATE users ... WHERE id = id` on the table. */
  method ExecuteUserUpdate(db: Database, data: UserUpdateData, hash: string -> string, id: int, now: int)
    requires db.Valid()
    requires !Conflicts(db.users, id, data)
    modifies db`users
    ensures db.Valid()
    ensures db.users == RunUserUpdate(old(db.users), Supplied(UserCandidates(data, hash)), id, now)
    ensures PatchedWhere(old(db.users), db.users, id, data, hash, now)
  {
    RunUserUpdateIsPatch(db.users, data, hash, id, now, db.nextUserId);
    db.users := RunUserUpdate(db.users, Supplied(UserCandidates(data, hash)), id, now);
  }

  /**
   * The existence check, the uniqueness check against the other users, the builder, and the
   * `UPDATE users ... WHERE id = $(k+1)`. `statement` is the `UPDATE` that was sent, when one was.
   */
  method UpdateUser(db: Database, id: int, data: UserUpdateData, hash: string -> string, now: int)
    returns (r: Result<UserPublic, Error>, statement: Option<UpdateStatement>)
    requires db.Valid()
    modifies db`users
    ensures db.Valid()
    ensures !(exists u :: u in old(db.users) && u.id == id) ==> r == Failure(UserNotFound)
    ensures (exists u :: u in old(db.users) && u.id == id) && Conflicts(old(db.users), id, data) ==>
      r == Failure(UsernameOrEmailTaken)
    ensures (exists u :: u in old(db.users) && u.id == id) && !Conflicts(old(db.users), id, data) ==>
      (Supplied(UserCandidates(data, hash)) == [] <==> r == Failure(NothingToUpdate))
    ensures r.Success? <==>
      (exists u :: u in old(db.users) && u.id == id) && !Conflicts(old(db.users), id, data)
      && Supplied(UserCandidates(data, hash)) != []
    ensures r.Failure? ==> db.users == old(db.users) && statement == None
    ensures r.Success? ==> statement.Some?
    ensures r.Success? ==> Describes(statement.value, "users", Supplied(UserCandidates(data, hash)), ["id"], [Int(id)])
    ensures r.Success? ==> PatchedWhere(old(db.users), db.users, id, data, hash, now)
    ensures r.Success? ==> exists u :: u in old(db.users) && u.id == id && r.value == PublicUser(PatchUser(u, data, hash, now))
  {
    var found := Filter(db.users, (u: User) => u.id == id);
    if found == [] {
      return Failure(UserNotFound), None;
    }
    assert found[0] in found;
    if (Given(data.username) || Given(data.email)) && TakenByOther(db.users, id, data) {
      return Failure(UsernameOrEmailTaken), None;
    }
    var built := BuildUpdate("users", UserCandidates(data, hash), ["id"], [Int(id)]);
    if built.Failure? {
      return Failure(built.error), None;
    }
    var target := found[0];
    ExecuteUserUpdate(db, data, hash, id, now);
    r, statement := Success(PublicUser(PatchUser(target, data, hash, now))), Some(built.value);
  }

  /** `DELETE FROM users WHERE id = $1`, throwing when `rowCount` is 0. */
  method DeleteUser(db: Database, id: int) returns (r: Result<(), Error>)
    requires db.Valid()
    modifies db`users
    ensures db.Valid()
    ensures r.Success? <==> exists u :: u in old(db.users) && u.id == id
    ensures r.Failure? ==> r.error == UserNotFound && db.users == old(db.users)
    ensures r.Success? ==> |db.users| == |old(db.users)| - 1
    ensures r.Success? ==> forall u :: u in db.users <==> u in old(db.users) && u.id != id
  {
    var keep := (u: User) => u.id != id;
    var kept := Filter(db.users, keep);
    FilterRemovesNothing(db.users, keep);
    if |db.users| - |kept| == 0 {
      return Failure(UserNotFound);
    }
    FilterRemovesAtMostOne(db.users, keep, UserKey, id);
    FilterKeepsSerial(db.users, keep, UserKey, db.nextUserId);
    FilterKeepsUnique(db.users, keep, UsernameKey);
    FilterKeepsUnique(db.users, keep, EmailKey);
    db.users := kept;
    r := Success(());
  }
}
