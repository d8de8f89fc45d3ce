/**
 * The authentication routes (backend/routes/auth.js) over the User collection:
 * signup, signin, password change, user deletion, user listing and logout.
 * Hashing is abstracted: a stored password matches exactly the password it
 * was set from. Tokens are opaque: they carry the user id and the expiry.
 */
module Auth {
  import opened Wrappers
  import opened Seqs

  /** A stored user document. */
  datatype User = User(id: nat, username: string, email: string, password: string, role: string)

  /** A user as the API shows it: everything but the password. */
  datatype PublicUser = PublicUser(id: nat, username: string, email: string, role: string)

  /** A signed token: its only claim is the user id; `expiresIn` is "7d" or "1d". */
  datatype Token = Token(userId: nat, expiresIn: string)

  datatype ReplyBody = Message(text: string) | Session(token: Token, user: PublicUser) | Users(list: seq<PublicUser>)

  /** An HTTP status and the JSON the handler sends. */
  datatype Reply = Reply(status: int, body: ReplyBody)

  /** The User collection: documents in natural order and the next id to hand out. */
  datatype Db = Db(users: seq<User>, nextId: nat)

  const InvalidCredentials := Reply(400, Message("Invalid credentials"))
  const UserNotFound := Reply(404, Message("User not found"))

  /** The role whitelist of signup: only "admin" and "user" are accepted. */
  predicate AllowedRole(role: string) {
    role == "admin" || role == "user"
  }

  /** The User model's password comparison, with hashing abstracted away. */
  predicate PasswordMatches(stored: string, candidate: string) {
    stored == candidate
  }

  /** The lookup of a single user by email address. */
  function FindByEmail(users: seq<User>, email: string): Option<nat> {
    FirstIndex(users, (u: User) => u.email == email)
  }

  /** The lookup of a single user by id, as the delete-by-id query does. */
  function FindById(users: seq<User>, id: nat): Option<nat> {
    FirstIndex(users, (u: User) => u.id == id)
  }

  function Public(u: User): PublicUser {
    PublicUser(u.id, u.username, u.email, u.role)
  }

  /** The collection's invariant: distinct ids below `nextId`, distinct emails, whitelisted roles. */
  predicate DbValid(db: Db) {
    && (forall i :: 0 <= i < |db.users| ==> db.users[i].id < db.nextId && AllowedRole(db.users[i].role))
    && (forall i, j :: 0 <= i < j < |db.users| ==> db.users[i].id != db.users[j].id)
    && (forall i, j :: 0 <= i < j < |db.users| ==> db.users[i].email != db.users[j].email)
  }

  predicate HasEmail(db: Db, email: string) {
    exists i :: 0 <= i < |db.users| && db.users[i].email == email
  }

  predicate HasId(db: Db, id: nat) {
    exists i :: 0 <= i < |db.users| && db.users[i].id == id
  }

  /**
   * POST /signup. The role is checked before the database is consulted;
   * `fault` is an error the database raises.
   */
  function SignupStep(db: Db, username: string, email: string, password: string, role: string,
                      fault: Option<string>): (res: (Reply, Db))
    ensures !AllowedRole(role) ==> res == (Reply(403, Message("Unauthorized role")), db)
    ensures AllowedRole(role) && fault.Some? ==> res == (Reply(500, Message(fault.value)), db)
    ensures AllowedRole(role) && fault.None? && HasEmail(db, email) ==>
      res == (Reply(400, Message("User already exists")), db)
    ensures res.0.status == 200 <==> AllowedRole(role) && fault.None? && !HasEmail(db, email)
    ensures res.0.status == 200 ==>
      && res.1.users == db.users + [User(db.nextId, username, email, password, role)]
      && res.0.body == Session(Token(db.nextId, "7d"), PublicUser(db.nextId, username, email, role))
    ensures res.0.status != 200 ==> res.1 == db
    ensures DbValid(db) ==> DbValid(res.1)
  {
    if !AllowedRole(role) then (Reply(403, Message("Unauthorized role")), db)
    else if fault.Some? then (Reply(500, Message(fault.value)), db)
    else if FindByEmail(db.users, email).Some? then (Reply(400, Message("User already exists")), db)
    else
      var user := User(db.nextId, username, email, password, role);
      (Reply(200, Session(Token(user.id, "7d"), PublicUser(user.id, username, email, role))),
       Db(db.users + [user], db.nextId + 1))
  }

  /** POST /signin. Changes nothing. */
  function SigninReply(db: Db, email: string, password: string, fault: Option<string>): (r: Reply)
    ensures fault.Some? ==> r == Reply(500, Message(fault.value))
    ensures fault.None? && !HasEmail(db, email) ==> r == InvalidCredentials
    ensures r.status == 200 <==>
      fault.None? && FindByEmail(db.users, email).Some?
      && PasswordMatches(db.users[FindByEmail(db.users, email).value].password, password)
    ensures r.status == 200 ==>
      var u := db.users[FindByEmail(db.users, email).value];
      r.body == Session(Token(u.id, "1d"), PublicUser(u.id, u.username, email, u.role))
    ensures fault.None? && r.status != 200 ==> r == InvalidCredentials
  {
    if fault.Some? then Reply(500, Message(fault.value))
    else match FindByEmail(db.users, email)
      case None => InvalidCredentials
      case Some(i) =>
        var u := db.users[i];
        if !PasswordMatches(u.password, password) then InvalidCredentials
        else Reply(200, Session(Token(u.id, "1d"), PublicUser(u.id, u.username, email, u.role)))
  }

  /** POST /changepassword: overwrites the password, with no check of the old one. */
  function ChangePasswordStep(db: Db, email: string, newPassword: string, fault: Option<string>): (res: (Reply, Db))
    ensures fault.Some? ==> res == (Reply(500, Message(fault.value)), db)
    ensures fault.None? && !HasEmail(db, email) ==> res == (UserNotFound, db)
    ensures res.0.status == 200 <==> fault.None? && HasEmail(db, email)
    ensures res.0.status == 200 ==>
      var i := FindByEmail(db.users, email).value;
      && res.0.body == Message("Password updated successfully")
      && res.1 == Db(db.users[i := db.users[i].(password := newPassword)], db.nextId)
    ensures res.0.status != 200 ==> res.1 == db
    ensures DbValid(db) ==> DbValid(res.1)
  {
    if fault.Some? then (Reply(500, Message(fault.value)), db)
    else match FindByEmail(db.users, email)
      case None => (UserNotFound, db)
      case Some(i) =>
        (Reply(200, Message("Password updated successfully")),
         Db(db.users[i := db.users[i].(password := newPassword)], db.nextId))
  }

  /** Removing one user keeps ids and emails distinct, ids below `nextId` and roles allowed. */
  lemma RemoveAtKeepsValid(db: Db, i: nat)
    requires i < |db.users|
    ensures DbValid(db) ==> DbValid(Db(db.users[..i] + db.users[i + 1..], db.nextId))
  {
    var users' := db.users[..i] + db.users[i + 1..];
    assert forall k :: 0 <= k < |users'| ==> users'[k] == db.users[if k < i then k else k + 1];
  }

  /** DELETE /users/:id */
  function DeleteUserStep(db: Db, id: nat, fault: Option<string>): (res: (Reply, Db))
    ensures fault.Some? ==> res == (Reply(500, Message(fault.value)), db)
    ensures fault.None? && !HasId(db, id) ==> res == (UserNotFound, db)
    ensures res.0.status == 200 <==> fault.None? && HasId(db, id)
    ensures res.0.status == 200 ==>
      var i := FindById(db.users, id).value;
      && res.0.body == Message("User deleted successfully")
      && res.1 == Db(db.users[..i] + db.users[i + 1..], db.nextId)
    ensures res.0.status != 200 ==> res.1 == db
    ensures DbValid(db) ==> DbValid(res.1)
  {
    if fault.Some? then (Reply(500, Message(fault.value)), db)
    else match FindById(db.users, id)
      case None => (UserNotFound, db)
      case Some(i) =>
        var users' := db.users[..i] + db.users[i + 1..];
        RemoveAtKeepsValid(db, i);
        (Reply(200, Message("User deleted successfully")), Db(users', db.nextId))
  }

  /** GET /users: every user, in natural order, without the password. */
  function ListUsersReply(db: Db, fault: Option<string>): (r: Reply)
    ensures fault.None? ==> r.status == 200 && r.body.Users? && |r.body.list| == |db.users|
    ensures r.body.Users? ==>
      && |r.body.list| == |db.users|
      && (forall i :: 0 <= i < |db.users| ==>
            var u := db.users[i];
            r.body.list[i] == PublicUser(u.id, u.username, u.email, u.role))
    ensures fault.Some? ==> r == Reply(500, Message(fault.value))
  {
    if fault.Some? then Reply(500, Message(fault.value))
    else Reply(200, Users(PublicList(db.users)))
  }

  /** Every user with the password field projected away. */
  function PublicList(users: seq<User>): (r: seq<PublicUser>) {
    seq(|users|, i requires 0 <= i < |users| => Public(users[i]))
  }

  const LogoutReply := Reply(200, Message("Logged out successfully. Please remove token on client side."))

  /** The invariant keeps the email lookup pointing at the only user with that email. */
  lemma FindByEmailUnique(db: Db, i: nat)
    requires DbValid(db) && i < |db.users|
    ensures FindByEmail(db.users, db.users[i].email) == Some(i)
  {
    assert forall j :: 0 <= j < |db.users| && j != i ==> db.users[j].email != db.users[i].email;
  }

  /**
   * Signing in with an unknown email and signing in with a known email but a
   * wrong password give the same reply: the two cannot be told apart.
   */
  lemma SigninFailuresIndistinguishable(db: Db, unknown: string, password: string,
                                        known: string, wrong: string)
    requires !HasEmail(db, unknown)
    requires FindByEmail(db.users, known).Some?
    requires !PasswordMatches(db.users[FindByEmail(db.users, known).value].password, wrong)
    ensures SigninReply(db, unknown, password, None) == SigninReply(db, known, wrong, None) == InvalidCredentials
  {
  }

  /** The email lookup depends only on the users' emails, position by position. */
  lemma FindByEmailSameEmails(a: seq<User>, b: seq<User>, email: string)
    requires |a| == |b|
    requires forall k :: 0 <= k < |a| ==> a[k].email == b[k].email
    ensures FindByEmail(a, email) == FindByEmail(b, email)
  {
  }

  /**
   * After a password change, the new password signs in and the old one, when
   * different, is refused.
   */
  lemma ChangePasswordThenSignin(db: Db, email: string, oldPassword: string, newPassword: string)
    requires FindByEmail(db.users, email).Some?
    requires PasswordMatches(db.users[FindByEmail(db.users, email).value].password, oldPassword)
    ensures var db' := ChangePasswordStep(db, email, newPassword, None).1;
      && SigninReply(db', email, newPassword, None).status == 200
      && (oldPassword != newPassword ==> SigninReply(db', email, oldPassword, None) == InvalidCredentials)
  {
    var i := FindByEmail(db.users, email).value;
    var db' := ChangePasswordStep(db, email, newPassword, None).1;
    FindByEmailSameEmails(db.users, db'.users, email);
  }

  /** A fresh signup can sign in at once with the same password and gets its role back. */
  lemma SignupThenSignin(db: Db, username: string, email: string, password: string, role: string)
    requires DbValid(db) && AllowedRole(role) && !HasEmail(db, email)
    ensures var db' := SignupStep(db, username, email, password, role, None).1;
      var r := SigninReply(db', email, password, None);
      && r.status == 200
      && r.body.user == PublicUser(db.nextId, username, email, role)
  {
    var db' := SignupStep(db, username, email, password, role, None).1;
    assert db'.users[|db.users|].email == email;
    FindByEmailUnique(db', |db.users|);
  }

  /** A deleted id no longer appears in the user listing. */
  lemma DeletedUserNotListed(db: Db, id: nat)
    requires DbValid(db) && HasId(db, id)
    ensures var db' := DeleteUserStep(db, id, None).1;
      forall p :: p in ListUsersReply(db', None).body.list ==> p.id != id
  {
    var i := FindById(db.users, id).value;
    var db' := DeleteUserStep(db, id, None).1;
    var list := ListUsersReply(db', None).body.list;
    forall p | p in list ensures p.id != id {
      var k :| 0 <= k < |list| && list[k] == p;
      assert db'.users[k] == db.users[if k < i then k else k + 1];
    }
  }

  /**
   * The end-to-end scenario: signup("alice", "a@x.com", "pw1", "admin"), then
   * signin with "pw1" yields role "admin"; after changepassword to "pw2",
   * "pw1" is refused and "pw2" signs in.
   */
  lemma AliceScenario(db: Db)
    requires DbValid(db) && !HasEmail(db, "a@x.com")
    ensures var db1 := SignupStep(db, "alice", "a@x.com", "pw1", "admin", None).1;
      var db2 := ChangePasswordStep(db1, "a@x.com", "pw2", None).1;
      && SigninReply(db1, "a@x.com", "pw1", None).status == 200
      && SigninReply(db1, "a@x.com", "pw1", None).body.user.role == "admin"
      && SigninReply(db2, "a@x.com", "pw1", None) == InvalidCredentials
      && SigninReply(db2, "a@x.com", "pw2", None).status == 200
  {
    SignupThenSignin(db, "alice", "a@x.com", "pw1", "admin");
    var db1 := SignupStep(db, "alice", "a@x.com", "pw1", "admin", None).1;
    ChangePasswordThenSignin(db1, "a@x.com", "pw1", "pw2");
  }

  /** The User collection behind the routes. */
  class UserCollection {
    var users: seq<User>
    var nextId: nat

    function State(): Db
      reads this
    {
      Db(users, nextId)
    }

    predicate Valid()
      reads this
    {
      DbValid(State())
    }

    constructor ()
      ensures Valid() && users == []
    {
      users := [];
      nextId := 0;
    }

    method Signup(username: string, email: string, password: string, role: string, fault: Option<string>)
      returns (reply: Reply)
      requires Valid()
      modifies this
      ensures Valid()
      ensures (reply, State()) == SignupStep(old(State()), username, email, password, role, fault)
    {
      if !AllowedRole(role) {
        return Reply(403, Message("Unauthorized role"));
      }
      if fault.Some? {
        return Reply(500, Message(fault.value));
      }
      var existing := FindByEmail(users, email);
      if existing.Some? {
        return Reply(400, Message("User already exists"));
      }
      var user := User(nextId, username, email, password, role);
      users := users + [user];
      nextId := nextId + 1;
      reply := Reply(200, Session(Token(user.id, "7d"), PublicUser(user.id, username, email, role)));
    }

    method Signin(email: string, password: string, fault: Option<string>) returns (reply: Reply)
      ensures reply == SigninReply(State(), email, password, fault)
      ensures fault.None? && reply.status != 200 ==> reply == InvalidCredentials
    {
      if fault.Some? {
        return Reply(500, Message(fault.value));
      }
      var found := FindByEmail(users, email);
      if found.None? {
        return InvalidCredentials;
      }
      var user := users[found.value];
      if !PasswordMatches(user.password, password) {
        return InvalidCredentials;
      }
      reply := Reply(200, Session(Token(user.id, "1d"), PublicUser(user.id, user.username, email, user.role)));
    }

    method ChangePassword(email: string, newPassword: string, fault: Option<string>) returns (reply: Reply)
      requires Valid()
      modifies this
      ensures Valid()
      ensures (reply, State()) == ChangePasswordStep(old(State()), email, newPassword, fault)
    {
      if fault.Some? {
        return Reply(500, Message(fault.value));
      }
      var found := FindByEmail(users, email);
      if found.None? {
        return UserNotFound;
      }
      var i := found.value;
      users := users[i := users[i].(password := newPassword)];
      reply := Reply(200, Message("Password updated successfully"));
    }

    method DeleteUser(id: nat, fault: Option<string>) returns (reply: Reply)
      requires Valid()
      modifies this
      ensures Valid()
      ensures (reply, State()) == DeleteUserStep(old(State()), id, fault)
    {
      if fault.Some? {
        return Reply(500, Message(fault.value));
      }
      var found := FindById(users, id);
      if found.None? {
        return UserNotFound;
      }
      var i := found.value;
      assert DeleteUserStep(State(), id, fault).1.users == users[..i] + users[i + 1..];
      users := users[..i] + users[i + 1..];
      reply := Reply(200, Message("User deleted successfully"));
    }

    method ListUsers(fault: Option<string>) returns (reply: Reply)
      ensures reply == ListUsersReply(State(), fault)
      ensures reply.body.Users? ==> forall i :: 0 <= i < |users| ==> reply.body.list[i] == Public(users[i])
    {
      if fault.Some? {
        return Reply(500, Message(fault.value));
      }
      reply := Reply(200, Users(PublicList(users)));
    }

    /** POST /logout: the token is dropped on the client; nothing here changes. */
    method Logout() returns (reply: Reply)
      ensures reply == LogoutReply && reply.status == 200
    {
      reply := LogoutReply;
    }
  }
}
