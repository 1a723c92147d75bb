/** Login, registration and logout: the handlers that set and clear the
    session's user. */
module UserController {
  import opened JsRuntime
  import opened UserModel
  import opened Express

  // ---------------------------------------------------------------------------
  // login

  datatype LoginReply =
    | LoginInvalid                                // 400, the validation chain failed
    | LoginRefused                                // 401, unknown email or wrong password
    | LoggedIn(redirect: string, user: SessionUser)

  /** The session snapshot `{ id, nom, email, role }` of a record, with the
      role falling back to "user"; it carries no password. */
  function Snapshot(u: User): (s: SessionUser)
    ensures s.id == u.id && s.nom == u.nom && s.email == u.email
    ensures s.role == EffectiveRole(u.role)
    ensures u.role.None? ==> s.role == "user"
  {
    SessionUser(u.id, u.nom, u.email, EffectiveRole(u.role))
  }

  /** `login`. `valid` is the outcome of the validation chain and `compare`
      stands for `bcrypt.compare`. An email no record has (compared in lower
      case) or a password that does not match gives 401 and leaves the session
      alone; on success the session is regenerated and gets the user's id and
      snapshot, and the reply carries the same role as the snapshot. */
  method Login(users: seq<User>, session: Session, valid: bool, email: string, password: string,
               compare: (string, string) -> bool) returns (reply: LoginReply)
    modifies session
    ensures !valid ==> reply == LoginInvalid && unchanged(session)
    ensures valid && FindUserByEmail(users, email).None? ==> reply == LoginRefused && unchanged(session)
    ensures valid && FindUserByEmail(users, email).Some? &&
            !compare(password, FindUserByEmail(users, email).value.password) ==>
      reply == LoginRefused && unchanged(session)
    ensures valid && FindUserByEmail(users, email).Some? &&
            compare(password, FindUserByEmail(users, email).value.password) ==>
      var u := FindUserByEmail(users, email).value;
      session.userId == Some(u.id) && session.user == Some(Snapshot(u)) && !session.destroyed &&
      reply == LoggedIn("/", Snapshot(u))
    ensures reply.LoggedIn? ==> session.user == Some(reply.user)
  {
    if !valid {
      return LoginInvalid;
    }
    var found := FindUserByEmail(users, email);
    if found.None? {
      return LoginRefused;
    }
    var user := found.value;
    if !compare(password, user.password) {
      return LoginRefused;
    }
    // regenerate: a fresh session that keeps nothing of the old one
    session.userId, session.user, session.destroyed := None, None, false;
    session.userId := Some(user.id);
    var sessionUser := SessionUser(user.id, user.nom, user.email, "");
    if user.role.Some? && user.role.value != "" {
      sessionUser := sessionUser.(role := user.role.value);
    } else {
      sessionUser := sessionUser.(role := "user");
    }
    session.user := Some(sessionUser);
    var roleSafe := "user";
    if user.role.Some? && user.role.value != "" {
      roleSafe := user.role.value;
    }
    reply := LoggedIn("/", SessionUser(user.id, user.nom, user.email, roleSafe));
  }

  // ---------------------------------------------------------------------------
  // register

  datatype RegisterReply =
    | RegisterInvalid                             // 400, the validation chain failed
    | EmailTaken                                  // 409
    | Registered(redirect: string, id: int, nom: string, email: string)

  /** The record `register` stores: the `Date.now()` id, the hashed password
      and role "user". */
  function NewAccount(nom: string, email: string, hashed: string, now: int): (u: RawUser)
    ensures Normalize(u) == User(IntToString(now), nom, email, hashed, Some("user"), 0)
    ensures ParseNumber(Normalize(u).id) == Some(now)
  {
    ParseNumberOfIntToString(now);
    RawUser(NumId(now), nom, email, hashed, Some("user"), None)
  }

  /** `register`. `valid` is the outcome of the validation chain, `hashed`
      stands for `bcrypt.hash(password, 10)` and `now` for `Date.now()`. An
      email already used (in lower case) gives 409 and adds nothing; otherwise
      one record is appended with a string id, the hash, role "user" and 0 points. */
  method Register(store: UserStore, valid: bool, nom: string, email: string, hashed: string, now: int)
    returns (reply: RegisterReply)
    modifies store
    ensures !valid ==> reply == RegisterInvalid && store.users == old(store.users)
    ensures valid && FindUserByEmail(old(store.users), email).Some? ==>
      reply == EmailTaken && store.users == old(store.users)
    ensures valid && FindUserByEmail(old(store.users), email).None? ==>
      store.users == old(store.users) + [User(IntToString(now), nom, email, hashed, Some("user"), 0)] &&
      reply == Registered("/login", now, nom, email)
  {
    if !valid {
      return RegisterInvalid;
    }
    var found := FindUserByEmail(store.users, email);
    if found.Some? {
      return EmailTaken;
    }
    var newUser := NewAccount(nom, email, hashed, now);
    var _ := store.AddUser(newUser);
    reply := Registered("/login", now, nom, email);
  }

  /** An account that `register` has just added is the one a later login with
      the same email finds. */
  lemma {:induction false} RegisteredEmailIsFound(users: seq<User>, account: User, email: string)
    requires FindUserByEmail(users, email).None?
    requires account.email == email
    ensures FindUserByEmail(users + [account], email) == Some(account)
  {
    var s := users + [account];
    forall j | 0 <= j < |users| ensures Lower(s[j].email) != Lower(email) {
      assert s[j] == users[j];
    }
    assert s[|users|] == account;
  }

  /** Registration keeps emails unique without regard to case. */
  lemma RegisterKeepsEmailsUnique(users: seq<User>, account: User)
    requires forall i, j :: 0 <= i < j < |users| ==> Lower(users[i].email) != Lower(users[j].email)
    requires FindUserByEmail(users, account.email).None?
    ensures var s := users + [account];
      forall i, j :: 0 <= i < j < |s| ==> Lower(s[i].email) != Lower(s[j].email)
  {
  }

  // ---------------------------------------------------------------------------
  // logout

  /** `logout`: clears the session's `userId` and `user`, destroys it, and
      redirects to the login page. */
  method Logout(session: Session) returns (o: Outcome)
    modifies session
    ensures session.userId == None && session.user == None && session.destroyed
    ensures o == Redirect("/login")
  {
    session.userId := None;
    session.user := None;
    session.destroyed := true;
    o := Redirect("/login");
  }
}
