/** The session-to-user middleware and the two authenticated guards. */
module Auth {
  import opened JsRuntime
  import opened UserModel
  import opened Express

  /** `Number(req.session.userId)`; None stands for NaN (a missing id included). */
  function SessionNumber(raw: Option<string>): (r: Option<int>)
    ensures raw.None? ==> r.None?
    ensures raw == Some("") ==> r == Some(0)
    ensures raw.Some? && |raw.value| >= 1 && AllDigits(raw.value) ==> r == Some(DigitsValue(raw.value))
  {
    if raw.None? then None else ParseNumber(raw.value)
  }

  /** `users.findIndex(x => Number(x.id) === n)`. */
  function NumericIndex(users: seq<User>, n: int): (k: int)
    ensures -1 <= k < |users|
    ensures k == -1 <==> forall j :: 0 <= j < |users| ==> ParseNumber(users[j].id) != Some(n)
    ensures 0 <= k ==> ParseNumber(users[k].id) == Some(n) &&
                       forall j :: 0 <= j < k ==> ParseNumber(users[j].id) != Some(n)
  {
    FindIndex(users, (u: User) => ParseNumber(u.id) == Some(n))
  }

  /** The user `attachUser` puts on the request, given the session's `userId`
      and what `getUsers` gave (None when it threw). A missing, zero or
      non-numeric id, a failed load and an id nobody has all leave the request
      anonymous; otherwise it is the first record whose numeric id matches. */
  function ResolveSessionUser(raw: Option<string>, loaded: Option<seq<User>>): (r: Option<User>)
    ensures r.Some? <==>
      SessionNumber(raw).Some? && SessionNumber(raw).value != 0 && loaded.Some? &&
      NumericIndex(loaded.value, SessionNumber(raw).value) != -1
    ensures r.Some? ==>
      var k := NumericIndex(loaded.value, SessionNumber(raw).value);
      r.value == loaded.value[k] && ParseNumber(r.value.id) == SessionNumber(raw)
  {
    var id := SessionNumber(raw);
    if id.None? || id.value == 0 then None
    else if loaded.None? then None
    else
      var k := NumericIndex(loaded.value, id.value);
      if k < 0 then None else Some(loaded.value[k])
  }

  /** `attachUser`: sets `req.user` when the session resolves to a stored user,
      leaves it as it was otherwise, and always ends in `next()`. */
  method AttachUser(req: Request, loaded: Option<seq<User>>) returns (o: Outcome)
    modifies req
    ensures o == Next
    ensures var r := ResolveSessionUser(req.session.userId, loaded);
      req.user == (if r.Some? then r else old(req.user))
  {
    var raw := req.session.userId;
    var id := SessionNumber(raw);
    if id.None? || id.value == 0 {
      return Next;
    }
    if loaded.Some? {
      var users := loaded.value;
      var k := NumericIndex(users, id.value);
      if k >= 0 {
        req.user := Some(users[k]);
      }
    }
    o := Next;
  }

  /** `ensureAuthenticated`: continues exactly when a user is attached, 401 otherwise. */
  function EnsureAuthenticated(user: Option<User>): (o: Outcome)
    ensures o == Next <==> user.Some?
    ensures o == Status(401) <==> user.None?
  {
    if user.Some? then Next else Status(401)
  }

  /** `ensureAuthenticatedPage`: continues exactly when a user is attached,
      redirects to the login page otherwise. */
  function EnsureAuthenticatedPage(user: Option<User>): (o: Outcome)
    ensures o == Next <==> user.Some?
    ensures o == Redirect("/login") <==> user.None?
  {
    if user.Some? then Next else Redirect("/login")
  }
}
