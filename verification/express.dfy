/** The framework objects the handlers read and change: how a middleware ends,
    the session bag and the request. */
module Express {
  import opened JsRuntime
  import opened UserModel

  /** How a middleware ends: `next()`, a status answer, or a redirect. */
  datatype Outcome = Next | Status(code: int) | Redirect(location: string)

  /** The user snapshot `login` keeps in the session; it has no password field. */
  datatype SessionUser = SessionUser(id: string, nom: string, email: string, role: string)

  /** `req.session`: the attributes the handlers set, and whether it was destroyed. */
  class Session {
    var userId: Option<string>
    var user: Option<SessionUser>
    var destroyed: bool

    constructor ()
      ensures userId == None && user == None && !destroyed
    {
      userId, user, destroyed := None, None, false;
    }
  }

  /** A request: its session and the user `attachUser` may put on it. */
  class Request {
    const session: Session
    var user: Option<User>

    constructor (session: Session)
      ensures this.session == session && user == None
    {
      this.session := session;
      user := None;
    }
  }
}
