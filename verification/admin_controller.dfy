/** The admin page and the three user-management actions behind it. Each
    handler checks again that the caller is an admin before touching the store. */
module AdminController {
  import opened JsRuntime
  import opened UserModel
  import AuthAdmin
  import Express

  /** The message the admin page shows after an action. */
  datatype Message =
    | UserDeleted | DeleteImpossible
    | UserUpdated | UpdateImpossible
    | PasswordUpdated | PasswordTooShort | UserNotFound | PasswordUpdateFailed

  /** What a handler answers: the 403 error page, the admin page (the viewer,
      the user list and a message), or a redirect to the home page. */
  datatype Page = Forbidden | AdminView(viewer: User, users: seq<User>, message: Option<Message>) | RedirectHome

  /** `me && (me.role || "user") === "admin"`. */
  predicate IsAdmin(me: Option<User>)
    ensures IsAdmin(me) <==> me.Some? && me.value.role == Some("admin")
  {
    me.Some? && EffectiveRole(me.value.role) == "admin"
  }

  /** The handlers' own check lets through exactly whom the route guard lets through. */
  lemma HandlerCheckMatchesGuard(me: Option<User>)
    ensures IsAdmin(me) <==> AuthAdmin.RequireAdmin(me) == Express.Next
  {
  }

  /** `renderAdminPage`: 403 for a non-admin, otherwise the list of every user. */
  function RenderAdminPage(me: Option<User>, users: seq<User>): (p: Page)
    ensures p == Forbidden <==> !(me.Some? && me.value.role == Some("admin"))
    ensures p != Forbidden ==> p == AdminView(me.value, users, None)
  {
    if !IsAdmin(me) then Forbidden else AdminView(me.value, users, None)
  }

  /** `deleteUser`: 403 and no change for a non-admin; otherwise removes every
      record with the id and reports success exactly when one was removed. */
  method DeleteUser(store: UserStore, me: Option<User>, id: string) returns (page: Page)
    modifies store
    ensures !IsAdmin(me) ==> page == Forbidden && store.users == old(store.users)
    ensures IsAdmin(me) ==>
      var removed := IndexOfId(old(store.users), id) != -1;
      store.users == (if removed then WithoutId(old(store.users), id) else old(store.users)) &&
      page == AdminView(me.value, store.users, Some(if removed then UserDeleted else DeleteImpossible))
  {
    if !IsAdmin(me) {
      return Forbidden;
    }
    var ok := store.RemoveUserById(id);
    var users := store.users;
    page := AdminView(me.value, users, Some(if ok then UserDeleted else DeleteImpossible));
  }

  /** The fields of the update form; a missing field is `undefined`. */
  datatype UpdateBody = UpdateBody(nom: Option<string>, email: Option<string>, role: Option<string>)

  /** `role === "admin" || role === "user" ? role : undefined`. */
  function RoleField(role: Option<string>): (r: Option<string>)
    ensures r.Some? <==> role == Some("admin") || role == Some("user")
    ensures r.Some? ==> r == role
  {
    if role == Some("admin") || role == Some("user") then role else None
  }

  /** `updateUser`: 403 and no change for a non-admin. Otherwise the target
      record is patched (name and email when given, the role only when it is
      "admin" or "user"); when the admin has just made their own record a
      "user" the answer is a redirect to the home page, the session being left
      as it is; otherwise the admin page with a success or failure message. */
  method UpdateUser(store: UserStore, me: Option<User>, id: string, body: UpdateBody) returns (page: Page)
    modifies store
    ensures !IsAdmin(me) ==> page == Forbidden && store.users == old(store.users)
    ensures IsAdmin(me) && IndexOfId(old(store.users), id) == -1 ==>
      store.users == old(store.users) && page == AdminView(me.value, store.users, Some(UpdateImpossible))
    ensures IsAdmin(me) && 0 <= IndexOfId(old(store.users), id) ==>
      var k := IndexOfId(old(store.users), id);
      store.users == old(store.users)[k := Patched(old(store.users)[k], Patch(body.nom, body.email, RoleField(body.role)))] &&
      store.users[k].role == (if body.role == Some("admin") || body.role == Some("user") then body.role
                              else old(store.users)[k].role) &&
      (page == RedirectHome <==> me.value.id == id && store.users[k].role == Some("user")) &&
      (page != RedirectHome ==> page == AdminView(me.value, store.users, Some(UserUpdated)))
  {
    if !IsAdmin(me) {
      return Forbidden;
    }
    var updated := store.UpdateUserById(id, Patch(body.nom, body.email, RoleField(body.role)));
    var users := store.users;
    if updated.Some? && me.value.id == id && updated.value.role == Some("user") {
      return RedirectHome;
    }
    page := AdminView(me.value, users, Some(if updated.Some? then UserUpdated else UpdateImpossible));
  }

  /** `updateUserPassword`: 403 and no change for a non-admin. A missing new
      password or one shorter than 6 UTF-16 code units (`.length`) gives the "too short" message,
      an unknown id the "not found" message, both without change; otherwise
      only the target's password hash is replaced. `hashed` stands for
      `bcrypt.hash(newPassword, 10)`. */
  method UpdateUserPassword(store: UserStore, me: Option<User>, id: string,
                            newPassword: Option<string>, hashed: string) returns (page: Page)
    modifies store
    ensures !IsAdmin(me) ==> page == Forbidden && store.users == old(store.users)
    ensures IsAdmin(me) && (newPassword.None? || Utf16Length(newPassword.value) < 6) ==>
      store.users == old(store.users) && page == AdminView(me.value, store.users, Some(PasswordTooShort))
    ensures IsAdmin(me) && newPassword.Some? && Utf16Length(newPassword.value) >= 6 &&
            IndexOfId(old(store.users), id) == -1 ==>
      store.users == old(store.users) && page == AdminView(me.value, store.users, Some(UserNotFound))
    ensures IsAdmin(me) && newPassword.Some? && Utf16Length(newPassword.value) >= 6 &&
            0 <= IndexOfId(old(store.users), id) ==>
      var k := IndexOfId(old(store.users), id);
      store.users == old(store.users)[k := old(store.users)[k].(password := hashed)] &&
      page == AdminView(me.value, store.users, Some(PasswordUpdated))
  {
    if !IsAdmin(me) {
      return Forbidden;
    }
    var msg := PasswordUpdated;
    if newPassword.None? || Utf16Length(newPassword.value) < 6 {
      msg := PasswordTooShort;
    } else {
      var found := FindUserById(store.users, id);
      if found.None? {
        msg := UserNotFound;
      } else {
        var ok := store.SetPasswordById(id, hashed);
        if !ok {
          msg := PasswordUpdateFailed;
        }
      }
    }
    var users := store.users;
    page := AdminView(me.value, users, Some(msg));
  }

  /** The length rule counts UTF-16 code units: three emoji make six, which is
      long enough, while three letters are too short. */
  lemma PasswordLengthCountsCodeUnits()
    ensures Utf16Length("\U{1F600}\U{1F600}\U{1F600}") == 6
    ensures |"\U{1F600}\U{1F600}\U{1F600}"| == 3
    ensures Utf16Length("abc") == 3
  {
    var e := "\U{1F600}";
    assert e + e + e == "\U{1F600}\U{1F600}\U{1F600}";
    Utf16LengthAppend(e, e);
    Utf16LengthAppend(e + e, e);
    assert "abc" == "a" + "b" + "c";
    Utf16LengthAppend("a", "b");
    Utf16LengthAppend("a" + "b", "c");
  }
}
