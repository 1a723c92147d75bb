/** The user table (`users.json`): records, the normalisation applied on every
    load and save, the lookups, and the store whose operations read the whole
    list, change one record or filter, and write the list back. */
module UserModel {
  import opened JsRuntime

  /** An id as it may sit in the file: `register` writes `Date.now()`, a number. */
  datatype RawId = NumId(n: int) | StrId(s: string)

  /** A record as stored in the file, before normalisation. */
  datatype RawUser = RawUser(id: RawId, nom: string, email: string, password: string,
                             role: Option<string>, points: Option<int>)

  /** A record as every operation sees it: a string id and numeric points. */
  datatype User = User(id: string, nom: string, email: string, password: string,
                       role: Option<string>, points: int)

  /** The fields `updateUserById` accepts; a missing field is `undefined`. */
  datatype Patch = Patch(nom: Option<string>, email: Option<string>, role: Option<string>)

  /** `String(u.id)`. */
  function IdString(id: RawId): (r: string)
    ensures id.StrId? ==> r == id.s
    ensures id.NumId? ==> ParseNumber(r) == Some(id.n)
  {
    match id
    case NumId(n) => ParseNumberOfIntToString(n); IntToString(n)
    case StrId(s) => s
  }

  /** `{ ...u, id: String(u.id), points: Number(u.points || 0) }`. */
  function Normalize(u: RawUser): (r: User)
    ensures r.id == IdString(u.id)
    ensures r.points == (if u.points.Some? then u.points.value else 0)
    ensures r.nom == u.nom && r.email == u.email && r.password == u.password && r.role == u.role
  {
    User(IdString(u.id), u.nom, u.email, u.password, u.role,
         if u.points.None? then 0 else u.points.value)
  }

  /** The form in which `saveUsers` writes a record back. */
  function Stored(u: User): RawUser {
    RawUser(StrId(u.id), u.nom, u.email, u.password, u.role, Some(u.points))
  }

  /** `getUsers`: every record of the file, normalised. */
  function Load(file: seq<RawUser>): (users: seq<User>)
    ensures |users| == |file|
    ensures forall i :: 0 <= i < |file| ==> users[i] == Normalize(file[i])
  {
    seq(|file|, i requires 0 <= i < |file| => Normalize(file[i]))
  }

  /** `saveUsers`: the normalisation applied again (the identity on a User,
      see NormalizeStored), then written out. */
  function Save(users: seq<User>): (file: seq<RawUser>)
    ensures |file| == |users|
    ensures forall i :: 0 <= i < |users| ==> file[i] == Stored(Normalize(Stored(users[i])))
  {
    seq(|users|, i requires 0 <= i < |users| => Stored(Normalize(Stored(users[i]))))
  }

  /** Normalising an already normalised record changes nothing. */
  lemma NormalizeStored(u: User)
    ensures Normalize(Stored(u)) == u
  {
  }

  /** Reading back what was saved gives the same list, so the model keeps the
      list itself and treats load and save as the identity. */
  lemma LoadSaveRoundTrip(users: seq<User>)
    ensures Load(Save(users)) == users
  {
  }

  /** Every record the file holds after a save has a string id and numeric
      points, and a record that had no points gets 0. */
  lemma SavedRecordsAreNormal(file: seq<RawUser>)
    ensures |Save(Load(file))| == |file|
    ensures forall i :: 0 <= i < |file| ==>
      Save(Load(file))[i].id == StrId(IdString(file[i].id)) &&
      Save(Load(file))[i].points == Some(if file[i].points.Some? then file[i].points.value else 0)
  {
  }

  /** `role || "user"`: a missing or empty role counts as "user". */
  function EffectiveRole(role: Option<string>): (r: string)
    ensures r != ""
    ensures r == "admin" <==> role == Some("admin")
    ensures r == "user" <==> (role.None? || role.value == "" || role.value == "user")
  {
    if role.None? || role.value == "" then "user" else role.value
  }

  // ---------------------------------------------------------------------------
  // Lookups

  /** `users.findIndex(u => String(u.id) === String(id))`. */
  function IndexOfId(users: seq<User>, id: string): (k: int)
    ensures -1 <= k < |users|
    ensures k == -1 <==> forall j :: 0 <= j < |users| ==> users[j].id != id
    ensures 0 <= k ==> users[k].id == id && forall j :: 0 <= j < k ==> users[j].id != id
  {
    FindIndex(users, (u: User) => u.id == id)
  }

  /** `findUserById`: the first record with that id, if any. */
  function FindUserById(users: seq<User>, id: string): (r: Option<User>)
    ensures r.None? <==> forall j :: 0 <= j < |users| ==> users[j].id != id
    ensures r.Some? ==> 0 <= IndexOfId(users, id) && r.value == users[IndexOfId(users, id)]
  {
    var k := IndexOfId(users, id);
    if k < 0 then None else Some(users[k])
  }

  /** `findUserByEmail`: the first record whose lower-cased email equals the
      lower-cased argument, if any. */
  function FindUserByEmail(users: seq<User>, email: string): (r: Option<User>)
    ensures r.None? <==> forall j :: 0 <= j < |users| ==> Lower(users[j].email) != Lower(email)
    ensures r.Some? ==> Lower(r.value.email) == Lower(email)
    ensures r.Some? ==> exists k :: 0 <= k < |users| && users[k] == r.value &&
                          forall j :: 0 <= j < k ==> Lower(users[j].email) != Lower(email)
  {
    var k := FindIndex(users, (u: User) => Lower(u.email) == Lower(email));
    if k < 0 then None else Some(users[k])
  }

  /** The record `updateUserById` leaves behind: `nom` and `email` replaced when
      supplied, `role` only when the patch says exactly "user" or "admin"; id,
      password and points untouched. */
  function Patched(u: User, patch: Patch): (r: User)
    ensures r.id == u.id && r.password == u.password && r.points == u.points
    ensures r.nom == (if patch.nom.Some? then patch.nom.value else u.nom)
    ensures r.email == (if patch.email.Some? then patch.email.value else u.email)
    ensures r.role == (if patch.role == Some("user") || patch.role == Some("admin") then patch.role else u.role)
    ensures r.role == u.role || r.role == Some("user") || r.role == Some("admin")
  {
    var named := if patch.nom.Some? then u.(nom := patch.nom.value) else u;
    var mailed := if patch.email.Some? then named.(email := patch.email.value) else named;
    if patch.role == Some("user") || patch.role == Some("admin") then mailed.(role := patch.role) else mailed
  }

  /** Applying the same patch twice is the same as applying it once. */
  lemma PatchedIdempotent(u: User, patch: Patch)
    ensures Patched(Patched(u, patch), patch) == Patched(u, patch)
  {
  }

  /** `users.filter(u => String(u.id) !== String(id))`. */
  function WithoutId(users: seq<User>, id: string): (r: seq<User>)
    ensures |r| <= |users|
    ensures forall j :: 0 <= j < |r| ==> r[j] in users
    ensures forall j :: 0 <= j < |r| ==> r[j].id != id
    ensures forall j :: 0 <= j < |users| && users[j].id != id ==> users[j] in r
    ensures |r| == |users| <==> IndexOfId(users, id) == -1
  {
    if users == [] then []
    else if users[0].id == id then WithoutId(users[1..], id)
    else [users[0]] + WithoutId(users[1..], id)
  }

  /** Filtering works piece by piece, so the kept records stay in their order. */
  lemma {:induction false} WithoutIdAppend(a: seq<User>, b: seq<User>, id: string)
    ensures WithoutId(a + b, id) == WithoutId(a, id) + WithoutId(b, id)
  {
    if a == [] {
      assert a + b == b;
    } else {
      assert (a + b)[0] == a[0] && (a + b)[1..] == a[1..] + b;
      WithoutIdAppend(a[1..], b, id);
    }
  }

  /** With no record carrying the id, filtering gives the list back unchanged. */
  lemma {:induction false} WithoutAbsentId(users: seq<User>, id: string)
    requires forall j :: 0 <= j < |users| ==> users[j].id != id
    ensures WithoutId(users, id) == users
  {
    if users != [] {
      var t := users[1..];
      assert forall j :: 0 <= j < |t| ==> t[j].id != id by {
        forall j | 0 <= j < |t| ensures t[j].id != id {
          assert t[j] == users[j + 1];
        }
      }
      WithoutAbsentId(t, id);
      assert users[0].id != id;
      assert WithoutId(users, id) == [users[0]] + WithoutId(t, id);
      assert users == [users[0]] + t;
    }
  }


  // ---------------------------------------------------------------------------
  // The store

  /** The contents of `users.json`, as the list every operation loads. */
  class UserStore {
    var users: seq<User>

    /** The store as `getUsers` reads it from a file. */
    constructor (file: seq<RawUser>)
      ensures users == Load(file)
    {
      users := Load(file);
    }

    /** `addUser`: appends the normalised record and returns the argument. */
    method AddUser(newUser: RawUser) returns (r: RawUser)
      modifies this
      ensures users == old(users) + [Normalize(newUser)]
      ensures r == newUser
    {
      users := users + [Normalize(newUser)];
      r := newUser;
    }

    /** `updateUserById`: patches the first record with the id, or returns
        `null` and changes nothing. */
    method UpdateUserById(id: string, patch: Patch) returns (r: Option<User>)
      modifies this
      ensures IndexOfId(old(users), id) == -1 ==> r.None? && users == old(users)
      ensures 0 <= IndexOfId(old(users), id) ==>
        var k := IndexOfId(old(users), id);
        users == old(users)[k := Patched(old(users)[k], patch)] && r == Some(users[k])
    {
      var idx := IndexOfId(users, id);
      if idx == -1 {
        return None;
      }
      if patch.nom.Some? {
        users := users[idx := users[idx].(nom := patch.nom.value)];
      }
      if patch.email.Some? {
        users := users[idx := users[idx].(email := patch.email.value)];
      }
      if patch.role == Some("user") || patch.role == Some("admin") {
        users := users[idx := users[idx].(role := patch.role)];
      }
      r := Some(users[idx]);
    }

    /** `setPasswordById`: replaces the password hash of the first record with
        the id and reports whether there was one. */
    method SetPasswordById(id: string, passwordHash: string) returns (ok: bool)
      modifies this
      ensures ok <==> IndexOfId(old(users), id) != -1
      ensures !ok ==> users == old(users)
      ensures ok ==>
        var k := IndexOfId(old(users), id);
        users == old(users)[k := old(users)[k].(password := passwordHash)]
    {
      var idx := IndexOfId(users, id);
      if idx == -1 {
        return false;
      }
      users := users[idx := users[idx].(password := passwordHash)];
      return true;
    }

    /** `removeUserById`: drops every record with the id; false when there was none. */
    method RemoveUserById(id: string) returns (ok: bool)
      modifies this
      ensures ok <==> IndexOfId(old(users), id) != -1
      ensures users == (if ok then WithoutId(old(users), id) else old(users))
    {
      var next := WithoutId(users, id);
      if |next| == |users| {
        return false;
      }
      users := next;
      return true;
    }

    /** `addPoints`: adds `delta` to the points of the first record with the id,
        or returns `null` and changes nothing. */
    method AddPoints(userId: string, delta: int) returns (r: Option<User>)
      modifies this
      ensures IndexOfId(old(users), userId) == -1 ==> r.None? && users == old(users)
      ensures 0 <= IndexOfId(old(users), userId) ==>
        var k := IndexOfId(old(users), userId);
        users == old(users)[k := old(users)[k].(points := old(users)[k].points + delta)] &&
        r == Some(users[k])
    {
      var idx := IndexOfId(users, userId);
      if idx < 0 {
        return None;
      }
      var before := users[idx].points;
      users := users[idx := users[idx].(points := before + delta)];
      r := Some(users[idx]);
    }
  }
}
