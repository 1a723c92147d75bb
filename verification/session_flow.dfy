/** What holds across requests: the id `login` and `register` put in the
    session and the user `attachUser` later rebuilds from it, logout, and an
    admin demoting themself. */
module SessionFlow {
  import opened JsRuntime
  import opened UserModel
  import opened Express
  import opened Auth
  import AuthAdmin

  /** No two records share a numeric id. */
  predicate NumericIdsDistinct(users: seq<User>) {
    forall i, j :: 0 <= i < j < |users| && ParseNumber(users[i].id).Some? ==>
      ParseNumber(users[i].id) != ParseNumber(users[j].id)
  }

  /** The id `login` stores (`userId = user.id`) brings back, on the next
      request, a record with the same numeric id, and that very record when
      numeric ids are distinct, provided the id reads as a non-zero number. */
  lemma LoginSessionResolves(users: seq<User>, u: User, n: int)
    requires u in users
    requires ParseNumber(u.id) == Some(n) && n != 0
    ensures ResolveSessionUser(Some(u.id), Some(users)).Some?
    ensures ParseNumber(ResolveSessionUser(Some(u.id), Some(users)).value.id) == Some(n)
    ensures NumericIdsDistinct(users) ==> ResolveSessionUser(Some(u.id), Some(users)) == Some(u)
  {
  }

  /** A record whose id is not a number can log in, but the id it leaves in
      the session never brings it back: its later requests stay anonymous. */
  lemma NonNumericIdStaysAnonymous(users: seq<User>, u: User)
    requires ParseNumber(u.id).None?
    ensures ResolveSessionUser(Some(u.id), Some(users)).None?
  {
  }

  /** An account `register` has just appended, with a `Date.now()` id no
      earlier record shares numerically, is the user its session resolves to. */
  lemma RegisteredAccountResolves(users: seq<User>, account: User, now: int)
    requires now != 0
    requires account.id == IntToString(now)
    requires forall j :: 0 <= j < |users| ==> ParseNumber(users[j].id) != Some(now)
    ensures ResolveSessionUser(Some(account.id), Some(users + [account])) == Some(account)
  {
    ParseNumberOfIntToString(now);
    var s := users + [account];
    assert s[|users|] == account;
    forall j | 0 <= j < |users| ensures ParseNumber(s[j].id) != Some(now) {
      assert s[j] == users[j];
    }
    assert NumericIndex(s, now) == |users|;
  }

  /** After `logout` the session holds no id, so the next request is anonymous
      and the API guard answers 401. */
  lemma LoggedOutSessionIsAnonymous(loaded: Option<seq<User>>)
    ensures ResolveSessionUser(None, loaded).None?
    ensures EnsureAuthenticated(ResolveSessionUser(None, loaded)) == Status(401)
  {
  }

  /** Two lists with the same ids at the same places resolve a numeric id at
      the same place. */
  lemma NumericIndexFollowsIds(a: seq<User>, b: seq<User>, n: int)
    requires |a| == |b|
    requires forall i :: 0 <= i < |a| ==> a[i].id == b[i].id
    ensures NumericIndex(a, n) == NumericIndex(b, n)
  {
  }

  /** Replacing one record by another with the same id, as `updateUserById`,
      `setPasswordById` and `addPoints` do, never changes which position a
      session resolves to: a session that was anonymous stays anonymous, and
      one that resolved to a record now resolves to that record's new version. */
  lemma SessionSurvivesRecordEdit(users: seq<User>, raw: Option<string>, k: int, v: User)
    requires 0 <= k < |users| && v.id == users[k].id
    ensures ResolveSessionUser(raw, Some(users[k := v])).Some? <==> ResolveSessionUser(raw, Some(users)).Some?
    ensures ResolveSessionUser(raw, Some(users)).Some? ==>
      var i := NumericIndex(users, SessionNumber(raw).value);
      ResolveSessionUser(raw, Some(users[k := v])) == Some(users[k := v][i])
  {
    if SessionNumber(raw).Some? {
      NumericIndexFollowsIds(users, users[k := v], SessionNumber(raw).value);
    }
  }

  /** An admin who makes their own record a "user" (the `updateUser` redirect
      case) loses admin access from the next request on, although the session
      is not destroyed: `attachUser` reads the record again and `requireAdmin`
      then answers 403. */
  lemma SelfDemotionRevokesAdmin(users: seq<User>, raw: Option<string>, me: User, patch: Patch)
    requires ResolveSessionUser(raw, Some(users)) == Some(me)
    ensures 0 <= IndexOfId(users, me.id)
    ensures var k := IndexOfId(users, me.id);
      var after := users[k := Patched(users[k], patch)];
      after[k].role == Some("user") ==>
        ResolveSessionUser(raw, Some(after)) == Some(after[k]) &&
        AuthAdmin.RequireAdmin(Some(after[k])) == Status(403)
  {
    var k := IndexOfId(users, me.id);
    SessionSurvivesRecordEdit(users, raw, k, Patched(users[k], patch));
  }
}
