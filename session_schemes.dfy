/** The two session stores side by side. `frontend/lib/auth.ts` keeps one
  * `"session"` record; the login page and the dashboard keep `"token"` and
  * `"user"`. The home page `frontend/app/page.tsx` and the shared header
  * `frontend/components/dashboard-header.tsx` (used by the product detail
  * page) read and clear the first, while signing in writes only the
  * second. */
module SessionSchemes {
  import opened Wrappers
  import opened Exceptions
  import Json
  import Types
  import Auth
  import TS = TokenSession
  import MockApi

  const LoginPath := "/login"
  const DashboardPath := "/dashboard"
  const AccountLabel := "Account"

  // -------------------------------------------------------- the readers

  /** Where the home page redirects: `if (!session)` on `lib/auth`'s
    * `getSession()`. */
  function HomeTarget(hasWindow: bool, storage: map<string, string>): (r: string)
    ensures r == DashboardPath || r == LoginPath
    ensures r == DashboardPath <==> MockApi.SignedIn(hasWindow, storage)
  {
    if Json.Truthy(Auth.GetSession(hasWindow, storage)) then DashboardPath else LoginPath
  }

  /** `session?.user?.email || "Account"`: the header's menu label. A
    * missing property, or one read from `null`, is `undefined`. */
  function HeaderLabel(hasWindow: bool, storage: map<string, string>): (r: Json.Value)
    ensures r == Json.JStr(AccountLabel) || Json.Truthy(r)
  {
    var session := Auth.GetSession(hasWindow, storage);
    var user := Json.Field(session, "user");
    var email := if user.Some? then Json.Field(user.value, "email") else None;
    if email.Some? && Json.Truthy(email.value) then email.value else Json.JStr(AccountLabel)
  }

  /** The store after the header's `handleLogout`: `lib/auth`'s
    * `clearSession()`, before the move to /login. */
  function HeaderLoggedOut(storage: map<string, string>): map<string, string> {
    Auth.Cleared(true, storage)
  }

  // ------------------------------------------- neither store sees the other

  /** Writing or clearing the two-key session leaves what `lib/auth` reads
    * unchanged. */
  lemma TwoKeyWritesAreInvisible(hasWindow: bool, storage: map<string, string>, token: string, user: Json.Value)
    ensures Auth.GetSession(hasWindow, TS.Stored(storage, token, user)) == Auth.GetSession(hasWindow, storage)
    ensures Auth.GetSession(hasWindow, TS.Cleared(storage)) == Auth.GetSession(hasWindow, storage)
  {
    var s := TS.Stored(storage, token, user);
    assert Auth.SessionKey != TS.TokenKey && Auth.SessionKey != TS.UserKey;
    assert (Auth.SessionKey in s <==> Auth.SessionKey in storage);
    if Auth.SessionKey in storage {
      assert s[Auth.SessionKey] == storage[Auth.SessionKey];
      assert TS.Cleared(storage)[Auth.SessionKey] == storage[Auth.SessionKey];
    }
  }

  /** Writing or clearing the `"session"` record leaves what both two-key
    * readers see unchanged. */
  lemma SessionWritesAreInvisible(hasWindow: bool, storage: map<string, string>, token: string, user: Types.User)
    ensures TS.LoginGetSession(hasWindow, Auth.Stored(hasWindow, storage, token, user))
         == TS.LoginGetSession(hasWindow, storage)
    ensures TS.DashboardGetSession(hasWindow, Auth.Stored(hasWindow, storage, token, user))
         == TS.DashboardGetSession(hasWindow, storage)
    ensures TS.LoginGetSession(hasWindow, Auth.Cleared(hasWindow, storage)) == TS.LoginGetSession(hasWindow, storage)
    ensures TS.DashboardGetSession(hasWindow, Auth.Cleared(hasWindow, storage))
         == TS.DashboardGetSession(hasWindow, storage)
  {
    var s := Auth.Stored(hasWindow, storage, token, user);
    var c := Auth.Cleared(hasWindow, storage);
    assert Auth.SessionKey != TS.TokenKey && Auth.SessionKey != TS.UserKey;
    if TS.TokenKey in storage {
      assert s[TS.TokenKey] == storage[TS.TokenKey] && c[TS.TokenKey] == storage[TS.TokenKey];
    }
    if TS.UserKey in storage {
      assert s[TS.UserKey] == storage[TS.UserKey] && c[TS.UserKey] == storage[TS.UserKey];
    }
  }

  // ----------------------------------------------------------- the findings

  /** Signing in through the login page, on a store without a `"session"`
    * record, is invisible to `lib/auth`: the home page still sends the user
    * to /login, the header shows "Account", and the mock API refuses the
    * products. */
  lemma SignedInLooksSignedOut(storage: map<string, string>, token: string, user: Json.Value)
    requires Auth.SessionKey !in storage
    ensures var signedIn := TS.Stored(storage, token, user);
      && TS.LoginGetSession(true, signedIn) == Ok(TS.LoginSession(Some(token), user))
      && Auth.GetSession(true, signedIn) == Json.JNull
      && HomeTarget(true, signedIn) == LoginPath
      && HeaderLabel(true, signedIn) == Json.JStr(AccountLabel)
      && MockApi.GetProducts(true, signedIn) == Err(Error(MockApi.NotAuthenticated))
  {
    TS.LoginGetAfterSet(storage, token, user);
    TwoKeyWritesAreInvisible(true, storage, token, user);
  }

  /** The header's logout, after the login page signed in, keeps the token:
    * the login page's mount effect then reads it back and redirects to the
    * dashboard again, and the dashboard still reads the session. */
  lemma HeaderLogoutKeepsSignIn(storage: map<string, string>, token: string, user: Json.Value)
    requires token != ""
    ensures var after := HeaderLoggedOut(TS.Stored(storage, token, user));
      && TS.LoginGetSession(true, after) == Ok(TS.LoginSession(Some(token), user))
      && TS.DashboardGetSession(true, after) == Ok(Some(TS.DashboardSession(token, user)))
  {
    var signedIn := TS.Stored(storage, token, user);
    TS.LoginGetAfterSet(storage, token, user);
    TS.DashboardGetAfterSet(storage, token, user);
    SessionWritesAreInvisible(true, signedIn, "", Types.User(0, "", ""));
  }

  /** A session written through `lib/auth`, as the mock API's demo sign-in
    * would store it, is what both readers expect: home leads to the
    * dashboard and the header shows the user's email. */
  lemma AuthSessionIsSeen(storage: map<string, string>, token: string, user: Types.User)
    requires user.email != ""
    ensures HomeTarget(true, Auth.Stored(true, storage, token, user)) == DashboardPath
    ensures HeaderLabel(true, Auth.Stored(true, storage, token, user)) == Json.JStr(user.email)
  {
    Auth.GetAfterSet(storage, token, user);
    var ms := Auth.SessionToJson(Auth.Session(token, user)).members;
    assert Json.Lookup(ms, "user") == Some(Types.UserToJson(user));
    var fs := Types.UserToJson(user).members;
    assert Json.Lookup(fs, "email") == Some(Json.JStr(user.email)) by {
      assert fs[..2][1] == Json.Member("email", Json.JStr(user.email));
    }
  }

  /** The home page while rendered on the server, without a window, always
    * redirects to /login. */
  lemma ServerRenderGoesToLogin(storage: map<string, string>)
    ensures HomeTarget(false, storage) == LoginPath
    ensures HeaderLabel(false, storage) == Json.JStr(AccountLabel)
  {
  }

  // ------------------------------------------------------- the corrections

  /** The home page reading the store signing in writes: the dashboard when
    * a non-empty token is stored. A `"user"` text that does not parse makes
    * it throw, as it makes the dashboard's `getSession()` throw. The page
    * must also become a client component: rendered on the server it has no
    * window and, like the dashboard's reader, sees no session. */
  function FixedHomeTarget(hasWindow: bool, storage: map<string, string>): (r: Result<string, JsError>)
    ensures var session := TS.DashboardGetSession(hasWindow, storage);
      && (r.Err? <==> session.Err?)
      && (r == Ok(DashboardPath) <==> session.Ok? && session.value.Some?)
      && (r == Ok(LoginPath) <==> session == Ok(None))
  {
    match TS.DashboardGetSession(hasWindow, storage)
    case Err(e) => Err(e)
    case Ok(None) => Ok(LoginPath)
    case Ok(Some(_)) => Ok(DashboardPath)
  }

  /** The header's logout clearing the store signing in writes. */
  function FixedHeaderLoggedOut(storage: map<string, string>): map<string, string> {
    TS.Cleared(storage)
  }

  /** With the corrections, signing in leads home to the dashboard, and
    * logging out leaves nothing for the login page to redirect on. */
  lemma FixedSessionRoundTrip(storage: map<string, string>, token: string, user: Json.Value)
    requires token != ""
    ensures FixedHomeTarget(true, TS.Stored(storage, token, user)) == Ok(DashboardPath)
    ensures var after := FixedHeaderLoggedOut(TS.Stored(storage, token, user));
      && TS.LoginGetSession(true, after) == Ok(TS.LoginSession(None, Json.JNull))
      && FixedHomeTarget(true, after) == Ok(LoginPath)
  {
    TS.DashboardGetAfterSet(storage, token, user);
    TS.GetAfterClear(TS.Stored(storage, token, user));
  }
}
