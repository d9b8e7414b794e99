/** The two-key session store that `frontend/app/dashboard/page.tsx` and
  * `frontend/app/login/page.tsx` each declare for themselves: the token
  * under `"token"` and the JSON text of the server's user record under
  * `"user"`. The two pages write and clear it identically but read it
  * differently, and neither reading guards `JSON.parse`. Writing and
  * clearing reach `localStorage` without checking for a window, so they
  * require one. */
module TokenSession {
  import opened Wrappers
  import opened Exceptions
  import Json
  import B = Browser

  const TokenKey := "token"
  const UserKey := "user"

  /** The store after `setSession(token, userData)`. */
  function Stored(storage: map<string, string>, token: string, user: Json.Value): map<string, string> {
    storage[TokenKey := token][UserKey := Json.Serialize(user)]
  }

  /** The store after `clearSession()`. */
  function Cleared(storage: map<string, string>): map<string, string> {
    storage - {TokenKey, UserKey}
  }

  method SetSession(b: B.Browser, token: string, user: Json.Value)
    requires b.hasWindow
    modifies b`storage
    ensures b.storage == Stored(old(b.storage), token, user)
  {
    b.SetItem(TokenKey, token);
    b.SetItem(UserKey, Json.Serialize(user));
  }

  method ClearSession(b: B.Browser)
    requires b.hasWindow
    modifies b`storage
    ensures b.storage == Cleared(old(b.storage))
  {
    b.RemoveItem(TokenKey);
    b.RemoveItem(UserKey);
    assert old(b.storage) - {TokenKey} - {UserKey} == old(b.storage) - {TokenKey, UserKey};
  }

  /** `userStr ? JSON.parse(userStr) : null`: throws on text that does not
    * parse. */
  function ParseUser(userStr: Option<string>): (r: Result<Json.Value, JsError>)
    ensures r.Err? <==> userStr.Some? && userStr.value != "" && Json.Parse(userStr.value).None?
    ensures r.Err? ==> r.error == SyntaxError
  {
    match userStr
    case None => Ok(Json.JNull)
    case Some(text) =>
      if text == "" then Ok(Json.JNull)
      else
        match Json.Parse(text)
        case None => Err(SyntaxError)
        case Some(v) => Ok(v)
  }

  datatype DashboardSession = DashboardSession(token: string, user: Json.Value)

  /** The dashboard's `getSession()`: null (None) without a window or
    * without a non-empty token; otherwise the token and the parsed user. */
  function DashboardGetSession(hasWindow: bool, storage: map<string, string>): Result<Option<DashboardSession>, JsError> {
    if !hasWindow then Ok(None)
    else
      var token := B.Get(storage, TokenKey);
      if token.None? || token.value == "" then Ok(None)
      else
        match ParseUser(B.Get(storage, UserKey))
        case Err(e) => Err(e)
        case Ok(user) => Ok(Some(DashboardSession(token.value, user)))
  }

  /** `{ token, user }` as the login page reads it; a missing token is None. */
  datatype LoginSession = LoginSession(token: Option<string>, user: Json.Value)

  /** The login page's `getSession()`: `{token: null, user: null}` without a
    * window; otherwise the stored token, whatever it is, and the parsed user. */
  function LoginGetSession(hasWindow: bool, storage: map<string, string>): Result<LoginSession, JsError> {
    if !hasWindow then Ok(LoginSession(None, Json.JNull))
    else
      match ParseUser(B.Get(storage, UserKey))
      case Err(e) => Err(e)
      case Ok(user) => Ok(LoginSession(B.Get(storage, TokenKey), user))
  }

  lemma SerializedUserParses(user: Json.Value)
    ensures ParseUser(Some(Json.Serialize(user))) == Ok(user)
  {
    Json.ParseSerialize(user);
    Json.SerializeStart(user);
  }

  /** `setSession(t, u)` writes `t` under `"token"` and the text of `u` under
    * `"user"`, and no other key. */
  lemma SetWritesTwoKeys(storage: map<string, string>, token: string, user: Json.Value)
    ensures Stored(storage, token, user).Keys == storage.Keys + {TokenKey, UserKey}
    ensures Stored(storage, token, user)[TokenKey] == token
    ensures Json.Parse(Stored(storage, token, user)[UserKey]) == Some(user)
    ensures forall k :: k in storage && k != TokenKey && k != UserKey ==> Stored(storage, token, user)[k] == storage[k]
  {
    Json.ParseSerialize(user);
  }

  /** The login page reads back exactly what `setSession` wrote. */
  lemma LoginGetAfterSet(storage: map<string, string>, token: string, user: Json.Value)
    ensures LoginGetSession(true, Stored(storage, token, user)) == Ok(LoginSession(Some(token), user))
  {
    SerializedUserParses(user);
  }

  /** The dashboard reads back what `setSession` wrote, except that an empty
    * token reads as no session at all. */
  lemma DashboardGetAfterSet(storage: map<string, string>, token: string, user: Json.Value)
    ensures DashboardGetSession(true, Stored(storage, token, user))
         == if token == "" then Ok(None) else Ok(Some(DashboardSession(token, user)))
  {
    SerializedUserParses(user);
  }

  /** After `clearSession()` the login page reads `{token: null, user: null}`
    * and the dashboard reads null. */
  lemma GetAfterClear(storage: map<string, string>)
    ensures LoginGetSession(true, Cleared(storage)) == Ok(LoginSession(None, Json.JNull))
    ensures DashboardGetSession(true, Cleared(storage)) == Ok(None)
  {
  }

  /** `clearSession` is idempotent and removes the two keys only. */
  lemma ClearIdempotent(storage: map<string, string>)
    ensures Cleared(Cleared(storage)) == Cleared(storage)
    ensures Cleared(storage).Keys == storage.Keys - {TokenKey, UserKey}
    ensures forall k :: k in Cleared(storage) ==> Cleared(storage)[k] == storage[k]
  {
  }

  /** Without a window the login page reads `{token: null, user: null}` and
    * the dashboard reads null. */
  lemma NoWindow(storage: map<string, string>)
    ensures LoginGetSession(false, storage) == Ok(LoginSession(None, Json.JNull))
    ensures DashboardGetSession(false, storage) == Ok(None)
  {
  }

  /** A `"user"` text that does not parse makes the login page's
    * `getSession()` throw, whatever the token, and the dashboard's throw
    * whenever a token is present. */
  lemma CorruptUserThrows(storage: map<string, string>, text: string)
    requires text != "" && Json.Parse(text) == None
    ensures LoginGetSession(true, storage[UserKey := text]) == Err(SyntaxError)
    ensures TokenKey in storage && storage[TokenKey] != "" ==>
              DashboardGetSession(true, storage[UserKey := text]) == Err(SyntaxError)
  {
  }
}
