/** `authFetch` of `frontend/app/dashboard/page.tsx`: read the two-key
  * session, send the request with its token, and sort the reply into a
  * value or an error. It is split at its first `await`: `Prepare` is the
  * part that runs before the request is sent, `Receive` the part that runs
  * once the reply is in. The request itself is not modelled; its reply is
  * a parameter. */
module AuthFetch {
  import opened Wrappers
  import opened Exceptions
  import Json
  import B = Browser
  import TS = TokenSession
  import opened Http

  const NoToken := "No authentication token found"
  const SessionExpired := "Session expired. Please login again."
  const UnknownError := "Unknown error"
  const RequestFailed := "API request failed"
  const LoginPath := "/login"

  /** Everything before the request is sent: the token to send, or the
    * reason nothing is sent. Reading the session throws on a stored user
    * text that does not parse. */
  function Prepare(hasWindow: bool, storage: map<string, string>): (r: Result<string, JsError>)
    ensures r.Ok? <==> TS.DashboardGetSession(hasWindow, storage).Ok? && TS.DashboardGetSession(hasWindow, storage).value.Some?
    ensures r.Ok? ==> hasWindow && TS.TokenKey in storage && r.value == storage[TS.TokenKey] && r.value != ""
    ensures r == Err(Error(NoToken)) <==> TS.DashboardGetSession(hasWindow, storage) == Ok(None)
  {
    match TS.DashboardGetSession(hasWindow, storage)
    case Err(e) => Err(e)
    case Ok(None) => Err(Error(NoToken))
    case Ok(Some(session)) => Ok(session.token)
  }

  /** The error thrown for a failed status other than 401:
    * `response.json().catch(() => ({ detail: "Unknown error" }))`, then
    * `new Error(error.detail || "API request failed")`. */
  function FailureError(body: string): JsError {
    match Json.Parse(body)
    case None => Error(UnknownError)
    case Some(error) =>
      match Property(error, "detail")
      case Err(e) => e
      case Ok(detail) =>
        if detail.Some? && Json.Truthy(detail.value) then Error(JsString(detail.value)) else Error(RequestFailed)
  }

  /** A 401 reply: the session is over. */
  predicate Expires<T>(reply: Reply<T>) {
    reply.Failure? && reply.status == 401
  }

  /** Everything after the reply is in, except the effects of a 401. */
  function Receive<T>(reply: Reply<T>): (r: Result<T, JsError>)
    ensures r.Ok? <==> reply.Success?
    ensures reply.Success? ==> r.value == reply.payload
    ensures Expires(reply) ==> r == Err(Error(SessionExpired))
    ensures reply.Failure? && !Expires(reply) ==> r == Err(FailureError(reply.body))
    ensures reply.NoResponse? ==> r == Err(TypeError)
    ensures reply.SuccessNotJson? ==> r == Err(SyntaxError)
  {
    match reply
    case NoResponse => Err(TypeError)
    case Success(payload) => Ok(payload)
    case SuccessNotJson => Err(SyntaxError)
    case Failure(status, body) =>
      if status == 401 then Err(Error(SessionExpired)) else Err(FailureError(body))
  }

  /** The whole call: the reply only matters once a token was found. */
  function Outcome<T>(hasWindow: bool, storage: map<string, string>, reply: Reply<T>): (r: Result<T, JsError>)
    ensures r.Ok? <==> Prepare(hasWindow, storage).Ok? && reply.Success?
    ensures Prepare(hasWindow, storage).Err? ==> r == Err(Prepare(hasWindow, storage).error)
  {
    match Prepare(hasWindow, storage)
    case Err(e) => Err(e)
    case Ok(_) => Receive(reply)
  }

  /** The store after the reply was handled: a 401 clears the session. */
  function Settled<T>(storage: map<string, string>, reply: Reply<T>): map<string, string> {
    if Expires(reply) then TS.Cleared(storage) else storage
  }

  /** The pages visited while the reply was handled: a 401 goes to the
    * login page. */
  function SettledPath<T>(reply: Reply<T>): seq<string> {
    if Expires(reply) then [LoginPath] else []
  }

  /** The part of `authFetch` after its `await fetch(...)`. */
  method Settle<T>(b: B.Browser, reply: Reply<T>) returns (r: Result<T, JsError>)
    requires b.hasWindow
    modifies b`storage, b`navigations
    ensures r == Receive(reply)
    ensures b.storage == Settled(old(b.storage), reply)
    ensures b.navigations == old(b.navigations) + SettledPath(reply)
  {
    if reply.Failure? && reply.status == 401 {
      TS.ClearSession(b);
      b.Navigate(LoginPath);
      return Err(Error(SessionExpired));
    }
    r := Receive(reply);
  }

  /** The store after a whole call: untouched when nothing was sent. */
  function AfterCall<T>(hasWindow: bool, storage: map<string, string>, reply: Reply<T>): map<string, string> {
    if Prepare(hasWindow, storage).Ok? then Settled(storage, reply) else storage
  }

  /** The pages visited during a whole call. */
  function CallPath<T>(hasWindow: bool, storage: map<string, string>, reply: Reply<T>): seq<string> {
    if Prepare(hasWindow, storage).Ok? then SettledPath(reply) else []
  }

  /** One `authFetch` call from start to end. */
  method Call<T>(b: B.Browser, reply: Reply<T>) returns (r: Result<T, JsError>)
    requires b.hasWindow
    modifies b`storage, b`navigations
    ensures r == Outcome(b.hasWindow, old(b.storage), reply)
    ensures b.storage == AfterCall(b.hasWindow, old(b.storage), reply)
    ensures b.navigations == old(b.navigations) + CallPath(b.hasWindow, old(b.storage), reply)
  {
    var token := Prepare(b.hasWindow, b.storage);
    if token.Err? {
      assert b.navigations == old(b.navigations) + [];
      return Err(token.error);
    }
    r := Settle(b, reply);
  }

  // ------------------------------------------------------------ properties

  /** With no session, or an empty token, nothing is sent, whatever reply
    * the server would have given. */
  lemma NoSessionSendsNothing<T>(storage: map<string, string>, reply: Reply<T>)
    requires TS.TokenKey !in storage || storage[TS.TokenKey] == ""
    ensures Outcome(true, storage, reply) == Err(Error(NoToken))
  {
  }

  /** The session `setSession` stored is the one sent. */
  lemma StoredTokenIsSent(storage: map<string, string>, token: string, user: Json.Value)
    requires token != ""
    ensures Prepare(true, TS.Stored(storage, token, user)) == Ok(token)
  {
    TS.DashboardGetAfterSet(storage, token, user);
  }

  /** A call that got an answer other than 401 leaves the session as it
    * was, so the next call sends the same token. */
  lemma AnsweredCallKeepsSession<T>(hasWindow: bool, storage: map<string, string>, reply: Reply<T>)
    requires !Expires(reply)
    ensures AfterCall(hasWindow, storage, reply) == storage
    ensures CallPath(hasWindow, storage, reply) == []
  {
  }

  /** After a 401 the next call sends nothing. */
  lemma ExpiredSessionIsGone<T, U>(storage: map<string, string>, reply: Reply<T>, next: Reply<U>)
    requires Expires(reply)
    ensures Outcome(true, Settled(storage, reply), next) == Err(Error(NoToken))
  {
    TS.GetAfterClear(storage);
  }

  /** Any status other than 401 leaves the session in place, and so does
    * every reply that is not a failure. */
  lemma OnlyUnauthorizedClears<T>(storage: map<string, string>, reply: Reply<T>)
    ensures Settled(storage, reply) == storage <==> !Expires(reply) || (TS.TokenKey !in storage && TS.UserKey !in storage)
  {
    if Expires(reply) && Settled(storage, reply) == storage {
      assert TS.TokenKey !in Settled(storage, reply);
      assert TS.UserKey !in Settled(storage, reply);
    }
  }

  /** A server error `{"detail": msg}` with a non-empty `msg` surfaces as
    * `msg`, for every failed status except 401. */
  lemma DetailSurfaces(status: FailStatus, msg: string)
    requires status != 401 && msg != ""
    ensures Receive<Json.Value>(Failure(status, Json.Serialize(Json.JObj([Json.Member("detail", Json.JStr(msg))]))))
         == Err(Error(msg))
  {
    Json.ParseSerialize(Json.JObj([Json.Member("detail", Json.JStr(msg))]));
  }

  /** A failure body that is not JSON gives "Unknown error"; one that is JSON
    * but has no truthy `detail` gives "API request failed"; a body that is
    * JSON `null` throws a `TypeError` from reading its `detail`. */
  lemma FailureFallbacks(body: string, v: Json.Value)
    ensures Json.Parse(body).None? ==> FailureError(body) == Error(UnknownError)
    ensures (Json.Parse(body) == Some(v) && !v.JNull? &&
             (Json.Field(v, "detail").None? || !Json.Truthy(Json.Field(v, "detail").value)))
            ==> FailureError(body) == Error(RequestFailed)
    ensures Json.Parse(body) == Some(Json.JNull) ==> FailureError(body) == TypeError
  {
  }

  /** A validation error, whose `detail` is a list of objects, surfaces as
    * "[object Object]". */
  lemma ListDetailPrintsAsObject(status: FailStatus, item: seq<Json.Member>)
    requires status != 401
    ensures Receive<Json.Value>(Failure(status, Json.Serialize(Json.JObj([Json.Member("detail", Json.JArr([Json.JObj(item)]))]))))
         == Err(Error("[object Object]"))
  {
    var body := Json.JObj([Json.Member("detail", Json.JArr([Json.JObj(item)]))]);
    Json.ParseSerialize(body);
    assert Json.Field(body, "detail") == Some(Json.JArr([Json.JObj(item)]));
    assert JsString(Json.JObj(item)) == "[object Object]";
    assert Join([Json.JObj(item)]) == "[object Object]";
  }
}
