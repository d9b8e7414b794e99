/** The login page of `frontend/app/login/page.tsx`: its three calls to the
  * server, the way each turns a reply into a value or an error, and the
  * page's state as the submit handlers and the mount effect change it. The
  * requests are not modelled; the server's replies are parameters. */
module Login {
  import opened Wrappers
  import opened Exceptions
  import Json
  import B = Browser
  import TS = TokenSession
  import opened Http

  const LoginFailed := "Login failed"
  const RegistrationFailed := "Registration failed"
  const UserDataFailed := "Failed to get user data"
  const InvalidCredentials := "Invalid username or password. Please try again."
  const RegisterFallback := "Registration failed. Please try again."
  const DashboardPath := "/dashboard"

  // ------------------------------------------------------------- the calls

  /** A call that throws `message` on any failed status and otherwise
    * returns the parsed body: `login` with "Login failed" and
    * `getCurrentUser` with "Failed to get user data". */
  function Checked(reply: Reply<Json.Value>, message: string): (r: Result<Json.Value, JsError>)
    ensures r.Ok? <==> reply.Success?
    ensures r.Ok? ==> r.value == reply.payload
    ensures reply.Failure? ==> r == Err(Error(message))
    ensures reply.NoResponse? ==> r == Err(TypeError)
    ensures reply.SuccessNotJson? ==> r == Err(SyntaxError)
  {
    match reply
    case NoResponse => Err(TypeError)
    case Success(data) => Ok(data)
    case SuccessNotJson => Err(SyntaxError)
    case Failure(_, _) => Err(Error(message))
  }

  /** `register(...)`: on a failed status the error body is parsed without
    * a guard, then `new Error(errorData.detail || "Registration failed")`. */
  function Register(reply: Reply<Json.Value>): (r: Result<Json.Value, JsError>)
    ensures r.Ok? <==> reply.Success?
    ensures reply.Failure? && Json.Parse(reply.body).None? ==> r == Err(SyntaxError)
    ensures reply.NoResponse? ==> r == Err(TypeError)
    ensures reply.SuccessNotJson? ==> r == Err(SyntaxError)
  {
    match reply
    case NoResponse => Err(TypeError)
    case Success(data) => Ok(data)
    case SuccessNotJson => Err(SyntaxError)
    case Failure(_, body) =>
      match ParseBody(body)
      case Err(e) => Err(e)
      case Ok(errorData) =>
        match Property(errorData, "detail")
        case Err(e) => Err(e)
        case Ok(detail) =>
          if detail.Some? && Json.Truthy(detail.value) then Err(Error(JsString(detail.value)))
          else Err(Error(RegistrationFailed))
  }

  /** The text `localStorage.setItem` and a template literal make of a
    * property value: `String(v)`, and "undefined" for a missing one. */
  function TokenText(token: Option<Json.Value>): string {
    match token
    case None => "undefined"
    case Some(v) => JsString(v)
  }

  /** `login`, then `getCurrentUser(authData.access_token)`: the token text
    * and the user record to store, or the first error. */
  function SignIn(loginReply: Reply<Json.Value>, userReply: Reply<Json.Value>): (r: Result<(string, Json.Value), JsError>)
    ensures r.Ok? <==> loginReply.Success? && !loginReply.payload.JNull? && userReply.Success?
    ensures r.Ok? ==> r.value.1 == userReply.payload
  {
    match Checked(loginReply, LoginFailed)
    case Err(e) => Err(e)
    case Ok(authData) =>
      match Property(authData, "access_token")
      case Err(e) => Err(e)
      case Ok(token) =>
        match Checked(userReply, UserDataFailed)
        case Err(e) => Err(e)
        case Ok(user) => Ok((TokenText(token), user))
  }

  /** `err.message || "Registration failed. Please try again."`. */
  function RegisterErrorText(e: JsError): (t: string)
    ensures t != ""
    ensures Message(e) != "" ==> t == Message(e)
  {
    if Message(e) != "" then Message(e) else RegisterFallback
  }

  /** Registering, then signing in: the first failure of the three calls. */
  function SignUp(registerReply: Reply<Json.Value>, loginReply: Reply<Json.Value>, userReply: Reply<Json.Value>)
    : (r: Result<(string, Json.Value), JsError>)
    ensures r.Ok? <==> registerReply.Success? && SignIn(loginReply, userReply).Ok?
    ensures registerReply.Success? ==> r == SignIn(loginReply, userReply)
  {
    match Register(registerReply)
    case Err(e) => Err(e)
    case Ok(_) => SignIn(loginReply, userReply)
  }

  // ------------------------------------------------------------ properties

  /** The server's answer to a successful sign-in, `{"access_token": t, ...}`,
    * stores `t` itself. */
  lemma SignInStoresToken(token: string, rest: seq<Json.Member>, user: Json.Value)
    ensures SignIn(Success(Json.JObj(rest + [Json.Member("access_token", Json.JStr(token))])), Success(user))
         == Ok((token, user))
  {
    var ms := rest + [Json.Member("access_token", Json.JStr(token))];
    assert ms[|ms| - 1] == Json.Member("access_token", Json.JStr(token));
  }

  /** An auth reply without `access_token` still "succeeds": the string
    * "undefined" is sent and stored as the token. */
  lemma MissingTokenIsUndefined(user: Json.Value)
    ensures SignIn(Success(Json.JObj([])), Success(user)) == Ok(("undefined", user))
  {
  }

  /** The server's `{"detail": msg}` on a failed registration surfaces as
    * `msg`. Of any error body that parses to `v`: a truthy `detail` becomes
    * the message `String(detail)`, a missing or falsy one "Registration
    * failed", and `null` throws a `TypeError` when `detail` is read. */
  lemma RegisterDetail(status: FailStatus, msg: string, body: string, v: Json.Value)
    ensures msg != "" ==>
              Register(Failure(status, Json.Serialize(Json.JObj([Json.Member("detail", Json.JStr(msg))]))))
              == Err(Error(msg))
    ensures (Json.Parse(body) == Some(v) && !v.JNull? && Json.Field(v, "detail").Some?
             && Json.Truthy(Json.Field(v, "detail").value))
            ==> Register(Failure(status, body)) == Err(Error(JsString(Json.Field(v, "detail").value)))
    ensures (Json.Parse(body) == Some(v) && !v.JNull? &&
             (Json.Field(v, "detail").None? || !Json.Truthy(Json.Field(v, "detail").value)))
            ==> Register(Failure(status, body)) == Err(Error(RegistrationFailed))
    ensures Json.Parse(body) == Some(Json.JNull) ==> Register(Failure(status, body)) == Err(TypeError)
  {
    var detailBody := Json.JObj([Json.Member("detail", Json.JStr(msg))]);
    Json.ParseSerialize(detailBody);
    assert Json.Field(detailBody, "detail") == Some(Json.JStr(msg));
  }

  /** A detail that prints as nothing, such as `[]`, is truthy and so
    * becomes the message `""`; the page then shows the fallback text. */
  lemma RegisterMessages(status: FailStatus)
    ensures var body := Json.Serialize(Json.JObj([Json.Member("detail", Json.JArr([]))]));
            Register(Failure(status, body)) == Err(Error("")) && RegisterErrorText(Error("")) == RegisterFallback
  {
    var body := Json.JObj([Json.Member("detail", Json.JArr([]))]);
    Json.ParseSerialize(body);
    assert JsString(Json.JArr([])) == "";
  }

  /** After a successful registration, a failed login shows "Login failed",
    * not the fallback. */
  lemma LoginAfterRegisterFails(registerReply: Reply<Json.Value>, status: FailStatus, body: string, userReply: Reply<Json.Value>)
    requires registerReply.Success?
    ensures SignUp(registerReply, Failure(status, body), userReply) == Err(Error(LoginFailed))
    ensures RegisterErrorText(SignUp(registerReply, Failure(status, body), userReply).error) == LoginFailed
  {
  }

  // ---------------------------------------------------------------- the page

  class LoginPage {
    const browser: B.Browser
    var mounted: bool
    var isLogin: bool
    var error: string
    var isLoading: bool

    /** The first render: every `useState` initial value. */
    constructor (browser: B.Browser)
      ensures this.browser == browser
      ensures !mounted && isLogin
      ensures error == "" && !isLoading
    {
      this.browser := browser;
      mounted := false;
      isLogin := true;
      error := "";
      isLoading := false;
    }

    /** The mount effect: mark the page mounted, then go to the dashboard
      * when a truthy token is stored. A stored user text that does not parse
      * makes it throw; that error is `thrown`. */
    method Mount() returns (thrown: Option<JsError>)
      requires browser.hasWindow
      modifies this`mounted, browser`navigations
      ensures mounted
      ensures var session := TS.LoginGetSession(true, browser.storage);
        && (session.Err? ==> thrown == Some(session.error) && browser.navigations == old(browser.navigations))
        && (session.Ok? ==> thrown == None)
        && (session.Ok? && session.value.token.Some? && session.value.token.value != "" ==>
              browser.navigations == old(browser.navigations) + [DashboardPath])
        && (session.Ok? && (session.value.token.None? || session.value.token.value == "") ==>
              browser.navigations == old(browser.navigations))
    {
      mounted := true;
      var session := TS.LoginGetSession(browser.hasWindow, browser.storage);
      if session.Err? {
        return Some(session.error);
      }
      var token := session.value.token;
      if token.Some? && token.value != "" {
        browser.Navigate(DashboardPath);
      }
      return None;
    }

    /** Store the session and go to the dashboard. */
    method Enter(session: (string, Json.Value))
      requires browser.hasWindow
      modifies browser
      ensures browser.storage == TS.Stored(old(browser.storage), session.0, session.1)
      ensures browser.navigations == old(browser.navigations) + [DashboardPath]
    {
      TS.SetSession(browser, session.0, session.1);
      browser.Navigate(DashboardPath);
    }

    /** `handleLoginSubmit`: the session is stored only when both calls
      * succeed; any failure shows one fixed message. */
    method HandleLoginSubmit(loginReply: Reply<Json.Value>, userReply: Reply<Json.Value>)
      requires browser.hasWindow
      modifies this`isLoading, this`error, browser
      ensures !isLoading
      ensures var r := SignIn(loginReply, userReply);
        && (r.Ok? ==> error == "" && browser.storage == TS.Stored(old(browser.storage), r.value.0, r.value.1)
                      && browser.navigations == old(browser.navigations) + [DashboardPath])
        && (r.Err? ==> error == InvalidCredentials && unchanged(browser))
    {
      isLoading := true;
      error := "";
      var r := SignIn(loginReply, userReply);
      if r.Ok? {
        Enter(r.value);
      } else {
        error := InvalidCredentials;
      }
      isLoading := false;
    }

    /** `handleRegisterSubmit`: register, then sign in as in
      * `handleLoginSubmit`; a failure shows its own message. */
    method HandleRegisterSubmit(registerReply: Reply<Json.Value>, loginReply: Reply<Json.Value>, userReply: Reply<Json.Value>)
      requires browser.hasWindow
      modifies this`isLoading, this`error, browser
      ensures !isLoading
      ensures var r := SignUp(registerReply, loginReply, userReply);
        && (r.Ok? ==> error == "" && browser.storage == TS.Stored(old(browser.storage), r.value.0, r.value.1)
                      && browser.navigations == old(browser.navigations) + [DashboardPath])
        && (r.Err? ==> error == RegisterErrorText(r.error) && unchanged(browser))
    {
      isLoading := true;
      error := "";
      var registered := Register(registerReply);
      if registered.Err? {
        error := RegisterErrorText(registered.error);
      } else {
        var r := SignIn(loginReply, userReply);
        if r.Ok? {
          Enter(r.value);
        } else {
          error := RegisterErrorText(r.error);
        }
      }
      isLoading := false;
    }

    /** The link below the form: switch between signing in and registering,
      * and drop the error shown. */
    method ToggleMode()
      modifies this`isLogin, this`error
      ensures isLogin == !old(isLogin) && error == ""
    {
      isLogin := !isLogin;
      error := "";
    }
  }
}
