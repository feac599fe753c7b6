/** Logging in, registering and logging out on the client. */
module AppAuth {
  import opened Wrappers
  import opened AppModel

  const LoginUrl := "http://localhost:8000/login"
  const RegisterUrl := "http://localhost:8000/register"
  const NetworkError := "Network error"
  const AuthFailed := "Authentication failed"

  /** The Login or Register button opens the credentials form in that mode. */
  function OpenAuth(s: State, mode: AuthMode): (r: State)
    ensures r.authMode == Some(mode)
    ensures r == s.(authMode := r.authMode)
  {
    s.(authMode := Some(mode))
  }

  datatype AuthField = Username | Password

  /** `handleAuthChange`: the named credential takes the typed text. */
  function AuthChange(s: State, f: AuthField, value: string): (r: State)
    ensures f == Username ==> r.authForm == s.authForm.(username := value)
    ensures f == Password ==> r.authForm == s.authForm.(password := value)
    ensures r == s.(authForm := r.authForm)
  {
    match f
    case Username => s.(authForm := s.authForm.(username := value))
    case Password => s.(authForm := s.authForm.(password := value))
  }

  /** How the credentials are encoded in the request body. */
  datatype AuthBody = JsonBody(credentials: AuthForm) | UrlEncodedBody(credentials: AuthForm)

  datatype AuthRequest = AuthRequest(url: string, contentType: string, body: AuthBody)

  /** The request `handleAuthSubmit` sends: JSON to the register endpoint in register mode,
      a form-encoded body to the login endpoint in every other mode (including none). */
  function AuthRequestFor(s: State): (q: AuthRequest)
    ensures q.body.credentials == s.authForm
    ensures s.authMode == Some(Register) <==> q.url == RegisterUrl
    ensures s.authMode != Some(Register) ==> q.url == LoginUrl
    ensures q.url == RegisterUrl <==> q.body.JsonBody?
    ensures q.body.JsonBody? <==> q.contentType == "application/json"
    ensures q.body.UrlEncodedBody? <==> q.contentType == "application/x-www-form-urlencoded"
  {
    if s.authMode == Some(Register) then
      AuthRequest(RegisterUrl, "application/json", JsonBody(s.authForm))
    else
      AuthRequest(LoginUrl, "application/x-www-form-urlencoded", UrlEncodedBody(s.authForm))
  }

  /** The parsed reply of either auth endpoint: a token on success, an error detail otherwise. */
  datatype AuthReply = AuthReply(accessToken: Option<string>, detail: Option<string>)

  /** The exchange succeeded: an ok response carrying a truthy token. */
  predicate AuthSucceeded(outcome: Outcome<AuthReply>) {
    outcome.Response? && outcome.ok && TruthyText(outcome.body.accessToken)
  }

  /** The part of `handleAuthSubmit` before the request: the error text is cleared. */
  function AuthStart(s: State): (r: State)
    ensures r.authError == ""
    ensures r == s.(authError := "")
  {
    s.(authError := "")
  }

  /** The part after the request. On success the token goes into memory and the persisted slot
      and the form closes; otherwise the error text is the reply's detail, falling back to a
      generic message, or the network-error message when the request or parsing threw. */
  function AuthFinish(s: State, outcome: Outcome<AuthReply>): (r: State)
    ensures AuthSucceeded(outcome) ==>
              && r.authToken == outcome.body.accessToken && r.storedToken == outcome.body.accessToken
              && r.authMode.None? && r.authError == s.authError
    ensures !AuthSucceeded(outcome) ==>
              r.authToken == s.authToken && r.storedToken == s.storedToken && r.authMode == s.authMode
    ensures outcome.Throws? ==> r.authError == NetworkError
    ensures outcome.Response? && !AuthSucceeded(outcome) ==>
              r.authError == (if TruthyText(outcome.body.detail) then outcome.body.detail.value else AuthFailed)
    ensures r == s.(authToken := r.authToken, storedToken := r.storedToken, authMode := r.authMode, authError := r.authError)
  {
    match outcome
    case Throws => s.(authError := NetworkError)
    case Response(ok, data) =>
      if ok && TruthyText(data.accessToken) then
        s.(authToken := data.accessToken, storedToken := data.accessToken, authMode := None)
      else
        s.(authError := if TruthyText(data.detail) then data.detail.value else AuthFailed)
  }

  /** `handleAuthSubmit` as one step. */
  function HandleAuthSubmit(s: State, outcome: Outcome<AuthReply>): (r: State)
    ensures AuthSucceeded(outcome) ==>
              && r.authToken == outcome.body.accessToken && r.storedToken == outcome.body.accessToken
              && r.authMode.None? && r.authError == ""
    ensures !AuthSucceeded(outcome) ==>
              r.authToken == s.authToken && r.storedToken == s.storedToken && r.authMode == s.authMode
    ensures outcome.Throws? ==> r.authError == NetworkError
    ensures outcome.Response? && !AuthSucceeded(outcome) && TruthyText(outcome.body.detail) ==>
              r.authError == outcome.body.detail.value
    ensures outcome.Response? && !AuthSucceeded(outcome) && !TruthyText(outcome.body.detail) ==>
              r.authError == AuthFailed
    ensures r.authError == "" <==> AuthSucceeded(outcome)
    ensures r == s.(authToken := r.authToken, storedToken := r.storedToken, authMode := r.authMode, authError := r.authError)
  {
    AuthFinish(AuthStart(s), outcome)
  }

  /** `handleLogout`: both token slots are cleared; the auth form mode is left as it was. */
  function Logout(s: State): (r: State)
    ensures r.authToken.None? && r.storedToken.None?
    ensures r == s.(authToken := None, storedToken := None)
  {
    s.(authToken := None, storedToken := None)
  }

  /** A rejected login leaves the session alone and shows the server's detail verbatim. */
  lemma RejectedLoginShowsDetail(s: State, detail: string)
    requires detail != ""
    ensures var r := HandleAuthSubmit(s, Response(false, AuthReply(None, Some(detail))));
            r.authToken == s.authToken && r.storedToken == s.storedToken && r.authError == detail
  {
  }

  /** A network failure and a rejection never produce the same error text unless the server's
      detail is literally the network-error message. */
  lemma NetworkErrorDistinct(s: State, reply: AuthReply)
    requires reply.detail != Some(NetworkError)
    ensures HandleAuthSubmit(s, Response(false, reply)).authError != HandleAuthSubmit(s, Throws).authError
  {
  }

  /** Logging out right after logging in returns the session to anonymous, whatever it was. */
  lemma LoginThenLogout(s: State, token: string)
    requires token != ""
    ensures var r := Logout(HandleAuthSubmit(s, Response(true, AuthReply(Some(token), None))));
            r.authToken.None? && r.storedToken.None? && r.authMode.None?
  {
  }
}
