/**
 * The HTTP interceptor's decisions: which requests go out untouched, when the
 * bearer token from `sessionStorage` is attached, and what a failed reply
 * triggers.
 */
module AuthInterceptors {
  import opened Optional
  import opened Text
  import opened AuthServices
  import opened Http

  /** An outgoing request: its URL and its headers. */
  datatype Request = Request(url: string, headers: map<string, string>)

  /** The key under which the interceptor looks for the token in `sessionStorage`. */
  const SessionTokenKey := "auth_token"
  const AuthorizationHeader := "Authorization"
  const AuthFragments := ["/login", "/register", "/refresh", "/validate", "/logout", "/force-device"]

  /** What the interceptor produces: the request it forwards, the reply it passes on, and a redirect. */
  datatype Outcome<T> = Outcome(sent: Request, reply: Result<T, HttpError>, redirect: Option<string>)

  /** The URL contains one of the authentication endpoint fragments. */
  predicate IsAuthEndpoint(url: string) {
    || Contains(url, "/login") || Contains(url, "/register") || Contains(url, "/refresh")
    || Contains(url, "/validate") || Contains(url, "/logout") || Contains(url, "/force-device")
  }

  /** The request forwarded to the next handler. */
  function Authorized(req: Request, session: map<string, string>): (r: Request)
    ensures r.url == req.url
    ensures IsAuthEndpoint(req.url) ==> r == req
    ensures !IsAuthEndpoint(req.url) && SessionTokenKey in session && session[SessionTokenKey] != "" ==>
      r.headers == req.headers[AuthorizationHeader := "Bearer " + session[SessionTokenKey]]
    ensures !(SessionTokenKey in session && session[SessionTokenKey] != "") ==> r == req
  {
    if IsAuthEndpoint(req.url) then req
    else if SessionTokenKey in session && session[SessionTokenKey] != "" then
      req.(headers := req.headers[AuthorizationHeader := "Bearer " + session[SessionTokenKey]])
    else req
  }

  /**
   * The whole interceptor for one request, with the reply of the next handler as
   * a parameter. Authentication endpoints are forwarded without any error
   * handling; for the others a 401 on a URL without `/refresh` redirects to the
   * login view. The error is passed on unchanged in every case.
   */
  function Intercept<T>(req: Request, session: map<string, string>, reply: Result<T, HttpError>): (r: Outcome<T>)
    ensures r.sent == Authorized(req, session)
    ensures r.reply == reply
    ensures r.redirect.Some? ==> r.redirect.value == LoginRoute
  {
    if IsAuthEndpoint(req.url) then Outcome(req, reply, None)
    else
      var redirect :=
        if reply.Err? && reply.error.status == 401 && !Contains(req.url, "/refresh") then Some(LoginRoute)
        else None;
      Outcome(Authorized(req, session), reply, redirect)
  }

  // ---- properties ------------------------------------------------------------------

  /** A URL that contains an authentication fragment anywhere is forwarded as it is. */
  lemma AuthEndpointForwarded<T>(before: string, fragment: string, after: string,
                                 session: map<string, string>, headers: map<string, string>,
                                 reply: Result<T, HttpError>)
    requires fragment in AuthFragments
    ensures var req := Request(before + fragment + after, headers);
      Intercept(req, session, reply) == Outcome(req, reply, None)
  {
    ContainsInfix(before, fragment, after);
  }

  /** Without a stored token, a request goes out exactly as it came in. */
  lemma NoTokenNoChange<T>(req: Request, session: map<string, string>, reply: Result<T, HttpError>)
    requires SessionTokenKey !in session || session[SessionTokenKey] == ""
    ensures Intercept(req, session, reply).sent == req
  {
  }

  /**
   * A redirect happens exactly on a 401 for a URL that is not an authentication
   * endpoint; the `/refresh` test adds nothing, since such URLs are already
   * forwarded untouched.
   */
  lemma RedirectExactlyOn401<T>(req: Request, session: map<string, string>, reply: Result<T, HttpError>)
    ensures Intercept(req, session, reply).redirect.Some? <==>
      !IsAuthEndpoint(req.url) && reply.Err? && reply.error.status == 401
  {
  }

  /** The token storage service keeps its token elsewhere: its `token` key is never read here. */
  lemma ServiceTokenNotUsed<T>(req: Request, session: map<string, string>, token: string, reply: Result<T, HttpError>)
    requires SessionTokenKey !in session
    ensures Intercept(req, session[TokenItem := token], reply).sent == req
  {
  }
}
