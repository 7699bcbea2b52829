/** The route guard of middleware.ts. Paths containing a '.' are outside its matcher and are
    served as they are; Next.js internals, favicons and the public paths pass; everything else
    needs a session cookie that verifies under `DEMO_AUTH_SECRET`, and the hard demo expiry
    sends everyone to the login page. */
module Middleware {
  import opened Base
  import opened Json
  import Text
  import B = Base64Url
  import DA = DemoAuth

  /** The paths served without a session. */
  const PublicPaths: set<string> := {"/login", "/api/auth/login", "/api/health"}

  /** What the guard does with a request: let it through (setting the `x-demo-user` header of
      the response when a session was read) or redirect to "/login" (with `expired=1` after the
      demo expiry). The header goes on the response from `NextResponse.next()`, not on the
      request the route handler receives. */
  datatype Outcome = Pass(user: Option<string>) | ToLogin(expired: bool)

  /** The collaborators the guard calls: `Date.parse`, HMAC-SHA-256, UTF-8 decoding with
      `JSON.parse`, and the string-to-number conversion of `now >= exp`. */
  datatype Env = Env(
    expiresAt: Option<string>, secret: Option<string>,
    parseDate: string -> Option<int>, mac: (string, string) -> seq<B.Byte>,
    parse: seq<B.Byte> -> Option<Json>, strNum: string -> Option<int>)

  /** The matcher `/((?!.*\..*).*)`: only paths without a '.' reach the guard. */
  predicate Matched(pathname: string) {
    '.' !in pathname
  }

  /** Paths the guard lets through before looking at the session. */
  predicate Open(pathname: string) {
    Text.StartsWith(pathname, "/_next") || Text.StartsWith(pathname, "/favicon") || pathname in PublicPaths
  }

  /** The session the cookie carries, if it verifies: no secret means no session. */
  function SessionOf(env: Env, cookie: Option<string>, nowMs: int): Option<Json> {
    var secret := env.secret.GetOr("");
    if secret == "" then None
    else DA.VerifySession(cookie.GetOr(""), secret, env.mac, env.parse, env.strNum, nowMs / 1000)
  }

  /** `middleware(req)` at `nowMs` (ms since the epoch) with the session cookie's value. */
  function Guard(pathname: string, cookie: Option<string>, env: Env, nowMs: int): (r: Outcome)
    ensures r.Pass? && r.user.Some? ==> SessionOf(env, cookie, nowMs).Some?
  {
    if Open(pathname) then Pass(None)
    else if DA.IsDemoExpiredNow(env.expiresAt, env.parseDate, nowMs) then ToLogin(true)
    else
      match SessionOf(env, cookie, nowMs)
      case None => ToLogin(false)
      case Some(session) => Pass(Some(ToJsString(Field(Some(session), "email").value)))
  }

  /** A request as Next.js handles it: the guard runs only on matched paths. */
  function Route(pathname: string, cookie: Option<string>, env: Env, nowMs: int): Outcome {
    if Matched(pathname) then Guard(pathname, cookie, env, nowMs) else Pass(None)
  }

  /** A protected path is served exactly when the demo has not expired and the cookie verifies;
      the `x-demo-user` set on the response is the session's e-mail. */
  lemma ProtectedNeedsSession(pathname: string, cookie: Option<string>, env: Env, nowMs: int)
    requires Matched(pathname) && !Open(pathname)
    ensures Route(pathname, cookie, env, nowMs).Pass? <==>
      (!DA.IsDemoExpiredNow(env.expiresAt, env.parseDate, nowMs) && SessionOf(env, cookie, nowMs).Some?)
    ensures Route(pathname, cookie, env, nowMs).Pass? ==>
      Route(pathname, cookie, env, nowMs).user == Some(ToJsString(Field(SessionOf(env, cookie, nowMs), "email").value))
  {
  }

  /** After the demo expiry every protected path redirects to the login page, whatever the
      cookie; a missing secret refuses every cookie. */
  lemma ExpiryAndSecret(pathname: string, cookie: Option<string>, env: Env, nowMs: int)
    requires Matched(pathname) && !Open(pathname)
    ensures DA.IsDemoExpiredNow(env.expiresAt, env.parseDate, nowMs) ==> Route(pathname, cookie, env, nowMs) == ToLogin(true)
    ensures env.secret.GetOr("") == "" ==> !Route(pathname, cookie, env, nowMs).Pass?
  {
  }

  /** The public and static paths are served without a session, even after the expiry. */
  lemma OpenPathsPass(pathname: string, cookie: Option<string>, env: Env, nowMs: int)
    requires Open(pathname) || !Matched(pathname)
    ensures Route(pathname, cookie, env, nowMs) == Pass(None)
  {
  }

  /** A cookie freshly signed with the secret opens every protected path until the session
      expires (and while the demo has not). */
  lemma SignedCookiePasses(pathname: string, env: Env, encode: DA.Session -> seq<B.Byte>,
                           s: DA.Session, nowMs: int)
    requires Matched(pathname) && !Open(pathname)
    requires env.secret.Some? && env.secret.value != ""
    requires env.parse(encode(s)) == Some(DA.SessionJson(s))
    requires s.email != "" && s.exp != 0 && nowMs / 1000 < s.exp
    requires !DA.IsDemoExpiredNow(env.expiresAt, env.parseDate, nowMs)
    ensures Route(pathname, Some(DA.SignSession(encode, env.mac, s, env.secret.value)), env, nowMs) == Pass(Some(s.email))
  {
    DA.SignThenVerify(encode, env.mac, env.parse, env.strNum, s, env.secret.value, nowMs / 1000);
    DA.SessionFields(s);
  }
}
