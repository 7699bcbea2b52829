/** The two login handlers: the e-mail and password login of pages/api/auth/login.ts and the
    password-only login of pages/login.tsx, which signs a fixed demo identity. Both refuse every
    method but POST, refuse after the demo expiry, demand a secret of at least 32 UTF-16 code units,
    and on success set the eight-hour session cookie and add an "auth.login" event with the
    hashed e-mail to the in-memory audit list. */
module Login {
  import opened Base
  import opened Json
  import Text
  import B = Base64Url
  import DA = DemoAuth
  import P = Projections
  import MS = MemStore

  /** The session and cookie lifetime, eight hours in seconds. */
  const MaxAge := 60 * 60 * 8

  /** The identity of the password-only login when `DEMO_DEFAULT_EMAIL` is unset. */
  const DefaultIdentity := "demo@aif.local"

  /** The environment variables the handlers read. */
  datatype Config = Config(
    expiresAt: Option<string>, password: Option<string>, secret: Option<string>,
    allowedEmails: Option<string>, allowedDomains: Option<string>, defaultEmail: Option<string>)

  /** The collaborators: `Date.parse`, `JSON.stringify` with UTF-8 encoding, HMAC-SHA-256 and
      the SHA-256 hex digest of `hashEmail`. */
  datatype Crypto = Crypto(
    parseDate: string -> Option<int>, encode: DA.Session -> seq<B.Byte>,
    mac: (string, string) -> seq<B.Byte>, sha: string -> string)

  /** The response: the status, the `error` text of a refusal, and the `Set-Cookie` header. */
  datatype Reply = Reply(status: int, error: string, setCookie: Option<string>)

  /** The session a login at `nowMs` issues for `email`. */
  function SessionFor(email: string, nowMs: int): (s: DA.Session)
    ensures s.exp - s.iat == MaxAge
  {
    var now := nowMs / 1000;
    DA.Session(email, now, now + MaxAge)
  }

  /** The audit event of a login. */
  function LoginEvent(sha: string -> string, email: string, nowMs: int): MS.AuditEvent {
    MS.AuditEvent(nowMs, "auth.login", Some(JStr(P.HashEmail(sha, email))), JObj(map["ok" := JBool(true)]))
  }

  /** The success path both handlers share: sign the session, set the cookie, audit. */
  function Issue(email: string, secret: string, c: Crypto, nowMs: int, store: MS.MemStore): (r: (Reply, MS.MemStore))
    ensures r.0.status == 200
    ensures r.1.audit == MS.AuditAppend(store.audit, LoginEvent(c.sha, email, nowMs))
  {
    var token := DA.SignSession(c.encode, c.mac, SessionFor(email, nowMs), secret);
    (Reply(200, "", Some(DA.CookieSerialize(DA.CookieName, token, MaxAge))),
     MS.AppendAudit(store, LoginEvent(c.sha, email, nowMs)))
  }

  /** A refusal: the store is left as it was. */
  function Refuse(status: int, error: string, store: MS.MemStore): (r: (Reply, MS.MemStore)) {
    (Reply(status, error, None), store)
  }

  /** `String(body.email || "").trim().toLowerCase()`. */
  function EmailOf(body: Option<Json>): string {
    DA.Clean(StringOrEmpty(Field(body, "email")))
  }

  /** `String(body.password || "")`. */
  function PasswordOf(body: Option<Json>): string {
    StringOrEmpty(Field(body, "password"))
  }

  /** The e-mail login, with `checkPasswordSet` choosing whether an unset `DEMO_PASSWORD` is
      refused (false is the handler as written). */
  function EmailLoginWith(checkPasswordSet: bool, verb: string, body: Option<Json>, cfg: Config, c: Crypto,
                          nowMs: int, store: MS.MemStore): (r: (Reply, MS.MemStore))
    ensures r.0.status != 200 ==> r.1 == store && r.0.setCookie.None?
  {
    var demoPass, secret := cfg.password.GetOr(""), cfg.secret.GetOr("");
    if verb != "POST" then Refuse(405, "Method not allowed", store)
    else if DA.IsDemoExpiredNow(cfg.expiresAt, c.parseDate, nowMs) then Refuse(403, "Demo expired", store)
    else if checkPasswordSet && demoPass == "" then Refuse(500, "Missing DEMO_PASSWORD", store)
    else if Text.Utf16Length(secret) < 32 then Refuse(500, "Missing/weak DEMO_AUTH_SECRET", store)
    else if PasswordOf(body) != demoPass then Refuse(401, "Invalid credentials", store)
    else if !DA.IsEmailAllowed(EmailOf(body), cfg.allowedEmails, cfg.allowedDomains) then
      Refuse(403, "Email is not allowlisted", store)
    else Issue(EmailOf(body), secret, c, nowMs, store)
  }

  /** pages/api/auth/login.ts as written. */
  function EmailLoginAsWritten(verb: string, body: Option<Json>, cfg: Config, c: Crypto, nowMs: int, store: MS.MemStore): (r: (Reply, MS.MemStore))
    ensures r.0.status != 200 ==> r.1 == store
  {
    EmailLoginWith(false, verb, body, cfg, c, nowMs, store)
  }

  /** pages/api/auth/login.ts with the unset-password refusal of pages/login.tsx. */
  function EmailLogin(verb: string, body: Option<Json>, cfg: Config, c: Crypto, nowMs: int, store: MS.MemStore): (r: (Reply, MS.MemStore))
    ensures r.0.status != 200 ==> r.1 == store
  {
    EmailLoginWith(true, verb, body, cfg, c, nowMs, store)
  }

  /** With `DEMO_PASSWORD` unset, the handler as written logs in any allow-listed address that
      sends no password at all. */
  lemma UnsetPasswordAcceptedAsWritten(body: Option<Json>, cfg: Config, c: Crypto, nowMs: int, store: MS.MemStore)
    requires cfg.password.None? && Text.Utf16Length(cfg.secret.GetOr("")) >= 32
    requires !DA.IsDemoExpiredNow(cfg.expiresAt, c.parseDate, nowMs)
    requires Field(body, "password").None?
    requires DA.IsEmailAllowed(EmailOf(body), cfg.allowedEmails, cfg.allowedDomains)
    ensures EmailLoginAsWritten("POST", body, cfg, c, nowMs, store).0.status == 200
    ensures EmailLogin("POST", body, cfg, c, nowMs, store).0.status == 500
  {
  }

  /** A concrete instance: no `DEMO_PASSWORD`, no expiry, a 32-character secret, the address
      "a@b" allow-listed, and a body with that address and no password. */
  lemma UnsetPasswordWitness(c: Crypto, nowMs: int, store: MS.MemStore)
    ensures var cfg := Config(None, None, Some("0123456789" + "0123456789" + "0123456789" + "ab"), Some("a@b"), None, None);
      var body := Some(JObj(map["email" := JStr("a@b")]));
      EmailLoginAsWritten("POST", body, cfg, c, nowMs, store).0.status == 200
      && EmailLogin("POST", body, cfg, c, nowMs, store).0.status == 500
  {
    var secret := "0123456789" + "0123456789" + "0123456789" + "ab";
    var cfg := Config(None, None, Some(secret), Some("a@b"), None, None);
    var body := Some(JObj(map["email" := JStr("a@b")]));
    var e: string := "a@b";
    assert |secret| == 32 && Text.Utf16Length(secret) >= 32;
    assert Field(body, "password").None?;
    assert StringOrEmpty(Field(body, "email")) == e;
    assert Text.Trimmed(e);
    Text.TrimOfTrimmed(e);
    assert Text.IsLowerCase(e);
    Text.LowerOfLowerCase(e);
    assert EmailOf(body) == e;
    var parts := Text.Split(e, ',');
    assert ',' !in e;
    Text.JoinSplit(e, ',');
    assert parts == [e];
    DA.ParseCsvMembers(Some(e), e);
    assert e in DA.ParseCsv(Some(e));
    assert '@' in e by { assert e[1] == '@'; }
    UnsetPasswordAcceptedAsWritten(body, cfg, c, nowMs, store);
  }

  /** The corrected e-mail login succeeds exactly for a POST before the demo expiry, with a set
      password that matches, a strong secret and an allow-listed address; it then sets the
      cookie of that address's session and audits the login. */
  lemma EmailLoginSucceeds(verb: string, body: Option<Json>, cfg: Config, c: Crypto, nowMs: int, store: MS.MemStore)
    ensures var r := EmailLogin(verb, body, cfg, c, nowMs, store);
      r.0.status == 200 <==>
        (verb == "POST" && !DA.IsDemoExpiredNow(cfg.expiresAt, c.parseDate, nowMs)
         && cfg.password.GetOr("") != "" && Text.Utf16Length(cfg.secret.GetOr("")) >= 32
         && PasswordOf(body) == cfg.password.GetOr("")
         && DA.IsEmailAllowed(EmailOf(body), cfg.allowedEmails, cfg.allowedDomains))
    ensures var r := EmailLogin(verb, body, cfg, c, nowMs, store);
      r.0.status == 200 ==>
        r.0.setCookie == Some(DA.CookieSerialize(DA.CookieName,
          DA.SignSession(c.encode, c.mac, SessionFor(EmailOf(body), nowMs), cfg.secret.GetOr("")), MaxAge))
        && r.1.audit == MS.AuditAppend(store.audit, LoginEvent(c.sha, EmailOf(body), nowMs))
  {
  }

  /** The identity the password-only login signs: the cleaned `DEMO_DEFAULT_EMAIL`, or the
      fixed demo address. */
  function DefaultEmail(cfg: Config): (e: string)
    ensures e != ""
    ensures e == DefaultIdentity || e == DA.Clean(cfg.defaultEmail.GetOr(""))
  {
    var e := DA.Clean(cfg.defaultEmail.GetOr(""));
    if e == "" then DefaultIdentity else e
  }

  /** pages/login.tsx: the password-only login. */
  function PasswordLogin(verb: string, body: Option<Json>, cfg: Config, c: Crypto, nowMs: int, store: MS.MemStore): (r: (Reply, MS.MemStore))
    ensures r.0.status != 200 ==> r.1 == store && r.0.setCookie.None?
  {
    var demoPass, secret := cfg.password.GetOr(""), cfg.secret.GetOr("");
    if verb != "POST" then Refuse(405, "Method not allowed", store)
    else if DA.IsDemoExpiredNow(cfg.expiresAt, c.parseDate, nowMs) then Refuse(403, "Demo expired", store)
    else if demoPass == "" then Refuse(500, "Missing DEMO_PASSWORD", store)
    else if Text.Utf16Length(secret) < 32 then Refuse(500, "Missing/weak DEMO_AUTH_SECRET", store)
    else if PasswordOf(body) != demoPass then Refuse(401, "Invalid credentials", store)
    else Issue(DefaultEmail(cfg), secret, c, nowMs, store)
  }

  /** The password-only login succeeds exactly for a POST before the expiry with the set
      password and a strong secret, and signs the default identity without consulting the
      allow list. */
  lemma PasswordLoginSucceeds(verb: string, body: Option<Json>, cfg: Config, c: Crypto, nowMs: int, store: MS.MemStore)
    ensures var r := PasswordLogin(verb, body, cfg, c, nowMs, store);
      r.0.status == 200 <==>
        (verb == "POST" && !DA.IsDemoExpiredNow(cfg.expiresAt, c.parseDate, nowMs)
         && cfg.password.GetOr("") != "" && Text.Utf16Length(cfg.secret.GetOr("")) >= 32
         && PasswordOf(body) == cfg.password.GetOr(""))
    ensures var r := PasswordLogin(verb, body, cfg, c, nowMs, store);
      r.0.status == 200 ==> r.0.setCookie == Some(DA.CookieSerialize(DA.CookieName,
          DA.SignSession(c.encode, c.mac, SessionFor(DefaultEmail(cfg), nowMs), cfg.secret.GetOr("")), MaxAge))
  {
  }

  /** The session a successful e-mail login signs verifies under the same secret for the next
      eight hours: it has an e-mail (an allowed address holds an '@') and a positive expiry. */
  lemma LoginSessionVerifies(body: Option<Json>, cfg: Config, c: Crypto, nowMs: int, laterMs: int,
                             parse: seq<B.Byte> -> Option<Json>, strNum: string -> Option<int>)
    requires nowMs >= 0 && laterMs / 1000 < nowMs / 1000 + MaxAge
    requires DA.IsEmailAllowed(EmailOf(body), cfg.allowedEmails, cfg.allowedDomains)
    requires var s := SessionFor(EmailOf(body), nowMs); parse(c.encode(s)) == Some(DA.SessionJson(s))
    ensures var s := SessionFor(EmailOf(body), nowMs);
      DA.VerifySession(DA.SignSession(c.encode, c.mac, s, cfg.secret.GetOr("")), cfg.secret.GetOr(""), c.mac, parse, strNum, laterMs / 1000)
        == Some(DA.SessionJson(s))
  {
    var s := SessionFor(EmailOf(body), nowMs);
    assert s.email != "";
    DA.SignThenVerify(c.encode, c.mac, parse, strNum, s, cfg.secret.GetOr(""), laterMs / 1000);
  }
}
