/** The demo authentication of lib/demoAuth.ts: comma-separated allow lists, the hard demo
    expiry, the e-mail allow-list check, and the signed session token "payload.signature" with
    both halves in base64url. HMAC-SHA-256 (`mac`), `JSON.stringify` plus UTF-8 encoding
    (`encode`), UTF-8 decoding plus `JSON.parse` (`parse`, `None` when it throws), `Date.parse`
    (`parseDate`, `None` for NaN) and the clock are parameters. */
module DemoAuth {
  import opened Base
  import opened Json
  import Text
  import B = Base64Url

  /** `getCookieName()`. */
  const CookieName := "aif_demo_session"

  /** A session: the user's e-mail and the issue and expiry instants in unix seconds. */
  datatype Session = Session(email: string, iat: int, exp: int)

  /** `s.trim().toLowerCase()`. */
  function Clean(s: string): string {
    Text.Lower(Text.Trim(s))
  }

  /** Cleaning twice is cleaning once. */
  lemma CleanIdempotent(s: string)
    ensures Clean(Clean(s)) == Clean(s)
  {
    var t := Text.Trim(s);
    Text.LowerTrim(t);
    Text.TrimIdempotent(s);
    Text.LowerIdempotent(t);
  }

  /** A trimmed lower-case string is already clean. */
  lemma CleanOfClean(s: string)
    requires Text.Trimmed(s) && Text.IsLowerCase(s)
    ensures Clean(s) == s
  {
    Text.TrimOfTrimmed(s);
    Text.LowerOfLowerCase(s);
  }

  /** The cleaned items that are not empty, in order. */
  function CleanAll(parts: seq<string>): (r: seq<string>)
    ensures forall i :: 0 <= i < |r| ==> r[i] != "" && Clean(r[i]) == r[i]
    decreases |parts|
  {
    if |parts| == 0 then []
    else
      var c := Clean(parts[0]);
      CleanIdempotent(parts[0]);
      if c == "" then CleanAll(parts[1..]) else [c] + CleanAll(parts[1..])
  }

  /** An item is kept exactly when it is the non-empty cleaned form of some part. */
  lemma {:induction false} CleanAllMembers(parts: seq<string>, x: string)
    ensures x in CleanAll(parts) <==> x != "" && exists p :: p in parts && Clean(p) == x
    decreases |parts|
  {
    if |parts| > 0 {
      CleanAllMembers(parts[1..], x);
      assert forall p :: p in parts <==> p == parts[0] || p in parts[1..];
    }
  }

  /** `parseCsv(envVal)`: an unset variable reads as "". */
  function ParseCsv(env: Option<string>): (r: seq<string>)
    ensures forall i :: 0 <= i < |r| ==> r[i] != "" && Clean(r[i]) == r[i]
  {
    CleanAll(Text.Split(env.GetOr(""), ','))
  }

  /** The list holds the non-empty cleaned comma-separated pieces of the variable, and nothing
      else. */
  lemma ParseCsvMembers(env: Option<string>, x: string)
    ensures x in ParseCsv(env) <==> x != "" && exists p :: p in Text.Split(env.GetOr(""), ',') && Clean(p) == x
  {
    CleanAllMembers(Text.Split(env.GetOr(""), ','), x);
  }

  /** `isDemoExpiredNow()`: `DEMO_EXPIRES_AT` is `expiresAt`, `Date.now()` is `now` (ms). */
  function IsDemoExpiredNow(expiresAt: Option<string>, parseDate: string -> Option<int>, now: int): bool {
    if expiresAt.None? || expiresAt.value == "" then false
    else
      match parseDate(expiresAt.value)
      case None => false
      case Some(ts) => now > ts
  }

  /** Once the demo has expired it stays expired; an unset or unreadable deadline never
      expires. */
  lemma ExpiryMonotone(expiresAt: Option<string>, parseDate: string -> Option<int>, now: int, later: int)
    requires now <= later
    ensures IsDemoExpiredNow(expiresAt, parseDate, now) ==> IsDemoExpiredNow(expiresAt, parseDate, later)
    ensures IsDemoExpiredNow(expiresAt, parseDate, now) ==>
      (expiresAt.Some? && parseDate(expiresAt.value).Some? && now > parseDate(expiresAt.value).value)
  {
  }

  /** `email.split("@")[1] || ""`. */
  function DomainOf(email: string): string {
    var parts := Text.Split(email, '@');
    if |parts| > 1 then parts[1] else ""
  }

  /** The domain of an address with a single '@' is what follows it. */
  lemma DomainOfAddress(local: string, domain: string)
    requires '@' !in local && '@' !in domain
    ensures DomainOf(local + "@" + domain) == domain
  {
    Text.SplitPair(local, '@', domain);
  }

  /** `isEmailAllowed(emailRaw)` with `DEMO_ALLOWED_EMAILS` and `DEMO_ALLOWED_DOMAINS`. */
  function IsEmailAllowed(emailRaw: string, emails: Option<string>, domains: Option<string>): (r: bool)
    ensures r ==> '@' in Clean(emailRaw)
    ensures '@' in Clean(emailRaw) && Clean(emailRaw) in ParseCsv(emails) ==> r
    ensures r <==> ('@' in Clean(emailRaw)
      && (Clean(emailRaw) in ParseCsv(emails) || DomainOf(Clean(emailRaw)) in ParseCsv(domains)))
  {
    var email := Clean(emailRaw);
    if '@' !in email then false
    else if email in ParseCsv(emails) then true
    else DomainOf(email) in ParseCsv(domains)
  }

  /** An address with one '@' is allowed exactly when it is listed or its domain is. Case and
      surrounding white space make no difference. */
  lemma AllowedAddress(emailRaw: string, local: string, domain: string, emails: Option<string>, domains: Option<string>)
    requires '@' !in local && '@' !in domain
    requires Clean(emailRaw) == local + "@" + domain
    ensures IsEmailAllowed(emailRaw, emails, domains) <==>
      (local + "@" + domain in ParseCsv(emails) || domain in ParseCsv(domains))
    ensures IsEmailAllowed(emailRaw, emails, domains) == IsEmailAllowed(Clean(emailRaw), emails, domains)
  {
    DomainOfAddress(local, domain);
    CleanIdempotent(emailRaw);
  }

  /** `hmac(data, secret)`: the HMAC-SHA-256 digest `mac(secret, data)` in base64url. */
  function Hmac(mac: (string, string) -> seq<B.Byte>, data: string, secret: string): (r: string)
    ensures '.' !in r
  {
    B.B64urlAlphabet(mac(secret, data));
    B.B64url(mac(secret, data))
  }

  /** `signSession(session, secret)`. */
  function SignSession(encode: Session -> seq<B.Byte>, mac: (string, string) -> seq<B.Byte>, s: Session, secret: string): (token: string)
    ensures Text.Split(token, '.') == [B.B64url(encode(s)), Hmac(mac, B.B64url(encode(s)), secret)]
  {
    var payload := B.B64url(encode(s));
    B.B64urlAlphabet(encode(s));
    Text.SplitPair(payload, '.', Hmac(mac, payload, secret));
    payload + "." + Hmac(mac, payload, secret)
  }

  /** `now >= exp` in JavaScript: false when `exp` converts to NaN. */
  predicate ExpiredAt(now: int, exp: Json, strNum: string -> Option<int>) {
    var n := ToNumber(exp, strNum);
    n.Some? && now >= n.value
  }

  /** `verifySession(token, secret)` at `now` (unix seconds): the parsed payload, or `None`
      for null. */
  function VerifySession(token: string, secret: string, mac: (string, string) -> seq<B.Byte>,
                         parse: seq<B.Byte> -> Option<Json>, strNum: string -> Option<int>, now: int): (r: Option<Json>)
    ensures r.Some? ==> Truthy(Field(r, "email")) && Truthy(Field(r, "exp"))
    ensures r.Some? ==> !ExpiredAt(now, Field(r, "exp").value, strNum)
    ensures r.Some? ==> var p := Text.Split(token, '.')[0];
      token == p + "." + Hmac(mac, p, secret) && B.B64urlToBuf(p).Some?
  {
    var parts := Text.Split(token, '.');
    if |parts| != 2 then None
    else
      var payload, sig := parts[0], parts[1];
      if sig != Hmac(mac, payload, secret) then None
      else
        match B.B64urlToBuf(payload)
        case None => None
        case Some(bytes) =>
          match parse(bytes)
          case None => None
          case Some(obj) =>
            var email, exp := Field(Some(obj), "email"), Field(Some(obj), "exp");
            if !Truthy(email) || !Truthy(exp) then None
            else if ExpiredAt(now, exp.value, strNum) then None
            else
              Text.JoinSplit(token, '.');
              Some(obj)
  }

  /** The object `JSON.parse` gives back for a session. */
  function SessionJson(s: Session): Json {
    JObj(map["email" := JStr(s.email), "iat" := JNum(s.iat), "exp" := JNum(s.exp)])
  }

  /** The fields `verifySession` reads from a session object. */
  lemma SessionFields(s: Session)
    ensures Field(Some(SessionJson(s)), "email") == Some(JStr(s.email))
    ensures Field(Some(SessionJson(s)), "exp") == Some(JNum(s.exp))
  {
  }

  /** A signed session verifies with the same secret, before its expiry, when it has an e-mail
      and a non-zero expiry; it is refused otherwise. */
  lemma SignThenVerify(encode: Session -> seq<B.Byte>, mac: (string, string) -> seq<B.Byte>,
                       parse: seq<B.Byte> -> Option<Json>, strNum: string -> Option<int>,
                       s: Session, secret: string, now: int)
    requires parse(encode(s)) == Some(SessionJson(s))
    ensures VerifySession(SignSession(encode, mac, s, secret), secret, mac, parse, strNum, now)
      == if s.email != "" && s.exp != 0 && now < s.exp then Some(SessionJson(s)) else None
  {
    var token := SignSession(encode, mac, s, secret);
    var payload := B.B64url(encode(s));
    assert Text.Split(token, '.') == [payload, Hmac(mac, payload, secret)];
    B.RoundTrip(encode(s));
    assert B.B64urlToBuf(payload) == Some(encode(s));
    SessionFields(s);
  }

  /** A token whose signature is not the HMAC of its payload under the secret is refused. */
  lemma TamperedRejected(payload: string, sig: string, secret: string, mac: (string, string) -> seq<B.Byte>,
                         parse: seq<B.Byte> -> Option<Json>, strNum: string -> Option<int>, now: int)
    requires '.' !in payload && '.' !in sig
    requires sig != Hmac(mac, payload, secret)
    ensures VerifySession(payload + "." + sig, secret, mac, parse, strNum, now).None?
  {
    Text.SplitPair(payload, '.', sig);
  }

  /** The attributes `cookieSerialize` joins after the name and value, up to the lifetime. */
  const CookieAttrs := "; Path=/; HttpOnly; SameSite=Lax; Secure; Max-Age="

  /** `cookieSerialize(name, value, maxAgeSec)`: the six parts joined by "; ". */
  function CookieSerialize(name: string, value: string, maxAge: int): string {
    name + "=" + value + CookieAttrs + Text.IntToString(maxAge)
  }

  /** `clearCookieHeader(name)`: the header text "<name>=; Path=/; HttpOnly; SameSite=Lax;
      Secure; Max-Age=0", spelled with the shared attribute text. */
  function ClearCookieHeader(name: string): string {
    name + "=" + CookieAttrs + "0"
  }

  /** The clearing header is the cookie with an empty value and a zero lifetime. */
  lemma ClearIsEmptyCookie(name: string)
    ensures ClearCookieHeader(name) == CookieSerialize(name, "", 0)
  {
    assert Text.IntToString(0) == "0";
  }
}
