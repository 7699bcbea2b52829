/** The edge-runtime helpers of lib/demoAuthEdge.ts. The allow-list check compares canonical
    addresses (Gmail aliases folded together), and the session is read from the payload half of
    the token without checking the signature. `parseCsv` and `isExpiredNow` are the same as in
    lib/demoAuth.ts and are taken from `DemoAuth`. */
module DemoAuthEdge {
  import opened Base
  import opened Json
  import Text
  import B = Base64Url
  import DA = DemoAuth

  const Gmail := "gmail.com"
  const Googlemail := "googlemail.com"

  /** The domain as `canonicalizeEmail` rewrites it. */
  function FoldDomain(domain: string): string {
    if domain == Googlemail then Gmail else domain
  }

  /** The local part as `canonicalizeEmail` rewrites it for a (rewritten) domain. */
  function FoldLocal(local: string, domain: string): string {
    if domain == Gmail then Text.RemoveAll(Text.Split(local, '+')[0], '.') else local
  }

  /** `canonicalizeEmail(emailRaw)`: for Gmail the local part loses its "+tag" and its dots,
      and "googlemail.com" is read as "gmail.com". Only the first two '@'-pieces are kept. */
  function Canonicalize(emailRaw: string): (r: string)
    ensures '@' in r <==> '@' in DA.Clean(emailRaw)
  {
    var email := DA.Clean(emailRaw);
    var parts := Text.Split(email, '@');
    if parts[0] == "" || |parts| < 2 || parts[1] == "" then email
    else
      var domain := FoldDomain(parts[1]);
      FoldLocal(parts[0], domain) + "@" + domain
  }

  /** An address that is clean and has one '@' is rewritten part by part. */
  lemma CanonicalAddress(local: string, domain: string)
    requires local != "" && domain != "" && '@' !in local && '@' !in domain
    requires DA.Clean(local + "@" + domain) == local + "@" + domain
    ensures Canonicalize(local + "@" + domain) == FoldLocal(local, FoldDomain(domain)) + "@" + FoldDomain(domain)
  {
    Text.SplitPair(local, '@', domain);
  }

  /** An address that is already clean and has one '@'. */
  lemma CleanAddress(local: string, domain: string)
    requires local != "" && !Text.IsSpace(local[0]) && Text.IsLowerCase(local)
    requires domain != "" && !Text.IsSpace(domain[|domain| - 1]) && Text.IsLowerCase(domain)
    ensures DA.Clean(local + "@" + domain) == local + "@" + domain
  {
    var e := local + "@" + domain;
    assert e[0] == local[0] && e[|e| - 1] == domain[|domain| - 1];
    DA.CleanOfClean(e);
  }

  /** The domain names `canonicalizeEmail` rewrites: lower-case, without '@', ending in 'm'. */
  lemma GmailNames()
    ensures FoldDomain(Googlemail) == Gmail && FoldDomain(Gmail) == Gmail
    ensures '@' !in Gmail && '@' !in Googlemail
    ensures Text.IsLowerCase(Gmail) && Text.IsLowerCase(Googlemail)
    ensures !Text.IsSpace(Gmail[|Gmail| - 1]) && !Text.IsSpace(Googlemail[|Googlemail| - 1])
  {
  }

  /** "googlemail.com" and "gmail.com" addresses with the same local part are the same
      canonical address. */
  lemma GooglemailIsGmail(local: string)
    requires local != "" && !Text.IsSpace(local[0]) && Text.IsLowerCase(local) && '@' !in local
    ensures Canonicalize(local + "@" + Googlemail) == Canonicalize(local + "@" + Gmail)
  {
    GmailNames();
    CleanAddress(local, Googlemail);
    CleanAddress(local, Gmail);
    CanonicalAddress(local, Googlemail);
    CanonicalAddress(local, Gmail);
  }

  /** A local part with a "+tag": clean, without '@', and cut back to `local` at the '+'. */
  lemma TaggedLocal(local: string, tag: string)
    requires local != "" && Text.IsLowerCase(local) && Text.IsLowerCase(tag)
    requires '@' !in local && '@' !in tag && '+' !in local
    ensures var l := local + "+" + tag;
      l[0] == local[0] && Text.IsLowerCase(l) && '@' !in l && Text.Split(l, '+')[0] == local
  {
    var l := local + "+" + tag;
    assert Text.IsLowerCase(l) by {
      forall i | 0 <= i < |l| ensures !('A' <= l[i] <= 'Z') {
        if i > |local| { assert l[i] == tag[i - |local| - 1]; }
      }
    }
    assert '@' !in l by {
      forall i | 0 <= i < |l| ensures l[i] != '@' {
        if i < |local| { assert l[i] == local[i]; }
        else if i > |local| { assert l[i] == tag[i - |local| - 1]; }
      }
    }
    Text.SplitCons(local, '+', tag);
  }

  /** A Gmail address loses its "+tag" and every dot of its local part. */
  lemma GmailTagAndDots(local: string, tag: string)
    requires local != "" && !Text.IsSpace(local[0]) && Text.IsLowerCase(local) && Text.IsLowerCase(tag)
    requires '@' !in local && '@' !in tag && '+' !in local
    ensures Canonicalize(local + "+" + tag + "@" + Gmail) == Text.RemoveAll(local, '.') + "@" + Gmail
    ensures '.' !in Text.RemoveAll(local, '.')
  {
    GmailNames();
    var l := local + "+" + tag;
    TaggedLocal(local, tag);
    CleanAddress(l, Gmail);
    CanonicalAddress(l, Gmail);
  }

  /** `allowedEmailsRaw.map(canonicalizeEmail)`. */
  function CanonicalAll(xs: seq<string>): (r: seq<string>)
    ensures |r| == |xs| && forall i :: 0 <= i < |xs| ==> r[i] == Canonicalize(xs[i])
  {
    seq(|xs|, i requires 0 <= i < |xs| => Canonicalize(xs[i]))
  }

  /** `isEmailAllowed(emailRaw)` of the edge runtime. */
  function IsEmailAllowed(emailRaw: string, emails: Option<string>, domains: Option<string>): (r: bool)
    ensures r ==> '@' in DA.Clean(emailRaw)
  {
    var email := Canonicalize(emailRaw);
    if '@' !in email then false
    else if email in CanonicalAll(DA.ParseCsv(emails)) then true
    else DA.DomainOf(email) in DA.ParseCsv(domains)
  }

  /** The edge check depends only on the canonical address: aliases are allowed alike. */
  lemma AliasesAgree(x: string, y: string, emails: Option<string>, domains: Option<string>)
    requires Canonicalize(x) == Canonicalize(y)
    ensures IsEmailAllowed(x, emails, domains) == IsEmailAllowed(y, emails, domains)
  {
  }

  /** An address listed verbatim is admitted by both checks, the server's and the edge's. */
  lemma ListedAllowedBoth(emailRaw: string, emails: Option<string>, domains: Option<string>)
    requires '@' in DA.Clean(emailRaw) && DA.Clean(emailRaw) in DA.ParseCsv(emails)
    ensures IsEmailAllowed(emailRaw, emails, domains)
    ensures DA.IsEmailAllowed(emailRaw, emails, domains)
  {
    var list := DA.ParseCsv(emails);
    var i :| 0 <= i < |list| && list[i] == DA.Clean(emailRaw);
    DA.CleanIdempotent(emailRaw);
    assert Canonicalize(list[i]) == Canonicalize(emailRaw);
    assert CanonicalAll(list)[i] == Canonicalize(emailRaw);
  }

  /** The session the edge reads: the e-mail cleaned, `iat` and `exp` as they were. */
  datatype EdgeSession = EdgeSession(email: string, iat: Option<Json>, exp: Option<Json>)

  /** `tryDecodeSession(token)` at `now` (unix seconds). The `atob` and `TextDecoder` steps
      with `JSON.parse` are `parse` after the base64url decoding. */
  function TryDecodeSession(token: string, parse: seq<B.Byte> -> Option<Json>, strNum: string -> Option<int>, now: int): (r: Option<EdgeSession>)
    ensures r.Some? ==> DA.Clean(r.value.email) == r.value.email
    ensures r.Some? ==> Truthy(r.value.exp) ==> !DA.ExpiredAt(now, r.value.exp.value, strNum)
  {
    var t := Text.Trim(token);
    if t == "" then None
    else
      var payload := Text.Split(t, '.')[0];
      if payload == "" then None
      else
        match B.B64urlToBuf(payload)
        case None => None
        case Some(bytes) =>
          match parse(bytes)
          case None => None
          case Some(obj) =>
            var email, exp := Field(Some(obj), "email"), Field(Some(obj), "exp");
            if !Truthy(email) then None
            else if Truthy(exp) && DA.ExpiredAt(now, exp.value, strNum) then None
            else
              DA.CleanIdempotent(ToJsString(email.value));
              Some(EdgeSession(DA.Clean(ToJsString(email.value)), Field(Some(obj), "iat"), exp))
  }

  predicate NoSpace(s: string) {
    forall i :: 0 <= i < |s| ==> !Text.IsSpace(s[i])
  }

  lemma TrimNoSpace(s: string)
    requires NoSpace(s)
    ensures Text.Trim(s) == s
  {
    Text.TrimOfTrimmed(s);
  }

  /** The signature half of a token has no influence at the edge: a payload with any signature
      decodes as the payload alone. */
  lemma SignatureIgnored(payload: string, sig: string, parse: seq<B.Byte> -> Option<Json>, strNum: string -> Option<int>, now: int)
    requires '.' !in payload && NoSpace(payload) && NoSpace(sig)
    ensures TryDecodeSession(payload + "." + sig, parse, strNum, now) == TryDecodeSession(payload, parse, strNum, now)
  {
    var t := payload + "." + sig;
    assert NoSpace(t);
    TrimNoSpace(t);
    TrimNoSpace(payload);
    Text.SplitCons(payload, '.', sig);
  }

  /** Every character of base64url text is printable. */
  lemma UrlTextNoSpace(bs: seq<B.Byte>)
    ensures NoSpace(B.B64url(bs))
  {
    B.B64urlAlphabet(bs);
  }

  /** The payload half of a signed token decodes to the session it carries. */
  lemma PayloadRead(bs: seq<B.Byte>, parse: seq<B.Byte> -> Option<Json>, strNum: string -> Option<int>,
                    s: DA.Session, now: int)
    requires parse(bs) == Some(DA.SessionJson(s)) && |bs| > 0
    requires s.email != "" && (s.exp != 0 ==> now < s.exp)
    ensures TryDecodeSession(B.B64url(bs), parse, strNum, now)
      == Some(EdgeSession(DA.Clean(s.email), Some(JNum(s.iat)), Some(JNum(s.exp))))
  {
    var payload := B.B64url(bs);
    UrlTextNoSpace(bs);
    TrimNoSpace(payload);
    B.B64urlAlphabet(bs);
    B.B64urlBody(bs);
    assert payload != "";
    assert Text.Split(payload, '.')[0] == payload;
    B.RoundTrip(bs);
    DA.SessionFields(s);
    assert Field(Some(DA.SessionJson(s)), "iat") == Some(JNum(s.iat));
  }

  /** A token signed by the server is read at the edge as the session it carries, with the
      e-mail cleaned, while it has not expired. */
  lemma SignedReadAtEdge(encode: DA.Session -> seq<B.Byte>, mac: (string, string) -> seq<B.Byte>,
                         parse: seq<B.Byte> -> Option<Json>, strNum: string -> Option<int>,
                         s: DA.Session, secret: string, now: int)
    requires parse(encode(s)) == Some(DA.SessionJson(s)) && |encode(s)| > 0
    requires s.email != "" && (s.exp != 0 ==> now < s.exp)
    ensures TryDecodeSession(DA.SignSession(encode, mac, s, secret), parse, strNum, now)
      == Some(EdgeSession(DA.Clean(s.email), Some(JNum(s.iat)), Some(JNum(s.exp))))
  {
    var payload := B.B64url(encode(s));
    var sig := DA.Hmac(mac, payload, secret);
    UrlTextNoSpace(encode(s));
    UrlTextNoSpace(mac(secret, payload));
    B.B64urlAlphabet(encode(s));
    assert DA.SignSession(encode, mac, s, secret) == payload + "." + sig;
    SignatureIgnored(payload, sig, parse, strNum, now);
    PayloadRead(encode(s), parse, strNum, s, now);
  }
}
