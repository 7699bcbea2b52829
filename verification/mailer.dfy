/** The demo mailer of lib/mailer.ts: mail goes out only to an allowed domain and only when a
    provider is configured and accepts it; otherwise it is simulated. The provider call is the
    parameter `providerOk` (whether its response was ok). */
module Mailer {
  import opened Base
  import Text
  import DA = DemoAuth

  datatype Mail = Mail(to: string, subject: string, text: string)

  datatype Outcome = Outcome(sent: bool, simulated: bool)

  /** `allowedDomain(email)` with `DEMO_ALLOWED_DOMAINS`: every domain is allowed when the list is
      empty; otherwise `email.split("@")[1]`, the text between the first '@' and the next one,
      lower-cased, must be listed. */
  function AllowedDomain(email: string, domains: Option<string>): (r: bool)
    ensures |DA.ParseCsv(domains)| == 0 ==> r
    ensures '@' !in email ==> (r <==> |DA.ParseCsv(domains)| == 0)
  {
    var allowed := DA.ParseCsv(domains);
    |allowed| == 0 || Text.Lower(DA.DomainOf(email)) in allowed
  }

  /** An address with a single '@' is allowed exactly when the list is empty or holds its
      domain, lower-cased; the local part plays no role. */
  lemma AllowedAddress(local: string, domain: string, domains: Option<string>)
    requires '@' !in local && '@' !in domain
    ensures AllowedDomain(local + "@" + domain, domains) <==>
      (|DA.ParseCsv(domains)| == 0 || Text.Lower(domain) in DA.ParseCsv(domains))
  {
    DA.DomainOfAddress(local, domain);
  }

  /** An address without '@' has no domain, so once the list is non-empty it is never allowed;
      the case of the domain makes no difference. */
  lemma AllowedDomainFacts(email: string, domains: Option<string>)
    ensures '@' !in email && |DA.ParseCsv(domains)| > 0 ==> !AllowedDomain(email, domains)
    ensures AllowedDomain(Text.Lower(email), domains) == AllowedDomain(email, domains)
  {
    if '@' !in email {
      assert Text.Lower(DA.DomainOf(email)) == "";
    }
    LowerDomain(email);
  }

  /** Lower-casing an address lower-cases its domain. */
  lemma LowerDomain(email: string)
    ensures Text.Lower(DA.DomainOf(Text.Lower(email))) == Text.Lower(DA.DomainOf(email))
  {
    LowerSplit(email, '@');
  }

  /** A character that is not a letter. */
  predicate NonLetter(d: char) {
    !('A' <= d <= 'Z') && !('a' <= d <= 'z')
  }

  /** Lower-casing keeps a non-letter where it is and makes no new one. */
  lemma LowerKeeps(s: string, d: char)
    requires NonLetter(d)
    ensures forall i :: 0 <= i < |s| ==> (Text.Lower(s)[i] == d <==> s[i] == d)
    ensures (d in Text.Lower(s)) == (d in s)
  {
    var l := Text.Lower(s);
    assert forall i :: 0 <= i < |s| ==> (l[i] == d <==> s[i] == d);
    if d in l {
      var i :| 0 <= i < |l| && l[i] == d;
      assert s[i] == d;
    }
    if d in s {
      var i :| 0 <= i < |s| && s[i] == d;
      assert l[i] == d;
    }
  }

  /** Every part lower-cased. */
  function LowerAll(parts: seq<string>): (r: seq<string>)
    ensures |r| == |parts|
  {
    if parts == [] then [] else [Text.Lower(parts[0])] + LowerAll(parts[1..])
  }

  /** Lower-casing works character by character, so it distributes over concatenation. */
  lemma LowerAppend(a: string, b: string)
    ensures Text.Lower(a + b) == Text.Lower(a) + Text.Lower(b)
  {
  }

  /** One step of the split, before and after lower-casing: the part up to the first separator
      comes off the front. */
  lemma LowerSplitStep(s: string, d: char, a: string, b: string)
    requires NonLetter(d) && s == a + [d] + b && d !in a
    ensures Text.Split(s, d) == [a] + Text.Split(b, d)
    ensures Text.Split(Text.Lower(s), d) == [Text.Lower(a)] + Text.Split(Text.Lower(b), d)
  {
    Text.SplitCons(a, d, b);
    LowerAppend(a + [d], b);
    LowerAppend(a, [d]);
    assert Text.Lower([d]) == [d];
    LowerKeeps(a, d);
    Text.SplitCons(Text.Lower(a), d, Text.Lower(b));
  }

  /** A string without the separator stays in one piece after lower-casing. */
  lemma LowerSplitNone(s: string, d: char)
    requires NonLetter(d) && d !in s
    ensures Text.Split(Text.Lower(s), d) == LowerAll(Text.Split(s, d))
  {
    LowerKeeps(s, d);
    assert d !in Text.Lower(s);
    assert Text.Split(s, d) == [s];
    assert [s][1..] == [];
  }

  /** Splitting on a non-letter commutes with lower-casing. */
  lemma {:induction false} LowerSplit(s: string, d: char)
    requires NonLetter(d)
    ensures Text.Split(Text.Lower(s), d) == LowerAll(Text.Split(s, d))
    decreases |s|
  {
    if d in s {
      var i := Text.IndexOfChar(s, d);
      var a, b := s[..i], s[i + 1..];
      assert s == a + [d] + b;
      LowerSplitStep(s, d, a, b);
      LowerSplit(b, d);
      LowerAllStep(a, Text.Split(Text.Lower(s), d), Text.Split(Text.Lower(b), d), Text.Split(b, d));
    } else {
      LowerSplitNone(s, d);
    }
  }

  /** The inductive step of `LowerSplit`, stated over opaque parts. */
  lemma LowerAllStep(a: string, lowered: seq<string>, loweredRest: seq<string>, rest: seq<string>)
    requires lowered == [Text.Lower(a)] + loweredRest && loweredRest == LowerAll(rest)
    ensures lowered == LowerAll([a] + rest)
  {
    LowerAllCons(a, rest);
  }

  lemma LowerAllCons(a: string, rest: seq<string>)
    ensures LowerAll([a] + rest) == [Text.Lower(a)] + LowerAll(rest)
  {
    assert ([a] + rest)[1..] == rest;
  }

  /** `sendMailOrSimulate(mail)` with `DEMO_ALLOWED_DOMAINS`, `RESEND_API_KEY` and
      `DEMO_EMAIL_FROM`. */
  function SendMailOrSimulate(mail: Mail, domains: Option<string>, resendKey: Option<string>, from: Option<string>,
                              providerOk: bool): (o: Outcome)
    ensures o.simulated == !o.sent
    ensures o.sent <==> AllowedDomain(mail.to, domains) && resendKey.Some? && resendKey.value != ""
                        && from.Some? && from.value != "" && providerOk
  {
    if !AllowedDomain(mail.to, domains) then Outcome(false, true)
    else if resendKey.None? || resendKey.value == "" || from.None? || from.value == "" then Outcome(false, true)
    else if !providerOk then Outcome(false, true)
    else Outcome(true, false)
  }

  /** Mail to a domain outside a non-empty allow-list is never sent, whatever the provider. */
  lemma NeverOutsideDomains(mail: Mail, domains: Option<string>, resendKey: Option<string>, from: Option<string>, providerOk: bool)
    requires |DA.ParseCsv(domains)| > 0 && Text.Lower(DA.DomainOf(mail.to)) !in DA.ParseCsv(domains)
    ensures SendMailOrSimulate(mail, domains, resendKey, from, providerOk) == Outcome(false, true)
  {
  }
}
