/** The bearer-token reading the service endpoints share (the "Bearer" scheme of section 2.1 of
    RFC 6750): the scheme name followed by a space is matched without regard to case, and the
    rest of the header, trimmed, is the token. Anything else yields the empty token. */
module Bearer {
  import Text

  /** The lower-case form of the scheme prefix. */
  const Prefix := "bearer "

  /** `hdr.toLowerCase().startsWith("bearer ") ? hdr.slice(7).trim() : ""`. */
  function Token(hdr: string): (t: string)
    ensures !Text.StartsWith(Text.Lower(hdr), Prefix) ==> t == ""
  {
    if Text.StartsWith(Text.Lower(hdr), Prefix) then Text.Trim(hdr[|Prefix|..]) else ""
  }

  /** Lower-casing a concatenation lower-cases each part. */
  lemma LowerAppend(a: string, b: string)
    ensures Text.Lower(a + b) == Text.Lower(a) + Text.Lower(b)
  {
  }

  /** Whatever the case of the scheme name, the token is the trimmed rest of the header. */
  lemma TokenAfterScheme(scheme: string, rest: string)
    requires Text.Lower(scheme) == Prefix
    ensures Token(scheme + rest) == Text.Trim(rest)
  {
    LowerAppend(scheme, rest);
    assert Text.Lower(scheme + rest)[..|Prefix|] == Prefix;
    assert (scheme + rest)[|Prefix|..] == rest;
  }

  /** A header whose first seven characters are not the scheme and a space, in any case,
      carries no token. */
  lemma NoSchemeNoToken(hdr: string)
    requires |hdr| < |Prefix| || Text.Lower(hdr[..|Prefix|]) != Prefix
    ensures Token(hdr) == ""
  {
    if |hdr| >= |Prefix| {
      assert Text.Lower(hdr)[..|Prefix|] == Text.Lower(hdr[..|Prefix|]);
    }
  }
}
