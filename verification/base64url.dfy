/** `b64url` and `b64urlToBuf` of lib/demoAuth.ts: Node's standard base64 (section 4 of RFC 4648)
    turned into the URL- and filename-safe form of section 5 by replacing '+' with '-' and '/'
    with '_' and dropping the '=' padding; and the way back, which restores the padding to a
    multiple of four characters before decoding. */
module Base64Url {
  import opened Base
  import Text

  type Byte = b: int | 0 <= b < 256
  type Sextet = i: int | 0 <= i < 64

  /** The standard alphabet of section 4 of RFC 4648. */
  function StdChar(i: Sextet): char {
    if i < 26 then ('A' as int + i) as char
    else if i < 52 then ('a' as int + i - 26) as char
    else if i < 62 then ('0' as int + i - 52) as char
    else if i == 62 then '+'
    else '/'
  }

  predicate IsStdChar(c: char) {
    ('A' <= c <= 'Z') || ('a' <= c <= 'z') || ('0' <= c <= '9') || c == '+' || c == '/'
  }

  function StdIndex(c: char): (i: Sextet)
    requires IsStdChar(c)
  {
    if 'A' <= c <= 'Z' then c as int - 'A' as int
    else if 'a' <= c <= 'z' then c as int - 'a' as int + 26
    else if '0' <= c <= '9' then c as int - '0' as int + 52
    else if c == '+' then 62
    else 63
  }

  /** The alphabet is a bijection between sextets and its 64 characters. */
  lemma StdCharIndex(i: Sextet)
    ensures IsStdChar(StdChar(i)) && StdIndex(StdChar(i)) == i
  {
  }

  /** The second sextet of a group: the low two bits of `a`, the high four of `b`. */
  function Mid1(a: Byte, b: Byte): Sextet {
    (a % 4) * 16 + b / 16
  }

  /** The third sextet of a group: the low four bits of `b`, the high two of `c`. */
  function Mid2(b: Byte, c: Byte): Sextet {
    (b % 16) * 4 + c / 64
  }

  /** The four characters of three bytes. */
  function Enc3(a: Byte, b: Byte, c: Byte): (s: string)
    ensures |s| == 4 && forall k :: 0 <= k < 4 ==> IsStdChar(s[k])
  {
    StdCharIndex(a / 4);
    StdCharIndex(Mid1(a, b));
    StdCharIndex(Mid2(b, c));
    StdCharIndex(c % 64);
    [StdChar(a / 4), StdChar(Mid1(a, b)), StdChar(Mid2(b, c)), StdChar(c % 64)]
  }

  /** The characters of the encoding of a run of bytes, without padding: four per three bytes,
      then two for a last single byte or three for a last pair (the missing bits are zero). */
  function EncodeBody(bs: seq<Byte>): (s: string)
    ensures |s| == 4 * (|bs| / 3) + (if |bs| % 3 == 0 then 0 else |bs| % 3 + 1)
    ensures forall k :: 0 <= k < |s| ==> IsStdChar(s[k])
    decreases |bs|
  {
    if |bs| == 0 then ""
    else if |bs| == 1 then Enc3(bs[0], 0, 0)[..2]
    else if |bs| == 2 then Enc3(bs[0], bs[1], 0)[..3]
    else Enc3(bs[0], bs[1], bs[2]) + EncodeBody(bs[3..])
  }

  function Repeat(c: char, n: nat): (s: string)
    ensures |s| == n && forall k :: 0 <= k < n ==> s[k] == c
  {
    seq(n, _ => c)
  }

  /** The number of '=' that completes the last group of four. */
  function PadLen(n: nat): nat {
    if n % 3 == 0 then 0 else 3 - n % 3
  }

  /** `buf.toString("base64")`. */
  function EncodeStd(bs: seq<Byte>): (s: string)
    ensures |s| % 4 == 0
  {
    EncodeBody(bs) + Repeat('=', PadLen(|bs|))
  }

  /** The character '+' becomes '-' and '/' becomes '_'. */
  function UrlChar(c: char): char {
    if c == '+' then '-' else if c == '/' then '_' else c
  }

  /** Drops every trailing '=' (the `/=+$/` replacement). */
  function StripPad(s: string): (r: string)
    ensures r <= s && (|r| == 0 || r[|r| - 1] != '=')
    ensures forall k :: |r| <= k < |s| ==> s[k] == '='
    decreases |s|
  {
    if |s| > 0 && s[|s| - 1] == '=' then StripPad(s[..|s| - 1]) else s
  }

  /** `b64url(buf)`. */
  function B64url(bs: seq<Byte>): string {
    StripPad(Text.ReplaceAll(Text.ReplaceAll(EncodeStd(bs), '+', '-'), '/', '_'))
  }

  predicate IsUrlChar(c: char) {
    ('A' <= c <= 'Z') || ('a' <= c <= 'z') || ('0' <= c <= '9') || c == '-' || c == '_'
  }

  /** The three bytes of four sextets. */
  function Bytes(w: Sextet, x: Sextet, y: Sextet, z: Sextet): seq<Byte> {
    [w * 4 + x / 16, (x % 16) * 16 + y / 4, (y % 4) * 64 + z]
  }

  /** The bytes of one group of four standard characters. */
  function Dec3(q: string): seq<Byte>
    requires |q| == 4 && forall k :: 0 <= k < 4 ==> IsStdChar(q[k])
  {
    Bytes(StdIndex(q[0]), StdIndex(q[1]), StdIndex(q[2]), StdIndex(q[3]))
  }

  /** `Buffer.from(s, "base64")` on text made of whole groups of four, padding only at the end;
      `None` for any other text. A padded last group decodes as if the padding were 'A' (zero
      bits), keeping the bytes it completes. */
  function DecodeStd(s: string): (r: Option<seq<Byte>>)
    decreases |s|
  {
    if |s| == 0 then Some([])
    else if |s| < 4 then None
    else
      var q := s[..4];
      var std3 := IsStdChar(q[0]) && IsStdChar(q[1]) && IsStdChar(q[2]);
      if std3 && IsStdChar(q[3]) then
        match DecodeStd(s[4..])
        case None => None
        case Some(rest) => Some(Dec3(q) + rest)
      else if |s| == 4 && std3 && q[3] == '=' then
        Some(Dec3(q[..3] + ['A'])[..2])
      else if |s| == 4 && IsStdChar(q[0]) && IsStdChar(q[1]) && q[2] == '=' && q[3] == '=' then
        Some(Dec3(q[..2] + ['A', 'A'])[..1])
      else None
  }

  /** The padding `b64urlToBuf` puts back. */
  function RestorePad(n: nat): string {
    if n % 4 == 0 then "" else Repeat('=', 4 - n % 4)
  }

  /** `b64urlToBuf(s)`: back to the standard alphabet, padded to a multiple of four, decoded. */
  function B64urlToBuf(s: string): Option<seq<Byte>> {
    DecodeStd(Text.ReplaceAll(Text.ReplaceAll(s, '-', '+'), '_', '/') + RestorePad(|s|))
  }

  /** The sextets of three bytes give the three bytes back. */
  lemma BytesOfSextets(a: Byte, b: Byte, c: Byte)
    ensures Bytes(a / 4, Mid1(a, b), Mid2(b, c), c % 64) == [a, b, c]
  {
    assert Mid1(a, b) / 16 == a % 4 && Mid1(a, b) % 16 == b / 16;
    assert Mid2(b, c) / 4 == b % 16 && Mid2(b, c) % 4 == c / 64;
  }

  /** One group of three bytes decodes back to itself. */
  lemma GroupRoundTrip(a: Byte, b: Byte, c: Byte)
    ensures Dec3(Enc3(a, b, c)) == [a, b, c]
  {
    var w, x, y, z := a / 4, Mid1(a, b), Mid2(b, c), c % 64;
    var g := Enc3(a, b, c);
    assert g == [StdChar(w), StdChar(x), StdChar(y), StdChar(z)];
    DecodeChars(w, x, y, z);
    BytesOfSextets(a, b, c);
  }

  /** Four characters of the alphabet decode to the bytes of their sextets. */
  lemma DecodeChars(w: Sextet, x: Sextet, y: Sextet, z: Sextet)
    ensures Dec3([StdChar(w), StdChar(x), StdChar(y), StdChar(z)]) == Bytes(w, x, y, z)
  {
    StdCharIndex(w);
    StdCharIndex(x);
    StdCharIndex(y);
    StdCharIndex(z);
  }

  /** A group with one '=' decodes to the first two bytes of the group completed by 'A'. */
  lemma DecodePadOne(s: string)
    requires |s| == 4 && IsStdChar(s[0]) && IsStdChar(s[1]) && IsStdChar(s[2]) && s[3] == '='
    ensures DecodeStd(s) == Some(Dec3(s[..3] + ['A'])[..2])
  {
    assert s[..4] == s;
  }

  /** A group with two '=' decodes to the first byte of the group completed by "AA". */
  lemma DecodePadTwo(s: string)
    requires |s| == 4 && IsStdChar(s[0]) && IsStdChar(s[1]) && s[2] == '=' && s[3] == '='
    ensures DecodeStd(s) == Some(Dec3(s[..2] + ['A', 'A'])[..1])
  {
    assert s[..4] == s;
  }

  /** A last single byte: two characters and "==". */
  lemma DecodeEncodeOne(a: Byte)
    ensures DecodeStd(EncodeStd([a])) == Some([a])
  {
    var g := Enc3(a, 0, 0);
    var s := EncodeStd([a]);
    assert s == g[..2] + "==";
    DecodePadTwo(s);
    StdCharIndex(0);
    assert s[..2] + ['A', 'A'] == g;
    GroupRoundTrip(a, 0, 0);
    assert Dec3(s[..2] + ['A', 'A']) == [a, 0, 0];
    var d: seq<Byte> := [a, 0, 0];
    assert DecodeStd(s) == Some(d[..1]);
    assert d[..1] == [a];
  }

  /** A last pair of bytes: three characters and "=". */
  lemma DecodeEncodeTwo(a: Byte, b: Byte)
    ensures DecodeStd(EncodeStd([a, b])) == Some([a, b])
  {
    var g := Enc3(a, b, 0);
    var s := EncodeStd([a, b]);
    assert s == g[..3] + "=";
    DecodePadOne(s);
    StdCharIndex(0);
    assert s[..3] + ['A'] == g;
    GroupRoundTrip(a, b, 0);
    assert Dec3(s[..3] + ['A']) == [a, b, 0];
    var d: seq<Byte> := [a, b, 0];
    assert DecodeStd(s) == Some(d[..2]);
    assert d[..2] == [a, b];
  }

  /** A whole group in front of the rest. */
  lemma EncodeStdCons(bs: seq<Byte>)
    requires |bs| >= 3
    ensures EncodeStd(bs) == Enc3(bs[0], bs[1], bs[2]) + EncodeStd(bs[3..])
  {
    assert PadLen(|bs[3..]|) == PadLen(|bs|);
  }

  /** A whole group of standard characters in front decodes to its three bytes in front. */
  lemma DecodeCons(g: string, t: string, r: seq<Byte>)
    requires |g| == 4 && forall k :: 0 <= k < 4 ==> IsStdChar(g[k])
    requires DecodeStd(t) == Some(r)
    ensures DecodeStd(g + t) == Some(Dec3(g) + r)
  {
    var s := g + t;
    assert s[..4] == g && s[4..] == t;
  }

  /** The step: a whole group in front of a tail that already round-trips. */
  lemma DecodeEncodeStep(bs: seq<Byte>)
    requires |bs| >= 3 && DecodeStd(EncodeStd(bs[3..])) == Some(bs[3..])
    ensures DecodeStd(EncodeStd(bs)) == Some(bs)
  {
    var g := Enc3(bs[0], bs[1], bs[2]);
    EncodeStdCons(bs);
    GroupRoundTrip(bs[0], bs[1], bs[2]);
    DecodeCons(g, EncodeStd(bs[3..]), bs[3..]);
    assert bs == [bs[0], bs[1], bs[2]] + bs[3..];
  }

  /** Standard decoding undoes standard encoding. */
  lemma {:induction false} DecodeEncodeStd(bs: seq<Byte>)
    ensures DecodeStd(EncodeStd(bs)) == Some(bs)
    decreases |bs|
  {
    if |bs| == 0 {
      assert EncodeStd(bs) == "";
    } else if |bs| == 1 {
      assert bs == [bs[0]];
      DecodeEncodeOne(bs[0]);
    } else if |bs| == 2 {
      assert bs == [bs[0], bs[1]];
      DecodeEncodeTwo(bs[0], bs[1]);
    } else {
      DecodeEncodeStd(bs[3..]);
      DecodeEncodeStep(bs);
    }
  }

  /** The standard body in the URL alphabet. */
  function UrlBody(bs: seq<Byte>): (u: string)
    ensures |u| == |EncodeBody(bs)|
    ensures forall k :: 0 <= k < |u| ==> u[k] == UrlChar(EncodeBody(bs)[k])
  {
    var body := EncodeBody(bs);
    seq(|body|, k requires 0 <= k < |body| => UrlChar(body[k]))
  }

  /** `b64url` is the standard body in the URL alphabet: the padding, and only the padding, is
      dropped. */
  lemma B64urlBody(bs: seq<Byte>)
    ensures B64url(bs) == UrlBody(bs)
  {
    var e := EncodeStd(bs);
    var u := Text.ReplaceAll(Text.ReplaceAll(e, '+', '-'), '/', '_');
    var ub := UrlBody(bs);
    assert u == ub + Repeat('=', PadLen(|bs|));
    StripPadBody(ub, PadLen(|bs|));
  }

  /** Stripping a run of '=' from text that does not end with '=' gives that text back. */
  lemma {:induction false} StripPadBody(t: string, n: nat)
    requires |t| == 0 || t[|t| - 1] != '='
    ensures StripPad(t + Repeat('=', n)) == t
    decreases n
  {
    if n > 0 {
      var s := t + Repeat('=', n);
      assert s[..|s| - 1] == t + Repeat('=', n - 1);
      StripPadBody(t, n - 1);
    }
  }

  /** `b64url` output is in the URL alphabet: no '+', no '/', no '=' and no '.'. */
  lemma B64urlAlphabet(bs: seq<Byte>)
    ensures forall k :: 0 <= k < |B64url(bs)| ==> IsUrlChar(B64url(bs)[k])
    ensures '.' !in B64url(bs)
  {
    B64urlBody(bs);
  }

  /** Back from the URL alphabet to the standard body. */
  lemma UrlBodyBack(bs: seq<Byte>)
    ensures Text.ReplaceAll(Text.ReplaceAll(UrlBody(bs), '-', '+'), '_', '/') == EncodeBody(bs)
  {
  }

  /** The padding put back is the padding dropped. */
  lemma RestorePadLen(n: nat)
    ensures RestorePad(4 * (n / 3) + (if n % 3 == 0 then 0 else n % 3 + 1)) == Repeat('=', PadLen(n))
  {
  }

  /** Decoding undoes encoding: `b64urlToBuf(b64url(x))` is `x`. */
  lemma RoundTrip(bs: seq<Byte>)
    ensures B64urlToBuf(B64url(bs)) == Some(bs)
  {
    B64urlBody(bs);
    UrlBodyBack(bs);
    RestorePadLen(|bs|);
    DecodeEncodeStd(bs);
  }
}
