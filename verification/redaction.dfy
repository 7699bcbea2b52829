/** The recursive key-based redaction of lib/safety/redact.ts, applied to every ledger payload.
    A value under a key whose lower-cased form ends with one of the secret key names becomes
    "[REDACTED]" whatever it was; other strings go through `redactString`, whose regular
    expressions (bearer tokens, e-mail addresses, long token runs) are a parameter here. */
module Redaction {
  import opened Json
  import Text

  /** `SECRET_KEYS`. */
  const SecretKeys: seq<string> := [
    "authorization", "cookie", "set-cookie", "x-api-key", "api-key",
    "token", "access_token", "refresh_token", "openai_api_key", "password"]

  const Redacted := "[REDACTED]"

  /** `keys.some(sk => s.endsWith(sk))`. */
  predicate EndsWithAny(s: string, keys: seq<string>)
    decreases |keys|
  {
    |keys| > 0 && (Text.EndsWith(s, keys[0]) || EndsWithAny(s, keys[1..]))
  }

  lemma {:induction false} EndsWithAnyIff(s: string, keys: seq<string>)
    ensures EndsWithAny(s, keys) <==> exists i :: 0 <= i < |keys| && Text.EndsWith(s, keys[i])
    decreases |keys|
  {
    if |keys| > 0 {
      EndsWithAnyIff(s, keys[1..]);
      if exists i :: 0 <= i < |keys| && Text.EndsWith(s, keys[i]) {
        var i :| 0 <= i < |keys| && Text.EndsWith(s, keys[i]);
        if i > 0 {
          assert keys[1..][i - 1] == keys[i];
        }
      }
      if exists i :: 0 <= i < |keys[1..]| && Text.EndsWith(s, keys[1..][i]) {
        var i :| 0 <= i < |keys[1..]| && Text.EndsWith(s, keys[1..][i]);
        assert keys[i + 1] == keys[1..][i];
      }
    }
  }

  /** `shouldRedactKey`: the lower-cased key is a secret key or ends with one. */
  predicate ShouldRedactKey(k: string) {
    IsSecretName(Text.Lower(k))
  }

  /** A lower-cased key that is a secret key or ends with one. */
  predicate IsSecretName(lk: string) {
    lk in SecretKeys || EndsWithAny(lk, SecretKeys)
  }

  /** The `includes` test is subsumed by the `endsWith` test: a key is redacted exactly when its
      lower-cased form ends with a secret key. */
  lemma ShouldRedactKeyIff(k: string)
    ensures ShouldRedactKey(k) <==> exists i :: 0 <= i < |SecretKeys| && Text.EndsWith(Text.Lower(k), SecretKeys[i])
  {
    var lk := Text.Lower(k);
    EndsWithAnyIff(lk, SecretKeys);
    if lk in SecretKeys {
      var i :| 0 <= i < |SecretKeys| && SecretKeys[i] == lk;
      assert lk[|lk| - |SecretKeys[i]|..] == lk;
      assert Text.EndsWith(lk, SecretKeys[i]);
    }
  }

  /** What every secret key looks like at its end: the last character is one of n, e, y, d; a
      final d follows an r; a final "on" follows a t. A key whose end does not look like this
      cannot end with a secret key. */
  predicate SecretShape(s: string) {
    && |s| >= 4
    && var c := s[|s| - 1];
    && (c == 'n' || c == 'e' || c == 'y' || c == 'd')
    && (c == 'd' ==> s[|s| - 2] == 'r')
    && (c == 'n' && s[|s| - 2] == 'o' ==> s[|s| - 4] == 't')
  }

  lemma SecretKeysShape()
    ensures forall i :: 0 <= i < |SecretKeys| ==> SecretShape(SecretKeys[i])
  {
  }

  /** A string that ends with another has the same last characters. */
  lemma EndsWithCharAt(s: string, suffix: string, p: nat)
    requires Text.EndsWith(s, suffix) && p < |suffix|
    ensures s[|s| - 1 - p] == suffix[|suffix| - 1 - p]
  {
    assert s[|s| - |suffix|..][|suffix| - 1 - p] == s[|s| - 1 - p];
  }

  lemma ShapeBySuffix(s: string, suffix: string)
    requires Text.EndsWith(s, suffix) && SecretShape(suffix)
    ensures SecretShape(s)
  {
    EndsWithCharAt(s, suffix, 0);
    EndsWithCharAt(s, suffix, 1);
    EndsWithCharAt(s, suffix, 3);
  }

  /** Every secret name has the shape of a secret key. */
  lemma SecretNameShape(lk: string)
    requires IsSecretName(lk)
    ensures SecretShape(lk)
  {
    SecretKeysShape();
    EndsWithAnyIff(lk, SecretKeys);
    if lk in SecretKeys {
      var i :| 0 <= i < |SecretKeys| && SecretKeys[i] == lk;
      assert SecretShape(SecretKeys[i]);
    } else {
      var i :| 0 <= i < |SecretKeys| && Text.EndsWith(lk, SecretKeys[i]);
      ShapeBySuffix(lk, SecretKeys[i]);
    }
  }

  /** A key already in lower case whose end does not look like a secret key. */
  predicate PlainName(k: string) {
    Text.IsLowerCase(k) && !SecretShape(k)
  }

  /** A plain name is kept by redaction. */
  lemma PlainNameKept(k: string)
    requires PlainName(k)
    ensures !ShouldRedactKey(k)
  {
    Text.LowerOfLowerCase(k);
    if IsSecretName(k) {
      SecretNameShape(k);
    }
  }

  /** The status field is never redacted. */
  lemma StatusKept()
    ensures !ShouldRedactKey("status")
  {
    PlainNameKept("status");
  }

  /** `deepRedact(value)`. */
  function DeepRedact(redactString: string -> string, v: Json): (r: Json)
    ensures v.JStr? ==> r == JStr(redactString(v.s))
    ensures v.JNull? || v.JBool? || v.JNum? ==> r == v
    ensures v.JArr? ==> r.JArr? && |r.items| == |v.items|
    ensures v.JObj? ==> r.JObj? && r.fields.Keys == v.fields.Keys
    ensures v.JObj? ==> forall k :: k in v.fields && ShouldRedactKey(k) ==> r.fields[k] == JStr(Redacted)
    decreases v
  {
    match v
    case JStr(s) => JStr(redactString(s))
    case JArr(xs) => JArr(seq(|xs|, i requires 0 <= i < |xs| => DeepRedact(redactString, xs[i])))
    case JObj(m) =>
      JObj(map k | k in m :: if ShouldRedactKey(k) then JStr(Redacted) else DeepRedact(redactString, m[k]))
    case _ => v
  }

  /** `redactForAudit(payload)`. */
  function RedactForAudit(redactString: string -> string, v: Json): Json {
    DeepRedact(redactString, v)
  }

  /** No secret key, at any depth, carries anything but "[REDACTED]". */
  predicate NoSecrets(v: Json)
    decreases v
  {
    match v
    case JArr(xs) => forall i :: 0 <= i < |xs| ==> NoSecrets(xs[i])
    case JObj(m) => forall k :: k in m ==> (ShouldRedactKey(k) ==> m[k] == JStr(Redacted)) && NoSecrets(m[k])
    case _ => true
  }

  /** Redaction reaches every nesting level: its output holds no secret. */
  lemma {:induction false} DeepRedactNoSecrets(redactString: string -> string, v: Json)
    ensures NoSecrets(DeepRedact(redactString, v))
    decreases v
  {
    match v
    case JArr(xs) =>
      forall i | 0 <= i < |xs|
        ensures NoSecrets(DeepRedact(redactString, v).items[i])
      {
        DeepRedactNoSecrets(redactString, xs[i]);
      }
    case JObj(m) =>
      var r := DeepRedact(redactString, v);
      forall k | k in r.fields
        ensures (ShouldRedactKey(k) ==> r.fields[k] == JStr(Redacted)) && NoSecrets(r.fields[k])
      {
        if !ShouldRedactKey(k) {
          DeepRedactNoSecrets(redactString, m[k]);
        }
      }
    case _ =>
  }

  /** Elementwise and fieldwise: an array element and a non-secret field are redacted on their
      own. */
  lemma DeepRedactParts(redactString: string -> string, v: Json)
    ensures v.JArr? ==> forall i :: 0 <= i < |v.items| ==>
      DeepRedact(redactString, v).items[i] == DeepRedact(redactString, v.items[i])
    ensures v.JObj? ==> forall k :: k in v.fields && !ShouldRedactKey(k) ==>
      DeepRedact(redactString, v).fields[k] == DeepRedact(redactString, v.fields[k])
  {
  }

  /** With an idempotent `redactString` that leaves "[REDACTED]" alone, redacting twice is
      redacting once. */
  lemma {:induction false} DeepRedactIdempotent(redactString: string -> string, v: Json)
    requires forall s :: redactString(redactString(s)) == redactString(s)
    requires redactString(Redacted) == Redacted
    ensures DeepRedact(redactString, DeepRedact(redactString, v)) == DeepRedact(redactString, v)
    decreases v
  {
    var r := DeepRedact(redactString, v);
    match v
    case JStr(s) =>
    case JArr(xs) =>
      var rr := DeepRedact(redactString, r);
      forall i | 0 <= i < |xs|
        ensures rr.items[i] == r.items[i]
      {
        DeepRedactIdempotent(redactString, xs[i]);
      }
    case JObj(m) =>
      var rr := DeepRedact(redactString, r);
      forall k | k in m
        ensures rr.fields[k] == r.fields[k]
      {
        if !ShouldRedactKey(k) {
          DeepRedactIdempotent(redactString, m[k]);
        }
      }
      assert rr.fields == r.fields;
    case _ =>
  }
}
