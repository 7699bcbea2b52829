/** The projection redactors of lib/safeLog.ts and lib/redact.ts: each keeps a fixed list of
    governance fields and drops everything else, so raw payloads never reach a log. A field the
    input lacks (or any field of a null or non-object input) is `undefined`, written `None`.
    Also `hashEmail` of lib/safeLog.ts, with SHA-256 as a parameter. */
module Projections {
  import opened Base
  import opened Json
  import Text

  /** The fields lib/safeLog.ts keeps. */
  const SafeLogFields: set<string> := {
    "agent_id", "client_id", "action", "target", "risk_tier", "control_mode", "allowed",
    "decision_id", "status", "reason", "obligations"}

  /** The fields lib/redact.ts keeps. */
  const RedactFields: set<string> := {
    "agent_id", "decision_id", "action", "target", "tier", "control_mode", "allowed",
    "policy_version", "matched_rules", "reason"}

  /** `{ f: input?.f, ... }` over the names `fields`. */
  function Project(input: Option<Json>, fields: set<string>): (r: map<string, Option<Json>>)
    ensures r.Keys == fields
    ensures forall k :: k in fields ==> r[k] == Field(input, k)
  {
    map k | k in fields :: Field(input, k)
  }

  /** `redactForAudit` of lib/safeLog.ts. */
  function SafeLogRedact(input: Option<Json>): (r: map<string, Option<Json>>)
    ensures r.Keys == SafeLogFields
    ensures forall k :: k in r ==> r[k] == Field(input, k)
  {
    Project(input, SafeLogFields)
  }

  /** `redactForAudit` of lib/redact.ts. */
  function Redact(input: Option<Json>): (r: map<string, Option<Json>>)
    ensures r.Keys == RedactFields
    ensures forall k :: k in r ==> r[k] == Field(input, k)
  {
    Project(input, RedactFields)
  }

  /** A field outside the list has no influence on the projection: a raw `payload`, whatever it
      holds, is dropped. */
  lemma ProjectDropsOthers(m: Record, fields: set<string>, k: string, v: Json)
    requires k !in fields
    ensures Project(Some(JObj(m[k := v])), fields) == Project(Some(JObj(m)), fields)
  {
    var a := Project(Some(JObj(m[k := v])), fields);
    var b := Project(Some(JObj(m)), fields);
    forall f | f in fields
      ensures a[f] == b[f]
    {
      assert f != k;
    }
  }

  lemma PayloadDropped(m: Record, v: Json)
    ensures SafeLogRedact(Some(JObj(m["payload" := v]))) == SafeLogRedact(Some(JObj(m)))
    ensures Redact(Some(JObj(m["payload" := v]))) == Redact(Some(JObj(m)))
  {
    ProjectDropsOthers(m, SafeLogFields, "payload", v);
    ProjectDropsOthers(m, RedactFields, "payload", v);
  }

  /** A null or missing input gives every listed field as `undefined`. */
  lemma NullInput(input: Option<Json>)
    requires input.None? || input == Some(JNull)
    ensures forall k :: k in Redact(input) ==> Redact(input)[k].None?
    ensures forall k :: k in SafeLogRedact(input) ==> SafeLogRedact(input)[k].None?
  {
  }

  /** The text `hashEmail` hashes: the input lower-cased and trimmed. */
  function NormalEmail(email: string): string {
    Text.Trim(Text.Lower(email))
  }

  /** `hashEmail(email)`: the first 12 characters of the hex digest `sha` of the normalised text. */
  function HashEmail(sha: string -> string, email: string): (h: string)
    ensures |h| <= 12
    ensures h <= sha(NormalEmail(email))
  {
    var d := sha(NormalEmail(email));
    if |d| <= 12 then d else d[..12]
  }

  /** Normalising twice is normalising once. */
  lemma NormalEmailIdempotent(email: string)
    ensures NormalEmail(NormalEmail(email)) == NormalEmail(email)
  {
    var l := Text.Lower(email);
    Text.LowerTrim(l);
    Text.LowerIdempotent(email);
    Text.TrimIdempotent(l);
  }

  /** The hash depends only on the normalised text: an address and its normal form hash alike,
      whatever the case and surrounding white space. */
  lemma HashEmailNormal(sha: string -> string, email: string)
    ensures HashEmail(sha, email) == HashEmail(sha, NormalEmail(email))
  {
    NormalEmailIdempotent(email);
  }
}
