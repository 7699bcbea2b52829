/** The field flattening of `writeAudit` in lib/audit/audit.ts: sixteen named fields, each turned
    into a string, the empty ones left out, in a fixed order, and the outcome of the stream
    write for each value the Redis client can hold. `JSON.stringify` is a parameter; what the
    stream stores is not part of this model. */
module AuditFields {
  import opened Base
  import opened Json

  /** The fields written, in the order the stream entry lists them. */
  const FieldNames: seq<string> := [
    "ts", "event", "user", "endpoint", "decision", "reason", "request_id", "agent_id",
    "action", "system", "tier", "policy_version", "env", "stage", "controls", "intent"]

  /** `toStr(v)`: "" for null and undefined, a string as it is, anything else serialised. */
  function ToStr(stringify: Json -> string, v: Option<Json>): (r: string)
    ensures v.None? || v == Some(JNull) ==> r == ""
    ensures v.Some? && v.value.JStr? ==> r == v.value.s
    ensures v.Some? && !v.value.JNull? && !v.value.JStr? ==> r == stringify(v.value)
  {
    match v
    case None => ""
    case Some(JNull) => ""
    case Some(JStr(s)) => s
    case Some(j) => stringify(j)
  }

  /** `evt.agent_id || evt.agentId || ""`. */
  function AgentIdOf(evt: Record): Option<Json> {
    if Truthy(Get(evt, "agent_id")) then Get(evt, "agent_id")
    else if Truthy(Get(evt, "agentId")) then Get(evt, "agentId")
    else Some(JStr(""))
  }

  /** `evt.event || "audit"`. */
  function EventOf(evt: Record): Option<Json> {
    if Truthy(Get(evt, "event")) then Get(evt, "event") else Some(JStr("audit"))
  }

  /** The input a named field is taken from. */
  function Source(evt: Record, name: string): Option<Json> {
    if name == "agent_id" then AgentIdOf(evt)
    else if name == "event" then EventOf(evt)
    else Get(evt, name)
  }

  /** The string a named field holds before empty ones are dropped. */
  function Value(stringify: Json -> string, evt: Record, name: string): string {
    ToStr(stringify, Source(evt, name))
  }

  /** The named fields with a non-empty value, in order. */
  function Keep(stringify: Json -> string, evt: Record, names: seq<string>): (r: seq<(string, string)>)
    ensures forall i :: 0 <= i < |r| ==> r[i].0 in names && r[i].1 == Value(stringify, evt, r[i].0) && r[i].1 != ""
    ensures forall n :: n in names && Value(stringify, evt, n) != "" ==> exists i :: 0 <= i < |r| && r[i].0 == n
    decreases |names|
  {
    if |names| == 0 then []
    else
      var rest := Keep(stringify, evt, names[1..]);
      var v := Value(stringify, evt, names[0]);
      if v == "" then rest
      else
        var r := [(names[0], v)] + rest;
        assert forall n :: n in names && Value(stringify, evt, n) != "" ==> exists i :: 0 <= i < |r| && r[i].0 == n by {
          forall n | n in names && Value(stringify, evt, n) != ""
            ensures exists i :: 0 <= i < |r| && r[i].0 == n
          {
            if n == names[0] {
              assert r[0].0 == n;
            } else {
              assert n in names[1..];
              var i :| 0 <= i < |rest| && rest[i].0 == n;
              assert r[i + 1].0 == n;
            }
          }
        }
        r
  }

  /** The entry `writeAudit(evt)` adds to the audit stream. */
  function Fields(stringify: Json -> string, evt: Record): (r: seq<(string, string)>)
    ensures forall i :: 0 <= i < |r| ==> r[i].0 in FieldNames && r[i].1 != ""
    ensures forall i :: 0 <= i < |r| ==> r[i].1 == Value(stringify, evt, r[i].0)
    ensures forall n :: n in FieldNames && Value(stringify, evt, n) != "" ==> exists i :: 0 <= i < |r| && r[i].0 == n
  {
    Keep(stringify, evt, FieldNames)
  }

  /** The input keys the entry is built from. */
  predicate ReadKey(k: string) {
    k in FieldNames || k == "agentId"
  }

  /** A key the entry is not built from does not change it: `status`, `override_id` and every
      other extra key are dropped. */
  lemma {:induction false} KeepIgnoresExtra(stringify: Json -> string, evt: Record, names: seq<string>, k: string, v: Json)
    requires k != "agentId"
    requires forall i :: 0 <= i < |names| ==> names[i] != k
    ensures Keep(stringify, evt[k := v], names) == Keep(stringify, evt, names)
    decreases |names|
  {
    if |names| > 0 {
      KeepIgnoresExtra(stringify, evt, names[1..], k, v);
      SourceIgnoresExtra(evt, names[0], k, v);
    }
  }

  /** A field's input is unchanged by setting a key it is not read from. */
  lemma SourceIgnoresExtra(evt: Record, name: string, k: string, v: Json)
    requires k != "agentId" && k != name
    ensures Source(evt[k := v], name) == Source(evt, name)
  {
    assert Get(evt[k := v], name) == Get(evt, name);
    assert Get(evt[k := v], "agentId") == Get(evt, "agentId");
  }

  lemma FieldsIgnoreExtra(stringify: Json -> string, evt: Record, k: string, v: Json)
    requires !ReadKey(k)
    ensures Fields(stringify, evt[k := v]) == Fields(stringify, evt)
  {
    KeepIgnoresExtra(stringify, evt, FieldNames, k, v);
  }

  /** The agent id comes from `agent_id` when that is set, else from `agentId`; the event name
      is "audit" when none is given. */
  lemma AgentIdAndEventDefaults(stringify: Json -> string, evt: Record, id: string)
    ensures Truthy(Get(evt, "agent_id")) && evt["agent_id"] == JStr(id) ==> Value(stringify, evt, "agent_id") == id
    ensures !Truthy(Get(evt, "agent_id")) && Get(evt, "agentId") == Some(JStr(id)) ==> Value(stringify, evt, "agent_id") == id
    ensures !Truthy(Get(evt, "event")) ==> Value(stringify, evt, "event") == "audit"
  {
  }

  /** A non-empty string `ts` is the first field of the entry. */
  lemma TsKept(stringify: Json -> string, evt: Record, ts: string)
    requires Get(evt, "ts") == Some(JStr(ts)) && ts != ""
    ensures |Fields(stringify, evt)| > 0 && Fields(stringify, evt)[0] == ("ts", ts)
  {
  }

  /** What `redis` holds when `writeAudit` calls `xadd` on it. */
  datatype Handle =
    | PendingHandle              // the promise `getRedis()` returns, not yet settled
    | NullHandle                 // `await getRedis()` with the Upstash variables unset
    | ClientHandle(up: bool)     // an Upstash client; `up` says whether the stream accepts the entry

  /** `(redis as any).xadd(...)`. A promise has no `xadd` and `null` has no properties, so the
      call throws a TypeError on either; the messages are V8's. */
  function XAdd(h: Handle): (r: Result<()>)
    ensures r.Ok? <==> h == ClientHandle(true)
  {
    match h
    case PendingHandle => Err("TypeError: redis.xadd is not a function")
    case NullHandle => Err("TypeError: Cannot read properties of null (reading 'xadd')")
    case ClientHandle(up) => if up then Ok(()) else Err("Redis error")
  }

  /** `await writeAudit(evt)` with `redis` bound to `h`: the first `xadd` form, then, when it
      throws, the second, whose throw is not caught. The two forms differ only in the client's
      signature, which is not modelled, so both meet the same handle. */
  function WriteAudit(h: Handle): (r: Result<()>)
    ensures r.Ok? <==> h.ClientHandle? && h.up
    ensures h.PendingHandle? ==> r == Err("TypeError: redis.xadd is not a function")
    ensures h.NullHandle? ==> r == Err("TypeError: Cannot read properties of null (reading 'xadd')")
    ensures h == ClientHandle(false) ==> r == Err("Redis error")
  {
    match XAdd(h)
    case Ok(_) => Ok(())
    case Err(_) => XAdd(h)
  }

  /** lib/audit/audit.ts:53 calls the async `getRedis()` without `await`: `redis` is the pending
      promise, whatever the environment. */
  const HandleAsWritten: Handle := PendingHandle

  /** `await getRedis()`: a client exactly when both Upstash variables are set. */
  function HandleAwaited(configured: bool, up: bool): (h: Handle)
    ensures h.ClientHandle? <==> configured
    ensures h.ClientHandle? ==> h.up == up
  {
    if configured then ClientHandle(up) else NullHandle
  }

  /** As written, `writeAudit` rejects on every call, with the TypeError of calling `xadd` on a
      promise; awaited, it resolves exactly when Redis is configured and accepts the entry. */
  lemma WriteAuditOutcomes(configured: bool, up: bool)
    ensures WriteAudit(HandleAsWritten) == Err("TypeError: redis.xadd is not a function")
    ensures WriteAudit(HandleAwaited(configured, up)).Ok? <==> configured && up
  {
  }
}
