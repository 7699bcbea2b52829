/** What the lifecycle handlers share: the JSON response, the demo state they act on, and the
    JavaScript idioms they use to read requests. Timestamps (`nowIso()`, `Date.now()`) are the
    integer `now` the caller passes in. */
module Api {
  import opened Base
  import opened Json
  import DemoStore

  /** A response: the status and the fields of its JSON body. */
  datatype Reply = Reply(status: int, body: Record)

  /** `res.status(status).json({ error: message })`. */
  function Error(status: int, message: string): Reply {
    Reply(status, map["error" := JStr(message)])
  }

  /** `res.status(status).json({ ok: false, error })`. */
  function Fail(status: int, error: string): Reply {
    Reply(status, map["ok" := JBool(false), "error" := JStr(error)])
  }

  /** An exception the handler does not catch. Next.js answers 500 with its own error page; the
      body here is a stand-in for that page, carrying the exception's message. */
  function Crash(message: string): Reply {
    Reply(500, map["error" := JStr(message)])
  }

  /** The state the handlers act on: agent and decision records with the list semantics of
      lib/demoStore.ts, the in-memory audit list of `appendAudit`, the notification outbox of
      `pushOutbox`, and the events handed to `writeAudit` (not what its stream holds). */
  datatype World = World(
    agents: DemoStore.Table, decisions: DemoStore.Table,
    audit: seq<Record>, outbox: seq<Record>, written: seq<Record>)

  /** `String(h || fallback)` of a header. */
  function HeaderOr(h: Option<string>, fallback: string): (r: string)
    ensures r == fallback || (h.Some? && r == h.value && r != "")
  {
    if h.Some? && h.value != "" then h.value else fallback
  }

  /** An object literal whose `undefined` members are left out, as `JSON.stringify` and the
      audit writer treat them. */
  function Defined(m: map<string, Option<Json>>): (r: Record)
    ensures forall k :: k in r <==> k in m && m[k].Some?
    ensures forall k :: k in r ==> Some(r[k]) == m[k]
  {
    map k | k in m && m[k].Some? :: m[k].value
  }

  /** `v ? String(v) : fallback`. */
  function StringIfTruthy(v: Option<Json>, fallback: Option<Json>): (r: Option<Json>)
    ensures Truthy(v) ==> r == Some(JStr(ToJsString(v.value)))
    ensures !Truthy(v) ==> r == fallback
  {
    if Truthy(v) then Some(JStr(ToJsString(v.value))) else fallback
  }

  /** `upsertAgent(agent)`, which lib/demoStore.ts does not define: the record replaces the one
      with its id, or is added in front as `addAgent` adds. */
  function UpsertAgent(t: DemoStore.Table, id: string, rec: Record): (r: DemoStore.Table)
    ensures |r| == |t| || |r| == |t| + 1
  {
    match DemoStore.FindIndex(t, id)
    case Some(i) => t[i := rec]
    case None => DemoStore.AddAgent(t, rec)
  }

  /** An upserted record is what a lookup of its id then finds. */
  lemma GetAfterUpsert(t: DemoStore.Table, id: string, rec: Record)
    requires DemoStore.HasId(rec, id)
    ensures DemoStore.GetAgent(UpsertAgent(t, id, rec), id) == Some(rec)
  {
    match DemoStore.FindIndex(t, id)
    case None => DemoStore.GetAfterAdd(t, rec, id);
    case Some(i) =>
      var t2 := UpsertAgent(t, id, rec);
      assert DemoStore.HasId(t2[i], id);
      assert forall j :: 0 <= j < i ==> t2[j] == t[j];
      assert DemoStore.FindIndex(t2, id) == Some(i);
  }
}
