/** The override endpoints pages/api/overrides/request.ts, approve.ts and revoke.ts over the
    override store: each validates its input, calls the store, audits what it did and returns
    the record. The store's fresh id (`uid()`) and the time are inputs. */
module OverrideHandlers {
  import opened Base
  import opened Json
  import Text
  import OM = OrderedMap
  import OS = OverrideStore
  import opened Api

  /** The state the endpoints act on: the override store and the events handed to `writeAudit`. */
  datatype State = State(store: OS.Store, written: seq<Record>)

  /** `String(v || "").trim()`. */
  function TrimmedField(body: Option<Json>, f: string): (r: string)
    ensures Text.Trimmed(r)
  {
    Text.TrimSpec(StringOrEmpty(Field(body, f)));
    Text.Trim(StringOrEmpty(Field(body, f)))
  }

  function StatusName(s: OS.Status): string {
    match s
    case Pending => "PENDING"
    case Approved => "APPROVED"
    case Rejected => "REJECTED"
    case Revoked => "REVOKED"
  }

  /** An override record as JSON; timestamps are the instants they denote. */
  function RecordJson(r: OS.OverrideRecord): Json {
    JObj(Defined(map[
      "id" := Some(JStr(r.id)), "agent_id" := Some(JStr(r.agentId)), "requestedTier" := Some(JStr(r.requestedTier)),
      "requestedBy" := Some(JStr(r.requestedBy)), "requestedAt" := Some(JNum(r.requestedAt)),
      "reason" := Some(JStr(r.reason)), "status" := Some(JStr(StatusName(r.status))),
      "approvedBy" := if r.approvedBy.Some? then Some(JStr(r.approvedBy.value)) else None,
      "approvedAt" := if r.approvedAt.Some? then Some(JNum(r.approvedAt.value)) else None,
      "expiresAt" := if r.expiresAt.Some? then Some(JNum(r.expiresAt.value)) else None]))
  }

  /** `{ ok: true, override: rec }`. */
  function Success(r: OS.OverrideRecord): Reply {
    Reply(200, map["ok" := JBool(true), "override" := RecordJson(r)])
  }

  /** The audit event of an override endpoint. */
  function OverrideAudit(user: string, endpoint: string, reason: string, r: OS.OverrideRecord, withTier: bool,
                         withExpiry: bool, now: int): Record {
    Defined(map[
      "ts" := Some(JNum(now)), "user" := Some(JStr(user)), "endpoint" := Some(JStr(endpoint)),
      "decision" := Some(JStr("ALLOW")), "reason" := Some(JStr(reason)), "agentId" := Some(JStr(r.agentId)),
      "requestedTier" := if withTier then Some(JStr(r.requestedTier)) else None,
      "override_id" := Some(JStr(r.id)),
      "expiresAt" := if withExpiry && r.expiresAt.Some? then Some(JNum(r.expiresAt.value)) else None])
  }

  /** pages/api/overrides/request.ts at time `now`, with the fresh id `id`. */
  function Request(verb: string, demoUser: Option<string>, body: Option<Json>, id: string, now: int, s: State): (r: (Reply, State))
    requires OM.UniqueKeys(s.store)
    ensures r.0.status != 200 ==> r.1 == s
    ensures OM.UniqueKeys(r.1.store)
  {
    if verb != "POST" then (Fail(405, "method_not_allowed"), s)
    else
      var user := HeaderOr(demoUser, "unknown");
      var aid, tier := TrimmedField(body, "agent_id"), TrimmedField(body, "requestedTier");
      if aid == "" || tier == "" then (Fail(400, "missing_fields"), s)
      else
        var input := OS.RequestInput(aid, tier, user, Some(StringOrEmpty(Field(body, "reason"))));
        var (store, rec) := OS.RequestOverride(s.store, input, id, now);
        (Success(rec),
         State(store, s.written + [OverrideAudit(user, "/api/overrides/request", "override_requested", rec, true, false, now)]))
  }

  /** A request is accepted exactly for a POST with a non-blank agent id and tier; it then stores a
      PENDING override by the caller (or "unknown") under the fresh id, changes no other
      override, and writes one audit event. */
  lemma RequestAccepted(verb: string, demoUser: Option<string>, body: Option<Json>, id: string, now: int, s: State)
    requires OM.UniqueKeys(s.store)
    ensures Request(verb, demoUser, body, id, now, s).0.status == 200 <==>
      (verb == "POST" && TrimmedField(body, "agent_id") != "" && TrimmedField(body, "requestedTier") != "")
    ensures var (reply, s2) := Request(verb, demoUser, body, id, now, s);
      reply.status == 200 ==>
        OM.Get(s2.store, id).Some?
        && OM.Get(s2.store, id).value.status == OS.Pending
        && OM.Get(s2.store, id).value.agentId == TrimmedField(body, "agent_id")
        && OM.Get(s2.store, id).value.requestedTier == TrimmedField(body, "requestedTier")
        && OM.Get(s2.store, id).value.requestedBy == HeaderOr(demoUser, "unknown")
        && (forall k :: k != id ==> OM.Get(s2.store, k) == OM.Get(s.store, k))
        && |s2.written| == |s.written| + 1
  {
  }

  /** `Number(ttlMinutes || 60)`: a falsy TTL is an hour; `None` is NaN. */
  function TtlArg(v: Option<Json>, strNum: string -> Option<int>): (t: Option<int>)
    ensures !Truthy(v) ==> t == Some(60)
    ensures Truthy(v) && v.value.JNum? ==> t == Some(v.value.n)
  {
    if Truthy(v) then ToNumber(v.value, strNum) else Some(60)
  }

  /** pages/api/overrides/approve.ts at time `now`; `strNum` is `Number` of a string. */
  function Approve(verb: string, demoUser: Option<string>, body: Option<Json>, strNum: string -> Option<int>, now: int, s: State): (r: (Reply, State))
    requires OM.UniqueKeys(s.store)
    ensures r.0.status != 200 ==> r.1 == s
    ensures OM.UniqueKeys(r.1.store)
  {
    if verb != "POST" then (Fail(405, "method_not_allowed"), s)
    else
      var user := HeaderOr(demoUser, "unknown");
      var oid := TrimmedField(body, "id");
      if oid == "" then (Fail(400, "missing_id"), s)
      else
        var (store, rec) := OS.ApproveOverride(s.store, oid, user, TtlArg(Field(body, "ttlMinutes"), strNum), now);
        if rec.None? then (Fail(404, "override_not_found"), s)
        else
          (Success(rec.value),
           State(store, s.written + [OverrideAudit(user, "/api/overrides/approve", "override_approved", rec.value, true, true, now)]))
  }

  /** An approval succeeds exactly for a POST naming a stored override, whatever its status; an
      unknown id is answered 404 with nothing written. The override is then APPROVED by the
      caller and expires `Ttl` minutes from now, an hour when no TTL is given. */
  lemma ApproveSucceeds(verb: string, demoUser: Option<string>, body: Option<Json>, strNum: string -> Option<int>, now: int, s: State)
    requires OM.UniqueKeys(s.store)
    ensures var oid := TrimmedField(body, "id");
      Approve(verb, demoUser, body, strNum, now, s).0.status == 200 <==> (verb == "POST" && oid != "" && OM.Get(s.store, oid).Some?)
    ensures var oid := TrimmedField(body, "id");
      verb == "POST" && oid != "" && OM.Get(s.store, oid).None? ==>
        Approve(verb, demoUser, body, strNum, now, s) == (Fail(404, "override_not_found"), s)
    ensures var oid := TrimmedField(body, "id");
      var s2 := Approve(verb, demoUser, body, strNum, now, s).1;
      var ttl := OS.Ttl(TtlArg(Field(body, "ttlMinutes"), strNum));
      Approve(verb, demoUser, body, strNum, now, s).0.status == 200 ==>
        OM.Get(s2.store, oid).Some? && OM.Get(s2.store, oid).value.status == OS.Approved
        && OM.Get(s2.store, oid).value.approvedBy == Some(HeaderOr(demoUser, "unknown"))
        && OM.Get(s2.store, oid).value.expiresAt == Some(now + ttl * 60000)
        && |s2.written| == |s.written| + 1
    ensures !Truthy(Field(body, "ttlMinutes")) ==> OS.Ttl(TtlArg(Field(body, "ttlMinutes"), strNum)) == 60
  {
    var oid := TrimmedField(body, "id");
    if verb == "POST" && oid != "" {
      var user := HeaderOr(demoUser, "unknown");
      var ttl := TtlArg(Field(body, "ttlMinutes"), strNum);
      var (store, rec) := OS.ApproveOverride(s.store, oid, user, ttl, now);
      assert rec.None? <==> OM.Get(s.store, oid).None?;
      if rec.Some? {
        assert Approve(verb, demoUser, body, strNum, now, s).1.store == store;
      }
    }
  }

  /** An approval through the endpoint makes the override the agent's active one until it
      expires. */
  lemma ApprovedIsActive(demoUser: Option<string>, body: Option<Json>, strNum: string -> Option<int>, now: int, s: State, t: int)
    requires OM.UniqueKeys(s.store)
    requires Approve("POST", demoUser, body, strNum, now, s).0.status == 200
    requires now <= t < now + OS.Ttl(TtlArg(Field(body, "ttlMinutes"), strNum)) * 60000
    ensures var oid := TrimmedField(body, "id");
      var s2 := Approve("POST", demoUser, body, strNum, now, s).1;
      OS.ActiveOverride(s2.store, OM.Get(s.store, oid).value.agentId, t).Some?
  {
    var oid := TrimmedField(body, "id");
    var ttl := TtlArg(Field(body, "ttlMinutes"), strNum);
    OS.ActiveAfterApprove(s.store, oid, HeaderOr(demoUser, "unknown"), ttl, now, t);
  }

  /** pages/api/overrides/revoke.ts at time `now`. */
  function Revoke(verb: string, demoUser: Option<string>, body: Option<Json>, now: int, s: State): (r: (Reply, State))
    requires OM.UniqueKeys(s.store)
    ensures r.0.status != 200 ==> r.1 == s
    ensures OM.UniqueKeys(r.1.store)
  {
    if verb != "POST" then (Fail(405, "method_not_allowed"), s)
    else
      var user := HeaderOr(demoUser, "unknown");
      var oid := TrimmedField(body, "id");
      if oid == "" then (Fail(400, "missing_id"), s)
      else
        var (store, rec) := OS.RevokeOverride(s.store, oid, user, now);
        if rec.None? then (Fail(404, "override_not_found"), s)
        else
          (Success(rec.value),
           State(store, s.written + [OverrideAudit(user, "/api/overrides/revoke", "override_revoked", rec.value, false, false, now)]))
  }

  /** A revocation succeeds exactly for a POST naming a stored override; the override is then
      REVOKED, expires now, and is never any agent's active override afterwards. */
  lemma RevokeSucceeds(verb: string, demoUser: Option<string>, body: Option<Json>, now: int, s: State, agentId: string, t: int)
    requires OM.UniqueKeys(s.store)
    ensures var oid := TrimmedField(body, "id");
      Revoke(verb, demoUser, body, now, s).0.status == 200 <==> (verb == "POST" && oid != "" && OM.Get(s.store, oid).Some?)
    ensures var oid := TrimmedField(body, "id");
      var s2 := Revoke(verb, demoUser, body, now, s).1;
      Revoke(verb, demoUser, body, now, s).0.status == 200 ==>
        OM.Get(s2.store, oid).Some? && OM.Get(s2.store, oid).value.status == OS.Revoked
        && OM.Get(s2.store, oid).value.expiresAt == Some(now)
        && |s2.written| == |s.written| + 1
        && var a := OS.ActiveOverride(s2.store, agentId, t); (a.Some? ==> a.value != OM.Get(s2.store, oid).value)
  {
    var oid := TrimmedField(body, "id");
    if verb == "POST" && oid != "" {
      OS.RevokedNeverActive(s.store, oid, HeaderOr(demoUser, "unknown"), now, agentId, t);
    }
  }
}
