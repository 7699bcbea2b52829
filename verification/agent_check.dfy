/** The server-to-server runtime gate of pages/api/agents/check.ts: a caller holding the service
    token asks whether an agent may run. A missing agent, a killed, terminated or paused one and
    an unapproved one are refused, in that order of precedence; every answered check is
    audited with its outcome, and a heartbeat records when the agent was last seen. */
module AgentCheck {
  import opened Base
  import opened Json
  import Text
  import Bearer
  import DS = DemoStore
  import AF = AuditFields
  import opened Api

  const NotConfigured := "AIF_GATEWAY_SERVICE_TOKEN is not configured"

  /** `requireServiceAuth(req)`: the service token must be configured, and the bearer token of
      the `authorization` header must be non-empty and equal to it. */
  function RequireServiceAuth(expected: Option<string>, authorization: Option<string>): (r: Result<()>)
    ensures r.Ok? <==> expected.Some? && expected.value != "" && Bearer.Token(authorization.GetOr("")) == expected.value
    ensures r.Err? && (expected.None? || expected.value == "") ==> r.error == NotConfigured
    ensures r.Err? && expected.Some? && expected.value != "" ==> r.error == "Unauthorized"
  {
    var token := Bearer.Token(authorization.GetOr(""));
    if expected.None? || expected.value == "" then Err(NotConfigured)
    else if token == "" || token != expected.value then Err("Unauthorized")
    else Ok(())
  }

  /** The verdict of `decide(agent)`. */
  datatype CheckDecision = CheckDecision(allow: bool, status: string, approved: bool, reason: string)

  /** `String(agent?.status || "unknown")`. */
  function StatusOf(agent: Record): string {
    if Truthy(Get(agent, "status")) then ToJsString(agent["status"]) else "unknown"
  }

  /** `Boolean(agent?.approved)`. */
  predicate ApprovedOf(agent: Record) {
    Truthy(Get(agent, "approved"))
  }

  /** The statuses that stop an agent whatever its approval. */
  predicate Stopped(status: string) {
    status == "killed" || status == "terminated" || status == "paused"
  }

  /** `decide(agent)`. */
  function Decide(agent: Option<Record>): (d: CheckDecision)
    ensures agent.None? ==> d == CheckDecision(false, "not_found", false, "agent_not_registered")
    ensures agent.Some? ==> d.status == StatusOf(agent.value) && d.approved == ApprovedOf(agent.value)
  {
    match agent
    case None => CheckDecision(false, "not_found", false, "agent_not_registered")
    case Some(a) =>
      var status, approved := StatusOf(a), ApprovedOf(a);
      if status == "killed" || status == "terminated" then CheckDecision(false, status, approved, "agent_" + status)
      else if status == "paused" then CheckDecision(false, status, approved, "agent_paused")
      else if !approved then CheckDecision(false, status, approved, "agent_not_approved")
      else CheckDecision(true, status, approved, "agent_allowed")
  }

  /** An agent may run exactly when it is registered, neither killed, terminated nor paused, and
      approved; the reason names the first of these that fails, a stop taking precedence over the
      approval. */
  lemma DecideAllows(agent: Option<Record>)
    ensures Decide(agent).allow <==> (agent.Some? && !Stopped(StatusOf(agent.value)) && ApprovedOf(agent.value))
    ensures agent.Some? && (StatusOf(agent.value) == "killed" || StatusOf(agent.value) == "terminated") ==>
      Decide(agent).reason == "agent_" + StatusOf(agent.value)
    ensures agent.Some? && StatusOf(agent.value) == "paused" ==> Decide(agent).reason == "agent_paused"
    ensures agent.Some? && !Stopped(StatusOf(agent.value)) && !ApprovedOf(agent.value) ==>
      Decide(agent).reason == "agent_not_approved"
  {
  }

  /** The agent id of a check: `String(query.agent_id || body.agent_id || body.id || "").trim()`. */
  function AgentIdOf(query: Option<Json>, body: Option<Json>): (id: string)
    ensures Text.Trimmed(id)
  {
    var v := if Truthy(Field(query, "agent_id")) then Field(query, "agent_id")
             else if Truthy(Field(body, "agent_id")) then Field(body, "agent_id")
             else Field(body, "id");
    Text.TrimSpec(StringOrEmpty(v));
    Text.Trim(StringOrEmpty(v))
  }

  /** Whether a check asks for a heartbeat: `body.heartbeat === true` or `query.heartbeat` is
      "1". */
  predicate WantsHeartbeat(query: Option<Json>, body: Option<Json>) {
    Field(body, "heartbeat") == Some(JBool(true)) || StringOrEmpty(Field(query, "heartbeat")) == "1"
  }

  /** The audit event of an answered check. */
  function CheckAudit(now: int, agentId: string, agent: Option<Record>, d: CheckDecision): Record {
    var a := agent.GetOr(map[]);
    Defined(map[
      "ts" := Some(JNum(now)), "user" := Some(JStr("service")), "endpoint" := Some(JStr("/api/agents/check")),
      "decision" := Some(JStr(if d.allow then "ALLOW" else "DENY")), "reason" := Some(JStr(d.reason)),
      "agentId" := Some(JStr(agentId)), "status" := Some(JStr(d.status)), "approved" := Some(JBool(d.approved)),
      "tier" := Get(a, "tier"), "controls" := Get(a, "controls")])
  }

  /** The body of an answered check. */
  function CheckBody(now: int, agentId: string, agent: Option<Record>, d: CheckDecision): Record {
    var a := agent.GetOr(map[]);
    Defined(map[
      "ok" := Some(JBool(true)), "ts" := Some(JNum(now)), "agent_id" := Some(JStr(agentId)),
      "allow" := Some(JBool(d.allow)), "status" := Some(JStr(d.status)), "approved" := Some(JBool(d.approved)),
      "reason" := Some(JStr(d.reason)), "risk_tier" := Get(a, "tier"), "controls" := Get(a, "controls"),
      "allowed_tools" := Get(a, "allowed_tools"), "env" := Get(a, "env"), "stage" := Get(a, "stage"),
      "policy_version" := Get(a, "policy_version"), "last_seen_at" := Get(a, "last_seen_at")])
  }

  /** The refusals a check meets before the agent is read: 405 for a method other than GET or
      POST, 401 without the service token, 400 without an agent id; none past them. */
  function Refusal(verb: string, expected: Option<string>, authorization: Option<string>,
                   query: Option<Json>, body: Option<Json>): (r: Option<Reply>)
    ensures r.None? <==> (verb == "POST" || verb == "GET") && RequireServiceAuth(expected, authorization).Ok?
                         && AgentIdOf(query, body) != ""
    ensures r.Some? ==> r.value.status in {400, 401, 405} && "ok" in r.value.body && r.value.body["ok"] == JBool(false)
  {
    if verb != "POST" && verb != "GET" then Some(Fail(405, "Method not allowed"))
    else match RequireServiceAuth(expected, authorization)
      case Err(e) => Some(Fail(401, e))
      case Ok(_) => if AgentIdOf(query, body) == "" then Some(Fail(400, "Missing agent_id")) else None
  }

  /** The answer to a check past the refusals, with the heartbeat's `updateAgent` imported and
      the audit write succeeding. The decision is taken on the agent as read before the
      heartbeat is recorded. */
  function Answer(agentId: string, query: Option<Json>, body: Option<Json>, now: int, w: World): (r: (Reply, World))
    ensures r.0.status == 200
    ensures r.1.decisions == w.decisions && r.1.audit == w.audit && r.1.outbox == w.outbox
  {
    var agent := DS.GetAgent(w.agents, agentId);
    var agents := if agent.Some? && WantsHeartbeat(query, body)
                  then DS.UpdateAgent(w.agents, agentId, map["last_seen_at" := Some(JNum(now))]).0
                  else w.agents;
    var d := Decide(agent);
    (Reply(200, CheckBody(now, agentId, agent, d)),
     w.(agents := agents, written := w.written + [CheckAudit(now, agentId, agent, d)]))
  }

  /** The check handler at time `now`. */
  function Check(verb: string, expected: Option<string>, authorization: Option<string>,
                 query: Option<Json>, body: Option<Json>, now: int, w: World): (r: (Reply, World))
    ensures r.0.status != 200 ==> r.1 == w
    ensures r.0.status == 200 ==> r.1.decisions == w.decisions && r.1.audit == w.audit && r.1.outbox == w.outbox
  {
    match Refusal(verb, expected, authorization, query, body)
    case Some(reply) => (reply, w)
    case None => Answer(AgentIdOf(query, body), query, body, now, w)
  }

  /** The audit event carries the verdict as ALLOW or DENY. */
  lemma CheckAuditDecision(now: int, agentId: string, agent: Option<Record>, d: CheckDecision)
    ensures "decision" in CheckAudit(now, agentId, agent, d)
    ensures CheckAudit(now, agentId, agent, d)["decision"] == JStr(if d.allow then "ALLOW" else "DENY")
    ensures CheckAudit(now, agentId, agent, d)["reason"] == JStr(d.reason)
  {
  }

  /** The body carries the verdict and its reason. */
  lemma CheckBodyVerdict(now: int, agentId: string, agent: Option<Record>, d: CheckDecision)
    ensures "allow" in CheckBody(now, agentId, agent, d) && "reason" in CheckBody(now, agentId, agent, d)
    ensures CheckBody(now, agentId, agent, d)["allow"] == JBool(d.allow)
    ensures CheckBody(now, agentId, agent, d)["reason"] == JStr(d.reason)
  {
  }

  /** A check is answered exactly when it is a GET or POST with the service token and an agent
      id; without an id it is refused before anything is read or written. */
  lemma CheckAnswered(verb: string, expected: Option<string>, authorization: Option<string>,
                      query: Option<Json>, body: Option<Json>, now: int, w: World)
    ensures Check(verb, expected, authorization, query, body, now, w).0.status == 200 <==>
      ((verb == "POST" || verb == "GET") && RequireServiceAuth(expected, authorization).Ok? && AgentIdOf(query, body) != "")
    ensures (verb == "POST" || verb == "GET") && RequireServiceAuth(expected, authorization).Ok? && AgentIdOf(query, body) == "" ==>
      Check(verb, expected, authorization, query, body, now, w) == (Fail(400, "Missing agent_id"), w)
  {
  }

  /** An answered check reports the verdict on the stored agent and writes one audit event whose
      decision is ALLOW exactly when the agent may run. */
  lemma CheckAudited(verb: string, expected: Option<string>, authorization: Option<string>,
                     query: Option<Json>, body: Option<Json>, now: int, w: World)
    requires Check(verb, expected, authorization, query, body, now, w).0.status == 200
    ensures var (reply, w2) := Check(verb, expected, authorization, query, body, now, w);
      var d := Decide(DS.GetAgent(w.agents, AgentIdOf(query, body)));
      "allow" in reply.body && reply.body["allow"] == JBool(d.allow)
      && |w2.written| == |w.written| + 1 && w2.written[..|w.written|] == w.written
      && "decision" in w2.written[|w.written|]
      && w2.written[|w.written|]["decision"] == JStr(if d.allow then "ALLOW" else "DENY")
  {
    var id := AgentIdOf(query, body);
    var agent := DS.GetAgent(w.agents, id);
    CheckAuditDecision(now, id, agent, Decide(agent));
    CheckBodyVerdict(now, id, agent, Decide(agent));
  }

  /** Recording a heartbeat on a record sets `last_seen_at` and nothing else. */
  lemma HeartbeatPatch(a: Record, now: int)
    ensures Merge(a, map["last_seen_at" := Some(JNum(now))]) == a["last_seen_at" := JNum(now)]
  {
  }

  /** A heartbeat on a registered agent records `last_seen_at` and changes nothing else of it;
      a check without one leaves the agents as they were. */
  lemma HeartbeatRecorded(expected: Option<string>, authorization: Option<string>,
                          query: Option<Json>, body: Option<Json>, now: int, w: World)
    requires RequireServiceAuth(expected, authorization).Ok? && AgentIdOf(query, body) != ""
    ensures var id := AgentIdOf(query, body);
      var w2 := Check("POST", expected, authorization, query, body, now, w).1;
      DS.GetAgent(w.agents, id).Some? && WantsHeartbeat(query, body) ==>
        DS.GetAgent(w2.agents, id) == Some(DS.GetAgent(w.agents, id).value["last_seen_at" := JNum(now)])
    ensures !WantsHeartbeat(query, body) ==> Check("POST", expected, authorization, query, body, now, w).1.agents == w.agents
  {
    var id := AgentIdOf(query, body);
    var patch: Patch := map["last_seen_at" := Some(JNum(now))];
    DS.GetAfterUpdate(w.agents, id, patch);
    if DS.GetAgent(w.agents, id).Some? {
      HeartbeatPatch(DS.GetAgent(w.agents, id).value, now);
    }
  }

  /** pages/api/agents/check.ts as written. Line 72 calls `updateAgent`, which the file does not
      import, so a heartbeat on a known agent throws a ReferenceError. Every other check past the
      refusals reaches the `await writeAudit` of line 77, which rejects because `writeAudit`
      calls `xadd` on the pending promise of `getRedis()`. Neither exception is caught. */
  function CheckAsWritten(verb: string, expected: Option<string>, authorization: Option<string>,
                         query: Option<Json>, body: Option<Json>, now: int, w: World): (r: (Reply, World))
    ensures r.0.status != 200 ==> r.1 == w
  {
    match Refusal(verb, expected, authorization, query, body)
    case Some(reply) => (reply, w)
    case None =>
      var agentId := AgentIdOf(query, body);
      if DS.GetAgent(w.agents, agentId).Some? && WantsHeartbeat(query, body) then
        (Crash("ReferenceError: updateAgent is not defined"), w)
      else match AF.WriteAudit(AF.HandleAsWritten)
        case Err(e) => (Crash(e), w)
        case Ok(_) => Answer(agentId, query, body, now, w)
  }

  /** As written, the handler refuses exactly what the corrected one refuses, with the same reply,
      and answers every check the corrected one answers with 500, storing nothing: no check is
      ever answered 200, and no heartbeat is ever recorded. */
  lemma CheckAsWrittenFails(verb: string, expected: Option<string>, authorization: Option<string>,
                            query: Option<Json>, body: Option<Json>, now: int, w: World)
    ensures var fixed := Check(verb, expected, authorization, query, body, now, w);
      var asWritten := CheckAsWritten(verb, expected, authorization, query, body, now, w);
      && asWritten.1 == w
      && (fixed.0.status != 200 ==> asWritten == fixed)
      && (fixed.0.status == 200 ==> asWritten.0.status == 500)
  {
    match Refusal(verb, expected, authorization, query, body)
    case Some(_) =>
    case None =>
      AF.WriteAuditOutcomes(false, false);
  }

  /** A check that the corrected handler answers: as written it is answered 500. */
  lemma CheckAsWrittenWitness(now: int)
    ensures var body := Some(JObj(map["agent_id" := JStr("a1")]));
      var w := World([], [], [], [], []);
      && Check("POST", Some("k"), Some("Bearer k"), None, body, now, w).0.status == 200
      && CheckAsWritten("POST", Some("k"), Some("Bearer k"), None, body, now, w).0.status == 500
  {
    var body := Some(JObj(map["agent_id" := JStr("a1")]));
    var w := World([], [], [], [], []);
    WitnessAdmitted(body);
    CheckAsWrittenFails("POST", Some("k"), Some("Bearer k"), None, body, now, w);
  }

  lemma WitnessAdmitted(body: Option<Json>)
    requires body == Some(JObj(map["agent_id" := JStr("a1")]))
    ensures Refusal("POST", Some("k"), Some("Bearer k"), None, body).None?
  {
    assert Bearer.Token("Bearer k") == "k";
    assert AgentIdOf(None, body) == "a1";
  }
}
