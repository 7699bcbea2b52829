/** The design-time agent lifecycle handlers over the demo agent records:
    pages/api/approve.ts approves any agent that is not killed, pages/api/agents/reject.ts
    rejects (and kills) any agent it finds, and pages/api/agents/kill.ts sets the status of any
    agent it finds to "killed" and changes nothing else. The store calls are taken to complete
    before the handler reads their results; `ApproveAsWritten` models approve.ts as it runs
    without its missing `await`s. */
module AgentHandlers {
  import opened Base
  import opened Json
  import DS = DemoStore
  import P = Projections
  import AC = AgentCheck
  import opened Api

  /** The notes a rejection records when the request gives none. */
  const DefaultRejectNotes := "Rejected at design-time gate"

  /** The `review` object of a design-time decision. */
  function Review(decision: string, user: string, notes: Option<Json>, now: int): Json {
    JObj(Defined(map[
      "decision" := Some(JStr(decision)), "decidedAt" := Some(JNum(now)),
      "decidedBy" := Some(JStr(user)), "notes" := notes]))
  }

  /** The patch of an approval. */
  function ApprovePatch(user: string, notes: Option<Json>, now: int): Patch {
    map["approved" := Some(JBool(true)), "status" := Some(JStr("active")),
        "review" := Some(Review("APPROVED", user, StringIfTruthy(notes, None), now))]
  }

  /** The patch of a rejection. */
  function RejectPatch(user: string, notes: Option<Json>, now: int): Patch {
    map["approved" := Some(JBool(false)), "status" := Some(JStr("killed")), "killedAt" := Some(JNum(now)),
        "review" := Some(Review("REJECTED", user, StringIfTruthy(notes, Some(JStr(DefaultRejectNotes))), now))]
  }

  /** The audit event of an approval or a rejection. */
  function ReviewAudit(user: string, endpoint: string, reason: string, id: string, u: Record, now: int): Record {
    Defined(map[
      "ts" := Some(JNum(now)), "user" := Some(JStr(user)), "endpoint" := Some(JStr(endpoint)),
      "decision" := Some(JStr("ALLOW")), "reason" := Some(JStr(reason)), "agentId" := Some(JStr(id)),
      "status" := Get(u, "status"), "approved" := Get(u, "approved"), "tier" := Get(u, "tier"),
      "controls" := Get(u, "controls")])
  }

  /** The body of an approval or a rejection. */
  function ReviewBody(u: Record): Record {
    Defined(map[
      "ok" := Some(JBool(true)), "agent_id" := Get(u, "id"), "status" := Get(u, "status"),
      "approved" := Get(u, "approved"), "review" := Get(u, "review")])
  }

  /** `String(agent_id || "")` of the request body. */
  function AgentIdOf(body: Option<Json>): string {
    StringOrEmpty(Field(body, "agent_id"))
  }

  /** pages/api/approve.ts at time `now`. */
  function Approve(verb: string, demoUser: Option<string>, body: Option<Json>, now: int, w: World): (r: (Reply, World))
    ensures r.0.status != 200 ==> r.1 == w
    ensures r.0.status == 200 ==> r.1.decisions == w.decisions && r.1.audit == w.audit && |r.1.written| == |w.written| + 1
  {
    if verb != "POST" then (Error(405, "Method not allowed"), w)
    else
      var user, id := HeaderOr(demoUser, "unknown"), AgentIdOf(body);
      if id == "" then (Error(400, "agent_id required"), w)
      else match DS.GetAgent(w.agents, id)
        case None => (Error(404, "Agent not found"), w)
        case Some(existing) =>
          if IsStr(Get(existing, "status"), "killed") then (Error(403, "Agent is killed"), w)
          else
            var (agents, updated) := DS.UpdateAgent(w.agents, id, ApprovePatch(user, Field(body, "notes"), now));
            (Reply(200, ReviewBody(updated.value)),
             w.(agents := agents, written := w.written + [ReviewAudit(user, "/api/agents/approve", "agent_approved", id, updated.value, now)]))
  }

  /** pages/api/approve.ts as written, at time `now`. `getAgent` and `updateAgent` are async and
      are called without `await`, so `existing` and `updated` are promises: a promise is truthy
      and has no `status`, so neither the 404 nor the 403 can fire. `updateAgent` still patches a
      record it finds before its promise is returned, and every field read from `updated` is
      undefined. */
  function ApproveAsWritten(verb: string, demoUser: Option<string>, body: Option<Json>, now: int, w: World): (r: (Reply, World))
    ensures r.0.status == 200 <==> verb == "POST" && AgentIdOf(body) != ""
    ensures r.0.status != 200 ==> r.1 == w
    ensures r.1.decisions == w.decisions && r.1.audit == w.audit
  {
    if verb != "POST" then (Error(405, "Method not allowed"), w)
    else
      var user, id := HeaderOr(demoUser, "unknown"), AgentIdOf(body);
      if id == "" then (Error(400, "agent_id required"), w)
      else
        var (agents, _) := DS.UpdateAgent(w.agents, id, ApprovePatch(user, Field(body, "notes"), now));
        (Reply(200, ReviewBody(map[])),
         w.(agents := agents, written := w.written + [ReviewAudit(user, "/api/agents/approve", "agent_approved", id, map[], now)]))
  }

  /** pages/api/agents/reject.ts at time `now`. */
  function Reject(verb: string, demoUser: Option<string>, body: Option<Json>, now: int, w: World): (r: (Reply, World))
    ensures r.0.status != 200 ==> r.1 == w
    ensures r.0.status == 200 ==> r.1.decisions == w.decisions && r.1.audit == w.audit && |r.1.written| == |w.written| + 1
  {
    if verb != "POST" then (Error(405, "Method not allowed"), w)
    else
      var user, id := HeaderOr(demoUser, "unknown"), AgentIdOf(body);
      if id == "" then (Error(400, "agent_id required"), w)
      else if DS.GetAgent(w.agents, id).None? then (Error(404, "Agent not found"), w)
      else
        var (agents, updated) := DS.UpdateAgent(w.agents, id, RejectPatch(user, Field(body, "notes"), now));
        (Reply(200, ReviewBody(updated.value)),
         w.(agents := agents, written := w.written + [ReviewAudit(user, "/api/agents/reject", "agent_rejected", id, updated.value, now)]))
  }

  /** The collaborators of the kill handler: SHA-256 for `hashEmail` and the `redact`
      projection of the audit data. */
  datatype KillCollaborators = KillCollaborators(sha: string -> string, redact: Json -> Json)

  /** The patch of a kill: the status alone. */
  const KillPatch: Patch := map["status" := Some(JStr("killed"))]

  /** pages/api/agents/kill.ts at time `now`. There is no check for a blank id: a blank id is
      simply not found. */
  function Kill(verb: string, demoUser: Option<string>, body: Option<Json>, c: KillCollaborators, now: int, w: World): (r: (Reply, World))
    ensures r.0.status != 200 ==> r.1 == w
    ensures r.0.status == 200 ==> r.1.decisions == w.decisions && r.1.written == w.written && |r.1.audit| == |w.audit| + 1
  {
    if verb != "POST" then (Error(405, "Method not allowed"), w)
    else
      var user := P.HashEmail(c.sha, HeaderOr(demoUser, ""));
      var id := AgentIdOf(body);
      var (agents, a) := DS.UpdateAgent(w.agents, id, KillPatch);
      if a.None? then (Error(404, "Agent not found"), w)
      else
        var status := Get(a.value, "status").value;
        var event := map[
          "ts" := JNum(now), "type" := JStr("agent_kill"), "user_hash" := JStr(user),
          "data" := c.redact(JObj(map["agent_id" := JStr(id), "agent_status" := status]))];
        (Reply(200, map["ok" := JBool(true), "agent_id" := JStr(id), "status" := status]),
         w.(agents := agents, audit := w.audit + [event]))
  }

  /** What a successful approval leaves in the agent records. */
  lemma ApproveAgents(verb: string, demoUser: Option<string>, body: Option<Json>, now: int, w: World)
    requires Approve(verb, demoUser, body, now, w).0.status == 200
    ensures Approve(verb, demoUser, body, now, w).1.agents
      == DS.UpdateAgent(w.agents, AgentIdOf(body), ApprovePatch(HeaderOr(demoUser, "unknown"), Field(body, "notes"), now)).0
  {
  }

  /** Approving a record marks it approved and active. */
  lemma ApprovedRecord(a: Record, user: string, notes: Option<Json>, now: int)
    ensures Get(Merge(a, ApprovePatch(user, notes, now)), "approved") == Some(JBool(true))
    ensures Get(Merge(a, ApprovePatch(user, notes, now)), "status") == Some(JStr("active"))
  {
  }

  /** An approval succeeds exactly for a POST naming an agent that exists and is not killed: a
      paused or terminated agent is approved all the same. The agent is then found approved and
      active. */
  lemma ApproveGate(verb: string, demoUser: Option<string>, body: Option<Json>, now: int, w: World)
    ensures var id := AgentIdOf(body);
      Approve(verb, demoUser, body, now, w).0.status == 200 <==>
        (verb == "POST" && id != "" && DS.GetAgent(w.agents, id).Some?
         && !IsStr(Get(DS.GetAgent(w.agents, id).value, "status"), "killed"))
    ensures var id := AgentIdOf(body);
      var w2 := Approve(verb, demoUser, body, now, w).1;
      Approve(verb, demoUser, body, now, w).0.status == 200 ==>
        DS.GetAgent(w2.agents, id).Some?
        && Get(DS.GetAgent(w2.agents, id).value, "approved") == Some(JBool(true))
        && Get(DS.GetAgent(w2.agents, id).value, "status") == Some(JStr("active"))
  {
    var id := AgentIdOf(body);
    if Approve(verb, demoUser, body, now, w).0.status == 200 {
      var patch := ApprovePatch(HeaderOr(demoUser, "unknown"), Field(body, "notes"), now);
      ApproveAgents(verb, demoUser, body, now, w);
      DS.GetAfterUpdate(w.agents, id, patch);
      ApprovedRecord(DS.GetAgent(w.agents, id).value, HeaderOr(demoUser, "unknown"), Field(body, "notes"), now);
    }
  }

  /** What a successful rejection leaves in the agent records. */
  lemma RejectAgents(verb: string, demoUser: Option<string>, body: Option<Json>, now: int, w: World)
    requires Reject(verb, demoUser, body, now, w).0.status == 200
    ensures Reject(verb, demoUser, body, now, w).1.agents
      == DS.UpdateAgent(w.agents, AgentIdOf(body), RejectPatch(HeaderOr(demoUser, "unknown"), Field(body, "notes"), now)).0
  {
  }

  /** Rejecting a record unapproves and kills it, and the review notes default to the
      design-time gate text. */
  lemma RejectedRecord(a: Record, user: string, notes: Option<Json>, now: int)
    ensures var u := Merge(a, RejectPatch(user, notes, now));
      Get(u, "approved") == Some(JBool(false)) && Get(u, "status") == Some(JStr("killed"))
    ensures !Truthy(notes) ==>
      Get(Merge(a, RejectPatch(user, notes, now)), "review") == Some(Review("REJECTED", user, Some(JStr(DefaultRejectNotes)), now))
  {
  }

  /** A rejection has no status precondition: every agent that exists is rejected, and is then
      found killed and unapproved. */
  lemma RejectGate(verb: string, demoUser: Option<string>, body: Option<Json>, now: int, w: World)
    ensures var id := AgentIdOf(body);
      Reject(verb, demoUser, body, now, w).0.status == 200 <==> (verb == "POST" && id != "" && DS.GetAgent(w.agents, id).Some?)
    ensures var id := AgentIdOf(body);
      var w2 := Reject(verb, demoUser, body, now, w).1;
      Reject(verb, demoUser, body, now, w).0.status == 200 ==>
        DS.GetAgent(w2.agents, id).Some?
        && Get(DS.GetAgent(w2.agents, id).value, "approved") == Some(JBool(false))
        && Get(DS.GetAgent(w2.agents, id).value, "status") == Some(JStr("killed"))
  {
    var id := AgentIdOf(body);
    if Reject(verb, demoUser, body, now, w).0.status == 200 {
      var patch := RejectPatch(HeaderOr(demoUser, "unknown"), Field(body, "notes"), now);
      RejectAgents(verb, demoUser, body, now, w);
      DS.GetAfterUpdate(w.agents, id, patch);
      RejectedRecord(DS.GetAgent(w.agents, id).value, HeaderOr(demoUser, "unknown"), Field(body, "notes"), now);
    }
  }

  /** Killing a record sets its status and nothing else. */
  lemma KilledRecord(a: Record)
    ensures Merge(a, KillPatch) == a["status" := JStr("killed")]
  {
  }

  /** What a successful kill leaves in the agent records. */
  lemma KillAgents(verb: string, demoUser: Option<string>, body: Option<Json>, c: KillCollaborators, now: int, w: World)
    requires Kill(verb, demoUser, body, c, now, w).0.status == 200
    ensures Kill(verb, demoUser, body, c, now, w).1.agents == DS.UpdateAgent(w.agents, AgentIdOf(body), KillPatch).0
  {
  }

  /** A kill succeeds exactly for a POST naming an agent that exists; the agent is then found
      with status "killed" and every other field as it was. */
  lemma KillGate(verb: string, demoUser: Option<string>, body: Option<Json>, c: KillCollaborators, now: int, w: World)
    ensures var id := AgentIdOf(body);
      Kill(verb, demoUser, body, c, now, w).0.status == 200 <==> (verb == "POST" && DS.GetAgent(w.agents, id).Some?)
    ensures var id := AgentIdOf(body);
      var w2 := Kill(verb, demoUser, body, c, now, w).1;
      Kill(verb, demoUser, body, c, now, w).0.status == 200 ==>
        DS.GetAgent(w2.agents, id) == Some(DS.GetAgent(w.agents, id).value["status" := JStr("killed")])
  {
    var id := AgentIdOf(body);
    DS.GetAfterUpdate(w.agents, id, KillPatch);
    if Kill(verb, demoUser, body, c, now, w).0.status == 200 {
      KillAgents(verb, demoUser, body, c, now, w);
      KilledRecord(DS.GetAgent(w.agents, id).value);
    }
  }

  /** An agent whose record says "killed" is refused by the design-time approval. */
  lemma KilledNotApproved(demoUser: Option<string>, body: Option<Json>, now: int, w: World)
    requires AgentIdOf(body) != "" && DS.GetAgent(w.agents, AgentIdOf(body)).Some?
    requires Get(DS.GetAgent(w.agents, AgentIdOf(body)).value, "status") == Some(JStr("killed"))
    ensures Approve("POST", demoUser, body, now, w) == (Error(403, "Agent is killed"), w)
  {
  }

  /** As written, approval re-approves a killed agent: the request is answered 200 and the record
      becomes approved and active again, where the guarded handler refuses it with 403. */
  lemma KilledReapprovedAsWritten(demoUser: Option<string>, body: Option<Json>, now: int, w: World)
    requires AgentIdOf(body) != "" && DS.GetAgent(w.agents, AgentIdOf(body)).Some?
    requires Get(DS.GetAgent(w.agents, AgentIdOf(body)).value, "status") == Some(JStr("killed"))
    ensures var (reply, w2) := ApproveAsWritten("POST", demoUser, body, now, w);
      && reply.status == 200
      && DS.GetAgent(w2.agents, AgentIdOf(body)).Some?
      && Get(DS.GetAgent(w2.agents, AgentIdOf(body)).value, "status") == Some(JStr("active"))
      && Get(DS.GetAgent(w2.agents, AgentIdOf(body)).value, "approved") == Some(JBool(true))
    ensures Approve("POST", demoUser, body, now, w).0.status == 403
  {
    var id := AgentIdOf(body);
    var patch := ApprovePatch(HeaderOr(demoUser, "unknown"), Field(body, "notes"), now);
    DS.GetAfterUpdate(w.agents, id, patch);
    ApprovedRecord(DS.GetAgent(w.agents, id).value, HeaderOr(demoUser, "unknown"), Field(body, "notes"), now);
    KilledNotApproved(demoUser, body, now, w);
  }

  /** As written, approving an id no record has is answered 200 and changes no record. */
  lemma UnknownApprovedAsWritten(demoUser: Option<string>, body: Option<Json>, now: int, w: World)
    requires AgentIdOf(body) != "" && DS.GetAgent(w.agents, AgentIdOf(body)).None?
    ensures var (reply, w2) := ApproveAsWritten("POST", demoUser, body, now, w);
      reply.status == 200 && w2.agents == w.agents
    ensures Approve("POST", demoUser, body, now, w).0.status == 404
  {
  }

  /** A concrete instance: the one agent "a1" has been killed, and a POST naming it approves it
      again as written. */
  lemma KilledReapprovedWitness(demoUser: Option<string>, now: int)
    ensures var w := World([map["id" := JStr("a1"), "status" := JStr("killed")]], [], [], [], []);
      var body := Some(JObj(map["agent_id" := JStr("a1")]));
      && ApproveAsWritten("POST", demoUser, body, now, w).0.status == 200
      && Get(DS.GetAgent(ApproveAsWritten("POST", demoUser, body, now, w).1.agents, "a1").value, "status") == Some(JStr("active"))
      && Approve("POST", demoUser, body, now, w).0.status == 403
  {
    var rec: Record := map["id" := JStr("a1"), "status" := JStr("killed")];
    var w := World([rec], [], [], [], []);
    var body := Some(JObj(map["agent_id" := JStr("a1")]));
    assert AgentIdOf(body) == "a1";
    assert DS.HasId(w.agents[0], "a1");
    assert DS.GetAgent(w.agents, "a1").Some?;
    KilledReapprovedAsWritten(demoUser, body, now, w);
  }

  /** A killed agent stays out of service: the design-time approval refuses it (with 403, unless
      its id is blank, which approval refuses with 400 before looking) and the runtime check
      denies it with the reason agent_killed. */
  lemma KilledStaysKilled(verb: string, demoUser: Option<string>, body: Option<Json>, c: KillCollaborators, now: int, w: World,
                          approveBody: Option<Json>, later: int)
    requires Kill(verb, demoUser, body, c, now, w).0.status == 200
    requires AgentIdOf(approveBody) == AgentIdOf(body)
    ensures var w2 := Kill(verb, demoUser, body, c, now, w).1;
      Approve("POST", demoUser, approveBody, later, w2).0.status == (if AgentIdOf(body) == "" then 400 else 403)
    ensures var w2 := Kill(verb, demoUser, body, c, now, w).1;
      var d := AC.Decide(DS.GetAgent(w2.agents, AgentIdOf(body)));
      !d.allow && d.reason == "agent_" + "killed"
  {
    var id := AgentIdOf(body);
    var w2 := Kill(verb, demoUser, body, c, now, w).1;
    assert DS.GetAgent(w2.agents, id).Some? && Get(DS.GetAgent(w2.agents, id).value, "status") == Some(JStr("killed")) by {
      KillGate(verb, demoUser, body, c, now, w);
    }
    KilledRecordRefused(id, demoUser, approveBody, later, w2);
  }

  /** A stored record whose status is "killed" is refused by both gates: design-time approval and
      the runtime check. */
  lemma KilledRecordRefused(id: string, demoUser: Option<string>, approveBody: Option<Json>, later: int, w: World)
    requires DS.GetAgent(w.agents, id).Some? && Get(DS.GetAgent(w.agents, id).value, "status") == Some(JStr("killed"))
    requires AgentIdOf(approveBody) == id
    ensures Approve("POST", demoUser, approveBody, later, w).0.status == (if id == "" then 400 else 403)
    ensures var d := AC.Decide(DS.GetAgent(w.agents, id));
      !d.allow && d.reason == "agent_" + "killed"
  {
    var killed := DS.GetAgent(w.agents, id);
    if id != "" {
      KilledNotApproved(demoUser, approveBody, later, w);
    }
    assert AC.StatusOf(killed.value) == "killed";
    AC.DecideAllows(killed);
  }

  /** A rejection is final at the design-time gate: once rejected, an agent cannot be approved. */
  lemma RejectedStaysRejected(demoUser: Option<string>, body: Option<Json>, now: int, w: World,
                              approveUser: Option<string>, approveBody: Option<Json>, later: int)
    requires Reject("POST", demoUser, body, now, w).0.status == 200
    requires AgentIdOf(approveBody) == AgentIdOf(body)
    ensures var w2 := Reject("POST", demoUser, body, now, w).1;
      Approve("POST", approveUser, approveBody, later, w2) == (Error(403, "Agent is killed"), w2)
  {
    var w2 := Reject("POST", demoUser, body, now, w).1;
    RejectGate("POST", demoUser, body, now, w);
    KilledNotApproved(approveUser, approveBody, later, w2);
  }
}
