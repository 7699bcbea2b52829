/** The human-in-the-loop decision handlers over the demo decision records:
    pages/api/decisions/notify.ts issues a fifteen-minute approval token to an allow-listed
    approver and leaves a link in the outbox; pages/api/decisions/approve.ts redeems that token
    once, for a pending HITL decision; pages/api/decisions/deny.ts denies any decision it finds,
    whatever its status. */
module DecisionHandlers {
  import opened Base
  import opened Json
  import Text
  import DS = DemoStore
  import DA = DemoAuth
  import P = Projections
  import opened Api

  /** The approval token lifetime, fifteen minutes in milliseconds. */
  const TokenLifetime := 15 * 60 * 1000

  /** The collaborators: SHA-256 for `hashEmail`, the `redact` projection of the audit data,
      the string-to-number conversion of a comparison, and `encodeURIComponent`. */
  datatype Collaborators = Collaborators(
    sha: string -> string, redact: Json -> Json, strNum: string -> Option<int>, encodeUri: string -> string)

  /** The environment notify reads: the demo expiry with `Date.parse`, the approver allow lists
      and `VERCEL_URL`. */
  datatype NotifyEnv = NotifyEnv(
    expiresAt: Option<string>, parseDate: string -> Option<int>,
    allowedEmails: Option<string>, allowedDomains: Option<string>, vercelUrl: Option<string>)

  /** `Date.now() > v` for a stored expiry: a value that is not a number compares false. */
  predicate ExpiredAt(now: int, v: Json, strNum: string -> Option<int>) {
    match ToNumber(v, strNum)
    case None => false
    case Some(n) => now > n
  }

  /** The patch that redeems a token: approved, allowed, and the token and its expiry removed. */
  const RedeemPatch: Patch := map[
    "status" := Some(JStr("approved")), "allowed" := Some(JBool(true)),
    "approval_token" := None, "token_expires_at" := None]

  /** Why a token cannot be redeemed on decision `d`, if it cannot. */
  function RedeemRefusal(d: Record, tok: string, now: int, strNum: string -> Option<int>): (r: Option<Reply>)
    ensures r.None? <==>
      (IsStr(Get(d, "control_mode"), "HITL") && IsStr(Get(d, "status"), "pending")
       && tok != "" && Get(d, "approval_token") == Some(JStr(tok))
       && Truthy(Get(d, "token_expires_at")) && !ExpiredAt(now, d["token_expires_at"], strNum))
    ensures r.Some? && !IsStr(Get(d, "control_mode"), "HITL") ==> r.value.status == 400
    ensures r.Some? && IsStr(Get(d, "control_mode"), "HITL") && !IsStr(Get(d, "status"), "pending") ==> r.value.status == 400
    ensures r.Some? && IsStr(Get(d, "control_mode"), "HITL") && IsStr(Get(d, "status"), "pending") ==> r.value.status == 403
  {
    if !IsStr(Get(d, "control_mode"), "HITL") then Some(Error(400, "Not a HITL decision"))
    else if !IsStr(Get(d, "status"), "pending") then Some(Error(400, "Decision already " + StringOf(Get(d, "status"))))
    else if !Truthy(Get(d, "approval_token")) || Get(d, "approval_token") != Some(JStr(tok)) then Some(Error(403, "Invalid token"))
    else if !Truthy(Get(d, "token_expires_at")) || ExpiredAt(now, d["token_expires_at"], strNum) then Some(Error(403, "Token expired"))
    else None
  }

  /** pages/api/decisions/approve.ts: redeem an approval token at time `now`. */
  function Approve(verb: string, demoUser: Option<string>, body: Option<Json>, c: Collaborators, now: int, w: World): (r: (Reply, World))
    ensures r.0.status != 200 ==> r.1 == w
    ensures r.0.status == 200 ==> r.1.agents == w.agents && r.1.outbox == w.outbox && |r.1.audit| == |w.audit| + 1
  {
    if verb != "POST" then (Error(405, "Method not allowed"), w)
    else
      var did, tok := StringOrEmpty(Field(body, "decision_id")), StringOrEmpty(Field(body, "token"));
      match DS.GetAgent(w.decisions, did)
      case None => (Error(404, "Decision not found"), w)
      case Some(d) =>
        match RedeemRefusal(d, tok, now, c.strNum)
        case Some(refusal) => (refusal, w)
        case None =>
          var event := map[
            "ts" := JNum(now), "type" := JStr("hitl_approved"),
            "user_hash" := JStr(P.HashEmail(c.sha, HeaderOr(demoUser, ""))),
            "data" := c.redact(JObj(map["decision_id" := JStr(did), "allowed" := JBool(true)]))];
          (Reply(200, map["ok" := JBool(true), "decision_id" := JStr(did), "status" := JStr("approved")]),
           w.(decisions := DS.UpdateAgent(w.decisions, did, RedeemPatch).0, audit := w.audit + [event]))
  }

  /** The patch of a denial at `now` by `user`. */
  function DenyPatch(user: string, notes: Option<Json>, now: int): Patch {
    map["status" := Some(JStr("DENIED")), "denied_at" := Some(JNum(now)), "denied_by" := Some(JStr(user)),
        "denied_notes" := StringIfTruthy(notes, None), "decision" := Some(JStr("DENY"))]
  }

  /** The audit event of a denial. */
  function DenyAudit(user: string, u: Record, now: int): Record {
    Defined(map[
      "ts" := Some(JNum(now)), "user" := Some(JStr(user)), "endpoint" := Some(JStr("/api/decisions/deny")),
      "decision" := Some(JStr("DENY")), "reason" := Some(JStr("decision_denied")),
      "decision_id" := Get(u, "id"), "agentId" := Get(u, "agent_id"), "control_mode" := Get(u, "control_mode"),
      "action" := Get(u, "action"), "target" := Get(u, "target"), "tier" := Get(u, "tier"),
      "policy_version" := Get(u, "policy_version")])
  }

  /** pages/api/decisions/deny.ts: deny a decision at time `now`. */
  function Deny(verb: string, demoUser: Option<string>, body: Option<Json>, now: int, w: World): (r: (Reply, World))
    ensures r.0.status != 200 ==> r.1 == w
    ensures r.0.status == 200 ==> r.1.agents == w.agents && r.1.audit == w.audit && |r.1.written| == |w.written| + 1
  {
    if verb != "POST" then (Error(405, "Method not allowed"), w)
    else
      var user := HeaderOr(demoUser, "unknown");
      var id := Text.Trim(StringOrEmpty(Field(body, "decision_id")));
      if id == "" then (Error(400, "decision_id required"), w)
      else if DS.GetAgent(w.decisions, id).None? then (Error(404, "Decision not found"), w)
      else
        var (decisions, updated) := DS.UpdateAgent(w.decisions, id, DenyPatch(user, Field(body, "notes"), now));
        (Reply(200, map["ok" := JBool(true), "decision" := JObj(updated.value)]),
         w.(decisions := decisions, written := w.written + [DenyAudit(user, updated.value, now)]))
  }

  /** Denying a record sets its status to DENIED, its decision to DENY and the denial time. */
  lemma DeniedRecord(d: Record, user: string, notes: Option<Json>, now: int)
    ensures var u := Merge(d, DenyPatch(user, notes, now));
      Get(u, "status") == Some(JStr("DENIED")) && Get(u, "decision") == Some(JStr("DENY"))
      && Get(u, "denied_at") == Some(JNum(now)) && Get(u, "denied_by") == Some(JStr(user))
  {
  }

  /** A denial has no transition guard: every decision that exists is denied, from whatever
      status, and the next lookup finds it DENIED with the denial recorded. */
  lemma DenyAnyStatus(demoUser: Option<string>, body: Option<Json>, now: int, w: World)
    requires Text.Trim(StringOrEmpty(Field(body, "decision_id"))) != ""
    ensures var id := Text.Trim(StringOrEmpty(Field(body, "decision_id")));
      Deny("POST", demoUser, body, now, w).0.status == 200 <==> DS.GetAgent(w.decisions, id).Some?
    ensures var id := Text.Trim(StringOrEmpty(Field(body, "decision_id")));
      var w2 := Deny("POST", demoUser, body, now, w).1;
      DS.GetAgent(w.decisions, id).Some? ==>
        DS.GetAgent(w2.decisions, id).Some?
        && Get(DS.GetAgent(w2.decisions, id).value, "status") == Some(JStr("DENIED"))
        && Get(DS.GetAgent(w2.decisions, id).value, "decision") == Some(JStr("DENY"))
        && Get(DS.GetAgent(w2.decisions, id).value, "denied_at") == Some(JNum(now))
  {
    var id := Text.Trim(StringOrEmpty(Field(body, "decision_id")));
    var user := HeaderOr(demoUser, "unknown");
    var patch := DenyPatch(user, Field(body, "notes"), now);
    if DS.GetAgent(w.decisions, id).Some? {
      var w2 := Deny("POST", demoUser, body, now, w).1;
      assert w2.decisions == DS.UpdateAgent(w.decisions, id, patch).0;
      DS.GetAfterUpdate(w.decisions, id, patch);
      DeniedRecord(DS.GetAgent(w.decisions, id).value, user, Field(body, "notes"), now);
    }
  }

  /** The audit event of a denial says DENY for the reason decision_denied. */
  lemma DenyAudited(user: string, u: Record, now: int)
    ensures "decision" in DenyAudit(user, u, now) && DenyAudit(user, u, now)["decision"] == JStr("DENY")
    ensures "reason" in DenyAudit(user, u, now) && DenyAudit(user, u, now)["reason"] == JStr("decision_denied")
  {
  }

  /** The outbox kind of a notification: an approval request for HITL decisions, a review
      request for every other. */
  function OutboxKind(d: Record): (k: string)
    ensures k == "HITL_APPROVAL" <==> IsStr(Get(d, "control_mode"), "HITL")
    ensures k == "HOTL_REVIEW" <==> !IsStr(Get(d, "control_mode"), "HITL")
  {
    if IsStr(Get(d, "control_mode"), "HITL") then "HITL_APPROVAL" else "HOTL_REVIEW"
  }

  /** The approval link: relative unless `VERCEL_URL` is set. */
  function ApproveLink(env: NotifyEnv, c: Collaborators, did: string, token: string): string {
    var base := if env.vercelUrl.Some? && env.vercelUrl.value != "" then "https://" + env.vercelUrl.value else "";
    base + "/approvals?decision_id=" + c.encodeUri(did) + "&token=" + c.encodeUri(token)
  }

  /** The outbox item of a notification about decision `d`. */
  function OutboxItem(c: Collaborators, approver: string, d: Record, did: string, link: string, now: int): Record {
    map["ts" := JNum(now), "to_hash" := JStr(P.HashEmail(c.sha, approver)), "kind" := JStr(OutboxKind(d)),
        "decision_id" := JStr(did), "link" := JStr(link)]
  }

  /** The patch that issues `token` to `approver` at `now`. */
  function IssuePatch(c: Collaborators, approver: string, token: string, now: int): Patch {
    map["approver_hash" := Some(JStr(P.HashEmail(c.sha, approver))), "approval_token" := Some(JStr(token)),
        "token_expires_at" := Some(JNum(now + TokenLifetime))]
  }

  /** pages/api/decisions/notify.ts at time `now`, with `token` the fresh random token. */
  function Notify(verb: string, demoUser: Option<string>, body: Option<Json>, env: NotifyEnv, c: Collaborators,
                  token: string, now: int, w: World): (r: (Reply, World))
    ensures r.0.status != 200 ==> r.1 == w
    ensures r.0.status == 200 ==> r.1.agents == w.agents && |r.1.outbox| == |w.outbox| + 1 && |r.1.audit| == |w.audit| + 1
  {
    if verb != "POST" then (Error(405, "Method not allowed"), w)
    else if DA.IsDemoExpiredNow(env.expiresAt, env.parseDate, now) then (Error(403, "Demo expired"), w)
    else
      var did := StringOrEmpty(Field(body, "decision_id"));
      var approver := DA.Clean(StringOrEmpty(Field(body, "approver_email")));
      if !DA.IsEmailAllowed(approver, env.allowedEmails, env.allowedDomains) then (Error(403, "Approver email not allowlisted"), w)
      else match DS.GetAgent(w.decisions, did)
        case None => (Error(404, "Decision not found"), w)
        case Some(d) =>
          var link := ApproveLink(env, c, did, token);
          var item := OutboxItem(c, approver, d, did, link, now);
          var event := map[
            "ts" := JNum(now), "type" := JStr("notify_outbox"),
            "user_hash" := JStr(P.HashEmail(c.sha, HeaderOr(demoUser, ""))),
            "data" := c.redact(JObj(Defined(map["decision_id" := Some(JStr(did)), "control_mode" := Get(d, "control_mode")])))];
          (Reply(200, map["ok" := JBool(true), "decision_id" := JStr(did), "outbox_link" := JStr(link),
                          "note" := JStr("Demo-safe notify: link stored in outbox (no real email sent).")]),
           w.(decisions := DS.UpdateAgent(w.decisions, did, IssuePatch(c, approver, token, now)).0,
              outbox := w.outbox + [item], audit := w.audit + [event]))
  }

  /** A notification is sent exactly for a POST before the demo expiry, to an allow-listed
      approver, about a decision that exists; a listed approver is checked before the lookup. */
  lemma NotifySent(verb: string, demoUser: Option<string>, body: Option<Json>, env: NotifyEnv, c: Collaborators,
                   token: string, now: int, w: World)
    ensures var did := StringOrEmpty(Field(body, "decision_id"));
      var approver := DA.Clean(StringOrEmpty(Field(body, "approver_email")));
      Notify(verb, demoUser, body, env, c, token, now, w).0.status == 200 <==>
        (verb == "POST" && !DA.IsDemoExpiredNow(env.expiresAt, env.parseDate, now)
         && DA.IsEmailAllowed(approver, env.allowedEmails, env.allowedDomains) && DS.GetAgent(w.decisions, did).Some?)
    ensures (verb == "POST" && !DA.IsDemoExpiredNow(env.expiresAt, env.parseDate, now)
      && !DA.IsEmailAllowed(DA.Clean(StringOrEmpty(Field(body, "approver_email"))), env.allowedEmails, env.allowedDomains)) ==>
      Notify(verb, demoUser, body, env, c, token, now, w) == (Error(403, "Approver email not allowlisted"), w)
  {
  }

  /** The outbox item of a notification has the kind the decision's control mode selects. */
  lemma OutboxItemKind(c: Collaborators, approver: string, d: Record, did: string, link: string, now: int)
    ensures Get(OutboxItem(c, approver, d, did, link, now), "kind") == Some(JStr(OutboxKind(d)))
    ensures Get(OutboxItem(c, approver, d, did, link, now), "decision_id") == Some(JStr(did))
  {
  }

  /** A notification adds exactly its item to the outbox, about the decision it looked up. */
  lemma NotifyOutbox(verb: string, demoUser: Option<string>, body: Option<Json>, env: NotifyEnv, c: Collaborators,
                     token: string, now: int, w: World)
    requires Notify(verb, demoUser, body, env, c, token, now, w).0.status == 200
    ensures var did := StringOrEmpty(Field(body, "decision_id"));
      var approver := DA.Clean(StringOrEmpty(Field(body, "approver_email")));
      var w2 := Notify(verb, demoUser, body, env, c, token, now, w).1;
      DS.GetAgent(w.decisions, did).Some?
      && w2.outbox == w.outbox + [OutboxItem(c, approver, DS.GetAgent(w.decisions, did).value, did,
                                             ApproveLink(env, c, did, token), now)]
  {
  }

  /** The decision a notification leaves behind carries the token, which expires fifteen minutes
      after it was issued. */
  lemma NotifyIssuesToken(verb: string, demoUser: Option<string>, body: Option<Json>, env: NotifyEnv, c: Collaborators,
                          token: string, now: int, w: World)
    requires Notify(verb, demoUser, body, env, c, token, now, w).0.status == 200
    ensures var did := StringOrEmpty(Field(body, "decision_id"));
      var w2 := Notify(verb, demoUser, body, env, c, token, now, w).1;
      DS.GetAgent(w2.decisions, did).Some?
      && Get(DS.GetAgent(w2.decisions, did).value, "approval_token") == Some(JStr(token))
      && Get(DS.GetAgent(w2.decisions, did).value, "token_expires_at") == Some(JNum(now + TokenLifetime))
  {
    var did := StringOrEmpty(Field(body, "decision_id"));
    var approver := DA.Clean(StringOrEmpty(Field(body, "approver_email")));
    var patch := IssuePatch(c, approver, token, now);
    NotifyDecisions(verb, demoUser, body, env, c, token, now, w);
    DS.GetAfterUpdate(w.decisions, did, patch);
    IssuedRecord(DS.GetAgent(w.decisions, did).value, c, approver, token, now);
  }

  /** Issuing a token leaves the control mode and the status of the decision as they were. */
  lemma NotifyKeepsState(verb: string, demoUser: Option<string>, body: Option<Json>, env: NotifyEnv, c: Collaborators,
                         token: string, now: int, w: World)
    requires Notify(verb, demoUser, body, env, c, token, now, w).0.status == 200
    ensures var did := StringOrEmpty(Field(body, "decision_id"));
      var w2 := Notify(verb, demoUser, body, env, c, token, now, w).1;
      DS.GetAgent(w.decisions, did).Some? && DS.GetAgent(w2.decisions, did).Some?
      && Get(DS.GetAgent(w2.decisions, did).value, "control_mode") == Get(DS.GetAgent(w.decisions, did).value, "control_mode")
      && Get(DS.GetAgent(w2.decisions, did).value, "status") == Get(DS.GetAgent(w.decisions, did).value, "status")
  {
    var did := StringOrEmpty(Field(body, "decision_id"));
    var approver := DA.Clean(StringOrEmpty(Field(body, "approver_email")));
    var patch := IssuePatch(c, approver, token, now);
    NotifyDecisions(verb, demoUser, body, env, c, token, now, w);
    DS.GetAfterUpdate(w.decisions, did, patch);
    IssueKeeps(DS.GetAgent(w.decisions, did).value, c, approver, token, now);
  }

  /** What a notification leaves in the decision records. */
  lemma NotifyDecisions(verb: string, demoUser: Option<string>, body: Option<Json>, env: NotifyEnv, c: Collaborators,
                        token: string, now: int, w: World)
    requires Notify(verb, demoUser, body, env, c, token, now, w).0.status == 200
    ensures var did := StringOrEmpty(Field(body, "decision_id"));
      var approver := DA.Clean(StringOrEmpty(Field(body, "approver_email")));
      Notify(verb, demoUser, body, env, c, token, now, w).1.decisions
        == DS.UpdateAgent(w.decisions, did, IssuePatch(c, approver, token, now)).0
  {
  }

  /** Issuing a token does not touch the control mode or the status. */
  lemma IssueKeeps(d: Record, c: Collaborators, approver: string, token: string, now: int)
    ensures Get(Merge(d, IssuePatch(c, approver, token, now)), "control_mode") == Get(d, "control_mode")
    ensures Get(Merge(d, IssuePatch(c, approver, token, now)), "status") == Get(d, "status")
  {
  }

  /** Issuing a token stores it with its expiry on the record. */
  lemma IssuedRecord(d: Record, c: Collaborators, approver: string, token: string, now: int)
    ensures var u := Merge(d, IssuePatch(c, approver, token, now));
      Get(u, "approval_token") == Some(JStr(token)) && Get(u, "token_expires_at") == Some(JNum(now + TokenLifetime))
  {
  }

  /** Redeeming marks a record approved and removes its token. */
  lemma RedeemedRecord(d: Record)
    ensures var u := Merge(d, RedeemPatch);
      Get(u, "status") == Some(JStr("approved")) && Get(u, "allowed") == Some(JBool(true))
      && Get(u, "approval_token").None? && Get(u, "token_expires_at").None?
  {
  }

  /** What a successful approval leaves in the decision records. */
  lemma ApprovedDecisions(verb: string, demoUser: Option<string>, body: Option<Json>, c: Collaborators, now: int, w: World)
    requires Approve(verb, demoUser, body, c, now, w).0.status == 200
    ensures var did := StringOrEmpty(Field(body, "decision_id"));
      var w2 := Approve(verb, demoUser, body, c, now, w).1;
      DS.GetAgent(w.decisions, did).Some? && w2.decisions == DS.UpdateAgent(w.decisions, did, RedeemPatch).0
  {
  }

  /** After a successful approval the decision is found approved, without a token. */
  lemma ApprovedLookup(verb: string, demoUser: Option<string>, body: Option<Json>, c: Collaborators, now: int, w: World)
    requires Approve(verb, demoUser, body, c, now, w).0.status == 200
    ensures var did := StringOrEmpty(Field(body, "decision_id"));
      var w2 := Approve(verb, demoUser, body, c, now, w).1;
      DS.GetAgent(w2.decisions, did).Some?
      && Get(DS.GetAgent(w2.decisions, did).value, "status") == Some(JStr("approved"))
      && Get(DS.GetAgent(w2.decisions, did).value, "approval_token").None?
  {
    var did := StringOrEmpty(Field(body, "decision_id"));
    ApprovedDecisions(verb, demoUser, body, c, now, w);
    DS.GetAfterUpdate(w.decisions, did, RedeemPatch);
    RedeemedRecord(DS.GetAgent(w.decisions, did).value);
  }

  /** Redeeming the token of a pending HITL decision succeeds up to and including its expiry
      instant and fails after it; success approves the decision and removes the token. */
  lemma RedeemWindow(verb: string, demoUser: Option<string>, body: Option<Json>, c: Collaborators, now: int, w: World,
                     token: string, issued: int)
    requires verb == "POST" && token != "" && issued + TokenLifetime != 0
    requires var did := StringOrEmpty(Field(body, "decision_id"));
      DS.GetAgent(w.decisions, did).Some?
      && var d := DS.GetAgent(w.decisions, did).value;
      IsStr(Get(d, "control_mode"), "HITL") && IsStr(Get(d, "status"), "pending")
      && Get(d, "approval_token") == Some(JStr(token)) && Get(d, "token_expires_at") == Some(JNum(issued + TokenLifetime))
    requires StringOrEmpty(Field(body, "token")) == token
    ensures Approve(verb, demoUser, body, c, now, w).0.status == 200 <==> now <= issued + TokenLifetime
    ensures var did := StringOrEmpty(Field(body, "decision_id"));
      var w2 := Approve(verb, demoUser, body, c, now, w).1;
      now <= issued + TokenLifetime ==>
        DS.GetAgent(w2.decisions, did).Some?
        && Get(DS.GetAgent(w2.decisions, did).value, "status") == Some(JStr("approved"))
        && Get(DS.GetAgent(w2.decisions, did).value, "approval_token").None?
  {
    var did := StringOrEmpty(Field(body, "decision_id"));
    var d := DS.GetAgent(w.decisions, did).value;
    assert d["token_expires_at"] == JNum(issued + TokenLifetime);
    assert RedeemRefusal(d, token, now, c.strNum).None? <==> now <= issued + TokenLifetime;
    if now <= issued + TokenLifetime {
      ApprovedLookup(verb, demoUser, body, c, now, w);
    }
  }

  /** A token is good for one approval: once redeemed, the same request is refused. */
  lemma TokenSingleUse(verb: string, demoUser: Option<string>, body: Option<Json>, c: Collaborators, now: int, later: int, w: World)
    requires Approve(verb, demoUser, body, c, now, w).0.status == 200
    ensures var w2 := Approve(verb, demoUser, body, c, now, w).1;
      Approve(verb, demoUser, body, c, later, w2).0.status == 400
  {
    var did := StringOrEmpty(Field(body, "decision_id"));
    var w2 := Approve(verb, demoUser, body, c, now, w).1;
    ApprovedLookup(verb, demoUser, body, c, now, w);
    var d2 := DS.GetAgent(w2.decisions, did).value;
    assert !IsStr(Get(d2, "status"), "pending");
    assert RedeemRefusal(d2, StringOrEmpty(Field(body, "token")), later, c.strNum).Some?;
  }

  /** The notify-then-approve round trip: after a notification about a pending HITL decision,
      an approval presenting the issued token succeeds exactly until fifteen minutes after the
      notification, the expiry instant included. */
  lemma NotifyThenApprove(demoUser: Option<string>, notifyBody: Option<Json>, env: NotifyEnv, c: Collaborators,
                          token: string, issued: int, approveBody: Option<Json>, now: int, w: World)
    requires Notify("POST", demoUser, notifyBody, env, c, token, issued, w).0.status == 200
    requires var d := DS.GetAgent(w.decisions, StringOrEmpty(Field(notifyBody, "decision_id")));
      d.Some? && IsStr(Get(d.value, "control_mode"), "HITL") && IsStr(Get(d.value, "status"), "pending")
    requires token != "" && issued + TokenLifetime != 0
    requires StringOrEmpty(Field(approveBody, "decision_id")) == StringOrEmpty(Field(notifyBody, "decision_id"))
    requires StringOrEmpty(Field(approveBody, "token")) == token
    ensures var w2 := Notify("POST", demoUser, notifyBody, env, c, token, issued, w).1;
      Approve("POST", demoUser, approveBody, c, now, w2).0.status == 200 <==> now <= issued + TokenLifetime
  {
    var w2 := Notify("POST", demoUser, notifyBody, env, c, token, issued, w).1;
    NotifyIssuesToken("POST", demoUser, notifyBody, env, c, token, issued, w);
    NotifyKeepsState("POST", demoUser, notifyBody, env, c, token, issued, w);
    RedeemWindow("POST", demoUser, approveBody, c, now, w2, token, issued);
  }
}
