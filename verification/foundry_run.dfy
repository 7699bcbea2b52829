/** The Foundry link endpoint of pages/api/foundry/run.ts: an external Foundry agent is linked to
    the internal record `foundry_<externalAgentId>`, which gets the requested tier when the
    request allows it (the existing tier, or A2, otherwise) and that tier's default controls.
    Whether the store offers `upsertAgent` is the parameter `hasUpsert`; lib/demoStore.ts as
    shipped does not, so the link then only updates a record that already exists. */
module FoundryRun {
  import opened Base
  import opened Json
  import Text
  import DS = DemoStore
  import opened PolicyPack
  import PE = PolicyEngine
  import opened Api

  /** The tiers a request may ask for when it does not list its own. */
  const DefaultTiers := ["A1", "A2", "A3", "A4", "A5", "A6"]

  /** The tier of an agent that has none and asked for none it may have. */
  const FallbackTier := "A2"

  const MissingRecord := "Agent record missing; please implement upsertAgent in demoStore"

  /** `v ? String(v).trim() : ""`. */
  function TrimmedOrEmpty(v: Option<Json>): (r: string)
    ensures !Truthy(v) ==> r == ""
    ensures Text.Trimmed(r)
  {
    if Truthy(v) then Text.TrimSpec(ToJsString(v.value)); Text.Trim(ToJsString(v.value)) else ""
  }

  /** The internal id of a Foundry agent. */
  function InternalId(externalAgentId: string): string {
    "foundry_" + externalAgentId
  }

  /** `body.allowedTiers` as strings when it is an array, the six tiers otherwise. */
  function AllowedTiers(body: Option<Json>): (r: seq<string>)
    ensures (Field(body, "allowedTiers").Some? && Field(body, "allowedTiers").value.JArr?) ==>
      |r| == |Field(body, "allowedTiers").value.items|
    ensures !(Field(body, "allowedTiers").Some? && Field(body, "allowedTiers").value.JArr?) ==> r == DefaultTiers
  {
    match Field(body, "allowedTiers")
    case Some(JArr(xs)) => seq(|xs|, i requires 0 <= i < |xs| => ToJsString(xs[i]))
    case _ => DefaultTiers
  }

  /** The tier a link gives: the requested one when it is allowed, else the existing agent's
      tier when it has a truthy one, else A2. */
  function TierFor(requested: string, allowed: seq<string>, existing: Option<Record>): (t: Json)
    ensures t == JStr(requested) || t == JStr(FallbackTier)
      || (existing.Some? && Truthy(Get(existing.value, "tier")) && Some(t) == Get(existing.value, "tier"))
    ensures requested in allowed ==> t == JStr(requested)
  {
    if requested in allowed then JStr(requested)
    else Or(Get(existing.GetOr(map[]), "tier"), JStr(FallbackTier))
  }

  /** `controlsForTier(tier)`: a tier that is not a string matches no tier definition. */
  function ControlsOf(tier: Json, pack: Pack): (r: Result<Json>)
    ensures tier.JStr? ==> r == PE.ControlsForTier(tier.s, pack)
    ensures !tier.JStr? ==> r.Err?
  {
    if tier.JStr? then PE.ControlsForTier(tier.s, pack) else Err("Unknown tier " + ToJsString(tier))
  }

  /** The record `upsertAgent` is given: the existing agent's name, owner, status, approval,
      creation time and problem statement win over the request's defaults. */
  function Linked(id: string, ext: string, user: string, body: Option<Json>, existing: Option<Record>,
                  tier: Json, controls: Json, now: int): Record {
    var e := existing.GetOr(map[]);
    var name := if Truthy(Field(body, "name")) then ToJsString(Field(body, "name").value) else "Foundry Agent";
    var problem := StringOrEmpty(Field(body, "problem_statement"));
    Defined(map[
      "id" := Some(JStr(id)), "externalAgentId" := Some(JStr(ext)),
      "name" := Some(Or(Get(e, "name"), JStr(name))), "owner" := Some(Or(Get(e, "owner"), JStr(user))),
      "status" := Some(Or(Get(e, "status"), JStr("requested"))),
      "approved" := Some(Coalesce(Get(e, "approved"), JBool(false))),
      "created_at" := Some(Or(Get(e, "created_at"), JNum(now))),
      "problem_statement" := Some(Or(Get(e, "problem_statement"), JStr(problem))),
      "tier" := Some(tier), "controls" := Some(controls)])
  }

  /** The patch of a link without `upsertAgent`. */
  function LinkPatch(tier: Json, controls: Json): Patch {
    map["tier" := Some(tier), "controls" := Some(controls)]
  }

  /** The audit event of a link. */
  function LinkAudit(user: string, ext: string, agent: Record, now: int): Record {
    Defined(map[
      "ts" := Some(JNum(now)), "user" := Some(JStr(user)), "endpoint" := Some(JStr("/api/foundry/run")),
      "decision" := Some(JStr("ALLOW")), "reason" := Some(JStr("foundry_run_requested")),
      "agentId" := Get(agent, "id"), "externalAgentId" := Some(JStr(ext)), "tier" := Get(agent, "tier"),
      "controls" := Get(agent, "controls"), "status" := Get(agent, "status"), "approved" := Get(agent, "approved")])
  }

  /** The body of a link. */
  function LinkBody(agent: Record): Record {
    Defined(map[
      "ok" := Some(JBool(true)), "agent_id" := Get(agent, "id"), "tier" := Get(agent, "tier"),
      "controls" := Get(agent, "controls")])
  }

  /** The handler at time `now`; `Err` is the exception `controlsForTier` throws for an unknown
      tier, which the handler does not catch. */
  function Run(verb: string, demoUser: Option<string>, body: Option<Json>, pack: Pack, hasUpsert: bool,
               now: int, w: World): (r: Result<(Reply, World)>)
    ensures r.Ok? && r.value.0.status != 200 ==> r.value.1 == w
    ensures r.Ok? && r.value.0.status == 200 ==>
      r.value.1.decisions == w.decisions && r.value.1.audit == w.audit && |r.value.1.written| == |w.written| + 1
  {
    if verb != "POST" then Ok((Error(405, "Method not allowed"), w))
    else
      var user := HeaderOr(demoUser, "unknown");
      var ext := TrimmedOrEmpty(Field(body, "externalAgentId"));
      if ext == "" then Ok((Error(400, "externalAgentId required"), w))
      else
        var id := InternalId(ext);
        var existing := DS.GetAgent(w.agents, id);
        var tier := TierFor(TrimmedOrEmpty(Field(body, "requestedTier")), AllowedTiers(body), existing);
        match ControlsOf(tier, pack)
        case Err(e) => Err(e)
        case Ok(controls) =>
          var (agents, agent) :=
            if hasUpsert then
              var rec := Linked(id, ext, user, body, existing, tier, controls, now);
              (UpsertAgent(w.agents, id, rec), Some(rec))
            else DS.UpdateAgent(w.agents, id, LinkPatch(tier, controls));
          if agent.None? then
            Ok((Reply(500, map["error" := JStr(MissingRecord), "agent_id" := JStr(id)]), w))
          else
            Ok((Reply(200, LinkBody(agent.value)),
                w.(agents := agents, written := w.written + [LinkAudit(user, ext, agent.value, now)])))
  }

  /** The tier a request for `body` settles on. */
  function ChosenTier(body: Option<Json>, w: World): Json {
    var id := InternalId(TrimmedOrEmpty(Field(body, "externalAgentId")));
    TierFor(TrimmedOrEmpty(Field(body, "requestedTier")), AllowedTiers(body), DS.GetAgent(w.agents, id))
  }

  /** A link throws exactly when the chosen tier has no definition in the policy pack, and then
      nothing has been written. */
  lemma RunThrows(verb: string, demoUser: Option<string>, body: Option<Json>, pack: Pack, hasUpsert: bool, now: int, w: World)
    ensures Run(verb, demoUser, body, pack, hasUpsert, now, w).Err? <==>
      (verb == "POST" && TrimmedOrEmpty(Field(body, "externalAgentId")) != "" && ControlsOf(ChosenTier(body, w), pack).Err?)
  {
  }

  /** Without `upsertAgent`, a link succeeds exactly when the POST names a Foundry agent whose
      internal record already exists and whose chosen tier is defined; a first link of a new
      Foundry agent is answered 500. With `upsertAgent`, every such POST succeeds. */
  lemma RunLinks(verb: string, demoUser: Option<string>, body: Option<Json>, pack: Pack, hasUpsert: bool, now: int, w: World)
    ensures var r := Run(verb, demoUser, body, pack, hasUpsert, now, w);
      var ext := TrimmedOrEmpty(Field(body, "externalAgentId"));
      r.Ok? && r.value.0.status == 200 <==>
        (verb == "POST" && ext != "" && ControlsOf(ChosenTier(body, w), pack).Ok?
         && (hasUpsert || DS.GetAgent(w.agents, InternalId(ext)).Some?))
    ensures var r := Run(verb, demoUser, body, pack, hasUpsert, now, w);
      var ext := TrimmedOrEmpty(Field(body, "externalAgentId"));
      verb == "POST" && ext != "" && ControlsOf(ChosenTier(body, w), pack).Ok?
      && !hasUpsert && DS.GetAgent(w.agents, InternalId(ext)).None? ==>
        r == Ok((Reply(500, map["error" := JStr(MissingRecord), "agent_id" := JStr(InternalId(ext))]), w))
  {
  }

  /** What a successful link without `upsertAgent` leaves in the agent records. */
  lemma UpdatedAgents(verb: string, demoUser: Option<string>, body: Option<Json>, pack: Pack, now: int, w: World)
    requires Run(verb, demoUser, body, pack, false, now, w).Ok?
    requires Run(verb, demoUser, body, pack, false, now, w).value.0.status == 200
    ensures var tier := ChosenTier(body, w);
      Run(verb, demoUser, body, pack, false, now, w).value.1.agents
        == DS.UpdateAgent(w.agents, InternalId(TrimmedOrEmpty(Field(body, "externalAgentId"))),
                          LinkPatch(tier, ControlsOf(tier, pack).value)).0
  {
  }

  /** Linking sets the tier and its controls and keeps every other field of the record. */
  lemma LinkedRecordFields(a: Record, tier: Json, controls: Json)
    ensures var u := Merge(a, LinkPatch(tier, controls));
      Get(u, "tier") == Some(tier) && Get(u, "controls") == Some(controls)
      && forall k :: k != "tier" && k != "controls" ==> Get(u, k) == Get(a, k)
  {
  }

  /** After a link without `upsertAgent` the internal record carries the chosen tier and that
      tier's default controls from the policy pack, and every other field as it was; the tier is
      the requested one whenever the request allows it. */
  lemma LinkSetsTier(verb: string, demoUser: Option<string>, body: Option<Json>, pack: Pack, now: int, w: World)
    requires Run(verb, demoUser, body, pack, false, now, w).Ok?
    requires Run(verb, demoUser, body, pack, false, now, w).value.0.status == 200
    ensures var id := InternalId(TrimmedOrEmpty(Field(body, "externalAgentId")));
      var tier := ChosenTier(body, w);
      var after := DS.GetAgent(Run(verb, demoUser, body, pack, false, now, w).value.1.agents, id);
      after.Some? && Get(after.value, "tier") == Some(tier)
      && Get(after.value, "controls") == Some(ControlsOf(tier, pack).value)
      && (forall k :: k != "tier" && k != "controls" ==> Get(after.value, k) == Get(DS.GetAgent(w.agents, id).value, k))
    ensures var requested := TrimmedOrEmpty(Field(body, "requestedTier"));
      requested in AllowedTiers(body) ==> ChosenTier(body, w) == JStr(requested)
  {
    var id := InternalId(TrimmedOrEmpty(Field(body, "externalAgentId")));
    var tier := ChosenTier(body, w);
    var patch := LinkPatch(tier, ControlsOf(tier, pack).value);
    UpdatedAgents(verb, demoUser, body, pack, now, w);
    DS.GetAfterUpdate(w.agents, id, patch);
    LinkedRecordFields(DS.GetAgent(w.agents, id).value, tier, ControlsOf(tier, pack).value);
  }

  /** The upserted record carries the internal id and the chosen tier and controls. */
  lemma LinkedIdentity(id: string, ext: string, user: string, body: Option<Json>, existing: Option<Record>,
                       tier: Json, controls: Json, now: int)
    ensures var rec := Linked(id, ext, user, body, existing, tier, controls, now);
      DS.HasId(rec, id) && Get(rec, "tier") == Some(tier) && Get(rec, "controls") == Some(controls)
  {
  }

  /** A first link with `upsertAgent` registers the agent as requested and unapproved, owned by
      the caller, created now. */
  lemma FirstLinkRegisters(id: string, ext: string, user: string, body: Option<Json>, tier: Json, controls: Json, now: int)
    ensures var rec := Linked(id, ext, user, body, None, tier, controls, now);
      Get(rec, "status") == Some(JStr("requested")) && Get(rec, "approved") == Some(JBool(false))
      && Get(rec, "owner") == Some(JStr(user)) && Get(rec, "created_at") == Some(JNum(now))
  {
  }

  /** With `upsertAgent`, a successful link leaves the linked record under the internal id. */
  lemma UpsertLinks(verb: string, demoUser: Option<string>, body: Option<Json>, pack: Pack, now: int, w: World)
    requires Run(verb, demoUser, body, pack, true, now, w).Ok?
    requires Run(verb, demoUser, body, pack, true, now, w).value.0.status == 200
    ensures var ext := TrimmedOrEmpty(Field(body, "externalAgentId"));
      var id := InternalId(ext);
      var tier := ChosenTier(body, w);
      DS.GetAgent(Run(verb, demoUser, body, pack, true, now, w).value.1.agents, id)
        == Some(Linked(id, ext, HeaderOr(demoUser, "unknown"), body, DS.GetAgent(w.agents, id), tier,
                       ControlsOf(tier, pack).value, now))
  {
    var ext := TrimmedOrEmpty(Field(body, "externalAgentId"));
    var id := InternalId(ext);
    var tier := ChosenTier(body, w);
    var rec := Linked(id, ext, HeaderOr(demoUser, "unknown"), body, DS.GetAgent(w.agents, id), tier,
                      ControlsOf(tier, pack).value, now);
    LinkedIdentity(id, ext, HeaderOr(demoUser, "unknown"), body, DS.GetAgent(w.agents, id), tier,
                   ControlsOf(tier, pack).value, now);
    GetAfterUpsert(w.agents, id, rec);
  }
}
