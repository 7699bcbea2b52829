/** The demo run gate of pages/api/aif/run.ts: a fixed registry of three agents, a status check
    and one policy rule, that a high-risk agent may not write. It keeps no state; every refusal
    and every approval carries an audit id made from the time. */
module AifRun {
  import opened Base
  import opened Json
  import Text
  import opened Api

  datatype Status = Active | Paused | Killed
  datatype Risk = Low | Med | High

  /** A registry entry. */
  datatype Entry = Entry(status: Status, risk: Risk)

  const SalesforceTriage := "salesforce-triage"
  const ServicenowIncident := "servicenow-incident"
  const WorkdayOnboarding := "workday-onboarding"

  /** `REGISTRY[name]`. */
  function Registry(name: string): (e: Option<Entry>)
    ensures e.Some? <==> name in {SalesforceTriage, ServicenowIncident, WorkdayOnboarding}
  {
    if name == SalesforceTriage then Some(Entry(Active, Med))
    else if name == ServicenowIncident then Some(Entry(Active, High))
    else if name == WorkdayOnboarding then Some(Entry(Paused, Med))
    else None
  }

  /** The name of a status as the reply spells it. */
  function StatusName(s: Status): string {
    match s
    case Active => "active"
    case Paused => "paused"
    case Killed => "killed"
  }

  /** `action = "run"`: the default applies only when the field is absent. */
  function ActionOf(body: Option<Json>): Json {
    match Field(body, "action")
    case None => JStr("run")
    case Some(a) => a
  }

  /** Whether the action or the input mentions "write", in any case. */
  predicate IsWrite(action: Json, input: Json) {
    Text.Contains(Text.Lower(ToJsString(action)), "write") || Text.Contains(Text.Lower(ToJsString(input)), "write")
  }

  /** `evt_${Date.now()}`. */
  function AuditId(now: int): string {
    "evt_" + Text.IntToString(now)
  }

  /** A 403 refusal. */
  function Refuse(reason: string, now: int): Reply {
    Reply(403, map["approved" := JBool(false), "reason" := JStr(reason), "auditId" := JStr(AuditId(now))])
  }

  /** The reason a registered agent is refused, if it is. */
  function Refusal(e: Entry, action: Json, input: Json): (r: Option<string>)
    ensures r.None? <==> e.status == Active && !(e.risk == High && IsWrite(action, input))
  {
    if e.status != Active then Some("agent is " + StatusName(e.status))
    else if e.risk == High && IsWrite(action, input) then Some("high-risk write blocked")
    else None
  }

  /** The handler at time `now`. */
  function Run(verb: string, body: Option<Json>, now: int): (r: Reply)
    ensures r.status in {200, 400, 403, 405}
    ensures r.status == 200 <==> "approved" in r.body && r.body["approved"] == JBool(true)
  {
    if verb != "POST" then Reply(405, map["approved" := JBool(false), "error" := JStr("Method not allowed")])
    else
      var agentId, input, action := Field(body, "agentId"), Field(body, "input"), ActionOf(body);
      if !Truthy(agentId) || !Truthy(input) then
        Reply(400, map["approved" := JBool(false), "error" := JStr("agentId and input are required")])
      else match Registry(ToJsString(agentId.value))
        case None => Refuse("unregistered agent", now)
        case Some(e) =>
          match Refusal(e, action, input.value)
          case Some(reason) => Refuse(reason, now)
          case None =>
            Reply(200, map[
              "approved" := JBool(true), "auditId" := JStr(AuditId(now)),
              "result" := JStr("Approved by AIF Gateway. agent=" + ToJsString(agentId.value) + ", action=" + ToJsString(action))])
  }

  /** A run is approved exactly when it is a POST with an agent id and an input, the agent is
      registered and active, and it is not a high-risk agent asked to write. */
  lemma RunApproved(verb: string, body: Option<Json>, now: int)
    ensures var agentId, input := Field(body, "agentId"), Field(body, "input");
      Run(verb, body, now).status == 200 <==>
        (verb == "POST" && Truthy(agentId) && Truthy(input) && Registry(ToJsString(agentId.value)).Some?
         && Registry(ToJsString(agentId.value)).value.status == Active
         && !(Registry(ToJsString(agentId.value)).value.risk == High && IsWrite(ActionOf(body), input.value)))
  {
  }

  /** Every refusal of a well-formed POST is a 403 that names its reason and carries the audit id
      of the time. */
  lemma RefusalsAudited(body: Option<Json>, now: int)
    requires Truthy(Field(body, "agentId")) && Truthy(Field(body, "input"))
    requires Run("POST", body, now).status != 200
    ensures var r := Run("POST", body, now);
      r.status == 403 && "reason" in r.body && r.body["auditId"] == JStr(AuditId(now))
  {
  }

  /** The three registered agents: the Salesforce triage agent is approved even to write, the
      ServiceNow incident agent is refused exactly the writes, and the Workday onboarding agent
      is always refused as paused. */
  lemma RegistryOutcomes(body: Option<Json>, now: int)
    requires Truthy(Field(body, "input"))
    ensures Field(body, "agentId") == Some(JStr(SalesforceTriage)) ==> Run("POST", body, now).status == 200
    ensures Field(body, "agentId") == Some(JStr(ServicenowIncident)) ==>
      (Run("POST", body, now).status == 200 <==> !IsWrite(ActionOf(body), Field(body, "input").value))
    ensures Field(body, "agentId") == Some(JStr(WorkdayOnboarding)) ==> Run("POST", body, now) == Refuse("agent is paused", now)
  {
    assert "agent is " + StatusName(Paused) == "agent is paused";
  }
}
