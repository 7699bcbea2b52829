/** Agent registration, pages/api/agents/register.ts: the request is normalised into an intent
    (falling back to keywords of the problem statement, then to retrieve/kb), the tier is
    resolved by the policy engine unless a valid override is given, and a new agent record is
    stored as requested and unapproved, with an explanation of the rules that matched. */
module Register {
  import opened Base
  import opened Json
  import Text
  import DS = DemoStore
  import opened PolicyPack
  import opened PolicyEngine
  import IB = IntentBuild
  import opened Api

  /** The six tiers an override may name. */
  const Tiers := ["A1", "A2", "A3", "A4", "A5", "A6"]

  /** `newAgentId(externalAgentId)`: a non-blank external id gives `foundry_<trimmed id>`;
      otherwise the id is made of the random hex digits and the time. */
  function NewAgentId(externalAgentId: Option<string>, randomHex: string, now: int): (id: string)
    ensures externalAgentId.Some? && Text.Trim(externalAgentId.value) != "" ==>
      id == "foundry_" + Text.Trim(externalAgentId.value)
    ensures !(externalAgentId.Some? && Text.Trim(externalAgentId.value) != "") ==>
      Text.StartsWith(id, "agent_")
  {
    if externalAgentId.Some? && Text.Trim(externalAgentId.value) != "" then "foundry_" + Text.Trim(externalAgentId.value)
    else "agent_" + randomHex + "_" + Text.IntToString(now)
  }

  /** A character of the regular-expression class `\w`. */
  predicate IsWordChar(c: char) {
    'a' <= c <= 'z' || 'A' <= c <= 'Z' || '0' <= c <= '9' || c == '_'
  }

  /** `w` occurs at position `i` of `s` between two word boundaries. */
  predicate WordAt(s: string, w: string, i: int) {
    Text.OccursAt(s, w, i)
    && (i == 0 || !IsWordChar(s[i - 1]))
    && (i + |w| == |s| || !IsWordChar(s[i + |w|]))
  }

  /** `/\b(w1|w2|...)\b/.test(s)` for words that begin and end with word characters. */
  predicate HasWord(s: string, words: seq<string>) {
    exists k, i :: 0 <= k < |words| && 0 <= i <= |s| && WordAt(s, words[k], i)
  }

  const WriteWords := ["update", "write", "create", "submit", "change", "delete", "approve", "send"]
  const HrWords := ["workday", "hr", "employee", "onboarding"]
  const PiiWords := ["pii", "sin", "ssn", "passport", "medical", "claim", "benefit"]
  const CrossBorderWords := ["cross-border", "cross border", "international", "outside canada", "eu", "uk", "us"]

  /** `intentFromProblemStatement`: retrieve from the knowledge base, internal data, no border
      crossing, unless keywords of the lower-cased statement say otherwise; an HR keyword
      overrides the system a write keyword chose. */
  function IntentFromProblemStatement(problem: string): (i: Intent)
    ensures var text := Text.Lower(problem);
      i.actions == (if HasWord(text, WriteWords) then [JStr("update_record")] else [JStr("retrieve")])
      && i.systems == (if HasWord(text, HrWords) then [JStr("workday")]
                       else if HasWord(text, WriteWords) then [JStr("salesforce")] else [JStr("kb")])
      && i.dataSensitivity == Some(JStr(if HasWord(text, PiiWords) then "PII" else "INTERNAL"))
      && i.crossBorder == Some(HasWord(text, CrossBorderWords))
  {
    var text := Text.Lower(problem);
    var writes := HasWord(text, WriteWords);
    var i0 := Intent([JStr("retrieve")], [JStr("kb")], Some(JStr("INTERNAL")), Some(false));
    var i1 := if writes then i0.(actions := [JStr("update_record")], systems := [JStr("salesforce")]) else i0;
    var i2 := if HasWord(text, HrWords) then i1.(systems := [JStr("workday")]) else i1;
    var i3 := if HasWord(text, PiiWords) then i2.(dataSensitivity := Some(JStr("PII"))) else i2;
    if HasWord(text, CrossBorderWords) then i3.(crossBorder := Some(true)) else i3
  }

  /** The intent a registration uses: `buildIntent(body)`, replaced by the keyword intent when
      it names no actions and there is a problem statement, with empty lists defaulting to
      retrieve and kb. */
  function RegisteredIntent(body: Option<Json>, problem: string): (i: Intent)
    ensures |i.actions| > 0 && |i.systems| > 0
  {
    var i0 := IB.BuildIntent(body);
    var i1 := if |i0.actions| == 0 && problem != "" then IntentFromProblemStatement(problem) else i0;
    var i2 := if |i1.actions| == 0 then i1.(actions := [JStr("retrieve")]) else i1;
    if |i2.systems| == 0 then i2.(systems := [JStr("kb")]) else i2
  }

  /** With no problem statement and no lists in the body, a registration asks to retrieve from the
      knowledge base; lists the body gives are kept. */
  lemma IntentDefaults(body: Option<Json>)
    ensures var b := IB.BuildIntent(body);
      |b.actions| == 0 && |b.systems| == 0 ==>
        RegisteredIntent(body, "").actions == [JStr("retrieve")] && RegisteredIntent(body, "").systems == [JStr("kb")]
    ensures forall problem :: |IB.BuildIntent(body).actions| > 0 ==> RegisteredIntent(body, problem).actions == IB.BuildIntent(body).actions
  {
  }

  /** A write keyword in the problem statement of a body without actions makes the agent an
      update_record agent, of Salesforce unless an HR keyword names Workday; the body's own
      sensitivity is then not used. */
  lemma KeywordIntent(body: Option<Json>, problem: string)
    requires |IB.BuildIntent(body).actions| == 0 && problem != ""
    ensures RegisteredIntent(body, problem) == IntentFromProblemStatement(problem)
    ensures HasWord(Text.Lower(problem), WriteWords) ==> RegisteredIntent(body, problem).actions == [JStr("update_record")]
    ensures HasWord(Text.Lower(problem), WriteWords) && !HasWord(Text.Lower(problem), HrWords) ==>
      RegisteredIntent(body, problem).systems == [JStr("salesforce")]
  {
  }

  /** "Update HR" asks to update a record in Workday: the HR keyword overrides the
      Salesforce system the write keyword chose. */
  lemma KeywordExample()
    ensures IntentFromProblemStatement("Update HR").actions == [JStr("update_record")]
    ensures IntentFromProblemStatement("Update HR").systems == [JStr("workday")]
  {
    var text := Text.Lower("Update HR");
    assert text == "update hr";
    assert WordAt(text, WriteWords[0], 0);
    assert WordAt(text, HrWords[1], 7);
  }

  /** The tier: a valid override wins over the resolved tier. */
  function ChosenTier(resolved: string, overrideTier: Option<string>): (t: string)
    ensures overrideTier.Some? && overrideTier.value in Tiers ==> t == overrideTier.value
    ensures !(overrideTier.Some? && overrideTier.value in Tiers) ==> t == resolved
  {
    if overrideTier.Some? && overrideTier.value in Tiers then overrideTier.value else resolved
  }

  /** `allowed_tools`: read only for A1 and A2, writes through the gateway from A3 on. */
  function AllowedTools(tier: string): (r: seq<string>)
    ensures "read_only" in r
    ensures "write_via_gateway" in r <==> tier != "A1" && tier != "A2"
  {
    if tier == "A1" || tier == "A2" then ["read_only"] else ["read_only", "write_via_gateway"]
  }

  /** The indices of the rules, from `i` on, that match the intent, in policy order. */
  function Picks(rules: seq<Rule>, intent: Intent, i: nat): (r: seq<nat>)
    requires i <= |rules|
    ensures forall k :: 0 <= k < |r| ==> i <= r[k] < |rules| && Matches(CondOf(rules[r[k]]), intent)
    ensures forall k, l :: 0 <= k < l < |r| ==> r[k] < r[l]
    ensures forall j :: i <= j < |rules| && Matches(CondOf(rules[j]), intent) ==> j in r
    decreases |rules| - i
  {
    if i == |rules| then []
    else if Matches(CondOf(rules[i]), intent) then [i] + Picks(rules, intent, i + 1)
    else Picks(rules, intent, i + 1)
  }

  /** A matched rule as `explainTiering` lists it. */
  datatype Matched = Matched(ruleId: string, thenTier: string, reason: string)

  /** The entry of rule `r` at index `i`; `stringify` is `JSON.stringify` of its conditions. */
  function MatchedEntry(r: Rule, i: nat, stringify: Conditions -> string): Matched {
    Matched(if r.id.Some? then r.id.value else "rule_" + Text.IntToString(i), r.thenTier.GetOr(""), stringify(CondOf(r)))
  }

  /** `explainTiering(intent, tier)`. */
  datatype Explanation = Explanation(finalTier: string, matched: seq<Matched>)

  function ExplainTiering(intent: Intent, finalTier: string, pack: Pack, stringify: Conditions -> string): (e: Explanation)
    ensures e.finalTier == finalTier
    ensures var picks := Picks(RulesOf(pack), intent, 0);
      |e.matched| == |picks|
      && forall k :: 0 <= k < |picks| ==> e.matched[k] == MatchedEntry(RulesOf(pack)[picks[k]], picks[k], stringify)
  {
    var rules := RulesOf(pack);
    var picks := Picks(rules, intent, 0);
    Explanation(finalTier, seq(|picks|, k requires 0 <= k < |picks| => MatchedEntry(rules[picks[k]], picks[k], stringify)))
  }

  /** The explanation lists exactly the rules the tier resolution considers matching, in policy
      order; a rule without an id is listed as `rule_<index>`. When it lists none, the resolved
      tier is A1. */
  lemma ExplanationMatchesResolution(intent: Intent, pack: Pack, stringify: Conditions -> string)
    ensures var e := ExplainTiering(intent, ResolveTier(intent, pack), pack, stringify);
      var rules := RulesOf(pack);
      forall j :: 0 <= j < |rules| && Matches(CondOf(rules[j]), intent) ==>
        exists k :: 0 <= k < |e.matched| && e.matched[k] == MatchedEntry(rules[j], j, stringify)
    ensures |ExplainTiering(intent, ResolveTier(intent, pack), pack, stringify).matched| == 0 ==> ResolveTier(intent, pack) == "A1"
  {
    var rules := RulesOf(pack);
    var picks := Picks(rules, intent, 0);
    var e := ExplainTiering(intent, ResolveTier(intent, pack), pack, stringify);
    forall j | 0 <= j < |rules| && Matches(CondOf(rules[j]), intent)
      ensures exists k :: 0 <= k < |e.matched| && e.matched[k] == MatchedEntry(rules[j], j, stringify)
    {
      var k :| 0 <= k < |picks| && picks[k] == j;
      assert e.matched[k] == MatchedEntry(rules[j], j, stringify);
    }
    if |e.matched| == 0 {
      forall j | 0 <= j < |rules|
        ensures Contribution(rules[j], intent).None?
      {
        assert j !in picks;
      }
      ResolveTierNoMatch(intent, pack);
    }
  }

  /** JSON of an explanation. */
  function ExplanationJson(e: Explanation): Json {
    JObj(map[
      "finalTier" := JStr(e.finalTier),
      "matched_rule_ids" := StrArray(seq(|e.matched|, k requires 0 <= k < |e.matched| => e.matched[k].ruleId)),
      "matched_rules" := JArr(seq(|e.matched|, k requires 0 <= k < |e.matched| => JObj(map[
        "ruleId" := JStr(e.matched[k].ruleId), "thenTier" := JStr(e.matched[k].thenTier),
        "reason" := JStr(e.matched[k].reason)])))])
  }

  /** `body.f ? String(body.f) : fallback`. */
  function StrOr(body: Option<Json>, f: string, fallback: Json): Json {
    if Truthy(Field(body, f)) then JStr(ToJsString(Field(body, f).value)) else fallback
  }

  /** Everything a registration computes before it stores the agent. */
  datatype Plan = Plan(id: string, user: string, intent: Intent, tier: string, controls: Json, policyVersion: string,
                       explain: Explanation)

  /** The collaborators of a registration: the random hex digits of the generated id and
      `JSON.stringify` of rule conditions. */
  datatype Collaborators = Collaborators(randomHex: string, stringify: Conditions -> string)

  /** The plan of a registration, or the exception of `controlsForTier`. */
  function PlanOf(demoUser: Option<string>, body: Option<Json>, pack: Pack, c: Collaborators, now: int): (r: Result<Plan>)
    ensures r.Err? <==> ControlsForTier(RegisteredTier(body, pack), pack).Err?
    ensures r.Ok? ==> r.value.tier == RegisteredTier(body, pack) && ControlsForTier(r.value.tier, pack) == Ok(r.value.controls)
    ensures r.Ok? ==> r.value.id == NewAgentId(ExternalId(body), c.randomHex, now)
  {
    var problem := StringOrEmpty(Field(body, "problem_statement"));
    var intent := RegisteredIntent(body, problem);
    var tier := RegisteredTier(body, pack);
    match ControlsForTier(tier, pack)
    case Err(e) => Err(e)
    case Ok(controls) =>
      Ok(Plan(NewAgentId(ExternalId(body), c.randomHex, now), HeaderOr(demoUser, "unknown"), intent, tier, controls,
              pack.version.GetOr("unknown"), ExplainTiering(intent, tier, pack, c.stringify)))
  }

  /** `body.externalAgentId ? String(body.externalAgentId) : undefined`. */
  function ExternalId(body: Option<Json>): Option<string> {
    if Truthy(Field(body, "externalAgentId")) then Some(ToJsString(Field(body, "externalAgentId").value)) else None
  }

  /** The tier of a registration: the resolved tier of its intent unless `override_tier` names
      one of A1..A6. */
  function RegisteredTier(body: Option<Json>, pack: Pack): (t: string)
    ensures IsTier(t)
  {
    var problem := StringOrEmpty(Field(body, "problem_statement"));
    var overrideTier := if Truthy(Field(body, "override_tier")) then Some(ToJsString(Field(body, "override_tier").value)) else None;
    ChosenTier(ResolveTier(RegisteredIntent(body, problem), pack), overrideTier)
  }

  /** The review of a new agent. */
  function PendingReview(notes: Json): Json {
    JObj(map["decision" := JStr("PENDING"), "decidedAt" := JNull, "decidedBy" := JNull, "notes" := notes])
  }

  /** The fields of a new agent that say who it is and where it stands. */
  function Standing(p: Plan, notes: Json): Record {
    map[
      "id" := JStr(p.id), "owner" := JStr(p.user), "status" := JStr("requested"), "approved" := JBool(false),
      "tier" := JStr(p.tier), "allowed_tools" := StrArray(AllowedTools(p.tier)), "review" := PendingReview(notes)]
  }

  /** The descriptive fields of a new agent. */
  function Details(p: Plan, body: Option<Json>, now: int): Record {
    var ext := if ExternalId(body).Some? then Some(JStr(ExternalId(body).value)) else None;
    Defined(map[
      "externalAgentId" := ext, "name" := Some(JStr(ToJsString(Or(Field(body, "name"), JStr("Demo Agent"))))),
      "created_at" := Some(JNum(now)), "requested_at" := Some(JNum(now)), "approved_at" := Some(JNull),
      "env" := Some(StrOr(body, "env", JStr("test"))), "stage" := Some(StrOr(body, "stage", JStr("poc"))),
      "comment" := Some(StrOr(body, "comment", JStr(""))), "review_notes" := Some(StrOr(body, "review_notes", JNull)),
      "problem_statement" := Some(JStr(StringOrEmpty(Field(body, "problem_statement")))),
      "intent" := Some(IB.IntentJson(p.intent)), "controls" := Some(p.controls),
      "policy_version" := Some(JStr(p.policyVersion)), "tiering_explain" := Some(ExplanationJson(p.explain))])
  }

  /** The record a registration stores. */
  function AgentRecord(p: Plan, body: Option<Json>, now: int): Record {
    Details(p, body, now) + Standing(p, StrOr(body, "review_notes", JNull))
  }

  /** The audit event of a registration. */
  function RegisterAudit(p: Plan, body: Option<Json>, now: int): Record {
    Defined(map[
      "ts" := Some(JNum(now)), "user" := Some(JStr(p.user)), "endpoint" := Some(JStr("/api/agents/register")),
      "event" := Some(JStr("agent_registered")), "decision" := Some(JStr("ALLOW")),
      "reason" := Some(JStr("agent_registered")), "request_id" := Some(JStr(RequestId(p.id, now))),
      "agent_id" := Some(JStr(p.id)), "tier" := Some(JStr(p.tier)), "controls" := Some(p.controls),
      "intent" := Some(IB.IntentJson(p.intent)), "env" := Some(StrOr(body, "env", JStr("test"))),
      "stage" := Some(StrOr(body, "stage", JStr("poc"))), "policy_version" := Some(JStr(p.policyVersion))])
  }

  /** `reg_${agentId}_${Date.now()}`. */
  function RequestId(id: string, now: int): string {
    "reg_" + id + "_" + Text.IntToString(now)
  }

  /** The body of a registration, read back from the stored record. */
  function RegisterBody(a: Record): Record {
    Defined(map[
      "ok" := Some(JBool(true)), "agent_id" := Get(a, "id"), "status" := Get(a, "status"),
      "approved" := Get(a, "approved"), "risk_tier" := Get(a, "tier"), "controls" := Get(a, "controls"),
      "allowed_tools" := Get(a, "allowed_tools"), "policy_version" := Get(a, "policy_version"),
      "tiering_explain" := Get(a, "tiering_explain"), "env" := Get(a, "env"), "stage" := Get(a, "stage"),
      "requested_at" := Some(Or(Get(a, "requested_at"), Get(a, "created_at").GetOr(JNull))),
      "review_notes" := Get(a, "review_notes")])
  }

  /** The handler at time `now`. `hasUpsert` says whether the store offers `upsertAgent`
      (lib/demoStore.ts as shipped does not, and the call then throws); `Err` is a thrown
      exception. */
  function Register(verb: string, demoUser: Option<string>, body: Option<Json>, pack: Pack, c: Collaborators,
                    hasUpsert: bool, now: int, w: World): (r: Result<(Reply, World)>)
    ensures r.Ok? && r.value.0.status != 200 ==> r.value.1 == w
    ensures r.Ok? && verb != "OPTIONS" && r.value.0.status == 200 ==>
      r.value.1.decisions == w.decisions && r.value.1.audit == w.audit && |r.value.1.written| == |w.written| + 1
  {
    if verb == "OPTIONS" then Ok((Reply(200, map[]), w))
    else if verb != "POST" then Ok((Reply(405, map["ok" := JBool(false), "error" := JStr("Method not allowed"), "got" := JStr(verb)]), w))
    else match PlanOf(demoUser, body, pack, c, now)
      case Err(e) => Err(e)
      case Ok(p) =>
        if !hasUpsert then Err("upsertAgent is not a function")
        else
          var rec := AgentRecord(p, body, now);
          Ok((Reply(200, RegisterBody(rec)),
              w.(agents := UpsertAgent(w.agents, p.id, rec), written := w.written + [RegisterAudit(p, body, now)])))
  }

  /** The fields of the second record of a union win. */
  lemma UnionRight(d: Record, st: Record)
    ensures forall k :: k in st ==> Get(d + st, k) == Some(st[k])
  {
  }

  /** The standing of a new agent: requested, unapproved, owned by the caller, with a pending
      review, its tier and the tools the tier allows. */
  lemma StandingFields(p: Plan, notes: Json)
    ensures var st := Standing(p, notes);
      Get(st, "status") == Some(JStr("requested")) && Get(st, "approved") == Some(JBool(false))
      && Get(st, "owner") == Some(JStr(p.user)) && DS.HasId(st, p.id)
      && Get(st, "review") == Some(PendingReview(notes))
      && Get(st, "tier") == Some(JStr(p.tier)) && Get(st, "allowed_tools") == Some(StrArray(AllowedTools(p.tier)))
  {
  }

  /** A new agent is stored requested and unapproved, owned by the caller, with a pending review,
      its tier and the tools the tier allows. */
  lemma NewAgentPending(p: Plan, body: Option<Json>, now: int)
    ensures var a := AgentRecord(p, body, now);
      Get(a, "status") == Some(JStr("requested")) && Get(a, "approved") == Some(JBool(false))
      && Get(a, "owner") == Some(JStr(p.user)) && DS.HasId(a, p.id)
    ensures Get(AgentRecord(p, body, now), "review") == Some(PendingReview(StrOr(body, "review_notes", JNull)))
    ensures var a := AgentRecord(p, body, now);
      Get(a, "tier") == Some(JStr(p.tier)) && Get(a, "allowed_tools") == Some(StrArray(AllowedTools(p.tier)))
  {
    var notes := StrOr(body, "review_notes", JNull);
    var st := Standing(p, notes);
    UnionRight(Details(p, body, now), st);
    StandingFields(p, notes);
    assert "status" in st && "approved" in st && "owner" in st && "id" in st;
    assert "review" in st && "tier" in st && "allowed_tools" in st;
  }

  /** A registration succeeds exactly for a POST whose tier the pack defines (given
      `upsertAgent`); the agent it reports is then found under its id, pending approval. */
  lemma RegisterStores(demoUser: Option<string>, body: Option<Json>, pack: Pack, c: Collaborators, now: int, w: World)
    ensures Register("POST", demoUser, body, pack, c, true, now, w).Ok? <==> ControlsForTier(RegisteredTier(body, pack), pack).Ok?
    ensures Register("POST", demoUser, body, pack, c, false, now, w).Err?
    ensures var r := Register("POST", demoUser, body, pack, c, true, now, w);
      r.Ok? ==>
        var p := PlanOf(demoUser, body, pack, c, now).value;
        r.value.0.status == 200 && DS.GetAgent(r.value.1.agents, p.id) == Some(AgentRecord(p, body, now))
  {
    var r := Register("POST", demoUser, body, pack, c, true, now, w);
    if r.Ok? {
      var p := PlanOf(demoUser, body, pack, c, now).value;
      NewAgentPending(p, body, now);
      GetAfterUpsert(w.agents, p.id, AgentRecord(p, body, now));
    }
  }

  /** An external id gives the agent id `foundry_` + the trimmed external id, the same internal
      id the Foundry link uses. */
  lemma RegisteredId(demoUser: Option<string>, body: Option<Json>, pack: Pack, c: Collaborators, now: int)
    requires PlanOf(demoUser, body, pack, c, now).Ok?
    requires Field(body, "externalAgentId").Some? && Field(body, "externalAgentId").value.JStr?
    requires Text.Trim(Field(body, "externalAgentId").value.s) != ""
    ensures PlanOf(demoUser, body, pack, c, now).value.id == "foundry_" + Text.Trim(Field(body, "externalAgentId").value.s)
  {
    assert ExternalId(body) == Some(Field(body, "externalAgentId").value.s);
  }
}
