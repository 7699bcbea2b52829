/** The display helpers of the console pages: the control bullets and tier texts of
    pages/console/registry.tsx (pages/console/classify.tsx defines the same two helpers), the
    canned answers of the registry page's spec chat, the classify page's request, and the
    timestamp, truncation and decision-count helpers of pages/console/agent-inventory.tsx and
    pages/console/platform.tsx (which define them identically). */
module Console {
  import opened Base
  import opened Json
  import Text

  // ---------------------------------------------------------------- summarizeControls

  /** One bullet of `summarizeControls`. */
  datatype Bullet =
    | HumanInLoop
    | Approval
    | PiiRedaction
    | Logging
    | SandboxOnly
    | RateLimit(perMin: int)
    | AuditLevel(level: string)
    | KillSwitch

  /** The fixed place of each bullet in the list. */
  function Rank(b: Bullet): nat {
    match b
    case HumanInLoop => 0
    case Approval => 1
    case PiiRedaction => 2
    case Logging => 3
    case SandboxOnly => 4
    case RateLimit(_) => 5
    case AuditLevel(_) => 6
    case KillSwitch => 7
  }

  /** The text of a bullet. */
  function BulletText(b: Bullet): string {
    match b
    case HumanInLoop => "Human-in-the-loop required"
    case Approval => "Approval required"
    case PiiRedaction => "PII redaction on"
    case Logging => "Logging enabled"
    case SandboxOnly => "Sandbox-only"
    case RateLimit(n) => "Rate limit: " + Text.IntToString(n) + "/min"
    case AuditLevel(level) => "Audit level: " + level
    case KillSwitch => "Kill switch required"
  }

  predicate RanksIncrease(bs: seq<Bullet>) {
    forall i, j :: 0 <= i < j < |bs| ==> Rank(bs[i]) < Rank(bs[j])
  }

  /** Whether the control behind the bullet of rank `k` is set. */
  predicate Listed(controls: Option<Json>, k: nat) {
    if k == 0 then Truthy(Field(controls, "humanInLoop"))
    else if k == 1 then Truthy(Field(controls, "approvalRequired"))
    else if k == 2 then Truthy(Field(controls, "piiRedaction"))
    else if k == 3 then Truthy(Field(controls, "logging"))
    else if k == 4 then Truthy(Field(controls, "sandboxOnly"))
    else if k == 5 then Field(controls, "rateLimitPerMin").Some? && Field(controls, "rateLimitPerMin").value.JNum?
    else if k == 6 then Truthy(Field(controls, "auditLevel"))
    else Truthy(Field(controls, "killSwitchRequired"))
  }

  /** The bullet of rank `k < 8` for these controls. */
  function BulletAt(controls: Option<Json>, k: nat): (b: Bullet)
    requires k < 8
    ensures Rank(b) == k
  {
    if k == 0 then HumanInLoop
    else if k == 1 then Approval
    else if k == 2 then PiiRedaction
    else if k == 3 then Logging
    else if k == 4 then SandboxOnly
    else if k == 5 then
      var f := Field(controls, "rateLimitPerMin");
      RateLimit(if f.Some? && f.value.JNum? then f.value.n else 0)
    else if k == 6 then AuditLevel(StringOrEmpty(Field(controls, "auditLevel")))
    else KillSwitch
  }

  /** The bullets of rank `k` and above, in rank order. */
  function BulletsFrom(controls: Option<Json>, k: nat): (r: seq<Bullet>)
    requires k <= 8
    ensures RanksIncrease(r)
    ensures forall b :: b in r <==> k <= Rank(b) && Listed(controls, Rank(b)) && b == BulletAt(controls, Rank(b))
    decreases 8 - k
  {
    if k == 8 then []
    else
      var rest := BulletsFrom(controls, k + 1);
      if Listed(controls, k) then [BulletAt(controls, k)] + rest else rest
  }

  /** The bullets `summarizeControls(controls)` lists, in the fixed order. */
  function Bullets(controls: Option<Json>): (r: seq<Bullet>)
    ensures !Truthy(controls) ==> r == []
    ensures RanksIncrease(r)
  {
    if !Truthy(controls) then [] else BulletsFrom(controls, 0)
  }

  /** Each bullet is listed exactly when its control is set: the flag bullets for truthy flags,
      the rate limit for a numeric limit, the audit level for a truthy level; nothing is
      listed without controls. */
  lemma BulletsListed(controls: Option<Json>)
    ensures var r := Bullets(controls);
      && (HumanInLoop in r <==> Truthy(controls) && Truthy(Field(controls, "humanInLoop")))
      && (Approval in r <==> Truthy(controls) && Truthy(Field(controls, "approvalRequired")))
      && (PiiRedaction in r <==> Truthy(controls) && Truthy(Field(controls, "piiRedaction")))
      && (Logging in r <==> Truthy(controls) && Truthy(Field(controls, "logging")))
      && (SandboxOnly in r <==> Truthy(controls) && Truthy(Field(controls, "sandboxOnly")))
      && (KillSwitch in r <==> Truthy(controls) && Truthy(Field(controls, "killSwitchRequired")))
  {
    var r := Bullets(controls);
    assert HumanInLoop in r <==> Truthy(controls) && Listed(controls, 0);
    assert Approval in r <==> Truthy(controls) && Listed(controls, 1);
    assert PiiRedaction in r <==> Truthy(controls) && Listed(controls, 2);
    assert Logging in r <==> Truthy(controls) && Listed(controls, 3);
    assert SandboxOnly in r <==> Truthy(controls) && Listed(controls, 4);
    assert KillSwitch in r <==> Truthy(controls) && Listed(controls, 7);
  }

  /** The rate-limit bullet appears exactly for a numeric limit, and shows that number; the
      audit-level bullet appears exactly for a truthy level, and shows its text. */
  lemma ValueBulletsListed(controls: Option<Json>, n: int, level: string)
    ensures RateLimit(n) in Bullets(controls) <==> Truthy(controls) && Field(controls, "rateLimitPerMin") == Some(JNum(n))
    ensures AuditLevel(level) in Bullets(controls) <==>
      Truthy(controls) && Truthy(Field(controls, "auditLevel")) && level == ToJsString(Field(controls, "auditLevel").value)
  {
  }

  /** `summarizeControls(controls)`. */
  function SummarizeControls(controls: Option<Json>): (r: seq<string>)
    ensures |r| == |Bullets(controls)|
    ensures forall i :: 0 <= i < |r| ==> r[i] == BulletText(Bullets(controls)[i])
  {
    var bs := Bullets(controls);
    seq(|bs|, i requires 0 <= i < |bs| => BulletText(bs[i]))
  }

  // ---------------------------------------------------------------- explainTier

  // Each text is its risk label followed by the detail.
  const A1Text := "Low risk." + " Read-only, low-sensitivity, minimal governance controls."
  const A2Text := "Moderate risk." + " Read-only with basic logging/guardrails."
  const A3Text := "Elevated risk." + " Broader access or higher impact actions; stronger controls."
  const A4Text := "High risk." + " Internal systems/knowledge sources and higher blast radius. Requires approval + human oversight."
  const A5Text := "Very high risk." + " Sensitive data and/or impactful actions. Strict gating, auditing, and approvals."
  const A6Text := "Critical risk." + " Regulated/high-impact operations. Maximum governance, hard gates, and continuous monitoring."
  const NoTier := "No tier assigned."

  /** The description of a tier, if it is one of A1..A6. */
  function Description(tier: string): Option<string> {
    if tier == "A1" then Some(A1Text)
    else if tier == "A2" then Some(A2Text)
    else if tier == "A3" then Some(A3Text)
    else if tier == "A4" then Some(A4Text)
    else if tier == "A5" then Some(A5Text)
    else if tier == "A6" then Some(A6Text)
    else None
  }

  /** `explainTier(tier)`. */
  function ExplainTier(tier: Option<string>): string {
    if tier.None? || tier.value == "" then NoTier
    else match Description(tier.value)
      case Some(d) => d
      case None => "Tier " + tier.value + ": governance tier determined by policy."
  }

  predicate IsDescription(s: string) {
    s == A1Text || s == A2Text || s == A3Text || s == A4Text || s == A5Text || s == A6Text
  }

  /** The texts start with different letters, none of them the 'T' of the generic text. */
  lemma DescriptionHeads()
    ensures A1Text[0] == 'L' && A2Text[0] == 'M' && A3Text[0] == 'E'
    ensures A4Text[0] == 'H' && A5Text[0] == 'V' && A6Text[0] == 'C'
    ensures NoTier[0] == 'N'
  {
  }

  /** The explanation is a tier description exactly for A1..A6, and "No tier assigned." exactly
      for a missing or empty tier; any other tier gets the generic text naming it. */
  lemma ExplainTierCases(tier: Option<string>)
    ensures IsDescription(ExplainTier(tier)) <==> tier.Some? && tier.value in {"A1", "A2", "A3", "A4", "A5", "A6"}
    ensures ExplainTier(tier) == NoTier <==> tier.None? || tier.value == ""
  {
    DescriptionHeads();
    var r := ExplainTier(tier);
    if tier.Some? && tier.value != "" && Description(tier.value).None? {
      assert r[0] == 'T';
    }
  }

  // ---------------------------------------------------------------- answerSpecQuestion

  /** `question.match(/a[1-6]/)?.[0]?.toUpperCase()`: the first "a" followed by a digit from 1
      to 6, upper-cased. */
  function FirstTierMention(q: string): (r: Option<string>)
    ensures r.Some? ==> |r.value| == 2 && r.value[0] == 'A' && '1' <= r.value[1] <= '6'
    ensures r.None? <==> forall i :: 0 <= i < |q| - 1 ==> !(q[i] == 'a' && '1' <= q[i + 1] <= '6')
    decreases |q|
  {
    if |q| < 2 then None
    else if q[0] == 'a' && '1' <= q[1] <= '6' then Some(['A', q[1]])
    else
      var r := FirstTierMention(q[1..]);
      assert forall i :: 1 <= i < |q| - 1 ==> q[i] == q[1..][i - 1] && q[i + 1] == q[1..][i];
      r
  }

  /** Which canned answer a lower-cased question gets, in the order the page tries them. */
  datatype Topic = AboutA4 | AboutTier(tier: string) | WhyTier | ControlList | Oversight | WhyRules | SpecSummary | Suggestion

  function TopicOf(question: string): Topic {
    if Text.Contains(question, "what is a4") || question == "a4" || Text.Contains(question, "meaning of a4") then AboutA4
    else if Text.Contains(question, "what is a") && FirstTierMention(question).Some? then AboutTier(FirstTierMention(question).value)
    else if Text.Contains(question, "why") && (Text.Contains(question, "a4") || Text.Contains(question, "tier")) then WhyTier
    else if Text.Contains(question, "controls") || Text.Contains(question, "guardrail") || Text.Contains(question, "governance") then ControlList
    else if Text.Contains(question, "human") || Text.Contains(question, "hitl") || Text.Contains(question, "approval") then Oversight
    else if Text.Contains(question, "why") && (Text.Contains(question, "rule") || Text.Contains(question, "matched")) then WhyRules
    else if Text.Contains(question, "spec") || Text.Contains(question, "agent") then SpecSummary
    else Suggestion
  }

  /** `a || b`. */
  function OrElse(a: Option<Json>, b: Option<Json>): Option<Json> {
    if Truthy(a) then a else b
  }

  /** `items.join(sep)`, where `null` joins as "". */
  function JoinJs(items: seq<Json>, sep: string): string {
    Text.JoinWith(seq(|items|, i requires 0 <= i < |items| => if items[i].JNull? then "" else ToJsString(items[i])), sep)
  }

  /** `s || fallback` of a string. */
  function OrText(s: string, fallback: string): string {
    if s != "" then s else fallback
  }

  /** One line of the matched-rules answer. */
  function RuleLine(r: Json): string {
    var f := k => StringOf(Field(Some(r), k));
    "- " + f("ruleId") + " → thenTier " + f("thenTier") + " (because " + f("reason") + ")"
  }

  /** `answerSpecQuestion(q, out)`: the answer of the topic of the lower-cased question. */
  function AnswerSpecQuestion(q: string, out: Option<Json>): string {
    Answer(TopicOf(Text.Lower(q)), out)
  }

  /** `tier` of `answerSpecQuestion`, as a template literal shows it. */
  function TierShown(out: Option<Json>): string {
    StringOf(OrElse(OrElse(Field(out, "risk_tier"), Field(out, "tier")), Field(Field(out, "agent"), "tier")))
  }

  /** The answer on a topic. */
  function Answer(topic: Topic, out: Option<Json>): string {
    var agent := Field(out, "agent");
    var tier := TierShown(out);
    var controls := OrElse(Field(out, "controls"), Field(agent, "controls"));
    var explain := OrElse(Field(out, "tiering_explain"), Field(agent, "tiering_explain"));
    match topic
    case AboutA4 => ExplainTier(Some("A4"))
    case AboutTier(t) => ExplainTier(Some(t))
    case WhyTier => WhyTierText(tier, explain)
    case ControlList => ControlListText(tier, controls)
    case Oversight => OversightText(tier, controls)
    case WhyRules => WhyRulesText(explain)
    case SpecSummary => SpecSummaryText(out, tier, controls)
    case Suggestion => Suggest(tier)
  }

  function WhyTierText(tier: string, explain: Option<Json>): string {
    var ids := Field(explain, "matched_rule_ids");
    var matched :=
      if ids.Some? && ids.value.JArr? && |ids.value.items| > 0 then "Matched rules: " + JoinJs(ids.value.items, ", ") + "."
      else "No matched rules returned.";
    "This agent was classified as " + tier + ". " + matched
      + " The policy escalated the tier based on the declared intent/systems and the associated governance requirements."
  }

  function ControlListText(tier: string, controls: Option<Json>): string {
    var bullets := SummarizeControls(controls);
    if |bullets| > 0 then "Key controls for " + tier + ":\n- " + Text.JoinWith(bullets, "\n- ")
    else "No controls found on the agent record."
  }

  function OversightText(tier: string, controls: Option<Json>): string {
    var hitl := if Truthy(Field(controls, "humanInLoop")) then "enabled" else "not enabled";
    var appr := if Truthy(Field(controls, "approvalRequired")) then "required" else "not required";
    "For tier " + tier + ": human-in-the-loop is " + hitl + " and approval is " + appr
      + ". This is used to prevent high-impact actions from executing without oversight."
  }

  function WhyRulesText(explain: Option<Json>): string {
    var rules := OrElse(Field(explain, "matched_rules"), Some(JArr([])));
    if rules.Some? && rules.value.JArr? && |rules.value.items| > 0 then
      var xs := rules.value.items;
      "Matched policy rules:\n" + Text.JoinWith(seq(|xs|, i requires 0 <= i < |xs| => RuleLine(xs[i])), "\n")
    else "No matched rules were returned by the tiering explanation."
  }

  function SpecSummaryText(out: Option<Json>, tier: string, controls: Option<Json>): string {
    var agent := Field(out, "agent");
    var t := Field(out, "allowed_tools");
    var tools := if t.Some? && t.value.JArr? then t.value.items else [];
    var version := OrElse(OrElse(Field(out, "policy_version"), Field(agent, "policy_version")), Some(JStr("unknown")));
    "Agent spec summary:\n- Tier: " + tier
      + "\n- Allowed tools: " + OrText(JoinJs(tools, ", "), "unknown")
      + "\n- Controls: " + OrText(Text.JoinWith(SummarizeControls(controls), "; "), "none")
      + "\n- Policy version: " + ToJsString(version.value)
  }

  /** The suggestion for a question the page does not recognise. */
  function Suggest(tier: string): string {
    "Try: \"what is " + tier + "?\", \"why " + tier + "?\", \"what controls are enabled?\", \"which rules matched?\""
  }

  /** An occurrence of a longer text is an occurrence of its start. */
  lemma {:induction false} ContainsStart(s: string, t: string, u: string)
    requires Text.Contains(s, t + u)
    ensures Text.Contains(s, t)
    decreases |s|
  {
    if !Text.StartsWith(s, t + u) {
      ContainsStart(s[1..], t, u);
    } else {
      assert s[..|t|] == (t + u)[..|t|];
    }
  }

  /** The topic of "what is aN" questions: A4 when A4 is named first in the page's order, else
      the first tier the question mentions. */
  lemma TopicWhatIsTier(question: string)
    ensures Text.Contains(question, "what is a4") || question == "a4" || Text.Contains(question, "meaning of a4") ==>
      TopicOf(question) == AboutA4
    ensures TopicOf(question) != AboutA4 && Text.Contains(question, "what is a") && FirstTierMention(question).Some? ==>
      TopicOf(question) == AboutTier(FirstTierMention(question).value)
  {
  }

  /** "What is aN" questions are answered with the description of that tier, whatever the case
      of the question; questions about A4 by name get A4's description. */
  lemma AnswerWhatIsTier(q: string, out: Option<Json>)
    ensures var question := Text.Lower(q);
      Text.Contains(question, "what is a4") || question == "a4" || Text.Contains(question, "meaning of a4") ==>
        AnswerSpecQuestion(q, out) == A4Text
    ensures var question := Text.Lower(q);
      var m := FirstTierMention(question);
      TopicOf(question) != AboutA4 && Text.Contains(question, "what is a") && m.Some? ==>
        Description(m.value).Some? && AnswerSpecQuestion(q, out) == Description(m.value).value
  {
    var question := Text.Lower(q);
    TopicWhatIsTier(question);
    var m := FirstTierMention(question);
    if m.Some? {
      MentionDescribed(m.value);
    }
  }

  /** Every tier a question can mention has a description. */
  lemma MentionDescribed(t: string)
    requires |t| == 2 && t[0] == 'A' && '1' <= t[1] <= '6'
    ensures Description(t).Some? && ExplainTier(Some(t)) == Description(t).value
  {
    assert t == ['A', t[1]];
  }

  /** A question none of whose keywords the page knows gets the suggestion text, naming the
      agent's tier. */
  lemma AnswerSuggests(q: string, out: Option<Json>)
    requires var question := Text.Lower(q);
      && question != "a4" && !Text.Contains(question, "what is a") && !Text.Contains(question, "meaning of a4")
      && !Text.Contains(question, "why") && !Text.Contains(question, "controls") && !Text.Contains(question, "guardrail")
      && !Text.Contains(question, "governance") && !Text.Contains(question, "human") && !Text.Contains(question, "hitl")
      && !Text.Contains(question, "approval") && !Text.Contains(question, "spec") && !Text.Contains(question, "agent")
    ensures AnswerSpecQuestion(q, out) == Suggest(TierShown(out))
  {
    var question := Text.Lower(q);
    if Text.Contains(question, "what is a4") {
      assert "what is a4" == "what is a" + "4";
      ContainsStart(question, "what is a", "4");
    }
    assert TopicOf(question) == Suggestion;
  }

  /** The answer does not depend on the case of the question. */
  lemma AnswerIgnoresCase(q: string, out: Option<Json>)
    ensures AnswerSpecQuestion(Text.Lower(q), out) == AnswerSpecQuestion(q, out)
  {
    Text.LowerIdempotent(q);
  }

  // ---------------------------------------------------------------- classify page

  /** `canClassify`: a name and a problem statement that are not blank, and no request in
      flight. */
  predicate CanClassify(name: string, problem: string, busy: bool) {
    Text.Trim(name) != "" && Text.Trim(problem) != "" && !busy
  }

  /** The body `classifyOnly` posts to the register endpoint, or `None` when it returns early. */
  function ClassifyPayload(name: string, problem: string, busy: bool, env: string, stage: string, reviewNotes: string,
                           overrideTier: string): (r: Option<Record>)
    ensures r.Some? <==> CanClassify(name, problem, busy)
    ensures r.Some? ==>
      r.value.Keys == {"name", "problem_statement", "env", "stage", "review_notes"} + (if overrideTier != "" then {"override_tier"} else {})
      && r.value["name"] == JStr(Text.Trim(name)) && r.value["problem_statement"] == JStr(Text.Trim(problem))
      && (r.value["review_notes"] == JNull <==> Text.Trim(reviewNotes) == "")
      && (overrideTier != "" ==> r.value["override_tier"] == JStr(overrideTier))
  {
    if !CanClassify(name, problem, busy) then None
    else
      var notes := Text.Trim(reviewNotes);
      var base := map[
        "name" := JStr(Text.Trim(name)), "problem_statement" := JStr(Text.Trim(problem)),
        "env" := JStr(env), "stage" := JStr(stage), "review_notes" := if notes != "" then JStr(notes) else JNull];
      Some(if overrideTier != "" then base["override_tier" := JStr(overrideTier)] else base)
  }

  // ---------------------------------------------------------------- inventory and platform pages

  /** `fmtTs(v)`: the first 19 characters of a long timestamp with its first "T" made a space. */
  function FmtTs(v: Option<Json>): (r: string)
    ensures !Truthy(v) ==> r == ""
    ensures Truthy(v) && |ToJsString(v.value)| <= 19 ==> r == ToJsString(v.value)
    ensures Truthy(v) && |ToJsString(v.value)| > 19 ==> |r| == 19
  {
    if !Truthy(v) then ""
    else
      var s := ToJsString(v.value);
      if |s| > 19 then Text.ReplaceFirst(s[..19], 'T', ' ') else s
  }

  /** An ISO timestamp `YYYY-MM-DDTHH:MM:SS.sssZ` is shown as `YYYY-MM-DD HH:MM:SS`. */
  lemma FmtTsOfIso(s: string)
    requires |s| > 19 && s[10] == 'T' && 'T' !in s[..10]
    ensures FmtTs(Some(JStr(s))) == s[..10] + " " + s[11..19]
  {
    var p := s[..19];
    assert p[..10] == s[..10];
    assert p[10] == 'T';
    assert Text.IndexOfChar(p, 'T') == 10;
  }

  /** `safeStr(v, max)`: `null` and `undefined` show as "", and a string longer than `max`
      is cut to `max - 1` characters and an ellipsis. */
  function SafeStr(v: Option<Json>, max: nat): (r: string)
    ensures v.None? || v.value.JNull? ==> r == ""
  {
    var s := if v.None? || v.value.JNull? then "" else ToJsString(v.value);
    if |s| > max then
      // `s.slice(0, max - 1)`: a negative end counts from the end of the string
      var cut := if max >= 1 then max - 1 else |s| - 1;
      s[..cut] + "…"
    else s
  }

  /** A defined value shows as its string when it fits, and otherwise as exactly `max`
      characters: its first `max - 1` and an ellipsis. */
  lemma SafeStrFits(v: Json, max: nat)
    requires !v.JNull?
    ensures var s := ToJsString(v);
      var r := SafeStr(Some(v), max);
      && (|s| <= max ==> r == s)
      && (max >= 1 && |s| > max ==> |r| == max && r[..max - 1] == s[..max - 1] && r[max - 1] == '…')
  {
  }

  /** The spellings the pages count as pending. */
  const PendingLabels: set<string> := {"PENDING", "REQUIRE_APPROVAL", "REQUIRES_APPROVAL"}

  /** `String(x.decision || "").toUpperCase()`. */
  function DecisionLabel(x: Json): string {
    Text.Upper(StringOrEmpty(Field(Some(x), "decision")))
  }

  /** How many items carry a decision label in `labels`. */
  function CountLabelled(items: seq<Json>, labels: set<string>): (n: nat)
    ensures n <= |items|
    decreases |items|
  {
    if |items| == 0 then 0
    else (if DecisionLabel(items[0]) in labels then 1 else 0) + CountLabelled(items[1..], labels)
  }

  /** The allow, deny and pending counts of the decision stream. */
  datatype Tally = Tally(allow: nat, deny: nat, pending: nat)

  function Counts(items: seq<Json>): Tally {
    Tally(CountLabelled(items, {"ALLOW"}), CountLabelled(items, {"DENY"}), CountLabelled(items, PendingLabels))
  }

  /** No item is counted twice: the three counts together never exceed the number of items. */
  lemma {:induction false} CountsBounded(items: seq<Json>)
    ensures var c := Counts(items);
      c.allow + c.deny + c.pending <= |items|
    decreases |items|
  {
    if |items| > 0 {
      CountsBounded(items[1..]);
      var l := DecisionLabel(items[0]);
      assert !(l == "ALLOW" && l in PendingLabels) && !(l == "DENY" && l in PendingLabels);
    }
  }

  /** Decisions count whatever their case: an item labelled in lower case counts as its
      upper-case spelling. */
  lemma CountIgnoresCase(d: string, labels: set<string>)
    ensures CountLabelled([JObj(map["decision" := JStr(Text.Lower(d))])], labels)
         == CountLabelled([JObj(map["decision" := JStr(Text.Upper(d))])], labels)
  {
    UpperOfLower(d);
    UpperIdempotent(d);
  }

  lemma UpperOfLower(s: string)
    ensures Text.Upper(Text.Lower(s)) == Text.Upper(s)
  {
  }

  lemma UpperIdempotent(s: string)
    ensures Text.Upper(Text.Upper(s)) == Text.Upper(s)
  {
  }
}
