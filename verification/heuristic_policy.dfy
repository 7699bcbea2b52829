/** `evaluatePolicy` of lib/policyEngine.ts: a keyword classifier of an action into a risk tier
    (low / medium / high), a control mode (AUTO / HOTL / HITL) and a list of obligations. The
    regular expressions are alternations of literal words matched case-insensitively on a
    lower-cased string, so each is "one of the words occurs in the string". */
module HeuristicPolicy {
  import opened Base
  import Text

  datatype PolicyInput = PolicyInput(action: Option<string>, target: Option<string>, dataSensitivity: Option<string>)

  datatype RiskTier = Low | Medium | High
  datatype ControlMode = Auto | Hotl | Hitl

  datatype PolicyOutput = PolicyOutput(
    riskTier: RiskTier,
    controlMode: ControlMode,
    allowed: bool,
    reason: string,
    obligations: seq<string>)

  const DestructiveWords: seq<string> := ["delete", "terminate", "kill", "remove"]
  const FinancialWords: seq<string> := ["payout", "payment", "refund", "wire", "transfer"]
  const ChangeWords: seq<string> := ["update", "change", "escalate", "close"]
  const SystemWords: seq<string> := ["salesforce", "servicenow"]

  /** The obligations every outcome starts with. */
  const BaseObligations: seq<string> := ["AUDIT_LOG", "NO_RAW_PAYLOAD_STORAGE"]

  /** Some word of the list occurs in `s`. */
  predicate Mentions(s: string, words: seq<string>) {
    exists i :: 0 <= i < |words| && Text.Contains(s, words[i])
  }

  /** The regular-expression test, word by word. */
  function AnyOccurs(s: string, words: seq<string>): (b: bool)
    ensures b <==> Mentions(s, words)
    decreases |words|
  {
    if |words| == 0 then false
    else
      var rest := AnyOccurs(s, words[1..]);
      assert forall i :: 1 <= i < |words| ==> words[i] == words[1..][i - 1];
      Text.Contains(s, words[0]) || rest
  }

  /** `(x || "").toLowerCase()`. */
  function Lowered(x: Option<string>): string {
    Text.Lower(x.GetOr(""))
  }

  predicate IsHigh(input: PolicyInput) {
    Mentions(Lowered(input.action), DestructiveWords) || Mentions(Lowered(input.action), FinancialWords)
      || input.dataSensitivity == Some("confidential")
  }

  predicate IsMedium(input: PolicyInput) {
    Mentions(Lowered(input.action), ChangeWords) || Mentions(Lowered(input.target), SystemWords)
  }

  function EvaluatePolicy(input: PolicyInput): (o: PolicyOutput)
    ensures o.riskTier == High <==> IsHigh(input)
    ensures o.riskTier == Medium <==> !IsHigh(input) && IsMedium(input)
    ensures o.riskTier == Low <==> !IsHigh(input) && !IsMedium(input)
    ensures o.controlMode == (match o.riskTier case High => Hitl case Medium => Hotl case Low => Auto)
    ensures !o.allowed <==> o.controlMode == Hitl
    ensures |o.obligations| >= 2 && o.obligations[..2] == BaseObligations
    ensures o.controlMode == Hitl ==> o.obligations[2..] == ["DUAL_CONTROL_OPTIONAL", "APPROVAL_REQUIRED"]
    ensures o.controlMode == Hotl ==> o.obligations[2..] == ["POST_ACTION_REVIEW"]
    ensures o.controlMode == Auto ==> o.obligations == BaseObligations
  {
    var o := Classify(Lowered(input.action), Lowered(input.target), input.dataSensitivity);
    assert |o.obligations| >= 2 && o.obligations[..2] == BaseObligations;
    o
  }

  /** The body of `evaluatePolicy` once the action and target are lower-cased. */
  function Classify(a: string, t: string, dataSensitivity: Option<string>): (o: PolicyOutput)
    ensures var high := Mentions(a, DestructiveWords) || Mentions(a, FinancialWords) || dataSensitivity == Some("confidential");
      && (o.riskTier == High <==> high)
      && (o.riskTier == Medium <==> !high && (Mentions(a, ChangeWords) || Mentions(t, SystemWords)))
      && (o.riskTier == Low <==> !high && !(Mentions(a, ChangeWords) || Mentions(t, SystemWords)))
    ensures o.controlMode == (match o.riskTier case High => Hitl case Medium => Hotl case Low => Auto)
    ensures !o.allowed <==> o.controlMode == Hitl
    ensures o.controlMode == Hitl ==> o.obligations == BaseObligations + ["DUAL_CONTROL_OPTIONAL", "APPROVAL_REQUIRED"]
    ensures o.controlMode == Hotl ==> o.obligations == BaseObligations + ["POST_ACTION_REVIEW"]
    ensures o.controlMode == Auto ==> o.obligations == BaseObligations
  {
    var high := AnyOccurs(a, DestructiveWords) || AnyOccurs(a, FinancialWords) || dataSensitivity == Some("confidential");
    var medium := AnyOccurs(a, ChangeWords) || AnyOccurs(t, SystemWords);
    if high then
      PolicyOutput(High, Hitl, false, "High-risk action requires Human-In-The-Loop approval (HITL).",
                   BaseObligations + ["DUAL_CONTROL_OPTIONAL", "APPROVAL_REQUIRED"])
    else if medium then
      PolicyOutput(Medium, Hotl, true, "Medium-risk action allowed with Human-On-The-Loop review (HOTL).",
                   BaseObligations + ["POST_ACTION_REVIEW"])
    else
      PolicyOutput(Low, Auto, true, "Low-risk action allowed automatically (AUTO).", BaseObligations)
  }

  /** The classification ignores the case of the action and the target. */
  lemma IgnoresCase(input: PolicyInput)
    ensures EvaluatePolicy(input) == EvaluatePolicy(input.(
      action := if input.action.Some? then Some(Text.Lower(input.action.value)) else None,
      target := if input.target.Some? then Some(Text.Lower(input.target.value)) else None))
  {
    var lowered := input.(
      action := if input.action.Some? then Some(Text.Lower(input.action.value)) else None,
      target := if input.target.Some? then Some(Text.Lower(input.target.value)) else None);
    if input.action.Some? {
      Text.LowerIdempotent(input.action.value);
    }
    if input.target.Some? {
      Text.LowerIdempotent(input.target.value);
    }
    assert Lowered(lowered.action) == Lowered(input.action);
    assert Lowered(lowered.target) == Lowered(input.target);
  }

  /** A high-risk action stays high whatever the target says. */
  lemma HighWins(input: PolicyInput, target: Option<string>)
    requires IsHigh(input)
    ensures EvaluatePolicy(input.(target := target)).controlMode == Hitl
    ensures !EvaluatePolicy(input.(target := target)).allowed
  {
  }

  /** A missing action is the empty action. */
  lemma MissingActionIsEmpty(input: PolicyInput)
    requires input.action.None?
    ensures EvaluatePolicy(input) == EvaluatePolicy(input.(action := Some("")))
  {
    assert Lowered(input.action) == Lowered(Some(""));
  }
}
