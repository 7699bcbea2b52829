/** `computeTier` of lib/policy/tierEngine.ts: the rule evaluation of `TierRules` over the
    attributes a classifier inferred, an optional manual override, and the default controls of the
    chosen tier. The classifier's answer is an input; the pack is the declared `AuraPolicyPack`. */
module TierEngine {
  import opened Base
  import opened Json
  import opened PolicyPack
  import TierRules

  datatype AuraTiering = AuraTiering(tierOrder: seq<string>, rules: seq<Rule>)

  /** The pack with the shape the loader declares: every field present. */
  datatype AuraPack = AuraPack(version: string, generatedAt: string, tiers: seq<TierDef>, tiering: AuraTiering)

  datatype Computed = Computed(
    policyVersion: string,
    generatedAt: string,
    attrs: TierRules.Attrs,
    ruleEval: TierRules.Eval,
    finalTier: Option<string>,
    controls: Json)

  /** `overrideTier || ruleEval.tier`. */
  function FinalTier(overrideTier: Option<string>, evaluated: Option<string>): (r: Option<string>)
    ensures overrideTier.Some? && overrideTier.value != "" ==> r == overrideTier
    ensures overrideTier.None? || overrideTier.value == "" ==> r == evaluated
  {
    if overrideTier.Some? && overrideTier.value != "" then overrideTier else evaluated
  }

  /** `pack.tiers.find(t => t.tier === finalTier) || pack.tiers[0]`, as a position. */
  function TierDefFor(tiers: seq<TierDef>, finalTier: Option<string>): (r: Option<nat>)
    ensures r.Some? ==> r.value < |tiers|
    ensures r.None? <==> |tiers| == 0
    ensures (exists i :: 0 <= i < |tiers| && tiers[i].tier == finalTier) ==>
      r.Some? && tiers[r.value].tier == finalTier && forall j :: 0 <= j < r.value ==> tiers[j].tier != finalTier
    ensures (forall i :: 0 <= i < |tiers| ==> tiers[i].tier != finalTier) && |tiers| > 0 ==> r == Some(0)
  {
    match FindTierDef(tiers, finalTier)
    case Some(i) => Some(i)
    case None => if |tiers| > 0 then Some(0) else None
  }

  /** `tierDef?.defaultControls || {}`: the controls of the first definition of the tier, else of
      the first definition in the pack, else none. */
  function ControlsFor(tiers: seq<TierDef>, finalTier: Option<string>): (r: Json)
    ensures |tiers| == 0 ==> r == JObj(map[])
    ensures forall i :: (0 <= i < |tiers| && tiers[i].tier == finalTier &&
      (forall j :: 0 <= j < i ==> tiers[j].tier != finalTier)) ==>
      r == Or(tiers[i].defaultControls, JObj(map[]))
    ensures |tiers| > 0 && (forall i :: 0 <= i < |tiers| ==> tiers[i].tier != finalTier) ==>
      r == Or(tiers[0].defaultControls, JObj(map[]))
  {
    match TierDefFor(tiers, finalTier)
    case None => JObj(map[])
    case Some(i) => Or(tiers[i].defaultControls, JObj(map[]))
  }

  /** `computeTier(problemStatement, overrideTier)` once the attributes are known. */
  function ComputeTier(pack: AuraPack, attrs: TierRules.Attrs, overrideTier: Option<string>): (c: Computed)
    ensures c.policyVersion == pack.version && c.generatedAt == pack.generatedAt && c.attrs == attrs
    ensures c.ruleEval == TierRules.EvalTierFromRules(pack.tiering.rules, pack.tiering.tierOrder, attrs)
    ensures overrideTier.Some? && overrideTier.value != "" ==> c.finalTier == overrideTier
    ensures overrideTier.None? || overrideTier.value == "" ==> c.finalTier == c.ruleEval.tier
    ensures c.controls == ControlsFor(pack.tiers, c.finalTier)
  {
    var ruleEval := TierRules.EvalTierFromRules(pack.tiering.rules, pack.tiering.tierOrder, attrs);
    var finalTier := FinalTier(overrideTier, ruleEval.tier);
    Computed(pack.version, pack.generatedAt, attrs, ruleEval, finalTier, ControlsFor(pack.tiers, finalTier))
  }

  /** A non-empty override decides the tier and the controls whatever the classifier inferred. */
  lemma OverrideIgnoresAttrs(pack: AuraPack, a1: TierRules.Attrs, a2: TierRules.Attrs, t: string)
    requires t != ""
    ensures ComputeTier(pack, a1, Some(t)).finalTier == ComputeTier(pack, a2, Some(t)).finalTier == Some(t)
    ensures ComputeTier(pack, a1, Some(t)).controls == ComputeTier(pack, a2, Some(t)).controls
  {
  }

  /** An empty override is the same as none. */
  lemma EmptyOverrideIsNone(pack: AuraPack, attrs: TierRules.Attrs)
    ensures ComputeTier(pack, attrs, Some("")) == ComputeTier(pack, attrs, None)
  {
  }
}
