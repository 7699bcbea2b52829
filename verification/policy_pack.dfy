/** The runtime policy pack: the tier ladder A1..A6, tier definitions with their default
    controls, and the ordered tiering rules. The pack is a parameter of every evaluator; the
    loaders that read it from disk (lib/policy/loadPolicy.ts and lib/aura/policyLoader.ts) are modelled in `LoadPolicy`. */
module PolicyPack {
  import opened Base
  import opened Json

  /** `TIER_ORDER`: A1 (least governed) to A6 (most governed). */
  const TierOrder: seq<string> := ["A1", "A2", "A3", "A4", "A5", "A6"]

  /** `isTier`: one of the six tier names. */
  predicate IsTier(x: string) {
    x in TierOrder
  }

  /** `tierRank`: the position in `TierOrder`. */
  function TierRank(t: string): int {
    IndexOf(TierOrder, t)
  }

  /** Distinct tiers have distinct ranks, so a greatest rank names one tier. */
  lemma TierRankInjective(a: string, b: string)
    requires IsTier(a) && IsTier(b)
    requires TierRank(a) == TierRank(b)
    ensures a == b
  {
  }

  /** The `if` block of a rule. An absent key is `None`; `crossBorder` keeps its JSON value
      because the evaluators differ on non-boolean values. */
  datatype Conditions = Conditions(
    actionsAny: Option<seq<string>>,
    actionsOnly: Option<seq<string>>,
    systemsAny: Option<seq<string>>,
    dataSensitivityIn: Option<seq<string>>,
    crossBorder: Option<Json>)

  /** `{}`: a block with no conditions. */
  const NoConditions := Conditions(None, None, None, None, None)

  datatype Rule = Rule(id: Option<string>, cond: Option<Conditions>, thenTier: Option<string>, rationale: Option<string>)

  /** `r.if ?? {}` (and `rule.if || {}`, which agree on objects). */
  function CondOf(r: Rule): Conditions {
    r.cond.GetOr(NoConditions)
  }

  datatype TierDef = TierDef(tier: Option<string>, defaultControls: Option<Json>)

  datatype Tiering = Tiering(tierOrder: Option<seq<string>>, rules: Option<seq<Rule>>)

  /** The pack as parsed from JSON: every field may be missing. */
  datatype Pack = Pack(
    version: Option<string>,
    generatedAt: Option<string>,
    tierOrder: Option<seq<string>>,
    tiering: Option<Tiering>,
    tiers: Option<seq<TierDef>>,
    mappings: Option<Json>)

  /** `policy.tiering?.rules ?? []`. */
  function RulesOf(p: Pack): seq<Rule> {
    if p.tiering.Some? && p.tiering.value.rules.Some? then p.tiering.value.rules.value else []
  }

  /** `policy.tiers ?? []`. */
  function TiersOf(p: Pack): seq<TierDef> {
    p.tiers.GetOr([])
  }

  /** `tiers.find(x => x?.tier === tier)`, as a position (`undefined === undefined` holds). */
  function FindTierDef(defs: seq<TierDef>, tier: Option<string>): (r: Option<nat>)
    ensures r.None? <==> forall i :: 0 <= i < |defs| ==> defs[i].tier != tier
    ensures r.Some? ==> r.value < |defs| && defs[r.value].tier == tier
    ensures r.Some? ==> forall i :: 0 <= i < r.value ==> defs[i].tier != tier
    decreases |defs|
  {
    if |defs| == 0 then None
    else if defs[0].tier == tier then Some(0)
    else
      match FindTierDef(defs[1..], tier)
      case None => None
      case Some(i) => Some(i + 1)
  }
}
