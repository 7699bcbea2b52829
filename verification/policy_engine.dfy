/** The authoritative MAX_TIER evaluator of lib/policy/policyEngine.ts: the tier of an agent
    intent is the highest valid `thenTier` among the rules whose conditions all hold, starting
    from A1; and the default controls of a tier come from the pack's tier definitions. */
module PolicyEngine {
  import opened Base
  import opened Json
  import opened PolicyPack

  /** `AgentIntent`. The lists hold whatever JSON the request carried; the comparisons below are
      JavaScript's strict equality, so only string elements can equal a rule's strings. */
  datatype Intent = Intent(actions: seq<Json>, systems: seq<Json>, dataSensitivity: Option<Json>, crossBorder: Option<bool>)

  /** `list.some(a => values.includes(a))`. */
  predicate SomeIncluded(list: seq<string>, values: seq<Json>) {
    exists i :: 0 <= i < |list| && JStr(list[i]) in values
  }

  /** `values.every(a => list.includes(a))`. */
  predicate AllIncluded(values: seq<Json>, list: seq<string>) {
    forall j :: 0 <= j < |values| ==> values[j].JStr? && values[j].s in list
  }

  /** `list.includes(ds ?? "")`: a missing or null sensitivity is compared as "". */
  predicate SensitivityIn(list: seq<string>, ds: Option<Json>) {
    match ds
    case None => "" in list
    case Some(v) =>
      match v
      case JNull => "" in list
      case JStr(s) => s in list
      case _ => false
  }

  /** The rule predicate: every present condition holds (an absent one holds vacuously). */
  predicate Matches(c: Conditions, intent: Intent) {
    && (c.actionsAny.Some? ==> SomeIncluded(c.actionsAny.value, intent.actions))
    && (c.actionsOnly.Some? ==> |intent.actions| > 0 && AllIncluded(intent.actions, c.actionsOnly.value))
    && (c.systemsAny.Some? ==> SomeIncluded(c.systemsAny.value, intent.systems))
    && (c.dataSensitivityIn.Some? ==> SensitivityIn(c.dataSensitivityIn.value, intent.dataSensitivity))
    && (c.crossBorder.Some? ==> c.crossBorder.value == JBool(intent.crossBorder.GetOr(false)))
  }

  /** The tier a rule proposes for an intent: its `thenTier` when the rule matches and the
      value is one of A1..A6. */
  function Contribution(r: Rule, intent: Intent): Option<string> {
    if Matches(CondOf(r), intent) && r.thenTier.Some? && IsTier(r.thenTier.value) then r.thenTier else None
  }

  /** The tiers proposed by a rule list. */
  function Contributions(rules: seq<Rule>, intent: Intent): set<string> {
    set i | 0 <= i < |rules| && Contribution(rules[i], intent).Some? :: Contribution(rules[i], intent).value
  }

  /** The loop of `resolveTier` from a running best tier. */
  function ResolveFrom(best: string, rules: seq<Rule>, intent: Intent): (r: string)
    requires IsTier(best)
    ensures IsTier(r)
    ensures TierRank(best) <= TierRank(r)
    ensures forall t :: t in Contributions(rules, intent) ==> TierRank(t) <= TierRank(r)
    ensures r == best || r in Contributions(rules, intent)
    decreases |rules|
  {
    if |rules| == 0 then best
    else
      var c := Contribution(rules[0], intent);
      var next := if c.Some? && TierRank(c.value) > TierRank(best) then c.value else best;
      ContributionsCons(rules, intent);
      ResolveFrom(next, rules[1..], intent)
  }

  /** The tiers proposed by a non-empty list: the head's, if any, and the rest's. */
  lemma ContributionsCons(rules: seq<Rule>, intent: Intent)
    requires |rules| > 0
    ensures var c := Contribution(rules[0], intent);
      Contributions(rules, intent) == (if c.Some? then {c.value} else {}) + Contributions(rules[1..], intent)
  {
    var c := Contribution(rules[0], intent);
    forall t | t in Contributions(rules, intent)
      ensures (c.Some? && t == c.value) || t in Contributions(rules[1..], intent)
    {
      var i :| 0 <= i < |rules| && Contribution(rules[i], intent).Some? && Contribution(rules[i], intent).value == t;
      if i > 0 {
        assert rules[1..][i - 1] == rules[i];
      }
    }
    forall t | t in Contributions(rules[1..], intent)
      ensures t in Contributions(rules, intent)
    {
      var i :| 0 <= i < |rules[1..]| && Contribution(rules[1..][i], intent).Some? && Contribution(rules[1..][i], intent).value == t;
      assert rules[i + 1] == rules[1..][i];
    }
  }

  /** `resolveTier`: the highest-ranked tier among A1 and the matching rules' valid tiers. */
  function ResolveTier(intent: Intent, pack: Pack): (r: string)
    ensures IsTier(r)
    ensures r == "A1" || r in Contributions(RulesOf(pack), intent)
    ensures forall t :: t in Contributions(RulesOf(pack), intent) ==> TierRank(t) <= TierRank(r)
  {
    ResolveFrom("A1", RulesOf(pack), intent)
  }

  /** With no matching rule carrying a valid tier (in particular with no rules at all) the
      result is A1. */
  lemma ResolveTierNoMatch(intent: Intent, pack: Pack)
    requires forall i :: 0 <= i < |RulesOf(pack)| ==> Contribution(RulesOf(pack)[i], intent).None?
    ensures ResolveTier(intent, pack) == "A1"
  {
    assert Contributions(RulesOf(pack), intent) == {};
  }

  /** The result depends only on the set of proposed tiers. */
  lemma {:induction false} SameContributionsSameTier(r1: seq<Rule>, r2: seq<Rule>, intent: Intent)
    requires Contributions(r1, intent) == Contributions(r2, intent)
    ensures ResolveFrom("A1", r1, intent) == ResolveFrom("A1", r2, intent)
  {
    var a := ResolveFrom("A1", r1, intent);
    var b := ResolveFrom("A1", r2, intent);
    assert TierRank(a) <= TierRank(b);
    assert TierRank(b) <= TierRank(a);
    TierRankInjective(a, b);
  }

  /** Reordering the rules (MAX_TIER is order-independent) leaves the tier unchanged. */
  lemma ResolveTierPermutation(r1: seq<Rule>, r2: seq<Rule>, intent: Intent)
    requires multiset(r1) == multiset(r2)
    ensures ResolveFrom("A1", r1, intent) == ResolveFrom("A1", r2, intent)
  {
    forall t | t in Contributions(r1, intent)
      ensures t in Contributions(r2, intent)
    {
      var i :| 0 <= i < |r1| && Contribution(r1[i], intent).Some? && Contribution(r1[i], intent).value == t;
      assert r1[i] in multiset(r2);
      var j :| 0 <= j < |r2| && r2[j] == r1[i];
    }
    forall t | t in Contributions(r2, intent)
      ensures t in Contributions(r1, intent)
    {
      var i :| 0 <= i < |r2| && Contribution(r2[i], intent).Some? && Contribution(r2[i], intent).value == t;
      assert r2[i] in multiset(r1);
      var j :| 0 <= j < |r1| && r1[j] == r2[i];
    }
    SameContributionsSameTier(r1, r2, intent);
  }

  /** A rule whose `thenTier` is not one of A1..A6 never changes the result, wherever it is. */
  lemma InvalidThenTierIgnored(pre: seq<Rule>, bad: Rule, post: seq<Rule>, intent: Intent)
    requires bad.thenTier.None? || !IsTier(bad.thenTier.value)
    ensures ResolveFrom("A1", pre + [bad] + post, intent) == ResolveFrom("A1", pre + post, intent)
  {
    var all := pre + [bad] + post;
    var without := pre + post;
    forall t | t in Contributions(all, intent)
      ensures t in Contributions(without, intent)
    {
      var i :| 0 <= i < |all| && Contribution(all[i], intent).Some? && Contribution(all[i], intent).value == t;
      if i < |pre| {
        assert without[i] == all[i];
      } else {
        assert i > |pre|;
        assert without[i - 1] == all[i];
      }
    }
    forall t | t in Contributions(without, intent)
      ensures t in Contributions(all, intent)
    {
      var i :| 0 <= i < |without| && Contribution(without[i], intent).Some? && Contribution(without[i], intent).value == t;
      if i < |pre| {
        assert all[i] == without[i];
      } else {
        assert all[i + 1] == without[i];
      }
    }
    SameContributionsSameTier(all, without, intent);
  }

  /** An intent with no actions never satisfies an `actionsOnly` condition, even an empty list. */
  lemma EmptyActionsFailActionsOnly(c: Conditions, intent: Intent)
    requires c.actionsOnly.Some?
    requires |intent.actions| == 0
    ensures !Matches(c, intent)
  {
  }

  /** A missing `crossBorder` behaves as `false`, and a missing sensitivity only matches a list
      that contains "". */
  lemma MissingFieldsDefaults(c: Conditions, intent: Intent)
    requires intent.crossBorder.None? && intent.dataSensitivity.None?
    ensures Matches(c, intent) <==> Matches(c, intent.(crossBorder := Some(false), dataSensitivity := Some(JStr(""))))
  {
  }

  /** `controlsForTier`: the first definition of the tier supplies `defaultControls ?? {}`; an
      unknown tier throws. */
  function ControlsForTier(tier: string, pack: Pack): (r: Result<Json>)
    ensures r.Err? <==> forall i :: 0 <= i < |TiersOf(pack)| ==> TiersOf(pack)[i].tier != Some(tier)
    ensures r.Err? ==> r.error == "Unknown tier " + tier
    ensures r.Ok? ==> exists i :: (0 <= i < |TiersOf(pack)| && TiersOf(pack)[i].tier == Some(tier)
      && (forall j :: 0 <= j < i ==> TiersOf(pack)[j].tier != Some(tier))
      && r.value == Coalesce(TiersOf(pack)[i].defaultControls, JObj(map[])))
  {
    match FindTierDef(TiersOf(pack), Some(tier))
    case None => Err("Unknown tier " + tier)
    case Some(i) => Ok(Coalesce(TiersOf(pack)[i].defaultControls, JObj(map[])))
  }
}
