/** The case-insensitive rule evaluator of lib/policy/tierRules.ts. Unlike `PolicyEngine`, it
    compares action and system names case-insensitively, lets `actionsOnly` hold on an empty
    action list, applies `crossBorder` only when it is a boolean, records every matching rule,
    and picks the winner by position in the pack's own `tierOrder`. */
module TierRules {
  import opened Base
  import opened Json
  import opened PolicyPack
  import Text
  import Sorting

  /** The attributes the classifier infers for a problem statement. */
  datatype Attrs = Attrs(actions: seq<string>, systems: seq<string>, dataSensitivity: string, crossBorder: bool)

  datatype Hit = Hit(id: Option<string>, tier: Option<string>, rationale: Option<string>)

  /** `TierEvalResult`; an `undefined` tier or id is `None`. */
  datatype Eval = Eval(tier: Option<string>, matchedRuleIds: seq<Option<string>>, reasons: seq<string>)

  function LowerAll(xs: seq<string>): (r: seq<string>)
    ensures |r| == |xs|
  {
    seq(|xs|, i requires 0 <= i < |xs| => Text.Lower(xs[i]))
  }

  /** `includesAny(hay, needles)`: some needle equals some hay entry, ignoring case. */
  predicate IncludesAny(hay: seq<string>, needles: seq<string>) {
    exists i :: 0 <= i < |needles| && Text.Lower(needles[i]) in LowerAll(hay)
  }

  /** Every action is in the allowed list, ignoring case; vacuous for no actions. */
  predicate AllAllowed(actions: seq<string>, allowed: seq<string>) {
    forall j :: 0 <= j < |actions| ==> Text.Lower(actions[j]) in LowerAll(allowed)
  }

  /** The conjunction the loop body computes in `ok`. */
  predicate RuleHolds(c: Conditions, a: Attrs) {
    && (c.actionsAny.Some? ==> IncludesAny(a.actions, c.actionsAny.value))
    && (c.systemsAny.Some? ==> IncludesAny(a.systems, c.systemsAny.value))
    && (c.dataSensitivityIn.Some? ==> a.dataSensitivity in c.dataSensitivityIn.value)
    && (c.crossBorder.Some? && c.crossBorder.value.JBool? ==> a.crossBorder == c.crossBorder.value.b)
    && (c.actionsOnly.Some? ==> AllAllowed(a.actions, c.actionsOnly.value))
  }

  function HitOf(r: Rule): Hit {
    Hit(r.id, r.thenTier, r.rationale)
  }

  /** The `hits` array: matching rules, in policy order. */
  function Hits(rules: seq<Rule>, a: Attrs): (hs: seq<Hit>)
    ensures |hs| <= |rules|
    decreases |rules|
  {
    if |rules| == 0 then []
    else (if RuleHolds(CondOf(rules[0]), a) then [HitOf(rules[0])] else []) + Hits(rules[1..], a)
  }

  /** Hits of a concatenation are the hits of each part, in order: the matches keep the
      policy's order. */
  lemma {:induction false} HitsAppend(r1: seq<Rule>, r2: seq<Rule>, a: Attrs)
    ensures Hits(r1 + r2, a) == Hits(r1, a) + Hits(r2, a)
    decreases |r1|
  {
    if |r1| == 0 {
      assert r1 + r2 == r2;
    } else {
      assert (r1 + r2)[0] == r1[0];
      assert (r1 + r2)[1..] == r1[1..] + r2;
      HitsAppend(r1[1..], r2, a);
    }
  }

  /** Every hit comes from a rule that holds, and every rule that holds is hit. */
  lemma {:induction false} HitsSound(rules: seq<Rule>, a: Attrs)
    ensures forall h :: h in Hits(rules, a) ==> exists i :: 0 <= i < |rules| && RuleHolds(CondOf(rules[i]), a) && h == HitOf(rules[i])
    ensures forall i :: 0 <= i < |rules| && RuleHolds(CondOf(rules[i]), a) ==> HitOf(rules[i]) in Hits(rules, a)
    decreases |rules|
  {
    if |rules| > 0 {
      HitsSound(rules[1..], a);
      forall i | 1 <= i < |rules|
        ensures rules[i] == rules[1..][i - 1]
      {
      }
    }
  }

  /** `Math.max(0, order.indexOf(t))`: tiers missing from the order rank like its first entry. */
  function Position(order: seq<string>, t: string): nat {
    var i := IndexOf(order, t);
    if i < 0 then 0 else i
  }

  /** The hit tiers that are defined, in hit order. */
  function DefinedTiers(tiers: seq<Option<string>>): (ds: seq<string>)
    ensures |ds| <= |tiers|
    ensures forall x :: x in ds <==> Some(x) in tiers
    decreases |tiers|
  {
    if |tiers| == 0 then []
    else
      var rest := DefinedTiers(tiers[1..]);
      assert forall x :: Some(x) in tiers <==> Some(x) == tiers[0] || Some(x) in tiers[1..] by {
        assert tiers == [tiers[0]] + tiers[1..];
      }
      if tiers[0].Some? then [tiers[0].value] + rest else rest
  }

  /** `maxTier`. `Array.prototype.sort` moves `undefined` entries behind every defined one
      without consulting the comparator, and sorts the defined ones stably by descending
      position; the head of that order, when it is a non-empty string, is the answer, and
      `order[0]` otherwise. */
  function MaxTier(tiers: seq<Option<string>>, order: seq<string>): Option<string> {
    var sorted := Sorting.SortDesc(DefinedTiers(tiers), t => Position(order, t));
    if |sorted| > 0 && sorted[0] != "" then Some(sorted[0])
    else if |order| > 0 then Some(order[0])
    else None
  }

  /** With no hits the chosen tier is the first entry of the order. */
  lemma MaxTierNoHits(order: seq<string>)
    requires |order| > 0
    ensures MaxTier([], order) == Some(order[0])
  {
  }

  /** The chosen tier is the first defined hit tier of greatest position (a tier outside the
      order counts as position 0), unless it is empty; hits without a tier are never chosen,
      and when no hit has a tier the first entry of the order is. */
  lemma MaxTierChoice(tiers: seq<Option<string>>, order: seq<string>)
    ensures var fallback := if |order| > 0 then Some(order[0]) else None;
      (forall j :: 0 <= j < |tiers| ==> tiers[j].None?) ==> MaxTier(tiers, order) == fallback
    ensures var ds := DefinedTiers(tiers);
      var fallback := if |order| > 0 then Some(order[0]) else None;
      |ds| > 0 ==>
        var i := Sorting.FirstMaxIndex(ds, t => Position(order, t));
        && Some(ds[i]) in tiers
        && (forall j :: 0 <= j < |tiers| && tiers[j].Some? ==> Position(order, tiers[j].value) <= Position(order, ds[i]))
        && (forall j :: 0 <= j < i ==> Position(order, ds[j]) < Position(order, ds[i]))
        && MaxTier(tiers, order) == (if ds[i] != "" then Some(ds[i]) else fallback)
  {
    var ds := DefinedTiers(tiers);
    if |ds| > 0 {
      Sorting.SortDescHeadIsFirstMax(ds, t => Position(order, t));
      var i := Sorting.FirstMaxIndex(ds, t => Position(order, t));
      forall j | 0 <= j < |tiers| && tiers[j].Some?
        ensures Position(order, tiers[j].value) <= Position(order, ds[i])
      {
        assert tiers[j].value in ds;
      }
    }
  }

  /** A hit without a tier that comes first does not hide a later one outside the order. */
  lemma MaxTierUndefinedLast()
    ensures MaxTier([None, Some("X")], ["A1", "A2", "A3"]) == Some("X")
  {
    var ds := DefinedTiers([None, Some("X")]);
    assert ds == ["X"];
    var sorted := Sorting.SortDesc(ds, t => Position(["A1", "A2", "A3"], t));
    assert multiset(sorted) == multiset{"X"};
    assert |sorted| == 1;
    assert sorted[0] in multiset(sorted);
  }

  function HitTiers(hs: seq<Hit>): seq<Option<string>> {
    seq(|hs|, i requires 0 <= i < |hs| => hs[i].tier)
  }

  /** A template-literal rendering of a possibly-undefined string. */
  function Show(o: Option<string>): string {
    o.GetOr("undefined")
  }

  /** `evalTierFromRules` over the pack's typed `tiering` block. */
  function EvalTierFromRules(rules: seq<Rule>, order: seq<string>, a: Attrs): (e: Eval)
    ensures |e.matchedRuleIds| == |e.reasons| == |Hits(rules, a)|
    ensures forall i :: 0 <= i < |e.matchedRuleIds| ==> e.matchedRuleIds[i] == Hits(rules, a)[i].id
    ensures forall i :: 0 <= i < |e.reasons| ==>
      e.reasons[i] == Show(Hits(rules, a)[i].id) + ": " + Show(Hits(rules, a)[i].rationale)
    ensures e.tier == MaxTier(HitTiers(Hits(rules, a)), order)
  {
    var hs := Hits(rules, a);
    Eval(MaxTier(HitTiers(hs), order),
         seq(|hs|, i requires 0 <= i < |hs| => hs[i].id),
         seq(|hs|, i requires 0 <= i < |hs| => Show(hs[i].id) + ": " + Show(hs[i].rationale)))
  }

  /** With no matching rule the result is the first tier of the order, with no ids. */
  lemma EvalNoMatch(rules: seq<Rule>, order: seq<string>, a: Attrs)
    requires |order| > 0
    requires forall i :: 0 <= i < |rules| ==> !RuleHolds(CondOf(rules[i]), a)
    ensures EvalTierFromRules(rules, order, a) == Eval(Some(order[0]), [], [])
  {
    HitsNone(rules, a);
    assert HitTiers(Hits(rules, a)) == [];
    MaxTierNoHits(order);
  }

  /** No rule holds, no hit. */
  lemma {:induction false} HitsNone(rules: seq<Rule>, a: Attrs)
    requires forall i :: 0 <= i < |rules| ==> !RuleHolds(CondOf(rules[i]), a)
    ensures Hits(rules, a) == []
    decreases |rules|
  {
    if |rules| > 0 {
      assert !RuleHolds(CondOf(rules[0]), a);
      assert forall i :: 0 <= i < |rules[1..]| ==> rules[1..][i] == rules[i + 1];
      HitsNone(rules[1..], a);
    }
  }

  lemma LowerAllIdempotent(xs: seq<string>)
    ensures LowerAll(LowerAll(xs)) == LowerAll(xs)
  {
    forall i | 0 <= i < |xs|
      ensures Text.Lower(Text.Lower(xs[i])) == Text.Lower(xs[i])
    {
      Text.LowerIdempotent(xs[i]);
    }
  }

  /** Action and system names are compared ignoring case: lower-casing the attributes changes
      nothing. */
  lemma RuleHoldsIgnoresCase(c: Conditions, a: Attrs)
    ensures RuleHolds(c, a) == RuleHolds(c, a.(actions := LowerAll(a.actions), systems := LowerAll(a.systems)))
  {
    LowerAllIdempotent(a.actions);
    LowerAllIdempotent(a.systems);
    var acts := LowerAll(a.actions);
    forall j | 0 <= j < |acts|
      ensures Text.Lower(acts[j]) == Text.Lower(a.actions[j])
    {
      Text.LowerIdempotent(a.actions[j]);
    }
  }

  /** `actionsOnly` holds for an empty action list, whatever it allows. */
  lemma ActionsOnlyVacuous(allowed: seq<string>)
    ensures AllAllowed([], allowed)
  {
  }

  /** A `crossBorder` condition that is not a boolean is ignored. */
  lemma NonBooleanCrossBorderIgnored(c: Conditions, a: Attrs)
    requires c.crossBorder.Some? && !c.crossBorder.value.JBool?
    ensures RuleHolds(c, a) == RuleHolds(c.(crossBorder := None), a)
  {
  }
}
