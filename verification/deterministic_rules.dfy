/** The signal-merging evaluator of lib/aura/deterministicRules.ts. The facts combine the request
    with the classifier's signals; then every matching rule is recorded and the running tier,
    starting at A1, is replaced by a rule's `thenTier` only when that tier sits strictly later in
    `tiering.tierOrder`. */
module DeterministicRules {
  import opened Base
  import opened Json
  import opened PolicyPack

  datatype Input = Input(actions: seq<string>, systems: seq<string>, dataSensitivity: string, crossBorder: bool)

  /** The classifier's `AuraSignals` that the evaluator reads. */
  datatype Signals = Signals(inferredActions: seq<string>, dataSensitivity: string, crossBorder: bool)

  datatype Facts = Facts(actionsAny: seq<string>, systemsAny: seq<string>, dataSensitivity: string, crossBorder: bool)

  datatype Outcome = Outcome(tier: string, matchedRuleIds: seq<Option<string>>)

  /** The `facts` object. */
  function FactsOf(input: Input, signals: Signals): (f: Facts)
    ensures NoDuplicates(f.actionsAny)
    ensures forall x :: x in f.actionsAny <==> x in input.actions || x in signals.inferredActions
    ensures Dedupe(input.actions) <= f.actionsAny
    ensures f.systemsAny == input.systems
    ensures f.crossBorder <==> input.crossBorder || signals.crossBorder
    ensures input.dataSensitivity != "" ==> f.dataSensitivity == input.dataSensitivity
    ensures input.dataSensitivity == "" ==> f.dataSensitivity == signals.dataSensitivity
  {
    DedupeAfterSpec([], input.actions + signals.inferredActions);
    DedupeAfterAppend([], input.actions, signals.inferredActions);
    DedupeAfterExtends(Dedupe(input.actions), signals.inferredActions);
    Facts(Dedupe(input.actions + signals.inferredActions),
          input.systems,
          if input.dataSensitivity != "" then input.dataSensitivity else signals.dataSensitivity,
          input.crossBorder || signals.crossBorder)
  }

  /** The loop body's `hit`: strict, case-sensitive comparisons; `actionsOnly` is vacuous on
      an empty action list; `crossBorder` applies only when it is a boolean. */
  predicate IsHit(c: Conditions, f: Facts) {
    && (c.actionsAny.Some? ==> exists i :: 0 <= i < |c.actionsAny.value| && c.actionsAny.value[i] in f.actionsAny)
    && (c.actionsOnly.Some? ==> forall j :: 0 <= j < |f.actionsAny| ==> f.actionsAny[j] in c.actionsOnly.value)
    && (c.systemsAny.Some? ==> exists i :: 0 <= i < |c.systemsAny.value| && c.systemsAny.value[i] in f.systemsAny)
    && (c.dataSensitivityIn.Some? ==> f.dataSensitivity in c.dataSensitivityIn.value)
    && (c.crossBorder.Some? && c.crossBorder.value.JBool? ==> f.crossBorder == c.crossBorder.value.b)
  }

  /** The matching rules, in policy order. */
  function Matched(rules: seq<Rule>, f: Facts): (m: seq<Rule>)
    ensures forall r :: r in m ==> r in rules && IsHit(CondOf(r), f)
    ensures forall i :: 0 <= i < |rules| && IsHit(CondOf(rules[i]), f) ==> rules[i] in m
    decreases |rules|
  {
    if |rules| == 0 then []
    else
      var rest := Matched(rules[1..], f);
      assert forall i :: 1 <= i < |rules| ==> rules[i] == rules[1..][i - 1];
      (if IsHit(CondOf(rules[0]), f) then [rules[0]] else []) + rest
  }

  /** The matches of a concatenation are the matches of each part, in order. */
  lemma {:induction false} MatchedAppend(r1: seq<Rule>, r2: seq<Rule>, f: Facts)
    ensures Matched(r1 + r2, f) == Matched(r1, f) + Matched(r2, f)
    decreases |r1|
  {
    if |r1| == 0 {
      assert r1 + r2 == r2;
    } else {
      assert (r1 + r2)[0] == r1[0];
      assert (r1 + r2)[1..] == r1[1..] + r2;
      MatchedAppend(r1[1..], r2, f);
    }
  }

  /** `order.indexOf(t)`, with `indexOf(undefined)` = -1. */
  function Idx(order: seq<string>, t: Option<string>): int {
    if t.None? then -1 else IndexOf(order, t.value)
  }

  /** `maxTier(a, b, order)`: `a` unless `b` sits strictly later in the order. */
  function MaxTier(a: string, b: Option<string>, order: seq<string>): string {
    if Idx(order, Some(a)) >= Idx(order, b) then a else b.value
  }

  /** The running tier over the matched rules' `thenTier`s. */
  function FoldTier(tier: string, ms: seq<Rule>, order: seq<string>): (r: string)
    ensures r == tier || (r in order && IndexOf(order, r) > IndexOf(order, tier))
    ensures r == tier || exists i :: 0 <= i < |ms| && ms[i].thenTier == Some(r)
    ensures forall i :: 0 <= i < |ms| && ms[i].thenTier.Some? && ms[i].thenTier.value in order ==>
      IndexOf(order, ms[i].thenTier.value) <= IndexOf(order, r)
    decreases |ms|
  {
    if |ms| == 0 then tier
    else
      var next := MaxTier(tier, ms[0].thenTier, order);
      var r := FoldTier(next, ms[1..], order);
      assert forall i :: 1 <= i < |ms| ==> ms[i] == ms[1..][i - 1];
      r
  }

  /** `evaluateTierFromRules`. A pack without `tiering`, or with matches but no
      `tiering.tierOrder`, makes the source throw a TypeError. */
  function Evaluate(pack: Pack, input: Input, signals: Signals): (r: Result<Outcome>)
    ensures r.Err? <==> (pack.tiering.None? ||
      (pack.tiering.value.tierOrder.None? && |Matched(pack.tiering.value.rules.GetOr([]), FactsOf(input, signals))| > 0))
    ensures r.Ok? ==> var f := FactsOf(input, signals);
      var ms := Matched(pack.tiering.value.rules.GetOr([]), f);
      && |r.value.matchedRuleIds| == |ms|
      && (forall i :: 0 <= i < |ms| ==> r.value.matchedRuleIds[i] == ms[i].id)
      && (r.value.tier == "A1" || exists i :: 0 <= i < |ms| && ms[i].thenTier == Some(r.value.tier))
    ensures r.Ok? ==> var order := pack.tiering.value.tierOrder.GetOr([]);
      var ms := Matched(pack.tiering.value.rules.GetOr([]), FactsOf(input, signals));
      && (r.value.tier == "A1" || (r.value.tier in order && IndexOf(order, r.value.tier) > IndexOf(order, "A1")))
      && (forall i :: 0 <= i < |ms| && ms[i].thenTier.Some? && ms[i].thenTier.value in order ==>
            IndexOf(order, ms[i].thenTier.value) <= IndexOf(order, r.value.tier))
  {
    if pack.tiering.None? then Err("TypeError: Cannot read properties of undefined (reading 'tierOrder')")
    else
      var f := FactsOf(input, signals);
      var ms := Matched(pack.tiering.value.rules.GetOr([]), f);
      if |ms| > 0 && pack.tiering.value.tierOrder.None? then Err("TypeError: Cannot read properties of undefined (reading 'indexOf')")
      else
        var order := pack.tiering.value.tierOrder.GetOr([]);
        Ok(Outcome(FoldTier("A1", ms, order), seq(|ms|, i requires 0 <= i < |ms| => ms[i].id)))
  }

  /** `actionsOnly` holds vacuously when the merged action list is empty. */
  lemma ActionsOnlyVacuous(c: Conditions, f: Facts)
    requires |f.actionsAny| == 0
    requires c.actionsAny.None? && c.systemsAny.None? && c.dataSensitivityIn.None? && c.crossBorder.None?
    ensures IsHit(c, f)
  {
  }
}
