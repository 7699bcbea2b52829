/** `buildIntent` of lib/policy/intent.ts, and the `/api/decide-tier` handler of
    pages/api/decide-tier.ts that composes it with `resolveTier` and `controlsForTier`. */
module IntentBuild {
  import opened Base
  import opened Json
  import opened PolicyPack
  import opened PolicyEngine

  /** `Array.isArray(v) ? v : []`. */
  function ArrayOrEmpty(v: Option<Json>): (r: seq<Json>)
    ensures v.Some? && v.value.JArr? ==> r == v.value.items
    ensures !(v.Some? && v.value.JArr?) ==> r == []
  {
    if v.Some? && v.value.JArr? then v.value.items else []
  }

  /** `buildIntent(body)`: lists that are not arrays become empty, the sensitivity passes through,
      and `crossBorder` becomes the truthiness of the field. */
  function BuildIntent(body: Option<Json>): (i: Intent)
    ensures Field(body, "actions").Some? && Field(body, "actions").value.JArr? ==>
      i.actions == Field(body, "actions").value.items
    ensures !(Field(body, "actions").Some? && Field(body, "actions").value.JArr?) ==> i.actions == []
    ensures Field(body, "systems").Some? && Field(body, "systems").value.JArr? ==>
      i.systems == Field(body, "systems").value.items
    ensures !(Field(body, "systems").Some? && Field(body, "systems").value.JArr?) ==> i.systems == []
    ensures i.dataSensitivity == Field(body, "dataSensitivity")
    ensures i.crossBorder == Some(Truthy(Field(body, "crossBorder")))
  {
    Intent(ArrayOrEmpty(Field(body, "actions")), ArrayOrEmpty(Field(body, "systems")),
           Field(body, "dataSensitivity"), Some(Truthy(Field(body, "crossBorder"))))
  }

  /** The intent as the response serialises it: an `undefined` field is omitted. */
  function IntentJson(i: Intent): Json {
    JObj(map["actions" := JArr(i.actions), "systems" := JArr(i.systems)]
      + (if i.dataSensitivity.Some? then map["dataSensitivity" := i.dataSensitivity.value] else map[])
      + (if i.crossBorder.Some? then map["crossBorder" := JBool(i.crossBorder.value)] else map[]))
  }

  /** Normalising a serialised intent gives it back, once `crossBorder` is set; so normalisation
      is idempotent. */
  lemma BuildIntentRoundTrip(i: Intent)
    requires i.crossBorder.Some?
    ensures BuildIntent(Some(IntentJson(i))) == i
  {
    var j := IntentJson(i);
    assert Field(Some(j), "actions") == Some(JArr(i.actions));
    assert Field(Some(j), "systems") == Some(JArr(i.systems));
    assert Field(Some(j), "dataSensitivity") == i.dataSensitivity;
    assert Field(Some(j), "crossBorder") == Some(JBool(i.crossBorder.value));
  }

  lemma BuildIntentIdempotent(body: Option<Json>)
    ensures BuildIntent(Some(IntentJson(BuildIntent(body)))) == BuildIntent(body)
  {
    BuildIntentRoundTrip(BuildIntent(body));
  }

  datatype TierResponse = TierResponse(intent: Intent, tier: string, controls: Json)

  /** The `/api/decide-tier` handler: normalise, resolve, look the controls up. A tier the pack
      does not define makes `controlsForTier` throw, which is the error result here. */
  function DecideTier(body: Option<Json>, pack: Pack): (r: Result<TierResponse>)
    ensures r.Ok? ==> r.value.intent == BuildIntent(body) && r.value.tier == ResolveTier(BuildIntent(body), pack)
    ensures r.Ok? <==> ControlsForTier(ResolveTier(BuildIntent(body), pack), pack).Ok?
    ensures r.Ok? ==> r.value.controls == ControlsForTier(r.value.tier, pack).value
    ensures r.Err? ==> r.error == "Unknown tier " + ResolveTier(BuildIntent(body), pack)
  {
    var intent := BuildIntent(body);
    var tier := ResolveTier(intent, pack);
    match ControlsForTier(tier, pack)
    case Err(e) => Err(e)
    case Ok(controls) => Ok(TierResponse(intent, tier, controls))
  }

  /** A body that is not an object (or is missing) is treated as `{}`: no lists, no flags. */
  lemma NonObjectBody(body: Option<Json>)
    requires body.None? || !body.value.JObj?
    ensures BuildIntent(body) == Intent([], [], None, Some(false))
  {
  }
}
