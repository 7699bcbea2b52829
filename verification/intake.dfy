/** The two service intake endpoints: pages/api/requests/submit.ts, which validates an
    action-intent request and builds the envelope it enqueues, with bearer authentication only
    when `AIF_GATEWAY_API_KEY` is set; and pages/api/gate/evaluate.ts, which refuses everything
    while that key is unset and otherwise answers every authorised request with ALLOW. The Redis
    writes are not modelled: the envelope returned is what would be stored and streamed. */
module Intake {
  import opened Base
  import opened Json
  import Text
  import Bearer

  /** The fields a submission must carry, in the order they are checked. */
  const Required: seq<string> := ["agent_id", "action", "system", "dataSensitivity", "request_id"]

  /** `isAuthEnabled()`: `Boolean(process.env.AIF_GATEWAY_API_KEY)`. */
  predicate AuthEnabled(key: Option<string>) {
    key.Some? && key.value != ""
  }

  /** `assertBearer(req)`: always true without a key, else the bearer token of the
      `authorization` header must equal it. */
  predicate AssertBearer(key: Option<string>, authorization: Option<string>) {
    var expected := key.GetOr("");
    expected == "" || Bearer.Token(authorization.GetOr("")) == expected
  }

  /** `body[k] === undefined || body[k] === null || body[k] === ""`. */
  predicate Missing(body: Option<Json>, k: string) {
    var v := Field(body, k);
    v.None? || v == Some(JNull) || v == Some(JStr(""))
  }

  /** The first of `ks` that is missing. */
  function FirstMissing(body: Option<Json>, ks: seq<string>): (r: Option<string>)
    ensures r.None? <==> forall i :: 0 <= i < |ks| ==> !Missing(body, ks[i])
    ensures r.Some? ==> exists i :: (0 <= i < |ks| && ks[i] == r.value && Missing(body, ks[i])
      && forall j :: 0 <= j < i ==> !Missing(body, ks[j]))
    decreases |ks|
  {
    if |ks| == 0 then None
    else if Missing(body, ks[0]) then Some(ks[0])
    else
      var r := FirstMissing(body, ks[1..]);
      assert r.Some? ==> exists i :: (0 <= i < |ks| && ks[i] == r.value && Missing(body, ks[i])
        && forall j :: 0 <= j < i ==> !Missing(body, ks[j])) by {
        if r.Some? {
          var i :| (0 <= i < |ks[1..]| && ks[1..][i] == r.value && Missing(body, ks[1..][i])
            && forall j :: 0 <= j < i ==> !Missing(body, ks[1..][j]));
          assert forall j :: 0 <= j < i + 1 ==> !Missing(body, ks[j]) by {
            forall j | 0 <= j < i + 1 ensures !Missing(body, ks[j]) {
              if j > 0 { assert ks[j] == ks[1..][j - 1]; }
            }
          }
        }
      }
      r
  }

  /** The normalised request envelope. */
  datatype Envelope = Envelope(
    requestId: string, agentId: string, action: string, system: string,
    dataSensitivity: Json, payload: Json, receivedAt: int, source: string, version: string)

  /** The envelope of a validated body received at `now`. */
  function EnvelopeOf(body: Option<Json>, now: int): (e: Envelope)
    requires FirstMissing(body, Required).None?
    ensures e.source == "foundry" && e.version == "v1" && e.receivedAt == now
    ensures Field(body, "payload").None? ==> e.payload == JNull
  {
    assert forall i :: 0 <= i < |Required| ==> !Missing(body, Required[i]);
    assert !Missing(body, Required[0]) && !Missing(body, Required[1]) && !Missing(body, Required[2])
      && !Missing(body, Required[3]) && !Missing(body, Required[4]);
    Envelope(
      ToJsString(Field(body, "request_id").value), ToJsString(Field(body, "agent_id").value),
      ToJsString(Field(body, "action").value), ToJsString(Field(body, "system").value),
      Field(body, "dataSensitivity").value, Coalesce(Field(body, "payload"), JNull), now, "foundry", "v1")
  }

  /** The outcome of a submission: the status, the error text, and the envelope enqueued. */
  datatype SubmitReply = SubmitReply(status: int, error: string, queued: Option<Envelope>)

  /** The submission handler. */
  function Submit(verb: string, key: Option<string>, authorization: Option<string>, body: Option<Json>, now: int): (r: SubmitReply)
    ensures r.queued.Some? <==> r.status == 202
  {
    if verb != "POST" then SubmitReply(405, "Method Not Allowed", None)
    else if AuthEnabled(key) && !AssertBearer(key, authorization) then SubmitReply(401, "Unauthorized", None)
    else
      match FirstMissing(body, Required)
      case Some(k) => SubmitReply(400, "Missing field: " + k, None)
      case None => SubmitReply(202, "", Some(EnvelopeOf(body, now)))
  }

  /** A submission is queued exactly when it is a POST, authorised or sent while no key is set,
      and carries every required field; a missing field is reported by the first name in order. */
  lemma SubmitAccepted(verb: string, key: Option<string>, authorization: Option<string>, body: Option<Json>, now: int)
    ensures Submit(verb, key, authorization, body, now).status == 202 <==>
      (verb == "POST" && (!AuthEnabled(key) || Bearer.Token(authorization.GetOr("")) == key.value)
       && forall i :: 0 <= i < |Required| ==> !Missing(body, Required[i]))
    ensures verb != "POST" ==> Submit(verb, key, authorization, body, now).status == 405
    ensures !AuthEnabled(key) ==> Submit(verb, key, authorization, body, now).status != 401
  {
  }

  /** The envelope of an accepted submission carries the body's fields as strings. */
  lemma EnvelopeFields(body: Option<Json>, now: int, rid: string, agent: string)
    requires FirstMissing(body, Required).None?
    requires Field(body, "request_id") == Some(JStr(rid)) && Field(body, "agent_id") == Some(JStr(agent))
    ensures EnvelopeOf(body, now).requestId == rid && EnvelopeOf(body, now).agentId == agent
  {
  }

  /** `assertAuth(req)` of the gate: the bearer token of `authorization`, or of
      `x-service-authorization` when the first is absent or empty, must equal a set key. */
  predicate AssertAuth(key: Option<string>, authorization: Option<string>, serviceAuthorization: Option<string>) {
    var hdr := if authorization.GetOr("") != "" then authorization.value else serviceAuthorization.GetOr("");
    var expected := key.GetOr("");
    expected != "" && Bearer.Token(hdr) == expected
  }

  /** The gate's answer: status, error, and the decision body. */
  datatype GateReply = GateReply(status: int, error: string, decision: string, reason: string,
                                 policyVersion: string, requestId: Option<Json>)

  /** The gate evaluation handler: a constant ALLOW for every authorised POST. */
  function Evaluate(verb: string, key: Option<string>, authorization: Option<string>,
                    serviceAuthorization: Option<string>, body: Option<Json>): (r: GateReply)
    ensures r.status == 200 ==> r.decision == "ALLOW" && r.requestId == Field(body, "request_id")
  {
    if verb != "POST" then GateReply(405, "Method Not Allowed", "", "", "", None)
    else if !AssertAuth(key, authorization, serviceAuthorization) then GateReply(401, "Unauthorized", "", "", "", None)
    else GateReply(200, "", "ALLOW", "ok", "v1", Field(body, "request_id"))
  }

  /** With no key configured the gate refuses every request, where the submission endpoint
      accepts every one: the two endpoints read an unset key in opposite ways. */
  lemma UnsetKeyOpposite(authorization: Option<string>, serviceAuthorization: Option<string>, body: Option<Json>, now: int)
    ensures Evaluate("POST", None, authorization, serviceAuthorization, body).status == 401
    ensures Submit("POST", None, authorization, body, now).status != 401
  {
  }

  /** The gate answers 200 exactly for a POST whose chosen header carries the key. */
  lemma EvaluateAuthorised(verb: string, key: Option<string>, authorization: Option<string>,
                           serviceAuthorization: Option<string>, body: Option<Json>)
    ensures Evaluate(verb, key, authorization, serviceAuthorization, body).status == 200 <==>
      (verb == "POST" && key.GetOr("") != ""
       && Bearer.Token(if authorization.GetOr("") != "" then authorization.value else serviceAuthorization.GetOr("")) == key.value)
  {
  }
}
