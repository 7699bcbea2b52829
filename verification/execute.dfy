/** The execution endpoint of pages/api/execute.ts over the ledger-backed decision store. A
    decision under human-in-the-loop control runs only once it is APPROVED; any other decision
    runs whatever its status. Execution goes to the simulated adapter the target names, records
    the status EXECUTED and appends one "execution" event to the ledger. */
module Execute {
  import opened Base
  import opened Json
  import Text
  import opened Ledger
  import DStore = DecisionStore
  import opened Api

  /** The simulated adapters the target selects, and the identity hash of the caller. */
  datatype Collaborators = Collaborators(
    salesforce: (Option<Json>, Option<Json>) -> Json,
    servicenow: (Option<Json>, Option<Json>) -> Json,
    hashIdentity: string -> string)

  /** Which adapter a decision's target selects. */
  datatype Target = Salesforce | ServiceNow | Generic

  /** `String(d.target).toLowerCase()` compared with the two adapter names. */
  function TargetOf(d: Record): (t: Target)
    ensures t == Salesforce <==> Text.Lower(StringOf(Get(d, "target"))) == "salesforce"
    ensures t == ServiceNow <==> Text.Lower(StringOf(Get(d, "target"))) == "servicenow"
  {
    var target := Text.Lower(StringOf(Get(d, "target")));
    if target == "salesforce" then Salesforce
    else if target == "servicenow" then ServiceNow
    else Generic
  }

  /** The adapter result for decision `d` and the request payload. */
  function Run(c: Collaborators, d: Record, payload: Option<Json>): Json {
    match TargetOf(d)
    case Salesforce => c.salesforce(Get(d, "action"), payload)
    case ServiceNow => c.servicenow(Get(d, "action"), payload)
    case Generic => JObj(Defined(map[
      "simulated" := Some(JBool(true)), "system" := Get(d, "target"),
      "action" := Get(d, "action"), "result" := Some(JStr("ok"))]))
  }

  /** A decision that is under human-in-the-loop control and not yet approved. */
  predicate AwaitsApproval(d: Record) {
    IsStr(Get(d, "control_mode"), "HITL") && !IsStr(Get(d, "status"), "APPROVED")
  }

  /** The payload of the "execution" ledger event. */
  function ExecutionRaw(d: Record): Json {
    JObj(Defined(map[
      "decision_id" := Get(d, "decision_id"), "agent_id" := Get(d, "agent_id"), "action" := Get(d, "action"),
      "target" := Get(d, "target"), "tier" := Get(d, "tier"), "policy_version" := Get(d, "policy_version"),
      "result" := Some(JObj(map["simulated" := JBool(true)]))]))
  }

  /** The raw payload of the EXECUTED status change. */
  function ExecutedRaw(c: Collaborators, d: Record, user: string): Json {
    DStore.StatusRaw(StringOf(Get(d, "decision_id")), "EXECUTED", c.hashIdentity(user))
  }

  /** The ledger after a decision is executed: its status change, then the execution event. */
  function Executed(env: Env, c: Collaborators, f: LedgerFile, d: Record, user: string, now: int): (g: LedgerFile) {
    Append(env, Append(env, f, now, "decision_status_changed", ExecutedRaw(c, d, user)), now, "execution", ExecutionRaw(d))
  }

  /** An execution appends exactly two events after the existing ones: the EXECUTED status
      change of the decision, then the execution record, both redacted and chained. */
  lemma ExecutedLines(env: Env, c: Collaborators, f: LedgerFile, d: Record, user: string, now: int)
    ensures var f1 := Append(env, f, now, "decision_status_changed", ExecutedRaw(c, d, user));
      LinesOf(Executed(env, c, f, d, user, now)) == LinesOf(f)
        + [Parsed(NewEvent(env, f, now, "decision_status_changed", ExecutedRaw(c, d, user))),
           Parsed(NewEvent(env, f1, now, "execution", ExecutionRaw(d)))]
  {
    var f1 := Append(env, f, now, "decision_status_changed", ExecutedRaw(c, d, user));
    var e1 := NewEvent(env, f, now, "decision_status_changed", ExecutedRaw(c, d, user));
    var e2 := NewEvent(env, f1, now, "execution", ExecutionRaw(d));
    calc {
      LinesOf(Executed(env, c, f, d, user, now));
      LinesOf(f1) + [Parsed(e2)];
      (LinesOf(f) + [Parsed(e1)]) + [Parsed(e2)];
      { TwoAtEnd(LinesOf(f), Parsed(e1), Parsed(e2)); }
      LinesOf(f) + [Parsed(e1), Parsed(e2)];
    }
  }

  lemma TwoAtEnd<T>(s: seq<T>, a: T, b: T)
    ensures (s + [a]) + [b] == s + [a, b]
  {
  }

  /** The execute handler: the request's `x-demo-user` header and body, the ledger, and the time.
      The handler has no `try`, so a ledger read that throws reaches Next.js as an uncaught
      exception (`Crash`). */
  function Handle(verb: string, demoUser: Option<string>, body: Option<Json>, env: Env, c: Collaborators,
                  f: LedgerFile, now: int): (r: (Reply, LedgerFile))
    ensures r.0.status != 200 ==> r.1 == f
  {
    if verb != "POST" then (Error(405, "Method not allowed"), f)
    else
      var user := HeaderOr(demoUser, "unknown");
      var did := Field(body, "decision_id");
      if !Truthy(did) then (Error(400, "decision_id required"), f)
      else match DStore.GetDecision(f, ToJsString(did.value))
        case Err(e) => (Crash(e), f)
        case Ok(None) => (Error(404, "Unknown decision_id"), f)
        case Ok(Some(d)) =>
          if AwaitsApproval(d) then (Error(403, "Not approved yet (HITL)"), f)
          else
            (Reply(200, map["ok" := JBool(true), "simulated" := JBool(true), "result" := Run(c, d, Field(body, "payload"))]),
             Executed(env, c, f, d, user, now))
  }

  /** A request executes exactly when it is a POST naming a decision the store finds that does
      not await a human approval; an unapproved HITL decision is refused and the ledger is left
      as it was. */
  lemma ExecuteGate(verb: string, demoUser: Option<string>, body: Option<Json>, env: Env, c: Collaborators,
                    f: LedgerFile, now: int)
    ensures var did := Field(body, "decision_id");
      Handle(verb, demoUser, body, env, c, f, now).0.status == 200 <==>
        (verb == "POST" && Truthy(did) && DStore.GetDecision(f, ToJsString(did.value)).Ok?
         && DStore.GetDecision(f, ToJsString(did.value)).value.Some?
         && !AwaitsApproval(DStore.GetDecision(f, ToJsString(did.value)).value.value))
    ensures var did := Field(body, "decision_id");
      verb == "POST" && Truthy(did) && DStore.GetDecision(f, ToJsString(did.value)) == Ok(None) ==>
        Handle(verb, demoUser, body, env, c, f, now).0.status == 404
    ensures var did := Field(body, "decision_id");
      verb == "POST" && Truthy(did) && DStore.GetDecision(f, ToJsString(did.value)).Ok?
      && DStore.GetDecision(f, ToJsString(did.value)).value.Some?
      && AwaitsApproval(DStore.GetDecision(f, ToJsString(did.value)).value.value) ==>
        Handle(verb, demoUser, body, env, c, f, now) == (Error(403, "Not approved yet (HITL)"), f)
  {
  }

  /** An execution keeps a valid hash chain valid. */
  lemma ExecutionKeepsChain(env: Env, c: Collaborators, f: LedgerFile, d: Record, user: string, now: int)
    requires DigestNonEmpty(env) && ValidChain(env, LinesOf(f))
    ensures ValidChain(env, LinesOf(Executed(env, c, f, d, user, now)))
  {
    AppendKeepsChain(env, f, now, "decision_status_changed", ExecutedRaw(c, d, user));
    var f1 := Append(env, f, now, "decision_status_changed", ExecutedRaw(c, d, user));
    AppendKeepsChain(env, f1, now, "execution", ExecutionRaw(d));
  }

  /** The target selects the adapter without regard to case; any other target gets the generic
      simulated result naming the target and the action. */
  lemma DispatchByTarget(c: Collaborators, d: Record, payload: Option<Json>)
    ensures Text.Lower(StringOf(Get(d, "target"))) == "salesforce" ==> Run(c, d, payload) == c.salesforce(Get(d, "action"), payload)
    ensures Text.Lower(StringOf(Get(d, "target"))) == "servicenow" ==> Run(c, d, payload) == c.servicenow(Get(d, "action"), payload)
    ensures TargetOf(d) == Generic ==>
      (Run(c, d, payload).JObj? && Get(Run(c, d, payload).fields, "result") == Some(JStr("ok"))
       && Get(Run(c, d, payload).fields, "system") == Get(d, "target"))
  {
  }
}
