/** The ledger-backed decision store of lib/decisions/decisionStore.ts. A decision is created
    once, with status APPROVED when it may proceed and PENDING otherwise; status changes are
    appended without any check of the current status; the current decision is the creation
    record with the latest status change laid over it. Ids and time are inputs. */
module DecisionStore {
  import opened Base
  import opened Json
  import Text
  import Redaction
  import opened Ledger
  import opened StatusOverlay

  const Schema := StatusOverlay.Schema("decision_created", "decision", "decision_id", "decision_status_changed")

  lemma SchemaWellFormed()
    ensures WellFormed(Schema)
  {
  }

  /** The status a decision is created with. */
  function InitialStatus(d: Record): string {
    if Truthy(Get(d, "allowed")) then "APPROVED" else "PENDING"
  }

  /** `{ ...d, decision_id, status, created_at }`. */
  function NewDecision(d: Record, id: string, now: int): (r: Record)
    ensures r.Keys == d.Keys + {"decision_id", "status", "created_at"}
    ensures r["decision_id"] == JStr(id) && r["created_at"] == JNum(now)
    ensures r["status"] == JStr("APPROVED") <==> Truthy(Get(d, "allowed"))
    ensures r["status"] == JStr("PENDING") <==> !Truthy(Get(d, "allowed"))
    ensures forall k :: k in d && k !in {"decision_id", "status", "created_at"} ==> r[k] == d[k]
  {
    d["decision_id" := JStr(id)]["status" := JStr(InitialStatus(d))]["created_at" := JNum(now)]
  }

  /** The `{ decision }` payload of the creation event. */
  function CreatedRaw(decision: Record): Json {
    JObj(map["decision" := JObj(decision)])
  }

  /** `createDecision(d)` with id `id` at time `now`: the new ledger and the decision. */
  function CreateDecision(env: Env, f: LedgerFile, d: Record, id: string, now: int): (r: (LedgerFile, Record))
    ensures r.1 == NewDecision(d, id, now)
    ensures LinesOf(r.0) == LinesOf(f) + [Parsed(NewEvent(env, f, now, "decision_created", CreatedRaw(r.1)))]
  {
    var decision := NewDecision(d, id, now);
    (Append(env, f, now, "decision_created", CreatedRaw(decision)), decision)
  }

  /** The `{ decision_id, status, by_hash }` payload of a status change. */
  function StatusRaw(id: string, status: string, byHash: string): Json {
    JObj(map["decision_id" := JStr(id), "status" := JStr(status), "by_hash" := JStr(byHash)])
  }

  /** `setDecisionStatus(decision_id, status, by_hash)`: one more event, whatever the current
      status is. */
  function SetDecisionStatus(env: Env, f: LedgerFile, id: string, status: string, byHash: string, now: int): (g: LedgerFile)
    ensures LinesOf(g) == LinesOf(f) + [Parsed(NewEvent(env, f, now, "decision_status_changed", StatusRaw(id, status, byHash)))]
  {
    Append(env, f, now, "decision_status_changed", StatusRaw(id, status, byHash))
  }

  /** `getDecision(decision_id)`. lib/decisions/decisionStore.ts repeats the lookup of
      lib/registry/agentRegistry.ts for its own event types, so this is `AgentRegistry.GetAgent`
      over a different schema. */
  function GetDecision(f: LedgerFile, id: string): (r: Result<Option<Record>>)
    ensures f.Absent? ==> r == Ok(None)
  {
    Current(f, Schema, id)
  }

  /** A created decision is found under its id, as redaction stored it, with its initial status
      when no status change was recorded for that id. */
  lemma GetAfterCreate(env: Env, f: LedgerFile, d: Record, id: string, now: int)
    requires env.redactString(id) == id
    requires ScanBack(LinesOf(f), "decision_status_changed", ["decision_id"], id) == Ok(None)
    ensures var (g, decision) := CreateDecision(env, f, d, id, now);
      GetDecision(g, id) == Ok(Some(Redaction.DeepRedact(env.redactString, JObj(decision)).fields))
    ensures var (g, decision) := CreateDecision(env, f, d, id, now);
      env.redactString(InitialStatus(d)) == InitialStatus(d) ==>
      var got := GetDecision(g, id);
      got.Ok? && got.value.Some? && "status" in got.value.value && got.value.value["status"] == JStr(InitialStatus(d))
  {
    SchemaWellFormed();
    var decision := NewDecision(d, id, now);
    CurrentAfterCreate(env, f, Schema, decision, id, now);
    Redaction.DeepRedactParts(env.redactString, JObj(decision));
    Redaction.StatusKept();
  }

  /** A status change is what the next lookup reports, from any current status; it does not
      create a decision that does not exist. */
  lemma GetAfterSetStatus(env: Env, f: LedgerFile, id: string, status: string, byHash: string, now: int)
    requires env.redactString(id) == id && env.redactString(status) == status && status != ""
    requires f != Lines([])
    requires GetDecision(f, id).Ok?
    ensures GetDecision(f, id).value.Some? ==>
      GetDecision(SetDecisionStatus(env, f, id, status, byHash, now), id)
        == Ok(Some(GetDecision(f, id).value.value["status" := JStr(status)]))
    ensures GetLatestStateByType(f, Schema.createdKind, CreatedKey(Schema), id) == Ok(None) ==>
      GetDecision(SetDecisionStatus(env, f, id, status, byHash, now), id) == Ok(None)
  {
    SchemaWellFormed();
    CurrentAfterStatus(env, f, Schema, id, status, StatusRaw(id, status, byHash), now);
  }
}
