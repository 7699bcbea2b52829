/** The ledger-backed agent registry of lib/registry/agentRegistry.ts. An agent is registered
    once with status ACTIVE; status changes are appended without validation; the current agent
    is the registration record with the latest status change laid over it. Ids and time are
    inputs. */
module AgentRegistry {
  import opened Base
  import opened Json
  import Redaction
  import opened Ledger
  import opened StatusOverlay

  const Schema := StatusOverlay.Schema("agent_registered", "agent", "agent_id", "agent_status_changed")

  lemma SchemaWellFormed()
    ensures WellFormed(Schema)
  {
  }

  /** `{ ...input, agent_id, status: "ACTIVE", created_at }`. */
  function NewAgent(input: Record, id: string, now: int): (r: Record)
    ensures r.Keys == input.Keys + {"agent_id", "status", "created_at"}
    ensures r["agent_id"] == JStr(id) && r["status"] == JStr("ACTIVE") && r["created_at"] == JNum(now)
    ensures forall k :: k in input && k !in {"agent_id", "status", "created_at"} ==> r[k] == input[k]
  {
    Merge(input, Sets(map["agent_id" := JStr(id), "status" := JStr("ACTIVE"), "created_at" := JNum(now)]))
  }

  /** The `{ agent }` payload of the registration event. */
  function RegisteredRaw(agent: Record): Json {
    JObj(map["agent" := JObj(agent)])
  }

  /** `registerAgent(input)` with id `id` at time `now`: the new ledger and the agent. */
  function RegisterAgent(env: Env, f: LedgerFile, input: Record, id: string, now: int): (r: (LedgerFile, Record))
    ensures r.1 == NewAgent(input, id, now)
    ensures LinesOf(r.0) == LinesOf(f) + [Parsed(NewEvent(env, f, now, "agent_registered", RegisteredRaw(r.1)))]
  {
    var agent := NewAgent(input, id, now);
    (Append(env, f, now, "agent_registered", RegisteredRaw(agent)), agent)
  }

  /** The `{ agent_id, status }` payload of a status change. */
  function StatusRaw(id: string, status: string): Json {
    JObj(map["agent_id" := JStr(id), "status" := JStr(status)])
  }

  /** `setAgentStatus(agent_id, status)`: one more event, whatever the current status is. */
  function SetAgentStatus(env: Env, f: LedgerFile, id: string, status: string, now: int): (g: LedgerFile)
    ensures LinesOf(g) == LinesOf(f) + [Parsed(NewEvent(env, f, now, "agent_status_changed", StatusRaw(id, status)))]
  {
    Append(env, f, now, "agent_status_changed", StatusRaw(id, status))
  }

  /** `getAgent(agent_id)`. */
  function GetAgent(f: LedgerFile, id: string): (r: Result<Option<Record>>)
    ensures f.Absent? ==> r == Ok(None)
  {
    Current(f, Schema, id)
  }

  /** A registered agent is found under its id, as redaction stored it, and is ACTIVE when no
      status change was recorded for that id. */
  lemma GetAfterRegister(env: Env, f: LedgerFile, input: Record, id: string, now: int)
    requires env.redactString(id) == id
    requires ScanBack(LinesOf(f), "agent_status_changed", ["agent_id"], id) == Ok(None)
    ensures var (g, agent) := RegisterAgent(env, f, input, id, now);
      GetAgent(g, id) == Ok(Some(Redaction.DeepRedact(env.redactString, JObj(agent)).fields))
    ensures var (g, agent) := RegisterAgent(env, f, input, id, now);
      env.redactString("ACTIVE") == "ACTIVE" ==> GetAgent(g, id).value.value["status"] == JStr("ACTIVE")
  {
    SchemaWellFormed();
    var agent := NewAgent(input, id, now);
    CurrentAfterCreate(env, f, Schema, agent, id, now);
    Redaction.DeepRedactParts(env.redactString, JObj(agent));
    Redaction.StatusKept();
  }

  /** A status change is what the next lookup reports, from any current status; it does not
      register an agent that does not exist. */
  lemma GetAfterSetStatus(env: Env, f: LedgerFile, id: string, status: string, now: int)
    requires env.redactString(id) == id && env.redactString(status) == status && status != ""
    requires f != Lines([])
    requires GetAgent(f, id).Ok?
    ensures GetAgent(f, id).value.Some? ==>
      GetAgent(SetAgentStatus(env, f, id, status, now), id) == Ok(Some(GetAgent(f, id).value.value["status" := JStr(status)]))
    ensures GetLatestStateByType(f, Schema.createdKind, CreatedKey(Schema), id) == Ok(None) ==>
      GetAgent(SetAgentStatus(env, f, id, status, now), id) == Ok(None)
  {
    SchemaWellFormed();
    CurrentAfterStatus(env, f, Schema, id, status, StatusRaw(id, status), now);
  }
}
