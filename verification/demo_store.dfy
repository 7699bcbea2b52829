/** The demo agent store of lib/demoStore.ts: a list of records, newest first, looked up by
    their `id` field. Updates replace a record in place by the patch laid over it. The handlers
    use the same list semantics for their decision records. */
module DemoStore {
  import opened Base
  import opened Json

  type Table = seq<Record>

  /** `a.id === id`. */
  predicate HasId(rec: Record, id: string) {
    Get(rec, "id") == Some(JStr(id))
  }

  /** `findIndex(a => a.id === id)`, with `None` for -1. */
  function FindIndex(t: Table, id: string): (r: Option<nat>)
    ensures r.Some? ==> r.value < |t| && HasId(t[r.value], id)
    ensures r.Some? ==> forall j :: 0 <= j < r.value ==> !HasId(t[j], id)
    ensures r.None? <==> forall j :: 0 <= j < |t| ==> !HasId(t[j], id)
    decreases |t|
  {
    if |t| == 0 then None
    else if HasId(t[0], id) then Some(0)
    else match FindIndex(t[1..], id)
      case None => None
      case Some(i) => Some(i + 1)
  }

  /** `addAgent(agent)`: the new record goes in front. */
  function AddAgent(t: Table, agent: Record): (r: Table)
    ensures |r| == |t| + 1 && r[0] == agent && r[1..] == t
  {
    [agent] + t
  }

  /** `listAgents()`: the list as stored. */
  function ListAgents(t: Table): Table {
    t
  }

  /** `getAgent(id)`: the first record with that id, or null. */
  function GetAgent(t: Table, id: string): (r: Option<Record>)
    ensures r.Some? <==> exists j :: 0 <= j < |t| && HasId(t[j], id)
    ensures r.Some? ==> r.value in t && HasId(r.value, id)
  {
    match FindIndex(t, id)
    case None => None
    case Some(i) => Some(t[i])
  }

  /** `updateAgent(id, patch)`: the new table and the updated record, or null with the table
      unchanged. */
  function UpdateAgent(t: Table, id: string, patch: Patch): (r: (Table, Option<Record>))
    ensures r.1.None? <==> GetAgent(t, id).None?
    ensures r.1.None? ==> r.0 == t
    ensures r.1.Some? ==> r.1.value == Merge(GetAgent(t, id).value, patch)
    ensures |r.0| == |t|
    ensures r.1.Some? ==> var i := FindIndex(t, id).value;
      r.0[i] == r.1.value && forall j :: 0 <= j < |t| && j != i ==> r.0[j] == t[j]
  {
    match FindIndex(t, id)
    case None => (t, None)
    case Some(i) =>
      var u := Merge(t[i], patch);
      (t[i := u], Some(u))
  }

  /** `clearAgents()`. */
  function ClearAgents(t: Table): (r: Table)
    ensures |r| == 0
  {
    []
  }

  /** An added agent is what a lookup of its id finds, shadowing any older record with the same
      id. */
  lemma GetAfterAdd(t: Table, agent: Record, id: string)
    requires HasId(agent, id)
    ensures GetAgent(AddAgent(t, agent), id) == Some(agent)
  {
  }

  /** Adding an agent with another id does not change what a lookup finds. */
  lemma GetAfterAddOther(t: Table, agent: Record, id: string)
    requires !HasId(agent, id)
    ensures GetAgent(AddAgent(t, agent), id) == GetAgent(t, id)
  {
    var r := AddAgent(t, agent);
    assert r[1..] == t;
  }

  /** An update followed by a lookup of the same id finds the updated record; a patch that does
      not touch `id` keeps the record under its id. */
  lemma GetAfterUpdate(t: Table, id: string, patch: Patch)
    requires "id" !in patch
    ensures var (t2, u) := UpdateAgent(t, id, patch);
      GetAgent(t2, id) == u
  {
    var (t2, u) := UpdateAgent(t, id, patch);
    if u.Some? {
      var i := FindIndex(t, id).value;
      assert HasId(t2[i], id);
      assert forall j :: 0 <= j < i ==> t2[j] == t[j];
      assert FindIndex(t2, id) == Some(i);
    }
  }

  /** A lookup after clearing finds nothing. */
  lemma GetAfterClear(t: Table, id: string)
    ensures GetAgent(ClearAgents(t), id).None?
  {
  }
}
