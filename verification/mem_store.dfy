/** The in-memory branch of lib/store.ts: agents and decisions in insertion-ordered maps keyed by
    id, and an audit list kept newest first and cut back to 300 entries. Records are JSON
    objects; an update lays the patch over the current record. The Redis branch is not part of
    this model. */
module MemStore {
  import opened Base
  import opened Json
  import OM = OrderedMap
  import Sorting

  datatype AuditEvent = AuditEvent(ts: int, kind: string, user: Option<Json>, data: Json)

  datatype MemStore = MemStore(agents: OM.OMap<string, Record>, decisions: OM.OMap<string, Record>, audit: seq<AuditEvent>)

  const AuditCap := 300
  const AuditPage := 200

  /** What every operation keeps: maps without repeated keys and a bounded audit list. */
  predicate Valid(s: MemStore) {
    OM.UniqueKeys(s.agents) && OM.UniqueKeys(s.decisions) && |s.audit| <= AuditCap
  }

  const Empty := MemStore([], [], [])

  lemma EmptyValid()
    ensures Valid(Empty)
  {
  }

  /** `auditAppend(e)`: the event goes first, and one entry falls off the end past 300. */
  function AuditAppend(audit: seq<AuditEvent>, e: AuditEvent): (r: seq<AuditEvent>)
    ensures |audit| <= AuditCap ==> |r| <= AuditCap
    ensures |r| > 0 && r[0] == e && r[1..] <= audit
    ensures |audit| < AuditCap ==> r == [e] + audit
  {
    var r := [e] + audit;
    if |r| > AuditCap then r[..|r| - 1] else r
  }

  /** The id of a typed record: its string field `k`. */
  predicate HasId(rec: Record, k: string) {
    k in rec && rec[k].JStr?
  }

  /** `Store.putAgent(a)` at time `now`: stored under its id, audited as agent.register. */
  function PutAgent(s: MemStore, a: Record, now: int): (r: MemStore)
    requires Valid(s) && HasId(a, "agent_id")
    ensures OM.Get(r.agents, a["agent_id"].s) == Some(a) && r.decisions == s.decisions
    ensures forall k :: k != a["agent_id"].s ==> OM.Get(r.agents, k) == OM.Get(s.agents, k)
    ensures r.audit == AuditAppend(s.audit, AuditEvent(now, "agent.register", Get(a, "owner_hash"),
                                                       JObj(map["agent_id" := a["agent_id"]])))
    ensures Valid(r)
  {
    OM.PutShape(s.agents, a["agent_id"].s, a);
    forall k | k != a["agent_id"].s
      ensures OM.Get(OM.Put(s.agents, a["agent_id"].s, a), k) == OM.Get(s.agents, k)
    {
      OM.PutOther(s.agents, a["agent_id"].s, a, k);
    }
    s.(agents := OM.Put(s.agents, a["agent_id"].s, a),
       audit := AuditAppend(s.audit, AuditEvent(now, "agent.register", Get(a, "owner_hash"),
                                                JObj(map["agent_id" := a["agent_id"]]))))
  }

  /** `Store.getAgent(agent_id)`. */
  function GetAgent(s: MemStore, id: string): Option<Record> {
    OM.Get(s.agents, id)
  }

  /** The numeric `created_at` of a record (0 when it has none). */
  function CreatedAt(rec: Record): int {
    match Get(rec, "created_at")
    case Some(JNum(n)) => n
    case _ => 0
  }

  /** `Store.listAgents()`: every agent, newest first. */
  function ListAgents(s: MemStore): (r: seq<Record>)
    ensures Sorting.SortedDesc(r, CreatedAt)
    ensures multiset(r) == multiset(OM.Values(s.agents))
  {
    Sorting.SortDesc(OM.Values(s.agents), CreatedAt)
  }

  /** `{ ...cur, ...patch }` written back under an existing key; `None` for an unknown id, with
      nothing changed. */
  function UpdateIn(m: OM.OMap<string, Record>, id: string, patch: Patch): (r: (OM.OMap<string, Record>, Option<Record>))
    requires OM.UniqueKeys(m)
    ensures r.1.None? <==> OM.Get(m, id).None?
    ensures r.1.None? ==> r.0 == m
    ensures r.1.Some? ==> r.1.value == Merge(OM.Get(m, id).value, patch) && OM.Get(r.0, id) == r.1
    ensures OM.UniqueKeys(r.0) && OM.Keys(r.0) == OM.Keys(m) && |r.0| == |m|
    ensures forall k :: k != id ==> OM.Get(r.0, k) == OM.Get(m, k)
  {
    match OM.Get(m, id)
    case None => (m, None)
    case Some(cur) =>
      var u := Merge(cur, patch);
      OM.PutShape(m, id, u);
      forall k | k != id
        ensures OM.Get(OM.Put(m, id, u), k) == OM.Get(m, k)
      {
        OM.PutOther(m, id, u, k);
      }
      assert id in OM.Keys(m) by {
        assert m[OM.Find(m, id).value].key == id;
      }
      (OM.Put(m, id, u), Some(u))
  }

  /** `Store.updateAgent(agent_id, patch)`. */
  function UpdateAgent(s: MemStore, id: string, patch: Patch): (r: (MemStore, Option<Record>))
    requires Valid(s)
    ensures r.1 == UpdateIn(s.agents, id, patch).1
    ensures r.0 == s.(agents := UpdateIn(s.agents, id, patch).0) && Valid(r.0)
  {
    var (m, u) := UpdateIn(s.agents, id, patch);
    (s.(agents := m), u)
  }

  /** `Store.putDecision(d)` at time `now`: stored under its id, audited as "approve" with the
      decision's status. */
  function PutDecision(s: MemStore, d: Record, now: int): (r: MemStore)
    requires Valid(s) && HasId(d, "decision_id")
    ensures OM.Get(r.decisions, d["decision_id"].s) == Some(d) && r.agents == s.agents
    ensures forall k :: k != d["decision_id"].s ==> OM.Get(r.decisions, k) == OM.Get(s.decisions, k)
    ensures r.audit == AuditAppend(s.audit, AuditEvent(now, "approve", Get(d, "requestor_hash"),
                                                       JObj(DecisionAuditData(d))))
    ensures Valid(r)
  {
    OM.PutShape(s.decisions, d["decision_id"].s, d);
    forall k | k != d["decision_id"].s
      ensures OM.Get(OM.Put(s.decisions, d["decision_id"].s, d), k) == OM.Get(s.decisions, k)
    {
      OM.PutOther(s.decisions, d["decision_id"].s, d, k);
    }
    s.(decisions := OM.Put(s.decisions, d["decision_id"].s, d),
       audit := AuditAppend(s.audit, AuditEvent(now, "approve", Get(d, "requestor_hash"), JObj(DecisionAuditData(d)))))
  }

  /** `{ decision_id, status }`, where an undefined status is left out. */
  function DecisionAuditData(d: Record): (r: Record)
    requires HasId(d, "decision_id")
    ensures "decision_id" in r && r["decision_id"] == d["decision_id"] && Get(r, "status") == Get(d, "status")
  {
    if "status" in d then map["decision_id" := d["decision_id"], "status" := d["status"]]
    else map["decision_id" := d["decision_id"]]
  }

  /** `Store.getDecision(decision_id)`. */
  function GetDecision(s: MemStore, id: string): Option<Record> {
    OM.Get(s.decisions, id)
  }

  /** `Store.updateDecision(decision_id, patch)`. */
  function UpdateDecision(s: MemStore, id: string, patch: Patch): (r: (MemStore, Option<Record>))
    requires Valid(s)
    ensures r.1 == UpdateIn(s.decisions, id, patch).1
    ensures r.0 == s.(decisions := UpdateIn(s.decisions, id, patch).0) && Valid(r.0)
  {
    var (m, u) := UpdateIn(s.decisions, id, patch);
    (s.(decisions := m), u)
  }

  /** `Store.listDecisions()`: every decision, newest first. */
  function ListDecisions(s: MemStore): (r: seq<Record>)
    ensures Sorting.SortedDesc(r, CreatedAt)
    ensures multiset(r) == multiset(OM.Values(s.decisions))
  {
    Sorting.SortDesc(OM.Values(s.decisions), CreatedAt)
  }

  /** `Store.appendAudit(e)`. */
  function AppendAudit(s: MemStore, e: AuditEvent): (r: MemStore)
    ensures r == s.(audit := AuditAppend(s.audit, e))
    ensures Valid(s) ==> Valid(r)
  {
    s.(audit := AuditAppend(s.audit, e))
  }

  /** `Store.listAudit()`: the 200 newest events. */
  function ListAudit(s: MemStore): (r: seq<AuditEvent>)
    ensures |r| == if |s.audit| < AuditPage then |s.audit| else AuditPage
    ensures r <= s.audit
  {
    s.audit[..if |s.audit| < AuditPage then |s.audit| else AuditPage]
  }

  /** Appending a run of events, one call each. */
  function AppendAll(audit: seq<AuditEvent>, es: seq<AuditEvent>): seq<AuditEvent>
    decreases |es|
  {
    if |es| == 0 then audit else AppendAll(AuditAppend(audit, es[0]), es[1..])
  }

  function Reverse<T>(xs: seq<T>): (r: seq<T>)
    ensures |r| == |xs|
    decreases |xs|
  {
    if |xs| == 0 then [] else Reverse(xs[1..]) + [xs[0]]
  }

  /** The first 300 entries of a list (all of them when it is shorter). */
  function Capped(xs: seq<AuditEvent>): (r: seq<AuditEvent>)
    ensures |r| <= AuditCap && r <= xs
    ensures |xs| <= AuditCap ==> r == xs
  {
    if |xs| > AuditCap then xs[..AuditCap] else xs
  }

  /** Cutting early or cutting late keeps the same front. */
  lemma CappedPrefix(x: seq<AuditEvent>, y: seq<AuditEvent>)
    ensures Capped(x + Capped(y)) == Capped(x + y)
  {
    if |y| > AuditCap {
      var a := Capped(x + Capped(y));
      var b := Capped(x + y);
      assert |a| == |b|;
      forall i | 0 <= i < |a|
        ensures a[i] == b[i]
      {
        if i >= |x| {
          assert (x + Capped(y))[i] == Capped(y)[i - |x|];
        }
      }
    }
  }

  /** One append is the capped list with the event in front. */
  lemma AuditAppendCapped(audit: seq<AuditEvent>, e: AuditEvent)
    requires |audit| <= AuditCap
    ensures AuditAppend(audit, e) == Capped([e] + audit)
  {
  }

  lemma ReverseFront(es: seq<AuditEvent>, tail: seq<AuditEvent>)
    requires |es| > 0
    ensures Reverse(es[1..]) + ([es[0]] + tail) == Reverse(es) + tail
  {
    var a := Reverse(es[1..]);
    assert Reverse(es) == a + [es[0]];
    SeqAssoc(a, [es[0]], tail);
  }

  lemma SeqAssoc(a: seq<AuditEvent>, b: seq<AuditEvent>, c: seq<AuditEvent>)
    ensures (a + b) + c == a + (b + c)
  {
  }

  /** However many events are appended, the list holds the 300 newest of all of them, newest
      first. */
  lemma {:induction false} AppendAllNewestFirst(audit: seq<AuditEvent>, es: seq<AuditEvent>)
    requires |audit| <= AuditCap
    ensures AppendAll(audit, es) == Capped(Reverse(es) + audit)
    decreases |es|
  {
    if |es| > 0 {
      var a1 := AuditAppend(audit, es[0]);
      AuditAppendCapped(audit, es[0]);
      AppendAllNewestFirst(a1, es[1..]);
      CappedPrefix(Reverse(es[1..]), [es[0]] + audit);
      ReverseFront(es, audit);
    }
  }

  /** An update followed by a read gives the patched record; other ids read as before. */
  lemma UpdateThenGet(s: MemStore, id: string, patch: Patch, other: string)
    requires Valid(s) && other != id
    ensures var (t, u) := UpdateAgent(s, id, patch);
      GetAgent(t, id) == u && GetAgent(t, other) == GetAgent(s, other)
      && (u.Some? ==> forall k :: k !in patch ==> Get(u.value, k) == Get(GetAgent(s, id).value, k))
  {
  }
}
