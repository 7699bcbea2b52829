/** The tier-override store of lib/overrideStore.ts: a JSON object of override records keyed by
    id. A request adds a PENDING record; approval stamps an expiry `ttl` minutes ahead whatever
    the record's status was; revocation expires the record at once; the active override of an
    agent is chosen at read time against `now`. ISO timestamps of the one format the store
    writes are modelled as the millisecond instants they denote (they compare alike); ids and
    time are inputs. */
module OverrideStore {
  import opened Base
  import opened OrderedMap
  import Sorting

  datatype Status = Pending | Approved | Rejected | Revoked

  datatype OverrideRecord = OverrideRecord(
    id: string,
    agentId: string,
    requestedTier: string,
    requestedBy: string,
    requestedAt: int,
    reason: string,
    status: Status,
    approvedBy: Option<string>,
    approvedAt: Option<int>,
    expiresAt: Option<int>)

  /** The object in overrides.json; a file that is missing, empty or unparseable reads as the
      empty store. */
  type Store = OMap<string, OverrideRecord>

  datatype RequestInput = RequestInput(agentId: string, requestedTier: string, requestedBy: string, reason: Option<string>)

  /** `requestOverride(input)` with the fresh id `id` at time `now`. */
  function RequestOverride(all: Store, input: RequestInput, id: string, now: int): (r: (Store, OverrideRecord))
    requires UniqueKeys(all)
    ensures Get(r.0, id) == Some(r.1)
    ensures r.1.status == Pending && r.1.id == id && r.1.requestedAt == now
    ensures r.1.agentId == input.agentId && r.1.requestedTier == input.requestedTier && r.1.requestedBy == input.requestedBy
    ensures r.1.reason == (if input.reason.Some? then input.reason.value else "")
    ensures r.1.approvedBy.None? && r.1.approvedAt.None? && r.1.expiresAt.None?
    ensures UniqueKeys(r.0) && Keys(r.0) == Keys(all) + {id}
    ensures forall k :: k != id ==> Get(r.0, k) == Get(all, k)
  {
    var rec := OverrideRecord(id, input.agentId, input.requestedTier, input.requestedBy, now,
                              if input.reason.Some? then input.reason.value else "",
                              Pending, None, None, None);
    var r := Put(all, id, rec);
    PutShape(all, id, rec);
    assert forall k :: k != id ==> Get(r, k) == Get(all, k) by {
      forall k | k != id
        ensures Get(r, k) == Get(all, k)
      {
        PutOther(all, id, rec, k);
      }
    }
    (r, rec)
  }

  /** `Math.max(1, Math.min(24 * 60, Number(ttlMinutes || 60)))`: an absent or zero TTL is an
      hour; any other is clamped into one minute .. one day. */
  function Ttl(ttlMinutes: Option<int>): (t: int)
    ensures 1 <= t <= 1440
    ensures ttlMinutes.None? || ttlMinutes == Some(0) ==> t == 60
    ensures ttlMinutes.Some? && 1 <= ttlMinutes.value <= 1440 ==> t == ttlMinutes.value
    ensures ttlMinutes.Some? && ttlMinutes.value > 1440 ==> t == 1440
    ensures ttlMinutes.Some? && ttlMinutes.value < 0 ==> t == 1
  {
    var n := if ttlMinutes.None? || ttlMinutes.value == 0 then 60 else ttlMinutes.value;
    if n > 1440 then 1440 else if n < 1 then 1 else n
  }

  /** The approved record: APPROVED, with approver, approval time and expiry. */
  function Approve(rec: OverrideRecord, approvedBy: string, ttlMinutes: Option<int>, now: int): (u: OverrideRecord)
    ensures u.status == Approved && u.approvedBy == Some(approvedBy) && u.approvedAt == Some(now)
    ensures u.expiresAt == Some(now + Ttl(ttlMinutes) * 60000)
    ensures u.(status := rec.status, approvedBy := rec.approvedBy, approvedAt := rec.approvedAt, expiresAt := rec.expiresAt) == rec
  {
    rec.(status := Approved, approvedBy := Some(approvedBy), approvedAt := Some(now),
         expiresAt := Some(now + Ttl(ttlMinutes) * 60000))
  }

  /** `approveOverride({ id, approvedBy, ttlMinutes })` at time `now`: no status check, so a
      REJECTED or REVOKED record is approved again; an unknown id changes nothing. */
  function ApproveOverride(all: Store, id: string, approvedBy: string, ttlMinutes: Option<int>, now: int): (r: (Store, Option<OverrideRecord>))
    requires UniqueKeys(all)
    ensures r.1.None? <==> Get(all, id).None?
    ensures r.1.None? ==> r.0 == all
    ensures r.1.Some? ==> r.1.value == Approve(Get(all, id).value, approvedBy, ttlMinutes, now) && Get(r.0, id) == r.1
    ensures UniqueKeys(r.0) && Keys(r.0) == Keys(all)
    ensures forall k :: k != id ==> Get(r.0, k) == Get(all, k)
  {
    match Get(all, id)
    case None => (all, None)
    case Some(rec) =>
      var u := Approve(rec, approvedBy, ttlMinutes, now);
      WriteBack(all, id, u);
      (Put(all, id, u), Some(u))
  }

  /** Writing back a key that is present keeps the key set and every other entry. */
  lemma WriteBack(all: Store, id: string, u: OverrideRecord)
    requires UniqueKeys(all) && Get(all, id).Some?
    ensures UniqueKeys(Put(all, id, u)) && Keys(Put(all, id, u)) == Keys(all)
    ensures forall k :: k != id ==> Get(Put(all, id, u), k) == Get(all, k)
  {
    PutShape(all, id, u);
    forall k | k != id
      ensures Get(Put(all, id, u), k) == Get(all, k)
    {
      PutOther(all, id, u, k);
    }
    assert id in Keys(all) by {
      var i := Find(all, id).value;
      assert all[i].key == id;
    }
  }

  /** The revoked record: REVOKED and expired now, keeping an earlier approver and approval time. */
  function Revoke(rec: OverrideRecord, revoker: string, now: int): (u: OverrideRecord)
    ensures u.status == Revoked && u.expiresAt == Some(now)
    ensures u.approvedBy == (if rec.approvedBy.Some? && rec.approvedBy.value != "" then rec.approvedBy else Some(revoker))
    ensures u.approvedAt == (if rec.approvedAt.Some? then rec.approvedAt else Some(now))
    ensures u.(status := rec.status, approvedBy := rec.approvedBy, approvedAt := rec.approvedAt, expiresAt := rec.expiresAt) == rec
  {
    rec.(status := Revoked,
         approvedBy := if rec.approvedBy.Some? && rec.approvedBy.value != "" then rec.approvedBy else Some(revoker),
         approvedAt := if rec.approvedAt.Some? then rec.approvedAt else Some(now),
         expiresAt := Some(now))
  }

  /** `revokeOverride(id, revoker)` at time `now`; an unknown id changes nothing. */
  function RevokeOverride(all: Store, id: string, revoker: string, now: int): (r: (Store, Option<OverrideRecord>))
    requires UniqueKeys(all)
    ensures r.1.None? <==> Get(all, id).None?
    ensures r.1.None? ==> r.0 == all
    ensures r.1.Some? ==> r.1.value == Revoke(Get(all, id).value, revoker, now) && Get(r.0, id) == r.1
    ensures UniqueKeys(r.0) && Keys(r.0) == Keys(all)
    ensures forall k :: k != id ==> Get(r.0, k) == Get(all, k)
  {
    match Get(all, id)
    case None => (all, None)
    case Some(rec) =>
      var u := Revoke(rec, revoker, now);
      WriteBack(all, id, u);
      (Put(all, id, u), Some(u))
  }

  /** Revoking twice: still REVOKED, with the approver and approval time of the first revocation
      (an empty approver name is falsy, so it would be replaced). */
  lemma RevokeTwice(rec: OverrideRecord, revoker1: string, revoker2: string, t1: int, t2: int)
    requires revoker1 != ""
    ensures var u := Revoke(Revoke(rec, revoker1, t1), revoker2, t2);
      u.status == Revoked && u.approvedBy == Revoke(rec, revoker1, t1).approvedBy
      && u.approvedAt == Revoke(rec, revoker1, t1).approvedAt && u.expiresAt == Some(t2)
  {
  }

  function RequestedAt(r: OverrideRecord): int {
    r.requestedAt
  }

  /** `listOverrides()`: every record, newest request first. */
  function ListOverrides(all: Store): (r: seq<OverrideRecord>)
    ensures Sorting.SortedDesc(r, RequestedAt)
    ensures multiset(r) == multiset(Values(all))
  {
    Sorting.SortDesc(Values(all), RequestedAt)
  }

  /** The records that may be an agent's active override: approved, for that agent, with an
      expiry. */
  predicate Candidate(r: OverrideRecord, agentId: string) {
    r.agentId == agentId && r.status == Approved && r.expiresAt.Some?
  }

  function Candidates(rs: seq<OverrideRecord>, agentId: string): (c: seq<OverrideRecord>)
    ensures forall x :: x in c <==> x in rs && Candidate(x, agentId)
    decreases |rs|
  {
    if |rs| == 0 then []
    else (if Candidate(rs[0], agentId) then [rs[0]] else []) + Candidates(rs[1..], agentId)
  }

  function Expiry(r: OverrideRecord): int {
    if r.expiresAt.Some? then r.expiresAt.value else 0
  }

  /** `getActiveOverrideForAgent(agent_id)` at time `now`: the candidate that expires last,
      unless it has already expired. */
  function ActiveOverride(all: Store, agentId: string, now: int): (r: Option<OverrideRecord>)
    ensures r.Some? ==> r.value in Values(all) && Candidate(r.value, agentId) && now < r.value.expiresAt.value
    ensures r.Some? ==> forall x :: x in Values(all) && Candidate(x, agentId) ==> x.expiresAt.value <= r.value.expiresAt.value
    ensures r.None? <==> forall x :: x in Values(all) && Candidate(x, agentId) ==> x.expiresAt.value <= now
  {
    var recs := Sorting.SortDesc(Candidates(Values(all), agentId), Expiry);
    if |recs| == 0 then
      assert forall x :: x in Values(all) && Candidate(x, agentId) ==> x in multiset(recs);
      None
    else
      var top := recs[0];
      Sorting.SortDescHead(Candidates(Values(all), agentId), Expiry);
      if now >= top.expiresAt.value then None else Some(top)
  }

  /** Right after approval, the agent has an active override until the new expiry at least. */
  lemma ActiveAfterApprove(all: Store, id: string, approvedBy: string, ttlMinutes: Option<int>, now: int, t: int)
    requires UniqueKeys(all) && Get(all, id).Some?
    requires now <= t < now + Ttl(ttlMinutes) * 60000
    ensures var (s, u) := ApproveOverride(all, id, approvedBy, ttlMinutes, now);
      var a := ActiveOverride(s, u.value.agentId, t);
      a.Some? && a.value.expiresAt.value >= now + Ttl(ttlMinutes) * 60000
  {
    var (s, u) := ApproveOverride(all, id, approvedBy, ttlMinutes, now);
    var i := Find(s, id).value;
    assert s[i].value == u.value;
    assert Values(s)[i] == u.value;
  }

  /** A revoked record is never the active override, whatever the time. */
  lemma RevokedNeverActive(all: Store, id: string, revoker: string, now: int, agentId: string, t: int)
    requires UniqueKeys(all)
    ensures var (s, u) := RevokeOverride(all, id, revoker, now);
      var a := ActiveOverride(s, agentId, t);
      a.Some? ==> a.value.status == Approved && (u.Some? ==> a.value != u.value)
  {
  }

  /** Expiry needs no revocation: once `now` passes every candidate's expiry there is no active
      override. */
  lemma ExpiredIsInactive(all: Store, agentId: string, t1: int, t2: int)
    requires t1 <= t2
    requires ActiveOverride(all, agentId, t1).None?
    ensures ActiveOverride(all, agentId, t2).None?
  {
  }
}
