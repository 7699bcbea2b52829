/** The pure parts of the Redis stream worker scripts/decision_worker.ts: the stub policy that
    decides a request, and the conversion of a stream entry's flat key/value array into an
    object. The stream plumbing around them is not modelled. */
module DecisionWorker {
  import opened Base
  import opened Json

  /** A decision of the stub policy. */
  datatype Verdict = Verdict(decision: string, reason: string, policyVersion: string)

  /** `req[k]` of a stream entry. */
  function Read(req: map<string, string>, k: string): Option<string> {
    if k in req then Some(req[k]) else None
  }

  /** `decide(req)`: only a high-sensitivity write to the demo log is denied. */
  function Decide(req: map<string, string>): (v: Verdict)
    ensures v.decision == "DENY" <==>
      Read(req, "dataSensitivity") == Some("high") && Read(req, "action") == Some("write_log")
      && Read(req, "system") == Some("demo_log")
    ensures v.decision == "DENY" || v.decision == "ALLOW"
    ensures v.decision == "ALLOW" ==> v.reason == "ok"
    ensures v.policyVersion == "v1"
  {
    if Read(req, "dataSensitivity") == Some("high") && Read(req, "action") == Some("write_log")
       && Read(req, "system") == Some("demo_log")
    then Verdict("DENY", "high sensitivity write blocked", "v1")
    else Verdict("ALLOW", "ok", "v1")
  }

  /** The key of the pair that starts at index `i`: `String(kv[i])`. */
  function KeyAt(xs: seq<Json>, i: nat): string
    requires i < |xs|
  {
    ToJsString(xs[i])
  }

  /** The value of the pair that starts at index `i`: a string as it is, a missing or null value
      as "", anything else as `String(v)`. */
  function ValueAt(xs: seq<Json>, i: nat): string
    requires i < |xs|
  {
    if i + 1 >= |xs| then ""
    else match xs[i + 1]
      case JStr(s) => s
      case JNull => ""
      case v => ToJsString(v)
  }

  /** Index `i` starts a pair, and is below `n`. */
  predicate PairStart(xs: seq<Json>, i: int, n: int) {
    0 <= i < |xs| && i < n && i % 2 == 0
  }

  /** The pair at `i` is the last one below `n` with its key. */
  ghost predicate LastOfKey(xs: seq<Json>, i: int, n: int)
    requires PairStart(xs, i, n)
  {
    forall l :: i < l && PairStart(xs, l, n) ==> KeyAt(xs, l) != KeyAt(xs, i)
  }

  /** `kvArrayToObject(kv)`: the keys are the strings of the even-indexed elements, and each maps
      to the value of its last pair; anything but an array gives `{}`. */
  method KvArrayToObject(kv: Option<Json>) returns (obj: map<string, string>)
    ensures !(kv.Some? && kv.value.JArr?) ==> obj == map[]
    ensures kv.Some? && kv.value.JArr? ==>
      var xs := kv.value.items;
      (forall k :: k in obj <==> exists i :: PairStart(xs, i, |xs|) && KeyAt(xs, i) == k)
      && (forall i :: PairStart(xs, i, |xs|) && LastOfKey(xs, i, |xs|) ==> obj[KeyAt(xs, i)] == ValueAt(xs, i))
  {
    obj := map[];
    if !(kv.Some? && kv.value.JArr?) {
      return;
    }
    var xs := kv.value.items;
    var i := 0;
    while i < |xs|
      invariant 0 <= i <= |xs| + 1 && i % 2 == 0
      invariant forall k :: k in obj <==> exists j :: PairStart(xs, j, i) && KeyAt(xs, j) == k
      invariant forall j :: PairStart(xs, j, i) && LastOfKey(xs, j, i) ==> KeyAt(xs, j) in obj && obj[KeyAt(xs, j)] == ValueAt(xs, j)
      decreases |xs| - i
    {
      var k := ToJsString(xs[i]);
      var v := if i + 1 < |xs| then xs[i + 1] else JNull;
      var s := match v case JStr(t) => t case JNull => "" case _ => ToJsString(v);
      assert s == ValueAt(xs, i);
      obj := obj[k := s];
      assert PairStart(xs, i, i + 2);
      forall j | PairStart(xs, j, i + 2) && LastOfKey(xs, j, i + 2)
        ensures KeyAt(xs, j) in obj && obj[KeyAt(xs, j)] == ValueAt(xs, j)
      {
        if j != i {
          assert PairStart(xs, j, i) && LastOfKey(xs, j, i);
        }
      }
      i := i + 2;
    }
    assert forall j :: PairStart(xs, j, i) == PairStart(xs, j, |xs|);
  }
}
