/** JSON values as the handlers see them after `JSON.parse`, with JavaScript's truthiness and
    `String(...)` conversion. Numbers are integers (NaN, infinities and fractions are not
    modelled); an object is a map from keys to values, and a JavaScript `undefined` property is a
    key that is absent from the map. */
module Json {
  import opened Base
  import Text

  datatype Json =
    | JNull
    | JBool(b: bool)
    | JNum(n: int)
    | JStr(s: string)
    | JArr(items: seq<Json>)
    | JObj(fields: map<string, Json>)

  /** A record: the fields of an object. */
  type Record = map<string, Json>

  /** An object spread `{...cur, ...patch}`: `Some(v)` sets a key, `None` sets it to `undefined`. */
  type Patch = map<string, Option<Json>>

  /** JavaScript truthiness of a possibly-undefined value. */
  predicate Truthy(v: Option<Json>) {
    match v
    case None => false
    case Some(j) =>
      match j
      case JNull => false
      case JBool(b) => b
      case JNum(n) => n != 0
      case JStr(s) => s != ""
      case _ => true
  }

  /** `v?.[k]`: a property of an object, `undefined` for anything else. */
  function Field(v: Option<Json>, k: string): Option<Json> {
    if v.Some? && v.value.JObj? && k in v.value.fields then Some(v.value.fields[k]) else None
  }

  /** `rec[k]` on a record. */
  function Get(rec: Record, k: string): Option<Json> {
    if k in rec then Some(rec[k]) else None
  }

  /** `String(v)` of a defined value. */
  function ToJsString(v: Json): string
    decreases v
  {
    match v
    case JNull => "null"
    case JBool(b) => if b then "true" else "false"
    case JNum(n) => Text.IntToString(n)
    case JStr(s) => s
    case JArr(xs) =>
      Text.Join(seq(|xs|, i requires 0 <= i < |xs| => if xs[i].JNull? then "" else ToJsString(xs[i])), ',')
    case JObj(_) => "[object Object]"
  }

  /** `String(v)`, where `String(undefined)` is "undefined". */
  function StringOf(v: Option<Json>): string {
    match v
    case None => "undefined"
    case Some(j) => ToJsString(j)
  }

  /** `String(v || "")`: the string of a truthy value, "" otherwise. */
  function StringOrEmpty(v: Option<Json>): (r: string)
    ensures !Truthy(v) ==> r == ""
  {
    if Truthy(v) then ToJsString(v.value) else ""
  }

  /** `v || fallback`. */
  function Or(v: Option<Json>, fallback: Json): Json {
    if Truthy(v) then v.value else fallback
  }

  /** `v ?? fallback`: only `undefined` and `null` fall back. */
  function Coalesce(v: Option<Json>, fallback: Json): Json {
    if v.Some? && !v.value.JNull? then v.value else fallback
  }

  /** `{...cur, ...patch}`. */
  function Merge(cur: Record, patch: Patch): (r: Record)
    ensures forall k :: k in patch && patch[k].Some? ==> k in r && r[k] == patch[k].value
    ensures forall k :: k in patch && patch[k].None? ==> k !in r
    ensures forall k :: k !in patch ==> Get(r, k) == Get(cur, k)
  {
    map k | k in (cur.Keys + patch.Keys) && (k in patch ==> patch[k].Some?)
      :: if k in patch then patch[k].value else cur[k]
  }

  /** A patch that only sets keys (no `undefined`). */
  function Sets(m: Record): (p: Patch)
    ensures p.Keys == m.Keys
  {
    map k | k in m :: Some(m[k])
  }

  /** Merging an empty patch changes nothing. */
  lemma MergeEmpty(cur: Record)
    ensures Merge(cur, map[]) == cur
  {
  }

  /** Merging is the same as applying the patches one after the other, the later winning. */
  lemma MergeTwice(cur: Record, p: Patch, q: Patch)
    ensures Merge(Merge(cur, p), q) == Merge(cur, p + q)
  {
    var lhs := Merge(Merge(cur, p), q);
    var rhs := Merge(cur, p + q);
    forall k
      ensures Get(lhs, k) == Get(rhs, k)
    {
    }
    assert forall k :: k in lhs <==> k in rhs by {
      forall k ensures k in lhs <==> k in rhs {
        assert Get(lhs, k) == Get(rhs, k);
      }
    }
  }

  /** Strict equality with a string literal. */
  predicate IsStr(v: Option<Json>, s: string) {
    v == Some(JStr(s))
  }

  /** The elements of an array value that are strings, for lists the code reads as string arrays. */
  function Strings(v: Option<Json>): Option<seq<string>> {
    if v.Some? && v.value.JArr? && forall i :: 0 <= i < |v.value.items| ==> v.value.items[i].JStr?
    then Some(seq(|v.value.items|, i requires 0 <= i < |v.value.items| => v.value.items[i].s))
    else None
  }

  /** Wraps strings as a JSON array. */
  function StrArray(xs: seq<string>): (r: Json)
    ensures r.JArr? && |r.items| == |xs|
  {
    JArr(seq(|xs|, i requires 0 <= i < |xs| => JStr(xs[i])))
  }

  /** The number a relational comparison such as `now >= v` converts `v` to, `None` for NaN.
      Strings, and the strings arrays and objects turn into, are read by `strNum`. */
  function ToNumber(v: Json, strNum: string -> Option<int>): (r: Option<int>)
    ensures v.JNum? ==> r == Some(v.n)
    ensures v.JBool? ==> r == Some(if v.b then 1 else 0)
    ensures v.JStr? ==> r == strNum(v.s)
  {
    match v
    case JNum(n) => Some(n)
    case JBool(b) => Some(if b then 1 else 0)
    case JNull => Some(0)
    case _ => strNum(ToJsString(v))
  }
}
