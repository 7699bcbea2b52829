/** The two cached pack loaders: `loadAuraPolicy` of lib/policy/loadPolicy.ts, which validates
    the pack, and `loadAuraPolicy` / `policyVersionTag` of lib/aura/policyLoader.ts, which
    normalises it. The module-level cache is an explicit state; the file is an input. */
module LoadPolicy {
  import opened Base
  import opened Json
  import opened PolicyPack

  /** A stand-in for the message of the `SyntaxError` that `JSON.parse` throws on text that is not
      JSON; the real text depends on the input and on the JavaScript engine. */
  const ParseError := "SyntaxError: invalid JSON"

  /** A stand-in for the message of the error `fs.readFileSync` throws for a missing file; the
      real text also names the path. */
  const ReadError := "ENOENT: no such file or directory"

  /** What reading and parsing the pack file yields. */
  datatype PackFile = Missing | Unparseable | Present(pack: Pack)

  /** The checks `loadAuraPolicy` makes before caching, in order; `None` when they all pass. */
  function ValidationError(p: Pack): (r: Option<string>)
    ensures r.None? <==> ((p.version.Some? && p.version.value != "")
                      && (p.tiers.Some? && |p.tiers.value| > 0)
                      && RulesOf(p) != [])
    ensures (p.version.None? || p.version.value == "") ==> r == Some("Policy missing: version")
  {
    if p.version.None? || p.version.value == "" then Some("Policy missing: version")
    else if p.tiers.None? || |p.tiers.value| == 0 then Some("Policy missing: tiers[]")
    else if RulesOf(p) == [] then Some("Policy missing: tiering.rules[]")
    else None
  }

  predicate Valid(p: Pack) {
    ValidationError(p).None?
  }

  /** The loader's state after a call, and what the call returned or threw. */
  datatype Loaded = Loaded(cache: Option<Pack>, result: Result<Pack>)

  /** `loadAuraPolicy()` of lib/policy/loadPolicy.ts, with the file at `path`. */
  function Load(cache: Option<Pack>, file: PackFile, path: string): (l: Loaded)
    ensures cache.Some? ==> l == Loaded(cache, Ok(cache.value))
    ensures cache.None? && file.Missing? ==>
      l.cache.None? && l.result == Err("AURA policy pack not found at " + path + ". Did you commit it or mount it in the container?")
    ensures l.result.Ok? && cache.None? ==> file.Present? && l.result.value == file.pack && Valid(file.pack)
    ensures cache.None? && file.Present? && Valid(file.pack) ==> l == Loaded(Some(file.pack), Ok(file.pack))
    ensures cache.None? && file.Present? && !Valid(file.pack) ==> l == Loaded(None, Err(ValidationError(file.pack).value))
    ensures l.result.Err? ==> l.cache == cache
  {
    if cache.Some? then Loaded(cache, Ok(cache.value))
    else
      match file
      case Missing => Loaded(None, Err("AURA policy pack not found at " + path + ". Did you commit it or mount it in the container?"))
      case Unparseable => Loaded(None, Err(ParseError))
      case Present(p) =>
        match ValidationError(p)
        case Some(e) => Loaded(None, Err(e))
        case None => Loaded(Some(p), Ok(p))
  }

  /** Once a pack has been loaded, every later load returns that same pack, whatever the file
      holds by then. */
  lemma {:induction false} LoadCached(cache: Option<Pack>, f1: PackFile, files: seq<PackFile>, path: string)
    requires Load(cache, f1, path).result.Ok?
    ensures LoadAll(Load(cache, f1, path).cache, files, path) == Load(cache, f1, path).cache
    ensures forall i :: 0 <= i < |files| ==>
      Load(LoadAll(Load(cache, f1, path).cache, files[..i], path), files[i], path).result == Load(cache, f1, path).result
    decreases |files|
  {
    var c := Load(cache, f1, path).cache;
    assert c.Some? && Load(cache, f1, path).result == Ok(c.value);
    LoadAllCached(c, files, path);
  }

  /** The cache after a sequence of loads. */
  function LoadAll(cache: Option<Pack>, files: seq<PackFile>, path: string): Option<Pack>
    decreases |files|
  {
    if |files| == 0 then cache
    else LoadAll(Load(cache, files[0], path).cache, files[1..], path)
  }

  lemma {:induction false} LoadAllCached(c: Option<Pack>, files: seq<PackFile>, path: string)
    requires c.Some?
    ensures LoadAll(c, files, path) == c
    ensures forall i :: 0 <= i <= |files| ==> LoadAll(c, files[..i], path) == c
    decreases |files|
  {
    if |files| > 0 {
      LoadAllCached(c, files[1..], path);
      forall i | 1 <= i <= |files|
        ensures LoadAll(c, files[..i], path) == c
      {
        assert files[..i][1..] == files[1..][..i - 1];
      }
      assert LoadAll(c, files[..0], path) == c;
    } else {
      assert LoadAll(c, files[..0], path) == c;
    }
  }

  // ---- lib/aura/policyLoader.ts ----

  /** The normalised pack: `tierOrder` is always present. */
  datatype Normalized = Normalized(
    version: Option<string>,
    generatedAt: Option<string>,
    tierOrder: seq<string>,
    tiering: Option<Tiering>,
    tiers: Option<seq<TierDef>>,
    mappings: Option<Json>)

  /** `json.tiering?.tierOrder || json.tierOrder || TIER_ORDER`; an array, even an empty one, is
      truthy and so is kept. */
  function TierOrderOf(p: Pack): (r: seq<string>)
    ensures p.tiering.Some? && p.tiering.value.tierOrder.Some? ==> r == p.tiering.value.tierOrder.value
    ensures !(p.tiering.Some? && p.tiering.value.tierOrder.Some?) && p.tierOrder.Some? ==> r == p.tierOrder.value
    ensures !(p.tiering.Some? && p.tiering.value.tierOrder.Some?) && p.tierOrder.None? ==> r == TierOrder
  {
    if p.tiering.Some? && p.tiering.value.tierOrder.Some? then p.tiering.value.tierOrder.value
    else if p.tierOrder.Some? then p.tierOrder.value
    else TierOrder
  }

  function Normalize(p: Pack): (n: Normalized)
    ensures n.version == p.version && n.generatedAt == p.generatedAt
    ensures n.tiering == p.tiering && n.tiers == p.tiers && n.mappings == p.mappings
    ensures n.tierOrder == TierOrderOf(p)
  {
    Normalized(p.version, p.generatedAt, TierOrderOf(p), p.tiering, p.tiers, p.mappings)
  }

  datatype NormalizedLoad = NormalizedLoad(cache: Option<Normalized>, result: Result<Normalized>)

  /** `loadAuraPolicy()` of lib/aura/policyLoader.ts: no validation; a missing or unparseable file
      throws. */
  function LoadNormalized(cache: Option<Normalized>, file: PackFile): (l: NormalizedLoad)
    ensures cache.Some? ==> l == NormalizedLoad(cache, Ok(cache.value))
    ensures cache.None? && file.Present? ==> l == NormalizedLoad(Some(Normalize(file.pack)), Ok(Normalize(file.pack)))
    ensures cache.None? && !file.Present? ==> l.cache.None? && l.result.Err?
  {
    if cache.Some? then NormalizedLoad(cache, Ok(cache.value))
    else
      match file
      case Missing => NormalizedLoad(None, Err(ReadError))
      case Unparseable => NormalizedLoad(None, Err(ParseError))
      case Present(p) =>
        var n := Normalize(p);
        NormalizedLoad(Some(n), Ok(n))
  }

  datatype VersionTag = VersionTag(version: Option<string>, generatedAt: Option<string>)

  /** `policyVersionTag()`: the version and date of the pack the loader returns. */
  function PolicyVersionTag(cache: Option<Normalized>, file: PackFile): (r: (Option<Normalized>, Result<VersionTag>))
    ensures r.0 == LoadNormalized(cache, file).cache
    ensures cache.Some? ==> r.1 == Ok(VersionTag(cache.value.version, cache.value.generatedAt))
    ensures cache.None? && file.Present? ==> r.1 == Ok(VersionTag(file.pack.version, file.pack.generatedAt))
    ensures r.1.Err? <==> LoadNormalized(cache, file).result.Err?
  {
    var l := LoadNormalized(cache, file);
    match l.result
    case Err(e) => (l.cache, Err(e))
    case Ok(n) => (l.cache, Ok(VersionTag(n.version, n.generatedAt)))
  }
}
