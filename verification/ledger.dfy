/** The append-only hash-chained ledger of lib/audit/ledger.ts. Each event records the hash of
    the event before it ("GENESIS" for the first) and its own hash, the SHA-256 (FIPS 180-4) of
    the JSON of its other four fields. That composition of digest and serialisation is the
    parameter `digest` here; the file is a sequence of lines, each either a parsed event or a
    line that does not parse as one. */
module Ledger {
  import opened Base
  import opened Json
  import Text
  import Redaction

  const Genesis := "GENESIS"

  datatype Event = Event(ts: int, kind: string, payload: Json, prevHash: string, hash: string)

  datatype Line = Parsed(e: Event) | Garbled

  /** The ledger file: absent, or its lines in order. */
  datatype LedgerFile = Absent | Lines(lines: seq<Line>)

  /** The collaborators: `sha(JSON.stringify({ts, type, payload, prev_hash}))` and the string
      redactor of `Redaction`. */
  datatype Env = Env(digest: (int, string, Json, string) -> string, redactString: string -> string)

  /** A SHA-256 hex digest is never empty. */
  ghost predicate DigestNonEmpty(env: Env) {
    forall ts, k, p, prev :: env.digest(ts, k, p, prev) != ""
  }

  /** Distinct event contents have distinct digests (collision resistance, as an assumption). */
  ghost predicate DigestInjective(env: Env) {
    forall ts1, k1, p1, prev1, ts2, k2, p2, prev2 ::
      env.digest(ts1, k1, p1, prev1) == env.digest(ts2, k2, p2, prev2) ==>
        ts1 == ts2 && k1 == k2 && p1 == p2 && prev1 == prev2
  }

  function LinesOf(f: LedgerFile): seq<Line> {
    if f.Absent? then [] else f.lines
  }

  /** `readLastHash()`: the hash of the last line; "GENESIS" when the file is absent or empty,
      when the last line does not parse, or when its hash is empty. */
  function ReadLastHash(f: LedgerFile): (h: string)
    ensures h == Genesis || (|LinesOf(f)| > 0 && LinesOf(f)[|LinesOf(f)| - 1].Parsed?
                             && h == LinesOf(f)[|LinesOf(f)| - 1].e.hash)
    ensures |LinesOf(f)| > 0 && LinesOf(f)[|LinesOf(f)| - 1].Parsed? && LinesOf(f)[|LinesOf(f)| - 1].e.hash != "" ==>
      h == LinesOf(f)[|LinesOf(f)| - 1].e.hash
    ensures |LinesOf(f)| == 0 || LinesOf(f)[|LinesOf(f)| - 1].Garbled? ==> h == Genesis
  {
    match f
    case Absent => Genesis
    case Lines(ls) =>
      if |ls| == 0 then Genesis
      else
        match ls[|ls| - 1]
        case Garbled => Genesis
        case Parsed(e) => if e.hash != "" then e.hash else Genesis
  }

  /** The event `appendLedgerEvent(type, rawPayload)` writes at time `ts`. */
  function NewEvent(env: Env, f: LedgerFile, ts: int, kind: string, raw: Json): (e: Event)
    ensures e.ts == ts && e.kind == kind
    ensures e.payload == Redaction.RedactForAudit(env.redactString, raw)
    ensures e.prevHash == ReadLastHash(f)
    ensures e.hash == env.digest(ts, kind, e.payload, e.prevHash)
  {
    var safe := Redaction.RedactForAudit(env.redactString, raw);
    var prev := ReadLastHash(f);
    Event(ts, kind, safe, prev, env.digest(ts, kind, safe, prev))
  }

  /** `appendLedgerEvent`: the file with one more line at its end. The earlier lines stay as they
      were; the new one is the event at `ts` of that type, carrying the redacted payload, linked to
      the hash the file ended with, and hashed over those four. */
  function Append(env: Env, f: LedgerFile, ts: int, kind: string, raw: Json): (g: LedgerFile)
    ensures g.Lines? && |g.lines| == |LinesOf(f)| + 1 && LinesOf(f) <= g.lines
    ensures var last := g.lines[|g.lines| - 1];
      && last.Parsed?
      && last.e.ts == ts && last.e.kind == kind
      && last.e.payload == Redaction.RedactForAudit(env.redactString, raw)
      && last.e.prevHash == ReadLastHash(f)
      && last.e.hash == env.digest(ts, kind, last.e.payload, last.e.prevHash)
  {
    Lines(LinesOf(f) + [Parsed(NewEvent(env, f, ts, kind, raw))])
  }

  /** Every line is an event whose hash is the digest of its contents, and whose previous hash is
      the hash of the line before it, or "GENESIS" for the first line. */
  predicate ValidChain(env: Env, ls: seq<Line>) {
    && (forall i :: 0 <= i < |ls| ==> ls[i].Parsed?)
    && (forall i :: 0 <= i < |ls| ==>
          ls[i].e.hash == env.digest(ls[i].e.ts, ls[i].e.kind, ls[i].e.payload, ls[i].e.prevHash))
    && (|ls| > 0 ==> ls[0].e.prevHash == Genesis)
    && (forall i :: 0 < i < |ls| ==> ls[i].e.prevHash == ls[i - 1].e.hash)
  }

  /** Appending keeps the chain valid and leaves every earlier line unchanged. */
  lemma AppendKeepsChain(env: Env, f: LedgerFile, ts: int, kind: string, raw: Json)
    requires DigestNonEmpty(env)
    requires ValidChain(env, LinesOf(f))
    ensures ValidChain(env, LinesOf(Append(env, f, ts, kind, raw)))
    ensures LinesOf(Append(env, f, ts, kind, raw))[..|LinesOf(f)|] == LinesOf(f)
  {
    var ls := LinesOf(f);
    var e := NewEvent(env, f, ts, kind, raw);
    var g := LinesOf(Append(env, f, ts, kind, raw));
    assert g == ls + [Parsed(e)];
    if |ls| > 0 {
      var last := ls[|ls| - 1].e;
      assert last.hash == env.digest(last.ts, last.kind, last.payload, last.prevHash);
      assert last.hash != "";
      assert e.prevHash == last.hash;
    }
  }

  /** One append per element of `events`, in order, each at its own time. */
  function AppendAll(env: Env, f: LedgerFile, events: seq<(int, string, Json)>): (g: LedgerFile)
    decreases |events|
  {
    if |events| == 0 then f
    else AppendAll(env, Append(env, f, events[0].0, events[0].1, events[0].2), events[1..])
  }

  /** A ledger built only by appends from no file is a valid chain, one line per append. */
  lemma {:induction false} AppendAllChain(env: Env, f: LedgerFile, events: seq<(int, string, Json)>)
    requires DigestNonEmpty(env)
    requires ValidChain(env, LinesOf(f))
    ensures ValidChain(env, LinesOf(AppendAll(env, f, events)))
    ensures |LinesOf(AppendAll(env, f, events))| == |LinesOf(f)| + |events|
    ensures LinesOf(AppendAll(env, f, events))[..|LinesOf(f)|] == LinesOf(f)
    decreases |events|
  {
    if |events| > 0 {
      var f1 := Append(env, f, events[0].0, events[0].1, events[0].2);
      AppendKeepsChain(env, f, events[0].0, events[0].1, events[0].2);
      AppendAllChain(env, f1, events[1..]);
      assert LinesOf(AppendAll(env, f1, events[1..]))[..|LinesOf(f1)|] == LinesOf(f1);
      assert LinesOf(f1)[..|LinesOf(f)|] == LinesOf(f);
    }
  }

  /** With a collision-free digest, the last hash commits to the whole history: two valid chains
      of the same length with the same last hash are the same chain. */
  lemma {:induction false} HeadDeterminesChain(env: Env, a: seq<Line>, b: seq<Line>)
    requires DigestInjective(env)
    requires ValidChain(env, a) && ValidChain(env, b)
    requires |a| == |b| > 0
    requires a[|a| - 1].e.hash == b[|b| - 1].e.hash
    ensures a == b
    decreases |a|
  {
    var n := |a|;
    var x := a[n - 1].e;
    var y := b[n - 1].e;
    assert env.digest(x.ts, x.kind, x.payload, x.prevHash) == env.digest(y.ts, y.kind, y.payload, y.prevHash);
    assert x == y;
    if n > 1 {
      assert ValidChain(env, a[..n - 1]);
      assert ValidChain(env, b[..n - 1]);
      HeadDeterminesChain(env, a[..n - 1], b[..n - 1]);
      assert a == a[..n - 1] + [a[n - 1]];
      assert b == b[..n - 1] + [b[n - 1]];
    } else {
      assert a == [a[0]];
      assert b == [b[0]];
    }
  }

  /** `v?.[p]` for each part of the dotted path in turn. */
  function Path(v: Option<Json>, parts: seq<string>): Option<Json>
    decreases |parts|
  {
    if |parts| == 0 then v else Path(Field(v, parts[0]), parts[1..])
  }

  /** The event test of the backward scan: same type and `String(field) === equals`. */
  predicate MatchesState(e: Event, kind: string, parts: seq<string>, equals: string) {
    e.kind == kind && StringOf(Path(Some(e.payload), parts)) == equals
  }

  /** The scan from the last line backwards: the payload of the first match, `None` when no line
      matches, and an error when a line that does not parse is reached first. */
  function ScanBack(ls: seq<Line>, kind: string, parts: seq<string>, equals: string): (r: Result<Option<Json>>)
    ensures r.Ok? && r.value.Some? <==> exists i :: 0 <= i < |ls| && FoundAt(ls, kind, parts, equals, i)
    ensures forall i :: 0 <= i < |ls| && FoundAt(ls, kind, parts, equals, i) ==> r == Ok(Some(ls[i].e.payload))
    ensures r == Ok(None) <==> forall i :: 0 <= i < |ls| ==> ls[i].Parsed? && !MatchesState(ls[i].e, kind, parts, equals)
    ensures r.Err? <==> exists i :: 0 <= i < |ls| && ls[i].Garbled? && Passed(ls, kind, parts, equals, i)
    decreases |ls|
  {
    if |ls| == 0 then Ok(None)
    else
      var n := |ls| - 1;
      ScanBackStep(ls, kind, parts, equals);
      match ls[n]
      case Garbled => Err("SyntaxError: Unexpected token in JSON") // the message stands in for the engine's
      case Parsed(e) =>
        if MatchesState(e, kind, parts, equals) then
          assert FoundAt(ls, kind, parts, equals, n);
          Ok(Some(e.payload))
        else ScanBack(ls[..n], kind, parts, equals)
  }

  /** Every line after `i` is an event that does not match. */
  predicate Passed(ls: seq<Line>, kind: string, parts: seq<string>, equals: string, i: int)
    requires 0 <= i < |ls|
  {
    forall j :: i < j < |ls| ==> ls[j].Parsed? && !MatchesState(ls[j].e, kind, parts, equals)
  }

  /** Line `i` is the last matching event, and the scan reaches it. */
  predicate FoundAt(ls: seq<Line>, kind: string, parts: seq<string>, equals: string, i: int)
    requires 0 <= i < |ls|
  {
    ls[i].Parsed? && MatchesState(ls[i].e, kind, parts, equals) && Passed(ls, kind, parts, equals, i)
  }

  /** How the predicates of a list relate to those of the list without its last line. */
  lemma ScanBackStep(ls: seq<Line>, kind: string, parts: seq<string>, equals: string)
    requires |ls| > 0
    ensures var n := |ls| - 1;
      && (forall i :: 0 <= i < n ==> ls[..n][i] == ls[i])
      && (ls[n].Parsed? && !MatchesState(ls[n].e, kind, parts, equals) ==>
            forall i :: 0 <= i < n ==> (Passed(ls, kind, parts, equals, i) <==> Passed(ls[..n], kind, parts, equals, i)))
      && (ls[n].Parsed? && !MatchesState(ls[n].e, kind, parts, equals) ==>
            forall i :: 0 <= i < n ==> (FoundAt(ls, kind, parts, equals, i) <==> FoundAt(ls[..n], kind, parts, equals, i)))
      && (!(ls[n].Parsed? && !MatchesState(ls[n].e, kind, parts, equals)) ==>
            forall i :: 0 <= i < n ==> !Passed(ls, kind, parts, equals, i))
  {
  }

  /** `getLatestStateByType(type, dottedKey, equals)`: an absent file gives `null`; an existing but
      empty file throws (its only line, "", does not parse). */
  function GetLatestStateByType(f: LedgerFile, kind: string, dottedKey: string, equals: string): (r: Result<Option<Json>>)
    ensures f.Absent? ==> r == Ok(None)
    ensures f == Lines([]) ==> r.Err?
    ensures f.Lines? && |f.lines| > 0 ==> r == ScanBack(f.lines, kind, Text.Split(dottedKey, '.'), equals)
  {
    match f
    case Absent => Ok(None)
    case Lines(ls) =>
      if |ls| == 0 then Err("SyntaxError: Unexpected end of JSON input") // as `JSON.parse("")` reports in V8
      else ScanBack(ls, kind, Text.Split(dottedKey, '.'), equals)
  }

  /** A scan over events only never fails. */
  lemma ScanBackParsed(ls: seq<Line>, kind: string, parts: seq<string>, equals: string)
    requires forall i :: 0 <= i < |ls| ==> ls[i].Parsed?
    ensures ScanBack(ls, kind, parts, equals).Ok?
  {
  }

  /** After an append whose redacted payload matches, the latest state is that payload. */
  lemma LatestAfterMatchingAppend(env: Env, f: LedgerFile, ts: int, kind: string, raw: Json, dottedKey: string, equals: string)
    requires MatchesState(NewEvent(env, f, ts, kind, raw), kind, Text.Split(dottedKey, '.'), equals)
    ensures GetLatestStateByType(Append(env, f, ts, kind, raw), kind, dottedKey, equals)
      == Ok(Some(Redaction.RedactForAudit(env.redactString, raw)))
  {
    var ls := LinesOf(Append(env, f, ts, kind, raw));
    assert FoundAt(ls, kind, Text.Split(dottedKey, '.'), equals, |ls| - 1);
  }

  /** An append that does not match leaves the scan where it was: the result is that of the
      earlier lines (so an earlier empty file no longer throws). */
  lemma LatestAfterOtherAppend(env: Env, f: LedgerFile, ts: int, kind: string, raw: Json,
                               k2: string, dottedKey: string, equals: string)
    requires !MatchesState(NewEvent(env, f, ts, kind, raw), k2, Text.Split(dottedKey, '.'), equals)
    ensures GetLatestStateByType(Append(env, f, ts, kind, raw), k2, dottedKey, equals)
      == ScanBack(LinesOf(f), k2, Text.Split(dottedKey, '.'), equals)
  {
    var ls := LinesOf(Append(env, f, ts, kind, raw));
    assert ls[..|ls| - 1] == LinesOf(f);
  }
}
