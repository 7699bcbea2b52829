/** The retrieval half of pages/api/spec-chat.ts: the policy text is cleaned and cut into
    overlapping chunks, question and chunks are tokenised, each chunk is scored by the question
    tokens it contains, and the best-scoring chunks are the excerpts of the answer. The policy
    file and the language-model call are inputs. */
module SpecChat {
  import opened Base
  import opened Json
  import Text
  import Sorting
  import opened Api

  // ---------------------------------------------------------------- newline runs

  /** No three consecutive newlines. */
  predicate NoTriple(s: string) {
    forall i :: 0 <= i < |s| - 2 ==> !(s[i] == '\n' && s[i + 1] == '\n' && s[i + 2] == '\n')
  }

  /** The length of the run of newlines at the front of `s`. */
  function NewlineRun(s: string): (n: nat)
    ensures n <= |s|
    ensures forall j :: 0 <= j < n ==> s[j] == '\n'
    ensures n < |s| ==> s[n] != '\n'
    decreases |s|
  {
    if |s| == 0 || s[0] != '\n' then 0 else 1 + NewlineRun(s[1..])
  }

  /** A character other than a newline in front keeps a string free of newline triples. */
  lemma NoTripleCons(c: char, s: string)
    requires c != '\n' && NoTriple(s)
    ensures NoTriple([c] + s)
  {
    var r := [c] + s;
    forall i | 0 <= i < |r| - 2
      ensures !(r[i] == '\n' && r[i + 1] == '\n' && r[i + 2] == '\n')
    {
      if i > 0 {
        assert r[i] == s[i - 1] && r[i + 1] == s[i] && r[i + 2] == s[i + 1];
      }
    }
  }

  /** One or two newlines in front of a string that does not start with one make no triple. */
  lemma NoTripleAfterRun(p: string, s: string)
    requires 1 <= |p| <= 2 && forall j :: 0 <= j < |p| ==> p[j] == '\n'
    requires NoTriple(s) && (|s| > 0 ==> s[0] != '\n')
    ensures NoTriple(p + s)
  {
    var r := p + s;
    forall i | 0 <= i < |r| - 2
      ensures !(r[i] == '\n' && r[i + 1] == '\n' && r[i + 2] == '\n')
    {
      if i >= |p| {
        assert r[i] == s[i - |p|] && r[i + 1] == s[i - |p| + 1] && r[i + 2] == s[i - |p| + 2];
      } else {
        assert r[|p|] == s[0];
      }
    }
  }

  /** `text.replace(/\n{3,}/g, "\n\n")`: every run of three or more newlines becomes two. */
  function Collapse(s: string): (r: string)
    ensures |r| <= |s|
    ensures NoTriple(r)
    ensures |r| > 0 <==> |s| > 0
    ensures |s| > 0 ==> (r[0] == '\n' <==> s[0] == '\n')
    decreases |s|
  {
    if |s| == 0 then ""
    else if s[0] != '\n' then
      var rest := Collapse(s[1..]);
      NoTripleCons(s[0], rest);
      [s[0]] + rest
    else
      var n := NewlineRun(s);
      var p := if n >= 3 then "\n\n" else s[..n];
      var rest := Collapse(s[n..]);
      NoTripleAfterRun(p, rest);
      p + rest
  }

  /** Text without a newline triple is left as it is, so collapsing twice is collapsing once. */
  lemma {:induction false} CollapseKeeps(s: string)
    requires NoTriple(s)
    ensures Collapse(s) == s
    decreases |s|
  {
    if |s| > 0 {
      if s[0] != '\n' {
        assert NoTriple(s[1..]) by {
          forall i | 0 <= i < |s[1..]| - 2
            ensures !(s[1..][i] == '\n' && s[1..][i + 1] == '\n' && s[1..][i + 2] == '\n')
          {
            assert s[1..][i] == s[i + 1];
          }
        }
        CollapseKeeps(s[1..]);
        assert s == [s[0]] + s[1..];
      } else {
        var n := NewlineRun(s);
        assert |s| < 3 || !(s[0] == '\n' && s[1] == '\n' && s[2] == '\n');
        assert n < 3;
        assert NoTriple(s[n..]) by {
          forall i | 0 <= i < |s[n..]| - 2
            ensures !(s[n..][i] == '\n' && s[n..][i + 1] == '\n' && s[n..][i + 2] == '\n')
          {
            assert s[n..][i] == s[i + n];
          }
        }
        CollapseKeeps(s[n..]);
        assert s == s[..n] + s[n..];
      }
    }
  }

  /** Collapsing is idempotent. */
  lemma CollapseIdempotent(s: string)
    ensures Collapse(Collapse(s)) == Collapse(s)
  {
    CollapseKeeps(Collapse(s));
  }

  // ---------------------------------------------------------------- chunking

  function Min(a: int, b: int): int {
    if a <= b then a else b
  }

  /** The positions `[start, end)` of one chunk in the cleaned text. */
  datatype Span = Span(start: nat, end: nat)

  /** The spans that `chunkText`'s loop cuts from a text of length `n`, from position `i` on,
      for a chunk size above the overlap; their shape is stated by the lemmas below. */
  function Spans(n: nat, i: nat, size: nat, overlap: nat): (r: seq<Span>)
    requires overlap < size && i <= n
    ensures |r| == 0 <==> i == n
    ensures |r| > 0 ==> r[0] == Span(i, Min(n, i + size))
    decreases n - i
  {
    if i == n then []
    else
      var end := Min(n, i + size);
      if end == n then [Span(i, end)]
      else
        var next := if end - overlap < 0 then 0 else end - overlap;
        [Span(i, end)] + Spans(n, next, size, overlap)
  }

  /** A span that stops short of the end is followed by the spans from `overlap` before its
      end. */
  lemma SpansRest(n: nat, i: nat, size: nat, overlap: nat)
    requires overlap < size && i < n && i + size < n
    ensures Spans(n, i, size, overlap) == [Span(i, i + size)] + Spans(n, i + size - overlap, size, overlap)
  {
  }

  /** The last span ends at the end of the text. */
  lemma {:induction false} SpansLast(n: nat, i: nat, size: nat, overlap: nat)
    requires overlap < size && i < n
    ensures Spans(n, i, size, overlap)[|Spans(n, i, size, overlap)| - 1].end == n
    decreases n - i
  {
    if i + size < n {
      SpansRest(n, i, size, overlap);
      SpansLast(n, i + size - overlap, size, overlap);
    }
  }

  /** Span `k` is at most `size` long, and exactly `size` long when another follows it, which
      starts `overlap` before its end. */
  lemma {:induction false} SpansStep(n: nat, i: nat, size: nat, overlap: nat, k: nat)
    requires overlap < size && i <= n && k < |Spans(n, i, size, overlap)|
    ensures i <= Spans(n, i, size, overlap)[k].start < Spans(n, i, size, overlap)[k].end <= n
    ensures Spans(n, i, size, overlap)[k].end - Spans(n, i, size, overlap)[k].start <= size
    ensures k + 1 < |Spans(n, i, size, overlap)| ==>
      Spans(n, i, size, overlap)[k].end - Spans(n, i, size, overlap)[k].start == size
      && Spans(n, i, size, overlap)[k + 1].start == Spans(n, i, size, overlap)[k].end - overlap
    decreases k
  {
    if i + size < n {
      SpansRest(n, i, size, overlap);
      if k > 0 {
        SpansStep(n, i + size - overlap, size, overlap, k - 1);
      }
    }
  }

  /** The spans cover the text: every position from `i` on lies in one of them. */
  lemma {:induction false} SpansCover(n: nat, i: nat, size: nat, overlap: nat, p: int)
    requires overlap < size && i <= p < n
    ensures exists k :: 0 <= k < |Spans(n, i, size, overlap)| && Spans(n, i, size, overlap)[k].start <= p < Spans(n, i, size, overlap)[k].end
    decreases n - i
  {
    var r := Spans(n, i, size, overlap);
    if p < i + size {
      assert r[0].start <= p < r[0].end;
    } else {
      var rest := Spans(n, i + size - overlap, size, overlap);
      SpansRest(n, i, size, overlap);
      SpansCover(n, i + size - overlap, size, overlap, p);
      var k :| 0 <= k < |rest| && rest[k].start <= p < rest[k].end;
      assert r[k + 1] == rest[k];
    }
  }

  /** The pieces of `clean` the spans mark out. */
  function Cut(clean: string, sp: seq<Span>): (r: seq<string>)
    requires forall k :: 0 <= k < |sp| ==> sp[k].start <= sp[k].end <= |clean|
    ensures |r| == |sp|
    ensures forall k :: 0 <= k < |r| ==> r[k] == clean[sp[k].start..sp[k].end]
  {
    seq(|sp|, k requires 0 <= k < |sp| => clean[sp[k].start..sp[k].end])
  }

  /** `chunkText(text, chunkSize, overlap)`: the text with newline runs collapsed, cut along
      its spans. */
  function ChunkText(text: string, size: nat, overlap: nat): (r: seq<string>)
    requires overlap < size
    ensures |r| == |Spans(|Collapse(text)|, 0, size, overlap)|
    ensures |r| == 0 <==> |text| == 0
    ensures forall k :: 0 <= k < |r| ==> 0 < |r[k]| <= size
  {
    var clean := Collapse(text);
    var sp := Spans(|clean|, 0, size, overlap);
    forall k | 0 <= k < |sp|
      ensures sp[k].start < sp[k].end <= |clean| && sp[k].end - sp[k].start <= size
    {
      SpansStep(|clean|, 0, size, overlap, k);
    }
    Cut(clean, sp)
  }

  /** Chunk `k` is the cleaned text along span `k`. */
  lemma ChunkAlongSpan(text: string, size: nat, overlap: nat, k: nat)
    requires overlap < size && k < |ChunkText(text, size, overlap)|
    ensures var clean := Collapse(text);
      var sp := Spans(|clean|, 0, size, overlap);
      sp[k].start < sp[k].end <= |clean| && ChunkText(text, size, overlap)[k] == clean[sp[k].start..sp[k].end]
  {
    SpansStep(|Collapse(text)|, 0, size, overlap, k);
  }

  // ---------------------------------------------------------------- tokens

  predicate IsTokenChar(c: char) {
    'a' <= c <= 'z' || '0' <= c <= '9'
  }

  /** `.replace(/[^a-z0-9\s]/g, " ")`. */
  function Scrub(s: string): (r: string)
    ensures |r| == |s|
    ensures forall i :: 0 <= i < |r| ==> IsTokenChar(r[i]) || Text.IsSpace(r[i])
  {
    seq(|s|, i requires 0 <= i < |s| => if IsTokenChar(s[i]) || Text.IsSpace(s[i]) then s[i] else ' ')
  }

  /** The length of the run of non-space characters at the front of `s`. */
  function WordLen(s: string): (n: nat)
    ensures n <= |s|
    ensures forall j :: 0 <= j < n ==> !Text.IsSpace(s[j])
    ensures n < |s| ==> Text.IsSpace(s[n])
    decreases |s|
  {
    if |s| == 0 || Text.IsSpace(s[0]) then 0 else 1 + WordLen(s[1..])
  }

  /** `.split(/\s+/).filter(Boolean)`: the maximal runs of non-space characters, in order. */
  function Words(s: string): (r: seq<string>)
    ensures forall k :: 0 <= k < |r| ==> |r[k]| > 0
    ensures forall k, j :: 0 <= k < |r| && 0 <= j < |r[k]| ==> !Text.IsSpace(r[k][j]) && r[k][j] in s
    decreases |s|
  {
    if |s| == 0 then []
    else if Text.IsSpace(s[0]) then Words(s[1..])
    else
      var n := WordLen(s);
      var rest := Words(s[n..]);
      assert forall k, j :: 0 <= k < |rest| && 0 <= j < |rest[k]| ==> rest[k][j] in s by {
        forall k, j | 0 <= k < |rest| && 0 <= j < |rest[k]|
          ensures rest[k][j] in s
        {
          var m :| 0 <= m < |s[n..]| && s[n..][m] == rest[k][j];
          assert s[m + n] == rest[k][j];
        }
      }
      [s[..n]] + rest
  }

  /** `tokenize(s)`. */
  function Tokenize(s: string): (r: seq<string>)
    ensures forall k :: 0 <= k < |r| ==> |r[k]| > 0
    ensures forall k, j :: 0 <= k < |r| && 0 <= j < |r[k]| ==> IsTokenChar(r[k][j])
  {
    var clean := Scrub(Text.Lower(s));
    var r := Words(clean);
    assert forall k, j :: 0 <= k < |r| && 0 <= j < |r[k]| ==> IsTokenChar(r[k][j]) by {
      forall k, j | 0 <= k < |r| && 0 <= j < |r[k]|
        ensures IsTokenChar(r[k][j])
      {
        var m :| 0 <= m < |clean| && clean[m] == r[k][j];
      }
    }
    r
  }

  /** The parts, joined with nothing between them. */
  function Concat(parts: seq<string>): string
    decreases |parts|
  {
    if |parts| == 0 then "" else parts[0] + Concat(parts[1..])
  }

  /** The characters of `s` that `keep` accepts, in order. */
  function Filter(s: string, keep: char -> bool): (r: string)
    ensures |r| <= |s|
    decreases |s|
  {
    if |s| == 0 then "" else (if keep(s[0]) then [s[0]] else "") + Filter(s[1..], keep)
  }

  lemma {:induction false} FilterAppend(a: string, b: string, keep: char -> bool)
    ensures Filter(a + b, keep) == Filter(a, keep) + Filter(b, keep)
    decreases |a|
  {
    if |a| > 0 {
      assert (a + b)[1..] == a[1..] + b;
      FilterAppend(a[1..], b, keep);
    } else {
      assert a + b == b;
    }
  }

  lemma {:induction false} FilterAll(s: string, keep: char -> bool)
    requires forall j :: 0 <= j < |s| ==> keep(s[j])
    ensures Filter(s, keep) == s
    decreases |s|
  {
    if |s| > 0 {
      FilterAll(s[1..], keep);
    }
  }

  function NotSpace(c: char): bool {
    !Text.IsSpace(c)
  }

  /** Splitting into words loses exactly the white space. */
  lemma {:induction false} WordsLoseOnlySpace(s: string)
    ensures Concat(Words(s)) == Filter(s, NotSpace)
    decreases |s|
  {
    if |s| > 0 {
      if Text.IsSpace(s[0]) {
        WordsLoseOnlySpace(s[1..]);
      } else {
        var n := WordLen(s);
        WordsLoseOnlySpace(s[n..]);
        assert s == s[..n] + s[n..];
        FilterAppend(s[..n], s[n..], NotSpace);
        FilterAll(s[..n], NotSpace);
        assert Words(s)[1..] == Words(s[n..]);
      }
    }
  }

  /** Scrubbing then dropping white space keeps exactly the token characters. */
  lemma {:induction false} ScrubFilter(s: string)
    ensures Filter(Scrub(s), NotSpace) == Filter(s, IsTokenChar)
    decreases |s|
  {
    if |s| > 0 {
      assert Scrub(s) == [Scrub(s)[0]] + Scrub(s[1..]);
      ScrubFilter(s[1..]);
    }
  }

  /** Tokenising loses only separators: the tokens, run together, are the lower-cased text with
      every character outside [a-z0-9] dropped. */
  lemma TokensAreTheTokenChars(s: string)
    ensures Concat(Tokenize(s)) == Filter(Text.Lower(s), IsTokenChar)
  {
    WordsLoseOnlySpace(Scrub(Text.Lower(s)));
    ScrubFilter(Text.Lower(s));
  }

  // ---------------------------------------------------------------- scoring

  /** The words of `ws` that are in `q`, with their repetitions. */
  function Matching(ws: seq<string>, q: set<string>): (r: seq<string>)
    ensures |r| <= |ws|
    decreases |ws|
  {
    if |ws| == 0 then [] else (if ws[0] in q then [ws[0]] else []) + Matching(ws[1..], q)
  }

  lemma {:induction false} MatchingAppend(a: seq<string>, b: seq<string>, q: set<string>)
    ensures Matching(a + b, q) == Matching(a, q) + Matching(b, q)
    decreases |a|
  {
    if |a| > 0 {
      assert (a + b)[1..] == a[1..] + b;
      MatchingAppend(a[1..], b, q);
    } else {
      assert a + b == b;
    }
  }

  /** `new Set(tokenize(question))`. */
  function TokenSet(question: string): (q: set<string>)
    ensures forall w :: w in q <==> w in Tokenize(question)
  {
    set w | w in Tokenize(question)
  }

  /** The score of a chunk: how many of its tokens, counted with repetition, occur in the
      question. */
  function Score(question: string, chunk: string): nat {
    |Matching(Tokenize(chunk), TokenSet(question))|
  }

  /** `scoreChunk(question, chunk)`. */
  method ScoreChunk(question: string, chunk: string) returns (hit: nat)
    ensures hit == Score(question, chunk)
  {
    var q := TokenSet(question);
    var ws := Tokenize(chunk);
    hit := 0;
    var j := 0;
    while j < |ws|
      invariant 0 <= j <= |ws|
      invariant hit == |Matching(ws[..j], q)|
    {
      MatchingAppend(ws[..j], [ws[j]], q);
      assert ws[..j + 1] == ws[..j] + [ws[j]];
      if ws[j] in q {
        hit := hit + 1;
      }
      j := j + 1;
    }
    assert ws[..j] == ws;
  }

  /** A score never exceeds the chunk's token count; it is zero exactly when the chunk shares no
      token with the question, and full exactly when every chunk token is a question token. */
  lemma ScoreBounds(question: string, chunk: string)
    ensures Score(question, chunk) <= |Tokenize(chunk)|
    ensures Score(question, chunk) == 0 <==> forall w :: w in Tokenize(chunk) ==> w !in Tokenize(question)
    ensures Score(question, chunk) == |Tokenize(chunk)| <==> forall w :: w in Tokenize(chunk) ==> w in Tokenize(question)
  {
    MatchingFull(Tokenize(chunk), TokenSet(question));
    MatchingEmpty(Tokenize(chunk), TokenSet(question));
  }

  /** Everything is dropped exactly when no word is in the set. */
  lemma {:induction false} MatchingEmpty(ws: seq<string>, q: set<string>)
    ensures |Matching(ws, q)| == 0 <==> forall k :: 0 <= k < |ws| ==> ws[k] !in q
    decreases |ws|
  {
    if |ws| > 0 {
      MatchingEmpty(ws[1..], q);
      assert forall k :: 1 <= k < |ws| ==> ws[k] == ws[1..][k - 1];
    }
  }

  /** Nothing is dropped exactly when every word is in the set. */
  lemma {:induction false} MatchingFull(ws: seq<string>, q: set<string>)
    ensures |Matching(ws, q)| == |ws| <==> forall k :: 0 <= k < |ws| ==> ws[k] in q
    decreases |ws|
  {
    if |ws| > 0 {
      MatchingFull(ws[1..], q);
      assert forall k :: 1 <= k < |ws| ==> ws[k] == ws[1..][k - 1];
    }
  }

  // ---------------------------------------------------------------- selection

  /** A chunk with its score. */
  datatype Scored = Scored(ch: string, score: int)

  function ScoreOf(s: Scored): int {
    s.score
  }

  /** The chunks with their scores, in order. */
  function ScoreAll(question: string, chunks: seq<string>): (r: seq<Scored>)
    ensures |r| == |chunks|
    ensures forall i :: 0 <= i < |r| ==> r[i] == Scored(chunks[i], Score(question, chunks[i]))
  {
    seq(|chunks|, i requires 0 <= i < |chunks| => Scored(chunks[i], Score(question, chunks[i])))
  }

  /** The scored chunks best first; ties keep their order, as the stable `sort` keeps them. */
  function Ranked(question: string, chunks: seq<string>): (r: seq<Scored>)
    ensures |r| == |chunks|
    ensures Sorting.SortedDesc(r, ScoreOf)
    ensures multiset(r) == multiset(ScoreAll(question, chunks))
  {
    var r := Sorting.SortDesc(ScoreAll(question, chunks), ScoreOf);
    assert |r| == |multiset(r)| == |multiset(ScoreAll(question, chunks))| == |chunks|;
    r
  }

  /** `selectTopChunks(question, chunks, k)`. */
  function SelectTopChunks(question: string, chunks: seq<string>, k: nat): (r: seq<string>)
    ensures |r| == Min(k, |chunks|)
  {
    var top := Sorting.Take(Ranked(question, chunks), k);
    seq(|top|, i requires 0 <= i < |top| => top[i].ch)
  }

  /** Every ranked entry is one of the chunks with its own score. */
  lemma RankedEntries(question: string, chunks: seq<string>, i: int)
    requires 0 <= i < |chunks|
    ensures var e := Ranked(question, chunks)[i];
      e.ch in chunks && e.score == Score(question, e.ch)
  {
    var all := ScoreAll(question, chunks);
    var e := Ranked(question, chunks)[i];
    assert e in multiset(Ranked(question, chunks));
    assert e in multiset(all);
    var j :| 0 <= j < |all| && all[j] == e;
  }

  /** The selected chunks are chunks of the input, best first. */
  lemma TopChunksOrdered(question: string, chunks: seq<string>, k: nat)
    ensures var r := SelectTopChunks(question, chunks, k);
      && (forall i :: 0 <= i < |r| ==> r[i] in chunks)
      && (forall i, j :: 0 <= i < j < |r| ==> Score(question, r[i]) >= Score(question, r[j]))
  {
    var r := SelectTopChunks(question, chunks, k);
    var ranked := Ranked(question, chunks);
    forall i | 0 <= i < |r|
      ensures r[i] == ranked[i].ch && r[i] in chunks && ranked[i].score == Score(question, r[i])
    {
      RankedEntries(question, chunks, i);
    }
  }

  /** Every chunk is ranked, with its own score. */
  lemma RankedContains(question: string, chunks: seq<string>, m: int)
    requires 0 <= m < |chunks|
    ensures exists j :: 0 <= j < |chunks| && Ranked(question, chunks)[j] == Scored(chunks[m], Score(question, chunks[m]))
  {
    var all := ScoreAll(question, chunks);
    assert all[m] in multiset(all);
    assert all[m] in multiset(Ranked(question, chunks));
  }

  /** No chunk left out of the selection scores higher than a chunk selected. */
  lemma TopChunksAreBest(question: string, chunks: seq<string>, k: nat, c: string, i: int)
    requires c in chunks && c !in SelectTopChunks(question, chunks, k)
    requires 0 <= i < |SelectTopChunks(question, chunks, k)|
    ensures Score(question, c) <= Score(question, SelectTopChunks(question, chunks, k)[i])
  {
    var r := SelectTopChunks(question, chunks, k);
    var ranked := Ranked(question, chunks);
    RankedEntries(question, chunks, i);
    var m :| 0 <= m < |chunks| && chunks[m] == c;
    RankedContains(question, chunks, m);
    var j :| 0 <= j < |chunks| && ranked[j] == Scored(c, Score(question, c));
    assert forall x :: 0 <= x < |r| ==> r[x] == ranked[x].ch;
    assert ranked[i].score >= ranked[j].score;
  }

  // ---------------------------------------------------------------- handler

  /** What `callOpenAI` produced: no key configured, the trimmed message content, or a failed
      call with its error message. */
  datatype LlmOutcome = NoKey | Answered(content: string) | Failed(message: string)

  const ChunkSize: nat := 1200
  const Overlap: nat := 150
  const TopK: nat := 6

  const NoKeyAnswer := "OPENAI_API_KEY not set. Here are the most relevant Aura excerpts for your question (enable an LLM key for natural-language answers)."

  /** `getPolicyText()`: carriage returns removed, then trimmed. */
  function PolicyText(raw: string): string {
    Text.Trim(Text.RemoveAll(raw, '\r'))
  }

  /** The excerpts the answer is grounded in. */
  function Excerpts(question: string, raw: string): (r: seq<string>)
    ensures |r| <= TopK
  {
    SelectTopChunks(question, ChunkText(PolicyText(raw), ChunkSize, Overlap), TopK)
  }

  function Strings(xs: seq<string>): Json {
    JArr(seq(|xs|, i requires 0 <= i < |xs| => JStr(xs[i])))
  }

  /** The 500 reply for a thrown error. */
  function Failure(message: string): Reply {
    Reply(500, map["ok" := JBool(false), "error" := JStr(if message != "" then message else "spec_chat_failed")])
  }

  /** The handler; `policy` is the read of aura.txt (an `Err` when it throws), `llm` the
      outcome of the model call. */
  function Handle(verb: string, body: Option<Json>, policy: Result<string>, llm: LlmOutcome): (r: Reply)
    ensures r.status in {200, 400, 405, 500}
  {
    if verb != "POST" then Reply(405, map["ok" := JBool(false), "error" := JStr("Method not allowed")])
    else
      var question := Text.Trim(StringOrEmpty(Field(body, "question")));
      if question == "" then Reply(400, map["ok" := JBool(false), "error" := JStr("question required")])
      else match policy
        case Err(m) => Failure(m)
        case Ok(raw) =>
          var top := Excerpts(question, raw);
          if llm.Failed? then Failure(llm.message)
          else
            var answer := if llm.Answered? && llm.content != "" then llm.content else NoKeyAnswer;
            Reply(200, map["ok" := JBool(true), "answer" := JStr(answer), "grounded_excerpts" := Strings(top)])
  }

  /** A question is answered exactly when it is a POST with a non-blank question, the policy
      text can be read and the model call does not fail; the answer then carries the best
      excerpts of the policy text, at most six, and the model's answer when it gave one. A blank
      question is refused before the policy text is read. */
  lemma HandleOutcome(verb: string, body: Option<Json>, policy: Result<string>, llm: LlmOutcome)
    ensures var question := Text.Trim(StringOrEmpty(Field(body, "question")));
      Handle(verb, body, policy, llm).status == 200 <==> verb == "POST" && question != "" && policy.Ok? && !llm.Failed?
    ensures var question := Text.Trim(StringOrEmpty(Field(body, "question")));
      verb == "POST" && question == "" ==> Handle(verb, body, policy, llm).status == 400
    ensures var question := Text.Trim(StringOrEmpty(Field(body, "question")));
      var r := Handle(verb, body, policy, llm);
      r.status == 200 ==>
        r.body["grounded_excerpts"] == Strings(Excerpts(question, policy.value))
        && |Excerpts(question, policy.value)| <= TopK
        && r.body["answer"] == JStr(if llm.Answered? && llm.content != "" then llm.content else NoKeyAnswer)
  {
  }
}
