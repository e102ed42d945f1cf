/** `chunking_utils.py`: re-chunking the documents of one search result on
    the fly, guided by hit highlights or by TF-IDF similarity to the query,
    and the score updates the search chunkers apply afterwards. */
module OnTheFly {
  import opened Wrappers
  import opened Strings
  import opened Json
  import opened Documents
  import opened Ranking
  import opened ChunkingUtils
  import opened TextChunking

  /** The oracles of the search chunkers besides the chunking environment:
      the TF-IDF/sequence similarity of a query to the i-th of a list of
      texts, and Python's `str` of a float. */
  datatype SearchEnv = SearchEnv(chunkEnv: ChunkEnv, sim: (string, seq<string>, nat) -> real, floatRepr: real -> string)

  /** `TOKEN_ESTIMATOR.estimate_tokens` of a string: its GPT-2 token count. */
  function Tokens(env: SearchEnv, s: string): nat {
    env.chunkEnv.gpt2(s)
  }

  /** `TEXT_CHUNKER`: the module-level chunker, version v2 over every known
      extension. */
  const TextChunkerV2: TextChunker := TextChunker(FileFormats.Keys, ChunkContentV2)

  lemma TextChunkerV2IsDefault()
    ensures NewTextChunker("v2", None) == Success(TextChunkerV2)
    ensures Valid(TextChunkerV2)
  {
    assert "v2" != "v1";
    assert "md" in FileFormats.Keys;
  }

  /** `get_tfidf_sim_scores(query, texts)`: no scores for no texts, zeros
      for a falsy query, otherwise the similarity oracle, one score per
      text. */
  function TfidfScores(env: SearchEnv, query: Option<string>, texts: seq<string>): (r: seq<real>)
    ensures |r| == |texts|
    ensures (query.None? || query.value == []) ==> forall i :: 0 <= i < |r| ==> r[i] == 0.0
    ensures query.Some? && query.value != [] ==> forall i :: 0 <= i < |r| ==> r[i] == env.sim(query.value, texts, i)
  {
    if texts == [] then []
    else if query.None? || query.value == [] then seq(|texts|, _ => 0.0)
    else seq(|texts|, i requires 0 <= i => env.sim(query.value, texts, i))
  }

  /** `update_doc_score`: only the score changes. */
  function UpdateDocScore(doc: Document, score: real): (r: Document)
    ensures r.score == Some(score)
    ensures r.(score := doc.score) == doc
  {
    doc.(score := Some(score))
  }

  /** The documents paired positionally with their scores, cut to the
      shorter of the two lists (`zip`). */
  function Rescored(docs: seq<Document>, scores: seq<real>): (r: seq<Document>)
    ensures |r| == if |docs| < |scores| then |docs| else |scores|
    ensures forall i :: 0 <= i < |r| ==> r[i] == UpdateDocScore(docs[i], scores[i])
  {
    var n := if |docs| < |scores| then |docs| else |scores|;
    seq(n, i requires 0 <= i < n => UpdateDocScore(docs[i], scores[i]))
  }

  /** `combine_docs_with_scores`: the loop over `zip(docs, scores)`. */
  method CombineDocsWithScores(docs: seq<Document>, scores: seq<real>) returns (updated: seq<Document>)
    ensures updated == Rescored(docs, scores)
  {
    updated := [];
    var i := 0;
    while i < |docs| && i < |scores|
      invariant i <= |docs| && i <= |scores|
      invariant updated == Rescored(docs[..i], scores[..i])
    {
      updated := updated + [UpdateDocScore(docs[i], scores[i])];
      i := i + 1;
    }
    assert updated == Rescored(docs, scores);
  }

  /** Each ranked document with its key as score (what both on-the-fly
      chunkers return after the cut). */
  function WithScores(xs: seq<Ranked<Document>>): (r: seq<Document>)
    ensures |r| == |xs|
    ensures forall i :: 0 <= i < |xs| ==> r[i] == xs[i].item.(score := Some(xs[i].key))
  {
    Rescored(ItemsOf(xs), KeysOf(xs))
  }

  // ===========================================================================
  // chunk_onthefly_with_highlights
  // ===========================================================================

  /** A potential document: the document, its highlight count, its token
      count and the score of the hit it came from. */
  datatype Candidate = Candidate(doc: Document, highlights: nat, tokens: nat, sim: real)

  /** The ranking key: highlights times score per token, 0 for no tokens. */
  function Key(c: Candidate): real {
    if c.tokens > 0 then (c.highlights as real) * c.sim / (c.tokens as real) else 0.0
  }

  /** `sorted(xs, reverse=True)[:k]` with each item given its key as score:
      as many as the cut keeps, scores descending, each an item of `xs`
      scored with its own key, the items kept being a best part of `xs`. */
  lemma RankedCut(xs: seq<Ranked<Document>>, k: int)
    ensures var r := WithScores(PyTake(SortDesc(xs), k));
            |r| == TakeCount(|xs|, k)
            && (forall i :: 0 <= i < |r| ==> r[i].score.Some?)
            && (forall i, j :: 0 <= i < j < |r| ==> r[i].score.value >= r[j].score.value)
            && (forall i :: 0 <= i < |r| ==> exists m :: 0 <= m < |xs| && r[i] == xs[m].item.(score := Some(xs[m].key)))
            && BestOf(PyTake(SortDesc(xs), k), xs)
  {
    var top := PyTake(SortDesc(xs), k);
    TopFacts(xs, k);
    TopBest(xs, k);
    var r := WithScores(top);
    forall i | 0 <= i < |r|
      ensures exists m :: 0 <= m < |xs| && r[i] == xs[m].item.(score := Some(xs[m].key))
    {
      TopFrom(xs, k, i);
      var m :| 0 <= m < |xs| && xs[m] == top[i];
    }
  }

  /** `{"chunking": text}`. */
  function Chunking(text: string): Value {
    Obj([Field("chunking", Str(text))])
  }

  /** The metadata text every candidate of a hit starts with. */
  function OriginalMetadata(env: SearchEnv, tokens: nat, sim: real, count: nat): string {
    "orignal document size=" + NatToString(tokens) + ". Scores=" + env.floatRepr(sim)
    + "Org Highlight count=" + NatToString(count) + "."
  }

  /** A truthy file path. */
  predicate HasPath(filepath: Option<string>) {
    filepath.Some? && filepath.value != []
  }

  /** The chunk id a hit's candidates start from: the per-filepath counter
      for a truthy path (a missing entry reads 0), else 0. */
  function BaseId(counter: map<string, nat>, filepath: Option<string>): nat {
    if HasPath(filepath) && filepath.value in counter then counter[filepath.value] else 0
  }

  /** The counter after a hit produced `n` candidates. */
  function Advance(counter: map<string, nat>, filepath: Option<string>, n: nat): map<string, nat> {
    if HasPath(filepath) then counter[filepath.value := BaseId(counter, filepath) + n] else counter
  }

  /** The candidates the sub-chunks `chunks[j..]` of an over-budget hit give:
      both tags removed from the content, chunks of fewer than 2 tokens
      skipped, and chunk `j` numbered `base + j`. */
  function SubChunkCandidates(env: SearchEnv, doc: Document, sim: real, chunks: seq<Document>, tag: string,
                              tagEnd: string, base: nat, meta: string, j: nat): seq<Candidate>
    requires tag != [] && tagEnd != [] && j <= |chunks|
    decreases |chunks| - j
  {
    if j == |chunks| then []
    else
      var content := Replace(Replace(chunks[j].content, tag, ""), tagEnd, "");
      var t := Tokens(env, content);
      var rest := SubChunkCandidates(env, doc, sim, chunks, tag, tagEnd, base, meta, j + 1);
      if t < 2 then rest
      else
        var count := Count(chunks[j].content, tag);
        var text := meta + "Filtering to chunk no. " + NatToString(j) + "/Highlights=" + NatToString(count)
                    + " of size=" + NatToString(t);
        [Candidate(doc.(content := content, metadata := Chunking(text), chunkId := StrId(NatToString(base + j))),
                   count, t, sim)] + rest
  }

  /** What one hit contributes, and whether it was chunked: a hit within
      budget, or without highlight text, is kept whole with new metadata and
      chunk id; otherwise its highlight text replaces it when that fits,
      else the highlight text is chunked. */
  function HitCandidates(env: SearchEnv, chunker: TextChunker, doc: Document, sim: real, highlight: string, tag: string, tagEnd: string,
                         maxChunkSize: int, base: nat): (seq<Candidate>, bool)
    requires tag != [] && tagEnd != []
  {
    var n := Tokens(env, doc.content);
    var count := Count(highlight, tag);
    var meta := OriginalMetadata(env, n, sim, count);
    if n <= maxChunkSize || highlight == [] then
      ([Candidate(doc.(metadata := Chunking(meta), chunkId := StrId(NatToString(base))), count, n, sim)], false)
    else
      var nh := Tokens(env, highlight);
      if nh < maxChunkSize then
        ([Candidate(doc.(content := highlight, metadata := Chunking(meta + "Filtering to highlight size=" + NatToString(nh)),
                         chunkId := StrId(NatToString(base))), count, nh, sim)], true)
      else
        match ChunkContent(chunker, env.chunkEnv, highlight, doc.filepath, None, true, maxChunkSize, 0, 0, false)
        case Failure(_) => ([], true)
        case Success(chunks) => (SubChunkCandidates(env, doc, sim, chunks, tag, tagEnd, base, meta, 0), true)
  }

  /** The state of the loop over the hits. */
  datatype Scan = Scan(cands: seq<Candidate>, counter: map<string, nat>, chunked: bool)

  /** What one hit gives, from its index and the id its candidates start
      at: its candidates, and whether it was chunked. */
  type HitFn = (nat, nat) -> (seq<Candidate>, bool)

  /** The loop state after the first `n` hits, whose paths are `paths`:
      each hit's candidates start at its path's counter, which then
      advances by their number. */
  function Fold(hitOf: HitFn, paths: seq<Option<string>>, n: nat): Scan
    requires n <= |paths|
  {
    if n == 0 then Scan([], map[], false)
    else
      var s := Fold(hitOf, paths, n - 1);
      var hit := hitOf(n - 1, BaseId(s.counter, paths[n - 1]));
      Scan(s.cands + hit.0, Advance(s.counter, paths[n - 1], |hit.0|), s.chunked || hit.1)
  }

  /** The file paths of the hits. */
  function Paths(results: seq<Document>): (r: seq<Option<string>>)
    ensures |r| == |results| && forall i :: 0 <= i < |results| ==> r[i] == results[i].filepath
  {
    seq(|results|, i requires 0 <= i < |results| => results[i].filepath)
  }

  /** `HitCandidates` of the k-th hit. */
  function HighlightHit(env: SearchEnv, chunker: TextChunker, results: seq<Document>, sims: seq<real>, highlights: seq<string>,
                        tag: string, tagEnd: string, maxChunkSize: int): HitFn
    requires tag != [] && tagEnd != []
  {
    (k: nat, base: nat) =>
      if k < |results| && k < |sims| && k < |highlights| then
        HitCandidates(env, chunker, results[k], sims[k], highlights[k], tag, tagEnd, maxChunkSize, base)
      else ([], false)
  }

  /** The loop state after the first `n` hits. */
  function ScanHits(env: SearchEnv, chunker: TextChunker, results: seq<Document>, sims: seq<real>, highlights: seq<string>,
                    tag: string, tagEnd: string, maxChunkSize: int, n: nat): Scan
    requires |sims| == |results| && |highlights| == |results| && n <= |results|
    requires tag != [] && tagEnd != []
  {
    Fold(HighlightHit(env, chunker, results, sims, highlights, tag, tagEnd, maxChunkSize), Paths(results), n)
  }

  /** The candidates ranked by their key. */
  function RankedCandidates(cands: seq<Candidate>): (r: seq<Ranked<Document>>)
    ensures |r| == |cands|
    ensures forall i :: 0 <= i < |cands| ==> r[i] == Ranked(cands[i].doc, Key(cands[i]))
  {
    seq(|cands|, i requires 0 <= i < |cands| => Ranked(cands[i].doc, Key(cands[i])))
  }

  function CandidateDocs(cands: seq<Candidate>): (r: seq<Document>)
    ensures |r| == |cands| && forall i :: 0 <= i < |cands| ==> r[i] == cands[i].doc
  {
    seq(|cands|, i requires 0 <= i < |cands| => cands[i].doc)
  }

  /** The arguments pass the checks of `chunk_onthefly_with_highlights`:
      one highlight text and one similarity per hit, and both tags given. */
  predicate HighlightArgsOk(results: seq<Document>, sims: seq<real>, highlights: seq<string>, tag: string, tagEnd: string) {
    highlights != [] && |highlights| == |results| && tag != [] && tagEnd != [] && sims != [] && |sims| == |results|
  }

  /** The error of the first check that fails, in the order they are made. */
  function HighlightsError(results: seq<Document>, sims: seq<real>, highlights: seq<string>, tag: string,
                           tagEnd: string): Error
  {
    if highlights == [] || |highlights| != |results| then
      InvalidArgument("Please provide a highlight list with highligthed content for each top K result.")
    else if tag == [] || tagEnd == [] then
      InvalidArgument("Please provide a start and end tag for the highlight in your highlight_list")
    else
      InvalidArgument("Please provide sim scores for each document")
  }

  /** `chunk_onthefly_with_highlights`. */
  function ChunkOnTheFlyWithHighlights(env: SearchEnv, chunker: TextChunker, results: seq<Document>, sims: seq<real>, highlights: seq<string>,
                                       tag: string, tagEnd: string, maxChunkSize: int, topK: int): (r: Result<seq<Document>>)
    ensures r.Failure? <==> results != [] && !HighlightArgsOk(results, sims, highlights, tag, tagEnd)
    ensures r.Failure? ==> r.error == HighlightsError(results, sims, highlights, tag, tagEnd)
    ensures results == [] ==> r == Success([])
  {
    if results == [] then Success([])
    else if !HighlightArgsOk(results, sims, highlights, tag, tagEnd) then
      Failure(HighlightsError(results, sims, highlights, tag, tagEnd))
    else
      Success(HighlightDocs(ScanHits(env, chunker, results, sims, highlights, tag, tagEnd, maxChunkSize, |results|), topK))
  }

  /** What the scan of the hits returns: the candidates' documents as they
      are when no hit was chunked; otherwise the candidates sorted by their
      key twice, the first `topK` kept, each with its key as score. */
  function HighlightDocs(s: Scan, topK: int): seq<Document> {
    if !s.chunked then CandidateDocs(s.cands)
    else WithScores(PyTake(SortDesc(SortDesc(RankedCandidates(s.cands))), topK))
  }

  /** The body of the loop over the hits: the candidates of one hit, with
      the inner loop over its sub-chunks. */
  method HitCandidatesMethod(env: SearchEnv, chunker: TextChunker, doc: Document, sim: real, highlight: string,
                             tag: string, tagEnd: string, maxChunkSize: int, base: nat)
    returns (cands: seq<Candidate>, chunked: bool)
    requires tag != [] && tagEnd != []
    ensures (cands, chunked) == HitCandidates(env, chunker, doc, sim, highlight, tag, tagEnd, maxChunkSize, base)
  {
    var n := Tokens(env, doc.content);
    var count := Count(highlight, tag);
    var meta := OriginalMetadata(env, n, sim, count);
    if n <= maxChunkSize || highlight == [] {
      return [Candidate(doc.(metadata := Chunking(meta), chunkId := StrId(NatToString(base))), count, n, sim)], false;
    }
    chunked := true;
    var nh := Tokens(env, highlight);
    if nh < maxChunkSize {
      cands := [Candidate(doc.(content := highlight, metadata := Chunking(meta + "Filtering to highlight size=" + NatToString(nh)),
                               chunkId := StrId(NatToString(base))), count, nh, sim)];
      return;
    }
    match ChunkContent(chunker, env.chunkEnv, highlight, doc.filepath, None, true, maxChunkSize, 0, 0, false) {
      case Failure(_) =>
        cands := [];
      case Success(chunks) =>
        cands := SubChunkCandidatesMethod(env, doc, sim, chunks, tag, tagEnd, base, meta);
    }
  }

  /** The inner loop: `for cidx, chunk in enumerate(chunks)`. */
  method SubChunkCandidatesMethod(env: SearchEnv, doc: Document, sim: real, chunks: seq<Document>, tag: string,
                                  tagEnd: string, base: nat, meta: string)
    returns (cands: seq<Candidate>)
    requires tag != [] && tagEnd != []
    ensures cands == SubChunkCandidates(env, doc, sim, chunks, tag, tagEnd, base, meta, 0)
  {
    cands := [];
    for j := 0 to |chunks|
      invariant cands + SubChunkCandidates(env, doc, sim, chunks, tag, tagEnd, base, meta, j)
                == SubChunkCandidates(env, doc, sim, chunks, tag, tagEnd, base, meta, 0)
    {
      var content := Replace(Replace(chunks[j].content, tag, ""), tagEnd, "");
      var t := Tokens(env, content);
      if t >= 2 {
        var c := Count(chunks[j].content, tag);
        var text := meta + "Filtering to chunk no. " + NatToString(j) + "/Highlights=" + NatToString(c)
                    + " of size=" + NatToString(t);
        cands := cands + [Candidate(doc.(content := content, metadata := Chunking(text),
                                         chunkId := StrId(NatToString(base + j))), c, t, sim)];
      }
    }
    assert cands + [] == cands;
  }

  /** One pass of the loop over the hits: the hit's candidates appended,
      its path's counter advanced, the flag raised if it was chunked. */
  method ScanHitMethod(env: SearchEnv, chunker: TextChunker, results: seq<Document>, sims: seq<real>,
                       highlights: seq<string>, tag: string, tagEnd: string, maxChunkSize: int, i: nat, scan: Scan)
    returns (next: Scan)
    requires |sims| == |results| && |highlights| == |results| && i < |results|
    requires tag != [] && tagEnd != []
    requires scan == ScanHits(env, chunker, results, sims, highlights, tag, tagEnd, maxChunkSize, i)
    ensures next == ScanHits(env, chunker, results, sims, highlights, tag, tagEnd, maxChunkSize, i + 1)
  {
    var doc := results[i];
    var hit, hitChunked := HitCandidatesMethod(env, chunker, doc, sims[i], highlights[i], tag, tagEnd, maxChunkSize,
                                               BaseId(scan.counter, doc.filepath));
    next := Scan(scan.cands + hit, Advance(scan.counter, doc.filepath, |hit|), scan.chunked || hitChunked);
  }

  /** The loop over the hits, with the per-filepath counter and the flag
      telling whether any hit was chunked. */
  method ScanHitsMethod(env: SearchEnv, chunker: TextChunker, results: seq<Document>, sims: seq<real>,
                        highlights: seq<string>, tag: string, tagEnd: string, maxChunkSize: int)
    returns (scan: Scan)
    requires |sims| == |results| && |highlights| == |results|
    requires tag != [] && tagEnd != []
    ensures scan == ScanHits(env, chunker, results, sims, highlights, tag, tagEnd, maxChunkSize, |results|)
  {
    scan := Scan([], map[], false);
    for i := 0 to |results|
      invariant scan == ScanHits(env, chunker, results, sims, highlights, tag, tagEnd, maxChunkSize, i)
    {
      scan := ScanHitMethod(env, chunker, results, sims, highlights, tag, tagEnd, maxChunkSize, i, scan);
    }
  }

  /** `chunk_onthefly_with_highlights`, step by step: the checks, the loop
      over the hits with the per-filepath counter, then the two sorts, the
      cut and `combine_docs_with_scores`. */
  method ChunkOnTheFlyWithHighlightsMethod(env: SearchEnv, chunker: TextChunker, results: seq<Document>, sims: seq<real>,
                                           highlights: seq<string>, tag: string, tagEnd: string, maxChunkSize: int,
                                           topK: int)
    returns (r: Result<seq<Document>>)
    ensures r == ChunkOnTheFlyWithHighlights(env, chunker, results, sims, highlights, tag, tagEnd, maxChunkSize, topK)
  {
    if results == [] {
      return Success([]);
    }
    if !HighlightArgsOk(results, sims, highlights, tag, tagEnd) {
      return Failure(HighlightsError(results, sims, highlights, tag, tagEnd));
    }
    var scan := ScanHitsMethod(env, chunker, results, sims, highlights, tag, tagEnd, maxChunkSize);
    var docs := HighlightDocsMethod(scan, topK);
    r := Success(docs);
  }

  /** The tail of `chunk_onthefly_with_highlights`: the two sorts, the cut
      and `combine_docs_with_scores`, when some hit was chunked. */
  method HighlightDocsMethod(scan: Scan, topK: int) returns (docs: seq<Document>)
    ensures docs == HighlightDocs(scan, topK)
  {
    var cands := scan.cands;
    if !scan.chunked {
      return CandidateDocs(cands);
    }
    var ranked := SortDesc(RankedCandidates(cands));
    var top := PyTake(SortDesc(ranked), topK);
    docs := CombineDocsWithScores(ItemsOf(top), KeysOf(top));
  }

  /** The message `chunk_onthefly` raises when it has no query. */
  const NoQueryMessage := "Please provide a query to compare against for reranking on the fly chunks"

  /** A truthy query. */
  predicate HasQuery(query: Option<string>) {
    query.Some? && query.value != []
  }

  /** A copy of `doc` per chunk of its content, chunk `j` numbered
      `base + j`. */
  function ChunkCopies(doc: Document, chunks: seq<Document>, base: nat): seq<Document> {
    seq(|chunks|, j requires 0 <= j < |chunks| => doc.(content := chunks[j].content, chunkId := StrId(NatToString(base + j))))
  }

  /** The documents one hit contributes in `chunk_onthefly`: the hit itself
      numbered `base` when it fits the budget, else its chunks. */
  function PieceDocs(env: SearchEnv, chunker: TextChunker, doc: Document, maxChunkSize: int, base: nat): seq<Document> {
    if Tokens(env, doc.content) <= maxChunkSize then [doc.(chunkId := StrId(NatToString(base)))]
    else
      match ChunkContent(chunker, env.chunkEnv, doc.content, doc.filepath, None, true, maxChunkSize, 0, 0, false)
      case Failure(_) => []
      case Success(chunks) => ChunkCopies(doc, chunks, base)
  }

  /** The documents of the first `n` hits. The per-filepath counter is read
      but never advanced in `chunk_onthefly`, so every hit starts from 0. */
  function Pieces(env: SearchEnv, chunker: TextChunker, results: seq<Document>, maxChunkSize: int, n: nat): seq<Document>
    requires n <= |results|
  {
    if n == 0 then []
    else Pieces(env, chunker, results, maxChunkSize, n - 1) + PieceDocs(env, chunker, results[n - 1], maxChunkSize, 0)
  }

  /** A hit as `chunk_onthefly` leaves it in `results`: numbered 0 in place
      when it fits the budget, untouched otherwise. */
  function PassDoc(env: SearchEnv, doc: Document, maxChunkSize: int): Document {
    if Tokens(env, doc.content) <= maxChunkSize then doc.(chunkId := StrId(NatToString(0))) else doc
  }

  function PassThrough(env: SearchEnv, results: seq<Document>, maxChunkSize: int): seq<Document> {
    seq(|results|, i requires 0 <= i < |results| => PassDoc(env, results[i], maxChunkSize))
  }

  function Contents(docs: seq<Document>): seq<string> {
    seq(|docs|, i requires 0 <= i < |docs| => docs[i].content)
  }

  /** Documents paired positionally with scores of the same number. */
  function Scored(docs: seq<Document>, scores: seq<real>): seq<Ranked<Document>>
    requires |scores| == |docs|
  {
    seq(|docs|, i requires 0 <= i < |docs| => Ranked(docs[i], scores[i]))
  }

  /** The TF-IDF ranking of the pieces: each scored against the query,
      sorted by score, the first `topK` kept, each with its score. */
  function TfidfRanked(env: SearchEnv, query: Option<string>, pieces: seq<Document>, topK: int): seq<Document> {
    WithScores(PyTake(SortDesc(Scored(pieces, TfidfScores(env, query, Contents(pieces)))), topK))
  }

  /** `chunk_onthefly`: nothing for no hits; an error without a query; the
      hits themselves when chunking left their number unchanged; otherwise
      the pieces ranked by TF-IDF similarity to the query. */
  function ChunkOnTheFly(env: SearchEnv, chunker: TextChunker, query: Option<string>, results: seq<Document>,
                         maxChunkSize: int, topK: int): (r: Result<seq<Document>>)
    ensures r.Failure? <==> results != [] && !HasQuery(query)
    ensures r.Failure? ==> r.error == InvalidArgument(NoQueryMessage)
    ensures results == [] ==> r == Success([])
  {
    if results == [] then Success([])
    else if !HasQuery(query) then Failure(InvalidArgument(NoQueryMessage))
    else
      var pieces := Pieces(env, chunker, results, maxChunkSize, |results|);
      if |pieces| == |results| then Success(PassThrough(env, results, maxChunkSize))
      else Success(TfidfRanked(env, query, pieces, topK))
  }

  /** The inner loop of `chunk_onthefly`: `for cidx, chunk in enumerate(chunks)`. */
  method ChunkCopiesMethod(doc: Document, chunks: seq<Document>, base: nat) returns (copies: seq<Document>)
    ensures copies == ChunkCopies(doc, chunks, base)
  {
    copies := [];
    for j := 0 to |chunks|
      invariant copies == ChunkCopies(doc, chunks[..j], base)
    {
      copies := copies + [doc.(content := chunks[j].content, chunkId := StrId(NatToString(base + j)))];
    }
    assert chunks[..|chunks|] == chunks;
  }

  /** The body of the loop of `chunk_onthefly` over the hits: what one hit
      contributes. */
  method PieceDocsMethod(env: SearchEnv, chunker: TextChunker, doc: Document, maxChunkSize: int, base: nat)
    returns (docs: seq<Document>)
    ensures docs == PieceDocs(env, chunker, doc, maxChunkSize, base)
  {
    if Tokens(env, doc.content) <= maxChunkSize {
      return [doc.(chunkId := StrId(NatToString(base)))];
    }
    docs := [];
    match ChunkContent(chunker, env.chunkEnv, doc.content, doc.filepath, None, true, maxChunkSize, 0, 0, false) {
      case Failure(_) =>
      case Success(chunks) =>
        docs := ChunkCopiesMethod(doc, chunks, base);
    }
  }

  /** The loop of `chunk_onthefly` over the hits: the hits that fit are
      numbered in place, and the pieces are collected. The per-filepath
      counter is a `defaultdict(int)`: reading a missing path stores 0. */
  method PiecesMethod(env: SearchEnv, chunker: TextChunker, results: seq<Document>, maxChunkSize: int)
    returns (hits: seq<Document>, pieces: seq<Document>)
    ensures hits == PassThrough(env, results, maxChunkSize)
    ensures pieces == Pieces(env, chunker, results, maxChunkSize, |results|)
  {
    hits, pieces := results, [];
    var counter: map<string, nat> := map[];
    for i := 0 to |results|
      invariant |hits| == |results|
      invariant forall k :: 0 <= k < i ==> hits[k] == PassDoc(env, results[k], maxChunkSize)
      invariant forall k :: i <= k < |results| ==> hits[k] == results[k]
      invariant pieces == Pieces(env, chunker, results, maxChunkSize, i)
      invariant forall p :: p in counter ==> counter[p] == 0
    {
      var doc := hits[i];
      var base := 0;
      if HasPath(doc.filepath) {
        if doc.filepath.value !in counter {
          counter := counter[doc.filepath.value := 0];
        }
        base := base + counter[doc.filepath.value];
      }
      if Tokens(env, doc.content) <= maxChunkSize {
        hits := hits[i := doc.(chunkId := StrId(NatToString(base)))];
      }
      var piece := PieceDocsMethod(env, chunker, doc, maxChunkSize, base);
      pieces := pieces + piece;
    }
    assert hits == PassThrough(env, results, maxChunkSize);
  }

  /** `chunk_onthefly`, step by step. */
  method ChunkOnTheFlyMethod(env: SearchEnv, chunker: TextChunker, query: Option<string>, results: seq<Document>,
                             maxChunkSize: int, topK: int) returns (r: Result<seq<Document>>)
    ensures r == ChunkOnTheFly(env, chunker, query, results, maxChunkSize, topK)
  {
    if results == [] {
      return Success([]);
    }
    if !HasQuery(query) {
      return Failure(InvalidArgument(NoQueryMessage));
    }
    var hits, pieces := PiecesMethod(env, chunker, results, maxChunkSize);
    if |pieces| == |results| {
      return Success(hits);
    }
    var scores := TfidfScores(env, query, Contents(pieces));
    var ranked := SortDesc(Scored(pieces, scores));
    r := Success(WithScores(PyTake(ranked, topK)));
  }
}
