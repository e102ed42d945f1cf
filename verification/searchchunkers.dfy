/** The search-result chunkers: `ACSTextChunker`, `ACSVectorChunker` and
    `CosmosChunker`, each turning the hits of every query into re-chunked,
    re-scored Documents, and `ChunkerFactory`, which picks one from the data
    source and the query type. */
module SearchChunkers {
  import opened Wrappers
  import opened Strings
  import opened Json
  import opened Documents
  import opened Ranking
  import opened TextChunking
  import opened OnTheFly
  import opened AcsUtils
  import opened OnTheFlyFacts

  // ===========================================================================
  // Shared by the chunkers
  // ===========================================================================

  /** `min(0.2 + score, 1.0)`. */
  function Boosted(score: real): (r: real)
    ensures r <= 1.0 && r <= 0.2 + score
    ensures r == 1.0 || r == 0.2 + score
  {
    if 1.0 < 0.2 + score then 1.0 else 0.2 + score
  }

  /** `f"{doc.title}\n{doc.content}"`: a missing title prints as "None". */
  function TitledText(doc: Document): string {
    (if doc.title.Some? then doc.title.value else "None") + "\n" + doc.content
  }

  function TitledTexts(docs: seq<Document>): (r: seq<string>)
    ensures |r| == |docs| && forall i :: 0 <= i < |docs| ==> r[i] == TitledText(docs[i])
  {
    seq(|docs|, i requires 0 <= i < |docs| => TitledText(docs[i]))
  }

  /** The rescoring the chunkers apply to their output: each document's
      score becomes `min(0.2 + sim, 1.0)`, `sim` being the TF-IDF similarity
      of the query to its title and content. */
  function Rescore(env: SearchEnv, query: Option<string>, docs: seq<Document>): seq<Document> {
    var sims := TfidfScores(env, query, TitledTexts(docs));
    Rescored(docs, seq(|sims|, i requires 0 <= i < |sims| => Boosted(sims[i])))
  }

  /** Rescoring keeps the documents and their order and changes only the
      score: `min(0.2 + sim, 1.0)`, so at most 1.0, and 0.2 without a query. */
  lemma RescoreFacts(env: SearchEnv, query: Option<string>, docs: seq<Document>)
    ensures var r := Rescore(env, query, docs);
            |r| == |docs|
            && (forall i :: 0 <= i < |docs| ==> r[i].(score := docs[i].score) == docs[i] && r[i].score.Some? && r[i].score.value <= 1.0)
            && (forall i :: 0 <= i < |docs| && HasQuery(query) ==>
                  r[i].score == Some(Boosted(env.sim(query.value, TitledTexts(docs), i))))
            && (forall i :: 0 <= i < |docs| && !HasQuery(query) ==> r[i].score == Some(0.2))
  {
  }

  // ===========================================================================
  // ACSTextChunker
  // ===========================================================================

  /** A truthy score: present and not zero. */
  predicate ScoreTruthy(s: Option<real>) {
    s.Some? && s.value != 0.0
  }

  /** The score of a keyword or semantic hit: the reranker score over 4 when
      both scores are truthy, the search score when only it is, and
      otherwise the hit's own score. */
  function TextHitScore(hit: AcsHit): real {
    if ScoreTruthy(hit.metadata.searchScore) then
      if ScoreTruthy(hit.metadata.rerankerScore) then hit.metadata.rerankerScore.value / 4.0
      else hit.metadata.searchScore.value
    else hit.score
  }

  /** A zero search score counts as absent, and without a search score the
      reranker score is ignored. */
  lemma TextHitScoreFalsy(hit: AcsHit, reranker: Option<real>)
    requires !ScoreTruthy(hit.metadata.searchScore)
    ensures TextHitScore(hit) == hit.score
    ensures TextHitScore(hit.(metadata := hit.metadata.(searchScore := None, rerankerScore := reranker))) == hit.score
  {
  }

  /** The characters of a string, each as a string. */
  function Chars(s: string): (r: seq<string>)
    ensures |r| == |s| && forall i :: 0 <= i < |s| ==> r[i] == [s[i]]
  {
    seq(|s|, i requires 0 <= i < |s| => [s[i]])
  }

  function StrsOf(items: seq<Value>): (r: seq<string>)
    requires forall i :: 0 <= i < |items| ==> items[i].Str?
    ensures |r| == |items| && forall i :: 0 <= i < |items| ==> r[i] == items[i].s
  {
    seq(|items|, i requires 0 <= i < |items| => items[i].s)
  }

  /** `".".join(v)`: over the strings of a list, the characters of a string
      or the keys of a dict; anything else raises TypeError. */
  function DotJoin(v: Value): Result<string> {
    match v
    case Str(s) => Success(Join(".", Chars(s)))
    case Arr(items) =>
      if forall i :: 0 <= i < |items| ==> items[i].Str? then Success(Join(".", StrsOf(items)))
      else Failure(TypeMismatch)
    case Obj(fields) => Success(Join(".", Keys(fields)))
    case _ => Failure(TypeMismatch)
  }

  /** The highlight text of one hit, from its `@search.highlights`: None
      when they are falsy; otherwise, for the one content field "content"
      when `"content" in highlights`, its highlights joined by "." and
      stripped, then stripped again after joining the fields by "\n". */
  function HighlightText(highlights: Value): (r: Result<Option<string>>)
    ensures r.Success? ==> (r.value.None? <==> !Truthy(highlights))
    ensures r.Failure? ==> r.error == TypeMismatch
  {
    if !Truthy(highlights) then Success(None)
    else
      match highlights
      case Obj(fields) =>
        (match Lookup(fields, "content")
         case None => Success(Some(Strip(Join("\n", []))))
         case Some(v) =>
           var t :- DotJoin(v);
           Success(Some(Strip(Join("\n", [Strip(t)])))))
      case Arr(items) => if Str("content") in items then Failure(TypeMismatch) else Success(Some(Strip(Join("\n", []))))
      case Str(s) => if Contains(s, "content") then Failure(TypeMismatch) else Success(Some(Strip(Join("\n", []))))
      case _ => Failure(TypeMismatch)
  }

  /** The highlight text of a dict of highlights is the "content"
      highlights joined by "." with the outer whitespace removed, or "" when
      there are none. */
  lemma HighlightTextOfDict(fields: seq<Field>, items: seq<string>)
    requires fields != []
    ensures Lookup(fields, "content").None? ==> HighlightText(Obj(fields)) == Success(Some(""))
    ensures Lookup(fields, "content") == Some(Arr(seq(|items|, i requires 0 <= i < |items| => Str(items[i])))) ==>
              HighlightText(Obj(fields)) == Success(Some(Strip(Join(".", items))))
  {
    assert Strip([]) == [];
    var v := Arr(seq(|items|, i requires 0 <= i < |items| => Str(items[i])));
    if Lookup(fields, "content") == Some(v) {
      assert StrsOf(v.items) == items;
      StripIdempotent(Join(".", items));
    }
  }

  /** What `chunk_results` gathers from the hits of one query. */
  datatype Batch = Batch(docs: seq<Document>, sims: seq<real>, highlights: seq<string>, useHighlights: bool)

  /** Every hit's highlights can be read. */
  predicate HighlightsReadable(hits: seq<AcsHit>) {
    forall i :: 0 <= i < |hits| ==> HighlightText(hits[i].metadata.highlights).Success?
  }

  /** The hits as Documents, their scores and their highlight texts ("" for
      a hit without highlights); the highlight path is taken only when every
      hit has highlights. */
  function TextBatch(hits: seq<AcsHit>): (r: Result<Batch>)
    ensures r.Success? <==> HighlightsReadable(hits)
    ensures r.Success? ==>
              |r.value.docs| == |hits| && |r.value.sims| == |hits| && |r.value.highlights| == |hits|
              && (r.value.useHighlights <==> forall i :: 0 <= i < |hits| ==> Truthy(hits[i].metadata.highlights))
  {
    if !HighlightsReadable(hits) then Failure(TypeMismatch)
    else
      Success(Batch(seq(|hits|, i requires 0 <= i < |hits| => ResultToDocument(hits[i])),
                    seq(|hits|, i requires 0 <= i < |hits| => TextHitScore(hits[i])),
                    seq(|hits|, i requires 0 <= i < |hits| => HighlightText(hits[i].metadata.highlights).value.GetOr("")),
                    forall i :: 0 <= i < |hits| ==> HighlightText(hits[i].metadata.highlights).value.Some?))
  }

  /** The chunker's output for one query: the highlight path when every hit
      has highlights, `chunk_onthefly` otherwise, then for "simple" queries
      the rescoring. */
  function AcsTextQuery(env: SearchEnv, queryType: string, sr: SearchResult<AcsHit>, maxTokens: int, topK: int): Result<seq<Document>> {
    var b :- TextBatch(sr.topK);
    var chunked :-
      if b.useHighlights then
        ChunkOnTheFlyWithHighlights(env, TextChunkerV2, b.docs, b.sims, b.highlights, "<HIGH>", "</HIGH>", maxTokens, topK)
      else ChunkOnTheFly(env, TextChunkerV2, sr.query, b.docs, maxTokens, topK);
    Success(if queryType == "simple" then Rescore(env, sr.query, chunked) else chunked)
  }

  /** `ACSTextChunker.chunk_results`. */
  function AcsTextChunkResults(env: SearchEnv, queryType: string, results: seq<SearchResult<AcsHit>>, maxTokens: int,
                               topK: int): Result<seq<seq<Document>>> {
    ForEach(AcsTextQueryFn(env, queryType, maxTokens, topK), results)
  }

  /** `AcsTextQuery` as the per-query function of `ForEach`. */
  function AcsTextQueryFn(env: SearchEnv, queryType: string, maxTokens: int, topK: int)
    : SearchResult<AcsHit> -> Result<seq<Document>>
  {
    sr => AcsTextQuery(env, queryType, sr, maxTokens, topK)
  }

  /** One query of the text chunker fails with TypeError exactly when some
      hit's highlights cannot be read; otherwise it fails only when some hit
      has no highlights, there are hits and there is no query (the highlight
      path needs no query). */
  lemma AcsTextQueryErrors(env: SearchEnv, queryType: string, sr: SearchResult<AcsHit>, maxTokens: int, topK: int,
                           r: Result<seq<Document>>)
    requires r == AcsTextQuery(env, queryType, sr, maxTokens, topK)
    ensures r == Failure(TypeMismatch) <==> !HighlightsReadable(sr.topK)
    ensures r.Failure? <==> !HighlightsReadable(sr.topK)
                            || (sr.topK != [] && !HasQuery(sr.query)
                                && exists i :: 0 <= i < |sr.topK| && !Truthy(sr.topK[i].metadata.highlights))
    ensures r.Failure? && HighlightsReadable(sr.topK) ==> r.error == InvalidArgument(NoQueryMessage)
  {
  }

  /** A "simple" query of the text chunker leaves every score present and
      at most 1.0. */
  lemma AcsTextQueryScores(env: SearchEnv, queryType: string, sr: SearchResult<AcsHit>, maxTokens: int, topK: int,
                           r: Result<seq<Document>>)
    requires r == AcsTextQuery(env, queryType, sr, maxTokens, topK)
    ensures r.Success? && queryType == "simple" ==>
              forall i :: 0 <= i < |r.value| ==> r.value[i].score.Some? && r.value[i].score.value <= 1.0
  {
    var b := TextBatch(sr.topK);
    if b.Success? {
      var chunked :=
        if b.value.useHighlights then
          ChunkOnTheFlyWithHighlights(env, TextChunkerV2, b.value.docs, b.value.sims, b.value.highlights, "<HIGH>", "</HIGH>",
                                      maxTokens, topK)
        else ChunkOnTheFly(env, TextChunkerV2, sr.query, b.value.docs, maxTokens, topK);
      if chunked.Success? && queryType == "simple" {
        RescoreFacts(env, sr.query, chunked.value);
      }
    }
  }

  /** The loop of `ACSTextChunker.chunk_results` over the hits of one
      query: each hit's score, Document and highlight text; one hit without
      highlights turns the highlight path off. */
  method TextBatchMethod(hits: seq<AcsHit>) returns (r: Result<Batch>)
    ensures r == TextBatch(hits)
  {
    var docs: seq<Document> := [];
    var sims: seq<real> := [];
    var highlights: seq<string> := [];
    var useHighlights := true;
    for i := 0 to |hits|
      invariant |docs| == i && |sims| == i && |highlights| == i
      invariant forall k :: 0 <= k < i ==> docs[k] == ResultToDocument(hits[k]) && sims[k] == TextHitScore(hits[k])
      invariant forall k :: 0 <= k < i ==> HighlightText(hits[k].metadata.highlights).Success?
                                           && highlights[k] == HighlightText(hits[k].metadata.highlights).value.GetOr("")
      invariant useHighlights <==> forall k :: 0 <= k < i ==> Truthy(hits[k].metadata.highlights)
    {
      var hit := hits[i];
      sims := sims + [TextHitScore(hit)];
      docs := docs + [ResultToDocument(hit)];
      match HighlightText(hit.metadata.highlights) {
        case Failure(e) =>
          return Failure(e);
        case Success(text) =>
          if text.None? {
            useHighlights := false;
          }
          highlights := highlights + [text.GetOr("")];
      }
    }
    var b := TextBatch(hits).value;
    assert b.docs == docs && b.sims == sims && b.highlights == highlights;
    r := Success(Batch(docs, sims, highlights, useHighlights));
  }

  /** One query of `ACSTextChunker.chunk_results`: the hits gathered, then
      re-chunked, then for "simple" queries rescored. */
  method AcsTextQueryMethod(env: SearchEnv, queryType: string, sr: SearchResult<AcsHit>, maxTokens: int, topK: int)
    returns (r: Result<seq<Document>>)
    ensures r == AcsTextQuery(env, queryType, sr, maxTokens, topK)
  {
    var batch := TextBatchMethod(sr.topK);
    match batch {
      case Failure(e) =>
        r := Failure(e);
      case Success(b) =>
        var chunked: Result<seq<Document>>;
        if b.useHighlights {
          chunked := ChunkOnTheFlyWithHighlightsMethod(env, TextChunkerV2, b.docs, b.sims, b.highlights, "<HIGH>", "</HIGH>", maxTokens, topK);
        } else {
          chunked := ChunkOnTheFlyMethod(env, TextChunkerV2, sr.query, b.docs, maxTokens, topK);
        }
        match chunked {
          case Failure(e) =>
            r := Failure(e);
          case Success(out) =>
            if queryType == "simple" {
              out := Rescore(env, sr.query, out);
            }
            r := Success(out);
        }
    }
  }

  /** `ACSTextChunker.chunk_results`: nothing for no queries, else the loop
      over the queries. */
  method AcsTextChunkResultsMethod(env: SearchEnv, queryType: string, results: seq<SearchResult<AcsHit>>, maxTokens: int,
                                   topK: int) returns (r: Result<seq<seq<Document>>>)
    ensures r == AcsTextChunkResults(env, queryType, results, maxTokens, topK)
  {
    if results == [] {
      return Success([]);
    }
    var perQuery := AcsTextQueryFn(env, queryType, maxTokens, topK);
    var docs: seq<seq<Document>> := [];
    for i := 0 to |results|
      invariant ForEach(perQuery, results[..i]) == Success(docs)
    {
      var q := AcsTextQueryMethod(env, queryType, results[i], maxTokens, topK);
      assert perQuery(results[i]) == q;
      match q {
        case Failure(e) =>
          ForEachFailAt(perQuery, results, i);
          return Failure(e);
        case Success(list) =>
          ForEachSnoc(perQuery, results, i, docs, list);
          docs := docs + [list];
      }
    }
    assert results[..|results|] == results;
    r := Success(docs);
  }

  // ===========================================================================
  // ACSVectorChunker
  // ===========================================================================

  /** The score of a vector hit: the reranker score over 4 when it is
      truthy, otherwise the search score, which may be absent. */
  function VectorHitScore(hit: AcsHit): (r: Option<real>)
    ensures ScoreTruthy(hit.metadata.rerankerScore) ==> r == Some(hit.metadata.rerankerScore.value / 4.0)
    ensures !ScoreTruthy(hit.metadata.rerankerScore) ==> r == hit.metadata.searchScore
  {
    if ScoreTruthy(hit.metadata.rerankerScore) then Some(hit.metadata.rerankerScore.value / 4.0)
    else hit.metadata.searchScore
  }

  /** A vector hit as a Document carrying its vector score. */
  function VectorDoc(hit: AcsHit): Document {
    ResultToDocument(hit).(score := VectorHitScore(hit))
  }

  function VectorDocs(hits: seq<AcsHit>): (r: seq<Document>)
    ensures |r| == |hits| && forall i :: 0 <= i < |hits| ==> r[i] == VectorDoc(hits[i])
  {
    seq(|hits|, i requires 0 <= i < |hits| => VectorDoc(hits[i]))
  }

  /** Every document has a score, so that any two can be compared. */
  predicate Scored(docs: seq<Document>) {
    forall i :: 0 <= i < |docs| ==> docs[i].score.Some?
  }

  /** The documents ranked by their scores (all present). */
  function ScoreRanked(docs: seq<Document>): (r: seq<Ranked<Document>>)
    requires Scored(docs)
    ensures |r| == |docs| && forall i :: 0 <= i < |docs| ==> r[i] == Ranked(docs[i], docs[i].score.value)
  {
    seq(|docs|, i requires 0 <= i < |docs| => Ranked(docs[i], docs[i].score.value))
  }

  /** `sorted(docs, key=lambda x: x.score, reverse=True)`: a list of fewer
      than two documents is not compared; otherwise a missing score makes a
      comparison raise TypeError. */
  function SortByScore(docs: seq<Document>): (r: Result<seq<Document>>)
    ensures r.Success? ==> |r.value| == |docs|
  {
    if |docs| <= 1 then Success(docs)
    else if !Scored(docs) then Failure(TypeMismatch)
    else Success(ItemsOf(SortDesc(ScoreRanked(docs))))
  }

  /** `sorted(doc_list, key=lambda x: x.score, reverse=True)[:top_k]`. */
  function PreRank(docs: seq<Document>, topK: int): Result<seq<Document>> {
    var sorted :- SortByScore(docs);
    Success(PyTake(sorted, topK))
  }

  /** The pre-ranking fails exactly when two or more documents include one
      without a score; otherwise it keeps `top_k` documents (Python's slice
      count) taken from the input, best score first, and every document it
      drops scores no higher than any it keeps. */
  lemma PreRankFacts(docs: seq<Document>, topK: int, r: Result<seq<Document>>)
    requires r == PreRank(docs, topK)
    ensures r.Failure? <==> |docs| >= 2 && !Scored(docs)
    ensures r.Failure? ==> r.error == TypeMismatch
    ensures r.Success? ==>
              |r.value| == TakeCount(|docs|, topK)
              && (forall i :: 0 <= i < |r.value| ==> r.value[i] in docs)
              && (|docs| >= 2 ==> forall i, j :: 0 <= i < j < |r.value| ==> r.value[i].score.value >= r.value[j].score.value)
              && (|docs| >= 2 ==> forall d, i :: d in docs && d !in r.value && 0 <= i < |r.value| ==>
                                    d.score.value <= r.value[i].score.value)
  {
    if |docs| >= 2 && Scored(docs) {
      var xs := ScoreRanked(docs);
      var top := PyTake(SortDesc(xs), topK);
      TopFacts(xs, topK);
      assert r.value == ItemsOf(top) by {
        var s := ItemsOf(SortDesc(xs));
        assert r.value == PyTake(s, topK);
        assert |r.value| == |ItemsOf(top)|;
        forall i | 0 <= i < |top| ensures r.value[i] == ItemsOf(top)[i] {
          assert top[i] == SortDesc(xs)[i];
        }
      }
      forall i | 0 <= i < |top| ensures top[i].item in docs && top[i].key == top[i].item.score.value {
        TopFrom(xs, topK, i);
        var k :| 0 <= k < |xs| && xs[k] == top[i];
      }
      forall d, i | d in docs && d !in r.value && 0 <= i < |r.value| ensures d.score.value <= r.value[i].score.value {
        var k :| 0 <= k < |docs| && docs[k] == d;
        assert xs[k] !in top;
        TopDropped(xs, topK, xs[k]);
        TopFrom(xs, topK, i);
      }
    }
  }

  /** The rescoring query types of the vector chunker. */
  predicate VectorRescores(queryType: string) {
    queryType == "vector" || queryType == "vector_simple_hybrid"
  }

  /** The vector chunker's output for one query: the hits scored, sorted
      and cut to `top_k`, re-chunked, and for the "vector" and
      "vector_simple_hybrid" query types rescored. */
  function AcsVectorQuery(env: SearchEnv, queryType: string, sr: SearchResult<AcsHit>, maxTokens: int, topK: int)
    : Result<seq<Document>>
  {
    var top :- PreRank(VectorDocs(sr.topK), topK);
    var chunked :- ChunkOnTheFly(env, TextChunkerV2, sr.query, top, maxTokens, topK);
    Success(if VectorRescores(queryType) then Rescore(env, sr.query, chunked) else chunked)
  }

  /** `AcsVectorQuery` as the per-query function of `ForEach`. */
  function AcsVectorQueryFn(env: SearchEnv, queryType: string, maxTokens: int, topK: int)
    : SearchResult<AcsHit> -> Result<seq<Document>>
  {
    sr => AcsVectorQuery(env, queryType, sr, maxTokens, topK)
  }

  /** `ACSVectorChunker.chunk_results`. */
  function AcsVectorChunkResults(env: SearchEnv, queryType: string, results: seq<SearchResult<AcsHit>>, maxTokens: int,
                                 topK: int): Result<seq<seq<Document>>> {
    ForEach(AcsVectorQueryFn(env, queryType, maxTokens, topK), results)
  }

  /** One query of the vector chunker fails with TypeError exactly when two
      or more hits include one without a score, and with the missing-query
      error exactly when the scores compare, something is kept and there is
      no query; a rescoring query type leaves every score present and at
      most 1.0. */
  lemma AcsVectorQueryErrors(env: SearchEnv, queryType: string, sr: SearchResult<AcsHit>, maxTokens: int, topK: int,
                             r: Result<seq<Document>>)
    requires r == AcsVectorQuery(env, queryType, sr, maxTokens, topK)
    ensures r == Failure(TypeMismatch) <==> |sr.topK| >= 2 && exists i :: 0 <= i < |sr.topK| && VectorHitScore(sr.topK[i]).None?
    ensures r == Failure(InvalidArgument(NoQueryMessage)) <==>
              (|sr.topK| <= 1 || forall i :: 0 <= i < |sr.topK| ==> VectorHitScore(sr.topK[i]).Some?)
              && TakeCount(|sr.topK|, topK) > 0 && !HasQuery(sr.query)
  {
    PreRankFacts(VectorDocs(sr.topK), topK, PreRank(VectorDocs(sr.topK), topK));
  }

  /** A rescoring query type leaves every score of the vector chunker
      present and at most 1.0. */
  lemma AcsVectorQueryScores(env: SearchEnv, queryType: string, sr: SearchResult<AcsHit>, maxTokens: int, topK: int,
                             r: Result<seq<Document>>)
    requires r == AcsVectorQuery(env, queryType, sr, maxTokens, topK)
    ensures r.Success? && VectorRescores(queryType) ==>
              forall i :: 0 <= i < |r.value| ==> r.value[i].score.Some? && r.value[i].score.value <= 1.0
  {
    var pre := PreRank(VectorDocs(sr.topK), topK);
    if pre.Success? {
      var chunked := ChunkOnTheFly(env, TextChunkerV2, sr.query, pre.value, maxTokens, topK);
      if chunked.Success? && VectorRescores(queryType) {
        RescoreFacts(env, sr.query, chunked.value);
      }
    }
  }

  /** The loop of `ACSVectorChunker.chunk_results` over the hits of one
      query. */
  method VectorDocsMethod(hits: seq<AcsHit>) returns (docs: seq<Document>)
    ensures docs == VectorDocs(hits)
  {
    docs := [];
    for i := 0 to |hits|
      invariant docs == VectorDocs(hits[..i])
    {
      var hit := hits[i];
      var score := hit.metadata.searchScore;
      if ScoreTruthy(hit.metadata.rerankerScore) {
        score := Some(hit.metadata.rerankerScore.value / 4.0);
      }
      var doc := ResultToDocument(hit);
      docs := docs + [doc.(score := score)];
    }
    assert hits[..|hits|] == hits;
  }

  /** One query of `ACSVectorChunker.chunk_results`. */
  method AcsVectorQueryMethod(env: SearchEnv, queryType: string, sr: SearchResult<AcsHit>, maxTokens: int, topK: int)
    returns (r: Result<seq<Document>>)
    ensures r == AcsVectorQuery(env, queryType, sr, maxTokens, topK)
  {
    var docs := VectorDocsMethod(sr.topK);
    var pre := PreRank(docs, topK);
    match pre {
      case Failure(e) =>
        r := Failure(e);
      case Success(top) =>
        var chunked := ChunkOnTheFlyMethod(env, TextChunkerV2, sr.query, top, maxTokens, topK);
        match chunked {
          case Failure(e) =>
            r := Failure(e);
          case Success(out) =>
            if VectorRescores(queryType) {
              out := Rescore(env, sr.query, out);
            }
            r := Success(out);
        }
    }
  }

  /** `ACSVectorChunker.chunk_results`: the loop over the queries. */
  method AcsVectorChunkResultsMethod(env: SearchEnv, queryType: string, results: seq<SearchResult<AcsHit>>,
                                     maxTokens: int, topK: int) returns (r: Result<seq<seq<Document>>>)
    ensures r == AcsVectorChunkResults(env, queryType, results, maxTokens, topK)
  {
    var perQuery := AcsVectorQueryFn(env, queryType, maxTokens, topK);
    var docs: seq<seq<Document>> := [];
    for i := 0 to |results|
      invariant ForEach(perQuery, results[..i]) == Success(docs)
    {
      var q := AcsVectorQueryMethod(env, queryType, results[i], maxTokens, topK);
      assert perQuery(results[i]) == q;
      match q {
        case Failure(e) =>
          ForEachFailAt(perQuery, results, i);
          return Failure(e);
        case Success(list) =>
          ForEachSnoc(perQuery, results, i, docs, list);
          docs := docs + [list];
      }
    }
    assert results[..|results|] == results;
    r := Success(docs);
  }

  // ===========================================================================
  // CosmosChunker
  // ===========================================================================

  /** `CosmosChunker.result_to_dataclass`: each field read with its default
      (None for id, chunk id, url and metadata, "" for title, content and
      file path); a value that is not a dict has no `get`. */
  function CosmosResultToDataclass(result: Value): Result<CosmosHit> {
    if !result.Obj? then Failure(TypeMismatch)
    else
      var id :- AsOptionalString(GetOr(result, "id", Null));
      var chunkId :- AsChunkId(GetOr(result, "chunk_id", Null));
      var title :- AsOptionalString(GetOr(result, "title", Str("")));
      var content :- AsString(GetOr(result, "content", Str("")));
      var filepath :- AsOptionalString(GetOr(result, "filepath", Str("")));
      var url :- AsOptionalString(GetOr(result, "url", Null));
      Success(CosmosHit(chunkId, id, title, content, filepath, url, GetOr(result, "metadata", Null)))
  }

  /** The keys of a Cosmos hit. */
  const CosmosKeys: seq<string> := ["id", "chunk_id", "title", "content", "filepath", "url", "metadata"]

  /** A Cosmos hit written as the dict the search returns. */
  function CosmosHitValue(hit: CosmosHit): (r: Value)
    ensures r.Obj? && |r.fields| == |CosmosKeys| && forall i :: 0 <= i < |CosmosKeys| ==> r.fields[i].key == CosmosKeys[i]
  {
    Obj([Field("id", OptionalString(hit.id)), Field("chunk_id", ChunkIdValue(hit.chunkId)),
         Field("title", OptionalString(hit.title)), Field("content", Str(hit.content)),
         Field("filepath", OptionalString(hit.filepath)), Field("url", OptionalString(hit.url)),
         Field("metadata", hit.metadata)])
  }

  /** Reading a hit's own dict gives the hit back. */
  lemma CosmosResultToDataclassRoundTrip(hit: CosmosHit)
    ensures CosmosResultToDataclass(CosmosHitValue(hit)) == Success(hit)
  {
    var v := CosmosHitValue(hit);
    CosmosLookupAt(hit, 1);
    CosmosLookupAt(hit, 2);
    CosmosLookupAt(hit, 3);
    CosmosLookupAt(hit, 4);
    CosmosLookupAt(hit, 5);
    CosmosLookupAt(hit, 6);
    assert AsOptionalString(GetOr(v, "id", Null)) == Success(hit.id);
    assert AsOptionalString(GetOr(v, "title", Str(""))) == Success(hit.title);
    assert AsString(GetOr(v, "content", Str(""))) == Success(hit.content);
    assert AsOptionalString(GetOr(v, "filepath", Str(""))) == Success(hit.filepath);
    assert AsOptionalString(GetOr(v, "url", Null)) == Success(hit.url);
    assert GetOr(v, "metadata", Null) == hit.metadata;
    assert AsChunkId(ChunkIdValue(hit.chunkId)) == Success(hit.chunkId);
  }

  lemma CosmosLookupAt(hit: CosmosHit, k: nat)
    requires k < |CosmosKeys|
    ensures Lookup(CosmosHitValue(hit).fields, CosmosKeys[k]) == Some(CosmosHitValue(hit).fields[k].value)
  {
    LookupSkip(CosmosHitValue(hit).fields, k, CosmosKeys[k]);
  }

  /** An empty dict gives every default; anything but a dict is refused. */
  lemma CosmosResultToDataclassDefaults(v: Value)
    ensures CosmosResultToDataclass(Obj([])) == Success(CosmosHit(NoId, None, Some(""), "", Some(""), None, Null))
    ensures !v.Obj? ==> CosmosResultToDataclass(v) == Failure(TypeMismatch)
  {
  }

  /** `CosmosChunker._result_to_document`: score 1.0 and no chunk id. */
  function CosmosToDocument(hit: CosmosHit): Document {
    Document(hit.content, NoId, Some(1.0), hit.title, hit.filepath, hit.url, hit.metadata)
  }

  function CosmosDocs(hits: seq<CosmosHit>): (r: seq<Document>)
    ensures |r| == |hits| && forall i :: 0 <= i < |hits| ==> r[i] == CosmosToDocument(hits[i])
  {
    seq(|hits|, i requires 0 <= i < |hits| => CosmosToDocument(hits[i]))
  }

  /** The Cosmos chunker's output for one query: the hits as Documents,
      re-chunked, then always rescored. */
  function CosmosQuery(env: SearchEnv, sr: SearchResult<CosmosHit>, maxTokens: int, topK: int): Result<seq<Document>> {
    var chunked :- ChunkOnTheFly(env, TextChunkerV2, sr.query, CosmosDocs(sr.topK), maxTokens, topK);
    Success(Rescore(env, sr.query, chunked))
  }

  /** `CosmosQuery` as the per-query function of `ForEach`. */
  function CosmosQueryFn(env: SearchEnv, maxTokens: int, topK: int): SearchResult<CosmosHit> -> Result<seq<Document>> {
    sr => CosmosQuery(env, sr, maxTokens, topK)
  }

  /** `CosmosChunker.chunk_results`. */
  function CosmosChunkResults(env: SearchEnv, results: seq<SearchResult<CosmosHit>>, maxTokens: int, topK: int)
    : Result<seq<seq<Document>>> {
    ForEach(CosmosQueryFn(env, maxTokens, topK), results)
  }

  /** One query fails exactly when it has hits and no query; on success
      every score is present and at most 1.0. */
  lemma CosmosQueryFacts(env: SearchEnv, sr: SearchResult<CosmosHit>, maxTokens: int, topK: int, r: Result<seq<Document>>)
    requires r == CosmosQuery(env, sr, maxTokens, topK)
    ensures r.Failure? <==> sr.topK != [] && !HasQuery(sr.query)
    ensures r.Failure? ==> r.error == InvalidArgument(NoQueryMessage)
    ensures r.Success? ==> forall i :: 0 <= i < |r.value| ==> r.value[i].score.Some? && r.value[i].score.value <= 1.0
  {
    var chunked := ChunkOnTheFly(env, TextChunkerV2, sr.query, CosmosDocs(sr.topK), maxTokens, topK);
    if chunked.Success? {
      RescoreFacts(env, sr.query, chunked.value);
    }
  }

  /** When every hit fits in a chunk, the output is the hits in their order,
      each with chunk id "0" and score `min(0.2 + sim, 1.0)`. */
  lemma CosmosQueryFits(env: SearchEnv, sr: SearchResult<CosmosHit>, maxTokens: int, topK: int, r: Result<seq<Document>>)
    requires HasQuery(sr.query)
    requires forall k :: 0 <= k < |sr.topK| ==> Tokens(env, sr.topK[k].content) <= maxTokens
    requires r == CosmosQuery(env, sr, maxTokens, topK)
    ensures r.Success? && |r.value| == |sr.topK|
    ensures forall k :: 0 <= k < |sr.topK| ==>
              r.value[k] == CosmosToDocument(sr.topK[k]).(chunkId := StrId("0"),
                                                         score := Some(Boosted(env.sim(sr.query.value, TitledTexts(r.value), k))))
  {
    var docs := CosmosDocs(sr.topK);
    var chunked := ChunkOnTheFly(env, TextChunkerV2, sr.query, docs, maxTokens, topK);
    OnTheFlyFits(env, TextChunkerV2, sr.query, docs, maxTokens, topK, chunked);
    RescoreFacts(env, sr.query, chunked.value);
    assert TitledTexts(r.value) == TitledTexts(chunked.value);
  }

  /** The loop of `CosmosChunker.chunk_results` over the hits of one query. */
  method CosmosDocsMethod(hits: seq<CosmosHit>) returns (docs: seq<Document>)
    ensures docs == CosmosDocs(hits)
  {
    docs := [];
    for i := 0 to |hits|
      invariant docs == CosmosDocs(hits[..i])
    {
      docs := docs + [CosmosToDocument(hits[i])];
    }
    assert hits[..|hits|] == hits;
  }

  /** One query of `CosmosChunker.chunk_results`. */
  method CosmosQueryMethod(env: SearchEnv, sr: SearchResult<CosmosHit>, maxTokens: int, topK: int)
    returns (r: Result<seq<Document>>)
    ensures r == CosmosQuery(env, sr, maxTokens, topK)
  {
    var docs := CosmosDocsMethod(sr.topK);
    var chunked := ChunkOnTheFlyMethod(env, TextChunkerV2, sr.query, docs, maxTokens, topK);
    match chunked {
      case Failure(e) =>
        r := Failure(e);
      case Success(out) =>
        r := Success(Rescore(env, sr.query, out));
    }
  }

  /** `CosmosChunker.chunk_results`: the loop over the queries. */
  method CosmosChunkResultsMethod(env: SearchEnv, results: seq<SearchResult<CosmosHit>>, maxTokens: int, topK: int)
    returns (r: Result<seq<seq<Document>>>)
    ensures r == CosmosChunkResults(env, results, maxTokens, topK)
  {
    var perQuery := CosmosQueryFn(env, maxTokens, topK);
    var docs: seq<seq<Document>> := [];
    for i := 0 to |results|
      invariant ForEach(perQuery, results[..i]) == Success(docs)
    {
      var q := CosmosQueryMethod(env, results[i], maxTokens, topK);
      assert perQuery(results[i]) == q;
      match q {
        case Failure(e) =>
          ForEachFailAt(perQuery, results, i);
          return Failure(e);
        case Success(list) =>
          ForEachSnoc(perQuery, results, i, docs, list);
          docs := docs + [list];
      }
    }
    assert results[..|results|] == results;
    r := Success(docs);
  }

  // ===========================================================================
  // ChunkerFactory
  // ===========================================================================

  /** The chunker `create_chunker` builds, with the query type it keeps. */
  datatype Chunker = AcsTextChunker(queryType: string) | AcsVectorChunker(queryType: string) | CosmosChunker

  const InvalidChunkerMessage := "Please select a valid Chunker configuration"

  /** `ChunkerFactory.create_chunker`: keyword and semantic queries on
      Azure AI Search use the text chunker, its three vector query types the
      vector chunker, and vector queries on Cosmos the Cosmos chunker. */
  function CreateChunker(dataSource: string, queryType: string): Result<Chunker> {
    if dataSource == "acs" && (queryType == "simple" || queryType == "semantic") then
      Success(AcsTextChunker(queryType))
    else if dataSource == "acs"
              && (queryType == "vector" || queryType == "vector_simple_hybrid" || queryType == "vector_semantic_hybrid") then
      Success(AcsVectorChunker(queryType))
    else if dataSource == "cosmos" && queryType == "vector" then Success(CosmosChunker)
    else Failure(InvalidArgument(InvalidChunkerMessage))
  }

  /** Over the data sources and query types: every query type has a chunker
      on Azure AI Search, chosen by whether it is a vector type, and Cosmos
      supports the vector query type only; an unknown data source or query
      type has no chunker. */
  lemma CreateChunkerFacts(d: DataSourceType, q: QueryType, source: string, queryType: string)
    ensures var r := CreateChunker(DataSourceValue(d), QueryTypeValue(q));
            (r.Failure? <==> d == Cosmos && q != Vector)
            && (r.Failure? ==> r.error == InvalidArgument(InvalidChunkerMessage))
            && (d == Acs && (q == Simple || q == Semantic) ==> r == Success(AcsTextChunker(QueryTypeValue(q))))
            && (d == Acs && q != Simple && q != Semantic ==> r == Success(AcsVectorChunker(QueryTypeValue(q))))
            && (d == Cosmos && q == Vector ==> r == Success(CosmosChunker))
    ensures ParseDataSource(source).Failure? || ParseQueryType(queryType).Failure? ==> CreateChunker(source, queryType).Failure?
  {
  }
}
