/** The flow glue around the chunkers: `flowUtils` reshapes the retrieval
    responses into search results, `parse_results` turns their hits into
    the records of the data source, `chunk_documents_core` runs the chunker
    the factory picks, and the flow's `chunk_documents` tool checks the UI
    labels first. */
module Flow {
  import opened Wrappers
  import opened Json
  import opened Documents
  import opened AcsUtils
  import opened OnTheFly
  import opened SearchChunkers
  import opened ChunkingUtils
  import opened RagUtils

  // ===========================================================================
  // flowUtils.transform_raw_retrieval_doc
  // ===========================================================================

  /** The metadata keys copied with "" as default. */
  const TextKeys: seq<string> := ["id", "title", "url", "filepath"]

  /** The metadata keys copied with None as default. */
  const OtherKeys: seq<string> :=
    ["contentVector", "meta_json_string", "@search.score", "@search.reranker_score", "@search.highlights",
     "@search.captions", "captions", "answers"]

  /** Where the metadata is read from: `additional_fields` when that key is
      present, else `metadata` when present, else nothing. */
  function MetadataSource(raw: Value): Option<Value> {
    if Get(raw, "additional_fields").Some? then Get(raw, "additional_fields")
    else Get(raw, "metadata")
  }

  /** The metadata dict built from a truthy source: the four text keys with
      default "", then the eight other keys with default None. */
  function MetadataFrom(src: Value): Value
    requires src.Obj?
  {
    Obj(seq(|TextKeys|, i requires 0 <= i < |TextKeys| => Field(TextKeys[i], GetOr(src, TextKeys[i], Str(""))))
        + seq(|OtherKeys|, i requires 0 <= i < |OtherKeys| => Field(OtherKeys[i], GetOr(src, OtherKeys[i], Null))))
  }

  /** `transform_raw_retrieval_doc`: text and score copied, and metadata
      rebuilt from the source field when it is truthy, `{}` otherwise; a
      truthy source that is not a dict has no `get`. */
  function TransformRawRetrievalDoc(raw: Value): Result<Value> {
    var text :- Index(raw, "text");
    var score :- Index(raw, "score");
    var src := MetadataSource(raw);
    if src.Some? && Truthy(src.value) && !src.value.Obj? then Failure(TypeMismatch)
    else
      var metadata := if src.Some? && Truthy(src.value) then MetadataFrom(src.value) else Obj([]);
      Success(Obj([Field("text", text), Field("score", score), Field("metadata", metadata)]))
  }

  /** The transformed doc holds the raw text and score; its metadata has
      exactly the twelve keys when the source is truthy, each read from the
      source or defaulted ("" for id, title, url and filepath, None for the
      rest), and is empty otherwise. `additional_fields` takes precedence
      even when it is falsy and `metadata` is not. */
  lemma TransformRawRetrievalDocFacts(raw: Value, r: Result<Value>)
    requires r == TransformRawRetrievalDoc(raw)
    ensures r.Failure? <==> Get(raw, "text").None? || Get(raw, "score").None?
                            || (MetadataSource(raw).Some? && Truthy(MetadataSource(raw).value) && !MetadataSource(raw).value.Obj?)
    ensures r.Success? ==>
              var src := MetadataSource(raw);
              var m := Get(r.value, "metadata");
              Get(r.value, "text") == Get(raw, "text") && Get(r.value, "score") == Get(raw, "score") && m.Some? && m.value.Obj?
              && (src.None? || !Truthy(src.value) ==> m.value == Obj([]))
              && (src.Some? && Truthy(src.value) ==>
                    Keys(m.value.fields) == TextKeys + OtherKeys
                    && (forall i :: 0 <= i < |TextKeys| ==> m.value.fields[i].value == GetOr(src.value, TextKeys[i], Str("")))
                    && (forall i :: 0 <= i < |OtherKeys| ==> m.value.fields[|TextKeys| + i].value == GetOr(src.value, OtherKeys[i], Null)))
    ensures Get(raw, "additional_fields").Some? ==> MetadataSource(raw) == Get(raw, "additional_fields")
  {
    if r.Success? {
      LookupSkip(r.value.fields, 1, "score");
      LookupSkip(r.value.fields, 2, "metadata");
      var src := MetadataSource(raw);
      if src.Some? && Truthy(src.value) {
        var fields := MetadataFrom(src.value).fields;
        assert |fields| == |TextKeys + OtherKeys|;
        forall i | 0 <= i < |fields| ensures fields[i].key == (TextKeys + OtherKeys)[i] {
        }
        KeysOfFields(fields, TextKeys + OtherKeys);
      }
    }
  }

  /** The keys of a field list are the listed names when every field
      carries the name at its position. */
  lemma {:induction false} KeysOfFields(fields: seq<Field>, names: seq<string>)
    requires |fields| == |names| && forall i :: 0 <= i < |fields| ==> fields[i].key == names[i]
    ensures Keys(fields) == names
  {
    if fields != [] {
      KeysOfFields(fields[1..], names[1..]);
    }
  }

  // ===========================================================================
  // flowUtils.transform_retrieval_response
  // ===========================================================================

  /** One query's responses, transformed, with the query. */
  function TransformQuery(query: Value, responses: seq<Value>): Result<Value> {
    var topK :- ForEach(TransformRawRetrievalDoc, responses);
    Success(Obj([Field("top_k", Arr(topK)), Field("query", query)]))
  }

  /** `TransformQuery` on a (query, responses) pair. */
  function TransformPair(p: (Value, seq<Value>)): Result<Value> {
    TransformQuery(p.0, p.1)
  }

  /** `zip(xs, ys)`: the pairs up to the shorter list. */
  function Zip<A, B>(xs: seq<A>, ys: seq<B>): (r: seq<(A, B)>)
    ensures |r| == (if |xs| < |ys| then |xs| else |ys|)
    ensures forall i :: 0 <= i < |r| ==> r[i] == (xs[i], ys[i])
  {
    var n := if |xs| < |ys| then |xs| else |ys|;
    seq(n, i requires 0 <= i < n => (xs[i], ys[i]))
  }

  /** `transform_retrieval_response`. */
  function TransformRetrievalResponse(responses: seq<seq<Value>>, queries: seq<Value>): Result<seq<Value>> {
    ForEach(TransformPair, Zip(queries, responses))
  }

  /** One query's mapping holds the query and its responses transformed in
      order, and exists exactly when every response transforms. */
  lemma TransformQueryFacts(query: Value, responses: seq<Value>, r: Result<Value>)
    requires r == TransformQuery(query, responses)
    ensures r.Success? <==> forall j :: 0 <= j < |responses| ==> TransformRawRetrievalDoc(responses[j]).Success?
    ensures r.Success? ==>
              Get(r.value, "query") == Some(query) && Get(r.value, "top_k").Some? && Get(r.value, "top_k").value.Arr?
              && var topK := Get(r.value, "top_k").value.items;
                 |topK| == |responses|
                 && forall j :: 0 <= j < |topK| ==> Success(topK[j]) == TransformRawRetrievalDoc(responses[j])
  {
    ForEachFacts(TransformRawRetrievalDoc, responses);
    if r.Success? {
      LookupSkip(r.value.fields, 1, "query");
    }
  }

  /** One mapping per pair, as many as the shorter list, in order. */
  lemma TransformRetrievalResponseFacts(responses: seq<seq<Value>>, queries: seq<Value>, r: Result<seq<Value>>)
    requires r == TransformRetrievalResponse(responses, queries)
    ensures r.Success? <==> forall i :: 0 <= i < |queries| && i < |responses| ==> TransformQuery(queries[i], responses[i]).Success?
    ensures r.Success? ==>
              |r.value| == (if |queries| < |responses| then |queries| else |responses|)
              && forall i :: 0 <= i < |r.value| ==> TransformQuery(queries[i], responses[i]) == Success(r.value[i])
  {
    var zs := Zip(queries, responses);
    ForEachFacts(TransformPair, zs);
    assert forall i :: 0 <= i < |zs| ==> TransformPair(zs[i]) == TransformQuery(queries[i], responses[i]);
  }

  /** The loop of `transform_retrieval_response`. */
  method TransformRetrievalResponseMethod(responses: seq<seq<Value>>, queries: seq<Value>) returns (r: Result<seq<Value>>)
    ensures r == TransformRetrievalResponse(responses, queries)
  {
    var zs := Zip(queries, responses);
    var out: seq<Value> := [];
    for i := 0 to |zs|
      invariant ForEach(TransformPair, zs[..i]) == Success(out)
    {
      var topK := ForEachMethod(TransformRawRetrievalDoc, responses[i]);
      var mapping: Result<Value>;
      match topK {
        case Failure(e) =>
          mapping := Failure(e);
        case Success(docs) =>
          mapping := Success(Obj([Field("top_k", Arr(docs)), Field("query", queries[i])]));
      }
      assert TransformPair(zs[i]) == mapping;
      match mapping {
        case Failure(e) =>
          assert ForEach(TransformPair, zs[..i + 1]) == Failure(e) by {
            assert zs[..i + 1][..i] == zs[..i];
          }
          ForEachPrefixFailure(TransformPair, zs, i + 1);
          return Failure(e);
        case Success(m) =>
          ForEachSnoc(TransformPair, zs, i, out, m);
          out := out + [m];
      }
    }
    assert zs[..|zs|] == zs;
    r := Success(out);
  }

  // ===========================================================================
  // chunkDocuments.parse_results
  // ===========================================================================

  /** The hits of every query, as the records of the data source. */
  datatype Parsed =
    | AcsResults(acs: seq<SearchResult<AcsHit>>)
    | CosmosResults(cosmos: seq<SearchResult<CosmosHit>>)
    | RawResults(raw: seq<SearchResult<Value>>)

  /** `result["top_k"]`, iterated: it must be a list. */
  function TopKItems(result: Value): Result<seq<Value>> {
    var v :- Index(result, "top_k");
    if v.Arr? then Success(v.items) else Failure(TypeMismatch)
  }

  /** `result["query"]`: a string or None. */
  function QueryOf(result: Value): Result<Option<string>> {
    var v :- Index(result, "query");
    AsOptionalString(v)
  }

  /** One result of an Azure AI Search query: its hits through
      `result_to_dataclass`, then the query; latency takes the default. */
  function ParseAcsResult(result: Value): Result<SearchResult<AcsHit>> {
    var items :- TopKItems(result);
    var hits :- ForEach(ResultToDataclass, items);
    var query :- QueryOf(result);
    Success(NewSearchResult(hits, query, None))
  }

  /** One result of a Cosmos query: its hits through the Cosmos
      `result_to_dataclass`. */
  function ParseCosmosResult(result: Value): Result<SearchResult<CosmosHit>> {
    var items :- TopKItems(result);
    var hits :- ForEach(CosmosResultToDataclass, items);
    var query :- QueryOf(result);
    Success(NewSearchResult(hits, query, None))
  }

  /** One result of another data source: its hits as they are. */
  function ParseRawResult(result: Value): Result<SearchResult<Value>> {
    var items :- TopKItems(result);
    var query :- QueryOf(result);
    Success(NewSearchResult(items, query, None))
  }

  /** `parse_results`: one SearchResult per result, in order. */
  function ParseResults(results: seq<Value>, source: string): Result<Parsed> {
    if source == "acs" then
      var r :- ForEach(ParseAcsResult, results);
      Success(AcsResults(r))
    else if source == "cosmos" then
      var r :- ForEach(ParseCosmosResult, results);
      Success(CosmosResults(r))
    else
      var r :- ForEach(ParseRawResult, results);
      Success(RawResults(r))
  }

  /** Every parsed result keeps the query and the number and order of the
      hits, each hit converted by the data source's reader (or kept as it
      is), and gets the default latency. */
  lemma ParseAcsResultFacts(result: Value, r: Result<SearchResult<AcsHit>>)
    requires r == ParseAcsResult(result)
    ensures r.Success? ==>
              TopKItems(result).Success? && QueryOf(result) == Success(r.value.query)
              && |r.value.topK| == |TopKItems(result).value| && r.value.latency == DefaultLatency
              && forall j :: 0 <= j < |r.value.topK| ==> ResultToDataclass(TopKItems(result).value[j]) == Success(r.value.topK[j])
  {
    if r.Success? {
      ForEachFacts(ResultToDataclass, TopKItems(result).value);
    }
  }

  lemma ParseCosmosResultFacts(result: Value, r: Result<SearchResult<CosmosHit>>)
    requires r == ParseCosmosResult(result)
    ensures r.Success? ==>
              TopKItems(result).Success? && QueryOf(result) == Success(r.value.query)
              && |r.value.topK| == |TopKItems(result).value| && r.value.latency == DefaultLatency
              && forall j :: 0 <= j < |r.value.topK| ==> CosmosResultToDataclass(TopKItems(result).value[j]) == Success(r.value.topK[j])
  {
    if r.Success? {
      ForEachFacts(CosmosResultToDataclass, TopKItems(result).value);
    }
  }

  /** The parsed results match the data source and keep the number and
      order of the results. */
  lemma ParseResultsFacts(results: seq<Value>, source: string, r: Result<Parsed>)
    requires r == ParseResults(results, source)
    ensures r.Success? && source == "acs" ==>
              r.value.AcsResults? && |r.value.acs| == |results|
              && forall i :: 0 <= i < |results| ==> ParseAcsResult(results[i]) == Success(r.value.acs[i])
    ensures r.Success? && source == "cosmos" ==>
              r.value.CosmosResults? && |r.value.cosmos| == |results|
              && forall i :: 0 <= i < |results| ==> ParseCosmosResult(results[i]) == Success(r.value.cosmos[i])
    ensures r.Success? && source != "acs" && source != "cosmos" ==>
              r.value.RawResults? && |r.value.raw| == |results|
              && forall i :: 0 <= i < |results| ==> ParseRawResult(results[i]) == Success(r.value.raw[i])
  {
    if source == "acs" {
      ForEachFacts(ParseAcsResult, results);
    } else if source == "cosmos" {
      ForEachFacts(ParseCosmosResult, results);
    } else {
      ForEachFacts(ParseRawResult, results);
    }
  }

  /** The loop of `parse_results`. */
  method ParseResultsMethod(results: seq<Value>, source: string) returns (r: Result<Parsed>)
    ensures r == ParseResults(results, source)
  {
    if source == "acs" {
      var rs := ForEachMethod(ParseAcsResult, results);
      r := if rs.Success? then Success(AcsResults(rs.value)) else Failure(rs.error);
    } else if source == "cosmos" {
      var rs := ForEachMethod(ParseCosmosResult, results);
      r := if rs.Success? then Success(CosmosResults(rs.value)) else Failure(rs.error);
    } else {
      var rs := ForEachMethod(ParseRawResult, results);
      r := if rs.Success? then Success(RawResults(rs.value)) else Failure(rs.error);
    }
  }

  // ===========================================================================
  // chunkDocuments.chunk_documents_core
  // ===========================================================================

  /** `chunker.chunk_results(parsed_results, ...)`: each chunker reads the
      records of its own data source. */
  function ChunkResults(env: SearchEnv, chunker: Chunker, parsed: Parsed, maxTokens: int, topK: int)
    : Result<seq<seq<Document>>>
  {
    match chunker
    case AcsTextChunker(queryType) =>
      if parsed.AcsResults? then AcsTextChunkResults(env, queryType, parsed.acs, maxTokens, topK) else Failure(TypeMismatch)
    case AcsVectorChunker(queryType) =>
      if parsed.AcsResults? then AcsVectorChunkResults(env, queryType, parsed.acs, maxTokens, topK) else Failure(TypeMismatch)
    case CosmosChunker =>
      if parsed.CosmosResults? then CosmosChunkResults(env, parsed.cosmos, maxTokens, topK) else Failure(TypeMismatch)
  }

  /** `chunk_documents_core`: the chunker is built first, then the results
      are parsed and chunked, and the Documents become dicts. */
  function ChunkDocumentsCore(env: SearchEnv, results: seq<Value>, maxTokens: int, topK: int, source: string,
                              queryType: string): Result<seq<seq<Value>>>
  {
    var chunker :- CreateChunker(source, queryType);
    var parsed :- ParseResults(results, source);
    var chunked :- ChunkResults(env, chunker, parsed, maxTokens, topK);
    Success(DocumentsToJsonDict(chunked))
  }

  /** A pair with no chunker fails with the factory's error whatever the
      results hold, since the chunker is built before parsing; the chunker
      the factory builds always reads the records parsing produced; and the
      output has one list per result. */
  lemma ChunkDocumentsCoreFacts(env: SearchEnv, results: seq<Value>, maxTokens: int, topK: int, source: string,
                                queryType: string, r: Result<seq<seq<Value>>>)
    requires r == ChunkDocumentsCore(env, results, maxTokens, topK, source, queryType)
    ensures CreateChunker(source, queryType).Failure? ==> r == Failure(InvalidArgument(InvalidChunkerMessage))
    ensures CreateChunker(source, queryType).Success? && ParseResults(results, source).Success? ==>
              var parsed := ParseResults(results, source).value;
              (CreateChunker(source, queryType).value.CosmosChunker? ==> parsed.CosmosResults?)
              && (!CreateChunker(source, queryType).value.CosmosChunker? ==> parsed.AcsResults?)
    ensures r.Success? ==> |r.value| == |results|
  {
    var c := CreateChunker(source, queryType);
    if c.Success? {
      var p := ParseResults(results, source);
      ParseResultsFacts(results, source, p);
      if p.Success? {
        var chunked := ChunkResults(env, c.value, p.value, maxTokens, topK);
        match c.value
        case AcsTextChunker(q) =>
          ForEachFacts(AcsTextQueryFn(env, q, maxTokens, topK), p.value.acs);
        case AcsVectorChunker(q) =>
          ForEachFacts(AcsVectorQueryFn(env, q, maxTokens, topK), p.value.acs);
        case CosmosChunker =>
          ForEachFacts(CosmosQueryFn(env, maxTokens, topK), p.value.cosmos);
      }
    }
  }

  // ===========================================================================
  // The flow's chunk_documents tool
  // ===========================================================================

  /** `chunk_documents`: the query-type label is checked, then the
      data-source label; the responses are reshaped and the labels
      translated before `chunk_documents_core`. */
  function ChunkDocuments(env: SearchEnv, results: seq<seq<Value>>, maxTokens: int, queries: seq<Value>, topK: int,
                          dataSource: string, queryType: string): Result<seq<seq<Value>>>
  {
    if queryType !in QueryTypeMap then Failure(InvalidQueryType(queryType))
    else if dataSource !in DataSourceMap then Failure(InvalidDataSource(dataSource))
    else
      var transformed :- TransformRetrievalResponse(results, queries);
      ChunkDocumentsCore(env, transformed, maxTokens, topK, DataSourceMap[dataSource], QueryTypeMap[queryType])
  }

  /** An unknown query-type label is reported before an unknown data-source
      label; with known labels the factory refuses exactly Cosmos with a
      query type other than "Vector", and then nothing is parsed. */
  lemma ChunkDocumentsFacts(env: SearchEnv, results: seq<seq<Value>>, maxTokens: int, queries: seq<Value>, topK: int,
                            dataSource: string, queryType: string, r: Result<seq<seq<Value>>>)
    requires r == ChunkDocuments(env, results, maxTokens, queries, topK, dataSource, queryType)
    ensures queryType !in QueryTypeMap ==> r == Failure(InvalidQueryType(queryType))
    ensures queryType in QueryTypeMap && dataSource !in DataSourceMap ==> r == Failure(InvalidDataSource(dataSource))
    ensures queryType in QueryTypeMap && dataSource in DataSourceMap ==>
              (CreateChunker(DataSourceMap[dataSource], QueryTypeMap[queryType]).Failure? <==>
                 dataSource == "Cosmos" && queryType != "Vector")
    ensures queryType in QueryTypeMap && dataSource == "Cosmos" && queryType != "Vector"
            && TransformRetrievalResponse(results, queries).Success? ==>
              r == Failure(InvalidArgument(InvalidChunkerMessage))
  {
    if queryType in QueryTypeMap && dataSource in DataSourceMap && TransformRetrievalResponse(results, queries).Success? {
      var transformed := TransformRetrievalResponse(results, queries).value;
      ChunkDocumentsCoreFacts(env, transformed, maxTokens, topK, DataSourceMap[dataSource], QueryTypeMap[queryType], r);
    }
  }
}
