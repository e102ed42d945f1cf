/** The data model of ragcore: Document, SearchResult and the per-retriever
    result records, with the conversions to and from plain dicts. */
module Documents {
  import opened Wrappers
  import opened Json

  /** A chunk id is `None`, an `int` (from `parse_results_list`) or a `str`. */
  datatype ChunkId = NoId | IntId(n: int) | StrId(s: string)

  /** `Document`: content plus the optional fields, in declaration order. */
  datatype Document = Document(
    content: string,
    chunkId: ChunkId,
    score: Option<real>,
    title: Option<string>,
    filepath: Option<string>,
    url: Option<string>,
    metadata: Value)

  /** `Document(content=...)` with every other field left at `None`. */
  function NewDocument(content: string): Document {
    Document(content, NoId, None, None, None, None, Null)
  }

  /** The right-hand side of `==`: a Document or any other object. */
  datatype Comparand = DocumentObject(doc: Document) | OtherObject

  /** `Document.__eq__`: equal content, title and filepath; any non-Document
      compares unequal. */
  predicate Equals(d: Document, other: Comparand) {
    other.DocumentObject?
    && d.content == other.doc.content
    && d.title == other.doc.title
    && d.filepath == other.doc.filepath
  }

  /** `__eq__` is an equivalence on Documents that ignores chunk id, score,
      url and metadata, and is never true against another kind of object. */
  lemma EqualsLaws(a: Document, b: Document, c: Document, id: ChunkId, score: Option<real>, url: Option<string>, meta: Value)
    ensures Equals(a, DocumentObject(a))
    ensures Equals(a, DocumentObject(b)) ==> Equals(b, DocumentObject(a))
    ensures Equals(a, DocumentObject(b)) && Equals(b, DocumentObject(c)) ==> Equals(a, DocumentObject(c))
    ensures Equals(a, DocumentObject(a.(chunkId := id, score := score, url := url, metadata := meta)))
    ensures !Equals(a, OtherObject)
  {
  }

  /** Field names of Document, in declaration order. */
  const DocumentFields: seq<string> := ["content", "chunk_id", "score", "title", "filepath", "url", "metadata"]

  function OptionalString(o: Option<string>): Value {
    if o.Some? then Str(o.value) else Null
  }

  function ChunkIdValue(c: ChunkId): Value {
    match c
    case NoId => Null
    case IntId(n) => Int(n)
    case StrId(s) => Str(s)
  }

  function ScoreValue(o: Option<real>): Value {
    if o.Some? then Float(o.value) else Null
  }

  /** `dataclass_to_dict(doc)`: one entry per field, in declaration order. */
  function ToDict(d: Document): (r: Value)
    ensures r.Obj? && Keys(r.fields) == DocumentFields
    ensures Lookup(r.fields, "content") == Some(Str(d.content))
  {
    Obj([Field("content", Str(d.content)),
         Field("chunk_id", ChunkIdValue(d.chunkId)),
         Field("score", ScoreValue(d.score)),
         Field("title", OptionalString(d.title)),
         Field("filepath", OptionalString(d.filepath)),
         Field("url", OptionalString(d.url)),
         Field("metadata", d.metadata)])
  }

  function AsOptionalString(v: Value): Result<Option<string>> {
    match v
    case Null => Success(None)
    case Str(s) => Success(Some(s))
    case _ => Failure(TypeMismatch)
  }

  function AsChunkId(v: Value): Result<ChunkId> {
    match v
    case Null => Success(NoId)
    case Int(n) => Success(IntId(n))
    case Str(s) => Success(StrId(s))
    case _ => Failure(TypeMismatch)
  }

  function AsScore(v: Value): Result<Option<real>> {
    match v
    case Null => Success(None)
    case Int(i) => Success(Some(i as real))
    case Float(f) => Success(Some(f))
    case _ => Failure(TypeMismatch)
  }

  predicate KnownKeys(fields: seq<Field>) {
    forall i :: 0 <= i < |fields| ==> fields[i].key in DocumentFields
  }

  /** `Document(**d)`: every key must name a field and `content` must be
      present, otherwise the call raises TypeError; absent fields default to None. */
  function FromDict(v: Value): (r: Result<Document>)
    ensures r.Success? ==> v.Obj? && KnownKeys(v.fields) && Lookup(v.fields, "content") == Some(Str(r.value.content))
    ensures v.Obj? && !KnownKeys(v.fields) ==> r.Failure?
    ensures v.Obj? && "content" !in Keys(v.fields) ==> r.Failure?
  {
    if !v.Obj? || !KnownKeys(v.fields) then Failure(TypeMismatch)
    else
      var content := Lookup(v.fields, "content");
      LookupFound(v.fields, "content");
      if content.None? then Failure(TypeMismatch)
      else if !content.value.Str? then Failure(TypeMismatch)
      else
        var chunkId := AsChunkId(Lookup(v.fields, "chunk_id").GetOr(Null));
        var score := AsScore(Lookup(v.fields, "score").GetOr(Null));
        var title := AsOptionalString(Lookup(v.fields, "title").GetOr(Null));
        var filepath := AsOptionalString(Lookup(v.fields, "filepath").GetOr(Null));
        var url := AsOptionalString(Lookup(v.fields, "url").GetOr(Null));
        if chunkId.Failure? || score.Failure? || title.Failure? || filepath.Failure? || url.Failure? then
          Failure(TypeMismatch)
        else
          var metadata := Lookup(v.fields, "metadata").GetOr(Null);
          Success(Document(content.value.s, chunkId.value, score.value, title.value, filepath.value, url.value, metadata))
  }

  /** Converting a Document to a dict and back gives the same Document. */
  lemma FromDictToDict(d: Document)
    ensures FromDict(ToDict(d)) == Success(d)
  {
    ToDictLookups(d);
    FieldValuesInverse(d);
  }

  lemma ToDictLookups(d: Document)
    ensures KnownKeys(ToDict(d).fields)
    ensures Lookup(ToDict(d).fields, "content") == Some(Str(d.content))
    ensures Lookup(ToDict(d).fields, "chunk_id") == Some(ChunkIdValue(d.chunkId))
    ensures Lookup(ToDict(d).fields, "score") == Some(ScoreValue(d.score))
    ensures Lookup(ToDict(d).fields, "title") == Some(OptionalString(d.title))
    ensures Lookup(ToDict(d).fields, "filepath") == Some(OptionalString(d.filepath))
    ensures Lookup(ToDict(d).fields, "url") == Some(OptionalString(d.url))
    ensures Lookup(ToDict(d).fields, "metadata") == Some(d.metadata)
  {
    var fs := ToDict(d).fields;
    assert KnownKeys(fs);
    ToDictLookupAt(d, 1);
    ToDictLookupAt(d, 2);
    ToDictLookupAt(d, 3);
    ToDictLookupAt(d, 4);
    ToDictLookupAt(d, 5);
    ToDictLookupAt(d, 6);
  }

  lemma ToDictLookupAt(d: Document, k: nat)
    requires k < |DocumentFields|
    ensures Lookup(ToDict(d).fields, DocumentFields[k]) == Some(ToDict(d).fields[k].value)
  {
    var fs := ToDict(d).fields;
    LookupSkip(fs, k, DocumentFields[k]);
  }

  lemma FieldValuesInverse(d: Document)
    ensures AsChunkId(ChunkIdValue(d.chunkId)) == Success(d.chunkId)
    ensures AsScore(ScoreValue(d.score)) == Success(d.score)
    ensures AsOptionalString(OptionalString(d.title)) == Success(d.title)
    ensures AsOptionalString(OptionalString(d.filepath)) == Success(d.filepath)
    ensures AsOptionalString(OptionalString(d.url)) == Success(d.url)
  {
  }

  /** `results_list_to_docs_list`: every dict of every list becomes a Document;
      the first dict that is not a valid Document raises. */
  function ConvertLists(lists: seq<seq<Value>>): Result<seq<seq<Document>>> {
    if lists == [] then Success([])
    else
      var front :- ConvertLists(lists[..|lists| - 1]);
      var last :- ConvertAll(lists[|lists| - 1]);
      Success(front + [last])
  }

  /** The loop of `results_list_to_docs_list`. */
  method ResultsListToDocsList(lists: seq<seq<Value>>) returns (r: Result<seq<seq<Document>>>)
    ensures r == ConvertLists(lists)
  {
    var docsList: seq<seq<Document>> := [];
    var i := 0;
    while i < |lists|
      invariant 0 <= i <= |lists|
      invariant ConvertLists(lists[..i]) == Success(docsList)
    {
      var docs := ConvertAll(lists[i]);
      assert lists[..i + 1][..i] == lists[..i];
      if docs.Failure? {
        ConvertListsFailurePersists(lists, i + 1);
        return Failure(docs.error);
      }
      docsList := docsList + [docs.value];
      i := i + 1;
    }
    assert lists[..i] == lists;
    return Success(docsList);
  }

  /** Once a prefix fails, the whole conversion fails with the same error. */
  lemma {:induction false} ConvertListsFailurePersists(lists: seq<seq<Value>>, k: nat)
    requires k <= |lists| && ConvertLists(lists[..k]).Failure?
    ensures ConvertLists(lists) == ConvertLists(lists[..k])
    decreases |lists| - k
  {
    if k < |lists| {
      assert lists[..k + 1][..k] == lists[..k];
      ConvertListsFailurePersists(lists, k + 1);
    } else {
      assert lists[..k] == lists;
    }
  }

  /** Every dict of every list is a valid Document. */
  predicate AllValid(lists: seq<seq<Value>>) {
    forall i, j :: 0 <= i < |lists| && 0 <= j < |lists[i]| ==> FromDict(lists[i][j]).Success?
  }

  /** `out` has the shape of `lists` and holds the Document of each dict. */
  predicate Converted(lists: seq<seq<Value>>, out: seq<seq<Document>>) {
    |out| == |lists|
    && (forall i :: 0 <= i < |lists| ==> |out[i]| == |lists[i]|)
    && forall i, j :: 0 <= i < |lists| && 0 <= j < |lists[i]| && j < |out[i]| ==> FromDict(lists[i][j]) == Success(out[i][j])
  }

  /** The conversion succeeds exactly when every dict is a valid Document. */
  lemma {:induction false} ConvertListsSucceeds(lists: seq<seq<Value>>)
    ensures ConvertLists(lists).Success? <==> AllValid(lists)
  {
    if lists != [] {
      var n := |lists| - 1;
      ConvertListsSucceeds(lists[..n]);
      AllValidSnoc(lists[..n], lists[n]);
      assert lists == lists[..n] + [lists[n]];
    }
  }

  lemma AllValidSnoc(front: seq<seq<Value>>, last: seq<Value>)
    ensures AllValid(front + [last])
      <==> AllValid(front) && forall j :: 0 <= j < |last| ==> FromDict(last[j]).Success?
  {
    var lists := front + [last];
    if AllValid(front) && forall j :: 0 <= j < |last| ==> FromDict(last[j]).Success? {
      forall i, j | 0 <= i < |lists| && 0 <= j < |lists[i]| ensures FromDict(lists[i][j]).Success? {
        if i < |front| {
          assert lists[i] == front[i];
        }
      }
    }
    if AllValid(lists) {
      forall i, j | 0 <= i < |front| && 0 <= j < |front[i]| ensures FromDict(front[i][j]).Success? {
        assert lists[i] == front[i];
      }
      forall j | 0 <= j < |last| ensures FromDict(last[j]).Success? {
        assert lists[|front|] == last;
      }
    }
  }

  /** A successful conversion keeps the shape of the input and converts each
      dict by itself. */
  lemma {:induction false} ConvertListsConverts(lists: seq<seq<Value>>)
    ensures ConvertLists(lists).Success? ==> Converted(lists, ConvertLists(lists).value)
  {
    if lists != [] && ConvertLists(lists).Success? {
      var n := |lists| - 1;
      ConvertListsConverts(lists[..n]);
      var front := ConvertLists(lists[..n]).value;
      var last := ConvertAll(lists[n]).value;
      assert ConvertLists(lists).value == front + [last];
      ConvertedSnoc(lists[..n], front, lists[n], last);
      assert lists == lists[..n] + [lists[n]];
    }
  }

  lemma ConvertedSnoc(lists: seq<seq<Value>>, out: seq<seq<Document>>, list: seq<Value>, docs: seq<Document>)
    requires Converted(lists, out) && ConvertAll(list) == Success(docs)
    ensures Converted(lists + [list], out + [docs])
  {
    var l2, o2 := lists + [list], out + [docs];
    forall i | 0 <= i < |l2| ensures |o2[i]| == |l2[i]| {
      if i < |lists| {
        assert o2[i] == out[i] && l2[i] == lists[i];
      }
    }
    forall i, j | 0 <= i < |l2| && 0 <= j < |l2[i]| && j < |o2[i]| ensures FromDict(l2[i][j]) == Success(o2[i][j]) {
      if i < |lists| {
        assert o2[i] == out[i] && l2[i] == lists[i];
      }
    }
  }

  /** `[Document(**doc) for doc in list]`. */
  function ConvertAll(list: seq<Value>): (r: Result<seq<Document>>)
    ensures r.Success? <==> forall j :: 0 <= j < |list| ==> FromDict(list[j]).Success?
    ensures r.Success? ==> |r.value| == |list| && forall j :: 0 <= j < |list| ==> FromDict(list[j]) == Success(r.value[j])
  {
    if list == [] then Success([])
    else
      var head :- FromDict(list[0]);
      var tail :- ConvertAll(list[1..]);
      assert forall j :: 1 <= j < |list| ==> list[j] == list[1..][j - 1];
      Success([head] + tail)
  }

  /** `SearchResult`: the top results of one query, with latency. */
  datatype SearchResult<T> = SearchResult(topK: seq<T>, query: Option<string>, latency: map<string, real>)

  /** `SearchResult.DEFAULT_LATENCY`. */
  const DefaultLatency: map<string, real> := map["tpromptLatency" := -1.0, "vectorSearchLatency" := -1.0]

  /** `SearchResult(top_k, query, latency)` followed by `__post_init__`. */
  function NewSearchResult<T>(topK: seq<T>, query: Option<string>, latency: Option<map<string, real>>): (r: SearchResult<T>)
    ensures r.topK == topK && r.query == query
    ensures latency.Some? ==> r.latency == latency.value
    ensures latency.None? ==> r.latency == DefaultLatency
  {
    SearchResult(topK, query, if latency.Some? then latency.value else DefaultLatency)
  }

  /** `QueryType` values. */
  datatype QueryType = Simple | Semantic | Vector | VectorSimpleHybrid | VectorSemanticHybrid

  /** `DataSourceType` values. */
  datatype DataSourceType = Acs | Cosmos

  function QueryTypeValue(q: QueryType): string {
    match q
    case Simple => "simple"
    case Semantic => "semantic"
    case Vector => "vector"
    case VectorSimpleHybrid => "vector_simple_hybrid"
    case VectorSemanticHybrid => "vector_semantic_hybrid"
  }

  /** `QueryType(value)`: the member whose value is the string, or ValueError. */
  function ParseQueryType(s: string): (r: Result<QueryType>)
    ensures r.Success? ==> QueryTypeValue(r.value) == s
    ensures r.Failure? ==> forall q: QueryType :: QueryTypeValue(q) != s
  {
    if s == "simple" then Success(Simple)
    else if s == "semantic" then Success(Semantic)
    else if s == "vector" then Success(Vector)
    else if s == "vector_simple_hybrid" then Success(VectorSimpleHybrid)
    else if s == "vector_semantic_hybrid" then Success(VectorSemanticHybrid)
    else Failure(InvalidQueryType(s))
  }

  function DataSourceValue(d: DataSourceType): string {
    match d
    case Acs => "acs"
    case Cosmos => "cosmos"
  }

  /** `DataSourceType(value)`. */
  function ParseDataSource(s: string): (r: Result<DataSourceType>)
    ensures r.Success? ==> DataSourceValue(r.value) == s
    ensures r.Failure? ==> forall d: DataSourceType :: DataSourceValue(d) != s
  {
    if s == "acs" then Success(Acs)
    else if s == "cosmos" then Success(Cosmos)
    else Failure(InvalidDataSource(s))
  }

  /** `Metadata` of an Azure AI Search hit. */
  datatype AcsMetadata = AcsMetadata(
    searchScore: Option<real>,
    rerankerScore: Option<real>,
    highlights: Value,
    filepath: Option<string>,
    url: Option<string>,
    chunkId: ChunkId,
    title: Option<string>)

  const EmptyAcsMetadata := AcsMetadata(None, None, Null, None, None, NoId, None)

  /** `SearchResultsACS`. */
  datatype AcsHit = AcsHit(metadata: AcsMetadata, score: real, text: string)

  /** `SearchResultsCosmosVector`. */
  datatype CosmosHit = CosmosHit(
    chunkId: ChunkId,
    id: Option<string>,
    title: Option<string>,
    content: string,
    filepath: Option<string>,
    url: Option<string>,
    metadata: Value)
}
