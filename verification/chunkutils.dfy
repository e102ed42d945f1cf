/** The content chunkers of ragcore (chunking/utils.py): the v1 line
    accumulator, the v2 dispatch over the splitters, and the two small dict
    helpers. A chunker yields `(chunk, size, document)` triples; a generator
    that raises before its first yield is a `Failure` here. */
module ChunkingUtils {
  import opened Wrappers
  import opened Strings
  import opened Json
  import opened Documents
  import opened Merging
  import opened Cleanup
  import S = Splitting
  import Pdf = PdfChunking
  import C = CsvChunking
  import P = Parsing

  /** One yielded triple `(chunk, chunk_size, doc)`. */
  datatype Chunk = Chunk(text: string, size: nat, doc: Document)

  /** What the chunkers get from libraries:
      - `parse`: the parser oracles;
      - `tok`: `TokenEstimator.estimate_tokens`;
      - `gpt2`: the token count of `tiktoken.get_encoding("gpt2")`, used by v1;
      - `readCsv`: `pandas.read_csv` of the whole text, failing on malformed CSV;
      - `show`, `repr`: `str` of a cell and of a summary, for the CSV chunker;
      - `header`: the `<th>` search of the PDF chunker. */
  datatype ChunkEnv = ChunkEnv(
    parse: P.ParseEnv,
    tok: string -> nat,
    gpt2: string -> nat,
    readCsv: string -> Result<C.Table>,
    show: C.Cell -> string,
    repr: C.Summary -> string,
    header: string -> string)

  function CsvEnvOf(env: ChunkEnv): C.CsvEnv {
    C.CsvEnv(env.tok, env.show, env.repr)
  }

  function ChunkTexts(cs: seq<Chunk>): (r: seq<string>)
    ensures |r| == |cs| && forall j :: 0 <= j < |cs| ==> r[j] == cs[j].text
  {
    seq(|cs|, j requires 0 <= j < |cs| => cs[j].text)
  }

  // ===========================================================================
  // copy_if_present

  /** `copy_if_present(dest, source, name)` on the fields of `dest`: a falsy
      source changes nothing; `name in source` tests the keys of a dict, the
      substrings of a string and the items of a list, and raises `TypeError`
      on a number or `True`; indexing a string or a list with `name` raises
      `TypeError` too. */
  function CopyIfPresent(dest: seq<Field>, source: Value, name: string): Result<seq<Field>> {
    if !Truthy(source) then Success(dest)
    else
      match source
      case Obj(fields) =>
        LookupFound(fields, name);
        if name in Keys(fields) then Success(Put(dest, name, Lookup(fields, name).value)) else Success(dest)
      case Str(s) => if Contains(s, name) then Failure(TypeMismatch) else Success(dest)
      case Arr(items) => if Str(name) in items then Failure(TypeMismatch) else Success(dest)
      case _ => Failure(TypeMismatch)
  }

  /** `dest[name]` is written only from a truthy dict that holds `name`, and
      then holds the source's value; every other key of `dest` keeps its
      value, and a falsy source leaves `dest` as it was. */
  lemma CopyIfPresentFacts(dest: seq<Field>, source: Value, name: string, other: string)
    ensures var r := CopyIfPresent(dest, source, name);
      (!Truthy(source) ==> r == Success(dest))
      && (source.Obj? ==> r.Success?)
      && (r.Failure? ==> Truthy(source) && !source.Obj?)
      && (r.Success? && other != name ==> Lookup(r.value, other) == Lookup(dest, other))
      && (r.Success? ==>
            Lookup(r.value, name) ==
              if Truthy(source) && source.Obj? && name in Keys(source.fields)
              then Lookup(source.fields, name) else Lookup(dest, name))
  {
    if Truthy(source) && source.Obj? {
      LookupFound(source.fields, name);
      if name in Keys(source.fields) {
        var v := Lookup(source.fields, name).value;
        LookupPut(dest, name, v, other);
        LookupPut(dest, name, v, name);
      }
    }
  }

  // ===========================================================================
  // documents_to_json_dict

  /** `documents_to_json_dict`: every Document of every list becomes its dict. */
  function DocumentsToJsonDict(chunks: seq<seq<Document>>): (r: seq<seq<Value>>)
    ensures |r| == |chunks|
    ensures forall i :: 0 <= i < |chunks| ==> |r[i]| == |chunks[i]|
  {
    seq(|chunks|, i requires 0 <= i < |chunks| =>
      seq(|chunks[i]|, j requires 0 <= j < |chunks[i]| => ToDict(chunks[i][j])))
  }

  /** Reading the dicts back with `results_list_to_docs_list` gives the same
      lists of Documents: the conversion keeps the shape, the order and every
      field. */
  lemma DocumentsToJsonDictRoundTrip(chunks: seq<seq<Document>>)
    ensures ConvertLists(DocumentsToJsonDict(chunks)) == Success(chunks)
  {
    var lists := DocumentsToJsonDict(chunks);
    forall i, j | 0 <= i < |lists| && 0 <= j < |lists[i]| ensures FromDict(lists[i][j]).Success? {
      FromDictToDict(chunks[i][j]);
    }
    ConvertListsSucceeds(lists);
    ConvertListsConverts(lists);
    var out := ConvertLists(lists).value;
    assert Converted(lists, out);
    forall i | 0 <= i < |chunks| ensures out[i] == chunks[i] {
      assert |out[i]| == |lists[i]| == |chunks[i]|;
      forall j | 0 <= j < |chunks[i]| ensures out[i][j] == chunks[i][j] {
        assert FromDict(lists[i][j]) == Success(out[i][j]);
        FromDictToDict(chunks[i][j]);
      }
    }
    assert out == chunks;
  }

  // ===========================================================================
  // chunk_content_helper_v1

  /** The gpt2 token count of every line. */
  function LineSizes(tok: string -> nat, lines: seq<string>): (r: seq<nat>)
    ensures |r| == |lines| && forall k :: 0 <= k < |lines| ==> r[k] == tok(lines[k])
  {
    seq(|lines|, k requires 0 <= k < |lines| => tok(lines[k]))
  }

  /** The line loop of v1 from line `i` on, with the current chunk holding
      lines `lo..i`: before a line is added, the chunk is yielded whenever
      its size plus the line's would exceed `num_tokens`, even when the chunk
      is still empty; at the end the chunk is yielded when non-empty. */
  function V1From(sizes: seq<nat>, numTokens: int, i: nat, lo: nat, wins: seq<Window>): (r: seq<Window>)
    requires lo <= i <= |sizes| && InRange(wins, i)
    ensures InRange(r, |sizes|)
    decreases |sizes| - i
  {
    if i == |sizes| then
      if lo < i then wins + [Window(lo, i)] else wins
    else if C.SumRange(sizes, lo, i) + sizes[i] > numTokens then
      C.InRangeSnoc(wins, Window(lo, i), i);
      V1From(sizes, numTokens, i + 1, i, wins + [Window(lo, i)])
    else
      V1From(sizes, numTokens, i + 1, lo, wins)
  }

  function V1Windows(sizes: seq<nat>, numTokens: int): (r: seq<Window>)
    ensures InRange(r, |sizes|)
  {
    V1From(sizes, numTokens, 0, 0, [])
  }

  /** The yielded chunk of lines `w.lo..w.hi`: each line preceded by "\n". */
  function V1Chunk(prefixed: seq<string>, sizes: seq<nat>, w: Window, doc: Document): Chunk
    requires w.lo <= w.hi <= |prefixed| == |sizes|
  {
    Chunk(Concat(prefixed[w.lo..w.hi]), C.SumRange(sizes, w.lo, w.hi), doc)
  }

  function V1Chunks(prefixed: seq<string>, sizes: seq<nat>, wins: seq<Window>, doc: Document): (r: seq<Chunk>)
    requires |prefixed| == |sizes| && InRange(wins, |sizes|)
    ensures |r| == |wins|
  {
    seq(|wins|, j requires 0 <= j < |wins| => V1Chunk(prefixed, sizes, wins[j], doc))
  }

  /** `chunk_content_helper_v1`, collected into a list: the parser for the
      format (never the PDF layout parser), then the lines of the parsed
      content. The overlap and `use_fr` are accepted and not used. */
  function ChunkContentV1(env: ChunkEnv, content: string, format: string, fileName: Option<string>,
                          overlap: int, numTokens: int, useFr: bool): Result<seq<Chunk>>
  {
    var parser :- P.ParserFor(format, false);
    var doc :- P.Parse(env.parse, parser, content, fileName);
    var lines := Split(doc.content, "\n");
    var sizes := LineSizes(env.gpt2, lines);
    Success(V1Chunks(S.Prefixed(lines, "\n"), sizes, V1Windows(sizes, numTokens), doc))
  }

  /** The generator `chunk_content_helper_v1`. */
  method ChunkContentHelperV1(env: ChunkEnv, content: string, format: string, fileName: Option<string>,
                              overlap: int, numTokens: int, useFr: bool) returns (r: Result<seq<Chunk>>)
    ensures r == ChunkContentV1(env, content, format, fileName, overlap, numTokens, useFr)
  {
    var parser := P.ParserFor(format, false);
    if parser.Failure? {
      return Failure(parser.error);
    }
    var doc := P.Parse(env.parse, parser.value, content, fileName);
    if doc.Failure? {
      return Failure(doc.error);
    }
    var chunks := ChunkLines(env.gpt2, Split(doc.value.content, "\n"), numTokens, doc.value);
    return Success(chunks);
  }

  /** The line loop of `chunk_content_helper_v1`. */
  method ChunkLines(tok: string -> nat, lines: seq<string>, numTokens: int, doc: Document) returns (out: seq<Chunk>)
    ensures var sizes := LineSizes(tok, lines);
      out == V1Chunks(S.Prefixed(lines, "\n"), sizes, V1Windows(sizes, numTokens), doc)
  {
    ghost var sizes := LineSizes(tok, lines);
    ghost var prefixed := S.Prefixed(lines, "\n");
    var thisChunk := "";
    var thisChunkSize: nat := 0;
    out := [];
    ghost var lo: nat := 0;
    ghost var wins: seq<Window> := [];
    for i := 0 to |lines|
      invariant lo <= i && InRange(wins, i)
      invariant thisChunk == Concat(prefixed[lo..i]) && thisChunkSize == C.SumRange(sizes, lo, i)
      invariant V1From(sizes, numTokens, i, lo, wins) == V1Windows(sizes, numTokens)
      invariant out == V1Chunks(prefixed, sizes, wins, doc)
    {
      out, thisChunk, thisChunkSize, lo, wins := LineStep(tok, lines, numTokens, doc, i, out, thisChunk, thisChunkSize, prefixed, sizes, lo, wins);
    }
    out := LastLine(lines, numTokens, doc, out, thisChunk, thisChunkSize, prefixed, sizes, lo, wins);
  }

  /** After the line loop of v1: the chunk still open is emitted when it holds text. */
  method LastLine(lines: seq<string>, numTokens: int, doc: Document,
                  out: seq<Chunk>, thisChunk: string, thisChunkSize: nat,
                  ghost prefixed: seq<string>, ghost sizes: seq<nat>, ghost lo: nat, ghost wins: seq<Window>)
    returns (out': seq<Chunk>)
    requires prefixed == S.Prefixed(lines, "\n") && |sizes| == |lines|
    requires lo <= |lines| && InRange(wins, |lines|)
    requires thisChunk == Concat(prefixed[lo..|lines|]) && thisChunkSize == C.SumRange(sizes, lo, |lines|)
    requires out == V1Chunks(prefixed, sizes, wins, doc)
    ensures out' == V1Chunks(prefixed, sizes, V1From(sizes, numTokens, |lines|, lo, wins), doc)
  {
    ConcatEmpty(prefixed, lo, |lines|);
    out' := out;
    if |thisChunk| > 0 {
      V1ChunksSnoc(prefixed, sizes, wins, Window(lo, |lines|), doc);
      out' := out + [Chunk(thisChunk, thisChunkSize, doc)];
    }
  }

  /** One pass of the line loop of v1, taking line `i`. */
  method LineStep(tok: string -> nat, lines: seq<string>, numTokens: int, doc: Document, i: nat,
                  out: seq<Chunk>, thisChunk: string, thisChunkSize: nat,
                  ghost prefixed: seq<string>, ghost sizes: seq<nat>, ghost lo: nat, ghost wins: seq<Window>)
    returns (out': seq<Chunk>, thisChunk': string, thisChunkSize': nat, ghost lo': nat, ghost wins': seq<Window>)
    requires prefixed == S.Prefixed(lines, "\n") && sizes == LineSizes(tok, lines)
    requires lo <= i < |lines| && InRange(wins, i)
    requires thisChunk == Concat(prefixed[lo..i]) && thisChunkSize == C.SumRange(sizes, lo, i)
    requires out == V1Chunks(prefixed, sizes, wins, doc)
    ensures lo' <= i + 1 && InRange(wins', i + 1)
    ensures thisChunk' == Concat(prefixed[lo'..i + 1]) && thisChunkSize' == C.SumRange(sizes, lo', i + 1)
    ensures V1From(sizes, numTokens, i + 1, lo', wins') == V1From(sizes, numTokens, i, lo, wins)
    ensures out' == V1Chunks(prefixed, sizes, wins', doc)
  {
    var line := lines[i];
    var lineSize := tok(line);
    out', thisChunk', thisChunkSize', lo', wins' := out, thisChunk, thisChunkSize, lo, wins;
    if thisChunkSize + lineSize > numTokens {
      V1FromClose(sizes, numTokens, i, lo, wins);
      V1ChunksSnoc(prefixed, sizes, wins, Window(lo, i), doc);
      out' := out + [Chunk(thisChunk, thisChunkSize, doc)];
      wins' := wins + [Window(lo, i)];
      lo' := i;
      thisChunk' := "";
      thisChunkSize' := 0;
    } else {
      V1FromKeep(sizes, numTokens, i, lo, wins);
    }
    GrowLine(prefixed, sizes, lo', i);
    thisChunk' := thisChunk' + ("\n" + line);
    thisChunkSize' := thisChunkSize' + lineSize;
  }

  lemma V1FromClose(sizes: seq<nat>, numTokens: int, i: nat, lo: nat, wins: seq<Window>)
    requires lo <= i < |sizes| && InRange(wins, i)
    requires C.SumRange(sizes, lo, i) + sizes[i] > numTokens
    ensures InRange(wins + [Window(lo, i)], i + 1)
    ensures V1From(sizes, numTokens, i, lo, wins) == V1From(sizes, numTokens, i + 1, i, wins + [Window(lo, i)])
  {
    C.InRangeSnoc(wins, Window(lo, i), i);
    C.InRangeWider(wins + [Window(lo, i)], i, i + 1);
  }

  lemma V1FromKeep(sizes: seq<nat>, numTokens: int, i: nat, lo: nat, wins: seq<Window>)
    requires lo <= i < |sizes| && InRange(wins, i)
    requires !(C.SumRange(sizes, lo, i) + sizes[i] > numTokens)
    ensures InRange(wins, i + 1)
    ensures V1From(sizes, numTokens, i, lo, wins) == V1From(sizes, numTokens, i + 1, lo, wins)
  {
    C.InRangeWider(wins, i, i + 1);
  }

  lemma V1ChunksSnoc(prefixed: seq<string>, sizes: seq<nat>, wins: seq<Window>, w: Window, doc: Document)
    requires |prefixed| == |sizes| && InRange(wins, |sizes|) && w.lo <= w.hi <= |sizes|
    ensures InRange(wins + [w], |sizes|)
    ensures V1Chunks(prefixed, sizes, wins + [w], doc) == V1Chunks(prefixed, sizes, wins, doc) + [V1Chunk(prefixed, sizes, w, doc)]
  {
    C.InRangeSnoc(wins, w, |sizes|);
    var a := V1Chunks(prefixed, sizes, wins + [w], doc);
    var b := V1Chunks(prefixed, sizes, wins, doc) + [V1Chunk(prefixed, sizes, w, doc)];
    forall j | 0 <= j < |a| ensures a[j] == b[j] {
      if j < |wins| { assert (wins + [w])[j] == wins[j]; }
    }
  }

  /** Adding line `i` to the chunk of lines `lo..i`. */
  lemma GrowLine(prefixed: seq<string>, sizes: seq<nat>, lo: nat, i: nat)
    requires lo <= i < |prefixed| == |sizes|
    ensures Concat(prefixed[lo..i + 1]) == Concat(prefixed[lo..i]) + prefixed[i]
    ensures C.SumRange(sizes, lo, i + 1) == C.SumRange(sizes, lo, i) + sizes[i]
  {
    assert prefixed[lo..i + 1] == prefixed[lo..i] + [prefixed[i]];
    ConcatAppend(prefixed[lo..i], [prefixed[i]]);
  }

  /** A chunk of prefixed lines is empty exactly when it holds no line. */
  lemma ConcatEmpty(prefixed: seq<string>, lo: nat, hi: nat)
    requires lo <= hi <= |prefixed| && forall k :: 0 <= k < |prefixed| ==> prefixed[k] != []
    ensures |Concat(prefixed[lo..hi])| > 0 <==> lo < hi
  {
    if lo < hi {
      assert prefixed[lo..hi][0] == prefixed[lo];
    }
  }

  // ---------------------------------------------------------------------------
  // Properties of chunk_content_helper_v1

  /** Consecutive windows; only the first may be empty. */
  predicate Contiguous(wins: seq<Window>) {
    (forall j :: 0 < j < |wins| ==> wins[j].lo < wins[j].hi)
    && (forall j :: 0 <= j < |wins| - 1 ==> wins[j].hi == wins[j + 1].lo)
  }

  /** The windows v1 yields: they follow each other from the first line to
      the last; only the first can be empty, and the last is not; each but the
      last was yielded because the line after it did not fit; every line
      after the first of a window fitted when it was added. */
  predicate V1Shaped(sizes: seq<nat>, numTokens: int, wins: seq<Window>) {
    Contiguous(wins)
    && (|sizes| == 0 <==> wins == [])
    && (wins != [] ==>
          wins[0].lo == 0 && wins[|wins| - 1].hi == |sizes| && wins[|wins| - 1].lo < wins[|wins| - 1].hi
          && C.AllClosed(sizes, 0, numTokens, wins[..|wins| - 1]))
    && C.AllAdmitted(sizes, 0, numTokens, wins)
  }

  /** The state of the line loop before line `i`. */
  predicate V1Inv(sizes: seq<nat>, numTokens: int, i: nat, lo: nat, wins: seq<Window>) {
    Contiguous(wins)
    && (wins == [] ==> lo == 0)
    && (wins != [] ==> wins[0].lo == 0 && wins[|wins| - 1].hi == lo && lo < i)
    && C.AllClosed(sizes, 0, numTokens, wins)
    && C.AllAdmitted(sizes, 0, numTokens, wins)
    && C.Admitted(sizes, 0, numTokens, lo, i)
  }

  lemma ContiguousSnoc(wins: seq<Window>, w: Window)
    requires Contiguous(wins) && (wins != [] ==> w.lo < w.hi && wins[|wins| - 1].hi == w.lo)
    ensures Contiguous(wins + [w])
  {
    var r := wins + [w];
    forall j | 0 < j < |r| ensures r[j].lo < r[j].hi {
      if j < |wins| { assert r[j] == wins[j]; }
    }
    forall j | 0 <= j < |r| - 1 ensures r[j].hi == r[j + 1].lo {
      assert r[j] == wins[j];
      if j + 1 < |wins| { assert r[j + 1] == wins[j + 1]; }
    }
  }

  lemma {:induction false} V1FromShape(sizes: seq<nat>, numTokens: int, i: nat, lo: nat, wins: seq<Window>, r: seq<Window>)
    requires lo <= i <= |sizes| && InRange(wins, i)
    requires V1Inv(sizes, numTokens, i, lo, wins)
    requires r == V1From(sizes, numTokens, i, lo, wins)
    ensures V1Shaped(sizes, numTokens, r)
    decreases |sizes| - i, 1
  {
    if i == |sizes| {
      V1End(sizes, numTokens, lo, wins, r);
    } else if C.SumRange(sizes, lo, i) + sizes[i] > numTokens {
      V1ShapeClose(sizes, numTokens, i, lo, wins, r);
    } else {
      V1ShapeKeep(sizes, numTokens, i, lo, wins, r);
    }
  }

  lemma V1End(sizes: seq<nat>, numTokens: int, lo: nat, wins: seq<Window>, r: seq<Window>)
    requires lo <= |sizes| && InRange(wins, |sizes|)
    requires V1Inv(sizes, numTokens, |sizes|, lo, wins)
    requires r == V1From(sizes, numTokens, |sizes|, lo, wins)
    ensures V1Shaped(sizes, numTokens, r)
  {
    var n := |sizes|;
    if lo < n {
      assert r == wins + [Window(lo, n)];
      ContiguousSnoc(wins, Window(lo, n));
      C.AllAdmittedSnoc(sizes, 0, numTokens, wins, Window(lo, n));
      assert r[..|r| - 1] == wins;
      assert r[0].lo == 0 by {
        if wins != [] { assert r[0] == wins[0]; }
      }
    } else {
      assert r == wins;
      if wins != [] {
        assert false;
      }
    }
  }

  lemma {:induction false} V1ShapeClose(sizes: seq<nat>, numTokens: int, i: nat, lo: nat, wins: seq<Window>, r: seq<Window>)
    requires lo <= i < |sizes| && InRange(wins, i)
    requires V1Inv(sizes, numTokens, i, lo, wins)
    requires C.SumRange(sizes, lo, i) + sizes[i] > numTokens
    requires r == V1From(sizes, numTokens, i, lo, wins)
    ensures V1Shaped(sizes, numTokens, r)
    decreases |sizes| - i, 0
  {
    V1FromClose(sizes, numTokens, i, lo, wins);
    V1InvClose(sizes, numTokens, i, lo, wins);
    V1FromShape(sizes, numTokens, i + 1, i, wins + [Window(lo, i)], r);
  }

  /** Yielding the chunk of lines `lo..i` before line `i` keeps the loop state. */
  lemma V1InvClose(sizes: seq<nat>, numTokens: int, i: nat, lo: nat, wins: seq<Window>)
    requires lo <= i < |sizes|
    requires V1Inv(sizes, numTokens, i, lo, wins)
    requires C.SumRange(sizes, lo, i) + sizes[i] > numTokens
    ensures V1Inv(sizes, numTokens, i + 1, i, wins + [Window(lo, i)])
  {
    var w := Window(lo, i);
    ContiguousSnoc(wins, w);
    C.AllClosedSnoc(sizes, 0, numTokens, wins, w);
    C.AllAdmittedSnoc(sizes, 0, numTokens, wins, w);
    assert (wins + [w])[0].lo == 0 by {
      if wins != [] { assert (wins + [w])[0] == wins[0]; }
    }
    assert C.Admitted(sizes, 0, numTokens, i, i + 1);
  }

  lemma {:induction false} V1ShapeKeep(sizes: seq<nat>, numTokens: int, i: nat, lo: nat, wins: seq<Window>, r: seq<Window>)
    requires lo <= i < |sizes| && InRange(wins, i)
    requires V1Inv(sizes, numTokens, i, lo, wins)
    requires !(C.SumRange(sizes, lo, i) + sizes[i] > numTokens)
    requires r == V1From(sizes, numTokens, i, lo, wins)
    ensures V1Shaped(sizes, numTokens, r)
    decreases |sizes| - i, 0
  {
    V1FromKeep(sizes, numTokens, i, lo, wins);
    C.AdmittedGrow(sizes, 0, numTokens, lo, i);
    V1FromShape(sizes, numTokens, i + 1, lo, wins, r);
  }

  /** The shape of the chunks v1 yields. */
  lemma V1WindowsShape(sizes: seq<nat>, numTokens: int)
    ensures V1Shaped(sizes, numTokens, V1Windows(sizes, numTokens))
  {
    V1FromShape(sizes, numTokens, 0, 0, [], V1Windows(sizes, numTokens));
  }

  function WindowTexts(prefixed: seq<string>, wins: seq<Window>): (r: seq<string>)
    requires InRange(wins, |prefixed|)
    ensures |r| == |wins|
  {
    seq(|wins|, j requires 0 <= j < |wins| => Concat(prefixed[wins[j].lo..wins[j].hi]))
  }

  lemma {:induction false} ConcatContiguous(prefixed: seq<string>, wins: seq<Window>, lo: nat)
    requires InRange(wins, |prefixed|) && Contiguous(wins) && lo <= |prefixed|
    requires wins != [] ==> wins[0].lo == lo && wins[|wins| - 1].hi == |prefixed|
    requires wins == [] ==> lo == |prefixed|
    ensures Concat(WindowTexts(prefixed, wins)) == Concat(prefixed[lo..])
    decreases |wins|
  {
    if wins != [] {
      var tail := wins[1..];
      WindowsTail(prefixed, wins);
      ConcatContiguous(prefixed, tail, wins[0].hi);
      Merging.ConcatSlices(prefixed, lo, wins[0].hi, |prefixed|);
      assert prefixed[lo..] == prefixed[lo..|prefixed|];
      assert prefixed[wins[0].hi..] == prefixed[wins[0].hi..|prefixed|];
    } else {
      assert prefixed[lo..] == [];
    }
  }

  lemma WindowsTail(prefixed: seq<string>, wins: seq<Window>)
    requires InRange(wins, |prefixed|) && Contiguous(wins) && wins != []
    ensures InRange(wins[1..], |prefixed|) && Contiguous(wins[1..])
    ensures wins[1..] != [] ==> wins[1..][0].lo == wins[0].hi && wins[1..][|wins| - 2].hi == wins[|wins| - 1].hi
    ensures wins[1..] == [] ==> wins[0].hi == wins[|wins| - 1].hi
    ensures WindowTexts(prefixed, wins) == [Concat(prefixed[wins[0].lo..wins[0].hi])] + WindowTexts(prefixed, wins[1..])
  {
  }

  /** A window over `num_tokens` holds at most one line. */
  lemma V1SizeBound(sizes: seq<nat>, numTokens: int, wins: seq<Window>)
    requires InRange(wins, |sizes|) && V1Shaped(sizes, numTokens, wins)
    ensures forall j :: 0 <= j < |wins| && C.SumRange(sizes, wins[j].lo, wins[j].hi) > numTokens ==>
      wins[j].hi <= wins[j].lo + 1
  {
    forall j | 0 <= j < |wins| && C.SumRange(sizes, wins[j].lo, wins[j].hi) > numTokens
      ensures wins[j].hi <= wins[j].lo + 1
    {
      assert C.Admitted(sizes, 0, numTokens, wins[j].lo, wins[j].hi);
      if wins[j].hi > wins[j].lo + 1 {
        assert false;
      }
    }
  }

  /** Each window but the last is followed by the next one, whose first line
      did not fit. */
  lemma V1ClosedWindows(sizes: seq<nat>, numTokens: int, wins: seq<Window>)
    requires InRange(wins, |sizes|) && V1Shaped(sizes, numTokens, wins)
    ensures forall j :: 0 <= j < |wins| - 1 ==>
      wins[j].hi < |sizes| && C.SumRange(sizes, wins[j].lo, wins[j].hi) + sizes[wins[j].hi] > numTokens
  {
    forall j | 0 <= j < |wins| - 1
      ensures wins[j].hi < |sizes| && C.SumRange(sizes, wins[j].lo, wins[j].hi) + sizes[wins[j].hi] > numTokens
    {
      assert wins[..|wins| - 1][j] == wins[j];
      assert C.ClosedFor(sizes, 0, numTokens, wins[j]);
    }
  }

  /** The last chunk has text; an empty chunk can only be the first one,
      yielded because the first line alone did not fit. */
  lemma V1EmptyFirst(prefixed: seq<string>, sizes: seq<nat>, numTokens: int, wins: seq<Window>)
    requires |prefixed| == |sizes| && forall k :: 0 <= k < |prefixed| ==> prefixed[k] != []
    requires InRange(wins, |sizes|) && V1Shaped(sizes, numTokens, wins) && wins != []
    ensures var t := WindowTexts(prefixed, wins);
      t[|t| - 1] != []
      && forall j :: 0 <= j < |t| && t[j] == [] ==> j == 0 && |t| > 1 && sizes[0] > numTokens
  {
    var t := WindowTexts(prefixed, wins);
    var last := |wins| - 1;
    ConcatEmpty(prefixed, wins[last].lo, wins[last].hi);
    forall j | 0 <= j < |t| && t[j] == [] ensures j == 0 && |t| > 1 && sizes[0] > numTokens {
      ConcatEmpty(prefixed, wins[j].lo, wins[j].hi);
      if j > 0 {
        assert false;
      }
      assert j != last;
      assert wins[..last][0] == wins[0];
      assert C.ClosedFor(sizes, 0, numTokens, wins[0]);
    }
  }

  /** Put back together, the windows' texts are all the prefixed lines. */
  lemma V1Lossless(prefixed: seq<string>, sizes: seq<nat>, numTokens: int, wins: seq<Window>)
    requires |prefixed| == |sizes| && InRange(wins, |sizes|) && V1Shaped(sizes, numTokens, wins)
    ensures Concat(WindowTexts(prefixed, wins)) == Concat(prefixed)
  {
    ConcatContiguous(prefixed, wins, 0);
    assert prefixed[0..] == prefixed;
  }

  /** The v1 chunks of a parsed document: every line appears exactly once,
      in order, preceded by "\n"; every chunk carries the parsed document;
      a chunk's size is the sum of its lines' tokens and is over `num_tokens`
      only for a chunk of at most one line; each chunk but the last was
      yielded because the next line did not fit; the last chunk is never
      empty, and the only empty chunk possible is the first, when the first
      line alone is over `num_tokens`. */
  lemma ChunkLinesFacts(tok: string -> nat, lines: seq<string>, numTokens: int, doc: Document,
                        sizes: seq<nat>, prefixed: seq<string>, wins: seq<Window>, cs: seq<Chunk>)
    requires lines != [] && sizes == LineSizes(tok, lines) && prefixed == S.Prefixed(lines, "\n")
    requires wins == V1Windows(sizes, numTokens) && cs == V1Chunks(prefixed, sizes, wins, doc)
    ensures |cs| >= 1
    ensures Concat(ChunkTexts(cs)) == Concat(prefixed)
    ensures forall j :: 0 <= j < |cs| ==> cs[j].doc == doc && cs[j].size == C.SumRange(sizes, wins[j].lo, wins[j].hi)
    ensures forall j :: 0 <= j < |cs| && cs[j].size > numTokens ==> wins[j].hi <= wins[j].lo + 1
    ensures forall j :: 0 <= j < |cs| - 1 ==> wins[j].hi == wins[j + 1].lo
    ensures forall j :: 0 <= j < |cs| - 1 ==> wins[j].hi < |lines| && cs[j].size + tok(lines[wins[j].hi]) > numTokens
    ensures cs[|cs| - 1].text != ""
    ensures forall j :: 0 <= j < |cs| && cs[j].text == "" ==> j == 0 && |cs| > 1 && tok(lines[0]) > numTokens
  {
    V1WindowsShape(sizes, numTokens);
    V1ChunkTexts(prefixed, sizes, wins, doc, cs);
    V1Lossless(prefixed, sizes, numTokens, wins);
    V1SizeBound(sizes, numTokens, wins);
    V1ClosedWindows(sizes, numTokens, wins);
    forall j | 0 <= j < |cs| - 1 ensures wins[j].hi < |lines| && cs[j].size + tok(lines[wins[j].hi]) > numTokens {
      assert sizes[wins[j].hi] == tok(lines[wins[j].hi]);
    }
    V1EmptyFirst(prefixed, sizes, numTokens, wins);
  }

  lemma V1ChunkTexts(prefixed: seq<string>, sizes: seq<nat>, wins: seq<Window>, doc: Document, cs: seq<Chunk>)
    requires |prefixed| == |sizes| && InRange(wins, |sizes|) && cs == V1Chunks(prefixed, sizes, wins, doc)
    ensures ChunkTexts(cs) == WindowTexts(prefixed, wins)
    ensures forall j :: 0 <= j < |cs| ==> cs[j].doc == doc && cs[j].size == C.SumRange(sizes, wins[j].lo, wins[j].hi)
  {
  }

  /** What `chunk_content_helper_v1` yields for a content: the parse fails
      only for an unregistered format (read as text when it is "pdf") or a
      Python syntax error, and otherwise the chunks are those of the lines of
      the parsed content. */
  lemma ChunkContentV1Facts(env: ChunkEnv, content: string, format: string, fileName: Option<string>,
                            overlap: int, numTokens: int, useFr: bool)
    ensures var r := ChunkContentV1(env, content, format, fileName, overlap, numTokens, useFr);
      var parser := P.ParserFor(format, false);
      (parser.Failure? ==> r == Failure(UnsupportedFormat(format)))
      && (format == "pdf" ==> parser == Success(P.TextParser))
      && (parser.Success? && P.Parse(env.parse, parser.value, content, fileName).Failure? ==> r.Failure?)
      && (r.Success? ==>
            var doc := P.Parse(env.parse, parser.value, content, fileName).value;
            var lines := Split(doc.content, "\n");
            |r.value| >= 1
            && Concat(ChunkTexts(r.value)) == Concat(S.Prefixed(lines, "\n"))
            && (forall j :: 0 <= j < |r.value| ==> r.value[j].doc == doc)
            && r.value[|r.value| - 1].text != ""
            && (forall j :: 0 <= j < |r.value| && r.value[j].text == "" ==> j == 0 && env.gpt2(lines[0]) > numTokens))
  {
    P.ParserForFacts(format, false);
    var parser := P.ParserFor(format, false);
    if parser.Success? && P.Parse(env.parse, parser.value, content, fileName).Success? {
      var doc := P.Parse(env.parse, parser.value, content, fileName).value;
      var lines := Split(doc.content, "\n");
      var sizes := LineSizes(env.gpt2, lines);
      var wins := V1Windows(sizes, numTokens);
      var prefixed := S.Prefixed(lines, "\n");
      ChunkLinesFacts(env.gpt2, lines, numTokens, doc, sizes, prefixed, wins, V1Chunks(prefixed, sizes, wins, doc));
    }
  }

  // ===========================================================================
  // chunk_content_helper_v2

  /** `SENTENCE_ENDINGS`. */
  const SentenceEndings: seq<string> := [".", "!", "?"]

  /** `WORDS_BREAKS`: the word breaks, listed in reverse. */
  const WordsBreaks: seq<string> := ["\n", "\t", "}", "{", "]", "[", ")", "(", " ", ":", ";", ","]

  /** The separators of the plain splitter: sentence endings before word breaks. */
  const TextSeparators: seq<string> := SentenceEndings + WordsBreaks

  /** One markdown chunk: the merged piece parsed again as markdown, with the
      whole document's title. */
  function MarkdownChunk(env: ChunkEnv, g: Group, fileName: Option<string>, title: Option<string>): Chunk {
    var d := P.MarkdownParse(env.parse, g.text, fileName).(title := title);
    Chunk(d.content, g.size, d)
  }

  function MarkdownChunks(env: ChunkEnv, gs: seq<Group>, fileName: Option<string>, title: Option<string>): (r: seq<Chunk>)
    ensures |r| == |gs| && forall j :: 0 <= j < |gs| ==> r[j] == MarkdownChunk(env, gs[j], fileName, title)
  {
    seq(|gs|, j requires 0 <= j < |gs| => MarkdownChunk(env, gs[j], fileName, title))
  }

  /** Pieces of one document, each sized by the token estimator. */
  function Sized(tok: string -> nat, pieces: seq<string>, doc: Document): (r: seq<Chunk>)
    ensures |r| == |pieces| && forall j :: 0 <= j < |pieces| ==> r[j] == Chunk(pieces[j], tok(pieces[j]), doc)
  {
    seq(|pieces|, j requires 0 <= j < |pieces| => Chunk(pieces[j], tok(pieces[j]), doc))
  }

  /** Whole documents, each sized by the token estimator. */
  function DocChunks(tok: string -> nat, docs: seq<Document>): (r: seq<Chunk>)
    ensures |r| == |docs| && forall j :: 0 <= j < |docs| ==> r[j] == Chunk(docs[j].content, tok(docs[j].content), docs[j])
  {
    seq(|docs|, j requires 0 <= j < |docs| => Chunk(docs[j].content, tok(docs[j].content), docs[j]))
  }

  /** The splitter configuration the v2 path uses: separators dropped. */
  function V2Config(env: ChunkEnv, numTokens: int, overlap: int): S.SplitConfig {
    S.SplitConfig(env.tok, false, numTokens, overlap)
  }

  /** The separators of the catch-all branch. */
  function PlainSeparators(format: string): seq<string> {
    if format == "python" then S.PythonSeparators else TextSeparators
  }

  /** `chunk_content_helper_v2`, collected into a list: markdown is split from
      the original text and merged; CSV with a file name goes to the CSV
      chunker; PDF with Form Recognizer goes to the PDF chunker; everything
      else is split from the parsed content. */
  function ChunkContentV2(env: ChunkEnv, content: string, format: string, fileName: Option<string>,
                          overlap: int, numTokens: int, useFr: bool): Result<seq<Chunk>>
  {
    var parser :- P.ParserFor(format, useFr);
    var doc :- P.Parse(env.parse, parser, content, fileName);
    if format == "markdown" then MarkdownBranch(env, content, fileName, overlap, numTokens, doc.title)
    else if format == "csv" && P.Present(fileName) then CsvBranch(env, content, fileName.value, numTokens)
    else if format == "pdf" && useFr then PdfBranch(env, doc, overlap, numTokens)
    else PlainBranch(env, doc, format, overlap, numTokens)
  }

  /** The markdown branch: the original text is split, the pieces merged, and
      every group parsed again under the parent's title. */
  function MarkdownBranch(env: ChunkEnv, content: string, fileName: Option<string>,
                          overlap: int, numTokens: int, title: Option<string>): Result<seq<Chunk>>
  {
    var pieces :- S.SplitTextSpec(V2Config(env, numTokens, overlap), content, S.MarkdownSeparators);
    Success(MarkdownChunks(env, MergeChunksSerially(env.tok, pieces, numTokens), fileName, title))
  }

  /** The CSV branch: the text read as a table and cut by the CSV chunker. */
  function CsvBranch(env: ChunkEnv, content: string, fileName: string, numTokens: int): Result<seq<Chunk>> {
    var table :- env.readCsv(content);
    Success(DocChunks(env.tok, C.CsvSplit(CsvEnvOf(env), table, fileName, numTokens)))
  }

  /** The Form Recognizer PDF branch: the parsed HTML cut by the PDF chunker. */
  function PdfBranch(env: ChunkEnv, doc: Document, overlap: int, numTokens: int): Result<seq<Chunk>> {
    var pieces :- Pdf.PdfSplit(Pdf.PdfConfig(env.tok, env.header, Pdf.PdfSeparators, numTokens, overlap), doc.content);
    Success(Sized(env.tok, pieces, doc))
  }

  /** The catch-all branch: the parsed content cut by the recursive splitter. */
  function PlainBranch(env: ChunkEnv, doc: Document, format: string, overlap: int, numTokens: int): Result<seq<Chunk>> {
    var pieces :- S.SplitTextSpec(V2Config(env, numTokens, overlap), doc.content, PlainSeparators(format));
    Success(Sized(env.tok, pieces, doc))
  }

  /** The generator `chunk_content_helper_v2`. */
  method ChunkContentHelperV2(env: ChunkEnv, content: string, format: string, fileName: Option<string>,
                              overlap: int, numTokens: int, useFr: bool) returns (r: Result<seq<Chunk>>)
    ensures r == ChunkContentV2(env, content, format, fileName, overlap, numTokens, useFr)
  {
    var parser := P.ParserFor(format, useFr);
    if parser.Failure? {
      return Failure(parser.error);
    }
    var doc := P.Parse(env.parse, parser.value, content, fileName);
    if doc.Failure? {
      return Failure(doc.error);
    }
    if format == "markdown" {
      r := MarkdownLoop(env, content, fileName, overlap, numTokens, doc.value.title);
    } else if format == "csv" && P.Present(fileName) {
      r := CsvLoop(env, content, fileName.value, numTokens);
    } else if format == "pdf" && useFr {
      var splitter := new Pdf.PdfChunker(env.tok, env.header);
      var pieces := splitter.SplitText(doc.value.content, numTokens, overlap);
      if pieces.Failure? {
        return Failure(pieces.error);
      }
      var out := SizedLoop(env.tok, pieces.value, doc.value);
      r := Success(out);
    } else {
      r := PlainLoop(env, doc.value, format, overlap, numTokens);
    }
  }

  /** The markdown branch of the generator. */
  method MarkdownLoop(env: ChunkEnv, content: string, fileName: Option<string>,
                      overlap: int, numTokens: int, title: Option<string>) returns (r: Result<seq<Chunk>>)
    ensures r == MarkdownBranch(env, content, fileName, overlap, numTokens, title)
  {
    var splitter := new S.RecursiveCharacterTextSplitter.Markdown(false, env.tok);
    var pieces := splitter.SplitText(content, numTokens, overlap);
    if pieces.Failure? {
      return Failure(pieces.error);
    }
    var groups := MergeChunksSeriallyLoop(env.tok, pieces.value, numTokens);
    var out := MarkdownChunksLoop(env, groups, fileName, title);
    r := Success(out);
  }

  /** The loop of the markdown branch: every merged group is parsed again and
      given the parent's title. */
  method MarkdownChunksLoop(env: ChunkEnv, groups: seq<Group>, fileName: Option<string>, title: Option<string>)
    returns (out: seq<Chunk>)
    ensures out == MarkdownChunks(env, groups, fileName, title)
  {
    out := [];
    for j := 0 to |groups|
      invariant |out| == j && forall k :: 0 <= k < j ==> out[k] == MarkdownChunk(env, groups[k], fileName, title)
    {
      out := out + [MarkdownChunk(env, groups[j], fileName, title)];
    }
    assert out == MarkdownChunks(env, groups, fileName, title);
  }

  /** The CSV branch of the generator. */
  method CsvLoop(env: ChunkEnv, content: string, fileName: string, numTokens: int) returns (r: Result<seq<Chunk>>)
    ensures r == CsvBranch(env, content, fileName, numTokens)
  {
    var table := env.readCsv(content);
    if table.Failure? {
      return Failure(table.error);
    }
    var docs := C.CsvSplitText(CsvEnvOf(env), table.value, fileName, numTokens);
    var out := DocChunksLoop(env.tok, docs);
    r := Success(out);
  }

  /** The loop of the CSV branch: every document is sized by the token estimator. */
  method DocChunksLoop(tok: string -> nat, docs: seq<Document>) returns (out: seq<Chunk>)
    ensures out == DocChunks(tok, docs)
  {
    out := [];
    for j := 0 to |docs|
      invariant |out| == j && forall k :: 0 <= k < j ==> out[k] == Chunk(docs[k].content, tok(docs[k].content), docs[k])
    {
      out := out + [Chunk(docs[j].content, tok(docs[j].content), docs[j])];
    }
    assert out == DocChunks(tok, docs);
  }

  /** The catch-all branch of the generator. */
  method PlainLoop(env: ChunkEnv, doc: Document, format: string, overlap: int, numTokens: int) returns (r: Result<seq<Chunk>>)
    ensures r == PlainBranch(env, doc, format, overlap, numTokens)
  {
    var splitter;
    if format == "python" {
      splitter := new S.RecursiveCharacterTextSplitter.Python(false, env.tok);
    } else {
      splitter := new S.RecursiveCharacterTextSplitter(TextSeparators, false, env.tok);
    }
    var pieces := splitter.SplitText(doc.content, numTokens, overlap);
    if pieces.Failure? {
      return Failure(pieces.error);
    }
    var out := SizedLoop(env.tok, pieces.value, doc);
    r := Success(out);
  }

  /** The closing loop of the PDF and catch-all branches. */
  method SizedLoop(tok: string -> nat, pieces: seq<string>, doc: Document) returns (out: seq<Chunk>)
    ensures out == Sized(tok, pieces, doc)
  {
    out := [];
    for j := 0 to |pieces|
      invariant |out| == j && forall k :: 0 <= k < j ==> out[k] == Chunk(pieces[k], tok(pieces[k]), doc)
    {
      out := out + [Chunk(pieces[j], tok(pieces[j]), doc)];
    }
    assert out == Sized(tok, pieces, doc);
  }

  /** Routing and errors of v2: an unknown format is reported as unsupported,
      "pdf" is read as HTML with Form Recognizer and as text without, only
      the Python parser's failure stops the generator before splitting, and
      each format reaches its branch. */
  lemma ChunkContentV2Routing(env: ChunkEnv, content: string, format: string, fileName: Option<string>,
                              overlap: int, numTokens: int, useFr: bool)
    ensures var r := ChunkContentV2(env, content, format, fileName, overlap, numTokens, useFr);
      var parser := P.ParserFor(format, useFr);
      (parser.Failure? <==> format !in P.SupportedFormats() && format != "pdf")
      && (parser.Failure? ==> r == Failure(UnsupportedFormat(format)))
      && (format == "pdf" ==> parser == Success(if useFr then P.HtmlParser else P.TextParser))
      && (parser.Success? && P.Parse(env.parse, parser.value, content, fileName).Failure? ==>
            format == "python" && r.Failure?)
  {
    P.ParserForFacts(format, useFr);
    var parser := P.ParserFor(format, useFr);
    if parser.Success? {
      P.ParseFacts(env.parse, parser.value, content, fileName);
    }
  }

  /** Each of the three special formats reaches its own branch, under the
      title and the parsed content of the whole document. */
  lemma ChunkContentV2Branches(env: ChunkEnv, content: string, format: string, fileName: Option<string>,
                               overlap: int, numTokens: int, useFr: bool)
    ensures var r := ChunkContentV2(env, content, format, fileName, overlap, numTokens, useFr);
      (format == "markdown" ==>
            r == MarkdownBranch(env, content, fileName, overlap, numTokens, P.MarkdownParse(env.parse, content, fileName).title))
      && (format == "csv" && P.Present(fileName) ==> r == CsvBranch(env, content, fileName.value, numTokens))
      && (format == "pdf" && useFr ==> r == PdfBranch(env, P.HtmlParse(env.parse, content, fileName), overlap, numTokens))
      && (format != "markdown" && !(format == "csv" && P.Present(fileName)) && !(format == "pdf" && useFr) ==>
            var parser := P.ParserFor(format, useFr);
            var doc := if parser.Success? then P.Parse(env.parse, parser.value, content, fileName) else Failure(UnsupportedFormat(format));
            r == (if doc.Success? then PlainBranch(env, doc.value, format, overlap, numTokens) else Failure(doc.error)))
  {
    if format == "markdown" {
      assert P.ParserFor(format, useFr) == Success(P.MarkdownParser);
    } else if format == "csv" {
      assert P.ParserFor(format, useFr) == Success(P.CsvParser);
    } else if format == "pdf" && useFr {
      assert P.ParserFor(format, useFr) == Success(P.HtmlParser);
    }
  }

  /** Markdown: one chunk per merged group of pieces split from the original
      text; each chunk's document is that group parsed again, under the given
      title, and the chunk carries its content and the group's size. With a
      positive chunk size and no negative overlap it always succeeds. */
  lemma MarkdownBranchFacts(env: ChunkEnv, content: string, fileName: Option<string>,
                            overlap: int, numTokens: int, title: Option<string>)
    ensures var r := MarkdownBranch(env, content, fileName, overlap, numTokens, title);
      var pieces := S.SplitTextSpec(V2Config(env, numTokens, overlap), content, S.MarkdownSeparators);
      (r.Success? <==> pieces.Success?)
      && (numTokens > 0 && overlap >= 0 ==> r.Success?)
      && (r.Success? ==>
            var gs := MergeChunksSerially(env.tok, pieces.value, numTokens);
            |r.value| == |gs|
            && forall j :: 0 <= j < |gs| ==>
                 r.value[j].doc.title == title
                 && r.value[j].text == r.value[j].doc.content == CleanupContent(gs[j].text)
                 && r.value[j].size == gs[j].size)
  {
    S.SplitTextFacts(V2Config(env, numTokens, overlap), content, S.MarkdownSeparators);
    assert S.MarkdownSeparators != [];
  }

  /** CSV: a table that cannot be read stops the generator; otherwise every
      chunk is a whole document of the CSV chunker, in its order, titled with
      the summary heading and sized by the token estimator. */
  lemma CsvBranchFacts(env: ChunkEnv, content: string, fileName: string, numTokens: int)
    ensures var r := CsvBranch(env, content, fileName, numTokens);
      (r.Success? <==> env.readCsv(content).Success?)
      && (r.Success? ==>
            var docs := C.CsvSplit(CsvEnvOf(env), env.readCsv(content).value, fileName, numTokens);
            |r.value| == |docs|
            && forall j :: 0 <= j < |docs| ==>
                 r.value[j].doc == docs[j]
                 && r.value[j].text == docs[j].content
                 && r.value[j].size == env.tok(docs[j].content)
                 && docs[j].title == Some(C.SummaryTitle))
  {
    if env.readCsv(content).Success? {
      C.CsvSplitFacts(CsvEnvOf(env), env.readCsv(content).value, fileName, numTokens);
    }
  }

  /** PDF with Form Recognizer: the chunk texts are the PDF chunker's pieces of
      the parsed content, in order; every chunk points at the parsed document
      and is sized by the token estimator. */
  lemma PdfBranchFacts(env: ChunkEnv, doc: Document, overlap: int, numTokens: int)
    ensures var r := PdfBranch(env, doc, overlap, numTokens);
      var pieces := Pdf.PdfSplit(Pdf.PdfConfig(env.tok, env.header, Pdf.PdfSeparators, numTokens, overlap), doc.content);
      (r.Success? <==> pieces.Success?)
      && (r.Success? ==>
            ChunkTexts(r.value) == pieces.value
            && forall j :: 0 <= j < |r.value| ==> r.value[j].doc == doc && r.value[j].size == env.tok(r.value[j].text))
  {
  }

  /** The catch-all branch: the parsed content is split with the Python
      separators for "python" and with sentence endings then word breaks
      otherwise; every chunk is non-empty, points at the parsed document and is
      sized by the token estimator; only a non-positive chunk size or a
      negative overlap stop it. */
  lemma PlainBranchFacts(env: ChunkEnv, doc: Document, format: string, overlap: int, numTokens: int)
    ensures var r := PlainBranch(env, doc, format, overlap, numTokens);
      var pieces := S.SplitTextSpec(V2Config(env, numTokens, overlap), doc.content, PlainSeparators(format));
      (numTokens > 0 && overlap >= 0 ==> r.Success?)
      && (r.Success? <==> pieces.Success?)
      && (r.Success? ==>
            ChunkTexts(r.value) == pieces.value
            && forall j :: 0 <= j < |r.value| ==>
                 r.value[j].text != []
                 && r.value[j].doc == doc
                 && r.value[j].size == env.tok(r.value[j].text))
  {
    S.SplitTextFacts(V2Config(env, numTokens, overlap), doc.content, PlainSeparators(format));
  }
}
