/** `TextChunker`: chooses the chunking helper by version, resolves a file's
    format from its extension, filters chunks by size and walks a directory. */
module TextChunking {
  import opened Wrappers
  import opened Strings
  import opened Json
  import opened Documents
  import opened ChunkingUtils
  import P = Parsing
  import U = RagUtils

  /** `FILE_FORMAT_DICT`: extension to file format. */
  const FileFormats: map<string, string> := map[
    "md" := "markdown", "txt" := "text", "html" := "html", "shtml" := "html",
    "htm" := "html", "py" := "python", "csv" := "csv", "pdf" := "pdf"]

  /** The signature of `chunk_content_helper_v1` and `_v2`, collected into a
      list: environment, content, format, file name, overlap, tokens per
      chunk, `use_fr`. */
  type ChunkHelper = (ChunkEnv, string, string, Option<string>, int, int, bool) -> Result<seq<Chunk>>

  /** A chunker after `__init__`: the extensions it processes and its
      `chunk_fn`. Neither changes after construction. */
  datatype TextChunker = TextChunker(extensions: set<string>, chunkFn: ChunkHelper)

  predicate Valid(c: TextChunker) {
    c.extensions != {} && c.extensions <= FileFormats.Keys
  }

  /** The extensions `__init__` keeps: all known ones when none are requested,
      else the known requested ones; v1 drops Python. */
  function ExtensionsFor(version: string, requested: Option<seq<string>>): set<string> {
    var base :=
      if requested.None? || requested.value == [] then FileFormats.Keys
      else set e | e in requested.value && e in FileFormats;
    if version == "v1" then base - {"py"} else base
  }

  /** `TextChunker(version, extensions_to_process)`. */
  function NewTextChunker(version: string, requested: Option<seq<string>>): Result<TextChunker> {
    var exts := ExtensionsFor(version, requested);
    if exts == {} then Failure(NoExtensionsToProcess)
    else Success(TextChunker(exts, if version == "v1" then ChunkContentV1 else ChunkContentV2))
  }

  /** Construction fails exactly when no known extension survives; otherwise
      the chunker is valid, keeps just the known requested extensions (all of
      them when none are requested) and drops Python under v1. */
  lemma NewTextChunkerFacts(version: string, requested: Option<seq<string>>)
    ensures var r := NewTextChunker(version, requested);
      (r.Failure? <==> ExtensionsFor(version, requested) == {}) &&
      (r.Failure? ==> r.error == NoExtensionsToProcess) &&
      (r.Success? ==>
         Valid(r.value) && r.value == TextChunker(r.value.extensions, if version == "v1" then ChunkContentV1 else ChunkContentV2)) &&
      (r.Success? ==> forall e :: e in r.value.extensions <==>
         e in FileFormats && (version == "v1" ==> e != "py") &&
         (requested.None? || requested.value == [] || e in requested.value)) &&
      ((requested.None? || requested.value == []) ==> r.Success?)
  {
    if requested.None? || requested.value == [] {
      assert "md" in ExtensionsFor(version, requested);
    }
  }

  /** The file's extension: the characters after the last '.' or '/', that
      is `split(".")[-1]` of the base name (`ExtensionOfBasename`). */
  function Extension(fileName: string): (ext: string)
    ensures '.' !in ext && '/' !in ext
  {
    if fileName == [] || fileName[|fileName| - 1] in {'.', '/'} then []
    else Extension(fileName[..|fileName| - 1]) + [fileName[|fileName| - 1]]
  }

  /** `Extension` is the last '.'-separated piece of the base name. */
  lemma ExtensionOfBasename(fileName: string)
    ensures Extension(fileName) == Last(Split(Basename(fileName), "."))
  {
    ExtensionAfterLastDot(fileName);
    LastPieceAfterLastDot(Basename(fileName));
  }

  lemma {:induction false} ExtensionAfterLastDot(f: string)
    ensures var b := Basename(f); Extension(f) == b[RFindChar(b, '.') + 1..]
    decreases |f|
  {
    if f != [] && f[|f| - 1] !in {'.', '/'} {
      var init := f[..|f| - 1];
      var x := f[|f| - 1];
      ExtensionAfterLastDot(init);
      assert f == init + [x];
      BasenameSnoc(init, x);
      AfterLastDotSnoc(Basename(init), x);
    } else if f != [] && f[|f| - 1] == '.' {
      var b := Basename(f);
      assert b[|b| - 1] == '.';
    }
  }

  lemma BasenameSnoc(s: string, x: char)
    requires x != '/'
    ensures Basename(s + [x]) == Basename(s) + [x]
  {
    RFindCharSnoc(s, x, '/');
  }

  lemma AfterLastDotSnoc(b: string, x: char)
    requires x != '.'
    ensures var bx := b + [x]; bx[RFindChar(bx, '.') + 1..] == b[RFindChar(b, '.') + 1..] + [x]
  {
    RFindCharSnoc(b, x, '.');
    var r := RFindChar(b, '.');
    assert (b + [x])[r + 1..] == b[r + 1..] + [x];
  }

  /** A character other than `c` added at the end leaves the last `c` where
      it was. */
  lemma RFindCharSnoc(s: string, x: char, c: char)
    requires x != c
    ensures RFindChar(s + [x], c) == RFindChar(s, c)
  {
    assert (s + [x])[..|s|] == s;
  }

  /** The text after the last '.' is the last piece of the split at '.'. */
  lemma {:induction false} LastPieceAfterLastDot(s: string)
    ensures Last(Split(s, ".")) == s[RFindChar(s, '.') + 1..]
    decreases |s|
  {
    var i := Find(s, ".");
    if i < 0 {
      NoDotPiece(s);
    } else {
      var rest := s[i + 1..];
      LastPieceAfterLastDot(rest);
      DotPiece(s, i);
    }
  }

  lemma NoDotPiece(s: string)
    requires Find(s, ".") < 0
    ensures Last(Split(s, ".")) == s[RFindChar(s, '.') + 1..]
  {
    assert Split(s, ".") == [s];
    if RFindChar(s, '.') >= 0 {
      assert OccursAt(s, ".", RFindChar(s, '.'));
    }
    assert s[0..] == s;
  }

  lemma DotPiece(s: string, i: nat)
    requires i == Find(s, ".")
    ensures var rest := s[i + 1..];
      Last(Split(s, ".")) == Last(Split(rest, ".")) &&
      s[RFindChar(s, '.') + 1..] == rest[RFindChar(rest, '.') + 1..]
  {
    var rest := s[i + 1..];
    var tail := Split(rest, ".");
    assert OccursAt(s, ".", i);
    assert s[i..i + 1][0] == s[i];
    assert Split(s, ".") == [s[..i]] + tail;
    assert Last([s[..i]] + tail) == Last(tail);
    DotPieceAfter(s, i);
  }

  lemma DotPieceAfter(s: string, i: nat)
    requires i < |s| && s[i] == '.'
    ensures var rest := s[i + 1..]; s[RFindChar(s, '.') + 1..] == rest[RFindChar(rest, '.') + 1..]
  {
    var rest := s[i + 1..];
    RFindCharSuffix(s, i + 1, '.');
    var r := RFindChar(rest, '.');
    assert s[i + 1 + r + 1..] == rest[r + 1..];
  }

  /** Searching a suffix from the right finds the same occurrence, when there
      is one past the cut. */
  lemma {:induction false} RFindCharSuffix(s: string, k: nat, c: char)
    requires 0 < k <= |s| && s[k - 1] == c
    ensures RFindChar(s, c) == k + RFindChar(s[k..], c)
    decreases |s|
  {
    if s[|s| - 1] != c {
      RFindCharSuffix(s[..|s| - 1], k, c);
      assert s[..|s| - 1][k..] == s[k..][..|s[k..]| - 1];
    }
  }

  /** `_get_file_format`: the format of a processed extension, else nothing. */
  function GetFileFormat(c: TextChunker, fileName: string): Option<string> {
    var ext := Extension(fileName);
    if ext !in c.extensions then None
    else if ext in FileFormats then Some(FileFormats[ext]) else None
  }

  /** A valid chunker resolves a file exactly when its extension is one it
      processes, to the format listed for that extension; the extension holds
      neither '.' nor '/'. */
  lemma GetFileFormatFacts(c: TextChunker, fileName: string)
    requires Valid(c)
    ensures var ext := Extension(fileName);
      var r := GetFileFormat(c, fileName);
      (r.Some? <==> ext in c.extensions) &&
      (r.Some? ==>
         r.value == FileFormats[ext] && P.ParserFor(r.value, false).Success? && P.ParserFor(r.value, true).Success?)
  {
    var ext := Extension(fileName);
    if ext in c.extensions {
      P.ParserForFacts(FileFormats[ext], false);
      P.ParserForFacts(FileFormats[ext], true);
    }
  }

  /** The format `chunk_content` chunks under: the resolved one, or "text"
      when there is no file name or it does not resolve. */
  function FormatFor(c: TextChunker, fileName: Option<string>): string {
    if fileName.None? then "text"
    else
      match GetFileFormat(c, fileName.value)
      case None => "text"
      case Some(f) => f
  }

  /** The document made from a kept chunk: its text, its parent's title and
      the caller's url. */
  function ChunkDocument(chunk: Chunk, url: Option<string>): Document {
    Document(chunk.text, NoId, None, chunk.doc.title, None, url, Null)
  }

  /** The chunks of at least `minChunkSize` tokens, as documents. */
  function Kept(chunks: seq<Chunk>, minChunkSize: int, url: Option<string>): seq<Document> {
    if chunks == [] then []
    else
      var last := chunks[|chunks| - 1];
      Kept(chunks[..|chunks| - 1], minChunkSize, url)
      + (if last.size >= minChunkSize then [ChunkDocument(last, url)] else [])
  }

  /** `chunk_content`: an error becomes an empty list under `ignore_errors`. */
  function ChunkContent(c: TextChunker, env: ChunkEnv, content: string, fileName: Option<string>,
                        url: Option<string>, ignoreErrors: bool, numTokens: int, minChunkSize: int,
                        overlap: int, useFr: bool): Result<seq<Document>>
  {
    match c.chunkFn(env, content, FormatFor(c, fileName), fileName, overlap, numTokens, useFr)
    case Failure(e) => if ignoreErrors then Success([]) else Failure(e)
    case Success(chunks) => Success(Kept(chunks, minChunkSize, url))
  }

  method ChunkContentMethod(c: TextChunker, env: ChunkEnv, content: string, fileName: Option<string>,
                            url: Option<string>, ignoreErrors: bool, numTokens: int, minChunkSize: int,
                            overlap: int, useFr: bool) returns (r: Result<seq<Document>>)
    ensures r == ChunkContent(c, env, content, fileName, url, ignoreErrors, numTokens, minChunkSize, overlap, useFr)
  {
    var format := FormatFor(c, fileName);
    match c.chunkFn(env, content, format, fileName, overlap, numTokens, useFr)
    case Failure(e) =>
      if ignoreErrors {
        return Success([]);
      }
      return Failure(e);
    case Success(chunked) =>
      var chunks := KeepLoop(chunked, minChunkSize, url);
      r := Success(chunks);
  }

  /** The size filter of `chunk_content`. */
  method KeepLoop(chunked: seq<Chunk>, minChunkSize: int, url: Option<string>) returns (chunks: seq<Document>)
    ensures chunks == Kept(chunked, minChunkSize, url)
  {
    chunks := [];
    for i := 0 to |chunked|
      invariant chunks == Kept(chunked[..i], minChunkSize, url)
    {
      var chunk := chunked[i];
      if chunk.size >= minChunkSize {
        chunks := chunks + [Document(chunk.text, NoId, None, chunk.doc.title, None, url, Null)];
      }
      assert chunked[..i + 1][..i] == chunked[..i];
    }
    assert chunked[..|chunked|] == chunked;
  }

  /** The filter keeps, in order, exactly the chunks of at least
      `minChunkSize` tokens, each as a document with the chunk's text, its
      parent's title and the url; with a minimum of 0 or less it keeps all. */
  lemma {:induction false} KeptFacts(chunks: seq<Chunk>, minChunkSize: int, url: Option<string>)
    ensures var r := Kept(chunks, minChunkSize, url);
      |r| <= |chunks| && (minChunkSize <= 0 ==> |r| == |chunks|) &&
      (forall d :: d in r ==>
         d.url == url && d.filepath.None? && d.chunkId == NoId &&
         exists k :: 0 <= k < |chunks| && chunks[k].size >= minChunkSize && d == ChunkDocument(chunks[k], url)) &&
      (forall k :: 0 <= k < |chunks| && chunks[k].size >= minChunkSize ==> ChunkDocument(chunks[k], url) in r)
    decreases |chunks|
  {
    if chunks != [] {
      var init := chunks[..|chunks| - 1];
      KeptFacts(init, minChunkSize, url);
      forall k | 0 <= k < |init| ensures init[k] == chunks[k] { }
    }
  }

  /** `chunk_content` always chunks under a format the parser factory
      resolves; it fails only without `ignore_errors`, and then with the
      helper's own error. */
  lemma ChunkContentFacts(c: TextChunker, env: ChunkEnv, content: string, fileName: Option<string>,
                          url: Option<string>, ignoreErrors: bool, numTokens: int, minChunkSize: int,
                          overlap: int, useFr: bool)
    requires Valid(c)
    ensures var format := FormatFor(c, fileName);
      var chunked := c.chunkFn(env, content, format, fileName, overlap, numTokens, useFr);
      var r := ChunkContent(c, env, content, fileName, url, ignoreErrors, numTokens, minChunkSize, overlap, useFr);
      P.ParserFor(format, useFr).Success? &&
      (fileName.None? ==> format == "text") &&
      (r.Failure? <==> !ignoreErrors && chunked.Failure?) &&
      (r.Failure? ==> r.error == chunked.error) &&
      (chunked.Success? ==> r == Success(Kept(chunked.value, minChunkSize, url))) &&
      (chunked.Failure? && ignoreErrors ==> r == Success([]))
  {
    if fileName.Some? {
      GetFileFormatFacts(c, fileName.value);
    }
    P.ParserForFacts(FormatFor(c, fileName), useFr);
  }

  /** `chunk_file`: an unsupported extension gives nothing under
      `ignore_errors` and an error otherwise; a read error always propagates;
      the overlap is clamped at 0 and Form Recognizer is off. */
  function ChunkFile(c: TextChunker, env: ChunkEnv, read: string -> Result<string>, filePath: string,
                     ignoreErrors: bool, numTokens: int, minChunkSize: int, url: Option<string>,
                     overlap: int): Result<seq<Document>>
  {
    var name := Basename(filePath);
    if GetFileFormat(c, name).None? then
      if ignoreErrors then Success([]) else Failure(UnsupportedFormat(name))
    else
      var content :- read(filePath);
      ChunkContent(c, env, content, Some(name), url, ignoreErrors, numTokens, minChunkSize,
                   if overlap > 0 then overlap else 0, false)
  }

  method ChunkFileMethod(c: TextChunker, env: ChunkEnv, read: string -> Result<string>, filePath: string,
                         ignoreErrors: bool, numTokens: int, minChunkSize: int, url: Option<string>,
                         overlap: int) returns (r: Result<seq<Document>>)
    ensures r == ChunkFile(c, env, read, filePath, ignoreErrors, numTokens, minChunkSize, url, overlap)
  {
    var name := Basename(filePath);
    var format := GetFileFormat(c, name);
    if format.None? {
      if ignoreErrors {
        return Success([]);
      }
      return Failure(UnsupportedFormat(name));
    }
    match read(filePath)
    case Failure(e) =>
      return Failure(e);
    case Success(content) =>
      r := ChunkContentMethod(c, env, content, Some(name), url, ignoreErrors, numTokens, minChunkSize,
                              if overlap > 0 then overlap else 0, false);
  }

  /** A file is chunked under the format listed for its base name's
      extension, with the base name as file name, a non-negative overlap and
      Form Recognizer off. An unsupported extension gives nothing under
      `ignore_errors` and an error otherwise; under `ignore_errors` only an
      unreadable file fails; every document carries the url given. */
  lemma ChunkFileFacts(c: TextChunker, env: ChunkEnv, read: string -> Result<string>, filePath: string,
                       ignoreErrors: bool, numTokens: int, minChunkSize: int, url: Option<string>,
                       overlap: int)
    requires Valid(c)
    ensures var name := Basename(filePath);
      var ext := Extension(name);
      var r := ChunkFile(c, env, read, filePath, ignoreErrors, numTokens, minChunkSize, url, overlap);
      (ext !in c.extensions ==>
         r == (if ignoreErrors then Success([]) else Failure(UnsupportedFormat(name)))) &&
      (ext in c.extensions && read(filePath).Failure? ==> r == Failure(read(filePath).error)) &&
      (ext in c.extensions && read(filePath).Success? ==>
         var chunked := c.chunkFn(env, read(filePath).value, FileFormats[ext], Some(name),
                                  if overlap > 0 then overlap else 0, numTokens, false);
         (chunked.Success? ==> r == Success(Kept(chunked.value, minChunkSize, url))) &&
         (chunked.Failure? ==> r == if ignoreErrors then Success([]) else Failure(chunked.error))) &&
      (ignoreErrors ==> (r.Failure? <==> ext in c.extensions && read(filePath).Failure?)) &&
      (r.Success? ==> forall d :: d in r.value ==> d.url == url)
  {
    var name := Basename(filePath);
    var r := ChunkFile(c, env, read, filePath, ignoreErrors, numTokens, minChunkSize, url, overlap);
    if GetFileFormat(c, name).None? {
      assert r.Success? ==> r.value == [];
    } else if read(filePath).Failure? {
      assert r.Failure?;
    } else {
      var o := if overlap > 0 then overlap else 0;
      var chunked := c.chunkFn(env, read(filePath).value, FileFormats[Extension(name)], Some(name), o, numTokens, false);
      assert FormatFor(c, Some(name)) == FileFormats[Extension(name)];
      if chunked.Success? {
        var kept := Kept(chunked.value, minChunkSize, url);
        assert r == Success(kept);
        KeptFacts(chunked.value, minChunkSize, url);
      } else {
        assert r == if ignoreErrors then Success([]) else Failure(chunked.error);
      }
    }
  }

  /** A path from `get_files_recursively`: the path, its path relative to the
      directory, and whether it is a regular file. */
  datatype Entry = Entry(path: string, relPath: string, isFile: bool)

  /** The url of a file: the prefix and the relative path with backslashes
      turned into slashes, or none without a non-empty prefix. */
  function UrlOf(urlPrefix: Option<string>, relPath: string): Option<string> {
    if urlPrefix.Some? && urlPrefix.value != [] then Some(U.ConvertEscapedToPosix(urlPrefix.value + relPath))
    else None
  }

  /** The metadata `json.dumps({"chunk_id": str(idx)})`; the object holds no
      float, so no float printer is consulted. */
  function ChunkIdMetadata(idx: nat): Value {
    Str(Dumps(Obj([Field("chunk_id", Str(NatToString(idx)))]), _ => ""))
  }

  /** A file's chunks tagged with its relative path and their index. */
  function Tagged(docs: seq<Document>, relPath: string): (r: seq<Document>)
    ensures |r| == |docs|
  {
    seq(|docs|, i requires 0 <= i < |docs| => docs[i].(filepath := Some(relPath), metadata := ChunkIdMetadata(i)))
  }

  /** One entry's chunks: nothing for a directory, a failing file ignored
      under `ignore_errors`. */
  function EntryChunks(c: TextChunker, env: ChunkEnv, read: string -> Result<string>, e: Entry,
                       ignoreErrors: bool, numTokens: int, minChunkSize: int, urlPrefix: Option<string>,
                       overlap: int): Result<seq<Document>>
  {
    if !e.isFile then Success([])
    else FileEntryChunks(ChunkFile(c, env, read, e.path, ignoreErrors, numTokens, minChunkSize,
                                   UrlOf(urlPrefix, e.relPath), overlap), ignoreErrors, e.relPath)
  }

  /** A file entry's chunks, given what `chunk_file` returned for it. */
  function FileEntryChunks(chunked: Result<seq<Document>>, ignoreErrors: bool, relPath: string): (r: Result<seq<Document>>)
    ensures r.Failure? ==> !ignoreErrors && chunked == Failure(r.error)
    ensures r.Success? ==> forall d :: d in r.value ==> d.filepath == Some(relPath)
  {
    match chunked
    case Failure(err) => if ignoreErrors then Success([]) else Failure(err)
    case Success(docs) =>
      var tagged := Tagged(docs, relPath);
      assert forall d :: d in tagged ==> d.filepath == Some(relPath) by {
        forall d | d in tagged ensures d.filepath == Some(relPath) {
          var k :| 0 <= k < |tagged| && tagged[k] == d;
        }
      }
      Success(tagged)
  }

  /** `chunk_directory` as evidently intended: every file's tagged chunks in
      listing order, or the first error raised without `ignore_errors`. */
  function ChunkDirectory(c: TextChunker, env: ChunkEnv, read: string -> Result<string>, entries: seq<Entry>,
                          ignoreErrors: bool, numTokens: int, minChunkSize: int, urlPrefix: Option<string>,
                          overlap: int): Result<seq<Document>>
  {
    if entries == [] then Success([])
    else
      var prev :- ChunkDirectory(c, env, read, entries[..|entries| - 1], ignoreErrors, numTokens,
                                 minChunkSize, urlPrefix, overlap);
      var last :- EntryChunks(c, env, read, entries[|entries| - 1], ignoreErrors, numTokens,
                              minChunkSize, urlPrefix, overlap);
      Success(prev + last)
  }

  /** The directory walk with each file's chunks added to the result. */
  method ChunkDirectoryMethod(c: TextChunker, env: ChunkEnv, read: string -> Result<string>, entries: seq<Entry>,
                              ignoreErrors: bool, numTokens: int, minChunkSize: int, urlPrefix: Option<string>,
                              overlap: int) returns (r: Result<seq<Document>>)
    ensures r == ChunkDirectory(c, env, read, entries, ignoreErrors, numTokens, minChunkSize, urlPrefix, overlap)
  {
    var chunks := [];
    for i := 0 to |entries|
      invariant ChunkDirectory(c, env, read, entries[..i], ignoreErrors, numTokens, minChunkSize, urlPrefix, overlap)
        == Success(chunks)
    {
      assert entries[..i + 1][..i] == entries[..i];
      var got := EntryStep(c, env, read, entries[i], ignoreErrors, numTokens, minChunkSize, urlPrefix, overlap);
      match got
      case Failure(e) =>
        ChunkDirectoryPrefixFails(c, env, read, entries, i + 1, ignoreErrors, numTokens, minChunkSize,
                                  urlPrefix, overlap);
        return Failure(e);
      case Success(docs) =>
        chunks := chunks + docs;
    }
    assert entries[..|entries|] == entries;
    r := Success(chunks);
  }

  /** Once a prefix of the listing fails, the whole walk fails the same way. */
  lemma {:induction false} ChunkDirectoryPrefixFails(c: TextChunker, env: ChunkEnv, read: string -> Result<string>,
                                                     entries: seq<Entry>, k: nat, ignoreErrors: bool, numTokens: int,
                                                     minChunkSize: int, urlPrefix: Option<string>, overlap: int)
    requires k <= |entries|
    requires ChunkDirectory(c, env, read, entries[..k], ignoreErrors, numTokens, minChunkSize, urlPrefix, overlap).Failure?
    ensures ChunkDirectory(c, env, read, entries, ignoreErrors, numTokens, minChunkSize, urlPrefix, overlap)
      == ChunkDirectory(c, env, read, entries[..k], ignoreErrors, numTokens, minChunkSize, urlPrefix, overlap)
    decreases |entries|
  {
    if k < |entries| {
      var init := entries[..|entries| - 1];
      assert init[..k] == entries[..k];
      ChunkDirectoryPrefixFails(c, env, read, init, k, ignoreErrors, numTokens, minChunkSize, urlPrefix, overlap);
    } else {
      assert entries[..k] == entries;
    }
  }

  /** The body of the directory loop for one entry. */
  method EntryStep(c: TextChunker, env: ChunkEnv, read: string -> Result<string>, e: Entry,
                   ignoreErrors: bool, numTokens: int, minChunkSize: int, urlPrefix: Option<string>,
                   overlap: int) returns (r: Result<seq<Document>>)
    ensures r == EntryChunks(c, env, read, e, ignoreErrors, numTokens, minChunkSize, urlPrefix, overlap)
  {
    if !e.isFile {
      return Success([]);
    }
    var urlPath := None;
    if urlPrefix.Some? && urlPrefix.value != [] {
      urlPath := Some(U.ConvertEscapedToPosix(urlPrefix.value + e.relPath));
    }
    var result := ChunkFileMethod(c, env, read, e.path, ignoreErrors, numTokens, minChunkSize, urlPath, overlap);
    match result
    case Failure(err) =>
      if !ignoreErrors {
        return Failure(err);
      }
      return Success([]);
    case Success(found) =>
      var docs := TagLoop(found, e.relPath);
      r := Success(docs);
  }

  /** The tagging loop: each chunk gets the file's relative path and its index
      as chunk id. */
  method TagLoop(found: seq<Document>, relPath: string) returns (docs: seq<Document>)
    ensures docs == Tagged(found, relPath)
  {
    docs := found;
    for idx := 0 to |docs|
      invariant |docs| == |found|
      invariant forall k :: 0 <= k < idx ==>
        docs[k] == found[k].(filepath := Some(relPath), metadata := ChunkIdMetadata(k))
      invariant forall k :: idx <= k < |docs| ==> docs[k] == found[k]
    {
      docs := docs[idx := docs[idx].(filepath := Some(relPath), metadata := ChunkIdMetadata(idx))];
    }
  }

  /** One entry: a directory yields nothing, a file's documents carry its
      relative path, and a failure is that file's own `chunk_file` error,
      raised only without `ignore_errors`. */
  lemma EntryChunksFacts(c: TextChunker, env: ChunkEnv, read: string -> Result<string>, e: Entry,
                         ignoreErrors: bool, numTokens: int, minChunkSize: int, urlPrefix: Option<string>,
                         overlap: int)
    ensures var r := EntryChunks(c, env, read, e, ignoreErrors, numTokens, minChunkSize, urlPrefix, overlap);
      (r.Failure? ==>
         !ignoreErrors && e.isFile &&
         ChunkFile(c, env, read, e.path, ignoreErrors, numTokens, minChunkSize, UrlOf(urlPrefix, e.relPath), overlap)
           == Failure(r.error)) &&
      (r.Success? ==> (!e.isFile ==> r.value == []) && forall d :: d in r.value ==> d.filepath == Some(e.relPath))
  {
  }

  /** Under `ignore_errors` the walk never fails. */
  lemma {:induction false} ChunkDirectoryIgnoring(c: TextChunker, env: ChunkEnv, read: string -> Result<string>,
                                                  entries: seq<Entry>, numTokens: int, minChunkSize: int,
                                                  urlPrefix: Option<string>, overlap: int)
    ensures ChunkDirectory(c, env, read, entries, true, numTokens, minChunkSize, urlPrefix, overlap).Success?
    decreases |entries|
  {
    if entries != [] {
      var e := entries[|entries| - 1];
      ChunkDirectoryIgnoring(c, env, read, entries[..|entries| - 1], numTokens, minChunkSize, urlPrefix, overlap);
      EntryChunksFacts(c, env, read, e, true, numTokens, minChunkSize, urlPrefix, overlap);
    }
  }

  /** Every document the walk returns comes from a file entry and carries
      that file's relative path. */
  lemma {:induction false} ChunkDirectoryProvenance(c: TextChunker, env: ChunkEnv, read: string -> Result<string>,
                                                    entries: seq<Entry>, ignoreErrors: bool, numTokens: int,
                                                    minChunkSize: int, urlPrefix: Option<string>, overlap: int)
    ensures var r := ChunkDirectory(c, env, read, entries, ignoreErrors, numTokens, minChunkSize, urlPrefix, overlap);
      r.Success? ==> forall d :: d in r.value ==>
        exists e :: e in entries && e.isFile && d.filepath == Some(e.relPath)
    decreases |entries|
  {
    var r := ChunkDirectory(c, env, read, entries, ignoreErrors, numTokens, minChunkSize, urlPrefix, overlap);
    if entries != [] && r.Success? {
      var init := entries[..|entries| - 1];
      var e := entries[|entries| - 1];
      var pr := ChunkDirectory(c, env, read, init, ignoreErrors, numTokens, minChunkSize, urlPrefix, overlap);
      var lr := EntryChunks(c, env, read, e, ignoreErrors, numTokens, minChunkSize, urlPrefix, overlap);
      assert pr.Success? && lr.Success?;
      ChunkDirectoryProvenance(c, env, read, init, ignoreErrors, numTokens, minChunkSize, urlPrefix, overlap);
      EntryChunksFacts(c, env, read, e, ignoreErrors, numTokens, minChunkSize, urlPrefix, overlap);
      var prev, last := pr.value, lr.value;
      assert forall d' :: d' in prev ==> exists x :: x in init && x.isFile && d'.filepath == Some(x.relPath);
      assert r.value == prev + last;
      forall d | d in r.value
        ensures exists x :: x in entries && x.isFile && d.filepath == Some(x.relPath)
      {
        if d in prev {
          var x :| x in init && x.isFile && d.filepath == Some(x.relPath);
          assert x in entries;
        } else {
          assert d in last;
          assert e.isFile && e in entries;
        }
      }
    }
  }

  /** A failed walk failed with the error of some file's `chunk_file`. */
  lemma {:induction false} ChunkDirectoryFailure(c: TextChunker, env: ChunkEnv, read: string -> Result<string>,
                                                 entries: seq<Entry>, ignoreErrors: bool, numTokens: int,
                                                 minChunkSize: int, urlPrefix: Option<string>, overlap: int)
    ensures var r := ChunkDirectory(c, env, read, entries, ignoreErrors, numTokens, minChunkSize, urlPrefix, overlap);
      r.Failure? ==> exists e ::
        e in entries && e.isFile &&
        ChunkFile(c, env, read, e.path, ignoreErrors, numTokens, minChunkSize, UrlOf(urlPrefix, e.relPath), overlap)
          == Failure(r.error)
    decreases |entries|
  {
    var r := ChunkDirectory(c, env, read, entries, ignoreErrors, numTokens, minChunkSize, urlPrefix, overlap);
    if entries != [] && r.Failure? {
      var init := entries[..|entries| - 1];
      var e := entries[|entries| - 1];
      assert e in entries;
      var prev := ChunkDirectory(c, env, read, init, ignoreErrors, numTokens, minChunkSize, urlPrefix, overlap);
      if prev.Failure? {
        ChunkDirectoryFailure(c, env, read, init, ignoreErrors, numTokens, minChunkSize, urlPrefix, overlap);
        assert r == Failure(prev.error);
        var x :| x in init && x.isFile &&
          ChunkFile(c, env, read, x.path, ignoreErrors, numTokens, minChunkSize, UrlOf(urlPrefix, x.relPath), overlap)
            == Failure(prev.error);
        assert x in entries;
      } else {
        EntryChunksFacts(c, env, read, e, ignoreErrors, numTokens, minChunkSize, urlPrefix, overlap);
      }
    }
  }


  /** `chunk_directory` as written: each file's result is tagged and then
      dropped, and the list is extended with itself. */
  function ChunkDirectoryAsWritten(c: TextChunker, env: ChunkEnv, read: string -> Result<string>, entries: seq<Entry>,
                                   ignoreErrors: bool, numTokens: int, minChunkSize: int, urlPrefix: Option<string>,
                                   overlap: int): Result<seq<Document>>
  {
    if entries == [] then Success([])
    else
      var chunks :- ChunkDirectoryAsWritten(c, env, read, entries[..|entries| - 1], ignoreErrors, numTokens,
                                            minChunkSize, urlPrefix, overlap);
      var _ :- EntryChunks(c, env, read, entries[|entries| - 1], ignoreErrors, numTokens,
                           minChunkSize, urlPrefix, overlap);
      Success(chunks + chunks)
  }

  /** As written, the walk returns no document at all, whatever the files
      hold; it fails exactly where the intended walk fails. */
  lemma {:induction false} ChunkDirectoryAsWrittenEmpty(c: TextChunker, env: ChunkEnv, read: string -> Result<string>,
                                                        entries: seq<Entry>, ignoreErrors: bool, numTokens: int,
                                                        minChunkSize: int, urlPrefix: Option<string>, overlap: int)
    ensures var r := ChunkDirectoryAsWritten(c, env, read, entries, ignoreErrors, numTokens, minChunkSize, urlPrefix, overlap);
      var fixed := ChunkDirectory(c, env, read, entries, ignoreErrors, numTokens, minChunkSize, urlPrefix, overlap);
      (r.Success? ==> r.value == []) && (r.Failure? <==> fixed.Failure?) && (r.Failure? ==> r == fixed)
    decreases |entries|
  {
    if entries != [] {
      ChunkDirectoryAsWrittenEmpty(c, env, read, entries[..|entries| - 1], ignoreErrors, numTokens,
                                   minChunkSize, urlPrefix, overlap);
    }
  }

  /** A one-entry listing: the intended walk returns that entry's chunks. */
  lemma ChunkDirectoryOneEntry(c: TextChunker, env: ChunkEnv, read: string -> Result<string>, e: Entry,
                               ignoreErrors: bool, numTokens: int, minChunkSize: int, urlPrefix: Option<string>,
                               overlap: int, x: seq<Document>)
    requires EntryChunks(c, env, read, e, ignoreErrors, numTokens, minChunkSize, urlPrefix, overlap) == Success(x)
    ensures ChunkDirectory(c, env, read, [e], ignoreErrors, numTokens, minChunkSize, urlPrefix, overlap) == Success(x)
  {
    assert [e][..0] == [] && [e][0] == e;
    assert ChunkDirectory(c, env, read, [], ignoreErrors, numTokens, minChunkSize, urlPrefix, overlap) == Success([]);
    assert ChunkDirectory(c, env, read, [e], ignoreErrors, numTokens, minChunkSize, urlPrefix, overlap)
      == Success([] + x);
    assert [] + x == x;
  }

  /** A directory holding one file that yields one chunk `d`: the intended
      walk returns `d` tagged with its relative path and chunk id 0; the walk
      as written returns an empty list. */
  lemma ChunkDirectoryDropsChunks(c: TextChunker, env: ChunkEnv, read: string -> Result<string>,
                                  e: Entry, numTokens: int, minChunkSize: int, overlap: int, d: Document)
    requires e.isFile
    requires ChunkFile(c, env, read, e.path, true, numTokens, minChunkSize, None, overlap) == Success([d])
    ensures ChunkDirectory(c, env, read, [e], true, numTokens, minChunkSize, None, overlap)
      == Success([d.(filepath := Some(e.relPath), metadata := ChunkIdMetadata(0))])
    ensures ChunkDirectoryAsWritten(c, env, read, [e], true, numTokens, minChunkSize, None, overlap) == Success([])
  {
    assert UrlOf(None, e.relPath) == None;
    assert EntryChunks(c, env, read, e, true, numTokens, minChunkSize, None, overlap)
      == Success(Tagged([d], e.relPath));
    assert Tagged([d], e.relPath) == [d.(filepath := Some(e.relPath), metadata := ChunkIdMetadata(0))];
    ChunkDirectoryOneEntry(c, env, read, e, true, numTokens, minChunkSize, None, overlap, Tagged([d], e.relPath));
    ChunkDirectoryAsWrittenEmpty(c, env, read, [e], true, numTokens, minChunkSize, None, overlap);
  }
}
