/** The ingestion pipeline's chunk builders: markdown from a Document
    Intelligence layout split into `## ` sections (chunk_docs and
    json2idx), a speech transcript split into chunks, the chunk records
    and their ids, the audio file check and the figure bounding box.
    The md5 digest, the embedding model and the semchunk chunker are
    parameters. */
module Ingestion {
  import opened Wrappers
  import opened Strings

  /** A titled piece of text (`{"title": ..., "content": ...}`). */
  datatype Section = Section(title: string, content: string)

  /** A chunk as sent to the search index; speech chunks carry no vector. */
  datatype Chunk = Chunk(id: string, filepath: string, url: string, title: string, content: string,
                         contentVector: Option<seq<real>>)

  /** `hashlib.md5(s.encode()).hexdigest()`. */
  type Md5 = string -> string
  /** The embedding model. */
  type Embedder = string -> seq<real>
  /** A semchunk chunker, its token budget fixed when it was made. */
  type Chunker = string -> seq<string>

  const SectionMarker := "## "

  // ===========================================================================
  // Sections
  // ===========================================================================

  /** `list(filter(None, pieces))`. */
  function DropEmpty(pieces: seq<string>): (r: seq<string>)
    ensures forall i :: 0 <= i < |r| ==> r[i] != []
    ensures forall p :: p in r ==> p in pieces
    decreases |pieces|
  {
    if pieces == [] then []
    else DropEmpty(pieces[..|pieces| - 1]) + (if pieces[|pieces| - 1] == [] then [] else [pieces[|pieces| - 1]])
  }

  /** Dropping empty pieces loses no text. */
  lemma {:induction false} DropEmptyConcat(pieces: seq<string>)
    ensures Concat(DropEmpty(pieces)) == Concat(pieces)
    decreases |pieces|
  {
    if pieces != [] {
      var front := pieces[..|pieces| - 1];
      var last := pieces[|pieces| - 1];
      DropEmptyConcat(front);
      assert pieces == front + [last];
      ConcatAppend(front, [last]);
      ConcatAppend(DropEmpty(front), if last == [] then [] else [last]);
    }
  }

  /** `markdown.split("## ")` without the empty pieces. */
  function RawSections(markdown: string): seq<string> {
    DropEmpty(Split(markdown, SectionMarker))
  }

  /** The raw sections are non-empty, contain no marker, and hold all the
      text of the markdown outside the markers, in order. */
  lemma RawSectionsFacts(markdown: string)
    ensures var raws := RawSections(markdown);
            (forall i :: 0 <= i < |raws| ==> raws[i] != [] && !Contains(raws[i], SectionMarker))
            && Concat(raws) == Concat(Split(markdown, SectionMarker))
            && Join(SectionMarker, Split(markdown, SectionMarker)) == markdown
  {
    SplitPiecesFree(markdown, SectionMarker);
    DropEmptyConcat(Split(markdown, SectionMarker));
    JoinSplit(markdown, SectionMarker);
  }

  /** `title, content = raw.split("\n", 1)` then `content = title + "\n" +
      content`; `None` where the unpacking raises. The split succeeds
      exactly when there is a line break; the title is the first line and
      the rebuilt content is the whole raw section again. */
  function SplitTitle(raw: string): (r: Option<Section>)
    ensures r.Some? <==> '\n' in raw
    ensures r.Some? ==> r.value.content == raw && r.value.title == raw[..LineEnd(raw)]
  {
    var i := LineEnd(raw);
    if i == |raw| then None
    else
      assert raw == raw[..i] + "\n" + raw[i + 1..] by {
        assert raw == raw[..i] + raw[i..i + 1] + raw[i + 1..];
      }
      Some(Section(raw[..i], raw[..i] + "\n" + raw[i + 1..]))
  }

  /** The title is the first line: it holds no line break, and the raw
      section starts with it and a line break. */
  lemma SplitTitleFirstLine(raw: string)
    requires '\n' in raw
    ensures var t := SplitTitle(raw).value.title;
            '\n' !in t && StartsWith(raw, t + "\n")
  {
    var i := LineEnd(raw);
    assert raw[..i] + "\n" == raw[..i + 1];
  }

  /** The index of the first line break, or the length when there is
      none. */
  function LineEnd(raw: string): (k: nat)
    ensures k <= |raw| && (k < |raw| ==> raw[k] == '\n')
    ensures forall j :: 0 <= j < k ==> raw[j] != '\n'
  {
    if raw == [] || raw[0] == '\n' then 0 else 1 + LineEnd(raw[1..])
  }

  /** Each piece of a re-chunked section keeps the section's title. */
  function Titled(title: string, pieces: seq<string>): (r: seq<Section>)
    ensures |r| == |pieces| && forall k :: 0 <= k < |pieces| ==> r[k] == Section(title, pieces[k])
  {
    seq(|pieces|, k requires 0 <= k < |pieces| => Section(title, pieces[k]))
  }

  /** A section longer than the limit is re-chunked under its title;
      otherwise it is one sub-chunk. */
  function SubSections(s: Section, maxChunkSize: int, chunker: Chunker): (r: seq<Section>)
    ensures |s.content| <= maxChunkSize ==> r == [s]
    ensures |s.content| > maxChunkSize ==> r == Titled(s.title, chunker(s.content))
  {
    if |s.content| > maxChunkSize then Titled(s.title, chunker(s.content)) else [s]
  }

  // ===========================================================================
  // chunk_docs.py: generate_chunks_from_markdown, build_chunk
  // ===========================================================================

  /** The layout of an analysed document: its name and its markdown. */
  datatype DocLayout = DocLayout(documentName: string, content: string)

  /** `f"{document_name}_{chunk_type}_{chunk_index}"`. */
  function DocumentId(name: string, chunkType: string, index: nat): string {
    name + "_" + chunkType + "_" + NatToString(index)
  }

  /** The fields every chunk record shares: the md5 of its document id, the
      document name as file path and url, the title and the content. */
  function ChunkRecord(md5: Md5, name: string, chunkType: string, index: nat, title: string, content: string): (c: Chunk)
    ensures c.id == md5(DocumentId(name, chunkType, index))
    ensures c.filepath == name && c.url == name && c.title == title && c.content == content
    ensures c.contentVector.None?
  {
    Chunk(md5(DocumentId(name, chunkType, index)), name, name, title, content, None)
  }

  /** chunk_docs' `build_chunk`: the record with the content's embedding. */
  function BuildChunk(md5: Md5, embed: Embedder, name: string, chunkType: string, index: nat, title: string, content: string): (c: Chunk)
    ensures c.id == md5(DocumentId(name, chunkType, index))
    ensures c.filepath == name && c.url == name && c.title == title && c.content == content
    ensures c.contentVector == Some(embed(content))
  {
    ChunkRecord(md5, name, chunkType, index, title, content).(contentVector := Some(embed(content)))
  }

  /** The error raised for a section without a line break. */
  const SplitError := InvalidArgument("Error splitting chunk: %s ")

  /** The sub-chunks of the raw sections, in order; the first section
      without a line break raises. */
  function TextSections(raws: seq<string>, maxChunkSize: int, chunker: Chunker): Result<seq<Section>>
    decreases |raws|
  {
    if raws == [] then Success([])
    else
      var front :- TextSections(raws[..|raws| - 1], maxChunkSize, chunker);
      match SplitTitle(raws[|raws| - 1])
      case None => Failure(SplitError)
      case Some(s) => Success(front + SubSections(s, maxChunkSize, chunker))
  }

  /** Text chunks numbered from 0 in order. */
  function Numbered(md5: Md5, embed: Embedder, name: string, sections: seq<Section>): seq<Chunk>
    decreases |sections|
  {
    if sections == [] then []
    else
      var s := sections[|sections| - 1];
      Numbered(md5, embed, name, sections[..|sections| - 1]) + [BuildChunk(md5, embed, name, "text", |sections| - 1, s.title, s.content)]
  }

  /** One more section gives one more chunk, numbered after the others. */
  lemma NumberedSnoc(md5: Md5, embed: Embedder, name: string, xs: seq<Section>, s: Section)
    ensures Numbered(md5, embed, name, xs + [s]) == Numbered(md5, embed, name, xs) + [BuildChunk(md5, embed, name, "text", |xs|, s.title, s.content)]
  {
    assert (xs + [s])[..|xs|] == xs;
  }

  /** Chunk `i` is built from section `i` with chunk index `i`. */
  lemma {:induction false} NumberedFacts(md5: Md5, embed: Embedder, name: string, sections: seq<Section>)
    ensures var r := Numbered(md5, embed, name, sections);
            |r| == |sections|
            && forall i :: 0 <= i < |sections| ==> r[i] == BuildChunk(md5, embed, name, "text", i, sections[i].title, sections[i].content)
    decreases |sections|
  {
    if sections != [] {
      var front := sections[..|sections| - 1];
      NumberedFacts(md5, embed, name, front);
      assert forall i :: 0 <= i < |front| ==> front[i] == sections[i];
    }
  }

  /** chunk_docs' `generate_chunks_from_markdown`. */
  function ChunksFromMarkdown(md5: Md5, embed: Embedder, chunker: Chunker, layout: DocLayout, maxChunkSize: int): Result<seq<Chunk>> {
    var sections :- TextSections(RawSections(layout.content), maxChunkSize, chunker);
    Success(Numbered(md5, embed, layout.documentName, sections))
  }

  /** Every raw section has a line break. */
  predicate AllTitled(raws: seq<string>) {
    forall i :: 0 <= i < |raws| ==> '\n' in raws[i]
  }

  /** The sections fail exactly when some raw section has no line break,
      and then with the splitting error. */
  lemma {:induction false} TextSectionsFail(raws: seq<string>, maxChunkSize: int, chunker: Chunker)
    ensures TextSections(raws, maxChunkSize, chunker).Success? <==> AllTitled(raws)
    ensures TextSections(raws, maxChunkSize, chunker).Failure? ==> TextSections(raws, maxChunkSize, chunker).error == SplitError
    decreases |raws|
  {
    if raws != [] {
      var front := raws[..|raws| - 1];
      var last := raws[|raws| - 1];
      TextSectionsFail(front, maxChunkSize, chunker);
      assert TextSections(raws, maxChunkSize, chunker).Success?
             <==> TextSections(front, maxChunkSize, chunker).Success? && SplitTitle(last).Some?;
      if AllTitled(raws) {
        assert forall i :: 0 <= i < |front| ==> front[i] == raws[i];
        assert AllTitled(front) && '\n' in last;
        assert TextSections(raws, maxChunkSize, chunker).Success?;
      } else {
        var i :| 0 <= i < |raws| && '\n' !in raws[i];
        if i < |front| {
          assert '\n' !in front[i];
          assert !AllTitled(front);
        } else {
          assert '\n' !in last;
        }
        assert TextSections(raws, maxChunkSize, chunker).Failure?;
      }
    }
  }

  /** When no section is longer than the limit, the sections are the raw
      sections themselves, one each, titled by their first line. */
  lemma {:induction false} TextSectionsShort(raws: seq<string>, maxChunkSize: int, chunker: Chunker)
    requires TextSections(raws, maxChunkSize, chunker).Success?
    requires forall i :: 0 <= i < |raws| ==> |raws[i]| <= maxChunkSize
    ensures var r := TextSections(raws, maxChunkSize, chunker).value;
            |r| == |raws|
            && forall i :: 0 <= i < |raws| ==> r[i].content == raws[i] && Some(r[i]) == SplitTitle(raws[i])
    decreases |raws|
  {
    if raws != [] {
      var front := raws[..|raws| - 1];
      TextSectionsShort(front, maxChunkSize, chunker);
      assert forall i :: 0 <= i < |front| ==> front[i] == raws[i];
    }
  }

  /** Every sub-chunk carries the title of a raw section. */
  lemma {:induction false} TextSectionsTitles(raws: seq<string>, maxChunkSize: int, chunker: Chunker)
    requires TextSections(raws, maxChunkSize, chunker).Success?
    ensures var r := TextSections(raws, maxChunkSize, chunker).value;
            forall k :: 0 <= k < |r| ==> exists i :: 0 <= i < |raws| && SplitTitle(raws[i]).Some? && r[k].title == SplitTitle(raws[i]).value.title
    decreases |raws|
  {
    if raws != [] {
      var front := raws[..|raws| - 1];
      var last := |raws| - 1;
      TextSectionsTitles(front, maxChunkSize, chunker);
      var f := TextSections(front, maxChunkSize, chunker).value;
      var r := TextSections(raws, maxChunkSize, chunker).value;
      var subs := SubSections(SplitTitle(raws[last]).value, maxChunkSize, chunker);
      assert r == f + subs;
      forall k | 0 <= k < |r| ensures exists i :: 0 <= i < |raws| && SplitTitle(raws[i]).Some? && r[k].title == SplitTitle(raws[i]).value.title {
        if k < |f| {
          var i :| 0 <= i < |front| && SplitTitle(front[i]).Some? && f[k].title == SplitTitle(front[i]).value.title;
          assert front[i] == raws[i];
        } else {
          assert r[k] == subs[k - |f|];
          assert r[k].title == SplitTitle(raws[last]).value.title;
        }
      }
    }
  }

  /** `generate_chunks_from_markdown` raises exactly when a section has no
      line break; otherwise chunk `i` has id md5 of `"{name}_text_{i}"`, the
      document name as path and url, and the embedding of its content,
      one per sub-chunk in section order. */
  lemma ChunksFromMarkdownFacts(md5: Md5, embed: Embedder, chunker: Chunker, layout: DocLayout, maxChunkSize: int)
    ensures var raws := RawSections(layout.content);
            var r := ChunksFromMarkdown(md5, embed, chunker, layout, maxChunkSize);
            (r.Success? <==> AllTitled(raws))
            && (r.Failure? ==> r.error == SplitError)
            && (r.Success? ==>
                  var sections := TextSections(raws, maxChunkSize, chunker).value;
                  |r.value| == |sections|
                  && forall i :: 0 <= i < |sections| ==>
                       r.value[i] == BuildChunk(md5, embed, layout.documentName, "text", i, sections[i].title, sections[i].content))
  {
    var raws := RawSections(layout.content);
    TextSectionsFail(raws, maxChunkSize, chunker);
    if TextSections(raws, maxChunkSize, chunker).Success? {
      NumberedFacts(md5, embed, layout.documentName, TextSections(raws, maxChunkSize, chunker).value);
    }
  }

  /** The sub-chunks of one section, built by the loop that appends them. */
  method SubSectionsMethod(s: Section, maxChunkSize: int, chunker: Chunker) returns (subs: seq<Section>)
    ensures subs == SubSections(s, maxChunkSize, chunker)
  {
    if |s.content| > maxChunkSize {
      var pieces := chunker(s.content);
      subs := [];
      for k := 0 to |pieces|
        invariant |subs| == k && forall m :: 0 <= m < k ==> subs[m] == Section(s.title, pieces[m])
      {
        subs := subs + [Section(s.title, pieces[k])];
      }
    } else {
      subs := [s];
    }
  }

  lemma TextSectionsPrefixFailure(raws: seq<string>, maxChunkSize: int, chunker: Chunker, k: nat)
    requires k <= |raws| && TextSections(raws[..k], maxChunkSize, chunker).Failure?
    ensures TextSections(raws, maxChunkSize, chunker).Failure?
  {
    TextSectionsFail(raws[..k], maxChunkSize, chunker);
    TextSectionsFail(raws, maxChunkSize, chunker);
    var i :| 0 <= i < k && '\n' !in raws[..k][i];
    assert '\n' !in raws[i];
  }

  /** The inner loop of chunk_docs' `generate_chunks_from_markdown`: one
      chunk per sub-chunk, numbered on from `chunkIndex`. */
  method AppendChunks(md5: Md5, embed: Embedder, name: string, ghost done: seq<Section>, chunks: seq<Chunk>,
                      chunkIndex: nat, subs: seq<Section>) returns (out: seq<Chunk>, next: nat)
    requires chunks == Numbered(md5, embed, name, done) && chunkIndex == |done|
    ensures out == Numbered(md5, embed, name, done + subs) && next == |done| + |subs|
  {
    out, next := chunks, chunkIndex;
    assert done + subs[..0] == done;
    for j := 0 to |subs|
      invariant next == |done| + j && out == Numbered(md5, embed, name, done + subs[..j])
    {
      ghost var xs := done + subs[..j];
      assert subs[..j + 1] == subs[..j] + [subs[j]];
      assert done + (subs[..j] + [subs[j]]) == xs + [subs[j]];
      NumberedSnoc(md5, embed, name, xs, subs[j]);
      out := out + [BuildChunk(md5, embed, name, "text", next, subs[j].title, subs[j].content)];
      next := next + 1;
    }
    assert subs[..|subs|] == subs;
  }

  /** The loops of chunk_docs' `generate_chunks_from_markdown`, with its
      running `chunk_index`. */
  method GenerateChunksFromMarkdown(md5: Md5, embed: Embedder, chunker: Chunker, layout: DocLayout, maxChunkSize: int)
    returns (r: Result<seq<Chunk>>)
    ensures r == ChunksFromMarkdown(md5, embed, chunker, layout, maxChunkSize)
  {
    var raws := RawSections(layout.content);
    var chunkIndex := 0;
    var chunks: seq<Chunk> := [];
    ghost var done: seq<Section> := [];
    for i := 0 to |raws|
      invariant TextSections(raws[..i], maxChunkSize, chunker) == Success(done)
      invariant chunkIndex == |done| && chunks == Numbered(md5, embed, layout.documentName, done)
    {
      assert raws[..i + 1][..i] == raws[..i];
      var split := SplitTitle(raws[i]);
      if split.None? {
        TextSectionsPrefixFailure(raws, maxChunkSize, chunker, i + 1);
        TextSectionsFail(raws, maxChunkSize, chunker);
        return Failure(SplitError);
      }
      var subs := SubSectionsMethod(split.value, maxChunkSize, chunker);
      chunks, chunkIndex := AppendChunks(md5, embed, layout.documentName, done, chunks, chunkIndex, subs);
      done := done + subs;
    }
    assert raws[..|raws|] == raws;
    r := Success(chunks);
  }

  // ===========================================================================
  // json2idx.py: generate_chunks_from_markdown
  // ===========================================================================

  /** json2idx's fixed chunk size. */
  const JsonMaxChunkSize := 8000

  /** A raw section in json2idx: without a line break it has an empty
      title and its text as content. */
  function JsonSection(raw: string): (s: Section)
    ensures s.content == raw
  {
    match SplitTitle(raw)
    case None => Section("", raw)
    case Some(s) => s
  }

  /** The content of a json2idx section is always the raw section; its
      title is the first line, or empty without a line break. */
  lemma JsonSectionFacts(raw: string)
    ensures '\n' !in raw ==> JsonSection(raw).title == []
    ensures '\n' in raw ==> Some(JsonSection(raw)) == SplitTitle(raw) && '\n' !in JsonSection(raw).title
                            && StartsWith(raw, JsonSection(raw).title + "\n")
  {
    if '\n' in raw {
      SplitTitleFirstLine(raw);
    }
  }

  function JsonSections(raws: seq<string>, chunker: Chunker): seq<Section>
    decreases |raws|
  {
    if raws == [] then []
    else JsonSections(raws[..|raws| - 1], chunker) + SubSections(JsonSection(raws[|raws| - 1]), JsonMaxChunkSize, chunker)
  }

  /** json2idx's `generate_chunks_from_markdown`. */
  function JsonChunksFromMarkdown(markdown: string, chunker: Chunker): seq<Section> {
    JsonSections(RawSections(markdown), chunker)
  }

  /** Without long sections, json2idx emits one chunk per raw section, in
      order, whose content is the raw section, so the contents put
      together are the markdown's text outside the markers. */
  lemma {:induction false} JsonSectionsShort(raws: seq<string>, chunker: Chunker)
    requires forall i :: 0 <= i < |raws| ==> |raws[i]| <= JsonMaxChunkSize
    ensures var r := JsonSections(raws, chunker);
            |r| == |raws| && forall i :: 0 <= i < |raws| ==> r[i] == JsonSection(raws[i]) && r[i].content == raws[i]
    decreases |raws|
  {
    if raws != [] {
      var front := raws[..|raws| - 1];
      var last := raws[|raws| - 1];
      JsonSectionsShort(front, chunker);
      assert JsonSections(raws, chunker) == JsonSections(front, chunker) + [JsonSection(last)];
      assert forall i :: 0 <= i < |front| ==> front[i] == raws[i];
    }
  }

  /** json2idx treats sections independently and keeps their order: the
      chunks of two runs of sections are the chunks of the first, then
      those of the second. */
  lemma {:induction false} JsonSectionsAppend(a: seq<string>, b: seq<string>, chunker: Chunker)
    ensures JsonSections(a + b, chunker) == JsonSections(a, chunker) + JsonSections(b, chunker)
    decreases |b|
  {
    if b != [] {
      var front := b[..|b| - 1];
      assert (a + b)[..|a + b| - 1] == a + front;
      JsonSectionsAppend(a, front, chunker);
    } else {
      assert a + b == a;
    }
  }

  /** One section of json2idx gives its sub-chunks: the whole section
      when short, the chunker's pieces under its title when long. */
  lemma JsonSectionsOne(raw: string, chunker: Chunker)
    ensures var r := JsonSections([raw], chunker);
            var s := JsonSection(raw);
            (|raw| <= JsonMaxChunkSize ==> r == [s])
            && (|raw| > JsonMaxChunkSize ==> |r| == |chunker(raw)| && forall k :: 0 <= k < |r| ==> r[k] == Section(s.title, chunker(raw)[k]))
  {
    var s := JsonSection(raw);
    JsonSectionFacts(raw);
    assert JsonSections([raw], chunker) == SubSections(s, JsonMaxChunkSize, chunker) by {
      assert [raw][..0] == [];
    }
  }

  /** The loop of json2idx's `generate_chunks_from_markdown`. */
  method GenerateJsonChunks(markdown: string, chunker: Chunker) returns (chunks: seq<Section>)
    ensures chunks == JsonChunksFromMarkdown(markdown, chunker)
  {
    var raws := RawSections(markdown);
    chunks := [];
    for i := 0 to |raws|
      invariant chunks == JsonSections(raws[..i], chunker)
    {
      assert raws[..i + 1][..i] == raws[..i];
      ghost var before := chunks;
      var s := JsonSection(raws[i]);
      if |s.content| > JsonMaxChunkSize {
        var pieces := chunker(s.content);
        for k := 0 to |pieces|
          invariant |chunks| == |before| + k && chunks[..|before|] == before
          invariant forall m :: 0 <= m < k ==> chunks[|before| + m] == Section(s.title, pieces[m])
        {
          chunks := chunks + [Section(s.title, pieces[k])];
        }
        assert chunks == before + Titled(s.title, pieces);
      } else {
        chunks := chunks + [s];
      }
      assert chunks == before + SubSections(JsonSection(raws[i]), JsonMaxChunkSize, chunker);
    }
    assert raws[..|raws|] == raws;
  }

  // ===========================================================================
  // speech_transcription.py
  // ===========================================================================

  /** The transcript size above which it is re-chunked. */
  const SttMaxChunkSize := 8000

  /** The pieces of a transcript: the whole text when short enough. */
  function TranscriptPieces(text: string, chunker: Chunker): seq<string> {
    if |text| > SttMaxChunkSize then chunker(text) else [text]
  }

  /** `generate_chunks_from_stt`: audio chunks titled by the file's base
      name and numbered from 0. */
  function SttChunks(md5: Md5, chunker: Chunker, text: string, filePath: string): seq<Chunk> {
    var name := Basename(filePath);
    var pieces := TranscriptPieces(text, chunker);
    seq(|pieces|, i requires 0 <= i < |pieces| => ChunkRecord(md5, name, "audio", i, name, pieces[i]))
  }

  /** A short transcript is one chunk holding all of it; every chunk is
      titled, filed and addressed by the base name, has id md5 of
      `"{name}_audio_{i}"`, and carries no vector. */
  lemma SttChunksFacts(md5: Md5, chunker: Chunker, text: string, filePath: string)
    ensures var r := SttChunks(md5, chunker, text, filePath);
            var name := Basename(filePath);
            (|text| <= SttMaxChunkSize ==> |r| == 1 && r[0].content == text)
            && (|text| > SttMaxChunkSize ==> |r| == |chunker(text)|
                                             && forall i :: 0 <= i < |r| ==> r[i].content == chunker(text)[i])
            && forall i :: 0 <= i < |r| ==>
                 r[i].title == name && r[i].filepath == name && r[i].url == name
                 && r[i].id == md5(name + "_audio_" + NatToString(i)) && r[i].contentVector.None?
  {
    var r := SttChunks(md5, chunker, text, filePath);
    var name := Basename(filePath);
    forall i | 0 <= i < |r| ensures r[i].id == md5(name + "_audio_" + NatToString(i)) {
      assert DocumentId(name, "audio", i) == name + "_audio_" + NatToString(i);
    }
  }

  /** The two loops of `generate_chunks_from_stt`. */
  method GenerateChunksFromStt(md5: Md5, chunker: Chunker, text: string, filePath: string) returns (chunks: seq<Chunk>)
    ensures chunks == SttChunks(md5, chunker, text, filePath)
  {
    var name := Basename(filePath);
    var subChunks: seq<Section> := [];
    if |text| > SttMaxChunkSize {
      var pieces := chunker(text);
      for k := 0 to |pieces|
        invariant |subChunks| == k && forall m :: 0 <= m < k ==> subChunks[m] == Section(name, pieces[m])
      {
        subChunks := subChunks + [Section(name, pieces[k])];
      }
    } else {
      subChunks := [Section(name, text)];
    }
    assert subChunks == Titled(name, TranscriptPieces(text, chunker));
    var chunkIndex := 0;
    chunks := [];
    for i := 0 to |subChunks|
      invariant chunkIndex == i && |chunks| == i
      invariant forall m :: 0 <= m < i ==> chunks[m] == ChunkRecord(md5, name, "audio", m, subChunks[m].title, subChunks[m].content)
    {
      chunks := chunks + [ChunkRecord(md5, name, "audio", chunkIndex, subChunks[i].title, subChunks[i].content)];
      chunkIndex := chunkIndex + 1;
    }
  }

  /** The extensions the transcription service accepts. */
  const AllowedFileTypes: set<string> := {"mp3", "mp4", "mpeg", "mpga", "m4a", "wav", "webm"}

  /** 24.99 MB. */
  const MaxFileSizeMb: real := 24.99

  datatype FileCheck = FileCheck(valid: bool, message: string)

  /** `file_path.split(".")[-1].lower()`. */
  function Extension(filePath: string): string {
    Lower(Last(Split(filePath, ".")))
  }

  /** `check_file`, given the file's size in bytes. */
  function CheckFile(filePath: string, sizeBytes: nat): FileCheck {
    if Extension(filePath) !in AllowedFileTypes then FileCheck(false, "File type is not allowed.")
    else if sizeBytes as real / 1048576.0 > MaxFileSizeMb then FileCheck(false, "File size exceeds the maximum limit.")
    else FileCheck(true, "File is valid.")
  }

  /** A file is valid exactly when its extension is allowed and it is at
      most 24.99 MB, that is at most 26203914 bytes, as 24.99 MB is not a
      whole number of bytes; a disallowed extension is reported whatever
      the size. */
  lemma CheckFileFacts(filePath: string, sizeBytes: nat)
    ensures var c := CheckFile(filePath, sizeBytes);
            (c.valid <==> Extension(filePath) in AllowedFileTypes && sizeBytes * 100 <= 2499 * 1048576)
            && (Extension(filePath) !in AllowedFileTypes ==> c.message == "File type is not allowed.")
            && (Extension(filePath) in AllowedFileTypes && sizeBytes * 100 > 2499 * 1048576 ==>
                  c.message == "File size exceeds the maximum limit.")
  {
    var mb := sizeBytes as real / 1048576.0;
    assert mb * 1048576.0 == sizeBytes as real;
    assert (mb > MaxFileSizeMb) <==> (sizeBytes as real * 100.0 > 2499.0 * 1048576.0);
  }

  // ===========================================================================
  // chunk_docs.py: bounding_box
  // ===========================================================================

  function Min(xs: seq<real>): (m: real)
    requires xs != []
    ensures m in xs && forall x :: x in xs ==> m <= x
  {
    if |xs| == 1 then xs[0]
    else
      var rest := Min(xs[1..]);
      assert forall x :: x in xs ==> x == xs[0] || x in xs[1..];
      if xs[0] <= rest then xs[0] else rest
  }

  function Max(xs: seq<real>): (m: real)
    requires xs != []
    ensures m in xs && forall x :: x in xs ==> x <= m
  {
    if |xs| == 1 then xs[0]
    else
      var rest := Max(xs[1..]);
      assert forall x :: x in xs ==> x == xs[0] || x in xs[1..];
      if xs[0] >= rest then xs[0] else rest
  }

  /** The first coordinates of the (x, y) pairs. */
  function Xs(points: seq<real>): (r: seq<real>)
    ensures |r| == |points| / 2 && forall k :: 0 <= k < |r| ==> r[k] == points[2 * k]
  {
    seq(|points| / 2, k requires 0 <= k < |points| / 2 => points[2 * k])
  }

  /** The second coordinates of the (x, y) pairs. */
  function Ys(points: seq<real>): (r: seq<real>)
    ensures |r| == |points| / 2 && forall k :: 0 <= k < |r| ==> r[k] == points[2 * k + 1]
  {
    seq(|points| / 2, k requires 0 <= k < |points| / 2 => points[2 * k + 1])
  }

  /** The corners of a rectangle, clockwise from its least x and y. */
  function Corners(minX: real, minY: real, maxX: real, maxY: real): (r: seq<Option<real>>)
    ensures |r| == 8 && forall i :: 0 <= i < 8 ==> r[i].Some?
  {
    [Some(minX), Some(minY), Some(maxX), Some(minY), Some(maxX), Some(maxY), Some(minX), Some(maxY)]
  }

  /** `bounding_box` over a flat list of coordinates: with four or more,
      the corners of the enclosing rectangle (reshaping an odd count
      raises); with fewer, the input padded with `None` to eight. */
  function BoundingBox(points: seq<real>): Result<seq<Option<real>>> {
    if |points| >= 4 then
      if |points| % 2 != 0 then Failure(InvalidArgument("cannot reshape array"))
      else
        Success(Corners(Min(Xs(points)), Min(Ys(points)), Max(Xs(points)), Max(Ys(points))))
    else
      Success(seq(|points|, i requires 0 <= i < |points| => Some(points[i])) + seq(8 - |points|, _ => None))
  }

  /** An odd count of four or more raises; otherwise the box has eight
      entries. */
  lemma BoundingBoxShape(points: seq<real>)
    ensures BoundingBox(points).Failure? <==> |points| >= 4 && |points| % 2 != 0
    ensures BoundingBox(points).Success? ==> |BoundingBox(points).value| == 8
  {
  }

  /** Fewer than four coordinates are kept and padded with `None`. */
  lemma BoundingBoxPadded(points: seq<real>)
    requires |points| < 4
    ensures var r := BoundingBox(points).value;
            |r| == 8 && (forall i :: 0 <= i < |points| ==> r[i] == Some(points[i]))
            && forall i :: |points| <= i < 8 ==> r[i].None?
  {
  }

  /** With four or more coordinates the box is `[minx, miny, maxx, miny,
      maxx, maxy, minx, maxy]`: every pair lies inside it and each bound is
      attained by some pair. */
  lemma BoundingBoxEncloses(points: seq<real>)
    requires |points| >= 4 && |points| % 2 == 0
    ensures var r := BoundingBox(points).value;
            (forall i :: 0 <= i < 8 ==> r[i].Some?)
            && r[3] == r[1] && r[4] == r[2] && r[6] == r[0] && r[7] == r[5]
            && (forall k :: 0 <= k < |points| / 2 ==>
                  r[0].value <= points[2 * k] <= r[2].value && r[1].value <= points[2 * k + 1] <= r[5].value)
  {
    var xs, ys := Xs(points), Ys(points);
    var r := BoundingBox(points).value;
    var a, b, c, d := Min(xs), Min(ys), Max(xs), Max(ys);
    assert r == Corners(a, b, c, d);
    forall k | 0 <= k < |points| / 2 ensures a <= points[2 * k] <= c && b <= points[2 * k + 1] <= d {
      assert xs[k] == points[2 * k] && ys[k] == points[2 * k + 1];
      assert xs[k] in xs && ys[k] in ys;
    }
  }

  /** Each bound of the box is a coordinate of some pair. */
  lemma BoundingBoxTight(points: seq<real>)
    requires |points| >= 4 && |points| % 2 == 0
    ensures var r := BoundingBox(points).value;
            (exists k :: 0 <= k < |points| / 2 && points[2 * k] == r[0].value)
            && (exists k :: 0 <= k < |points| / 2 && points[2 * k] == r[2].value)
            && (exists k :: 0 <= k < |points| / 2 && points[2 * k + 1] == r[1].value)
            && (exists k :: 0 <= k < |points| / 2 && points[2 * k + 1] == r[5].value)
  {
    var xs, ys := Xs(points), Ys(points);
    var a :| 0 <= a < |xs| && xs[a] == Min(xs);
    var b :| 0 <= b < |xs| && xs[b] == Max(xs);
    var c :| 0 <= c < |ys| && ys[c] == Min(ys);
    var d :| 0 <= d < |ys| && ys[d] == Max(ys);
  }

}
