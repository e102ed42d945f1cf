/** `PdfChunker`: text extracted from a PDF, with HTML tables in it, cut into
    chunks. Text between tables is split on sentence endings and word breaks
    and merged back up to the chunk size; each table is cut into mini-tables
    that repeat the caption and the header row; finally neighbouring chunks
    are merged serially. */
module PdfChunking {
  import opened Wrappers
  import opened Strings
  import opened Merging
  import opened Splitting

  /** `SENTENCE_ENDINGS + reversed(WORDS_BREAKS)`; it holds no empty separator. */
  const PdfSeparators: seq<string> := [".", "!", "?", "\n", "\t", "}", "{", "]", "[", ")", "(", " ", ":", ";", ","]

  /** `_noise`: tokens kept in reserve below the chunk size. */
  const Noise: int := 50

  const TableOpen: string := "<table>"
  const TableClose: string := "</table>"
  const RowOpen: string := "<tr>"

  /** What the chunker reads from itself: the token estimator, the first
      match of `<th.*>.*</th>` in a table (`""` when there is none), the
      separators, the chunk size and the overlap. */
  datatype PdfConfig = PdfConfig(tok: string -> nat, header: string -> string, seps: seq<string>,
                                 chunkSize: int, overlap: int)

  function Merger(c: PdfConfig, sep: string): MergeConfig {
    MergeConfig(c.tok, sep, c.chunkSize, c.overlap)
  }

  /** `text.split(separator)` when the separator is not empty, `list(text)`
      otherwise. */
  function PiecesOf(text: string, sep: string): seq<string> {
    if sep == "" then Chars(text) else Split(text, sep)
  }

  /** Splitting makes progress: the separator occurs in the text, or the
      text has more than one character to list. */
  predicate Shrinks(text: string, sep: string) {
    if sep == "" then |text| > 1 else Contains(text, sep)
  }

  /** Every piece of a text that shrinks is shorter than the text. */
  lemma PiecesShorter(text: string, sep: string, s: string)
    requires Shrinks(text, sep) && s in PiecesOf(text, sep)
    ensures |s| < |text|
  {
    if sep != "" {
      SplitPiecesInfix(text, sep);
      SplitPiecesFree(text, sep);
      var i :| 0 <= i <= |text| && OccursAt(text, s, i);
      assert s != text;
    }
  }

  /** Otherwise the only piece, if any, is the text itself. */
  lemma PiecesStuck(text: string, sep: string)
    requires !Shrinks(text, sep)
    ensures forall p :: p in PiecesOf(text, sep) ==> p == text
  {
    if sep != "" {
      assert Split(text, sep) == [text];
    }
  }

  // ---------------------------------------------------------------------------
  // chunk_rest

  /** `chunk_rest(item)`: split on the chosen separator, merge the pieces
      below `chunk_size - 50` tokens and chunk the others again. An
      over-budget piece of a text that does not shrink is the text itself,
      chunked again unchanged: the recursion never ends and Python stops it
      with `RecursionError`. `self._separators[-1]` raises `IndexError` on
      an empty separator list. */
  function ChunkRest(c: PdfConfig, item: string): Result<seq<string>>
    decreases |item|, 1
  {
    if c.seps == [] then Failure(IndexOutOfRange)
    else
      var sep := ChooseSeparator(item, c.seps).sep;
      RestFrom(c, item, sep, PiecesOf(item, sep), 0, [], [])
  }

  function RestFrom(c: PdfConfig, item: string, sep: string, splits: seq<string>,
                    i: nat, good: seq<string>, acc: seq<string>): Result<seq<string>>
    requires splits == PiecesOf(item, sep) && i <= |splits|
    decreases |item|, 0, |splits| - i
  {
    if i == |splits| then
      var flushed :- Flush(Merger(c, sep), good);
      Success(acc + flushed)
    else
      var s := splits[i];
      if c.tok(s) < c.chunkSize - Noise then RestFrom(c, item, sep, splits, i + 1, good + [s], acc)
      else match Flush(Merger(c, sep), good)
        case Failure(e) => Failure(e)
        case Success(flushed) =>
          if !Shrinks(item, sep) then Failure(RecursionLimit)
          else
            PiecesShorter(item, sep, s);
            match ChunkRest(c, s)
            case Failure(e) => Failure(e)
            case Success(sub) => RestFrom(c, item, sep, splits, i + 1, [], acc + flushed + sub)
  }

  lemma {:induction false} RestFromFacts(c: PdfConfig, item: string, sep: string, splits: seq<string>,
                                          i: nat, good: seq<string>, acc: seq<string>)
    requires splits == PiecesOf(item, sep) && i <= |splits|
    requires AllNonEmpty(acc)
    ensures var r := RestFrom(c, item, sep, splits, i, good, acc);
      r.Success? ==> AllNonEmpty(r.value)
    decreases |item|, 0, |splits| - i, 1
  {
    if i == |splits| {
      FlushFacts(Merger(c, sep), good);
      var flushed := Flush(Merger(c, sep), good);
      if flushed.Success? {
        AllNonEmptyAppend(acc, flushed.value);
      }
    } else if c.tok(splits[i]) < c.chunkSize - Noise {
      RestFromFacts(c, item, sep, splits, i + 1, good + [splits[i]], acc);
    } else {
      RestFromOver(c, item, sep, splits, i, good, acc);
    }
  }

  /** A piece over the budget: flush, then chunk the piece on its own. */
  lemma {:induction false} RestFromOver(c: PdfConfig, item: string, sep: string, splits: seq<string>,
                                         i: nat, good: seq<string>, acc: seq<string>)
    requires splits == PiecesOf(item, sep) && i < |splits|
    requires c.tok(splits[i]) >= c.chunkSize - Noise
    requires AllNonEmpty(acc)
    ensures var r := RestFrom(c, item, sep, splits, i, good, acc);
      r.Success? ==> AllNonEmpty(r.value)
    decreases |item|, 0, |splits| - i, 0
  {
    var s := splits[i];
    FlushFacts(Merger(c, sep), good);
    var flushed := Flush(Merger(c, sep), good);
    if flushed.Success? && Shrinks(item, sep) {
      PiecesShorter(item, sep, s);
      ChunkRestFacts(c, s);
      var sub := ChunkRest(c, s);
      if sub.Success? {
        AllNonEmptyAppend(acc, flushed.value);
        AllNonEmptyAppend(acc + flushed.value, sub.value);
        RestFromFacts(c, item, sep, splits, i + 1, [], acc + flushed.value + sub.value);
      }
    }
  }

  /** `chunk_rest` never emits an empty chunk. */
  lemma {:induction false} ChunkRestFacts(c: PdfConfig, item: string)
    ensures ChunkRest(c, item).Success? ==> AllNonEmpty(ChunkRest(c, item).value)
    decreases |item|, 1
  {
    if c.seps != [] {
      var sep := ChooseSeparator(item, c.seps).sep;
      RestFromFacts(c, item, sep, PiecesOf(item, sep), 0, [], []);
    }
  }

  /** An over-budget item in which no separator occurs, and no separator is
      empty, sends `chunk_rest` into endless recursion. */
  lemma ChunkRestNoSeparator(c: PdfConfig, item: string)
    requires c.seps != [] && forall k :: 0 <= k < |c.seps| ==> !Stops(item, c.seps[k])
    requires c.tok(item) >= c.chunkSize - Noise
    ensures ChunkRest(c, item) == Failure(RecursionLimit)
  {
    ChooseSeparatorFirst(item, c.seps);
    var sep := ChooseSeparator(item, c.seps).sep;
    assert sep == c.seps[|c.seps| - 1];
    assert !Shrinks(item, sep);
    assert PiecesOf(item, sep) == [item];
  }

  // ---------------------------------------------------------------------------
  // extract_caption

  /** The text between the last `<tag>` and the `</tag>` after it, or `""`
      when `<tag>` does not occur. */
  function Heading(text: string, tag: string): string {
    var open := Split(text, "<" + tag + ">");
    if |open| > 1 then Split(Last(open), "</" + tag + ">")[0] else ""
  }

  /** The lines `extract_caption` looks at: the text split on the separator
      the chunker would choose for it. */
  function LinesOf(c: PdfConfig, text: string): seq<string>
    requires c.seps != []
  {
    PiecesOf(text, ChooseSeparator(text, c.seps).sep)
  }

  /** `extract_caption(text)`: the last `<h1>` and `<h2>` headings, a newline
      and the last non-empty line, stripped; `lines[-1]` raises
      `IndexError` when every line is empty. */
  function ExtractCaption(c: PdfConfig, text: string): Result<string> {
    if c.seps == [] then Failure(IndexOutOfRange)
    else
      var lines := NonEmpty(LinesOf(c, text));
      if lines == [] then Failure(IndexOutOfRange)
      else Success(Heading(text, "h1") + Heading(text, "h2") + "\n" + Strip(Last(lines)))
  }

  predicate AllEmpty(xs: seq<string>) {
    forall k :: 0 <= k < |xs| ==> xs[k] == []
  }

  lemma {:induction false} NonEmptyEmpty(xs: seq<string>)
    ensures NonEmpty(xs) == [] <==> AllEmpty(xs)
  {
    if xs != [] {
      NonEmptyEmpty(xs[1..]);
      if xs[0] == [] {
        forall k | 0 < k < |xs| ensures xs[k] == xs[1..][k - 1] { }
      }
    }
  }

  /** The last element `NonEmpty` keeps is the last non-empty piece. */
  lemma {:induction false} NonEmptyLast(xs: seq<string>) returns (j: nat)
    requires NonEmpty(xs) != []
    ensures j < |xs| && xs[j] == Last(NonEmpty(xs)) && AllEmpty(xs[j + 1..])
  {
    var tail := xs[1..];
    if NonEmpty(tail) != [] {
      var t := NonEmptyLast(tail);
      j := t + 1;
      assert Last(NonEmpty(xs)) == Last(NonEmpty(tail));
      assert xs[j + 1..] == tail[t + 1..];
    } else {
      NonEmptyEmpty(tail);
      j := 0;
      assert NonEmpty(xs) == [xs[0]] + NonEmpty(tail);
    }
  }

  /** The caption fails exactly when there are no separators or every line
      of the text is empty. */
  lemma ExtractCaptionFails(c: PdfConfig, text: string)
    ensures ExtractCaption(c, text).Failure? <==> c.seps == [] || AllEmpty(LinesOf(c, text))
  {
    if c.seps != [] {
      NonEmptyEmpty(LinesOf(c, text));
    }
  }

  /** Otherwise the caption ends with a newline and the stripped last
      non-empty line. */
  lemma ExtractCaptionEnds(c: PdfConfig, text: string)
    requires ExtractCaption(c, text).Success?
    ensures var lines := LinesOf(c, text);
      exists j :: 0 <= j < |lines| && lines[j] != [] && AllEmpty(lines[j + 1..])
        && EndsWith(ExtractCaption(c, text).value, "\n" + Strip(lines[j]))
  {
    var j := ExtractCaptionLine(c, text);
  }

  lemma ExtractCaptionLine(c: PdfConfig, text: string) returns (j: nat)
    requires ExtractCaption(c, text).Success?
    ensures var lines := LinesOf(c, text);
      j < |lines| && lines[j] != [] && AllEmpty(lines[j + 1..])
        && EndsWith(ExtractCaption(c, text).value, "\n" + Strip(lines[j]))
  {
    var lines := LinesOf(c, text);
    j := NonEmptyLast(lines);
    var heads := Heading(text, "h1") + Heading(text, "h2");
    var tail := "\n" + Strip(lines[j]);
    assert ExtractCaption(c, text).value == heads + tail;
    EndsWithAppend(heads, tail);
  }

  // ---------------------------------------------------------------------------
  // chunk_table

  function CaptionedTable(caption: string, headers: string): string {
    caption + "\n" + TableOpen + "\n" + headers
  }

  /** `part not in [table_open, table_close]`: a row needs its `<tr>` back. */
  function RowTag(part: string): string {
    if part == TableOpen || part == TableClose then "" else RowOpen
  }

  /** The row loop of `chunk_table` from part `i` on, with the mini-table
      being built and the finished ones. */
  function TableFrom(c: PdfConfig, caption: string, headers: string, parts: seq<string>,
                     i: nat, current: string, tables: seq<string>): seq<string>
    requires i <= |parts|
    decreases |parts| - i
  {
    if i == |parts| then
      tables + [if EndsWith(current, TableClose) then current else current + TableClose]
    else
      var part := parts[i];
      if |part| == 0 then TableFrom(c, caption, headers, parts, i + 1, current, tables)
      else if c.tok(current + RowOpen + part) < c.chunkSize then
        TableFrom(c, caption, headers, parts, i + 1, current + RowTag(part) + part, tables)
      else
        TableFrom(c, caption, headers, parts, i + 1, CaptionedTable(caption, headers) + RowTag(part) + part,
                  tables + [current + TableClose])
  }

  /** `chunk_table(table, caption)`: the captioned table when it fits under
      `chunk_size - 50`, otherwise mini-tables built row by row. */
  function ChunkTable(c: PdfConfig, table: string, caption: string): seq<string> {
    var whole := caption + "\n" + table;
    if c.tok(whole) < c.chunkSize - Noise then [whole]
    else TableFrom(c, caption, c.header(table), Split(table, RowOpen), 0, caption + "\n", [])
  }

  predicate TableShape(caption: string, headers: string, tables: seq<string>) {
    (forall k :: 0 <= k < |tables| ==> EndsWith(tables[k], TableClose))
    && (forall k :: 0 <= k < |tables| ==> StartsWith(tables[k], caption + "\n"))
    && (forall k :: 1 <= k < |tables| ==> StartsWith(tables[k], CaptionedTable(caption, headers)))
  }

  lemma CaptionedStarts(caption: string, headers: string)
    ensures StartsWith(CaptionedTable(caption, headers), caption + "\n")
  {
    assert CaptionedTable(caption, headers) == (caption + "\n") + (TableOpen + "\n" + headers);
    assert CaptionedTable(caption, headers)[..|caption + "\n"|] == caption + "\n";
  }

  lemma TableShapeAppend(caption: string, headers: string, tables: seq<string>, t: string)
    requires TableShape(caption, headers, tables)
    requires EndsWith(t, TableClose) && StartsWith(t, caption + "\n")
    requires tables != [] ==> StartsWith(t, CaptionedTable(caption, headers))
    ensures TableShape(caption, headers, tables + [t])
  {
    var t2 := tables + [t];
    forall k | 0 <= k < |t2|
      ensures EndsWith(t2[k], TableClose) && StartsWith(t2[k], caption + "\n")
      ensures k >= 1 ==> StartsWith(t2[k], CaptionedTable(caption, headers))
    {
      if k < |tables| {
        assert t2[k] == tables[k];
      }
    }
  }

  lemma {:induction false} TableFromShape(c: PdfConfig, caption: string, headers: string, parts: seq<string>,
                                           i: nat, current: string, tables: seq<string>)
    requires i <= |parts|
    requires TableShape(caption, headers, tables)
    requires StartsWith(current, caption + "\n")
    requires tables != [] ==> StartsWith(current, CaptionedTable(caption, headers))
    ensures TableShape(caption, headers, TableFrom(c, caption, headers, parts, i, current, tables))
    ensures |TableFrom(c, caption, headers, parts, i, current, tables)| > |tables|
    decreases |parts| - i
  {
    if i == |parts| {
      var last := if EndsWith(current, TableClose) then current else current + TableClose;
      if !EndsWith(current, TableClose) {
        EndsWithAppend(current, TableClose);
        StartsWithAppend(current, TableClose, caption + "\n");
        if tables != [] {
          StartsWithAppend(current, TableClose, CaptionedTable(caption, headers));
        }
      }
      TableShapeAppend(caption, headers, tables, last);
    } else {
      var part := parts[i];
      if |part| == 0 {
        TableFromShape(c, caption, headers, parts, i + 1, current, tables);
      } else if c.tok(current + RowOpen + part) < c.chunkSize {
        StartsWithAppend(current, RowTag(part) + part, caption + "\n");
        assert current + RowTag(part) + part == current + (RowTag(part) + part);
        if tables != [] {
          StartsWithAppend(current, RowTag(part) + part, CaptionedTable(caption, headers));
        }
        TableFromShape(c, caption, headers, parts, i + 1, current + RowTag(part) + part, tables);
      } else {
        var next := CaptionedTable(caption, headers) + RowTag(part) + part;
        assert next == CaptionedTable(caption, headers) + (RowTag(part) + part);
        EndsWithAppend(current, TableClose);
        StartsWithAppend(current, TableClose, caption + "\n");
        if tables != [] {
          StartsWithAppend(current, TableClose, CaptionedTable(caption, headers));
        }
        TableShapeAppend(caption, headers, tables, current + TableClose);
        CaptionedStarts(caption, headers);
        StartsWithAppend(CaptionedTable(caption, headers), RowTag(part) + part, caption + "\n");
        StartsWithAppend(CaptionedTable(caption, headers), RowTag(part) + part, CaptionedTable(caption, headers));
        TableFromShape(c, caption, headers, parts, i + 1, next, tables + [current + TableClose]);
      }
    }
  }

  /** Every mini-table of a table that ends with `</table>` ends with
      `</table>` and starts with the caption and a newline; every mini-table
      after the first starts with the caption, `"\n<table>\n"` and the
      header row. There is always at least one. */
  lemma ChunkTableShape(c: PdfConfig, table: string, caption: string)
    requires EndsWith(table, TableClose)
    ensures var r := ChunkTable(c, table, caption);
      r != [] && TableShape(caption, c.header(table), r)
  {
    var whole := caption + "\n" + table;
    if c.tok(whole) < c.chunkSize - Noise {
      assert whole == (caption + "\n") + table;
      assert whole[|whole| - |TableClose|..] == table[|table| - |TableClose|..];
      assert whole[..|caption + "\n"|] == caption + "\n";
      TableShapeAppend(caption, c.header(table), [], whole);
    } else {
      assert (caption + "\n")[..|caption + "\n"|] == caption + "\n";
      TableFromShape(c, caption, c.header(table), Split(table, RowOpen), 0, caption + "\n", []);
    }
  }

  // ---------------------------------------------------------------------------
  // split_text

  /** The segment holds exactly one `</table>` when split on it. */
  predicate OneClose(part: string) {
    |Split(part, TableClose)| == 2
  }

  /** One pass of the loop of `split_text`, once the segment after a
      `<table>` is unpacked into the table body and the text after the
      table. Yields the chunks it adds and the caption for the next table. */
  function TableStep(c: PdfConfig, body: string, rest: string, prefix: string): Result<(seq<string>, string)> {
    var mini := ChunkTable(c, TableOpen + body + TableClose, prefix);
    if IsBlank(rest) then Success((mini, ""))
    else match ChunkRest(c, rest)
      case Failure(e) => Failure(e)
      case Success(textChunks) =>
        if textChunks == [] then Failure(IndexOutOfRange)
        else match ExtractCaption(c, Last(textChunks))
          case Failure(e) => Failure(e)
          case Success(caption) => Success((mini + textChunks, caption))
  }

  /** The loop of `split_text` over the segments after each `<table>`: each
      must split on `</table>` into exactly two pieces, or the tuple
      unpacking raises. */
  function TablesFrom(c: PdfConfig, parts: seq<string>, i: nat, final: seq<string>, prefix: string): Result<seq<string>>
    requires 1 <= i <= |parts|
    decreases |parts| - i
  {
    if i == |parts| then Success(final)
    else
      var pieces := Split(parts[i], TableClose);
      if |pieces| != 2 then Failure(UnpackMismatch)
      else
        var step := TableStep(c, pieces[0], pieces[1], prefix);
        if step.Failure? then Failure(step.error)
        else TablesFrom(c, parts, i + 1, final + step.value.0, step.value.1)
  }

  lemma {:induction false} TablesFromUnpack(c: PdfConfig, parts: seq<string>, i: nat, final: seq<string>, prefix: string)
    requires 1 <= i <= |parts|
    ensures TablesFrom(c, parts, i, final, prefix).Success? ==> forall k :: i <= k < |parts| ==> OneClose(parts[k])
    decreases |parts| - i
  {
    if i < |parts| {
      var pieces := Split(parts[i], TableClose);
      if |pieces| == 2 {
        var step := TableStep(c, pieces[0], pieces[1], prefix);
        if step.Success? {
          TablesFromUnpack(c, parts, i + 1, final + step.value.0, step.value.1);
        }
      }
    }
  }

  /** The chunks before the serial merge. */
  function PdfPieces(c: PdfConfig, text: string): Result<seq<string>> {
    var parts := Split(text, TableOpen);
    match ChunkRest(c, parts[0])
    case Failure(e) => Failure(e)
    case Success(first) =>
      var prefix := if first == [] then Success("") else ExtractCaption(c, Last(first));
      match prefix
      case Failure(e) => Failure(e)
      case Success(p) => TablesFrom(c, parts, 1, first, p)
  }

  /** `PdfChunker.split_text(text, token_limit, chunk_overlap)`. */
  function PdfSplit(c: PdfConfig, text: string): Result<seq<string>> {
    match PdfPieces(c, text)
    case Failure(e) => Failure(e)
    case Success(pieces) => Success(Texts(MergeChunksSerially(c.tok, pieces, c.chunkSize)))
  }

  /** `split_text` succeeds only when every segment after a `<table>` holds
      exactly one `</table>`: otherwise the tuple unpacking raises. */
  lemma PdfSplitUnpack(c: PdfConfig, text: string)
    ensures PdfSplit(c, text).Success? ==>
      var parts := Split(text, TableOpen);
      forall k :: 1 <= k < |parts| ==> OneClose(parts[k])
  {
    var parts := Split(text, TableOpen);
    match ChunkRest(c, parts[0])
    case Failure(e) =>
    case Success(first) =>
      var prefix := if first == [] then Success("") else ExtractCaption(c, Last(first));
      match prefix
      case Failure(e) =>
      case Success(p) => TablesFromUnpack(c, parts, 1, first, p);
  }

  // ---------------------------------------------------------------------------
  // The chunker object

  class PdfChunker {
    const tok: string -> nat
    /** The `<th.*>.*</th>` search of `chunk_table`. */
    const header: string -> string
    /** `_separators`, `_chunk_size` and `_chunk_overlap`, set by `split_text`;
        before that the object has none (no separators here). */
    var separators: seq<string>
    var chunkSize: int
    var chunkOverlap: int

    constructor(tok: string -> nat, header: string -> string)
      ensures this.tok == tok && this.header == header && separators == []
    {
      this.tok := tok;
      this.header := header;
      separators := [];
    }

    function Config(): PdfConfig
      reads this
    {
      PdfConfig(tok, header, separators, chunkSize, chunkOverlap)
    }

    /** `split_text(text, token_limit, chunk_overlap)`. */
    method SplitText(text: string, tokenLimit: int, overlap: int) returns (r: Result<seq<string>>)
      modifies this
      ensures separators == PdfSeparators && chunkSize == tokenLimit && chunkOverlap == overlap
      ensures r == PdfSplit(Config(), text)
    {
      separators := PdfSeparators;
      chunkSize := tokenLimit;
      chunkOverlap := overlap;
      var pieces := PiecesLoop(text);
      if pieces.Failure? {
        return Failure(pieces.error);
      }
      var merged := MergeChunksSeriallyLoop(tok, pieces.value, chunkSize);
      return Success(Texts(merged));
    }

    /** The chunks of `split_text` before the serial merge. */
    method PiecesLoop(text: string) returns (r: Result<seq<string>>)
      ensures r == PdfPieces(Config(), text)
    {
      var splits := Split(text, TableOpen);
      var first := ChunkRestLoop(splits[0]);
      if first.Failure? {
        return Failure(first.error);
      }
      var finalChunks := first.value;
      var prefix := "";
      if |finalChunks| > 0 {
        var caption := ExtractCaptionLoop(finalChunks[|finalChunks| - 1]);
        if caption.Failure? {
          return Failure(caption.error);
        }
        prefix := caption.value;
      }
      for i := 1 to |splits|
        invariant TablesFrom(Config(), splits, i, finalChunks, prefix) == PdfPieces(Config(), text)
      {
        var pieces := Split(splits[i], TableClose);
        if |pieces| != 2 {
          return Failure(UnpackMismatch);
        }
        var step := TableStepLoop(pieces[0], pieces[1], prefix);
        if step.Failure? {
          return Failure(step.error);
        }
        finalChunks := finalChunks + step.value.0;
        prefix := step.value.1;
      }
      return Success(finalChunks);
    }

    /** The body of the loop of `split_text` over one segment, after the
        unpacking. */
    method TableStepLoop(body: string, rest: string, prefix: string) returns (r: Result<(seq<string>, string)>)
      ensures r == TableStep(Config(), body, rest, prefix)
    {
      var table := TableOpen + body + TableClose;
      var minitables := ChunkTableLoop(table, prefix);
      StripEmptyIff(rest);
      if Strip(rest) == "" {
        return Success((minitables, ""));
      }
      var textMinichunks := ChunkRestLoop(rest);
      if textMinichunks.Failure? {
        return Failure(textMinichunks.error);
      }
      if textMinichunks.value == [] {
        return Failure(IndexOutOfRange);
      }
      var caption := ExtractCaptionLoop(textMinichunks.value[|textMinichunks.value| - 1]);
      if caption.Failure? {
        return Failure(caption.error);
      }
      return Success((minitables + textMinichunks.value, caption.value));
    }

    /** `_merge_splits` on the pending pieces, when there are any. */
    method FlushLoop(separator: string, goodSplits: seq<string>) returns (r: Result<seq<string>>)
      ensures r == Flush(Merger(Config(), separator), goodSplits)
    {
      if goodSplits == [] {
        return Success([]);
      }
      r := MergeSplitsLoop(Merger(Config(), separator), goodSplits);
    }

    /** `chunk_rest(item)`. */
    method ChunkRestLoop(item: string) returns (r: Result<seq<string>>)
      ensures r == ChunkRest(Config(), item)
      decreases |item|
    {
      if separators == [] {
        return Failure(IndexOutOfRange);
      }
      var choice := ChooseSeparatorLoop(item, separators);
      var separator := choice.sep;
      var splits := if separator != "" then Split(item, separator) else Chars(item);
      var chunks: seq<string> := [];
      var goodSplits: seq<string> := [];
      for i := 0 to |splits|
        invariant RestFrom(Config(), item, separator, splits, i, goodSplits, chunks) == ChunkRest(Config(), item)
      {
        var s := splits[i];
        if tok(s) < chunkSize - Noise {
          goodSplits := goodSplits + [s];
        } else {
          var flushed := FlushLoop(separator, goodSplits);
          if flushed.Failure? {
            return Failure(flushed.error);
          }
          if !Shrinks(item, separator) {
            return Failure(RecursionLimit);
          }
          PiecesShorter(item, separator, s);
          var otherInfo := ChunkRestLoop(s);
          if otherInfo.Failure? {
            return Failure(otherInfo.error);
          }
          chunks := chunks + flushed.value + otherInfo.value;
          goodSplits := [];
        }
      }
      var flushed := FlushLoop(separator, goodSplits);
      if flushed.Failure? {
        return Failure(flushed.error);
      }
      return Success(chunks + flushed.value);
    }

    /** `extract_caption(text)`. */
    method ExtractCaptionLoop(text: string) returns (r: Result<string>)
      ensures r == ExtractCaption(Config(), text)
    {
      if separators == [] {
        return Failure(IndexOutOfRange);
      }
      var choice := ChooseSeparatorLoop(text, separators);
      var lines := if choice.sep != "" then Split(text, choice.sep) else Chars(text);
      lines := NonEmpty(lines);
      if lines == [] {
        return Failure(IndexOutOfRange);
      }
      var caption := Heading(text, "h1") + Heading(text, "h2");
      return Success(caption + "\n" + Strip(lines[|lines| - 1]));
    }

    /** `chunk_table(table, caption)`. */
    method ChunkTableLoop(table: string, caption: string) returns (tables: seq<string>)
      ensures tables == ChunkTable(Config(), table, caption)
    {
      if tok(caption + "\n" + table) < chunkSize - Noise {
        return [caption + "\n" + table];
      }
      var headers := header(table);
      var splits := Split(table, RowOpen);
      tables := [];
      var currentTable := caption + "\n";
      for i := 0 to |splits|
        invariant TableFrom(Config(), caption, headers, splits, i, currentTable, tables)
               == ChunkTable(Config(), table, caption)
      {
        var part := splits[i];
        if |part| > 0 {
          if tok(currentTable + RowOpen + part) < chunkSize {
            currentTable := currentTable + RowTag(part) + part;
          } else {
            tables := tables + [currentTable + TableClose];
            currentTable := CaptionedTable(caption, headers) + RowTag(part) + part;
          }
        }
      }
      if !EndsWith(currentTable, TableClose) {
        currentTable := currentTable + TableClose;
      }
      tables := tables + [currentTable];
    }
  }
}
