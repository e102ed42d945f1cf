# ragcore and its helpers, modelled in Dafny

This project models the core of a retrieval-augmented generation (RAG) accelerator and the small helpers around it, and proves properties of the model.

- **ragcore**, the prompt-flow package:
  - the chunkers: the recursive separator splitter with its overlap-aware merge, the PDF table splitter, the CSV row batcher and the text chunker that dispatches on file extension;
  - the search-result chunkers for Azure AI Search (text and vector) and Cosmos, with on-the-fly re-chunking of over-long hits and top-k ranking;
  - reciprocal-rank fusion of several result lists (`select_chunks_core`);
  - prompt assembly: the JSON repair of a clipped dump, the newest-first conversation window under a token budget, and the `[docN]` documentation list;
  - the parsers and their factory, the two `cleanup_content` variants, the `Document` record and its dict conversions, and the flow glue that reshapes retrieval results and validates the query-type and data-source labels.
- **The ingestion pipeline**: Document Intelligence page and polygon grouping, markdown sectioning into chunks, chunk ids, bounding boxes, and the speech-transcription chunker and its file check.
- **The agent demos**:
  - history trimming and persona switching of the code-generation agent;
  - the migration-plan update and argument check of the code-migration assistant;
  - output validation, code-and-comment extraction and schema grouping of the analytics assistant;
  - the JSON-cell truncation of its Python service.

Python values are Dafny datatypes. A dict is an association list that keeps insertion order (`Json.Value`), an exception is a `Failure` of `Wrappers.Result`, and `None` is `Option.None`. Tokenizers, TF-IDF similarity, the HTML and markdown libraries, `ast`, `re.findall`, `json.loads` and pandas are function parameters: the model fixes only what the code itself does with their results. Code that updates state step by step (loops, accumulators, in-place updates of a shared list or dict) is a method proved equal to a specification function, and the properties are proved about that function. Pure code is functions and lemmas.

## Model

| member | source | states |
|---|---|---|
| Splitting.ChooseSeparator | 4_accelerators/01-rag-agent/rag-agent-promptflow/ragcore/chunking/custom_chunker.py:294-307 | the chosen separator is one of the separators and fewer separators are left for recursion |
| Splitting.ChooseSeparatorLoop | 4_accelerators/01-rag-agent/rag-agent-promptflow/ragcore/chunking/custom_chunker.py:297-306 | the separator loop computes exactly the separator choice of the model |
| Splitting.ChooseSeparatorFirst | 4_accelerators/01-rag-agent/rag-agent-promptflow/ragcore/chunking/custom_chunker.py:298-307 | the first separator in list order that is empty or occurs literally in the text is chosen, and recursion gets only the separators after it (none after an empty one); when none stops the scan the last separator is used and nothing is left |
| Splitting.SplitWithSeparator | 4_accelerators/01-rag-agent/rag-agent-promptflow/ragcore/chunking/custom_chunker.py:337-353 | `_split_text_with_regex` for a literal separator never returns an empty piece |
| Splitting.SplitKeepSeparatorLossless | 4_accelerators/01-rag-agent/rag-agent-promptflow/ragcore/chunking/custom_chunker.py:341-348 | keeping the separator, no piece is empty and the pieces concatenate back to the text exactly |
| Splitting.SplitEmptySeparatorChars | 4_accelerators/01-rag-agent/rag-agent-promptflow/ragcore/chunking/custom_chunker.py:351-352 | with an empty separator the pieces are the single characters of the text |
| Splitting.SplitDropSeparator | 4_accelerators/01-rag-agent/rag-agent-promptflow/ragcore/chunking/custom_chunker.py:349-350 | dropping the separator, the pieces are the non-empty pieces of the literal split, which rejoin to the text and none of which holds the separator |
| Splitting.CeilDivIsCeiling | 4_accelerators/01-rag-agent/rag-agent-promptflow/ragcore/chunking/custom_chunker.py:322 | the snippet count is the ceiling of length over chunk size: the least `q` with `q * size >= n` |
| Splitting.HardSlices | 4_accelerators/01-rag-agent/rag-agent-promptflow/ragcore/chunking/custom_chunker.py:321-324 | the fallback makes `ceil(len(s)/size)` snippets, never more than the length |
| Splitting.HardSliceShape | 4_accelerators/01-rag-agent/rag-agent-promptflow/ragcore/chunking/custom_chunker.py:321-324 | snippet `i` is `s[i : i + size]`: consecutive start offsets, each non-empty and at most `size` characters |
| Splitting.HardSliceExample | 4_accelerators/01-rag-agent/rag-agent-promptflow/ragcore/chunking/custom_chunker.py:322-323 | `"abcd"` with size 2 gives `"ab"` and `"bc"`: the tail `"d"` is lost |
| Splitting.HardSliceNonEmpty | 4_accelerators/01-rag-agent/rag-agent-promptflow/ragcore/chunking/custom_chunker.py:321-324 | the fallback emits no empty snippet and fails (division by zero) only for size 0 |
| Splitting.HardSliceLoop | 4_accelerators/01-rag-agent/rag-agent-promptflow/ragcore/chunking/custom_chunker.py:322-324 | the snippet loop builds exactly the snippets of the model |
| Splitting.FlushFacts | 4_accelerators/01-rag-agent/rag-agent-promptflow/ragcore/chunking/custom_chunker.py:317-320 | flushing the good splits emits no empty chunk and fails only for a negative overlap |
| Splitting.SplitTextFacts | 4_accelerators/01-rag-agent/rag-agent-promptflow/ragcore/chunking/custom_chunker.py:289-332 | `_split_text` never emits an empty chunk and succeeds for every text when the chunk size is positive, the overlap is not negative and the separator list is not empty |
| Splitting.RecursiveCharacterTextSplitter.constructor | 4_accelerators/01-rag-agent/rag-agent-promptflow/ragcore/chunking/custom_chunker.py:284-287 | no separators means the defaults `["\n\n", "\n", " ", ""]`; `keep_separator` is kept |
| Splitting.RecursiveCharacterTextSplitter.Markdown | 4_accelerators/01-rag-agent/rag-agent-promptflow/ragcore/chunking/custom_chunker.py:409-430 | the Markdown splitter uses the Markdown heading, code-fence, rule and whitespace separators |
| Splitting.RecursiveCharacterTextSplitter.Python | 4_accelerators/01-rag-agent/rag-agent-promptflow/ragcore/chunking/custom_chunker.py:434-447 | the Python splitter uses the class/def and whitespace separators |
| Splitting.RecursiveCharacterTextSplitter.SplitText | 4_accelerators/01-rag-agent/rag-agent-promptflow/ragcore/chunking/custom_chunker.py:334-335 | `split_text` sets `_chunk_size` and `_chunk_overlap` and returns `_split_text` over the splitter's own separators |
| Splitting.RecursiveCharacterTextSplitter.SplitTextWith | 4_accelerators/01-rag-agent/rag-agent-promptflow/ragcore/chunking/custom_chunker.py:289-332 | the cascade as written (good splits merged, an over-budget split recursed on the remaining separators or hard-sliced) computes the specification; an empty separator list raises `IndexError` |
| Merging.JoinDocsFacts | 4_accelerators/01-rag-agent/rag-agent-promptflow/ragcore/chunking/custom_chunker.py:398-404 | a chunk is made exactly when the stripped join is not blank, and it is that stripped join |
| Merging.MergeSplitsLoop | 4_accelerators/01-rag-agent/rag-agent-promptflow/ragcore/chunking/custom_chunker.py:356-396 | the loop of `_merge_splits` (flush, pop to overlap, append) computes the chunks of its windows; it fails with `IndexError` where Python pops an empty list |
| Merging.MergeStep | 4_accelerators/01-rag-agent/rag-agent-promptflow/ragcore/chunking/custom_chunker.py:364-392 | one pass of the loop keeps the loop's window bookkeeping (current fragments, running total, windows closed so far) |
| Merging.CloseStep | 4_accelerators/01-rag-agent/rag-agent-promptflow/ragcore/chunking/custom_chunker.py:366-390 | the flush-and-pop half of a pass closes the current window and pops as the model says |
| Merging.PopLoop | 4_accelerators/01-rag-agent/rag-agent-promptflow/ragcore/chunking/custom_chunker.py:382-390 | the pop loop drops exactly the leading fragments the model drops, and fails only on an empty list |
| Merging.MergeSplitsEnd | 4_accelerators/01-rag-agent/rag-agent-promptflow/ragcore/chunking/custom_chunker.py:393-395 | after the last fragment the current fragments make the final chunk |
| Merging.MergeWindowsShape | 4_accelerators/01-rag-agent/rag-agent-promptflow/ragcore/chunking/custom_chunker.py:364-395 | the windows run in input order from the first fragment to the last, each non-empty, consecutive ones overlapping or adjacent |
| Merging.MergeWindowsCover | 4_accelerators/01-rag-agent/rag-agent-promptflow/ragcore/chunking/custom_chunker.py:364-395 | every fragment enters some chunk's window |
| Merging.MergeWindowsMaximal | 4_accelerators/01-rag-agent/rag-agent-promptflow/ragcore/chunking/custom_chunker.py:366-369 | a chunk is closed only when the next fragment would not fit: every window but the last overflows the chunk size once the next fragment is added |
| Merging.MergeWindowsOverlap | 4_accelerators/01-rag-agent/rag-agent-promptflow/ragcore/chunking/custom_chunker.py:382-390 | the fragments two consecutive chunks share cost at most `chunk_overlap` tokens |
| Merging.MergeWindowsBudget | 4_accelerators/01-rag-agent/rag-agent-promptflow/ragcore/chunking/custom_chunker.py:366-392 | when every fragment has tokens and fits on its own, no window costs more than the chunk size |
| Merging.MergeSplitsFailure | 4_accelerators/01-rag-agent/rag-agent-promptflow/ragcore/chunking/custom_chunker.py:382-390 | `_merge_splits` raises only for a negative overlap, and then only when some chunk had to be closed |
| Merging.MergeSplitsChunks | 4_accelerators/01-rag-agent/rag-agent-promptflow/ragcore/chunking/custom_chunker.py:375-404 | no emitted chunk is blank and every chunk is the stripped join of the fragments of one window |
| Merging.MergeChunksSeriallyLoop | 4_accelerators/01-rag-agent/rag-agent-promptflow/ragcore/chunking/utils.py:95-110 | the generator, collected into a list, yields exactly the pairs of the model |
| Merging.SerialStep | 4_accelerators/01-rag-agent/rag-agent-promptflow/ragcore/chunking/utils.py:100-108 | one pass yields the current group when the next piece would take it over the limit, then adds the piece |
| Merging.MergeChunksSeriallySizes | 4_accelerators/01-rag-agent/rag-agent-promptflow/ragcore/chunking/utils.py:100-110 | every yielded size is positive and is the sum of its pieces' token counts |
| Merging.MergeChunksSeriallyOversized | 4_accelerators/01-rag-agent/rag-agent-promptflow/ragcore/chunking/utils.py:101-106 | when every piece has a positive size, a yielded size exceeds `num_tokens` only for a group of one piece |
| Merging.MergeChunksSeriallyLossless | 4_accelerators/01-rag-agent/rag-agent-promptflow/ragcore/chunking/utils.py:104-110 | when only empty pieces have size 0, the yielded chunks concatenate to the concatenation of all pieces |
| PdfChunking.PiecesShorter | 4_accelerators/01-rag-agent/rag-agent-promptflow/ragcore/chunking/custom_chunker.py:155-158 | when the separator occurs (or the text lists into several characters), every piece is shorter than the text |
| PdfChunking.PiecesStuck | 4_accelerators/01-rag-agent/rag-agent-promptflow/ragcore/chunking/custom_chunker.py:155-158 | otherwise the only piece is the text itself |
| PdfChunking.ChunkRestFacts | 4_accelerators/01-rag-agent/rag-agent-promptflow/ragcore/chunking/custom_chunker.py:145-173 | `chunk_rest` never emits an empty chunk |
| PdfChunking.ChunkRestNoSeparator | 4_accelerators/01-rag-agent/rag-agent-promptflow/ragcore/chunking/custom_chunker.py:146-169 | an over-budget item in which no separator occurs, with no empty separator, is chunked again unchanged: the recursion never ends |
| PdfChunking.ExtractCaptionFails | 4_accelerators/01-rag-agent/rag-agent-promptflow/ragcore/chunking/custom_chunker.py:69-96 | `extract_caption` fails exactly when there are no separators or every line of the text is empty (`lines[-1]` raises) |
| PdfChunking.ExtractCaptionEnds | 4_accelerators/01-rag-agent/rag-agent-promptflow/ragcore/chunking/custom_chunker.py:89-94 | otherwise the caption ends with a newline and the stripped last non-empty line |
| PdfChunking.ChunkTableShape | 4_accelerators/01-rag-agent/rag-agent-promptflow/ragcore/chunking/custom_chunker.py:175-214 | for a table ending in `</table>` there is at least one mini-table; every mini-table ends with `</table>` and starts with the caption and a newline, and every one after the first starts with caption, `"\n<table>\n"` and the headers |
| PdfChunking.PdfSplitUnpack | 4_accelerators/01-rag-agent/rag-agent-promptflow/ragcore/chunking/custom_chunker.py:128-130 | `split_text` succeeds only when every segment after a `<table>` holds exactly one `</table>` (the tuple unpacking raises otherwise) |
| PdfChunking.PdfChunker.constructor | 4_accelerators/01-rag-agent/rag-agent-promptflow/ragcore/chunking/custom_chunker.py:67 | a new chunker has no separators yet |
| PdfChunking.PdfChunker.SplitText | 4_accelerators/01-rag-agent/rag-agent-promptflow/ragcore/chunking/custom_chunker.py:98-143 | `split_text` sets the separators, chunk size and overlap and returns the serial merge of the pre-merge chunks |
| PdfChunking.PdfChunker.PiecesLoop | 4_accelerators/01-rag-agent/rag-agent-promptflow/ragcore/chunking/custom_chunker.py:119-139 | the table loop of `split_text` computes the chunks before the serial merge, with the caption carried from the last text chunk |
| PdfChunking.PdfChunker.TableStepLoop | 4_accelerators/01-rag-agent/rag-agent-promptflow/ragcore/chunking/custom_chunker.py:129-139 | one segment: the captioned mini-tables, then the chunks of the text after the table and the next caption |
| PdfChunking.PdfChunker.FlushLoop | 4_accelerators/01-rag-agent/rag-agent-promptflow/ragcore/chunking/custom_chunker.py:164-172 | flushing runs `_merge_splits` on the pending pieces |
| PdfChunking.PdfChunker.ChunkRestLoop | 4_accelerators/01-rag-agent/rag-agent-promptflow/ragcore/chunking/custom_chunker.py:145-173 | the loop of `chunk_rest` computes the model's `chunk_rest` |
| PdfChunking.PdfChunker.ExtractCaptionLoop | 4_accelerators/01-rag-agent/rag-agent-promptflow/ragcore/chunking/custom_chunker.py:69-96 | the loops of `extract_caption` compute the model's caption |
| PdfChunking.PdfChunker.ChunkTableLoop | 4_accelerators/01-rag-agent/rag-agent-promptflow/ragcore/chunking/custom_chunker.py:175-214 | the row loop of `chunk_table` computes the model's mini-tables |
| CsvChunking.UniqueFacts | 4_accelerators/01-rag-agent/rag-agent-promptflow/ragcore/chunking/custom_chunker.py:464-478 | `unique()` keeps each value of the series exactly once and no other |
| CsvChunking.NonMissing | 4_accelerators/01-rag-agent/rag-agent-promptflow/ragcore/chunking/custom_chunker.py:464 | `dropna()` keeps exactly the present values |
| CsvChunking.MinMaxFacts | 4_accelerators/01-rag-agent/rag-agent-promptflow/ragcore/chunking/custom_chunker.py:468 | `min` and `max` are attained and bound every number |
| CsvChunking.SummarizeNumeric | 4_accelerators/01-rag-agent/rag-agent-promptflow/ragcore/chunking/custom_chunker.py:463-468 | a numeric column is summarised by its distinct present values when there are fewer than five, otherwise by a smallest and a largest number that occur in it and bound every number |
| CsvChunking.CountsAddUp | 4_accelerators/01-rag-agent/rag-agent-promptflow/ragcore/chunking/custom_chunker.py:474-475 | in a boolean column the `True` and `False` counts add up to the number of rows |
| CsvChunking.SummarizeBoolean | 4_accelerators/01-rag-agent/rag-agent-promptflow/ragcore/chunking/custom_chunker.py:473-476 | a boolean column is summarised as `"True: t, False: f"` |
| CsvChunking.SummarizeOther | 4_accelerators/01-rag-agent/rag-agent-promptflow/ragcore/chunking/custom_chunker.py:477-484 | any other column is summarised by its distinct values when there are at most ten, otherwise by their count followed by `" unique values. "` |
| CsvChunking.SummarizeChunk | 4_accelerators/01-rag-agent/rag-agent-promptflow/ragcore/chunking/custom_chunker.py:454-486 | the loop of `summarize_chunk` gives one entry per column, in column order, holding that column's summary |
| CsvChunking.FileStemFacts | 4_accelerators/01-rag-agent/rag-agent-promptflow/ragcore/chunking/custom_chunker.py:489-490 | the stem has no directory part and no '.', and starts the basename |
| CsvChunking.BatchesShape | 4_accelerators/01-rag-agent/rag-agent-promptflow/ragcore/chunking/custom_chunker.py:39-55 | the batches tile the rows from the first; each but the last is closed only when the next row would take it over the limit, and rows join a batch only while they fit |
| CsvChunking.BatchesLossless | 4_accelerators/01-rag-agent/rag-agent-promptflow/ragcore/chunking/custom_chunker.py:51-55 | every row lands in exactly one batch, in order: the batches put together are the rows |
| CsvChunking.ChunkDocumentFacts | 4_accelerators/01-rag-agent/rag-agent-promptflow/ragcore/chunking/custom_chunker.py:44-502 | every chunk Document is titled `#### Table chunk Summary` and named `{stem}_chunk_{n}.txt` |
| CsvChunking.CsvSplitFacts | 4_accelerators/01-rag-agent/rag-agent-promptflow/ragcore/chunking/custom_chunker.py:21-64 | `split_text` returns one Document per batch, in row order, none for no rows; the batches put together are the rows; Document `n` has the summary title and the file name `{stem}_chunk_{n}.txt` |
| CsvChunking.WriteChunkDocument | 4_accelerators/01-rag-agent/rag-agent-promptflow/ragcore/chunking/custom_chunker.py:40-46 | closing a chunk writes the summary, then the rows, and makes the Document of chunk `n` |
| CsvChunking.CsvSplitText | 4_accelerators/01-rag-agent/rag-agent-promptflow/ragcore/chunking/custom_chunker.py:21-64 | `split_text` (stem, header tokens, the `token_limit - 256` rule, the row loop) computes the model's Documents |
| CsvChunking.CsvRows | 4_accelerators/01-rag-agent/rag-agent-promptflow/ragcore/chunking/custom_chunker.py:31-64 | the row loop writes one Document per batch of the model, numbered from 0 |
| CsvChunking.CsvStep | 4_accelerators/01-rag-agent/rag-agent-promptflow/ragcore/chunking/custom_chunker.py:34-52 | one pass of the row loop keeps the loop state |
| CsvChunking.CloseChunk | 4_accelerators/01-rag-agent/rag-agent-promptflow/ragcore/chunking/custom_chunker.py:40-49 | writing out a chunk appends its window and its Document |
| ChunkingUtils.CopyIfPresentFacts | 4_accelerators/01-rag-agent/rag-agent-promptflow/ragcore/chunking/utils.py:16-18 | a falsy source leaves `dest` as it was; a dict source never raises; only a truthy non-dict source can raise; `dest[name]` takes the source's value exactly when the source is a truthy dict holding `name`, and every other key keeps its value |
| ChunkingUtils.DocumentsToJsonDictRoundTrip | 4_accelerators/01-rag-agent/rag-agent-promptflow/ragcore/chunking/utils.py:20-24 | reading the dicts back as Documents gives the same lists: the conversion keeps the shape, the order and every field |
| ChunkingUtils.V1WindowsShape | 4_accelerators/01-rag-agent/rag-agent-promptflow/ragcore/chunking/utils.py:84-93 | the v1 windows follow each other from the first line to the last; each but the last was closed because the next line did not fit; lines join a window only while it fits |
| ChunkingUtils.V1SizeBound | 4_accelerators/01-rag-agent/rag-agent-promptflow/ragcore/chunking/utils.py:86-91 | a v1 chunk over `num_tokens` holds at most one line |
| ChunkingUtils.V1ClosedWindows | 4_accelerators/01-rag-agent/rag-agent-promptflow/ragcore/chunking/utils.py:86-89 | each v1 chunk but the last is followed by a line that would have taken it over `num_tokens` |
| ChunkingUtils.V1EmptyFirst | 4_accelerators/01-rag-agent/rag-agent-promptflow/ragcore/chunking/utils.py:86-93 | the last v1 chunk has text; an empty chunk can only be the first one, yielded because the first line alone is over `num_tokens` |
| ChunkingUtils.V1Lossless | 4_accelerators/01-rag-agent/rag-agent-promptflow/ragcore/chunking/utils.py:84-93 | put back together, the v1 chunks are all the lines, each preceded by a newline |
| ChunkingUtils.ChunkLinesFacts | 4_accelerators/01-rag-agent/rag-agent-promptflow/ragcore/chunking/utils.py:81-93 | the line loop of v1 yields at least one chunk; every line appears exactly once and in order; each chunk carries the parsed document and the summed token count of its lines; the bounds of the three lemmas above hold |
| ChunkingUtils.ChunkContentV1Facts | 4_accelerators/01-rag-agent/rag-agent-promptflow/ragcore/chunking/utils.py:67-93 | v1 fails for an unregistered format (reported as unsupported; "pdf" is read as text) or a failing parse, and otherwise yields the line chunks of the parsed content with the properties above |
| ChunkingUtils.ChunkContentHelperV1 | 4_accelerators/01-rag-agent/rag-agent-promptflow/ragcore/chunking/utils.py:67-93 | the generator computes the model's v1 chunks |
| ChunkingUtils.ChunkLines | 4_accelerators/01-rag-agent/rag-agent-promptflow/ragcore/chunking/utils.py:82-93 | the line loop computes the model's v1 chunks |
| ChunkingUtils.LineStep | 4_accelerators/01-rag-agent/rag-agent-promptflow/ragcore/chunking/utils.py:84-91 | one pass of the line loop keeps the loop state |
| ChunkingUtils.LastLine | 4_accelerators/01-rag-agent/rag-agent-promptflow/ragcore/chunking/utils.py:92-93 | the open chunk is yielded only when it holds text |
| ChunkingUtils.ChunkContentV2Routing | 4_accelerators/01-rag-agent/rag-agent-promptflow/ragcore/chunking/utils.py:26-33 | an unknown format is reported as unsupported, "pdf" is parsed as HTML with Form Recognizer and as text without it, and a failing parse stops the generator |
| ChunkingUtils.ChunkContentV2Branches | 4_accelerators/01-rag-agent/rag-agent-promptflow/ragcore/chunking/utils.py:34-64 | markdown, CSV with a file name, and "pdf" with Form Recognizer each reach their own branch; everything else goes to the recursive splitter |
| ChunkingUtils.MarkdownBranchFacts | 4_accelerators/01-rag-agent/rag-agent-promptflow/ragcore/chunking/utils.py:34-40 | markdown: one chunk per serially merged group of the original text's pieces; each is the group parsed again, under the whole document's title, with the group's size |
| ChunkingUtils.CsvBranchFacts | 4_accelerators/01-rag-agent/rag-agent-promptflow/ragcore/chunking/utils.py:41-46 | CSV: every chunk is one Document of the CSV chunker, in order, with its content as text, titled with the summary heading, and sized by the token estimator |
| ChunkingUtils.PdfBranchFacts | 4_accelerators/01-rag-agent/rag-agent-promptflow/ragcore/chunking/utils.py:47-52 | PDF with Form Recognizer: the chunk texts are the PDF chunker's pieces of the parsed content, each pointing at the parsed document and sized by the token estimator |
| ChunkingUtils.PlainBranchFacts | 4_accelerators/01-rag-agent/rag-agent-promptflow/ragcore/chunking/utils.py:53-64 | the rest: the parsed content is split with the Python separators for "python" and with sentence endings then word breaks otherwise; each chunk points at the parsed document and is sized by the token estimator |
| ChunkingUtils.ChunkContentHelperV2 | 4_accelerators/01-rag-agent/rag-agent-promptflow/ragcore/chunking/utils.py:26-64 | the generator computes the model's v2 chunks |
| ChunkingUtils.MarkdownLoop | 4_accelerators/01-rag-agent/rag-agent-promptflow/ragcore/chunking/utils.py:35-40 | the markdown branch computes the model's markdown chunks |
| ChunkingUtils.MarkdownChunksLoop | 4_accelerators/01-rag-agent/rag-agent-promptflow/ragcore/chunking/utils.py:37-40 | every merged group is parsed again and given the parent's title |
| ChunkingUtils.CsvLoop | 4_accelerators/01-rag-agent/rag-agent-promptflow/ragcore/chunking/utils.py:42-46 | the CSV branch computes the model's CSV chunks |
| ChunkingUtils.DocChunksLoop | 4_accelerators/01-rag-agent/rag-agent-promptflow/ragcore/chunking/utils.py:44-46 | every CSV Document becomes one chunk sized by the estimator |
| ChunkingUtils.PlainLoop | 4_accelerators/01-rag-agent/rag-agent-promptflow/ragcore/chunking/utils.py:53-64 | the catch-all branch computes the model's chunks |
| ChunkingUtils.SizedLoop | 4_accelerators/01-rag-agent/rag-agent-promptflow/ragcore/chunking/utils.py:50-64 | each piece becomes one chunk sized by the estimator, pointing at the parsed document |
| TextChunking.NewTextChunkerFacts | 4_accelerators/01-rag-agent/rag-agent-promptflow/ragcore/chunking/text_chunker.py:34-69 | construction fails exactly when no known extension survives; otherwise the chunker keeps exactly the known requested extensions (all known ones when none are requested), minus "py" for v1, and the v1 or v2 helper as its chunk function |
| TextChunking.Extension | 4_accelerators/01-rag-agent/rag-agent-promptflow/ragcore/chunking/text_chunker.py:81-82 | the extension holds no '.' and no '/' |
| TextChunking.ExtensionOfBasename | 4_accelerators/01-rag-agent/rag-agent-promptflow/ragcore/chunking/text_chunker.py:81-82 | the extension is the last '.'-separated piece of the base name |
| TextChunking.ExtensionAfterLastDot | 4_accelerators/01-rag-agent/rag-agent-promptflow/ragcore/chunking/text_chunker.py:81-82 | the extension is the text after the last '.' of the base name |
| TextChunking.GetFileFormatFacts | 4_accelerators/01-rag-agent/rag-agent-promptflow/ragcore/chunking/text_chunker.py:71-85 | a file resolves exactly when its extension is processed, to the format listed for it, which the parser factory accepts with and without Form Recognizer |
| TextChunking.KeptFacts | 4_accelerators/01-rag-agent/rag-agent-promptflow/ragcore/chunking/text_chunker.py:132-141 | the size filter keeps exactly the chunks of at least `min_chunk_size` tokens (all of them when that is not positive), each as a Document with the given url and no file path |
| TextChunking.ChunkContentFacts | 4_accelerators/01-rag-agent/rag-agent-promptflow/ragcore/chunking/text_chunker.py:91-153 | `chunk_content` chunks under a format the parser factory accepts ("text" without a file name); it fails exactly when errors are not ignored and the helper fails, with the helper's error; otherwise it returns the kept chunks, or nothing after an ignored error |
| TextChunking.ChunkContentMethod | 4_accelerators/01-rag-agent/rag-agent-promptflow/ragcore/chunking/text_chunker.py:116-153 | the method computes the model's `chunk_content` |
| TextChunking.KeepLoop | 4_accelerators/01-rag-agent/rag-agent-promptflow/ragcore/chunking/text_chunker.py:132-141 | the loop computes the size filter |
| TextChunking.ChunkFileFacts | 4_accelerators/01-rag-agent/rag-agent-promptflow/ragcore/chunking/text_chunker.py:155-188 | an unprocessed extension gives nothing under `ignore_errors` and an unsupported-format error otherwise; a read error propagates; otherwise the content is chunked under the listed format with the base name, the overlap clamped at 0 and Form Recognizer off; under `ignore_errors` only a read error fails; every Document carries the url |
| TextChunking.ChunkFileMethod | 4_accelerators/01-rag-agent/rag-agent-promptflow/ragcore/chunking/text_chunker.py:155-188 | the method computes the model's `chunk_file` |
| TextChunking.Tagged | 4_accelerators/01-rag-agent/rag-agent-promptflow/ragcore/chunking/text_chunker.py:231-233 | tagging keeps the number of Documents |
| TextChunking.FileEntryChunks | 4_accelerators/01-rag-agent/rag-agent-promptflow/ragcore/chunking/text_chunker.py:222-239 | a failure is the file's own error, raised only without `ignore_errors`; every Document returned carries the file's relative path |
| TextChunking.EntryChunksFacts | 4_accelerators/01-rag-agent/rag-agent-promptflow/ragcore/chunking/text_chunker.py:214-239 | a directory entry yields nothing; a file's Documents carry its relative path; a failure is that file's own `chunk_file` error, raised only without `ignore_errors` |
| TextChunking.ChunkDirectoryPrefixFails | 4_accelerators/01-rag-agent/rag-agent-promptflow/ragcore/chunking/text_chunker.py:214-239 | once a prefix of the listing fails, the whole walk fails the same way |
| TextChunking.ChunkDirectoryIgnoring | 4_accelerators/01-rag-agent/rag-agent-promptflow/ragcore/chunking/text_chunker.py:235-239 | under `ignore_errors` the walk never fails |
| TextChunking.ChunkDirectoryProvenance | 4_accelerators/01-rag-agent/rag-agent-promptflow/ragcore/chunking/text_chunker.py:213-241 | every Document the walk returns comes from a file entry and carries its relative path |
| TextChunking.ChunkDirectoryFailure | 4_accelerators/01-rag-agent/rag-agent-promptflow/ragcore/chunking/text_chunker.py:235-237 | a failed walk failed with the `chunk_file` error of one of its files |
| TextChunking.ChunkDirectoryOneEntry | 4_accelerators/01-rag-agent/rag-agent-promptflow/ragcore/chunking/text_chunker.py:213-241 | for a one-entry listing the intended walk returns exactly that entry's chunks |
| TextChunking.ChunkDirectoryAsWrittenEmpty | 4_accelerators/01-rag-agent/rag-agent-promptflow/ragcore/chunking/text_chunker.py:213-241 | as written (`chunks.extend(chunks)`), the walk returns no Document at all, and fails exactly where the intended walk fails, with the same error |
| TextChunking.ChunkDirectoryDropsChunks | 4_accelerators/01-rag-agent/rag-agent-promptflow/ragcore/chunking/text_chunker.py:231-234 | a directory with one file yielding one chunk: the intended walk returns it tagged with its relative path and chunk id 0, the walk as written returns nothing |
| TextChunking.ChunkDirectoryMethod | 4_accelerators/01-rag-agent/rag-agent-promptflow/ragcore/chunking/text_chunker.py:213-241 | the walk (with `chunks.extend(result)`) computes the model's intended `chunk_directory` |
| TextChunking.EntryStep | 4_accelerators/01-rag-agent/rag-agent-promptflow/ragcore/chunking/text_chunker.py:215-239 | the loop body computes one entry's chunks |
| TextChunking.TagLoop | 4_accelerators/01-rag-agent/rag-agent-promptflow/ragcore/chunking/text_chunker.py:231-233 | the tagging loop gives each Document the relative path and its index as chunk id |
| AcsUtils.CanonicalNames | 4_accelerators/01-rag-agent/rag-agent-promptflow/ragcore/chunking/search_chunkers/acs_utils.py:7-52 | no alias ("uri", "link", "document_link", "filename") is ever a saved name, and a key listed in no alias set is saved under itself |
| AcsUtils.GuessForNames | 4_accelerators/01-rag-agent/rag-agent-promptflow/ragcore/chunking/search_chunkers/acs_utils.py:7-49 | a name found for a key is one of the table's canonical names |
| AcsUtils.GuessForFinds | 4_accelerators/01-rag-agent/rag-agent-promptflow/ragcore/chunking/search_chunkers/acs_utils.py:45-49 | a key listed in some alias set is always found |
| AcsUtils.GuessForMissing | 4_accelerators/01-rag-agent/rag-agent-promptflow/ragcore/chunking/search_chunkers/acs_utils.py:45-52 | a key listed in no alias set has no canonical name |
| AcsUtils.NormalizeContentFields | 4_accelerators/01-rag-agent/rag-agent-promptflow/ragcore/chunking/search_chunkers/acs_utils.py:34-53 | the key loop, with the recursive call on dict values, computes the model's normalisation |
| AcsUtils.GuessedLookup | 4_accelerators/01-rag-agent/rag-agent-promptflow/ragcore/chunking/search_chunkers/acs_utils.py:38-52 | under each name the dict being built holds the value of the last entry saved under that name so far |
| AcsUtils.GuessedKeys | 4_accelerators/01-rag-agent/rag-agent-promptflow/ragcore/chunking/search_chunkers/acs_utils.py:38-52 | the keys of the dict being built are the canonical names of the keys seen so far |
| AcsUtils.GuessedNoAlias | 4_accelerators/01-rag-agent/rag-agent-promptflow/ragcore/chunking/search_chunkers/acs_utils.py:38-52 | no alias key survives into the dict being built |
| AcsUtils.GuessedPlain | 4_accelerators/01-rag-agent/rag-agent-promptflow/ragcore/chunking/search_chunkers/acs_utils.py:38-52 | entries with distinct canonical keys and no dict value are copied unchanged |
| AcsUtils.NormalizeLookup | 4_accelerators/01-rag-agent/rag-agent-promptflow/ragcore/chunking/search_chunkers/acs_utils.py:34-53 | a lookup in the normalised dict finds the value of the last entry whose key has that canonical name |
| AcsUtils.NormalizeKeys | 4_accelerators/01-rag-agent/rag-agent-promptflow/ragcore/chunking/search_chunkers/acs_utils.py:34-53 | the normalised keys are exactly the canonical names of the original keys, and no alias survives |
| AcsUtils.NormalizeUnchanged | 4_accelerators/01-rag-agent/rag-agent-promptflow/ragcore/chunking/search_chunkers/acs_utils.py:34-53 | a dict whose keys are distinct canonical names and whose values are not dicts comes back unchanged |
| AcsUtils.NormalizeExample | 4_accelerators/01-rag-agent/rag-agent-promptflow/ragcore/chunking/search_chunkers/acs_utils.py:45-52 | `{"uri": "a", "id": 1, "link": "b"}` normalises to `{"url": "b", "id": 1}`: the later alias wins, at the first alias's position |
| AcsUtils.FindTitle | 4_accelerators/01-rag-agent/rag-agent-promptflow/ragcore/chunking/search_chunkers/acs_utils.py:14-29 | the match found is the first one at or after the start position |
| AcsUtils.LineEnd | 4_accelerators/01-rag-agent/rag-agent-promptflow/ragcore/chunking/search_chunkers/acs_utils.py:14 | the capture `(.*)` runs to the first line break |
| AcsUtils.TitleLineEnds | 4_accelerators/01-rag-agent/rag-agent-promptflow/ragcore/chunking/search_chunkers/acs_utils.py:14 | a match has its line break before the end of the text |
| AcsUtils.StripKeepsNoBreak | 4_accelerators/01-rag-agent/rag-agent-promptflow/ragcore/chunking/search_chunkers/acs_utils.py:31 | the stripped capture holds no line break |
| AcsUtils.ExtractTitleFacts | 4_accelerators/01-rag-agent/rag-agent-promptflow/ragcore/chunking/search_chunkers/acs_utils.py:28-32 | the title is "" when no `[tT]itle: ` line ends in a line break; otherwise it is the stripped rest of the first such line, and never holds a line break |
| AcsUtils.ExtractTitleExample | 4_accelerators/01-rag-agent/rag-agent-promptflow/ragcore/chunking/search_chunkers/acs_utils.py:28-32 | `"Title: Intro \nbody"` gives `"Intro"` |
| AcsUtils.ResultToDataclassFacts | 4_accelerators/01-rag-agent/rag-agent-promptflow/ragcore/chunking/search_chunkers/acs_utils.py:55-99 | a raw hit that is not a dict cannot be converted; a hit without score or text reads 0 and ""; metadata that is not a dict leaves every metadata property None; a falsy title falls back to the title in the text when there is text |
| AcsUtils.ParseResultsListMethod | 4_accelerators/01-rag-agent/rag-agent-promptflow/ragcore/chunking/search_chunkers/acs_utils.py:16-26 | the loop computes the model's parsed list |
| AcsUtils.ParseResultsFailurePersists | 4_accelerators/01-rag-agent/rag-agent-promptflow/ragcore/chunking/search_chunkers/acs_utils.py:20-24 | once a prefix of the raw hits fails to parse, the whole list fails the same way |
| AcsUtils.ParseResultsListFacts | 4_accelerators/01-rag-agent/rag-agent-promptflow/ragcore/chunking/search_chunkers/acs_utils.py:16-26 | one hit per raw hit, in order: the converted hit with its position as chunk id |
| AcsUtils.ParseResultsListFailure | 4_accelerators/01-rag-agent/rag-agent-promptflow/ragcore/chunking/search_chunkers/acs_utils.py:20-24 | the parse fails exactly when some raw hit does not convert, and then with the error of the first such hit |
| AcsUtils.ResultToDocumentFacts | 4_accelerators/01-rag-agent/rag-agent-promptflow/ragcore/chunking/search_chunkers/acs_utils.py:101-110 | the Document keeps the hit's text as content, its score and its metadata fields, survives the round trip through its dict, and equals a Document built with those fields |
| Ranking.InsertPermutes | 4_accelerators/01-rag-agent/rag-agent-promptflow/ragcore/chunking/search_chunkers/chunking_utils.py:130-132 | inserting into the sorted list adds exactly the one element |
| Ranking.InsertDescending | 4_accelerators/01-rag-agent/rag-agent-promptflow/ragcore/chunking/search_chunkers/chunking_utils.py:130-132 | inserting into a list sorted by descending key keeps it sorted |
| Ranking.InsertWithKey | 4_accelerators/01-rag-agent/rag-agent-promptflow/ragcore/chunking/search_chunkers/chunking_utils.py:130-132 | inserting keeps the relative order of equal keys (the sort is stable) |
| Ranking.SortDescFacts | 4_accelerators/01-rag-agent/rag-agent-promptflow/ragcore/chunking/search_chunkers/chunking_utils.py:130-189 | `sorted(..., reverse=True)` gives a permutation of the list, sorted by descending key, keeping the original order among equal keys |
| Ranking.SortDescSorted | 4_accelerators/01-rag-agent/rag-agent-promptflow/ragcore/chunking/search_chunkers/chunking_utils.py:137 | a list already sorted descending is left as it is |
| Ranking.SortDescIdempotent | 4_accelerators/01-rag-agent/rag-agent-promptflow/ragcore/chunking/search_chunkers/chunking_utils.py:130-137 | sorting twice is sorting once |
| Ranking.TakeCount | 4_accelerators/01-rag-agent/rag-agent-promptflow/ragcore/chunking/search_chunkers/chunking_utils.py:137-189 | the length of `xs[:k]`: `k` capped at the length for `k >= 0`, and the length minus `-k` (at least 0) for a negative `k` |
| Ranking.PyTake | 4_accelerators/01-rag-agent/rag-agent-promptflow/ragcore/chunking/search_chunkers/chunking_utils.py:137-189 | `xs[:k]` is the prefix of that length |
| Ranking.TopFacts | 4_accelerators/01-rag-agent/rag-agent-promptflow/ragcore/chunking/search_chunkers/chunking_utils.py:137-189 | what the cut keeps, followed by what it drops, is a permutation of the list; the kept keys descend, and none is smaller than a dropped one |
| Ranking.TopFrom | 4_accelerators/01-rag-agent/rag-agent-promptflow/ragcore/chunking/search_chunkers/chunking_utils.py:137-189 | everything kept comes from the list, key and all |
| Ranking.TopDropped | 4_accelerators/01-rag-agent/rag-agent-promptflow/ragcore/chunking/search_chunkers/chunking_utils.py:137-189 | an element the cut drops has a key no larger than any it keeps |
| Ranking.SortDescItems | 4_accelerators/01-rag-agent/rag-agent-promptflow/ragcore/chunking/search_chunkers/chunking_utils.py:137-189 | sorting permutes the ranked items |
| Ranking.TopBest | 4_accelerators/01-rag-agent/rag-agent-promptflow/ragcore/chunking/search_chunkers/chunking_utils.py:137-189 | `sorted(..., reverse=True)[:k]` keeps a sub-multiset of the list, in descending order, and every element it drops has a key no larger than any it keeps |
| Ranking.SortDescExample | 4_accelerators/01-rag-agent/rag-agent-promptflow/ragcore/chunking/search_chunkers/chunking_utils.py:137 | keys 3, 5, 5 come out with both 5s first, in their original order |
| OnTheFly.TextChunkerV2IsDefault | 4_accelerators/01-rag-agent/rag-agent-promptflow/ragcore/chunking/search_chunkers/chunking_utils.py:16 | the module's chunker is the v2 chunker over every known extension |
| OnTheFly.TfidfScores | 4_accelerators/01-rag-agent/rag-agent-promptflow/ragcore/chunking/search_chunkers/chunking_utils.py:183 | one score per text: the similarity oracle's score for a query, 0 for a missing or empty one |
| OnTheFly.UpdateDocScore | 4_accelerators/01-rag-agent/rag-agent-promptflow/ragcore/chunking/search_chunkers/chunking_utils.py:19-22 | the Document with its score set and every other field as it was |
| OnTheFly.Rescored | 4_accelerators/01-rag-agent/rag-agent-promptflow/ragcore/chunking/search_chunkers/chunking_utils.py:24-30 | `zip` stops at the shorter list; each Document gets the score at its position and nothing else changes |
| OnTheFly.CombineDocsWithScores | 4_accelerators/01-rag-agent/rag-agent-promptflow/ragcore/chunking/search_chunkers/chunking_utils.py:24-30 | the loop computes the rescored list |
| OnTheFly.WithScores | 4_accelerators/01-rag-agent/rag-agent-promptflow/ragcore/chunking/search_chunkers/chunking_utils.py:133-140 | each ranked Document comes out with its key as its score |
| OnTheFly.RankedCut | 4_accelerators/01-rag-agent/rag-agent-promptflow/ragcore/chunking/search_chunkers/chunking_utils.py:137-199 | the top `top_k` of a ranked list: as many as the cut keeps, scores descending, each an item of the list scored with its own key; what is kept is a sub-multiset of the list and no dropped element has a higher key than a kept one |
| OnTheFly.RankedCandidates | 4_accelerators/01-rag-agent/rag-agent-promptflow/ragcore/chunking/search_chunkers/chunking_utils.py:131-133 | each candidate is ranked by highlights × score / tokens, or 0 for no tokens |
| OnTheFly.ChunkOnTheFlyWithHighlights | 4_accelerators/01-rag-agent/rag-agent-promptflow/ragcore/chunking/search_chunkers/chunking_utils.py:33-140 | no results give nothing; otherwise it fails exactly when the highlights, the tags or the scores are missing or of the wrong length, with the message of the first check that fails |
| OnTheFly.HitCandidatesMethod | 4_accelerators/01-rag-agent/rag-agent-promptflow/ragcore/chunking/search_chunkers/chunking_utils.py:57-125 | the body of the highlight loop computes one hit's candidates and whether it was chunked |
| OnTheFly.SubChunkCandidatesMethod | 4_accelerators/01-rag-agent/rag-agent-promptflow/ragcore/chunking/search_chunkers/chunking_utils.py:103-125 | the chunk loop computes the candidates of a chunked highlight |
| OnTheFly.ScanHitMethod | 4_accelerators/01-rag-agent/rag-agent-promptflow/ragcore/chunking/search_chunkers/chunking_utils.py:56-127 | one pass of the highlight loop advances the scan by one hit, counter included |
| OnTheFly.ScanHitsMethod | 4_accelerators/01-rag-agent/rag-agent-promptflow/ragcore/chunking/search_chunkers/chunking_utils.py:53-127 | the highlight loop computes the model's scan |
| OnTheFly.ChunkOnTheFlyWithHighlightsMethod | 4_accelerators/01-rag-agent/rag-agent-promptflow/ragcore/chunking/search_chunkers/chunking_utils.py:33-140 | the function computes the model's result |
| OnTheFly.HighlightDocsMethod | 4_accelerators/01-rag-agent/rag-agent-promptflow/ragcore/chunking/search_chunkers/chunking_utils.py:128-140 | the ranking and cut compute the model's result after the scan |
| OnTheFly.ChunkOnTheFly | 4_accelerators/01-rag-agent/rag-agent-promptflow/ragcore/chunking/search_chunkers/chunking_utils.py:142-199 | no results give nothing; otherwise it fails exactly when there is no query |
| OnTheFly.ChunkCopiesMethod | 4_accelerators/01-rag-agent/rag-agent-promptflow/ragcore/chunking/search_chunkers/chunking_utils.py:174-179 | each chunk becomes a copy of the hit with the chunk's content and the id `base + index` |
| OnTheFly.PieceDocsMethod | 4_accelerators/01-rag-agent/rag-agent-promptflow/ragcore/chunking/search_chunkers/chunking_utils.py:160-179 | one hit becomes itself under id `base`, or the copies of its chunks |
| OnTheFly.PiecesMethod | 4_accelerators/01-rag-agent/rag-agent-promptflow/ragcore/chunking/search_chunkers/chunking_utils.py:156-179 | the hit loop computes the pieces and the hits as passed through |
| OnTheFly.ChunkOnTheFlyMethod | 4_accelerators/01-rag-agent/rag-agent-promptflow/ragcore/chunking/search_chunkers/chunking_utils.py:142-199 | the function computes the model's result |
| HighlightFacts.SubChunkCandidatesFacts | 4_accelerators/01-rag-agent/rag-agent-promptflow/ragcore/chunking/search_chunkers/chunking_utils.py:103-125 | every candidate of a chunked highlight is a copy of the hit, of at least 2 tokens, whose content is one of the chunks with both tags removed and whose id is that chunk's index past the base id |
| HighlightFacts.HitCandidatesFacts | 4_accelerators/01-rag-agent/rag-agent-promptflow/ragcore/chunking/search_chunkers/chunking_utils.py:64-125 | a hit is chunked exactly when it is over `max_chunk_size` and has a highlight; every candidate is a copy of the hit; an unchunked hit gives exactly one candidate, the hit with its chunking note and the base id |
| HighlightFacts.MultisetConst | 4_accelerators/01-rag-agent/rag-agent-promptflow/ragcore/chunking/search_chunkers/chunking_utils.py:126-127 | a list of one repeated path counts that path as often as the list is long |
| HighlightFacts.CounterStep | 4_accelerators/01-rag-agent/rag-agent-promptflow/ragcore/chunking/search_chunkers/chunking_utils.py:126-127 | adding one hit's candidates adds their number to the counter of the hit's path |
| HighlightFacts.FoldCounter | 4_accelerators/01-rag-agent/rag-agent-promptflow/ragcore/chunking/search_chunkers/chunking_utils.py:55-127 | the counter of a truthy path is the number of candidates made so far with that path |
| HighlightFacts.FoldUnchunked | 4_accelerators/01-rag-agent/rag-agent-promptflow/ragcore/chunking/search_chunkers/chunking_utils.py:64-74 | when nothing is chunked, each hit gives one candidate, numbered by the earlier hits with the same truthy path |
| HighlightFacts.KeptPaths | 4_accelerators/01-rag-agent/rag-agent-promptflow/ragcore/chunking/search_chunkers/chunking_utils.py:64-74 | kept hits keep their paths, in order |
| HighlightFacts.CopiesStep | 4_accelerators/01-rag-agent/rag-agent-promptflow/ragcore/chunking/search_chunkers/chunking_utils.py:56-127 | one more hit keeps every candidate a copy of the hit it came from |
| HighlightFacts.FoldCopies | 4_accelerators/01-rag-agent/rag-agent-promptflow/ragcore/chunking/search_chunkers/chunking_utils.py:56-127 | every candidate is a copy of one of the hits, in hit order |
| HighlightFacts.FoldChunked | 4_accelerators/01-rag-agent/rag-agent-promptflow/ragcore/chunking/search_chunkers/chunking_utils.py:54-76 | the chunked flag is set exactly when some hit was chunked |
| HighlightFacts.HighlightHitFacts | 4_accelerators/01-rag-agent/rag-agent-promptflow/ragcore/chunking/search_chunkers/chunking_utils.py:57-125 | each hit's candidates are copies of it; it is chunked exactly when it is over the budget with a highlight; an unchunked hit gives its one kept copy |
| HighlightFacts.HighlightsKept | 4_accelerators/01-rag-agent/rag-agent-promptflow/ragcore/chunking/search_chunkers/chunking_utils.py:128-135 | when no hit is over the budget, the result has one Document per hit, in order: the hit with its chunking note and its running id (`return results`, which the loop has updated in place) |
| HighlightFacts.RankedCandidatesFacts | 4_accelerators/01-rag-agent/rag-agent-promptflow/ragcore/chunking/search_chunkers/chunking_utils.py:128-140 | ranking the candidates keeps at most `top_k` of them, scores descending, each a candidate scored with its own key and a copy of a hit |
| HighlightFacts.ScanChunked | 4_accelerators/01-rag-agent/rag-agent-promptflow/ragcore/chunking/search_chunkers/chunking_utils.py:53-127 | after the loop the chunked flag says whether some hit is over the budget, and every candidate is a copy of a hit |
| HighlightFacts.HighlightsRanked | 4_accelerators/01-rag-agent/rag-agent-promptflow/ragcore/chunking/search_chunkers/chunking_utils.py:128-140 | when some hit is over the budget, the result is the cut of the ranked candidates: as many as the cut keeps, scores descending, each a candidate scored with its own key and a copy of some hit; the candidates kept are taken without repetition from all candidates, and no dropped candidate ranks higher than a kept one |
| OnTheFlyFacts.PieceDocsFacts | 4_accelerators/01-rag-agent/rag-agent-promptflow/ragcore/chunking/search_chunkers/chunking_utils.py:160-179 | every piece of a hit is a copy of it with its own id `base + index`; a hit within the budget is its own only piece, under id `base` |
| OnTheFlyFacts.PiecesFacts | 4_accelerators/01-rag-agent/rag-agent-promptflow/ragcore/chunking/search_chunkers/chunking_utils.py:159-179 | every piece comes from a hit; when every hit is within the budget there is one piece per hit |
| OnTheFlyFacts.OnTheFlyFits | 4_accelerators/01-rag-agent/rag-agent-promptflow/ragcore/chunking/search_chunkers/chunking_utils.py:181-182 | with a query and every hit within the budget, the hits come back in order, each with chunk id "0" (the per-path counter is read but never advanced) and nothing else changed |
| OnTheFlyFacts.TfidfRankedFacts | 4_accelerators/01-rag-agent/rag-agent-promptflow/ragcore/chunking/search_chunkers/chunking_utils.py:183-199 | the TF-IDF ranking of pieces of the hits keeps as many as `top_k` allows, scores descending, each a piece scored by its similarity to the query and so a copy of some hit differing only in content, chunk id and score |
| OnTheFlyFacts.OnTheFlyRanked | 4_accelerators/01-rag-agent/rag-agent-promptflow/ragcore/chunking/search_chunkers/chunking_utils.py:181-199 | otherwise the result is the top `top_k` pieces, each scored by its TF-IDF similarity to the query, scores descending, each a piece of some hit |
| OnTheFlyFacts.OnTheFlyBest | 4_accelerators/01-rag-agent/rag-agent-promptflow/ragcore/chunking/search_chunkers/chunking_utils.py:181-199 | in the same case the pieces kept are a sub-multiset of all pieces, each scored by its own similarity, and no dropped piece scores higher than a kept one |
| SearchChunkers.Boosted | 4_accelerators/01-rag-agent/rag-agent-promptflow/ragcore/chunking/search_chunkers/acs_text_chunker.py:86-88 | `min(0.2 + score, 1.0)`: at most 1.0 and at most `0.2 + score`, and equal to one of them |
| SearchChunkers.RescoreFacts | 4_accelerators/01-rag-agent/rag-agent-promptflow/ragcore/chunking/search_chunkers/acs_text_chunker.py:77-88 | rescoring keeps the Documents and their order and changes only the score, which becomes `min(0.2 + sim, 1.0)` of the TF-IDF similarity of the query to title and content: at most 1.0, and 0.2 without a query |
| SearchChunkers.TextHitScoreFalsy | 4_accelerators/01-rag-agent/rag-agent-promptflow/ragcore/chunking/search_chunkers/acs_text_chunker.py:38-44 | a zero or missing search score counts as absent: the hit's own score is used and the reranker score is ignored |
| SearchChunkers.HighlightText | 4_accelerators/01-rag-agent/rag-agent-promptflow/ragcore/chunking/search_chunkers/acs_text_chunker.py:50-61 | falsy highlights give no highlight text; the only failure is a `TypeError` |
| SearchChunkers.HighlightTextOfDict | 4_accelerators/01-rag-agent/rag-agent-promptflow/ragcore/chunking/search_chunkers/acs_text_chunker.py:55-61 | for a dict of highlights: "" without "content", otherwise the "content" highlights joined by "." and stripped |
| SearchChunkers.TextBatch | 4_accelerators/01-rag-agent/rag-agent-promptflow/ragcore/chunking/search_chunkers/acs_text_chunker.py:36-62 | the hit loop fails exactly when some hit's highlights cannot be read; otherwise it gives one Document, score and highlight text per hit, and the highlight path is taken exactly when every hit has truthy highlights |
| SearchChunkers.AcsTextQueryErrors | 4_accelerators/01-rag-agent/rag-agent-promptflow/ragcore/chunking/search_chunkers/acs_text_chunker.py:20-92 | one query fails with `TypeError` exactly when some hit's highlights cannot be read; otherwise it fails only when there are hits, no query, and some hit without highlights, with the missing-query message |
| SearchChunkers.AcsTextQueryScores | 4_accelerators/01-rag-agent/rag-agent-promptflow/ragcore/chunking/search_chunkers/acs_text_chunker.py:77-88 | after a "simple" query every score is present and at most 1.0 |
| SearchChunkers.TextBatchMethod | 4_accelerators/01-rag-agent/rag-agent-promptflow/ragcore/chunking/search_chunkers/acs_text_chunker.py:36-62 | the hit loop computes the model's batch |
| SearchChunkers.AcsTextQueryMethod | 4_accelerators/01-rag-agent/rag-agent-promptflow/ragcore/chunking/search_chunkers/acs_text_chunker.py:27-91 | the body of the query loop computes the model's result for one query |
| SearchChunkers.AcsTextChunkResultsMethod | 4_accelerators/01-rag-agent/rag-agent-promptflow/ragcore/chunking/search_chunkers/acs_text_chunker.py:20-92 | `chunk_results` gives one list per query, and nothing for no results |
| SearchChunkers.VectorHitScore | 4_accelerators/01-rag-agent/rag-agent-promptflow/ragcore/chunking/search_chunkers/acs_vector_chunker.py:28-31 | a hit's score is its reranker score over 4 when that is truthy, its search score otherwise |
| SearchChunkers.PreRankFacts | 4_accelerators/01-rag-agent/rag-agent-promptflow/ragcore/chunking/search_chunkers/acs_vector_chunker.py:37 | the pre-ranking fails (`TypeError`, comparing `None`) exactly when two or more Documents include one without a score; otherwise it keeps Python's slice count of Documents, taken from the input, best score first, and none it drops scores higher than one it keeps |
| SearchChunkers.AcsVectorQueryErrors | 4_accelerators/01-rag-agent/rag-agent-promptflow/ragcore/chunking/search_chunkers/acs_vector_chunker.py:21-60 | one query fails with `TypeError` exactly when there are two or more hits and one has no score; it fails for the missing query exactly when the scores compare, something is kept and there is no query |
| SearchChunkers.AcsVectorQueryScores | 4_accelerators/01-rag-agent/rag-agent-promptflow/ragcore/chunking/search_chunkers/acs_vector_chunker.py:49-58 | after a vector or vector-simple-hybrid query every score is present and at most 1.0 |
| SearchChunkers.VectorDocsMethod | 4_accelerators/01-rag-agent/rag-agent-promptflow/ragcore/chunking/search_chunkers/acs_vector_chunker.py:27-34 | the hit loop makes each hit a Document with its score |
| SearchChunkers.AcsVectorQueryMethod | 4_accelerators/01-rag-agent/rag-agent-promptflow/ragcore/chunking/search_chunkers/acs_vector_chunker.py:22-60 | the body of the query loop computes the model's result for one query |
| SearchChunkers.AcsVectorChunkResultsMethod | 4_accelerators/01-rag-agent/rag-agent-promptflow/ragcore/chunking/search_chunkers/acs_vector_chunker.py:17-61 | `chunk_results` gives one list per query |
| SearchChunkers.CosmosHitValue | 4_accelerators/01-rag-agent/rag-agent-promptflow/ragcore/chunking/search_chunkers/cosmos_chunker.py:46-56 | the dict of a Cosmos hit holds the seven fields in order |
| SearchChunkers.CosmosResultToDataclassRoundTrip | 4_accelerators/01-rag-agent/rag-agent-promptflow/ragcore/chunking/search_chunkers/cosmos_chunker.py:46-56 | reading a hit's dict back gives the same hit |
| SearchChunkers.CosmosResultToDataclassDefaults | 4_accelerators/01-rag-agent/rag-agent-promptflow/ragcore/chunking/search_chunkers/cosmos_chunker.py:46-56 | the defaults of a missing field: `None`, or "" for title, content and file path; a value that is not a dict cannot be read |
| SearchChunkers.CosmosQueryFacts | 4_accelerators/01-rag-agent/rag-agent-promptflow/ragcore/chunking/search_chunkers/cosmos_chunker.py:13-42 | one query fails exactly when there are hits and no query, with the missing-query message; otherwise every score is present and at most 1.0 |
| SearchChunkers.CosmosQueryFits | 4_accelerators/01-rag-agent/rag-agent-promptflow/ragcore/chunking/search_chunkers/cosmos_chunker.py:20-40 | when every hit fits, the hits come back in order, each with chunk id "0" and score `min(0.2 + sim, 1.0)` |
| SearchChunkers.CosmosDocsMethod | 4_accelerators/01-rag-agent/rag-agent-promptflow/ragcore/chunking/search_chunkers/cosmos_chunker.py:20-23 | each hit becomes a Document with score 1.0 |
| SearchChunkers.CosmosQueryMethod | 4_accelerators/01-rag-agent/rag-agent-promptflow/ragcore/chunking/search_chunkers/cosmos_chunker.py:14-42 | the body of the query loop computes the model's result for one query |
| SearchChunkers.CosmosChunkResultsMethod | 4_accelerators/01-rag-agent/rag-agent-promptflow/ragcore/chunking/search_chunkers/cosmos_chunker.py:9-43 | `chunk_results` gives one list per query |
| SearchChunkers.CreateChunkerFacts | 4_accelerators/01-rag-agent/rag-agent-promptflow/ragcore/chunking/search_chunkers/chunker_factory.py:10-17 | every query type has a chunker on Azure AI Search (the text chunker for simple and semantic, the vector chunker otherwise); Cosmos has one for the vector type only; any other data source or query type gets the invalid-configuration error |
| Flow.TransformRawRetrievalDocFacts | 4_accelerators/01-rag-agent/rag-agent-promptflow/flowUtils.py:13-38 | a raw hit is reshaped exactly when it has `text` and `score` and its metadata source is falsy or a dict (`.get` raises otherwise); text and score are copied; the metadata is empty for a falsy or missing source, and otherwise holds the twelve keys in order, with "" as default for id, title, url and file path and `None` for the rest; `additional_fields` takes precedence over `metadata` whenever the key is present |
| Flow.KeysOfFields | 4_accelerators/01-rag-agent/rag-agent-promptflow/flowUtils.py:24-35 | a mapping written key by key has exactly those keys, in order |
| Flow.Zip | 4_accelerators/01-rag-agent/rag-agent-promptflow/flowUtils.py:5 | `zip` pairs the lists up to the shorter one |
| Flow.TransformQueryFacts | 4_accelerators/01-rag-agent/rag-agent-promptflow/flowUtils.py:6-10 | one query's mapping holds the query and its hits reshaped in order, and exists exactly when every hit can be reshaped |
| Flow.TransformRetrievalResponseFacts | 4_accelerators/01-rag-agent/rag-agent-promptflow/flowUtils.py:3-11 | one mapping per (query, hits) pair, as many as the shorter list, in order; it fails exactly when some pair fails |
| Flow.TransformRetrievalResponseMethod | 4_accelerators/01-rag-agent/rag-agent-promptflow/flowUtils.py:3-11 | the loop computes the model's reshaped responses |
| Flow.ParseAcsResultFacts | 4_accelerators/01-rag-agent/rag-agent-promptflow/ragcore/chunkDocuments.py:22-33 | an Azure AI Search result keeps its query and the number and order of its hits, each read by `result_to_dataclass` |
| Flow.ParseCosmosResultFacts | 4_accelerators/01-rag-agent/rag-agent-promptflow/ragcore/chunkDocuments.py:24-33 | a Cosmos result keeps its query and the number and order of its hits, each read by the Cosmos `result_to_dataclass` |
| Flow.ParseResultsFacts | 4_accelerators/01-rag-agent/rag-agent-promptflow/ragcore/chunkDocuments.py:10-35 | the parsed results match the data source and keep the number and order of the results; any other data source keeps the hits as they are |
| Flow.ParseResultsMethod | 4_accelerators/01-rag-agent/rag-agent-promptflow/ragcore/chunkDocuments.py:17-35 | the loop computes the model's parsed results |
| Flow.ChunkDocumentsCoreFacts | 4_accelerators/01-rag-agent/rag-agent-promptflow/ragcore/chunkDocuments.py:37-54 | a pair with no chunker fails with the factory's error whatever the results hold (the chunker is built before parsing); the chunker built always reads the records parsing produced; the output has one list per result |
| Flow.ChunkDocumentsFacts | 4_accelerators/01-rag-agent/rag-agent-promptflow/.promptflow/lkg_sources/chunkDocuments.py:19-29 | an unknown query-type label is reported before an unknown data-source label; with known labels the factory refuses exactly Cosmos with a query type other than "Vector" |
| Fusion.Contribution | 4_accelerators/01-rag-agent/rag-agent-promptflow/ragcore/filterChunks.py:5-19 | an occurrence at 1-based rank `r` adds `1/(r + 60)`, a positive amount no larger than 1/60 |
| Fusion.Add | 4_accelerators/01-rag-agent/rag-agent-promptflow/ragcore/filterChunks.py:19-20 | storing an occurrence under its key leaves the table one entry longer at most: an existing key keeps its place, a new key goes last |
| Fusion.AddFacts | 4_accelerators/01-rag-agent/rag-agent-promptflow/ragcore/filterChunks.py:18-20 | the stored key's score grows by exactly the contribution and its chunk becomes the new occurrence; every other key keeps its score and chunk; the key order is the old one, with the new key appended when it was absent |
| Fusion.DocOfPresent | 4_accelerators/01-rag-agent/rag-agent-promptflow/ragcore/filterChunks.py:19 | a key is present in the table exactly when a chunk is stored under it |
| Fusion.EntryFound | 4_accelerators/01-rag-agent/rag-agent-promptflow/ragcore/filterChunks.py:19-20 | in a table with distinct keys, looking up an entry's key finds that entry's score and chunk |
| Fusion.AddDistinct | 4_accelerators/01-rag-agent/rag-agent-promptflow/ragcore/filterChunks.py:20 | storing an occurrence never duplicates a key |
| Fusion.Skip | 4_accelerators/01-rag-agent/rag-agent-promptflow/ragcore/filterChunks.py:16-17 | the threshold test raises exactly when `min_score` is truthy and the occurrence has no score |
| Fusion.LastKept | 4_accelerators/01-rag-agent/rag-agent-promptflow/ragcore/filterChunks.py:15-20 | the last surviving occurrence of a key in a list, when there is one, carries that key and comes from the list |
| Fusion.FuseListFails | 4_accelerators/01-rag-agent/rag-agent-promptflow/ragcore/filterChunks.py:14-20 | one list fails exactly when `min_score` is truthy and some occurrence has no score |
| Fusion.FuseListSum | 4_accelerators/01-rag-agent/rag-agent-promptflow/ragcore/filterChunks.py:15-20 | after one list, each key's score has grown by exactly the contributions of its surviving occurrences at their ranks, skipped occurrences still taking a rank |
| Fusion.FuseListDoc | 4_accelerators/01-rag-agent/rag-agent-promptflow/ragcore/filterChunks.py:15-20 | after one list, each key holds its last surviving occurrence in that list, or its old chunk when none survives |
| Fusion.FuseListDistinct | 4_accelerators/01-rag-agent/rag-agent-promptflow/ragcore/filterChunks.py:15-20 | one list keeps the keys of the table distinct |
| Fusion.FuseListsFacts | 4_accelerators/01-rag-agent/rag-agent-promptflow/ragcore/filterChunks.py:11-20 | after all lists, each key's score is its old score plus its contributions over every list, its chunk is its last surviving occurrence over all lists, and the keys stay distinct |
| Fusion.FusedFacts | 4_accelerators/01-rag-agent/rag-agent-promptflow/ragcore/filterChunks.py:6-20 | the fused table holds each key once; a key is present exactly when some occurrence of it survives the threshold, and then its score is the sum of its contributions over all lists and its chunk the last surviving occurrence |
| Fusion.EntryDictPut | 4_accelerators/01-rag-agent/rag-agent-promptflow/ragcore/filterChunks.py:29-30 | an output dict is the chunk's dict with `score` overwritten in place by the fused score; every other field is the chunk's |
| Fusion.EmitCount | 4_accelerators/01-rag-agent/rag-agent-promptflow/ragcore/filterChunks.py:27-33 | the output loop never appends more dicts than there are entries |
| Fusion.Rank | 4_accelerators/01-rag-agent/rag-agent-promptflow/ragcore/filterChunks.py:22 | ranking keeps the number of entries |
| Fusion.RankFacts | 4_accelerators/01-rag-agent/rag-agent-promptflow/ragcore/filterChunks.py:22 | the ranked entries are a permutation of the table, in descending order of fused score, with entries of equal score in their table order (`sorted` is stable) |
| Fusion.RankPermutes | 4_accelerators/01-rag-agent/rag-agent-promptflow/ragcore/filterChunks.py:22 | ranking permutes the table |
| Fusion.RankStable | 4_accelerators/01-rag-agent/rag-agent-promptflow/ragcore/filterChunks.py:22 | the entries with any one fused score keep their table order |
| Fusion.WithKeyItems | 4_accelerators/01-rag-agent/rag-agent-promptflow/ragcore/filterChunks.py:22 | the stable order of equal keys of the sort is the table order of equal fused scores |
| Fusion.Emit | 4_accelerators/01-rag-agent/rag-agent-promptflow/ragcore/filterChunks.py:27-33 | the output has the length the loop with its `break` gives, and dict `i` is that of ranked entry `i` with its fused score |
| Fusion.EmitFacts | 4_accelerators/01-rag-agent/rag-agent-promptflow/ragcore/filterChunks.py:22-33 | at most `top_k` dicts come out, and exactly one when `top_k` is not positive and the table is not empty (the test follows the append); dict `i` is that of ranked entry `i` with its fused score, the ranking is a stable descending permutation of the table, and no entry left out has a higher fused score than one that was output |
| Fusion.SelectChunksCoreFacts | 4_accelerators/01-rag-agent/rag-agent-promptflow/ragcore/filterChunks.py:4-34 | the call fails exactly when the conversion or the fusion fails; otherwise its output is the stable descending ranking of the fused table, cut as `EmitFacts` states |
| Fusion.TwoFirstPlaces | 4_accelerators/01-rag-agent/rag-agent-promptflow/ragcore/filterChunks.py:5-20 | a chunk that tops two lists, with no threshold, ends with fused score 2/61 |
| Fusion.FuseListMethod | 4_accelerators/01-rag-agent/rag-agent-promptflow/ragcore/filterChunks.py:15-20 | the inner loop computes the fusion of one sorted list starting at rank 1, failing on the first occurrence the threshold cannot be compared with |
| Fusion.FuseListsMethod | 4_accelerators/01-rag-agent/rag-agent-promptflow/ragcore/filterChunks.py:11-20 | the outer loop computes the fusion of all lists, each sorted by score first |
| Fusion.SelectChunksCoreMethod | 4_accelerators/01-rag-agent/rag-agent-promptflow/ragcore/filterChunks.py:4-34 | `select_chunks_core` computes the fused, ranked and cut output of `SelectChunksCore` |
| Fusion.EmitMethod | 4_accelerators/01-rag-agent/rag-agent-promptflow/ragcore/filterChunks.py:25-33 | the output loop with its `break` computes `Emit` |
| Formatting.DocEntriesOk | 4_accelerators/01-rag-agent/rag-agent-promptflow/ragcore/formatReplyInputs.py:29-37 | the entries are built exactly when every chunk is a dict with a `content` |
| Formatting.DocEntriesValues | 4_accelerators/01-rag-agent/rag-agent-promptflow/ragcore/formatReplyInputs.py:29-37 | there is one entry per chunk and entry `i` lists chunk `i` under `[doc{i+1}]`, with its title or `''` and its content |
| Formatting.DocEntriesError | 4_accelerators/01-rag-agent/rag-agent-promptflow/ragcore/formatReplyInputs.py:30-34 | a failure comes from the first chunk that cannot be listed: TypeError for a non-dict, KeyError for a missing `content` |
| Formatting.DocEntriesPrefixFailure | 4_accelerators/01-rag-agent/rag-agent-promptflow/ragcore/formatReplyInputs.py:29-37 | once a prefix of the chunks fails, the whole list fails the same way |
| Formatting.DocumentationTextFacts | 4_accelerators/01-rag-agent/rag-agent-promptflow/ragcore/formatReplyInputs.py:26-44 | the documentation fails exactly when some chunk cannot be listed, with the first such chunk's error; otherwise it is the valid-JSON repair of the clipped dump of `{'retrieved_documents': [...]}` whose entry `i` lists chunk `i` |
| Formatting.FirstLabel | 4_accelerators/01-rag-agent/rag-agent-promptflow/ragcore/formatReplyInputs.py:32 | the first chunk is labelled `[doc1]` |
| Formatting.GetDocumentationText | 4_accelerators/01-rag-agent/rag-agent-promptflow/ragcore/formatReplyInputs.py:26-44 | the loop of `get_documentation_text` computes `DocumentationText` |
| Formatting.FormatReplyInputsFacts | 4_accelerators/01-rag-agent/rag-agent-promptflow/ragcore/formatReplyInputs.py:8-24 | the query is clipped to the whole budget, or empty when the budget is 10 or less; the conversation is computed from its own budget; the documentation gets what the query and conversation tokens leave, and is `''` when that is 10 or less; the call fails exactly when an unlistable chunk is read under a larger budget |
| Formatting.ReplyConversationFacts | 4_accelerators/01-rag-agent/rag-agent-promptflow/ragcore/formatReplyInputs.py:14 | the conversation of the reply prompt is the latest messages of the history, oldest first, that fit strictly under its budget, with no limit on the number of turns |
| Formatting.FormatGenerateReplyInputsCore | 4_accelerators/01-rag-agent/rag-agent-promptflow/ragcore/formatReplyInputs.py:8-24 | the step-by-step budget subtraction computes `FormatReplyInputs` |
| Formatting.FormatQueryFacts | 4_accelerators/01-rag-agent/rag-agent-promptflow/ragcore/formatConversationForIntentRewriting.py:17-19 | the formatted question opens with `user:\nCurrent user question:\n`, ends with a blank line and holds the question clipped to 500 tokens in between |
| Formatting.PromptFacts | 4_accelerators/01-rag-agent/rag-agent-promptflow/ragcore/formatConversationForIntentRewriting.py:4-15 | the prompt ends with the question after a blank line; before it stand at most two messages of the history, the latest ones, oldest first, that fit strictly under what the question leaves of the budget |
| Formatting.FormatRewriteIntentInputsFacts | 4_accelerators/01-rag-agent/rag-agent-promptflow/ragcore/formatConversationForIntentRewriting.py:8-19 | `format_rewrite_intent_inputs_core` always ends with the formatted question and keeps at most two of the latest history messages, under the budget the question leaves |
| PageLayout.StoreFind | 4_accelerators/01-rag-agent/ingestion-pipeline/chunk_docs/document_intelligence_reader.py:38-82 | writing a page key maps that page to the new value and leaves every other page alone |
| PageLayout.StorePages | 4_accelerators/01-rag-agent/ingestion-pipeline/chunk_docs/document_intelligence_reader.py:38-82 | writing a page key keeps the key order; a new page goes last |
| PageLayout.StoreDistinct | 4_accelerators/01-rag-agent/ingestion-pipeline/chunk_docs/document_intelligence_reader.py:38-82 | writing a page key never makes a page appear twice |
| PageLayout.FindPresent | 4_accelerators/01-rag-agent/ingestion-pipeline/chunk_docs/document_intelligence_reader.py:38-81 | a page is found exactly when it is one of the keys |
| PageLayout.FiguresAsRegions | 4_accelerators/01-rag-agent/ingestion-pipeline/chunk_docs/document_intelligence_reader.py:34-40 | walking figure by figure and then region by region is walking all their regions in one run |
| PageLayout.AddRegionStep | 4_accelerators/01-rag-agent/ingestion-pipeline/chunk_docs/document_intelligence_reader.py:35-40 | the last region of a run adds its polygon, or `[]` when it has none, to its page's list, and adds nothing when it has no page number |
| PageLayout.AddRegionsStored | 4_accelerators/01-rag-agent/ingestion-pipeline/chunk_docs/document_intelligence_reader.py:35-40 | after the regions, a page holds the polygons it held, then those of its regions in order |
| PageLayout.AddRegionsPresent | 4_accelerators/01-rag-agent/ingestion-pipeline/chunk_docs/document_intelligence_reader.py:37-39 | after the regions, a page is a key exactly when it was one already or some region lies on it |
| PageLayout.AddRegionsNull | 4_accelerators/01-rag-agent/ingestion-pipeline/chunk_docs/document_intelligence_reader.py:37 | a region without a page number stores nothing |
| PageLayout.AddRegionsDistinct | 4_accelerators/01-rag-agent/ingestion-pipeline/chunk_docs/document_intelligence_reader.py:38-39 | the regions never make a page appear twice |
| PageLayout.FigPolygonsByPageFacts | 4_accelerators/01-rag-agent/ingestion-pipeline/chunk_docs/document_intelligence_reader.py:25-44 | `extract_fig_polygons_by_page` groups the polygons of every figure's regions by page, in figure-then-region order; a page is a key exactly when some region lies on it; regions without a page number are dropped; no page appears twice |
| PageLayout.NoFigures | 4_accelerators/01-rag-agent/ingestion-pipeline/chunk_docs/document_intelligence_reader.py:34 | a dict without `figures` gives `{}` |
| PageLayout.ExtractFigPolygonsByPage | 4_accelerators/01-rag-agent/ingestion-pipeline/chunk_docs/document_intelligence_reader.py:25-44 | the nested loops compute `FigPolygonsByPage`, failing where `.get` is called on a non-dict |
| PageLayout.AddPagesFacts | 4_accelerators/01-rag-agent/ingestion-pipeline/chunk_docs/document_intelligence_reader.py:57-64 | after the pages, a page number holds the info of the last page carrying it, since a later page overwrites an earlier one, or else what it held before; no number appears twice |
| PageLayout.PagesInfoFacts | 4_accelerators/01-rag-agent/ingestion-pipeline/chunk_docs/document_intelligence_reader.py:46-68 | `extract_pages_info` keys each numbered page by its number, with the width, height and unit of the last page carrying it; pages without a number are left out; a dict without `pages` gives `{}` |
| PageLayout.NoNullPage | 4_accelerators/01-rag-agent/ingestion-pipeline/chunk_docs/document_intelligence_reader.py:59 | no page is ever stored under `None` |
| PageLayout.PageInfoOfFacts | 4_accelerators/01-rag-agent/src/polygon.py:26-38 | `extract_page_info` succeeds only when every page has all four keys, and then each number holds the info of its last page; a missing `analyzeResult`, or an `analyzeResult` dict without `pages`, gives `{}` |
| PageLayout.AddPagesReads | 4_accelerators/01-rag-agent/src/polygon.py:31-37 | a run that succeeds has read every page |
| PageLayout.AddPagesMethod | 4_accelerators/01-rag-agent/ingestion-pipeline/chunk_docs/document_intelligence_reader.py:57-64 | the loop shared by both page readers computes `AddPages` |
| PageLayout.AddPagesPrefixFailure | 4_accelerators/01-rag-agent/ingestion-pipeline/chunk_docs/document_intelligence_reader.py:57-64 | once a prefix of the pages fails, the whole run fails with the same error |
| PageLayout.PagesOfSnoc | 4_accelerators/01-rag-agent/ingestion-pipeline/chunk_docs/document_intelligence_reader.py:80 | the keys of a dict with one more slot are the old keys, then the new one |
| PageLayout.CombinePages | 4_accelerators/01-rag-agent/ingestion-pipeline/chunk_docs/document_intelligence_reader.py:79-82 | the combined keys are the pages that have both polygons and info, in the order of the polygon dict |
| PageLayout.CombineFind | 4_accelerators/01-rag-agent/ingestion-pipeline/chunk_docs/document_intelligence_reader.py:81-87 | each combined entry copies the page's width, height and unit and its polygon list; a page missing from either input has no entry |
| PageLayout.CombineFacts | 4_accelerators/01-rag-agent/ingestion-pipeline/chunk_docs/document_intelligence_reader.py:70-88 | `combine_page_info_and_polygons` has the keys `CombinePages` gives and the entries `CombineFind` gives |
| PageLayout.FindSnoc | 4_accelerators/01-rag-agent/ingestion-pipeline/chunk_docs/document_intelligence_reader.py:80-82 | in a dict whose pages are distinct, the last slot answers for its own page only |
| PageLayout.CombinePageInfoAndPolygons | 4_accelerators/01-rag-agent/ingestion-pipeline/chunk_docs/document_intelligence_reader.py:79-88 | the loop computes `Combine` |
| PageLayout.CreateFigures | 4_accelerators/01-rag-agent/src/polygon.py:8-10 | `create_figures` succeeds exactly when `analyzeResult` and its `figures` are present, and then returns those figures |
| PageLayout.FigureStep | 4_accelerators/01-rag-agent/src/polygon.py:17-22 | one figure adds one entry per bounding region, each holding the region's `pageNumber` and `polygon`, read by indexing |
| PageLayout.FigureEntriesFacts | 4_accelerators/01-rag-agent/src/polygon.py:13-24 | `extract_page_polygons` has one entry per bounding region over all figures, in order, each with the region's page number and polygon |
| PageLayout.ExtractPagePolygons | 4_accelerators/01-rag-agent/src/polygon.py:13-24 | the nested loops compute `PagePolygons` |
| Ingestion.DropEmpty | 4_accelerators/01-rag-agent/ingestion-pipeline/chunk_docs/chunk_docs.py:94 | the filter keeps only non-empty pieces, each one of the input pieces |
| Ingestion.DropEmptyConcat | 4_accelerators/01-rag-agent/ingestion-pipeline/chunk_docs/chunk_docs.py:94 | dropping the empty pieces loses no text |
| Ingestion.RawSectionsFacts | 4_accelerators/01-rag-agent/ingestion-pipeline/chunk_docs/chunk_docs.py:93-94 | the raw sections are non-empty, contain no `## ` marker, and together hold all the markdown's text outside the markers, in order |
| Ingestion.SplitTitle | 4_accelerators/01-rag-agent/ingestion-pipeline/chunk_docs/chunk_docs.py:98-103 | splitting at the first line break succeeds exactly when the section has one; the title is the text before it, and the rebuilt content is the whole raw section |
| Ingestion.SplitTitleFirstLine | 4_accelerators/01-rag-agent/ingestion-pipeline/chunk_docs/chunk_docs.py:99-100 | the title holds no line break, and the raw section starts with the title and a line break |
| Ingestion.LineEnd | 4_accelerators/01-rag-agent/ingestion-pipeline/chunk_docs/chunk_docs.py:99 | the index of the first line break, or the length when there is none |
| Ingestion.SubSections | 4_accelerators/01-rag-agent/ingestion-pipeline/chunk_docs/chunk_docs.py:104-114 | a section no longer than the limit is its own single sub-chunk; a longer one becomes the chunker's pieces, each under the section's title |
| Ingestion.ChunkRecord | 4_accelerators/01-rag-agent/ingestion-pipeline/chunk_docs/speech_transcription.py:256-267 | a record has as id the md5 of `"{name}_{type}_{index}"`, the document name as file path and url, the given title and content, and no vector |
| Ingestion.BuildChunk | 4_accelerators/01-rag-agent/ingestion-pipeline/chunk_docs/chunk_docs.py:69-81 | the chunk_docs record is the same, with the content's embedding as vector |
| Ingestion.NumberedSnoc | 4_accelerators/01-rag-agent/ingestion-pipeline/chunk_docs/chunk_docs.py:115-125 | one more sub-chunk gives one more chunk, numbered after the others |
| Ingestion.NumberedFacts | 4_accelerators/01-rag-agent/ingestion-pipeline/chunk_docs/chunk_docs.py:115-125 | chunk `i` is built from sub-chunk `i` with chunk index `i` and type `text` |
| Ingestion.TextSectionsFail | 4_accelerators/01-rag-agent/ingestion-pipeline/chunk_docs/chunk_docs.py:97-103 | the sections fail exactly when some raw section has no line break, and then with the splitting error |
| Ingestion.TextSectionsShort | 4_accelerators/01-rag-agent/ingestion-pipeline/chunk_docs/chunk_docs.py:97-114 | when no section is longer than the limit, there is one sub-chunk per raw section, its content the raw section and its title the first line |
| Ingestion.TextSectionsTitles | 4_accelerators/01-rag-agent/ingestion-pipeline/chunk_docs/chunk_docs.py:99-114 | every sub-chunk carries the title of some raw section |
| Ingestion.TextSectionsPrefixFailure | 4_accelerators/01-rag-agent/ingestion-pipeline/chunk_docs/chunk_docs.py:97-103 | once a prefix of the sections fails, the whole run fails |
| Ingestion.ChunksFromMarkdownFacts | 4_accelerators/01-rag-agent/ingestion-pipeline/chunk_docs/chunk_docs.py:91-126 | chunk_docs' `generate_chunks_from_markdown` raises exactly when some raw section has no line break; otherwise chunk `i` is built from sub-chunk `i` with index `i`, one chunk per sub-chunk, in section order |
| Ingestion.SubSectionsMethod | 4_accelerators/01-rag-agent/ingestion-pipeline/chunk_docs/chunk_docs.py:104-114 | the loop that appends sub-chunks computes `SubSections` |
| Ingestion.AppendChunks | 4_accelerators/01-rag-agent/ingestion-pipeline/chunk_docs/chunk_docs.py:115-125 | the inner loop extends the numbered chunks by one chunk per sub-chunk and advances the running index by their number |
| Ingestion.GenerateChunksFromMarkdown | 4_accelerators/01-rag-agent/ingestion-pipeline/chunk_docs/chunk_docs.py:91-126 | the loops with their running `chunk_index` compute `ChunksFromMarkdown` |
| Ingestion.JsonSection | 4_accelerators/01-rag-agent/ingestion-pipeline/json2idx/json2idx.py:73-78 | the content of a json2idx section is always the raw section |
| Ingestion.JsonSectionFacts | 4_accelerators/01-rag-agent/ingestion-pipeline/json2idx/json2idx.py:73-78 | without a line break the title is empty; with one the section is split as in chunk_docs and the title holds no line break |
| Ingestion.JsonSectionsShort | 4_accelerators/01-rag-agent/ingestion-pipeline/json2idx/json2idx.py:68-85 | without long sections there is one chunk per raw section, in order, whose content is the raw section |
| Ingestion.JsonSectionsAppend | 4_accelerators/01-rag-agent/ingestion-pipeline/json2idx/json2idx.py:72-84 | sections are handled independently and in order: the chunks of two runs of sections are the chunks of the first, then those of the second |
| Ingestion.JsonSectionsOne | 4_accelerators/01-rag-agent/ingestion-pipeline/json2idx/json2idx.py:79-84 | one section gives itself when short, and the chunker's pieces under its title when long |
| Ingestion.GenerateJsonChunks | 4_accelerators/01-rag-agent/ingestion-pipeline/json2idx/json2idx.py:68-85 | the loop of json2idx's `generate_chunks_from_markdown` computes `JsonChunksFromMarkdown` |
| Ingestion.SttChunksFacts | 4_accelerators/01-rag-agent/ingestion-pipeline/chunk_docs/speech_transcription.py:270-323 | a short transcript is one chunk holding all of it, and a long one gives one chunk per piece; every chunk is titled, filed and addressed by the file's base name, has as id the md5 of `"{name}_audio_{i}"`, and has no vector |
| Ingestion.GenerateChunksFromStt | 4_accelerators/01-rag-agent/ingestion-pipeline/chunk_docs/speech_transcription.py:270-323 | the two loops of `generate_chunks_from_stt` compute `SttChunks` |
| Ingestion.CheckFileFacts | 4_accelerators/01-rag-agent/ingestion-pipeline/chunk_docs/speech_transcription.py:205-218 | a file is valid exactly when its lower-cased extension is allowed and its size is at most 24.99 MB; a disallowed extension is reported whatever the size, and an allowed one that is too big gets the size message |
| Ingestion.BoundingBoxShape | 4_accelerators/01-rag-agent/ingestion-pipeline/chunk_docs/chunk_docs.py:182-215 | an odd count of four or more coordinates raises; otherwise the box has eight entries |
| Ingestion.BoundingBoxPadded | 4_accelerators/01-rag-agent/ingestion-pipeline/chunk_docs/chunk_docs.py:210-215 | fewer than four coordinates are kept and padded with `None` to eight |
| Ingestion.BoundingBoxEncloses | 4_accelerators/01-rag-agent/ingestion-pipeline/chunk_docs/chunk_docs.py:184-204 | with four or more coordinates the box is `[minx, miny, maxx, miny, maxx, maxy, minx, maxy]` and every point lies inside it |
| Ingestion.BoundingBoxTight | 4_accelerators/01-rag-agent/ingestion-pipeline/chunk_docs/chunk_docs.py:188-191 | each bound of the box is a coordinate of some point |
| SmartAgent.UserCount | 4_accelerators/02-code-generation-agent/natural_language_query/src/agents/smart_agent.py:41-44 | the number of messages whose role is `user`, never more than the number of messages |
| SmartAgent.DetailNeverRemoves | 4_accelerators/02-code-generation-agent/natural_language_query/src/agents/smart_agent.py:45-47 | the inner `max_q_with_detail_hist` condition needs a message that is a user message and not one at once, so it never removes anything |
| SmartAgent.CleanUpHistoryFacts | 4_accelerators/02-code-generation-agent/natural_language_query/src/agents/smart_agent.py:38-51 | an empty history stays empty; otherwise the first message and the longest tail with fewer than `max_q_to_keep` user messages are kept and every message between them is deleted, the indices collected from the end down; every deleted position has at least `max_q_to_keep` user messages from it on, and with a positive limit the last one deleted is the `max_q_to_keep`-th most recent user message |
| SmartAgent.CleanUpHistorySucceeds | 4_accelerators/02-code-generation-agent/natural_language_query/src/agents/smart_agent.py:50-51 | each index is still in range when `del history[index]` reaches it, so the deletions never raise |
| SmartAgent.CutStops | 4_accelerators/02-code-generation-agent/natural_language_query/src/agents/smart_agent.py:41-49 | once fewer than `max_q_to_keep` user messages remain behind a position, no later position is collected |
| SmartAgent.RemovalsAreCut | 4_accelerators/02-code-generation-agent/natural_language_query/src/agents/smart_agent.py:41-49 | the collected indices are exactly the positions before the cut, in descending order |
| SmartAgent.DeleteDesc | 4_accelerators/02-code-generation-agent/natural_language_query/src/agents/smart_agent.py:50-51 | deleting a run of indices from the highest down removes exactly that range and keeps the rest in order |
| SmartAgent.CutBefore | 4_accelerators/02-code-generation-agent/natural_language_query/src/agents/smart_agent.py:48-49 | every position before the cut has at least `max_q_to_keep` user messages from it on, and the cut itself has fewer |
| SmartAgent.CollectRemovals | 4_accelerators/02-code-generation-agent/natural_language_query/src/agents/smart_agent.py:39-49 | the first loop collects the same indices as the specification of the removals |
| SmartAgent.History.constructor | 4_accelerators/02-code-generation-agent/natural_language_query/src/agents/smart_agent.py:38 | the shared conversation list holds the given messages |
| SmartAgent.History.CleanUpHistory | 4_accelerators/02-code-generation-agent/natural_language_query/src/agents/smart_agent.py:38-51 | the conversation list is replaced, in place, by the cleaned history |
| SmartAgent.ResetFacts | 4_accelerators/02-code-generation-agent/natural_language_query/src/agents/smart_agent.py:53-58 | the result is a prefix of the history that is empty or ends with a user message, and every message dropped is not a user message |
| SmartAgent.ResetIdempotent | 4_accelerators/02-code-generation-agent/natural_language_query/src/agents/smart_agent.py:53-58 | resetting twice is resetting once; a history whose last message is a user message is left alone |
| SmartAgent.History.ResetHistoryToLastQuestion | 4_accelerators/02-code-generation-agent/natural_language_query/src/agents/smart_agent.py:53-58 | the conversation list becomes the reset history, popped in place |
| SmartAgent.TransformToolFacts | 4_accelerators/02-code-generation-agent/natural_language_query/src/agents/smart_agent.py:163-171 | a tool without a name or description raises; otherwise the spec is typed `"function"` and carries the tool's name, description and parameters, `{}` when it has none |
| SmartAgent.TransformToolsFacts | 4_accelerators/02-code-generation-agent/natural_language_query/src/agents/smart_agent.py:161-173 | `transform_tools` raises exactly when some tool lacks a name or a description; otherwise one spec per tool, in order, each carrying that tool's name, description and parameters |
| SmartAgent.TransformToolsMethod | 4_accelerators/02-code-generation-agent/natural_language_query/src/agents/smart_agent.py:161-173 | the loop returns what the specification of `transform_tools` returns, including its first failure |
| SmartAgent.SwitchPersonaFacts | 4_accelerators/02-code-generation-agent/natural_language_query/src/agents/smart_agent.py:212-223 | a similar question makes coder2 active with the question appended to its persona in the first message; without one, coder1 stays active or is made active again with its own persona, any other agent index is left alone; only the first message ever changes, and an empty conversation raises exactly when the first message would be replaced |
| SmartAgent.Orchestrator.constructor | 4_accelerators/02-code-generation-agent/natural_language_query/src/agents/smart_agent.py:184-210 | the orchestrator holds the two personas, the shared conversation and the active agent index |
| SmartAgent.Orchestrator.SwitchPersonaMethod | 4_accelerators/02-code-generation-agent/natural_language_query/src/agents/smart_agent.py:212-223 | the shared conversation object stays the same list; its messages and the active agent become those of the specification, or stay unchanged when it raises |
| Analytics.CodeFoundIff | 4_accelerators/03-multi-domain-agents/automating_analytics/src/base_tool.py:26-28 | the loop over the extracted outputs returns true exactly when some output has a non-empty `python` or `request_to_data_engineer` entry |
| Analytics.CodeEntries | 4_accelerators/03-multi-domain-agents/automating_analytics/src/base_tool.py:75-76 | one `{"python", "comment"}` entry per code block, in order, pairing the block with the comment found before it |
| Analytics.ValidateOutputIff | 4_accelerators/03-multi-domain-agents/automating_analytics/src/base_tool.py:22-33 | an output is valid exactly when it contains `Final Answer:`, some extracted output carries code or a data request, or it is the `OPENAI_ERROR` marker |
| Analytics.SplitTwoPieces | 4_accelerators/03-multi-domain-agents/automating_analytics/src/base_tool.py:62-64 | `split(sep)` has a second piece exactly when the separator occurs; then the text starts with the first piece, the separator and the second piece, and neither piece holds the separator |
| Analytics.FirstPieceIsPrefix | 4_accelerators/03-multi-domain-agents/automating_analytics/src/base_tool.py:62 | the text before a code block is a prefix of the remaining input |
| Analytics.CommentStepFacts | 4_accelerators/03-multi-domain-agents/automating_analytics/src/base_tool.py:61-64 | one code block raises exactly when its fence is absent from the remaining input; otherwise the comments so far are kept, one comment is added, and the remaining input is that comment, the fence and the new remainder, in order |
| Analytics.ExtractCodeAndCommentFacts | 4_accelerators/03-multi-domain-agents/automating_analytics/src/base_tool.py:56-65 | on success there is one comment per code block |
| Analytics.ExtractCodeAndCommentSnoc | 4_accelerators/03-multi-domain-agents/automating_analytics/src/base_tool.py:60-64 | one more code block succeeds exactly when the blocks before it did and its fence occurs in what they left; the earlier comments are kept and the new comment and remainder are cut from that input around the fence |
| Analytics.ExtractCodeAndCommentMethod | 4_accelerators/03-multi-domain-agents/automating_analytics/src/base_tool.py:56-65 | the loop returns what the specification returns, including the `IndexError` of a missing fence |
| Analytics.PatternOutputsFacts | 4_accelerators/03-multi-domain-agents/automating_analytics/src/base_tool.py:69-81 | a `python` pattern gives one `{python, comment}` entry per code block, in order, then one `{text_after}` entry, and raises exactly when the code-and-comment extraction does; a data-engineer pattern gives its first match or nothing; any other pattern gives nothing |
| Analytics.ExtractOutputAppend | 4_accelerators/03-multi-domain-agents/automating_analytics/src/base_tool.py:66-83 | the outputs of the patterns are concatenated in the patterns' order, and the whole succeeds exactly when each pattern does |
| Analytics.ExtractOutputPrefixFailure | 4_accelerators/03-multi-domain-agents/automating_analytics/src/base_tool.py:69-83 | the first pattern that raises decides the error of `extract_output` |
| Analytics.ExtractOutputMethod | 4_accelerators/03-multi-domain-agents/automating_analytics/src/base_tool.py:66-83 | the loop returns what the specification of `extract_output` returns |
| Analytics.GroupRowsRuns | 4_accelerators/03-multi-domain-agents/automating_analytics/src/base_tool.py:191-214 | with every table named, after some rows the emitted lines are those of all maximal runs of same-table rows but the last, and the current table and columns are that last run |
| Analytics.AddCellMaximal | 4_accelerators/03-multi-domain-agents/automating_analytics/src/base_tool.py:206-214 | adding a row keeps the runs non-empty with neighbouring runs of different tables |
| Analytics.RunsFacts | 4_accelerators/03-multi-domain-agents/automating_analytics/src/base_tool.py:191-214 | the runs are maximal and together hold every column in row order |
| Analytics.TableSchemaFacts | 4_accelerators/03-multi-domain-agents/automating_analytics/src/base_tool.py:185-219 | with every table named, the schema has one `table: …, columns: …` line per maximal run, joined by `"\n "`; with no rows it is the single line `table: , columns: ` |
| Analytics.GetTableSchema | 4_accelerators/03-multi-domain-agents/automating_analytics/src/base_tool.py:185-219 | the row loop, with its bracketing of names that hold a space, returns the specified schema text |
| CellReduction.TruncateListFacts | 4_accelerators/02-code-generation-agent/natural_language_query/src/api/python_service.py:94-101 | `truncate_list` keeps the first `max_list_length` items, each truncated in turn; items that are neither lists nor dicts are kept as they are |
| CellReduction.TruncateDictFacts | 4_accelerators/02-code-generation-agent/natural_language_query/src/api/python_service.py:103-109 | `truncate_dict` keeps the keys in their order and truncates every value |
| CellReduction.TruncatedBounded | 4_accelerators/02-code-generation-agent/natural_language_query/src/api/python_service.py:94-109 | after truncation no list at any depth holds more than `max_list_length` items |
| CellReduction.TruncatedBoundedUnchanged | 4_accelerators/02-code-generation-agent/natural_language_query/src/api/python_service.py:94-109 | a value whose lists are all within the limit is left unchanged |
| CellReduction.TruncatedIdempotent | 4_accelerators/02-code-generation-agent/natural_language_query/src/api/python_service.py:94-109 | truncating twice is truncating once |
| CellReduction.TruncateListMethod | 4_accelerators/02-code-generation-agent/natural_language_query/src/api/python_service.py:94-101 | the slice-then-overwrite loop returns the specified truncated list |
| CellReduction.Dict.constructor | 4_accelerators/02-code-generation-agent/natural_language_query/src/api/python_service.py:103 | a dict holding the given fields |
| CellReduction.Dict.Truncate | 4_accelerators/02-code-generation-agent/natural_language_query/src/api/python_service.py:103-109 | the loop rewrites the dict in place to its truncation and returns the same dict object |
| CellReduction.ReduceCellFacts | 4_accelerators/02-code-generation-agent/natural_language_query/src/api/python_service.py:85-92 | a cell that is not a JSON string gives a prefix of its `str()` at most `max_str_length` long; a JSON list gives the serialisation of a list of at most `max_list_length` items with every nested list bounded too; any other JSON value is re-serialised as parsed |
| CellReduction.ReduceObjectCell | 4_accelerators/02-code-generation-agent/natural_language_query/src/api/python_service.py:74-83 | an object column's cell reduced with the limits 100 and 3 is at most 100 characters when not JSON, and a JSON list of at most 3 items when it is a JSON list |
| Migration.CreateOrUpdatePlan | demos/smart_agents/code_migration_assistant/ai_assistant/agents.py:22-23 | the plan is returned as given, so the tool's result is exactly the model's plan |
| Migration.StripNewline | demos/smart_agents/code_migration_assistant/ai_assistant/agents.py:43 | a stripped text followed by a newline strips back to itself |
| Migration.HeadingAfter | demos/smart_agents/code_migration_assistant/ai_assistant/agents.py:43 | a plan heading written after heading-free text and a newline is the first heading |
| Migration.StripNoHeading | demos/smart_agents/code_migration_assistant/ai_assistant/agents.py:41-43 | stripping text before the first heading cannot create a heading in it |
| Migration.UpdatedHeadingAt | demos/smart_agents/code_migration_assistant/ai_assistant/agents.py:33-45 | in an updated plan the first heading sits right after the stripped text before the old heading and a newline |
| Migration.UpdateMigrationPlanFacts | demos/smart_agents/code_migration_assistant/ai_assistant/agents.py:24-45 | content without `## Migration Plan:` is returned unchanged; otherwise the text before the first heading is kept up to outer whitespace, and everything from that heading on becomes the heading line and the stripped new plan |
| Migration.UpdateMigrationPlanIdempotent | demos/smart_agents/code_migration_assistant/ai_assistant/agents.py:24-45 | updating twice with the same new plan is updating once |
| Migration.ArgsKnownIff | demos/smart_agents/code_migration_assistant/ai_assistant/agents.py:71-73 | the first loop passes exactly when every argument names a parameter |
| Migration.RequiredGivenIff | demos/smart_agents/code_migration_assistant/ai_assistant/agents.py:75-77 | the second loop passes exactly when every parameter without a default is among the arguments |
| Migration.CheckArgsIff | demos/smart_agents/code_migration_assistant/ai_assistant/agents.py:66-79 | `check_args` holds exactly when every argument names a parameter and every parameter without a default is given |
| Cleanup.CleanupContentIsClean | 4_accelerators/01-rag-agent/rag-agent-promptflow/ragcore/parsers/text_utils.py:8-19 | after `cleanup_content` of the parsers no run of newlines is longer than 2, no run of other whitespace longer than 2, no run of dashes longer than 3, and the text has no outer whitespace |
| Cleanup.CleanupContentFixesClean | 4_accelerators/01-rag-agent/rag-agent-promptflow/ragcore/parsers/text_utils.py:15-19 | text that is already clean in that sense is returned unchanged |
| Cleanup.CleanupContentNoTripleNewline | 4_accelerators/01-rag-agent/rag-agent-promptflow/ragcore/parsers/text_utils.py:15 | no three consecutive newlines survive |
| Cleanup.CleanupContentIdempotent | 4_accelerators/01-rag-agent/rag-agent-promptflow/ragcore/parsers/text_utils.py:8-19 | cleaning twice is cleaning once |
| Cleanup.CleanupContentCompactIsCompact | 4_accelerators/01-rag-agent/rag-agent-promptflow/ragcore/utils.py:151-155 | after `cleanup_content` of `ragcore/utils.py` newlines and other whitespace come singly, dash runs are at most 2 long, and there is no outer whitespace |
| Cleanup.CleanupContentCompactFixesCompact | 4_accelerators/01-rag-agent/rag-agent-promptflow/ragcore/utils.py:152-155 | text that is already compact in that sense is returned unchanged |
| Cleanup.CleanupContentCompactIdempotent | 4_accelerators/01-rag-agent/rag-agent-promptflow/ragcore/utils.py:151-155 | cleaning twice is cleaning once |
| Cleanup.CollapseBoundsRuns | 4_accelerators/01-rag-agent/rag-agent-promptflow/ragcore/parsers/text_utils.py:15-17 | replacing every run of `n` or more characters of a class by a replacement of such characters leaves no run longer than `n - 1` or the replacement's length |
| Cleanup.CollapseKeepsRuns | 4_accelerators/01-rag-agent/rag-agent-promptflow/ragcore/parsers/text_utils.py:15-17 | a later substitution on a disjoint character class keeps the run bound an earlier one established |
| Cleanup.CollapseShortRunsUnchanged | 4_accelerators/01-rag-agent/rag-agent-promptflow/ragcore/parsers/text_utils.py:15-16 | a substitution with nothing to match leaves the text unchanged |
| Cleanup.CollapseExactRunsUnchanged | 4_accelerators/01-rag-agent/rag-agent-promptflow/ragcore/parsers/text_utils.py:17 | `-{3,}` replaced by `---` leaves text whose dash runs are at most 3 long unchanged |
| RagUtils.QueryTypeMapFacts | 4_accelerators/01-rag-agent/rag-agent-promptflow/ragcore/utils.py:16-22 | every label of `query_type_map` parses as a query type, and every query type has a label |
| RagUtils.QueryTypeMapInjective | 4_accelerators/01-rag-agent/rag-agent-promptflow/ragcore/utils.py:16-22 | no two labels name the same query type |
| RagUtils.DataSourceMapFacts | 4_accelerators/01-rag-agent/rag-agent-promptflow/ragcore/utils.py:24-27 | every label of `data_source_map` parses as a data source, every data source has a label, and no two labels name the same source |
| RagUtils.ConvertEscapedToPosixFacts | 4_accelerators/01-rag-agent/rag-agent-promptflow/ragcore/utils.py:309-312 | the converted path holds no backslash, and a path without backslashes comes back unchanged |
| RagUtils.StripQuotesSymmetric | 4_accelerators/01-rag-agent/rag-agent-promptflow/ragcore/utils.py:107-110 | the loop returns the specified stripping |
| RagUtils.StripQuotesFacts | 4_accelerators/01-rag-agent/rag-agent-promptflow/ragcore/utils.py:107-110 | the result is the text with `k` characters removed from each end, all of them quotes (not necessarily matching); it no longer has a quote at both ends, so stripping again changes nothing |
| RagUtils.EstimateMessageTokens | 4_accelerators/01-rag-agent/rag-agent-promptflow/ragcore/utils.py:318-333 | the nested loop counts four per message, each value's tokens, minus one per `name` key, plus three |
| RagUtils.ItemTokensSplit | 4_accelerators/01-rag-agent/rag-agent-promptflow/ragcore/utils.py:328-331 | a message costs its values' tokens less one per `name` key, and a dict has at most one `name` key |
| RagUtils.ListTokensFacts | 4_accelerators/01-rag-agent/rag-agent-promptflow/ragcore/utils.py:323-333 | with distinct keys each message adds at least three tokens to a base of three; without `name` keys, at least four |
| RagUtils.MakeValidJsonLoop | 4_accelerators/01-rag-agent/rag-agent-promptflow/ragcore/utils.py:76-105 | the stack loop, the backslash drop and the closing loop return the specified repair |
| RagUtils.SkipString | 4_accelerators/01-rag-agent/rag-agent-promptflow/ragcore/utils.py:86-93 | an opened string is scanned to its first unescaped quote, whose `"` is popped, or to the end, where it stays owed |
| RagUtils.PendingFacts | 4_accelerators/01-rag-agent/rag-agent-promptflow/ragcore/utils.py:78-96 | only closers are ever owed, and an owed `"` can only be the last thing owed |
| RagUtils.MakeValidJsonFacts | 4_accelerators/01-rag-agent/rag-agent-promptflow/ragcore/utils.py:76-105 | the repair keeps the text but a trailing backslash and only appends closers, an unterminated string's quote first; it is the input itself exactly when nothing is owed and the text does not end in a backslash |
| RagUtils.MakeValidJsonExample | 4_accelerators/01-rag-agent/rag-agent-promptflow/ragcore/utils.py:76-105 | a reply cut inside a string inside a list inside an object is closed string, list, object in that order |
| RagUtils.GetConversationText | 4_accelerators/01-rag-agent/rag-agent-promptflow/ragcore/utils.py:130-149 | the reverse walk over the turns, with its token budget and turn limit, returns the specified conversation text |
| RagUtils.WalkPair | 4_accelerators/01-rag-agent/rag-agent-promptflow/ragcore/utils.py:134-148 | each turn, newest first, supplies its reply and then its query to the walk |
| RagUtils.TakeStep | 4_accelerators/01-rag-agent/rag-agent-promptflow/ragcore/utils.py:137-148 | each message's cost is subtracted before the limit check, and the check decides whether it is prepended |
| RagUtils.TakenFacts | 4_accelerators/01-rag-agent/rag-agent-promptflow/ragcore/utils.py:139-148 | the walk keeps every prefix that fits and stops only at its end or at a message that would break a limit |
| RagUtils.ConversationFacts | 4_accelerators/01-rag-agent/rag-agent-promptflow/ragcore/utils.py:130-149 | the text is the stripped concatenation of the `k` latest messages, oldest first; they leave budget over, number at most `max_turns` when that is positive, and one more message would break one of the two limits |
| RagUtils.PrependedOrder | 4_accelerators/01-rag-agent/rag-agent-promptflow/ragcore/utils.py:141-148 | the message taken last leads the text |
| RagUtils.ExtractIntentsFromStrArray | 4_accelerators/01-rag-agent/rag-agent-promptflow/ragcore/utils.py:256-307 | the index loops return the specified intents |
| RagUtils.SkipToIntent | 4_accelerators/01-rag-agent/rag-agent-promptflow/ragcore/utils.py:273-283 | the skipping loop stops at the first character that is not skippable and notes whether a single quote was skipped |
| RagUtils.ReadIntent | 4_accelerators/01-rag-agent/rag-agent-promptflow/ragcore/utils.py:295-300 | the reading loop stops at the intent's quote, a comma or a bracket, leaving backslashes out |
| RagUtils.IntentsFromStep | 4_accelerators/01-rag-agent/rag-agent-promptflow/ragcore/utils.py:268-305 | one round of the outer loop adds the stripped intent, if not empty, and continues from where it stopped |
| RagUtils.IntentEndFacts | 4_accelerators/01-rag-agent/rag-agent-promptflow/ragcore/utils.py:296 | no character before the intent's end ends it |
| RagUtils.StripPadFacts | 4_accelerators/01-rag-agent/rag-agent-promptflow/ragcore/utils.py:305 | stripping quotes and spaces from an intent that starts with a letter leaves a well-formed intent |
| RagUtils.IntentsFromFacts | 4_accelerators/01-rag-agent/rag-agent-promptflow/ragcore/utils.py:268-305 | every intent read is not empty, has no quote or space at either end, and holds no comma, bracket or backslash |
| RagUtils.ExtractIntentsFacts | 4_accelerators/01-rag-agent/rag-agent-promptflow/ragcore/utils.py:256-307 | text without `[` gives no intents, and every intent returned is well formed |
| RagUtils.ExtractIntentsExample | 4_accelerators/01-rag-agent/rag-agent-promptflow/ragcore/utils.py:256-307 | `["a", 'b c']` gives the intents `a` and `b c` |
| Documents.EqualsLaws | 4_accelerators/01-rag-agent/rag-agent-promptflow/ragcore/datamodels/document.py:30-34 | `__eq__` is reflexive, symmetric and transitive on Documents, ignores chunk id, score, url and metadata, and is false against any object that is not a Document |
| Documents.ToDict | 4_accelerators/01-rag-agent/rag-agent-promptflow/ragcore/datamodels/datamodels_utils.py:5-6 | `dataclass_to_dict` gives one entry per field, in declaration order, with the content under `content` |
| Documents.FromDict | 4_accelerators/01-rag-agent/rag-agent-promptflow/ragcore/datamodels/datamodels_utils.py:12 | `Document(**d)` raises on a key that names no field and on a missing `content`; on success the content is the dict's `content` |
| Documents.FromDictToDict | 4_accelerators/01-rag-agent/rag-agent-promptflow/ragcore/datamodels/datamodels_utils.py:5-12 | converting a Document to a dict and back with `Document(**d)` gives the same Document |
| Documents.ToDictLookups | 4_accelerators/01-rag-agent/rag-agent-promptflow/ragcore/datamodels/datamodels_utils.py:5-6 | every key of the dict names a field, and each field's value is stored under its name |
| Documents.FieldValuesInverse | 4_accelerators/01-rag-agent/rag-agent-promptflow/ragcore/datamodels/document.py:17-27 | reading each optional field back from its dict value gives the field |
| Documents.ConvertAll | 4_accelerators/01-rag-agent/rag-agent-promptflow/ragcore/datamodels/datamodels_utils.py:12 | the comprehension succeeds exactly when every dict is a valid Document, and then gives one Document per dict, in order |
| Documents.ResultsListToDocsList | 4_accelerators/01-rag-agent/rag-agent-promptflow/ragcore/datamodels/datamodels_utils.py:8-13 | the loop returns the specified conversion, stopping at the first list that raises |
| Documents.ConvertListsFailurePersists | 4_accelerators/01-rag-agent/rag-agent-promptflow/ragcore/datamodels/datamodels_utils.py:11-12 | once a list raises, the whole conversion raises with the same error |
| Documents.ConvertListsSucceeds | 4_accelerators/01-rag-agent/rag-agent-promptflow/ragcore/datamodels/datamodels_utils.py:8-13 | `results_list_to_docs_list` succeeds exactly when every dict of every list is a valid Document |
| Documents.ConvertListsConverts | 4_accelerators/01-rag-agent/rag-agent-promptflow/ragcore/datamodels/datamodels_utils.py:8-13 | on success the result has the shape of the input and holds, at each position, the Document of that dict |
| Documents.NewSearchResult | 4_accelerators/01-rag-agent/rag-agent-promptflow/ragcore/datamodels/search_result.py:14-34 | `top_k` and `query` are kept; a given latency is kept, and a missing one becomes the default latency, `-1.0` for both `tpromptLatency` and `vectorSearchLatency` |
| Documents.ParseQueryType | 4_accelerators/01-rag-agent/rag-agent-promptflow/ragcore/datamodels/enums.py:3-8 | `QueryType(value)` succeeds exactly when some member has that value, and then gives the member whose value it is; otherwise it raises ValueError |
| Documents.ParseDataSource | 4_accelerators/01-rag-agent/rag-agent-promptflow/ragcore/datamodels/enums.py:10-12 | `DataSourceType(value)` succeeds exactly when the value is `acs` or `cosmos`, and then gives that member; otherwise it raises ValueError |
| Parsing.FirstIndexUnique | 4_accelerators/01-rag-agent/rag-agent-promptflow/ragcore/parsers/parsers.py:91-94 | a loop that stops at the first line with a property finds that line and no other |
| Parsing.GetFirstLineWithProperty | 4_accelerators/01-rag-agent/rag-agent-promptflow/ragcore/parsers/parsers.py:97-105 | the loop returns the stripped rest of the first line starting with the property, or `None` |
| Parsing.GetFirstAlnumLine | 4_accelerators/01-rag-agent/rag-agent-promptflow/ragcore/parsers/parsers.py:89-95 | the loop, with its inner scan of the line's characters, returns the first line holding a letter or digit, stripped, or `None` |
| Parsing.PropertyLineFacts | 4_accelerators/01-rag-agent/rag-agent-promptflow/ragcore/parsers/parsers.py:97-105 | nothing is found exactly when no line starts with the property; otherwise the result is the stripped rest of the first such line |
| Parsing.AlnumLinePresent | 4_accelerators/01-rag-agent/rag-agent-promptflow/ragcore/parsers/parsers.py:89-95 | a line found by `_get_first_alphanum_line` strips to a non-empty title, and nothing is found exactly when no line holds a letter or digit |
| Parsing.TextParseTitle | 4_accelerators/01-rag-agent/rag-agent-promptflow/ragcore/parsers/parsers.py:115-120 | the `title: ` line wins, clipped to 64 tokens; failing that the first line with a letter or digit, clipped; failing both the file name; any title that is not the file name is such a clipped line |
| Parsing.TextParseContent | 4_accelerators/01-rag-agent/rag-agent-promptflow/ragcore/parsers/parsers.py:120 | the Text parser's content is the cleaned input and it sets no file path |
| Parsing.HtmlParseSteps | 4_accelerators/01-rag-agent/rag-agent-promptflow/ragcore/parsers/parsers.py:45-79 | the step-by-step reassignment of `title` gives the specified Document |
| Parsing.HtmlTitlePrecedence | 4_accelerators/01-rag-agent/rag-agent-promptflow/ragcore/parsers/parsers.py:53-79 | the HTML title is the `<title>` string, else the first `<h1>`, else the first `<h2>`, else the first string clipped to 64 tokens, else the file name, else `""`; it is never `None`, and the content is the cleaned input |
| Parsing.MarkdownParseFacts | 4_accelerators/01-rag-agent/rag-agent-promptflow/ragcore/parsers/parsers.py:19-33 | the Markdown parser's title is the HTML title of the rendered markdown, and its content is the cleaned original markdown, not the HTML |
| Parsing.PythonParseFacts | 4_accelerators/01-rag-agent/rag-agent-promptflow/ragcore/parsers/parsers.py:124-142 | the Python parser raises exactly when `ast.parse` does; the content is kept as given; a docstring gives the title `file_name: docstring`, otherwise the title is the file name |
| Parsing.SupportedFormats | 4_accelerators/01-rag-agent/rag-agent-promptflow/ragcore/parsers/parser_factory.py:24-27 | the supported formats are html, text, markdown, python and csv, in that order |
| Parsing.Registered | 4_accelerators/01-rag-agent/rag-agent-promptflow/ragcore/parsers/parser_factory.py:30 | a format has a parser exactly when it is supported |
| Parsing.ParserForFacts | 4_accelerators/01-rag-agent/rag-agent-promptflow/ragcore/parsers/parser_factory.py:29-39 | the factory resolves exactly the supported formats and `pdf`, raising `UnsupportedFormatError` otherwise; `pdf` reads as HTML with `use_fr` and as text without; `use_fr` changes nothing else; each supported format gets its registered parser |
| Parsing.ParseFacts | 4_accelerators/01-rag-agent/rag-agent-promptflow/ragcore/parsers/parsers.py:14-150 | only the Python parser can raise; the CSV parser keeps the content and sets no title; the Text, HTML and Markdown parsers return the cleaned input |

## Left out

- AcsUtils.ResultToDataclass: reads `score` as a number, `text` as a string and the metadata fields as numbers or strings, and fails with `TypeMismatch` on any other type. `result_to_dataclass` stores whatever `.get` returns, so a hit with `"score": null` or a numeric `title` is accepted by the source and rejected by the model, which then fails the whole `chunk_documents` call.
- SearchChunkers.CosmosResultToDataclass: reads `id`, `title`, `filepath` and `url` as strings or `None` and `content` as a string. A Cosmos hit with a numeric `id` or a `null` content is accepted by the source and rejected by the model.
- Documents.FromDict: `Document(**d)` checks only the key names. The model also requires `content` to be a string, `score` a number or `None`, `chunk_id` an int, a string or `None`, and `title`, `filepath` and `url` strings or `None`; `{"content": "x", "score": "0.9"}` is accepted by the source and rejected by the model.
- Flow.QueryOf: reads `result["query"]` as a string or `None` only; any other value fails.
- Flow.TopKItems: iterates `result["top_k"]` only when it is a list and otherwise fails with `TypeMismatch`. The source's `for r in result["top_k"]` also iterates a string (its characters) or a dict (its keys), so `"top_k": ""` or `"top_k": {}` gives no hits there but fails in the model.
- PageLayout.Items: iterates lists only. The source also iterates a string (its characters) or a dict (its keys), so `"figures": ""` or `"pages": {}` iterate as empty there but fail in the model.
- OnTheFly.UpdateDocScore: returns an updated copy. `update_doc_score` sets the score on the caller's Document and returns that same object.
- OnTheFly.CombineDocsWithScores: returns new Documents. `combine_docs_with_scores` updates the caller's Documents in place, so every other reference to them sees the new scores.
- OnTheFly.PassThrough: returns the hits as values. When nothing is chunked, `chunk_onthefly` returns the caller's own list, with `chunk_id` overwritten on the caller's Documents.
- OnTheFly.ChunkOnTheFly: drops the `sim_scores` parameter, which the source replaces before it is read. The in-place `chunk_id` writes on the caller's hits are modelled as returned copies.
- OnTheFly.ChunkOnTheFlyWithHighlights: the pass-through result is the caller's list with `chunk_id` and `metadata` overwritten in place; the model returns updated copies and says nothing about aliasing.
- Documents.DefaultLatency: a value. In the source `DEFAULT_LATENCY` is one class-level dict shared by every `SearchResult` built without a latency, so a write to one result's latency is seen by all of them.
- Parsing.IsAlnum: ASCII letters and digits only. `str.isalnum` is Unicode-aware, so for the content "概要\nabc" the source's title is "概要" and the model's is "abc".
- Strings.Lower: lower-cases ASCII letters only, where `str.lower` is Unicode-aware; file extensions are the only inputs it is applied to.
- CellReduction.TruncateListMethod: truncates nested dicts through fresh `Dict` objects. The source rewrites those dicts in place, so the caller's parsed data changes too. `Dict.Truncate` models the in-place rewrite of one dict.
- CellReduction.TruncateList: the limit is a natural number. A negative `max_list_length` slices from the end in Python and is not modelled.
- CellReduction.ReduceObjectCell: the per-column loop of `reduce_dataframe_size`, with its dtype test, is pandas code and is not part of this model; only the per-cell lambda is.
- Analytics.GetTableSchema: takes the rows the schema query returns and an engine flag. Running the SQL query, and the exception for an engine other than SQLite or SQL Server, are not part of this model.
- Migration.CheckArgs: the signature is a list of parameter names with a has-default flag. `inspect.signature`, positional-only parameters and `*args`/`**kwargs` are not part of this model.
- SmartAgent.Message: a message is its role and its text content. Other keys (tool calls, names) and a `None` content are not modelled.
- SmartAgent.Orchestrator.constructor: takes the two personas, the conversation and the active agent as given. Loading `prompts.yaml`, the Redis history and the tool tables are I/O and are not part of this model.
- Tokenizers (`tiktoken`), `clip_text` and `construct_tokens_with_size` are function parameters, constrained only by what the code relies on.
- TF-IDF similarity, language detection, stop words and `sequence_match_ratio` (`ragcore/utils.py` lines 157-254) are the `sim` parameter; their floating-point numerics are not modelled.
- BeautifulSoup, markdown rendering, `ast.parse`, `re.findall` in the analytics assistant, the PDF chunker's table-header match (the first match of `<th.*>.*</th>`, the `header` parameter of `PdfChunking.PdfConfig`), `json.loads` and float `repr` in `json.dumps`, pandas `read_csv` and dtype inference, `semchunk` and the embedding calls are parameters that give their results.
- Scores and reciprocal-rank contributions are exact reals, with no floating-point rounding. In particular, the 24.99 MB size limit of `check_file` is compared exactly.
- `sanitize_citation_content` (BeautifulSoup), `convert_string_to_list` (`unicode_escape` decoding) and the loading of the stop-word file are not part of this model.
- File-system access is not part of this model: reading a file is a `read` parameter, a directory walk is the list of its entries, and `os.path.getsize` is a size parameter. Writing chunk files is modelled as the text that would be written.
- LLM calls and the agents' `run` loops are not part of this model, and neither are `get_next_steps`, `_call_llm`, `load_entity`, Redis, `print`, `time.sleep`, `tqdm` and the Streamlit, FastAPI and React front ends.
- Concurrency is not part of this model: the thread pool of `create_migration_plan` and the async `execute_python_code`.
- Two ingestion call sites do not match the helpers they call: `docreader.extract_page_info` at `chunk_docs.py` line 228 does not exist (the reader defines `extract_pages_info`), and `generate_chunks_from_stt` is called with three arguments at line 363 but takes two. The helpers are modelled as defined, not these call sites.
- Python dict keys are strings in `Json.Value`, so keys of other types, and equality across `int` and `float` keys, are not modelled.

## Findings

| source | as written | input that shows it | evidently intended | confidence | as-written member | corrected member |
|---|---|---|---|---|---|---|
| 4_accelerators/01-rag-agent/rag-agent-promptflow/ragcore/chunking/text_chunker.py:234 | `chunks.extend(chunks)` extends the result list with itself, so `chunk_directory` always returns `[]` and every chunk of every file is lost | a directory holding one file that chunks to one Document | `chunks.extend(result)`: the chunks of every file, each tagged with its relative path and chunk id | high; not executed | TextChunking.ChunkDirectoryAsWrittenEmpty | TextChunking.ChunkDirectory |
