/** `CSVChunker.split_text` and the table helpers of the chunker module: the
    rows of a CSV table are batched under a token limit, and each batch
    becomes a Document holding a summary of its columns followed by the
    rows as a markdown table. The table is what `pandas.read_csv` produced:
    column names and typed cells. */
module CsvChunking {
  import opened Wrappers
  import opened Strings
  import opened Merging
  import opened Documents
  import opened Json

  /** A cell of the parsed table: a missing value (`NaN`), a number, a
      boolean or text. */
  datatype Cell = Missing | Num(x: real) | Flag(b: bool) | Text(s: string)

  /** The parsed table: column names, then one row of cells per record. */
  datatype Table = Table(columns: seq<string>, rows: seq<seq<Cell>>)

  /** The summary `summarize_chunk` stores for one column: the list of
      distinct values, the `(min, max)` pair, or a ready-made string. */
  datatype Summary = Distinct(values: seq<Cell>) | Extent(lo: real, hi: real) | Note(text: string)

  /** The oracles: `TokenEstimator.estimate_tokens`, `str` of a cell, and
      `str` of a list or tuple summary. */
  datatype CsvEnv = CsvEnv(tok: string -> nat, show: Cell -> string, repr: Summary -> string)

  /** The dtype pandas gives a column of the chunk: numeric when every cell
      is a number or missing, `bool` when every cell is a boolean, `object`
      otherwise. Dates and durations are never inferred by `read_csv`. */
  datatype Kind = Numeric | Boolean | Other

  function KindOf(series: seq<Cell>): Kind {
    if forall k :: 0 <= k < |series| ==> series[k].Missing? || series[k].Num? then Numeric
    else if forall k :: 0 <= k < |series| ==> series[k].Flag? then Boolean
    else Other
  }

  // ---------------------------------------------------------------------------
  // Column summaries

  predicate NoDup(xs: seq<Cell>) {
    forall i, j :: 0 <= i < j < |xs| ==> xs[i] != xs[j]
  }

  /** `Series.unique()`: the distinct values in order of first appearance. */
  function Unique(xs: seq<Cell>): seq<Cell> {
    if xs == [] then []
    else
      var u := Unique(xs[..|xs| - 1]);
      if Last(xs) in u then u else u + [Last(xs)]
  }

  /** `unique()` keeps each value of the series exactly once. */
  lemma {:induction false} UniqueFacts(xs: seq<Cell>)
    ensures forall x :: x in Unique(xs) <==> x in xs
    ensures NoDup(Unique(xs))
    ensures |Unique(xs)| <= |xs|
  {
    if xs != [] {
      var front := xs[..|xs| - 1];
      UniqueFacts(front);
      assert xs == front + [Last(xs)];
    }
  }

  /** `Series.dropna()`. */
  function NonMissing(xs: seq<Cell>): (r: seq<Cell>)
    ensures forall x :: x in r <==> x in xs && x != Missing
  {
    if xs == [] then []
    else (if xs[0] == Missing then [] else [xs[0]]) + NonMissing(xs[1..])
  }

  /** The numbers of a series, in order. */
  function Nums(xs: seq<Cell>): seq<real> {
    if xs == [] then []
    else (if xs[0].Num? then [xs[0].x] else []) + Nums(xs[1..])
  }

  lemma {:induction false} NumsMember(xs: seq<Cell>, x: real)
    ensures x in Nums(xs) <==> Num(x) in xs
  {
    if xs != [] {
      NumsMember(xs[1..], x);
      assert xs == [xs[0]] + xs[1..];
    }
  }

  function MinOf(xs: seq<real>): real
    requires xs != []
  {
    if |xs| == 1 then xs[0]
    else var m := MinOf(xs[1..]); if xs[0] <= m then xs[0] else m
  }

  function MaxOf(xs: seq<real>): real
    requires xs != []
  {
    if |xs| == 1 then xs[0]
    else var m := MaxOf(xs[1..]); if xs[0] >= m then xs[0] else m
  }

  /** `min` and `max` are attained and bound every element. */
  lemma {:induction false} MinMaxFacts(xs: seq<real>)
    requires xs != []
    ensures MinOf(xs) in xs && MaxOf(xs) in xs
    ensures forall x :: x in xs ==> MinOf(xs) <= x <= MaxOf(xs)
  {
    if |xs| > 1 {
      MinMaxFacts(xs[1..]);
      assert xs == [xs[0]] + xs[1..];
    }
  }

  /** `series.sum()` on a boolean column: the number of `True` cells. */
  function CountTrue(xs: seq<Cell>): (r: nat)
    ensures r <= |xs|
  {
    if xs == [] then 0 else (if xs[0] == Flag(true) then 1 else 0) + CountTrue(xs[1..])
  }

  function CountFalse(xs: seq<Cell>): nat {
    if xs == [] then 0 else (if xs[0] == Flag(false) then 1 else 0) + CountFalse(xs[1..])
  }

  function Shows(show: Cell -> string, xs: seq<Cell>): (r: seq<string>)
    ensures |r| == |xs|
    ensures forall k :: 0 <= k < |xs| ==> r[k] == show(xs[k])
  {
    if xs == [] then [] else [show(xs[0])] + Shows(show, xs[1..])
  }

  /** A numeric column with at least one value present holds a number. */
  lemma NumsNonEmpty(xs: seq<Cell>)
    requires KindOf(xs) == Numeric && NonMissing(xs) != []
    ensures Nums(xs) != []
  {
    var x := NonMissing(xs)[0];
    assert x in xs && x != Missing;
    var k :| 0 <= k < |xs| && xs[k] == x;
    NumsMember(xs, x.x);
  }

  /** The summary of one column of a chunk. */
  function Summarize(env: CsvEnv, series: seq<Cell>): Summary {
    match KindOf(series)
    case Numeric =>
      var u := Unique(NonMissing(series));
      if |u| < 5 then Distinct(u)
      else
        UniqueFacts(NonMissing(series));
        NumsNonEmpty(series);
        Extent(MinOf(Nums(series)), MaxOf(Nums(series)))
    case Boolean =>
      var t := CountTrue(series);
      Note("True: " + NatToString(t) + ", False: " + NatToString(|series| - t))
    case Other =>
      var u := Unique(series);
      if |u| > 10 then
        Note(NatToString(|u|) + " unique values. Few Random examples: " + Join(",", Shows(env.show, u[..5])))
      else Distinct(u)
  }

  /** A numeric column is summarised by its distinct present values when
      there are fewer than five of them, otherwise by the smallest and the
      largest number in it. */
  lemma SummarizeNumeric(env: CsvEnv, series: seq<Cell>)
    requires KindOf(series) == Numeric
    ensures var r := Summarize(env, series);
      (r.Distinct? <==> |Unique(NonMissing(series))| < 5)
      && (r.Distinct? ==> NoDup(r.values) && forall x :: x in r.values <==> x in series && x != Missing)
      && (r.Extent? ==> Num(r.lo) in series && Num(r.hi) in series)
      && (r.Extent? ==> forall k :: 0 <= k < |series| && series[k].Num? ==> r.lo <= series[k].x <= r.hi)
  {
    var u := Unique(NonMissing(series));
    UniqueFacts(NonMissing(series));
    if |u| >= 5 {
      NumsNonEmpty(series);
      var nums := Nums(series);
      MinMaxFacts(nums);
      NumsMember(series, MinOf(nums));
      NumsMember(series, MaxOf(nums));
      forall k | 0 <= k < |series| && series[k].Num?
        ensures MinOf(nums) <= series[k].x <= MaxOf(nums)
      {
        NumsMember(series, series[k].x);
      }
    }
  }

  /** Every cell of a boolean column is `True` or `False`. */
  lemma {:induction false} CountsAddUp(xs: seq<Cell>)
    requires forall k :: 0 <= k < |xs| ==> xs[k].Flag?
    ensures CountTrue(xs) + CountFalse(xs) == |xs|
  {
    if xs != [] {
      CountsAddUp(xs[1..]);
    }
  }

  /** A boolean column is summarised by its `True` and `False` counts, which
      add up to the number of rows. */
  lemma SummarizeBoolean(env: CsvEnv, series: seq<Cell>)
    requires KindOf(series) == Boolean
    ensures Summarize(env, series)
         == Note("True: " + NatToString(CountTrue(series)) + ", False: " + NatToString(CountFalse(series)))
  {
    CountsAddUp(series);
  }

  /** Any other column is summarised by its distinct values when there are
      at most ten, otherwise by their count and the first five. */
  lemma SummarizeOther(env: CsvEnv, series: seq<Cell>)
    requires KindOf(series) == Other
    ensures var r := Summarize(env, series);
      (r.Distinct? <==> |Unique(series)| <= 10)
      && (r.Distinct? ==> NoDup(r.values) && forall x :: x in r.values <==> x in series)
      && (r.Note? ==> StartsWith(r.text, NatToString(|Unique(series)|) + " unique values. "))
  {
    UniqueFacts(series);
    var u := Unique(series);
    if |u| > 10 {
      NoteHead(NatToString(|u|), Join(",", Shows(env.show, u[..5])));
    }
  }

  lemma NoteHead(count: string, examples: string)
    ensures StartsWith(count + " unique values. Few Random examples: " + examples, count + " unique values. ")
  {
    var head := count + " unique values. ";
    assert count + " unique values. Few Random examples: " == head + "Few Random examples: ";
    StartsWithSelf(head, "Few Random examples: ");
    StartsWithAppend(head + "Few Random examples: ", examples, head);
  }

  /** `chunk[column]`: the cells of column `j`, missing where a row is short. */
  function ColumnOf(rows: seq<seq<Cell>>, j: nat): (r: seq<Cell>)
    ensures |r| == |rows|
  {
    seq(|rows|, k requires 0 <= k < |rows| => if j < |rows[k]| then rows[k][j] else Missing)
  }

  /** `summarize_chunk(chunk)`: one entry per column, in column order. */
  function SummarizeAll(env: CsvEnv, columns: seq<string>, rows: seq<seq<Cell>>): seq<(string, Summary)> {
    seq(|columns|, j requires 0 <= j < |columns| => (columns[j], Summarize(env, ColumnOf(rows, j))))
  }

  /** The loop of `summarize_chunk`, filling the summary dict column by column. */
  method SummarizeChunk(env: CsvEnv, columns: seq<string>, rows: seq<seq<Cell>>) returns (summaries: seq<(string, Summary)>)
    ensures |summaries| == |columns|
    ensures forall j :: 0 <= j < |columns| ==>
      summaries[j].0 == columns[j] && summaries[j].1 == Summarize(env, ColumnOf(rows, j))
  {
    summaries := [];
    for j := 0 to |columns|
      invariant |summaries| == j
      invariant forall i :: 0 <= i < j ==>
        summaries[i].0 == columns[i] && summaries[i].1 == Summarize(env, ColumnOf(rows, i))
    {
      var series := ColumnOf(rows, j);
      summaries := summaries + [(columns[j], Summarize(env, series))];
    }
  }

  // ---------------------------------------------------------------------------
  // Rendering

  /** `row_to_markdown(row)`. */
  function RowToMarkdown(show: Cell -> string, row: seq<Cell>): string {
    "| " + Join(" | ", Shows(show, row)) + " |"
  }

  /** `get_header_str(chunk)`: the column names as a markdown row. */
  function HeaderStr(columns: seq<string>): string {
    "| " + Join(" | ", columns) + " |"
  }

  function SummaryText(env: CsvEnv, s: Summary): string {
    if s.Note? then s.text else env.repr(s)
  }

  /** `get_summary_str(summaries)`: one bullet per column. */
  function SummaryStr(env: CsvEnv, summaries: seq<(string, Summary)>): string {
    if summaries == [] then []
    else "- **" + summaries[0].0 + "**: " + SummaryText(env, summaries[0].1) + "\n" + SummaryStr(env, summaries[1..])
  }

  const SummaryTitle: string := "#### Table chunk Summary"

  /** What `write_summary_to_file(summaries, content)` appends to `content`. */
  function SummaryBlock(env: CsvEnv, summaries: seq<(string, Summary)>): string {
    SummaryTitle + "\n\n" + SummaryStr(env, summaries) + "\n\n"
  }

  function WriteSummary(env: CsvEnv, summaries: seq<(string, Summary)>, content: string): string {
    content + SummaryBlock(env, summaries)
  }

  function RowLines(show: Cell -> string, rows: seq<seq<Cell>>): string {
    if rows == [] then [] else RowToMarkdown(show, rows[0]) + "\n" + RowLines(show, rows[1..])
  }

  /** `write_chunk_to_file(chunk, chunk_counter, content)`: a heading, the
      column names, the `| --- |` rule and one markdown row per row. */
  function WriteChunk(env: CsvEnv, columns: seq<string>, rows: seq<seq<Cell>>, counter: string, content: string): string {
    content + ChunkBlock(env, columns, rows, counter)
  }

  function ChunkBlock(env: CsvEnv, columns: seq<string>, rows: seq<seq<Cell>>, counter: string): string {
    "#### Chunk no. " + counter + "\n"
    + HeaderStr(columns) + "\n"
    + Repeat("| --- ", |columns|) + "|" + "\n"
    + RowLines(env.show, rows) + "\n\n"
  }

  /** `get_filename_from_filepath`: the basename up to its first '.'. */
  function FileStem(filepath: string): string {
    Split(Basename(filepath), ".")[0]
  }

  /** The stem has no directory part and no extension: it is the part of the
      basename before its first '.'. */
  lemma FileStemFacts(filepath: string)
    ensures var r := FileStem(filepath);
      '.' !in r && '/' !in r && StartsWith(Basename(filepath), r)
  {
    var b := Basename(filepath);
    var i := Find(b, ".");
    var r := FileStem(filepath);
    if i >= 0 {
      assert r == b[..i];
      forall j | 0 <= j < |r| ensures r[j] != '.' {
        assert !OccursAt(b, ".", j);
        assert b[j..j + 1] == [b[j]];
      }
    } else {
      assert r == b;
      forall j | 0 <= j < |r| ensures r[j] != '.' {
        assert !OccursAt(b, ".", j);
        assert b[j..j + 1] == [b[j]];
      }
    }
    assert forall j :: 0 <= j < |r| ==> r[j] == b[j];
  }

  // ---------------------------------------------------------------------------
  // Batching the rows

  /** The tokens of rows `lo..hi`. */
  function SumRange(xs: seq<nat>, lo: nat, hi: nat): nat
    requires lo <= hi <= |xs|
    decreases hi - lo
  {
    if lo == hi then 0 else SumRange(xs, lo, hi - 1) + xs[hi - 1]
  }

  /** `token_limit - 256` above 384 tokens, the limit itself otherwise. */
  function ApproxLimit(tokenLimit: int): int {
    if tokenLimit > 384 then tokenLimit - 256 else tokenLimit
  }

  /** The row loop of `split_text` from row `i` on, with the current chunk
      `rows[lo..i]`: the chunk is closed when it is non-empty and its tokens
      plus the next row's plus the header's exceed the limit; what is left
      is closed at the end when non-empty. */
  function BatchFrom(rowTok: seq<nat>, header: nat, limit: int, i: nat, lo: nat, wins: seq<Window>): (r: seq<Window>)
    requires lo <= i <= |rowTok| && InRange(wins, i)
    ensures InRange(r, |rowTok|)
    decreases |rowTok| - i
  {
    if i == |rowTok| then
      if lo < i then wins + [Window(lo, i)] else wins
    else if SumRange(rowTok, lo, i) + rowTok[i] + header > limit && lo < i then
      BatchFrom(rowTok, header, limit, i + 1, i, wins + [Window(lo, i)])
    else
      BatchFrom(rowTok, header, limit, i + 1, lo, wins)
  }

  function Batches(rowTok: seq<nat>, header: nat, limit: int): (r: seq<Window>)
    ensures InRange(r, |rowTok|)
  {
    BatchFrom(rowTok, header, limit, 0, 0, [])
  }

  /** The chunk `rows[w.lo..w.hi]` was closed because the row after it did
      not fit. */
  predicate ClosedFor(rowTok: seq<nat>, header: nat, limit: int, w: Window) {
    w.lo <= w.hi < |rowTok| && SumRange(rowTok, w.lo, w.hi) + rowTok[w.hi] + header > limit
  }

  /** Every row of `rows[lo..hi]` after the first fitted when it was added. */
  predicate Admitted(rowTok: seq<nat>, header: nat, limit: int, lo: nat, hi: nat) {
    lo <= hi <= |rowTok|
    && forall k :: lo < k < hi ==> SumRange(rowTok, lo, k) + rowTok[k] + header <= limit
  }

  predicate AllClosed(rowTok: seq<nat>, header: nat, limit: int, wins: seq<Window>) {
    forall j :: 0 <= j < |wins| ==> ClosedFor(rowTok, header, limit, wins[j])
  }

  predicate AllAdmitted(rowTok: seq<nat>, header: nat, limit: int, wins: seq<Window>) {
    forall j :: 0 <= j < |wins| ==> Admitted(rowTok, header, limit, wins[j].lo, wins[j].hi)
  }

  /** The batches tile the rows from the first on; each but the last is
      closed only when the next row does not fit, and every row after the
      first of a batch fitted when it joined it. */
  predicate BatchShaped(rowTok: seq<nat>, header: nat, limit: int, wins: seq<Window>) {
    Tiled(wins)
    && (|rowTok| == 0 <==> wins == [])
    && (wins != [] ==> wins[0].lo == 0 && wins[|wins| - 1].hi == |rowTok|
                       && AllClosed(rowTok, header, limit, wins[..|wins| - 1]))
    && AllAdmitted(rowTok, header, limit, wins)
  }

  /** The state of the row loop before row `i`: closed batches up to `lo`,
      and the open chunk `rows[lo..i]`. */
  predicate BatchInv(rowTok: seq<nat>, header: nat, limit: int, i: nat, lo: nat, wins: seq<Window>) {
    Tiled(wins)
    && (wins == [] ==> lo == 0)
    && (wins != [] ==> wins[0].lo == 0 && wins[|wins| - 1].hi == lo && lo < i)
    && AllClosed(rowTok, header, limit, wins)
    && AllAdmitted(rowTok, header, limit, wins)
    && Admitted(rowTok, header, limit, lo, i)
  }

  lemma TiledSnoc(wins: seq<Window>, w: Window)
    requires Tiled(wins) && w.lo < w.hi
    requires wins != [] ==> wins[|wins| - 1].hi == w.lo
    ensures Tiled(wins + [w])
  {
    var r := wins + [w];
    forall j | 0 <= j < |r| ensures r[j].lo < r[j].hi {
      if j < |wins| { assert r[j] == wins[j]; }
    }
    forall j | 0 <= j < |r| - 1 ensures r[j].hi == r[j + 1].lo {
      assert r[j] == wins[j];
      if j + 1 < |wins| { assert r[j + 1] == wins[j + 1]; }
    }
  }

  lemma AllClosedSnoc(rowTok: seq<nat>, header: nat, limit: int, wins: seq<Window>, w: Window)
    requires AllClosed(rowTok, header, limit, wins) && ClosedFor(rowTok, header, limit, w)
    ensures AllClosed(rowTok, header, limit, wins + [w])
  {
    var r := wins + [w];
    forall j | 0 <= j < |r| ensures ClosedFor(rowTok, header, limit, r[j]) {
      if j < |wins| { assert r[j] == wins[j]; }
    }
  }

  lemma AllAdmittedSnoc(rowTok: seq<nat>, header: nat, limit: int, wins: seq<Window>, w: Window)
    requires AllAdmitted(rowTok, header, limit, wins) && Admitted(rowTok, header, limit, w.lo, w.hi)
    ensures AllAdmitted(rowTok, header, limit, wins + [w])
  {
    var r := wins + [w];
    forall j | 0 <= j < |r| ensures Admitted(rowTok, header, limit, r[j].lo, r[j].hi) {
      if j < |wins| { assert r[j] == wins[j]; }
    }
  }

  lemma InRangeSnoc(wins: seq<Window>, w: Window, n: nat)
    requires InRange(wins, n) && w.lo <= w.hi <= n
    ensures InRange(wins + [w], n)
  {
    var r := wins + [w];
    forall j | 0 <= j < |r| ensures r[j].lo <= r[j].hi <= n {
      if j < |wins| { assert r[j] == wins[j]; }
    }
  }

  lemma InRangeWider(wins: seq<Window>, n: nat, m: nat)
    requires InRange(wins, n) && n <= m
    ensures InRange(wins, m)
  {
  }

  /** The row after the open chunk fits, so it joins the chunk. */
  lemma AdmittedGrow(rowTok: seq<nat>, header: nat, limit: int, lo: nat, i: nat)
    requires Admitted(rowTok, header, limit, lo, i) && i < |rowTok|
    requires !(SumRange(rowTok, lo, i) + rowTok[i] + header > limit && lo < i)
    ensures Admitted(rowTok, header, limit, lo, i + 1)
  {
    forall k | lo < k < i + 1 ensures SumRange(rowTok, lo, k) + rowTok[k] + header <= limit {
      if k < i {
        assert Admitted(rowTok, header, limit, lo, i);
      }
    }
  }

  lemma {:induction false} BatchFromShape(rowTok: seq<nat>, header: nat, limit: int, i: nat, lo: nat, wins: seq<Window>, r: seq<Window>)
    requires lo <= i <= |rowTok| && InRange(wins, i)
    requires BatchInv(rowTok, header, limit, i, lo, wins)
    requires r == BatchFrom(rowTok, header, limit, i, lo, wins)
    ensures BatchShaped(rowTok, header, limit, r)
    decreases |rowTok| - i, 1
  {
    if i == |rowTok| {
      BatchEnd(rowTok, header, limit, lo, wins, r);
    } else if SumRange(rowTok, lo, i) + rowTok[i] + header > limit && lo < i {
      BatchShapeClose(rowTok, header, limit, i, lo, wins, r);
    } else {
      BatchShapeKeep(rowTok, header, limit, i, lo, wins, r);
    }
  }

  lemma BatchEnd(rowTok: seq<nat>, header: nat, limit: int, lo: nat, wins: seq<Window>, r: seq<Window>)
    requires lo <= |rowTok| && InRange(wins, |rowTok|)
    requires BatchInv(rowTok, header, limit, |rowTok|, lo, wins)
    requires r == BatchFrom(rowTok, header, limit, |rowTok|, lo, wins)
    ensures BatchShaped(rowTok, header, limit, r)
  {
    var n := |rowTok|;
    if lo < n {
      assert r == wins + [Window(lo, n)];
      TiledSnoc(wins, Window(lo, n));
      AllAdmittedSnoc(rowTok, header, limit, wins, Window(lo, n));
      assert r[..|r| - 1] == wins;
      assert r[0].lo == 0 by {
        if wins != [] { assert r[0] == wins[0]; }
      }
    } else {
      assert r == wins;
      if wins != [] {
        assert false;
      }
    }
  }

  lemma BatchFromClose(rowTok: seq<nat>, header: nat, limit: int, i: nat, lo: nat, wins: seq<Window>)
    requires lo < i < |rowTok| && InRange(wins, i)
    requires SumRange(rowTok, lo, i) + rowTok[i] + header > limit
    ensures InRange(wins + [Window(lo, i)], i + 1)
    ensures BatchFrom(rowTok, header, limit, i, lo, wins) == BatchFrom(rowTok, header, limit, i + 1, i, wins + [Window(lo, i)])
  {
    InRangeSnoc(wins, Window(lo, i), i);
    InRangeWider(wins + [Window(lo, i)], i, i + 1);
  }

  lemma BatchFromKeep(rowTok: seq<nat>, header: nat, limit: int, i: nat, lo: nat, wins: seq<Window>)
    requires lo <= i < |rowTok| && InRange(wins, i)
    requires !(SumRange(rowTok, lo, i) + rowTok[i] + header > limit && lo < i)
    ensures InRange(wins, i + 1)
    ensures BatchFrom(rowTok, header, limit, i, lo, wins) == BatchFrom(rowTok, header, limit, i + 1, lo, wins)
  {
    InRangeWider(wins, i, i + 1);
  }

  lemma {:induction false} BatchShapeClose(rowTok: seq<nat>, header: nat, limit: int, i: nat, lo: nat, wins: seq<Window>, r: seq<Window>)
    requires lo < i < |rowTok| && InRange(wins, i)
    requires BatchInv(rowTok, header, limit, i, lo, wins)
    requires SumRange(rowTok, lo, i) + rowTok[i] + header > limit
    requires r == BatchFrom(rowTok, header, limit, i, lo, wins)
    ensures BatchShaped(rowTok, header, limit, r)
    decreases |rowTok| - i, 0
  {
    BatchFromClose(rowTok, header, limit, i, lo, wins);
    BatchInvClose(rowTok, header, limit, i, lo, wins);
    BatchFromShape(rowTok, header, limit, i + 1, i, wins + [Window(lo, i)], r);
  }

  /** Closing the chunk `rows[lo..i]` before row `i` keeps the loop state. */
  lemma BatchInvClose(rowTok: seq<nat>, header: nat, limit: int, i: nat, lo: nat, wins: seq<Window>)
    requires lo < i < |rowTok|
    requires BatchInv(rowTok, header, limit, i, lo, wins)
    requires SumRange(rowTok, lo, i) + rowTok[i] + header > limit
    ensures BatchInv(rowTok, header, limit, i + 1, i, wins + [Window(lo, i)])
  {
    var w := Window(lo, i);
    TiledSnoc(wins, w);
    AllClosedSnoc(rowTok, header, limit, wins, w);
    AllAdmittedSnoc(rowTok, header, limit, wins, w);
    assert (wins + [w])[0].lo == 0 by {
      if wins != [] { assert (wins + [w])[0] == wins[0]; }
    }
    assert Admitted(rowTok, header, limit, i, i + 1);
  }

  lemma {:induction false} BatchShapeKeep(rowTok: seq<nat>, header: nat, limit: int, i: nat, lo: nat, wins: seq<Window>, r: seq<Window>)
    requires lo <= i < |rowTok| && InRange(wins, i)
    requires BatchInv(rowTok, header, limit, i, lo, wins)
    requires !(SumRange(rowTok, lo, i) + rowTok[i] + header > limit && lo < i)
    requires r == BatchFrom(rowTok, header, limit, i, lo, wins)
    ensures BatchShaped(rowTok, header, limit, r)
    decreases |rowTok| - i, 0
  {
    BatchFromKeep(rowTok, header, limit, i, lo, wins);
    AdmittedGrow(rowTok, header, limit, lo, i);
    BatchFromShape(rowTok, header, limit, i + 1, lo, wins, r);
  }

  /** The shape of the batches `split_text` closes. */
  lemma BatchesShape(rowTok: seq<nat>, header: nat, limit: int)
    ensures BatchShaped(rowTok, header, limit, Batches(rowTok, header, limit))
  {
    BatchFromShape(rowTok, header, limit, 0, 0, [], Batches(rowTok, header, limit));
  }

  function Flatten<T>(xss: seq<seq<T>>): seq<T> {
    if xss == [] then [] else xss[0] + Flatten(xss[1..])
  }

  function Slices<T>(xs: seq<T>, wins: seq<Window>): (r: seq<seq<T>>)
    requires InRange(wins, |xs|)
    ensures |r| == |wins|
  {
    seq(|wins|, j requires 0 <= j < |wins| => xs[wins[j].lo..wins[j].hi])
  }

  lemma {:induction false} FlattenTiled<T>(xs: seq<T>, wins: seq<Window>, lo: nat)
    requires InRange(wins, |xs|) && Tiled(wins)
    requires wins != [] ==> wins[0].lo == lo && wins[|wins| - 1].hi == |xs|
    requires wins == [] ==> lo == |xs|
    requires lo <= |xs|
    ensures Flatten(Slices(xs, wins)) == xs[lo..]
  {
    if wins != [] {
      var tail := wins[1..];
      assert InRange(tail, |xs|);
      assert Tiled(tail);
      assert Slices(xs, wins)[1..] == Slices(xs, tail);
      if tail == [] {
        assert wins[0].hi == |xs|;
      } else {
        assert tail[0].lo == wins[0].hi;
      }
      FlattenTiled(xs, tail, wins[0].hi);
      assert xs[lo..] == xs[lo..wins[0].hi] + xs[wins[0].hi..];
    }
  }

  /** Every row lands in exactly one batch, in order: the batches put back
      together are the rows. */
  lemma BatchesLossless<T>(rows: seq<T>, rowTok: seq<nat>, header: nat, limit: int)
    requires |rows| == |rowTok|
    ensures InRange(Batches(rowTok, header, limit), |rows|)
    ensures Flatten(Slices(rows, Batches(rowTok, header, limit))) == rows
  {
    var wins := Batches(rowTok, header, limit);
    BatchesShape(rowTok, header, limit);
    FlattenTiled(rows, wins, 0);
    assert rows[0..] == rows;
  }

  // ---------------------------------------------------------------------------
  // The documents

  function RowTokens(env: CsvEnv, rows: seq<seq<Cell>>): (r: seq<nat>)
    ensures |r| == |rows|
  {
    seq<nat>(|rows|, k requires 0 <= k < |rows| => env.tok(RowToMarkdown(env.show, rows[k])))
  }

  /** The tokens of the column names, counted once for every chunk. */
  function HeaderTokens(env: CsvEnv, columns: seq<string>): nat {
    SumTok(env.tok, columns)
  }

  /** The content of chunk `n`: its summary, then its rows. */
  function ChunkContent(env: CsvEnv, columns: seq<string>, rows: seq<seq<Cell>>, n: nat): string {
    WriteChunk(env, columns, rows, NatToString(n), WriteSummary(env, SummarizeAll(env, columns, rows), ""))
  }

  /** The title of a chunk: the first line of its content, stripped. */
  function TitleOf(content: string): string {
    Strip(Split(content, "\n")[0])
  }

  /** The Document of chunk `n`, written from its content. */
  function ChunkDocument(content: string, stem: string, n: nat): Document {
    Document(content, NoId, None, Some(TitleOf(content)),
             Some(stem + "_chunk_" + NatToString(n) + ".txt"), None, Null)
  }

  /** The Document of each window of rows. */
  function DocMaker(env: CsvEnv, table: Table, stem: string): (Window, nat) -> Document {
    (w: Window, n: nat) =>
      if w.lo <= w.hi <= |table.rows| then ChunkDocument(ChunkContent(env, table.columns, table.rows[w.lo..w.hi], n), stem, n)
      else NewDocument([])
  }

  lemma DocMakerAt(env: CsvEnv, table: Table, stem: string, w: Window, n: nat)
    requires w.lo <= w.hi <= |table.rows|
    ensures DocMaker(env, table, stem)(w, n) == ChunkDocument(ChunkContent(env, table.columns, table.rows[w.lo..w.hi], n), stem, n)
  {
  }

  /** One Document per window, numbered from 0. */
  function DocsOf(mk: (Window, nat) -> Document, wins: seq<Window>): (r: seq<Document>)
    ensures |r| == |wins|
  {
    if wins == [] then []
    else
      var n := |wins| - 1;
      DocsOf(mk, wins[..n]) + [mk(wins[n], n)]
  }

  lemma {:induction false} DocsOfAt(mk: (Window, nat) -> Document, wins: seq<Window>, n: nat)
    requires n < |wins|
    ensures DocsOf(mk, wins)[n] == mk(wins[n], n)
  {
    var m := |wins| - 1;
    if n < m {
      DocsOfAt(mk, wins[..m], n);
    }
  }

  lemma DocsOfSnoc(mk: (Window, nat) -> Document, wins: seq<Window>, w: Window)
    ensures DocsOf(mk, wins + [w]) == DocsOf(mk, wins) + [mk(w, |wins|)]
  {
    assert (wins + [w])[..|wins|] == wins;
  }

  /** `CSVChunker.split_text(text, filename, token_limit)` on the parsed table. */
  function CsvSplit(env: CsvEnv, table: Table, filename: string, tokenLimit: int): seq<Document> {
    var rowTok := RowTokens(env, table.rows);
    var wins := Batches(rowTok, HeaderTokens(env, table.columns), ApproxLimit(tokenLimit));
    DocsOf(DocMaker(env, table, FileStem(filename)), wins)
  }

  /** Every chunk is titled `#### Table chunk Summary` and named
      `{stem}_chunk_{n}.txt`. */
  lemma ChunkDocumentFacts(content: string, stem: string, n: nat)
    requires StartsWith(content, SummaryTitle + "\n\n")
    ensures var d := ChunkDocument(content, stem, n);
      d.title == Some(SummaryTitle)
      && d.filepath == Some(stem + "_chunk_" + NatToString(n) + ".txt")
  {
    PrefixShorter(content, SummaryTitle + "\n\n", |SummaryTitle| + 1);
    assert (SummaryTitle + "\n\n")[..|SummaryTitle| + 1] == SummaryTitle + "\n";
    SplitFirstChar(content, SummaryTitle, '\n');
    assert SummaryTitle[0] == '#' && SummaryTitle[|SummaryTitle| - 1] == 'y';
    StripUnchanged(SummaryTitle);
  }

  lemma PrefixShorter(s: string, p: string, k: nat)
    requires StartsWith(s, p) && k <= |p|
    ensures StartsWith(s, p[..k])
  {
    assert s[..k] == s[..|p|][..k];
  }

  lemma ContentHead(env: CsvEnv, summaries: seq<(string, Summary)>, columns: seq<string>, rows: seq<seq<Cell>>, counter: string)
    ensures StartsWith(WriteChunk(env, columns, rows, counter, WriteSummary(env, summaries, "")), SummaryTitle + "\n\n")
  {
    var head := SummaryTitle + "\n\n";
    var block := SummaryBlock(env, summaries);
    StartsWithSelf(head, SummaryStr(env, summaries));
    StartsWithAppend(head + SummaryStr(env, summaries), "\n\n", head);
    assert WriteSummary(env, summaries, "") == block;
    StartsWithAppend(block, ChunkBlock(env, columns, rows, counter), head);
  }

  /** What `split_text` returns: one Document per batch, in row order; the
      batches put back together are the rows of the table. */
  lemma CsvSplitFacts(env: CsvEnv, table: Table, filename: string, tokenLimit: int)
    ensures var wins := Batches(RowTokens(env, table.rows), HeaderTokens(env, table.columns), ApproxLimit(tokenLimit));
      var docs := CsvSplit(env, table, filename, tokenLimit);
      |docs| == |wins|
      && Flatten(Slices(table.rows, wins)) == table.rows
      && (table.rows == [] <==> docs == [])
      && forall n :: 0 <= n < |docs| ==>
        docs[n].title == Some(SummaryTitle)
        && docs[n].filepath == Some(FileStem(filename) + "_chunk_" + NatToString(n) + ".txt")
  {
    var rowTok := RowTokens(env, table.rows);
    var wins := Batches(rowTok, HeaderTokens(env, table.columns), ApproxLimit(tokenLimit));
    BatchesLossless(table.rows, rowTok, HeaderTokens(env, table.columns), ApproxLimit(tokenLimit));
    BatchesShape(rowTok, HeaderTokens(env, table.columns), ApproxLimit(tokenLimit));
    var docs := CsvSplit(env, table, filename, tokenLimit);
    forall n | 0 <= n < |docs|
      ensures docs[n].title == Some(SummaryTitle)
      ensures docs[n].filepath == Some(FileStem(filename) + "_chunk_" + NatToString(n) + ".txt")
    {
      DocsOfAt(DocMaker(env, table, FileStem(filename)), wins, n);
      DocMakerAt(env, table, FileStem(filename), wins[n], n);
      var rows := table.rows[wins[n].lo..wins[n].hi];
      ContentHead(env, SummarizeAll(env, table.columns, rows), table.columns, rows, NatToString(n));
      ChunkDocumentFacts(ChunkContent(env, table.columns, rows, n), FileStem(filename), n);
    }
  }

  /** The block `split_text` runs to close a chunk: summarise it, write the
      summary and the rows, and make the Document. */
  method WriteChunkDocument(env: CsvEnv, columns: seq<string>, chunk: seq<seq<Cell>>, stem: string, chunkCounter: nat)
    returns (doc: Document)
    ensures doc == ChunkDocument(ChunkContent(env, columns, chunk, chunkCounter), stem, chunkCounter)
  {
    var summaries := SummarizeChunk(env, columns, chunk);
    assert summaries == SummarizeAll(env, columns, chunk);
    var content := "";
    content := WriteSummary(env, summaries, content);
    content := WriteChunk(env, columns, chunk, NatToString(chunkCounter), content);
    var fname := stem + "_chunk_" + NatToString(chunkCounter) + ".txt";
    doc := Document(content, NoId, None, Some(TitleOf(content)), Some(fname), None, Null);
  }



  lemma Grow(rows: seq<seq<Cell>>, rowTok: seq<nat>, lo: nat, i: nat)
    requires lo <= i < |rows| == |rowTok|
    ensures rows[lo..i + 1] == rows[lo..i] + [rows[i]]
    ensures SumRange(rowTok, lo, i + 1) == SumRange(rowTok, lo, i) + rowTok[i]
  {
  }

  /** `split_text`: the file stem, the header tokens and the limit, then the row loop. */
  method CsvSplitText(env: CsvEnv, table: Table, filename: string, tokenLimit: int) returns (outDocs: seq<Document>)
    ensures outDocs == CsvSplit(env, table, filename, tokenLimit)
  {
    var stem := FileStem(filename);
    var headerTokens := HeaderTokens(env, table.columns);
    var limit := ApproxLimit(tokenLimit);
    outDocs := CsvRows(env, table, stem, headerTokens, limit);
  }

  /** The loop of `split_text`: rows are added to `chunk` one by one, and a
      Document is written out whenever the next row would not fit. */
  method CsvRows(env: CsvEnv, table: Table, stem: string, headerTokens: nat, limit: int) returns (outDocs: seq<Document>)
    ensures outDocs == DocsOf(DocMaker(env, table, stem), Batches(RowTokens(env, table.rows), headerTokens, limit))
  {
    ghost var rowTok := RowTokens(env, table.rows);
    var chunk: seq<seq<Cell>> := [];
    var currentTokens: nat := 0;
    var chunkCounter: nat := 0;
    outDocs := [];
    ghost var lo: nat := 0;
    ghost var wins: seq<Window> := [];
    for i := 0 to |table.rows|
      invariant lo <= i && InRange(wins, i)
      invariant chunk == table.rows[lo..i] && currentTokens == SumRange(rowTok, lo, i)
      invariant chunkCounter == |wins|
      invariant BatchFrom(rowTok, headerTokens, limit, i, lo, wins) == Batches(rowTok, headerTokens, limit)
      invariant outDocs == DocsOf(DocMaker(env, table, stem), wins)
    {
      outDocs, chunk, currentTokens, chunkCounter, lo, wins :=
        CsvStep(env, table, stem, headerTokens, limit, i, outDocs, chunk, currentTokens, chunkCounter, lo, wins);
    }
    if chunk != [] {
      outDocs, wins := CloseChunk(env, table, stem, outDocs, chunk, chunkCounter, lo, |table.rows|, wins);
    }
  }

  /** One pass of the row loop, taking row `i`. */
  method CsvStep(env: CsvEnv, table: Table, stem: string, headerTokens: nat, limit: int, i: nat,
                 outDocs: seq<Document>, chunk: seq<seq<Cell>>, currentTokens: nat, chunkCounter: nat,
                 ghost lo: nat, ghost wins: seq<Window>)
    returns (outDocs': seq<Document>, chunk': seq<seq<Cell>>, currentTokens': nat, chunkCounter': nat,
             ghost lo': nat, ghost wins': seq<Window>)
    requires lo <= i < |table.rows| && InRange(wins, i)
    requires chunk == table.rows[lo..i] && currentTokens == SumRange(RowTokens(env, table.rows), lo, i)
    requires chunkCounter == |wins|
    requires outDocs == DocsOf(DocMaker(env, table, stem), wins)
    ensures lo' <= i + 1 && InRange(wins', i + 1)
    ensures chunk' == table.rows[lo'..i + 1] && currentTokens' == SumRange(RowTokens(env, table.rows), lo', i + 1)
    ensures chunkCounter' == |wins'|
    ensures BatchFrom(RowTokens(env, table.rows), headerTokens, limit, i + 1, lo', wins')
         == BatchFrom(RowTokens(env, table.rows), headerTokens, limit, i, lo, wins)
    ensures outDocs' == DocsOf(DocMaker(env, table, stem), wins')
  {
    ghost var rowTok := RowTokens(env, table.rows);
    var mdRow := RowToMarkdown(env.show, table.rows[i]);
    var rowTokens := env.tok(mdRow);
    outDocs', chunk', currentTokens', chunkCounter', lo', wins' := outDocs, chunk, currentTokens, chunkCounter, lo, wins;
    if currentTokens + rowTokens + headerTokens > limit && chunk != [] {
      BatchFromClose(rowTok, headerTokens, limit, i, lo, wins);
      outDocs', wins' := CloseChunk(env, table, stem, outDocs, chunk, chunkCounter, lo, i, wins);
      chunk' := [];
      currentTokens' := 0;
      chunkCounter' := chunkCounter + 1;
      lo' := i;
    } else {
      BatchFromKeep(rowTok, headerTokens, limit, i, lo, wins);
    }
    Grow(table.rows, rowTok, lo', i);
    chunk' := chunk' + [table.rows[i]];
    currentTokens' := currentTokens' + rowTokens;
  }

  /** Writing out the chunk `rows[lo..hi]` as the next Document. */
  method CloseChunk(env: CsvEnv, table: Table, stem: string, outDocs: seq<Document>, chunk: seq<seq<Cell>>,
                    chunkCounter: nat, ghost lo: nat, ghost hi: nat, ghost wins: seq<Window>)
    returns (outDocs': seq<Document>, ghost wins': seq<Window>)
    requires lo <= hi <= |table.rows| && chunk == table.rows[lo..hi]
    requires outDocs == DocsOf(DocMaker(env, table, stem), wins) && chunkCounter == |wins|
    ensures wins' == wins + [Window(lo, hi)]
    ensures outDocs' == DocsOf(DocMaker(env, table, stem), wins')
  {
    var doc := WriteChunkDocument(env, table.columns, chunk, stem, chunkCounter);
    DocsOfSnoc(DocMaker(env, table, stem), wins, Window(lo, hi));
    DocMakerAt(env, table, stem, Window(lo, hi), |wins|);
    outDocs' := outDocs + [doc];
    wins' := wins + [Window(lo, hi)];
  }
}
