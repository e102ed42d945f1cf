/** The LLM-output handling of the analytics agents: checking that an
    answer is usable, splitting a reply into code blocks and the comments
    before them, and rendering a database schema one table per line. */
module Analytics {
  import opened Wrappers
  import opened Strings

  // ===========================================================================
  // validate_output
  // ===========================================================================

  /** One extracted output: a dict from string keys to strings. */
  type Entry = map<string, string>

  /** `output.get(key, "")`. */
  function GetStr(e: Entry, key: string): string {
    if key in e then e[key] else ""
  }

  /** An entry carrying python code or a request to the data engineer. */
  predicate HasCode(e: Entry) {
    |GetStr(e, "python")| != 0 || |GetStr(e, "request_to_data_engineer")| != 0
  }

  /** The loop of `validate_output`: true at the first entry with code. */
  function CodeFound(extracted: seq<Entry>): bool
    decreases |extracted|
  {
    if extracted == [] then false
    else if HasCode(extracted[0]) then true
    else CodeFound(extracted[1..])
  }

  /** `validate_output(llm_output, extracted_output)`. */
  function ValidateOutput(llmOutput: string, extracted: seq<Entry>): bool {
    if Contains(llmOutput, "Final Answer:") then true
    else if CodeFound(extracted) then true
    else llmOutput == "OPENAI_ERROR"
  }

  lemma {:induction false} CodeFoundIff(extracted: seq<Entry>)
    ensures CodeFound(extracted) <==> exists i :: 0 <= i < |extracted| && HasCode(extracted[i])
    decreases |extracted|
  {
    if extracted != [] {
      CodeFoundIff(extracted[1..]);
      if !HasCode(extracted[0]) && CodeFound(extracted) {
        var i :| 0 <= i < |extracted[1..]| && HasCode(extracted[1..][i]);
        assert HasCode(extracted[i + 1]);
      }
      if exists i :: 0 <= i < |extracted| && HasCode(extracted[i]) {
        var i :| 0 <= i < |extracted| && HasCode(extracted[i]);
        if i > 0 {
          assert extracted[1..][i - 1] == extracted[i];
        }
      }
    }
  }

  /** An output is valid exactly when it holds a final answer, some
      extracted entry carries code or a data request, or it is the marker
      of a failed LLM call. */
  lemma ValidateOutputIff(llmOutput: string, extracted: seq<Entry>)
    ensures ValidateOutput(llmOutput, extracted) <==>
              Contains(llmOutput, "Final Answer:")
              || (exists i :: 0 <= i < |extracted| && HasCode(extracted[i]))
              || llmOutput == "OPENAI_ERROR"
  {
    CodeFoundIff(extracted);
  }

  // ===========================================================================
  // ChatGPT_Handler.extract_code_and_comment
  // ===========================================================================

  /** The markdown fence around one python code block. */
  function Fence(code: string): (f: string)
    ensures f != []
  {
    "```python\n" + code + "```"
  }

  /** The comments collected so far and the input still to be scanned. */
  datatype Extraction = Extraction(comments: seq<string>, remaining: string)

  /** One iteration of the loop: the text before the block's fence is its
      comment, and the text after the fence (up to any repeat of it) is
      what remains; `split(...)[1]` raises when the fence is absent. */
  function CommentStep(s: Extraction, code: string): Result<Extraction> {
    var pieces := Split(s.remaining, Fence(code));
    if |pieces| < 2 then Failure(IndexOutOfRange)
    else Success(Extraction(s.comments + [pieces[0]], pieces[1]))
  }

  /** `extract_code_and_comment(entire_input, python_codes)`. */
  function ExtractCodeAndComment(input: string, codes: seq<string>): Result<Extraction> {
    Loop(CommentStep, Extraction([], input), codes)
  }

  /** Splitting on a separator gives at least two pieces exactly when the
      separator occurs; then the text starts with the first piece, the
      separator and the second piece, and neither piece holds the
      separator. */
  lemma SplitTwoPieces(s: string, sep: string, pieces: seq<string>)
    requires sep != [] && pieces == Split(s, sep)
    ensures |pieces| >= 2 <==> Contains(s, sep)
    ensures |pieces| >= 2 ==>
              StartsWith(s, pieces[0] + sep + pieces[1]) && !Contains(pieces[0], sep) && !Contains(pieces[1], sep)
  {
    SplitPiecesFree(s, sep);
    if Find(s, sep) >= 0 {
      SplitTwoShape(s, sep, pieces);
      assert pieces[0] in pieces && pieces[1] in pieces;
    }
  }

  lemma SplitTwoShape(s: string, sep: string, pieces: seq<string>)
    requires sep != [] && pieces == Split(s, sep) && Find(s, sep) >= 0
    ensures |pieces| >= 2 && StartsWith(s, pieces[0] + sep + pieces[1])
  {
    var i := Find(s, sep);
    var rest := s[i + |sep|..];
    SplitUnfold(s, sep);
    FirstPieceIsPrefix(rest, sep);
    var p1 := pieces[1];
    assert s[i..i + |sep|] == sep;
    assert s[..i + |sep| + |p1|] == s[..i] + s[i..i + |sep|] + rest[..|p1|];
  }

  /** One step fails exactly when the fence is not in the remaining input.
      Otherwise the remaining input is the new comment, the fence and the
      new remainder, in that order, and neither the comment nor the new
      remainder holds the fence. */
  lemma CommentStepFacts(s: Extraction, code: string)
    ensures var r := CommentStep(s, code);
            var f := Fence(code);
            (r.Success? <==> Contains(s.remaining, f))
            && (r.Success? ==>
                  |r.value.comments| == |s.comments| + 1
                  && r.value.comments[..|s.comments|] == s.comments
                  && var comment := r.value.comments[|s.comments|];
                     StartsWith(s.remaining, comment + f + r.value.remaining)
                     && !Contains(comment, f) && !Contains(r.value.remaining, f))
  {
    var f := Fence(code);
    var pieces := Split(s.remaining, f);
    SplitTwoPieces(s.remaining, f, pieces);
    if |pieces| >= 2 {
      assert (s.comments + [pieces[0]])[..|s.comments|] == s.comments;
    }
  }

  /** The first piece of a split is a prefix of the text. */
  lemma FirstPieceIsPrefix(s: string, sep: string)
    requires sep != []
    ensures StartsWith(s, Split(s, sep)[0])
  {
    var i := Find(s, sep);
    if i >= 0 {
      SplitUnfold(s, sep);
    }
  }

  /** On success `extract_code_and_comment` returns one comment per code
      block. */
  lemma {:induction false} ExtractCodeAndCommentFacts(input: string, codes: seq<string>)
    ensures var r := ExtractCodeAndComment(input, codes);
            r.Success? ==> |r.value.comments| == |codes|
    decreases |codes|
  {
    if codes != [] {
      var front := codes[..|codes| - 1];
      ExtractCodeAndCommentFacts(input, front);
      var t := ExtractCodeAndComment(input, front);
      if t.Success? {
        CommentStepFacts(t.value, codes[|codes| - 1]);
      }
    }
  }

  /** Handling one more code block: the comments so far are kept, and the
      new comment and remainder come from the input left by the blocks
      before it. */
  lemma ExtractCodeAndCommentSnoc(input: string, codes: seq<string>, code: string)
    ensures var r := ExtractCodeAndComment(input, codes + [code]);
            var t := ExtractCodeAndComment(input, codes);
            (r.Success? <==> t.Success? && Contains(t.value.remaining, Fence(code)))
            && (r.Success? ==>
                  t.Success? && |t.value.comments| == |codes| && |r.value.comments| == |codes| + 1
                  && r.value.comments[..|codes|] == t.value.comments
                  && StartsWith(t.value.remaining, r.value.comments[|codes|] + Fence(code) + r.value.remaining)
                  && !Contains(r.value.comments[|codes|], Fence(code))
                  && !Contains(r.value.remaining, Fence(code)))
  {
    assert (codes + [code])[..|codes|] == codes;
    var t := ExtractCodeAndComment(input, codes);
    ExtractCodeAndCommentFacts(input, codes);
    if t.Success? {
      CommentStepFacts(t.value, code);
    }
  }

  /** The loop of `extract_code_and_comment`. */
  method ExtractCodeAndCommentMethod(input: string, codes: seq<string>) returns (r: Result<Extraction>)
    ensures r == ExtractCodeAndComment(input, codes)
  {
    var remaining := input;
    var comments: seq<string> := [];
    for i := 0 to |codes|
      invariant Loop(CommentStep, Extraction([], input), codes[..i]) == Success(Extraction(comments, remaining))
    {
      var fence := Fence(codes[i]);
      var pieces := Split(remaining, fence);
      LoopSnoc(CommentStep, Extraction([], input), codes, i, Extraction(comments, remaining));
      if |pieces| < 2 {
        LoopPrefixFailure(CommentStep, Extraction([], input), codes, i + 1);
        return Failure(IndexOutOfRange);
      }
      comments := comments + [pieces[0]];
      remaining := pieces[1];
    }
    assert codes[..|codes|] == codes;
    r := Success(Extraction(comments, remaining));
  }

  // ===========================================================================
  // ChatGPT_Handler.extract_output
  // ===========================================================================

  /** One of the handler's `extract_patterns`: a name and a regular
      expression. */
  datatype Pattern = Pattern(name: string, regex: string)

  /** `re.findall(regex, text, re.DOTALL)`; regular expressions are not
      part of this model. */
  type FindAll = (string, string) -> seq<string>

  /** `{"python": code, "comment": comment}` for each code block. */
  function CodeEntries(comments: seq<string>, codes: seq<string>): (es: seq<Entry>)
    requires |comments| == |codes|
    ensures |es| == |codes|
    ensures forall k :: 0 <= k < |codes| ==> es[k] == map["python" := codes[k], "comment" := comments[k]]
  {
    if codes == [] then []
    else [map["python" := codes[0], "comment" := comments[0]]] + CodeEntries(comments[1..], codes[1..])
  }

  /** What one pattern contributes to the outputs. */
  function PatternOutputs(findAll: FindAll, pattern: Pattern, text: string): Result<seq<Entry>> {
    if Contains(pattern.regex, "python") then
      var codes := findAll(pattern.regex, text);
      ExtractCodeAndCommentFacts(text, codes);
      var ex :- ExtractCodeAndComment(text, codes);
      Success(CodeEntries(ex.comments, codes) + [map["text_after" := ex.remaining]])
    else if Contains(pattern.regex, "request_to_data_engineer") then
      var request := findAll(pattern.regex, text);
      Success(if |request| > 0 then [map["request_to_data_engineer" := request[0]]] else [])
    else Success([])
  }

  /** `extract_output(text_input)` with the handler's patterns. */
  function ExtractOutput(findAll: FindAll, patterns: seq<Pattern>, text: string): Result<seq<Entry>>
    decreases |patterns|
  {
    if patterns == [] then Success([])
    else
      var front :- ExtractOutput(findAll, patterns[..|patterns| - 1], text);
      var last :- PatternOutputs(findAll, patterns[|patterns| - 1], text);
      Success(front + last)
  }

  /** A python pattern gives one `{python, comment}` entry per code block
      found, in order, each comment being the text before the block, and
      then a single `{text_after}` entry holding what follows the last
      block; a data-engineer pattern gives its first match, if any. */
  lemma PatternOutputsFacts(findAll: FindAll, pattern: Pattern, text: string)
    ensures var r := PatternOutputs(findAll, pattern, text);
            var codes := findAll(pattern.regex, text);
            var ex := ExtractCodeAndComment(text, codes);
            (Contains(pattern.regex, "python") ==>
               (r.Success? <==> ex.Success?)
               && (r.Success? ==>
                     |ex.value.comments| == |codes| && |r.value| == |codes| + 1
                     && (forall k :: 0 <= k < |codes| ==>
                           r.value[k] == map["python" := codes[k], "comment" := ex.value.comments[k]])
                     && r.value[|codes|] == map["text_after" := ex.value.remaining]))
            && (!Contains(pattern.regex, "python") && Contains(pattern.regex, "request_to_data_engineer") ==>
                  r.Success? && |r.value| <= 1
                  && (|r.value| == 1 <==> |codes| > 0)
                  && (|r.value| == 1 ==> GetStr(r.value[0], "request_to_data_engineer") == codes[0]))
            && (!Contains(pattern.regex, "python") && !Contains(pattern.regex, "request_to_data_engineer") ==>
                  r == Success([]))
  {
    var codes := findAll(pattern.regex, text);
    ExtractCodeAndCommentFacts(text, codes);
  }

  /** `extract_output` succeeds exactly when every pattern does, and its
      outputs are those of the patterns, in the patterns' order. */
  lemma {:induction false} ExtractOutputAppend(findAll: FindAll, patterns: seq<Pattern>, pattern: Pattern, text: string)
    ensures var r := ExtractOutput(findAll, patterns + [pattern], text);
            var front := ExtractOutput(findAll, patterns, text);
            var last := PatternOutputs(findAll, pattern, text);
            (r.Success? <==> front.Success? && last.Success?)
            && (r.Success? ==> r.value == front.value + last.value)
  {
    assert (patterns + [pattern])[..|patterns|] == patterns;
  }

  /** The loop of `extract_output`. */
  method ExtractOutputMethod(findAll: FindAll, patterns: seq<Pattern>, text: string) returns (r: Result<seq<Entry>>)
    ensures r == ExtractOutput(findAll, patterns, text)
  {
    var outputs: seq<Entry> := [];
    for i := 0 to |patterns|
      invariant ExtractOutput(findAll, patterns[..i], text) == Success(outputs)
    {
      var entries: seq<Entry> := [];
      var pattern := patterns[i];
      if Contains(pattern.regex, "python") {
        var codes := findAll(pattern.regex, text);
        var ex := ExtractCodeAndCommentMethod(text, codes);
        if ex.Failure? {
          ExtractOutputAppend(findAll, patterns[..i], pattern, text);
          assert patterns[..i] + [pattern] == patterns[..i + 1];
          ExtractOutputPrefixFailure(findAll, patterns, text, i + 1);
          return Failure(ex.error);
        }
        ExtractCodeAndCommentFacts(text, codes);
        entries := CodeEntries(ex.value.comments, codes) + [map["text_after" := ex.value.remaining]];
      } else if Contains(pattern.regex, "request_to_data_engineer") {
        var request := findAll(pattern.regex, text);
        if |request| > 0 {
          entries := [map["request_to_data_engineer" := request[0]]];
        }
      }
      assert PatternOutputs(findAll, pattern, text) == Success(entries);
      ExtractOutputAppend(findAll, patterns[..i], pattern, text);
      assert patterns[..i] + [pattern] == patterns[..i + 1];
      outputs := outputs + entries;
    }
    assert patterns[..|patterns|] == patterns;
    r := Success(outputs);
  }

  /** Once a prefix of the patterns fails, `extract_output` fails with its
      error. */
  lemma {:induction false} ExtractOutputPrefixFailure(findAll: FindAll, patterns: seq<Pattern>, text: string, k: nat)
    requires k <= |patterns| && ExtractOutput(findAll, patterns[..k], text).Failure?
    ensures ExtractOutput(findAll, patterns, text) == ExtractOutput(findAll, patterns[..k], text)
    decreases |patterns|
  {
    if k == |patterns| {
      assert patterns[..k] == patterns;
    } else {
      var front := patterns[..|patterns| - 1];
      assert front[..k] == patterns[..k];
      ExtractOutputPrefixFailure(findAll, front, text, k);
    }
  }

  // ===========================================================================
  // SQL_Query_Tool.get_table_schema: the row-grouping loop
  // ===========================================================================

  /** One row of the information-schema query. */
  datatype ColumnRow = ColumnRow(schema: string, table: string, column: string, dataType: string)

  /** A name holding a space is written in brackets. */
  function Bracketed(name: string): (r: string)
    ensures ' ' in name ==> r == "[" + name + "]"
    ensures ' ' !in name ==> r == name
  {
    if ' ' in name then "[" + name + "]" else name
  }

  /** The table a row belongs to: `schema.table` on SQL Server. */
  function TableOf(row: ColumnRow, sqlServer: bool): string {
    Bracketed(if sqlServer then row.schema + "." + row.table else row.table)
  }

  function ColumnOf(row: ColumnRow): string {
    Bracketed(row.column) + " " + row.dataType
  }

  /** `f"table: {table}, columns: {', '.join(columns)}"`. */
  function TableLine(table: string, columns: seq<string>): string {
    "table: " + table + ", columns: " + Join(", ", columns)
  }

  /** The loop state: the lines emitted so far, the current table and its
      columns. */
  datatype Grouping = Grouping(output: seq<string>, currentTable: string, columns: seq<string>)

  /** One row: a change of table flushes the current table's line, unless
      no table has been seen (the current table is still `''`). */
  function GroupStep(g: Grouping, table: string, column: string): Grouping {
    if g.currentTable != table && g.currentTable != "" then
      Grouping(g.output + [TableLine(g.currentTable, g.columns)], table, [column])
    else Grouping(g.output, table, g.columns + [column])
  }

  /** The loop over the rows, with `(table, column)` per row. */
  function GroupRows(cells: seq<(string, string)>): Grouping
    decreases |cells|
  {
    if cells == [] then Grouping([], "", [])
    else
      var last := cells[|cells| - 1];
      GroupStep(GroupRows(cells[..|cells| - 1]), last.0, last.1)
  }

  function Cells(rows: seq<ColumnRow>, sqlServer: bool): (cs: seq<(string, string)>)
    ensures |cs| == |rows|
    ensures forall i :: 0 <= i < |rows| ==> cs[i] == (TableOf(rows[i], sqlServer), ColumnOf(rows[i]))
  {
    if rows == [] then [] else [(TableOf(rows[0], sqlServer), ColumnOf(rows[0]))] + Cells(rows[1..], sqlServer)
  }

  /** The schema text `get_table_schema` builds from the query's rows. */
  function TableSchema(rows: seq<ColumnRow>, sqlServer: bool): string {
    var g := GroupRows(Cells(rows, sqlServer));
    Join("\n ", g.output + [TableLine(g.currentTable, g.columns)])
  }

  /** A maximal run of consecutive rows of one table. */
  datatype Run = Run(table: string, columns: seq<string>)

  /** One more row: it joins the last run when of the same table, and
      starts a new run otherwise. */
  function AddCell(rs: seq<Run>, c: (string, string)): (r: seq<Run>)
    ensures r != []
  {
    if rs != [] && rs[|rs| - 1].table == c.0 then rs[..|rs| - 1] + [Run(c.0, rs[|rs| - 1].columns + [c.1])]
    else rs + [Run(c.0, [c.1])]
  }

  /** The rows cut into maximal runs of the same table. */
  function Runs(cells: seq<(string, string)>): (rs: seq<Run>)
    ensures cells == [] <==> rs == []
    decreases |cells|
  {
    if cells == [] then [] else AddCell(Runs(cells[..|cells| - 1]), cells[|cells| - 1])
  }

  function RunLines(runs: seq<Run>): (ls: seq<string>)
    ensures |ls| == |runs|
    ensures forall i :: 0 <= i < |runs| ==> ls[i] == TableLine(runs[i].table, runs[i].columns)
  {
    if runs == [] then [] else [TableLine(runs[0].table, runs[0].columns)] + RunLines(runs[1..])
  }

  function RunColumns(runs: seq<Run>): seq<string> {
    if runs == [] then [] else runs[0].columns + RunColumns(runs[1..])
  }

  predicate NamedTables(cells: seq<(string, string)>) {
    forall i :: 0 <= i < |cells| ==> cells[i].0 != ""
  }

  /** With every table named, the loop state after some rows holds the
      lines of all runs but the last, and the last run as the current
      table and its columns. */
  lemma {:induction false} GroupRowsRuns(cells: seq<(string, string)>)
    requires cells != [] && NamedTables(cells)
    ensures var g := GroupRows(cells);
            var rs := Runs(cells);
            g.output == RunLines(rs[..|rs| - 1])
            && g.currentTable == rs[|rs| - 1].table && g.columns == rs[|rs| - 1].columns
    decreases |cells|
  {
    var front := cells[..|cells| - 1];
    var last := cells[|cells| - 1];
    if front != [] {
      assert NamedTables(front) by {
        assert forall i :: 0 <= i < |front| ==> front[i] == cells[i];
      }
      GroupRowsRuns(front);
      var rs := Runs(front);
      if rs[|rs| - 1].table != last.0 {
        RunLinesSnoc(rs[..|rs| - 1], rs[|rs| - 1]);
        assert rs[..|rs| - 1] + [rs[|rs| - 1]] == rs;
        assert (rs + [Run(last.0, [last.1])])[..|rs|] == rs;
      } else {
        assert (rs[..|rs| - 1] + [Run(last.0, rs[|rs| - 1].columns + [last.1])])[..|rs| - 1] == rs[..|rs| - 1];
      }
    } else {
      assert GroupRows(front) == Grouping([], "", []);
      assert RunLines([]) == [];
    }
  }

  lemma RunLinesSnoc(runs: seq<Run>, run: Run)
    ensures RunLines(runs + [run]) == RunLines(runs) + [TableLine(run.table, run.columns)]
  {
    var a, b := RunLines(runs + [run]), RunLines(runs) + [TableLine(run.table, run.columns)];
    assert |a| == |b|;
    forall i | 0 <= i < |a| ensures a[i] == b[i] {
      if i < |runs| {
        assert (runs + [run])[i] == runs[i];
      }
    }
  }

  /** No run is empty and neighbouring runs belong to different tables. */
  predicate Maximal(rs: seq<Run>) {
    (forall i :: 0 <= i < |rs| ==> rs[i].columns != [])
    && (forall i :: 0 < i < |rs| ==> rs[i - 1].table != rs[i].table)
  }

  lemma AddCellMaximal(rs: seq<Run>, c: (string, string))
    requires Maximal(rs)
    ensures Maximal(AddCell(rs, c))
  {
    var r := AddCell(rs, c);
    if rs != [] && rs[|rs| - 1].table == c.0 {
      assert forall i :: 0 <= i < |rs| - 1 ==> r[i] == rs[i];
    } else {
      assert forall i :: 0 <= i < |rs| ==> r[i] == rs[i];
    }
  }

  lemma AddCellColumns(rs: seq<Run>, c: (string, string))
    ensures RunColumns(AddCell(rs, c)) == RunColumns(rs) + [c.1]
  {
    if rs != [] && rs[|rs| - 1].table == c.0 {
      var init := rs[..|rs| - 1];
      var lastRun := rs[|rs| - 1];
      assert rs == init + [lastRun];
      RunColumnsAppend(init, [lastRun]);
      RunColumnsAppend(init, [Run(c.0, lastRun.columns + [c.1])]);
      assert RunColumns([lastRun]) == lastRun.columns;
      assert RunColumns([Run(c.0, lastRun.columns + [c.1])]) == lastRun.columns + [c.1];
    } else {
      RunColumnsAppend(rs, [Run(c.0, [c.1])]);
      assert RunColumns([Run(c.0, [c.1])]) == [c.1];
    }
  }

  /** The runs are maximal, and together they hold every column in row
      order. */
  lemma {:induction false} RunsFacts(cells: seq<(string, string)>)
    ensures Maximal(Runs(cells))
    ensures RunColumns(Runs(cells)) == ColumnsOf(cells)
    decreases |cells|
  {
    if cells != [] {
      var front := cells[..|cells| - 1];
      var last := cells[|cells| - 1];
      RunsFacts(front);
      AddCellMaximal(Runs(front), last);
      AddCellColumns(Runs(front), last);
      ColumnsOfSnoc(front, last);
      assert front + [last] == cells;
    }
  }

  function ColumnsOf(cells: seq<(string, string)>): (cs: seq<string>)
    ensures |cs| == |cells|
    ensures forall i :: 0 <= i < |cells| ==> cs[i] == cells[i].1
  {
    if cells == [] then [] else [cells[0].1] + ColumnsOf(cells[1..])
  }

  lemma ColumnsOfSnoc(cells: seq<(string, string)>, c: (string, string))
    ensures ColumnsOf(cells + [c]) == ColumnsOf(cells) + [c.1]
  {
    var a, b := ColumnsOf(cells + [c]), ColumnsOf(cells) + [c.1];
    assert |a| == |b|;
    forall i | 0 <= i < |a| ensures a[i] == b[i] {
      if i < |cells| {
        assert (cells + [c])[i] == cells[i];
      }
    }
  }

  lemma {:induction false} RunColumnsAppend(a: seq<Run>, b: seq<Run>)
    ensures RunColumns(a + b) == RunColumns(a) + RunColumns(b)
  {
    if a == [] {
      assert a + b == b;
    } else {
      assert (a + b)[1..] == a[1..] + b;
      RunColumnsAppend(a[1..], b);
    }
  }

  /** With every table named, the schema has one line per maximal run of
      rows of the same table, with that run's columns; with no rows it is
      still the single line `"table: , columns: "`. */
  lemma TableSchemaFacts(rows: seq<ColumnRow>, sqlServer: bool)
    ensures rows == [] ==> TableSchema(rows, sqlServer) == "table: , columns: "
    ensures rows != [] && NamedTables(Cells(rows, sqlServer)) ==>
              TableSchema(rows, sqlServer) == Join("\n ", RunLines(Runs(Cells(rows, sqlServer))))
  {
    var cells := Cells(rows, sqlServer);
    if rows == [] {
      assert cells == [];
      assert Join(", ", []) == "";
    } else if NamedTables(cells) {
      GroupRowsRuns(cells);
      var rs := Runs(cells);
      RunLinesSnoc(rs[..|rs| - 1], rs[|rs| - 1]);
      assert rs[..|rs| - 1] + [rs[|rs| - 1]] == rs;
    }
  }

  lemma GroupRowsSnoc(cells: seq<(string, string)>, i: nat)
    requires i < |cells|
    ensures GroupRows(cells[..i + 1]) == GroupStep(GroupRows(cells[..i]), cells[i].0, cells[i].1)
  {
    assert cells[..i + 1][..i] == cells[..i];
  }

  /** The row loop of `get_table_schema`, over the rows of the schema
      query. */
  method GetTableSchema(rows: seq<ColumnRow>, sqlServer: bool) returns (schema: string)
    ensures schema == TableSchema(rows, sqlServer)
  {
    var output: seq<string> := [];
    var currentTable := "";
    var columns: seq<string> := [];
    ghost var cells := Cells(rows, sqlServer);
    for i := 0 to |rows|
      invariant GroupRows(cells[..i]) == Grouping(output, currentTable, columns)
    {
      var row := rows[i];
      var tableName := if sqlServer then row.schema + "." + row.table else row.table;
      var columnName := row.column;
      var dataType := row.dataType;
      if ' ' in tableName {
        tableName := "[" + tableName + "]";
      }
      if ' ' in columnName {
        columnName := "[" + columnName + "]";
      }
      assert tableName == TableOf(row, sqlServer) && columnName + " " + dataType == ColumnOf(row);
      GroupRowsSnoc(cells, i);
      if currentTable != tableName && currentTable != "" {
        output := output + [TableLine(currentTable, columns)];
        columns := [];
      }
      columns := columns + [columnName + " " + dataType];
      currentTable := tableName;
    }
    assert cells[..|rows|] == cells;
    schema := Join("\n ", output + [TableLine(currentTable, columns)]);
  }
}
