/** The document parsers of ragcore (parsers/parsers.py) and the factory that
    picks one by file format (parsers/parser_factory.py). What the parsers get
    from libraries (BeautifulSoup, the markdown renderer, `ast` and the
    tokenizer that clips titles) is given by the oracle fields of `ParseEnv`. */
module Parsing {
  import opened Wrappers
  import opened Strings
  import opened Cleanup
  import opened Documents
  import opened Json

  /** What BeautifulSoup finds in a page:
      - `titleString`: `soup.title.string`, when there is a `<title>` that holds one string;
      - `h1`, `h2`: `get_text(strip=True)` of the first `<h1>`/`<h2>`, when there is one;
      - `firstString`: the first of `soup.stripped_strings`, when there is one. */
  datatype HtmlFacts = HtmlFacts(titleString: Option<string>, h1: Option<string>, h2: Option<string>,
                                 firstString: Option<string>)

  datatype ParseEnv = ParseEnv(
    clip: (string, nat) -> string,                  // TokenEstimator.construct_tokens_with_size
    soup: string -> HtmlFacts,                      // BeautifulSoup(content, 'html.parser')
    toHtml: string -> string,                       // markdown.markdown(content, extensions=[...])
    docstring: string -> Result<Option<string>>)    // ast.get_docstring(ast.parse(text)); Failure on a syntax error

  /** `TITLE_MAX_TOKENS` of HTMLParser and TextParser. */
  const TitleMaxTokens: nat := 64

  /** Python truthiness of an optional string: neither `None` nor `""`. */
  predicate Present(o: Option<string>) {
    o.Some? && o.value != ""
  }

  /** `f"{x}"` for an optional string: `None` prints as "None". */
  function Format(o: Option<string>): string {
    if o.Some? then o.value else "None"
  }

  // ---------------------------------------------------------------------------
  // TextParser

  /** `str.isalnum()` on one character, for ASCII letters and digits. */
  predicate IsAlnum(c: char) {
    ('a' <= c <= 'z') || ('A' <= c <= 'Z') || ('0' <= c <= '9')
  }

  predicate HasAlnum(line: string) {
    exists i :: 0 <= i < |line| && IsAlnum(line[i])
  }

  /** The index of the first line satisfying `p`, or `|lines|` when none does. */
  function FirstIndex(lines: seq<string>, p: string -> bool): (k: nat)
    ensures k <= |lines|
    ensures k < |lines| ==> p(lines[k])
    ensures forall j :: 0 <= j < k ==> !p(lines[j])
  {
    if lines == [] then 0
    else if p(lines[0]) then 0
    else 1 + FirstIndex(lines[1..], p)
  }

  /** The first index is the only index with `p` and no `p` before it. */
  lemma FirstIndexUnique(lines: seq<string>, p: string -> bool, k: nat)
    requires k <= |lines| && (k < |lines| ==> p(lines[k]))
    requires forall j :: 0 <= j < k ==> !p(lines[j])
    ensures FirstIndex(lines, p) == k
  {
  }

  /** `_get_first_line_with_property`: the stripped rest of the first line
      that starts with `prop`. */
  function FirstLineWithProperty(content: string, prop: string): Option<string> {
    var lines := SplitLines(content);
    var k := FirstIndex(lines, l => StartsWith(l, prop));
    if k < |lines| then Some(Strip(lines[k][|prop|..])) else None
  }

  /** `_get_first_alphanum_line`: the first line holding a letter or a digit, stripped. */
  function FirstAlnumLine(content: string): Option<string> {
    var lines := SplitLines(content);
    var k := FirstIndex(lines, HasAlnum);
    if k < |lines| then Some(Strip(lines[k])) else None
  }

  /** The loop of `_get_first_line_with_property`, which stops at the first match. */
  method GetFirstLineWithProperty(content: string, prop: string) returns (title: Option<string>)
    ensures title == FirstLineWithProperty(content, prop)
  {
    var lines := SplitLines(content);
    ghost var p := (l: string) => StartsWith(l, prop);
    title := None;
    var i := 0;
    while i < |lines|
      invariant i <= |lines|
      invariant forall j :: 0 <= j < i ==> !p(lines[j])
    {
      if StartsWith(lines[i], prop) {
        title := Some(Strip(lines[i][|prop|..]));
        FirstIndexUnique(lines, p, i);
        return;
      }
      i := i + 1;
    }
    FirstIndexUnique(lines, p, i);
  }

  /** The loop of `_get_first_alphanum_line`, which stops at the first match. */
  method GetFirstAlnumLine(content: string) returns (title: Option<string>)
    ensures title == FirstAlnumLine(content)
  {
    var lines := SplitLines(content);
    title := None;
    var i := 0;
    while i < |lines|
      invariant i <= |lines|
      invariant forall j :: 0 <= j < i ==> !HasAlnum(lines[j])
    {
      var found := false;
      var c := 0;
      while c < |lines[i]|
        invariant c <= |lines[i]|
        invariant found <==> exists d :: 0 <= d < c && IsAlnum(lines[i][d])
      {
        found := found || IsAlnum(lines[i][c]);
        c := c + 1;
      }
      if found {
        title := Some(Strip(lines[i]));
        FirstIndexUnique(lines, HasAlnum, i);
        return;
      }
      i := i + 1;
    }
    FirstIndexUnique(lines, HasAlnum, i);
  }

  /** `title = a or b` on optional strings. */
  function Or(a: Option<string>, b: Option<string>): Option<string> {
    if Present(a) then a else b
  }

  /** The title `TextParser.parse` gives: the `title: ` line, else the first
      line with a letter or digit, clipped to 64 tokens; else the file name. */
  function TextTitle(env: ParseEnv, content: string, fileName: Option<string>): Option<string> {
    var found := Or(FirstLineWithProperty(content, "title: "), FirstAlnumLine(content));
    var clipped := if Present(found) then Some(env.clip(found.value, TitleMaxTokens)) else found;
    Or(clipped, fileName)
  }

  /** `TextParser.parse`. */
  function TextParse(env: ParseEnv, content: string, fileName: Option<string>): Document {
    NewDocument(CleanupContent(content)).(title := TextTitle(env, content, fileName))
  }

  /** A line found by `_get_first_alphanum_line` is never empty: stripping
      keeps the letter or digit it holds. */
  lemma AlnumLinePresent(content: string)
    ensures FirstAlnumLine(content).Some? ==> Present(FirstAlnumLine(content))
    ensures FirstAlnumLine(content).None? <==> forall l :: l in SplitLines(content) ==> !HasAlnum(l)
  {
    var lines := SplitLines(content);
    var k := FirstIndex(lines, HasAlnum);
    if k < |lines| {
      var d :| 0 <= d < |lines[k]| && IsAlnum(lines[k][d]);
      StripEmptyIff(lines[k]);
      assert !IsSpace(lines[k][d]);
    } else {
      forall l | l in lines ensures !HasAlnum(l) {
        var j :| 0 <= j < |lines| && lines[j] == l;
      }
    }
  }

  /** `_get_first_line_with_property` finds nothing exactly when no line
      starts with the property, and otherwise reads the first such line. */
  lemma PropertyLineFacts(content: string, prop: string)
    ensures var lines := SplitLines(content);
      var r := FirstLineWithProperty(content, prop);
      (r.None? <==> forall l :: l in lines ==> !StartsWith(l, prop))
      && (r.Some? ==> exists k :: 0 <= k < |lines| && StartsWith(lines[k], prop)
                                  && r.value == Strip(lines[k][|prop|..])
                                  && forall j :: 0 <= j < k ==> !StartsWith(lines[j], prop))
  {
    var lines := SplitLines(content);
    var p := (l: string) => StartsWith(l, prop);
    var k := FirstIndex(lines, p);
    if k == |lines| {
      forall l | l in lines ensures !StartsWith(l, prop) {
        var j :| 0 <= j < |lines| && lines[j] == l;
        assert !p(lines[j]);
      }
    } else {
      assert p(lines[k]);
      forall j | 0 <= j < k ensures !StartsWith(lines[j], prop) {
        assert !p(lines[j]);
      }
    }
  }

  /** The precedence of `TextParser.parse`'s title. */
  lemma TextParseTitle(env: ParseEnv, content: string, fileName: Option<string>)
    ensures var byProperty := FirstLineWithProperty(content, "title: ");
      var byAlnum := FirstAlnumLine(content);
      var t := TextParse(env, content, fileName).title;
      ((Present(byProperty) && env.clip(byProperty.value, TitleMaxTokens) != "")
         ==> t == Some(env.clip(byProperty.value, TitleMaxTokens)))
      && ((!Present(byProperty) && byAlnum.Some? && env.clip(byAlnum.value, TitleMaxTokens) != "")
         ==> t == Some(env.clip(byAlnum.value, TitleMaxTokens)))
      && (!Present(byProperty) && byAlnum.None? ==> t == fileName)
      && (t.Some? && t != fileName ==> t.value == env.clip(Or(byProperty, byAlnum).value, TitleMaxTokens))
  {
    AlnumLinePresent(content);
  }

  /** `TextParser.parse` returns the cleaned input as content. */
  lemma TextParseContent(env: ParseEnv, content: string, fileName: Option<string>)
    ensures TextParse(env, content, fileName).content == CleanupContent(content)
    ensures TextParse(env, content, fileName).filepath.None?
  {
  }

  // ---------------------------------------------------------------------------
  // HTMLParser and MarkdownParser

  /** `<title>`, else the first `<h1>`, else the first `<h2>`, else `""`. */
  function Heading(f: HtmlFacts): string {
    if Present(f.titleString) then f.titleString.value
    else if f.h1.Some? then f.h1.value
    else if f.h2.Some? then f.h2.value
    else ""
  }

  /** The title `HTMLParser.parse` gives. */
  function HtmlTitle(env: ParseEnv, content: string, fileName: Option<string>): string {
    var f := env.soup(content);
    var heading := Heading(f);
    if heading != "" then heading
    else if f.firstString.Some? then env.clip(f.firstString.value, TitleMaxTokens)
    else fileName.GetOr("")
  }

  function HtmlParse(env: ParseEnv, content: string, fileName: Option<string>): Document {
    NewDocument(CleanupContent(content)).(title := Some(HtmlTitle(env, content, fileName)))
  }

  /** `HTMLParser.parse`, reassigning `title` case by case. */
  method HtmlParseSteps(env: ParseEnv, content: string, fileName: Option<string>) returns (doc: Document)
    ensures doc == HtmlParse(env, content, fileName)
  {
    var soup := env.soup(content);
    var title := Some("");
    if Present(soup.titleString) {
      title := soup.titleString;
    } else if soup.h1.Some? {
      title := soup.h1;
    } else if soup.h2.Some? {
      title := soup.h2;
    }
    if title.None? || title == Some("") {
      if soup.firstString.Some? {
        title := Some(env.clip(soup.firstString.value, TitleMaxTokens));
      } else {
        title := fileName;
      }
    }
    if title.None? {
      title := Some("");
    }
    doc := NewDocument(CleanupContent(content)).(title := title);
  }

  /** `HTMLParser.parse`'s title: `<title>` > first `<h1>` > first `<h2>` >
      first string (clipped) > file name > `""`; an `<h1>` that exists masks
      every `<h2>`, and the title is never `None`. */
  lemma HtmlTitlePrecedence(env: ParseEnv, content: string, fileName: Option<string>)
    ensures var f := env.soup(content);
      var d := HtmlParse(env, content, fileName);
      d.title.Some? && d.content == CleanupContent(content)
      && (Present(f.titleString) ==> d.title == f.titleString)
      && (!Present(f.titleString) && Present(f.h1) ==> d.title == f.h1)
      && (!Present(f.titleString) && f.h1.None? && Present(f.h2) ==> d.title == f.h2)
      && (!Present(f.titleString) && !Present(f.h1) && !(f.h1.None? && Present(f.h2)) ==>
            d.title == Some(if f.firstString.Some? then env.clip(f.firstString.value, TitleMaxTokens)
                            else fileName.GetOr("")))
  {
  }

  /** `MarkdownParser.parse`: the title of the rendered HTML, the cleaned
      markdown as content. */
  function MarkdownParse(env: ParseEnv, content: string, fileName: Option<string>): Document {
    NewDocument(CleanupContent(content)).(title := HtmlParse(env, env.toHtml(content), fileName).title)
  }

  /** The Markdown parser's content is the cleaned original markdown, never the HTML. */
  lemma MarkdownParseFacts(env: ParseEnv, content: string, fileName: Option<string>)
    ensures var d := MarkdownParse(env, content, fileName);
      d.content == CleanupContent(content)
      && d.title == Some(HtmlTitle(env, env.toHtml(content), fileName))
  {
  }

  // ---------------------------------------------------------------------------
  // PythonParser and CSVParser

  /** `PythonParser.parse`: fails when `ast.parse` does. */
  function PythonParse(env: ParseEnv, content: string, fileName: Option<string>): Result<Document> {
    var docstring :- env.docstring(content);
    var title := if Present(docstring) then Some(Format(fileName) + ": " + docstring.value) else fileName;
    Success(NewDocument(content).(title := title))
  }

  lemma PythonParseFacts(env: ParseEnv, content: string, fileName: Option<string>)
    ensures var r := PythonParse(env, content, fileName);
      (r.Failure? <==> env.docstring(content).Failure?)
      && (r.Success? ==> r.value.content == content)
      && (r.Success? && Present(env.docstring(content).value) ==>
            StartsWith(r.value.title.value, Format(fileName) + ": ")
            && EndsWith(r.value.title.value, env.docstring(content).value.value))
      && (r.Success? && !Present(env.docstring(content).value) ==> r.value.title == fileName)
  {
    var r := PythonParse(env, content, fileName);
    if r.Success? && Present(env.docstring(content).value) {
      StartsWithSelf(Format(fileName) + ": ", env.docstring(content).value.value);
      EndsWithAppend(Format(fileName) + ": ", env.docstring(content).value.value);
    }
  }

  // ---------------------------------------------------------------------------
  // ParserFactory

  datatype Parser = HtmlParser | TextParser | MarkdownParser | PythonParser | CsvParser

  /** The registry built by `ParserFactory.__init__`, in insertion order. */
  const Registry: seq<(string, Parser)> :=
    [("html", HtmlParser), ("text", TextParser), ("markdown", MarkdownParser), ("python", PythonParser), ("csv", CsvParser)]

  /** `supported_formats`: the registry's keys. */
  function SupportedFormats(): (r: seq<string>)
    ensures r == ["html", "text", "markdown", "python", "csv"]
  {
    seq(|Registry|, i requires 0 <= i < |Registry| => Registry[i].0)
  }

  /** `self._parsers.get(file_format, None)`. */
  function Registered(format: string): (r: Option<Parser>)
    ensures r.Some? <==> format in SupportedFormats()
  {
    if format == "html" then Some(HtmlParser)
    else if format == "text" then Some(TextParser)
    else if format == "markdown" then Some(MarkdownParser)
    else if format == "python" then Some(PythonParser)
    else if format == "csv" then Some(CsvParser)
    else None
  }

  /** `ParserFactory.__call__(file_format, use_fr)`. */
  function ParserFor(format: string, useFr: bool): Result<Parser> {
    var parser := if format == "pdf" then Registered(if useFr then "html" else "text") else Registered(format);
    if parser.None? then Failure(UnsupportedFormat(format)) else Success(parser.value)
  }

  /** The factory resolves exactly the registered formats and "pdf"; "pdf"
      reads as HTML with `use_fr` and as text without; `use_fr` changes
      nothing else; the registered parser is the one listed with its format. */
  lemma ParserForFacts(format: string, useFr: bool)
    ensures var r := ParserFor(format, useFr);
      (r.Success? <==> format in SupportedFormats() || format == "pdf")
      && (r.Failure? ==> r.error == UnsupportedFormat(format))
      && (format == "pdf" ==> r == Success(if useFr then HtmlParser else TextParser))
      && (format != "pdf" ==> r == ParserFor(format, !useFr))
      && (forall i :: 0 <= i < |Registry| && Registry[i].0 == format ==> r == Success(Registry[i].1))
  {
  }

  /** `parser.parse(content, file_name=file_name)`. */
  function Parse(env: ParseEnv, parser: Parser, content: string, fileName: Option<string>): Result<Document> {
    match parser
    case HtmlParser => Success(HtmlParse(env, content, fileName))
    case TextParser => Success(TextParse(env, content, fileName))
    case MarkdownParser => Success(MarkdownParse(env, content, fileName))
    case PythonParser => PythonParse(env, content, fileName)
    case CsvParser => Success(NewDocument(content))
  }

  /** Only the Python parser can fail; the CSV parser keeps the content and
      gives no title; Text, HTML and Markdown return the cleaned input. */
  lemma ParseFacts(env: ParseEnv, parser: Parser, content: string, fileName: Option<string>)
    ensures var r := Parse(env, parser, content, fileName);
      (r.Failure? ==> parser == PythonParser)
      && (parser == CsvParser ==> r == Success(NewDocument(content)) && r.value.title.None?)
      && (parser in {HtmlParser, TextParser, MarkdownParser} ==> r.Success? && r.value.content == CleanupContent(content))
  {
  }
}
