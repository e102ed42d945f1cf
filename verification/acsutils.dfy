/** The conversion of raw Azure AI Search hits: field-name normalisation,
    the title found in the text, and the hit record. */
module AcsUtils {
  import opened Wrappers
  import opened Strings
  import opened Json
  import opened Documents

  /** `FIELD_GUESSES`: each canonical name with the keys saved under it. */
  const FieldGuesses: seq<(string, seq<string>)> := [
    ("title", ["title"]),
    ("url", ["url", "uri", "link", "document_link"]),
    ("filepath", ["filepath", "filename"]),
    ("metadata", ["metadata"])]

  /** The canonical name whose alias set holds `key`, if any. */
  function GuessFor(guesses: seq<(string, seq<string>)>, key: string): Option<string> {
    if guesses == [] then None
    else if key in guesses[0].1 then Some(guesses[0].0)
    else GuessFor(guesses[1..], key)
  }

  /** The name an entry is saved under: its canonical name, or the key itself. */
  function Canonical(key: string): string {
    match GuessFor(FieldGuesses, key)
    case Some(name) => name
    case None => key
  }

  /** Only the four canonical names come out of an alias: "uri", "link",
      "document_link" and "filename" never survive. */
  lemma CanonicalNames(key: string)
    ensures var c := Canonical(key);
      c != "uri" && c != "link" && c != "document_link" && c != "filename"
    ensures GuessFor(FieldGuesses, key).None? ==> Canonical(key) == key
  {
    GuessForNames(FieldGuesses, key);
    assert "url"[2] != "uri"[2] && "url"[0] != "link"[0];
    assert |"url"| != |"document_link"| && |"url"| != |"filename"|;
    assert "filepath"[4] != "filename"[4];
    assert |"filepath"| != |"uri"| && |"filepath"| != |"link"| && |"filepath"| != |"document_link"|;
    assert |"title"| != |"uri"| && "title"[0] != "link"[0] && |"title"| != |"document_link"| && |"title"| != |"filename"|;
    assert |"metadata"| != |"uri"| && |"metadata"| != |"link"| && |"metadata"| != |"document_link"|;
    assert "metadata"[0] != "filename"[0];
    if key == "uri" || key == "link" || key == "document_link" || key == "filename" {
      assert GuessFor(FieldGuesses, key).Some? by {
        if key == "filename" {
          assert key in FieldGuesses[2].1;
        } else {
          assert key in FieldGuesses[1].1;
        }
        GuessForFinds(FieldGuesses, key, if key == "filename" then 2 else 1);
      }
    }
  }

  /** A name found by `GuessFor` is one of the table's canonical names. */
  lemma {:induction false} GuessForNames(guesses: seq<(string, seq<string>)>, key: string)
    ensures GuessFor(guesses, key).Some? ==>
      exists j :: 0 <= j < |guesses| && guesses[j].0 == GuessFor(guesses, key).value
  {
    if guesses != [] && key !in guesses[0].1 {
      GuessForNames(guesses[1..], key);
      if GuessFor(guesses, key).Some? {
        var j :| 0 <= j < |guesses[1..]| && guesses[1..][j].0 == GuessFor(guesses, key).value;
        assert guesses[j + 1].0 == GuessFor(guesses, key).value;
      }
    }
  }

  /** A key listed in some alias set is always found. */
  lemma {:induction false} GuessForFinds(guesses: seq<(string, seq<string>)>, key: string, j: nat)
    requires j < |guesses| && key in guesses[j].1
    ensures GuessFor(guesses, key).Some?
  {
    if j > 0 && key !in guesses[0].1 {
      GuessForFinds(guesses[1..], key, j - 1);
    }
  }

  /** `normalize_content_fields` on a value: a dict gets its keys renamed at
      every nesting level, anything else is left as it is. */
  function Normalize(v: Value): Value
    decreases v, 1
  {
    match v
    case Obj(fields) => Obj(Guessed(fields, NormalizedItems(v), |fields|))
    case _ => v
  }

  /** The entries' values of a dict, each normalised. */
  function NormalizedItems(v: Value): (items: seq<Value>)
    requires v.Obj?
    ensures |items| == |v.fields|
    decreases v, 0
  {
    seq(|v.fields|, i requires 0 <= i < |v.fields| => assert v.fields[i] in v.fields; Normalize(v.fields[i].value))
  }

  /** The dict built from the first `n` entries: entry `i`'s value `items[i]`
      stored under the canonical name of its key. */
  function Guessed(fields: seq<Field>, items: seq<Value>, n: nat): seq<Field>
    requires |items| == |fields| && n <= |fields|
  {
    if n == 0 then []
    else Put(Guessed(fields, items, n - 1), Canonical(fields[n - 1].key), items[n - 1])
  }

  /** `normalize_content_fields(obj)`: the loop over the keys, with the
      recursive call for a dict value. */
  method NormalizeContentFields(v: Value) returns (r: Value)
    requires v.Obj?
    ensures r == Normalize(v)
    decreases v
  {
    var guessed: seq<Field> := [];
    ghost var items := NormalizedItems(v);
    for i := 0 to |v.fields|
      invariant guessed == Guessed(v.fields, items, i)
    {
      var item := v.fields[i].value;
      assert v.fields[i] in v.fields;
      assert items[i] == Normalize(item);
      if item.Obj? {
        item := NormalizeContentFields(item);
      }
      assert item == items[i];
      guessed := Put(guessed, Canonical(v.fields[i].key), item);
    }
    r := Obj(guessed);
  }

  /** The value of the last of the first `n` entries whose key has canonical
      name `key`. */
  function LastWith(fields: seq<Field>, items: seq<Value>, key: string, n: nat): Option<Value>
    requires |items| == |fields| && n <= |fields|
  {
    if n == 0 then None
    else if Canonical(fields[n - 1].key) == key then Some(items[n - 1])
    else LastWith(fields, items, key, n - 1)
  }

  /** Under each name the normalised dict holds the value of the last entry
      saved under that name: an alias is renamed, when several aliases of
      one name are present the last one wins, and every other key keeps its
      value. */
  lemma {:induction false} GuessedLookup(fields: seq<Field>, items: seq<Value>, key: string, n: nat)
    requires |items| == |fields| && n <= |fields|
    ensures Lookup(Guessed(fields, items, n), key) == LastWith(fields, items, key, n)
  {
    if n > 0 {
      GuessedLookup(fields, items, key, n - 1);
      LookupPut(Guessed(fields, items, n - 1), Canonical(fields[n - 1].key), items[n - 1], key);
    }
  }

  /** The normalised dict's keys are the canonical names of the original
      keys. */
  lemma {:induction false} GuessedKeys(fields: seq<Field>, items: seq<Value>, n: nat)
    requires |items| == |fields| && n <= |fields|
    ensures forall k :: k in Keys(Guessed(fields, items, n)) <==> exists i :: 0 <= i < n && Canonical(fields[i].key) == k
  {
    if n > 0 {
      GuessedKeys(fields, items, n - 1);
      PutKeys(Guessed(fields, items, n - 1), Canonical(fields[n - 1].key), items[n - 1]);
      var ks := Keys(Guessed(fields, items, n));
      forall k | k in ks
        ensures exists i :: 0 <= i < n && Canonical(fields[i].key) == k
      {
        if k != Canonical(fields[n - 1].key) {
          assert k in Keys(Guessed(fields, items, n - 1));
        }
      }
    }
  }

  /** No alias other than a canonical name survives. */
  lemma GuessedNoAlias(fields: seq<Field>, items: seq<Value>, n: nat)
    requires |items| == |fields| && n <= |fields|
    ensures forall k :: k in Keys(Guessed(fields, items, n)) ==>
      k != "uri" && k != "link" && k != "document_link" && k != "filename"
  {
    GuessedKeys(fields, items, n);
    forall k | k in Keys(Guessed(fields, items, n))
      ensures k != "uri" && k != "link" && k != "document_link" && k != "filename"
    {
      var i :| 0 <= i < n && Canonical(fields[i].key) == k;
      CanonicalNames(fields[i].key);
    }
  }

  /** Normalising only renames: a dict without aliases, repeated keys or
      nested dicts is returned unchanged. */
  lemma {:induction false} GuessedPlain(fields: seq<Field>, items: seq<Value>, n: nat)
    requires |items| == |fields| && n <= |fields|
    requires forall i :: 0 <= i < |fields| ==> Canonical(fields[i].key) == fields[i].key && items[i] == fields[i].value
    requires forall i, j :: 0 <= i < j < |fields| ==> fields[i].key != fields[j].key
    ensures Guessed(fields, items, n) == fields[..n]
  {
    if n > 0 {
      GuessedPlain(fields, items, n - 1);
      PutNew(fields[..n - 1], fields[n - 1].key, fields[n - 1].value);
      assert fields[..n] == fields[..n - 1] + [fields[n - 1]];
    }
  }

  /** For a dict, a lookup in the normalised dict finds the value of the
      last entry whose key has that canonical name. */
  lemma NormalizeLookup(v: Value, key: string)
    requires v.Obj?
    ensures Lookup(Normalize(v).fields, key) == LastWith(v.fields, NormalizedItems(v), key, |v.fields|)
  {
    GuessedLookup(v.fields, NormalizedItems(v), key, |v.fields|);
  }

  /** For a dict, the normalised keys are the canonical names of the
      original keys, and no alias survives. */
  lemma NormalizeKeys(v: Value)
    requires v.Obj?
    ensures forall k :: k in Keys(Normalize(v).fields) <==>
      exists i :: 0 <= i < |v.fields| && Canonical(v.fields[i].key) == k
    ensures forall k :: k in Keys(Normalize(v).fields) ==>
      k != "uri" && k != "link" && k != "document_link" && k != "filename"
  {
    GuessedKeys(v.fields, NormalizedItems(v), |v.fields|);
    GuessedNoAlias(v.fields, NormalizedItems(v), |v.fields|);
  }

  /** A dict whose keys are distinct canonical names and whose values are
      not dicts comes back unchanged. */
  lemma NormalizeUnchanged(v: Value)
    requires v.Obj?
    requires forall i :: 0 <= i < |v.fields| ==> Canonical(v.fields[i].key) == v.fields[i].key && !v.fields[i].value.Obj?
    requires forall i, j :: 0 <= i < j < |v.fields| ==> v.fields[i].key != v.fields[j].key
    ensures Normalize(v) == v
  {
    var items := NormalizedItems(v);
    forall i | 0 <= i < |v.fields| ensures items[i] == v.fields[i].value {
      assert v.fields[i] in v.fields;
      assert items[i] == Normalize(v.fields[i].value);
    }
    GuessedPlain(v.fields, items, |v.fields|);
    assert v.fields[..|v.fields|] == v.fields;
  }

  /** A key listed in no alias set has no canonical name of its own. */
  lemma {:induction false} GuessForMissing(guesses: seq<(string, seq<string>)>, key: string)
    requires forall j :: 0 <= j < |guesses| ==> key !in guesses[j].1
    ensures GuessFor(guesses, key) == None
  {
    if guesses != [] {
      assert key !in guesses[0].1;
      GuessForMissing(guesses[1..], key);
    }
  }

  lemma {:induction false} PutNew(fields: seq<Field>, key: string, value: Value)
    requires forall i :: 0 <= i < |fields| ==> fields[i].key != key
    ensures Put(fields, key, value) == fields + [Field(key, value)]
  {
    if fields != [] {
      PutNew(fields[1..], key, value);
    }
  }

  /** Two aliases of `url`: the later one is kept, under the canonical name,
      at the position of the first. */
  lemma NormalizeExample()
    ensures Normalize(Obj([Field("uri", Str("a")), Field("id", Int(1)), Field("link", Str("b"))]))
      == Obj([Field("url", Str("b")), Field("id", Int(1))])
  {
    var v := Obj([Field("uri", Str("a")), Field("id", Int(1)), Field("link", Str("b"))]);
    var items := NormalizedItems(v);
    assert items == [Str("a"), Int(1), Str("b")] by {
      assert v.fields[0] in v.fields && v.fields[1] in v.fields && v.fields[2] in v.fields;
    }
    ExampleCanonical();
    var g1 := [Field("url", Str("a"))];
    var g2 := g1 + [Field("id", Int(1))];
    assert Guessed(v.fields, items, 1) == g1;
    assert Guessed(v.fields, items, 2) == Put(g1, "id", Int(1)) == g2;
    assert Guessed(v.fields, items, 3) == Put(g2, "url", Str("b"));
  }

  /** The canonical names of the example's keys. */
  lemma ExampleCanonical()
    ensures Canonical("uri") == "url" && Canonical("link") == "url" && Canonical("id") == "id"
  {
    assert Canonical("uri") == "url" && Canonical("link") == "url" by {
      assert "uri" != "title" && "link" != "title";
      assert "uri" in FieldGuesses[1].1 && "link" in FieldGuesses[1].1;
      assert FieldGuesses[1..][0] == FieldGuesses[1];
    }
    assert |"id"| != |"title"| && |"id"| != |"url"| && |"id"| != |"uri"| && |"id"| != |"link"|;
    assert |"id"| != |"document_link"| && |"id"| != |"filepath"| && |"id"| != |"filename"| && |"id"| != |"metadata"|;
    GuessForMissing(FieldGuesses, "id");
  }

  /** `TITLE_REGEX` matches at `p`: `t` or `T`, then `itle: `, and a line
      break somewhere after it (`.` does not match a line break). */
  predicate TitleAt(s: string, p: nat) {
    p + 7 <= |s| && (s[p] == 't' || s[p] == 'T') && s[p + 1..p + 7] == "itle: " && '\n' in s[p + 7..]
  }

  /** The first match at or after `p`. */
  function FindTitle(s: string, p: nat): (r: Option<nat>)
    ensures r.Some? ==> p <= r.value && TitleAt(s, r.value)
    ensures forall q :: p <= q && (r.None? || q < r.value) ==> !TitleAt(s, q)
    decreases |s| - p
  {
    if p + 7 > |s| then None
    else if TitleAt(s, p) then Some(p)
    else FindTitle(s, p + 1)
  }

  /** The index of the first line break at or after `i`, or the length. */
  function LineEnd(s: string, i: nat): (e: nat)
    requires i <= |s|
    ensures i <= e <= |s|
    ensures forall k :: i <= k < e ==> s[k] != '\n'
    ensures e < |s| ==> s[e] == '\n'
    decreases |s| - i
  {
    if i == |s| || s[i] == '\n' then i else LineEnd(s, i + 1)
  }

  /** `extract_title_from_content`: the stripped capture of the first match,
      or "" when there is none or the capture is empty. */
  function ExtractTitleFromContent(s: string): string {
    match FindTitle(s, 0)
    case None => ""
    case Some(p) =>
      var capture := s[p + 7..LineEnd(s, p + 7)];
      if capture != [] then Strip(capture) else ""
  }

  /** A match has its line break: the capture ends before the end of the text. */
  lemma TitleLineEnds(s: string, p: nat)
    requires TitleAt(s, p)
    ensures LineEnd(s, p + 7) < |s|
  {
    var k :| 0 <= k < |s[p + 7..]| && s[p + 7..][k] == '\n';
    assert s[p + 7 + k] == '\n';
  }

  /** Stripping keeps a string free of line breaks. */
  lemma StripKeepsNoBreak(s: string)
    requires '\n' !in s
    ensures '\n' !in Strip(s)
  {
    StripIsInfix(s);
    var a, b :| Trimmed(s, a, b) && Strip(s) == s[a..b];
    assert forall k :: 0 <= k < b - a ==> s[a..b][k] == s[a + k];
  }

  /** The title is "" without a `title: ` line that ends in a line break;
      otherwise it is the stripped rest of the first such line, which holds
      no line break. */
  lemma ExtractTitleFacts(s: string)
    ensures var r := ExtractTitleFromContent(s);
      ((forall p: nat :: !TitleAt(s, p)) ==> r == "") &&
      '\n' !in r &&
      (r != "" ==> exists p: nat ::
         TitleAt(s, p) && (forall q: nat :: q < p ==> !TitleAt(s, q)) &&
         LineEnd(s, p + 7) < |s| && r == Strip(s[p + 7..LineEnd(s, p + 7)]))
  {
    match FindTitle(s, 0)
    case None =>
    case Some(p) =>
      TitleLineEnds(s, p);
      StripKeepsNoBreak(s[p + 7..LineEnd(s, p + 7)]);
  }

  /** A title line at the start is found and stripped. */
  lemma ExtractTitleExample()
    ensures ExtractTitleFromContent("Title: Intro \nbody") == "Intro"
  {
    var s := "Title: Intro \nbody";
    ExampleTitleCapture();
    assert s[7..13] == "Intro ";
    StripIntro();
  }

  /** The match in the example: at the start, with its line break at 13. */
  lemma ExampleTitleCapture()
    ensures FindTitle("Title: Intro \nbody", 0) == Some(0)
    ensures LineEnd("Title: Intro \nbody", 7) == 13
  {
    var s := "Title: Intro \nbody";
    assert s[1..7] == "itle: ";
    assert s[13] == '\n';
    assert TitleAt(s, 0);
  }

  /** Stripping the example's capture removes its trailing blank. */
  lemma StripIntro()
    ensures Strip("Intro ") == "Intro"
  {
    assert LStripWith("Intro ", IsSpace) == "Intro ";
    assert RStripWith("Intro ", IsSpace) == RStripWith("Intro", IsSpace);
    assert "Intro "[..5] == "Intro";
  }

  /** A number read from a hit: an int or a float. */
  function AsNumber(v: Value): Result<real> {
    match v
    case Int(i) => Success(i as real)
    case Float(f) => Success(f)
    case _ => Failure(TypeMismatch)
  }

  function AsString(v: Value): Result<string> {
    match v
    case Str(s) => Success(s)
    case _ => Failure(TypeMismatch)
  }

  /** The metadata properties read from a metadata dict; absent ones are None. */
  function MetadataOf(m: Value): Result<AcsMetadata>
    requires m.Obj?
  {
    var searchScore :- AsScore(GetOr(m, "@search.score", Null));
    var rerankerScore :- AsScore(GetOr(m, "@search.reranker_score", Null));
    var filepath :- AsOptionalString(GetOr(m, "filepath", Null));
    var url :- AsOptionalString(GetOr(m, "url", Null));
    var chunkId :- AsChunkId(GetOr(m, "chunk_id", Null));
    var title :- AsOptionalString(GetOr(m, "title", Null));
    Success(AcsMetadata(searchScore, rerankerScore, GetOr(m, "@search.highlights", Null), filepath, url, chunkId, title))
  }

  /** A title is falsy when it is None or "". */
  predicate TitleTruthy(t: Option<string>) {
    t.Some? && t.value != []
  }

  /** `result_to_dataclass`: normalise the keys, read score (default 0), text
      (default "") and metadata, then fall back to the title in the text. */
  function ResultToDataclass(result: Value): Result<AcsHit> {
    if !result.Obj? then Failure(TypeMismatch)
    else
      var r := Normalize(result);
      var metadata := GetOr(r, "metadata", Null);
      var score :- AsNumber(GetOr(r, "score", Int(0)));
      var text :- AsString(GetOr(r, "text", Str("")));
      var md :- if metadata.Obj? then MetadataOf(metadata) else Success(EmptyAcsMetadata);
      var title := if !TitleTruthy(md.title) && text != [] then Some(ExtractTitleFromContent(text)) else md.title;
      Success(AcsHit(md.(title := title), score, text))
  }

  /** Defaults and the title fallback: a hit without score or text reads 0
      and ""; metadata that is not a dict leaves every metadata property
      None; the title comes from the text exactly when the metadata title is
      falsy and the text is not empty. */
  lemma ResultToDataclassFacts(result: Value)
    ensures !result.Obj? ==> ResultToDataclass(result).Failure?
    ensures var r := ResultToDataclass(result);
      r.Success? ==>
        var n := Normalize(result);
        (Get(n, "score").None? ==> r.value.score == 0.0) &&
        (Get(n, "text").None? ==> r.value.text == "") &&
        (!GetOr(n, "metadata", Null).Obj? ==>
           r.value.metadata.(title := None) == EmptyAcsMetadata &&
           r.value.metadata.title == (if r.value.text != [] then Some(ExtractTitleFromContent(r.value.text)) else None)) &&
        (GetOr(n, "metadata", Null).Obj? ==>
           var md := MetadataOf(GetOr(n, "metadata", Null));
           md.Success? &&
           r.value.metadata.(title := md.value.title) == md.value &&
           r.value.metadata.title ==
             (if !TitleTruthy(md.value.title) && r.value.text != [] then Some(ExtractTitleFromContent(r.value.text))
              else md.value.title))
  {
  }

  /** `parse_results_list`: each raw hit converted, its chunk id set to its
      position. */
  function ParseResultsList(results: seq<Value>): Result<seq<AcsHit>>
    decreases |results|
  {
    if results == [] then Success([])
    else
      var front :- ParseResultsList(results[..|results| - 1]);
      var hit :- ResultToDataclass(results[|results| - 1]);
      Success(front + [Positioned(hit, |results| - 1)])
  }

  method ParseResultsListMethod(results: seq<Value>) returns (r: Result<seq<AcsHit>>)
    ensures r == ParseResultsList(results)
  {
    var parsed: seq<AcsHit> := [];
    for i := 0 to |results|
      invariant ParseResultsList(results[..i]) == Success(parsed)
    {
      assert results[..i + 1][..i] == results[..i];
      match ResultToDataclass(results[i])
      case Failure(e) =>
        ParseResultsFailurePersists(results, i + 1);
        return Failure(e);
      case Success(hit) =>
        parsed := parsed + [Positioned(hit, i)];
    }
    assert results[..|results|] == results;
    r := Success(parsed);
  }

  lemma {:induction false} ParseResultsFailurePersists(results: seq<Value>, k: nat)
    requires k <= |results| && ParseResultsList(results[..k]).Failure?
    ensures ParseResultsList(results) == ParseResultsList(results[..k])
    decreases |results| - k
  {
    if k < |results| {
      assert results[..k + 1][..k] == results[..k];
      ParseResultsFailurePersists(results, k + 1);
    } else {
      assert results[..k] == results;
    }
  }

  /** A converted hit with its position as chunk id. */
  function Positioned(hit: AcsHit, i: nat): AcsHit {
    hit.(metadata := hit.metadata.(chunkId := IntId(i)))
  }

  /** `hits` is `results` converted one by one, with positions as chunk ids. */
  ghost predicate ParsedAll(results: seq<Value>, hits: seq<AcsHit>) {
    |hits| == |results| &&
    forall i :: 0 <= i < |results| ==> ParsedAt(results[i], hits[i], i)
  }

  predicate ParsedAt(result: Value, hit: AcsHit, i: nat) {
    var h := ResultToDataclass(result);
    h.Success? && hit == Positioned(h.value, i)
  }

  /** The parsed list has one hit per raw hit, in order: the converted hit
      with its position as chunk id. */
  lemma {:induction false} ParseResultsListFacts(results: seq<Value>)
    ensures var r := ParseResultsList(results);
      r.Success? ==> ParsedAll(results, r.value)
    decreases |results|
  {
    if results != [] {
      var n := |results| - 1;
      var init := results[..n];
      ParseResultsListFacts(init);
      var front := ParseResultsList(init);
      var conv := ResultToDataclass(results[n]);
      if front.Success? && conv.Success? {
        var hits := front.value + [Positioned(conv.value, n)];
        assert ParseResultsList(results) == Success(hits);
        forall i | 0 <= i < |results| ensures ParsedAt(results[i], hits[i], i) {
          if i < n {
            assert init[i] == results[i];
            assert ParsedAt(init[i], front.value[i], i);
          }
        }
      }
    }
  }

  /** The parse fails exactly when some hit does not convert, and then with
      the error of the first such hit. */
  lemma {:induction false} ParseResultsListFailure(results: seq<Value>)
    ensures var r := ParseResultsList(results);
      r.Failure? <==> exists i :: 0 <= i < |results| && ResultToDataclass(results[i]).Failure?
    ensures var r := ParseResultsList(results);
      r.Failure? ==> exists i :: 0 <= i < |results| && ResultToDataclass(results[i]) == Failure(r.error) &&
                       forall j :: 0 <= j < i ==> ResultToDataclass(results[j]).Success?
    decreases |results|
  {
    ParseResultsListFacts(results);
    if results != [] {
      var n := |results| - 1;
      var init := results[..n];
      ParseResultsListFailure(init);
      var front := ParseResultsList(init);
      if front.Success? {
        ParseResultsListFacts(init);
        forall j | 0 <= j < n ensures ResultToDataclass(results[j]).Success? {
          assert init[j] == results[j];
          assert ParsedAt(init[j], front.value[j], j);
        }
      } else {
        var i :| 0 <= i < n && ResultToDataclass(init[i]) == Failure(front.error) &&
                 forall j :: 0 <= j < i ==> ResultToDataclass(init[j]).Success?;
        assert init[i] == results[i];
        forall j | 0 <= j < i ensures ResultToDataclass(results[j]).Success? {
          assert init[j] == results[j];
        }
      }
    }
  }

  /** `result_to_document`: text becomes content; chunk id, title, file path
      and url come from the metadata; the score is the hit's score and the
      metadata is left None. */
  function ResultToDocument(hit: AcsHit): Document {
    Document(hit.text, hit.metadata.chunkId, Some(hit.score), hit.metadata.title, hit.metadata.filepath,
             hit.metadata.url, Null)
  }

  /** A hit converted to a Document and back to a dict keeps its text as
      content, its score and its metadata fields. */
  lemma ResultToDocumentFacts(hit: AcsHit)
    ensures var d := ResultToDocument(hit);
      var dict := ToDict(d);
      Lookup(dict.fields, "content") == Some(Str(hit.text)) &&
      FromDict(dict) == Success(d) &&
      Equals(d, DocumentObject(NewDocument(hit.text).(title := hit.metadata.title, filepath := hit.metadata.filepath)))
  {
    FromDictToDict(ResultToDocument(hit));
  }
}
