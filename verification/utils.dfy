/** The string helpers of `ragcore/utils.py`: JSON repair, quote stripping,
    the conversation window, intent extraction, path conversion, the
    message-list token count and the UI label maps. */
module RagUtils {
  import opened Wrappers
  import opened Strings
  import opened Documents

  // ===========================================================================
  // Label maps

  /** `query_type_map`: the labels the UI shows for each query type. */
  const QueryTypeMap: map<string, string> := map[
    "Keyword" := "simple",
    "Semantic" := "semantic",
    "Vector" := "vector",
    "Hybrid (vector + keyword)" := "vector_simple_hybrid",
    "Hybrid + semantic" := "vector_semantic_hybrid"]

  /** `data_source_map`: the labels the UI shows for each data source. */
  const DataSourceMap: map<string, string> := map[
    "Azure AI Search" := "acs",
    "Cosmos" := "cosmos"]

  /** Every label names a query type, and every query type has a label. */
  lemma QueryTypeMapFacts()
    ensures forall name :: name in QueryTypeMap ==> ParseQueryType(QueryTypeMap[name]).Success?
    ensures forall q: QueryType :: QueryTypeValue(q) in QueryTypeMap.Values
  {
    forall q: QueryType ensures QueryTypeValue(q) in QueryTypeMap.Values {
      match q
      case Simple => assert QueryTypeMap["Keyword"] == QueryTypeValue(q);
      case Semantic => assert QueryTypeMap["Semantic"] == QueryTypeValue(q);
      case Vector => assert QueryTypeMap["Vector"] == QueryTypeValue(q);
      case VectorSimpleHybrid => assert QueryTypeMap["Hybrid (vector + keyword)"] == QueryTypeValue(q);
      case VectorSemanticHybrid => assert QueryTypeMap["Hybrid + semantic"] == QueryTypeValue(q);
    }
  }

  /** No two labels name the same query type. */
  lemma QueryTypeMapInjective(a: string, b: string)
    requires a in QueryTypeMap && b in QueryTypeMap && QueryTypeMap[a] == QueryTypeMap[b]
    ensures a == b
  {
  }

  /** Every label names a data source, and every data source has a label;
      no two labels name the same source. */
  lemma DataSourceMapFacts()
    ensures forall name :: name in DataSourceMap ==> ParseDataSource(DataSourceMap[name]).Success?
    ensures forall d: DataSourceType :: DataSourceValue(d) in DataSourceMap.Values
    ensures forall a, b :: a in DataSourceMap && b in DataSourceMap && DataSourceMap[a] == DataSourceMap[b] ==> a == b
  {
    forall d: DataSourceType ensures DataSourceValue(d) in DataSourceMap.Values {
      match d
      case Acs => assert DataSourceMap["Azure AI Search"] == DataSourceValue(d);
      case Cosmos => assert DataSourceMap["Cosmos"] == DataSourceValue(d);
    }
  }

  // ===========================================================================
  // convert_escaped_to_posix

  /** `convert_escaped_to_posix`: doubled backslashes become single ones, then
      every backslash becomes a slash. */
  function ConvertEscapedToPosix(path: string): string {
    Replace(Replace(path, "\\\\", "\\"), "\\", "/")
  }

  /** Splitting by a pattern that does not occur leaves the text whole. */
  lemma ReplaceAbsent(s: string, pattern: string, replacement: string)
    requires pattern != [] && pattern[0] !in s
    ensures Replace(s, pattern, replacement) == s
  {
    var i := Find(s, pattern);
    if i >= 0 {
      OccursHead(s, pattern, i);
    }
  }

  lemma OccursHead(s: string, pattern: string, i: int)
    requires pattern != [] && OccursAt(s, pattern, i)
    ensures pattern[0] in s
  {
    assert s[i..i + |pattern|][0] == s[i];
  }

  /** The result holds no backslash, and a path without backslashes comes back unchanged. */
  lemma ConvertEscapedToPosixFacts(path: string)
    ensures '\\' !in ConvertEscapedToPosix(path)
    ensures '\\' !in path ==> ConvertEscapedToPosix(path) == path
  {
    ReplaceRemovesChar(Replace(path, "\\\\", "\\"), '\\', "/");
    if '\\' !in path {
      ReplaceAbsent(path, "\\\\", "\\");
      ReplaceAbsent(path, "\\", "/");
    }
  }

  // ===========================================================================
  // strip_quotes_symmetric

  predicate IsQuote(c: char) {
    c == '\'' || c == '"'
  }

  /** The loop condition: at least two characters, a quote at each end (not
      necessarily the same quote). */
  predicate QuotedEnds(t: string) {
    |t| >= 2 && IsQuote(t[0]) && IsQuote(t[|t| - 1])
  }

  function StripQuotes(t: string): string
    decreases |t|
  {
    if QuotedEnds(t) then StripQuotes(t[1..|t| - 1]) else t
  }

  /** `strip_quotes_symmetric`. */
  method StripQuotesSymmetric(text: string) returns (r: string)
    ensures r == StripQuotes(text)
  {
    r := text;
    while QuotedEnds(r)
      invariant StripQuotes(r) == StripQuotes(text)
      decreases |r|
    {
      r := r[1..|r| - 1];
    }
  }

  /** The result is the middle of the text after `k` characters went from each
      end, all of them quotes; it no longer has quotes at both ends, so
      stripping again changes nothing. */
  lemma {:induction false} StripQuotesFacts(t: string) returns (k: nat)
    ensures 2 * k <= |t| && StripQuotes(t) == t[k..|t| - k]
    ensures forall i :: 0 <= i < k ==> IsQuote(t[i])
    ensures forall i :: |t| - k <= i < |t| ==> IsQuote(t[i])
    ensures !QuotedEnds(StripQuotes(t))
    ensures StripQuotes(StripQuotes(t)) == StripQuotes(t)
    decreases |t|
  {
    if QuotedEnds(t) {
      var m := t[1..|t| - 1];
      var km := StripQuotesFacts(m);
      k := km + 1;
      assert m[km..|m| - km] == t[k..|t| - k] by {
        forall j | km <= j < |m| - km ensures m[j] == t[j + 1] {
        }
      }
      forall i | 0 < i < k ensures IsQuote(t[i]) {
        assert t[i] == m[i - 1];
      }
      forall i | |t| - k <= i < |t| - 1 ensures IsQuote(t[i]) {
        assert t[i] == m[i - 1];
      }
    } else {
      k := 0;
    }
  }

  // ===========================================================================
  // TokenEstimator.estimate_tokens on a message list

  /** One chat message: its `(key, value)` items in insertion order. */
  type Message = seq<(string, string)>

  /** The tokens of one message's items: each value's tokens, minus one for a `name` key. */
  function ItemTokens(tok: string -> nat, m: Message): int {
    if m == [] then 0
    else ItemTokens(tok, m[..|m| - 1]) + tok(m[|m| - 1].1) + (if m[|m| - 1].0 == "name" then -1 else 0)
  }

  /** The message-list count: four per message, its items, and three for the reply primer. */
  function ListTokens(tok: string -> nat, msgs: seq<Message>): int {
    if msgs == [] then 3
    else ListTokens(tok, msgs[..|msgs| - 1]) + 4 + ItemTokens(tok, msgs[|msgs| - 1])
  }

  /** `TokenEstimator.estimate_tokens(text)` for a list of messages; `tok` is the
      `cl100k_base` encoding's length. */
  method EstimateMessageTokens(tok: string -> nat, msgs: seq<Message>) returns (numTokens: int)
    ensures numTokens == ListTokens(tok, msgs)
  {
    numTokens := 0;
    for i := 0 to |msgs|
      invariant numTokens + 3 == ListTokens(tok, msgs[..i])
    {
      assert msgs[..i + 1][..i] == msgs[..i];
      numTokens := numTokens + 4;
      var m := msgs[i];
      for j := 0 to |m|
        invariant numTokens + 3 == ListTokens(tok, msgs[..i]) + 4 + ItemTokens(tok, m[..j])
      {
        assert m[..j + 1][..j] == m[..j];
        numTokens := numTokens + tok(m[j].1);
        if m[j].0 == "name" {
          numTokens := numTokens - 1;
        }
      }
      assert m[..|m|] == m;
    }
    numTokens := numTokens + 3;
    assert msgs[..|msgs|] == msgs;
  }

  function ValueTokens(tok: string -> nat, m: Message): nat {
    if m == [] then 0 else ValueTokens(tok, m[..|m| - 1]) + tok(m[|m| - 1].1)
  }

  function NameKeys(m: Message): nat {
    if m == [] then 0 else NameKeys(m[..|m| - 1]) + (if m[|m| - 1].0 == "name" then 1 else 0)
  }

  /** Keys of a dict are distinct. */
  predicate DistinctKeys(m: Message) {
    forall i, j :: 0 <= i < j < |m| ==> m[i].0 != m[j].0
  }

  /** A message costs its values' tokens less one per `name` key, and a dict
      has at most one `name` key. */
  lemma {:induction false} ItemTokensSplit(tok: string -> nat, m: Message)
    ensures ItemTokens(tok, m) == ValueTokens(tok, m) - NameKeys(m)
    ensures DistinctKeys(m) ==> NameKeys(m) <= 1
    ensures DistinctKeys(m) && NameKeys(m) == 1 ==> exists i :: 0 <= i < |m| && m[i].0 == "name"
    decreases |m|
  {
    if m != [] {
      var init := m[..|m| - 1];
      ItemTokensSplit(tok, init);
      if DistinctKeys(m) {
        assert DistinctKeys(init) by {
          forall i, j | 0 <= i < j < |init| ensures init[i].0 != init[j].0 {
            assert init[i] == m[i] && init[j] == m[j];
          }
        }
        if NameKeys(init) == 1 {
          var i :| 0 <= i < |init| && init[i].0 == "name";
          assert m[i].0 == "name";
        }
        if m[|m| - 1].0 == "name" {
          assert m[|m| - 1].0 == "name";
        }
      }
    }
  }

  /** The count is three more than four per message plus every value's tokens,
      less one per `name` key; so with distinct keys each message adds at least three. */
  lemma {:induction false} ListTokensFacts(tok: string -> nat, msgs: seq<Message>)
    ensures (forall i :: 0 <= i < |msgs| ==> DistinctKeys(msgs[i])) ==> ListTokens(tok, msgs) >= 3 + 3 * |msgs|
    ensures (forall i :: 0 <= i < |msgs| ==> NameKeys(msgs[i]) == 0) ==> ListTokens(tok, msgs) >= 3 + 4 * |msgs|
    decreases |msgs|
  {
    if msgs != [] {
      var init := msgs[..|msgs| - 1];
      ListTokensFacts(tok, init);
      ItemTokensSplit(tok, msgs[|msgs| - 1]);
      assert forall i :: 0 <= i < |init| ==> init[i] == msgs[i];
    }
  }
  // ===========================================================================
  // make_valid_json

  /** An unescaped double quote at `k`: the character before it is not a backslash. */
  predicate ClosesString(text: string, k: nat)
    requires 1 <= k < |text|
  {
    text[k] == '"' && text[k - 1] != '\\'
  }

  /** Where the string opened just before `pos` ends: the first unescaped quote
      at or after `pos`, or the end of the text. */
  function CloseQuote(text: string, pos: nat): (r: nat)
    requires 1 <= pos <= |text|
    ensures pos <= r <= |text|
    ensures r < |text| ==> ClosesString(text, r)
    ensures forall k :: pos <= k < r ==> !ClosesString(text, k)
    decreases |text| - pos
  {
    if pos == |text| then pos
    else if ClosesString(text, pos) then pos
    else CloseQuote(text, pos + 1)
  }

  /** The closers still owed after scanning from `pos` with `stack` owed so far:
      `{` and `[` push their closer, a string pushes `"` until its closing
      quote, and a closer matching the top pops it; anything else is skipped. */
  function Pending(text: string, pos: nat, stack: seq<char>): seq<char>
    decreases |text| - pos
  {
    if pos >= |text| then stack
    else
      var c := text[pos];
      if c == '{' then Pending(text, pos + 1, stack + ['}'])
      else if c == '[' then Pending(text, pos + 1, stack + [']'])
      else if c == '"' then
        var e := CloseQuote(text, pos + 1);
        Pending(text, e + 1, if e < |text| then stack else stack + ['"'])
      else if stack != [] && c == stack[|stack| - 1] then Pending(text, pos + 1, stack[..|stack| - 1])
      else Pending(text, pos + 1, stack)
  }

  /** The text without a final backslash. */
  function DropTrailingBackslash(text: string): (r: string)
    ensures r == text || (text != [] && text[|text| - 1] == '\\' && r == text[..|text| - 1])
  {
    if text != [] && text[|text| - 1] == '\\' then text[..|text| - 1] else text
  }

  function Reverse(s: seq<char>): (r: seq<char>)
    ensures |r| == |s| && forall i :: 0 <= i < |s| ==> r[i] == s[|s| - 1 - i]
  {
    seq(|s|, i requires 0 <= i < |s| => s[|s| - 1 - i])
  }

  /** `make_valid_json`: the text without a trailing backslash, followed by
      the owed closers, innermost first. */
  function MakeValidJson(text: string): string {
    DropTrailingBackslash(text) + Reverse(Pending(text, 0, []))
  }

  method MakeValidJsonLoop(text: string) returns (r: string)
    ensures r == MakeValidJson(text)
  {
    var stack: seq<char> := [];
    var pos: nat := 0;
    while pos < |text|
      invariant Pending(text, pos, stack) == Pending(text, 0, [])
      decreases |text| - pos
    {
      var c := text[pos];
      if c == '{' {
        stack := stack + ['}'];
      } else if c == '[' {
        stack := stack + [']'];
      } else if c == '"' {
        stack, pos := SkipString(text, pos, stack);
      } else if stack != [] && c == stack[|stack| - 1] {
        stack := stack[..|stack| - 1];
      }
      pos := pos + 1;
    }
    r := text;
    if r != [] && r[|r| - 1] == '\\' {
      r := r[..|r| - 1];
    }
    ghost var base := r;
    var k := |stack|;
    while k > 0
      invariant 0 <= k <= |stack|
      invariant r == base + Reverse(stack)[..|stack| - k]
    {
      k := k - 1;
      assert Reverse(stack)[..|stack| - k] == Reverse(stack)[..|stack| - k - 1] + [stack[k]];
      r := r + [stack[k]];
    }
    assert Reverse(stack)[..|stack|] == Reverse(stack);
  }

  /** The inner loop of `make_valid_json`: a string opened at `start` is
      scanned for its closing quote; the pushed `"` is popped when it is found. */
  method SkipString(text: string, start: nat, stack0: seq<char>) returns (stack: seq<char>, pos: nat)
    requires start < |text| && text[start] == '"'
    ensures pos == CloseQuote(text, start + 1)
    ensures stack == if pos < |text| then stack0 else stack0 + ['"']
  {
    stack := stack0 + ['"'];
    pos := start + 1;
    while pos < |text|
      invariant start + 1 <= pos <= |text|
      invariant CloseQuote(text, pos) == CloseQuote(text, start + 1)
      invariant stack == stack0 + ['"']
      decreases |text| - pos
    {
      if text[pos] == '"' && text[pos - 1] != '\\' {
        stack := stack[..|stack| - 1];
        assert stack == stack0;
        return;
      }
      pos := pos + 1;
    }
  }

  predicate IsCloser(c: char) {
    c == '}' || c == ']' || c == '"'
  }

  /** Only closers are owed, and an owed `"` can only be the last thing owed. */
  predicate WellOwed(p: seq<char>) {
    (forall i :: 0 <= i < |p| ==> IsCloser(p[i]))
    && ('"' in p ==> p[|p| - 1] == '"' && '"' !in p[..|p| - 1])
  }

  /** Only closers are ever owed, and an owed `"` (an unterminated string) can
      only be the last thing owed. */
  lemma {:induction false} PendingFacts(text: string, pos: nat, stack: seq<char>)
    requires WellOwed(stack) && '"' !in stack
    ensures WellOwed(Pending(text, pos, stack))
    decreases |text| - pos
  {
    if pos < |text| {
      var c := text[pos];
      if c == '{' || c == '[' {
        var s' := stack + [if c == '{' then '}' else ']'];
        assert WellOwed(s') && '"' !in s';
        PendingFacts(text, pos + 1, s');
      } else if c == '"' {
        var e := CloseQuote(text, pos + 1);
        if e >= |text| {
          var s' := stack + ['"'];
          assert s'[..|s'| - 1] == stack;
          assert WellOwed(s');
        } else {
          PendingFacts(text, e + 1, stack);
        }
      } else if stack != [] && c == stack[|stack| - 1] {
        var s' := stack[..|stack| - 1];
        assert WellOwed(s') && '"' !in s';
        PendingFacts(text, pos + 1, s');
      } else {
        PendingFacts(text, pos + 1, stack);
      }
    }
  }

  /** The repaired text keeps everything but a trailing backslash and only
      appends closers, an unterminated string's quote first; it equals the
      input exactly when nothing is owed and the text does not end in a
      backslash. */
  lemma MakeValidJsonFacts(text: string)
    ensures var r := MakeValidJson(text);
      var owed := Pending(text, 0, []);
      StartsWith(r, DropTrailingBackslash(text))
      && |r| == |DropTrailingBackslash(text)| + |owed|
      && (forall i :: |DropTrailingBackslash(text)| <= i < |r| ==> IsCloser(r[i]))
      && ('"' in owed ==> r[|DropTrailingBackslash(text)|] == '"')
      && (r == text <==> owed == [] && !(text != [] && text[|text| - 1] == '\\'))
  {
    PendingFacts(text, 0, []);
    var r := MakeValidJson(text);
    var d := DropTrailingBackslash(text);
    var owed := Pending(text, 0, []);
    assert r[..|d|] == d;
    forall i | |d| <= i < |r| ensures IsCloser(r[i]) {
      assert r[i] == owed[|owed| - 1 - (i - |d|)];
    }
    if d != text && |r| == |text| {
      assert IsCloser(r[|text| - 1]);
    }
  }

  /** A truncated reply is closed innermost first: the open string, then the
      list, then the object. */
  lemma MakeValidJsonExample()
    ensures MakeValidJson("{\"a\": [\"b") == "{\"a\": [\"b\"]}"
  {
    var t := "{\"a\": [\"b";
    assert CloseQuote(t, 2) == 3;
    assert CloseQuote(t, 8) == 9;
    assert Pending(t, 0, []) == ['}', ']', '"'];
  }

  // ===========================================================================
  // get_conversation_text

  /** One entry of the chat history: `inputs.query` and `outputs.reply`. */
  datatype Turn = Turn(query: string, reply: string)

  function ReplyText(clip: (string, int) -> string, turn: Turn, maxTurnTokens: int): string {
    "assistant:\n" + clip(turn.reply, maxTurnTokens) + "\n\n"
  }

  function UserText(clip: (string, int) -> string, turn: Turn, maxTurnTokens: int): string {
    "user:\n" + clip(turn.query, maxTurnTokens) + "\n\n"
  }

  /** Message `j` of the walk from the newest turn back: each turn's reply,
      then its query. */
  function WalkAt(clip: (string, int) -> string, history: seq<Turn>, maxTurnTokens: int, j: nat): string
    requires j < 2 * |history|
  {
    var turn := history[|history| - 1 - j / 2];
    if j % 2 == 0 then ReplyText(clip, turn, maxTurnTokens) else UserText(clip, turn, maxTurnTokens)
  }

  function Walk(clip: (string, int) -> string, history: seq<Turn>, maxTurnTokens: int): (r: seq<string>)
    ensures |r| == 2 * |history|
  {
    seq(2 * |history|, j requires 0 <= j < 2 * |history| => WalkAt(clip, history, maxTurnTokens, j))
  }

  /** The tokens of a run of messages. */
  function WalkTokens(tok: string -> nat, xs: seq<string>): nat {
    if xs == [] then 0 else WalkTokens(tok, xs[..|xs| - 1]) + tok(xs[|xs| - 1])
  }

  /** The first `k` messages of the walk fit: they leave budget over, and there
      are no more of them than `max_turns` when that is positive. */
  predicate Fits(tok: string -> nat, walk: seq<string>, maxTokens: int, maxTurns: int, k: nat)
    requires k <= |walk|
  {
    k == 0 || (maxTokens - WalkTokens(tok, walk[..k]) > 0 && (maxTurns <= 0 || k <= maxTurns))
  }

  /** How many messages the walk takes, having taken `k`: it stops at the
      first message that would not fit. */
  function Taken(tok: string -> nat, walk: seq<string>, maxTokens: int, maxTurns: int, k: nat): (r: nat)
    requires k <= |walk|
    ensures k <= r <= |walk|
    decreases |walk| - k
  {
    if k == |walk| then k
    else if !Fits(tok, walk, maxTokens, maxTurns, k + 1) then k
    else Taken(tok, walk, maxTokens, maxTurns, k + 1)
  }

  /** Messages joined newest last: the walk's messages in reverse. */
  function Prepended(xs: seq<string>): string {
    if xs == [] then [] else xs[|xs| - 1] + Prepended(xs[..|xs| - 1])
  }

  /** `get_conversation_text`: the latest messages that fit the budget, oldest
      first, stripped. */
  function ConversationText(tok: string -> nat, clip: (string, int) -> string, history: seq<Turn>,
                            maxTokens: int, maxTurnTokens: int, maxTurns: int): string
  {
    var walk := Walk(clip, history, maxTurnTokens);
    Strip(Prepended(walk[..Taken(tok, walk, maxTokens, maxTurns, 0)]))
  }

  method GetConversationText(tok: string -> nat, clip: (string, int) -> string, history: seq<Turn>,
                             maxTokens: int, maxTurnTokens: int, maxTurns: int) returns (text: string)
    ensures text == ConversationText(tok, clip, history, maxTokens, maxTurnTokens, maxTurns)
  {
    ghost var walk := Walk(clip, history, maxTurnTokens);
    ghost var goal := Taken(tok, walk, maxTokens, maxTurns, 0);
    var conversation := "";
    var turns: nat := 0;
    var budget := maxTokens;
    var t := |history|;
    while t > 0
      invariant 0 <= t <= |history| && turns == 2 * (|history| - t)
      invariant budget == maxTokens - WalkTokens(tok, walk[..turns])
      invariant conversation == Prepended(walk[..turns])
      invariant Taken(tok, walk, maxTokens, maxTurns, turns) == goal
    {
      t := t - 1;
      WalkPair(clip, history, maxTurnTokens, t);
      var replyText := ReplyText(clip, history[t], maxTurnTokens);
      TakeStep(tok, walk, maxTokens, maxTurns, turns, goal);
      budget := budget - tok(replyText);
      turns := turns + 1;
      if budget <= 0 || (turns > maxTurns && maxTurns > 0) {
        break;
      }
      conversation := replyText + conversation;
      var queryText := UserText(clip, history[t], maxTurnTokens);
      TakeStep(tok, walk, maxTokens, maxTurns, turns, goal);
      budget := budget - tok(queryText);
      turns := turns + 1;
      if budget <= 0 || (turns > maxTurns && maxTurns > 0) {
        break;
      }
      conversation := queryText + conversation;
    }
    assert conversation == Prepended(walk[..goal]);
    text := Strip(conversation);
  }

  /** Turn `t` supplies two consecutive messages of the walk. */
  lemma WalkPair(clip: (string, int) -> string, history: seq<Turn>, maxTurnTokens: int, t: nat)
    requires t < |history|
    ensures var walk := Walk(clip, history, maxTurnTokens);
      walk[2 * (|history| - 1 - t)] == ReplyText(clip, history[t], maxTurnTokens) &&
      walk[2 * (|history| - 1 - t) + 1] == UserText(clip, history[t], maxTurnTokens)
  {
    var j := 2 * (|history| - 1 - t);
    assert j / 2 == |history| - 1 - t && j % 2 == 0;
    assert (j + 1) / 2 == |history| - 1 - t && (j + 1) % 2 == 1;
  }

  /** Whether message `k` is taken decides what the walk takes in all. */
  lemma TakeStep(tok: string -> nat, walk: seq<string>, maxTokens: int, maxTurns: int, k: nat, goal: nat)
    requires k < |walk| && Taken(tok, walk, maxTokens, maxTurns, k) == goal
    ensures WalkTokens(tok, walk[..k + 1]) == WalkTokens(tok, walk[..k]) + tok(walk[k])
    ensures Prepended(walk[..k + 1]) == walk[k] + Prepended(walk[..k])
    ensures var left := maxTokens - WalkTokens(tok, walk[..k + 1]);
      if left <= 0 || (k + 1 > maxTurns && maxTurns > 0) then goal == k
      else Taken(tok, walk, maxTokens, maxTurns, k + 1) == goal
  {
    WalkStep(tok, walk, k);
  }

  /** Taking message `k` of the walk. */
  lemma WalkStep(tok: string -> nat, walk: seq<string>, k: nat)
    requires k < |walk|
    ensures WalkTokens(tok, walk[..k + 1]) == WalkTokens(tok, walk[..k]) + tok(walk[k])
    ensures Prepended(walk[..k + 1]) == walk[k] + Prepended(walk[..k])
  {
    assert walk[..k + 1][..k] == walk[..k];
  }

  /** Taking from `k` on keeps every prefix that fits, and stops only at the
      end of the walk or at a message that would not fit. */
  lemma {:induction false} TakenFacts(tok: string -> nat, walk: seq<string>, maxTokens: int, maxTurns: int, k: nat)
    requires k <= |walk| && Fits(tok, walk, maxTokens, maxTurns, k)
    ensures var r := Taken(tok, walk, maxTokens, maxTurns, k);
      Fits(tok, walk, maxTokens, maxTurns, r) &&
      (r < |walk| ==> !Fits(tok, walk, maxTokens, maxTurns, r + 1))
    decreases |walk| - k
  {
    if k < |walk| && Fits(tok, walk, maxTokens, maxTurns, k + 1) {
      TakenFacts(tok, walk, maxTokens, maxTurns, k + 1);
    }
  }

  /** The conversation holds the `k` latest messages, oldest first: they leave
      budget over, number no more than `max_turns` when that is positive, and
      one more message would break one of the two limits. */
  lemma ConversationFacts(tok: string -> nat, clip: (string, int) -> string, history: seq<Turn>,
                          maxTokens: int, maxTurnTokens: int, maxTurns: int) returns (k: nat)
    ensures var walk := Walk(clip, history, maxTurnTokens);
      k <= 2 * |history| &&
      ConversationText(tok, clip, history, maxTokens, maxTurnTokens, maxTurns) == Strip(Prepended(walk[..k])) &&
      (k > 0 ==> WalkTokens(tok, walk[..k]) < maxTokens) &&
      (k > 0 && maxTurns > 0 ==> k <= maxTurns) &&
      (k < |walk| ==> WalkTokens(tok, walk[..k + 1]) >= maxTokens || (maxTurns > 0 && k + 1 > maxTurns))
  {
    var walk := Walk(clip, history, maxTurnTokens);
    k := Taken(tok, walk, maxTokens, maxTurns, 0);
    TakenFacts(tok, walk, maxTokens, maxTurns, 0);
  }

  /** The messages come out oldest first: the last message taken leads. */
  lemma PrependedOrder(xs: seq<string>)
    requires xs != []
    ensures StartsWith(Prepended(xs), xs[|xs| - 1])
    ensures |Prepended(xs)| >= |xs[|xs| - 1]|
  {
    assert Prepended(xs)[..|xs[|xs| - 1]|] == xs[|xs| - 1];
  }

  // ===========================================================================
  // extract_intents_from_str_array

  /** Characters skipped before an intent starts. */
  predicate Skippable(c: char) {
    c == '[' || c == ',' || c == ' ' || c == '"' || c == '\'' || c == '\\'
  }

  /** Characters `strip` removes from both ends of an intent. */
  predicate IsPad(c: char) {
    c == '\'' || c == '"' || c == ' '
  }

  /** The first index from `i` on that holds no skippable character. */
  function SkipRun(s: string, i: nat): (j: nat)
    requires i <= |s|
    ensures i <= j <= |s| && (j < |s| ==> !Skippable(s[j]))
    decreases |s| - i
  {
    if i == |s| || !Skippable(s[i]) then i else SkipRun(s, i + 1)
  }

  /** Characters that end an intent quoted by `quote`. */
  predicate EndsIntent(c: char, quote: char) {
    c == quote || c == ',' || c == '[' || c == ']'
  }

  /** The first index from `i` on that ends the intent, or the end of `s`. */
  function IntentEnd(s: string, i: nat, quote: char): (e: nat)
    requires i <= |s|
    ensures i <= e <= |s| && (e < |s| ==> EndsIntent(s[e], quote))
    decreases |s| - i
  {
    if i == |s| || EndsIntent(s[i], quote) then i else IntentEnd(s, i + 1, quote)
  }

  /** `t` without its backslashes. */
  function DropBackslashes(t: string): (r: string)
    ensures |r| <= |t| && forall c :: c in r ==> c in t && c != '\\'
  {
    if t == [] then []
    else DropBackslashes(t[..|t| - 1]) + (if t[|t| - 1] == '\\' then [] else [t[|t| - 1]])
  }

  function StripPad(t: string): string {
    RStripWith(LStripWith(t, IsPad), IsPad)
  }

  /** The quote that closes the intent: a single quote when one was skipped
      before it, a double quote otherwise. */
  function QuoteOf(skipped: string): char {
    if '\'' in skipped then '\'' else '"'
  }

  /** The intents read from index `i` on. */
  function IntentsFrom(s: string, i: nat): seq<string>
    requires i <= |s|
    decreases |s| - i
  {
    var j := SkipRun(s, i);
    if j == |s| || s[j] == ']' then []
    else
      var e := IntentEnd(s, j, QuoteOf(s[i..j]));
      Piece(DropBackslashes(s[j..e])) + IntentsFrom(s, e)
  }

  /** What one intent adds to the list: nothing when it is empty. */
  function Piece(intent: string): seq<string> {
    if |intent| > 0 then [StripPad(intent)] else []
  }

  /** `extract_intents_from_str_array`: nothing without an opening bracket,
      otherwise the intents read from the first one. */
  function ExtractIntents(s: string): seq<string> {
    var start := Find(s, "[");
    if start == -1 then [] else IntentsFrom(s, start)
  }

  method ExtractIntentsFromStrArray(s: string) returns (intents: seq<string>)
    ensures intents == ExtractIntents(s)
  {
    intents := [];
    var start := Find(s, "[");
    if start == -1 {
      return;
    }
    var i: nat := start;
    ghost var goal := IntentsFrom(s, start);
    while i < |s|
      invariant i <= |s|
      invariant intents + IntentsFrom(s, i) == goal
      decreases |s| - i
    {
      var j, isDoubleQuotes := SkipToIntent(s, i);
      if j == |s| || s[j] == ']' {
        break;
      }
      var quote := if isDoubleQuotes then '"' else '\'';
      var intent, e;
      e, intent := ReadIntent(s, j, quote);
      assert quote == QuoteOf(s[i..j]);
      IntentsFromStep(intents, goal, s, i, j, e);
      ghost var before := intents;
      if |intent| > 0 {
        intents := intents + [StripPad(intent)];
      }
      assert intents == before + Piece(intent);
      i := e;
    }
  }

  /** One round of the outer loop: the intent between `j` and `e`, then the
      rest from `e`. */
  lemma IntentsFromStep(before: seq<string>, goal: seq<string>, s: string, i: nat, j: nat, e: nat)
    requires i <= |s| && j == SkipRun(s, i) && j < |s| && s[j] != ']'
    requires e == IntentEnd(s, j, QuoteOf(s[i..j]))
    requires before + IntentsFrom(s, i) == goal
    ensures (before + Piece(DropBackslashes(s[j..e]))) + IntentsFrom(s, e) == goal
  {
    var piece := Piece(DropBackslashes(s[j..e]));
    assert IntentsFrom(s, i) == piece + IntentsFrom(s, e);
    assert (before + piece) + IntentsFrom(s, e) == before + (piece + IntentsFrom(s, e));
  }

  /** The skipping loop: moves past skippable characters and notes whether a
      single quote was among them. */
  method SkipToIntent(s: string, i0: nat) returns (i: nat, isDoubleQuotes: bool)
    requires i0 < |s|
    ensures i == SkipRun(s, i0) && isDoubleQuotes == ('\'' !in s[i0..i])
  {
    i := i0;
    isDoubleQuotes := true;
    while Skippable(s[i])
      invariant i0 <= i < |s| && SkipRun(s, i) == SkipRun(s, i0)
      invariant isDoubleQuotes == ('\'' !in s[i0..i])
      decreases |s| - i
    {
      if s[i] == '\'' {
        isDoubleQuotes := false;
      }
      assert s[i0..i + 1] == s[i0..i] + [s[i]];
      i := i + 1;
      if i == |s| {
        return;
      }
    }
  }

  /** The reading loop: collects the intent's characters, backslashes left
      out, up to the character that ends it. */
  method ReadIntent(s: string, j: nat, quote: char) returns (i: nat, intent: string)
    requires j <= |s|
    ensures i == IntentEnd(s, j, quote) && intent == DropBackslashes(s[j..i])
  {
    i := j;
    intent := "";
    while i < |s| && !EndsIntent(s[i], quote)
      invariant j <= i <= |s| && IntentEnd(s, i, quote) == IntentEnd(s, j, quote)
      invariant intent == DropBackslashes(s[j..i])
      decreases |s| - i
    {
      if s[i] != '\\' {
        intent := intent + [s[i]];
      }
      assert s[j..i + 1][..i - j] == s[j..i];
      i := i + 1;
    }
  }

  /** A finished intent: not empty, no quote or space at either end, and no
      comma, bracket or backslash anywhere. */
  predicate WellFormedIntent(x: string) {
    x != [] && !IsPad(x[0]) && !IsPad(x[|x| - 1]) &&
    forall c :: c in x ==> c != ',' && c != '[' && c != ']' && c != '\\'
  }

  lemma {:induction false} IntentEndFacts(s: string, i: nat, quote: char)
    requires i <= |s|
    ensures forall k :: i <= k < IntentEnd(s, i, quote) ==> !EndsIntent(s[k], quote)
    decreases |s| - i
  {
    if i < |s| && !EndsIntent(s[i], quote) {
      IntentEndFacts(s, i + 1, quote);
    }
  }

  lemma {:induction false} DropBackslashesHead(t: string)
    requires t != [] && t[0] != '\\'
    ensures DropBackslashes(t) != [] && DropBackslashes(t)[0] == t[0]
    decreases |t|
  {
    if |t| > 1 {
      DropBackslashesHead(t[..|t| - 1]);
    }
  }

  /** Stripping an intent that starts with a character other than a pad
      leaves a well-formed intent when its characters are allowed. */
  lemma StripPadFacts(intent: string)
    requires intent != [] && !IsPad(intent[0])
    requires forall c :: c in intent ==> c != ',' && c != '[' && c != ']' && c != '\\'
    ensures WellFormedIntent(StripPad(intent))
  {
    assert LStripWith(intent, IsPad) == intent;
    RStripShape(intent, IsPad);
    var r := StripPad(intent);
    forall c | c in r ensures c in intent {
      var k :| 0 <= k < |r| && r[k] == c;
      assert intent[k] == c;
    }
  }

  lemma {:induction false} IntentsFromFacts(s: string, i: nat)
    requires i <= |s|
    ensures forall x :: x in IntentsFrom(s, i) ==> WellFormedIntent(x)
    decreases |s| - i
  {
    var j := SkipRun(s, i);
    if j < |s| && s[j] != ']' {
      var quote := QuoteOf(s[i..j]);
      var e := IntentEnd(s, j, quote);
      IntentEndFacts(s, j, quote);
      assert e > j;
      var t := s[j..e];
      forall c | c in t ensures c != ',' && c != '[' && c != ']' {
        var k :| 0 <= k < |t| && t[k] == c;
        assert !EndsIntent(s[j + k], quote);
      }
      DropBackslashesHead(t);
      StripPadFacts(DropBackslashes(t));
      IntentsFromFacts(s, e);
    }
  }

  /** What `extract_intents_from_str_array` returns: nothing when the text has
      no opening bracket, and otherwise only well-formed intents. */
  lemma ExtractIntentsFacts(s: string)
    ensures (forall k :: 0 <= k < |s| ==> s[k] != '[') ==> ExtractIntents(s) == []
    ensures forall x :: x in ExtractIntents(s) ==> WellFormedIntent(x)
  {
    var start := Find(s, "[");
    if start != -1 {
      assert s[start] == '[';
      IntentsFromFacts(s, start);
    }
  }

  /** A two-element array with both quote styles. */
  lemma ExtractIntentsExample()
    ensures ExtractIntents("[\"a\", 'b c']") == ["a", "b c"]
  {
    var s := "[\"a\", 'b c']";
    assert OccursAt(s, "[", 0);
    assert Find(s, "[") == 0;
    assert SkipRun(s, 10) == 11;
    assert IntentsFrom(s, 10) == [];
    assert SkipRun(s, 3) == 7;
    assert QuoteOf(s[3..7]) == '\'' by { assert s[3..7][3] == '\''; }
    assert IntentEnd(s, 7, '\'') == 10;
    assert Piece(DropBackslashes(s[7..10])) == ["b c"] by {
      assert s[7..10] == "b c";
      assert DropBackslashes("b c") == "b c";
      assert StripPad("b c") == "b c";
    }
    assert IntentsFrom(s, 3) == ["b c"];
    assert SkipRun(s, 0) == 2;
    assert QuoteOf(s[0..2]) == '"' by { assert s[0..2] == "[\""; }
    assert IntentEnd(s, 2, '"') == 3;
    assert Piece(DropBackslashes(s[2..3])) == ["a"] by {
      assert s[2..3] == "a";
      assert DropBackslashes("a") == "a";
    }
  }
}
