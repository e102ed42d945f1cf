/** The prompt inputs built from a query, the chat history and the chosen
    chunks: `format_generate_reply_inputs_core` with `get_documentation_text`,
    and `format_rewrite_intent_inputs_core` with `format_query`. Token
    counting (`estimate_tokens`) and clipping (`clip_text`) are tokenizer
    calls and come in as the functions `tok` and `clip`; `floatRepr` is
    Python's `float.__repr__`, used by `json.dumps`. */
module Formatting {
  import opened Wrappers
  import opened Strings
  import opened Json
  import opened RagUtils
  import opened Flow

  // ===========================================================================
  // get_documentation_text
  // ===========================================================================

  /** `f'[doc{chunk_index + 1}]'`. */
  function DocLabel(index: nat): string {
    "[doc" + NatToString(index + 1) + "]"
  }

  /** The entry for chunk number `index`. A chunk that is not a dict has no
      `get`; one without `content` raises KeyError. */
  function DocEntry(index: nat, chunk: Value): Result<Value> {
    if !chunk.Obj? then Failure(TypeMismatch)
    else if Get(chunk, "content").None? then Failure(KeyMissing("content"))
    else Success(Listed(index, chunk))
  }

  /** `chunks_list`: one entry per chunk, in order. */
  function DocEntries(chunks: seq<Value>): Result<seq<Value>> {
    if chunks == [] then Success([])
    else
      var front :- DocEntries(chunks[..|chunks| - 1]);
      var last :- DocEntry(|chunks| - 1, chunks[|chunks| - 1]);
      Success(front + [last])
  }

  /** `{'retrieved_documents': chunks_list}`. */
  function DocsObject(chunks: seq<Value>): Result<Value> {
    var entries :- DocEntries(chunks);
    Success(Obj([Field("retrieved_documents", Arr(entries))]))
  }

  /** `get_documentation_text`: the object dumped, clipped to the budget and
      closed again into valid JSON. */
  function DocumentationText(clip: (string, int) -> string, floatRepr: real -> string,
                             chunks: seq<Value>, maxTokens: int): Result<string> {
    var obj :- DocsObject(chunks);
    Success(MakeValidJson(clip(Dumps(obj, floatRepr), maxTokens)))
  }

  /** The entry of a listable chunk: under `[doc{index+1}]`, its title, or
      `''` when it has none, and its content. */
  function Listed(index: nat, chunk: Value): Value
    requires Listable(chunk)
  {
    Obj([Field(DocLabel(index), Obj([Field("title", GetOr(chunk, "title", Str(""))),
                                     Field("content", Get(chunk, "content").value)]))])
  }

  /** A chunk can be listed when it is a dict with a content. */
  predicate Listable(chunk: Value) {
    chunk.Obj? && Get(chunk, "content").Some?
  }

  /** The first chunk that cannot be listed decides the error. */
  function FirstError(chunks: seq<Value>): Error
    requires exists i :: 0 <= i < |chunks| && !Listable(chunks[i])
    decreases |chunks|
  {
    if !Listable(chunks[0]) then (if chunks[0].Obj? then KeyMissing("content") else TypeMismatch)
    else
      assert exists i :: 0 <= i < |chunks[1..]| && !Listable(chunks[1..][i]) by {
        var i :| 0 <= i < |chunks| && !Listable(chunks[i]);
        assert chunks[1..][i - 1] == chunks[i];
      }
      FirstError(chunks[1..])
  }

  /** The entries are built exactly when every chunk can be listed. */
  lemma {:induction false} DocEntriesOk(chunks: seq<Value>)
    ensures DocEntries(chunks).Success? <==> forall i :: 0 <= i < |chunks| ==> Listable(chunks[i])
    decreases |chunks|
  {
    if chunks != [] {
      var n := |chunks| - 1;
      DocEntriesOk(chunks[..n]);
      assert forall i :: 0 <= i < n ==> chunks[..n][i] == chunks[i];
      assert DocEntry(n, chunks[n]).Success? <==> Listable(chunks[n]);
    }
  }

  /** Entry `i` lists chunk `i` under `[doc{i+1}]`. */
  lemma {:induction false} DocEntriesValues(chunks: seq<Value>)
    requires DocEntries(chunks).Success?
    ensures |DocEntries(chunks).value| == |chunks|
    ensures forall i :: 0 <= i < |chunks| ==> Listable(chunks[i]) && DocEntries(chunks).value[i] == Listed(i, chunks[i])
    decreases |chunks|
  {
    if chunks != [] {
      var n := |chunks| - 1;
      var front := chunks[..n];
      DocEntriesValues(front);
      var fr := DocEntries(front).value;
      var e := DocEntry(n, chunks[n]).value;
      assert forall i :: 0 <= i < n ==> front[i] == chunks[i];
      assert DocEntries(chunks).value == fr + [e];
    }
  }

  /** A failure is raised by the first chunk that cannot be listed. */
  lemma {:induction false} DocEntriesError(chunks: seq<Value>)
    requires DocEntries(chunks).Failure?
    ensures exists i :: 0 <= i < |chunks| && !Listable(chunks[i])
    ensures DocEntries(chunks).error == FirstError(chunks)
    decreases |chunks|
  {
    DocEntriesOk(chunks);
    var n := |chunks| - 1;
    FirstErrorSnoc(chunks);
    if DocEntries(chunks[..n]).Failure? {
      DocEntriesError(chunks[..n]);
      assert forall i :: 0 <= i < n ==> chunks[..n][i] == chunks[i];
    } else {
      DocEntriesOk(chunks[..n]);
      assert forall i :: 0 <= i < n ==> chunks[..n][i] == chunks[i];
    }
  }

  /** Appending a chunk after the listable ones makes it the first error. */
  lemma {:induction false} FirstErrorSnoc(chunks: seq<Value>)
    requires chunks != []
    ensures var n := |chunks| - 1;
            (exists i :: 0 <= i < n && !Listable(chunks[i])) ==> FirstError(chunks) == FirstError(chunks[..n])
    ensures var n := |chunks| - 1;
            (forall i :: 0 <= i < n ==> Listable(chunks[i])) && !Listable(chunks[n]) ==>
              FirstError(chunks) == (if chunks[n].Obj? then KeyMissing("content") else TypeMismatch)
    decreases |chunks|
  {
    var n := |chunks| - 1;
    if n > 0 && Listable(chunks[0]) {
      FirstErrorSnoc(chunks[1..]);
      assert chunks[1..][..n - 1] == chunks[..n][1..];
      assert forall i :: 1 <= i <= n ==> chunks[1..][i - 1] == chunks[i];
    }
  }

  /** The documentation fails exactly when a chunk cannot be listed, with
      the error of the first such chunk; otherwise it is the valid-JSON
      repair of the clipped dump of an object whose one key
      `retrieved_documents` holds one entry per chunk, entry `i` listing
      chunk `i` under `[doc{i+1}]`. */
  lemma DocumentationTextFacts(clip: (string, int) -> string, floatRepr: real -> string,
                               chunks: seq<Value>, maxTokens: int)
    ensures var r := DocumentationText(clip, floatRepr, chunks, maxTokens);
            (r.Success? <==> forall i :: 0 <= i < |chunks| ==> Listable(chunks[i]))
            && (r.Failure? ==> r.error == FirstError(chunks))
            && (r.Success? ==>
                  var obj := DocsObject(chunks).value;
                  r.value == MakeValidJson(clip(Dumps(obj, floatRepr), maxTokens))
                  && obj.Obj? && |obj.fields| == 1 && obj.fields[0].key == "retrieved_documents"
                  && obj.fields[0].value.Arr? && |obj.fields[0].value.items| == |chunks|
                  && forall i :: 0 <= i < |chunks| ==> Listable(chunks[i]) && obj.fields[0].value.items[i] == Listed(i, chunks[i]))
  {
    DocEntriesOk(chunks);
    if DocEntries(chunks).Failure? {
      DocEntriesError(chunks);
    } else {
      DocEntriesValues(chunks);
    }
  }

  /** The first chunk is labelled `[doc1]`. */
  lemma FirstLabel()
    ensures DocLabel(0) == "[doc1]"
  {
    assert NatToString(1) == "1";
  }

  /** The loop over the chunks. */
  method GetDocumentationText(clip: (string, int) -> string, floatRepr: real -> string,
                              chunks: seq<Value>, maxTokens: int) returns (r: Result<string>)
    ensures r == DocumentationText(clip, floatRepr, chunks, maxTokens)
  {
    var chunksList: seq<Value> := [];
    for i := 0 to |chunks|
      invariant DocEntries(chunks[..i]) == Success(chunksList)
    {
      assert chunks[..i + 1][..i] == chunks[..i];
      var entry := DocEntry(i, chunks[i]);
      if entry.Failure? {
        assert DocEntries(chunks[..i + 1]).Failure?;
        DocEntriesPrefixFailure(chunks, i + 1);
        return Failure(entry.error);
      }
      chunksList := chunksList + [entry.value];
    }
    assert chunks[..|chunks|] == chunks;
    var docsText := Dumps(Obj([Field("retrieved_documents", Arr(chunksList))]), floatRepr);
    docsText := clip(docsText, maxTokens);
    r := Success(MakeValidJson(docsText));
  }

  /** A failing prefix decides the whole: the later chunks are never read. */
  lemma {:induction false} DocEntriesPrefixFailure(chunks: seq<Value>, k: nat)
    requires k <= |chunks| && DocEntries(chunks[..k]).Failure?
    ensures DocEntries(chunks) == Failure(DocEntries(chunks[..k]).error)
    decreases |chunks| - k
  {
    if k < |chunks| {
      var n := |chunks| - 1;
      assert chunks[..n][..k] == chunks[..k];
      DocEntriesPrefixFailure(chunks[..n], k);
    } else {
      assert chunks[..k] == chunks;
    }
  }

  // ===========================================================================
  // format_generate_reply_inputs_core
  // ===========================================================================

  /** `MAX_TURN_TOKENS` of the reply prompt. */
  const ReplyTurnTokens := 1000

  /** The dict `{'query': ..., 'conversation': ..., 'documentation': ...}`. */
  datatype ReplyInputs = ReplyInputs(query: string, conversation: string, documentation: string)

  /** The tokens left for the documentation once the query and the
      conversation are in. */
  function DocumentationBudget(tok: string -> nat, query: string, conversation: string, maxTokens: int): int {
    maxTokens - tok(query) - tok(conversation)
  }

  /** `format_generate_reply_inputs_core`. */
  function FormatReplyInputs(tok: string -> nat, clip: (string, int) -> string, floatRepr: real -> string,
                             query: string, history: seq<Turn>, chunks: seq<Value>,
                             maxConversationTokens: int, maxTokens: int): Result<ReplyInputs>
  {
    var q := if maxTokens > 10 then clip(query, maxTokens) else "";
    var conversation := ConversationText(tok, clip, history, maxConversationTokens, ReplyTurnTokens, 0);
    var left := DocumentationBudget(tok, q, conversation, maxTokens);
    var documentation :- if left > 10 then DocumentationText(clip, floatRepr, chunks, left) else Success("");
    Success(ReplyInputs(q, conversation, documentation))
  }

  /** The query is clipped to the whole budget, or dropped when that is 10
      tokens or fewer; the conversation has its own budget and takes no
      more than it; the documentation gets what the query and the
      conversation leave, and is empty, and the chunks never read, when
      that is 10 tokens or fewer; only an unlistable chunk read under a
      larger budget fails the call. */
  lemma FormatReplyInputsFacts(tok: string -> nat, clip: (string, int) -> string, floatRepr: real -> string,
                               query: string, history: seq<Turn>, chunks: seq<Value>,
                               maxConversationTokens: int, maxTokens: int)
    ensures var r := FormatReplyInputs(tok, clip, floatRepr, query, history, chunks, maxConversationTokens, maxTokens);
            var q := if maxTokens > 10 then clip(query, maxTokens) else "";
            var conversation := ConversationText(tok, clip, history, maxConversationTokens, ReplyTurnTokens, 0);
            var left := DocumentationBudget(tok, q, conversation, maxTokens);
            (r.Failure? <==> left > 10 && exists i :: 0 <= i < |chunks| && !Listable(chunks[i]))
            && (r.Failure? ==> r.error == FirstError(chunks))
            && (r.Success? ==>
                  r.value.query == q
                  && (maxTokens <= 10 ==> r.value.query == "")
                  && r.value.conversation == conversation
                  && (left <= 10 ==> r.value.documentation == "")
                  && (left > 10 ==> r.value.documentation == DocumentationText(clip, floatRepr, chunks, left).value))
  {
    var q := if maxTokens > 10 then clip(query, maxTokens) else "";
    var conversation := ConversationText(tok, clip, history, maxConversationTokens, ReplyTurnTokens, 0);
    DocumentationTextFacts(clip, floatRepr, chunks, DocumentationBudget(tok, q, conversation, maxTokens));
  }

  /** The conversation of the reply prompt is the latest messages of the
      history, oldest first, whose tokens stay under its own budget; the
      number of turns is not limited. */
  lemma ReplyConversationFacts(tok: string -> nat, clip: (string, int) -> string, floatRepr: real -> string,
                               query: string, history: seq<Turn>, chunks: seq<Value>,
                               maxConversationTokens: int, maxTokens: int) returns (k: nat)
    requires FormatReplyInputs(tok, clip, floatRepr, query, history, chunks, maxConversationTokens, maxTokens).Success?
    ensures var walk := Walk(clip, history, ReplyTurnTokens);
            k <= 2 * |history|
            && FormatReplyInputs(tok, clip, floatRepr, query, history, chunks, maxConversationTokens, maxTokens).value.conversation
               == Strip(Prepended(walk[..k]))
            && (k > 0 ==> WalkTokens(tok, walk[..k]) < maxConversationTokens)
            && (k < |walk| ==> WalkTokens(tok, walk[..k + 1]) >= maxConversationTokens)
  {
    k := ConversationFacts(tok, clip, history, maxConversationTokens, ReplyTurnTokens, 0);
  }

  /** `format_generate_reply_inputs_core`, step by step. */
  method FormatGenerateReplyInputsCore(tok: string -> nat, clip: (string, int) -> string, floatRepr: real -> string,
                                       query0: string, history: seq<Turn>, chunks: seq<Value>,
                                       maxConversationTokens: int, maxTokens0: int) returns (r: Result<ReplyInputs>)
    ensures r == FormatReplyInputs(tok, clip, floatRepr, query0, history, chunks, maxConversationTokens, maxTokens0)
  {
    var maxTokens := maxTokens0;
    var query := if maxTokens > 10 then clip(query0, maxTokens) else "";
    maxTokens := maxTokens - tok(query);
    var conversation := GetConversationText(tok, clip, history, maxConversationTokens, ReplyTurnTokens, 0);
    maxTokens := maxTokens - tok(conversation);
    var documentation := "";
    if maxTokens > 10 {
      var d := GetDocumentationText(clip, floatRepr, chunks, maxTokens);
      if d.Failure? {
        return Failure(d.error);
      }
      documentation := d.value;
    }
    r := Success(ReplyInputs(query, conversation, documentation));
  }

  // ===========================================================================
  // format_rewrite_intent_inputs_core
  // ===========================================================================

  /** `MAX_TURN_TOKENS` and `MAX_TURNS` of the intent-rewriting prompt. */
  const IntentTurnTokens := 500
  const IntentMaxTurns := 2

  /** The frame `format_query` puts before the question. */
  const QueryHeader := "user:\nCurrent user question:\n"

  /** `format_query`: the question clipped to 500 tokens, in its frame. */
  function FormatQuery(clip: (string, int) -> string, query: string): string {
    QueryHeader + clip(query, IntentTurnTokens) + "\n\n"
  }

  /** The formatted question opens with the header, closes with a blank
      line, and holds the clipped question in between. */
  lemma FormatQueryFacts(clip: (string, int) -> string, query: string)
    ensures var r := FormatQuery(clip, query);
            StartsWith(r, QueryHeader) && EndsWith(r, "\n\n")
            && r[|QueryHeader|..|r| - 2] == clip(query, IntentTurnTokens)
  {
    var r := FormatQuery(clip, query);
    assert r[..|QueryHeader|] == QueryHeader;
    assert r[|r| - 2..] == "\n\n";
  }

  /** `format_rewrite_intent_inputs_core`. */
  function FormatRewriteIntentInputs(tok: string -> nat, clip: (string, int) -> string,
                                     query: string, history: seq<Turn>, maxTokens: int): string {
    var q := FormatQuery(clip, query);
    Prompt(ConversationText(tok, clip, history, QuestionBudget(tok, maxTokens, q), IntentTurnTokens, IntentMaxTurns), q)
  }

  /** The tokens the formatted question leaves for the conversation. */
  function QuestionBudget(tok: string -> nat, maxTokens: int, q: string): int {
    maxTokens - tok(q)
  }

  /** The conversation, a blank line, then the formatted question. */
  function Prompt(conversation: string, q: string): string {
    conversation + "\n\n" + q
  }

  /** A prompt built on a question `q`: it ends with `q` after a blank
      line, and before it come at most two messages of the history, the
      latest ones, oldest first, whose tokens stay under what `q` leaves of
      the budget. */
  lemma PromptFacts(tok: string -> nat, clip: (string, int) -> string, history: seq<Turn>, maxTokens: int, q: string)
    returns (k: nat)
    ensures var walk := Walk(clip, history, IntentTurnTokens);
            var r := Prompt(ConversationText(tok, clip, history, QuestionBudget(tok, maxTokens, q), IntentTurnTokens, IntentMaxTurns), q);
            EndsWith(r, "\n\n" + q)
            && k <= 2 && k <= 2 * |history|
            && r == Prompt(Strip(Prepended(walk[..k])), q)
            && (k > 0 ==> WalkTokens(tok, walk[..k]) < QuestionBudget(tok, maxTokens, q))
            && (k < |walk| ==> WalkTokens(tok, walk[..k + 1]) >= QuestionBudget(tok, maxTokens, q) || k == 2)
  {
    var budget := QuestionBudget(tok, maxTokens, q);
    k := ConversationFacts(tok, clip, history, budget, IntentTurnTokens, IntentMaxTurns);
    var c := ConversationText(tok, clip, history, budget, IntentTurnTokens, IntentMaxTurns);
    EndsWithAppend(c, "\n\n" + q);
    assert Prompt(c, q) == c + ("\n\n" + q);
  }

  /** The prompt ends with the formatted question, which is always there,
      after a blank line; before it come at most two messages of the
      history, the latest ones, oldest first, whose tokens stay under what
      the question leaves of the budget. */
  lemma FormatRewriteIntentInputsFacts(tok: string -> nat, clip: (string, int) -> string,
                                       query: string, history: seq<Turn>, maxTokens: int) returns (k: nat)
    ensures var q := FormatQuery(clip, query);
            var walk := Walk(clip, history, IntentTurnTokens);
            var r := FormatRewriteIntentInputs(tok, clip, query, history, maxTokens);
            EndsWith(r, "\n\n" + q)
            && k <= 2 && k <= 2 * |history|
            && r == Prompt(Strip(Prepended(walk[..k])), q)
            && (k > 0 ==> WalkTokens(tok, walk[..k]) < QuestionBudget(tok, maxTokens, q))
            && (k < |walk| ==> WalkTokens(tok, walk[..k + 1]) >= QuestionBudget(tok, maxTokens, q) || k == 2)
  {
    k := PromptFacts(tok, clip, history, maxTokens, FormatQuery(clip, query));
  }
}
