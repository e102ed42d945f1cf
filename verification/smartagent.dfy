/** The conversation bookkeeping of the natural-language-query agents:
    trimming the history to the last few questions, rolling back to the
    last question, turning tool descriptions into function specs, and the
    orchestrator switching between its two coder personas. */
module SmartAgent {
  import opened Wrappers
  import opened Json

  /** A chat message: `message.get("role")` and its text. */
  datatype Message = Message(role: Option<string>, content: string)

  predicate IsUser(m: Message) {
    m.role == Some("user")
  }

  /** The number of user messages. */
  function UserCount(ms: seq<Message>): (n: nat)
    ensures n <= |ms|
    decreases |ms|
  {
    if ms == [] then 0 else (if IsUser(ms[0]) then 1 else 0) + UserCount(ms[1..])
  }

  /** Counting from one position is that message plus the rest. */
  lemma UserCountStep(h: seq<Message>, idx: nat)
    requires idx < |h|
    ensures UserCount(h[idx..]) == (if IsUser(h[idx]) then 1 else 0) + UserCount(h[idx + 1..])
  {
    assert h[idx..][1..] == h[idx + 1..];
  }

  // ===========================================================================
  // clean_up_history
  // ===========================================================================

  /** The inner condition of `clean_up_history`, met only by a user
      message that is also neither a user nor an assistant message. */
  predicate DetailRemovable(m: Message, count: int, maxDetail: int, maxKeep: int) {
    IsUser(m) && count >= maxDetail && count < maxKeep
    && m.role != Some("user") && m.role != Some("assistant") && |m.content| == 0
  }

  /** The inner condition can never hold: only the `max_q_to_keep` branch
      removes anything. */
  lemma DetailNeverRemoves(m: Message, count: int, maxDetail: int, maxKeep: int)
    ensures !DetailRemovable(m, count, maxDetail, maxKeep)
  {
  }

  /** What visiting index `idx` appends to the removal list, where the
      running question count is the number of user messages from `idx` on. */
  function VisitRemovals(h: seq<Message>, maxDetail: int, maxKeep: int, idx: nat): seq<nat>
    requires idx < |h|
  {
    var count := UserCount(h[idx..]);
    (if DetailRemovable(h[idx], count, maxDetail, maxKeep) then [idx] else [])
    + (if count >= maxKeep then [idx] else [])
  }

  /** The removal list after visiting indices `|h| - 1` down to `lo`. */
  function Removals(h: seq<Message>, maxDetail: int, maxKeep: int, lo: nat): seq<nat>
    requires lo >= 1
    decreases |h| - lo
  {
    if lo >= |h| then [] else Removals(h, maxDetail, maxKeep, lo + 1) + VisitRemovals(h, maxDetail, maxKeep, lo)
  }

  /** `del h[i]` for each index in turn; an index past the end raises. */
  function DeleteAll(h: seq<Message>, indices: seq<nat>): Result<seq<Message>>
    decreases |indices|
  {
    if indices == [] then Success(h)
    else if indices[0] >= |h| then Failure(IndexOutOfRange)
    else DeleteAll(h[..indices[0]] + h[indices[0] + 1..], indices[1..])
  }

  /** `clean_up_history(history, max_q_with_detail_hist, max_q_to_keep)`. */
  function CleanedHistory(h: seq<Message>, maxDetail: int, maxKeep: int): Result<seq<Message>> {
    DeleteAll(h, Removals(h, maxDetail, maxKeep, 1))
  }

  /** The first index from `lo` on where fewer than `maxKeep` user
      messages remain (or the end). */
  function Cut(h: seq<Message>, maxKeep: int, lo: nat): (c: nat)
    ensures lo <= c && (lo <= |h| ==> c <= |h|)
    decreases |h| - lo
  {
    if lo >= |h| || UserCount(h[lo..]) < maxKeep then lo else Cut(h, maxKeep, lo + 1)
  }

  /** `[hi - 1, hi - 2, ..., lo]`. */
  function Desc(lo: nat, hi: nat): (r: seq<nat>)
    ensures |r| == if hi <= lo then 0 else hi - lo
    ensures forall k :: 0 <= k < |r| ==> r[k] == hi - 1 - k
    decreases hi
  {
    if hi <= lo then [] else [hi - 1] + Desc(lo, hi - 1)
  }

  lemma {:induction false} DescSnoc(lo: nat, hi: nat)
    requires lo < hi
    ensures Desc(lo + 1, hi) + [lo] == Desc(lo, hi)
  {
    var a, b := Desc(lo + 1, hi) + [lo], Desc(lo, hi);
    assert |a| == |b|;
    forall k | 0 <= k < |a| ensures a[k] == b[k] {
    }
  }

  /** Fewer than `maxKeep` user messages from `lo` on means fewer from any
      later index too, so nothing after `lo` is cut. */
  lemma {:induction false} CutStops(h: seq<Message>, maxKeep: int, lo: nat)
    requires lo <= |h| && (lo == |h| || UserCount(h[lo..]) < maxKeep)
    ensures Cut(h, maxKeep, lo) == lo
    ensures lo < |h| ==> Cut(h, maxKeep, lo + 1) == lo + 1
  {
    if lo < |h| {
      UserCountStep(h, lo);
    }
  }

  /** The removals are the indices before the cut, in descending order. */
  lemma {:induction false} RemovalsAreCut(h: seq<Message>, maxDetail: int, maxKeep: int, lo: nat)
    requires 1 <= lo
    ensures Removals(h, maxDetail, maxKeep, lo) == Desc(lo, Cut(h, maxKeep, lo))
    decreases |h| - lo
  {
    if lo < |h| {
      RemovalsAreCut(h, maxDetail, maxKeep, lo + 1);
      var count := UserCount(h[lo..]);
      DetailNeverRemoves(h[lo], count, maxDetail, maxKeep);
      if count >= maxKeep {
        DescSnoc(lo, Cut(h, maxKeep, lo));
      } else {
        CutStops(h, maxKeep, lo);
      }
    }
  }

  /** Deleting `hi - 1` down to `lo` removes exactly that range. */
  lemma {:induction false} DeleteDesc(h: seq<Message>, lo: nat, hi: nat)
    requires lo <= hi <= |h|
    ensures DeleteAll(h, Desc(lo, hi)) == Success(h[..lo] + h[hi..])
    decreases hi
  {
    if lo < hi {
      var h' := h[..hi - 1] + h[hi..];
      assert Desc(lo, hi)[1..] == Desc(lo, hi - 1);
      DeleteDesc(h', lo, hi - 1);
      assert h'[..lo] == h[..lo] && h'[hi - 1..] == h[hi..];
    } else {
      assert h[..lo] + h[hi..] == h;
    }
  }

  /** `clean_up_history` keeps the first message and the longest tail
      holding fewer than `max_q_to_keep` user messages, and deletes every
      message in between, in descending index order; with a positive limit
      the last message deleted is the `max_q_to_keep`-th most recent user
      message. */
  lemma CleanUpHistoryFacts(h: seq<Message>, maxDetail: int, maxKeep: int)
    ensures |h| == 0 ==> CleanedHistory(h, maxDetail, maxKeep) == Success([])
    ensures |h| >= 1 ==>
              var c := Cut(h, maxKeep, 1);
              1 <= c <= |h|
              && CleanedHistory(h, maxDetail, maxKeep) == Success([h[0]] + h[c..])
              && Removals(h, maxDetail, maxKeep, 1) == Desc(1, c)
              && (forall idx :: 1 <= idx < c ==> UserCount(h[idx..]) >= maxKeep)
              && (c < |h| ==> UserCount(h[c..]) < maxKeep)
              && (maxKeep >= 1 && c > 1 ==> IsUser(h[c - 1]) && UserCount(h[c - 1..]) == maxKeep)
  {
    if |h| >= 1 {
      RemovalsAreCut(h, maxDetail, maxKeep, 1);
      var c := Cut(h, maxKeep, 1);
      DeleteDesc(h, 1, c);
      assert h[..1] == [h[0]];
      CutBefore(h, maxKeep, 1);
      if maxKeep >= 1 && c > 1 {
        UserCountStep(h, c - 1);
        if c == |h| {
          assert h[c..] == [];
        }
      }
    }
  }

  /** Every index `clean_up_history` deletes is in range when it is
      deleted. */
  lemma CleanUpHistorySucceeds(h: seq<Message>, maxDetail: int, maxKeep: int)
    ensures CleanedHistory(h, maxDetail, maxKeep).Success?
  {
    CleanUpHistoryFacts(h, maxDetail, maxKeep);
  }

  /** Every index before the cut has at least `maxKeep` user messages from
      it on. */
  lemma {:induction false} CutBefore(h: seq<Message>, maxKeep: int, lo: nat)
    requires lo <= |h|
    ensures forall idx :: lo <= idx < Cut(h, maxKeep, lo) ==> UserCount(h[idx..]) >= maxKeep
    ensures Cut(h, maxKeep, lo) < |h| ==> UserCount(h[Cut(h, maxKeep, lo)..]) < maxKeep
    decreases |h| - lo
  {
    if lo < |h| && UserCount(h[lo..]) >= maxKeep {
      CutBefore(h, maxKeep, lo + 1);
    }
  }

  // ===========================================================================
  // reset_history_to_last_question
  // ===========================================================================

  /** `reset_history_to_last_question`: pop until the last message is a
      user message. */
  function ResetToLastQuestion(h: seq<Message>): seq<Message>
    decreases |h|
  {
    if h == [] || IsUser(h[|h| - 1]) then h else ResetToLastQuestion(h[..|h| - 1])
  }

  /** The result is a prefix of the history that is empty or ends with a
      user message, and only messages that are not user messages were
      dropped. */
  lemma {:induction false} ResetFacts(h: seq<Message>)
    ensures var r := ResetToLastQuestion(h);
            |r| <= |h| && r == h[..|r|]
            && (r == [] || IsUser(r[|r| - 1]))
            && forall j :: |r| <= j < |h| ==> !IsUser(h[j])
    decreases |h|
  {
    if h != [] && !IsUser(h[|h| - 1]) {
      var front := h[..|h| - 1];
      ResetFacts(front);
      var r := ResetToLastQuestion(front);
      assert front[..|r|] == h[..|r|];
      assert forall j :: |r| <= j < |front| ==> front[j] == h[j];
    }
  }

  /** Resetting twice is resetting once; a history that already ends with a
      user message is left alone. */
  lemma ResetIdempotent(h: seq<Message>)
    ensures ResetToLastQuestion(ResetToLastQuestion(h)) == ResetToLastQuestion(h)
    ensures h != [] && IsUser(h[|h| - 1]) ==> ResetToLastQuestion(h) == h
  {
    ResetFacts(h);
  }

  /** The first loop of `clean_up_history`: walk from the last message
      down to the second, counting user messages and collecting the
      indices to delete. */
  method CollectRemovals(h: seq<Message>, maxDetail: int, maxKeep: int) returns (removal: seq<nat>)
    requires |h| >= 1
    ensures removal == Removals(h, maxDetail, maxKeep, 1)
  {
    var questionCount := 0;
    removal := [];
    var lo := |h|;
    while lo > 1
      invariant 1 <= lo <= |h|
      invariant questionCount == UserCount(h[lo..])
      invariant removal == Removals(h, maxDetail, maxKeep, lo)
    {
      var idx: nat := lo - 1;
      var message := h[idx];
      UserCountStep(h, idx);
      if IsUser(message) {
        questionCount := questionCount + 1;
        if questionCount >= maxDetail && questionCount < maxKeep {
          if message.role != Some("user") && message.role != Some("assistant") && |message.content| == 0 {
            removal := removal + [idx];
          }
        }
      }
      if questionCount >= maxKeep {
        removal := removal + [idx];
      }
      lo := idx;
    }
  }

  /** A conversation list that the agents share and update in place. */
  class History {
    var messages: seq<Message>

    constructor(messages: seq<Message>)
      ensures this.messages == messages
    {
      this.messages := messages;
    }

    /** The two loops of `clean_up_history`: collect the indices from the
        end, then delete them in that order. */
    method CleanUpHistory(maxDetail: int, maxKeep: int)
      modifies this
      ensures Success(messages) == CleanedHistory(old(messages), maxDetail, maxKeep)
    {
      ghost var h := messages;
      if |messages| == 0 {
        return;
      }
      var removal := CollectRemovals(messages, maxDetail, maxKeep);
      CleanUpHistorySucceeds(h, maxDetail, maxKeep);
      for k := 0 to |removal|
        invariant DeleteAll(messages, removal[k..]) == CleanedHistory(h, maxDetail, maxKeep)
      {
        var index := removal[k];
        assert DeleteAll(messages, removal[k..]) == DeleteAll(messages[..index] + messages[index + 1..], removal[k + 1..]) by {
          assert removal[k..][0] == index && removal[k..][1..] == removal[k + 1..];
        }
        messages := messages[..index] + messages[index + 1..];
      }
    }

    /** The loop of `reset_history_to_last_question`. */
    method ResetHistoryToLastQuestion()
      modifies this
      ensures messages == ResetToLastQuestion(old(messages))
    {
      ghost var h := messages;
      var i := |messages|;
      while i > 0
        invariant 0 <= i == |messages| <= |h|
        invariant ResetToLastQuestion(messages) == ResetToLastQuestion(h)
      {
        if IsUser(messages[i - 1]) {
          break;
        }
        messages := messages[..|messages| - 1];
        i := i - 1;
      }
    }
  }

  // ===========================================================================
  // transform_tools
  // ===========================================================================

  /** One tool description as an OpenAI function spec. */
  function TransformTool(tool: Value): Result<Value> {
    var name :- Index(tool, "name");
    var description :- Index(tool, "description");
    Success(Obj([Field("type", Str("function")),
                 Field("function", Obj([Field("name", name), Field("description", description),
                                        Field("parameters", GetOr(tool, "parameters", Obj([])))]))]))
  }

  /** One transformed tool: typed `"function"`, with the tool's name,
      description and parameters. */
  lemma {:induction false} TransformToolFacts(tool: Value)
    ensures var r := TransformTool(tool);
            (r.Success? <==> Get(tool, "name").Some? && Get(tool, "description").Some?)
            && (r.Success? ==>
                  Get(r.value, "type") == Some(Str("function"))
                  && Get(r.value, "function").Some?
                  && var f := Get(r.value, "function").value;
                     Get(f, "name") == Get(tool, "name")
                     && Get(f, "description") == Get(tool, "description")
                     && Get(f, "parameters") == Some(GetOr(tool, "parameters", Obj([]))))
  {
    var r := TransformTool(tool);
    if r.Success? {
      assert "type"[0] != "function"[0];
      assert "name"[0] != "description"[0] && "name"[0] != "parameters"[0] && "description"[0] != "parameters"[0];
      var fs := r.value.fields;
      assert Lookup(fs, "type") == Some(Str("function"));
      assert Lookup(fs[1..], "function") == Some(fs[1].value);
      var gs := fs[1].value.fields;
      assert Lookup(gs[1..][1..], "parameters") == Some(GetOr(tool, "parameters", Obj([])));
      assert Lookup(gs[1..], "parameters") == Lookup(gs[1..][1..], "parameters");
      assert Lookup(gs, "parameters") == Lookup(gs[1..], "parameters");
      assert Lookup(gs[1..], "description") == Get(tool, "description");
    }
  }

  /** `transform_tools`. */
  function TransformTools(tools: seq<Value>): Result<seq<Value>> {
    ForEach(TransformTool, tools)
  }

  /** `transform_tools` fails exactly when a tool lacks its name or its
      description; otherwise it gives one function spec per tool, in
      order, typed `"function"`, carrying the tool's name and description
      and its parameters, `{}` when it has none. */
  lemma TransformToolsFacts(tools: seq<Value>)
    ensures var r := TransformTools(tools);
            (r.Success? <==> forall i :: 0 <= i < |tools| ==> Get(tools[i], "name").Some? && Get(tools[i], "description").Some?)
            && (r.Success? ==>
                  |r.value| == |tools|
                  && forall i :: 0 <= i < |tools| ==>
                       Get(r.value[i], "type") == Some(Str("function"))
                       && Get(r.value[i], "function").Some?
                       && var f := Get(r.value[i], "function").value;
                          Get(f, "name") == Get(tools[i], "name")
                          && Get(f, "description") == Get(tools[i], "description")
                          && Get(f, "parameters") == Some(GetOr(tools[i], "parameters", Obj([]))))
  {
    ForEachFacts(TransformTool, tools);
    forall i | 0 <= i < |tools| {
      TransformToolFacts(tools[i]);
    }
  }

  /** The loop of `transform_tools`. */
  method TransformToolsMethod(tools: seq<Value>) returns (r: Result<seq<Value>>)
    ensures r == TransformTools(tools)
  {
    var transformed: seq<Value> := [];
    for i := 0 to |tools|
      invariant ForEach(TransformTool, tools[..i]) == Success(transformed)
    {
      var t := TransformTool(tools[i]);
      if t.Failure? {
        assert ForEach(TransformTool, tools[..i + 1]) == Failure(t.error) by {
          assert tools[..i + 1][..i] == tools[..i];
        }
        ForEachPrefixFailure(TransformTool, tools, i + 1);
        return Failure(t.error);
      }
      ForEachSnoc(TransformTool, tools, i, transformed, t.value);
      transformed := transformed + [t.value];
    }
    assert tools[..|tools|] == tools;
    r := Success(transformed);
  }

  // ===========================================================================
  // Agent_Orchestrator.switch_persona
  // ===========================================================================

  const SimilarPreamble := "\n Here are similiar answered questions with solutions: \n"

  function SystemMessage(content: string): Message {
    Message(Some("system"), content)
  }

  /** The orchestrator's conversation and the index of its active agent. */
  datatype Session = Session(conversation: seq<Message>, activeAgent: int)

  /** `switch_persona(similiar_question)` with the personas of coder1 and
      coder2; replacing the first message of an empty conversation
      raises. */
  function SwitchPersona(coder1: string, coder2: string, s: Session, similar: Option<string>): Result<Session> {
    if s.activeAgent == 0 || similar.Some? then
      if similar.Some? then
        if |s.conversation| == 0 then Failure(IndexOutOfRange)
        else Success(Session(s.conversation[0 := SystemMessage(coder2 + SimilarPreamble + similar.value)], 1))
      else Success(s)
    else if s.activeAgent == 1 then
      if |s.conversation| == 0 then Failure(IndexOutOfRange)
      else Success(Session(s.conversation[0 := SystemMessage(coder1)], 0))
    else Success(s)
  }

  /** A similar question makes coder2 active with the question in its
      system message; without one, coder1 stays active or is made active
      again with its own persona, and any other agent index is left
      alone. Only the first message and the active agent ever change. */
  lemma SwitchPersonaFacts(coder1: string, coder2: string, s: Session, similar: Option<string>)
    ensures var r := SwitchPersona(coder1, coder2, s, similar);
            (r.Failure? <==> |s.conversation| == 0 && (similar.Some? || s.activeAgent == 1))
            && (similar.Some? && r.Success? ==>
                  r.value.activeAgent == 1
                  && r.value.conversation[0] == SystemMessage(coder2 + SimilarPreamble + similar.value))
            && (similar.None? && s.activeAgent == 0 ==> r == Success(s))
            && (similar.None? && s.activeAgent == 1 && r.Success? ==>
                  r.value.activeAgent == 0 && r.value.conversation[0] == SystemMessage(coder1))
            && (similar.None? && s.activeAgent != 0 && s.activeAgent != 1 ==> r == Success(s))
            && (r.Success? ==> |r.value.conversation| == |s.conversation|
                               && forall i :: 1 <= i < |s.conversation| ==> r.value.conversation[i] == s.conversation[i])
  {
  }

  /** The orchestrator's state that `switch_persona` touches. */
  class Orchestrator {
    /** The personas of the two agents, coder1 and coder2. */
    const coder1Persona: string
    const coder2Persona: string
    var conversation: History
    var activeAgent: int

    constructor(coder1Persona: string, coder2Persona: string, conversation: History, activeAgent: int)
      ensures this.coder1Persona == coder1Persona && this.coder2Persona == coder2Persona
      ensures this.conversation == conversation && this.activeAgent == activeAgent
    {
      this.coder1Persona := coder1Persona;
      this.coder2Persona := coder2Persona;
      this.conversation := conversation;
      this.activeAgent := activeAgent;
    }

    /** `switch_persona`: updates the first message of the shared
        conversation list and the active agent, and nothing else. */
    method SwitchPersonaMethod(similar: Option<string>) returns (r: Result<()>)
      modifies this, conversation
      ensures conversation == old(conversation)
      ensures var s := SwitchPersona(coder1Persona, coder2Persona, old(Session(conversation.messages, activeAgent)), similar);
              (r.Success? <==> s.Success?)
              && (s.Success? ==> conversation.messages == s.value.conversation && activeAgent == s.value.activeAgent)
              && (s.Failure? ==> r.error == s.error && conversation.messages == old(conversation.messages)
                                 && activeAgent == old(activeAgent))
    {
      if activeAgent == 0 || similar.Some? {
        if similar.Some? {
          if |conversation.messages| == 0 {
            return Failure(IndexOutOfRange);
          }
          conversation.messages := conversation.messages[0 := SystemMessage(coder2Persona + SimilarPreamble + similar.value)];
          activeAgent := 1;
        }
      } else if activeAgent == 1 {
        if |conversation.messages| == 0 {
          return Failure(IndexOutOfRange);
        }
        conversation.messages := conversation.messages[0 := SystemMessage(coder1Persona)];
        activeAgent := 0;
      }
      r := Success(());
    }
  }
}
