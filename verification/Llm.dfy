/** Provider-neutral messages and their flattening into the OpenAI chat format. */
module Llm {
  import opened Common

  datatype Role = User | Assistant | System | Other(name: string)

  datatype ContentBlock =
    | Text(text: string)
    | ToolUse(id: string, name: string, input: string)
    | ToolResultBlock(toolUseId: string, result: string, isError: bool)

  datatype Message = Message(role: Role, content: seq<ContentBlock>)

  datatype ToolCall = ToolCall(id: string, name: string, input: string)

  datatype ToolResult = ToolResult(toolUseId: string, content: string, isError: bool)

  datatype StopReason = EndTurn | ToolUseStop | MaxTokens | Stop

  datatype ChatResponse = ChatResponse(content: seq<ContentBlock>, stopReason: StopReason)

  // ----- reading blocks -----

  function TextOf(blocks: seq<ContentBlock>): string {
    if blocks == [] then ""
    else
      var last := blocks[|blocks| - 1];
      TextOf(blocks[..|blocks| - 1]) + if last.Text? then last.text else ""
  }

  function CallsOf(blocks: seq<ContentBlock>): seq<ToolCall> {
    if blocks == [] then []
    else
      var last := blocks[|blocks| - 1];
      CallsOf(blocks[..|blocks| - 1]) + if last.ToolUse? then [ToolCall(last.id, last.name, last.input)] else []
  }

  method GetText(blocks: seq<ContentBlock>) returns (text: string)
    ensures text == TextOf(blocks)
  {
    text := "";
    for i := 0 to |blocks|
      invariant text == TextOf(blocks[..i])
    {
      assert blocks[..i + 1][..i] == blocks[..i];
      if blocks[i].Text? {
        text := text + blocks[i].text;
      }
    }
    assert blocks[..|blocks|] == blocks;
  }

  method GetToolCalls(blocks: seq<ContentBlock>) returns (calls: seq<ToolCall>)
    ensures calls == CallsOf(blocks)
  {
    calls := [];
    for i := 0 to |blocks|
      invariant calls == CallsOf(blocks[..i])
    {
      assert blocks[..i + 1][..i] == blocks[..i];
      if blocks[i].ToolUse? {
        calls := calls + [ToolCall(blocks[i].id, blocks[i].name, blocks[i].input)];
      }
    }
    assert blocks[..|blocks|] == blocks;
  }

  lemma {:induction false} CallsExist(blocks: seq<ContentBlock>)
    ensures CallsOf(blocks) != [] <==> exists i :: 0 <= i < |blocks| && blocks[i].ToolUse?
  {
    if blocks != [] {
      var front := blocks[..|blocks| - 1];
      CallsExist(front);
      assert forall i :: 0 <= i < |front| ==> front[i] == blocks[i];
    }
  }

  predicate HasToolCalls(r: ChatResponse): (b: bool)
    ensures b <==> r.stopReason == ToolUseStop || exists i :: 0 <= i < |r.content| && r.content[i].ToolUse?
  {
    CallsExist(r.content);
    r.stopReason == ToolUseStop || |CallsOf(r.content)| > 0
  }

  function BuildAssistantMessage(r: ChatResponse): Message {
    Message(Assistant, r.content)
  }

  function ResultBlocks(results: seq<ToolResult>): (blocks: seq<ContentBlock>)
    ensures |blocks| == |results|
    ensures forall i :: 0 <= i < |results| ==>
              blocks[i] == ToolResultBlock(results[i].toolUseId, results[i].content, results[i].isError)
  {
    seq(|results|, i requires 0 <= i < |results| =>
      ToolResultBlock(results[i].toolUseId, results[i].content, results[i].isError))
  }

  method BuildToolResultMessages(results: seq<ToolResult>) returns (m: Message)
    ensures m == Message(User, ResultBlocks(results))
  {
    var content := [];
    for i := 0 to |results|
      invariant content == ResultBlocks(results[..i])
    {
      content := content + [ToolResultBlock(results[i].toolUseId, results[i].content, results[i].isError)];
    }
    assert results[..|results|] == results;
    m := Message(User, content);
  }

  // ----- the OpenAI format -----

  datatype OpenAIRole = SystemRole | UserRole | AssistantRole | ToolRole

  datatype OpenAIMessage =
    OpenAIMessage(role: OpenAIRole, content: string, toolCallId: string, toolCalls: seq<ToolCall>)

  function ToolMessage(b: ContentBlock): OpenAIMessage
    requires b.ToolResultBlock?
  {
    OpenAIMessage(ToolRole, b.result, b.toolUseId, [])
  }

  function ToolMessages(blocks: seq<ContentBlock>): seq<OpenAIMessage> {
    if blocks == [] then []
    else
      var last := blocks[|blocks| - 1];
      ToolMessages(blocks[..|blocks| - 1]) + if last.ToolResultBlock? then [ToolMessage(last)] else []
  }

  /** What one message contributes; a message of an unknown role contributes nothing. */
  function ConvertOne(m: Message): seq<OpenAIMessage> {
    match m.role
    case System => [OpenAIMessage(SystemRole, TextOf(m.content), "", [])]
    case User =>
      if |m.content| > 0 && m.content[0].ToolResultBlock? then ToolMessages(m.content)
      else [OpenAIMessage(UserRole, TextOf(m.content), "", [])]
    case Assistant => [OpenAIMessage(AssistantRole, TextOf(m.content), "", CallsOf(m.content))]
    case Other(_) => []
  }

  function ConvertAll(messages: seq<Message>): seq<OpenAIMessage> {
    if messages == [] then [] else ConvertAll(messages[..|messages| - 1]) + ConvertOne(messages[|messages| - 1])
  }

  method ConvertMessage(m: Message) returns (result: seq<OpenAIMessage>)
    ensures result == ConvertOne(m)
  {
    result := [];
    match m.role
    case System =>
      var text := GetText(m.content);
      result := [OpenAIMessage(SystemRole, text, "", [])];
    case User =>
      if |m.content| > 0 && m.content[0].ToolResultBlock? {
        for j := 0 to |m.content|
          invariant result == ToolMessages(m.content[..j])
        {
          assert m.content[..j + 1][..j] == m.content[..j];
          if m.content[j].ToolResultBlock? {
            result := result + [OpenAIMessage(ToolRole, m.content[j].result, m.content[j].toolUseId, [])];
          }
        }
        assert m.content[..|m.content|] == m.content;
      } else {
        var text := GetText(m.content);
        result := [OpenAIMessage(UserRole, text, "", [])];
      }
    case Assistant =>
      var text := GetText(m.content);
      var calls := GetToolCalls(m.content);
      var toolCalls := [];
      for j := 0 to |calls|
        invariant toolCalls == calls[..j]
      {
        toolCalls := toolCalls + [ToolCall(calls[j].id, calls[j].name, calls[j].input)];
      }
      assert calls[..|calls|] == calls;
      result := [OpenAIMessage(AssistantRole, text, "", toolCalls)];
    case Other(_) =>
  }

  method ConvertMessages(systemPrompt: string, messages: seq<Message>) returns (result: seq<OpenAIMessage>)
    ensures result ==
      (if systemPrompt != "" then [OpenAIMessage(SystemRole, systemPrompt, "", [])] else []) + ConvertAll(messages)
  {
    hide ConvertOne;
    result := [];
    if systemPrompt != "" {
      result := [OpenAIMessage(SystemRole, systemPrompt, "", [])];
    }
    ghost var prefix := result;
    for i := 0 to |messages|
      invariant result == prefix + ConvertAll(messages[..i])
    {
      assert messages[..i + 1][..i] == messages[..i];
      var converted := ConvertMessage(messages[i]);
      assert result + converted == prefix + (ConvertAll(messages[..i]) + converted);
      result := result + converted;
    }
    assert messages[..|messages|] == messages;
  }

  // ----- what a transcript says, read from either format -----

  /** What a tool answered, and whether it reported an error. */
  datatype Answer = Answer(text: string, failed: bool)

  /** A tool exchange binds an assistant's calls to the results that answer them, in order. */
  datatype Turn =
    | Say(role: OpenAIRole, text: string)
    | Exchange(text: string, calls: seq<ToolCall>, answers: seq<Answer>)

  /** `results` answers `calls`: as many results as calls, the i-th carrying the i-th call's id. */
  predicate Answers(calls: seq<ToolCall>, results: seq<ContentBlock>) {
    && |results| == |calls|
    && forall i :: 0 <= i < |calls| ==> results[i].ToolResultBlock? && results[i].toolUseId == calls[i].id
  }

  function AnswersOf(results: seq<ContentBlock>): (r: seq<Answer>)
    requires forall i :: 0 <= i < |results| ==> results[i].ToolResultBlock?
    ensures |r| == |results|
  {
    seq(|results|, i requires 0 <= i < |results| => Answer(results[i].result, results[i].isError))
  }

  /** Reads a transcript; None when a call is unanswered, answered out of order, or a result answers nothing. */
  function TurnsOf(ms: seq<Message>): Option<seq<Turn>> {
    if ms == [] then Some([])
    else
      var m := ms[0];
      if OpensExchange(m) then
        if |ms| >= 2 && ms[1].role == User && Answers(CallsOf(m.content), ms[1].content) then
          var rest := TurnsOf(ms[2..]);
          if rest.None? then None
          else Some([Exchange(TextOf(m.content), CallsOf(m.content), AnswersOf(ms[1].content))] + rest.value)
        else None
      else
        var rest := TurnsOf(ms[1..]);
        if rest.None? || IsStrayResult(m) then None else Some(SayOf(m) + rest.value)
  }

  predicate IsStrayResult(m: Message) {
    m.role == User && m.content != [] && m.content[0].ToolResultBlock?
  }

  function SayOf(m: Message): seq<Turn> {
    match m.role
    case System => [Say(SystemRole, TextOf(m.content))]
    case User => [Say(UserRole, TextOf(m.content))]
    case Assistant => [Say(AssistantRole, TextOf(m.content))]
    case Other(_) => []
  }

  predicate OpensExchange(m: Message) {
    m.role == Assistant && CallsOf(m.content) != []
  }

  predicate FlatAnswers(calls: seq<ToolCall>, ms: seq<OpenAIMessage>) {
    && |calls| <= |ms|
    && forall i :: 0 <= i < |calls| ==> ms[i].role == ToolRole && ms[i].toolCallId == calls[i].id
  }

  /** The flat format has no place for the error flag. */
  function FlatAnswersOf(ms: seq<OpenAIMessage>): (r: seq<Answer>)
    ensures |r| == |ms|
  {
    seq(|ms|, i requires 0 <= i < |ms| => Answer(ms[i].content, false))
  }

  /** Reads the flat format: n calls must be followed by exactly their n tool messages; any other tool message is
      stray. */
  function FlatTurnsOf(ms: seq<OpenAIMessage>): Option<seq<Turn>>
    decreases |ms|
  {
    if ms == [] then Some([])
    else
      var m := ms[0];
      var n := |m.toolCalls|;
      if m.role == ToolRole then None
      else if m.role == AssistantRole && n > 0 then
        if FlatAnswers(m.toolCalls, ms[1..]) then
          var rest := FlatTurnsOf(ms[1 + n..]);
          if rest.None? then None
          else Some([Exchange(m.content, m.toolCalls, FlatAnswersOf(ms[1..1 + n]))] + rest.value)
        else None
      else
        var rest := FlatTurnsOf(ms[1..]);
        if rest.None? then None else Some([Say(m.role, m.content)] + rest.value)
  }

  // ----- flattening preserves the conversation, error flags apart -----

  function Unflagged(t: Turn): Turn {
    match t
    case Say(_, _) => t
    case Exchange(text, calls, answers) =>
      Exchange(text, calls, seq(|answers|, i requires 0 <= i < |answers| => Answer(answers[i].text, false)))
  }

  function WithoutFlags(ts: seq<Turn>): (r: seq<Turn>)
    ensures |r| == |ts| && forall i :: 0 <= i < |ts| ==> r[i] == Unflagged(ts[i])
  {
    seq(|ts|, i requires 0 <= i < |ts| => Unflagged(ts[i]))
  }

  lemma WithoutFlagsConcat(a: seq<Turn>, b: seq<Turn>)
    ensures WithoutFlags(a + b) == WithoutFlags(a) + WithoutFlags(b)
  {
    hide Unflagged;
  }

  lemma ConvertLast(ms: seq<Message>, m: Message)
    ensures ConvertAll(ms + [m]) == ConvertAll(ms) + ConvertOne(m)
  {
    hide ConvertOne;
    assert (ms + [m])[..|ms|] == ms;
  }

  lemma {:induction false} ConvertConcat(a: seq<Message>, b: seq<Message>)
    ensures ConvertAll(a + b) == ConvertAll(a) + ConvertAll(b)
  {
    if b == [] {
      assert a + b == a;
    } else {
      hide ConvertOne, ConvertAll;
      var front, last := b[..|b| - 1], b[|b| - 1];
      ConvertConcat(a, front);
      ConvertLast(a + front, last);
      ConvertLast(front, last);
      FrontAndLast(b);
      Regroup(a, front, [last]);
      Regroup(ConvertAll(a), ConvertAll(front), ConvertOne(last));
    }
  }

  lemma ConvertHead(ms: seq<Message>)
    requires ms != []
    ensures ConvertAll(ms) == ConvertOne(ms[0]) + ConvertAll(ms[1..])
  {
    hide ConvertOne;
    assert ms == [ms[0]] + ms[1..];
    ConvertConcat([ms[0]], ms[1..]);
    assert [ms[0]][..0] == [];
    assert ConvertAll([ms[0]]) == ConvertAll([]) + ConvertOne(ms[0]);
  }

  lemma {:induction false} ToolMessagesOfResults(blocks: seq<ContentBlock>)
    requires forall i :: 0 <= i < |blocks| ==> blocks[i].ToolResultBlock?
    ensures |ToolMessages(blocks)| == |blocks|
    ensures forall i :: 0 <= i < |blocks| ==> ToolMessages(blocks)[i] == ToolMessage(blocks[i])
  {
    if blocks != [] {
      ToolMessagesOfResults(blocks[..|blocks| - 1]);
    }
  }

  lemma {:induction false} ReadExchange(ms: seq<Message>)
    requires ms != [] && OpensExchange(ms[0])
    ensures TurnsOf(ms).Some? <==>
              |ms| >= 2 && ms[1].role == User && Answers(CallsOf(ms[0].content), ms[1].content) &&
                TurnsOf(ms[2..]).Some?
    ensures TurnsOf(ms).Some? ==>
              TurnsOf(ms).value ==
                [Exchange(TextOf(ms[0].content), CallsOf(ms[0].content), AnswersOf(ms[1].content))]
                  + TurnsOf(ms[2..]).value
  {
  }

  lemma {:induction false} ReadSay(ms: seq<Message>)
    requires ms != [] && !OpensExchange(ms[0])
    ensures TurnsOf(ms).Some? <==> !IsStrayResult(ms[0]) && TurnsOf(ms[1..]).Some?
    ensures TurnsOf(ms).Some? ==> TurnsOf(ms).value == SayOf(ms[0]) + TurnsOf(ms[1..]).value
  {
  }

  /** Every readable transcript flattens to a flat transcript saying the same turns, without the error flags. */
  lemma {:induction false} FlatteningPreservesTurns(ms: seq<Message>)
    requires TurnsOf(ms).Some?
    ensures FlatTurnsOf(ConvertAll(ms)) == Some(WithoutFlags(TurnsOf(ms).value))
    decreases |ms|
  {
    if ms != [] {
      hide TurnsOf, FlatTurnsOf, ConvertAll, ConvertOne, CallsOf, TextOf, SayOf, OpensExchange, IsStrayResult;
      hide Unflagged, WithoutFlags;
      ConvertHead(ms);
      if OpensExchange(ms[0]) {
        ReadExchange(ms);
        ConvertHead(ms[1..]);
        assert ms[1..][1..] == ms[2..];
        FlatteningPreservesTurns(ms[2..]);
        ExchangeFlattens(ms[0], ms[1], ConvertAll(ms[2..]));
        WithoutFlagsConcat([Exchange(TextOf(ms[0].content), CallsOf(ms[0].content), AnswersOf(ms[1].content))],
                           TurnsOf(ms[2..]).value);
      } else {
        ReadSay(ms);
        FlatteningPreservesTurns(ms[1..]);
        SingleFlattens(ms[0], ConvertAll(ms[1..]));
        WithoutFlagsConcat(SayOf(ms[0]), TurnsOf(ms[1..]).value);
      }
    } else {
      assert ConvertAll(ms) == [] && WithoutFlags([]) == [];
    }
  }

  // ----- what flattening loses -----

  /** The same block reporting no error. */
  function Cleared(b: ContentBlock): ContentBlock {
    if b.ToolResultBlock? then b.(isError := false) else b
  }

  function ClearedAll(blocks: seq<ContentBlock>): (r: seq<ContentBlock>)
    ensures |r| == |blocks| && forall i :: 0 <= i < |blocks| ==> r[i] == Cleared(blocks[i])
  {
    seq(|blocks|, i requires 0 <= i < |blocks| => Cleared(blocks[i]))
  }

  lemma {:induction false} ClearingChangesNothing(blocks: seq<ContentBlock>)
    ensures TextOf(ClearedAll(blocks)) == TextOf(blocks) && CallsOf(ClearedAll(blocks)) == CallsOf(blocks)
    ensures ToolMessages(ClearedAll(blocks)) == ToolMessages(blocks)
  {
    if blocks != [] {
      var front := blocks[..|blocks| - 1];
      ClearingChangesNothing(front);
      assert ClearedAll(blocks)[..|blocks| - 1] == ClearedAll(front);
    }
  }

  /** Whether a tool failed does not reach the flat format: only the text of its answer does. */
  lemma FlagsAreLost(m: Message)
    ensures ConvertOne(Message(m.role, ClearedAll(m.content))) == ConvertOne(m)
  {
    ClearingChangesNothing(m.content);
    hide TextOf, CallsOf, ToolMessages;
  }

  lemma SingleFlattens(m: Message, tail: seq<OpenAIMessage>)
    requires !OpensExchange(m) && !IsStrayResult(m)
    requires FlatTurnsOf(tail).Some?
    ensures FlatTurnsOf(ConvertOne(m) + tail) == Some(WithoutFlags(SayOf(m)) + FlatTurnsOf(tail).value)
  {
    assert WithoutFlags(SayOf(m)) == SayOf(m);
    if m.role.Other? {
      assert ConvertOne(m) + tail == tail && SayOf(m) + FlatTurnsOf(tail).value == FlatTurnsOf(tail).value;
    } else {
      assert (ConvertOne(m) + tail)[1..] == tail;
    }
  }

  lemma ExchangeFlattens(m: Message, results: Message, tail: seq<OpenAIMessage>)
    requires OpensExchange(m)
    requires results.role == User && Answers(CallsOf(m.content), results.content)
    requires FlatTurnsOf(tail).Some?
    ensures FlatTurnsOf(ConvertOne(m) + (ConvertOne(results) + tail)) ==
            Some(WithoutFlags([Exchange(TextOf(m.content), CallsOf(m.content), AnswersOf(results.content))])
                 + FlatTurnsOf(tail).value)
  {
    var calls, n := CallsOf(m.content), |CallsOf(m.content)|;
    var tools := ToolMessages(results.content);
    ToolMessagesOfResults(results.content);
    assert results.content[0].ToolResultBlock?;
    assert ConvertOne(results) == tools;
    hide TextOf, CallsOf, ToolMessages, FlatTurnsOf;
    var flat := ConvertOne(m) + (tools + tail);
    assert flat[0] == ConvertOne(m)[0] && flat[1..] == tools + tail;
    assert flat[1 + n..] == tail && flat[1..1 + n] == tools;
    assert FlatAnswers(calls, tools + tail);
    ReadFlatExchange(flat);
    var turn := Exchange(TextOf(m.content), calls, AnswersOf(results.content));
    assert FlatAnswersOf(tools) == Unflagged(turn).answers;
    assert WithoutFlags([turn]) == [Unflagged(turn)];
  }

  lemma ReadFlatExchange(ms: seq<OpenAIMessage>)
    requires ms != [] && ms[0].role == AssistantRole && ms[0].toolCalls != []
    requires FlatAnswers(ms[0].toolCalls, ms[1..]) && FlatTurnsOf(ms[1 + |ms[0].toolCalls|..]).Some?
    ensures
      var n := |ms[0].toolCalls|;
      FlatTurnsOf(ms) == Some([Exchange(ms[0].content, ms[0].toolCalls, FlatAnswersOf(ms[1..1 + n]))]
                              + FlatTurnsOf(ms[1 + n..]).value)
  {
  }

  lemma ReadSingle(m: Message)
    requires !OpensExchange(m) && !IsStrayResult(m)
    ensures TurnsOf([m]) == Some(SayOf(m))
  {
    ReadSay([m]);
    assert [m][1..] == [];
    assert SayOf(m) + [] == SayOf(m);
  }

  lemma ReadPair(m: Message, results: Message)
    requires OpensExchange(m) && results.role == User && Answers(CallsOf(m.content), results.content)
    ensures TurnsOf([m, results]) == Some([Exchange(TextOf(m.content), CallsOf(m.content), AnswersOf(results.content))])
  {
    ReadExchange([m, results]);
    assert [m, results][2..] == [];
    var e := Exchange(TextOf(m.content), CallsOf(m.content), AnswersOf(results.content));
    assert [e] + [] == [e];
  }

  /** Two readable transcripts, one after the other, say the turns of the first and then of the second. */
  lemma {:induction false} TurnsConcat(a: seq<Message>, b: seq<Message>)
    requires TurnsOf(a).Some? && TurnsOf(b).Some?
    ensures TurnsOf(a + b) == Some(TurnsOf(a).value + TurnsOf(b).value)
    decreases |a|
  {
    hide TurnsOf, OpensExchange, IsStrayResult, SayOf, CallsOf, TextOf;
    if a == [] {
      ReadNothing(b);
    } else {
      var ab := a + b;
      if OpensExchange(a[0]) {
        ReadExchange(a);
        TailOfConcat(a, b, 2);
        TurnsConcat(a[2..], b);
        ReadExchange(ab);
        Regroup([Exchange(TextOf(a[0].content), CallsOf(a[0].content), AnswersOf(a[1].content))],
                TurnsOf(a[2..]).value, TurnsOf(b).value);
      } else {
        ReadSay(a);
        TailOfConcat(a, b, 1);
        TurnsConcat(a[1..], b);
        ReadSay(ab);
        Regroup(SayOf(a[0]), TurnsOf(a[1..]).value, TurnsOf(b).value);
      }
    }
  }

  lemma ReadNothing(b: seq<Message>)
    requires TurnsOf(b).Some?
    ensures TurnsOf([]) == Some([])
    ensures [] + b == b && TurnsOf(b) == Some([] + TurnsOf(b).value)
  {
    assert [] + TurnsOf(b).value == TurnsOf(b).value;
  }

  lemma TailOfConcat(a: seq<Message>, b: seq<Message>, n: nat)
    requires n <= |a|
    ensures (a + b)[n..] == a[n..] + b && forall i :: 0 <= i < n ==> (a + b)[i] == a[i]
  {
  }
}
