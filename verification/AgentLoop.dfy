/** The bounded tool-calling loop, and what every request it sends says. */
module AgentLoop {
  import opened Common
  import opened Llm

  // ----- environment -----

  /** The language model: `script` fixes its n-th reply (None is an API error), `requests` records what it was sent. */
  class Provider {
    const script: nat -> Option<ChatResponse>
    var requests: seq<seq<Message>>

    constructor (script: nat -> Option<ChatResponse>)
      ensures this.script == script && requests == []
    {
      this.script, requests := script, [];
    }

    method Chat(messages: seq<Message>) returns (reply: Option<ChatResponse>)
      modifies this
      ensures requests == old(requests) + [messages]
      ensures reply == script(|old(requests)|)
    {
      reply := script(|requests|);
      requests := requests + [messages];
    }
  }

  /** The tool registry: the outcome of the n-th execution of the run, given the tool's name and input. */
  type Registry = (nat, string, string) -> Result<string, string>

  datatype LoopError = CallFailed | MaxToolCallsExceeded(limit: int)

  function RunTool(tools: Option<Registry>, n: nat, call: ToolCall): ToolResult {
    match tools
    case None => ToolResult(call.id, "Error: Tool registry not configured", true)
    case Some(execute) =>
      match execute(n, call.name, call.input)
      case Success(content) => ToolResult(call.id, content, false)
      case Failure(reason) => ToolResult(call.id, "Error: " + reason, true)
  }

  function RunTools(tools: Option<Registry>, n: nat, calls: seq<ToolCall>): (results: seq<ToolResult>)
    ensures |results| == |calls|
    ensures forall i :: 0 <= i < |calls| ==> results[i] == RunTool(tools, n + i, calls[i])
  {
    seq(|calls|, i requires 0 <= i < |calls| => RunTool(tools, n + i, calls[i]))
  }

  /** The results tell what the registry did: each call's id, its output unflagged or its error flagged and
      announced. */
  ghost predicate ReportsTruly(tools: Option<Registry>, n: nat, calls: seq<ToolCall>, results: seq<ToolResult>) {
    && |results| == |calls|
    && forall i :: 0 <= i < |calls| ==>
         && results[i].toolUseId == calls[i].id
         && (tools.None? ==> results[i].isError && results[i].content == "Error: Tool registry not configured")
         && (tools.Some? ==>
               var outcome := tools.value(n + i, calls[i].name, calls[i].input);
               && (results[i].isError <==> outcome.Failure?)
               && (outcome.Success? ==> results[i].content == outcome.value)
               && (outcome.Failure? ==> results[i].content == "Error: " + outcome.error))
  }

  lemma RunToolsReportsTruly(tools: Option<Registry>, n: nat, calls: seq<ToolCall>)
    ensures ReportsTruly(tools, n, calls, RunTools(tools, n, calls))
  {
  }

  // ----- what a run consists of, given the model's replies -----

  function CallsIn(reply: Option<ChatResponse>): seq<ToolCall> {
    if reply.Some? then CallsOf(reply.value.content) else []
  }

  /** All calls made by the first `k` replies, in order. */
  function CallsBefore(script: nat -> Option<ChatResponse>, k: nat): seq<ToolCall> {
    if k == 0 then [] else CallsBefore(script, k - 1) + CallsIn(script(k - 1))
  }

  predicate WantsTools(reply: Option<ChatResponse>) {
    reply.Some? && HasToolCalls(reply.value)
  }

  function RoundResults(script: nat -> Option<ChatResponse>, tools: Option<Registry>, k: nat): seq<ToolResult> {
    RunTools(tools, |CallsBefore(script, k)|, CallsIn(script(k)))
  }

  /** The two messages a tool round adds. */
  function Round(script: nat -> Option<ChatResponse>, tools: Option<Registry>, k: nat): seq<Message> {
    if script(k).None? then []
    else [BuildAssistantMessage(script(k).value), Message(User, ResultBlocks(RoundResults(script, tools, k)))]
  }

  /** The conversation after `k` tool rounds. */
  function Transcript(script: nat -> Option<ChatResponse>, tools: Option<Registry>, start: seq<Message>,
                      k: nat): seq<Message> {
    if k == 0 then start else Transcript(script, tools, start, k - 1) + Round(script, tools, k - 1)
  }

  // ----- the loop -----

  /** Runs one response's calls in order, tracking each. */
  method ExecuteTools(tools: Option<Registry>, toolCalls: seq<ToolCall>, tracked: seq<ToolCall>)
    returns (toolResults: seq<ToolResult>, allToolCalls: seq<ToolCall>)
    ensures toolResults == RunTools(tools, |tracked|, toolCalls)
    ensures allToolCalls == tracked + toolCalls
    ensures ReportsTruly(tools, |tracked|, toolCalls, toolResults)
  {
    toolResults, allToolCalls := [], tracked;
    for i := 0 to |toolCalls|
      invariant allToolCalls == tracked + toolCalls[..i]
      invariant toolResults == RunTools(tools, |tracked|, toolCalls[..i])
    {
      var result := RunTool(tools, |allToolCalls|, toolCalls[i]);
      allToolCalls := allToolCalls + [toolCalls[i]];
      toolResults := toolResults + [result];
    }
    assert toolCalls[..|toolCalls|] == toolCalls;
    RunToolsReportsTruly(tools, |tracked|, toolCalls);
  }

  method ExecuteAgenticLoop(provider: Provider, tools: Option<Registry>, maxToolCalls: int, messages: seq<Message>)
    returns (r: Result<ChatResponse, LoopError>, allToolCalls: seq<ToolCall>)
    requires provider.requests == []
    modifies provider
    ensures |provider.requests| <= if maxToolCalls < 0 then 0 else maxToolCalls
    ensures allToolCalls == CallsBefore(provider.script, |provider.requests|)
    // All replies but the last asked for tools; every request is the transcript so far.
    ensures forall k :: 0 <= k < |provider.requests| - 1 ==> WantsTools(provider.script(k))
    ensures forall k :: 0 <= k < |provider.requests| ==>
              provider.requests[k] == Transcript(provider.script, tools, messages, k)
    ensures r.Success? <==> provider.requests != [] &&
                            provider.script(|provider.requests| - 1).Some? &&
                            !WantsTools(provider.script(|provider.requests| - 1))
    ensures r.Success? ==> Some(r.value) == provider.script(|provider.requests| - 1)
    ensures r == Failure(CallFailed) <==> provider.requests != [] && provider.script(|provider.requests| - 1).None?
    ensures r.Failure? && r.error != CallFailed ==>
              r.error == MaxToolCallsExceeded(maxToolCalls) &&
              |provider.requests| == if maxToolCalls < 0 then 0 else maxToolCalls
  {
    hide RunTool, Transcript, CallsOf, CallsBefore;
    StartOfRun(provider.script, tools, messages);
    allToolCalls := [];
    var iteration := 0;
    var conversation := messages;
    while iteration < maxToolCalls
      invariant 0 <= iteration <= if maxToolCalls < 0 then 0 else maxToolCalls
      invariant |provider.requests| == iteration
      invariant forall k :: 0 <= k < iteration ==> WantsTools(provider.script(k))
      invariant allToolCalls == CallsBefore(provider.script, iteration)
      invariant conversation == Transcript(provider.script, tools, messages, iteration)
      invariant forall k :: 0 <= k < iteration ==>
                provider.requests[k] == Transcript(provider.script, tools, messages, k)
    {
      NextRound(provider.script, tools, messages, iteration);
      iteration := iteration + 1;
      var reply := provider.Chat(conversation);
      if reply.None? {
        return Failure(CallFailed), allToolCalls;
      }
      var response := reply.value;
      if !HasToolCalls(response) {
        return Success(response), allToolCalls;
      }
      var toolCalls := GetToolCalls(response.content);
      var toolResults;
      toolResults, allToolCalls := ExecuteTools(tools, toolCalls, allToolCalls);
      conversation := conversation + [BuildAssistantMessage(response)];
      var resultMessage := BuildToolResultMessages(toolResults);
      conversation := conversation + [resultMessage];
    }
    r := Failure(MaxToolCallsExceeded(maxToolCalls));
  }

  lemma StartOfRun(script: nat -> Option<ChatResponse>, tools: Option<Registry>, start: seq<Message>)
    ensures CallsBefore(script, 0) == [] && Transcript(script, tools, start, 0) == start
  {
  }

  lemma NextRound(script: nat -> Option<ChatResponse>, tools: Option<Registry>, start: seq<Message>, k: nat)
    ensures !WantsTools(script(k)) ==> CallsBefore(script, k + 1) == CallsBefore(script, k)
    ensures script(k).Some? ==>
              var response := script(k).value;
              var results := RunTools(tools, |CallsBefore(script, k)|, CallsOf(response.content));
              && CallsBefore(script, k + 1) == CallsBefore(script, k) + CallsOf(response.content)
              && Transcript(script, tools, start, k + 1) ==
                   Transcript(script, tools, start, k) + [BuildAssistantMessage(response)]
                     + [Message(User, ResultBlocks(results))]
  {
    if script(k).Some? {
      var results := RoundResults(script, tools, k);
      var m := BuildAssistantMessage(script(k).value);
      assert Round(script, tools, k) == [m] + [Message(User, ResultBlocks(results))];
    }
  }

  // ----- what the requests say -----

  /** What the registry's outcome of the `n`-th execution reads as. */
  function AnswerTo(tools: Option<Registry>, n: nat, call: ToolCall): Answer {
    if tools.None? then Answer("Error: Tool registry not configured", true)
    else
      var outcome := tools.value(n, call.name, call.input);
      if outcome.Failure? then Answer("Error: " + outcome.error, true) else Answer(outcome.value, false)
  }

  function AnswersTo(tools: Option<Registry>, n: nat, calls: seq<ToolCall>): (r: seq<Answer>)
    ensures |r| == |calls| && forall i :: 0 <= i < |calls| ==> r[i] == AnswerTo(tools, n + i, calls[i])
  {
    seq(|calls|, i requires 0 <= i < |calls| => AnswerTo(tools, n + i, calls[i]))
  }

  /** A tool round is one exchange, each call bound to its own outcome; a round without calls is two plain turns. */
  function RoundTurns(script: nat -> Option<ChatResponse>, tools: Option<Registry>, k: nat): seq<Turn> {
    if script(k).None? then []
    else
      var text := TextOf(script(k).value.content);
      var calls := CallsIn(script(k));
      if calls == [] then [Say(AssistantRole, text), Say(UserRole, "")]
      else [Exchange(text, calls, AnswersTo(tools, |CallsBefore(script, k)|, calls))]
  }

  function TurnsAfter(script: nat -> Option<ChatResponse>, tools: Option<Registry>, start: seq<Turn>,
                      k: nat): seq<Turn> {
    if k == 0 then start else TurnsAfter(script, tools, start, k - 1) + RoundTurns(script, tools, k - 1)
  }

  lemma QuietRoundReads(content: seq<ContentBlock>)
    requires CallsOf(content) == []
    ensures TurnsOf([Message(Assistant, content), Message(User, [])]) ==
            Some([Say(AssistantRole, TextOf(content)), Say(UserRole, "")])
  {
    var m, quiet := Message(Assistant, content), Message(User, []);
    ReadSingle(m);
    ReadSingle(quiet);
    assert TextOf([]) == "";
    TurnsConcat([m], [quiet]);
    assert [m] + [quiet] == [m, quiet];
    assert SayOf(m) + SayOf(quiet) == [Say(AssistantRole, TextOf(content)), Say(UserRole, "")];
  }

  lemma AnswersAgree(tools: Option<Registry>, n: nat, calls: seq<ToolCall>)
    ensures
      var blocks := ResultBlocks(RunTools(tools, n, calls));
      Answers(calls, blocks) && AnswersOf(blocks) == AnswersTo(tools, n, calls)
  {
  }

  lemma RoundReads(script: nat -> Option<ChatResponse>, tools: Option<Registry>, k: nat)
    ensures TurnsOf(Round(script, tools, k)) == Some(RoundTurns(script, tools, k))
  {
    hide RunTool, RunTools, AnswersTo, ResultBlocks, CallsOf, TextOf, CallsBefore, TurnsOf, Answers, AnswersOf;
    if script(k).None? {
      NothingReads();
    } else {
      var content, calls := script(k).value.content, CallsIn(script(k));
      var results := Message(User, ResultBlocks(RoundResults(script, tools, k)));
      assert Round(script, tools, k) == [Message(Assistant, content), results];
      if calls == [] {
        NoResults(tools, |CallsBefore(script, k)|);
        QuietRoundReads(content);
        assert RoundTurns(script, tools, k) == [Say(AssistantRole, TextOf(content)), Say(UserRole, "")];
      } else {
        AnswersAgree(tools, |CallsBefore(script, k)|, calls);
        ReadPair(Message(Assistant, content), results);
        assert RoundTurns(script, tools, k) == [Exchange(TextOf(content), calls, AnswersOf(results.content))];
      }
    }
  }

  lemma NothingReads()
    ensures TurnsOf([]) == Some([])
  {
  }

  lemma NoResults(tools: Option<Registry>, n: nat)
    ensures ResultBlocks(RunTools(tools, n, [])) == []
  {
  }

  /** After any number of rounds the transcript reads as the opening conversation followed by the rounds, in order. */
  lemma {:induction false} TranscriptReads(script: nat -> Option<ChatResponse>, tools: Option<Registry>,
                                           start: seq<Message>, k: nat)
    requires TurnsOf(start).Some?
    ensures TurnsOf(Transcript(script, tools, start, k)) == Some(TurnsAfter(script, tools, TurnsOf(start).value, k))
  {
    hide TurnsOf, Round, RoundTurns;
    if k > 0 {
      TranscriptReads(script, tools, start, k - 1);
      RoundReads(script, tools, k - 1);
      TurnsConcat(Transcript(script, tools, start, k - 1), Round(script, tools, k - 1));
    }
  }

  /** The same holds of what an OpenAI-style server receives, error flags apart: each call is followed by its own
      tool message. */
  lemma FlatTranscriptReads(script: nat -> Option<ChatResponse>, tools: Option<Registry>, start: seq<Message>, k: nat)
    requires TurnsOf(start).Some?
    ensures FlatTurnsOf(ConvertAll(Transcript(script, tools, start, k))) ==
            Some(WithoutFlags(TurnsAfter(script, tools, TurnsOf(start).value, k)))
  {
    hide *;
    TranscriptReads(script, tools, start, k);
    FlatteningPreservesTurns(Transcript(script, tools, start, k));
  }

  // ----- the opening conversation -----

  datatype HistoryMessage = HistoryMessage(role: string, content: string)

  function NewTextMessage(role: Role, text: string): Message {
    Message(role, [Text(text)])
  }

  /** The turns kept from history: only user and assistant messages. */
  function HistoryTurns(history: seq<HistoryMessage>): seq<Turn> {
    if history == [] then []
    else
      var h := history[|history| - 1];
      HistoryTurns(history[..|history| - 1]) +
      if h.role == "user" then [Say(UserRole, h.content)]
      else if h.role == "assistant" then [Say(AssistantRole, h.content)]
      else []
  }

  lemma TextMessageReads(role: Role, text: string)
    requires role == User || role == Assistant
    ensures TurnsOf([NewTextMessage(role, text)]) ==
            Some([Say(if role == User then UserRole else AssistantRole, text)])
  {
    assert [Text(text)][..0] == [];
    assert TextOf([Text(text)]) == TextOf([]) + text == text;
    assert CallsOf([Text(text)]) == CallsOf([]) + [] == [];
    ReadSingle(NewTextMessage(role, text));
  }

  /** `context` is the rendered block of retrieved chunks, when there are any. */
  method BuildMessages(history: seq<HistoryMessage>, context: Option<string>, userMessage: string)
    returns (messages: seq<Message>)
    ensures
      var asked := if context.Some? then context.value + "\n\n" + userMessage else userMessage;
      TurnsOf(messages) == Some(HistoryTurns(history) + [Say(UserRole, asked)])
  {
    messages := [];
    for i := 0 to |history|
      invariant TurnsOf(messages) == Some(HistoryTurns(history[..i]))
    {
      assert history[..i + 1][..i] == history[..i];
      var role := history[i].role;
      assert HistoryTurns(history[..i]) + [] == HistoryTurns(history[..i]);
      if role == "system" {
        continue;
      }
      if role != "user" && role != "assistant" {
        continue;
      }
      var r := if role == "user" then User else Assistant;
      TextMessageReads(r, history[i].content);
      TurnsConcat(messages, [NewTextMessage(r, history[i].content)]);
      messages := messages + [NewTextMessage(r, history[i].content)];
    }
    assert history[..|history|] == history;
    var userContent := if context.Some? then context.value + "\n\n" + userMessage else userMessage;
    TextMessageReads(User, userContent);
    TurnsConcat(messages, [NewTextMessage(User, userContent)]);
    messages := messages + [NewTextMessage(User, userContent)];
  }
}
