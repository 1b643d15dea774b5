/**
 * `runBookAgent`: the Thought-Action-Observation loop of the book agent.
 *
 * The loop is written over an `Env`: the completion service (what
 * `callLLM` sends the transcript to, a parameter here), the parser that
 * detects a tool call in a reply, and the runner of a tool call. `RunFrom`
 * is the run as a function, round by round; the lemmas about it hold for
 * every environment. `BookEnv` wires in `parseToolCall` and `executeTool`
 * over a catalog, and the method `RunBookAgent`, the loop of the source,
 * is proved to compute the run in that environment. A run also records the
 * transcript handed to each call of the service (`prompts`).
 */
module BookAgent {
  import opened TextUtil
  import opened ToolCallParser
  import opened BookCatalog

  datatype Role = System | User | Assistant | Function

  /** One chat message; `name` is set on tool results only. */
  datatype Message = Message(role: Role, content: string, name: Option<string>)

  /** What a completion request produced: the content of the first choice
      (an absent or null content is the empty text), or the message of the
      error raised on the way to it. A missing response is
      `Failure(MissingResponseMessage)`; an empty `choices` array makes the
      property access throw a `TypeError`, which is a `Failure` with that
      error's message. */
  datatype LlmOutcome = Reply(content: string) | Failure(message: string)

  /** What the loop sees of its helpers: `callLLM` (a reply, or the message
      of the error it threw), the tool-call detector and the tool runner. */
  datatype Env = Env(call: seq<Message> -> Result<string>, parse: string -> Option<ToolCall>, exec: ToolCall -> string)

  datatype Result<T> = Ok(value: T) | Err(message: string)

  /** How a run ended. */
  datatype Exit = FinalAnswer | Failed | Exhausted

  /** A run: the text returned, how it ended, the transcript at the end, and
      the transcript sent on each call of the service, in order. */
  datatype Run = Run(answer: string, exit: Exit, transcript: seq<Message>, prompts: seq<seq<Message>>)

  const ErrorPrefix := "❌ Erro durante o processamento: "
  const IterationLimitText := "⏰ Limite de iterações atingido. Não foi possível completar a busca."
  const InternalErrorPrefix := "Erro interno: "
  const MissingResponseMessage := "Resposta do LLM não recebida."
  const MissingContentMessage := "Conteúdo da resposta do LLM não encontrado."
  /** The default of the `maxIterations` parameter. */
  const DefaultMaxIterations := 3

  /** `callLLM` on one outcome of the service: empty content is an error,
      every error gets the `Erro interno: ` prefix, and a reply is trimmed. */
  function CallLLM(outcome: LlmOutcome): (r: Result<string>)
    ensures outcome.Failure? ==> r == Err(InternalErrorPrefix + outcome.message)
    ensures outcome.Reply? && outcome.content == "" ==> r == Err(InternalErrorPrefix + MissingContentMessage)
    ensures r.Ok? ==> outcome.Reply? && outcome.content != "" && r.value == Trim(outcome.content)
    ensures r.Ok? ==> |r.value| <= |outcome.content|
    ensures r.Ok? ==> r.value == [] || (!IsBlank(r.value[0]) && !IsBlank(r.value[|r.value| - 1]))
  {
    match outcome
    case Failure(m) => Err(InternalErrorPrefix + m)
    case Reply(content) =>
      if content == "" then Err(InternalErrorPrefix + MissingContentMessage) else Ok(Trim(content))
  }

  /** The opening transcript: the system prompt and the user's question. */
  function Opening(systemPrompt: string, question: string): seq<Message> {
    [Message(System, systemPrompt, None), Message(User, question, None)]
  }

  /** A round whose reply names a tool call, so the loop goes on. */
  predicate IsToolRound(e: Env, prompt: seq<Message>) {
    var reply := e.call(prompt);
    reply.Ok? && e.parse(reply.value).Some?
  }

  /** The two messages a tool round appends: the reply as the assistant's,
      then the result of running the tool, under the tool's name. */
  function RoundPair(e: Env, prompt: seq<Message>): (r: seq<Message>)
    requires IsToolRound(e, prompt)
    ensures |r| == 2 && r[0].role == Assistant && r[1].role == Function
    ensures r[0].content == e.call(prompt).value
    ensures r[1] == Message(Function, e.exec(e.parse(r[0].content).value), Some(e.parse(r[0].content).value.toolName))
  {
    var reply := e.call(prompt).value;
    var call := e.parse(reply).value;
    [Message(Assistant, reply, None), Message(Function, e.exec(call), Some(call.toolName))]
  }

  /** How many calls of the service rounds `iteration` to `maxIterations` allow. */
  function Budget(iteration: int, maxIterations: int): nat {
    if iteration <= maxIterations then maxIterations - iteration + 1 else 0
  }

  /** The run of rounds `iteration` to `maxIterations` from transcript `messages`. */
  function RunFrom(e: Env, messages: seq<Message>,
                   iteration: int, maxIterations: int): Run
    decreases Budget(iteration, maxIterations)
  {
    if iteration > maxIterations then Run(IterationLimitText, Exhausted, messages, [])
    else match e.call(messages)
      case Err(m) => Run(ErrorPrefix + m, Failed, messages, [messages])
      case Ok(response) =>
        if e.parse(response).None? then Run(response, FinalAnswer, messages, [messages])
        else
          var rest := RunFrom(e, messages + RoundPair(e, messages), iteration + 1, maxIterations);
          rest.(prompts := [messages] + rest.prompts)
  }

  /** A tool round: the run goes on from the extended transcript. */
  lemma RunFromToolRound(e: Env, messages: seq<Message>,
                         iteration: int, maxIterations: int)
    requires iteration <= maxIterations && IsToolRound(e, messages)
    ensures var rest := RunFrom(e, messages + RoundPair(e, messages), iteration + 1, maxIterations);
      RunFrom(e, messages, iteration, maxIterations) == rest.(prompts := [messages] + rest.prompts)
  {
  }

  /** Any other round ends the run after one call. */
  lemma RunFromLastRound(e: Env, messages: seq<Message>,
                         iteration: int, maxIterations: int)
    requires iteration <= maxIterations && !IsToolRound(e, messages)
    ensures var r := RunFrom(e, messages, iteration, maxIterations);
      && r.transcript == messages && r.prompts == [messages]
      && (e.call(messages).Err? ==> r.exit == Failed && r.answer == ErrorPrefix + e.call(messages).message)
      && (e.call(messages).Ok? ==> r.exit == FinalAnswer && r.answer == e.call(messages).value)
  {
  }

  /** The number of tool rounds in a run: every call but the last, or all of
      them when the ceiling was reached. */
  function ToolRounds(r: Run): int {
    if r.exit == Exhausted then |r.prompts| else |r.prompts| - 1
  }

  /** The calls made stay within the budget, and a run that was not cut off
      by the ceiling made at least one. */
  lemma {:induction false} RunFromBudget(e: Env,
                                         messages: seq<Message>, iteration: int, maxIterations: int)
    ensures var r := RunFrom(e, messages, iteration, maxIterations);
      && |r.prompts| <= Budget(iteration, maxIterations)
      && (r.exit != Exhausted ==> |r.prompts| > 0)
      && (r.exit == Exhausted ==> r.answer == IterationLimitText)
    decreases Budget(iteration, maxIterations)
  {
    if iteration <= maxIterations {
      if IsToolRound(e, messages) {
        RunFromToolRound(e, messages, iteration, maxIterations);
        RunFromBudget(e, messages + RoundPair(e, messages), iteration + 1, maxIterations);
      } else {
        RunFromLastRound(e, messages, iteration, maxIterations);
      }
    }
  }

  /** The transcript only grows, by two messages per tool round. */
  lemma {:induction false} RunFromGrowth(e: Env,
                                         messages: seq<Message>, iteration: int, maxIterations: int)
    ensures var r := RunFrom(e, messages, iteration, maxIterations);
      |r.transcript| == |messages| + 2 * ToolRounds(r) && messages <= r.transcript
    decreases Budget(iteration, maxIterations)
  {
    if iteration <= maxIterations {
      if IsToolRound(e, messages) {
        RunFromToolRound(e, messages, iteration, maxIterations);
        RunFromGrowth(e, messages + RoundPair(e, messages), iteration + 1, maxIterations);
      } else {
        RunFromLastRound(e, messages, iteration, maxIterations);
      }
    }
  }

  /** Putting the transcript that was extended by two messages in front of
      the prompts keeps each prompt the matching prefix of the transcript. */
  lemma PromptsCons(messages: seq<Message>, next: seq<Message>, prompts: seq<seq<Message>>, transcript: seq<Message>)
    requires messages <= next && |next| == |messages| + 2 && next <= transcript
    requires forall k :: 0 <= k < |prompts| ==>
      |next| + 2 * k <= |transcript| && prompts[k] == transcript[..|next| + 2 * k]
    ensures forall k :: 0 <= k < |[messages] + prompts| ==>
      |messages| + 2 * k <= |transcript| && ([messages] + prompts)[k] == transcript[..|messages| + 2 * k]
  {
    forall k | 0 <= k < |[messages] + prompts|
      ensures |messages| + 2 * k <= |transcript| && ([messages] + prompts)[k] == transcript[..|messages| + 2 * k]
    {
      if k == 0 {
        assert transcript[..|messages|] == next[..|messages|];
      } else {
        assert ([messages] + prompts)[k] == prompts[k - 1];
      }
    }
  }

  /** Call `k` sees the first `|messages| + 2k` messages of the final transcript. */
  lemma {:induction false} RunFromPrompts(e: Env,
                                          messages: seq<Message>, iteration: int, maxIterations: int)
    ensures var r := RunFrom(e, messages, iteration, maxIterations);
      forall k :: 0 <= k < |r.prompts| ==> |messages| + 2 * k <= |r.transcript| && r.prompts[k] == r.transcript[..|messages| + 2 * k]
    decreases Budget(iteration, maxIterations)
  {
    if iteration <= maxIterations {
      if IsToolRound(e, messages) {
        var next := messages + RoundPair(e, messages);
        var rest := RunFrom(e, next, iteration + 1, maxIterations);
        RunFromToolRound(e, messages, iteration, maxIterations);
        RunFromPrompts(e, next, iteration + 1, maxIterations);
        RunFromGrowth(e, next, iteration + 1, maxIterations);
        PromptsCons(messages, next, rest.prompts, rest.transcript);
      } else {
        RunFromLastRound(e, messages, iteration, maxIterations);
      }
    }
  }

  /** Round `prompt` was a tool round, and `transcript` holds the pair it
      appended at index `at`. */
  predicate PairAt(e: Env, transcript: seq<Message>,
                   at: int, prompt: seq<Message>) {
    && IsToolRound(e, prompt)
    && 0 <= at && at + 2 <= |transcript|
    && transcript[at..at + 2] == RoundPair(e, prompt)
  }

  /** Each tool round `k` appended, right after what call `k` saw, the pair
      made of that call's reply and the tool's result. */
  lemma {:induction false} RunFromPairs(e: Env,
                                        messages: seq<Message>, iteration: int, maxIterations: int)
    ensures var r := RunFrom(e, messages, iteration, maxIterations);
      ToolRounds(r) <= |r.prompts|
      && forall k :: 0 <= k < ToolRounds(r) ==> PairAt(e, r.transcript, |messages| + 2 * k, r.prompts[k])
    decreases Budget(iteration, maxIterations)
  {
    if iteration <= maxIterations {
      if IsToolRound(e, messages) {
        var next := messages + RoundPair(e, messages);
        var rest := RunFrom(e, next, iteration + 1, maxIterations);
        RunFromToolRound(e, messages, iteration, maxIterations);
        RunFromPairs(e, next, iteration + 1, maxIterations);
        RunFromGrowth(e, next, iteration + 1, maxIterations);
        PairAtHead(e, messages, rest.transcript);
        PairsCons(e, messages, ToolRounds(rest), rest.prompts, rest.transcript);
      } else {
        RunFromLastRound(e, messages, iteration, maxIterations);
      }
    }
  }

  /** A transcript extending a tool round's result holds that round's pair right after its prompt. */
  lemma PairAtHead(e: Env, messages: seq<Message>, transcript: seq<Message>)
    requires IsToolRound(e, messages) && messages + RoundPair(e, messages) <= transcript
    ensures PairAt(e, transcript, |messages|, messages)
  {
    var next := messages + RoundPair(e, messages);
    assert transcript[|messages|..|messages| + 2] == next[|messages|..];
  }

  lemma PairsCons(e: Env, messages: seq<Message>,
                  n: nat, prompts: seq<seq<Message>>, transcript: seq<Message>)
    requires n <= |prompts|
    requires PairAt(e, transcript, |messages|, messages)
    requires forall k :: 0 <= k < n ==> PairAt(e, transcript, |messages| + 2 + 2 * k, prompts[k])
    ensures forall k :: 0 <= k < n + 1 ==> PairAt(e, transcript, |messages| + 2 * k, ([messages] + prompts)[k])
  {
    forall k | 0 <= k < n + 1
      ensures PairAt(e, transcript, |messages| + 2 * k, ([messages] + prompts)[k])
    {
      if k > 0 {
        assert ([messages] + prompts)[k] == prompts[k - 1];
        assert PairAt(e, transcript, |messages| + 2 + 2 * (k - 1), prompts[k - 1]);
      }
    }
  }

  /** A run not cut off by the ceiling ends on its last call: a reply with
      no tool call is returned as it came, and a failed call gives the error text. */
  lemma {:induction false} RunFromEnd(e: Env,
                                      messages: seq<Message>, iteration: int, maxIterations: int)
    ensures var r := RunFrom(e, messages, iteration, maxIterations);
      && (r.exit != Exhausted ==> |r.prompts| > 0 && !IsToolRound(e, r.prompts[|r.prompts| - 1]))
      && (r.exit == FinalAnswer ==>
            e.call(r.prompts[|r.prompts| - 1]) == Ok(r.answer) && e.parse(r.answer).None?)
      && (r.exit == Failed ==>
            var reply := e.call(r.prompts[|r.prompts| - 1]);
            reply.Err? && r.answer == ErrorPrefix + reply.message)
    decreases Budget(iteration, maxIterations)
  {
    if iteration <= maxIterations {
      if IsToolRound(e, messages) {
        var next := messages + RoundPair(e, messages);
        var rest := RunFrom(e, next, iteration + 1, maxIterations);
        RunFromToolRound(e, messages, iteration, maxIterations);
        RunFromEnd(e, next, iteration + 1, maxIterations);
        var r := RunFrom(e, messages, iteration, maxIterations);
        if r.exit != Exhausted {
          assert r.prompts[|r.prompts| - 1] == rest.prompts[|rest.prompts| - 1];
        }
      } else {
        RunFromLastRound(e, messages, iteration, maxIterations);
      }
    }
  }

  /** The ceiling text comes exactly when the whole budget of calls was
      spent and every one of them found a tool call. */
  lemma {:induction false} RunFromExhaustedIff(e: Env,
                                               messages: seq<Message>, iteration: int, maxIterations: int)
    ensures var r := RunFrom(e, messages, iteration, maxIterations);
      r.exit == Exhausted <==>
        |r.prompts| == Budget(iteration, maxIterations) && forall k :: 0 <= k < |r.prompts| ==> IsToolRound(e, r.prompts[k])
    decreases Budget(iteration, maxIterations)
  {
    if iteration <= maxIterations {
      if IsToolRound(e, messages) {
        var next := messages + RoundPair(e, messages);
        var rest := RunFrom(e, next, iteration + 1, maxIterations);
        RunFromToolRound(e, messages, iteration, maxIterations);
        RunFromExhaustedIff(e, next, iteration + 1, maxIterations);
        AllToolRoundsCons(e, messages, rest.prompts);
      } else {
        RunFromLastRound(e, messages, iteration, maxIterations);
        assert !IsToolRound(e, [messages][0]);
      }
    }
  }

  lemma AllToolRoundsCons(e: Env, messages: seq<Message>, prompts: seq<seq<Message>>)
    requires IsToolRound(e, messages)
    ensures (forall k :: 0 <= k < |[messages] + prompts| ==> IsToolRound(e, ([messages] + prompts)[k]))
        <==> (forall k :: 0 <= k < |prompts| ==> IsToolRound(e, prompts[k]))
  {
    var all := [messages] + prompts;
    if forall k :: 0 <= k < |all| ==> IsToolRound(e, all[k]) {
      forall k | 0 <= k < |prompts| ensures IsToolRound(e, prompts[k]) {
        assert prompts[k] == all[k + 1];
      }
    }
  }

  /** The whole run of a question: the transcript starts with the system
      prompt and the question and is never rewritten, call `k` (from 0) sees
      `2k + 2` messages, at most `maxIterations` calls are made, and with no
      positive ceiling no call is made at all. */
  lemma RunFacts(e: Env, systemPrompt: string, question: string, maxIterations: int)
    ensures var r := RunFrom(e, Opening(systemPrompt, question), 1, maxIterations);
      && 2 <= |r.transcript| && r.transcript[..2] == Opening(systemPrompt, question)
      && |r.prompts| <= (if maxIterations < 0 then 0 else maxIterations)
      && (forall k :: 0 <= k < |r.prompts| ==> |r.prompts[k]| == 2 * k + 2)
      && (maxIterations <= 0 ==> r == Run(IterationLimitText, Exhausted, Opening(systemPrompt, question), []))
  {
    var opening := Opening(systemPrompt, question);
    RunFromBudget(e, opening, 1, maxIterations);
    RunFromGrowth(e, opening, 1, maxIterations);
    RunFromPrompts(e, opening, 1, maxIterations);
  }

  /** The book agent's environment: `callLLM` on completion service `llm`,
      `parseToolCall` to detect calls and `executeTool` to run them on catalog `c`. */
  function BookEnv(c: Catalog, llm: seq<Message> -> LlmOutcome): (e: Env)
    requires c.Valid()
    ensures forall prompt :: e.call(prompt) == CallLLM(llm(prompt))
    ensures e.parse == ParseToolCall
    ensures forall call :: e.exec(call) == ExecuteTool(c, call)
  {
    Env(prompt => CallLLM(llm(prompt)), ParseToolCall, call => ExecuteTool(c, call))
  }

  /** In the book agent, the tool result appended by a tool round is the
      lookup of the title the reply asked for, under the name `book_lookup`. */
  lemma BookRoundPair(c: Catalog, llm: seq<Message> -> LlmOutcome, prompt: seq<Message>)
    requires c.Valid() && IsToolRound(BookEnv(c, llm), prompt)
    ensures var reply := CallLLM(llm(prompt)).value;
      RoundPair(BookEnv(c, llm), prompt) == [
        Message(Assistant, reply, None),
        Message(Function, BookLookupTool(c, ParseToolCall(reply).value.title), Some(BookLookupName))
      ]
  {
  }

  /** A round whose request got no response ends the run with both prefixes
      in front of the message `callLLM` threw. */
  lemma MissingResponseEndsRun(c: Catalog, llm: seq<Message> -> LlmOutcome,
                               messages: seq<Message>, iteration: int, maxIterations: int)
    requires c.Valid() && iteration <= maxIterations && llm(messages) == Failure(MissingResponseMessage)
    ensures RunFrom(BookEnv(c, llm), messages, iteration, maxIterations)
         == Run(ErrorPrefix + (InternalErrorPrefix + MissingResponseMessage), Failed, messages, [messages])
  {
    assert BookEnv(c, llm).call(messages) == Err(InternalErrorPrefix + MissingResponseMessage);
  }

  /** The loop's invariant: the whole run from `opening` is the calls made
      so far followed by the run from the current transcript and round. */
  ghost predicate Resumes(e: Env, opening: seq<Message>, maxIterations: int,
                          transcript: seq<Message>, iteration: int, prompts: seq<seq<Message>>) {
    var rest := RunFrom(e, transcript, iteration, maxIterations);
    RunFrom(e, opening, 1, maxIterations) == rest.(prompts := prompts + rest.prompts)
  }

  /** A tool round keeps the invariant. */
  lemma ResumesAfterToolRound(e: Env, opening: seq<Message>, maxIterations: int,
                              transcript: seq<Message>, iteration: int, prompts: seq<seq<Message>>)
    requires iteration <= maxIterations && IsToolRound(e, transcript)
    requires Resumes(e, opening, maxIterations, transcript, iteration, prompts)
    ensures Resumes(e, opening, maxIterations, transcript + RoundPair(e, transcript), iteration + 1, prompts + [transcript])
  {
    RunFromToolRound(e, transcript, iteration, maxIterations);
    var rest := RunFrom(e, transcript + RoundPair(e, transcript), iteration + 1, maxIterations);
    assert prompts + ([transcript] + rest.prompts) == (prompts + [transcript]) + rest.prompts;
  }

  /** The loop of `runBookAgent` from the opening transcript `messages`, in
      environment `e`: at most `maxIterations` rounds, each calling the
      service, returning early on an error or on a reply with no tool call,
      and otherwise appending the reply and the tool's result. */
  method AgentLoop(e: Env, messages: seq<Message>, maxIterations: int) returns (r: Run)
    ensures r == RunFrom(e, messages, 1, maxIterations)
  {
    var transcript := messages;
    var prompts: seq<seq<Message>> := [];
    var iteration := 1;
    while iteration <= maxIterations
      invariant Resumes(e, messages, maxIterations, transcript, iteration, prompts)
      decreases Budget(iteration, maxIterations)
    {
      var response := e.call(transcript);
      if response.Err? {
        RunFromLastRound(e, transcript, iteration, maxIterations);
        return Run(ErrorPrefix + response.message, Failed, transcript, prompts + [transcript]);
      }
      var toolCall := e.parse(response.value);
      if toolCall.None? {
        RunFromLastRound(e, transcript, iteration, maxIterations);
        return Run(response.value, FinalAnswer, transcript, prompts + [transcript]);
      }
      var toolResult := e.exec(toolCall.value);
      ResumesAfterToolRound(e, messages, maxIterations, transcript, iteration, prompts);
      ghost var before := transcript;
      prompts := prompts + [transcript];
      transcript := transcript + [Message(Assistant, response.value, None)];
      transcript := transcript + [Message(Function, toolResult, Some(toolCall.value.toolName))];
      assert transcript == before + RoundPair(e, before);
      iteration := iteration + 1;
    }
    r := Run(IterationLimitText, Exhausted, transcript, prompts);
  }

  /** `runBookAgent(question, maxIterations)` with `systemPrompt` as the
      system prompt, on catalog `c` and completion service `llm`; the ceiling
      defaults to three rounds, as in the source. */
  method RunBookAgent(c: Catalog, llm: seq<Message> -> LlmOutcome, systemPrompt: string, question: string,
                      maxIterations: int := DefaultMaxIterations)
    returns (r: Run)
    requires c.Valid()
    ensures r == RunFrom(BookEnv(c, llm), Opening(systemPrompt, question), 1, maxIterations)
  {
    r := AgentLoop(BookEnv(c, llm), Opening(systemPrompt, question), maxIterations);
  }
}
