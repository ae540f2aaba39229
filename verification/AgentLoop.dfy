/** The bounded reasoning loop: LLM calls, tool calls, duplicate detection and forced synthesis. */
module AgentLoop {
  import opened Text
  import opened Domain
  import opened JobProtocol
  import LLMClient
  import UsageEvents

  datatype ToolOutcome = ToolOutcome(output: string, error: string)

  /** What the run meets outside: the i-th completion and the i-th tool invocation. */
  datatype Env = Env(client: LLMClient.Client, call: nat -> LLMClient.CallEnv, tool: nat -> ToolOutcome)

  datatype Limits = Limits(maxToolCalls: int, maxLLMCalls: int)

  datatype Meta = Meta(llmCalls: int, toolCalls: int, synthesized: bool, inputTokens: int, outputTokens: int)

  datatype AgentResult = AgentResult(content: string, meta: Meta)

  /** The run's effects in order. `offered` says whether tools were offered with the call. */
  datatype Action =
    | Completed(msgs: seq<Message>, offered: bool, outcome: Result<Completion, LLMError>)
    | EmittedLLM(model: string, inputTokens: int, outputTokens: int)
    | Invoked(name: string, params: string)
    | EmittedTool(name: string, model: string, success: bool)

  datatype History = Begin | Then(before: History, last: Action)

  /** The local variables of Run. */
  datatype State = State(msgs: seq<Message>, llmCalls: nat, toolCalls: nat, seen: set<string>, history: History)

  const DUPLICATE :=
    "{\"error\": \"duplicate_call\", \"message\": \"This call was already made with the same parameters.\"}"
  const FINISH := "You have gathered enough context. Please produce the final report now. Include source citations."

  function CallKey(name: string, params: string): string {
    name + ":" + params
  }

  function ToolContent(name: string, outcome: ToolOutcome): string {
    if outcome.error != "" then "{\"error\": \"" + name + " failed: " + outcome.error + "\"}" else outcome.output
  }

  function Outcome(env: Env, i: nat): Result<Completion, LLMError> {
    LLMClient.CompleteSpec(env.client, env.call(i)).result
  }

  function Initial(system: string, context: string): State {
    State([System(system), User(context)], 0, 0, {}, Begin)
  }

  /** One tool call that is within the cap. */
  function OneCall(env: Env, st: State, model: string, tc: ToolCall): State {
    var key := CallKey(tc.name, tc.params);
    if key in st.seen then st.(msgs := st.msgs + [ToolAnswer(tc.id, DUPLICATE)])
    else
      var outcome := env.tool(st.toolCalls);
      State(st.msgs + [ToolAnswer(tc.id, ToolContent(tc.name, outcome))], st.llmCalls, st.toolCalls + 1,
            st.seen + {key},
            Then(Then(st.history, Invoked(tc.name, tc.params)), EmittedTool(tc.name, model, outcome.error == "")))
  }

  /** The tool calls of one reply in order, up to the cap; the flag says whether the cap stopped them. */
  function HandleCalls(lim: Limits, env: Env, st: State, model: string, calls: seq<ToolCall>): (r: (State, bool))
    decreases |calls|
  {
    if calls == [] then (st, false)
    else if st.toolCalls >= lim.maxToolCalls then (st, true)
    else HandleCalls(lim, env, OneCall(env, st, model, calls[0]), model, calls[1..])
  }

  function Synthesize(env: Env, st: State): (r: (Result<AgentResult, LLMError>, History)) {
    var outcome := Outcome(env, st.llmCalls);
    var history := Then(st.history, Completed(st.msgs + [User(FINISH)], false, outcome));
    match outcome
    case Err(e) => (Err(e), history)
    case Ok(c) =>
      (Ok(AgentResult(c.text, Meta(st.llmCalls + 1, st.toolCalls, true, c.inputTokens, c.outputTokens))), history)
  }

  /** The state after a successful completion: counted, emitted, and its tool calls in the conversation. */
  function AfterReply(st: State, c: Completion): State {
    var completed := Completed(st.msgs, true, Ok(c));
    var done := Then(Then(st.history, completed), EmittedLLM(c.model, c.inputTokens, c.outputTokens));
    var msgs := if c.calls == [] then st.msgs else st.msgs + [Assistant(c.calls)];
    st.(msgs := msgs, llmCalls := st.llmCalls + 1, history := done)
  }

  /** The whole rest of a run from the head of the outer loop. */
  function RunFrom(lim: Limits, env: Env, st: State): (r: (Result<AgentResult, LLMError>, History))
    decreases lim.maxLLMCalls - st.llmCalls
  {
    if st.llmCalls >= lim.maxLLMCalls then Synthesize(env, st)
    else
      match Outcome(env, st.llmCalls)
      case Err(e) => (Err(e), Then(st.history, Completed(st.msgs, true, Err(e))))
      case Ok(c) =>
        var replied := AfterReply(st, c);
        if c.calls == [] then
          (Ok(AgentResult(c.text, Meta(replied.llmCalls, st.toolCalls, false, c.inputTokens, c.outputTokens))),
           replied.history)
        else
          HandleCallsKeepsCount(lim, env, replied, c.model, c.calls);
          var (next, capped) := HandleCalls(lim, env, replied, c.model, c.calls);
          if capped then Synthesize(env, next) else RunFrom(lim, env, next)
  }

  lemma {:induction false} HandleCallsKeepsCount(lim: Limits, env: Env, st: State, model: string, calls: seq<ToolCall>)
    ensures HandleCalls(lim, env, st, model, calls).0.llmCalls == st.llmCalls
    decreases |calls|
  {
    if calls != [] && st.toolCalls < lim.maxToolCalls {
      HandleCallsKeepsCount(lim, env, OneCall(env, st, model, calls[0]), model, calls[1..]);
    }
  }

  lemma {:induction false} UnfoldRun(lim: Limits, env: Env, st: State, c: Completion)
    requires st.llmCalls < lim.maxLLMCalls && Outcome(env, st.llmCalls) == Ok(c) && c.calls != []
    ensures var (next, capped) := HandleCalls(lim, env, AfterReply(st, c), c.model, c.calls);
            && next.llmCalls == st.llmCalls + 1
            && RunFrom(lim, env, st) == if capped then Synthesize(env, next) else RunFrom(lim, env, next)
  {
    HandleCallsKeepsCount(lim, env, AfterReply(st, c), c.model, c.calls);
  }

  lemma {:induction false} UnfoldEnd(lim: Limits, env: Env, st: State)
    ensures st.llmCalls >= lim.maxLLMCalls ==> RunFrom(lim, env, st) == Synthesize(env, st)
    ensures st.llmCalls < lim.maxLLMCalls ==>
              match Outcome(env, st.llmCalls)
              case Err(e) => RunFrom(lim, env, st) == (Err(e), Then(st.history, Completed(st.msgs, true, Err(e))))
              case Ok(c) =>
                c.calls == [] ==>
                  RunFrom(lim, env, st)
                  == (Ok(AgentResult(c.text, Meta(st.llmCalls + 1, st.toolCalls, false,
                                                  c.inputTokens, c.outputTokens))),
                      AfterReply(st, c).history)
  {
  }

  lemma {:induction false} UnfoldCalls(lim: Limits, env: Env, st: State, model: string, calls: seq<ToolCall>, i: nat)
    requires i <= |calls|
    ensures HandleCalls(lim, env, st, model, calls[i..])
         == if i == |calls| then (st, false)
            else if st.toolCalls >= lim.maxToolCalls then (st, true)
            else HandleCalls(lim, env, OneCall(env, st, model, calls[i]), model, calls[i + 1..])
  {
    if i < |calls| {
      assert calls[i..][0] == calls[i] && calls[i..][1..] == calls[i + 1..];
    }
  }

  // ---------- the loops of the source ----------

  /** Provider calls made by the first n completions. */
  function ProviderCalls(env: Env, n: nat): nat {
    if n == 0 then 0 else ProviderCalls(env, n - 1) + LLMClient.CompleteSpec(env.client, env.call(n - 1)).calls
  }

  method Run(lim: Limits, env: Env, system: string, context: string)
      returns (result: Result<AgentResult, LLMError>, history: History, providerCalls: nat)
    ensures (result, history) == RunFrom(lim, env, Initial(system, context))
    ensures providerCalls == ProviderCalls(env, NumCompleted(history))
  {
    hide LLMClient.CompleteSpec, RunFrom, HandleCalls, ProviderCalls, Synthesize, ToolContent;
    providerCalls := 0;
    NoProviderCalls(env);
    var msgs := [System(system), User(context)];
    var toolCallCount: nat, llmCallCount: nat := 0, 0;
    var toolCallHistory: set<string> := {};
    history := Begin;
    while llmCallCount < lim.maxLLMCalls
      invariant RunFrom(lim, env, State(msgs, llmCallCount, toolCallCount, toolCallHistory, history))
             == RunFrom(lim, env, Initial(system, context))
      invariant NumCompleted(history) == llmCallCount && providerCalls == ProviderCalls(env, llmCallCount)
    {
      ghost var head := State(msgs, llmCallCount, toolCallCount, toolCallHistory, history);
      UnfoldEnd(lim, env, head);
      NextProviderCalls(env, llmCallCount);
      var tried := LLMClient.Complete(env.client, env.call(llmCallCount));
      var reply := tried.result;
      providerCalls := providerCalls + tried.calls;
      history := Then(history, Completed(msgs, true, reply));
      if reply.Err? {
        return Err(reply.error), history, providerCalls;
      }
      var c := reply.value;
      llmCallCount := llmCallCount + 1;
      history := Then(history, EmittedLLM(c.model, c.inputTokens, c.outputTokens));
      if |c.calls| == 0 {
        var meta := Meta(llmCallCount, toolCallCount, false, c.inputTokens, c.outputTokens);
        return Ok(AgentResult(c.text, meta)), history, providerCalls;
      }
      msgs := msgs + [Assistant(c.calls)];
      ghost var replied := AfterReply(head, c);
      assert State(msgs, llmCallCount, toolCallCount, toolCallHistory, history) == replied;
      UnfoldRun(lim, env, head, c);
      assert c.calls[0..] == c.calls;
      var i := 0;
      while i < |c.calls|
        invariant 0 <= i <= |c.calls|
        invariant HandleCalls(lim, env, State(msgs, llmCallCount, toolCallCount, toolCallHistory, history),
                              c.model, c.calls[i..])
               == HandleCalls(lim, env, replied, c.model, c.calls)
        invariant NumCompleted(history) == llmCallCount && providerCalls == ProviderCalls(env, llmCallCount)
      {
        var tc := c.calls[i];
        UnfoldCalls(lim, env, State(msgs, llmCallCount, toolCallCount, toolCallHistory, history), c.model, c.calls, i);
        if toolCallCount >= lim.maxToolCalls {
          result, history, providerCalls :=
            Synthesis(env, State(msgs, llmCallCount, toolCallCount, toolCallHistory, history), providerCalls);
          return;
        }
        i := i + 1;
        var callKey := CallKey(tc.name, tc.params);
        if callKey in toolCallHistory {
          msgs := msgs + [ToolAnswer(tc.id, DUPLICATE)];
          continue;
        }
        toolCallHistory := toolCallHistory + {callKey};
        var toolResult := env.tool(toolCallCount);
        history := Then(history, Invoked(tc.name, tc.params));
        history := Then(history, EmittedTool(tc.name, c.model, toolResult.error == ""));
        msgs := msgs + [ToolAnswer(tc.id, ToolContent(tc.name, toolResult))];
        toolCallCount := toolCallCount + 1;
      }
      UnfoldCalls(lim, env, State(msgs, llmCallCount, toolCallCount, toolCallHistory, history), c.model, c.calls, i);
    }
    UnfoldEnd(lim, env, State(msgs, llmCallCount, toolCallCount, toolCallHistory, history));
    result, history, providerCalls :=
      Synthesis(env, State(msgs, llmCallCount, toolCallCount, toolCallHistory, history), providerCalls);
  }

  lemma {:induction false} NoProviderCalls(env: Env)
    ensures ProviderCalls(env, 0) == 0
  {
  }

  lemma {:induction false} NextProviderCalls(env: Env, n: nat)
    ensures ProviderCalls(env, n + 1) == ProviderCalls(env, n) + LLMClient.CompleteSpec(env.client, env.call(n)).calls
  {
  }

  method Synthesis(env: Env, st: State, calls: nat)
      returns (result: Result<AgentResult, LLMError>, history: History, providerCalls: nat)
    requires NumCompleted(st.history) == st.llmCalls && calls == ProviderCalls(env, st.llmCalls)
    ensures (result, history) == Synthesize(env, st)
    ensures NumCompleted(history) == st.llmCalls + 1 && providerCalls == ProviderCalls(env, st.llmCalls + 1)
    ensures history.Then? && history.before == st.history
    ensures history.last == Completed(st.msgs + [User(FINISH)], false, Outcome(env, st.llmCalls))
    ensures match Outcome(env, st.llmCalls)
            case Err(e) => result == Err(e)
            case Ok(c) =>
              result == Ok(AgentResult(c.text, Meta(st.llmCalls + 1, st.toolCalls, true,
                                                    c.inputTokens, c.outputTokens)))
  {
    hide LLMClient.CompleteSpec;
    var msgs := st.msgs + [User(FINISH)];
    var tried := LLMClient.Complete(env.client, env.call(st.llmCalls));
    var reply := tried.result;
    providerCalls := calls + tried.calls;
    history := Then(st.history, Completed(msgs, false, reply));
    if reply.Err? {
      return Err(reply.error), history, providerCalls;
    }
    var c := reply.value;
    var meta := Meta(st.llmCalls + 1, st.toolCalls, true, c.inputTokens, c.outputTokens);
    return Ok(AgentResult(c.text, meta)), history, providerCalls;
  }

  // ---------- what a history says ----------

  function Max0(n: int): nat {
    if n > 0 then n else 0
  }

  function NumCompleted(h: History): nat {
    if h.Begin? then 0 else NumCompleted(h.before) + if h.last.Completed? then 1 else 0
  }

  function NumEmittedLLM(h: History): nat {
    if h.Begin? then 0 else NumEmittedLLM(h.before) + if h.last.EmittedLLM? then 1 else 0
  }

  function NumInvoked(h: History): nat {
    if h.Begin? then 0 else NumInvoked(h.before) + if h.last.Invoked? then 1 else 0
  }

  function NumEmittedTool(h: History): nat {
    if h.Begin? then 0 else NumEmittedTool(h.before) + if h.last.EmittedTool? then 1 else 0
  }

  predicate InvokedKey(h: History, key: string) {
    h.Then? && ((h.last.Invoked? && CallKey(h.last.name, h.last.params) == key) || InvokedKey(h.before, key))
  }

  /** No tool was invoked twice with the same name and parameters. */
  predicate NoRepeat(h: History) {
    h.Then? ==> NoRepeat(h.before) && (h.last.Invoked? ==> !InvokedKey(h.before, CallKey(h.last.name, h.last.params)))
  }

  /** A run's actions as acts of the job protocol. */
  function Acts(h: History): seq<Act> {
    if h.Begin? then [] else Acts(h.before) + ActsOf(h.last)
  }

  /** What a completion used, as its usage event reports it. */
  function UsageOf(c: Completion): UsageEvents.LLMUsage {
    UsageEvents.LLMUsage(c.model, c.inputTokens, c.outputTokens)
  }

  function ActsOf(a: Action): seq<Act> {
    match a
    case Completed(_, offered, Ok(c)) =>
      if offered then [BeginCheck, Admit] else [BeginCheck, Admit, Unrecorded(UsageOf(c))]
    case Completed(_, _, Err(e)) =>
      if e == LLMError.BudgetExceeded || e == BudgetCheckFailed then [BeginCheck, Refuse] else [BeginCheck, Admit, Fail]
    case EmittedLLM(model, input, output) => [Record(UsageEvents.LLMUsage(model, input, output))]
    case _ => []
  }

  /** Every emission of LLM usage comes right after the completion whose numbers it carries. */
  predicate EmitsWhatItUsed(h: History) {
    h.Then? ==>
      && EmitsWhatItUsed(h.before)
      && (h.last.EmittedLLM? ==>
            && h.before.Then? && h.before.last.Completed? && h.before.last.outcome.Ok?
            && var c := h.before.last.outcome.value;
               h.last == EmittedLLM(c.model, c.inputTokens, c.outputTokens))
  }

  // ---------- conversations ----------

  /** One tool message per call, same IDs, same order. */
  predicate Answers(calls: seq<ToolCall>, answers: seq<Message>) {
    |answers| == |calls| && forall i :: 0 <= i < |calls| ==> answers[i].ToolAnswer? && answers[i].callID == calls[i].id
  }

  /** Rounds of an assistant message with calls followed immediately by all its answers. */
  predicate Rounds(ms: seq<Message>)
    decreases |ms|
  {
    ms == []
    || (&& ms[0].Assistant? && ms[0].calls != [] && |ms| > |ms[0].calls|
        && Answers(ms[0].calls, ms[1..|ms[0].calls| + 1])
        && Rounds(ms[|ms[0].calls| + 1..]))
  }

  /** A conversation in which every assistant message has all its answers. */
  predicate Conversation(ms: seq<Message>) {
    |ms| >= 2 && ms[0].System? && ms[1].User? && Rounds(ms[2..])
  }

  /** A conversation whose last assistant message has only a proper prefix of its answers. */
  ghost predicate CutOff(ms: seq<Message>) {
    exists k :: 0 <= k < |ms| && CutOffAt(ms, k)
  }

  predicate CutOffAt(ms: seq<Message>, k: nat)
    requires k < |ms|
  {
    var n := |ms| - k - 1;
    && Conversation(ms[..k]) && ms[k].Assistant? && n < |ms[k].calls|
    && Answers(ms[k].calls[..n], ms[k + 1..])
  }

  /** What each completion was sent. */
  ghost predicate WellFormed(lim: Limits, h: History) {
    h.Then? ==>
      && WellFormed(lim, h.before)
      && (h.last.Completed? ==> WellFormedRequest(lim, h.before, h.last.msgs, h.last.offered))
  }

  ghost predicate WellFormedRequest(lim: Limits, h: History, msgs: seq<Message>, offered: bool) {
    if offered then Conversation(msgs)
    else
      && msgs != [] && msgs[|msgs| - 1] == User(FINISH)
      && var talk := msgs[..|msgs| - 1];
         Conversation(talk) || (CutOff(talk) && NumInvoked(h) >= lim.maxToolCalls)
  }

  lemma {:induction false} ConcatSlices(a: seq<Message>, b: seq<Message>, n: nat)
    requires 1 <= n <= |a|
    ensures (a + b)[0] == a[0] && (a + b)[1..n] == a[1..n] && (a + b)[n..] == a[n..] + b
  {
  }

  lemma {:induction false} RoundsUnfold(ms: seq<Message>)
    requires ms != []
    ensures Rounds(ms) <==>
              && ms[0].Assistant? && ms[0].calls != [] && |ms| > |ms[0].calls|
              && Answers(ms[0].calls, ms[1..|ms[0].calls| + 1])
              && Rounds(ms[|ms[0].calls| + 1..])
  {
    hide Answers;
  }

  lemma {:induction false} RoundsConcat(a: seq<Message>, b: seq<Message>)
    requires Rounds(a) && Rounds(b)
    ensures Rounds(a + b)
    decreases |a|
  {
    if a == [] {
      assert a + b == b;
    } else {
      hide Answers, Rounds;
      RoundsUnfold(a);
      var n := |a[0].calls| + 1;
      RoundsConcat(a[n..], b);
      ConcatSlices(a, b, n);
      RoundsUnfold(a + b);
    }
  }

  lemma {:induction false} ConversationGrows(talk: seq<Message>, calls: seq<ToolCall>, answers: seq<Message>)
    requires Conversation(talk) && calls != [] && Answers(calls, answers)
    ensures Conversation(talk + [Assistant(calls)] + answers)
  {
    hide Rounds, Answers;
    var round := [Assistant(calls)] + answers;
    OneRound(calls, answers);
    RoundsConcat(talk[2..], round);
    assert (talk + [Assistant(calls)] + answers)[2..] == talk[2..] + round;
  }

  lemma {:induction false} OneRound(calls: seq<ToolCall>, answers: seq<Message>)
    requires calls != [] && Answers(calls, answers)
    ensures Rounds([Assistant(calls)] + answers)
  {
    var round := [Assistant(calls)] + answers;
    assert |answers| == |calls|;
    hide Answers;
    assert round[1..|calls| + 1] == answers && round[|calls| + 1..] == [];
    RoundsUnfold(round);
    assert Rounds([]);
  }

  // ---------- the run's invariant ----------

  /** What holds of the counters and the history whenever no completion is outstanding. */
  ghost predicate Sound(lim: Limits, st: State) {
    && NumCompleted(st.history) == NumEmittedLLM(st.history) == st.llmCalls <= Max0(lim.maxLLMCalls)
    && NumInvoked(st.history) == NumEmittedTool(st.history) == st.toolCalls <= Max0(lim.maxToolCalls)
    && NoRepeat(st.history) && (forall k :: k in st.seen <==> InvokedKey(st.history, k))
    && AdvanceAll(Ready, Acts(st.history)) == Some(Ready)
    && EmitsWhatItUsed(st.history)
    && WellFormed(lim, st.history)
  }

  lemma {:induction false} ActsThen(h: History, a: Action)
    requires AdvanceAll(Ready, Acts(h)) == Some(Ready)
    ensures AdvanceAll(Ready, Acts(Then(h, a))) == AdvanceAll(Ready, ActsOf(a))
  {
    AdvanceConcat(Ready, Acts(h), ActsOf(a));
  }

  /** A completion with its emission leaves the protocol where it was. */
  lemma {:induction false} ActsReply(h: History, msgs: seq<Message>, c: Completion)
    requires AdvanceAll(Ready, Acts(h)) == Some(Ready)
    ensures AdvanceAll(Ready, Acts(Then(Then(h, Completed(msgs, true, Ok(c))),
                                        EmittedLLM(c.model, c.inputTokens, c.outputTokens)))) == Some(Ready)
  {
    var record := Record(UsageOf(c));
    var both := [BeginCheck, Admit] + [record];
    assert Acts(h) + [BeginCheck, Admit] + [record] == Acts(h) + both;
    AdvanceConcat(Ready, Acts(h), both);
    assert both[1..] == [Admit, record] && both[1..][1..] == [record];
    assert AdvanceAll(Calling, [record]) == Some(Ready);
    assert AdvanceAll(Checking, [Admit, record]) == Some(Ready);
  }

  lemma {:induction false} ActsOfFinal(outcome: Result<Completion, LLMError>, msgs: seq<Message>, offered: bool)
    requires outcome.Err? || !offered
    ensures AdvanceAll(Ready, ActsOf(Completed(msgs, offered, outcome))) == Some(Ready)
  {
    var acts := ActsOf(Completed(msgs, offered, outcome));
    assert acts[0] == BeginCheck;
    if |acts| == 2 {
      assert acts == [BeginCheck, Refuse] && acts[1..] == [Refuse];
      assert AdvanceAll(Checking, [Refuse]) == Some(Ready);
    } else {
      assert acts == [BeginCheck, Admit, acts[2]] && acts[1..] == [Admit, acts[2]] && acts[1..][1..] == [acts[2]];
      assert AdvanceAll(Calling, [acts[2]]) == Some(Ready);
      assert AdvanceAll(Checking, acts[1..]) == Some(Ready);
    }
  }

  lemma {:induction false} OneCallSound(lim: Limits, env: Env, st: State, model: string, tc: ToolCall)
    requires Sound(lim, st) && st.toolCalls < lim.maxToolCalls
    ensures Sound(lim, OneCall(env, st, model, tc))
  {
    var key := CallKey(tc.name, tc.params);
    if key !in st.seen {
      var invoked := Invoked(tc.name, tc.params);
      var emitted := EmittedTool(tc.name, model, env.tool(st.toolCalls).error == "");
      ActsThen(st.history, invoked);
      ActsThen(Then(st.history, invoked), emitted);
    }
  }

  /** Handling a reply's calls either answers them all or is cut off by the tool cap. */
  lemma {:induction false} HandleCallsSound(lim: Limits, env: Env, st: State, model: string, all: seq<ToolCall>,
                                            talk: seq<Message>, answers: seq<Message>)
    requires Sound(lim, st) && all != [] && Conversation(talk) && |answers| <= |all|
    requires st.msgs == talk + [Assistant(all)] + answers && Answers(all[..|answers|], answers)
    ensures var (next, capped) := HandleCalls(lim, env, st, model, all[|answers|..]);
            && Sound(lim, next)
            && if capped then CutOff(next.msgs) && next.toolCalls >= lim.maxToolCalls else Conversation(next.msgs)
    decreases |all| - |answers|
  {
    hide Sound, Conversation;
    var calls := all[|answers|..];
    if calls == [] {
      assert all[..|answers|] == all;
      ConversationGrows(talk, all, answers);
    } else if st.toolCalls >= lim.maxToolCalls {
      assert st.msgs[..|talk|] == talk && st.msgs[|talk| + 1..] == answers;
      assert CutOffAt(st.msgs, |talk|);
    } else {
      OneCallSound(lim, env, st, model, calls[0]);
      var next := OneCall(env, st, model, calls[0]);
      var answer := next.msgs[|next.msgs| - 1];
      assert next.msgs == talk + [Assistant(all)] + (answers + [answer]);
      assert all[..|answers| + 1] == all[..|answers|] + [calls[0]];
      HandleCallsSound(lim, env, next, model, all, talk, answers + [answer]);
      assert all[|answers| + 1..] == calls[1..];
    }
  }

  /** What holds of a finished run. */
  ghost predicate Finished(lim: Limits, result: Result<AgentResult, LLMError>, h: History) {
    && NumCompleted(h) <= Max0(lim.maxLLMCalls) + 1
    && NumEmittedLLM(h) <= Max0(lim.maxLLMCalls)
    && NumInvoked(h) == NumEmittedTool(h) <= Max0(lim.maxToolCalls)
    && NoRepeat(h)
    && WellFormed(lim, h)
    && EmitsWhatItUsed(h)
    && AdvanceAll(Ready, Acts(h)) == Some(Ready)
    && match result
       case Ok(r) =>
         && r.meta.llmCalls == NumCompleted(h)
         && r.meta.toolCalls == NumInvoked(h)
         && NumEmittedLLM(h) == NumCompleted(h) - (if r.meta.synthesized then 1 else 0)
       case Err(e) =>
         h.Then? && h.last.Completed? && h.last.outcome == Err(e) && NumEmittedLLM(h) == NumCompleted(h) - 1
  }

  lemma {:induction false} SynthesizeFinishes(lim: Limits, env: Env, st: State)
    requires Sound(lim, st)
    requires Conversation(st.msgs) || (CutOff(st.msgs) && st.toolCalls >= lim.maxToolCalls)
    ensures var (result, h) := Synthesize(env, st); Finished(lim, result, h)
  {
    hide Conversation, CutOff, NoRepeat, Outcome;
    var outcome := Outcome(env, st.llmCalls);
    var msgs := st.msgs + [User(FINISH)];
    assert msgs[..|msgs| - 1] == st.msgs;
    ActsThen(st.history, Completed(msgs, false, outcome));
    ActsOfFinal(outcome, msgs, false);
    NoRepeatThen(st.history, Completed(msgs, false, outcome));
  }

  lemma {:induction false} NoRepeatThen(h: History, a: Action)
    requires NoRepeat(h) && !a.Invoked?
    ensures NoRepeat(Then(h, a))
  {
  }

  lemma {:induction false} AfterReplySound(lim: Limits, st: State, c: Completion)
    requires Sound(lim, st) && Conversation(st.msgs) && st.llmCalls < lim.maxLLMCalls
    ensures Sound(lim, AfterReply(st, c))
  {
    hide Conversation, AdvanceAll, Acts;
    ActsReply(st.history, st.msgs, c);
    var completed := Then(st.history, Completed(st.msgs, true, Ok(c)));
    assert WellFormed(lim, completed) && NoRepeat(completed) && EmitsWhatItUsed(completed);
    assert forall k :: InvokedKey(completed, k) == InvokedKey(st.history, k);
    var after := AfterReply(st, c);
    var emitted := EmittedLLM(c.model, c.inputTokens, c.outputTokens);
    assert after.history == Then(completed, emitted);
    assert NumCompleted(after.history) == NumEmittedLLM(after.history) == after.llmCalls;
    assert NumInvoked(after.history) == NumEmittedTool(after.history) == after.toolCalls;
    assert forall k :: InvokedKey(after.history, k) == InvokedKey(completed, k);
  }

  lemma {:induction false} RunFromFinishes(lim: Limits, env: Env, st: State)
    requires Sound(lim, st) && Conversation(st.msgs)
    ensures var (result, h) := RunFrom(lim, env, st); Finished(lim, result, h)
    decreases lim.maxLLMCalls - st.llmCalls
  {
    hide Sound, Finished, Conversation, HandleCalls, Synthesize, Outcome;
    if st.llmCalls >= lim.maxLLMCalls {
      SynthesizeFinishes(lim, env, st);
    } else {
      match Outcome(env, st.llmCalls)
      case Err(e) => FailedFinishes(lim, st, e);
      case Ok(c) =>
        AfterReplySound(lim, st, c);
        var replied := AfterReply(st, c);
        if c.calls == [] {
          AnsweredFinishes(lim, st, c);
        } else {
          HandleCallsKeepsCount(lim, env, replied, c.model, c.calls);
          assert replied.msgs == st.msgs + [Assistant(c.calls)] + [];
          assert c.calls[0..] == c.calls;
          HandleCallsSound(lim, env, replied, c.model, c.calls, st.msgs, []);
          var (next, capped) := HandleCalls(lim, env, replied, c.model, c.calls);
          if capped {
            SynthesizeFinishes(lim, env, next);
          } else {
            RunFromFinishes(lim, env, next);
          }
        }
    }
  }

  lemma {:induction false} FailedFinishes(lim: Limits, st: State, e: LLMError)
    requires Sound(lim, st) && Conversation(st.msgs)
    ensures Finished(lim, Err(e), Then(st.history, Completed(st.msgs, true, Err(e))))
  {
    ActsThen(st.history, Completed(st.msgs, true, Err(e)));
    ActsOfFinal(Err(e), st.msgs, true);
  }

  lemma {:induction false} AnsweredFinishes(lim: Limits, st: State, c: Completion)
    requires Sound(lim, AfterReply(st, c))
    ensures var replied := AfterReply(st, c);
            Finished(lim, Ok(AgentResult(c.text, Meta(replied.llmCalls, st.toolCalls, false,
                                                      c.inputTokens, c.outputTokens))),
                     replied.history)
  {
  }

  /**
   * For any replies, tools, provider faults and limits, a whole run is finished within its caps,
   * repeats no tool call, sends only well-formed conversations, follows the job protocol, and on
   * success reports exactly the calls it made.
   */
  lemma {:induction false} RunFinishes(lim: Limits, env: Env, system: string, context: string)
    ensures var (result, h) := RunFrom(lim, env, Initial(system, context)); Finished(lim, result, h)
  {
    var st := Initial(system, context);
    assert st.msgs[2..] == [];
    assert Sound(lim, st);
    RunFromFinishes(lim, env, st);
  }

  // ---------- what a run tells, over its actions alone ----------

  /** The tool was invoked with these parameters. */
  predicate WasInvoked(h: History, name: string, params: string) {
    h.Then? && (h.last == Invoked(name, params) || WasInvoked(h.before, name, params))
  }

  /** The actions after one tool call: an invocation and its event, if the same call was not invoked before. */
  function AfterCall(env: Env, model: string, h: History, tc: ToolCall): History {
    if WasInvoked(h, tc.name, tc.params) then h
    else Then(Then(h, Invoked(tc.name, tc.params)), EmittedTool(tc.name, model, env.tool(NumInvoked(h)).error == ""))
  }

  /** Its answer: the output of its own invocation, the printed failure, or that the call is a duplicate. */
  function AnswerTo(env: Env, h: History, tc: ToolCall): Message {
    var outcome := env.tool(NumInvoked(h));
    ToolAnswer(tc.id, if WasInvoked(h, tc.name, tc.params) then DUPLICATE
                      else if outcome.error == "" then outcome.output
                      else "{\"error\": \"" + (tc.name + " failed: " + outcome.error) + "\"}")
  }

  /** From h to h' the calls were answered in order, each while the tool cap was not reached. */
  ghost predicate Handled(lim: Limits, env: Env, model: string, h: History, calls: seq<ToolCall>,
                          answers: seq<Message>, h': History)
    decreases |calls|
  {
    if calls == [] then answers == [] && h' == h
    else
      && NumInvoked(h) < lim.maxToolCalls
      && answers != [] && answers[0] == AnswerTo(env, h, calls[0])
      && Handled(lim, env, model, AfterCall(env, model, h, calls[0]), calls[1..], answers[1..], h')
  }

  /** The actions up to the last reply that was recorded. */
  function UpToReply(h: History): History {
    if h.Then? && !h.last.EmittedLLM? then UpToReply(h.before) else h
  }

  /** The actions end with a reply to the conversation and its emission. */
  ghost predicate Replied(h: History, sent: seq<Message>, c: Completion) {
    && h.Then? && h.last == EmittedLLM(c.model, c.inputTokens, c.outputTokens)
    && h.before.Then? && h.before.last == Completed(sent, true, Ok(c))
  }

  /** A conversation after the actions h, whose last reply had its calls answered, up to the tool cap if it cut them. */
  ghost predicate Talked(lim: Limits, env: Env, opening: seq<Message>, h: History, talk: seq<Message>, cut: bool) {
    var replied := UpToReply(h);
    if replied.Begin? then h == Begin && talk == opening && !cut
    else exists sent, c, n :: TalkedAfter(lim, env, h, talk, cut, sent, c, n)
  }

  ghost predicate TalkedAfter(lim: Limits, env: Env, h: History, talk: seq<Message>, cut: bool,
                              sent: seq<Message>, c: Completion, n: nat) {
    && Replied(UpToReply(h), sent, c) && c.calls != [] && n <= |c.calls|
    && |talk| == |sent| + 1 + n && talk[..|sent| + 1] == sent + [Assistant(c.calls)]
    && Handled(lim, env, c.model, UpToReply(h), c.calls[..n], talk[|sent| + 1..], h)
    && (cut <==> n < |c.calls|) && (cut ==> NumInvoked(h) >= lim.maxToolCalls)
  }

  /**
   * Every completion of the history was sent the conversation that the actions before it give. A
   * completion with tools comes while LLM calls are left, after whole answers; one without comes when
   * they are used up or the tool cap cut the answers.
   */
  ghost predicate Tells(lim: Limits, env: Env, opening: seq<Message>, h: History) {
    h.Then? ==>
      && Tells(lim, env, opening, h.before)
      && (h.last.Completed? ==> Sent(lim, env, opening, h.before, h.last.msgs, h.last.offered)
                                && h.last.outcome == Outcome(env, NumCompleted(h.before)))
  }

  ghost predicate Sent(lim: Limits, env: Env, opening: seq<Message>, h: History, msgs: seq<Message>, offered: bool) {
    if offered then Talked(lim, env, opening, h, msgs, false) && NumEmittedLLM(h) < lim.maxLLMCalls
    else
      && msgs != [] && msgs[|msgs| - 1] == User(FINISH)
      && var talk := msgs[..|msgs| - 1];
         || Talked(lim, env, opening, h, talk, true)
         || (Talked(lim, env, opening, h, talk, false) && NumEmittedLLM(h) >= lim.maxLLMCalls)
  }

  /** The result is that of the last completion; a reply that asks for tools never ends a run. */
  ghost predicate EndsWell(lim: Limits, result: Result<AgentResult, LLMError>, h: History) {
    match result
    case Err(e) => h.Then? && h.last.Completed? && h.last.outcome == Err(e)
    case Ok(r) =>
      exists sent, c :: EndsWith(r, h, sent, c)
  }

  ghost predicate EndsWith(r: AgentResult, h: History, sent: seq<Message>, c: Completion) {
    && r.content == c.text && r.meta.inputTokens == c.inputTokens && r.meta.outputTokens == c.outputTokens
    && if r.meta.synthesized then h.Then? && h.last == Completed(sent, false, Ok(c))
       else Replied(h, sent, c) && c.calls == []
  }

  predicate PlainNames(calls: seq<ToolCall>) {
    forall i :: 0 <= i < |calls| ==> ':' !in calls[i].name
  }

  /** Every tool that a reply may name has a name without a colon. */
  ghost predicate PlainReplies(env: Env) {
    forall i: nat :: Outcome(env, i).Ok? ==> PlainNames(Outcome(env, i).value.calls)
  }

  /** What the loop remembers of tool calls is what was invoked. */
  ghost predicate Remembers(st: State) {
    && st.toolCalls == NumInvoked(st.history)
    && forall name, params :: ':' !in name ==>
         (CallKey(name, params) in st.seen <==> WasInvoked(st.history, name, params))
  }

  /** Among names without a colon the key tells calls apart. */
  lemma {:induction false} KeysDiffer(name: string, params: string, name': string, params': string)
    requires ':' !in name && ':' !in name'
    ensures CallKey(name, params) == CallKey(name', params') <==> name == name' && params == params'
  {
    var key := CallKey(name, params);
    if key == CallKey(name', params') {
      IndexAfter(name, ':', params);
      IndexAfter(name', ':', params');
      assert key == name + [':'] + params == name' + [':'] + params';
      assert name == key[..|name|] && params == key[|name| + 1..];
    }
  }

  /** With a colon in a name two different calls share a key, and the second is refused as a duplicate. */
  lemma {:induction false} ColonNamesCollide(env: Env, st: State, model: string, id: string)
    requires CallKey("a:b", "c") in st.seen
    ensures OneCall(env, st, model, ToolCall(id, "a", "b:c")) == st.(msgs := st.msgs + [ToolAnswer(id, DUPLICATE)])
  {
    assert CallKey("a", "b:c") == CallKey("a:b", "c");
  }

  lemma {:induction false} InvokedNow(h: History, name: string, params: string, emitted: Action)
    requires emitted.EmittedTool?
    ensures var after := Then(Then(h, Invoked(name, params)), emitted);
            && NumInvoked(after) == NumInvoked(h) + 1
            && forall n, p :: WasInvoked(after, n, p) <==> (n == name && p == params) || WasInvoked(h, n, p)
  {
    var mid := Then(h, Invoked(name, params));
    assert forall n, p :: WasInvoked(Then(mid, emitted), n, p) == WasInvoked(mid, n, p);
  }

  lemma {:induction false} OneCallTells(env: Env, st: State, model: string, tc: ToolCall)
    requires Remembers(st) && ':' !in tc.name
    ensures var next := OneCall(env, st, model, tc);
            && next.history == AfterCall(env, model, st.history, tc)
            && next.msgs == st.msgs + [AnswerTo(env, st.history, tc)]
            && next.llmCalls == st.llmCalls
            && Remembers(next)
  {
    hide CallKey;
    var next := OneCall(env, st, model, tc);
    var o := env.tool(st.toolCalls);
    assert "{\"error\": \"" + tc.name + " failed: " + o.error + "\"}"
        == "{\"error\": \"" + (tc.name + " failed: " + o.error) + "\"}";
    InvokedNow(st.history, tc.name, tc.params, EmittedTool(tc.name, model, o.error == ""));
    forall name, params | ':' !in name
      ensures CallKey(name, params) in next.seen <==> WasInvoked(next.history, name, params)
    {
      KeysDiffer(name, params, tc.name, tc.params);
    }
  }

  lemma {:induction false} HandleCallsTells(lim: Limits, env: Env, st: State, model: string, calls: seq<ToolCall>)
      returns (n: nat, answers: seq<Message>)
    requires Remembers(st) && PlainNames(calls)
    ensures var (next, capped) := HandleCalls(lim, env, st, model, calls);
            && n <= |calls| && next.msgs == st.msgs + answers && |answers| == n
            && Handled(lim, env, model, st.history, calls[..n], answers, next.history)
            && (capped <==> n < |calls|) && (capped ==> NumInvoked(next.history) >= lim.maxToolCalls)
            && Remembers(next)
    decreases |calls|
  {
    hide Remembers, OneCall, AnswerTo, AfterCall;
    if calls == [] || st.toolCalls >= lim.maxToolCalls {
      n, answers := 0, [];
      assert st.msgs + [] == st.msgs && calls[..0] == [];
      CountsInvoked(st);
    } else {
      var tc := calls[0];
      OneCallTells(env, st, model, tc);
      CountsInvoked(st);
      var mid := OneCall(env, st, model, tc);
      var m, rest := HandleCallsTells(lim, env, mid, model, calls[1..]);
      var first := AnswerTo(env, st.history, tc);
      n, answers := m + 1, [first] + rest;
      assert calls[..n][0] == tc && calls[..n][1..] == calls[1..][..m];
      assert answers[0] == first && answers[1..] == rest;
      assert st.msgs + [first] + rest == st.msgs + answers;
    }
  }

  lemma {:induction false} CountsInvoked(st: State)
    requires Remembers(st)
    ensures st.toolCalls == NumInvoked(st.history)
  {
  }

  lemma {:induction false} AfterCallKeeps(lim: Limits, env: Env, opening: seq<Message>, model: string, h: History,
                                          tc: ToolCall)
    ensures var after := AfterCall(env, model, h, tc);
            && UpToReply(after) == UpToReply(h) && NumEmittedLLM(after) == NumEmittedLLM(h)
            && NumCompleted(after) == NumCompleted(h)
            && (Tells(lim, env, opening, h) ==> Tells(lim, env, opening, after))
  {
    hide Sent, WasInvoked, Outcome;
    if !WasInvoked(h, tc.name, tc.params) {
      var mid := Then(h, Invoked(tc.name, tc.params));
      assert UpToReply(mid) == UpToReply(h);
      assert Tells(lim, env, opening, h) ==> Tells(lim, env, opening, mid);
    }
  }

  /** Answering calls adds no completion and no LLM emission. */
  lemma {:induction false} HandledKeeps(lim: Limits, env: Env, opening: seq<Message>, model: string, h: History,
                                        calls: seq<ToolCall>, answers: seq<Message>, h': History)
    requires Handled(lim, env, model, h, calls, answers, h')
    ensures UpToReply(h') == UpToReply(h) && NumEmittedLLM(h') == NumEmittedLLM(h)
    ensures NumCompleted(h') == NumCompleted(h)
    ensures Tells(lim, env, opening, h) ==> Tells(lim, env, opening, h')
    decreases |calls|
  {
    hide Tells, AfterCall, AnswerTo, UpToReply;
    if calls != [] {
      AfterCallKeeps(lim, env, opening, model, h, calls[0]);
      HandledKeeps(lim, env, opening, model, AfterCall(env, model, h, calls[0]), calls[1..], answers[1..], h');
    }
  }

  /** What holds at the head of the outer loop. */
  ghost predicate Telling(lim: Limits, env: Env, opening: seq<Message>, st: State) {
    && Remembers(st) && st.llmCalls == NumCompleted(st.history) == NumEmittedLLM(st.history)
    && Tells(lim, env, opening, st.history)
  }

  lemma {:induction false} SynthesizeTells(lim: Limits, env: Env, opening: seq<Message>, st: State, cut: bool)
    requires Telling(lim, env, opening, st) && Talked(lim, env, opening, st.history, st.msgs, cut)
    requires cut || st.llmCalls >= lim.maxLLMCalls
    ensures var (result, h) := Synthesize(env, st); Tells(lim, env, opening, h) && EndsWell(lim, result, h)
  {
    hide Outcome, Talked;
    var msgs := st.msgs + [User(FINISH)];
    assert msgs[..|msgs| - 1] == st.msgs;
    var (result, h) := Synthesize(env, st);
    assert Sent(lim, env, opening, st.history, msgs, false);
    if result.Ok? {
      assert EndsWith(result.value, h, msgs, Outcome(env, st.llmCalls).value);
    }
  }

  lemma {:induction false} AfterReplyTells(lim: Limits, env: Env, opening: seq<Message>, st: State, c: Completion)
    requires Telling(lim, env, opening, st) && Talked(lim, env, opening, st.history, st.msgs, false)
    requires st.llmCalls < lim.maxLLMCalls && Outcome(env, st.llmCalls) == Ok(c)
    ensures Telling(lim, env, opening, AfterReply(st, c)) && Replied(AfterReply(st, c).history, st.msgs, c)
    ensures UpToReply(AfterReply(st, c).history) == AfterReply(st, c).history
  {
    hide Outcome, Talked, CallKey;
    var replied := AfterReply(st, c);
    var completed := Then(st.history, Completed(st.msgs, true, Ok(c)));
    assert Tells(lim, env, opening, completed);
    RepliesInvokeNothing(st.history, Completed(st.msgs, true, Ok(c)), replied.history.last);
    assert replied.history == Then(completed, replied.history.last) && replied.seen == st.seen;
    assert Remembers(replied);
    assert NumCompleted(completed) == NumCompleted(st.history) + 1;
    assert NumEmittedLLM(completed) == NumEmittedLLM(st.history);
  }

  lemma {:induction false} RepliesInvokeNothing(h: History, a: Action, b: Action)
    requires !a.Invoked? && !b.Invoked?
    ensures var after := Then(Then(h, a), b);
            NumInvoked(after) == NumInvoked(h) && forall n, p :: WasInvoked(after, n, p) == WasInvoked(h, n, p)
  {
    assert forall n, p :: WasInvoked(Then(h, a), n, p) == WasInvoked(h, n, p);
  }

  /** The calls of a reply handled: the conversation goes on, or the cap cut it. */
  lemma {:induction false} CallsTell(lim: Limits, env: Env, opening: seq<Message>, st: State, c: Completion)
      returns (cut: bool)
    requires Telling(lim, env, opening, st) && Talked(lim, env, opening, st.history, st.msgs, false)
    requires st.llmCalls < lim.maxLLMCalls && Outcome(env, st.llmCalls) == Ok(c) && c.calls != [] && PlainNames(c.calls)
    ensures var (next, capped) := HandleCalls(lim, env, AfterReply(st, c), c.model, c.calls);
            && cut == capped && Telling(lim, env, opening, next)
            && Talked(lim, env, opening, next.history, next.msgs, cut)
  {
    hide Outcome, Remembers, Tells, Handled, HandleCalls;
    AfterReplyTells(lim, env, opening, st, c);
    var replied := AfterReply(st, c);
    assert Remembers(replied);
    var n, answers := HandleCallsTells(lim, env, replied, c.model, c.calls);
    HandleCallsKeepsCount(lim, env, replied, c.model, c.calls);
    var (next, capped) := HandleCalls(lim, env, replied, c.model, c.calls);
    HandledKeeps(lim, env, opening, c.model, replied.history, c.calls[..n], answers, next.history);
    cut := capped;
    var talk := next.msgs;
    assert talk == st.msgs + [Assistant(c.calls)] + answers;
    assert talk[|st.msgs| + 1..] == answers && talk[..|st.msgs| + 1] == st.msgs + [Assistant(c.calls)];
    assert TalkedAfter(lim, env, next.history, talk, cut, st.msgs, c, n);
  }

  lemma {:induction false} RunFromTells(lim: Limits, env: Env, opening: seq<Message>, st: State)
    requires PlainReplies(env) && Telling(lim, env, opening, st)
    requires Talked(lim, env, opening, st.history, st.msgs, false)
    ensures var (result, h) := RunFrom(lim, env, st); Tells(lim, env, opening, h) && EndsWell(lim, result, h)
    decreases lim.maxLLMCalls - st.llmCalls
  {
    hide Telling, Talked, HandleCalls, Synthesize, Outcome, Tells, EndsWell, AfterReply;
    if st.llmCalls >= lim.maxLLMCalls {
      SynthesizeTells(lim, env, opening, st, false);
      UnfoldEnd(lim, env, st);
    } else {
      match Outcome(env, st.llmCalls)
      case Err(e) => FailureTells(lim, env, opening, st, e);
      case Ok(c) =>
        if c.calls == [] {
          AnswerTells(lim, env, opening, st, c);
        } else {
          var cut := CallsTell(lim, env, opening, st, c);
          UnfoldRun(lim, env, st, c);
          var next := HandleCalls(lim, env, AfterReply(st, c), c.model, c.calls).0;
          if cut {
            SynthesizeTells(lim, env, opening, next, true);
          } else {
            RunFromTells(lim, env, opening, next);
          }
        }
    }
  }

  lemma {:induction false} FailureTells(lim: Limits, env: Env, opening: seq<Message>, st: State, e: LLMError)
    requires Telling(lim, env, opening, st) && Talked(lim, env, opening, st.history, st.msgs, false)
    requires st.llmCalls < lim.maxLLMCalls && Outcome(env, st.llmCalls) == Err(e)
    ensures var (result, h) := RunFrom(lim, env, st); Tells(lim, env, opening, h) && EndsWell(lim, result, h)
  {
    hide Outcome, Talked;
    UnfoldEnd(lim, env, st);
  }

  lemma {:induction false} AnswerTells(lim: Limits, env: Env, opening: seq<Message>, st: State, c: Completion)
    requires Telling(lim, env, opening, st) && Talked(lim, env, opening, st.history, st.msgs, false)
    requires st.llmCalls < lim.maxLLMCalls && Outcome(env, st.llmCalls) == Ok(c) && c.calls == []
    ensures var (result, h) := RunFrom(lim, env, st); Tells(lim, env, opening, h) && EndsWell(lim, result, h)
  {
    hide Outcome, Talked, Tells;
    UnfoldEnd(lim, env, st);
    AfterReplyTells(lim, env, opening, st, c);
    var (result, h) := RunFrom(lim, env, st);
    assert EndsWith(result.value, h, st.msgs, c);
  }

  /**
   * What a run does, told by its actions and what it sent alone. If no tool name holds a colon, a tool
   * call of a reply is invoked if and only if the same name and parameters were not invoked before; it
   * is answered with the output of that invocation or its printed failure, and otherwise as a duplicate.
   * The next completion is sent all that, in order. The run synthesizes exactly when LLM calls are used
   * up or the tool cap cut the answers, and its result is that of its last completion.
   */
  lemma {:induction false} RunTells(lim: Limits, env: Env, system: string, context: string)
    requires PlainReplies(env)
    ensures var (result, h) := RunFrom(lim, env, Initial(system, context));
            Tells(lim, env, [System(system), User(context)], h) && EndsWell(lim, result, h)
  {
    hide CallKey, Outcome;
    var opening, st := [System(system), User(context)], Initial(system, context);
    assert Talked(lim, env, opening, st.history, st.msgs, false);
    assert Telling(lim, env, opening, st);
    RunFromTells(lim, env, opening, st);
  }

  // ---------- provider calls of a whole run ----------

  lemma {:induction false} ProviderCallsBound(env: Env, n: nat, each: nat)
    requires each == (env.client.maxRetries + 1) * LLMClient.Providers(env.client)
    ensures ProviderCalls(env, n) <= n * each
  {
    if n > 0 {
      ProviderCallsBound(env, n - 1, each);
      LLMClient.CompleteBounds(env.client, env.call(n - 1));
      assert n * each == (n - 1) * each + each;
    }
  }

  /** A whole run calls providers at most (maxLLMCalls + 1) * (maxRetries + 1) * providers times. */
  lemma {:induction false} RunProviderCalls(lim: Limits, env: Env, system: string, context: string)
    ensures var (_, h) := RunFrom(lim, env, Initial(system, context));
            ProviderCalls(env, NumCompleted(h))
              <= (Max0(lim.maxLLMCalls) + 1) * ((env.client.maxRetries + 1) * LLMClient.Providers(env.client))
  {
    hide RunFrom, NoRepeat, WellFormed, EmitsWhatItUsed, AdvanceAll, LLMClient.Providers;
    var (_, h) := RunFrom(lim, env, Initial(system, context));
    var each := (env.client.maxRetries + 1) * LLMClient.Providers(env.client);
    RunFinishes(lim, env, system, context);
    ProviderCallsBound(env, NumCompleted(h), each);
    ProductGrows(NumCompleted(h), Max0(lim.maxLLMCalls) + 1, each);
  }

  lemma {:induction false} ProductGrows(a: nat, b: nat, each: nat)
    requires a <= b
    ensures a * each <= b * each
  {
    assert b * each - a * each == (b - a) * each;
  }

  // ---------- what a run leaves unrecorded ----------

  lemma {:induction false} ActsOfAction(a: Action)
    ensures Number(ActsOf(a), IsRecord) == if a.EmittedLLM? then 1 else 0
    ensures Number(ActsOf(a), IsUnrecorded) == if a.Completed? && !a.offered && a.outcome.Ok? then 1 else 0
  {
    NumberOfOne(BeginCheck);
    NumberOfOne(Admit);
    NumberOfOne(Refuse);
    NumberOfOne(Fail);
    var acts := ActsOf(a);
    if |acts| == 1 {
      NumberOfOne(acts[0]);
      assert acts == [acts[0]];
    } else if |acts| == 2 {
      NumberOfTwo(acts[0], acts[1]);
      assert acts == [acts[0], acts[1]];
    } else if |acts| == 3 {
      NumberOfOne(acts[2]);
      NumberOfTwo(acts[1], acts[2]);
      assert acts[1..] == [acts[1], acts[2]];
    }
  }

  lemma {:induction false} NumberOfOne(x: Act)
    ensures forall kind: Act -> bool :: Number([x], kind) == if kind(x) then 1 else 0
  {
    assert [x][1..] == [];
  }

  lemma {:induction false} NumberOfTwo(x: Act, y: Act)
    ensures forall kind: Act -> bool :: Number([x, y], kind) == (if kind(x) then 1 else 0) + Number([y], kind)
  {
    assert [x, y][1..] == [y];
  }

  lemma {:induction false} RecordsAreEmissions(h: History)
    ensures Number(Acts(h), IsRecord) == NumEmittedLLM(h)
  {
    if h.Then? {
      RecordsAreEmissions(h.before);
      NumberConcat(Acts(h.before), ActsOf(h.last), IsRecord);
      ActsOfAction(h.last);
    }
  }

  lemma {:induction false} NumberThen(h: History, a: Action)
    ensures Number(Acts(Then(h, a)), IsUnrecorded) == Number(Acts(h), IsUnrecorded) + Number(ActsOf(a), IsUnrecorded)
  {
    NumberConcat(Acts(h), ActsOf(a), IsUnrecorded);
  }

  /** Tool calls are no acts of the protocol. */
  lemma {:induction false} HandleCallsKeepsActs(lim: Limits, env: Env, st: State, model: string, calls: seq<ToolCall>)
    ensures var next := HandleCalls(lim, env, st, model, calls).0;
            Acts(next.history) == Acts(st.history) && NumEmittedLLM(next.history) == NumEmittedLLM(st.history)
    decreases |calls|
  {
    if calls != [] && st.toolCalls < lim.maxToolCalls {
      HandleCallsKeepsActs(lim, env, OneCall(env, st, model, calls[0]), model, calls[1..]);
    }
  }

  /** The acts of a run leave a call unrecorded exactly if it synthesized, and then as the last act. */
  ghost predicate DropsOnlySynthesis(lim: Limits, result: Result<AgentResult, LLMError>, h: History) {
    var acts, synthesized := Acts(h), result.Ok? && result.value.meta.synthesized;
    && Number(acts, IsUnrecorded) == (if synthesized then 1 else 0)
    && (synthesized ==> acts != [] && acts[|acts| - 1].Unrecorded?)
    && (synthesized && lim.maxLLMCalls >= 1 ==> NumEmittedLLM(h) >= 1)
  }

  lemma {:induction false} SynthesizeDropsOne(lim: Limits, env: Env, st: State)
    requires Number(Acts(st.history), IsUnrecorded) == 0 && (lim.maxLLMCalls >= 1 ==> NumEmittedLLM(st.history) >= 1)
    ensures var (result, h) := Synthesize(env, st); DropsOnlySynthesis(lim, result, h)
  {
    hide Outcome, Number;
    var last := Completed(st.msgs + [User(FINISH)], false, Outcome(env, st.llmCalls));
    NumberThen(st.history, last);
    ActsOfAction(last);
  }

  lemma {:induction false} RunFromDropsOnlySynthesis(lim: Limits, env: Env, st: State)
    requires NumEmittedLLM(st.history) == st.llmCalls && Number(Acts(st.history), IsUnrecorded) == 0
    ensures var (result, h) := RunFrom(lim, env, st); DropsOnlySynthesis(lim, result, h)
    decreases lim.maxLLMCalls - st.llmCalls
  {
    hide HandleCalls, Synthesize, Outcome, Number, DropsOnlySynthesis;
    if st.llmCalls >= lim.maxLLMCalls {
      SynthesizeDropsOne(lim, env, st);
    } else {
      match Outcome(env, st.llmCalls)
      case Err(e) => FailureDropsNone(lim, st, e);
      case Ok(c) =>
        ReplyDropsNone(lim, st, c);
        var replied := AfterReply(st, c);
        if c.calls != [] {
          UnfoldRun(lim, env, st, c);
          HandleCallsKeepsActs(lim, env, replied, c.model, c.calls);
          var (next, capped) := HandleCalls(lim, env, replied, c.model, c.calls);
          if capped {
            SynthesizeDropsOne(lim, env, next);
          } else {
            RunFromDropsOnlySynthesis(lim, env, next);
          }
        }
    }
  }

  lemma {:induction false} FailureDropsNone(lim: Limits, st: State, e: LLMError)
    requires Number(Acts(st.history), IsUnrecorded) == 0
    ensures DropsOnlySynthesis(lim, Err(e), Then(st.history, Completed(st.msgs, true, Err(e))))
  {
    NumberThen(st.history, Completed(st.msgs, true, Err(e)));
    ActsOfAction(Completed(st.msgs, true, Err(e)));
  }

  lemma {:induction false} ReplyDropsNone(lim: Limits, st: State, c: Completion)
    requires NumEmittedLLM(st.history) == st.llmCalls && Number(Acts(st.history), IsUnrecorded) == 0
    ensures var after := AfterReply(st, c);
            && NumEmittedLLM(after.history) == after.llmCalls && Number(Acts(after.history), IsUnrecorded) == 0
            && forall text: string, meta: Meta :: !meta.synthesized ==>
                 DropsOnlySynthesis(lim, Ok(AgentResult(text, meta)), after.history)
  {
    hide Number, Acts, ActsOf;
    var completed, emitted := Completed(st.msgs, true, Ok(c)), EmittedLLM(c.model, c.inputTokens, c.outputTokens);
    NumberThen(st.history, completed);
    NumberThen(Then(st.history, completed), emitted);
    ActsOfAction(completed);
    ActsOfAction(emitted);
  }

  /**
   * One run leaves at most one completed call unrecorded: exactly one if it succeeded by synthesis and
   * none otherwise. It is the run's last act and, with at least one LLM call allowed, comes after a
   * recorded one.
   */
  lemma {:induction false} RunDropsOnlySynthesis(lim: Limits, env: Env, system: string, context: string)
    ensures var (result, h) := RunFrom(lim, env, Initial(system, context)); DropsOnlySynthesis(lim, result, h)
  {
    RunFromDropsOnlySynthesis(lim, env, Initial(system, context));
  }

  // ---------- two runs ----------

  /** An environment with one provider, a budget check that allows, and given replies in order. */
  function Scripted(replies: nat -> Completion): Env {
    Env(LLMClient.Client(0, false),
        (i: nat) => LLMClient.CallEnv(LLMClient.Verdict(true), (k: nat) => LLMClient.Answer(replies(i)),
                                      (k: nat) => LLMClient.Answer(replies(i))),
        (i: nat) => ToolOutcome("", ""))
  }

  lemma {:induction false} ScriptedReplies(replies: nat -> Completion, i: nat)
    ensures Outcome(Scripted(replies), i) == Ok(replies(i))
  {
    hide LLMClient.Pow2;
  }

  function Reply(calls: seq<ToolCall>, usage: UsageEvents.LLMUsage): Completion {
    Completion("", calls, usage.inputTokens, usage.outputTokens, usage.model)
  }

  /** A first reply without tool calls ends the run after one recorded call. */
  lemma {:induction false} AnswersAtOnce(lim: Limits, system: string, context: string, usage: UsageEvents.LLMUsage)
      returns (env: Env)
    requires lim.maxLLMCalls >= 1
    ensures Acts(RunFrom(lim, env, Initial(system, context)).1) == [BeginCheck, Admit, Record(usage)]
  {
    hide Outcome;
    var c, st := Reply([], usage), Initial(system, context);
    env := Scripted((i: nat) => c);
    ScriptedReplies((i: nat) => c, 0);
    UnfoldEnd(lim, env, st);
    FirstReplyActs(system, context, c);
  }

  /** The first reply of a run is recorded, and no tool call of it has been handled yet. */
  lemma {:induction false} FirstReplyActs(system: string, context: string, c: Completion)
    ensures var replied := AfterReply(Initial(system, context), c);
            && Acts(replied.history) == [BeginCheck, Admit, Record(UsageOf(c))]
            && replied.llmCalls == 1 && replied.toolCalls == 0 && replied.seen == {}
  {
    var completed := Completed(Initial(system, context).msgs, true, Ok(c));
    assert Acts(Then(Begin, completed)) == [BeginCheck, Admit];
    assert [BeginCheck, Admit] + [Record(UsageOf(c))] == [BeginCheck, Admit, Record(UsageOf(c))];
  }

  lemma {:induction false} SynthesisActs(env: Env, st: State, c: Completion)
    requires Outcome(env, st.llmCalls) == Ok(c)
    ensures Acts(Synthesize(env, st).1) == Acts(st.history) + [BeginCheck, Admit, Unrecorded(UsageOf(c))]
  {
    hide Outcome;
  }

  function Letters(n: nat): (s: string)
    ensures |s| == n
  {
    if n == 0 then "" else Letters(n - 1) + "n"
  }

  /** n tool calls of different names. */
  function Calls(n: nat): (calls: seq<ToolCall>)
    ensures |calls| == n && forall i :: 0 <= i < n ==> |calls[i].name| == i && calls[i].params == ""
  {
    seq(n, i requires 0 <= i < n => ToolCall("", Letters(i), ""))
  }

  /** A call with a key longer than all before is invoked. */
  lemma {:induction false} LongKeyIsInvoked(env: Env, st: State, model: string, tc: ToolCall)
    requires |tc.name| == st.toolCalls && tc.params == "" && forall k :: k in st.seen ==> |k| <= st.toolCalls
    ensures var next := OneCall(env, st, model, tc);
            next.toolCalls == st.toolCalls + 1 && forall k :: k in next.seen ==> |k| <= next.toolCalls
  {
    hide ToolContent;
    assert |CallKey(tc.name, tc.params)| == st.toolCalls + 1;
  }

  /** Distinct calls are invoked one after another until the tool cap stops them. */
  lemma {:induction false} ManyCallsAreCapped(lim: Limits, env: Env, st: State, model: string, n: nat)
    requires n > Max0(lim.maxToolCalls) >= st.toolCalls && forall k :: k in st.seen ==> |k| <= st.toolCalls
    ensures HandleCalls(lim, env, st, model, Calls(n)[st.toolCalls..]).1
    decreases Max0(lim.maxToolCalls) - st.toolCalls
  {
    hide HandleCalls, OneCall;
    var calls := Calls(n);
    UnfoldCalls(lim, env, st, model, calls, st.toolCalls);
    if st.toolCalls < lim.maxToolCalls {
      LongKeyIsInvoked(env, st, model, calls[st.toolCalls]);
      ManyCallsAreCapped(lim, env, OneCall(env, st, model, calls[st.toolCalls]), model, n);
    }
  }

  /** A first reply with more tool calls than the cap lets through: one recorded call, then synthesis. */
  lemma {:induction false} SynthesizesAfterOne(lim: Limits, system: string, context: string,
                                               first: UsageEvents.LLMUsage,
                                               last: UsageEvents.LLMUsage) returns (env: Env)
    requires lim.maxLLMCalls >= 1
    ensures Acts(RunFrom(lim, env, Initial(system, context)).1)
         == [BeginCheck, Admit, Record(first), BeginCheck, Admit, Unrecorded(last)]
  {
    hide Outcome, HandleCalls, AfterReply, Synthesize, Acts;
    var n, st := Max0(lim.maxToolCalls) + 1, Initial(system, context);
    var c, d := Reply(Calls(n), first), Reply([], last);
    var replies := (i: nat) => if i == 0 then c else d;
    env := Scripted(replies);
    ScriptedReplies(replies, 0);
    ScriptedReplies(replies, 1);
    var replied := AfterReply(st, c);
    FirstReplyActs(system, context, c);
    UnfoldRun(lim, env, st, c);
    assert Calls(n)[0..] == Calls(n);
    ManyCallsAreCapped(lim, env, replied, c.model, n);
    HandleCallsKeepsActs(lim, env, replied, c.model, c.calls);
    var next := HandleCalls(lim, env, replied, c.model, c.calls).0;
    SynthesisActs(env, next, d);
    assert [BeginCheck, Admit, Record(first)] + [BeginCheck, Admit, Unrecorded(last)]
        == [BeginCheck, Admit, Record(first), BeginCheck, Admit, Unrecorded(last)];
  }
}
