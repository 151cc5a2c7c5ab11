/** The agent loop (internal/agent/agent.go): turns, retries, compaction and packing around an
    arbitrary model, and what every request sent to the model keeps. */
module AgentLoop {
  import opened Options
  import opened Conversation
  import opened ToolTurn
  import opened Packer
  import opened Compaction

  datatype Config = Config(
    maxTurns: nat,              // 0 means no limit
    maxOutputTokens: int,
    lengthRetryTokens: int,
    contextReserve: int,
    compactionDisabled: bool,
    threshold: real,
    maxContextTokens: int,
    minTurns: int)

  datatype Input = Input(
    model: string,
    systemPrompt: string,
    messages: History,
    latestOnly: bool,
    maxOutputTokens: int)

  datatype DoneReason = Length | StreamFailure | Stopped

  /** What one model call yields: an error, or a finished stream whose tool calls meet `outcomes`. */
  datatype Answer =
    | Failed(aborted: bool)
    | Finished(done: DoneReason, content: string, thinking: string, calls: seq<ToolCall>, outcomes: seq<Outcome>,
               promptTokens: int)

  datatype Terminal = Completed | Aborted | Unrecoverable | ContextOverflow | MaxTurns | StopHook

  /** Everything the loop asks of its surroundings, by iteration: any behaviour of the model, the
      user, the hooks and the mailbox is some Env. */
  datatype Env = Env(
    cancelled: nat -> bool,
    compactRequested: nat -> bool,
    numCtx: nat -> int,
    answer: nat -> Answer,
    summary: (nat, nat) -> Option<string>,   // by iteration and compaction within it
    pending: nat -> History,
    looksIncomplete: nat -> bool,
    retryPrompt: nat -> Option<string>,
    stopBlocked: nat -> bool)

  function AnswerAt(env: Env, i: nat): Answer {
    env.answer(i)
  }

  ghost predicate EnvOk(env: Env) {
    && (forall i: nat :: AnswerAt(env, i).Finished? ==> |AnswerAt(env, i).outcomes| == |AnswerAt(env, i).calls|)
    && (forall i :: Paired(env.pending(i)))
  }

  const INCOMPLETE_RETRY_LIMIT: nat := 1

  /** The newest user message alone, when there is one. */
  function LatestOnly(ms: History): History
  {
    if ms == [] then []
    else if ms[|ms| - 1].role == User then [ms[|ms| - 1]]
    else
      var earlier := LatestOnly(ms[..|ms| - 1]);
      if earlier == [] then [] else earlier
  }

  function FirstHistory(input: Input): History {
    var latest := LatestOnly(input.messages);
    var h := if input.latestOnly && latest != [] then latest else input.messages;
    if input.systemPrompt != "" then [Message(System, input.systemPrompt, "", [], "")] + h else h
  }

  lemma {:induction false} LatestPaired(ms: History)
    ensures Paired(LatestOnly(ms))
  {
    if ms != [] && ms[|ms| - 1].role == User {
      PairedSingle(ms[|ms| - 1]);
    } else if ms != [] {
      LatestPaired(ms[..|ms| - 1]);
    }
  }

  lemma {:induction false} FirstHistoryPaired(input: Input)
    requires Paired(input.messages)
    ensures Paired(FirstHistory(input))
  {
    LatestPaired(input.messages);
    var latest := LatestOnly(input.messages);
    var h := if input.latestOnly && latest != [] then latest else input.messages;
    var sys := Message(System, input.systemPrompt, "", [], "");
    PairedSingle(sys);
    PairedConcat([sys], h);
  }

  /** The history that a compaction leaves, whether it does anything or not. */
  function CompactedHistory(cfg: Config, history: History, summary: Option<string>): History {
    var result := CompactTo(history, cfg.minTurns, summary);
    if result.Compacted? then result.messages else history
  }

  /** doCompact. */
  method DoCompact(cfg: Config, history: History, summary: Option<string>) returns (history': History, compacted: bool)
    ensures Paired(history) ==> Paired(history')
    ensures compacted == CompactTo(history, cfg.minTurns, summary).Compacted?
    ensures history' == CompactedHistory(cfg, history, summary)
  {
    var result := Compact(history, cfg.minTurns, summary);
    if result.Skipped? {
      return history, false;
    }
    if Paired(history) { CompactionPaired(history, cfg.minTurns, summary); }
    return result.messages, true;
  }

  /** The request is the history itself, or packed when there is a budget for it. */
  ghost predicate IsRequest(history: History, inputBudget: int, request: History) {
    if inputBudget <= 0 then request == history
    else exists report, us, keep :: PackOk(history, Budget(inputBudget), request, report, us, keep)
  }

  /** The request for one turn. */
  method BuildRequest(history: History, inputBudget: int) returns (request: History)
    ensures IsRequest(history, inputBudget, request)
    ensures Paired(history) ==> Paired(request)
  {
    request := history;
    if inputBudget > 0 {
      var packed, report, units, keep := PackPromptHistory(history, inputBudget);
      if Paired(history) { PackPaired(history, Budget(inputBudget), packed, report, units, keep); }
      request := packed;
    }
  }

  /** The variables of the loop. */
  datatype Loop = Loop(
    history: History,
    conversation: History,      // what Terminal returns: the messages added by this run
    turn: nat,
    lengthRetryCount: nat,
    incompleteRetryCount: nat,
    compactionAttempted: bool,
    outputTokenBudget: int,
    continuations: nat)         // pending messages after an answer without tool calls: not counted as a turn

  /** The model calls that the rest of the run can still make, pending messages aside. */
  function CallsLeft(maxTurns: nat, s: Loop): int {
    2 * (maxTurns - s.turn + 1) + (if s.compactionAttempted then 0 else 1)
    + 2 * (INCOMPLETE_RETRY_LIMIT - s.incompleteRetryCount) - (if s.lengthRetryCount > 0 then 1 else 0)
  }

  /** What holds before every iteration, `calls` model calls into the run. */
  ghost predicate LoopOk(cfg: Config, paired: bool, calls: nat, s: Loop) {
    && (paired ==> Paired(s.history))
    && Paired(s.conversation)
    && s.turn >= 1
    && s.incompleteRetryCount <= INCOMPLETE_RETRY_LIMIT
    && (s.lengthRetryCount >= 2 ==> s.compactionAttempted)
    && (cfg.maxTurns > 0 ==>
          && s.turn <= cfg.maxTurns + 1
          && (s.turn > cfg.maxTurns ==> s.lengthRetryCount == 0)
          && calls + CallsLeft(cfg.maxTurns, s) <= 2 * cfg.maxTurns + 3 + 2 * s.continuations)
  }

  /** Messages that keep the pairing are added to the history and to the conversation. */
  function Extended(s: Loop, more: History): Loop {
    s.(history := s.history + more, conversation := s.conversation + more)
  }

  lemma {:induction false} ExtendPaired(s: Loop, more: History)
    requires Paired(more)
    ensures Paired(s.history) ==> Paired(Extended(s, more).history)
    ensures Paired(s.conversation) ==> Paired(Extended(s, more).conversation)
  {
    if Paired(s.history) { PairedConcat(s.history, more); }
    if Paired(s.conversation) { PairedConcat(s.conversation, more); }
  }

  // ----- One iteration, as a function of the answer -----

  /** The budget a run starts with. */
  function RunBudget(cfg: Config, input: Input): int {
    if input.maxOutputTokens > 0 then input.maxOutputTokens else cfg.maxOutputTokens
  }

  function AfterLength(cfg: Config, input: Input, s: Loop, summary: Option<string>): (Loop, Option<Terminal>) {
    var tried := s.(lengthRetryCount := s.lengthRetryCount + 1);
    if s.lengthRetryCount == 0 then (tried.(outputTokenBudget := cfg.lengthRetryTokens), None)
    else if s.lengthRetryCount == 1 && !cfg.compactionDisabled && !s.compactionAttempted then
      var shrunk := tried.(compactionAttempted := true, history := CompactedHistory(cfg, s.history, summary));
      if CompactTo(s.history, cfg.minTurns, summary).Compacted?
      then (shrunk.(outputTokenBudget := RunBudget(cfg, input)), None)
      else (shrunk, Some(ContextOverflow))
    else (tried, Some(ContextOverflow))
  }

  /** The last prompt neared the context size. */
  predicate NearsContext(cfg: Config, promptTokens: int) {
    !cfg.compactionDisabled && cfg.maxContextTokens > 0 && cfg.threshold > 0.0
    && promptTokens as real > cfg.maxContextTokens as real * cfg.threshold
  }

  /** It did, and there are turns to compact. */
  predicate CompactionDue(cfg: Config, history: History, promptTokens: int) {
    NearsContext(cfg, promptTokens) && |AllTurns(history)| >= cfg.minTurns
  }

  function Proactive(cfg: Config, s: Loop, promptTokens: int, summary: Option<string>): Loop {
    if CompactionDue(cfg, s.history, promptTokens) then s.(history := CompactedHistory(cfg, s.history, summary)) else s
  }

  function AfterFinalAnswer(env: Env, i: nat, s: Loop, message: Message): (Loop, Option<Terminal>) {
    var said := Extended(s.(lengthRetryCount := 0), [message]);
    if env.pending(i) != [] then (Extended(said, env.pending(i)).(continuations := s.continuations + 1), None)
    else if env.looksIncomplete(i) && s.incompleteRetryCount < INCOMPLETE_RETRY_LIMIT then
      var retried := said.(incompleteRetryCount := s.incompleteRetryCount + 1);
      match env.retryPrompt(i)
      case None => (retried, Some(Completed))
      case Some(prompt) => (retried.(history := retried.history + [Message(User, prompt, "", [], "")]), None)
    else (said, Some(if env.stopBlocked(i) then StopHook else Completed))
  }

  function AfterToolCalls(env: Env, i: nat, s: Loop, message: Message, results: History): Loop {
    var said := Extended(s.(lengthRetryCount := 0, turn := s.turn + 1), [message] + results);
    if env.pending(i) != [] then Extended(said, env.pending(i)) else said
  }

  function AfterAnswer(cfg: Config, input: Input, env: Env, i: nat, s: Loop, answer: Answer): (Loop, Option<Terminal>)
    requires answer.Finished? ==> |answer.outcomes| == |answer.calls|
  {
    match answer
    case Failed(aborted) => (s, Some(if aborted then Aborted else Unrecoverable))
    case Finished(done, content, thinking, calls, outcomes, promptTokens) =>
      var message := Message(Assistant, content, thinking, calls, "");
      if done == Length then AfterLength(cfg, input, s, env.summary(i, 1))
      else if done == StreamFailure then (s, Some(Unrecoverable))
      else
        var ready := Proactive(cfg, s, promptTokens, env.summary(i, 2));
        if calls == [] then AfterFinalAnswer(env, i, ready, message)
        else (AfterToolCalls(env, i, ready, message, Replies(calls, outcomes)), None)
  }

  /** What the prompt may take of the context. */
  function InputBudget(cfg: Config, env: Env, i: nat, s: Loop): int {
    env.numCtx(i) - s.outputTokenBudget - cfg.contextReserve
  }

  /** The state in which iteration i builds its request: a requested compaction comes first. */
  function Prepared(cfg: Config, env: Env, i: nat, s: Loop): Loop {
    if env.compactRequested(i) then s.(history := CompactedHistory(cfg, s.history, env.summary(i, 0))) else s
  }

  function FirstState(cfg: Config, input: Input): Loop {
    Loop(FirstHistory(input), [], 1, 0, 0, false, RunBudget(cfg, input), 0)
  }

  /** A run: each request is built from the state of its iteration, and each state but the first comes
      from the answer to the request before. */
  ghost predicate IsRun(cfg: Config, input: Input, env: Env, requests: seq<History>, states: seq<Loop>)
    requires EnvOk(env)
  {
    && |states| == |requests| + 1
    && states[0] == FirstState(cfg, input)
    && forall k :: 0 <= k < |requests| ==> IterationAt(cfg, input, env, requests, states, k)
  }

  ghost predicate IterationAt(cfg: Config, input: Input, env: Env, requests: seq<History>, states: seq<Loop>, k: nat)
    requires EnvOk(env) && k < |requests| && |states| == |requests| + 1
  {
    IsIteration(cfg, input, env, k, states[k], requests[k], states[k + 1])
  }

  ghost predicate IsIteration(cfg: Config, input: Input, env: Env, k: nat, s: Loop, request: History, s': Loop)
    requires EnvOk(env)
  {
    var ready := Prepared(cfg, env, k, s);
    && !env.cancelled(k) && (cfg.maxTurns == 0 || s.turn <= cfg.maxTurns)
    && IsRequest(ready.history, InputBudget(cfg, env, k, ready), request)
    && s' == AfterAnswer(cfg, input, env, k, ready, AnswerAt(env, k)).0
  }

  lemma {:induction false} IterationFrom(cfg: Config, input: Input, env: Env, i: nat, s: Loop, ready: Loop,
                                         request: History,
                                         s': Loop, terminal: Option<Terminal>)
    requires EnvOk(env) && !env.cancelled(i) && (cfg.maxTurns == 0 || s.turn <= cfg.maxTurns)
    requires ready == Prepared(cfg, env, i, s)
    requires IsRequest(ready.history, InputBudget(cfg, env, i, ready), request)
    requires (s', terminal) == AfterAnswer(cfg, input, env, i, ready, AnswerAt(env, i))
    ensures IsIteration(cfg, input, env, i, s, request, s')
    ensures terminal == AfterAnswer(cfg, input, env, i, Prepared(cfg, env, i, s), AnswerAt(env, i)).1
  {
  }

  lemma {:induction false} OneMoreIteration(cfg: Config, input: Input, env: Env, requests: seq<History>,
                                            states: seq<Loop>,
                                            request: History, s': Loop)
    requires EnvOk(env) && IsRun(cfg, input, env, requests, states)
    requires IsIteration(cfg, input, env, |requests|, states[|requests|], request, s')
    ensures IsRun(cfg, input, env, requests + [request], states + [s'])
  {
    var r, t := requests + [request], states + [s'];
    forall k | 0 <= k < |r| ensures IterationAt(cfg, input, env, r, t, k) {
      if k < |requests| {
        assert IterationAt(cfg, input, env, requests, states, k);
        assert t[k] == states[k] && t[k + 1] == states[k + 1] && r[k] == requests[k];
      }
    }
  }

  // ----- What every iteration keeps -----

  lemma {:induction false} CompactedPaired(cfg: Config, history: History, summary: Option<string>)
    requires Paired(history)
    ensures Paired(CompactedHistory(cfg, history, summary))
  {
    if CompactTo(history, cfg.minTurns, summary).Compacted? { CompactionPaired(history, cfg.minTurns, summary); }
  }

  lemma {:induction false} RequestPaired(history: History, inputBudget: int, request: History)
    requires Paired(history) && IsRequest(history, inputBudget, request)
    ensures Paired(request)
  {
    if inputBudget > 0 {
      var report, us, keep :| PackOk(history, Budget(inputBudget), request, report, us, keep);
      PackPaired(history, Budget(inputBudget), request, report, us, keep);
    }
  }

  lemma {:induction false} PreparedKeeps(cfg: Config, env: Env, i: nat, paired: bool, calls: nat, s: Loop)
    requires LoopOk(cfg, paired, calls, s)
    ensures var r := Prepared(cfg, env, i, s);
      LoopOk(cfg, paired, calls, r) && r.turn == s.turn && r.continuations == s.continuations
  {
    if paired && env.compactRequested(i) { CompactedPaired(cfg, s.history, env.summary(i, 0)); }
  }

  lemma {:induction false} ProactiveKeeps(cfg: Config, paired: bool, calls: nat, s: Loop, promptTokens: int,
                                          summary: Option<string>)
    requires LoopOk(cfg, paired, calls, s)
    ensures var r := Proactive(cfg, s, promptTokens, summary);
      LoopOk(cfg, paired, calls, r) && r.turn == s.turn && r.continuations == s.continuations
  {
    if paired { CompactedPaired(cfg, s.history, summary); }
  }

  /** A retry after a cut-off answer uses up the turn's allowance. */
  lemma {:induction false} AfterLengthKeeps(cfg: Config, input: Input, paired: bool, calls: nat, s: Loop,
                                            summary: Option<string>)
    requires LoopOk(cfg, paired, calls, s) && (cfg.maxTurns > 0 ==> s.turn <= cfg.maxTurns)
    ensures var (s', terminal) := AfterLength(cfg, input, s, summary);
      Paired(s'.conversation) && s'.continuations == s.continuations
      && (terminal.None? ==> LoopOk(cfg, paired, calls + 1, s'))
  {
    if paired { CompactedPaired(cfg, s.history, summary); }
  }

  lemma {:induction false} AfterFinalAnswerKeeps(cfg: Config, env: Env, i: nat, paired: bool, calls: nat, s: Loop,
                                                 message: Message)
    requires EnvOk(env) && LoopOk(cfg, paired, calls, s) && (cfg.maxTurns > 0 ==> s.turn <= cfg.maxTurns)
    requires message.role == Assistant && message.toolCalls == []
    ensures var (s', terminal) := AfterFinalAnswer(env, i, s, message);
      Paired(s'.conversation) && s'.continuations >= s.continuations
      && (terminal.None? ==> LoopOk(cfg, paired, calls + 1, s'))
  {
    PairedSingle(message);
    ExtendPaired(s, [message]);
    var said := Extended(s.(lengthRetryCount := 0), [message]);
    if env.pending(i) != [] {
      ExtendPaired(said, env.pending(i));
    } else if env.retryPrompt(i).Some? {
      var retry := Message(User, env.retryPrompt(i).value, "", [], "");
      PairedSingle(retry);
      ExtendPaired(said, [retry]);
    }
  }

  lemma {:induction false} AfterToolCallsKeeps(cfg: Config, env: Env, i: nat, paired: bool, calls: nat, s: Loop,
                                               message: Message, results: History)
    requires EnvOk(env) && LoopOk(cfg, paired, calls, s) && (cfg.maxTurns > 0 ==> s.turn <= cfg.maxTurns)
    requires message.role == Assistant && Answers(message.toolCalls, results)
    ensures var s' := AfterToolCalls(env, i, s, message, results);
      LoopOk(cfg, paired, calls + 1, s') && s'.continuations == s.continuations
  {
    PairedTurn(message, results);
    ExtendPaired(s, [message] + results);
    var said := Extended(s.(lengthRetryCount := 0, turn := s.turn + 1), [message] + results);
    ExtendPaired(said, env.pending(i));
  }

  lemma {:induction false} AfterAnswerKeeps(cfg: Config, input: Input, env: Env, i: nat, paired: bool, calls: nat,
                                            s: Loop, answer: Answer)
    requires EnvOk(env) && LoopOk(cfg, paired, calls, s) && (cfg.maxTurns > 0 ==> s.turn <= cfg.maxTurns)
    requires answer.Finished? ==> |answer.outcomes| == |answer.calls|
    ensures var (s', terminal) := AfterAnswer(cfg, input, env, i, s, answer);
      Paired(s'.conversation) && s'.continuations >= s.continuations
      && (terminal.None? ==> LoopOk(cfg, paired, calls + 1, s'))
  {
    if answer.Finished? {
      var message := Message(Assistant, answer.content, answer.thinking, answer.calls, "");
      if answer.done == Length {
        AfterLengthKeeps(cfg, input, paired, calls, s, env.summary(i, 1));
      } else if answer.done == Stopped {
        ProactiveKeeps(cfg, paired, calls, s, answer.promptTokens, env.summary(i, 2));
        var ready := Proactive(cfg, s, answer.promptTokens, env.summary(i, 2));
        if answer.calls == [] {
          AfterFinalAnswerKeeps(cfg, env, i, paired, calls, ready, message);
        } else {
          RepliesAnswer(answer.calls, answer.outcomes);
          AfterToolCallsKeeps(cfg, env, i, paired, calls, ready, message, Replies(answer.calls, answer.outcomes));
        }
      }
    }
  }

  // ----- Whole runs -----

  /** The answer to request k ended the run with this Terminal, or None. */
  ghost function TerminalAt(cfg: Config, input: Input, env: Env, states: seq<Loop>, k: nat): Option<Terminal>
    requires EnvOk(env) && k < |states|
  {
    AfterAnswer(cfg, input, env, k, Prepared(cfg, env, k, states[k]), AnswerAt(env, k)).1
  }

  /** No answer before the last one ended the run. */
  ghost predicate GoesOn(cfg: Config, input: Input, env: Env, states: seq<Loop>, n: nat)
    requires EnvOk(env) && n <= |states|
  {
    forall k :: 0 <= k < n ==> TerminalAt(cfg, input, env, states, k).None?
  }

  lemma {:induction false} RunKeeps(cfg: Config, input: Input, env: Env, requests: seq<History>, states: seq<Loop>,
                                    k: nat)
    requires EnvOk(env) && IsRun(cfg, input, env, requests, states)
    requires k <= |requests| && GoesOn(cfg, input, env, states, k)
    ensures LoopOk(cfg, Paired(input.messages), k, states[k])
  {
    var paired := Paired(input.messages);
    if k == 0 {
      if paired { FirstHistoryPaired(input); }
    } else {
      RunKeeps(cfg, input, env, requests, states, k - 1);
      assert IterationAt(cfg, input, env, requests, states, k - 1);
      assert TerminalAt(cfg, input, env, states, k - 1).None?;
      StepKeeps(cfg, input, env, k - 1, paired, states[k - 1], requests[k - 1], states[k]);
    }
  }

  lemma {:induction false} StepKeeps(cfg: Config, input: Input, env: Env, k: nat, paired: bool, s: Loop,
                                     request: History, s': Loop)
    requires EnvOk(env) && LoopOk(cfg, paired, k, s) && IsIteration(cfg, input, env, k, s, request, s')
    ensures Paired(s'.conversation) && s'.continuations >= s.continuations
    ensures AfterAnswer(cfg, input, env, k, Prepared(cfg, env, k, s), AnswerAt(env, k)).1.None?
            ==> LoopOk(cfg, paired, k + 1, s')
  {
    PreparedKeeps(cfg, env, k, paired, k, s);
    AfterAnswerKeeps(cfg, input, env, k, paired, k, Prepared(cfg, env, k, s), AnswerAt(env, k));
  }

  lemma {:induction false} StepRequest(cfg: Config, input: Input, env: Env, k: nat, s: Loop, request: History, s': Loop)
    requires EnvOk(env) && Paired(s.history) && IsIteration(cfg, input, env, k, s, request, s')
    ensures Paired(request)
  {
    var ready := Prepared(cfg, env, k, s);
    if env.compactRequested(k) { CompactedPaired(cfg, s.history, env.summary(k, 0)); }
    RequestPaired(ready.history, InputBudget(cfg, env, k, ready), request);
  }

  /** Every request of every run on a paired history is paired, and so is the conversation that any run
      hands back. */
  lemma {:induction false} RequestsArePaired(cfg: Config, input: Input, env: Env, requests: seq<History>,
                                             states: seq<Loop>)
    requires EnvOk(env) && IsRun(cfg, input, env, requests, states)
    requires |requests| > 0 ==> GoesOn(cfg, input, env, states, |requests| - 1)
    ensures Paired(input.messages) ==> forall r :: r in requests ==> Paired(r)
    ensures Paired(states[|requests|].conversation)
  {
    forall k | 0 <= k < |requests| ensures Paired(input.messages) ==> Paired(requests[k]) {
      RunKeeps(cfg, input, env, requests, states, k);
      assert IterationAt(cfg, input, env, requests, states, k);
      if Paired(input.messages) { StepRequest(cfg, input, env, k, states[k], requests[k], states[k + 1]); }
    }
    if requests != [] {
      var k := |requests| - 1;
      RunKeeps(cfg, input, env, requests, states, k);
      assert IterationAt(cfg, input, env, requests, states, k);
      StepKeeps(cfg, input, env, k, Paired(input.messages), states[k], requests[k], states[k + 1]);
    }
  }

  /** A run with a turn limit makes at most 2 * maxTurns + 3 model calls, and two more for each
      continuation with pending messages, although retries and compactions do not count as turns. */
  lemma {:induction false} RunsAreBounded(cfg: Config, input: Input, env: Env, requests: seq<History>,
                                          states: seq<Loop>)
    requires EnvOk(env) && IsRun(cfg, input, env, requests, states) && cfg.maxTurns > 0
    requires |requests| > 0 ==> GoesOn(cfg, input, env, states, |requests| - 1)
    ensures |requests| <= 2 * cfg.maxTurns + 3 + 2 * states[|requests|].continuations
  {
    if requests != [] {
      var k := |requests| - 1;
      RunKeeps(cfg, input, env, requests, states, k);
      assert IterationAt(cfg, input, env, requests, states, k);
      StepKeeps(cfg, input, env, k, Paired(input.messages), states[k], requests[k], states[k + 1]);
    }
  }

  class Agent {
    const cfg: Config
    const runner: ToolRunner

    constructor (cfg: Config)
      ensures this.cfg == cfg && fresh(runner)
    {
      this.cfg := cfg;
      runner := new ToolRunner();
    }

    /** executeOneTurn: the assistant message, and the results of its tool calls. */
    method ExecuteOneTurn(answer: Answer) returns (message: Message, results: History)
      requires answer.Finished? && |answer.outcomes| == |answer.calls|
      modifies runner
      ensures message == Message(Assistant, answer.content, answer.thinking, answer.calls, "")
      ensures results == Replies(answer.calls, answer.outcomes) && Answers(message.toolCalls, results)
    {
      message := Message(Assistant, answer.content, answer.thinking, answer.calls, "");
      results := [];
      if |answer.calls| > 0 {
        var count;
        results, count := runner.ExecuteToolCalls(answer.calls, answer.outcomes);
      }
      assert results == Replies(answer.calls, answer.outcomes);
    }

    /** The answer was cut off by its length: retry with a larger budget, then compact once, then
        give up. */
    method HandleLength(input: Input, s: Loop, summary: Option<string>) returns (s': Loop, terminal: Option<Terminal>)
      ensures (s', terminal) == AfterLength(cfg, input, s, summary)
    {
      s' := s.(lengthRetryCount := s.lengthRetryCount + 1);
      if s'.lengthRetryCount == 1 {
        return s'.(outputTokenBudget := cfg.lengthRetryTokens), None;
      }
      if s'.lengthRetryCount == 2 && !cfg.compactionDisabled && !s'.compactionAttempted {
        var history, compacted := DoCompact(cfg, s'.history, summary);
        s' := s'.(compactionAttempted := true, history := history);
        if compacted {
          return s'.(outputTokenBudget := RunBudget(cfg, input)), None;
        }
      }
      return s', Some(ContextOverflow);
    }

    /** Compaction before the answer is appended, when the last prompt neared the context size. */
    method CompactProactively(s: Loop, promptTokens: int, summary: Option<string>) returns (s': Loop)
      ensures s' == Proactive(cfg, s, promptTokens, summary)
    {
      s' := s;
      if NearsContext(cfg, promptTokens) {
        var turns := CountTurns(s.history);
        if turns >= cfg.minTurns {
          var history, compacted := DoCompact(cfg, s.history, summary);
          s' := s'.(history := history);
        }
      }
    }

    /** The answer called no tool: go on with pending messages, ask once for a complete answer, or
        end the run. */
    method HandleFinalAnswer(env: Env, i: nat, s: Loop, message: Message) returns (s': Loop, terminal: Option<Terminal>)
      ensures (s', terminal) == AfterFinalAnswer(env, i, s, message)
    {
      s' := Extended(s.(lengthRetryCount := 0), [message]);
      var pending := env.pending(i);
      if |pending| > 0 {
        s' := Extended(s', pending);
        return s'.(continuations := s'.continuations + 1), None;
      }
      if env.looksIncomplete(i) && s'.incompleteRetryCount < INCOMPLETE_RETRY_LIMIT {
        s' := s'.(incompleteRetryCount := s'.incompleteRetryCount + 1);
        var prompt := env.retryPrompt(i);
        if prompt.None? {
          return s', Some(Completed);
        }
        return s'.(history := s'.history + [Message(User, prompt.value, "", [], "")]), None;
      }
      if env.stopBlocked(i) {
        return s', Some(StopHook);
      }
      return s', Some(Completed);
    }

    /** The answer called tools: append the results and count the turn. */
    method HandleToolCalls(env: Env, i: nat, s: Loop, message: Message, results: History) returns (s': Loop)
      ensures s' == AfterToolCalls(env, i, s, message, results)
    {
      s' := Extended(s.(lengthRetryCount := 0, turn := s.turn + 1), [message] + results);
      var pending := env.pending(i);
      if |pending| > 0 {
        s' := Extended(s', pending);
      }
    }

    /** One iteration after the request has been answered. */
    method HandleAnswer(input: Input, env: Env, i: nat, s: Loop, answer: Answer)
      returns (s': Loop, terminal: Option<Terminal>)
      requires answer.Finished? ==> |answer.outcomes| == |answer.calls|
      modifies runner
      ensures (s', terminal) == AfterAnswer(cfg, input, env, i, s, answer)
    {
      if answer.Failed? {
        return s, Some(if answer.aborted then Aborted else Unrecoverable);
      }
      var message, results := ExecuteOneTurn(answer);
      if answer.done == Length {
        s', terminal := HandleLength(input, s, env.summary(i, 1));
        return;
      }
      if answer.done == StreamFailure {
        return s, Some(Unrecoverable);
      }
      var ready := CompactProactively(s, answer.promptTokens, env.summary(i, 2));
      if |results| == 0 {
        s', terminal := HandleFinalAnswer(env, i, ready, message);
        return;
      }
      s' := HandleToolCalls(env, i, ready, message, results);
      terminal := None;
    }

    /** A compaction that the user asked for. */
    method Prepare(env: Env, i: nat, s: Loop) returns (ready: Loop)
      ensures ready == Prepared(cfg, env, i, s)
    {
      ready := s;
      if env.compactRequested(i) {
        var history, _ := DoCompact(cfg, s.history, env.summary(i, 0));
        ready := s.(history := history);
      }
    }

    /** One iteration of the loop, unless it is cancelled. */
    method Iterate(input: Input, env: Env, i: nat, s: Loop)
      returns (request: History, s': Loop, terminal: Option<Terminal>)
      requires EnvOk(env) && !env.cancelled(i) && (cfg.maxTurns == 0 || s.turn <= cfg.maxTurns)
      modifies runner
      ensures IsIteration(cfg, input, env, i, s, request, s')
      ensures terminal == AfterAnswer(cfg, input, env, i, Prepared(cfg, env, i, s), AnswerAt(env, i)).1
    {
      var ready := Prepare(env, i, s);
      request, s', terminal := Answered(input, env, i, ready);
      IterationFrom(cfg, input, env, i, s, ready, request, s', terminal);
    }

    /** The request for a state, and what its answer makes of the state. */
    method Answered(input: Input, env: Env, i: nat, ready: Loop)
      returns (request: History, s': Loop, terminal: Option<Terminal>)
      requires EnvOk(env)
      modifies runner
      ensures IsRequest(ready.history, InputBudget(cfg, env, i, ready), request)
      ensures (s', terminal) == AfterAnswer(cfg, input, env, i, ready, AnswerAt(env, i))
    {
      request := BuildRequest(ready.history, InputBudget(cfg, env, i, ready));
      s', terminal := HandleAnswer(input, env, i, ready, AnswerAt(env, i));
    }

    /** run, followed for at most `horizon` iterations. Each request is built and each state reached as the
        transitions say; there is never more than one Terminal, and there is one as soon as the run ends. */
    method Run(input: Input, env: Env, horizon: nat)
      returns (requests: seq<History>, terminals: seq<Terminal>, conversation: History, ghost states: seq<Loop>)
      requires EnvOk(env)
      modifies runner
      ensures input.model == "" ==> requests == [] && terminals == [Unrecoverable] && conversation == []
      ensures input.model != "" ==>
        IsRun(cfg, input, env, requests, states) && conversation == states[|requests|].conversation
      ensures |requests| <= horizon
      ensures input.model != "" && requests != [] ==> GoesOn(cfg, input, env, states, |requests| - 1)
      ensures input.model != "" ==> Ends(cfg, input, env, states, |requests|, horizon, terminals)
    {
      requests, terminals, states := [], [], [FirstState(cfg, input)];
      if input.model == "" {
        return [], [Unrecoverable], [], states;
      }
      var s := FirstState(cfg, input);
      while (cfg.maxTurns == 0 || s.turn <= cfg.maxTurns) && |requests| < horizon
        invariant |requests| <= horizon
        invariant IsRun(cfg, input, env, requests, states) && s == states[|requests|]
        invariant GoesOn(cfg, input, env, states, |requests|)
        decreases horizon - |requests|
      {
        var i := |requests|;
        if env.cancelled(i) {
          return requests, [Aborted], s.conversation, states;
        }
        var request, s', terminal := Iterate(input, env, i, s);
        OneMoreCall(cfg, input, env, requests, states, request, s');
        requests, states := requests + [request], states + [s'];
        s := s';
        if terminal.Some? {
          return requests, [terminal.value], s.conversation, states;
        }
      }
      if cfg.maxTurns != 0 && s.turn > cfg.maxTurns {
        terminals := terminals + [MaxTurns];
      }
      return requests, terminals, s.conversation, states;
    }
  }

  lemma {:induction false} OneMoreCall(cfg: Config, input: Input, env: Env, requests: seq<History>, states: seq<Loop>,
                                       request: History, s': Loop)
    requires EnvOk(env) && IsRun(cfg, input, env, requests, states) && GoesOn(cfg, input, env, states, |requests|)
    requires IsIteration(cfg, input, env, |requests|, states[|requests|], request, s')
    ensures var n, t := |requests|, states + [s'];
      && IsRun(cfg, input, env, requests + [request], t) && GoesOn(cfg, input, env, t, n)
      && TerminalAt(cfg, input, env, t, n) == TerminalAt(cfg, input, env, states, n)
      && (TerminalAt(cfg, input, env, states, n).None? ==> GoesOn(cfg, input, env, t, n + 1))
  {
    OneMoreIteration(cfg, input, env, requests, states, request, s');
    SameTerminals(cfg, input, env, states, s', |requests|);
  }

  lemma {:induction false} SameTerminals(cfg: Config, input: Input, env: Env, states: seq<Loop>, s': Loop, n: nat)
    requires EnvOk(env) && n < |states| && GoesOn(cfg, input, env, states, n)
    ensures GoesOn(cfg, input, env, states + [s'], n)
    ensures TerminalAt(cfg, input, env, states + [s'], n) == TerminalAt(cfg, input, env, states, n)
  {
    forall k | 0 <= k < n ensures TerminalAt(cfg, input, env, states + [s'], k).None? {
      assert TerminalAt(cfg, input, env, states, k).None?;
      assert (states + [s'])[k] == states[k];
    }
  }

  /** How a run that has made n model calls ends: with the Terminal of its last answer, at the turn limit,
      by cancellation, or not yet. */
  ghost predicate Ends(cfg: Config, input: Input, env: Env, states: seq<Loop>, n: nat, horizon: nat,
                       terminals: seq<Terminal>)
    requires EnvOk(env) && n < |states|
  {
    if n > 0 && TerminalAt(cfg, input, env, states, n - 1).Some?
    then terminals == [TerminalAt(cfg, input, env, states, n - 1).value]
    else if cfg.maxTurns != 0 && states[n].turn > cfg.maxTurns then terminals == [MaxTurns]
    else if n < horizon then terminals == [Aborted] && env.cancelled(n)
    else terminals == []
  }

  /** A run with a turn limit, followed for long enough, emits exactly one Terminal. */
  lemma {:induction false} ExactlyOneTerminal(cfg: Config, input: Input, env: Env, requests: seq<History>,
                                              states: seq<Loop>,
                                              horizon: nat, terminals: seq<Terminal>)
    requires EnvOk(env) && IsRun(cfg, input, env, requests, states) && cfg.maxTurns > 0 && |requests| <= horizon
    requires |requests| > 0 ==> GoesOn(cfg, input, env, states, |requests| - 1)
    requires Ends(cfg, input, env, states, |requests|, horizon, terminals)
    requires horizon > 2 * cfg.maxTurns + 3 + 2 * states[|requests|].continuations
    ensures |terminals| == 1
  {
    RunsAreBounded(cfg, input, env, requests, states);
  }

  // ----- Without pending messages -----

  /** The iterations before the n-th that were followed by pending messages. */
  function Interruptions(env: Env, n: nat): nat {
    if n == 0 then 0 else Interruptions(env, n - 1) + (if env.pending(n - 1) == [] then 0 else 1)
  }

  lemma {:induction false} AnswerContinues(cfg: Config, input: Input, env: Env, k: nat, s: Loop, answer: Answer)
    requires answer.Finished? ==> |answer.outcomes| == |answer.calls|
    ensures AfterAnswer(cfg, input, env, k, s, answer).0.continuations
            <= s.continuations + (if env.pending(k) == [] then 0 else 1)
  {
  }

  lemma {:induction false} IterationContinues(cfg: Config, input: Input, env: Env, k: nat, s: Loop, request: History,
                                              s': Loop)
    requires EnvOk(env) && IsIteration(cfg, input, env, k, s, request, s')
    ensures s'.continuations <= s.continuations + (if env.pending(k) == [] then 0 else 1)
  {
    AnswerContinues(cfg, input, env, k, Prepared(cfg, env, k, s), AnswerAt(env, k));
  }

  /** A run is continued at most once for each of them. */
  lemma {:induction false} ContinuationsArePending(cfg: Config, input: Input, env: Env, requests: seq<History>,
                                                   states: seq<Loop>, k: nat)
    requires EnvOk(env) && IsRun(cfg, input, env, requests, states) && k <= |requests|
    ensures states[k].continuations <= Interruptions(env, k)
  {
    if k > 0 {
      ContinuationsArePending(cfg, input, env, requests, states, k - 1);
      assert IterationAt(cfg, input, env, requests, states, k - 1);
      IterationContinues(cfg, input, env, k - 1, states[k - 1], requests[k - 1], states[k]);
    }
  }

  lemma {:induction false} NothingPending(env: Env, n: nat)
    requires forall i :: 0 <= i < n ==> env.pending(i) == []
    ensures Interruptions(env, n) == 0
  {
    if n > 0 { NothingPending(env, n - 1); }
  }

  /** A run with a turn limit and no pending messages makes at most 2 * maxTurns + 3 model calls, and
      emits exactly one Terminal when it is followed for longer than that. */
  lemma {:induction false} QuietRun(cfg: Config, input: Input, env: Env, requests: seq<History>, states: seq<Loop>,
                                    horizon: nat, terminals: seq<Terminal>)
    requires EnvOk(env) && IsRun(cfg, input, env, requests, states) && cfg.maxTurns > 0 && |requests| <= horizon
    requires |requests| > 0 ==> GoesOn(cfg, input, env, states, |requests| - 1)
    requires Ends(cfg, input, env, states, |requests|, horizon, terminals)
    requires forall i :: 0 <= i < |requests| ==> env.pending(i) == []
    ensures |requests| <= 2 * cfg.maxTurns + 3
    ensures horizon > 2 * cfg.maxTurns + 3 ==> |terminals| == 1
  {
    ContinuationsArePending(cfg, input, env, requests, states, |requests|);
    NothingPending(env, |requests|);
    RunsAreBounded(cfg, input, env, requests, states);
  }

  // ----- The bound is reached -----

  /** The answers of the longest run: cut off, cut off again, incomplete, and from then on cut off and
      calling a tool in turns. */
  function LongestAnswer(i: nat): Answer {
    var call := ToolCall("t", "{}");
    if i == 2 then Finished(Stopped, "...", "", [], [], 0)
    else if i < 2 || i % 2 == 1 then Finished(Length, "...", "", [], [], 0)
    else Finished(Stopped, "", "", [call], [Unknown], 0)
  }

  function LongestEnv(): Env {
    Env(_ => false, _ => false, _ => 0, (i: nat) => LongestAnswer(i), (_, _) => None, _ => [], i => i == 2,
        _ => Some("go on"), _ => false)
  }

  function LongestConfig(maxTurns: nat): Config {
    Config(maxTurns, 1, 2, 0, false, 0.0, 0, 1)
  }

  /** Two turns, so that there is something to compact. */
  function LongestInput(): Input {
    var u, a := Message(User, "u", "", [], ""), Message(Assistant, "a", "", [], "");
    Input("m", "", [u, a, u, a], false, 1)
  }

  lemma {:induction false} LongestEnvOk()
    ensures EnvOk(LongestEnv())
  {
    var env := LongestEnv();
    forall i: nat ensures AnswerAt(env, i) == LongestAnswer(i) {}
    assert forall i :: env.pending(i) == [];
  }

  lemma {:induction false} TwoTurnsCompact()
    ensures var result := CompactTo(LongestInput().messages, 1, None); result.Compacted?
  {
    var ms := LongestInput().messages;
    assert NewTurn(ms, 0) == [] && NewTurn(ms, 1) == [Turn(0, 1)];
    assert NewTurn(ms, 2) == [] && NewTurn(ms, 3) == [Turn(2, 3)];
    assert Turns(ms, 2) == [Turn(0, 1)];
    assert Turns(ms, 4) == [Turn(0, 1), Turn(2, 3)];
    assert SystemCount(ms) == 0;
  }

  /** How far the longest run has come after k calls. */
  predicate OnCourse(k: nat, s: Loop) {
    && (k < 2 ==> s.history == LongestInput().messages)
    && s.turn == (if k < 3 then 1 else (k - 1) / 2)
    && s.lengthRetryCount == (if k < 3 then k else if k % 2 == 1 then 0 else 1)
    && s.incompleteRetryCount == (if k < 3 then 0 else 1)
    && s.compactionAttempted == (k >= 2)
    && s.continuations == 0 && s.outputTokenBudget > 0
  }

  lemma {:induction false} CutOffOnCourse(m: nat, k: nat, s: Loop)
    requires OnCourse(k, s) && (k < 2 || (k > 2 && k % 2 == 1))
    ensures var (s', terminal) := AfterLength(LongestConfig(m), LongestInput(), s, None);
      OnCourse(k + 1, s') && terminal.None?
  {
    TwoTurnsCompact();
  }

  lemma {:induction false} AnsweredOnCourse(m: nat, k: nat, s: Loop)
    requires OnCourse(k, s)
    ensures var env := LongestEnv();
      AnswerAt(env, k) == LongestAnswer(k) && Prepared(LongestConfig(m), env, k, s) == s
    ensures var env := LongestEnv();
      var (s', terminal) := AfterAnswer(LongestConfig(m), LongestInput(), env, k, s, LongestAnswer(k));
      OnCourse(k + 1, s') && terminal.None?
  {
    if k < 2 || (k > 2 && k % 2 == 1) { CutOffOnCourse(m, k, s); }
  }

  /** The states of a run, each from the answer to the request before. */
  function StatesOf(cfg: Config, input: Input, env: Env, n: nat): (states: seq<Loop>)
    requires forall i: nat :: AnswerAt(env, i).Finished? ==> |AnswerAt(env, i).outcomes| == |AnswerAt(env, i).calls|
    ensures |states| == n + 1
  {
    if n == 0 then [FirstState(cfg, input)]
    else
      var before := StatesOf(cfg, input, env, n - 1);
      before + [AfterAnswer(cfg, input, env, n - 1, Prepared(cfg, env, n - 1, before[n - 1]), AnswerAt(env, n - 1)).0]
  }

  lemma {:induction false} LongestOnCourse(m: nat, n: nat, k: nat)
    requires EnvOk(LongestEnv()) && k <= n
    ensures var states := StatesOf(LongestConfig(m), LongestInput(), LongestEnv(), n);
      && OnCourse(k, states[k])
      && (k == 0 ==> states[k] == FirstState(LongestConfig(m), LongestInput()))
      && (k < n ==> states[k + 1]
                    == AfterAnswer(LongestConfig(m), LongestInput(), LongestEnv(), k, states[k], LongestAnswer(k)).0)
  {
    if n > 0 {
      var before := StatesOf(LongestConfig(m), LongestInput(), LongestEnv(), n - 1);
      LongestOnCourse(m, n - 1, n - 1);
      AnsweredOnCourse(m, n - 1, before[n - 1]);
      if k < n { LongestOnCourse(m, n - 1, k); }
    }
  }

  lemma {:induction false} LongestIteration(m: nat, k: nat, s: Loop, s': Loop)
    requires EnvOk(LongestEnv()) && OnCourse(k, s) && k < 2 * m + 3
    requires s' == AfterAnswer(LongestConfig(m), LongestInput(), LongestEnv(), k, s, LongestAnswer(k)).0
    requires m > 0
    ensures IsIteration(LongestConfig(m), LongestInput(), LongestEnv(), k, s, s.history, s')
    ensures AfterAnswer(LongestConfig(m), LongestInput(), LongestEnv(), k,
                        Prepared(LongestConfig(m), LongestEnv(), k, s), AnswerAt(LongestEnv(), k)).1.None?
  {
    AnsweredOnCourse(m, k, s);
  }

  /** The bound is reached: for every turn limit some run without pending messages makes exactly
      2 * maxTurns + 3 model calls, and ends at the limit. */
  lemma {:induction false} BoundIsReached(m: nat)
    returns (cfg: Config, input: Input, env: Env, requests: seq<History>, states: seq<Loop>)
    requires m > 0
    ensures cfg.maxTurns == m && EnvOk(env) && (forall i :: env.pending(i) == [])
    ensures IsRun(cfg, input, env, requests, states) && GoesOn(cfg, input, env, states, |requests|)
    ensures |requests| == 2 * m + 3
    ensures Ends(cfg, input, env, states, |requests|, |requests|, [MaxTurns])
  {
    cfg, input, env := LongestConfig(m), LongestInput(), LongestEnv();
    LongestEnvOk();
    var n := 2 * m + 3;
    states := StatesOf(cfg, input, env, n);
    LongestOnCourse(m, n, 0);
    LongestOnCourse(m, n, n);
    requests := seq(n, k requires 0 <= k < n => states[k].history);
    forall k | 0 <= k < n
      ensures IterationAt(cfg, input, env, requests, states, k) && TerminalAt(cfg, input, env, states, k).None?
    {
      LongestOnCourse(m, n, k);
      LongestIteration(m, k, states[k], states[k + 1]);
    }
  }
}
