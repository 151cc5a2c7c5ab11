/** What a run of the agent remembers (internal/agent/agent.go): each answer and each tool result enters the
    history and the conversation, and nothing else does. */
module AgentMemory {
  import opened Options
  import opened Conversation
  import opened ToolTurn
  import opened Packer
  import opened Compaction
  import opened AgentLoop

  // ----- One answer -----

  /** What the compaction of a history leaves. */
  function Shrunk(cfg: Config, history: History, summary: Option<string>): History {
    match CompactTo(history, cfg.minTurns, summary)
    case Skipped => history
    case Compacted(_, messages) => messages
  }

  /** The history that the k-th request is built from: compacted first when the user asked for it. */
  function Asked(cfg: Config, env: Env, k: nat, s: Loop): History {
    if env.compactRequested(k) then Shrunk(cfg, s.history, env.summary(k, 0)) else s.history
  }

  /** The prompt took more than the threshold's part of the context, and there are turns to compact. */
  predicate IsDue(cfg: Config, history: History, promptTokens: int) {
    && !cfg.compactionDisabled && cfg.maxContextTokens > 0 && cfg.threshold > 0.0
    && cfg.maxContextTokens as real * cfg.threshold < promptTokens as real
    && cfg.minTurns <= |AllTurns(history)|
  }

  /** The history that a usable answer is appended to. */
  function Met(cfg: Config, env: Env, k: nat, s: Loop, promptTokens: int): History {
    var asked := Asked(cfg, env, k, s);
    if IsDue(cfg, asked, promptTokens) then Shrunk(cfg, asked, env.summary(k, 2)) else asked
  }

  /** The messages that an answer adds to the conversation: itself, a result for each of its calls, and what
      was pending. */
  ghost predicate IsSaid(answer: Answer, pending: History, said: History)
    requires answer.Finished?
  {
    exists results ::
      && AreReplies(answer.calls, answer.outcomes, results)
      && said == [Message(Assistant, answer.content, answer.thinking, answer.calls, "")] + results + pending
  }

  /** An answer that calls tools is remembered with its results, in the history and in the conversation, and
      the run goes on with the next turn. */
  ghost predicate CallsAreRemembered(cfg: Config, env: Env, k: nat, s: Loop, s': Loop, terminal: Option<Terminal>,
                                     answer: Answer)
    requires answer.Finished?
  {
    && (exists said :: IsSaid(answer, env.pending(k), said) && s'.conversation == s.conversation + said
                       && s'.history == Met(cfg, env, k, s, answer.promptTokens) + said)
    && terminal == None && s'.turn == s.turn + 1 && s'.lengthRetryCount == 0
    && s'.continuations == s.continuations && s'.incompleteRetryCount == s.incompleteRetryCount
    && s'.compactionAttempted == s.compactionAttempted && s'.outputTokenBudget == s.outputTokenBudget
  }

  /** An answer without calls is remembered as well. The run goes on with what is pending, or once with a
      prompt for the rest of an incomplete answer; otherwise it is complete, unless the stop hook objects. */
  ghost predicate WordsAreRemembered(cfg: Config, env: Env, k: nat, s: Loop, s': Loop, terminal: Option<Terminal>,
                                     answer: Answer)
    requires answer.Finished?
  {
    var message := Message(Assistant, answer.content, answer.thinking, [], "");
    var retried := env.pending(k) == [] && env.looksIncomplete(k) && s.incompleteRetryCount == 0;
    var prompt := if retried && env.retryPrompt(k).Some?
                  then [Message(User, env.retryPrompt(k).value, "", [], "")] else [];
    && s'.conversation == s.conversation + [message] + env.pending(k)
    && s'.history == Met(cfg, env, k, s, answer.promptTokens) + [message] + env.pending(k) + prompt
    && terminal == (if env.pending(k) != [] || prompt != [] then None
                    else if !retried && env.stopBlocked(k) then Some(StopHook) else Some(Completed))
    && s'.turn == s.turn && s'.lengthRetryCount == 0
    && s'.continuations == s.continuations + (if env.pending(k) != [] then 1 else 0)
    && s'.incompleteRetryCount == s.incompleteRetryCount + (if retried then 1 else 0)
    && s'.compactionAttempted == s.compactionAttempted && s'.outputTokenBudget == s.outputTokenBudget
  }

  /** An answer that was cut off is forgotten. The first time the request is repeated with the larger budget,
      the second time with a compacted history if there is one and none was made before. */
  predicate CutOffIsForgotten(cfg: Config, input: Input, env: Env, k: nat, s: Loop, s': Loop,
                              terminal: Option<Terminal>) {
    var asked := Asked(cfg, env, k, s);
    var second := s.lengthRetryCount == 1 && !cfg.compactionDisabled && !s.compactionAttempted;
    var smaller := second && CompactTo(asked, cfg.minTurns, env.summary(k, 1)).Compacted?;
    && s'.conversation == s.conversation
    && s'.history == (if smaller then Shrunk(cfg, asked, env.summary(k, 1)) else asked)
    && terminal == (if s.lengthRetryCount == 0 || smaller then None else Some(ContextOverflow))
    && s'.turn == s.turn && s'.lengthRetryCount == s.lengthRetryCount + 1
    && s'.outputTokenBudget == (if s.lengthRetryCount == 0 then cfg.lengthRetryTokens
                                else if !smaller then s.outputTokenBudget
                                else if input.maxOutputTokens > 0 then input.maxOutputTokens
                                else cfg.maxOutputTokens)
    && s'.compactionAttempted == (s.compactionAttempted || second)
    && s'.continuations == s.continuations && s'.incompleteRetryCount == s.incompleteRetryCount
  }

  /** What iteration k makes of the loop, by the answer it got. */
  ghost predicate Remembers(cfg: Config, input: Input, env: Env, k: nat, s: Loop, s': Loop,
                            terminal: Option<Terminal>)
    requires EnvOk(env)
  {
    match AnswerAt(env, k)
    case Failed(aborted) =>
      && terminal == Some(if aborted then Aborted else Unrecoverable)
      && s' == s.(history := Asked(cfg, env, k, s))
    case Finished(done, _, _, calls, _, _) =>
      match done
      case Length => CutOffIsForgotten(cfg, input, env, k, s, s', terminal)
      case StreamFailure => terminal == Some(Unrecoverable) && s' == s.(history := Asked(cfg, env, k, s))
      case Stopped =>
        if calls == [] then WordsAreRemembered(cfg, env, k, s, s', terminal, AnswerAt(env, k))
        else CallsAreRemembered(cfg, env, k, s, s', terminal, AnswerAt(env, k))
  }

  lemma {:induction false} PreparedIsAsked(cfg: Config, env: Env, k: nat, s: Loop)
    ensures Prepared(cfg, env, k, s) == s.(history := Asked(cfg, env, k, s))
  {
  }

  lemma {:induction false} ProactiveIsMet(cfg: Config, env: Env, k: nat, s: Loop, promptTokens: int)
    ensures Proactive(cfg, Prepared(cfg, env, k, s), promptTokens, env.summary(k, 2))
            == s.(history := Met(cfg, env, k, s, promptTokens))
  {
    PreparedIsAsked(cfg, env, k, s);
  }

  lemma {:induction false} CallsRemembered(cfg: Config, env: Env, k: nat, s: Loop, answer: Answer)
    requires answer.Finished? && |answer.outcomes| == |answer.calls|
    ensures var message := Message(Assistant, answer.content, answer.thinking, answer.calls, "");
      var ready := s.(history := Met(cfg, env, k, s, answer.promptTokens));
      CallsAreRemembered(cfg, env, k, s, AfterToolCalls(env, k, ready, message, Replies(answer.calls, answer.outcomes)),
                         None, answer)
  {
    var results := Replies(answer.calls, answer.outcomes);
    var message := Message(Assistant, answer.content, answer.thinking, answer.calls, "");
    var met := Met(cfg, env, k, s, answer.promptTokens);
    RepliesAre(answer.calls, answer.outcomes);
    var said := [message] + results + env.pending(k);
    assert IsSaid(answer, env.pending(k), said);
    assert env.pending(k) == [] ==> said == [message] + results;
    assert s.conversation + ([message] + results) + env.pending(k) == s.conversation + said;
    assert met + ([message] + results) + env.pending(k) == met + said;
  }

  lemma {:induction false} WordsRemembered(cfg: Config, env: Env, k: nat, s: Loop, answer: Answer)
    requires answer.Finished? && answer.calls == [] && s.incompleteRetryCount <= INCOMPLETE_RETRY_LIMIT
    ensures var message := Message(Assistant, answer.content, answer.thinking, [], "");
      var ready := s.(history := Met(cfg, env, k, s, answer.promptTokens));
      var (s', terminal) := AfterFinalAnswer(env, k, ready, message);
      WordsAreRemembered(cfg, env, k, s, s', terminal, answer)
  {
    assert forall h: History :: h + [] == h;
  }

  lemma {:induction false} CutOffForgotten(cfg: Config, input: Input, env: Env, k: nat, s: Loop)
    ensures var (s', terminal) := AfterLength(cfg, input, Prepared(cfg, env, k, s), env.summary(k, 1));
      CutOffIsForgotten(cfg, input, env, k, s, s', terminal)
  {
    PreparedIsAsked(cfg, env, k, s);
  }

  /** Every iteration of every run remembers its answer. */
  lemma {:induction false} IterationRemembers(cfg: Config, input: Input, env: Env, requests: seq<History>,
                                              states: seq<Loop>, k: nat)
    requires EnvOk(env) && IsRun(cfg, input, env, requests, states)
    requires k < |requests| && GoesOn(cfg, input, env, states, k)
    ensures Remembers(cfg, input, env, k, states[k], states[k + 1], TerminalAt(cfg, input, env, states, k))
  {
    var s, answer := states[k], AnswerAt(env, k);
    assert IterationAt(cfg, input, env, requests, states, k);
    RunKeeps(cfg, input, env, requests, states, k);
    AnswerIsRemembered(cfg, input, env, k, s);
  }

  lemma {:induction false} AnswerIsRemembered(cfg: Config, input: Input, env: Env, k: nat, s: Loop)
    requires EnvOk(env) && s.incompleteRetryCount <= INCOMPLETE_RETRY_LIMIT
    ensures var (s', terminal) := AfterAnswer(cfg, input, env, k, Prepared(cfg, env, k, s), AnswerAt(env, k));
      Remembers(cfg, input, env, k, s, s', terminal)
  {
    var answer := AnswerAt(env, k);
    PreparedIsAsked(cfg, env, k, s);
    if answer.Finished? {
      ProactiveIsMet(cfg, env, k, s, answer.promptTokens);
      match answer.done {
        case Length => CutOffForgotten(cfg, input, env, k, s);
        case StreamFailure =>
        case Stopped =>
          if answer.calls == [] {
            WordsRemembered(cfg, env, k, s, answer);
          } else {
            CallsRemembered(cfg, env, k, s, answer);
          }
      }
    }
  }

  // ----- Requests -----

  /** The request packs the history into the budget. */
  ghost predicate IsPacked(history: History, budget: int, request: History) {
    exists report, us, keep :: PackOk(history, budget, request, report, us, keep)
  }

  /** A request is the whole history when there is no budget, and otherwise a packing of it. */
  lemma {:induction false} RequestIs(history: History, budget: int, request: History)
    requires IsRequest(history, budget, request)
    ensures if budget <= 0 then request == history else IsPacked(history, budget, request)
  {
  }

  /** The request is built from this history, with what the answer and the reserve leave of the context. */
  ghost predicate IsBuilt(cfg: Config, env: Env, k: nat, s: Loop, asked: History, request: History) {
    var budget := env.numCtx(k) - s.outputTokenBudget - cfg.contextReserve;
    && !env.cancelled(k) && (cfg.maxTurns == 0 || s.turn <= cfg.maxTurns)
    && IsRequest(asked, budget, request)
  }

  lemma {:induction false} IterationOfRun(cfg: Config, input: Input, env: Env, requests: seq<History>,
                                          states: seq<Loop>, k: nat)
    requires EnvOk(env) && IsRun(cfg, input, env, requests, states) && k < |requests|
    ensures IsIteration(cfg, input, env, k, states[k], requests[k], states[k + 1])
  {
    assert IterationAt(cfg, input, env, requests, states, k);
  }

  /** Every request of every run is built like that. */
  lemma {:induction false} RequestIsBuilt(cfg: Config, input: Input, env: Env, requests: seq<History>,
                                          states: seq<Loop>, k: nat)
    requires EnvOk(env) && IsRun(cfg, input, env, requests, states) && k < |requests|
    ensures IsBuilt(cfg, env, k, states[k], Asked(cfg, env, k, states[k]), requests[k])
  {
    IterationOfRun(cfg, input, env, requests, states, k);
    IterationBuilds(cfg, input, env, k, states[k], requests[k], states[k + 1]);
    PreparedIsAsked(cfg, env, k, states[k]);
  }

  lemma {:induction false} IterationBuilds(cfg: Config, input: Input, env: Env, k: nat, s: Loop, request: History,
                                           s': Loop)
    requires EnvOk(env) && IsIteration(cfg, input, env, k, s, request, s')
    ensures !env.cancelled(k) && (cfg.maxTurns == 0 || s.turn <= cfg.maxTurns)
    ensures var ready := Prepared(cfg, env, k, s); IsRequest(ready.history, InputBudget(cfg, env, k, ready), request)
  {
  }

  function Sys(input: Input): History {
    if input.systemPrompt == "" then [] else [Message(System, input.systemPrompt, "", [], "")]
  }

  lemma {:induction false} LatestIs(ms: History)
    ensures LatestOnly(ms) == [] <==> forall i :: 0 <= i < |ms| ==> ms[i].role != User
    ensures LatestOnly(ms) != [] ==>
      exists i :: 0 <= i < |ms| && LatestOnly(ms) == [ms[i]] && ms[i].role == User
                  && forall j :: i < j < |ms| ==> ms[j].role != User
  {
    if ms != [] && ms[|ms| - 1].role != User {
      LatestIs(ms[..|ms| - 1]);
    }
  }

  /** A run begins with the system prompt and the messages, or only the newest one of the user. */
  lemma {:induction false} FirstHistoryIs(input: Input)
    ensures var h := FirstHistory(input);
      if input.latestOnly && exists i :: 0 <= i < |input.messages| && input.messages[i].role == User then
        exists i :: 0 <= i < |input.messages| && h == Sys(input) + [input.messages[i]]
                    && input.messages[i].role == User
                    && forall j :: i < j < |input.messages| ==> input.messages[j].role != User
      else h == Sys(input) + input.messages
  {
    LatestIs(input.messages);
    assert forall h: History :: [] + h == h;
  }

  // ----- Whole runs -----

  function Flat(parts: seq<History>): History {
    if parts == [] then [] else Flat(parts[..|parts| - 1]) + parts[|parts| - 1]
  }

  lemma {:induction false} FlatSnoc(parts: seq<History>, part: History)
    ensures Flat(parts + [part]) == Flat(parts) + part
  {
    assert (parts + [part])[..|parts|] == parts;
  }

  /** The part of the conversation that the k-th answer adds: nothing, unless it is a usable one. */
  ghost predicate IsAdded(env: Env, k: nat, part: History) {
    var answer := AnswerAt(env, k);
    if answer.Finished? && answer.done == Stopped then IsSaid(answer, env.pending(k), part) else part == []
  }

  /** The same with the prompt for the rest of an incomplete answer, which the history alone holds. */
  predicate IsNoted(env: Env, k: nat, part: History, noted: History) {
    || noted == part
    || (env.retryPrompt(k).Some? && noted == part + [Message(User, env.retryPrompt(k).value, "", [], "")])
  }

  ghost predicate AreAdded(env: Env, parts: seq<History>, noted: seq<History>) {
    && |noted| == |parts|
    && forall k :: 0 <= k < |parts| ==> IsAdded(env, k, parts[k]) && IsNoted(env, k, parts[k], noted[k])
  }

  /** No compaction can happen in the run. */
  ghost predicate NeverCompacts(cfg: Config, env: Env) {
    cfg.compactionDisabled && forall k :: !env.compactRequested(k)
  }

  lemma {:induction false} WordsAdd(cfg: Config, env: Env, k: nat, s: Loop, s': Loop, terminal: Option<Terminal>,
                                    answer: Answer) returns (part: History, noted: History)
    requires answer.Finished? && answer.calls == [] && answer.outcomes == []
    requires WordsAreRemembered(cfg, env, k, s, s', terminal, answer)
    ensures IsSaid(answer, env.pending(k), part) && IsNoted(env, k, part, noted)
    ensures s'.conversation == s.conversation + part
    ensures s'.history == Met(cfg, env, k, s, answer.promptTokens) + noted
  {
    var message := Message(Assistant, answer.content, answer.thinking, [], "");
    part := [message] + env.pending(k);
    assert AreReplies([], answer.outcomes, []) && part == [message] + [] + env.pending(k);
    var retried := env.pending(k) == [] && env.looksIncomplete(k) && s.incompleteRetryCount == 0;
    var prompt := if retried && env.retryPrompt(k).Some?
                  then [Message(User, env.retryPrompt(k).value, "", [], "")] else [];
    noted := part + prompt;
    var met := Met(cfg, env, k, s, answer.promptTokens);
    assert s.conversation + [message] + env.pending(k) == s.conversation + part;
    assert met + [message] + env.pending(k) + prompt == met + noted;
  }

  lemma {:induction false} IterationAdds(cfg: Config, input: Input, env: Env, k: nat, s: Loop, s': Loop,
                                         terminal: Option<Terminal>) returns (part: History, noted: History)
    requires EnvOk(env) && Remembers(cfg, input, env, k, s, s', terminal)
    ensures IsAdded(env, k, part) && IsNoted(env, k, part, noted) && s'.conversation == s.conversation + part
    ensures NeverCompacts(cfg, env) ==> s'.history == s.history + noted
  {
    var answer := AnswerAt(env, k);
    part, noted := [], [];
    if answer.Finished? && answer.done == Stopped {
      if answer.calls == [] {
        part, noted := WordsAdd(cfg, env, k, s, s', terminal, answer);
      } else {
        part :| IsSaid(answer, env.pending(k), part) && s'.conversation == s.conversation + part
                && s'.history == Met(cfg, env, k, s, answer.promptTokens) + part;
        noted := part;
      }
    }
  }

  lemma {:induction false} AddedSnoc(env: Env, parts: seq<History>, noted: seq<History>, part: History, note: History)
    requires AreAdded(env, parts, noted) && IsAdded(env, |parts|, part) && IsNoted(env, |parts|, part, note)
    ensures AreAdded(env, parts + [part], noted + [note])
    ensures Flat(parts + [part]) == Flat(parts) + part && Flat(noted + [note]) == Flat(noted) + note
  {
    FlatSnoc(parts, part);
    FlatSnoc(noted, note);
  }

  lemma {:induction false} NextAdds(cfg: Config, input: Input, env: Env, requests: seq<History>, states: seq<Loop>,
                                    k: nat) returns (part: History, noted: History)
    requires EnvOk(env) && IsRun(cfg, input, env, requests, states)
    requires k < |requests| && GoesOn(cfg, input, env, states, k)
    ensures IsAdded(env, k, part) && IsNoted(env, k, part, noted)
    ensures states[k + 1].conversation == states[k].conversation + part
    ensures NeverCompacts(cfg, env) ==> states[k + 1].history == states[k].history + noted
  {
    IterationRemembers(cfg, input, env, requests, states, k);
    part, noted := IterationAdds(cfg, input, env, k, states[k], states[k + 1],
                                 TerminalAt(cfg, input, env, states, k));
  }

  lemma {:induction false} Together(a: History, b: History, c: History)
    ensures a + b + c == a + (b + c)
  {
  }

  /** The conversation that a run hands back is its usable answers, one after the other, each with its results
      and what was pending. When no compaction happens, the history is what the run began with and all of
      them: no request is built from less. */
  lemma {:induction false} RunRemembers(cfg: Config, input: Input, env: Env, requests: seq<History>, states: seq<Loop>,
                                        n: nat) returns (parts: seq<History>, noted: seq<History>)
    requires EnvOk(env) && IsRun(cfg, input, env, requests, states)
    requires n <= |requests| && (n > 0 ==> GoesOn(cfg, input, env, states, n - 1))
    ensures |parts| == n && AreAdded(env, parts, noted) && states[n].conversation == Flat(parts)
    ensures NeverCompacts(cfg, env) ==> states[n].history == FirstHistory(input) + Flat(noted)
  {
    if n == 0 {
      parts, noted := [], [];
    } else {
      parts, noted := RunRemembers(cfg, input, env, requests, states, n - 1);
      var part, note := NextAdds(cfg, input, env, requests, states, n - 1);
      AddedSnoc(env, parts, noted, part, note);
      Together(FirstHistory(input), Flat(noted), note);
      parts, noted := parts + [part], noted + [note];
    }
  }
}
