# Nandocode: verified models of its core algorithms and protocols

Nandocode is a coding agent written in Go. This project models, in Dafny 4.11, the parts of it
whose correctness is hard to see by reading, and proves what each of them promises.

* **Permissions.** `Wildcard` is the glob matcher that backtracks to the latest star only, proved to
  decide exactly the declarative language of its pattern in quadratically many steps. `PatternMeaning`
  says what `?`, `*`, classes and `**` stand for, on the text they are written as. `DoubleStar` and
  `DoubleStarMeaning` are the `**` expansion: what it accepts is what some choice of dropped `**`
  segments matches, within the limits that are stated and shown to be real; `CollapseLimit` says exactly
  when one step loses a string. `SessionRule` is the printing and parsing of one approved call: the
  recorded rule matches that call and nothing else.
* **The agent.** `Conversation` defines when tool calls and tool results are paired. `Batches` and
  `ToolTurn` run the tool calls of one turn, `TurnStream` reads the turn from its stream, `Packer` and
  `Compaction` shrink the history, and `AgentLoop` is the turn/retry/compaction state machine around an
  arbitrary model: every request of every run is paired and runs with a turn limit are bounded.
  `AgentMemory`, `PackerMeaning` and `CompactionMeaning` say message by message what a run remembers,
  what a packed prompt keeps and what a compaction leaves.
* **Protocols as steps.** `Executor` (goroutines of concurrent tool calls), `Broker` (prompt, timeout,
  cancellation and any number of resolves racing for one claim) and `Watchdog` (two timers, input,
  consumer and cancellation) are transition systems; the theorems range over every interleaving.
  `ExecutorMeaning` reads the executor's events from outside.
* **The semantic index.** `Records` is the identity and order of records and the scan;
  `IndexAgreement` and `IndexRefresh` are the service with its store and cache, and show that an
  incremental refresh stores what a full scan would; `IndexCut` follows an index that a build has cut at
  its record limit. `Ranking` is narrowed against full ranking and the choice of varied hits.
  `LineChunker` is the overlapping line chunker, `MarkdownSections` the cutting of Markdown files at
  their headings.
* **Bytes.** `Utf8` and `ChunkText` cut content without breaking characters (section 4 of RFC 3629);
  `Framing` is Content-Length framing and the matching of responses by id (section 5 of JSON-RPC 2.0).

`Options`, `Decimal` and `Ordering` are small helpers: an option type, decimal digits, sorting by a
comparison.

Methods follow the loops of the source and are proved against specification functions or predicates;
the lemmas then prove what those mean. Whatever lies outside the modelled code (the model server, the
user, the clock, tools, extractors, the embedder) is an arbitrary function or an arbitrary schedule of
steps, so the theorems hold for each of its behaviours. `dafny verify dfyconfig.toml` checks everything.

Findings, each proved:

* Two adjacent `**` segments can match more than one: inside a class that is not negated, between a
  range that ends at the separator from above and one that starts at it downwards, as in
  `[z-/**/**/-+]`. `CollapseIsExact` says exactly when one of them can go, for all patterns;
  `BackwardRangeLosesSeparator` says exactly when `globMatch` as a whole loses something, on the patterns
  `[x-/`, n times `**/`, `-y]`.
* With more than twelve runs of `**`, `globMatch` no longer tries every form (`TwelveIsTheLimit`).
* "Always Allow" stores the target trimmed and is then compared with the target as it comes: for a
  target with white space at an end the rule does not match the very call it was recorded for
  (`OwnCallAllowed` gives the exact condition).
* Clearing the index removes the newest one only. An older index of another model or of other
  dimensions comes back (`BuildTwiceThenClear`); the workspace is empty afterwards if and only if there
  was none (`LocalService.Clear`).
* A timeout of the watchdog does not tell that the model was silent: the consumer's time over the last
  event and the warning handler's time count as well (`TimeoutTells`). `ConsumerLimit` says exactly
  which bounds on the two keep a stream that never has to wait from timing out. The agent's handler sends
  to the same consumer, which gets up to three signals for one event: a bound on one send is safe exactly
  when three sends stay below the warning timeout or four below the idle one (`SameConsumer`).
* "Preserve always" does not hold of the system messages at the head of a history: the layer that strips
  thinking strips them too, so an earlier summary that quotes a thinking block is altered
  (`SystemMessageAltered`; `SystemMessagesKept` says exactly when they stay word for word).
* "Always Allow" reaches runs that start later only: a run works on the rules it started with
  (`RulesOfLaterRuns`).
* A build that reaches the record limit inside a file loses the rest of it until that file changes: its
  hash is stored, so the refresh takes it for unchanged. A refresh completes a cut index exactly when
  the cut falls between two files, or into one that has changed since (`CompleteIfRecoverable`).

Where the code and its comments differ, the model follows the code. The comment on `doubleStarVariants`
says that each `**` may match nothing; beyond twelve segments the code does not try that.

## Model

| member | source | states |
|---|---|---|
| Wildcard.AcceptsIsLanguage | internal/permissions/match.go:203-233 | following two indices and cutting the string into one fitting piece per token define the same language |
| Wildcard.MatchClass | internal/permissions/match.go:256-287 | the in-place class parser finds the class's end, whether it is closed, and membership with negation |
| Wildcard.MatchOne | internal/permissions/match.go:235-256 | the single-element matcher advances past exactly one token and accepts exactly that token's runes |
| Wildcard.WildcardMatch | internal/permissions/match.go:203-233 | true if and only if the string is in the pattern's language, in at most (s+1)(p+1) iterations, although only the latest star is retried |
| Wildcard.StarStep | internal/permissions/match.go:210-228 | when a later star is reached, every retry of the earlier one has become redundant |
| PatternMeaning.WrittenMeans | internal/permissions/match.go:203-287 | a pattern written with escaped texts, `?`, `*` and classes of runes and ranges, escaped or not, negated or not, matches exactly what those mean one after the other |
| PatternMeaning.OneRuneBetween | internal/permissions/match.go:239-240 | `?` between two texts stands for any one rune, and for exactly one |
| PatternMeaning.AnyTextBetween | internal/permissions/match.go:208-227 | `*` between two texts stands for any text, the empty one included |
| PatternMeaning.ClassBetween | internal/permissions/match.go:256-287 | `[x-y]` between two texts stands for one rune of the range, `[!x-y]` and `[^x-y]` for one outside |
| PatternMeaning.UnclosedBracket | internal/permissions/match.go:246-250 | a bracket that nothing closes stands for itself |
| PatternMeaning.TrailingBackslash | internal/permissions/match.go:241-245 | so does a backslash at the end |
| DoubleStar.DoubleStarVariants | internal/permissions/match.go:153-201 | the variants are exactly the forms of the collapsed pattern in which only some of the first twelve `**` are missing |
| DoubleStar.GlobMatch | internal/permissions/match.go:139-151 | accepts if and only if some form's language holds the target |
| PatternMeaning.GlobMeans | internal/permissions/match.go:139-233 | a glob written with such pieces, without two stars in a row, accepts exactly what they mean |
| PatternMeaning.DoubleStarBetween | internal/permissions/match.go:139-201 | a `**` segment between two texts stands for any path, or for nothing, and `a/**/b` accepts nothing else |
| DoubleStarMeaning.CollapseAccepts | internal/permissions/match.go:158-172 | replacing two adjacent `**` by one keeps every string of the language, when a class that reaches over them is negated or still holds the separator |
| CollapseLimit.CollapseIsExact | internal/permissions/match.go:158-172 | for all patterns: it keeps every string if and only if that holds, or some token accepts no rune at all |
| DoubleStarMeaning.DedupAccepts | internal/permissions/match.go:158-172 | collapsing every run of a pattern keeps every string, when no run stands between two empty ranges behind the bracket of a class that is not negated |
| DoubleStarMeaning.DedupAcceptsClosed | internal/permissions/match.go:158-172 | the same for every pattern whose classes hold no separator |
| DoubleStarMeaning.AcceptsOnlyDrops | internal/permissions/match.go:139-201 | soundness for all patterns: what is accepted is matched after dropping some `**` segments of the original |
| DoubleStarMeaning.AllowedDropsAccepted | internal/permissions/match.go:139-201 | completeness: a drop of whole runs among the first twelve that matches is found |
| DoubleStarMeaning.GlobIsSomeDrop | internal/permissions/match.go:139-201 | with at most twelve runs, and no doubled `**` between two empty ranges of a class that is not negated, accepted if and only if some choice of dropped `**` matches |
| DoubleStarMeaning.TwelveIsTheLimit | internal/permissions/match.go:153-201 | that equivalence holds of all patterns with n runs if and only if n is at most twelve |
| DoubleStarMeaning.BackwardRangeLosesSeparator | internal/permissions/match.go:158-172 | of the patterns `[x-/`, n times `**/`, `-y]`, exactly those with n >= 2 and y < '/' < x, x no backslash and no negation mark, have a target that a drop matches and the collapsed pattern does not |
| SessionRule.PrintThenParse | internal/permissions/match.go:66-105 | a printed rule parses back into its tool name and glob |
| SessionRule.TrimSpaceCuts | internal/permissions/match.go:71-82 | trimming takes white space from both ends and nothing else |
| SessionRule.ParseIsExact | internal/permissions/match.go:66-105 | a pattern parses into a tool and a glob if and only if it is a name, a parenthesis, that glob and a closing parenthesis at its end, with none of them empty |
| SessionRule.MatchesRule | internal/permissions/match.go:107-137 | the rule matcher decides the declarative meaning of a rule |
| SessionRule.EscapeGlob | internal/permissions/session_rule.go:24-35 | the builder loop computes the escaped text |
| SessionRule.EscapedHasNoDoubleStar | internal/permissions/session_rule.go:22-35 | an escaped target never triggers the `**` expansion |
| SessionRule.EscapedGlobAccepts | internal/permissions/session_rule.go:22-35 | the escaped text, as a glob, accepts that text and nothing else |
| SessionRule.SessionRuleIsExact | internal/permissions/session_rule.go:5-35 | a session rule matches a call if and only if it is the approved tool on the approved target, after trimming and separator normalisation |
| SessionRule.SomeRuleCanMatch | internal/permissions/match.go:66-123 | some rule matches a call if and only if its tool name is trimmed, not blank and without an opening parenthesis |
| SessionRule.OwnCallAllowed | internal/permissions/session_rule.go:14-20 | the recorded rule matches the very call it was recorded for if and only if any rule could, the target is trimmed and not blank, and the tool has no closing parenthesis |
| SessionRule.FirstMatchingRule | internal/permissions/rules.go:125-144 | the decision is Deny if a deny rule matches, else Ask if an ask rule does, else Allow if an allow rule does, else none |
| SessionRule.AlwaysAllowChangesOneCall | internal/server/session.go:488-498 | recording "Always Allow" changes the decision of one call only, and only when no rule decided it before |
| Conversation.PairedConcat | internal/agent/agent.go:278-352 | paired histories stay paired when appended |
| Conversation.PairedCut | internal/agent/compact.go:336-366 | a paired history may be cut before any message that is not a tool result |
| Batches.Partition | internal/agent/partition.go:40-81 | the batches flatten back to the calls; each is one unsafe call or a maximal run of safe ones |
| Batches.PartitionUnique | internal/agent/partition.go:40-81 | there is only one such list of batches |
| ToolTurn.ToolRunner.BuildIndexed | internal/agent/agent.go:436-511 | unknown and unparsable calls fill their own slots; the others are indexed in order with consecutive ids |
| ToolTurn.ToolRunner.CheckPermissions | internal/agent/agent.go:517-589 | refused calls fill their slots, permitted ones go on in order |
| ToolTurn.ToolRunner.ExecuteConcurrentBatch | internal/agent/speculative.go:111-180 | a batch yields its messages in submission order whatever the order of completion |
| ToolTurn.ToolRunner.ExecuteBatches | internal/agent/speculative.go:81-109 | one message per call, in call order over all batches |
| ToolTurn.ToolRunner.FillSlots | internal/agent/agent.go:603-612 | the executed messages land in the slots of their own calls and leave the others alone |
| ToolTurn.ToolRunner.ExecuteToolCalls | internal/agent/agent.go:406-613 | exactly one tool message per call, in call order with the call's name: the reply of a tool that ran, and for every other outcome the reason |
| TurnStream.ReadStream | internal/agent/stream.go:126-157 | the loop over the stream accumulates text, thinking, the latest calls, the last reason and the deltas |
| TurnStream.SignalsAre | internal/agent/stream.go:126-140 | an event is shown by its text and its thinking, and by the first token if it is the first with anything |
| TurnStream.TextsConcat | internal/agent/stream.go:133-140 | the text is that of the events, one after the other |
| TurnStream.TextOfOne | internal/agent/stream.go:133-140 | one event adds its own text and thinking |
| TurnStream.LatestAre | internal/agent/stream.go:143-145 | the calls are those of the last event that has any |
| TurnStream.ReasonIs | internal/agent/stream.go:148-153 | the reason is that of the last event that is done |
| TurnStream.AccumulateTurn | internal/agent/stream.go:107-183 | the turn's message and results are paired; the request is released after the stream ends and before any tool runs |
| TurnStream.DeltasAreTheMessage | internal/agent/stream.go:128-140 | the text deltas shown add up to the message, and the first token is announced exactly once if there is one |
| TurnStream.WatchedTurn | internal/agent/stream.go:86-104 | behind the watchdog the text is a prefix of the model's, and the reason tells whether the watchdog gave up |
| Packer.ToolPairUnits | internal/agent/prompt_packer.go:174-191 | the index loop finds the units: a message with the tool results that follow its calls |
| Packer.UnitsTile | internal/agent/prompt_packer.go:174-191 | the units lie one after the other and cover the history |
| Packer.Fill | internal/agent/prompt_packer.go:60-133 | newest first, a unit is left out only if it would overflow the budget with the system message and the newer units; the newest is forced in |
| Packer.PackPromptHistory | internal/agent/prompt_packer.go:14-163 | whole units are kept or dropped, the newest and a leading system message always kept, tokens and messages add up, and the budget holds unless forced |
| Packer.PackPaired | internal/agent/prompt_packer.go:14-163 | packing a paired history gives a paired history |
| PackerMeaning.UnitsAreGroups | internal/agent/prompt_packer.go:174-191 | a unit is a message that is no result and the results that belong to it, all of them |
| PackerMeaning.TokensOfOne | internal/agent/context_policy.go:103-120 | a message weighs a quarter of its runes, 32 and 120 for each call |
| PackerMeaning.PackedMeans | internal/agent/prompt_packer.go:14-163 | message by message: the packed ones stand in order, the newest and a leading system message among them, results with their calls; a group is left out only if it would overflow the budget with the newer ones kept, and the budget is exceeded only by the newest group or the system message |
| Compaction.CountTurns | internal/agent/compact.go:75-98 | the forward scan counts the turns that the backward definition finds |
| Compaction.LastTurns | internal/agent/compact.go:153-191 | the backward scan finds the newest turns, at most minTurns |
| Compaction.FindSplitIndex | internal/agent/compact.go:336-366 | the split is where the newest minTurns turns begin |
| Compaction.SplitKeeps | internal/agent/compact.go:336-366 | the messages from the split on hold exactly minTurns turns, the first at their start |
| Compaction.CollapseToolResults | internal/agent/compact.go:100-119 | every message is replaced by its collapsed form, roles and calls untouched |
| Compaction.StripThinkingBlocks | internal/agent/compact.go:122-150 | thinking is removed from all messages before the last two assistant messages, and from no others |
| Compaction.EmergencyTruncate | internal/agent/compact.go:153-191 | the leading system messages and the newest turns are what remains |
| Compaction.Compact | internal/agent/compact.go:261-338 | the four layers yield what the specification says for every answer or failure of the summary request |
| Compaction.BlocksAreRemoved | internal/agent/compact.go:138-144 | removing the thinking blocks leaves a text as it is if and only if it holds no whole block |
| Compaction.SystemMessagesKept | internal/agent/compact.go:122-334 | the leading system messages stay word for word if and only if the summary failed or stripping has nothing to remove in them |
| Compaction.SystemMessageAltered | internal/agent/compact.go:122-150 | for any summary there is a history whose leading system message is altered |
| Compaction.NewestWordForWord | internal/agent/compact.go:261-334 | each message behind the split keeps its place from the end; one that is no tool result stays word for word if and only if no layer strips it, and so does an unstripped short tool result |
| Compaction.CompactionKeeps | internal/agent/compact.go:261-338 | whatever layer is reached: the leading system messages keep their places, word for word exactly then; the newest messages are kept one for one, and they hold exactly minTurns turns, as does the whole; never longer, and a second compaction is skipped |
| Compaction.CompactionPaired | internal/agent/compact.go:261-338 | compaction keeps a paired history paired |
| CompactionMeaning.TurnsAreEnds | internal/agent/compact.go:75-98 | there is one turn for each assistant message that only tool results separate from a user message |
| CompactionMeaning.PreservedAre | internal/agent/compact.go:122-134 | thinking is lost exactly before the last but one assistant message, when there are more than two |
| CompactionMeaning.BlockIsCut | internal/agent/compact.go:60-62 | a text without a block stays, and a block from the first opening mark to the next closing one is cut out |
| CompactionMeaning.LongResultsShrink | internal/agent/compact.go:100-119 | what stands for a long tool result is short |
| Decimal.DigitRunes | internal/agent/compact.go:115 | numbers are written with the ten digits |
| CompactionMeaning.CompactsWhenItCan | internal/agent/compact.go:261-292 | compaction is skipped if and only if there are too few turns or nothing but system messages before the newest ones |
| CompactionMeaning.CompactionMeans | internal/agent/compact.go:261-338 | message by message: the leading system messages, the text of the summary unless it failed, and the newest turns, each message in its stripped and collapsed form, or untouched when the summary failed |
| AgentLoop.BuildRequest | internal/agent/agent.go:157-183 | the request is the history, or a packing of it; a paired history gives a paired request |
| AgentLoop.AfterLengthKeeps | internal/agent/agent.go:213-255 | an uncounted retry uses up the allowance of its turn |
| AgentLoop.ProactiveKeeps | internal/agent/agent.go:269-276 | compaction before the answer keeps the pairing, the turn and the call allowance |
| AgentLoop.AfterFinalAnswerKeeps | internal/agent/agent.go:278-340 | whatever follows an answer without tool calls, the conversation stays paired and a run that goes on stays inside its allowance |
| AgentLoop.AfterToolCallsKeeps | internal/agent/agent.go:278-352 | results and pending messages keep the pairing, and the counted turn pays for the call |
| AgentLoop.AfterAnswerKeeps | internal/agent/agent.go:185-352 | every way an answer is handled keeps the pairing and the call allowance |
| AgentLoop.Agent.Run | internal/agent/agent.go:89-361 | the run is a run of the transition system and emits at most one Terminal, the one its last step calls for |
| AgentLoop.RequestsArePaired | internal/agent/agent.go:132-361 | every request of every run on a paired history is paired, and so is the conversation handed back |
| AgentLoop.RunsAreBounded | internal/agent/agent.go:132-361 | with a turn limit M, at most 2M+3 model calls, and two more per continuation with pending messages |
| AgentLoop.ExactlyOneTerminal | internal/agent/agent.go:132-361 | a run with a turn limit, followed for long enough, emits exactly one Terminal |
| AgentLoop.QuietRun | internal/agent/agent.go:132-361 | without pending messages a run makes at most 2M+3 model calls and, followed for longer, emits exactly one Terminal |
| AgentLoop.BoundIsReached | internal/agent/agent.go:132-361 | for every turn limit M > 0 some run without pending messages makes exactly 2M+3 model calls and ends at the limit |
| AgentMemory.IterationRemembers | internal/agent/agent.go:157-352 | every iteration of every run: an answer enters history and conversation with a result for each call and what was pending, the history compacted exactly when due; cut-off answers are forgotten; the retries, budgets and the Terminal are those the answer calls for |
| AgentMemory.RequestIsBuilt | internal/agent/agent.go:132-183 | every request is built from that history and what answer and reserve leave of the context, and only before the turn limit and cancellation |
| AgentMemory.RequestIs | internal/agent/agent.go:160-166 | with no budget the request is the whole history, with one a packing of it |
| AgentMemory.FirstHistoryIs | internal/agent/agent.go:98-115 | a run begins with the system prompt and all messages, or the newest one of the user |
| AgentMemory.RunRemembers | internal/agent/agent.go:132-361 | the conversation handed back is the usable answers with their results and what was pending, in order; without compaction the history is what the run began with and all of these |
| Executor.StepKeeps | internal/agent/speculative.go:81-226 | every step of the coordinator, a worker or a forwarder keeps the invariant |
| Executor.FinishedRun | internal/agent/speculative.go:81-226 | for every interleaving: each call has start, progress, one result in that order; results and starts in submission order; a batch starts only after the earlier results |
| Executor.ProgressIsShown | internal/agent/tools.go:47-76 | for every interleaving, as many progress events of a call have been forwarded as it emitted, as soon as its result is out |
| Executor.UnsafeRunsAlone | internal/agent/speculative.go:81-180 | while an unsafe call runs, every other call has not started or has its result |
| Executor.LimitHolds | internal/agent/speculative.go:124-160 | at most the configured number of calls run at a time |
| Executor.NeverStuck | internal/agent/tools.go:47-76 | until all batches are reported some step other than new progress can be taken, so forwarding progress never blocks the turn |
| Executor.StepCounts | internal/agent/speculative.go:81-226 | every step brings the end of the turn one step closer, except that a new progress event puts it off by one |
| Executor.RunLength | internal/agent/speculative.go:81-226 | every run ends: all batches are reported exactly after five steps a call, three a batch and two a progress event, and no run is longer |
| ExecutorMeaning.EveryCallInOrder | internal/agent/speculative.go:81-226 | in a finished run each call has one start, one call, one return and one result in that order, and all its progress between call and result |
| ExecutorMeaning.ResultsInOrder | internal/agent/speculative.go:81-180 | results stand in submission order, and no call starts before the results of the earlier batches |
| ExecutorMeaning.NeverTooMany | internal/agent/speculative.go:116-140 | never more calls than the limit have been made and not returned |
| ExecutorMeaning.UnsafeIsAlone | internal/agent/speculative.go:81-180 | while an unsafe call runs, every other call has its result or has not been announced |
| Broker.StepKeeps | internal/server/permission.go:49-104 | every step of a prompt, its expiry or a resolve keeps the invariant |
| Broker.AnswerAgrees | internal/server/permission.go:49-104 | an answered prompt has exactly one permission_resolved event, by the one that claimed it; it is allowed if and only if the event says "allow" or "always_allow", its reason is exact, and its approval is recorded if and only if the event says "always_allow" and a session rule can name the call |
| Broker.AnswerHasCause | internal/server/permission.go:49-104 | "approved" and "denied" come from what a user said of this very prompt, "timeout" and "cancelled" from its own timeout and cancellation |
| Broker.ResolvedAtMostOnce | internal/server/events_permission.go:8-30 | no prompt ever has two permission_resolved events |
| Broker.OneWinner | internal/server/permission.go:84-104 | at most one resolve of a prompt reports success |
| Broker.ApprovalsAreDecisions | internal/server/permission.go:94-98 | a rule is recorded at most once for a prompt, for its own tool and target, and only for a winning always_allow |
| Broker.RulesAreApprovals | internal/server/session.go:488-498 | in every run the session's rules match the approved calls and no others |
| Broker.RulesOfLaterRuns | internal/server/session.go:338 | for a run that starts now, everything recorded so far allows the approved calls that no rule decided before, and changes the decision of no other call |
| Broker.AllowedInLaterRuns | internal/server/permission.go:94-98 | after an always_allow the same call is allowed in a run that starts later unless a deny or ask rule decides it, if tool and target have no blank ends and the tool no parenthesis |
| Broker.RankNeverGrows | internal/server/permission.go:49-104 | no step of anyone delays a prompt |
| Broker.PromptProgress | internal/server/events_permission.go:16-30 | until it has returned, a step that brings the prompt closer is enabled: a waiter that lost the claim is always served |
| Watchdog.WatchStream | internal/llm/watchdog.go:62-149 | the select loop, with the warning handler called inside it, computes the specified state for every schedule |
| Watchdog.OutputIsPrefix | internal/llm/watchdog.go:76-145 | the output is a prefix of the input up to the first Done, or a Done-free prefix and one synthetic timeout |
| Watchdog.TimersRespected | internal/llm/watchdog.go:82-132 | a timeout comes no sooner than the idle timeout after the last reset; the warning fires at most once |
| Watchdog.WarningIsDue | internal/llm/watchdog.go:96-107 | a warning fires only when its timeout has passed since the last reset, the handler's own time not counted |
| Watchdog.TimeoutTells | internal/llm/watchdog.go:82-145 | at a timeout the consumer's time over the last event, the waiting and the warning handler's time since add up to the idle timeout at least |
| Watchdog.SlowConsumerTimesOut | internal/llm/watchdog.go:82-145 | for every input whose first event is not the last, a consumer that takes the idle timeout over it can be cut off although the watchdog never waited |
| Watchdog.SlowHandlerTimesOut | internal/llm/watchdog.go:96-107 | so can a consumer slow enough for the warning, when the handler takes the rest of the idle timeout |
| Watchdog.ConsumerLimit | internal/llm/watchdog.go:82-145 | bounds b on the consumer's time over one event and h on the handler's keep every stream that never waits from timing out if and only if b is below the idle timeout, and b + h too when b reaches the warning timeout |
| Watchdog.SameConsumer | internal/agent/stream.go:86-140 | with a bound on one send, n sends over one event and one by the handler: if and only if n sends stay below the warning timeout or n + 1 below the idle timeout |
| Records.SameId | internal/semantic/records.go:34-48 | equal ids come from equal kinds, paths, names, text hashes and lines |
| Records.NotAfterOrders | internal/semantic/records.go:107-137 | the comparison of sortRecords is a total preorder |
| Ordering.BeforeIs | internal/semantic/records.go:116-136 | strings compare by their first difference, and of two equal beginnings the shorter one is less |
| Records.SortedRecords | internal/semantic/records.go:107-137 | sorting keeps the records and puts them in order: by path, folders before files before symbols before sections before chunks, then lines, name and id |
| Records.FileRecordsAreScanned | internal/semantic/scanner.go:219-290 | the records of a file lie at its path, carry its hash and their own id, and hold one file record |
| Records.RecordsOfFile | internal/semantic/scanner.go:219-290 | a file that is not left out yields its own record and one for each symbol, section or chunk, each with that extract's name, lines and trimmed text |
| Records.FoldersAre | internal/semantic/scanner.go:421-470 | the folders are the proper beginnings of the paths |
| Records.ScanWorkspace | internal/semantic/scanner.go:51-355 | a scan holds each record of an included file as often as the file yields it, each folder once, and nothing else, sorted, whatever order workers finish in |
| Records.SameIdSameInput | internal/semantic/service.go:612-622 | scanned records with equal ids are at the same path and embedded alike |
| Records.UniqueInFile | internal/semantic/records.go:34-48 | the ids of a file's records are unique if and only if no two extracts agree in name, text and lines |
| IndexAgreement.ScanIsUnique | internal/semantic/scanner.go:51-355 | when no file yields one id twice and no folder name ends in white space, the ids of a scan are unique |
| IndexAgreement.StoredHashes | internal/semantic/service.go:755-767 | the file hashes read back from an index are those of the files it was made from |
| IndexAgreement.RefreshAgrees | internal/semantic/service.go:298-388 | kept and new records together agree with the new scan: sorted, by id exactly its records, each with the vector of its own text |
| IndexAgreement.AgreementIsExact | internal/semantic/service.go:298-388 | an agreeing index stores an id with a vector, folders aside, if and only if the scan has that id and that vector |
| IndexAgreement.StoredIsScanned | internal/semantic/service.go:298-388 | in an agreeing index each record but a folder's is one that its file yields, in all fields but the droppable texts, next to the vector of its text |
| IndexAgreement.ScannedHasVector | internal/semantic/service.go:612-622 | and each record that a file yields is stored with the vector of its own text and no other |
| IndexRefresh.FileHashesByPath | internal/semantic/service.go:755-767 | every file record with a path and a hash is represented, and nothing else |
| IndexRefresh.CompareHashes | internal/semantic/service.go:301-312 | the changed paths are the added, the modified and the deleted ones |
| IndexRefresh.Keep | internal/semantic/service.go:314-326 | the kept maps hold each unchanged path's records with their own vectors |
| IndexRefresh.Combine | internal/semantic/service.go:351-357 | kept and new records, in any order of the map, sorted |
| IndexRefresh.Align | internal/semantic/service.go:359-378 | each stored record is next to the vector of its id, and none with a vector is lost |
| IndexRefresh.WrittenAgrees | internal/semantic/store.go:250-268 | dropping the previews on disk does not disturb the agreement |
| IndexRefresh.LocalService.EmbedRecords | internal/semantic/service.go:612-684 | one vector per record, in order, over batches of any size: of the record's text, else its preview, else its path; fails only if the embedder fails or mixes dimensions |
| IndexRefresh.LocalService.Replace | internal/semantic/store.go:132-212 | an index is stored exactly when model, dimensions and counts fit, in place of the one with the same id; otherwise nothing changes |
| IndexRefresh.LocalService.Build | internal/semantic/service.go:70-194 | the new index holds the first records of the scan with their vectors, up to the record limit, agrees with the files when the limit was not reached, and has unique ids when the scan has; a failure leaves the store as it was |
| IndexRefresh.LocalService.Refresh | internal/semantic/service.go:196-408 | an index that held its files holds the new ones afterwards, for any mix of added, changed and deleted files, with unique ids when the scan has; unchanged files cost no embedding request |
| IndexRefresh.RefreshedEqualsBuilt | internal/semantic/service.go:196-408 | a refreshed and a freshly built index store the same ids with the same vectors, folders aside |
| IndexCut.RefreshOfCut | internal/semantic/service.go:298-388 | a refresh of an index cut at the record limit, after any changes, holds the whole new scan if and only if no unchanged file was cut behind its file record |
| IndexCut.CompleteIfRecoverable | internal/semantic/service.go:145-148 | with unique ids: if and only if the cut falls between two files or into one that has changed since |
| IndexCut.BuildThenRefresh | internal/semantic/service.go:70-408 | the same of a build and a refresh of the service |
| IndexRefresh.LocalService.LoadIndexData | internal/semantic/service.go:570-602 | the cache never serves anything but the newest stored index |
| IndexRefresh.LocalService.Clear | internal/semantic/store.go:214-224 | the newest index is removed and the cache forgotten; nothing is left if and only if no index of another model or other dimensions was stored |
| IndexRefresh.BuildTwiceThenClear | internal/semantic/store.go:132-224 | after a build with one model and a build with another, clearing brings the index of the first back |
| IndexRefresh.StoredIndexRanks | internal/semantic/search.go:14-153 | on a stored index with unique ids the narrowed ranking is the full one restricted to the candidates |
| Ranking.ScoreCandidateIndices | internal/semantic/search.go:96-153 | the loop and the bounded appends compute the candidates |
| Ranking.CandidatesHold | internal/semantic/search.go:96-153 | candidates are in range and without repeats, at most 512 when narrowed, and hold every forced record when those fit |
| Ranking.CandidatesAre | internal/semantic/search.go:96-213 | all records are scored unless narrowing finds some; then only records that are named, near a named path or share a word with the query, and one of these is left out only when 512 with no worse reason are scored |
| Ranking.ScoreRecords | internal/semantic/search.go:14-94 | the candidates that have a similarity, each once, with the similarity, the weighted lexical score and 0.35 or 0.25 for paths named or touched; the best score first, then path, start line and id |
| Ranking.NotWorseOrders | internal/semantic/search.go:80-92 | the comparison of hits is a total preorder |
| Ranking.ScoringRefinesFullRanking | internal/semantic/search.go:14-153 | with distinct ids the narrowed hit list is the full ranking restricted to the candidates, scores and order included |
| Ranking.DiversifyHits | internal/semantic/search.go:237-270 | the picked hits are the first maxRecords of those that are among the first of their file, their file among the first |
| Ranking.VariedIsGreedy | internal/semantic/search.go:250-268 | a hit is taken unless its file has its share already or would be one file too many |
| Ranking.VariedIsBounded | internal/semantic/search.go:237-270 | at most maxRecords hits, maxPerFile places of a file and maxFiles files |
| LineChunker.LinesOfText | internal/semantic/symbols_generic.go:168-177 | the lines join to the text; each but the last ends with its only line feed, and the last has none |
| LineChunker.FindSpans | internal/semantic/symbols_generic.go:92-127 | the nested loops terminate and keep exactly the spans with text: the set of seen keys never drops one |
| LineChunker.SpansCover | internal/semantic/symbols_generic.go:92-127 | spans start at the first line and end at the last, and consecutive ones overlap by exactly the overlap when the earlier is longer, else by nothing |
| LineChunker.EveryLineCovered | internal/semantic/symbols_generic.go:92-127 | every line lies in a span |
| LineChunker.SpansFit | internal/semantic/symbols_generic.go:92-108 | the text of a span of several lines has at most maxChunkBytes bytes, and a span that stops early would overflow with the next line |
| LineChunker.JoinedHasText | internal/semantic/symbols_generic.go:108 | the joined lines of a span trim to nothing exactly when each of them does, byte for byte |
| LineChunker.NothingLost | internal/semantic/symbols_generic.go:108-119 | a span is kept exactly when one of its lines has some text, and every such line lies in a kept span |
| LineChunker.ChunkFallback | internal/semantic/symbols_generic.go:72-148 | one numbered chunk per kept span, with its lines counted from one and its trimmed text under a line that names it; the defaults for limits that are not positive |
| LineChunker.NamesAreNumbers | internal/semantic/symbols_generic.go:130-134 | a chunk's padded name tells its number |
| LineChunker.NameIs | internal/semantic/symbols_generic.go:130-134 | the name is "chunk-" and the number, padded with zeros to three digits |
| LineChunker.ChunksHaveNoTwins | internal/semantic/symbols_generic.go:129-148 | the numbered chunks of a file and its file record have different ids, whatever they hold |
| LineChunker.FilesHaveNoTwins | internal/semantic/scanner.go:237-282 | ids are unique in every file if and only if no two symbols of a Go file agree in name, text and lines |
| MarkdownSections.FindHeadings | internal/semantic/symbols_generic.go:22-41 | the loop finds every line with a title, in order, and nothing else |
| MarkdownSections.Parent | internal/semantic/symbols_generic.go:53-59 | the backward loop finds the nearest earlier heading of a lower level, or nothing if there is none |
| MarkdownSections.Sections | internal/semantic/symbols_generic.go:19-73 | one section per heading, from its line to the one before the next heading or to the last line, with its parent and the text of its own lines |
| MarkdownSections.SectionsTile | internal/semantic/symbols_generic.go:47-52 | from the first heading on every line lies in exactly one section, and begins it if and only if it is a heading |
| MarkdownSections.SectionsDiffer | internal/semantic/symbols_generic.go:47-73 | no two sections of a file are alike, whatever they hold |
| Utf8.CutNearby | internal/analysis/chunker.go:64-76 | valid UTF-8 can be cut at most three bytes before any position |
| Utf8.ValidMeansEncoded | internal/analysis/chunker.go:64-76 | the valid byte sequences are exactly the encodings of lists of code points |
| ChunkText.SnapToBoundary | internal/analysis/chunker.go:59-77 | the end is behind the last newline far enough in, else before a character, else the window's end |
| ChunkText.ChunkText | internal/analysis/chunker.go:20-57 | chunks are contiguous, non-empty, within the limit; for valid UTF-8 each is valid and all but the last have at least 65 bytes |
| ChunkText.ChunksConcatenate | internal/analysis/chunker.go:20-57 | the chunks' texts, one after the other, are the content |
| ChunkText.ValidChunksOnlyFromValid | internal/analysis/chunker.go:20-57 | chunks that are all valid UTF-8 come from valid content only |
| ChunkText.FewChunks | internal/analysis/chunker.go:20-57 | so n bytes give at most n/65 + 1 chunks |
| Framing.AtoiOfDecimal | internal/mcp/stdio_client.go:154-182 | the printed length parses back |
| Framing.TrimSpaceCuts | internal/mcp/stdio_client.go:163-192 | trimming bytes takes white space from both ends and nothing else |
| Framing.Writer.WriteFrame | internal/mcp/stdio_client.go:154-161 | header and payload are appended to what was written before |
| Framing.Reader.ReadFrame | internal/mcp/stdio_client.go:163-192 | the reading loop consumes and returns what the specification of a frame says, error cases included |
| Framing.FrameRoundTrip | internal/mcp/stdio_client.go:154-192 | reading a written frame gives the trimmed payload and leaves exactly what follows |
| Framing.FramesRoundTrip | internal/mcp/stdio_client.go:154-192 | any number of written frames are read back in order and consumed to the last byte |
| Framing.Reader.AwaitReply | internal/mcp/stdio_client.go:123-151 | the response loop skips what does not decode or answers something else, and checks the deadline before each frame |
| Framing.FirstResponseWins | internal/mcp/stdio_client.go:123-151 | before the deadline a request gets the first response with its id; earlier frames are dropped and later ones left |

## Left out

- DoubleStarMeaning.AllowedDropsAccepted: under the same condition as `GlobIsSomeDrop`, below.
- DoubleStarMeaning.GlobIsSomeDrop: completeness is proved for patterns without a separator in a class, and for all others in which no doubled `**` stands between two empty ranges behind a bracket that does not open a negated class. That every other pattern loses something is false (the class may hold another separator, or be a negated one behind a plain one). One collapse is exact for all patterns (`CollapseIsExact`); the whole of `globMatch`, with several runs and forms, is exact for one family (`BackwardRangeLosesSeparator`).
- SessionRule.SessionRuleIsExact: strings are sequences of runes, so a target that is not valid UTF-8, which Go decodes to replacement characters, is not covered.
- Executor.FinishedRun: uncancelled turns only; after a cancellation events may be dropped. The goroutines are steps on values, not threads sharing memory.
- Broker.AllowedInLaterRuns: the decision is that of the rules; hooks and the permission mode, which can still change it, are left out.
- Broker.AnswerAgrees: a tool or target that no session rule can name gets none, and the next such call asks again, as in the code; the mutex, the map and the channels are steps on values; the panic paths of Go channels are not part of this model.
- Watchdog.OutputIsPrefix: sending the synthetic timeout event, after which nothing follows, takes no time; the timers are a clock that a schedule advances; timer channels are not modelled beyond a tick being ready or not.
- AgentLoop.Agent.Run: the run is followed for a given number of iterations, any number; the heuristics for incomplete answers, hooks and retry prompts, the context size and the summaries are arbitrary. Usage counters and user interface events are left out.
- Packer.PackPromptHistory: message lengths are counted in characters of the model's strings, one per byte; the report's role and mention counters are left out.
- Compaction.Compact: the summary prompt and its request are an optional answer; token counts before and after are left out.
- Records.ScanWorkspace: file contents are a map from clean paths to text; names that normalise to nothing or to each other, and names with line feeds, are left out, as are unreadable files, skip reports and progress. The hash is an arbitrary function that never repeats. The 280-byte preview is cut by characters.
- Records.FileRecordsAreScanned: the extractors, snippets and languages are arbitrary functions; those for chunks and Markdown are modelled on their own in `LineChunker` and `MarkdownSections`, the one for Go, which follows Go's own parser, is not.
- MarkdownSections.Sections: what the heading expression finds in a line, and the text of a range of lines, are arbitrary functions. The path is given normalised.
- IndexRefresh.LocalService.Build: `files` is what the directory walk reports. The walk itself stops at maxRecords files, filtered ones included, and at 16 levels, so a larger workspace is cut before the record limit is reached; agreement is with the files that were reported. Config validation, the root path, the manifest and vector files, schema versions and read errors are left out.
- IndexRefresh.LocalService.Refresh: folder records are outside the claim (the code keeps stale ones); chunk settings are fixed over the life of a service.
- Ranking.ScoreRecords: scores are real numbers, so rounding and NaN are left out; the lexical score, the query's terms and the similarity are arbitrary functions, and vectors are taken to match the records.
- Ranking.ScoringRefinesFullRanking: for indexes with unique record ids, without which the order of equal hits is not determined; `Build` and `Refresh` give them when the extractors yield no id twice in a file.
- LineChunker.ChunkFallback: the path in a chunk's text is given normalised; language and content hash are left out.
- Framing.Reader.ReadFrame: lengths so large that Go cannot allocate the payload are left out; the JSON decoding is an arbitrary function.
- ChunkText.ChunkText: the path and the language of a chunk are left out.
- TurnStream.AccumulateTurn: latencies, token counts and the errors of opening the stream are left out (`AgentLoop` has the latter as a failed answer).
- Retrieval beyond ranking (rendering, stale files, grouping), the terminal and browser interfaces, HTTP handlers, tools themselves, configuration, credentials, the MCP HTTP transport and the Ollama client are not part of this model.
- Mode tables, rule merging and address filters are finite case distinctions and would add only easy members.
