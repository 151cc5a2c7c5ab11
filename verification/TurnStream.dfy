/** Reading one model turn from its stream and running the tool calls it ends with
    (internal/agent/stream.go). */
module TurnStream {
  import opened Conversation
  import opened ToolTurn
  import opened Watchdog

  /** What the turn tells the user interface and the model server, in order. */
  datatype Signal =
    | FirstToken | TextDelta(content: string) | ThinkingDelta(thinking: string) | RequestReleased | ToolsRun(count: nat)

  /** The event that a consumer reads for an output of the watchdog. */
  function EventOf(o: Output): StreamEvent {
    match o
    case Forwarded(e) => e
    case TimeoutEvent => StreamEvent("", "", [], true, "watchdog_timeout")
  }

  function EventsOf(output: seq<Output>): (es: seq<StreamEvent>)
    ensures |es| == |output| && forall i :: 0 <= i < |es| ==> es[i] == EventOf(output[i])
  {
    seq(|output|, i requires 0 <= i < |output| => EventOf(output[i]))
  }

  // ----- What a turn amounts to -----

  function Texts(es: seq<StreamEvent>): string {
    if es == [] then "" else Texts(es[..|es| - 1]) + es[|es| - 1].content
  }

  function Thoughts(es: seq<StreamEvent>): string {
    if es == [] then "" else Thoughts(es[..|es| - 1]) + es[|es| - 1].thinking
  }

  /** The calls of the latest event that carries any. */
  function LatestCalls(es: seq<StreamEvent>): seq<ToolCall> {
    if es == [] then []
    else if es[|es| - 1].toolCalls != [] then es[|es| - 1].toolCalls
    else LatestCalls(es[..|es| - 1])
  }

  /** The reason of the latest Done event. */
  function Reason(es: seq<StreamEvent>): string {
    if es == [] then ""
    else if es[|es| - 1].done then es[|es| - 1].doneReason
    else Reason(es[..|es| - 1])
  }

  predicate IsToken(e: StreamEvent) {
    e.content != "" || e.thinking != "" || e.toolCalls != []
  }

  predicate AnyToken(es: seq<StreamEvent>) {
    exists i :: 0 <= i < |es| && IsToken(es[i])
  }

  /** The signals of one event; `started` tells that a token has come before it. */
  function SignalsOf(e: StreamEvent, started: bool): (signals: seq<Signal>)
    ensures |signals| <= 3
    ensures |signals| == 3 <==> !started && e.content != "" && e.thinking != ""
  {
    (if !started && IsToken(e) then [FirstToken] else [])
    + (if e.content != "" then [TextDelta(e.content)] else [])
    + (if e.thinking != "" then [ThinkingDelta(e.thinking)] else [])
  }

  /** One event is shown by these signals. */
  lemma {:induction false} SignalsAre(e: StreamEvent, started: bool)
    ensures var signals := SignalsOf(e, started);
      && (FirstToken in signals <==> !started && (e.content != "" || e.thinking != "" || e.toolCalls != []))
      && (TextDelta(e.content) in signals <==> e.content != "")
      && (ThinkingDelta(e.thinking) in signals <==> e.thinking != "")
  {
  }

  function Signals(es: seq<StreamEvent>): seq<Signal> {
    if es == [] then []
    else Signals(es[..|es| - 1]) + SignalsOf(es[|es| - 1], AnyToken(es[..|es| - 1]))
  }

  function AssistantMessage(es: seq<StreamEvent>): Message {
    Message(Assistant, Texts(es), Thoughts(es), LatestCalls(es), "")
  }

  lemma {:induction false} Joining(a: string, b: string, c: string)
    ensures (a + b) + c == a + (b + c)
  {
  }

  /** Text and thinking are those of the events, one after the other. */
  lemma {:induction false} TextsConcat(a: seq<StreamEvent>, b: seq<StreamEvent>)
    ensures Texts(a + b) == Texts(a) + Texts(b)
    decreases |b|
  {
    if b == [] {
      assert a + b == a;
    } else {
      var n := |b| - 1;
      TextsConcat(a, b[..n]);
      assert (a + b)[..|a + b| - 1] == a + b[..n];
      Joining(Texts(a), Texts(b[..n]), b[n].content);
    }
  }

  lemma {:induction false} ThoughtsConcat(a: seq<StreamEvent>, b: seq<StreamEvent>)
    ensures Thoughts(a + b) == Thoughts(a) + Thoughts(b)
    decreases |b|
  {
    if b == [] {
      assert a + b == a;
    } else {
      var n := |b| - 1;
      ThoughtsConcat(a, b[..n]);
      assert (a + b)[..|a + b| - 1] == a + b[..n];
      Joining(Thoughts(a), Thoughts(b[..n]), b[n].thinking);
    }
  }

  lemma {:induction false} TextOfOne(e: StreamEvent)
    ensures Texts([e]) == e.content && Thoughts([e]) == e.thinking
  {
    assert [e][..0] == [];
  }

  /** The calls are those of the last event that has any. */
  lemma {:induction false} LatestAre(es: seq<StreamEvent>)
    ensures LatestCalls(es) == [] <==> forall i :: 0 <= i < |es| ==> es[i].toolCalls == []
    ensures LatestCalls(es) != [] ==>
      exists i :: 0 <= i < |es| && es[i].toolCalls == LatestCalls(es)
                  && forall j :: i < j < |es| ==> es[j].toolCalls == []
  {
    if es != [] && es[|es| - 1].toolCalls == [] { LatestAre(es[..|es| - 1]); }
  }

  /** The reason is that of the last event that says that it is done. */
  lemma {:induction false} ReasonIs(es: seq<StreamEvent>)
    ensures (forall i :: 0 <= i < |es| ==> !es[i].done) ==> Reason(es) == ""
    ensures (exists i :: 0 <= i < |es| && es[i].done) ==>
      exists i :: 0 <= i < |es| && es[i].done && es[i].doneReason == Reason(es)
                  && forall j :: i < j < |es| ==> !es[j].done
  {
    if es != [] && !es[|es| - 1].done { ReasonIs(es[..|es| - 1]); }
  }

  /** Everything read from the stream so far. */
  datatype Reading = Reading(content: string, thinking: string, toolCalls: seq<ToolCall>, doneReason: string,
                             firstTokenSent: bool, signals: seq<Signal>)

  function ReadingOf(es: seq<StreamEvent>): Reading {
    Reading(Texts(es), Thoughts(es), LatestCalls(es), Reason(es), AnyToken(es), Signals(es))
  }

  function Extended(r: Reading, e: StreamEvent): Reading {
    Reading(r.content + e.content, r.thinking + e.thinking, if e.toolCalls != [] then e.toolCalls else r.toolCalls,
            if e.done then e.doneReason else r.doneReason, r.firstTokenSent || IsToken(e),
            r.signals + SignalsOf(e, r.firstTokenSent))
  }

  lemma {:induction false} AnyTokenSnoc(es: seq<StreamEvent>, e: StreamEvent)
    ensures AnyToken(es + [e]) <==> AnyToken(es) || IsToken(e)
  {
    var more := es + [e];
    assert more[|es|] == e;
    assert forall i :: 0 <= i < |es| ==> more[i] == es[i];
  }

  lemma {:induction false} OneMoreEvent(es: seq<StreamEvent>, e: StreamEvent)
    ensures ReadingOf(es + [e]) == Extended(ReadingOf(es), e)
  {
    assert (es + [e])[..|es|] == es;
    AnyTokenSnoc(es, e);
  }

  /** One event of the stream. */
  method ReadEvent(r: Reading, event: StreamEvent) returns (next: Reading)
    ensures next == Extended(r, event)
  {
    next := r;
    if !next.firstTokenSent && (event.content != "" || event.thinking != "" || event.toolCalls != []) {
      next := next.(firstTokenSent := true, signals := next.signals + [FirstToken]);
    }
    if event.content != "" {
      next := next.(content := next.content + event.content, signals := next.signals + [TextDelta(event.content)]);
    }
    if event.thinking != "" {
      next := next.(thinking := next.thinking + event.thinking,
                    signals := next.signals + [ThinkingDelta(event.thinking)]);
    }
    if event.toolCalls != [] {
      next := next.(toolCalls := event.toolCalls);
    }
    if event.done {
      next := next.(doneReason := event.doneReason);
    }
    assert next.signals == r.signals + SignalsOf(event, r.firstTokenSent);
  }

  /** The loop over the stream. */
  method ReadStream(events: seq<StreamEvent>) returns (r: Reading)
    ensures r == ReadingOf(events)
  {
    r := Reading("", "", [], "", false, []);
    for k := 0 to |events|
      invariant r == ReadingOf(events[..k])
    {
      OneMoreEvent(events[..k], events[k]);
      assert events[..k + 1] == events[..k] + [events[k]];
      r := ReadEvent(r, events[k]);
    }
    assert events[..|events|] == events;
  }

  /** accumulateTurn: the request is released after the whole stream is read and before any tool runs. */
  method AccumulateTurn(runner: ToolRunner, events: seq<StreamEvent>, outcomes: seq<Outcome>)
    returns (message: Message, results: History, doneReason: string, signals: seq<Signal>)
    requires |outcomes| == |LatestCalls(events)|
    modifies runner
    ensures message == Message(Assistant, Texts(events), Thoughts(events), LatestCalls(events), "")
    ensures doneReason == Reason(events)
    ensures results == Replies(message.toolCalls, outcomes) && AreReplies(message.toolCalls, outcomes, results)
    ensures Paired([message] + results)
    ensures signals == Signals(events) + [RequestReleased]
                       + (if message.toolCalls == [] then [] else [ToolsRun(|results|)])
  {
    var r := ReadStream(events);
    doneReason, signals := r.doneReason, r.signals + [RequestReleased];
    message := Message(Assistant, r.content, r.thinking, r.toolCalls, "");
    results := [];
    if r.toolCalls != [] {
      var count;
      results, count := runner.ExecuteToolCalls(r.toolCalls, outcomes);
      signals := signals + [ToolsRun(|results|)];
    }
    assert results == Replies(r.toolCalls, outcomes);
    RepliesAnswer(r.toolCalls, outcomes);
    PairedTurn(message, results);
  }

  // ----- The user interface sees the message -----

  /** The deltas of the signals, joined. */
  function Shown(signals: seq<Signal>): string {
    if signals == [] then ""
    else Shown(signals[..|signals| - 1]) + match signals[|signals| - 1] case TextDelta(c) => c case _ => ""
  }

  function FirstTokens(signals: seq<Signal>): nat {
    if signals == [] then 0
    else FirstTokens(signals[..|signals| - 1]) + if signals[|signals| - 1].FirstToken? then 1 else 0
  }

  lemma {:induction false} ShownConcat(a: seq<Signal>, b: seq<Signal>)
    ensures Shown(a + b) == Shown(a) + Shown(b)
  {
    if b == [] {
      assert a + b == a;
    } else {
      var last := |b| - 1;
      assert (a + b)[..|a + b| - 1] == a + b[..last];
      ShownConcat(a, b[..last]);
      AppendTwice(Shown(a), Shown(b[..last]), match b[last] case TextDelta(c) => c case _ => "");
    }
  }

  lemma {:induction false} AppendTwice(a: string, b: string, c: string)
    ensures (a + b) + c == a + (b + c)
  {
  }

  lemma {:induction false} FirstTokensConcat(a: seq<Signal>, b: seq<Signal>)
    ensures FirstTokens(a + b) == FirstTokens(a) + FirstTokens(b)
  {
    if b == [] {
      assert a + b == a;
    } else {
      var last := |b| - 1;
      assert (a + b)[..|a + b| - 1] == a + b[..last];
      FirstTokensConcat(a, b[..last]);
    }
  }

  lemma {:induction false} OneSignal(s: Signal)
    ensures Shown([s]) == (match s case TextDelta(c) => c case _ => "")
    ensures FirstTokens([s]) == if s.FirstToken? then 1 else 0
  {
    assert [s][..0] == [];
  }

  lemma {:induction false} SignalsOfOne(e: StreamEvent, started: bool)
    ensures Shown(SignalsOf(e, started)) == e.content
    ensures FirstTokens(SignalsOf(e, started)) == if !started && IsToken(e) then 1 else 0
  {
    var a := if !started && IsToken(e) then [FirstToken] else [];
    var b := if e.content != "" then [TextDelta(e.content)] else [];
    var c := if e.thinking != "" then [ThinkingDelta(e.thinking)] else [];
    OneSignal(FirstToken);
    OneSignal(TextDelta(e.content));
    OneSignal(ThinkingDelta(e.thinking));
    ShownConcat(a, b);
    ShownConcat(a + b, c);
    FirstTokensConcat(a, b);
    FirstTokensConcat(a + b, c);
  }

  /** The text deltas shown to the user add up to the message's content, and the first token is
      announced once, exactly when there is one. */
  lemma {:induction false} DeltasAreTheMessage(es: seq<StreamEvent>)
    ensures Shown(Signals(es)) == AssistantMessage(es).content
    ensures FirstTokens(Signals(es)) == if AnyToken(es) then 1 else 0
  {
    if es != [] {
      var last := |es| - 1;
      var before, e := es[..last], es[last];
      DeltasAreTheMessage(before);
      SignalsOfOne(e, AnyToken(before));
      ShownConcat(Signals(before), SignalsOf(e, AnyToken(before)));
      FirstTokensConcat(Signals(before), SignalsOf(e, AnyToken(before)));
      AnyTokenSnoc(before, e);
      assert before + [e] == es;
    }
  }

  // ----- Behind the watchdog -----

  lemma {:induction false} TextsOfPrefix(es: seq<StreamEvent>, n: nat)
    requires n <= |es|
    ensures Texts(es[..n]) <= Texts(es)
    decreases |es|
  {
    if n < |es| {
      var fewer := es[..|es| - 1];
      TextsOfPrefix(fewer, n);
      assert fewer[..n] == es[..n];
    } else {
      assert es[..n] == es;
    }
  }

  lemma {:induction false} EventsOfForwards(input: seq<StreamEvent>)
    ensures EventsOf(Forwards(input)) == input
  {
  }

  lemma {:induction false} NotDone(es: seq<StreamEvent>)
    requires DoneFree(es)
    ensures Reason(es) == ""
  {
    if es != [] { NotDone(es[..|es| - 1]); }
  }

  lemma {:induction false} AddTimeout(es: seq<StreamEvent>)
    ensures var more := es + [EventOf(TimeoutEvent)];
      Texts(more) == Texts(es) && LatestCalls(more) == LatestCalls(es) && Reason(more) == "watchdog_timeout"
  {
    var more := es + [EventOf(TimeoutEvent)];
    assert more[..|more| - 1] == es;
    assert Texts(es) + "" == Texts(es);
  }

  /** Behind the watchdog, under every schedule: the turn is that of a prefix of what the model sent, so
      its text is a prefix of the model's; and it ends for the reason "watchdog_timeout" when the
      watchdog gave up, for the model's own reason when its last event came through, else for none. */
  lemma {:induction false} WatchedTurn(cfg: Config, input: seq<StreamEvent>, closes: bool, schedule: seq<Tick>)
    returns (n: nat)
    ensures n <= |input|
    ensures var s := Watched(cfg, input, closes, schedule);
      var es := EventsOf(s.output);
      Texts(es) == Texts(input[..n]) && Texts(es) <= Texts(input) && LatestCalls(es) == LatestCalls(input[..n])
      && Reason(es) == (if s.end == TimedOut then "watchdog_timeout"
                        else if s.end == End.Finished && n > 0 then input[n - 1].doneReason else "")
  {
    n := OutputIsPrefix(cfg, input, closes, schedule);
    var s, part := Watched(cfg, input, closes, schedule), input[..n];
    TextsOfPrefix(input, n);
    EventsOfForwards(part);
    if s.end == TimedOut {
      assert EventsOf(s.output) == part + [EventOf(TimeoutEvent)];
      AddTimeout(part);
    } else {
      assert s.output == Forwards(part);
      if s.end == End.Finished {
        assert part[|part| - 1] == input[n - 1];
      } else {
        NotDone(part);
      }
    }
  }
}
