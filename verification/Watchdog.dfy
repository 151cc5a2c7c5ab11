/** The stream watchdog (internal/llm/watchdog.go): a select over cancellation, an idle timer, a
    warning timer and the input, driven by an arbitrary schedule. */
module Watchdog {
  import opened Options
  import opened Conversation

  datatype StreamEvent = StreamEvent(content: string, thinking: string, toolCalls: seq<ToolCall>, done: bool,
                                     doneReason: string)

  /** What the consumer sees: a forwarded event, or the synthetic "watchdog_timeout" one. */
  datatype Output = Forwarded(event: StreamEvent) | TimeoutEvent

  datatype Config = Config(idleTimeout: nat, warningTimeout: nat, hasHandler: bool)

  datatype Choice = Cancel | Idle | Warning | Input

  /** One round of the select: how long it waits, which ready case it takes, how long the consumer takes
      to accept the event, or that cancellation comes first, and how long the warning handler takes. */
  datatype Tick = Tick(wait: nat, choice: Choice, send: nat, accepted: bool, handle: nat)

  datatype End = Running | Cancelled | TimedOut | Closed | Finished

  datatype State = State(
    now: nat,
    lastReset: nat,          // when the timers were last set
    idleAt: nat,
    warnAt: Option<nat>,     // None: no timer, or its tick has been consumed
    warnings: nat,
    consumed: nat,           // events taken from the input
    output: seq<Output>,
    end: End)

  predicate HasWarningTimer(cfg: Config) {
    cfg.hasHandler && cfg.warningTimeout > 0
  }

  function Init(cfg: Config): State {
    State(0, 0, cfg.idleTimeout, if HasWarningTimer(cfg) then Some(cfg.warningTimeout) else None, 0, 0, [], Running)
  }

  /** The round takes the tick of the warning timer. */
  predicate Fires(s: State, t: Tick) {
    t.choice == Warning && s.warnAt.Some? && s.now + t.wait >= s.warnAt.value
  }

  /** One round, or nothing but time when the chosen case is not ready; `closes` tells that the
      input channel is closed after its events. */
  function Round(cfg: Config, input: seq<StreamEvent>, closes: bool, s: State, t: Tick): State {
    if s.end != Running then s
    else
      var now := s.now + t.wait;
      match t.choice
      case Cancel => s.(now := now, end := Cancelled)
      case Idle =>
        if now >= s.idleAt then s.(now := now, output := s.output + [TimeoutEvent], end := TimedOut) else s.(now := now)
      case Warning =>
        if Fires(s, t)
        then s.(now := now + (if s.warnings == 0 then t.handle else 0), warnAt := None,
                warnings := if s.warnings == 0 then 1 else s.warnings)
        else s.(now := now)
      case Input =>
        if s.consumed < |input| then
          var e := input[s.consumed];
          var reset := s.(lastReset := now, idleAt := now + cfg.idleTimeout, consumed := s.consumed + 1,
                          warnAt := if HasWarningTimer(cfg) && s.warnings == 0 then Some(now + cfg.warningTimeout)
                                    else s.warnAt);
          if t.accepted
          then reset.(now := now + t.send, output := s.output + [Forwarded(e)],
                      end := if e.done then Finished else Running)
          else reset.(now := now + t.send, end := Cancelled)
        else s.(now := now, end := if closes then Closed else Running)
  }

  function Watched(cfg: Config, input: seq<StreamEvent>, closes: bool, schedule: seq<Tick>): State {
    if schedule == [] then Init(cfg)
    else
      var n := |schedule| - 1;
      Round(cfg, input, closes, Watched(cfg, input, closes, schedule[..n]), schedule[n])
  }

  /** The input case of the select: reset the timers, then forward the event. */
  method OnInput(cfg: Config, input: seq<StreamEvent>, closes: bool, s: State, t: Tick) returns (s': State)
    requires s.end == Running && t.choice == Input && (s.warnAt.Some? ==> cfg.hasHandler)
    ensures s' == Round(cfg, input, closes, s, t) && (s'.warnAt.Some? ==> cfg.hasHandler)
  {
    s' := s.(now := s.now + t.wait);
    if s.consumed >= |input| {
      if closes {
        s' := s'.(end := Closed);
      }
      return;
    }
    var event := input[s.consumed];
    s' := s'.(consumed := s.consumed + 1, lastReset := s'.now, idleAt := s'.now + cfg.idleTimeout);
    if cfg.hasHandler && cfg.warningTimeout > 0 && s.warnings == 0 {
      s' := s'.(warnAt := Some(s'.now + cfg.warningTimeout));
    }
    s' := s'.(now := s'.now + t.send);
    if !t.accepted {
      return s'.(end := Cancelled);
    }
    s' := s'.(output := s'.output + [Forwarded(event)]);
    if event.done {
      s' := s'.(end := Finished);
    }
  }

  /** WatchStream. */
  method WatchStream(cfg: Config, input: seq<StreamEvent>, closes: bool, schedule: seq<Tick>) returns (s: State)
    ensures s == Watched(cfg, input, closes, schedule)
  {
    s := State(0, 0, cfg.idleTimeout, None, 0, 0, [], Running);
    if cfg.hasHandler && cfg.warningTimeout > 0 {
      s := s.(warnAt := Some(cfg.warningTimeout));
    }
    for i := 0 to |schedule|
      invariant s == Watched(cfg, input, closes, schedule[..i])
      invariant s.warnAt.Some? ==> cfg.hasHandler
    {
      var t := schedule[i];
      assert schedule[..i + 1][..i] == schedule[..i];
      if s.end != Running {
        continue;
      }
      match t.choice {
        case Cancel =>
          s := s.(now := s.now + t.wait, end := Cancelled);
        case Idle =>
          s := s.(now := s.now + t.wait);
          if s.now >= s.idleAt {
            s := s.(output := s.output + [TimeoutEvent], end := TimedOut);
          }
        case Warning =>
          s := s.(now := s.now + t.wait);
          if s.warnAt.Some? && s.now >= s.warnAt.value {
            s := s.(warnAt := None);
            if s.warnings == 0 && cfg.hasHandler {
              // the handler runs inside the select loop
              s := s.(now := s.now + t.handle, warnings := 1);
            }
          }
        case Input =>
          s := OnInput(cfg, input, closes, s, t);
      }
    }
    assert schedule[..|schedule|] == schedule;
  }

  // ----- What every schedule keeps -----

  function Forwards(events: seq<StreamEvent>): (r: seq<Output>)
    ensures |r| == |events|
  {
    seq(|events|, i requires 0 <= i < |events| => Forwarded(events[i]))
  }

  predicate DoneFree(events: seq<StreamEvent>) {
    forall i :: 0 <= i < |events| ==> !events[i].done
  }

  ghost predicate Inv(cfg: Config, input: seq<StreamEvent>, s: State) {
    && s.consumed <= |input|
    && s.lastReset <= s.now && s.idleAt == s.lastReset + cfg.idleTimeout
    && s.warnings <= 1 && (s.warnings == 1 ==> HasWarningTimer(cfg) && s.warnAt.None?)
    && (s.warnAt.Some? ==> HasWarningTimer(cfg) && s.warnAt.value == s.lastReset + cfg.warningTimeout)
    && match s.end
       case Running => s.output == Forwards(input[..s.consumed]) && DoneFree(input[..s.consumed])
       case Closed => s.output == Forwards(input) && s.consumed == |input| && DoneFree(input)
       case TimedOut => s.output == Forwards(input[..s.consumed]) + [TimeoutEvent] && DoneFree(input[..s.consumed])
                        && s.now - s.lastReset >= cfg.idleTimeout
       case Finished => s.consumed > 0 && s.output == Forwards(input[..s.consumed])
                        && DoneFree(input[..s.consumed - 1]) && input[s.consumed - 1].done
       case Cancelled => (exists n :: s.consumed - 1 <= n <= s.consumed && 0 <= n && s.output == Forwards(input[..n])
                                      && DoneFree(input[..n]))
  }

  lemma {:induction false} OneMoreForward(input: seq<StreamEvent>, n: nat)
    requires n < |input|
    ensures Forwards(input[..n + 1]) == Forwards(input[..n]) + [Forwarded(input[n])]
    ensures DoneFree(input[..n]) && !input[n].done ==> DoneFree(input[..n + 1])
  {
    assert input[..n + 1] == input[..n] + [input[n]];
  }

  lemma {:induction false} InputKeeps(cfg: Config, input: seq<StreamEvent>, closes: bool, s: State, t: Tick)
    requires Inv(cfg, input, s) && s.end == Running && t.choice == Input
    ensures Inv(cfg, input, Round(cfg, input, closes, s, t))
  {
    var n := s.consumed;
    if n < |input| {
      OneMoreForward(input, n);
      assert 0 <= n && s.output == Forwards(input[..n]);
    } else {
      assert input[..n] == input;
    }
  }

  lemma {:induction false} RoundKeeps(cfg: Config, input: seq<StreamEvent>, closes: bool, s: State, t: Tick)
    requires Inv(cfg, input, s)
    ensures Inv(cfg, input, Round(cfg, input, closes, s, t))
  {
    if s.end == Running && t.choice == Input {
      InputKeeps(cfg, input, closes, s, t);
    } else if s.end == Running {
      assert 0 <= s.consumed && s.output == Forwards(input[..s.consumed]);
    }
  }

  lemma {:induction false} AlwaysInv(cfg: Config, input: seq<StreamEvent>, closes: bool, schedule: seq<Tick>)
    ensures Inv(cfg, input, Watched(cfg, input, closes, schedule))
    decreases |schedule|
  {
    if schedule == [] {
      assert Forwards(input[..0]) == [];
    } else {
      var n := |schedule| - 1;
      AlwaysInv(cfg, input, closes, schedule[..n]);
      RoundKeeps(cfg, input, closes, Watched(cfg, input, closes, schedule[..n]), schedule[n]);
    }
  }

  /** Over every schedule, what the consumer has seen is a prefix of the input that has no Done event
      before its last one, or a prefix without any followed by one synthetic timeout. */
  lemma {:induction false} OutputIsPrefix(cfg: Config, input: seq<StreamEvent>, closes: bool, schedule: seq<Tick>)
    returns (n: nat)
    ensures var s := Watched(cfg, input, closes, schedule);
            && n <= |input|
            && s.output == Forwards(input[..n]) + (if s.end == TimedOut then [TimeoutEvent] else [])
            && DoneFree(if s.end == Finished && n > 0 then input[..n - 1] else input[..n])
            && (s.end == Finished <==> n > 0 && input[n - 1].done)
            && (s.end == Closed ==> n == |input|)
  {
    AlwaysInv(cfg, input, closes, schedule);
    var s := Watched(cfg, input, closes, schedule);
    if s.end == Cancelled {
      n :| s.consumed - 1 <= n <= s.consumed && 0 <= n && s.output == Forwards(input[..n]) && DoneFree(input[..n]);
      assert n > 0 ==> input[n - 1] == input[..n][n - 1];
    } else {
      n := s.consumed;
      assert n > 0 ==> input[n - 1] == input[..n][n - 1];
      assert s.end == Closed ==> input[..n] == input;
    }
    assert Forwards(input[..n]) + [] == Forwards(input[..n]);
  }

  /** The timeout comes no sooner than idleTimeout after the timers were last set, and the warning
      at most once and only when it is configured. */
  lemma {:induction false} TimersRespected(cfg: Config, input: seq<StreamEvent>, closes: bool, schedule: seq<Tick>)
    ensures var s := Watched(cfg, input, closes, schedule);
            && (TimeoutEvent in s.output ==> s.end == TimedOut && s.now >= s.lastReset + cfg.idleTimeout)
            && s.warnings <= 1
            && (s.warnings == 1 ==> HasWarningTimer(cfg))
  {
    AlwaysInv(cfg, input, closes, schedule);
  }

  /** A warning is fired only when warningTimeout has passed since the timers were last set, before its
      handler begins. */
  lemma {:induction false} WarningIsDue(cfg: Config, input: seq<StreamEvent>, closes: bool, schedule: seq<Tick>,
                                        t: Tick)
    ensures var s, s' := Watched(cfg, input, closes, schedule), Watched(cfg, input, closes, schedule + [t]);
            s'.warnings > s.warnings ==> s.warnings == 0 && s'.now >= s.lastReset + cfg.warningTimeout + t.handle
  {
    AlwaysInv(cfg, input, closes, schedule);
    OneMoreRound(cfg, input, closes, schedule, t);
  }

  // ----- What a timeout tells -----

  /** How long the select has waited since the timers were last set. */
  function Waited(cfg: Config, input: seq<StreamEvent>, closes: bool, schedule: seq<Tick>): nat {
    if schedule == [] then 0
    else
      var n := |schedule| - 1;
      var s, t := Watched(cfg, input, closes, schedule[..n]), schedule[n];
      if s.end != Running then Waited(cfg, input, closes, schedule[..n])
      else if t.choice == Input && s.consumed < |input| then 0
      else Waited(cfg, input, closes, schedule[..n]) + t.wait
  }

  /** How long the consumer took over the event that last set the timers. */
  function Sent(cfg: Config, input: seq<StreamEvent>, closes: bool, schedule: seq<Tick>): nat {
    if schedule == [] then 0
    else
      var n := |schedule| - 1;
      var s, t := Watched(cfg, input, closes, schedule[..n]), schedule[n];
      if s.end == Running && t.choice == Input && s.consumed < |input| then t.send
      else Sent(cfg, input, closes, schedule[..n])
  }

  /** How long the warning handler took since the timers were last set. */
  function Handled(cfg: Config, input: seq<StreamEvent>, closes: bool, schedule: seq<Tick>): nat {
    if schedule == [] then 0
    else
      var n := |schedule| - 1;
      var s, t := Watched(cfg, input, closes, schedule[..n]), schedule[n];
      if s.end != Running then Handled(cfg, input, closes, schedule[..n])
      else if t.choice == Input && s.consumed < |input| then 0
      else Handled(cfg, input, closes, schedule[..n]) + (if Fires(s, t) && s.warnings == 0 then t.handle else 0)
  }

  /** The time since the timers were last set is the consumer's time over the last event, the waiting
      after it and the warning handler's time, and nothing else. */
  lemma {:induction false} TimeSinceReset(cfg: Config, input: seq<StreamEvent>, closes: bool, schedule: seq<Tick>)
    ensures var s := Watched(cfg, input, closes, schedule);
            s.now == s.lastReset + Sent(cfg, input, closes, schedule) + Waited(cfg, input, closes, schedule)
                     + Handled(cfg, input, closes, schedule)
    decreases |schedule|
  {
    if schedule != [] {
      TimeSinceReset(cfg, input, closes, schedule[..|schedule| - 1]);
    }
  }

  /** A timeout tells that the consumer's time over the last event, the waiting for the next one and the
      handler's time add up to idleTimeout: it does not tell that the model was silent for so long. */
  lemma {:induction false} TimeoutTells(cfg: Config, input: seq<StreamEvent>, closes: bool, schedule: seq<Tick>)
    requires Watched(cfg, input, closes, schedule).end == TimedOut
    ensures Sent(cfg, input, closes, schedule) + Waited(cfg, input, closes, schedule)
            + Handled(cfg, input, closes, schedule) >= cfg.idleTimeout
  {
    AlwaysInv(cfg, input, closes, schedule);
    TimeSinceReset(cfg, input, closes, schedule);
  }

  /** The consumer never takes longer than b over an event, nor the warning handler longer than h. */
  predicate Within(schedule: seq<Tick>, b: nat, h: nat) {
    forall k :: 0 <= k < |schedule| ==> schedule[k].send <= b && schedule[k].handle <= h
  }

  /** The select never has to wait: whenever it comes round, something is ready, as it is when the model
      has always sent its next event in time. */
  predicate NoWait(schedule: seq<Tick>) {
    forall k :: 0 <= k < |schedule| ==> schedule[k].wait == 0
  }

  /** Without waiting, only the handler can add to the consumer's time over an event, and only when that
      time lets the warning fire. */
  lemma {:induction false} PromptSends(cfg: Config, input: seq<StreamEvent>, closes: bool, schedule: seq<Tick>,
                                       b: nat, h: nat)
    requires Within(schedule, b, h) && NoWait(schedule)
    ensures var s := Watched(cfg, input, closes, schedule);
            && s.now <= s.lastReset + b + (if s.warnings == 1 then h else 0)
            && (s.warnings == 1 ==> HasWarningTimer(cfg) && cfg.warningTimeout <= b)
    decreases |schedule|
  {
    if schedule != [] {
      var before := schedule[..|schedule| - 1];
      PromptSends(cfg, input, closes, before, b, h);
      AlwaysInv(cfg, input, closes, before);
    }
  }

  /** A consumer that takes idleTimeout over one event can be cut off although the select never waited,
      whatever the model has sent next. */
  lemma {:induction false} SlowConsumerTimesOut(cfg: Config, first: StreamEvent, rest: seq<StreamEvent>, closes: bool)
    returns (schedule: seq<Tick>)
    requires !first.done
    ensures NoWait(schedule) && Within(schedule, cfg.idleTimeout, 0)
    ensures Watched(cfg, [first] + rest, closes, schedule).end == TimedOut
    ensures Watched(cfg, [first] + rest, closes, schedule).output == [Forwarded(first), TimeoutEvent]
  {
    var input, a, b := [first] + rest, Tick(0, Input, cfg.idleTimeout, true, 0), Tick(0, Idle, 0, true, 0);
    schedule := [a, b];
    OneMoreRound(cfg, input, closes, [], a);
    OneMoreRound(cfg, input, closes, [a], b);
    assert [] + [a] == [a] && [a] + [b] == schedule;
    assert Watched(cfg, input, closes, [a]).output == [Forwarded(first)];
    assert Watched(cfg, input, closes, schedule).output == [Forwarded(first), TimeoutEvent];
  }

  lemma {:induction false} OneMoreRound(cfg: Config, input: seq<StreamEvent>, closes: bool, schedule: seq<Tick>,
                                        t: Tick)
    ensures Watched(cfg, input, closes, schedule + [t])
         == Round(cfg, input, closes, Watched(cfg, input, closes, schedule), t)
  {
    assert (schedule + [t])[..|schedule|] == schedule;
  }

  /** The first event, accepted after b. */
  lemma {:induction false} FirstSent(cfg: Config, first: StreamEvent, rest: seq<StreamEvent>, closes: bool, b: nat)
    requires !first.done && HasWarningTimer(cfg)
    ensures Watched(cfg, [first] + rest, closes, [Tick(0, Input, b, true, 0)]) ==
            State(b, 0, cfg.idleTimeout, Some(cfg.warningTimeout), 0, 1, [Forwarded(first)], Running)
  {
    OneMoreRound(cfg, [first] + rest, closes, [], Tick(0, Input, b, true, 0));
    assert [] + [Tick(0, Input, b, true, 0)] == [Tick(0, Input, b, true, 0)];
  }

  /** So can one that is slow enough for the warning, when the handler then takes the rest of idleTimeout. */
  lemma {:induction false} SlowHandlerTimesOut(cfg: Config, first: StreamEvent, rest: seq<StreamEvent>, closes: bool,
                                               b: nat, h: nat) returns (schedule: seq<Tick>)
    requires !first.done && HasWarningTimer(cfg) && cfg.warningTimeout <= b && b + h >= cfg.idleTimeout
    ensures NoWait(schedule) && Within(schedule, b, h)
    ensures Watched(cfg, [first] + rest, closes, schedule).end == TimedOut
  {
    var a, warning, idle := Tick(0, Input, b, true, 0), Tick(0, Warning, 0, true, h), Tick(0, Idle, 0, true, 0);
    FirstSent(cfg, first, rest, closes, b);
    OneMoreRound(cfg, [first] + rest, closes, [a], warning);
    OneMoreRound(cfg, [first] + rest, closes, [a] + [warning], idle);
    schedule := [a] + [warning] + [idle];
  }

  /** A consumer within b and a handler within h can together use up idleTimeout. */
  predicate CanBlock(cfg: Config, b: nat, h: nat) {
    b >= cfg.idleTimeout || (HasWarningTimer(cfg) && cfg.warningTimeout <= b && b + h >= cfg.idleTimeout)
  }

  /** Exactly when no timeout can be the consumer's or the handler's doing: the bounds keep a stream that
      never waits from timing out, for all inputs and schedules, if and only if they cannot use up
      idleTimeout. */
  lemma {:induction false} ConsumerLimit(cfg: Config, b: nat, h: nat)
    ensures !CanBlock(cfg, b, h) <==>
            forall input, closes, schedule :: Within(schedule, b, h) && NoWait(schedule)
                                              ==> Watched(cfg, input, closes, schedule).end != TimedOut
  {
    var event := StreamEvent("", "", [], false, "");
    if b >= cfg.idleTimeout {
      var schedule := SlowConsumerTimesOut(cfg, event, [], true);
      assert Within(schedule, b, h) && NoWait(schedule);
    } else if CanBlock(cfg, b, h) {
      var schedule := SlowHandlerTimesOut(cfg, event, [], true, b, h);
      assert Within(schedule, b, h) && NoWait(schedule);
    } else {
      forall input, closes, schedule | Within(schedule, b, h) && NoWait(schedule)
        ensures Watched(cfg, input, closes, schedule).end != TimedOut
      {
        PromptSends(cfg, input, closes, schedule, b, h);
        AlwaysInv(cfg, input, closes, schedule);
      }
    }
  }

  /** The agent's handler sends once, to the consumer that is sent up to n signals for one event. When no
      send takes more than c, neither can be at fault exactly when n sends stay below the warning timeout,
      or n + 1 below the idle one. The agent's n is three: first token, text and thinking. */
  lemma {:induction false} SameConsumer(cfg: Config, n: nat, c: nat)
    requires HasWarningTimer(cfg) && cfg.warningTimeout < cfg.idleTimeout
    ensures n * c < cfg.warningTimeout || (n + 1) * c < cfg.idleTimeout <==>
            forall input, closes, schedule :: Within(schedule, n * c, c) && NoWait(schedule)
                                              ==> Watched(cfg, input, closes, schedule).end != TimedOut
  {
    var b: nat := n * c;
    assert (n + 1) * c == b + c;
    ConsumerLimit(cfg, b, c);
  }
}
