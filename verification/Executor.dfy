/** The concurrent executor of a turn's tool calls (internal/agent/speculative.go, tools.go), as
    steps of the coordinating goroutine, the workers and their progress forwarders. A run is any
    sequence of enabled steps of an uncancelled turn. */
module Executor {
  import opened Options
  import opened Batches

  datatype Call = Call(id: nat, safe: bool)

  /** What a run leaves in its trace: the three kinds of event sent to the consumer, and the moments
      at which a tool starts and returns. */
  datatype Event = Start(id: nat) | Called(id: nat) | Progress(id: nat) | Returned(id: nat) | Result(id: nat)

  /** One goroutine of the current batch; `queued` progress events are still to be forwarded. */
  datatype Worker = Idle | Calling(queued: nat) | Draining(queued: nat) | Finished

  datatype Phase =
    | Starting(k: nat)                                 // start events sent for the first k calls
    | Working(launched: nat, workers: seq<Worker>)
    | Reporting(k: nat)                                // result events sent for the first k calls

  datatype State = State(batch: nat, phase: Phase, trace: seq<Event>)

  datatype Step =
    | SendStart | Fork | Launch | Emit(i: nat) | Forward(i: nat) | Return(i: nat) | Finish(i: nat)
    | Join | SendResult | NextBatch

  /** Progress events a tool can be ahead of the consumer: the channel's buffer and the one in the
      forwarder's hand. */
  const PROGRESS_CAPACITY: nat := 9

  datatype Config = Config(batches: seq<Batch<Call>>, limit: nat)

  ghost predicate ConfigOk(cfg: Config) {
    && cfg.limit > 0
    && BatchesOk(cfg.batches, (c: Call) => c.safe)
    && (forall b, i, c, j :: InRange(cfg, b, i) && InRange(cfg, c, j) && CallAt(cfg, b, i).id == CallAt(cfg, c, j).id
                             ==> b == c && i == j)
  }

  predicate InRange(cfg: Config, b: int, i: int) {
    0 <= b < |cfg.batches| && 0 <= i < |cfg.batches[b].calls|
  }

  function CallAt(cfg: Config, b: int, i: int): Call
    requires InRange(cfg, b, i)
  {
    cfg.batches[b].calls[i]
  }

  function Active(ws: seq<Worker>): nat {
    if ws == [] then 0 else Active(ws[..|ws| - 1]) + (if ws[|ws| - 1].Calling? || ws[|ws| - 1].Draining? then 1 else 0)
  }

  predicate Done(cfg: Config, s: State) {
    s.batch >= |cfg.batches|
  }

  function Init(): State {
    State(0, Starting(0), [])
  }

  function Size(cfg: Config, s: State): nat
    requires !Done(cfg, s)
  {
    |cfg.batches[s.batch].calls|
  }

  predicate Enabled(cfg: Config, s: State, step: Step) {
    !Done(cfg, s) &&
    match step
    case SendStart => s.phase.Starting? && s.phase.k < Size(cfg, s)
    case Fork => s.phase.Starting? && s.phase.k == Size(cfg, s)
    case Launch =>
      s.phase.Working? && s.phase.launched < Size(cfg, s) == |s.phase.workers| && Active(s.phase.workers) < cfg.limit
    case Emit(i) => WorkerIs(cfg, s, i) && s.phase.workers[i].Calling? && s.phase.workers[i].queued < PROGRESS_CAPACITY
    case Forward(i) => WorkerIs(cfg, s, i) && (s.phase.workers[i].Calling? || s.phase.workers[i].Draining?)
                       && s.phase.workers[i].queued > 0
    case Return(i) => WorkerIs(cfg, s, i) && s.phase.workers[i].Calling?
    case Finish(i) => WorkerIs(cfg, s, i) && s.phase.workers[i] == Draining(0)
    case Join => s.phase.Working? && s.phase.launched == Size(cfg, s)
                 && forall i :: 0 <= i < |s.phase.workers| ==> s.phase.workers[i] == Finished
    case SendResult => s.phase.Reporting? && s.phase.k < Size(cfg, s)
    case NextBatch => s.phase.Reporting? && s.phase.k == Size(cfg, s)
  }

  predicate WorkerIs(cfg: Config, s: State, i: nat)
    requires !Done(cfg, s)
  {
    s.phase.Working? && i < |s.phase.workers| == Size(cfg, s)
  }

  function SetWorker(s: State, i: nat, w: Worker): State
    requires s.phase.Working? && i < |s.phase.workers|
  {
    s.(phase := s.phase.(workers := s.phase.workers[i := w]))
  }

  function Forwarded(w: Worker): Worker
    requires (w.Calling? || w.Draining?) && w.queued > 0
  {
    if w.Calling? then Calling(w.queued - 1) else Draining(w.queued - 1)
  }

  function Log(s: State, e: Event): State {
    s.(trace := s.trace + [e])
  }

  function Apply(cfg: Config, s: State, step: Step): State
    requires Enabled(cfg, s, step)
  {
    var calls := cfg.batches[s.batch].calls;
    match step
    case SendStart => Log(s.(phase := Starting(s.phase.k + 1)), Start(calls[s.phase.k].id))
    case Fork => s.(phase := Working(0, seq(|calls|, _ => Idle)))
    case Launch =>
      var i := s.phase.launched;
      Log(s.(phase := Working(i + 1, s.phase.workers[i := Calling(0)])), Called(calls[i].id))
    case Emit(i) => SetWorker(s, i, Calling(s.phase.workers[i].queued + 1))
    case Forward(i) =>
      var w := s.phase.workers[i];
      Log(SetWorker(s, i, Forwarded(w)), Progress(calls[i].id))
    case Return(i) => Log(SetWorker(s, i, Draining(s.phase.workers[i].queued)), Returned(calls[i].id))
    case Finish(i) => SetWorker(s, i, Finished)
    case Join => s.(phase := Reporting(0))
    case SendResult => Log(s.(phase := Reporting(s.phase.k + 1)), Result(calls[s.phase.k].id))
    case NextBatch => State(s.batch + 1, Starting(0), s.trace)
  }

  /** The state after a run, or None when some step was not enabled. */
  function After(cfg: Config, steps: seq<Step>): Option<State> {
    if steps == [] then Some(Init())
    else
      var n := |steps| - 1;
      match After(cfg, steps[..n])
      case None => None
      case Some(s) => if Enabled(cfg, s, steps[n]) then Some(Apply(cfg, s, steps[n])) else None
  }

  // ----- Reading a trace -----

  /** How far one call has come: its start event (1), its tool called (2) and returned (3), progress
      only in between or after, its result event (4); 5 for any other order. */
  function Stage(trace: seq<Event>, id: nat): nat {
    if trace == [] then 0
    else
      var n := |trace| - 1;
      var before := Stage(trace[..n], id);
      if trace[n].id != id then before else Advance(before, trace[n])
  }

  function Advance(stage: nat, e: Event): nat {
    match e
    case Start(_) => if stage == 0 then 1 else 5
    case Called(_) => if stage == 1 then 2 else 5
    case Progress(_) => if stage == 2 || stage == 3 then stage else 5
    case Returned(_) => if stage == 2 then 3 else 5
    case Result(_) => if stage == 3 then 4 else 5
  }

  /** The IDs of the start events, and of the result events, in trace order. */
  function Starts(trace: seq<Event>): seq<nat> {
    if trace == [] then []
    else
      var n := |trace| - 1;
      Starts(trace[..n]) + (if trace[n].Start? then [trace[n].id] else [])
  }

  function Results(trace: seq<Event>): seq<nat> {
    if trace == [] then []
    else
      var n := |trace| - 1;
      Results(trace[..n]) + (if trace[n].Result? then [trace[n].id] else [])
  }

  function Ids(calls: seq<Call>): (ids: seq<nat>)
    ensures |ids| == |calls| && forall i :: 0 <= i < |calls| ==> ids[i] == calls[i].id
  {
    seq(|calls|, i requires 0 <= i < |calls| => calls[i].id)
  }

  /** The IDs of the first n batches. */
  function IdsUpTo(cfg: Config, n: nat): seq<nat>
    requires n <= |cfg.batches|
  {
    if n == 0 then [] else IdsUpTo(cfg, n - 1) + Ids(cfg.batches[n - 1].calls)
  }

  /** A call's start event comes when exactly the calls of the earlier batches have their results. */
  ghost predicate Barrier(cfg: Config, trace: seq<Event>) {
    forall p, b, i :: 0 <= p < |trace| && InRange(cfg, b, i) && trace[p] == Start(CallAt(cfg, b, i).id)
                      ==> Results(trace[..p]) == IdsUpTo(cfg, b)
  }

  // ----- The invariant -----

  function WorkerStage(w: Worker): nat {
    match w
    case Idle => 1
    case Calling(_) => 2
    case Draining(_) => 3
    case Finished => 3
  }

  /** The stage of call i of batch b in state s. */
  function Expected(cfg: Config, s: State, b: int, i: int): nat
    requires InRange(cfg, b, i) && ShapeOk(cfg, s)
  {
    if b < s.batch then 4
    else if b > s.batch then 0
    else
      match s.phase
      case Starting(k) => if i < k then 1 else 0
      case Working(_, workers) => WorkerStage(workers[i])
      case Reporting(k) => if i < k then 4 else 3
  }

  predicate ShapeOk(cfg: Config, s: State) {
    s.batch <= |cfg.batches| &&
    (Done(cfg, s) || (
       match s.phase
       case Starting(k) => k <= Size(cfg, s)
       case Working(launched, workers) =>
         && launched <= Size(cfg, s) == |workers|
         && (forall i :: 0 <= i < |workers| ==> (workers[i] == Idle <==> i >= launched))
         && Active(workers) <= cfg.limit
       case Reporting(k) => k <= Size(cfg, s)))
  }

  function StartedIds(cfg: Config, s: State): seq<nat>
    requires ShapeOk(cfg, s)
  {
    IdsUpTo(cfg, s.batch) +
    (if Done(cfg, s) then []
     else
       var calls := cfg.batches[s.batch].calls;
       Ids(if s.phase.Starting? then calls[..s.phase.k] else calls))
  }

  function ReportedIds(cfg: Config, s: State): seq<nat>
    requires ShapeOk(cfg, s)
  {
    IdsUpTo(cfg, s.batch) +
    (if !Done(cfg, s) && s.phase.Reporting? then Ids(cfg.batches[s.batch].calls[..s.phase.k]) else [])
  }

  ghost predicate Inv(cfg: Config, s: State) {
    && ShapeOk(cfg, s)
    && (forall b, i :: InRange(cfg, b, i) ==> Stage(s.trace, CallAt(cfg, b, i).id) == Expected(cfg, s, b, i))
    && Starts(s.trace) == StartedIds(cfg, s)
    && Results(s.trace) == ReportedIds(cfg, s)
    && Barrier(cfg, s.trace)
  }

  lemma {:induction false} LogFacts(trace: seq<Event>, e: Event)
    ensures forall id :: Stage(trace + [e], id) == if e.id == id then Advance(Stage(trace, id), e) else Stage(trace, id)
    ensures Starts(trace + [e]) == Starts(trace) + (if e.Start? then [e.id] else [])
    ensures Results(trace + [e]) == Results(trace) + (if e.Result? then [e.id] else [])
  {
    assert (trace + [e])[..|trace|] == trace;
  }

  lemma {:induction false} BarrierStep(cfg: Config, trace: seq<Event>, e: Event)
    requires Barrier(cfg, trace)
    requires forall b, i :: InRange(cfg, b, i) && e == Start(CallAt(cfg, b, i).id) ==> Results(trace) == IdsUpTo(cfg, b)
    ensures Barrier(cfg, trace + [e])
  {
    var more := trace + [e];
    forall p, b, i | 0 <= p < |more| && InRange(cfg, b, i) && more[p] == Start(CallAt(cfg, b, i).id)
      ensures Results(more[..p]) == IdsUpTo(cfg, b)
    {
      if p < |trace| {
        assert more[..p] == trace[..p] && more[p] == trace[p];
      } else {
        assert more[..p] == trace;
      }
    }
  }

  lemma {:induction false} ActiveUpdate(ws: seq<Worker>, i: nat, w: Worker)
    requires i < |ws|
    ensures Active(ws[i := w]) == Active(ws) - (if ws[i].Calling? || ws[i].Draining? then 1 else 0)
                                  + (if w.Calling? || w.Draining? then 1 else 0)
  {
    var n := |ws| - 1;
    if i < n {
      ActiveUpdate(ws[..n], i, w);
      assert ws[i := w][..n] == ws[..n][i := w];
    } else {
      assert ws[i := w][..n] == ws[..n];
    }
  }

  lemma {:induction false} NoneActive(n: nat)
    ensures Active(seq(n, _ => Idle)) == 0
  {
    if n > 0 {
      NoneActive(n - 1);
      assert seq(n, _ => Idle)[..n - 1] == seq(n - 1, _ => Idle);
    }
  }

  /** Every call is at its expected stage. */
  ghost predicate StagesOk(cfg: Config, s: State) {
    ShapeOk(cfg, s) &&
    forall b, i :: InRange(cfg, b, i) ==> Stage(s.trace, CallAt(cfg, b, i).id) == Expected(cfg, s, b, i)
  }

  /** A logged event moves the stage of one call, and only of that one. */
  lemma {:induction false} StagesAfterLog(cfg: Config, s: State, s': State, i: nat, e: Event)
    requires ConfigOk(cfg) && StagesOk(cfg, s) && ShapeOk(cfg, s')
    requires s'.batch == s.batch && InRange(cfg, s.batch, i)
    requires s'.trace == s.trace + [e] && e.id == CallAt(cfg, s.batch, i).id
    requires Expected(cfg, s', s.batch, i) == Advance(Expected(cfg, s, s.batch, i), e)
    requires forall j :: InRange(cfg, s.batch, j) && j != i
                         ==> Expected(cfg, s', s.batch, j) == Expected(cfg, s, s.batch, j)
    ensures StagesOk(cfg, s')
  {
    LogFacts(s.trace, e);
  }

  lemma {:induction false} IdsSnoc(calls: seq<Call>, k: nat)
    requires k < |calls|
    ensures Ids(calls[..k + 1]) == Ids(calls[..k]) + [calls[k].id]
  {
  }

  lemma {:induction false} SendStartKeeps(cfg: Config, s: State)
    requires ConfigOk(cfg) && Inv(cfg, s) && Enabled(cfg, s, SendStart)
    ensures Inv(cfg, Apply(cfg, s, SendStart))
  {
    var s', k := Apply(cfg, s, SendStart), s.phase.k;
    var e := Start(cfg.batches[s.batch].calls[k].id);
    assert InRange(cfg, s.batch, k);
    StagesAfterLog(cfg, s, s', k, e);
    LogFacts(s.trace, e);
    IdsSnoc(cfg.batches[s.batch].calls, k);
    assert StartedIds(cfg, s') == StartedIds(cfg, s) + [e.id];
    forall b, i | InRange(cfg, b, i) && e == Start(CallAt(cfg, b, i).id) ensures Results(s.trace) == IdsUpTo(cfg, b) {
      assert CallAt(cfg, b, i).id == CallAt(cfg, s.batch, k).id;
    }
    BarrierStep(cfg, s.trace, e);
  }

  lemma {:induction false} ForkKeeps(cfg: Config, s: State)
    requires Inv(cfg, s) && Enabled(cfg, s, Fork)
    ensures Inv(cfg, Apply(cfg, s, Fork))
  {
    NoneActive(Size(cfg, s));
    assert cfg.batches[s.batch].calls[..s.phase.k] == cfg.batches[s.batch].calls;
  }

  /** Steps of one worker that send an event. */
  lemma {:induction false} WorkerLogKeeps(cfg: Config, s: State, i: nat, w: Worker, e: Event, launched: nat)
    requires ConfigOk(cfg) && Inv(cfg, s) && !Done(cfg, s) && WorkerIs(cfg, s, i)
    requires e.id == cfg.batches[s.batch].calls[i].id && !e.Start? && !e.Result?
    requires WorkerStage(w) == Advance(WorkerStage(s.phase.workers[i]), e) && w != Idle
    requires launched == (if i == s.phase.launched then i + 1 else s.phase.launched) && i <= s.phase.launched
    requires Active(s.phase.workers[i := w]) <= cfg.limit
    ensures Inv(cfg, Log(s.(phase := Working(launched, s.phase.workers[i := w])), e))
  {
    var s' := Log(s.(phase := Working(launched, s.phase.workers[i := w])), e);
    assert InRange(cfg, s.batch, i);
    StagesAfterLog(cfg, s, s', i, e);
    LogFacts(s.trace, e);
    BarrierStep(cfg, s.trace, e);
  }

  lemma {:induction false} WorkerShape(cfg: Config, s: State, s': State, i: nat, w: Worker)
    requires ShapeOk(cfg, s) && !Done(cfg, s) && WorkerIs(cfg, s, i)
    requires WorkerStage(w) == WorkerStage(s.phase.workers[i]) && w != Idle && s.phase.workers[i] != Idle
    requires Active(s.phase.workers[i := w]) <= cfg.limit && s' == SetWorker(s, i, w)
    ensures ShapeOk(cfg, s')
    ensures forall b, j :: InRange(cfg, b, j) ==> Expected(cfg, s', b, j) == Expected(cfg, s, b, j)
  {
  }

  /** Steps of one worker that send nothing and leave its call at the same stage. */
  lemma {:induction false} WorkerQuietKeeps(cfg: Config, s: State, s': State, i: nat, w: Worker)
    requires Inv(cfg, s) && !Done(cfg, s) && WorkerIs(cfg, s, i)
    requires WorkerStage(w) == WorkerStage(s.phase.workers[i]) && w != Idle && s.phase.workers[i] != Idle
    requires Active(s.phase.workers[i := w]) <= cfg.limit && s' == SetWorker(s, i, w)
    ensures Inv(cfg, s')
  {
    WorkerShape(cfg, s, s', i, w);
    assert StartedIds(cfg, s') == StartedIds(cfg, s) && ReportedIds(cfg, s') == ReportedIds(cfg, s);
  }

  lemma {:induction false} JoinKeeps(cfg: Config, s: State)
    requires Inv(cfg, s) && Enabled(cfg, s, Join)
    ensures Inv(cfg, Apply(cfg, s, Join))
  {
    assert cfg.batches[s.batch].calls[..0] == [];
    assert IdsUpTo(cfg, s.batch) + Ids([]) == IdsUpTo(cfg, s.batch) + [];
  }

  lemma {:induction false} SendResultKeeps(cfg: Config, s: State)
    requires ConfigOk(cfg) && Inv(cfg, s) && Enabled(cfg, s, SendResult)
    ensures Inv(cfg, Apply(cfg, s, SendResult))
  {
    var s', k := Apply(cfg, s, SendResult), s.phase.k;
    var e := Result(cfg.batches[s.batch].calls[k].id);
    assert InRange(cfg, s.batch, k);
    StagesAfterLog(cfg, s, s', k, e);
    LogFacts(s.trace, e);
    IdsSnoc(cfg.batches[s.batch].calls, k);
    assert ReportedIds(cfg, s') == ReportedIds(cfg, s) + [e.id];
    BarrierStep(cfg, s.trace, e);
  }

  lemma {:induction false} NextBatchKeeps(cfg: Config, s: State)
    requires Inv(cfg, s) && Enabled(cfg, s, NextBatch)
    ensures Inv(cfg, Apply(cfg, s, NextBatch))
  {
    var calls := cfg.batches[s.batch].calls;
    assert calls[..s.phase.k] == calls;
    var s' := Apply(cfg, s, NextBatch);
    if !Done(cfg, s') { assert Ids(cfg.batches[s'.batch].calls[..0]) == []; }
  }

  lemma {:induction false} EmitKeeps(cfg: Config, s: State, i: nat)
    requires Inv(cfg, s) && Enabled(cfg, s, Emit(i))
    ensures Inv(cfg, Apply(cfg, s, Emit(i)))
  {
    var w := Calling(s.phase.workers[i].queued + 1);
    ActiveUpdate(s.phase.workers, i, w);
    WorkerQuietKeeps(cfg, s, Apply(cfg, s, Emit(i)), i, w);
  }

  lemma {:induction false} FinishKeeps(cfg: Config, s: State, i: nat)
    requires Inv(cfg, s) && Enabled(cfg, s, Finish(i))
    ensures Inv(cfg, Apply(cfg, s, Finish(i)))
  {
    ActiveUpdate(s.phase.workers, i, Finished);
    WorkerQuietKeeps(cfg, s, Apply(cfg, s, Finish(i)), i, Finished);
  }

  lemma {:induction false} ForwardKeeps(cfg: Config, s: State, i: nat)
    requires ConfigOk(cfg) && Inv(cfg, s) && Enabled(cfg, s, Forward(i))
    ensures Inv(cfg, Apply(cfg, s, Forward(i)))
  {
    var w, e := Forwarded(s.phase.workers[i]), Progress(cfg.batches[s.batch].calls[i].id);
    ActiveUpdate(s.phase.workers, i, w);
    WorkerLogKeeps(cfg, s, i, w, e, s.phase.launched);
    assert Apply(cfg, s, Forward(i)) == Log(s.(phase := Working(s.phase.launched, s.phase.workers[i := w])), e);
  }

  lemma {:induction false} ReturnKeeps(cfg: Config, s: State, i: nat)
    requires ConfigOk(cfg) && Inv(cfg, s) && Enabled(cfg, s, Return(i))
    ensures Inv(cfg, Apply(cfg, s, Return(i)))
  {
    var w := Draining(s.phase.workers[i].queued);
    ActiveUpdate(s.phase.workers, i, w);
    WorkerLogKeeps(cfg, s, i, w, Returned(cfg.batches[s.batch].calls[i].id), s.phase.launched);
  }

  lemma {:induction false} LaunchKeeps(cfg: Config, s: State)
    requires ConfigOk(cfg) && Inv(cfg, s) && Enabled(cfg, s, Launch)
    ensures Inv(cfg, Apply(cfg, s, Launch))
  {
    var i := s.phase.launched;
    ActiveUpdate(s.phase.workers, i, Calling(0));
    WorkerLogKeeps(cfg, s, i, Calling(0), Called(cfg.batches[s.batch].calls[i].id), i + 1);
  }

  /** Every step keeps the invariant. */
  lemma {:induction false} StepKeeps(cfg: Config, s: State, step: Step)
    requires ConfigOk(cfg) && Inv(cfg, s) && Enabled(cfg, s, step)
    ensures Inv(cfg, Apply(cfg, s, step))
  {
    match step {
      case SendStart => SendStartKeeps(cfg, s);
      case Fork => ForkKeeps(cfg, s);
      case Launch => LaunchKeeps(cfg, s);
      case Emit(i) => EmitKeeps(cfg, s, i);
      case Forward(i) => ForwardKeeps(cfg, s, i);
      case Return(i) => ReturnKeeps(cfg, s, i);
      case Finish(i) => FinishKeeps(cfg, s, i);
      case Join => JoinKeeps(cfg, s);
      case SendResult => SendResultKeeps(cfg, s);
      case NextBatch => NextBatchKeeps(cfg, s);
    }
  }

  lemma {:induction false} InitInv(cfg: Config)
    ensures Inv(cfg, Init())
  {
    if !Done(cfg, Init()) { assert Ids(cfg.batches[0].calls[..0]) == []; }
  }

  lemma {:induction false} RunInv(cfg: Config, steps: seq<Step>, s: State)
    requires ConfigOk(cfg) && After(cfg, steps) == Some(s)
    ensures Inv(cfg, s)
    decreases |steps|
  {
    if steps == [] {
      InitInv(cfg);
    } else {
      var n := |steps| - 1;
      var before := After(cfg, steps[..n]).value;
      RunInv(cfg, steps[..n], before);
      StepKeeps(cfg, before, steps[n]);
    }
  }

  // ----- Theorems -----

  /** A finished run: every call has gone through start, progress and one result in that order;
      results, like starts, come in submission order over all batches; and no call starts before
      the results of the earlier batches are out. */
  lemma {:induction false} FinishedRun(cfg: Config, steps: seq<Step>, s: State)
    requires ConfigOk(cfg) && After(cfg, steps) == Some(s) && Done(cfg, s)
    ensures var trace := s.trace;
            && (forall b, i :: InRange(cfg, b, i) ==> Stage(trace, CallAt(cfg, b, i).id) == 4)
            && Results(trace) == Ids(Flatten(cfg.batches)) == Starts(trace)
            && Barrier(cfg, trace)
  {
    RunInv(cfg, steps, s);
    IdsOfAll(cfg, |cfg.batches|);
    assert cfg.batches[..|cfg.batches|] == cfg.batches;
    var all := IdsUpTo(cfg, |cfg.batches|);
    assert all + [] == all;
  }

  lemma {:induction false} IdsOfAll(cfg: Config, n: nat)
    requires n <= |cfg.batches|
    ensures IdsUpTo(cfg, n) == Ids(Flatten(cfg.batches[..n]))
  {
    if n > 0 {
      IdsOfAll(cfg, n - 1);
      assert cfg.batches[..n] == cfg.batches[..n - 1] + [cfg.batches[n - 1]];
      FlattenSnoc(cfg.batches[..n - 1], cfg.batches[n - 1]);
      assert Ids(Flatten(cfg.batches[..n - 1]) + cfg.batches[n - 1].calls)
          == Ids(Flatten(cfg.batches[..n - 1])) + Ids(cfg.batches[n - 1].calls);
    }
  }

  /** At every moment of every run: an unsafe call that is running runs alone. */
  lemma {:induction false} UnsafeRunsAlone(cfg: Config, steps: seq<Step>, s: State, b: nat, i: nat, c: nat, j: nat)
    requires ConfigOk(cfg) && After(cfg, steps) == Some(s)
    requires InRange(cfg, b, i) && InRange(cfg, c, j) && (b != c || i != j)
    requires !CallAt(cfg, b, i).safe
    requires Stage(s.trace, CallAt(cfg, b, i).id) == 2
    ensures Stage(s.trace, CallAt(cfg, c, j).id) in {0, 4}
  {
    RunInv(cfg, steps, s);
    assert BatchOk(cfg.batches[b], (x: Call) => x.safe);
  }

  /** At most `limit` calls of a batch run at any time. */
  lemma {:induction false} LimitHolds(cfg: Config, steps: seq<Step>, s: State)
    requires ConfigOk(cfg) && After(cfg, steps) == Some(s)
    ensures !Done(cfg, s) && s.phase.Working? ==> Active(s.phase.workers) <= cfg.limit
  {
    RunInv(cfg, steps, s);
  }

  lemma {:induction false} SomeActive(ws: seq<Worker>)
    requires Active(ws) > 0
    ensures exists i :: 0 <= i < |ws| && (ws[i].Calling? || ws[i].Draining?)
  {
    var n := |ws| - 1;
    if !(ws[n].Calling? || ws[n].Draining?) {
      SomeActive(ws[..n]);
      var i :| 0 <= i < |ws[..n]| && (ws[..n][i].Calling? || ws[..n][i].Draining?);
      assert ws[i] == ws[..n][i];
    }
  }

  /** A goroutine that runs can move on by itself, and without one the next call can be launched or the
      batch be joined. */
  lemma {:induction false} WorkingMoves(cfg: Config, s: State)
    requires ConfigOk(cfg) && ShapeOk(cfg, s) && !Done(cfg, s) && s.phase.Working?
    ensures exists step: Step :: !step.Emit? && Enabled(cfg, s, step)
  {
    var workers := s.phase.workers;
    if Active(workers) > 0 {
      SomeActive(workers);
      var i :| 0 <= i < |workers| && (workers[i].Calling? || workers[i].Draining?);
      assert Enabled(cfg, s, Return(i)) || Enabled(cfg, s, Forward(i)) || Enabled(cfg, s, Finish(i));
    } else {
      NoneActiveInside(workers);
      assert Enabled(cfg, s, Launch) || Enabled(cfg, s, Join);
    }
  }

  lemma {:induction false} NoneActiveInside(ws: seq<Worker>)
    requires Active(ws) == 0
    ensures forall i :: 0 <= i < |ws| ==> ws[i].Idle? || ws[i].Finished?
  {
    if ws != [] {
      var before := ws[..|ws| - 1];
      NoneActiveInside(before);
      assert forall i :: 0 <= i < |before| ==> ws[i] == before[i];
    }
  }

  /** No run is ever stuck: until all batches are reported, some step other than a tool's own
      progress can be taken. */
  lemma {:induction false} NeverStuck(cfg: Config, steps: seq<Step>, s: State)
    requires ConfigOk(cfg) && After(cfg, steps) == Some(s) && !Done(cfg, s)
    ensures exists step: Step :: !step.Emit? && Enabled(cfg, s, step)
  {
    RunInv(cfg, steps, s);
    if s.phase.Working? {
      WorkingMoves(cfg, s);
    } else if s.phase.Starting? {
      assert Enabled(cfg, s, SendStart) || Enabled(cfg, s, Fork);
    } else {
      assert Enabled(cfg, s, SendResult) || Enabled(cfg, s, NextBatch);
    }
  }

  // ----- Every run ends -----

  /** The steps that a goroutine has still to take, new progress aside. */
  function StepsOf(w: Worker): nat {
    match w
    case Idle => 3
    case Calling(queued) => 2 + queued
    case Draining(queued) => 1 + queued
    case Finished => 0
  }

  function StepsOfAll(ws: seq<Worker>): nat {
    if ws == [] then 0 else StepsOfAll(ws[..|ws| - 1]) + StepsOf(ws[|ws| - 1])
  }

  /** The steps that the batches from b on take: five for a call and three for a batch. */
  function StepsFrom(cfg: Config, b: nat): nat
    requires b <= |cfg.batches|
    decreases |cfg.batches| - b
  {
    if b == |cfg.batches| then 0 else 5 * |cfg.batches[b].calls| + 3 + StepsFrom(cfg, b + 1)
  }

  function Left(cfg: Config, s: State): nat
    requires ShapeOk(cfg, s)
  {
    if Done(cfg, s) then 0
    else
      var n := Size(cfg, s);
      StepsFrom(cfg, s.batch + 1) +
      match s.phase
      case Starting(k) => 5 * n + 3 - k
      case Working(_, workers) => StepsOfAll(workers) + n + 2
      case Reporting(k) => n + 1 - k
  }

  function Emits(steps: seq<Step>): nat {
    if steps == [] then 0 else Emits(steps[..|steps| - 1]) + (if steps[|steps| - 1].Emit? then 1 else 0)
  }

  lemma {:induction false} StepsUpdate(ws: seq<Worker>, i: nat, w: Worker)
    requires i < |ws|
    ensures StepsOfAll(ws[i := w]) == StepsOfAll(ws) - StepsOf(ws[i]) + StepsOf(w)
  {
    var n := |ws| - 1;
    if i < n {
      StepsUpdate(ws[..n], i, w);
      assert ws[i := w][..n] == ws[..n][i := w];
    } else {
      assert ws[i := w][..n] == ws[..n];
    }
  }

  lemma {:induction false} StepsOfSame(ws: seq<Worker>, w: Worker)
    requires forall i :: 0 <= i < |ws| ==> ws[i] == w
    ensures StepsOfAll(ws) == |ws| * StepsOf(w)
  {
    if ws != [] { StepsOfSame(ws[..|ws| - 1], w); }
  }

  /** A step of one goroutine changes the count by that goroutine's own steps. */
  lemma {:induction false} WorkerCounts(cfg: Config, s: State, s': State, i: nat, w: Worker)
    requires ShapeOk(cfg, s) && ShapeOk(cfg, s') && !Done(cfg, s) && WorkerIs(cfg, s, i)
    requires s'.batch == s.batch && s'.phase.Working? && s'.phase.workers == s.phase.workers[i := w]
    ensures Left(cfg, s') == Left(cfg, s) - StepsOf(s.phase.workers[i]) + StepsOf(w)
  {
    StepsUpdate(s.phase.workers, i, w);
  }

  lemma {:induction false} ForkCounts(cfg: Config, s: State)
    requires ShapeOk(cfg, s) && Enabled(cfg, s, Fork) && ShapeOk(cfg, Apply(cfg, s, Fork))
    ensures Left(cfg, Apply(cfg, s, Fork)) == Left(cfg, s) - 1
  {
    StepsOfSame(Apply(cfg, s, Fork).phase.workers, Idle);
  }

  lemma {:induction false} JoinCounts(cfg: Config, s: State)
    requires ShapeOk(cfg, s) && Enabled(cfg, s, Join) && ShapeOk(cfg, Apply(cfg, s, Join))
    ensures Left(cfg, Apply(cfg, s, Join)) == Left(cfg, s) - 1
  {
    StepsOfSame(s.phase.workers, Finished);
  }

  /** Every step brings the end of the turn one step closer, except that new progress puts it off by one. */
  lemma {:induction false} StepCounts(cfg: Config, s: State, step: Step)
    requires ShapeOk(cfg, s) && Enabled(cfg, s, step) && ShapeOk(cfg, Apply(cfg, s, step))
    ensures Left(cfg, Apply(cfg, s, step)) == Left(cfg, s) + (if step.Emit? then 1 else -1)
  {
    var s' := Apply(cfg, s, step);
    match step {
      case Fork => ForkCounts(cfg, s);
      case Launch => WorkerCounts(cfg, s, s', s.phase.launched, Calling(0));
      case Emit(i) => WorkerCounts(cfg, s, s', i, Calling(s.phase.workers[i].queued + 1));
      case Forward(i) => WorkerCounts(cfg, s, s', i, Forwarded(s.phase.workers[i]));
      case Return(i) => WorkerCounts(cfg, s, s', i, Draining(s.phase.workers[i].queued));
      case Finish(i) => WorkerCounts(cfg, s, s', i, Finished);
      case Join => JoinCounts(cfg, s);
      case _ =>
    }
  }

  lemma {:induction false} RunCounts(cfg: Config, steps: seq<Step>, s: State)
    requires ConfigOk(cfg) && After(cfg, steps) == Some(s) && ShapeOk(cfg, s)
    ensures |steps| + Left(cfg, s) == StepsFrom(cfg, 0) + 2 * Emits(steps)
    decreases |steps|
  {
    if steps != [] {
      var n := |steps| - 1;
      var before := After(cfg, steps[..n]).value;
      RunInv(cfg, steps[..n], before);
      RunCounts(cfg, steps[..n], before);
      StepCounts(cfg, before, steps[n]);
    }
  }

  /** Every run ends: it has reported all batches exactly when it has taken five steps for each call and
      three for each batch, and two for each progress event; it never takes more. */
  lemma {:induction false} RunLength(cfg: Config, steps: seq<Step>, s: State)
    requires ConfigOk(cfg) && After(cfg, steps) == Some(s)
    ensures Done(cfg, s) <==> |steps| == StepsFrom(cfg, 0) + 2 * Emits(steps)
    ensures |steps| <= StepsFrom(cfg, 0) + 2 * Emits(steps)
  {
    RunInv(cfg, steps, s);
    RunCounts(cfg, steps, s);
  }

  // ----- No progress is lost -----

  /** The progress events of one call that have reached the consumer. */
  function Shown(trace: seq<Event>, id: nat): nat {
    if trace == [] then 0
    else Shown(trace[..|trace| - 1], id) + (if trace[|trace| - 1] == Progress(id) then 1 else 0)
  }

  /** The progress events of call i of batch b that are still to be forwarded. */
  function Waiting(cfg: Config, s: State, b: int, i: int): nat
    requires InRange(cfg, b, i) && ShapeOk(cfg, s)
  {
    if b != s.batch || !s.phase.Working? then 0
    else
      match s.phase.workers[i]
      case Calling(queued) => queued
      case Draining(queued) => queued
      case _ => 0
  }

  /** The step is progress of the call with this ID. */
  predicate IsEmitOf(cfg: Config, s: State, step: Step, id: nat)
    requires Enabled(cfg, s, step)
  {
    step.Emit? && cfg.batches[s.batch].calls[step.i].id == id
  }

  /** The progress events that one call has emitted in a run. */
  function EmitsOf(cfg: Config, steps: seq<Step>, id: nat): nat
    requires After(cfg, steps).Some?
  {
    if steps == [] then 0
    else
      var n := |steps| - 1;
      EmitsOf(cfg, steps[..n], id) + (if IsEmitOf(cfg, After(cfg, steps[..n]).value, steps[n], id) then 1 else 0)
  }

  lemma {:induction false} ShownSnoc(trace: seq<Event>, e: Event, id: nat)
    ensures Shown(trace + [e], id) == Shown(trace, id) + (if e == Progress(id) then 1 else 0)
  {
    assert (trace + [e])[..|trace|] == trace;
  }

  lemma {:induction false} SameCall(cfg: Config, b: int, i: int, c: int, j: int)
    requires ConfigOk(cfg) && InRange(cfg, b, i) && InRange(cfg, c, j)
    ensures CallAt(cfg, b, i).id == CallAt(cfg, c, j).id <==> b == c && i == j
  {
  }

  /** A step of goroutine j shows one more event when it forwards one. */
  lemma {:induction false} WorkerShows(cfg: Config, s: State, step: Step, j: nat, id: nat)
    requires Enabled(cfg, s, step) && step in [Emit(j), Forward(j), Return(j), Finish(j)]
    requires InRange(cfg, s.batch, j)
    ensures Shown(Apply(cfg, s, step).trace, id) ==
            Shown(s.trace, id) + (if step.Forward? && CallAt(cfg, s.batch, j).id == id then 1 else 0)
  {
    var own := cfg.batches[s.batch].calls[j].id;
    assert own == CallAt(cfg, s.batch, j).id;
    ShownSnoc(s.trace, Progress(own), id);
    ShownSnoc(s.trace, Returned(own), id);
  }

  /** One event more waits behind an Emit, one less behind a Forward. */
  lemma {:induction false} WorkerWaits(cfg: Config, s: State, step: Step, j: nat, b: int, i: int)
    requires ConfigOk(cfg) && ShapeOk(cfg, s) && Enabled(cfg, s, step) && ShapeOk(cfg, Apply(cfg, s, step))
    requires InRange(cfg, b, i) && step in [Emit(j), Forward(j), Return(j), Finish(j)]
    ensures var own := b == s.batch && i == j;
      Waiting(cfg, Apply(cfg, s, step), b, i) + (if step.Forward? && own then 1 else 0)
      == Waiting(cfg, s, b, i) + (if step.Emit? && own then 1 else 0)
  {
  }

  /** A step of goroutine j. */
  lemma {:induction false} WorkerProgress(cfg: Config, s: State, step: Step, j: nat, b: int, i: int)
    requires ConfigOk(cfg) && ShapeOk(cfg, s) && Enabled(cfg, s, step) && ShapeOk(cfg, Apply(cfg, s, step))
    requires InRange(cfg, b, i) && step in [Emit(j), Forward(j), Return(j), Finish(j)]
    ensures var s', id := Apply(cfg, s, step), CallAt(cfg, b, i).id;
      Shown(s'.trace, id) + Waiting(cfg, s', b, i)
      == Shown(s.trace, id) + Waiting(cfg, s, b, i) + (if IsEmitOf(cfg, s, step, id) then 1 else 0)
  {
    assert InRange(cfg, s.batch, j);
    SameCall(cfg, b, i, s.batch, j);
    WorkerShows(cfg, s, step, j, CallAt(cfg, b, i).id);
    WorkerWaits(cfg, s, step, j, b, i);
  }

  lemma {:induction false} OtherProgress(cfg: Config, s: State, step: Step, b: int, i: int)
    requires ShapeOk(cfg, s) && Enabled(cfg, s, step) && ShapeOk(cfg, Apply(cfg, s, step)) && InRange(cfg, b, i)
    requires step.SendStart? || step.Fork? || step.Launch? || step.Join? || step.SendResult? || step.NextBatch?
    ensures var s', id := Apply(cfg, s, step), CallAt(cfg, b, i).id;
      Shown(s'.trace, id) == Shown(s.trace, id) && Waiting(cfg, s', b, i) == Waiting(cfg, s, b, i)
  {
    var id := CallAt(cfg, b, i).id;
    if Apply(cfg, s, step).trace != s.trace {
      var trace := Apply(cfg, s, step).trace;
      var e := trace[|trace| - 1];
      assert trace == s.trace + [e];
      ShownSnoc(s.trace, e, id);
    }
  }

  lemma {:induction false} StepProgress(cfg: Config, s: State, step: Step, b: int, i: int)
    requires ConfigOk(cfg) && ShapeOk(cfg, s) && Enabled(cfg, s, step) && ShapeOk(cfg, Apply(cfg, s, step))
    requires InRange(cfg, b, i)
    ensures var s', id := Apply(cfg, s, step), CallAt(cfg, b, i).id;
      Shown(s'.trace, id) + Waiting(cfg, s', b, i)
      == Shown(s.trace, id) + Waiting(cfg, s, b, i) + (if IsEmitOf(cfg, s, step, id) then 1 else 0)
  {
    match step {
      case Emit(j) => WorkerProgress(cfg, s, step, j, b, i);
      case Forward(j) => WorkerProgress(cfg, s, step, j, b, i);
      case Return(j) => WorkerProgress(cfg, s, step, j, b, i);
      case Finish(j) => WorkerProgress(cfg, s, step, j, b, i);
      case _ => OtherProgress(cfg, s, step, b, i);
    }
  }

  /** At every moment, what a call has emitted is either shown or waits to be forwarded. */
  lemma {:induction false} ProgressIsKept(cfg: Config, steps: seq<Step>, s: State, b: int, i: int)
    requires ConfigOk(cfg) && After(cfg, steps) == Some(s) && InRange(cfg, b, i) && ShapeOk(cfg, s)
    ensures var id := CallAt(cfg, b, i).id;
      Shown(s.trace, id) + Waiting(cfg, s, b, i) == EmitsOf(cfg, steps, id)
    decreases |steps|
  {
    if steps != [] {
      var n := |steps| - 1;
      var before := After(cfg, steps[..n]).value;
      RunInv(cfg, steps[..n], before);
      ProgressIsKept(cfg, steps[..n], before, b, i);
      StepProgress(cfg, before, steps[n], b, i);
    }
  }

  /** No progress is lost or repeated: at the end of the turn, and as soon as a call's result is out, as many
      progress events of the call have been shown as it has emitted. */
  lemma {:induction false} ProgressIsShown(cfg: Config, steps: seq<Step>, s: State, b: int, i: int)
    requires ConfigOk(cfg) && After(cfg, steps) == Some(s) && InRange(cfg, b, i)
    requires Done(cfg, s) || Stage(s.trace, CallAt(cfg, b, i).id) == 4
    ensures Shown(s.trace, CallAt(cfg, b, i).id) == EmitsOf(cfg, steps, CallAt(cfg, b, i).id)
  {
    RunInv(cfg, steps, s);
    ProgressIsKept(cfg, steps, s, b, i);
  }
}
