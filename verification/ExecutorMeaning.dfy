/** What the events of concurrent tool calls look like from outside (internal/agent/speculative.go): each call
    in its order, all calls in submission order, and never too many at once. */
module ExecutorMeaning {
  import opened Options
  import opened Batches
  import opened Executor

  // ----- One call -----

  predicate Never(trace: seq<Event>, e: Event) {
    e !in trace
  }

  predicate OnceAt(trace: seq<Event>, e: Event, p: int) {
    0 <= p < |trace| && trace[p] == e && forall q :: 0 <= q < |trace| && trace[q] == e ==> q == p
  }

  /** Every progress event of the call lies behind position p. */
  predicate ProgressBehind(trace: seq<Event>, id: nat, p: int) {
    forall q :: 0 <= q < |trace| && trace[q] == Progress(id) ==> p < q
  }

  predicate ProgressBefore(trace: seq<Event>, id: nat, p: int) {
    forall q :: 0 <= q < |trace| && trace[q] == Progress(id) ==> q < p
  }

  /** How far the call has come, said on the trace: its events so far are these, in this order. */
  ghost predicate HasReached(trace: seq<Event>, id: nat, stage: nat) {
    match stage
    case 0 => forall e :: e in trace ==> e.id != id
    case 1 => exists st :: IsStarted(trace, id, st) && Never(trace, Called(id))
    case 2 => exists st, ca :: IsCalled(trace, id, st, ca) && Never(trace, Returned(id))
    case 3 => exists st, ca, re :: IsReturned(trace, id, st, ca, re) && Never(trace, Result(id))
    case _ => stage == 4 ==> exists st, ca, re, end :: IsReported(trace, id, st, ca, re, end)
  }

  predicate IsStarted(trace: seq<Event>, id: nat, st: int) {
    OnceAt(trace, Start(id), st) && Never(trace, Returned(id)) && Never(trace, Progress(id)) && Never(trace, Result(id))
  }

  predicate IsCalled(trace: seq<Event>, id: nat, st: int, ca: int) {
    OnceAt(trace, Start(id), st) && OnceAt(trace, Called(id), ca) && st < ca && Never(trace, Result(id))
    && ProgressBehind(trace, id, ca)
  }

  predicate IsReturned(trace: seq<Event>, id: nat, st: int, ca: int, re: int) {
    OnceAt(trace, Start(id), st) && OnceAt(trace, Called(id), ca) && OnceAt(trace, Returned(id), re) && st < ca < re
    && ProgressBehind(trace, id, ca)
  }

  predicate IsReported(trace: seq<Event>, id: nat, st: int, ca: int, re: int, end: int) {
    IsReturned(trace, id, st, ca, re) && OnceAt(trace, Result(id), end) && re < end && ProgressBefore(trace, id, end)
  }

  lemma {:induction false} OtherEvent(trace: seq<Event>, x: Event, e: Event, p: int)
    requires e != x
    ensures Never(trace, e) ==> Never(trace + [x], e)
    ensures OnceAt(trace, e, p) ==> OnceAt(trace + [x], e, p)
  {
  }

  lemma {:induction false} OwnEvent(trace: seq<Event>, x: Event)
    requires Never(trace, x)
    ensures OnceAt(trace + [x], x, |trace|)
  {
  }

  lemma {:induction false} StillBehind(trace: seq<Event>, x: Event, id: nat, p: int)
    requires p < |trace|
    ensures ProgressBehind(trace, id, p) ==> ProgressBehind(trace + [x], id, p)
  {
  }

  lemma {:induction false} StillBefore(trace: seq<Event>, x: Event, id: nat, p: int)
    requires x != Progress(id)
    ensures ProgressBefore(trace, id, p) ==> ProgressBefore(trace + [x], id, p)
  {
  }

  /** An event of another call changes nothing. */
  lemma {:induction false} OtherCall(trace: seq<Event>, id: nat, stage: nat, x: Event)
    requires HasReached(trace, id, stage) && x.id != id
    ensures HasReached(trace + [x], id, stage)
  {
    forall e: Event, p: int | e.id == id
      ensures (Never(trace, e) ==> Never(trace + [x], e)) && (OnceAt(trace, e, p) ==> OnceAt(trace + [x], e, p))
    {
      OtherEvent(trace, x, e, p);
    }
    match stage {
      case 0 =>
      case 1 =>
        var st :| IsStarted(trace, id, st) && Never(trace, Called(id));
        assert IsStarted(trace + [x], id, st);
      case 2 =>
        var st, ca :| IsCalled(trace, id, st, ca) && Never(trace, Returned(id));
        StillBehind(trace, x, id, ca);
        assert IsCalled(trace + [x], id, st, ca);
      case 3 =>
        var st, ca, re :| IsReturned(trace, id, st, ca, re) && Never(trace, Result(id));
        StillBehind(trace, x, id, ca);
        assert IsReturned(trace + [x], id, st, ca, re);
      case _ =>
        if stage == 4 {
          var st, ca, re, end :| IsReported(trace, id, st, ca, re, end);
          StillBehind(trace, x, id, ca);
          StillBefore(trace, x, id, end);
          assert IsReported(trace + [x], id, st, ca, re, end);
        }
    }
  }

  lemma {:induction false} CallStarts(trace: seq<Event>, id: nat)
    requires HasReached(trace, id, 0)
    ensures HasReached(trace + [Start(id)], id, 1)
  {
    var x := Start(id);
    OwnEvent(trace, x);
    OtherEvent(trace, x, Returned(id), 0);
    OtherEvent(trace, x, Progress(id), 0);
    OtherEvent(trace, x, Result(id), 0);
    OtherEvent(trace, x, Called(id), 0);
    assert IsStarted(trace + [x], id, |trace|);
  }

  lemma {:induction false} CallIsMade(trace: seq<Event>, id: nat)
    requires HasReached(trace, id, 1)
    ensures HasReached(trace + [Called(id)], id, 2)
  {
    var x := Called(id);
    var st :| IsStarted(trace, id, st) && Never(trace, x);
    OwnEvent(trace, x);
    OtherEvent(trace, x, Start(id), st);
    OtherEvent(trace, x, Returned(id), st);
    OtherEvent(trace, x, Progress(id), st);
    OtherEvent(trace, x, Result(id), st);
    assert IsCalled(trace + [x], id, st, |trace|);
  }

  lemma {:induction false} CallProgresses(trace: seq<Event>, id: nat, stage: nat)
    requires HasReached(trace, id, stage) && stage in {2, 3}
    ensures HasReached(trace + [Progress(id)], id, stage)
  {
    var x := Progress(id);
    forall e: Event, p: int | e.id == id && e != x
      ensures (Never(trace, e) ==> Never(trace + [x], e)) && (OnceAt(trace, e, p) ==> OnceAt(trace + [x], e, p))
    {
      OtherEvent(trace, x, e, p);
    }
    if stage == 2 {
      var st, ca :| IsCalled(trace, id, st, ca) && Never(trace, Returned(id));
      StillBehind(trace, x, id, ca);
      assert IsCalled(trace + [x], id, st, ca);
    } else {
      var st, ca, re :| IsReturned(trace, id, st, ca, re) && Never(trace, Result(id));
      StillBehind(trace, x, id, ca);
      assert IsReturned(trace + [x], id, st, ca, re);
    }
  }

  lemma {:induction false} CallReturns(trace: seq<Event>, id: nat)
    requires HasReached(trace, id, 2)
    ensures HasReached(trace + [Returned(id)], id, 3)
  {
    var x := Returned(id);
    var st, ca :| IsCalled(trace, id, st, ca) && Never(trace, x);
    OwnEvent(trace, x);
    OtherEvent(trace, x, Start(id), st);
    OtherEvent(trace, x, Called(id), ca);
    OtherEvent(trace, x, Result(id), ca);
    StillBehind(trace, x, id, ca);
    assert IsReturned(trace + [x], id, st, ca, |trace|);
  }

  lemma {:induction false} CallIsReported(trace: seq<Event>, id: nat)
    requires HasReached(trace, id, 3)
    ensures HasReached(trace + [Result(id)], id, 4)
  {
    var x := Result(id);
    var st, ca, re :| IsReturned(trace, id, st, ca, re) && Never(trace, x);
    OwnEvent(trace, x);
    OtherEvent(trace, x, Start(id), st);
    OtherEvent(trace, x, Called(id), ca);
    OtherEvent(trace, x, Returned(id), re);
    StillBehind(trace, x, id, ca);
    StillBefore(trace, x, id, |trace|);
    assert IsReported(trace + [x], id, st, ca, re, |trace|);
  }

  lemma {:induction false} NextStage(trace: seq<Event>, id: nat, stage: nat, x: Event)
    requires HasReached(trace, id, stage) && stage <= 4 && x.id == id
    ensures HasReached(trace + [x], id, Advance(stage, x))
  {
    match x {
      case Start(_) => if stage == 0 { CallStarts(trace, id); }
      case Called(_) => if stage == 1 { CallIsMade(trace, id); }
      case Progress(_) => if stage == 2 || stage == 3 { CallProgresses(trace, id, stage); }
      case Returned(_) => if stage == 2 { CallReturns(trace, id); }
      case Result(_) => if stage == 3 { CallIsReported(trace, id); }
    }
  }

  /** The stage of a call tells which of its events have happened, and in which order. */
  lemma {:induction false} StageMeans(trace: seq<Event>, id: nat)
    ensures HasReached(trace, id, Stage(trace, id))
  {
    if trace != [] {
      var n := |trace| - 1;
      StageMeans(trace[..n], id);
      assert trace == trace[..n] + [trace[n]];
      var before := Stage(trace[..n], id);
      if trace[n].id != id {
        OtherCall(trace[..n], id, before, trace[n]);
      } else if before <= 4 {
        NextStage(trace[..n], id, before, trace[n]);
      }
    }
  }

  /** In every finished run each call has one start, is called once, returns once and has one result, in that
      order, and shows all of its progress between its call and its result. */
  lemma {:induction false} EveryCallInOrder(cfg: Config, steps: seq<Step>, s: State, b: int, i: int)
    returns (st: int, ca: int, re: int, end: int)
    requires ConfigOk(cfg) && After(cfg, steps) == Some(s) && Done(cfg, s) && InRange(cfg, b, i)
    ensures IsReported(s.trace, CallAt(cfg, b, i).id, st, ca, re, end)
  {
    FinishedRun(cfg, steps, s);
    StageMeans(s.trace, CallAt(cfg, b, i).id);
    st, ca, re, end :| IsReported(s.trace, CallAt(cfg, b, i).id, st, ca, re, end);
  }

  // ----- All calls -----

  /** Place of a call in submission order. */
  function Place(cfg: Config, b: int, i: int): nat
    requires InRange(cfg, b, i)
  {
    |IdsUpTo(cfg, b)| + i
  }

  lemma {:induction false} IdAtPlace(cfg: Config, n: nat, b: int, i: int)
    requires InRange(cfg, b, i) && b < n <= |cfg.batches|
    ensures Place(cfg, b, i) < |IdsUpTo(cfg, n)| && IdsUpTo(cfg, n)[Place(cfg, b, i)] == CallAt(cfg, b, i).id
    decreases n
  {
    if b < n - 1 { IdAtPlace(cfg, n - 1, b, i); }
  }

  lemma {:induction false} PlacesGrow(cfg: Config, b: int, i: int, c: int, j: int)
    requires InRange(cfg, b, i) && InRange(cfg, c, j) && (b < c || (b == c && i < j))
    ensures Place(cfg, b, i) < Place(cfg, c, j)
  {
    if b < c { IdAtPlace(cfg, c, b, i); }
  }

  /** The n-th result of a trace stands behind n results. */
  lemma {:induction false} ResultAt(trace: seq<Event>, p: nat)
    requires p < |trace| && trace[p].Result?
    ensures |Results(trace[..p])| < |Results(trace)| && Results(trace)[|Results(trace[..p])|] == trace[p].id
    decreases |trace|
  {
    var n := |trace| - 1;
    if p < n {
      ResultAt(trace[..n], p);
      assert trace[..n][..p] == trace[..p];
    }
  }

  lemma {:induction false} ResultsGrow(trace: seq<Event>, p: nat, q: nat)
    requires p <= q <= |trace|
    ensures |Results(trace[..p])| <= |Results(trace[..q])|
    decreases q
  {
    if p < q {
      ResultsGrow(trace, p, q - 1);
      assert trace[..q][..q - 1] == trace[..q - 1];
    }
  }

  lemma {:induction false} ResultPlace(cfg: Config, trace: seq<Event>, b: int, i: int, p: nat)
    requires ConfigOk(cfg) && Results(trace) == IdsUpTo(cfg, |cfg.batches|) && InRange(cfg, b, i)
    requires p < |trace| && trace[p] == Result(CallAt(cfg, b, i).id)
    ensures |Results(trace[..p])| == Place(cfg, b, i)
  {
    ResultAt(trace, p);
    IdAtPlace(cfg, |cfg.batches|, b, i);
    var c, j := CallOfPlace(cfg, |cfg.batches|, |Results(trace[..p])|);
  }

  lemma {:induction false} CallOfPlace(cfg: Config, n: nat, k: nat) returns (b: int, i: int)
    requires n <= |cfg.batches| && k < |IdsUpTo(cfg, n)|
    ensures InRange(cfg, b, i) && b < n && Place(cfg, b, i) == k && IdsUpTo(cfg, n)[k] == CallAt(cfg, b, i).id
  {
    if k < |IdsUpTo(cfg, n - 1)| {
      b, i := CallOfPlace(cfg, n - 1, k);
    } else {
      b, i := n - 1, k - |IdsUpTo(cfg, n - 1)|;
    }
  }

  /** In every finished run the results come in submission order, whichever call finishes first, and no call
      starts before the results of the earlier batches. */
  lemma {:induction false} ResultsInOrder(cfg: Config, steps: seq<Step>, s: State, b: int, i: int, c: int, j: int,
                                          p: nat, q: nat)
    requires ConfigOk(cfg) && After(cfg, steps) == Some(s) && Done(cfg, s)
    requires InRange(cfg, b, i) && InRange(cfg, c, j) && p < |s.trace| && q < |s.trace|
    requires s.trace[p] == Result(CallAt(cfg, b, i).id)
    ensures s.trace[q] == Result(CallAt(cfg, c, j).id) && (b < c || (b == c && i < j)) ==> p < q
    ensures s.trace[q] == Start(CallAt(cfg, c, j).id) && b < c ==> p < q
  {
    var trace := s.trace;
    FinishedRun(cfg, steps, s);
    IdsOfAll(cfg, |cfg.batches|);
    assert cfg.batches[..|cfg.batches|] == cfg.batches;
    ResultPlace(cfg, trace, b, i, p);
    if trace[q] == Result(CallAt(cfg, c, j).id) {
      ResultPlace(cfg, trace, c, j, q);
      if b < c || (b == c && i < j) { PlacesGrow(cfg, b, i, c, j); }
      if q <= p { ResultsGrow(trace, q, p); }
    } else if trace[q] == Start(CallAt(cfg, c, j).id) && b < c {
      assert Results(trace[..q]) == IdsUpTo(cfg, c);
      IdAtPlace(cfg, c, b, i);
      if q <= p { ResultsGrow(trace, q, p); }
    }
  }

  // ----- Calls that run -----

  /** The call has been made and has not returned. */
  predicate IsRunning(cfg: Config, trace: seq<Event>, b: int, i: int) {
    InRange(cfg, b, i) && Called(CallAt(cfg, b, i).id) in trace && Returned(CallAt(cfg, b, i).id) !in trace
  }

  lemma {:induction false} RunningStage(trace: seq<Event>, id: nat)
    requires Stage(trace, id) <= 4
    ensures Called(id) in trace && Returned(id) !in trace <==> Stage(trace, id) == 2
  {
    StageMeans(trace, id);
    match Stage(trace, id) {
      case 0 =>
        assert Called(id) in trace ==> Called(id).id != id;
      case 1 =>
      case 2 =>
        var st, ca :| IsCalled(trace, id, st, ca) && Never(trace, Returned(id));
        assert trace[ca] in trace;
      case 3 =>
        var st, ca, re :| IsReturned(trace, id, st, ca, re) && Never(trace, Result(id));
        assert trace[re] in trace;
      case _ =>
        var st, ca, re, end :| IsReported(trace, id, st, ca, re, end);
        assert trace[re] in trace;
    }
  }

  lemma {:induction false} RunningIsCalling(cfg: Config, s: State, b: int, i: int)
    requires Inv(cfg, s) && IsRunning(cfg, s.trace, b, i)
    ensures b == s.batch && s.phase.Working? && 0 <= i < |s.phase.workers| && s.phase.workers[i].Calling?
  {
    var id := CallAt(cfg, b, i).id;
    assert Stage(s.trace, id) == Expected(cfg, s, b, i);
    RunningStage(s.trace, id);
  }

  /** While an unsafe call runs, every other call has had its result or has not been announced. */
  lemma {:induction false} UnsafeIsAlone(cfg: Config, steps: seq<Step>, s: State, b: int, i: int, c: int, j: int)
    requires ConfigOk(cfg) && After(cfg, steps) == Some(s) && IsRunning(cfg, s.trace, b, i)
    requires !CallAt(cfg, b, i).safe && InRange(cfg, c, j) && (b != c || i != j)
    ensures Result(CallAt(cfg, c, j).id) in s.trace || forall e :: e in s.trace ==> e.id != CallAt(cfg, c, j).id
  {
    RunInv(cfg, steps, s);
    var id := CallAt(cfg, c, j).id;
    assert Stage(s.trace, CallAt(cfg, b, i).id) == Expected(cfg, s, b, i);
    RunningStage(s.trace, CallAt(cfg, b, i).id);
    UnsafeRunsAlone(cfg, steps, s, b, i, c, j);
    StageMeans(s.trace, id);
    if Stage(s.trace, id) == 4 {
      var st, ca, re, end :| IsReported(s.trace, id, st, ca, re, end);
      assert s.trace[end] in s.trace;
    }
  }

  /** The goroutines whose tool runs. */
  function CallingAt(ws: seq<Worker>): (r: set<int>)
    ensures forall i :: 0 <= i < |ws| && ws[i].Calling? ==> i in r
  {
    if ws == [] then {} else CallingAt(ws[..|ws| - 1]) + if ws[|ws| - 1].Calling? then {|ws| - 1} else {}
  }

  lemma {:induction false} CallingIsActive(ws: seq<Worker>)
    ensures |CallingAt(ws)| <= Active(ws)
  {
    if ws != [] { CallingIsActive(ws[..|ws| - 1]); }
  }

  /** At no time are more calls running than the limit allows. */
  lemma {:induction false} NeverTooMany(cfg: Config, steps: seq<Step>, s: State, some: set<(int, int)>)
    requires ConfigOk(cfg) && After(cfg, steps) == Some(s)
    requires forall x :: x in some ==> IsRunning(cfg, s.trace, x.0, x.1)
    ensures |some| <= cfg.limit
  {
    RunInv(cfg, steps, s);
    if some != {} {
      forall x | x in some
        ensures x.0 == s.batch && s.phase.Working? && 0 <= x.1 < |s.phase.workers| && s.phase.workers[x.1].Calling?
      {
        RunningIsCalling(cfg, s, x.0, x.1);
      }
      CallingIsActive(s.phase.workers);
      NoMore(some, s.batch, CallingAt(s.phase.workers));
    }
  }

  lemma {:induction false} NoMore(some: set<(int, int)>, b: int, places: set<int>)
    requires forall x :: x in some ==> x.0 == b && x.1 in places
    ensures |some| <= |places|
  {
    if some != {} {
      var x :| x in some;
      NoMore(some - {x}, b, places - {x.1});
    }
  }
}
